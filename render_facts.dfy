/**
  What one `generateMd` call guarantees: which routes of a namespace it
  renders (the `path[0]` deduplication), what it does to the route data
  objects and to the buckets, which categories it accepts and which error it
  reports, and which texts it returns.
*/
module RenderFacts {
  import opened Wrappers
  import opened JsValues
  import opened Grouping
  import opened Ordering
  import opened Localize
  import opened Render

  /** The `path` field of the route data object that the entry `rp` refers to. */
  function PathOf(store: map<RouteId, Record>, routes: ODict<RouteId>, rp: string): Value {
    Get(StoreGet(store, IdOf(routes, rp)), "path")
  }

  /** Some route before position `i` has an array `path` with the same first element. */
  ghost predicate EarlierSameHead(store: map<RouteId, Record>, routes: ODict<RouteId>, rps: seq<string>, i: nat)
    requires i < |rps|
  {
    exists j :: 0 <= j < i && PathOf(store, routes, rps[j]).VArr? &&
      Index0(PathOf(store, routes, rps[j])) == Index0(PathOf(store, routes, rps[i]))
  }

  /** Route `i` is skipped: its `path` is an array whose first element was seen before
      the loop started (`seen`) or at an earlier route of the loop. */
  ghost predicate Skipped(seen: set<Value>, store: map<RouteId, Record>, routes: ODict<RouteId>, rps: seq<string>, i: nat)
    requires i < |rps|
  {
    var p := PathOf(store, routes, rps[i]);
    p.VArr? && (Index0(p) in seen || EarlierSameHead(store, routes, rps, i))
  }

  /** The entries `rps` refer to pairwise different route data objects. */
  ghost predicate IdsDistinct(routes: ODict<RouteId>, rps: seq<string>) {
    forall i, j :: 0 <= i < j < |rps| ==> IdOf(routes, rps[i]) != IdOf(routes, rps[j])
  }

  /** One pass of the route loop changes at most the data object of its own entry. */
  lemma RouteStepStore(acc: RouteAcc, n: string, u: Value, routes: ODict<RouteId>, rp: string, env: Env, id: RouteId)
    requires id != IdOf(routes, rp)
    ensures StoreGet(RouteStep(acc, n, u, routes, rp, env).store, id) == StoreGet(acc.store, id)
  {
  }

  /** The skip rule shifted by one entry: when the later store reads every later `path` as the
      earlier one does and the seen set has gained exactly the first entry's `path[0]`. */
  lemma SkippedShiftFrom(seen: set<Value>, store: map<RouteId, Record>, seen1: set<Value>, store1: map<RouteId, Record>,
                         routes: ODict<RouteId>, rps: seq<string>, i: nat)
    requires 0 < i < |rps|
    requires forall j :: 1 <= j < |rps| ==> PathOf(store1, routes, rps[j]) == PathOf(store, routes, rps[j])
    requires var p0 := PathOf(store, routes, rps[0]);
      seen1 == seen + (if p0.VArr? then {Index0(p0)} else {})
    ensures Skipped(seen1, store1, routes, rps[1..], i - 1) <==> Skipped(seen, store, routes, rps, i)
  {
    var rest := rps[1..];
    var pi := PathOf(store, routes, rps[i]);
    assert rest[i - 1] == rps[i];
    if EarlierSameHead(store, routes, rps, i) {
      var j :| 0 <= j < i && PathOf(store, routes, rps[j]).VArr? &&
        Index0(PathOf(store, routes, rps[j])) == Index0(pi);
      if j > 0 {
        assert rest[j - 1] == rps[j];
        assert EarlierSameHead(store1, routes, rest, i - 1);
      }
    }
    if EarlierSameHead(store1, routes, rest, i - 1) {
      var j :| 0 <= j < i - 1 && PathOf(store1, routes, rest[j]).VArr? &&
        Index0(PathOf(store1, routes, rest[j])) == Index0(PathOf(store1, routes, rest[i - 1]));
      assert rest[j] == rps[j + 1];
      assert EarlierSameHead(store, routes, rps, i);
    }
  }

  /** After the first pass the skip rule for the rest of the loop reads the same as for the whole loop. */
  lemma SkippedShift(acc: RouteAcc, n: string, u: Value, routes: ODict<RouteId>, rps: seq<string>, env: Env, i: nat)
    requires IdsDistinct(routes, rps) && 0 < i < |rps|
    ensures Skipped(RouteStep(acc, n, u, routes, rps[0], env).seen, RouteStep(acc, n, u, routes, rps[0], env).store,
                    routes, rps[1..], i - 1)
      <==> Skipped(acc.seen, acc.store, routes, rps, i)
  {
    var acc1 := RouteStep(acc, n, u, routes, rps[0], env);
    forall j | 1 <= j < |rps|
      ensures PathOf(acc1.store, routes, rps[j]) == PathOf(acc.store, routes, rps[j])
    {
      RouteStepStore(acc, n, u, routes, rps[0], env, IdOf(routes, rps[j]));
    }
    var p0 := PathOf(acc.store, routes, rps[0]);
    assert acc1.seen == acc.seen + (if p0.VArr? then {Index0(p0)} else {});
    SkippedShiftFrom(acc.seen, acc.store, acc1.seen, acc1.store, routes, rps, i);
  }


  /** One pass of the route loop: a skipped entry changes nothing, a rendered one is
      appended to `shown`, records its `path[0]` and has its data object localized. */
  lemma RouteStepFacts(acc: RouteAcc, n: string, u: Value, routes: ODict<RouteId>, rps: seq<string>, env: Env)
    requires |rps| > 0
    ensures var acc1 := RouteStep(acc, n, u, routes, rps[0], env);
      var p0 := PathOf(acc.store, routes, rps[0]);
      && acc1.seen == acc.seen + (if p0.VArr? then {Index0(p0)} else {})
      && (Skipped(acc.seen, acc.store, routes, rps, 0) ==> acc1 == acc)
      && (!Skipped(acc.seen, acc.store, routes, rps, 0) ==>
            acc1.shown == acc.shown + {rps[0]} &&
            StoreGet(acc1.store, IdOf(routes, rps[0])) == Localized(StoreGet(acc.store, IdOf(routes, rps[0])), env.lang))
  {
    assert !EarlierSameHead(acc.store, routes, rps, 0);
  }

  lemma IdsDistinctTail(routes: ODict<RouteId>, rps: seq<string>)
    requires |rps| > 0 && IdsDistinct(routes, rps)
    ensures IdsDistinct(routes, rps[1..])
    ensures forall i :: 0 <= i < |rps| - 1 ==> IdOf(routes, rps[1..][i]) != IdOf(routes, rps[0])
    ensures rps[0] !in rps[1..]
  {
    var rest := rps[1..];
    forall i, j | 0 <= i < j < |rest| ensures IdOf(routes, rest[i]) != IdOf(routes, rest[j]) {
      assert rest[i] == rps[i + 1] && rest[j] == rps[j + 1];
    }
    forall i | 0 <= i < |rest| ensures IdOf(routes, rest[i]) != IdOf(routes, rps[0]) {
      assert rest[i] == rps[i + 1];
    }
  }

  /** Deduplication (lines 111-120): the route loop of one namespace renders exactly the
      entries the skip rule lets through, and nothing else. */
  lemma {:induction false} RoutesFoldShown(acc: RouteAcc, n: string, u: Value, routes: ODict<RouteId>,
                                           rps: seq<string>, env: Env)
    requires IdsDistinct(routes, rps)
    ensures var out := RoutesFold(acc, n, u, routes, rps, env);
      && acc.shown <= out.shown
      && (forall x :: x in out.shown ==> x in acc.shown || x in rps)
      && (forall i :: 0 <= i < |rps| ==>
            (rps[i] in out.shown <==> rps[i] in acc.shown || !Skipped(acc.seen, acc.store, routes, rps, i)))
    decreases |rps|
  {
    if rps != [] {
      var out := RoutesFold(acc, n, u, routes, rps, env);
      var acc1 := RouteStep(acc, n, u, routes, rps[0], env);
      var rest := rps[1..];
      IdsDistinctTail(routes, rps);
      RouteStepFacts(acc, n, u, routes, rps, env);
      RoutesFoldShown(acc1, n, u, routes, rest, env);
      assert out == RoutesFold(acc1, n, u, routes, rest, env);
      forall x | x in out.shown ensures x in acc.shown || x in rps {
        if x in rest { assert x in rps; }
      }
      forall i | 0 < i < |rps|
        ensures (rps[i] in out.shown <==> rps[i] in acc.shown || !Skipped(acc.seen, acc.store, routes, rps, i))
      {
        SkippedShift(acc, n, u, routes, rps, env, i);
        assert rest[i - 1] == rps[i];
        assert rps[i] != rps[0];
      }
    }
  }

  /** The route loop leaves alone every data object that none of its entries refers to. */
  lemma {:induction false} RoutesFoldOthers(acc: RouteAcc, n: string, u: Value, routes: ODict<RouteId>,
                                            rps: seq<string>, env: Env, id: RouteId)
    requires forall i :: 0 <= i < |rps| ==> IdOf(routes, rps[i]) != id
    ensures StoreGet(RoutesFold(acc, n, u, routes, rps, env).store, id) == StoreGet(acc.store, id)
    decreases |rps|
  {
    if rps != [] {
      var rest := rps[1..];
      forall i | 0 <= i < |rest| ensures IdOf(routes, rest[i]) != id {
        assert rest[i] == rps[i + 1];
      }
      RouteStepStore(acc, n, u, routes, rps[0], env, id);
      RoutesFoldOthers(RouteStep(acc, n, u, routes, rps[0], env), n, u, routes, rest, env, id);
    }
  }

  /** What the route loop of one namespace does to the route data objects: each rendered
      route's object is localized in place, every other object is left as it was. */
  lemma {:induction false} RoutesFoldStore(acc: RouteAcc, n: string, u: Value, routes: ODict<RouteId>,
                                           rps: seq<string>, env: Env)
    requires IdsDistinct(routes, rps)
    ensures var out := RoutesFold(acc, n, u, routes, rps, env);
      && (forall i :: 0 <= i < |rps| && !Skipped(acc.seen, acc.store, routes, rps, i) ==>
            StoreGet(out.store, IdOf(routes, rps[i])) == Localized(StoreGet(acc.store, IdOf(routes, rps[i])), env.lang))
      && (forall i :: 0 <= i < |rps| && Skipped(acc.seen, acc.store, routes, rps, i) ==>
            StoreGet(out.store, IdOf(routes, rps[i])) == StoreGet(acc.store, IdOf(routes, rps[i])))
      && (forall id :: (forall i :: 0 <= i < |rps| ==> IdOf(routes, rps[i]) != id) ==>
            StoreGet(out.store, id) == StoreGet(acc.store, id))
    decreases |rps|
  {
    forall id | forall i :: 0 <= i < |rps| ==> IdOf(routes, rps[i]) != id
      ensures StoreGet(RoutesFold(acc, n, u, routes, rps, env).store, id) == StoreGet(acc.store, id)
    {
      RoutesFoldOthers(acc, n, u, routes, rps, env, id);
    }
    if rps != [] {
      var out := RoutesFold(acc, n, u, routes, rps, env);
      var id0 := IdOf(routes, rps[0]);
      var acc1 := RouteStep(acc, n, u, routes, rps[0], env);
      var rest := rps[1..];
      IdsDistinctTail(routes, rps);
      RouteStepFacts(acc, n, u, routes, rps, env);
      RoutesFoldStore(acc1, n, u, routes, rest, env);
      assert out == RoutesFold(acc1, n, u, routes, rest, env);
      RoutesFoldOthers(acc1, n, u, routes, rest, env, id0);
      forall i | 0 < i < |rps|
        ensures !Skipped(acc.seen, acc.store, routes, rps, i) ==>
          StoreGet(out.store, IdOf(routes, rps[i])) == Localized(StoreGet(acc.store, IdOf(routes, rps[i])), env.lang)
        ensures Skipped(acc.seen, acc.store, routes, rps, i) ==>
          StoreGet(out.store, IdOf(routes, rps[i])) == StoreGet(acc.store, IdOf(routes, rps[i]))
      {
        SkippedShift(acc, n, u, routes, rps, env, i);
        assert rest[i - 1] == rps[i];
        RouteStepStore(acc, n, u, routes, rps[0], env, IdOf(routes, rps[i]));
      }
    }
  }

  /** A sequence has no repeated element exactly when no element occurs twice in its multiset. */
  lemma {:induction false} DistinctCount(s: seq<string>)
    ensures Distinct(s) <==> forall x :: multiset(s)[x] <= 1
    decreases |s|
  {
    if s != [] {
      DistinctCount(s[1..]);
      assert s == [s[0]] + s[1..];
      assert multiset(s) == multiset{s[0]} + multiset(s[1..]);
      if Distinct(s) {
        assert Distinct(s[1..]) by {
          forall i, j | 0 <= i < j < |s[1..]| ensures s[1..][i] != s[1..][j] {
            assert s[1..][i] == s[i + 1] && s[1..][j] == s[j + 1];
          }
        }
        assert s[0] !in s[1..] by {
          forall j | 0 <= j < |s[1..]| ensures s[1..][j] != s[0] { assert s[1..][j] == s[j + 1]; }
        }
      } else {
        var i, j :| 0 <= i < j < |s| && s[i] == s[j];
        if i == 0 {
          assert s[j] == s[1..][j - 1];
          assert s[0] in multiset(s[1..]);
          assert multiset(s)[s[0]] >= 2;
        } else {
          assert s[1..][i - 1] == s[i] && s[1..][j - 1] == s[j];
          assert !Distinct(s[1..]);
          var x :| multiset(s[1..])[x] > 1;
          assert multiset(s)[x] > 1;
        }
      }
    }
  }

  /** A reordering of keys without repetition has no repetition and the same members. */
  lemma PermutationDistinct(a: seq<string>, b: seq<string>)
    requires multiset(a) == multiset(b) && Distinct(a)
    ensures Distinct(b)
    ensures forall x :: x in a <==> x in b
  {
    DistinctCount(a);
    DistinctCount(b);
    forall x ensures x in a <==> x in b {
      assert x in a <==> x in multiset(a);
      assert x in b <==> x in multiset(b);
    }
  }

  /** In a well-formed bucket, different entries refer to different route data objects. */
  lemma ShapedIdsDistinct(st: DocsState, c: string, n: string, rps: seq<string>)
    requires Shaped(st) && HasBucket(st, c, n) && Distinct(rps)
    requires forall rp :: rp in rps ==> rp in st.table.vals[c].vals[n].routes.vals
    ensures IdsDistinct(st.table.vals[c].vals[n].routes, rps)
  {
    var routes := st.table.vals[c].vals[n].routes;
    forall i, j | 0 <= i < j < |rps| ensures IdOf(routes, rps[i]) != IdOf(routes, rps[j]) {
      assert rps[i] in routes.vals && rps[j] in routes.vals;
      var a, b := routes.vals[rps[i]], routes.vals[rps[j]];
      assert rps[i] == RouteKey(n, a.1) && rps[j] == RouteKey(n, b.1);
    }
  }

  /** Deduplication for one namespace of one category: the `processedPaths` set starts
      empty, and a route in sorted position `i` is rendered exactly unless its `path` is an
      array whose first element an earlier array `path` of that namespace shares; routes
      whose `path` is not an array are always rendered. Rendered routes have their data
      objects localized; nothing else in the store changes. */
  lemma NamespaceDedup(st: DocsState, c: string, n: string, t: string, u: Value, rps: seq<string>, env: Env)
    requires Shaped(st) && HasBucket(st, c, n) && ValidDict(st.table.vals[c].vals[n].routes)
    requires var b := st.table.vals[c].vals[n];
      SortKeys(b.routes.keys, RouteNames(st.store, b.routes), env.pinyin) == Some(rps)
    ensures var routes := st.table.vals[c].vals[n].routes;
      var out := RoutesFold(RouteAcc(st.store, {}, t, {}), n, u, routes, rps, env);
      && (forall x :: x in out.shown ==> x in routes.vals)
      && (forall i :: 0 <= i < |rps| ==>
            (rps[i] in out.shown <==>
              !(PathOf(st.store, routes, rps[i]).VArr? && EarlierSameHead(st.store, routes, rps, i))))
      && (forall i :: 0 <= i < |rps| && rps[i] in out.shown ==>
            StoreGet(out.store, IdOf(routes, rps[i])) == Localized(StoreGet(st.store, IdOf(routes, rps[i])), env.lang))
      && (forall i :: 0 <= i < |rps| && rps[i] !in out.shown ==>
            StoreGet(out.store, IdOf(routes, rps[i])) == StoreGet(st.store, IdOf(routes, rps[i])))
      && (forall id :: (forall rp :: rp in routes.vals ==> routes.vals[rp] != id) ==>
            StoreGet(out.store, id) == StoreGet(st.store, id))
  {
    var routes := st.table.vals[c].vals[n].routes;
    var acc := RouteAcc(st.store, {}, t, {});
    PermutationDistinct(routes.keys, rps);
    ShapedIdsDistinct(st, c, n, rps);
    RoutesFoldShown(acc, n, u, routes, rps, env);
    RoutesFoldStore(acc, n, u, routes, rps, env);
  }
}
