/**
  What the grouping pass guarantees about the table it builds: where each
  route is filed, that merging a namespace's fields never loses a filed
  route, and that every bucket carries exactly its namespace's fields.
*/
module GroupingFacts {
  import opened JsValues
  import opened Grouping

  /** Filing one route under one category adds exactly that placement and keeps every other. */
  lemma {:induction false} InsertKeepsRoutes(st: DocsState, c0: string, n0: string, p0: string, rest: Record,
                                             c: string, n: string, p: string)
    ensures Has(InsertRoute(st, c0, n0, p0, rest), c, n, p) <==>
      Has(st, c, n, p) || (c == c0 && n == n0 && p == p0)
  {
    var st' := InsertRoute(st, c0, n0, p0, rest);
    if c == c0 && n == n0 {
      RouteKeyInjective(n, p, p0);
      var b := BucketOf(st, c, n);
      assert st'.table.vals[c].vals[n].routes == Put(b.routes, RouteKey(n0, p0), (n0, p0));
      if HasBucket(st, c, n) {
        assert b == st.table.vals[c].vals[n];
      }
    } else if c == c0 {
      assert st'.table.vals[c] == Put(CategoryOf(st, c), n0, st'.table.vals[c].vals[n0]);
      assert HasBucket(st', c, n) <==> HasBucket(st, c, n);
      if HasBucket(st, c, n) {
        assert st'.table.vals[c].vals[n] == st.table.vals[c].vals[n];
      }
    } else {
      assert HasBucket(st', c, n) <==> HasBucket(st, c, n);
      if HasBucket(st, c, n) {
        assert st'.table.vals[c] == st.table.vals[c];
      }
    }
  }

  lemma {:induction false} InsertAllPlaces(st: DocsState, n0: string, p0: string, rest: Record, cats: seq<string>,
                                           c: string, n: string, p: string)
    ensures Has(InsertAll(st, n0, p0, rest, cats), c, n, p) <==>
      Has(st, c, n, p) || (n == n0 && p == p0 && c in cats)
    decreases |cats|
  {
    if cats != [] {
      InsertKeepsRoutes(st, cats[0], n0, p0, rest, c, n, p);
      InsertAllPlaces(InsertRoute(st, cats[0], n0, p0, rest), n0, p0, rest, cats[1..], c, n, p);
      assert c in cats <==> c == cats[0] || c in cats[1..];
    }
  }

  lemma {:induction false} GroupRoutesPlaces(st: DocsState, n0: string, ns: Namespace, d: Value, ps: seq<string>,
                                             c: string, n: string, p: string)
    ensures Has(GroupRoutes(st, n0, ns, d, ps), c, n, p) <==>
      Has(st, c, n, p) ||
      (n == n0 && p in ps && c in EffectiveCategories(ns, RouteOf(ns.routes, p), d))
    decreases |ps|
  {
    if ps != [] {
      var data := RouteOf(ns.routes, ps[0]);
      var st1 := DocsState(st.table, st.store[(n0, ps[0]) := data]);
      var cats := EffectiveCategories(ns, data, d);
      assert Has(st1, c, n, p) <==> Has(st, c, n, p);
      InsertAllPlaces(st1, n0, ps[0], ns.info, cats, c, n, p);
      GroupRoutesPlaces(InsertAll(st1, n0, ps[0], ns.info, cats), n0, ns, d, ps[1..], c, n, p);
      assert p in ps <==> p == ps[0] || p in ps[1..];
    }
  }

  /** The route's placements for namespaces visited by `GroupNamespaces`. */
  ghost predicate Filed(reg: Registry, nsKeys: seq<string>, c: string, n: string, p: string) {
    var ns := NamespaceOf(reg, n);
    n in nsKeys && p in ns.routes.keys && c in EffectiveCategories(ns, RouteOf(ns.routes, p), DefaultCategory(ns))
  }

  lemma {:induction false} GroupNamespacesPlaces(st: DocsState, reg: Registry, nsKeys: seq<string>,
                                                 c: string, n: string, p: string)
    ensures Has(GroupNamespaces(st, reg, nsKeys), c, n, p) <==> Has(st, c, n, p) || Filed(reg, nsKeys, c, n, p)
    decreases |nsKeys|
  {
    if nsKeys != [] {
      var ns := NamespaceOf(reg, nsKeys[0]);
      var st1 := GroupRoutes(st, nsKeys[0], ns, DefaultCategory(ns), ns.routes.keys);
      GroupRoutesPlaces(st, nsKeys[0], ns, DefaultCategory(ns), ns.routes.keys, c, n, p);
      GroupNamespacesPlaces(st1, reg, nsKeys[1..], c, n, p);
      assert n in nsKeys <==> n == nsKeys[0] || n in nsKeys[1..];
    }
  }

  /** Route placement: route `p` of namespace `n` is filed under `/n+p` in bucket
      `c`/`n` exactly when `c` is one of its effective categories. */
  lemma Placement(reg: Registry, c: string, n: string, p: string)
    ensures Has(Grouped(reg), c, n, p) <==>
      var ns := NamespaceOf(reg, n);
      n in reg.keys && p in ns.routes.keys &&
      c in EffectiveCategories(ns, RouteOf(ns.routes, p), DefaultCategory(ns))
  {
    GroupNamespacesPlaces(EmptyState, reg, reg.keys, c, n, p);
  }

  /** Lines 40-46 on a fresh bucket: spreading the namespace's fields into `{ routes: {} }`
      yields exactly those fields, in their order. */
  lemma SpreadIntoEmpty(r: Record)
    requires ValidDict(r)
    ensures SpreadInto(Empty(), r, r.keys) == r
  {
    var e: Record := Empty();
    var s := SpreadInto(e, r, r.keys);
    assert forall k :: k in r.keys ==> k !in e.vals;
    assert s.keys == e.keys + r.keys;
    assert s.keys == r.keys;
    MapExt(s.vals, r.vals);
  }

  /** Re-merging a bucket's own fields changes nothing (the "last write wins" of lines 45-46). */
  lemma {:induction false} SpreadIntoSelf(r: Record, ks: seq<string>)
    requires forall k :: k in ks ==> k in r.vals
    ensures SpreadInto(r, r, ks) == r
    decreases |ks|
  {
    if ks != [] {
      assert Put(r, ks[0], Get(r, ks[0])) == r;
      SpreadIntoSelf(r, ks[1..]);
    }
  }

  /** Filing a route keeps the table well formed and every entry pointing at its own route. */
  lemma InsertPreserves(st: DocsState, c0: string, n0: string, p0: string, rest: Record)
    requires Tidy(st) && Shaped(st) && (n0, p0) in st.store
    ensures Tidy(InsertRoute(st, c0, n0, p0, rest)) && Shaped(InsertRoute(st, c0, n0, p0, rest))
  {
    var st' := InsertRoute(st, c0, n0, p0, rest);
    assert st'.store == st.store;
    forall c, n | HasBucket(st', c, n)
      ensures ValidDict(st'.table.vals[c].vals[n].routes) && st'.table.vals[c].vals[n].routes.vals != map[]
      ensures forall rp :: rp in st'.table.vals[c].vals[n].routes.vals ==>
        var id := st'.table.vals[c].vals[n].routes.vals[rp];
        id.0 == n && rp == RouteKey(n, id.1) && id in st'.store
    {
      if c == c0 && n == n0 {
        assert st'.table.vals[c].vals[n].routes == Put(BucketOf(st, c, n).routes, RouteKey(n0, p0), (n0, p0));
      } else if c == c0 {
        assert st'.table.vals[c].vals[n] == st.table.vals[c].vals[n];
      } else {
        assert st'.table.vals[c] == st.table.vals[c];
      }
    }
    forall c | c in st'.table.vals
      ensures ValidDict(st'.table.vals[c]) && st'.table.vals[c].vals != map[]
    {
      if c == c0 {
        assert n0 in st'.table.vals[c].vals;
      } else {
        assert st'.table.vals[c] == st.table.vals[c];
      }
    }
  }

  /** A bucket of namespace `n0` only ever receives `n0`'s own fields. */
  lemma InsertKeepsFields(st: DocsState, reg: Registry, c0: string, n0: string, p0: string)
    requires FieldsFrom(st, reg) && ValidDict(NamespaceOf(reg, n0).info)
    ensures FieldsFrom(InsertRoute(st, c0, n0, p0, NamespaceOf(reg, n0).info), reg)
  {
    var st' := InsertRoute(st, c0, n0, p0, NamespaceOf(reg, n0).info);
    forall c, n | HasBucket(st', c, n)
      ensures st'.table.vals[c].vals[n].fields == NamespaceOf(reg, n).info
    {
      InsertKeepsFieldsAt(st, reg, c0, n0, p0, c, n);
    }
  }

  lemma InsertKeepsFieldsAt(st: DocsState, reg: Registry, c0: string, n0: string, p0: string, c: string, n: string)
    requires FieldsFrom(st, reg) && ValidDict(NamespaceOf(reg, n0).info)
    requires HasBucket(InsertRoute(st, c0, n0, p0, NamespaceOf(reg, n0).info), c, n)
    ensures InsertRoute(st, c0, n0, p0, NamespaceOf(reg, n0).info).table.vals[c].vals[n].fields == NamespaceOf(reg, n).info
  {
    var info := NamespaceOf(reg, n0).info;
    var st' := InsertRoute(st, c0, n0, p0, info);
    if c == c0 && n == n0 {
      var b := BucketOf(st, c, n);
      assert st'.table.vals[c].vals[n].fields == SpreadInto(b.fields, info, info.keys);
      if HasBucket(st, c, n) {
        assert b.fields == info;
        SpreadIntoSelf(info, info.keys);
      } else {
        assert b.fields == Empty();
        SpreadIntoEmpty(info);
      }
    } else if c == c0 {
      assert st'.table.vals[c].vals[n] == st.table.vals[c].vals[n];
    } else {
      assert st'.table.vals[c] == st.table.vals[c];
    }
  }

  ghost predicate Invariant(st: DocsState, reg: Registry) {
    Tidy(st) && Shaped(st) && FieldsFrom(st, reg)
  }

  lemma {:induction false} InsertAllPreserves(st: DocsState, reg: Registry, n: string, p: string, cats: seq<string>)
    requires Invariant(st, reg) && (n, p) in st.store && ValidDict(NamespaceOf(reg, n).info)
    ensures Invariant(InsertAll(st, n, p, NamespaceOf(reg, n).info, cats), reg)
    ensures InsertAll(st, n, p, NamespaceOf(reg, n).info, cats).store == st.store
    decreases |cats|
  {
    if cats != [] {
      var info := NamespaceOf(reg, n).info;
      InsertPreserves(st, cats[0], n, p, info);
      InsertKeepsFields(st, reg, cats[0], n, p);
      InsertAllPreserves(InsertRoute(st, cats[0], n, p, info), reg, n, p, cats[1..]);
    }
  }

  lemma {:induction false} GroupRoutesPreserves(st: DocsState, reg: Registry, n: string, d: Value, ps: seq<string>)
    requires Invariant(st, reg) && ValidDict(NamespaceOf(reg, n).info)
    ensures Invariant(GroupRoutes(st, n, NamespaceOf(reg, n), d, ps), reg)
    decreases |ps|
  {
    if ps != [] {
      var ns := NamespaceOf(reg, n);
      var data := RouteOf(ns.routes, ps[0]);
      var st1 := DocsState(st.table, st.store[(n, ps[0]) := data]);
      assert Invariant(st1, reg) by {
        assert forall c, m :: HasBucket(st1, c, m) <==> HasBucket(st, c, m);
      }
      var cats := EffectiveCategories(ns, data, d);
      InsertAllPreserves(st1, reg, n, ps[0], cats);
      GroupRoutesPreserves(InsertAll(st1, n, ps[0], ns.info, cats), reg, n, d, ps[1..]);
    }
  }

  lemma {:induction false} GroupNamespacesPreserves(st: DocsState, reg: Registry, nsKeys: seq<string>)
    requires Invariant(st, reg)
    requires forall n :: n in reg.vals ==> ValidDict(reg.vals[n].info)
    ensures Invariant(GroupNamespaces(st, reg, nsKeys), reg)
    decreases |nsKeys|
  {
    if nsKeys != [] {
      var ns := NamespaceOf(reg, nsKeys[0]);
      assert ValidDict(ns.info);
      GroupRoutesPreserves(st, reg, nsKeys[0], DefaultCategory(ns), ns.routes.keys);
      GroupNamespacesPreserves(GroupRoutes(st, nsKeys[0], ns, DefaultCategory(ns), ns.routes.keys), reg, nsKeys[1..]);
    }
  }

  /** The grouped table is well formed, every entry under `/n+p` is route `p` of namespace
      `n`, and every bucket carries exactly its namespace's fields (the repeated merge of
      lines 45-46 changes nothing). */
  lemma GroupedInvariant(reg: Registry)
    requires forall n :: n in reg.vals ==> ValidDict(reg.vals[n].info)
    ensures Invariant(Grouped(reg), reg)
  {
    GroupNamespacesPreserves(EmptyState, reg, reg.keys);
  }

  /** No stray placements: every entry of the grouped table is a registry route filed
      under one of its own effective categories. */
  lemma NoStrayRoutes(reg: Registry, c: string, n: string, rp: string)
    requires forall n :: n in reg.vals ==> ValidDict(reg.vals[n].info)
    requires HasBucket(Grouped(reg), c, n) && rp in Grouped(reg).table.vals[c].vals[n].routes.vals
    ensures var id := Grouped(reg).table.vals[c].vals[n].routes.vals[rp];
      var ns := NamespaceOf(reg, n);
      && id == (n, id.1) && rp == RouteKey(n, id.1)
      && n in reg.keys && id.1 in ns.routes.keys
      && c in EffectiveCategories(ns, RouteOf(ns.routes, id.1), DefaultCategory(ns))
  {
    GroupedInvariant(reg);
    var id := Grouped(reg).table.vals[c].vals[n].routes.vals[rp];
    assert Has(Grouped(reg), c, n, id.1);
    Placement(reg, c, n, id.1);
  }
}
