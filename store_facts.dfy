/**
  The route data objects across whole calls. The grouping pass files the
  registry's own route objects (lines 32 and 47), and every render of a route
  overlays and strips its object in place (lines 130-136). A route filed under
  several categories is rendered, and so localized, once per category, so
  across a call an object goes through zero or more overlay-and-strip passes
  for the call's language and is changed in no other way.
*/
module StoreFacts {
  import opened Wrappers
  import opened JsValues
  import opened Grouping
  import opened Ordering
  import opened Localize
  import opened Render

  /** `k` applications of `f`, starting from `r`. */
  function Repeat(f: Record -> Record, r: Record, k: nat): Record
    decreases k
  {
    if k == 0 then r else f(Repeat(f, r, k - 1))
  }

  /** When a second application of `f` changes nothing, any positive number of them equals one. */
  lemma {:induction false} RepeatSettle(f: Record -> Record, r: Record, k: nat)
    requires k >= 1 && f(f(r)) == f(r)
    ensures Repeat(f, r, k) == f(r)
    decreases k
  {
    if k > 1 {
      RepeatSettle(f, r, k - 1);
    }
  }

  /** A fixed point of `f` stays as it is under any number of applications. */
  lemma {:induction false} RepeatFixed(f: Record -> Record, r: Record, k: nat)
    requires f(r) == r
    ensures Repeat(f, r, k) == r
    decreases k
  {
    if k > 0 {
      RepeatFixed(f, r, k - 1);
    }
  }

  /** `k` overlay-and-strip passes in language `lang`. */
  function Passes(r: Record, lang: string, k: nat): Record {
    Repeat(x => Localized(x, lang), r, k)
  }

  lemma PassesStep(r: Record, lang: string, k: nat)
    ensures Passes(r, lang, k + 1) == Localized(Passes(r, lang, k), lang)
  {
  }

  /** `y` is what some number of passes in `lang` make of `x`. */
  ghost predicate Reaches(x: Record, y: Record, lang: string) {
    exists k: nat :: y == Passes(x, lang, k)
  }

  /** Every route data object of `store` is what passes in `lang` made of its
      counterpart in `base`. */
  ghost predicate StoreFrom(base: map<RouteId, Record>, store: map<RouteId, Record>, lang: string) {
    forall id :: Reaches(StoreGet(base, id), StoreGet(store, id), lang)
  }

  lemma ReachesSelf(x: Record, lang: string)
    ensures Reaches(x, x, lang)
  {
    assert x == Passes(x, lang, 0);
  }

  lemma ReachesStep(x: Record, y: Record, lang: string)
    requires Reaches(x, y, lang)
    ensures Reaches(x, Localized(y, lang), lang)
  {
    var k: nat :| y == Passes(x, lang, k);
    PassesStep(x, lang, k);
  }

  /** One or more passes leave no language sub-object, and keep a well-formed record well formed. */
  lemma {:induction false} PassesShape(r: Record, lang: string, k: nat)
    requires k >= 1
    ensures forall l :: l in LanguageList ==> l !in Passes(r, lang, k).vals
    ensures ValidDict(r) ==> ValidDict(Passes(r, lang, k))
    decreases k
  {
    PassesStep(r, lang, k - 1);
    if k > 1 {
      PassesShape(r, lang, k - 1);
      if ValidDict(r) {
        LocalizedKeys(Passes(r, lang, k - 1), lang);
      }
    } else {
      assert Passes(r, lang, 0) == r;
      if ValidDict(r) {
        LocalizedKeys(r, lang);
      }
    }
  }

  /** When a second pass changes nothing, any number of passes equals one. */
  lemma PassesSettle(r: Record, lang: string, k: nat)
    requires k >= 1 && Localized(Localized(r, lang), lang) == Localized(r, lang)
    ensures Passes(r, lang, k) == Localized(r, lang)
  {
    RepeatSettle(x => Localized(x, lang), r, k);
  }

  /** A record already free of the languages' sub-objects stays as it is under passes in
      any of those languages. */
  lemma PassesClean(r: Record, lang: string, k: nat)
    requires ValidDict(r) && lang in LanguageList && forall l :: l in LanguageList ==> l !in r.vals
    ensures Passes(r, lang, k) == r
  {
    WithoutSubObjectOnlyStrips(r, lang);
    StripAbsent(r, LanguageList);
    RepeatFixed(x => Localized(x, lang), r, k);
  }

  lemma RouteStepFrom(base: map<RouteId, Record>, acc: RouteAcc, n: string, u: Value, routes: ODict<RouteId>,
                      rp: string, env: Env)
    requires StoreFrom(base, acc.store, env.lang)
    ensures StoreFrom(base, RouteStep(acc, n, u, routes, rp, env).store, env.lang)
  {
    var acc1 := RouteStep(acc, n, u, routes, rp, env);
    forall id ensures Reaches(StoreGet(base, id), StoreGet(acc1.store, id), env.lang) {
      ReachesStep(StoreGet(base, id), StoreGet(acc.store, id), env.lang);
    }
  }

  lemma {:induction false} RoutesFoldFrom(base: map<RouteId, Record>, acc: RouteAcc, n: string, u: Value,
                                          routes: ODict<RouteId>, rps: seq<string>, env: Env)
    requires StoreFrom(base, acc.store, env.lang)
    ensures StoreFrom(base, RoutesFold(acc, n, u, routes, rps, env).store, env.lang)
    decreases |rps|
  {
    if rps != [] {
      RouteStepFrom(base, acc, n, u, routes, rps[0], env);
      RoutesFoldFrom(base, RouteStep(acc, n, u, routes, rps[0], env), n, u, routes, rps[1..], env);
    }
  }

  lemma NamespaceStepFrom(base: map<RouteId, Record>, st: DocsState, c: string, n: string, text: string, env: Env)
    requires StoreFrom(base, st.store, env.lang)
    requires NamespaceStep(st, c, n, text, env).Ok?
    ensures StoreFrom(base, NamespaceStep(st, c, n, text, env).value.st.store, env.lang)
  {
    var b := BucketOf(st, c, n);
    var fields := Localized(Renamed(b.fields, n), env.lang);
    var rps := SortKeys(b.routes.keys, RouteNames(st.store, b.routes), env.pinyin).value;
    RoutesFoldFrom(base, RouteAcc(st.store, {}, text + NamespaceHeading(fields), {}),
                   n, Get(fields, "url"), b.routes, rps, env);
  }

  lemma {:induction false} NamespacesFoldFrom(base: map<RouteId, Record>, st: DocsState, c: string, nss: seq<string>,
                                              text: string, env: Env)
    requires StoreFrom(base, st.store, env.lang)
    requires NamespacesFold(st, c, nss, text, env).Ok?
    ensures StoreFrom(base, NamespacesFold(st, c, nss, text, env).value.st.store, env.lang)
    decreases |nss|
  {
    if nss != [] {
      NamespaceStepFrom(base, st, c, nss[0], text, env);
      var r := NamespaceStep(st, c, nss[0], text, env).value;
      NamespacesFoldFrom(base, r.st, c, nss[1..], r.text, env);
    }
  }

  lemma CategoryStepFrom(base: map<RouteId, Record>, st: DocsState, md: ODict<string>, c: string, env: Env)
    requires StoreFrom(base, st.store, env.lang)
    requires CategoryStep(st, md, c, env).Ok?
    ensures StoreFrom(base, CategoryStep(st, md, c, env).value.st.store, env.lang)
  {
    var i := FindCategory(env.categories, c, 0).value;
    var cat := CategoryOf(st, c);
    var nss := SortKeys(cat.keys, NamespaceNames(cat), env.pinyin).value;
    NamespacesFoldFrom(base, st, c, nss, CategoryHeading(env.categories[i], env.lang), env);
  }

  lemma {:induction false} CategoriesFoldFrom(base: map<RouteId, Record>, st: DocsState, md: ODict<string>,
                                              cats: seq<string>, env: Env)
    requires StoreFrom(base, st.store, env.lang)
    requires CategoriesFold(st, md, cats, env).Ok?
    ensures StoreFrom(base, CategoriesFold(st, md, cats, env).value.st.store, env.lang)
    decreases |cats|
  {
    if cats != [] {
      CategoryStepFrom(base, st, md, cats[0], env);
      var o := CategoryStep(st, md, cats[0], env).value;
      CategoriesFoldFrom(base, o.st, o.md, cats[1..], env);
    }
  }

  /** Persistence for the route data objects: after a successful `generateMd(lang)`, every
      route data object is what some number of overlay-and-strip passes in `lang` made of
      it, so each one the call changed has no language sub-object left. */
  lemma GenerateStore(st: DocsState, env: Env)
    requires GenerateSpec(st, env).Ok?
    ensures var out := GenerateSpec(st, env).value.st.store;
      && (forall id :: Reaches(StoreGet(st.store, id), StoreGet(out, id), env.lang))
      && (forall id :: StoreGet(out, id) != StoreGet(st.store, id) ==>
            forall l :: l in LanguageList ==> l !in StoreGet(out, id).vals)
  {
    forall id ensures Reaches(StoreGet(st.store, id), StoreGet(st.store, id), env.lang) {
      ReachesSelf(StoreGet(st.store, id), env.lang);
    }
    CategoriesFoldFrom(st.store, st, Empty(), st.table.keys, env);
    var out := GenerateSpec(st, env).value.st.store;
    forall id | StoreGet(out, id) != StoreGet(st.store, id)
      ensures forall l :: l in LanguageList ==> l !in StoreGet(out, id).vals
    {
      var k: nat :| StoreGet(out, id) == Passes(StoreGet(st.store, id), env.lang, k);
      PassesShape(StoreGet(st.store, id), env.lang, k);
    }
  }

  /** The registry, its namespaces' route tables and their route records, well formed as
      JavaScript objects. */
  ghost predicate RoutesValid(reg: Registry) {
    && ValidDict(reg)
    && (forall n :: n in reg.vals ==> ValidDict(reg.vals[n].routes))
    && (forall n, p :: n in reg.vals && p in reg.vals[n].routes.vals ==> ValidDict(reg.vals[n].routes.vals[p]))
  }

  ghost predicate StoreValid(store: map<RouteId, Record>) {
    forall id :: ValidDict(StoreGet(store, id))
  }

  /** Every stored route data object is the registry's own record for its id. */
  ghost predicate StoreFromRegistry(store: map<RouteId, Record>, reg: Registry) {
    forall id :: id in store ==> store[id] == RouteOf(NamespaceOf(reg, id.0).routes, id.1)
  }

  lemma {:induction false} InsertAllStore(st: DocsState, n: string, p: string, rest: Record, cats: seq<string>)
    ensures InsertAll(st, n, p, rest, cats).store == st.store
    decreases |cats|
  {
    if cats != [] {
      InsertAllStore(InsertRoute(st, cats[0], n, p, rest), n, p, rest, cats[1..]);
    }
  }

  /** Storing the registry's record of route `p` of namespace `n` (line 32) keeps the store
      well formed and made of registry records. */
  lemma StoreRoute(store: map<RouteId, Record>, reg: Registry, n: string, p: string)
    requires RoutesValid(reg) && StoreValid(store) && StoreFromRegistry(store, reg)
    ensures var out := store[(n, p) := RouteOf(NamespaceOf(reg, n).routes, p)];
      StoreValid(out) && StoreFromRegistry(out, reg)
  {
    var ns := NamespaceOf(reg, n);
    var out := store[(n, p) := RouteOf(ns.routes, p)];
    if p in ns.routes.vals {
      assert n in reg.vals && ns == reg.vals[n];
      assert ValidDict(reg.vals[n].routes.vals[p]);
    }
    forall id ensures ValidDict(StoreGet(out, id)) {
      if id != (n, p) {
        assert StoreGet(out, id) == StoreGet(store, id);
      }
    }
  }

  /** One namespace's route loop stores, under `(n, p)`, the registry's record of each of
      its routes `p`, and keeps every object stored before. */
  lemma {:induction false} GroupRoutesStore(st: DocsState, reg: Registry, n: string, d: Value, ps: seq<string>)
    requires RoutesValid(reg) && StoreValid(st.store) && StoreFromRegistry(st.store, reg)
    ensures var out := GroupRoutes(st, n, NamespaceOf(reg, n), d, ps).store;
      && StoreValid(out)
      && StoreFromRegistry(out, reg)
      && (forall id :: id in out <==> id in st.store || (id.0 == n && id.1 in ps))
    decreases |ps|
  {
    if ps != [] {
      var ns := NamespaceOf(reg, n);
      var st1 := DocsState(st.table, st.store[(n, ps[0]) := RouteOf(ns.routes, ps[0])]);
      StoreRoute(st.store, reg, n, ps[0]);
      var cats := EffectiveCategories(ns, RouteOf(ns.routes, ps[0]), d);
      InsertAllStore(st1, n, ps[0], ns.info, cats);
      GroupRoutesStore(InsertAll(st1, n, ps[0], ns.info, cats), reg, n, d, ps[1..]);
    }
  }

  /** The namespace loop stores, under `(n, p)`, the registry's record of every route `p`
      of every namespace `n` it visits, and keeps every object stored before. */
  lemma {:induction false} GroupNamespacesStore(st: DocsState, reg: Registry, nsKeys: seq<string>)
    requires RoutesValid(reg) && StoreValid(st.store) && StoreFromRegistry(st.store, reg)
    ensures var out := GroupNamespaces(st, reg, nsKeys).store;
      && StoreValid(out)
      && StoreFromRegistry(out, reg)
      && (forall id :: id in out <==>
            id in st.store || (id.0 in nsKeys && id.1 in NamespaceOf(reg, id.0).routes.keys))
    decreases |nsKeys|
  {
    if nsKeys != [] {
      var ns := NamespaceOf(reg, nsKeys[0]);
      var st1 := GroupRoutes(st, nsKeys[0], ns, DefaultCategory(ns), ns.routes.keys);
      GroupRoutesStore(st, reg, nsKeys[0], DefaultCategory(ns), ns.routes.keys);
      GroupNamespacesStore(st1, reg, nsKeys[1..]);
      var out := GroupNamespaces(st, reg, nsKeys).store;
      assert out == GroupNamespaces(st1, reg, nsKeys[1..]).store;
      forall id ensures id in out <==>
        id in st.store || (id.0 in nsKeys && id.1 in NamespaceOf(reg, id.0).routes.keys)
      {
        assert id.0 in nsKeys <==> id.0 == nsKeys[0] || id.0 in nsKeys[1..];
      }
    }
  }

  /** The grouped state's route data objects are exactly the registry's route records,
      each the registry's own (well-formed) record for its namespace and route key. */
  lemma GroupedStore(reg: Registry)
    requires RoutesValid(reg)
    ensures StoreValid(Grouped(reg).store)
    ensures forall id :: id in Grouped(reg).store <==>
      id.0 in reg.vals && id.1 in reg.vals[id.0].routes.vals
    ensures forall n, p :: n in reg.vals && p in reg.vals[n].routes.vals ==>
      StoreGet(Grouped(reg).store, (n, p)) == reg.vals[n].routes.vals[p]
  {
    GroupNamespacesStore(EmptyState, reg, reg.keys);
  }
}
