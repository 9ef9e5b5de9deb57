/**
  The builder as it runs: one `docs` table that the grouping loop fills in
  place (lines 15-50) and that each `generateMd(lang)` call then renames,
  overlays and strips in place while it accumulates the texts (lines 56-145),
  followed by the two calls of lines 151-152.

  Every method is proved against the functions of `Grouping` and `Render`:
  its new state and its result are exactly what those functions compute from
  the old state.
*/
module BuildDocs {
  import opened Wrappers
  import opened JsValues
  import opened Grouping
  import opened Ordering
  import opened Localize
  import opened Annotate
  import opened Render

  /** The `docs` table and the route data objects its buckets share. */
  class Docs {
    var table: ODict<ODict<Bucket>>
    var store: map<RouteId, Record>

    function State(): DocsState
      reads this
    {
      DocsState(table, store)
    }

    /** `const docs = {}`. */
    constructor ()
      ensures State() == EmptyState
    {
      table := Empty();
      store := map[];
    }

    /** Lines 18-29: the first category of the namespace, else of the first route that
        declares categories, else "other". */
    static method PickDefaultCategory(ns: Namespace) returns (d: Value)
      ensures d == DefaultCategory(ns)
    {
      d := Index0(Get(ns.info, "categories"));
      if !Truthy(d) {
        var j := 0;
        while j < |ns.routes.keys|
          invariant 0 <= j <= |ns.routes.keys|
          invariant forall i :: 0 <= i < j ==> !Truthy(RouteCats(ns, i))
          invariant !Truthy(d)
        {
          if Truthy(RouteCats(ns, j)) {
            d := Index0(RouteCats(ns, j));
            assert FirstDeclaring(ns, 0) == Some(j);
            break;
          }
          j := j + 1;
        }
        if !Truthy(d) {
          d := VStr(Fallback);
        }
      }
    }

    /** Lines 31-48 for route `p` of namespace `n`: the route is filed under each of its
        effective categories. */
    method FileRoute(n: string, ns: Namespace, d: Value, p: string)
      modifies this
      ensures State() == InsertAll(DocsState(old(table), old(store)[(n, p) := RouteOf(ns.routes, p)]),
                                   n, p, ns.info, EffectiveCategories(ns, RouteOf(ns.routes, p), d))
    {
      var data := RouteOf(ns.routes, p);
      store := store[(n, p) := data];
      ghost var start := State();
      var cats := EffectiveCategories(ns, data, d);
      var k := 0;
      while k < |cats|
        invariant 0 <= k <= |cats|
        invariant InsertAll(State(), n, p, ns.info, cats[k..]) == InsertAll(start, n, p, ns.info, cats)
      {
        assert cats[k..][1..] == cats[k + 1..];
        var c := cats[k];
        var cat := if c in table.vals then table.vals[c] else Empty();
        var b := if n in cat.vals then cat.vals[n] else Bucket(Empty(), Empty());
        b := Bucket(SpreadInto(b.fields, ns.info, ns.info.keys), b.routes);
        b := Bucket(b.fields, Put(b.routes, RouteKey(n, p), (n, p)));
        table := Put(table, c, Put(cat, n, b));
        k := k + 1;
      }
    }

    /** Lines 18-49 for namespace `n`. */
    method GroupNamespace(n: string, ns: Namespace)
      modifies this
      ensures State() == GroupRoutes(old(State()), n, ns, DefaultCategory(ns), ns.routes.keys)
    {
      var d := PickDefaultCategory(ns);
      var ps := ns.routes.keys;
      var j := 0;
      while j < |ps|
        invariant 0 <= j <= |ps|
        invariant GroupRoutes(State(), n, ns, d, ps[j..]) == GroupRoutes(old(State()), n, ns, d, ps)
      {
        assert ps[j..][1..] == ps[j + 1..];
        GroupRoutesUnfold(State(), n, ns, d, ps[j..]);
        FileRoute(n, ns, d, ps[j]);
        j := j + 1;
      }
    }

    /** Lines 17-50: every namespace of the registry, in key order. */
    method Group(reg: Registry)
      modifies this
      ensures State() == GroupNamespaces(old(State()), reg, reg.keys)
    {
      var nsKeys := reg.keys;
      var i := 0;
      while i < |nsKeys|
        invariant 0 <= i <= |nsKeys|
        invariant GroupNamespaces(State(), reg, nsKeys[i..]) == GroupNamespaces(old(State()), reg, nsKeys)
      {
        assert nsKeys[i..][1..] == nsKeys[i + 1..];
        GroupNamespace(nsKeys[i], NamespaceOf(reg, nsKeys[i]));
        i := i + 1;
      }
    }

    /** Lines 114-142 for the entry `rp`: skipped when its array `path` starts with an
        element already processed, otherwise its data object is overlaid and stripped in
        place and its text appended. */
    method RenderRoute(n: string, nsUrl: Value, routes: ODict<RouteId>, rp: string, processed: set<Value>,
                       text: string, ghost shown: set<string>, env: Env)
      returns (processed': set<Value>, text': string, ghost shown': set<string>)
      modifies this
      ensures table == old(table)
      ensures RouteStep(RouteAcc(old(store), processed, text, shown), n, nsUrl, routes, rp, env)
           == RouteAcc(store, processed', text', shown')
    {
      processed', text', shown' := processed, text, shown;
      var id := IdOf(routes, rp);
      var data := StoreGet(store, id);
      var path := Get(data, "path");
      if path.VArr? {
        if Index0(path) in processed {
          return;
        }
        processed' := processed + {Index0(path)};
      }
      var test := ParsedTest(env.tests, rp);
      var loc := OverlayAndStrip(data, env.lang);
      store := store[id := loc];
      text' := text + RouteText(n, nsUrl, loc, test, env);
      shown' := shown + {rp};
    }

    /** Lines 111-143: the route loop of one namespace, with its `processedPaths` set. */
    method RenderRoutes(n: string, nsUrl: Value, routes: ODict<RouteId>, rps: seq<string>, text0: string, env: Env)
      returns (text: string)
      modifies this
      ensures var acc := RoutesFold(RouteAcc(old(store), {}, text0, {}), n, nsUrl, routes, rps, env);
        table == old(table) && store == acc.store && text == acc.text
    {
      var processed: set<Value> := {};
      ghost var shown: set<string> := {};
      text := text0;
      var i := 0;
      while i < |rps|
        invariant 0 <= i <= |rps|
        invariant table == old(table)
        invariant RoutesFold(RouteAcc(store, processed, text, shown), n, nsUrl, routes, rps[i..], env)
               == RoutesFold(RouteAcc(old(store), {}, text0, {}), n, nsUrl, routes, rps, env)
      {
        assert rps[i..][1..] == rps[i + 1..];
        RoutesFoldUnfold(RouteAcc(store, processed, text, shown), n, nsUrl, routes, rps[i..], env);
        processed, text, shown := RenderRoute(n, nsUrl, routes, rps[i], processed, text, shown, env);
        i := i + 1;
      }
    }

    /** Lines 80-143 for namespace `n` of category `c`. */
    method RenderNamespace(c: string, n: string, text0: string, env: Env) returns (r: Result<string, RenderError>)
      modifies this
      ensures var s := NamespaceStep(old(State()), c, n, text0, env);
        && (r.Ok? <==> s.Ok?)
        && (r.Ok? ==> r.value == s.value.text && State() == s.value.st)
        && (r.Err? ==> r.error == s.error)
    {
      var cat := CategoryOf(State(), c);
      var b := BucketOf(State(), c, n);
      var fields := b.fields;
      if Get(fields, "name") == VStr(Unknown) {
        fields := Put(fields, "name", VStr(n));
      }
      fields := OverlayAndStrip(fields, env.lang);
      table := Put(table, c, Put(cat, n, Bucket(fields, b.routes)));
      var text := text0 + NamespaceHeading(fields);
      var sorted := SortKeys(b.routes.keys, RouteNames(store, b.routes), env.pinyin);
      if sorted.None? {
        return Err(TypeError);
      }
      text := RenderRoutes(n, Get(fields, "url"), b.routes, sorted.value, text, env);
      return Ok(text);
    }

    /** Lines 59-144 for category `c`: its text is filed in `md`. */
    method RenderCategory(c: string, md: ODict<string>, env: Env) returns (r: Result<ODict<string>, RenderError>)
      modifies this
      ensures var s := CategoryStep(old(State()), md, c, env);
        && (r.Ok? <==> s.Ok?)
        && (r.Ok? ==> r.value == s.value.md && State() == s.value.st)
        && (r.Err? ==> r.error == s.error)
    {
      var found := FindCategory(env.categories, c, 0);
      if found.None? {
        return Err(CategoryNotFound(c));
      }
      var heading := CategoryHeading(env.categories[found.value], env.lang);
      var cat := CategoryOf(State(), c);
      var sorted := SortKeys(cat.keys, NamespaceNames(cat), env.pinyin);
      if sorted.None? {
        return Err(TypeError);
      }
      var nss := sorted.value;
      var text := heading;
      var i := 0;
      while i < |nss|
        invariant 0 <= i <= |nss|
        invariant NamespacesFold(State(), c, nss[i..], text, env) == NamespacesFold(old(State()), c, nss, heading, env)
      {
        assert nss[i..][1..] == nss[i + 1..];
        var rn := RenderNamespace(c, nss[i], text, env);
        if rn.Err? {
          return Err(rn.error);
        }
        text := rn.value;
        i := i + 1;
      }
      return Ok(Put(md, c, text));
    }

    /** `generateMd(env.lang)`: the text of every category, in table order. */
    method GenerateMd(env: Env) returns (r: Result<ODict<string>, RenderError>)
      modifies this
      ensures var s := GenerateSpec(old(State()), env);
        && (r.Ok? <==> s.Ok?)
        && (r.Ok? ==> r.value == s.value.md && State() == s.value.st)
        && (r.Err? ==> r.error == s.error)
    {
      var cats := table.keys;
      var md: ODict<string> := Empty();
      var i := 0;
      while i < |cats|
        invariant 0 <= i <= |cats|
        invariant CategoriesFold(State(), md, cats[i..], env) == GenerateSpec(old(State()), env)
      {
        assert cats[i..][1..] == cats[i + 1..];
        var rc := RenderCategory(cats[i], md, env);
        if rc.Err? {
          return Err(rc.error);
        }
        md := rc.value;
        i := i + 1;
      }
      return Ok(md);
    }
  }

  lemma GroupRoutesUnfold(st: DocsState, n: string, ns: Namespace, d: Value, ps: seq<string>)
    requires |ps| > 0
    ensures GroupRoutes(st, n, ns, d, ps) ==
      GroupRoutes(InsertAll(DocsState(st.table, st.store[(n, ps[0]) := RouteOf(ns.routes, ps[0])]),
                            n, ps[0], ns.info, EffectiveCategories(ns, RouteOf(ns.routes, ps[0]), d)),
                  n, ns, d, ps[1..])
  {
  }

  lemma RoutesFoldUnfold(acc: RouteAcc, n: string, u: Value, routes: ODict<RouteId>, rps: seq<string>, env: Env)
    requires |rps| > 0
    ensures RoutesFold(acc, n, u, routes, rps, env) == RoutesFold(RouteStep(acc, n, u, routes, rps[0], env), n, u, routes, rps[1..], env)
  {
  }

  /** The texts of both languages. */
  datatype Texts = Texts(en: ODict<string>, zh: ODict<string>)

  /** How the script ended on a throw: the English texts when `generateMd('en')` had already
      written them (lines 146-149) before `generateMd('zh')` threw, and the error thrown. */
  datatype Failure = Failure(written: Option<ODict<string>>, error: RenderError)

  /** Lines 15-152 as written: group once, render English, then render Chinese from the
      table the English render left behind. A thrown error ends the script. */
  function BuildSpec(reg: Registry, categories: seq<CategoryEntry>, tests: seq<TestRecord>,
                     pinyin: (string, string) -> int, stringify: Value -> string): Result<Texts, Failure> {
    match GenerateSpec(Grouped(reg), Env("en", categories, tests, pinyin, stringify))
    case Err(e) => Err(Failure(None, e))
    case Ok(first) =>
      match GenerateSpec(first.st, Env("zh", categories, tests, pinyin, stringify))
      case Err(e) => Err(Failure(Some(first.md), e))
      case Ok(second) => Ok(Texts(first.md, second.md))
  }

  /** Each language rendered from its own freshly grouped table, so that no render
      sees another's overlay and strip. */
  function BuildPerLanguageSpec(reg: Registry, categories: seq<CategoryEntry>, tests: seq<TestRecord>,
                                pinyin: (string, string) -> int, stringify: Value -> string): Result<Texts, Failure> {
    match GenerateSpec(Grouped(reg), Env("en", categories, tests, pinyin, stringify))
    case Err(e) => Err(Failure(None, e))
    case Ok(first) =>
      match GenerateSpec(Grouped(reg), Env("zh", categories, tests, pinyin, stringify))
      case Err(e) => Err(Failure(Some(first.md), e))
      case Ok(second) => Ok(Texts(first.md, second.md))
  }

  /** The script as written. */
  method Build(reg: Registry, categories: seq<CategoryEntry>, tests: seq<TestRecord>,
               pinyin: (string, string) -> int, stringify: Value -> string) returns (r: Result<Texts, Failure>)
    ensures r == BuildSpec(reg, categories, tests, pinyin, stringify)
  {
    var docs := new Docs();
    docs.Group(reg);
    var en := docs.GenerateMd(Env("en", categories, tests, pinyin, stringify));
    if en.Err? {
      return Err(Failure(None, en.error));
    }
    var zh := docs.GenerateMd(Env("zh", categories, tests, pinyin, stringify));
    if zh.Err? {
      return Err(Failure(Some(en.value), zh.error));
    }
    return Ok(Texts(en.value, zh.value));
  }

  /** The build with a table of its own for each language. */
  method BuildPerLanguage(reg: Registry, categories: seq<CategoryEntry>, tests: seq<TestRecord>,
                          pinyin: (string, string) -> int, stringify: Value -> string) returns (r: Result<Texts, Failure>)
    ensures r == BuildPerLanguageSpec(reg, categories, tests, pinyin, stringify)
  {
    var docsEn := new Docs();
    docsEn.Group(reg);
    var en := docsEn.GenerateMd(Env("en", categories, tests, pinyin, stringify));
    if en.Err? {
      return Err(Failure(None, en.error));
    }
    var docsZh := new Docs();
    docsZh.Group(reg);
    var zh := docsZh.GenerateMd(Env("zh", categories, tests, pinyin, stringify));
    if zh.Err? {
      return Err(Failure(Some(en.value), zh.error));
    }
    return Ok(Texts(en.value, zh.value));
  }
}
