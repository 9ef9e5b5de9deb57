/**
  What `generateMd(lang)` computes (lines 56-145), as functions over the
  `docs` state: each category in table order is looked up in the category
  table, its namespaces are sorted and rendered, and within each namespace
  its routes are sorted, deduplicated on `path[0]` and rendered. Rendering
  renames an `Unknown` namespace, overlays the language's fields onto the
  namespace bucket and onto each rendered route's data object, and strips
  the language sub-objects; these changes stay in the returned state.
*/
module Render {
  import opened Wrappers
  import opened JsValues
  import opened Grouping
  import opened Ordering
  import opened Localize
  import opened Annotate

  /** An entry of the category table: its link, its icon and its title per language. */
  datatype CategoryEntry = CategoryEntry(link: string, icon: string, titles: map<string, string>)

  datatype RenderError =
    | CategoryNotFound(category: string)
    /** A comparator call threw (a name that is `undefined`, or `toLowerCase` of `undefined`). */
    | TypeError

  /** Everything `generateMd` reads besides `docs`: the language, the category table,
      the test report, the collator and the serializer. */
  datatype Env = Env(lang: string, categories: seq<CategoryEntry>, tests: seq<TestRecord>,
                     pinyin: (string, string) -> int, stringify: Value -> string)

  /** The placeholder namespace name replaced by the namespace id (line 80). */
  const Unknown: string := "Unknown"

  /** `s.includes(sub)`. */
  predicate Contains(s: string, sub: string) {
    exists i :: 0 <= i <= |s| && sub <= s[i..]
  }

  /** `categories.find((c) => c.link.includes(category))`, as a position. */
  function FindCategory(table: seq<CategoryEntry>, c: string, from: nat): (r: Option<nat>)
    requires from <= |table|
    ensures r.Some? ==> from <= r.value < |table| && Contains(table[r.value].link, c)
    ensures r.Some? ==> forall i :: from <= i < r.value ==> !Contains(table[i].link, c)
    ensures r.None? ==> forall i :: from <= i < |table| ==> !Contains(table[i].link, c)
    decreases |table| - from
  {
    if from == |table| then None
    else if Contains(table[from].link, c) then Some(from)
    else FindCategory(table, c, from + 1)
  }

  /** `nameObj[lang]` as interpolated. */
  function Title(e: CategoryEntry, lang: string): string {
    if lang in e.titles then e.titles[lang] else "undefined"
  }

  /** Line 64. */
  function CategoryHeading(e: CategoryEntry, lang: string): string {
    "# " + e.icon + " " + Title(e, lang) + "\n\n"
  }

  /** The `<Site>` tag of a heading: present exactly when the url is truthy. */
  function SiteTag(url: Value, attrs: string): (r: string)
    ensures r != [] <==> Truthy(url)
    ensures Truthy(url) ==> Contains(r, Display(url))
  {
    if Truthy(url) then
      var open, d := "<Site url=\"", Display(url);
      var r := open + d + "\"" + attrs + "/>";
      assert d <= r[|open|..];
      r
    else ""
  }

  /** A `description` paragraph, present exactly when the description is truthy. */
  function Paragraph(desc: Value): string {
    if Truthy(desc) then Display(desc) + "\n\n" else ""
  }

  /** Lines 92-95, from the bucket as it stands after the overlay. */
  function NamespaceHeading(fields: Record): string {
    "## " + Display(Get(fields, "name")) + " " + SiteTag(Get(fields, "url"), "") + "\n\n"
      + Paragraph(Get(fields, "description"))
  }

  /** Lines 138-142 for the localized route data `data`, with the namespace's url as fallback. */
  function RouteText(n: string, nsUrl: Value, data: Record, test: Option<Annotation>, env: Env): string {
    "### " + Display(Get(data, "name")) + " " + SiteTag(Or(Get(data, "url"), nsUrl), " size=\"sm\" ") + "\n\n"
      + "<Route namespace=\"" + n + "\" :data='" + EscapeQuotes(env.stringify(VObj(data)))
      + "' :test='" + TestText(test, env.stringify) + "' />\n\n"
      + Paragraph(Get(data, "description"))
  }

  /** The route data object a bucket entry refers to. */
  function StoreGet(store: map<RouteId, Record>, id: RouteId): Record {
    if id in store then store[id] else Empty()
  }

  function IdOf(routes: ODict<RouteId>, rp: string): RouteId {
    if rp in routes.vals then routes.vals[rp] else ("", "")
  }

  /** The names the namespace comparator reads: each bucket's `name`. */
  function NamespaceNames(cat: ODict<Bucket>): map<string, Value> {
    map n | n in cat.vals :: Get(cat.vals[n].fields, "name")
  }

  /** The names the route comparator reads: each route data object's `name`. */
  function RouteNames(store: map<RouteId, Record>, routes: ODict<RouteId>): map<string, Value> {
    map rp | rp in routes.vals :: Get(StoreGet(store, routes.vals[rp]), "name")
  }

  /** Lines 80-82: an `Unknown` name becomes the namespace id; no key is added or
      removed, the key order is kept, and every other field keeps its value. */
  function Renamed(fields: Record, n: string): (r: Record)
    ensures Get(r, "name") == if Get(fields, "name") == VStr(Unknown) then VStr(n) else Get(fields, "name")
    ensures r.keys == fields.keys
    ensures forall k :: k in r.vals <==> k in fields.vals
    ensures forall k :: k != "name" && k in fields.vals ==> r.vals[k] == fields.vals[k]
    ensures ValidDict(fields) ==> ValidDict(r)
  {
    if Get(fields, "name") == VStr(Unknown) then Put(fields, "name", VStr(n)) else fields
  }

  /** The state of the route loop of one namespace: the route data objects, the
      `processedPaths` set, the text so far, and the set of full paths rendered so far. */
  datatype RouteAcc = RouteAcc(store: map<RouteId, Record>, seen: set<Value>, text: string, shown: set<string>)

  /** The dedup test of lines 115-118. */
  predicate Duplicate(seen: set<Value>, path: Value) {
    path.VArr? && Index0(path) in seen
  }

  /** One pass of the route loop (lines 114-142) for full path `rp`. */
  function RouteStep(acc: RouteAcc, n: string, nsUrl: Value, routes: ODict<RouteId>, rp: string, env: Env): RouteAcc {
    var id := IdOf(routes, rp);
    var data := StoreGet(acc.store, id);
    var path := Get(data, "path");
    if Duplicate(acc.seen, path) then acc
    else
      var seen := if path.VArr? then acc.seen + {Index0(path)} else acc.seen;
      var loc := Localized(data, env.lang);
      var test := ParsedTest(env.tests, rp);
      RouteAcc(acc.store[id := loc], seen, acc.text + RouteText(n, nsUrl, loc, test, env), acc.shown + {rp})
  }

  function RoutesFold(acc: RouteAcc, n: string, nsUrl: Value, routes: ODict<RouteId>, rps: seq<string>, env: Env): RouteAcc
    decreases |rps|
  {
    if rps == [] then acc
    else RoutesFold(RouteStep(acc, n, nsUrl, routes, rps[0], env), n, nsUrl, routes, rps[1..], env)
  }

  /** The state and text after rendering part of a category. */
  datatype Rendered = Rendered(st: DocsState, text: string)

  /** Lines 80-143 for namespace `n` of category `c`, appending to `text`. */
  function NamespaceStep(st: DocsState, c: string, n: string, text: string, env: Env): Result<Rendered, RenderError> {
    var b := BucketOf(st, c, n);
    var fields := Localized(Renamed(b.fields, n), env.lang);
    match SortKeys(b.routes.keys, RouteNames(st.store, b.routes), env.pinyin)
    case None => Err(TypeError)
    case Some(rps) =>
      var acc := RoutesFold(RouteAcc(st.store, {}, text + NamespaceHeading(fields), {}),
                            n, Get(fields, "url"), b.routes, rps, env);
      var table := Put(st.table, c, Put(CategoryOf(st, c), n, Bucket(fields, b.routes)));
      Ok(Rendered(DocsState(table, acc.store), acc.text))
  }

  function NamespacesFold(st: DocsState, c: string, nss: seq<string>, text: string, env: Env): Result<Rendered, RenderError>
    decreases |nss|
  {
    if nss == [] then Ok(Rendered(st, text))
    else
      match NamespaceStep(st, c, nss[0], text, env)
      case Err(e) => Err(e)
      case Ok(r) => NamespacesFold(r.st, c, nss[1..], r.text, env)
  }

  /** The state and the texts per category after rendering some categories. */
  datatype MdOut = MdOut(st: DocsState, md: ODict<string>)

  /** Lines 59-144 for category `c`. */
  function CategoryStep(st: DocsState, md: ODict<string>, c: string, env: Env): Result<MdOut, RenderError> {
    match FindCategory(env.categories, c, 0)
    case None => Err(CategoryNotFound(c))
    case Some(i) =>
      var cat := CategoryOf(st, c);
      match SortKeys(cat.keys, NamespaceNames(cat), env.pinyin)
      case None => Err(TypeError)
      case Some(nss) =>
        match NamespacesFold(st, c, nss, CategoryHeading(env.categories[i], env.lang), env)
        case Err(e) => Err(e)
        case Ok(r) => Ok(MdOut(r.st, Put(md, c, r.text)))
  }

  function CategoriesFold(st: DocsState, md: ODict<string>, cats: seq<string>, env: Env): Result<MdOut, RenderError>
    decreases |cats|
  {
    if cats == [] then Ok(MdOut(st, md))
    else
      match CategoryStep(st, md, cats[0], env)
      case Err(e) => Err(e)
      case Ok(o) => CategoriesFold(o.st, o.md, cats[1..], env)
  }

  /** `generateMd(env.lang)` on the state `st`: the texts per category and the state left behind. */
  function GenerateSpec(st: DocsState, env: Env): Result<MdOut, RenderError> {
    CategoriesFold(st, Empty(), st.table.keys, env)
  }
}
