/**
  The grouping pass of the documentation builder: every route of every
  namespace of the registry is filed under each of its effective categories,
  in a table category -> namespace -> bucket, where a bucket holds the
  namespace's own fields and the routes filed there, keyed by their full path
  `/<namespace><path>`.

  Route data objects are shared: the same object is filed under every
  category of the route and is later changed in place by the renderer. The
  model therefore keeps route data in a store indexed by `RouteId` (namespace
  id, route key), and a bucket holds ids; namespace buckets are fresh objects
  per category and are plain values.
*/
module Grouping {
  import opened Wrappers
  import opened JsValues

  /** A registry entry: the namespace's fields other than `routes`, and its routes by key. */
  datatype Namespace = Namespace(info: Record, routes: ODict<Record>)

  type Registry = ODict<Namespace>

  /** Identity of a route data object: namespace id and route key. */
  type RouteId = (string, string)

  datatype Bucket = Bucket(fields: Record, routes: ODict<RouteId>)

  /** The `docs` table together with the route data objects it refers to. */
  datatype DocsState = DocsState(table: ODict<ODict<Bucket>>, store: map<RouteId, Record>)

  const EmptyState: DocsState := DocsState(ODict([], map[]), map[])

  /** The category used when the namespace has none. */
  const Fallback: string := "other"

  function NamespaceOf(reg: Registry, n: string): Namespace {
    if n in reg.vals then reg.vals[n] else Namespace(Empty(), Empty())
  }

  function RouteOf(routes: ODict<Record>, p: string): Record {
    if p in routes.vals then routes.vals[p] else Empty()
  }

  /** The full path of route `p` of namespace `n`. */
  function RouteKey(n: string, p: string): string {
    "/" + n + p
  }

  lemma RouteKeyInjective(n: string, p: string, q: string)
    ensures RouteKey(n, p) == RouteKey(n, q) <==> p == q
  {
    var pre := "/" + n;
    if RouteKey(n, p) == RouteKey(n, q) {
      assert RouteKey(n, p) == pre + p && RouteKey(n, q) == pre + q;
      assert p == (pre + p)[|pre|..];
      assert q == (pre + q)[|pre|..];
    }
  }

  /** The `categories` field of the route at position `j` of the namespace's key order. */
  function RouteCats(ns: Namespace, j: nat): Value
    requires j < |ns.routes.keys|
  {
    Get(RouteOf(ns.routes, ns.routes.keys[j]), "categories")
  }

  /** Position, at or after `from`, of the first route whose `categories` is truthy. */
  function FirstDeclaring(ns: Namespace, from: nat): (r: Option<nat>)
    requires from <= |ns.routes.keys|
    ensures r.Some? ==> from <= r.value < |ns.routes.keys| && Truthy(RouteCats(ns, r.value))
    ensures r.Some? ==> forall j :: from <= j < r.value ==> !Truthy(RouteCats(ns, j))
    ensures r.None? ==> forall j :: from <= j < |ns.routes.keys| ==> !Truthy(RouteCats(ns, j))
    decreases |ns.routes.keys| - from
  {
    if from == |ns.routes.keys| then None
    else if Truthy(RouteCats(ns, from)) then Some(from)
    else FirstDeclaring(ns, from + 1)
  }

  /** The namespace's default category: its own first category, else the first
      category of the first route that declares categories, else "other". */
  function DefaultCategory(ns: Namespace): (d: Value)
    ensures Truthy(d)
    ensures Truthy(Index0(Get(ns.info, "categories"))) ==> d == Index0(Get(ns.info, "categories"))
    ensures !Truthy(Index0(Get(ns.info, "categories"))) ==>
      forall j :: (0 <= j < |ns.routes.keys| && Truthy(RouteCats(ns, j)) &&
        (forall i :: 0 <= i < j ==> !Truthy(RouteCats(ns, i)))) ==>
        d == Or(Index0(RouteCats(ns, j)), VStr(Fallback))
    ensures (!Truthy(Index0(Get(ns.info, "categories"))) &&
      (forall j :: 0 <= j < |ns.routes.keys| ==> !Truthy(RouteCats(ns, j)))) ==>
      d == VStr(Fallback)
  {
    var own := Index0(Get(ns.info, "categories"));
    if Truthy(own) then own
    else
      var found := FirstDeclaring(ns, 0);
      var fromRoute := if found.Some? then Index0(RouteCats(ns, found.value)) else VUndef;
      Or(fromRoute, VStr(Fallback))
  }

  /** The values `for (const x of v)` visits: array elements, or the characters of a string.
      A truthy value of any other kind is not iterable in JavaScript. */
  function Iterate(v: Value): seq<Value> {
    match v
    case VArr(e) => e
    case VStr(s) => seq(|s|, i requires 0 <= i < |s| => VStr([s[i]]))
    case _ => []
  }

  /** The category keys a route is filed under: the route's categories, else the
      namespace's, else the default category alone. */
  function EffectiveCategories(ns: Namespace, data: Record, d: Value): seq<string> {
    var chosen := Or(Get(data, "categories"), Or(Get(ns.info, "categories"), VArr([d])));
    var items := Iterate(chosen);
    seq(|items|, i requires 0 <= i < |items| => Display(items[i]))
  }

  /** `{ ...target, ...rest }` on the fields: each key of `rest` in order is
      written into `target`, keeping the position of keys already there. */
  function SpreadInto(target: Record, rest: Record, ks: seq<string>): (r: Record)
    ensures forall k :: k in r.vals <==> k in target.vals || k in ks
    ensures forall k :: k in ks ==> r.vals[k] == Get(rest, k)
    ensures forall k :: k in target.vals && k !in ks ==> r.vals[k] == target.vals[k]
    ensures ValidDict(target) ==> ValidDict(r)
    ensures (Distinct(ks) && forall k :: k in ks ==> k !in target.vals) ==> r.keys == target.keys + ks
    decreases |ks|
  {
    if ks == [] then target
    else
      DistinctTail(ks);
      ConsKeys(target.keys, ks);
      SpreadInto(Put(target, ks[0], Get(rest, ks[0])), rest, ks[1..])
  }

  lemma DistinctTail(ks: seq<string>)
    requires ks != []
    ensures Distinct(ks) ==> Distinct(ks[1..]) && ks[0] !in ks[1..]
  {
    if Distinct(ks) {
      forall j | 0 < j < |ks| ensures ks[j] != ks[0] { }
    }
  }

  lemma ConsKeys(keys: seq<string>, ks: seq<string>)
    requires ks != []
    ensures keys + [ks[0]] + ks[1..] == keys + ks
  {
  }

  function CategoryOf(st: DocsState, c: string): ODict<Bucket> {
    if c in st.table.vals then st.table.vals[c] else Empty()
  }

  function BucketOf(st: DocsState, c: string, n: string): Bucket {
    var cat := CategoryOf(st, c);
    if n in cat.vals then cat.vals[n] else Bucket(Empty(), Empty())
  }

  predicate HasBucket(st: DocsState, c: string, n: string) {
    c in st.table.vals && n in st.table.vals[c].vals
  }

  /** Lines 36-47: create the category and the bucket when missing, spread the
      namespace's fields into the bucket and file the route under its full path. */
  function InsertRoute(st: DocsState, c: string, n: string, p: string, rest: Record): DocsState {
    var cat := CategoryOf(st, c);
    var b := BucketOf(st, c, n);
    var b' := Bucket(SpreadInto(b.fields, rest, rest.keys), Put(b.routes, RouteKey(n, p), (n, p)));
    DocsState(Put(st.table, c, Put(cat, n, b')), st.store)
  }

  /** The route `p` of namespace `n` is filed under category `c`. */
  predicate Has(st: DocsState, c: string, n: string, p: string) {
    && HasBucket(st, c, n)
    && RouteKey(n, p) in st.table.vals[c].vals[n].routes.vals
    && st.table.vals[c].vals[n].routes.vals[RouteKey(n, p)] == (n, p)
  }

  /** Every entry of every bucket is the route its full path names. */
  ghost predicate Shaped(st: DocsState) {
    forall c, n, rp :: HasBucket(st, c, n) && rp in st.table.vals[c].vals[n].routes.vals ==>
      var id := st.table.vals[c].vals[n].routes.vals[rp];
      id.0 == n && rp == RouteKey(n, id.1) && id in st.store
  }

  /** The table's dictionaries are well formed, and no category or bucket is empty. */
  ghost predicate Tidy(st: DocsState) {
    && ValidDict(st.table)
    && (forall c :: c in st.table.vals ==> ValidDict(st.table.vals[c]) && st.table.vals[c].vals != map[])
    && (forall c, n :: HasBucket(st, c, n) ==>
          ValidDict(st.table.vals[c].vals[n].routes) && st.table.vals[c].vals[n].routes.vals != map[])
  }

  /** Every bucket holds exactly the fields of its namespace. */
  ghost predicate FieldsFrom(st: DocsState, reg: Registry) {
    forall c, n :: HasBucket(st, c, n) ==> st.table.vals[c].vals[n].fields == NamespaceOf(reg, n).info
  }

  function InsertAll(st: DocsState, n: string, p: string, rest: Record, cats: seq<string>): DocsState
    decreases |cats|
  {
    if cats == [] then st else InsertAll(InsertRoute(st, cats[0], n, p, rest), n, p, rest, cats[1..])
  }

  /** Lines 30-49 for the routes `ps` of namespace `n` with default category `d`. */
  function GroupRoutes(st: DocsState, n: string, ns: Namespace, d: Value, ps: seq<string>): DocsState
    decreases |ps|
  {
    if ps == [] then st
    else
      var data := RouteOf(ns.routes, ps[0]);
      var st1 := DocsState(st.table, st.store[(n, ps[0]) := data]);
      GroupRoutes(InsertAll(st1, n, ps[0], ns.info, EffectiveCategories(ns, data, d)), n, ns, d, ps[1..])
  }

  /** Lines 17-50 for the namespaces `nsKeys` of the registry. */
  function GroupNamespaces(st: DocsState, reg: Registry, nsKeys: seq<string>): DocsState
    decreases |nsKeys|
  {
    if nsKeys == [] then st
    else
      var ns := NamespaceOf(reg, nsKeys[0]);
      var st1 := GroupRoutes(st, nsKeys[0], ns, DefaultCategory(ns), ns.routes.keys);
      GroupNamespaces(st1, reg, nsKeys[1..])
  }

  /** The `docs` table the grouping pass builds from the registry. */
  function Grouped(reg: Registry): DocsState {
    GroupNamespaces(EmptyState, reg, reg.keys)
  }
}
