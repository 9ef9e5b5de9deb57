/**
  JavaScript values as the documentation builder sees them: the registry's
  plain objects, their string, boolean and array fields, and the few
  coercions the builder relies on (truthiness, `String(v)`, `v?.[0]`).
  An object keeps its own-key order, because `for ... in`, `Object.keys`
  and spreading all follow insertion order.
*/
module JsValues {

  /** An insertion-ordered dictionary: `keys` lists the own keys in order. */
  datatype ODict<V> = ODict(keys: seq<string>, vals: map<string, V>)

  datatype Value =
    | VUndef
    | VBool(b: bool)
    | VNum(n: int)
    | VStr(s: string)
    | VArr(elems: seq<Value>)
    | VObj(obj: ODict<Value>)

  type Record = ODict<Value>

  ghost predicate Distinct(s: seq<string>) {
    forall i, j :: 0 <= i < j < |s| ==> s[i] != s[j]
  }

  /** The object invariant of an ordered dictionary. */
  ghost predicate ValidDict<V>(d: ODict<V>) {
    && Distinct(d.keys)
    && (forall k :: k in d.vals <==> k in d.keys)
  }

  function Empty<V>(): (d: ODict<V>)
    ensures ValidDict(d) && d.keys == []
  {
    ODict([], map[])
  }

  /** `d[k] = v`: an existing key keeps its position, a new key goes last. */
  function Put<V>(d: ODict<V>, k: string, v: V): (r: ODict<V>)
    ensures k in r.vals && r.vals[k] == v
    ensures forall k' :: k' != k ==> (k' in r.vals <==> k' in d.vals)
    ensures forall k' :: k' != k && k' in d.vals ==> r.vals[k'] == d.vals[k']
    ensures k in d.vals ==> r.keys == d.keys
    ensures k !in d.vals ==> r.keys == d.keys + [k]
    ensures ValidDict(d) ==> ValidDict(r)
  {
    if k in d.vals then ODict(d.keys, d.vals[k := v])
    else ODict(d.keys + [k], d.vals[k := v])
  }

  /** The key sequence `s` without `k`. */
  function Without(s: seq<string>, k: string): (r: seq<string>)
    ensures forall x :: x in r <==> x in s && x != k
    ensures Distinct(s) ==> Distinct(r)
    ensures k !in s ==> r == s
  {
    if s == [] then []
    else if s[0] == k then Without(s[1..], k)
    else
      assert Distinct(s) ==> Distinct(s[1..]) && s[0] !in s[1..] by {
        if Distinct(s) { forall j | 0 < j < |s| ensures s[j] != s[0] { } }
      }
      [s[0]] + Without(s[1..], k)
  }

  /** `delete d[k]`: the key and its value go, and every other key keeps its value. */
  function Delete<V>(d: ODict<V>, k: string): (r: ODict<V>)
    ensures k !in r.vals
    ensures forall k' :: k' != k ==> (k' in r.vals <==> k' in d.vals)
    ensures forall k' :: k' != k && k' in d.vals ==> r.vals[k'] == d.vals[k']
    ensures ValidDict(d) ==> ValidDict(r)
  {
    ODict(Without(d.keys, k), d.vals - {k})
  }

  /** Map extensionality, stated generically so that the solver does not unfold the value type. */
  lemma MapExt<K, V>(a: map<K, V>, b: map<K, V>)
    requires forall k :: k in a <==> k in b
    requires forall k :: k in a ==> a[k] == b[k]
    ensures a == b
  {
  }

  /** Property read `r[k]`; a missing own key reads as `undefined`. */
  function Get(r: Record, k: string): Value {
    if k in r.vals then r.vals[k] else VUndef
  }

  /** JavaScript truthiness; arrays and objects are truthy even when empty. */
  predicate Truthy(v: Value) {
    match v
    case VUndef => false
    case VBool(b) => b
    case VNum(n) => n != 0
    case VStr(s) => s != []
    case VArr(_) => true
    case VObj(_) => true
  }

  /** `a || b` on values. */
  function Or(a: Value, b: Value): (r: Value)
    ensures Truthy(a) ==> r == a
    ensures !Truthy(a) ==> r == b
  {
    if Truthy(a) then a else b
  }

  /** `v?.[0]`: the first element of an array, the first character of a string,
      the own property "0" of an object, and `undefined` otherwise. */
  function Index0(v: Value): Value {
    match v
    case VArr(e) => if |e| > 0 then e[0] else VUndef
    case VStr(s) => if |s| > 0 then VStr([s[0]]) else VUndef
    case VObj(o) => Get(o, "0")
    case _ => VUndef
  }

  function DigitChar(d: nat): char
    requires d < 10
  {
    "0123456789"[d]
  }

  function NatToString(n: nat): (r: string)
    ensures |r| > 0
    decreases n
  {
    if n < 10 then [DigitChar(n)] else NatToString(n / 10) + [DigitChar(n % 10)]
  }

  /** `array.join(",")` on already converted elements. */
  function JoinComma(parts: seq<string>): string {
    if parts == [] then "" else if |parts| == 1 then parts[0] else parts[0] + "," + JoinComma(parts[1..])
  }

  /** `String(v)`, as a template literal interpolates it. */
  function Display(v: Value): string
    decreases v
  {
    match v
    case VUndef => "undefined"
    case VBool(b) => if b then "true" else "false"
    case VNum(n) => if n < 0 then "-" + NatToString(-n) else NatToString(n)
    case VStr(s) => s
    case VArr(e) => JoinComma(seq(|e|, i requires 0 <= i < |e| => if e[i].VUndef? then "" else Display(e[i])))
    case VObj(_) => "[object Object]"
  }

  /** True when every code unit of `s` lies in U+0000..U+007F (the builder's `isASCII`). */
  predicate IsASCII(s: string) {
    forall i :: 0 <= i < |s| ==> s[i] as int < 128
  }

  function LowerChar(c: char): char {
    if 'A' <= c <= 'Z' then (c as int + 32) as char else c
  }

  /** `toLowerCase` restricted to the ASCII strings it is applied to here. */
  function LowerASCII(s: string): (r: string)
    ensures |r| == |s|
    ensures forall i :: 0 <= i < |s| ==> r[i] == LowerChar(s[i])
  {
    if s == [] then [] else [LowerChar(s[0])] + LowerASCII(s[1..])
  }

  /** JavaScript `a < b` on strings: lexicographic order of code units. */
  predicate StrLess(a: string, b: string) {
    if b == [] then false
    else if a == [] then true
    else if a[0] != b[0] then a[0] < b[0]
    else StrLess(a[1..], b[1..])
  }
}
