/**
  The order in which namespaces (by bucket name) and routes (by route name)
  are listed: the comparator of lines 66-78 and 97-109, which looks only at
  the first character of each name, and the sort that applies it.

  A comparator call that throws (reading `[0]` of an undefined name, or
  calling `toLowerCase` on `undefined`) is `None`.
*/
module Ordering {
  import opened Wrappers
  import opened JsValues

  /** `v[0]` without optional chaining: throws on `undefined`. */
  function Head(v: Value): (r: Option<Value>)
    ensures r.None? <==> v.VUndef?
  {
    if v.VUndef? then None else Some(Index0(v))
  }

  /** `v.toLowerCase()`: only strings have it; this is only reached for ASCII text. */
  function LowerOf(v: Value): (r: Option<string>)
    ensures r.Some? <==> v.VStr?
  {
    if v.VStr? then Some(LowerASCII(v.s)) else None
  }

  /** The comparator: ASCII-first names sort before the others, two ASCII-first names
      compare case-insensitively (returning -1 or 1, never 0), two others defer to the
      pinyin collator. */
  function Compare(a: Value, b: Value, pinyin: (string, string) -> int): Option<int> {
    match (Head(a), Head(b))
    case (Some(an), Some(bn)) =>
      var ia := IsASCII(Display(an));
      var ib := IsASCII(Display(bn));
      if ia && ib then
        match (LowerOf(an), LowerOf(bn))
        case (Some(la), Some(lb)) => Some(if StrLess(la, lb) then -1 else 1)
        case _ => None
      else if ia || ib then
        Some(if ia && !ib then -1 else 1)
      else
        Some(pinyin(Display(an), Display(bn)))
    case _ => None
  }

  function NameOf(names: map<string, Value>, k: string): Value {
    if k in names then names[k] else VUndef
  }

  /** Inserts `x` into `sorted`, moving left past every element it compares below. */
  function InsertSorted(x: string, sorted: seq<string>, names: map<string, Value>,
                        pinyin: (string, string) -> int): (r: Option<seq<string>>)
    ensures r.Some? ==> multiset(r.value) == multiset(sorted) + multiset{x}
    ensures (forall y :: y in sorted ==> Compare(NameOf(names, x), NameOf(names, y), pinyin).Some?) ==> r.Some?
    decreases |sorted|
  {
    if sorted == [] then Some([x])
    else
      var last := sorted[|sorted| - 1];
      var init := sorted[..|sorted| - 1];
      assert sorted == init + [last];
      match Compare(NameOf(names, x), NameOf(names, last), pinyin)
      case None => None
      case Some(k) =>
        if k < 0 then
          match InsertSorted(x, init, names, pinyin)
          case None => None
          case Some(r) => Some(r + [last])
        else Some(sorted + [x])
  }

  /** `keys.sort(comparator)`, as a stable insertion sort; `None` when a comparison throws. */
  function SortKeys(ks: seq<string>, names: map<string, Value>, pinyin: (string, string) -> int): (r: Option<seq<string>>)
    ensures r.Some? ==> multiset(r.value) == multiset(ks)
    ensures (forall x, y :: x in ks && y in ks ==> Compare(NameOf(names, x), NameOf(names, y), pinyin).Some?) ==> r.Some?
    decreases |ks|
  {
    if ks == [] then Some([])
    else
      var init := ks[..|ks| - 1];
      var x := ks[|ks| - 1];
      assert ks == init + [x];
      match SortKeys(init, names, pinyin)
      case None => None
      case Some(s) =>
        assert forall y :: y in s ==> y in ks by {
          forall y | y in s ensures y in ks {
            assert y in multiset(s);
          }
        }
        InsertSorted(x, s, names, pinyin)
  }

  /** A one-character string is ASCII exactly when its character is below U+0080. */
  lemma OneCharASCII(c: char)
    ensures IsASCII([c]) <==> c as int < 128
  {
    assert [c][0] == c;
  }

  lemma StrLessOneChar(a: char, b: char)
    ensures StrLess([a], [b]) <==> a < b
  {
    if a == b {
      assert [a][1..] == [];
    }
  }

  /** An ASCII first character sorts before a non-ASCII one, in either argument order. */
  lemma AsciiBeforeNonAscii(x: string, y: string, pinyin: (string, string) -> int)
    requires |x| > 0 && |y| > 0 && x[0] as int < 128 && y[0] as int >= 128
    ensures Compare(VStr(x), VStr(y), pinyin) == Some(-1)
    ensures Compare(VStr(y), VStr(x), pinyin) == Some(1)
  {
    OneCharASCII(x[0]);
    OneCharASCII(y[0]);
  }

  /** Two ASCII first characters compare case-insensitively: -1 only when strictly less, else 1. */
  lemma BothAscii(x: string, y: string, pinyin: (string, string) -> int)
    requires |x| > 0 && |y| > 0 && x[0] as int < 128 && y[0] as int < 128
    ensures Compare(VStr(x), VStr(y), pinyin) == Some(if LowerChar(x[0]) < LowerChar(y[0]) then -1 else 1)
  {
    OneCharASCII(x[0]);
    OneCharASCII(y[0]);
    assert LowerASCII([x[0]]) == [LowerChar(x[0])];
    assert LowerASCII([y[0]]) == [LowerChar(y[0])];
    StrLessOneChar(LowerChar(x[0]), LowerChar(y[0]));
  }

  /** Two non-ASCII first characters defer to the collator, given only those characters. */
  lemma BothNonAscii(x: string, y: string, pinyin: (string, string) -> int)
    requires |x| > 0 && |y| > 0 && x[0] as int >= 128 && y[0] as int >= 128
    ensures Compare(VStr(x), VStr(y), pinyin) == Some(pinyin([x[0]], [y[0]]))
  {
    OneCharASCII(x[0]);
    OneCharASCII(y[0]);
  }

  /** Only the first character of each name is looked at. */
  lemma FirstCharOnly(x: string, y: string, x': string, y': string, pinyin: (string, string) -> int)
    requires |x| > 0 && |y| > 0 && |x'| > 0 && |y'| > 0 && x[0] == x'[0] && y[0] == y'[0]
    ensures Compare(VStr(x), VStr(y), pinyin) == Compare(VStr(x'), VStr(y'), pinyin)
  {
  }

  /** The comparator is not antisymmetric: names whose first characters agree up to case
      compare as 1 in both orders, so the order the sort leaves them in is the engine's. */
  lemma EqualHeadsBothGreater(x: string, y: string, pinyin: (string, string) -> int)
    requires |x| > 0 && |y| > 0 && x[0] as int < 128 && y[0] as int < 128
    requires LowerChar(x[0]) == LowerChar(y[0])
    ensures Compare(VStr(x), VStr(y), pinyin) == Some(1)
    ensures Compare(VStr(y), VStr(x), pinyin) == Some(1)
  {
    BothAscii(x, y, pinyin);
    BothAscii(y, x, pinyin);
  }

  /** "Sorts before" is transitive on non-empty names, provided the collator is
      transitive on the three first characters when all three are non-ASCII. */
  lemma BeforeTransitive(x: string, y: string, z: string, pinyin: (string, string) -> int)
    requires |x| > 0 && |y| > 0 && |z| > 0
    requires (pinyin([x[0]], [y[0]]) < 0 && pinyin([y[0]], [z[0]]) < 0) ==> pinyin([x[0]], [z[0]]) < 0
    requires Compare(VStr(x), VStr(y), pinyin).Some? && Compare(VStr(x), VStr(y), pinyin).value < 0
    requires Compare(VStr(y), VStr(z), pinyin).Some? && Compare(VStr(y), VStr(z), pinyin).value < 0
    ensures Compare(VStr(x), VStr(z), pinyin).Some? && Compare(VStr(x), VStr(z), pinyin).value < 0
  {
    var ax, ay, az := x[0] as int < 128, y[0] as int < 128, z[0] as int < 128;
    if ax && ay { BothAscii(x, y, pinyin); }
    if ay && az { BothAscii(y, z, pinyin); }
    if ax && az { BothAscii(x, z, pinyin); }
    if ax && !ay { AsciiBeforeNonAscii(x, y, pinyin); }
    if !ax && ay { AsciiBeforeNonAscii(y, x, pinyin); }
    if ay && !az { AsciiBeforeNonAscii(y, z, pinyin); }
    if !ay && az { AsciiBeforeNonAscii(z, y, pinyin); }
    if ax && !az { AsciiBeforeNonAscii(x, z, pinyin); }
    if !ax && az { AsciiBeforeNonAscii(z, x, pinyin); }
    if !ax && !ay { BothNonAscii(x, y, pinyin); }
    if !ay && !az { BothNonAscii(y, z, pinyin); }
    if !ax && !az { BothNonAscii(x, z, pinyin); }
  }

  /** An empty name has no first character: `undefined` counts as ASCII, so against an
      ASCII-first name the comparator calls `toLowerCase` on it and throws. */
  lemma EmptyNameThrows(y: string, pinyin: (string, string) -> int)
    requires |y| > 0 && y[0] as int < 128
    ensures Compare(VStr(""), VStr(y), pinyin).None?
    ensures Compare(VStr(y), VStr(""), pinyin).None?
  {
    OneCharASCII(y[0]);
    assert IsASCII(Display(VUndef));
  }
}
