/**
  The language overlay of lines 84-90 and 130-136: every own key of a record
  is overwritten in place by the value the language sub-object holds for it,
  when that value is truthy, and then the sub-objects of all known languages
  are deleted.
*/
module Localize {
  import opened JsValues

  /** Languages whose sub-objects are stripped after the overlay (line 13). */
  const LanguageList: seq<string> := ["zh", "zh-tw", "ja"]

  /** `sub?.[k]`: an own property of an object; `undefined` for every other value. */
  function SubGet(sub: Value, k: string): Value {
    if sub.VObj? then Get(sub.obj, k) else VUndef
  }

  /** One pass of the overlay loop: `r[k] = r[lang]?.[k] || r[k]`. */
  function OverlayKey(r: Record, lang: string, k: string): Record {
    Put(r, k, Or(SubGet(Get(r, lang), k), Get(r, k)))
  }

  /** The overlay loop over the keys `ks`, in order, each pass reading the record as it now is. */
  function OverlayKeys(r: Record, lang: string, ks: seq<string>): Record
    decreases |ks|
  {
    if ks == [] then r else OverlayKeys(OverlayKey(r, lang, ks[0]), lang, ks[1..])
  }

  /** `for (const la of ls) delete r[la]`. */
  function Strip(r: Record, ls: seq<string>): (out: Record)
    ensures forall k :: k in out.vals <==> k in r.vals && k !in ls
    ensures forall k :: k in out.vals ==> out.vals[k] == r.vals[k]
    ensures ValidDict(r) ==> ValidDict(out)
    decreases |ls|
  {
    if ls == [] then r else Strip(Delete(r, ls[0]), ls[1..])
  }

  /** The record as it stands after the overlay and the strip, in language `lang`. */
  function Localized(r: Record, lang: string): Record {
    Strip(OverlayKeys(r, lang, r.keys), LanguageList)
  }

  /** Lines 85-90 (and 131-136) as the builder runs them: overwrite key by key, then delete. */
  method OverlayAndStrip(r: Record, lang: string) returns (out: Record)
    ensures out == Localized(r, lang)
  {
    var keys := r.keys;
    out := r;
    var i := 0;
    while i < |keys|
      invariant 0 <= i <= |keys|
      invariant OverlayKeys(out, lang, keys[i..]) == OverlayKeys(r, lang, keys)
    {
      assert keys[i..][1..] == keys[i + 1..];
      out := OverlayKey(out, lang, keys[i]);
      i := i + 1;
    }
    ghost var overlaid := out;
    var j := 0;
    while j < |LanguageList|
      invariant 0 <= j <= |LanguageList|
      invariant Strip(out, LanguageList[j..]) == Strip(overlaid, LanguageList)
    {
      assert LanguageList[j..][1..] == LanguageList[j + 1..];
      out := Delete(out, LanguageList[j]);
      j := j + 1;
    }
  }

  lemma {:induction false} OverlayKeysShape(r: Record, lang: string, ks: seq<string>)
    requires forall k :: k in ks ==> k in r.vals
    ensures OverlayKeys(r, lang, ks).keys == r.keys
    ensures forall k :: k in OverlayKeys(r, lang, ks).vals <==> k in r.vals
    decreases |ks|
  {
    if ks != [] {
      OverlayKeysShape(OverlayKey(r, lang, ks[0]), lang, ks[1..]);
    }
  }

  /** Overlay and strip add no key: the keys left are the record's own keys other than
      the language sub-objects, in their original order. */
  lemma LocalizedKeys(r: Record, lang: string)
    requires ValidDict(r)
    ensures ValidDict(Localized(r, lang))
    ensures forall k :: k in Localized(r, lang).vals <==> k in r.vals && k !in LanguageList
  {
    OverlayKeysShape(r, lang, r.keys);
  }

  /** The value of each key after the overlay loop over the distinct keys `ks`, when the
      language sub-object `sub` does not itself carry a truthy entry for `lang`. */
  lemma {:induction false} OverlayKeysValue(r: Record, lang: string, ks: seq<string>, sub: Value, k: string)
    requires Distinct(ks) && (forall x :: x in ks ==> x in r.vals)
    requires Get(r, lang) == sub && !Truthy(SubGet(sub, lang))
    requires k in r.vals
    ensures k in OverlayKeys(r, lang, ks).vals
    ensures OverlayKeys(r, lang, ks).vals[k] == if k in ks then Or(SubGet(sub, k), r.vals[k]) else r.vals[k]
    decreases |ks|
  {
    if ks != [] {
      var r1 := OverlayKey(r, lang, ks[0]);
      assert Get(r1, lang) == sub;
      assert Distinct(ks[1..]) && ks[0] !in ks[1..] by {
        forall j | 0 < j < |ks| ensures ks[j] != ks[0] { }
      }
      OverlayKeysValue(r1, lang, ks[1..], sub, k);
      assert k in ks <==> k == ks[0] || k in ks[1..];
    }
  }

  /** Overlay: after the call every remaining key holds the language sub-object's value
      for it when that value is truthy, and its old value otherwise. */
  lemma OverlayValue(r: Record, lang: string, k: string)
    requires ValidDict(r) && !Truthy(SubGet(Get(r, lang), lang))
    requires k in r.vals && k !in LanguageList
    ensures k in Localized(r, lang).vals
    ensures Localized(r, lang).vals[k] == Or(SubGet(Get(r, lang), k), r.vals[k])
  {
    OverlayKeysValue(r, lang, r.keys, Get(r, lang), k);
    OverlayKeysShape(r, lang, r.keys);
  }

  lemma {:induction false} OverlayKeysNoSub(r: Record, lang: string, ks: seq<string>)
    requires !Get(r, lang).VObj? && forall k :: k in ks ==> k in r.vals
    ensures OverlayKeys(r, lang, ks) == r
    decreases |ks|
  {
    if ks != [] {
      assert OverlayKey(r, lang, ks[0]) == r;
      OverlayKeysNoSub(r, lang, ks[1..]);
    }
  }

  /** Without a sub-object for `lang` the overlay changes nothing: only the strip acts. */
  lemma WithoutSubObjectOnlyStrips(r: Record, lang: string)
    requires ValidDict(r) && !Get(r, lang).VObj?
    ensures Localized(r, lang) == Strip(r, LanguageList)
  {
    OverlayKeysNoSub(r, lang, r.keys);
  }

  /** Stripping what is already gone changes nothing. */
  lemma {:induction false} StripAbsent(r: Record, ls: seq<string>)
    requires ValidDict(r) && forall l :: l in ls ==> l !in r.vals
    ensures Strip(r, ls) == r
    decreases |ls|
  {
    if ls != [] {
      var d := Delete(r, ls[0]);
      assert Without(r.keys, ls[0]) == r.keys;
      MapExt(d.vals, r.vals);
      assert d == r;
      StripAbsent(r, ls[1..]);
    }
  }

  /** The strip persists: a record once localized is left as it is by a later overlay in
      any language whose sub-object was stripped, so a later render in that language
      sees the first language's text. */
  lemma LocalizedIsFinal(r: Record, lang: string, lang': string)
    requires ValidDict(r) && lang' in LanguageList
    ensures Localized(Localized(r, lang), lang') == Localized(r, lang)
  {
    var once := Localized(r, lang);
    LocalizedKeys(r, lang);
    assert lang' !in once.vals;
    WithoutSubObjectOnlyStrips(once, lang');
    StripAbsent(once, LanguageList);
  }
}
