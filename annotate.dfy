/**
  The per-route test annotation of lines 122-128 and the quote escaping of
  the text embedded in the `<Route>` tag (line 139). `JSON.stringify` is a
  parameter of the model; only the escaping applied to its output is proved.
*/
module Annotate {
  import opened Wrappers
  import opened JsValues

  /** One assertion result of the test report. */
  datatype TestRecord = TestRecord(title: string, status: string, failureMessages: Option<seq<string>>)

  /** `{ code, message }`; a `message` of `None` is `undefined`. */
  datatype Annotation = Annotation(code: int, message: Option<string>)

  const Passed: string := "passed"

  /** `testResult.find((t) => t.title === realPath)`, as a position. */
  function FindTest(tests: seq<TestRecord>, rp: string, from: nat): (r: Option<nat>)
    requires from <= |tests|
    ensures r.Some? ==> from <= r.value < |tests| && tests[r.value].title == rp
    ensures r.Some? ==> forall i :: from <= i < r.value ==> tests[i].title != rp
    ensures r.None? ==> forall i :: from <= i < |tests| ==> tests[i].title != rp
    decreases |tests| - from
  {
    if from == |tests| then None
    else if tests[from].title == rp then Some(from)
    else FindTest(tests, rp, from + 1)
  }

  /** `t.failureMessages?.[0]`. */
  function FirstMessage(t: TestRecord): Option<string> {
    match t.failureMessages
    case Some(ms) => if |ms| > 0 then Some(ms[0]) else None
    case None => None
  }

  /** The annotation of route `rp`: from the first record titled `rp`, code 0 exactly when
      it passed and 1 otherwise, with its first failure message; none without a record. */
  function ParsedTest(tests: seq<TestRecord>, rp: string): (a: Option<Annotation>)
    ensures a.None? <==> forall i :: 0 <= i < |tests| ==> tests[i].title != rp
    ensures forall i :: 0 <= i < |tests| && tests[i].title == rp && (forall j :: 0 <= j < i ==> tests[j].title != rp) ==>
      && a.Some?
      && (a.value.code == 0 <==> tests[i].status == Passed)
      && (a.value.code != 0 ==> a.value.code == 1)
      && a.value.message == FirstMessage(tests[i])
  {
    match FindTest(tests, rp, 0)
    case None => None
    case Some(i) =>
      Some(Annotation(if tests[i].status == Passed then 0 else 1, FirstMessage(tests[i])))
  }

  /** The object literal handed to `JSON.stringify`. */
  function AnnotationValue(a: Annotation): Value {
    var msg := if a.message.Some? then VStr(a.message.value) else VUndef;
    VObj(ODict(["code", "message"], map["code" := VNum(a.code), "message" := msg]))
  }

  /** What `replaceAll("'", "&#39;")` makes of one character. */
  function EscapedChar(c: char): string {
    if c == '\'' then "&#39;" else [c]
  }

  /** `s.replaceAll("'", "&#39;")`. */
  function EscapeQuotes(s: string): string
    decreases |s|
  {
    if s == [] then [] else EscapedChar(s[0]) + EscapeQuotes(s[1..])
  }

  /** The escaped text has no single quote, and text without one is left as it is. */
  lemma {:induction false} EscapeQuotesClean(s: string)
    ensures '\'' !in EscapeQuotes(s)
    ensures '\'' !in s ==> EscapeQuotes(s) == s
    decreases |s|
  {
    if s != [] {
      EscapeQuotesClean(s[1..]);
      assert EscapeQuotes(s) == EscapedChar(s[0]) + EscapeQuotes(s[1..]);
      if '\'' !in s {
        assert s[0] != '\'' && '\'' !in s[1..];
        assert s == [s[0]] + s[1..];
      }
    }
  }

  /** Reads `&#39;` back as a quote; the reference for what the escaping keeps. */
  function UnescapeQuotes(s: string): string
    decreases |s|
  {
    if s == [] then []
    else if |s| >= 5 && s[..5] == "&#39;" then "'" + UnescapeQuotes(s[5..])
    else [s[0]] + UnescapeQuotes(s[1..])
  }

  /** Escaping loses nothing from text that has no `&` of its own. */
  lemma {:induction false} EscapeRoundTrip(s: string)
    requires '&' !in s
    ensures UnescapeQuotes(EscapeQuotes(s)) == s
    decreases |s|
  {
    if s != [] {
      EscapeRoundTrip(s[1..]);
      var rest := EscapeQuotes(s[1..]);
      if s[0] == '\'' {
        assert EscapeQuotes(s) == "&#39;" + rest;
        assert ("&#39;" + rest)[..5] == "&#39;" && ("&#39;" + rest)[5..] == rest;
      } else {
        assert EscapeQuotes(s) == [s[0]] + rest;
        assert s[0] != '&';
        assert ([s[0]] + rest)[1..] == rest;
      }
    }
  }

  /** One step of the escaping: the first character's piece, then the rest escaped. */
  lemma EscapeStep(s: string)
    requires s != []
    ensures EscapeQuotes(s) == EscapedChar(s[0]) + EscapeQuotes(s[1..])
  {
  }

  lemma ConcatTail(a: string, b: string)
    requires a != []
    ensures (a + b)[0] == a[0] && (a + b)[1..] == a[1..] + b
  {
  }

  lemma ConcatAssoc(c: string, x: string, y: string)
    ensures c + (x + y) == (c + x) + y
  {
  }

  /** Escaping distributes over concatenation, so each embedded piece can be escaped on its own. */
  lemma {:induction false} EscapeConcat(a: string, b: string)
    ensures EscapeQuotes(a + b) == EscapeQuotes(a) + EscapeQuotes(b)
    decreases |a|
  {
    if a == [] {
      assert a + b == b;
    } else {
      ConcatTail(a, b);
      EscapeStep(a + b);
      EscapeStep(a);
      EscapeConcat(a[1..], b);
      ConcatAssoc(EscapedChar(a[0]), EscapeQuotes(a[1..]), EscapeQuotes(b));
    }
  }

  /** The `:test` attribute text: the escaped JSON of the annotation, or the word
      `undefined` (what `${JSON.stringify(undefined)?.replaceAll(...)}` prints). */
  function TestText(p: Option<Annotation>, stringify: Value -> string): (r: string)
    ensures '\'' !in r
    ensures p.None? ==> r == "undefined"
  {
    if p.None? then "undefined"
    else
      var json := stringify(AnnotationValue(p.value));
      EscapeQuotesClean(json);
      EscapeQuotes(json)
  }
}
