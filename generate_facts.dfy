/**
  What a whole `generateMd(lang)` call does to the `docs` state and what it
  returns: every category must be found in the category table, the texts are
  keyed by the categories in table order, and every bucket of every category
  is left renamed, overlaid and stripped for `lang`.
*/
module GenerateFacts {
  import opened Wrappers
  import opened JsValues
  import opened Grouping
  import opened Ordering
  import opened Localize
  import opened Render
  import opened RenderFacts

  /** The table's dictionaries and each category's dictionary are well formed. */
  ghost predicate WellFormed(st: DocsState) {
    && ValidDict(st.table)
    && forall c :: c in st.table.vals ==> ValidDict(st.table.vals[c])
  }

  /** A bucket as rendering leaves it: `Unknown` renamed, overlaid and stripped for `lang`. */
  function LocalizedBucket(b: Bucket, n: string, lang: string): Bucket {
    Bucket(Localized(Renamed(b.fields, n), lang), b.routes)
  }

  /** The bucket after rendering: the name `Unknown` is replaced by the namespace id
      before the overlay, no language sub-object is left, no other key is added or lost,
      and each field holds the language's value when that is truthy. */
  lemma LocalizedBucketFields(b: Bucket, n: string, lang: string, k: string)
    requires ValidDict(b.fields)
    ensures var f := LocalizedBucket(b, n, lang).fields;
      && ValidDict(f)
      && (k in f.vals <==> k in b.fields.vals && k !in LanguageList)
    ensures var r := Renamed(b.fields, n);
      var f := LocalizedBucket(b, n, lang).fields;
      (!Truthy(SubGet(Get(r, lang), lang)) && k in b.fields.vals && k !in LanguageList) ==>
        f.vals[k] == Or(SubGet(Get(r, lang), k), r.vals[k])
    ensures Get(b.fields, "name") == VStr(Unknown) ==> Get(Renamed(b.fields, n), "name") == VStr(n)
  {
    var r := Renamed(b.fields, n);
    LocalizedKeys(r, lang);
    if !Truthy(SubGet(Get(r, lang), lang)) && k in b.fields.vals && k !in LanguageList {
      OverlayValue(r, lang, k);
    }
  }

  /** Rendering one namespace changes only its own bucket, which it leaves localized. */
  lemma NamespaceStepTable(st: DocsState, c: string, n: string, text: string, env: Env)
    requires c in st.table.vals && n in st.table.vals[c].vals
    requires NamespaceStep(st, c, n, text, env).Ok?
    ensures var st' := NamespaceStep(st, c, n, text, env).value.st;
      && st'.table.keys == st.table.keys
      && (forall c' :: c' in st'.table.vals <==> c' in st.table.vals)
      && (forall c' :: c' != c ==> CategoryOf(st', c') == CategoryOf(st, c'))
      && CategoryOf(st', c).keys == CategoryOf(st, c).keys
      && (forall m :: m in CategoryOf(st', c).vals <==> m in CategoryOf(st, c).vals)
      && BucketOf(st', c, n) == LocalizedBucket(BucketOf(st, c, n), n, env.lang)
      && (forall m :: m != n ==> BucketOf(st', c, m) == BucketOf(st, c, m))
      && (WellFormed(st) ==> WellFormed(st'))
  {
  }

  /** Rendering the namespaces `nss` of category `c`, each once: exactly their buckets
      are localized, and nothing else in the table changes. */
  lemma {:induction false} NamespacesFoldTable(st: DocsState, c: string, nss: seq<string>, text: string, env: Env)
    requires c in st.table.vals && Distinct(nss) && forall n :: n in nss ==> n in st.table.vals[c].vals
    requires NamespacesFold(st, c, nss, text, env).Ok?
    ensures var st' := NamespacesFold(st, c, nss, text, env).value.st;
      && st'.table.keys == st.table.keys
      && (forall c' :: c' in st'.table.vals <==> c' in st.table.vals)
      && (forall c' :: c' != c ==> CategoryOf(st', c') == CategoryOf(st, c'))
      && CategoryOf(st', c).keys == CategoryOf(st, c).keys
      && (forall m :: m in CategoryOf(st', c).vals <==> m in CategoryOf(st, c).vals)
      && (forall m :: m in nss ==> BucketOf(st', c, m) == LocalizedBucket(BucketOf(st, c, m), m, env.lang))
      && (forall m :: m !in nss ==> BucketOf(st', c, m) == BucketOf(st, c, m))
      && (WellFormed(st) ==> WellFormed(st'))
    decreases |nss|
  {
    if nss != [] {
      NamespaceStepTable(st, c, nss[0], text, env);
      var r := NamespaceStep(st, c, nss[0], text, env).value;
      assert Distinct(nss[1..]) && nss[0] !in nss[1..] by {
        forall i | 0 < i < |nss| ensures nss[i] != nss[0] { }
      }
      NamespacesFoldTable(r.st, c, nss[1..], r.text, env);
      assert forall m :: m in nss <==> m == nss[0] || m in nss[1..];
    }
  }

  /** `NamespacesFold` only ever fails with the comparator's `TypeError`. */
  lemma {:induction false} NamespacesFoldError(st: DocsState, c: string, nss: seq<string>, text: string, env: Env)
    ensures NamespacesFold(st, c, nss, text, env).Err? ==> NamespacesFold(st, c, nss, text, env).error == TypeError
    decreases |nss|
  {
    if nss != [] {
      match NamespaceStep(st, c, nss[0], text, env)
      case Err(e) =>
      case Ok(r) => NamespacesFoldError(r.st, c, nss[1..], r.text, env);
    }
  }

  /** Rendering one category that is found in the category table files its text under its key. */
  lemma CategoryStepMd(st: DocsState, md: ODict<string>, c: string, env: Env)
    requires CategoryStep(st, md, c, env).Ok?
    ensures var o := CategoryStep(st, md, c, env).value;
      && FindCategory(env.categories, c, 0).Some?
      && c in o.md.vals
      && (forall c' :: c' != c ==> (c' in o.md.vals <==> c' in md.vals))
      && (ValidDict(md) ==> ValidDict(o.md))
      && (c !in md.vals ==> o.md.keys == md.keys + [c])
  {
  }

  /** Rendering one category localizes each of its buckets, once, and changes nothing else. */
  lemma CategoryStepTable(st: DocsState, md: ODict<string>, c: string, env: Env)
    requires WellFormed(st) && c in st.table.vals
    requires CategoryStep(st, md, c, env).Ok?
    ensures var o := CategoryStep(st, md, c, env).value;
      && WellFormed(o.st)
      && o.st.table.keys == st.table.keys
      && (forall c' :: c' in o.st.table.vals <==> c' in st.table.vals)
      && (forall c' :: c' != c ==> CategoryOf(o.st, c') == CategoryOf(st, c'))
      && (forall m :: m in CategoryOf(o.st, c).vals <==> m in CategoryOf(st, c).vals)
      && (forall m :: m in CategoryOf(st, c).vals ==>
            BucketOf(o.st, c, m) == LocalizedBucket(BucketOf(st, c, m), m, env.lang))
  {
    var cat := CategoryOf(st, c);
    var i := FindCategory(env.categories, c, 0).value;
    var nss := SortKeys(cat.keys, NamespaceNames(cat), env.pinyin).value;
    PermutationDistinct(cat.keys, nss);
    NamespacesFoldTable(st, c, nss, CategoryHeading(env.categories[i], env.lang), env);
  }

  lemma AppendHead(a: seq<string>, s: seq<string>)
    requires |s| > 0
    ensures a + [s[0]] + s[1..] == a + s
  {
    assert s == [s[0]] + s[1..];
  }

  /** Rendering the categories `cats` in order: each was found, and their texts are filed
      under their keys in that order. */
  lemma {:induction false} CategoriesFoldMd(st: DocsState, md: ODict<string>, cats: seq<string>, env: Env)
    requires CategoriesFold(st, md, cats, env).Ok?
    ensures var o := CategoriesFold(st, md, cats, env).value;
      && (forall c :: c in cats ==> FindCategory(env.categories, c, 0).Some?)
      && (forall c :: c in o.md.vals <==> c in md.vals || c in cats)
      && (ValidDict(md) && Distinct(cats) && (forall c :: c in cats ==> c !in md.vals) ==>
            ValidDict(o.md) && o.md.keys == md.keys + cats)
    decreases |cats|
  {
    if cats != [] {
      CategoryStepMd(st, md, cats[0], env);
      var o1 := CategoryStep(st, md, cats[0], env).value;
      assert Distinct(cats) ==> Distinct(cats[1..]) && cats[0] !in cats[1..] by {
        if Distinct(cats) { forall i | 0 < i < |cats| ensures cats[i] != cats[0] { } }
      }
      CategoriesFoldMd(o1.st, o1.md, cats[1..], env);
      assert forall c :: c in cats <==> c == cats[0] || c in cats[1..];
      AppendHead(md.keys, cats);
    }
  }

  /** Two states that differ at most inside category `c0`, without adding or removing its buckets. */
  lemma SameBuckets(a: DocsState, b: DocsState, c0: string)
    requires forall c :: c in a.table.vals <==> c in b.table.vals
    requires forall c :: c != c0 ==> CategoryOf(a, c) == CategoryOf(b, c)
    requires forall m :: m in CategoryOf(a, c0).vals <==> m in CategoryOf(b, c0).vals
    ensures forall c, n :: HasBucket(a, c, n) <==> HasBucket(b, c, n)
    ensures forall c, n :: c != c0 ==> BucketOf(a, c, n) == BucketOf(b, c, n)
  {
    forall c, n ensures HasBucket(a, c, n) <==> HasBucket(b, c, n) {
      if c != c0 {
        assert CategoryOf(a, c) == CategoryOf(b, c);
      } else {
        assert n in CategoryOf(a, c0).vals <==> n in CategoryOf(b, c0).vals;
      }
    }
  }

  /** Rendering the categories `cats`, each once: exactly their buckets are localized. */
  lemma {:induction false} CategoriesFoldTable(st: DocsState, md: ODict<string>, cats: seq<string>, env: Env)
    requires WellFormed(st) && Distinct(cats) && forall c :: c in cats ==> c in st.table.vals
    requires CategoriesFold(st, md, cats, env).Ok?
    ensures var o := CategoriesFold(st, md, cats, env).value;
      && WellFormed(o.st)
      && o.st.table.keys == st.table.keys
      && (forall c :: c in o.st.table.vals <==> c in st.table.vals)
      && (forall c, n :: HasBucket(o.st, c, n) <==> HasBucket(st, c, n))
      && (forall c, n :: HasBucket(st, c, n) && c in cats ==>
            BucketOf(o.st, c, n) == LocalizedBucket(BucketOf(st, c, n), n, env.lang))
      && (forall c, n :: HasBucket(st, c, n) && c !in cats ==> BucketOf(o.st, c, n) == BucketOf(st, c, n))
    decreases |cats|
  {
    if cats != [] {
      CategoryStepTable(st, md, cats[0], env);
      var o1 := CategoryStep(st, md, cats[0], env).value;
      assert Distinct(cats[1..]) && cats[0] !in cats[1..] by {
        forall i | 0 < i < |cats| ensures cats[i] != cats[0] { }
      }
      CategoriesFoldTable(o1.st, o1.md, cats[1..], env);
      var o := CategoriesFold(st, md, cats, env).value;
      SameBuckets(o1.st, st, cats[0]);
      forall c, n | HasBucket(st, c, n)
        ensures c in cats ==> BucketOf(o.st, c, n) == LocalizedBucket(BucketOf(st, c, n), n, env.lang)
        ensures c !in cats ==> BucketOf(o.st, c, n) == BucketOf(st, c, n)
      {
        assert HasBucket(o1.st, c, n);
        if c == cats[0] {
          assert BucketOf(o.st, c, n) == BucketOf(o1.st, c, n);
        } else {
          assert BucketOf(o1.st, c, n) == BucketOf(st, c, n);
          assert c in cats <==> c in cats[1..];
        }
      }
    }
  }

  /** Persistence: a successful `generateMd(lang)` found every category, returns one text
      per category in table order, and leaves every bucket renamed, overlaid and stripped
      for `lang` in the state that later calls see. */
  lemma GenerateResult(st: DocsState, env: Env)
    requires WellFormed(st)
    requires GenerateSpec(st, env).Ok?
    ensures var o := GenerateSpec(st, env).value;
      && (forall c :: c in st.table.keys ==> FindCategory(env.categories, c, 0).Some?)
      && o.md.keys == st.table.keys
      && (forall c :: c in o.md.vals <==> c in st.table.vals)
      && WellFormed(o.st)
      && (forall c, n :: HasBucket(o.st, c, n) <==> HasBucket(st, c, n))
      && (forall c, n :: HasBucket(st, c, n) ==>
            BucketOf(o.st, c, n) == LocalizedBucket(BucketOf(st, c, n), n, env.lang))
  {
    CategoriesFoldMd(st, Empty(), st.table.keys, env);
    CategoriesFoldTable(st, Empty(), st.table.keys, env);
  }

  /** A category missing from the table makes the call fail. */
  lemma {:induction false} CategoriesFoldMissing(st: DocsState, md: ODict<string>, cats: seq<string>, env: Env, c: string)
    requires c in cats && FindCategory(env.categories, c, 0).None?
    ensures CategoriesFold(st, md, cats, env).Err?
    decreases |cats|
  {
    if cats[0] != c {
      match CategoryStep(st, md, cats[0], env)
      case Err(e) =>
      case Ok(o) => CategoriesFoldMissing(o.st, o.md, cats[1..], env, c);
    }
  }

  /** The error names the first category, in table order, that is missing from the table. */
  lemma {:induction false} CategoriesFoldErrorNames(st: DocsState, md: ODict<string>, cats: seq<string>, env: Env, c: string)
    requires CategoriesFold(st, md, cats, env) == Err(CategoryNotFound(c))
    ensures exists i :: 0 <= i < |cats| && cats[i] == c && FindCategory(env.categories, c, 0).None? &&
                        forall j :: 0 <= j < i ==> FindCategory(env.categories, cats[j], 0).Some?
    decreases |cats|
  {
    var step := CategoryStep(st, md, cats[0], env);
    if step.Err? {
      if FindCategory(env.categories, cats[0], 0).Some? {
        var cat := CategoryOf(st, cats[0]);
        var i := FindCategory(env.categories, cats[0], 0).value;
        match SortKeys(cat.keys, NamespaceNames(cat), env.pinyin)
        case None =>
        case Some(nss) => NamespacesFoldError(st, cats[0], nss, CategoryHeading(env.categories[i], env.lang), env);
      }
      assert cats[0] == c;
    } else {
      CategoriesFoldErrorNames(step.value.st, step.value.md, cats[1..], env, c);
      var i :| 0 <= i < |cats[1..]| && cats[1..][i] == c && FindCategory(env.categories, c, 0).None? &&
        forall j :: 0 <= j < i ==> FindCategory(env.categories, cats[1..][j], 0).Some?;
      assert FindCategory(env.categories, cats[0], 0).Some?;
      assert forall j :: 0 <= j < i + 1 ==> FindCategory(env.categories, cats[j], 0).Some? by {
        forall j | 0 < j < i + 1 ensures FindCategory(env.categories, cats[j], 0).Some? {
          assert cats[j] == cats[1..][j - 1];
        }
      }
    }
  }

  /** Unknown category is an error (lines 58-62): a grouped category that no entry's link
      contains makes `generateMd` fail. A missing-category error names the first missing
      category in table order; a comparator `TypeError` in an earlier category (line 72) can
      end the call first. */
  lemma GenerateErrors(st: DocsState, env: Env)
    ensures (exists c :: c in st.table.keys && FindCategory(env.categories, c, 0).None?) ==> GenerateSpec(st, env).Err?
    ensures forall c :: GenerateSpec(st, env) == Err(CategoryNotFound(c)) ==>
      exists i :: 0 <= i < |st.table.keys| && st.table.keys[i] == c && FindCategory(env.categories, c, 0).None? &&
                  forall j :: 0 <= j < i ==> FindCategory(env.categories, st.table.keys[j], 0).Some?
  {
    if c :| c in st.table.keys && FindCategory(env.categories, c, 0).None? {
      CategoriesFoldMissing(st, Empty(), st.table.keys, env, c);
    }
    forall c | GenerateSpec(st, env) == Err(CategoryNotFound(c))
      ensures exists i :: 0 <= i < |st.table.keys| && st.table.keys[i] == c && FindCategory(env.categories, c, 0).None? &&
                          forall j :: 0 <= j < i ==> FindCategory(env.categories, st.table.keys[j], 0).Some?
    {
      CategoriesFoldErrorNames(st, Empty(), st.table.keys, env, c);
    }
  }
}
