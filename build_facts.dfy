/**
  What the two renders of lines 151-152 see. Because `generateMd('en')`
  overlays and strips the shared buckets and route data objects in place, the
  language sub-objects are gone when `generateMd('zh')` runs, so the second
  render works from the English fields. Rendering each language from a table
  of its own, over route data objects of its own, gives each render the
  registry's own fields.
*/
module BuildFacts {
  import opened Wrappers
  import opened JsValues
  import opened Grouping
  import opened GroupingFacts
  import opened Localize
  import opened Annotate
  import opened Render
  import opened GenerateFacts
  import opened BuildDocs
  import opened StoreFacts

  /** A record without language sub-objects is left as it is by the overlay for a
      language whose sub-object would have been stripped. */
  lemma LocalizedClean(r: Record, lang: string)
    requires ValidDict(r) && lang in LanguageList && forall l :: l in LanguageList ==> l !in r.vals
    ensures Localized(r, lang) == r
  {
    WithoutSubObjectOnlyStrips(r, lang);
    StripAbsent(r, LanguageList);
  }

  /** Renaming adds no language sub-object. */
  lemma RenamedClean(r: Record, n: string)
    requires ValidDict(r) && forall l :: l in LanguageList ==> l !in r.vals
    ensures ValidDict(Renamed(r, n)) && forall l :: l in LanguageList ==> l !in Renamed(r, n).vals
  {
  }

  /** The fields the English render leaves in the bucket of namespace `n`. */
  function EnglishFields(info: Record, n: string): Record {
    Localized(Renamed(info, n), "en")
  }

  /** As written: when both renders succeed, every bucket the Chinese render leaves (and
      renders its heading from) holds the English fields, whatever the registry's `zh`
      sub-object says. */
  lemma SecondRenderSeesEnglish(reg: Registry, categories: seq<CategoryEntry>, tests: seq<TestRecord>,
                                pinyin: (string, string) -> int, stringify: Value -> string)
    requires forall n :: n in reg.vals ==> ValidDict(reg.vals[n].info)
    requires BuildSpec(reg, categories, tests, pinyin, stringify).Ok?
    ensures var first := GenerateSpec(Grouped(reg), Env("en", categories, tests, pinyin, stringify));
      && first.Ok?
      && GenerateSpec(first.value.st, Env("zh", categories, tests, pinyin, stringify)).Ok?
      && forall c, n :: HasBucket(Grouped(reg), c, n) ==>
           BucketOf(GenerateSpec(first.value.st, Env("zh", categories, tests, pinyin, stringify)).value.st, c, n).fields
             == Renamed(EnglishFields(NamespaceOf(reg, n).info, n), n)
  {
    var g := Grouped(reg);
    var en := Env("en", categories, tests, pinyin, stringify);
    var zh := Env("zh", categories, tests, pinyin, stringify);
    GroupedInvariant(reg);
    var first := GenerateSpec(g, en).value;
    GenerateResult(g, en);
    var second := GenerateSpec(first.st, zh).value;
    GenerateResult(first.st, zh);
    forall c, n | HasBucket(g, c, n)
      ensures BucketOf(second.st, c, n).fields == Renamed(EnglishFields(NamespaceOf(reg, n).info, n), n)
    {
      var info := NamespaceOf(reg, n).info;
      assert BucketOf(g, c, n).fields == info;
      assert ValidDict(Renamed(info, n));
      LocalizedKeys(Renamed(info, n), "en");
      var e := EnglishFields(info, n);
      assert BucketOf(first.st, c, n).fields == e;
      RenamedClean(e, n);
      LocalizedClean(Renamed(e, n), "zh");
    }
  }

  /** A throw ends the script but keeps what was written: when the English render succeeds,
      its texts are written whether or not the Chinese render then throws, and the failure
      carries the error of the render that threw. */
  lemma BuildWritesEnglishFirst(reg: Registry, categories: seq<CategoryEntry>, tests: seq<TestRecord>,
                                pinyin: (string, string) -> int, stringify: Value -> string)
    ensures var en := GenerateSpec(Grouped(reg), Env("en", categories, tests, pinyin, stringify));
      var out := BuildSpec(reg, categories, tests, pinyin, stringify);
      && (en.Err? <==> out.Err? && out.error.written.None?)
      && (en.Err? ==> out.error.error == en.error)
      && (en.Ok? && out.Ok? ==> out.value.en == en.value.md)
      && (en.Ok? && out.Err? ==>
            && out.error.written == Some(en.value.md)
            && GenerateSpec(en.value.st, Env("zh", categories, tests, pinyin, stringify)) == Err(out.error.error))
  {
  }

  /** A namespace whose English name is "Bar" and whose Chinese name is "吧". */
  const BarInfo: Record :=
    ODict(["name", "zh"], map["name" := VStr("Bar"), "zh" := VObj(ODict(["name"], map["name" := VStr("吧")]))])

  /** The overlay itself picks the right name for each language. */
  lemma BarNames(n: string)
    ensures Get(Renamed(EnglishFields(BarInfo, n), n), "name") == VStr("Bar")
    ensures Get(Localized(Renamed(BarInfo, n), "zh"), "name") == VStr("吧")
  {
    assert ValidDict(BarInfo);
    assert Renamed(BarInfo, n) == BarInfo;
    OverlayValue(BarInfo, "en", "name");
    OverlayValue(BarInfo, "zh", "name");
  }

  /** The discrepancy: for a namespace with the fields of `BarInfo`, every bucket the
      Chinese render of the script as written leaves is named "Bar", not "吧". */
  lemma ChineseRenderShowsEnglishName(reg: Registry, categories: seq<CategoryEntry>, tests: seq<TestRecord>,
                                      pinyin: (string, string) -> int, stringify: Value -> string, c: string, n: string)
    requires forall m :: m in reg.vals ==> ValidDict(reg.vals[m].info)
    requires n in reg.vals && reg.vals[n].info == BarInfo && HasBucket(Grouped(reg), c, n)
    requires BuildSpec(reg, categories, tests, pinyin, stringify).Ok?
    ensures var first := GenerateSpec(Grouped(reg), Env("en", categories, tests, pinyin, stringify));
      && first.Ok?
      && GenerateSpec(first.value.st, Env("zh", categories, tests, pinyin, stringify)).Ok?
      && Get(BucketOf(GenerateSpec(first.value.st, Env("zh", categories, tests, pinyin, stringify)).value.st, c, n).fields,
             "name") == VStr("Bar")
  {
    SecondRenderSeesEnglish(reg, categories, tests, pinyin, stringify);
    BarNames(n);
  }

  /** Corrected: with a table of its own for each language, each render leaves (and renders
      its headings from) the registry's fields overlaid for its own language. */
  lemma PerLanguageRendersOwnLanguage(reg: Registry, categories: seq<CategoryEntry>, tests: seq<TestRecord>,
                                      pinyin: (string, string) -> int, stringify: Value -> string, lang: string)
    requires forall n :: n in reg.vals ==> ValidDict(reg.vals[n].info)
    requires lang == "en" || lang == "zh"
    requires BuildPerLanguageSpec(reg, categories, tests, pinyin, stringify).Ok?
    ensures var out := GenerateSpec(Grouped(reg), Env(lang, categories, tests, pinyin, stringify));
      && out.Ok?
      && forall c, n :: HasBucket(Grouped(reg), c, n) ==>
           BucketOf(out.value.st, c, n).fields == Localized(Renamed(NamespaceOf(reg, n).info, n), lang)
  {
    var g := Grouped(reg);
    GroupedInvariant(reg);
    GenerateResult(g, Env(lang, categories, tests, pinyin, stringify));
  }

  /** The corrected build names the `BarInfo` namespace "吧" in Chinese. */
  lemma PerLanguageShowsChineseName(reg: Registry, categories: seq<CategoryEntry>, tests: seq<TestRecord>,
                                    pinyin: (string, string) -> int, stringify: Value -> string, c: string, n: string)
    requires forall m :: m in reg.vals ==> ValidDict(reg.vals[m].info)
    requires n in reg.vals && reg.vals[n].info == BarInfo && HasBucket(Grouped(reg), c, n)
    requires BuildPerLanguageSpec(reg, categories, tests, pinyin, stringify).Ok?
    ensures var out := GenerateSpec(Grouped(reg), Env("zh", categories, tests, pinyin, stringify));
      && out.Ok?
      && Get(BucketOf(out.value.st, c, n).fields, "name") == VStr("吧")
  {
    PerLanguageRendersOwnLanguage(reg, categories, tests, pinyin, stringify, "zh");
    BarNames(n);
  }

  /** As written, for the route data objects: every object the English render changed
      reaches the Chinese render with no language sub-object, and the Chinese render leaves
      it as the English render left it. */
  lemma SecondRenderKeepsEnglishRoutes(reg: Registry, categories: seq<CategoryEntry>, tests: seq<TestRecord>,
                                       pinyin: (string, string) -> int, stringify: Value -> string)
    requires RoutesValid(reg)
    requires BuildSpec(reg, categories, tests, pinyin, stringify).Ok?
    ensures var first := GenerateSpec(Grouped(reg), Env("en", categories, tests, pinyin, stringify));
      && first.Ok?
      && GenerateSpec(first.value.st, Env("zh", categories, tests, pinyin, stringify)).Ok?
      && forall id :: StoreGet(first.value.st.store, id) != StoreGet(Grouped(reg).store, id) ==>
           && (forall l :: l in LanguageList ==> l !in StoreGet(first.value.st.store, id).vals)
           && StoreGet(GenerateSpec(first.value.st, Env("zh", categories, tests, pinyin, stringify)).value.st.store, id)
                == StoreGet(first.value.st.store, id)
  {
    var g := Grouped(reg);
    var en := Env("en", categories, tests, pinyin, stringify);
    var zh := Env("zh", categories, tests, pinyin, stringify);
    GroupedStore(reg);
    var first := GenerateSpec(g, en).value;
    GenerateStore(g, en);
    var second := GenerateSpec(first.st, zh).value;
    GenerateStore(first.st, zh);
    forall id | StoreGet(first.st.store, id) != StoreGet(g.store, id)
      ensures forall l :: l in LanguageList ==> l !in StoreGet(first.st.store, id).vals
      ensures StoreGet(second.st.store, id) == StoreGet(first.st.store, id)
    {
      var k: nat :| StoreGet(first.st.store, id) == Passes(StoreGet(g.store, id), "en", k);
      PassesShape(StoreGet(g.store, id), "en", k);
      var k2: nat :| StoreGet(second.st.store, id) == Passes(StoreGet(first.st.store, id), "zh", k2);
      PassesClean(StoreGet(first.st.store, id), "zh", k2);
    }
  }

  /** The discrepancy on a route: a registry route whose record has the fields of `BarInfo`,
      once the English render has rendered it, is named "Bar" after the Chinese render. */
  lemma ChineseRenderShowsEnglishRouteName(reg: Registry, categories: seq<CategoryEntry>, tests: seq<TestRecord>,
                                           pinyin: (string, string) -> int, stringify: Value -> string,
                                           n: string, p: string)
    requires RoutesValid(reg) && n in reg.vals && p in reg.vals[n].routes.vals
    requires reg.vals[n].routes.vals[p] == BarInfo
    requires BuildSpec(reg, categories, tests, pinyin, stringify).Ok?
    requires StoreGet(GenerateSpec(Grouped(reg), Env("en", categories, tests, pinyin, stringify)).value.st.store, (n, p)) != BarInfo
    ensures var first := GenerateSpec(Grouped(reg), Env("en", categories, tests, pinyin, stringify));
      && first.Ok?
      && GenerateSpec(first.value.st, Env("zh", categories, tests, pinyin, stringify)).Ok?
      && Get(StoreGet(GenerateSpec(first.value.st, Env("zh", categories, tests, pinyin, stringify)).value.st.store, (n, p)),
             "name") == VStr("Bar")
  {
    var g := Grouped(reg);
    var en := Env("en", categories, tests, pinyin, stringify);
    var first := GenerateSpec(g, en).value;
    GroupedStore(reg);
    SecondRenderKeepsEnglishRoutes(reg, categories, tests, pinyin, stringify);
    GenerateStore(g, en);
    var k: nat :| StoreGet(first.st.store, (n, p)) == Passes(StoreGet(g.store, (n, p)), "en", k);
    BarEnglishSettles(k);
  }

  /** A record without an `en` sub-object settles after one pass in English. */
  lemma EnglishSettles(r: Record)
    requires ValidDict(r) && "en" !in r.vals
    ensures Localized(Localized(r, "en"), "en") == Localized(r, "en")
  {
    var once := Localized(r, "en");
    LocalizedKeys(r, "en");
    WithoutSubObjectOnlyStrips(once, "en");
    StripAbsent(once, LanguageList);
  }

  /** Passes in English over `BarInfo` name it "Bar". */
  lemma BarEnglishSettles(k: nat)
    ensures Get(Passes(BarInfo, "en", k), "name") == VStr("Bar")
  {
    assert ValidDict(BarInfo);
    if k >= 1 {
      EnglishSettles(BarInfo);
      PassesSettle(BarInfo, "en", k);
      OverlayValue(BarInfo, "en", "name");
    }
  }

  /** Corrected, for the route data objects: with objects of its own, the Chinese render
      leaves the object of each registry route either as the registry's record or as that
      record overlaid and stripped once for Chinese. */
  lemma PerLanguageRouteObjects(reg: Registry, categories: seq<CategoryEntry>, tests: seq<TestRecord>,
                                pinyin: (string, string) -> int, stringify: Value -> string)
    requires RoutesValid(reg)
    requires BuildPerLanguageSpec(reg, categories, tests, pinyin, stringify).Ok?
    ensures var out := GenerateSpec(Grouped(reg), Env("zh", categories, tests, pinyin, stringify));
      && out.Ok?
      && forall n, p :: n in reg.vals && p in reg.vals[n].routes.vals ==>
           || StoreGet(out.value.st.store, (n, p)) == reg.vals[n].routes.vals[p]
           || StoreGet(out.value.st.store, (n, p)) == Localized(reg.vals[n].routes.vals[p], "zh")
  {
    var g := Grouped(reg);
    var zh := Env("zh", categories, tests, pinyin, stringify);
    GroupedStore(reg);
    var out := GenerateSpec(g, zh).value;
    GenerateStore(g, zh);
    forall n, p | n in reg.vals && p in reg.vals[n].routes.vals ensures
      || StoreGet(out.st.store, (n, p)) == reg.vals[n].routes.vals[p]
      || StoreGet(out.st.store, (n, p)) == Localized(reg.vals[n].routes.vals[p], "zh")
    {
      var r := reg.vals[n].routes.vals[p];
      assert StoreGet(g.store, (n, p)) == r;
      var k: nat :| StoreGet(out.st.store, (n, p)) == Passes(r, "zh", k);
      if k >= 1 {
        LocalizedIsFinal(r, "zh", "zh");
        PassesSettle(r, "zh", k);
      }
    }
  }

  /** The corrected build names a rendered registry route with the fields of `BarInfo` "吧"
      in Chinese. */
  lemma PerLanguageShowsChineseRouteName(reg: Registry, categories: seq<CategoryEntry>, tests: seq<TestRecord>,
                                         pinyin: (string, string) -> int, stringify: Value -> string,
                                         n: string, p: string)
    requires RoutesValid(reg) && n in reg.vals && p in reg.vals[n].routes.vals
    requires reg.vals[n].routes.vals[p] == BarInfo
    requires BuildPerLanguageSpec(reg, categories, tests, pinyin, stringify).Ok?
    requires StoreGet(GenerateSpec(Grouped(reg), Env("zh", categories, tests, pinyin, stringify)).value.st.store, (n, p)) != BarInfo
    ensures var out := GenerateSpec(Grouped(reg), Env("zh", categories, tests, pinyin, stringify));
      && out.Ok?
      && Get(StoreGet(out.value.st.store, (n, p)), "name") == VStr("吧")
  {
    PerLanguageRouteObjects(reg, categories, tests, pinyin, stringify);
    BarNames("");
  }
}
