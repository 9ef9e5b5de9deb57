# RSSHub documentation build, modelled in Dafny

This project models the core of RSSHub's documentation build script,
`scripts/workflow/build-docs.ts`. It has two stages:

- **Grouping** (lines 17-50). Every route of every registered namespace is
  filed into a `docs` table, keyed by category and then by namespace.
  - A route's categories are its own, else its namespace's.
  - Failing those, they are the namespace's *default category*: the
    namespace's first category, else the first category of its first route
    that declares any, else `other`.
  - Each `docs[category][namespace]` bucket carries the namespace's fields
    (all but `routes`) and a `routes` object. That object maps the full path
    `/<namespace><path>` to the route's data object, which is shared with the
    registry.
- **Rendering**, `generateMd(lang)` (lines 56-145).
  - For each category in table order:
    - look it up in the category table (failing on none);
    - sort its namespaces by the first character of their names;
    - for each namespace: rename `Unknown`, overlay the language's fields and
      strip the language sub-objects, then emit the heading.
  - Then, for each route in sorted order:
    - skip a route whose `path` array shares its first element with an
      earlier route of the namespace;
    - look up its test record;
    - overlay and strip its data object;
    - emit its heading and its `<Route>` tag, with single quotes escaped.
  - The overlay and strip change `docs` and the shared route data objects in
    place, and the script runs `generateMd('en')` and then `generateMd('zh')`
    on the same `docs` (lines 151-152).

Modules:

- `Wrappers` (`Option`, `Result`).
- `JsValues`: JavaScript values and insertion-ordered objects.
- `Grouping` and `GroupingFacts`: the grouping pass as functions, with its
  properties.
- `Ordering`: the namespace and route comparator, and an insertion sort over
  it.
- `Localize`: overlay and strip.
- `Annotate`: test annotations and quote escaping.
- `Render` and `RenderFacts`: `generateMd` as folds over the state, with the
  dedup properties.
- `GenerateFacts`: what a whole call returns and leaves behind in the table.
- `StoreFacts`: what a whole call does to the route data objects.
- `BuildDocs`: the script itself as a class `Docs`, whose fields `table`
  (the `docs` object) and `store` (the route data objects, by identity) its
  methods update with loops. Each method is proved to return and leave what
  the functional specification gives; after an error return only the error
  is stated.
- `BuildFacts`: what the two consecutive renders see.

## Model

| member | source | states |
|---|---|---|
| Grouping.RouteKeyInjective | scripts/workflow/build-docs.ts:31 | two paths of one namespace give the same full path exactly when they are equal |
| Grouping.FirstDeclaring | scripts/workflow/build-docs.ts:20-25 | finds the first route, in key order, whose `categories` is truthy; no earlier one has them; none means no route has them |
| Grouping.DefaultCategory | scripts/workflow/build-docs.ts:18-29 | the default category is always truthy; it is the namespace's first category when that is truthy, else the first declaring route's first category (or `other`), else `other` |
| Grouping.SpreadInto | scripts/workflow/build-docs.ts:45-46 | the spread keeps the bucket's keys, adds the namespace's keys with the namespace's values, keeps the other values, and appends the new keys in order |
| GroupingFacts.InsertKeepsRoutes | scripts/workflow/build-docs.ts:36-47 | merging keeps routes: after filing one route, a bucket holds a route exactly when it held it before or it is the route just filed |
| GroupingFacts.InsertAllPlaces | scripts/workflow/build-docs.ts:35-48 | filing a route under a list of categories adds it to exactly the buckets of those categories |
| GroupingFacts.GroupRoutesPlaces | scripts/workflow/build-docs.ts:30-49 | after one namespace's loop, a route is filed under a category exactly when it was before or that category is one of the route's effective categories |
| GroupingFacts.GroupNamespacesPlaces | scripts/workflow/build-docs.ts:17-50 | after the loop over a list of namespaces, the table holds exactly the earlier routes plus those filed by the namespaces of that list |
| GroupingFacts.Placement | scripts/workflow/build-docs.ts:17-50 | route placement: a route is in bucket `c`/`n` of the grouped table exactly when it is a route of `n` and `c` is among its effective categories (own, else the namespace's, else the default) |
| GroupingFacts.SpreadIntoEmpty | scripts/workflow/build-docs.ts:39-46 | spreading the namespace's fields into a fresh bucket gives exactly those fields |
| GroupingFacts.SpreadIntoSelf | scripts/workflow/build-docs.ts:45-46 | re-spreading the same fields over a bucket that already has them changes nothing |
| GroupingFacts.InsertPreserves | scripts/workflow/build-docs.ts:36-47 | filing a route keeps every category and bucket a well-formed, non-empty object whose routes point at stored data objects of that namespace |
| GroupingFacts.InsertKeepsFields | scripts/workflow/build-docs.ts:45-46 | filing a route keeps every bucket's fields equal to its namespace's fields |
| GroupingFacts.InsertKeepsFieldsAt | scripts/workflow/build-docs.ts:45-46 | the same, for one bucket |
| GroupingFacts.InsertAllPreserves | scripts/workflow/build-docs.ts:35-48 | the category loop keeps the table invariant and does not change the route store |
| GroupingFacts.GroupRoutesPreserves | scripts/workflow/build-docs.ts:30-49 | the route loop keeps the table invariant |
| GroupingFacts.GroupNamespacesPreserves | scripts/workflow/build-docs.ts:17-50 | the namespace loop keeps the table invariant |
| GroupingFacts.GroupedInvariant | scripts/workflow/build-docs.ts:17-50 | the grouped table is well formed, its buckets are non-empty, and each bucket's fields are its namespace's fields (all but `routes`) |
| GroupingFacts.NoStrayRoutes | scripts/workflow/build-docs.ts:30-48 | every entry of the grouped table is a registry route under its own full path and one of its effective categories |
| JsValues.Delete | scripts/workflow/build-docs.ts:89 | `delete` removes exactly the one key and keeps the others and their values |
| JsValues.LowerASCII | scripts/workflow/build-docs.ts:72 | lower-casing keeps the length and lowers each character |
| Ordering.Head | scripts/workflow/build-docs.ts:67-68 | reading `name[0]` fails only on an `undefined` name |
| Ordering.LowerOf | scripts/workflow/build-docs.ts:72 | `toLowerCase` succeeds exactly on strings |
| Ordering.InsertSorted | scripts/workflow/build-docs.ts:66-78 | inserting one key keeps the keys as a multiset, and succeeds when every comparison it may make succeeds |
| Ordering.SortKeys | scripts/workflow/build-docs.ts:66-109 | the sorted keys are a permutation of the keys, and the sort never throws when every pair of names is comparable |
| Ordering.OneCharASCII | scripts/workflow/build-docs.ts:54 | a one-character string is ASCII exactly when its code is below 128 |
| Ordering.StrLessOneChar | scripts/workflow/build-docs.ts:72 | `<` on one-character strings compares their codes |
| Ordering.AsciiBeforeNonAscii | scripts/workflow/build-docs.ts:73-74 | ordering rule: a name starting with an ASCII character sorts before one starting with a non-ASCII character, in both argument orders |
| Ordering.BothAscii | scripts/workflow/build-docs.ts:71-72 | ordering rule: two ASCII-initial names compare by their lower-cased first characters, and never give 0 |
| Ordering.BothNonAscii | scripts/workflow/build-docs.ts:75-76 | ordering rule: two non-ASCII-initial names compare by the collator on their first characters (whole characters, see Left out) |
| Ordering.FirstCharOnly | scripts/workflow/build-docs.ts:67-68 | only the first character of each name matters to the comparator |
| Ordering.EqualHeadsBothGreater | scripts/workflow/build-docs.ts:72 | two ASCII names with the same lower-cased first character each compare as greater than the other |
| Ordering.BeforeTransitive | scripts/workflow/build-docs.ts:66-78 | "sorts before" is transitive whenever the collator is transitive on first characters |
| Ordering.EmptyNameThrows | scripts/workflow/build-docs.ts:67-72 | an empty name makes the comparator throw against any ASCII-initial name |
| Localize.Strip | scripts/workflow/build-docs.ts:88-90 | stripping removes exactly the listed language keys and keeps everything else |
| Localize.OverlayAndStrip | scripts/workflow/build-docs.ts:84-136 | the overlay and strip loops compute `Localized` of the object |
| Localize.OverlayKeysShape | scripts/workflow/build-docs.ts:85-87 | the overlay loop adds and removes no keys and keeps their order |
| Localize.LocalizedKeys | scripts/workflow/build-docs.ts:85-90 | overlay and strip leave exactly the object's keys other than `zh`, `zh-tw` and `ja` |
| Localize.OverlayKeysValue | scripts/workflow/build-docs.ts:85-87 | each key the loop visits holds the sub-object's value when truthy, else its old value |
| Localize.OverlayValue | scripts/workflow/build-docs.ts:85-90 | overlay and strip: each remaining key holds the language sub-object's value when that is truthy, else its old value (when the sub-object has no truthy entry for the language key itself) |
| Localize.OverlayKeysNoSub | scripts/workflow/build-docs.ts:85-87 | with no language sub-object the overlay changes nothing |
| Localize.WithoutSubObjectOnlyStrips | scripts/workflow/build-docs.ts:84-90 | with no language sub-object, overlay and strip only strip |
| Localize.StripAbsent | scripts/workflow/build-docs.ts:88-90 | stripping an object without language keys changes nothing |
| Localize.LocalizedIsFinal | scripts/workflow/build-docs.ts:84-90 | after one overlay and strip, a later one for any listed language changes nothing |
| Annotate.FindTest | scripts/workflow/build-docs.ts:122 | `find` returns the first record titled with the full path, or none when none is |
| Annotate.ParsedTest | scripts/workflow/build-docs.ts:122-128 | test annotation: none exactly when no record has the title; otherwise the first record gives code 0 exactly when it passed (1 otherwise) and its first failure message |
| Annotate.EscapeQuotesClean | scripts/workflow/build-docs.ts:139 | quote escaping: the escaped text has no single quote, and text without one is unchanged |
| Annotate.EscapeRoundTrip | scripts/workflow/build-docs.ts:139 | unescaping `&#39;` restores any text without an `&` |
| Annotate.EscapeConcat | scripts/workflow/build-docs.ts:139 | escaping distributes over concatenation |
| Annotate.TestText | scripts/workflow/build-docs.ts:139 | the `:test` attribute has no single quote, and is `undefined` for a route without a record |
| Render.FindCategory | scripts/workflow/build-docs.ts:59 | returns the first entry whose link contains the category, or none when no entry's does |
| Render.SiteTag | scripts/workflow/build-docs.ts:92-138 | the `<Site>` tag is present exactly when the url is truthy, and then embeds it |
| Render.Renamed | scripts/workflow/build-docs.ts:80-82 | the name afterwards is the namespace id when it was `Unknown` and the old name otherwise; the keys, their order, every other field and well-formedness are kept |
| RenderFacts.RouteStepStore | scripts/workflow/build-docs.ts:130-136 | one route's pass changes no other route's data object |
| RenderFacts.RoutesFoldShown | scripts/workflow/build-docs.ts:111-120 | over the route loop, exactly the routes not skipped by the dedup test are rendered |
| RenderFacts.RoutesFoldOthers | scripts/workflow/build-docs.ts:113-136 | the route loop leaves alone every data object that none of its entries refers to |
| RenderFacts.RoutesFoldStore | scripts/workflow/build-docs.ts:113-136 | over the route loop, rendered routes' data objects are localized, skipped ones and other ids are unchanged |
| RenderFacts.NamespaceDedup | scripts/workflow/build-docs.ts:97-136 | dedup: within a namespace, a sorted route is rendered exactly when its `path` is not an array or no earlier route has the same `path[0]`; rendered data objects are localized, nothing else changes |
| GenerateFacts.LocalizedBucketFields | scripts/workflow/build-docs.ts:80-90 | a rendered bucket keeps exactly its non-language keys, takes the language's truthy values, and an `Unknown` name becomes the id |
| GenerateFacts.NamespaceStepTable | scripts/workflow/build-docs.ts:79-90 | rendering one namespace replaces exactly its own bucket, by its localized form |
| GenerateFacts.NamespacesFoldTable | scripts/workflow/build-docs.ts:79-144 | rendering a category's namespaces localizes exactly their buckets |
| GenerateFacts.NamespacesFoldError | scripts/workflow/build-docs.ts:66-109 | the namespace loop can only fail by a throwing comparator |
| GenerateFacts.CategoryStepMd | scripts/workflow/build-docs.ts:58-64 | a rendered category adds its text under its own key |
| GenerateFacts.CategoryStepTable | scripts/workflow/build-docs.ts:58-144 | rendering one category localizes exactly its buckets |
| GenerateFacts.CategoriesFoldMd | scripts/workflow/build-docs.ts:57-145 | rendering categories adds one text per category, in order |
| GenerateFacts.CategoriesFoldTable | scripts/workflow/build-docs.ts:58-145 | rendering categories localizes exactly the buckets of those categories |
| GenerateFacts.GenerateResult | scripts/workflow/build-docs.ts:56-145 | persistence: a successful call found every category, returns one text per category in table order, and leaves every bucket renamed, overlaid and stripped |
| GenerateFacts.CategoriesFoldMissing | scripts/workflow/build-docs.ts:58-62 | a category missing from the table makes the loop fail |
| GenerateFacts.CategoriesFoldErrorNames | scripts/workflow/build-docs.ts:58-62 | the error names the first missing category in loop order |
| GenerateFacts.GenerateErrors | scripts/workflow/build-docs.ts:58-62 | unknown category is an error: a grouped category no link contains makes the call fail; a missing-category error names the first missing category in table order (a comparator `TypeError` in an earlier category can end the call first) |
| BuildDocs.Docs.constructor | scripts/workflow/build-docs.ts:15 | `docs` starts empty |
| BuildDocs.Docs.PickDefaultCategory | scripts/workflow/build-docs.ts:18-29 | the loop with `break` computes the default category |
| BuildDocs.Docs.FileRoute | scripts/workflow/build-docs.ts:31-48 | the category loop stores the route's data object and files it under each category |
| BuildDocs.Docs.GroupNamespace | scripts/workflow/build-docs.ts:18-49 | one namespace's loop leaves the state its specification gives |
| BuildDocs.Docs.Group | scripts/workflow/build-docs.ts:17-50 | the grouping pass leaves the state of the functional grouping |
| BuildDocs.Docs.RenderRoute | scripts/workflow/build-docs.ts:114-142 | one pass of the route loop (dedup, test lookup, overlay and strip, text) updates the store, the seen set and the text as its specification says, and leaves the table alone |
| BuildDocs.Docs.RenderRoutes | scripts/workflow/build-docs.ts:111-143 | the route loop leaves the store and text of its specification, and leaves the table alone |
| BuildDocs.Docs.RenderNamespace | scripts/workflow/build-docs.ts:79-143 | rendering one namespace succeeds or fails as specified, with the specified text and state |
| BuildDocs.Docs.RenderCategory | scripts/workflow/build-docs.ts:58-144 | rendering one category succeeds or fails as specified, with the specified texts and state |
| BuildDocs.Docs.GenerateMd | scripts/workflow/build-docs.ts:56-145 | `generateMd` succeeds exactly when its specification does, with its texts and state, and fails with its error |
| BuildDocs.Build | scripts/workflow/build-docs.ts:15-152 | the script as written: group, render English, then render Chinese on the same state; on a throw it reports the error together with the English texts when those were already written |
| BuildDocs.BuildPerLanguage | scripts/workflow/build-docs.ts:151-152 | the corrected script: each language rendered from its own grouping of the registry, over route data objects of its own |
| BuildFacts.BuildWritesEnglishFirst | scripts/workflow/build-docs.ts:146-152 | the English texts are written exactly when the English render succeeds, whether or not the Chinese render then throws; a failure carries the error of the render that threw |
| BuildFacts.LocalizedClean | scripts/workflow/build-docs.ts:84-90 | an object without language keys survives a later overlay and strip unchanged |
| BuildFacts.SecondRenderSeesEnglish | scripts/workflow/build-docs.ts:151-152 | as written, the Chinese render's buckets hold the English fields, whatever the `zh` sub-objects said |
| BuildFacts.BarNames | scripts/workflow/build-docs.ts:84-87 | for `{name: "Bar", zh: {name: "吧"}}` the English overlay gives "Bar" and the Chinese one "吧" |
| BuildFacts.ChineseRenderShowsEnglishName | scripts/workflow/build-docs.ts:151-152 | as written, that namespace is named "Bar" in the Chinese render |
| BuildFacts.PerLanguageRendersOwnLanguage | scripts/workflow/build-docs.ts:151-152 | with a table and route objects of its own per language, each render's buckets are the registry fields overlaid for that language |
| BuildFacts.PerLanguageShowsChineseName | scripts/workflow/build-docs.ts:151-152 | with a table and route objects of its own per language, that namespace is named "吧" in the Chinese render |
| BuildFacts.SecondRenderKeepsEnglishRoutes | scripts/workflow/build-docs.ts:151-152 | as written, every route data object the English render changed reaches the Chinese render with no language sub-object, and the Chinese render leaves it as the English render left it |
| BuildFacts.EnglishSettles | scripts/workflow/build-docs.ts:84-90 | a record without an `en` sub-object is settled by one English overlay and strip |
| BuildFacts.BarEnglishSettles | scripts/workflow/build-docs.ts:84-90 | any number of English passes over `{name: "Bar", zh: {name: "吧"}}` name it "Bar" |
| BuildFacts.ChineseRenderShowsEnglishRouteName | scripts/workflow/build-docs.ts:151-152 | as written, the data object of a registry route whose record has those fields, once the English render rendered it, is named "Bar" after the Chinese render |
| BuildFacts.PerLanguageRouteObjects | scripts/workflow/build-docs.ts:151-152 | with route objects of its own, the Chinese render leaves the object of every registry route as the registry's record or as that record overlaid and stripped once for Chinese |
| BuildFacts.PerLanguageShowsChineseRouteName | scripts/workflow/build-docs.ts:151-152 | with route objects of its own, the object of a registry route whose record has those fields, once the Chinese render rendered it, is named "吧" |
| StoreFacts.ReachesStep | scripts/workflow/build-docs.ts:130-136 | one more overlay and strip of an object extends the passes it has been through |
| StoreFacts.PassesShape | scripts/workflow/build-docs.ts:134-136 | after one or more passes no language sub-object is left, and a well-formed object stays well formed |
| StoreFacts.PassesSettle | scripts/workflow/build-docs.ts:130-136 | when a second pass changes nothing, any number of passes equals one |
| StoreFacts.PassesClean | scripts/workflow/build-docs.ts:130-136 | an object without language sub-objects is unchanged by any number of passes in a listed language |
| StoreFacts.RouteStepFrom | scripts/workflow/build-docs.ts:114-136 | one pass of the route loop changes route data objects only by an overlay and strip |
| StoreFacts.RoutesFoldFrom | scripts/workflow/build-docs.ts:113-143 | the route loop changes route data objects only by overlays and strips |
| StoreFacts.NamespaceStepFrom | scripts/workflow/build-docs.ts:79-143 | rendering a namespace changes route data objects only by overlays and strips |
| StoreFacts.NamespacesFoldFrom | scripts/workflow/build-docs.ts:79-144 | rendering a category's namespaces changes route data objects only by overlays and strips |
| StoreFacts.CategoryStepFrom | scripts/workflow/build-docs.ts:58-144 | rendering a category changes route data objects only by overlays and strips |
| StoreFacts.CategoriesFoldFrom | scripts/workflow/build-docs.ts:58-145 | rendering categories changes route data objects only by overlays and strips |
| StoreFacts.GenerateStore | scripts/workflow/build-docs.ts:56-145 | persistence for route data objects: after a successful call each one is what zero or more overlay-and-strip passes in the call's language made of it, and each changed one has no language sub-object |
| StoreFacts.InsertAllStore | scripts/workflow/build-docs.ts:35-48 | filing a route under its categories does not change any route data object |
| StoreFacts.StoreRoute | scripts/workflow/build-docs.ts:32 | storing a route's data object keeps every stored object well formed and equal to the registry's record for its id |
| StoreFacts.GroupRoutesStore | scripts/workflow/build-docs.ts:30-49 | one namespace's loop stores, under (namespace id, route key), the registry's record of each of its routes, keeps every object stored before, and stores nothing else |
| StoreFacts.GroupNamespacesStore | scripts/workflow/build-docs.ts:17-50 | the namespace loop stores, under (namespace id, route key), the registry's record of every route of every namespace it visits, keeps every object stored before, and stores nothing else |
| StoreFacts.GroupedStore | scripts/workflow/build-docs.ts:17-50 | the grouped state holds a data object for exactly the registry's routes, each the registry's own well-formed record for that namespace and route key |

## Left out

- The test report is fetched over the network (lines 7-8). It is a parameter `tests` (the `assertionResults` list).
- `getCurrentPath` (line 10), `fs.mkdirSync` and `fs.writeFileSync` (lines 146-149) are left out. `generateMd` returns the texts per category instead of writing them, and a failed build reports the English texts the English call had already written before the Chinese call threw.
- The text of the thrown error message (line 62) is not modelled; the error value names the missing category.
- The registry `namespaces` and the category table `categories` (lines 1, 4) are parameters.
- `lib/registry` and `./data` are not part of this model.
- `Intl.Collator(...).compare` (line 53) is the parameter `pinyin`. It is applied to what `name[0]` gives: the first character of a string name, or the first element of an array name, or the property `0` of an object name, whole.
- `JSON.stringify` (line 139) is the parameter `stringify`, a total function. Its own errors (cycles, BigInt) are not modelled.
- `Array.prototype.sort` is modelled as a stable insertion sort over the comparator.
  - Which comparisons the engine makes, and its order under an inconsistent comparator, are engine-defined.
  - So a comparator error counts only when the insertion sort makes that comparison.
- Ordering.SortKeys: does not state sortedness, because the comparator (which never returns 0 on ASCII names) need not be a consistent order. Its properties are the separate ordering lemmas.
- The overlay over a bucket visits the namespace fields but not the bucket's `routes` key. A truthy `routes` entry in a language sub-object would overwrite the routes object in the source.
- A truthy `categories` value that is not an array nor a string is treated as an empty list. In the source, `for...of` would throw on it.
- Object key order is insertion order. The engine's ordering of integer-like keys first is not modelled, and neither are prototype keys.
- `Set` membership for `path[0]` is structural equality of values. This agrees with `SameValueZero` for strings and numbers but not for object identity.
- Numbers are integers. `Display` renders values as template interpolation does for strings, integers, booleans, `undefined` and arrays.
- JsValues.Delete: the remaining keys are computed in their old order, but no contract states that order (only which keys remain), so neither does Localize.Strip's.
- JsValues.Value: has no `null` and no function values. Registry route objects carry handler functions and may carry `null` fields; the model's values are `undefined`, booleans, integers, strings, arrays and objects, so truthiness, interpolation and `?.[k]` on `null` or on a function are not modelled.
- Optional chaining `x?.[k]` on a value that is not a plain object (arrays included), other than `undefined`, is treated as `undefined`. Strings and arrays indexed this way are not modelled.
- BuildDocs.Docs.GenerateMd: does not state the state left behind after an error, because the thrown error ends the script. The same holds for BuildDocs.Docs.RenderNamespace and BuildDocs.Docs.RenderCategory.
- StoreFacts.GenerateStore: states that every route data object is unchanged or went through overlay-and-strip passes, not which routes were rendered. Which ones are, by the dedup rule, is stated one namespace at a time (RenderFacts.NamespaceDedup), because a route filed under several categories is rendered once per category and its `path` may itself change under the overlay in between.
- JsValues.Index0: takes the first character of a string, a Unicode scalar value. The source takes the first UTF-16 code unit, so for names whose first character lies outside the Basic Multilingual Plane the model compares and tests the whole character, where the source passes a lone surrogate to `isASCII` and to the collator.
- Ordering.BothNonAscii: states the comparison on whole first characters, for the reason given under JsValues.Index0.
- BuildDocs.BuildPerLanguage: groups the registry value afresh for each language. In the source, running lines 17-50 again would file the same route objects, which the first render has already changed in place, so the corrected script needs its own deep copy of the registry's route objects per language.
- Route data objects are identified by namespace id and route key. Two registry keys that share one object are modelled as two separate objects.
- BuildFacts.ChineseRenderShowsEnglishName: states the name in the bucket the Chinese heading is rendered from (line 92), not the text of the heading inside the returned markdown; the same holds for the route objects in BuildFacts.ChineseRenderShowsEnglishRouteName.
- Build: follows the code, which renders the Chinese docs from the state the English render left behind, although the evident intent is Chinese names in the Chinese docs (see Findings).

## Findings

| source | as written | input that shows it | evidently intended | confidence | as-written member | corrected member |
|---|---|---|---|---|---|---|
| scripts/workflow/build-docs.ts:151-152 | `generateMd('en')` overlays and strips the `docs` buckets and the shared route data objects in place, so `generateMd('zh')` finds no `zh` sub-objects and renders the English fields | a namespace with fields `{name: "Bar", zh: {name: "吧"}}` and a category: the bucket the Chinese heading is rendered from names it "Bar" | each language is rendered from the registry's own fields, so that bucket names it "吧" | not executed | BuildFacts.ChineseRenderShowsEnglishName | BuildFacts.PerLanguageShowsChineseName |
| scripts/workflow/build-docs.ts:151-152 | the English render overlays and strips the shared route data objects in place, so the Chinese render renders routes from their English fields | a route with data `{name: "Bar", zh: {name: "吧"}}` rendered by both renders: its object names it "Bar" after the Chinese render | each route's Chinese heading reads "吧" | not executed | BuildFacts.ChineseRenderShowsEnglishRouteName | BuildFacts.PerLanguageShowsChineseRouteName |
