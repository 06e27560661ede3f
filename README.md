# Capture to Components — a verified model

This project models the core of the "capture to components" browser
extension in Dafny. By design the extension walks the routes of a web
application, captures a screenshot of each page, analyses its DOM for
repeated sections (navigation bars, cards, forms, buttons …), and turns what
it finds into a Markdown component inventory and into React component files;
an optional AI segmentation service labels regions of the screenshots. As
written, neither capture path navigates between routes (see the differences
below).

The model follows the extension's own structure, one module per source file:

- `BackgroundWorker`, `BackgroundAnalysis`, `BackgroundMessages`,
  `BackgroundTypes`, `ComponentType`, `ComponentParts` — the service worker
  (`background.js`): the message dispatcher, the route-processing loop with
  its progress reports and stored analyses, the fallback records, the merge
  of the content script's page analysis into component groups, and the
  component-type classifier. `BackgroundService` is a class whose fields are
  the worker's in-memory state; `chrome.storage.local` is a map the methods
  update through a write log (`Store`).
- `ContentRoutes`, `ContentScript`, `ContentPage` — the content script
  (`content-script.js`): route detection from links, navigation and router
  hints, and the page analysis over a synthetic element tree.
- `MarkdownNames`, `MarkdownHelpers`, `MarkdownAnalysis`,
  `MarkdownComponents` — the helpers of `lib/markdown-generator.js` that
  compute names, props, variations, statistics and the unique component list.
- `ComponentGenerator` — `lib/component-generator.js`: option handling, the
  file set generated for a component and the name conversions.
- `AiSegmentation`, `AiComponents` — `lib/ai-segmentation.js`: the cache,
  the fallback segmentation, the merge of AI segments with DOM components.
- `ScreenshotCapture` — `lib/screenshot-capture.js`: the capture strategy
  and the slice plan for full-page captures.
- `Popup`, `Options` — `popup/popup.js` and `options/options.js`: the popup's
  controller state machine and the settings validation and storage.
- Shared modules: `Wrappers` (Option, Result), `Collections` (JavaScript
  `Set` and `Map` as duplicate-free sequences in insertion order), `Text`
  (ASCII case mapping, search, split, join, trim, decimal rendering),
  `Base64` (the `btoa` encoding of section 4 of RFC 4648, with its decoder
  and a round trip), `Progress` (`Math.round` percentages) and `Store`.

Browser APIs (`chrome.*`, the tab, `fetch`, `JSON.parse`, `new URL`) are
parameters of the model: a function that gives the outcome, or a map that
stands for the storage. JavaScript `Math.round(k / n * 100)` is modelled
on integers as `(200k + n) / (2n)`, the exact quotient rounded half up; the
double-precision result can be one less where the exact value ends in .5
(see "## Left out").

Where the code and its documentation differ the model follows the code.
Where the code fails at run time, the operation is modelled as written, and
a corrected definition sits beside it under its own name with the intended
property proved about it; these cases are listed under "## Findings". The
other differences are these:

- `processRoutes` does not clear the screenshot store before a run
  (`background.js:141-167`), and the progress it reports uses the index of
  the route about to be processed, so it reaches 100 only when the run
  completes or, for 200 routes or more, on the last route
  (`BackgroundWorker.PercentBelowFull`, `BackgroundWorker.PercentFullEarly`).
- `processIndividualRoute` rethrows after storing a fallback record, so the
  batch stops at the first failing route; for a route that is neither the
  current page nor contained in the tab's URL it reads `window.location`,
  which a service worker does not have, and throws.
- As written, `extractComponents` throws the TypeError "object is not
  iterable (cannot read property Symbol(Symbol.iterator))" on every page for
  which the content script reports at least one section, because each
  section it reports carries a `{direct, all}` count object where
  `findCommonElements` expects a list;
  the route then stores its fallback record and the run stops with status
  'error' (`BackgroundWorker.AnalysedPageThrows`).
- The popup's capture loop (`popup/popup.js:311-401`) queries the active
  tab once per selected route and asks that same tab for its analysis and
  screenshot, without navigating to the route, so every record holds the
  current page under another route's label; in `Popup.Records`, `visits(i)`
  is that tab's i-th answer. The worker does not navigate either: a route
  is either the current page or throws at `window.location`
  (`background.js:259-262`) before `chrome.tabs.update` is reached, and the
  navigating `captureRoute` of `lib/screenshot-capture.js` is called from
  neither `background.js` nor `popup/popup.js`.
- The route id keeps only the first ten letters and digits of the path's
  Base64 encoding, so `/products/1` and `/products/2` get the same id (`ContentRoutes.RouteIdCollision`).
- `getRouteName(null)` gives `Unknown`; `scanRoutes` in the popup keeps an
  empty route list rather than falling back to the current page; the
  `analyzeRoute` and `pageReady` messages get no reply.
- `validateSettings` lets a missing or non-numeric value through
  (`Options.UnparsedPasses`); `suggestPropsForSection` counts occurrences
  rather than instances (`MarkdownHelpers.OneInstanceOfThree`); a cached
  fallback segmentation is still served after an API key is configured
  (`AiSegmentation.FallbackOutlivesKey`).
- Full-page capture does not stitch its slices: it returns the first one.

## Model

| member | source | states |
|---|---|---|
| `Progress.PercentEnds` | lib/screenshot-capture.js:67 | a completed count reads 100 and nothing done reads 0 |
| `Progress.PercentMonotone` | lib/screenshot-capture.js:67 | more work done never reports a smaller rounded percentage |
| `Progress.PercentBounded` | lib/screenshot-capture.js:67 | a count within the total reports at most 100 |
| `Progress.Percentages` | popup/popup.js:319 | the percentage shown before item i of n is round((i+1)/n*100) |
| `Progress.PercentagesRise` | popup/popup.js:314-319 | the shown percentages never decrease, stay within 0..100 and end at 100 |
| `Store.Written` | background.js:155-158 | a `set` call writes a key exactly when one of its entries names it |
| `Store.ApplyWrite` | background.js:155-158 | after a `set` call each written key holds its new value and every other key what it held |
| `Store.ApplyAllLookup` | background.js:192-226 | after a history of `set` calls a key holds the value of its latest write, or what it held before |
| `Store.LastWrittenConcat` | background.js:192-226 | across two histories the later one's write of a key wins |
| `BackgroundWorker.BackgroundService.constructor` | background.js:3-5 | a fresh worker starts from the given storage with no log, notices, downloads or options page |
| `ComponentType.IdentifyFirstMatch` | background.js:508-558 | the type of a section is the name of the first rule that holds, in the order Header, Navigation, Footer, Card, Button, Form, Hero, Sidebar, MainContent, else GenericComponent |
| `ComponentType.IdentifyTotal` | background.js:508-558 | every section gets one of the ten names |
| `ComponentType.NavbarIsNavigation` | background.js:508-526 | a plain `div` with class "navbar" is classified Navigation, because the class tests are substring tests |
| `ComponentType.ItemIsCard` | background.js:508-536 | a plain `div` with class "item" is classified Card |
| `BackgroundAnalysis.Variations` | background.js:489-495 | a group's variations number its instances 1..n in input order and keep each instance's bounds |
| `BackgroundAnalysis.BuildComponent` | background.js:483-502 | the record of a group with no count object (where `findCommonElements` returns): the group's type, `instances` equal to the group size, one variation per instance |
| `BackgroundAnalysis.ComponentAt` | background.js:472-503 | the i-th component is built from the i-th distinct type and all sections of that type, with a positive instance count |
| `BackgroundAnalysis.ComponentsBySpec` | background.js:462-506 | one component per distinct type, in order of first appearance; `instances` is the number of sections of that type; variation ids run 1..n |
| `BackgroundAnalysis.InstancesSumToSections` | background.js:472-503 | the instance counts add up to the number of input sections |
| `BackgroundAnalysis.ComponentKindsDistinct` | background.js:475-483 | no two components share a type |
| `BackgroundAnalysis.ComponentForEverySection` | background.js:472-480 | every section's type has a component |
| `BackgroundAnalysis.VariationsAreTheGroup` | background.js:479-495 | a component's variations are exactly the sections of its type, in input order |
| `BackgroundAnalysis.GroupByType` | background.js:472-480 | the first loop leaves each type, in order of first appearance, mapped to the list of its sections |
| `BackgroundAnalysis.BuildComponents` | background.js:483-503 | the second loop throws the not-iterable TypeError iff some section holds the `{direct, all}` count object, and otherwise builds exactly the specified component list |
| `BackgroundAnalysis.ExtractComponents` | background.js:462-506 | `extractComponents` throws the not-iterable TypeError iff some section holds the count object, and otherwise returns the specified grouping; a missing or non-array `sections` gives no components |
| `BackgroundAnalysis.TitleOf` | background.js:440 | the title is the route's title when it is non-empty, else its url |
| `BackgroundAnalysis.GenerateFallbackAnalysis` | background.js:649-669 | the fallback record carries the error, confidence 0.1 and source 'fallback', no components, and one error section with a zero box whose text starts "Analysis failed: " |
| `BackgroundAnalysis.CreateFallbackAnalysis` | background.js:671-700 | the stand-in page analysis has no sections, zero elements and a non-empty error |
| `BackgroundAnalysis.NormalizeSections` | background.js:417-434 | one output section per input section, with id `section-i`; missing type, tagName and bounds become 'unknown', 'div' and a zero box; content falls back to textContent |
| `BackgroundAnalysis.DetailedAnalysis` | background.js:409-460 | the record with corrected common elements: a missing analysis or one with an error gives the fallback record carrying that error; otherwise normalised sections, the extracted components, and counts equal to the lengths of both lists |
| `BackgroundAnalysis.ProcessDetailedAnalysis` | background.js:409-460 | as written: a missing analysis or one with an error gives the fallback record; otherwise it throws the not-iterable TypeError iff a section holds the count object, and else gives that record |
| `BackgroundAnalysis.FallbackAnalysisGivesFallbackRecord` | background.js:371-388 | the stand-in analysis used when the content script is unreachable becomes the fallback record with 'Content script communication failed' |
| `BackgroundAnalysis.SectionIdsDistinct` | background.js:423-424 | the sections of a route analysis have pairwise distinct ids |
| `ComponentParts.CommonElementsSpec` | background.js:560-576 | the common elements are duplicate-free, in the first instance's order, and are exactly the elements every instance lists; no instances give [] |
| `ComponentParts.FindCommonElements` | background.js:560-576 | the method computes the specified common elements |
| `ComponentParts.KeepListedByAll` | background.js:569-573 | the walk over the first instance's set keeps exactly the elements listed by every instance |
| `ComponentParts.FindCommonElementsAsWritten` | background.js:563-565 | the code as written succeeds only if no instance holds the `{direct, all}` count object |
| `ComponentParts.FindCommonElementsOrThrow` | background.js:560-576 | the method returns what the code as written returns: the throw at a count object, else the specified common elements |
| `ComponentParts.CountObjectThrows` | background.js:563-565 | one instance holding the count object makes `findCommonElements` throw |
| `ComponentParts.AsWrittenAgreesOnLists` | background.js:560-576 | where every `elements` is a list or absent, the code as written returns the specified common elements |
| `ComponentParts.AttrProps` | background.js:603-610 | the attribute props are exactly the mapped names of the given attribute keys |
| `ComponentParts.PropsMembers` | background.js:578-614 | a prop is inferred iff some instance contributes it |
| `ComponentParts.ButtonBaseProps` | background.js:586-590 | a non-empty Button group has onClick, disabled and variant, and the props have no duplicates |
| `ComponentParts.TextProp` | background.js:583-590 | 'text' is inferred iff the group is a Button group and some instance has non-empty content |
| `ComponentParts.ClassNameProp` | background.js:603-605 | 'className' is inferred iff some instance has a `class` attribute |
| `ComponentParts.IdProp` | background.js:603-604 | 'id' is inferred iff some instance has an `id` attribute |
| `ComponentParts.ButtonPropsAdded` | background.js:586-590 | a Button instance adds onClick, disabled, variant, then text when it has content |
| `ComponentParts.HeaderPropsAdded` | background.js:591-594 | a Header instance adds title, logo, navigationItems |
| `ComponentParts.CardPropsAdded` | background.js:595-599 | a Card instance adds title, content, imageUrl, href |
| `ComponentParts.AddAttributeProps` | background.js:603-610 | the attribute loop adds exactly the mapped props, in key order |
| `ComponentParts.AddTypeProps` | background.js:585-600 | the type branch adds exactly the type's props |
| `ComponentParts.InferProps` | background.js:578-614 | `inferProps` computes the specified insertion-ordered prop set |
| `ComponentParts.Tokens` | background.js:622-623 | every kept token is non-empty and is the trim of some part |
| `ComponentParts.ClassTokenIsWord` | background.js:620-624 | each class an instance lists is a non-empty word without a space |
| `ComponentParts.CssClassesSpec` | background.js:616-629 | the CSS classes are duplicate-free and are exactly the words some instance lists |
| `ComponentParts.CssClassesAreWords` | background.js:616-629 | every CSS class of a group is a non-empty word without a space |
| `ComponentParts.AddClassTokens` | background.js:622-624 | the inner loop adds each trimmed non-empty part |
| `ComponentParts.ExtractCssClasses` | background.js:616-629 | `extractCssClasses` computes the specified class list |
| `ComponentParts.TotalScoreIsTenfold` | background.js:634-640 | the scaled integer total is ten times the source's real-valued total of `1 + 0.5 children + 0.2 attributes + 0.3 elements` |
| `ComponentParts.ComplexityMatchesAverage` | background.js:642-646 | the scaled integer grade equals the source's grade of the real average: below 2 simple, below 5 moderate, else complex |
| `ComponentParts.AverageThresholds` | background.js:644-645 | comparing the scaled total with 20n and 50n is comparing the average with 2 and 5 |
| `ComponentParts.LoneBareInstanceIsSimple` | background.js:631-647 | a lone instance without children, attributes or elements is simple |
| `ComponentParts.CountObjectIsComplex` | background.js:638-646 | an instance whose `elements` is the count object makes the total NaN, so the grade is complex |
| `ComponentParts.CalculateComplexity` | background.js:631-647 | `calculateComplexity` computes the specified grade |
| `BackgroundMessages.CaptureReply` | background.js:68-119 | a failed capture always has `success:false` and `continue:true`; 'quota' or 'MAX_CAPTURE_VISIBLE_TAB_CALLS_PER_SECOND' sets `quotaExceeded`, checked before 'activeTab'/'not in effect', which sets `permissionError`; other errors carry their message |
| `BackgroundMessages.DataUrl` | background.js:125 | a download url is a `data:` url |
| `BackgroundMessages.DownloadsOf` | background.js:123-131 | one download per file, in order, with the file's data url and name |
| `BackgroundMessages.DownloadStop` | background.js:122-138 | the loop stops at the first download that fails |
| `BackgroundMessages.SettingsOf` | background.js:702-722 | `getSettings` returns exactly the stored values of the ten setting keys |
| `BackgroundMessages.InstalledSettings` | background.js:18-37 | right after installation the settings read back are the defaults |
| `BackgroundWorker.KeyName` | background.js:390-392 | a route's key is `processed_` followed by the route id |
| `BackgroundWorker.KeyNameInjective` | background.js:155-158 | distinct keys have distinct names, so no route key collides with the run-state keys |
| `BackgroundWorker.ValidateRoutes` | background.js:141-150 | a batch is accepted iff it is a non-empty array; the two rejections carry the source's messages |
| `BackgroundWorker.Failure` | background.js:396-406 | a thrown route error stores the fallback record carrying that error |
| `BackgroundWorker.IndividualRoute` | background.js:243-407 | no active tab throws 'No active tab found'; a throw stores the fallback record; a stored analysis needs the content script; a route whose script is not ready returns the stand-in analysis |
| `BackgroundWorker.AnalysedPageThrows` | background.js:386-406 | a page reported with one of the content script's detailed section records makes the route throw the not-iterable TypeError and store the fallback record |
| `BackgroundWorker.RouteValue` | background.js:390-403 | a route stores a value iff its content script was ready or it threw |
| `BackgroundWorker.RouteWritesLast` | background.js:390-403 | one route's processing writes only its own key |
| `BackgroundWorker.StopFrom` | background.js:195-206 | the loop stops at the first route that throws |
| `BackgroundWorker.Stop` | background.js:194-226 | the run stops at the first route that throws, or after the last route |
| `BackgroundWorker.StepLast` | background.js:199-205 | an iteration writes the progress `round(i/n*100)` before the route, the route's key, and the error status when it throws |
| `BackgroundWorker.LoopStatus` | background.js:194-226 | the run ends in 'error' iff some route throws, else 'completed' |
| `BackgroundWorker.LoopError` | background.js:222-226 | the stored error is the first thrower's message |
| `BackgroundWorker.LoopProgress` | background.js:199-211 | the last progress is 100 when all routes went through, else the percentage written before the route that threw |
| `BackgroundWorker.LoopOther` | background.js:194-226 | the loop writes no key but the run-state keys and those of the routes it reached |
| `BackgroundWorker.LoopRoute` | background.js:195-206 | each route reached keeps what its own processing stored |
| `BackgroundWorker.LaterRoutesUntouched` | background.js:195-206 | later routes never overwrite an earlier route's key |
| `BackgroundWorker.Percents` | background.js:200-202 | the percentages of iterations i..last are `round(j/n*100)` |
| `BackgroundWorker.StepTrace` | background.js:200-202 | an iteration writes exactly one progress value, its own |
| `BackgroundWorker.PercentsRise` | background.js:200-211 | the progress values never decrease and stay at most 100 |
| `BackgroundWorker.RunState` | background.js:170-241 | after a run the status is 'error' iff some route throws, else 'completed'; the error is the first thrower's message, the old error otherwise; the progress is 100 or the thrower's percentage |
| `BackgroundWorker.RunRoute` | background.js:205 | every route reached holds what its processing stored, or its old value when it stored nothing |
| `BackgroundWorker.RunUntouched` | background.js:170-241 | a run changes no key but the run-state keys and those of the routes it reached; routes after the stop are untouched |
| `BackgroundWorker.RunEmpty` | background.js:183-190 | a run with no routes writes status 'error' and 'No routes to process' and nothing else |
| `BackgroundWorker.ExpectedTraceRises` | background.js:200-211 | the expected progress trace starts at 0, never decreases, stays at most 100, and ends at 100 exactly when the run went through |
| `BackgroundWorker.PercentBelowFull` | background.js:201 | with fewer than 200 routes, a percentage written before a route is below 100 |
| `BackgroundWorker.PercentFullEarly` | background.js:201 | from 200 routes on, rounding already writes 100 before the last route |
| `BackgroundWorker.RunProgress` | background.js:192-211 | the progress a run writes is one percentage per route reached, then 100 iff no route throws |
| `BackgroundWorker.RunNotices` | background.js:213-239 | a run sends one completion notice, successful iff no route threw |
| `BackgroundWorker.NoticeAtStop` | background.js:213-239 | the notice of a run stopped at a throwing route carries its error |
| `BackgroundWorker.SubmittedState` | background.js:155-161 | an accepted batch leaves the pending routes stored and the status 'completed' or 'error' |
| `BackgroundWorker.SubmitApply` | background.js:155-161 | an accepted batch writes the pending routes and status, then the run's writes |
| `BackgroundWorker.BackgroundService.HandleInstalled` | background.js:18-37 | installation writes the default settings and opens the options page; other reasons change nothing |
| `BackgroundWorker.BackgroundService.GetSettings` | background.js:702-722 | the settings are the stored values of the setting keys |
| `BackgroundWorker.BackgroundService.ProcessIndividualRoute` | background.js:243-407 | the method returns the specified route result and writes exactly that route's key |
| `BackgroundWorker.BackgroundService.StartRouteProcessing` | background.js:170-241 | the storage writes and notices are exactly the specified run's, so the lemmas above hold of the new state |
| `BackgroundWorker.BackgroundService.DownloadFiles` | background.js:121-139 | each file up to the first failure is downloaded in order; the reply succeeds iff no download fails |
| `BackgroundWorker.BackgroundService.ProcessRoutes` | background.js:141-168 | a rejected batch changes nothing and returns the validation error; an accepted one writes the pending routes, runs, and replies 'Processing started' |
| `BackgroundWorker.BackgroundService.HandleMessage` | background.js:39-66 | each action goes to its handler; an unknown action answers `{success:false, error:'Unknown action'}` |
| `Base64.Btoa` | content-script.js:1035 | `btoa` succeeds iff every character is at most U+00FF; its text has `4·ceil(n/3)` characters, all from the RFC 4648 alphabet or '=' |
| `Base64.AtobBtoa` | content-script.js:1035 | decoding what `btoa` produced gives back the original text |
| `Base64.BtoaConcat` | content-script.js:1035 | the encoding of a text made of whole three-character groups followed by a tail is the two encodings joined |
| `ContentRoutes.RouteId` | content-script.js:1034-1038 | a route id exists iff `btoa` accepts the path; it has at most 10 characters, all in [A-Za-z0-9] |
| `ContentRoutes.RouteIdExtends` | content-script.js:1034-1038 | the id of a path is read off the alphanumerics of the encodings of its three-character-aligned parts |
| `ContentRoutes.RouteIdPrefix` | content-script.js:1034-1038 | two paths that share an aligned prefix whose encoding already has ten alphanumerics get the same id |
| `ContentRoutes.ProductsEncoding` | content-script.js:1035 | `btoa("/products")` is twelve alphanumerics |
| `ContentRoutes.SharedPrefixCollision` | content-script.js:1034-1038 | different tails after such a prefix give different paths with the same id |
| `ContentRoutes.RouteIdCollision` | content-script.js:1034-1038 | "/products/1" and "/products/2" get the same id |
| `ContentRoutes.Segments` | content-script.js:1043-1044 | the segments of a path are non-empty and contain no '/' |
| `ContentRoutes.RouteTitle` | content-script.js:1040-1048 | the title is never empty; it is 'Home' when no segment remains, else it starts with the first segment capitalised |
| `ContentRoutes.TitleIgnoresSlashes` | content-script.js:1043-1044 | a leading or trailing slash does not change the title |
| `ContentRoutes.TitleOfSegment` | content-script.js:1040-1048 | a path without slashes is its own title, capitalised |
| `ContentRoutes.Inserted` | content-script.js:78-100 | a pass inserts only routes it meets, and at most one per step |
| `ContentRoutes.InsertedAll` | content-script.js:78-100 | a pass without a throw inserts every route it meets |
| `ContentRoutes.InsertedConcat` | content-script.js:83-95 | the routes of consecutive passes are those of each pass in turn, when the first does not throw |
| `ContentRoutes.ResolveHref` | content-script.js:108-129 | anchors, mailto and tel links are dropped; '/'-relative hrefs resolve against the origin; every other kept href resolves to the current origin |
| `ContentRoutes.StaticStep` | content-script.js:106-144 | a link is inserted iff its href is non-empty, kept by the filter and its path is acceptable to `btoa`; the route's url is pathname+search, its fullUrl the resolved href, its id the path's id; the pass never throws |
| `ContentRoutes.StaticSteps` | content-script.js:102-146 | one step per link, in document order |
| `ContentRoutes.LiteralAt` | content-script.js:156-159 | a matched router literal is non-empty and holds no quote |
| `ContentRoutes.AngularLiteralAt` | content-script.js:174-177 | a matched Angular literal is non-empty and holds no quote |
| `ContentRoutes.Scan` | content-script.js:156 | every path a global scan finds is non-empty and holds no quote |
| `ContentRoutes.SpaStep` | content-script.js:184-196 | an SPA route has the path as url, origin+path as fullUrl, the framework, and `isDynamic` iff the path contains ':' or '*'; it throws iff `btoa` does |
| `ContentRoutes.SpaStepsFor` | content-script.js:157-161 | one SPA step per matched path, in order |
| `ContentRoutes.LiteralTwice` | content-script.js:156-171 | every `path: "x"` literal gives a 'react-router' route and a 'vue-router' route that differ only in the framework |
| `ContentRoutes.NavStep` | content-script.js:283-296 | a menu link is inserted iff its href starts with '/' and is acceptable to `btoa`; it throws iff it starts with '/' and is not |
| `ContentRoutes.NavSteps` | content-script.js:279-299 | one step per menu link, in the order the menu selectors visit them |
| `ContentRoutes.StaticLinksAlwaysInserted` | content-script.js:83-99 | every kept anchor is inserted whatever the later passes do |
| `ContentRoutes.SitemapReferenceIsRest` | content-script.js:255-256 | a sitemap reference is everything after the first ':', trimmed, so colons inside the url survive |
| `ContentRoutes.SitemapStep` | content-script.js:230-245 | a `loc` entry is inserted iff it parses and its path is acceptable to `btoa`; the route keeps the entry as fullUrl and has the path's title |
| `ContentRoutes.SitemapSteps` | content-script.js:224-247 | the XML part never throws, and reads nothing unless the content holds `<urlset` or `<sitemapindex` |
| `ContentScript.InsertedStep` | content-script.js:83-99 | a step of a pass that has not thrown inserts its route, skips, or ends the pass |
| `ContentScript.RouteDetector.constructor` | content-script.js:12-16 | a new detector has no routes and is not analysing |
| `ContentScript.RouteDetector.AddRoute` | content-script.js:141 | adding a route appends it unless an identical one is already in the set |
| `ContentScript.RouteDetector.RunSteps` | content-script.js:83-99 | the steps run in order until the first throw, adding the routes they insert |
| `ContentScript.RouteDetector.DetectRoutes` | content-script.js:78-100 | nothing happens while a pass runs; otherwise the passes add their routes and the flag is cleared on exit, even after a throw |
| `ContentScript.RouteDetector.ParseSitemap` | content-script.js:223-264 | the sitemap's routes are added, and the `Sitemap:` references are returned only when the content holds the case-sensitive 'Sitemap:' |
| `ContentScript.RouteDetector.HandleMessage` | content-script.js:36-76 | getRoutes replies with the set; refreshRoutes empties the set before detecting again; analyzeRoute and pageReady send no reply; an unknown action answers 'Unknown action' |
| `ContentScript.RedetectAddsNothing` | content-script.js:141 | detecting the same page twice stores nothing new |
| `ContentScript.RefreshKeepsOnlyFresh` | content-script.js:62-66 | after a refresh every stored route was inserted by the new pass |
| `ContentPage.ClassifyMarks` | content-script.js:816-841 | `classifyElementType` is first-match: header, navigation, main before footer, sidebar, hero and the component classes; content-section iff no test holds |
| `ContentPage.InferMarks` | content-script.js:1076-1090 | `inferSectionType` is first-match: header, navigation, footer, hero before main, sidebar; content iff no test holds |
| `ContentPage.ClassifiersAgree` | content-script.js:816-841 | the two classifiers agree on header and navigation, and a 'main' section is main content to the other classifier |
| `ContentPage.MainHeroConflict` | content-script.js:823-831 | a class containing both "main" and "hero" (and no earlier mark) is main content to `classifyElementType` and a hero to `inferSectionType` |
| `ContentPage.Depth` | content-script.js:891-899 | an element's depth is its number of ancestors: 0 iff it has no parent |
| `ContentPage.ElementDepth` | content-script.js:891-899 | the while-loop computes the element's number of ancestors |
| `ContentPage.CalculateDomDepth` | content-script.js:901-913 | the document depth is the maximum element depth, 0 for no elements |
| `ContentPage.DepthOfChild` | content-script.js:894-896 | a child is one deeper than its parent |
| `ContentPage.StructureOf` | content-script.js:787-798 | the structure is unknown iff there is no main element, else grid if its display contains 'grid', else flexbox if it contains 'flex', else traditional |
| `ContentPage.IsResponsive` | content-script.js:955-968 | a page is responsive iff it has a viewport meta tag or a readable media rule mentioning max-width |
| `ContentPage.GridAreas` | content-script.js:970-985 | every grid container with template areas is listed, and none with areas 'none' |
| `ContentPage.AnalyzeLayout` | content-script.js:774-801 | one column, the main element's structure, and the header, footer and sidebar flags |
| `ContentPage.InlineDisplays` | content-script.js:791-794 | 'inline-grid' is a grid and 'inline-flex' a flexbox, because the display tests are substring tests |
| `ContentPage.SafeSelector` | content-script.js:565 | the id prefix has the selector's length with each bracket, quote, '=', ':', '.' and space replaced by '_' |
| `ContentPage.SectionRecord` | content-script.js:564-589 | a section record has the element's classification, lower-cased tag, bounds and the `{direct, all}` child counts |
| `ContentPage.VisibleIndices` | content-script.js:559-560 | the visible matches are kept, in increasing document order |
| `ContentPage.SelectorSections` | content-script.js:557-594 | one section per visible match, in document order, numbered by its index among all matches |
| `ContentPage.Max` | content-script.js:404-417 | the page extent is at least every source extent and is one of them, or 0 |
| `ContentPage.AnalyzePageStructure` | content-script.js:393-499 | a failed analysis gives no sections, an empty layout, zero extents and the error; otherwise the page is scrollable iff its height exceeds the viewport, and the height is at least every extent |
| `ContentPage.ToDomAnalysis` | content-script.js:393-499 | the report read by the background worker carries the same sections, and an error only when the report has one |
| `ContentPage.FallbackReachesWorker` | content-script.js:468-497 | a failed analysis reaches the background worker with no sections, no elements and its message |
| `MarkdownNames.RecordUrl` | lib/markdown-generator.js:1846-1847 | an object is replaced by a non-empty text: its url, fullUrl or href, else 'Unknown' |
| `MarkdownNames.RouteNameHome` | lib/markdown-generator.js:1850 | nothing, '' and '/' are named 'Home' |
| `MarkdownNames.RouteNameRecord` | lib/markdown-generator.js:1845-1848 | a record is named by its first non-empty field among url, fullUrl, href, else as the path 'Unknown'; `null` is named like a record without fields |
| `MarkdownNames.RouteNameOfWord` | lib/markdown-generator.js:1852-1856 | a single word without slashes is named by itself, capitalised |
| `MarkdownNames.RouteNameUnknown` | lib/markdown-generator.js:1845-1856 | `null` and a record without urls are named 'Unknown' |
| `MarkdownNames.RouteNameOfSegments` | lib/markdown-generator.js:1852-1856 | a path `/a/b/c` is named by its segments capitalised, joined by " > " |
| `MarkdownNames.RouteNameOfSlashes` | lib/markdown-generator.js:1850-1856 | a path of two or more slashes only, such as '//', is named '' |
| `MarkdownNames.TitleWordsSplit` | lib/markdown-generator.js:1859-1864 | the title has one word per separated part of the type, each capitalised |
| `MarkdownNames.FormatSectionSpec` | lib/markdown-generator.js:501-506 | `formatSectionType` splits on '-' and `formatSectionName` on '-' or '_', capitalising each part |
| `MarkdownNames.FormatSectionOneWord` | lib/markdown-generator.js:1859-1864 | a type without separators is only capitalised |
| `MarkdownNames.ComponentNameSpec` | lib/markdown-generator.js:1866-1870 | the name keeps exactly the ASCII letters and digits of the type, and its first character is upper-case when it is a letter |
| `MarkdownNames.ComponentNameIdempotent` | lib/markdown-generator.js:1866-1870 | naming a component name again changes nothing |
| `MarkdownNames.DashesSlug` | lib/markdown-generator.js:1875 | replacing each run of other characters by one '-' leaves only [a-z0-9-] and no "--" |
| `MarkdownNames.TrimDashesAnchor` | lib/markdown-generator.js:1876 | removing a leading and a trailing '-' from such a text leaves none at either end |
| `MarkdownNames.AnchorSpec` | lib/markdown-generator.js:1872-1877 | an anchor has only [a-z0-9-], never two consecutive '-', and no leading or trailing '-' |
| `MarkdownNames.DashesOfSlug` | lib/markdown-generator.js:1875 | the replacement leaves a slug unchanged |
| `MarkdownNames.AnchorIdempotent` | lib/markdown-generator.js:1872-1877 | `generateAnchor` is idempotent |
| `MarkdownNames.ComplexitySpec` | lib/markdown-generator.js:1583-1589 | the level is Low iff reusability + consistency ≥ 150, High iff it is below 100, and never rises as the score rises |
| `MarkdownNames.PrioritySpec` | lib/markdown-generator.js:1387-1398 | priority is High iff usage ≥ 5 and reusability ≥ 70, Medium iff not that but usage ≥ 3 and reusability ≥ 50, else Low; more of either never lowers it |
| `MarkdownNames.ElementToPropSpec` | lib/markdown-generator.js:1949-1981 | the test is blind to case; a prop is suggested iff the name mentions title, image/img, button, link, text or content; only a button gives a handler; title wins over everything |
| `MarkdownNames.PropOfLowerSpec` | lib/markdown-generator.js:1952-1980 | the tests on the lower-cased name are first-match in the order title, image/img, button, link, text/content |
| `MarkdownNames.DetailedPropInfoSpec` | lib/markdown-generator.js:1983-2037 | `getDetailedPropInfo` is blind to case; a required prop is a string; 'className' in any case is the optional CSS-class string |
| `MarkdownNames.RequiredIsString` | lib/markdown-generator.js:1986-2013 | every required prop is a string |
| `MarkdownNames.ClassNameDetail` | lib/markdown-generator.js:2021-2027 | 'classname' reaches its own rule: no earlier word occurs in it |
| `MarkdownNames.InferElementTag` | lib/markdown-generator.js:1664-1676 | the tag is one of button, a, h2, img, p, ul, li, div |
| `MarkdownNames.InferElementTagSpec` | lib/markdown-generator.js:1664-1676 | the tag is blind to case, and a name mentioning "button" always gives a button |
| `MarkdownHelpers.Capped` | lib/markdown-generator.js:1603 | at most five variations are kept |
| `MarkdownHelpers.FirstOccurrencesKeys` | lib/markdown-generator.js:1595-1601 | the kept variations have the input's encodings, each once, in order of first appearance |
| `MarkdownHelpers.FirstOccurrenceAt` | lib/markdown-generator.js:1595-1601 | each kept variation is the first one with its encoding |
| `MarkdownHelpers.FirstOccurrencesSubseq` | lib/markdown-generator.js:1595-1601 | the kept variations keep the input's order |
| `MarkdownHelpers.DeduplicatedSpec` | lib/markdown-generator.js:1591-1604 | at most five variations, with pairwise different JSON forms, each the first occurrence of its form |
| `MarkdownHelpers.DeduplicatedCover` | lib/markdown-generator.js:1591-1604 | when at most five distinct forms occur, every variation's form is kept |
| `MarkdownHelpers.DeduplicateVariations` | lib/markdown-generator.js:1591-1604 | the loop computes the specified capped first occurrences |
| `MarkdownHelpers.AllSuggestionsStep` | lib/markdown-generator.js:1609-1611 | the suggestions of one more opportunity come after those already seen; a missing opportunity or list adds none |
| `MarkdownHelpers.AggregatedSorted` | lib/markdown-generator.js:1606-1625 | the aggregates are sorted by non-increasing count, one per suggestion type |
| `MarkdownHelpers.AggregatedEntry` | lib/markdown-generator.js:1612-1619 | each aggregate counts the suggestions of its type and carries the first one's description |
| `MarkdownHelpers.AggregatedCover` | lib/markdown-generator.js:1609-1622 | every suggestion's type has its aggregate |
| `MarkdownHelpers.AggregateRefactoringOpportunities` | lib/markdown-generator.js:1606-1625 | the loop and sort compute the specified aggregates |
| `MarkdownHelpers.CountSuggestion` | lib/markdown-generator.js:1612-1619 | a new type starts an entry at count 0, then its count goes up by one |
| `MarkdownHelpers.MakeAggregateSnoc` | lib/markdown-generator.js:1612-1619 | a first suggestion of a type starts the entry at 1; a later one adds one |
| `MarkdownHelpers.CommonInSectionsSpec` | lib/markdown-generator.js:1900-1919 | the shared elements are duplicate-free, in the first instance's order, and exactly those every instance lists; no instances share none |
| `MarkdownHelpers.FindCommonElementsInSections` | lib/markdown-generator.js:1900-1919 | the method computes the specified shared elements |
| `MarkdownHelpers.KeepInEvery` | lib/markdown-generator.js:1912-1916 | the walk keeps exactly the elements every instance lists |
| `MarkdownHelpers.PropsForMembers` | lib/markdown-generator.js:1939-1942 | a prop is listed iff some element gives it |
| `MarkdownHelpers.SuggestedPropsSpec` | lib/markdown-generator.js:1921-1947 | a prop is suggested iff some element occurring more than half as many times as there are instances gives it |
| `MarkdownHelpers.OccurrencesCountInstances` | lib/markdown-generator.js:1925-1933 | the count is of occurrences: it equals the number of instances listing the element only when no instance lists it twice |
| `MarkdownHelpers.OneInstanceOfThree` | lib/markdown-generator.js:1925-1943 | one instance of three listing "title" twice is enough to suggest the title prop |
| `MarkdownHelpers.SuggestPropsForSection` | lib/markdown-generator.js:1921-1947 | the method computes the specified suggestions |
| `MarkdownHelpers.PropsOfCounts` | lib/markdown-generator.js:1936-1944 | the last loop gives the props of the majority elements, in first-appearance order |
| `MarkdownHelpers.CountElements` | lib/markdown-generator.js:1929-1933 | the counting pass maps each element, in order of first appearance, to its number of occurrences |
| `MarkdownComponents.TypeOf` | lib/markdown-generator.js:492 | a section's type is never empty: a missing or empty type reads as 'unknown' |
| `MarkdownComponents.GroupSectionsByType` | lib/markdown-generator.js:490-499 | each section is appended to its type's list, types in order of first appearance |
| `MarkdownComponents.SectionsByTypeSpec` | lib/markdown-generator.js:490-499 | the grouping partitions the sections: every section is in its type's list, every list holds only that type, no list is empty |
| `MarkdownComponents.ExtractComponentsFromSection` | lib/markdown-generator.js:538-591 | every component is named after its kind, has a positive count and the section's type as context |
| `MarkdownComponents.ExtractSpec` | lib/markdown-generator.js:538-591 | a Button, Form or Image component appears, with the section's count, iff that count is positive; a Navigation component iff the section is a navigation; at most one of each, in that order |
| `MarkdownComponents.SectionsComponents` | lib/markdown-generator.js:690-692 | every component of the sections has a non-empty name, so the name check never skips one |
| `MarkdownComponents.RoutesComponents` | lib/markdown-generator.js:688-692 | routes without sections contribute nothing; every component has a non-empty name |
| `MarkdownComponents.UniqueComponentsSorted` | lib/markdown-generator.js:685-723 | the merged components are sorted most used first, one entry per lower-cased name |
| `MarkdownComponents.UniqueComponentsCount` | lib/markdown-generator.js:697-712 | each entry's usage count is the number of components with its lower-cased name, its spelling is the first of theirs, and it carries no elements |
| `MarkdownComponents.UniqueComponentsLength` | lib/markdown-generator.js:697-712 | the merged list holds exactly one entry per distinct lower-cased name |
| `MarkdownComponents.UniqueComponentsCover` | lib/markdown-generator.js:697-712 | every component has the entry of its name |
| `MarkdownComponents.UniqueAsWrittenFails` | lib/markdown-generator.js:705-712 | one route whose same section with buttons appears twice makes the pass as written throw |
| `MarkdownComponents.RepeatedNameFails` | lib/markdown-generator.js:705-712 | any name repeated without regard to case makes the pass as written throw and the inventory shorter than its input |
| `MarkdownComponents.UniqueFoldTallied` | lib/markdown-generator.js:697-712 | merging components one by one keeps one entry per name, built from that name's components |
| `MarkdownComponents.ExtractUniqueComponents` | lib/markdown-generator.js:685-723 | the corrected loops (a repeated name merges instead of throwing at lines 706-711) compute the specified merged inventory |
| `MarkdownComponents.TallySections` | lib/markdown-generator.js:690-716 | merging one route's sections advances the merge state over their components in order |
| `MarkdownComponents.TallyComponents` | lib/markdown-generator.js:692-715 | merging one section's components advances the merge state over them in order |
| `MarkdownComponents.MergeComponent` | lib/markdown-generator.js:698-713 | a new name starts an entry with usage 1, a known one counts one more use |
| `MarkdownComponents.UniqueStep` | lib/markdown-generator.js:698-713 | one merge step keeps one entry per name built from that name's components |
| `MarkdownAnalysis.RouteListings` | lib/markdown-generator.js:1318-1319 | a route without components lists nothing; otherwise one listing per component, in order, with the route's path |
| `MarkdownAnalysis.MergedInstancesTotal` | lib/markdown-generator.js:1886-1888 | a type listed several times adds every later listing's `instances or 1` but its first listing's `instances or 0` |
| `MarkdownAnalysis.AllComponentsSpec` | lib/markdown-generator.js:1879-1898 | one copy per component type, types distinct and in order of first appearance, each copy the first listing of its type with the merged instance count |
| `MarkdownAnalysis.ExtractAllComponents` | lib/markdown-generator.js:1879-1898 | the loops over routes and components compute the specified copies |
| `MarkdownAnalysis.CopyRoute` | lib/markdown-generator.js:1883-1893 | one route's components advance the copy map over them in order |
| `MarkdownAnalysis.CopyComponent` | lib/markdown-generator.js:1885-1891 | a new type stores a copy of the component; a known type adds its instances to the copy |
| `MarkdownAnalysis.AllRecordSnoc` | lib/markdown-generator.js:1885-1891 | a first listing is copied as is; a later one adds `instances or 1` to the copy's `instances or 0` |
| `MarkdownAnalysis.GatheredScore` | lib/markdown-generator.js:1340-1342 | a type's reusability score is the best `reusabilityScore or 0` of its listings, and 0 when none is positive |
| `MarkdownAnalysis.GatheredConsistency` | lib/markdown-generator.js:1340-1343 | a type's consistency is the best `consistency or 0` of its listings, and 0 when none is positive |
| `MarkdownAnalysis.GatheredUses` | lib/markdown-generator.js:1376-1379 | one use per listing, in order, with the listing's route and `instances or 1` |
| `MarkdownAnalysis.GatheredUsage` | lib/markdown-generator.js:1385 | a type's usage total is the number of instances its listings stand for |
| `MarkdownAnalysis.GatherInstances` | lib/markdown-generator.js:1376-1379 | each step appends exactly one use, for its listing |
| `MarkdownAnalysis.GatheredProps` | lib/markdown-generator.js:1370-1373 | a type's props are without repeats, and are exactly the props any of its listings names |
| `MarkdownAnalysis.GatheredMedium` | lib/markdown-generator.js:1327 | the first pass leaves every priority at 'Medium' |
| `MarkdownAnalysis.DetailedAnalysisSpec` | lib/markdown-generator.js:1314-1406 | an entry exists iff some route lists the type; its priority is the High/Medium/Low rule on the type's total instances and best score; it has one use per listing |
| `MarkdownAnalysis.UnnumberedFirstListing` | lib/markdown-generator.js:1886-1888 | when a type's first listing has no `instances`, the analysis counts it once and the merged copy not at all |
| `MarkdownAnalysis.PerformDetailedComponentAnalysis` | lib/markdown-generator.js:1314-1406 | the two passes compute the specified analysis, keyed by the listed types in order of first appearance |
| `MarkdownAnalysis.GatherAll` | lib/markdown-generator.js:1317-1382 | the first pass builds, per type, the analysis of that type's listings |
| `MarkdownAnalysis.GatheredKeys` | lib/markdown-generator.js:1322-1335 | after the first pass the map's keys are the listed types, each once |
| `MarkdownAnalysis.AnalyzeRoute` | lib/markdown-generator.js:1318-1381 | one route's components advance the first pass over them in order |
| `MarkdownAnalysis.AnalyzeComponent` | lib/markdown-generator.js:1320-1380 | a component is folded into its type's analysis, created on first sight |
| `MarkdownAnalysis.Prioritize` | lib/markdown-generator.js:1384-1399 | every analysis gets the priority of its usage total and best score, and nothing else changes |
| `ComponentGenerator.Put` | lib/component-generator.js:86-133 | `Map.set` on an absent key appends the entry |
| `ComponentGenerator.PutSpec` | lib/component-generator.js:86-133 | after `Map.set` the keys are the old ones with the key added as to an insertion-ordered set, and no other entry appears |
| `ComponentGenerator.Lookup` | lib/component-generator.js:322-357 | `Map.get` finds a value exactly when `Map.has` holds |
| `ComponentGenerator.PutLookup` | lib/component-generator.js:86-133 | after `set(k, v)`, `get(k)` is `v` and every other key reads as before |
| `ComponentGenerator.LowerFirst` | lib/component-generator.js:75 | only the first character is lower-cased, the rest is kept |
| `ComponentGenerator.DropMarkUpper` | lib/component-generator.js:77-79 | the separator regex inserts exactly one separator before each upper-case letter and changes nothing else |
| `ComponentGenerator.CasedName` | lib/component-generator.js:69-84 | the pascalCase, camelCase and default names are the type's alphanumerics with only the first character's case changed, upper except for camelCase |
| `ComponentGenerator.SeparatedName` | lib/component-generator.js:69-84 | a kebab-case or snake_case name is the lower-cased alphanumerics with one separator per upper-case letter and no upper-case letter left |
| `ComponentGenerator.PascalIdempotent` | lib/component-generator.js:69-84 | a pascalCase name is its own pascalCase name |
| `ComponentGenerator.ContentPropsInferred` | lib/component-generator.js:89-109 | the content adds only inferred props, each with its type, no name twice, an image url always with its alt text |
| `ComponentGenerator.ElementsPropsInferred` | lib/component-generator.js:112-124 | the elements keep the props map inferred, typed, duplicate-free and image-paired |
| `ComponentGenerator.InferredPartSpec` | lib/component-generator.js:86-124 | the inferred props never include `className` or `ariaLabel` |
| `ComponentGenerator.PropsInterfaceOrder` | lib/component-generator.js:86-133 | the props are the inferred ones, then `className`, then `ariaLabel` exactly with accessibility, no name twice |
| `ComponentGenerator.PropsInterfaceSpec` | lib/component-generator.js:86-133 | `className` is always a string prop, `ariaLabel` is present iff accessibility is asked for, every prop has its type, and `imageUrl` implies `imageAlt` |
| `ComponentGenerator.PropTextSpec` | lib/component-generator.js:267-270 | a prop's line is its name, then `?` exactly for `className` and `ariaLabel` |
| `ComponentGenerator.PropLinesSplit` | lib/component-generator.js:267-270 | the prop lines split into one line per prop, in map order |
| `ComponentGenerator.InterfaceLines` | lib/component-generator.js:262-274 | outside TypeScript the interface is empty; in TypeScript it is the header line, one line per prop in map order, and the closing brace |
| `ComponentGenerator.TypesFileExportsInterface` | lib/component-generator.js:668-682 | the types file is the exported interface, an empty line and the default export; empty outside TypeScript |
| `ComponentGenerator.LineShape` | lib/component-generator.js:322-357 | every body line is indented by six spaces and opens a tag; only the placeholder's is a `div` |
| `ComponentGenerator.BodyPlaceholder` | lib/component-generator.js:322-357 | the body is the placeholder exactly when no recognised prop is present, and otherwise the recognised lines in order |
| `ComponentGenerator.BodyButton` | lib/component-generator.js:341-344 | the button line appears exactly when `onClick` or `onButtonClick` is a prop |
| `ComponentGenerator.StyleFileNameInjective` | lib/component-generator.js:649-660 | different components never share a style file name |
| `ComponentGenerator.ClassNameSpec` | lib/component-generator.js:276-308 | the class name ignores the component name's case, is a `styles.` member under CSS modules and a quoted string otherwise |
| `ComponentGenerator.ExportLines` | lib/component-generator.js:992-1001 | one export line per component, in order |
| `ComponentGenerator.MainIndexLines` | lib/component-generator.js:992-1001 | the main index holds exactly one export line per component, in input order, followed by a newline |
| `ComponentGenerator.GenerateComponentAsWrittenFails` | lib/component-generator.js:135-166 | as written, generation fails for every setting and section; under React the failure is the undeclared `_isTypeScript` |
| `ComponentGenerator.GenerateComponentSpec` | lib/component-generator.js:19-67 | only React yields a component; Vue, Angular and Svelte fail as not yet implemented, other frameworks as unsupported; a component carries its name and the settings used |
| `ComponentGenerator.LayoutKinds` | lib/component-generator.js:135-215 | the files come in the order they are pushed, the last three only when called for |
| `ComponentGenerator.ReactFilesSpec` | lib/component-generator.js:135-215 | component, style and index files, then types only in TypeScript, story only with Storybook, test only with tests; the component file's extension follows the language, the style file is named by `getStyleFileName`, the types file holds the exported interface |
| `ComponentGenerator.PutTypeScriptPackages` | lib/component-generator.js:909-913 | the TypeScript group into an empty object gives the three TypeScript packages |
| `ComponentGenerator.PutTestPackages` | lib/component-generator.js:915-919 | the test group is appended after the packages before it |
| `ComponentGenerator.PutStorybookPackages` | lib/component-generator.js:921-924 | the Storybook group is appended after the packages before it |
| `ComponentGenerator.PutFrameworkPackages` | lib/component-generator.js:873-888 | the framework switch gives the framework's packages |
| `ComponentGenerator.PutStylingPackages` | lib/component-generator.js:890-901 | the styling switch appends the styling framework's packages after the framework's |
| `ComponentGenerator.ComponentGenerator.constructor` | lib/component-generator.js:3-5 | a new generator has no settings |
| `ComponentGenerator.ComponentGenerator.Init` | lib/component-generator.js:7-17 | the settings become those read from sync storage |
| `ComponentGenerator.ComponentGenerator.GeneratePropsInterface` | lib/component-generator.js:86-133 | the map filled in place equals the specified props interface |
| `ComponentGenerator.ComponentGenerator.GeneratePropsInterfaceString` | lib/component-generator.js:262-274 | the string built prop by prop equals the specified interface text |
| `ComponentGenerator.ComponentGenerator.GenerateTypesFile` | lib/component-generator.js:668-682 | the string built prop by prop equals the specified types file |
| `ComponentGenerator.ComponentGenerator.GetFrameworkDependencies` | lib/component-generator.js:870-904 | the framework's packages, then the styling framework's |
| `ComponentGenerator.ComponentGenerator.GetDevDependencies` | lib/component-generator.js:906-927 | TypeScript, test and Storybook packages, each group only when called for, in that order |
| `ComponentGenerator.ComponentGenerator.GenerateComponent` | lib/component-generator.js:19-67 | the settings are re-read, and the result is what the code as written gives: always an error |
| `AiSegmentation.FallbackSegmentation` | lib/ai-segmentation.js:180-206 | the fallback is marked as such, with confidence 0.3 |
| `AiSegmentation.FallbackStacked` | lib/ai-segmentation.js:180-206 | the fallback is a header, a main area and a footer, full-width boxes stacked from the top of the page |
| `AiSegmentation.FirstWord` | lib/ai-segmentation.js:267 | the first split piece is the longest prefix without whitespace or ':' |
| `AiSegmentation.FirstWordKeepsPrefix` | lib/ai-segmentation.js:264-267 | the section type keeps the header word the line starts with |
| `AiSegmentation.StepLineSpec` | lib/ai-segmentation.js:259-279 | one line opens a section exactly when it is a header line, and keeps every section well formed |
| `AiSegmentation.ParseLinesSpec` | lib/ai-segmentation.js:256-284 | one section per header line; bullet lines before the first header are dropped |
| `AiSegmentation.ParseUnstructuredSpec` | lib/ai-segmentation.js:252-289 | one section per header line, each typed by a word that begins with a header word |
| `AiSegmentation.NoHeaderNoSections` | lib/ai-segmentation.js:252-289 | free text without a header line yields no sections |
| `AiSegmentation.ParseUnstructuredResponse` | lib/ai-segmentation.js:252-289 | the line walk computes the specified parse, with confidence 0.6 and source 'text-parsing' |
| `AiSegmentation.WalkLines` | lib/ai-segmentation.js:255-277 | the loop over the answer's lines ends in the parse state `ParseLines` gives for those lines: closed sections plus the one being filled |
| `AiSegmentation.ParseLine` | lib/ai-segmentation.js:259-279 | a header line closes the open section and opens another, a bullet adds an element to the open one |
| `AiSegmentation.CalculateBounds` | lib/ai-segmentation.js:290-300 | the smallest box holding every vertex, a missing coordinate read as 0; no box for no vertices |
| `AiSegmentation.InferComponentType` | lib/ai-segmentation.js:351-371 | the type-table entry of the lower-cased section type, else GenericComponent, never empty |
| `AiSegmentation.InferComponentTypeAsWritten` | lib/ai-segmentation.js:370 | the object lookup finds a table entry, or an inherited member for 'constructor' and '__proto__' |
| `AiSegmentation.ComponentTypeAsWritten` | lib/ai-segmentation.js:351-371 | the type the code groups by is never empty, and equals the table function's type exactly when the lower-cased type is not an inherited member name |
| `AiSegmentation.ConstructorTypeIsInherited` | lib/ai-segmentation.js:370 | a section typed "constructor" gets the inherited `Object` function instead of GenericComponent |
| `AiSegmentation.AsWrittenAgreesElsewhere` | lib/ai-segmentation.js:351-371 | away from the inherited names, the lookup as written and the table function agree |
| `AiSegmentation.CacheKeyAsWritten` | lib/ai-segmentation.js:314-318 | the key exists iff the hashed text is Latin-1, and has at most 16 characters |
| `AiSegmentation.CacheKeyCollision` | lib/ai-segmentation.js:314-318 | two images whose data share the first twelve characters get the same key, whatever the route |
| `AiSegmentation.KeySeesTwelve` | lib/ai-segmentation.js:314-318 | sixteen base64 characters are the encoding of the first twelve input characters |
| `AiSegmentation.CacheKey` | lib/ai-segmentation.js:314-318 | the corrected key, the whole encoding of image prefix and url, exists iff that text is Latin-1 |
| `AiSegmentation.CacheKeyInjective` | lib/ai-segmentation.js:314-318 | equal corrected keys mean equal hashed text |
| `AiSegmentation.SettingsOf` | lib/ai-segmentation.js:18-21 | the threshold is the stored one when truthy, else 0.7; caching is off only when stored as `false` |
| `AiSegmentation.ApiKeyOf` | lib/ai-segmentation.js:21 | a key is kept only when the stored one is truthy |
| `AiSegmentation.SegmentWithOpenAI` | lib/ai-segmentation.js:57-115 | no key gives the fallback; a failed or not-ok request is an error; an answer that is no JSON is parsed as free text |
| `AiSegmentation.CacheOnlyGrows` | lib/ai-segmentation.js:30-55 | a call only adds its own key to the cache and keeps every entry; it rejects only when the key cannot be computed |
| `AiSegmentation.SecondCallHitsCache` | lib/ai-segmentation.js:36-47 | with caching on, a stored answer is returned again, whatever the API would answer |
| `AiSegmentation.OtherRouteServedFromCache` | lib/ai-segmentation.js:36-47 | with caching on, a screenshot of another route whose data starts with the same twelve characters gets the stored answer back, whatever the API would answer |
| `AiSegmentation.FailureNotCached` | lib/ai-segmentation.js:50-54 | a failed request gives the fallback and leaves the cache unchanged |
| `AiSegmentation.FallbackOutlivesKey` | lib/ai-segmentation.js:30-62 | a fallback given for want of a key is cached, so it is still returned after a key is configured |
| `AiSegmentation.AISegmentation.constructor` | lib/ai-segmentation.js:3-8 | no key, no settings, an empty cache |
| `AiSegmentation.AISegmentation.Init` | lib/ai-segmentation.js:10-28 | settings and key are read from storage; the cache is kept |
| `AiSegmentation.AISegmentation.SegmentImage` | lib/ai-segmentation.js:30-55 | settings and key are re-read; the result and the new cache are those of the cache-then-API call keyed by the key as written (twelve characters of image data) |
| `AiComponents.CommonElementsSpec` | lib/ai-segmentation.js:373-390 | the common elements are, without duplicates and in the first instance's order, exactly those every instance lists; no instances give none |
| `AiComponents.FindCommonElements` | lib/ai-segmentation.js:373-390 | the method computes the specified common elements |
| `AiComponents.KeepListedByAll` | lib/ai-segmentation.js:383-387 | the walk keeps exactly the first set's elements every instance lists |
| `AiComponents.ListedByAll` | lib/ai-segmentation.js:384 | the `every` test holds iff each instance lists the element |
| `AiComponents.Variations` | lib/ai-segmentation.js:392-406 | one variation per instance, numbered from 1 in input order, with the instance's fields |
| `AiComponents.IdentifyVariations` | lib/ai-segmentation.js:392-406 | the loop computes the specified variations |
| `AiComponents.VariationIdsDistinct` | lib/ai-segmentation.js:392-406 | variation ids increase, so they are distinct |
| `AiComponents.PropsMembers` | lib/ai-segmentation.js:408-429 | a prop is suggested iff some instance suggests it |
| `AiComponents.PropsRange` | lib/ai-segmentation.js:408-429 | the props carry no repetition and come from the five names |
| `AiComponents.TitlePropSpec` | lib/ai-segmentation.js:413-415 | `title` is a prop iff some instance's content mentions a title |
| `AiComponents.ButtonPropSpec` | lib/ai-segmentation.js:419-423 | `onButtonClick` is a prop iff some instance lists an element mentioning a button |
| `AiComponents.InferProps` | lib/ai-segmentation.js:408-429 | the set filled instance by instance gives the specified props |
| `AiComponents.AddInstanceProps` | lib/ai-segmentation.js:412-424 | one instance adds its content props, then its element props |
| `AiComponents.AddElementProps` | lib/ai-segmentation.js:419-423 | the inner loop adds each element's props in order |
| `AiComponents.BuildComponent` | lib/ai-segmentation.js:337-343 | a component carries its type, its instance count and its numbered variations |
| `AiComponents.ComponentsSpec` | lib/ai-segmentation.js:320-349 | one component per component type, in order of first appearance, each built from exactly the sections of its type |
| `AiComponents.ComponentsPartition` | lib/ai-segmentation.js:320-349 | no two components share a type, and their instance counts add up to the number of sections |
| `AiComponents.AnalyzeComponents` | lib/ai-segmentation.js:320-349 | the two passes compute the components grouped by the type lookup as written |
| `AiComponents.GroupByType` | lib/ai-segmentation.js:325-333 | each section is pushed onto its component type's list, types in order of first appearance |
| `AiComponents.DescribeGroups` | lib/ai-segmentation.js:336-346 | one specification per group, in key order |
| `AiComponents.DescribeGroup` | lib/ai-segmentation.js:337-343 | a group's specification is its type, count, common elements, variations and props |
| `ScreenshotCapture.GetCurrentTab` | lib/screenshot-capture.js:84-90 | the first active tab, or the 'No active tab found' error exactly when there is none |
| `ScreenshotCapture.BuildFullUrl` | lib/screenshot-capture.js:92-105 | a route starting with 'http' is returned unchanged; otherwise the current url's origin followed by the route, or 'Invalid URL: <route>' when that url does not parse; a result always ends with the route |
| `ScreenshotCapture.BuildFullUrlStable` | lib/screenshot-capture.js:92-105 | a url built from an http origin is full: building it again from any page leaves it unchanged |
| `ScreenshotCapture.Quality` | lib/screenshot-capture.js:164-176 | quality is 100 exactly for 'high', 90 exactly for anything other than high, medium and low, always within 60..100 |
| `ScreenshotCapture.CaptureCountCovers` | lib/screenshot-capture.js:202-206 | the ceil(page / viewport) captures cover the page and the last starts inside it; an empty page takes none |
| `ScreenshotCapture.FirstFailure` | lib/screenshot-capture.js:206-228 | the loop runs until the first capture that throws, or to the end |
| `ScreenshotCapture.FullPage` | lib/screenshot-capture.js:188-240 | the result is either the visible-area capture or the first slice |
| `ScreenshotCapture.FullPageIsFirstSlice` | lib/screenshot-capture.js:230-232 | when every capture succeeds, a page taller than one viewport still returns only its first slice |
| `ScreenshotCapture.CaptureFullPage` | lib/screenshot-capture.js:188-240 | the loop records one shot per successful capture at offset i times the viewport height, and returns the specified result |
| `ScreenshotCapture.PlanShape` | lib/screenshot-capture.js:206-228 | every slice starts inside the page, offsets rise by one viewport, and only the last is flagged `isLast` |
| `ScreenshotCapture.CaptureScreenshot` | lib/screenshot-capture.js:157-186 | every failure carries the 'Screenshot capture failed: ' prefix |
| `ScreenshotCapture.RouteCapture` | lib/screenshot-capture.js:16-53 | the result always carries its route; no tab gives a failed result with 'No active tab found'; a success holds the captured data |
| `ScreenshotCapture.NoNavigationWhenThere` | lib/screenshot-capture.js:24-26 | a route already shown in the tab is captured without navigating, so a navigation failure cannot affect it |
| `ScreenshotCapture.Reports` | lib/screenshot-capture.js:63-70 | one report per route, counting from 1, with the rounded percentage and the route's url |
| `ScreenshotCapture.ReportsRise` | lib/screenshot-capture.js:63-70 | the percentages never decrease, stay within 0..100 and end at 100 |
| `ScreenshotCapture.ScreenshotCapture.constructor` | lib/screenshot-capture.js:3-5 | no settings before the first read |
| `ScreenshotCapture.ScreenshotCapture.Init` | lib/screenshot-capture.js:7-14 | the settings become the four capture keys read from sync storage |
| `ScreenshotCapture.ScreenshotCapture.CaptureRoute` | lib/screenshot-capture.js:16-53 | the settings are re-read and the route's capture result is returned, never an exception |
| `ScreenshotCapture.ScreenshotCapture.CaptureMultipleRoutes` | lib/screenshot-capture.js:55-82 | one result per route in order, a progress report before each when a listener is given, and a pause only between routes |
| `ScreenshotCapture.DataUrlSize` | lib/screenshot-capture.js:392-396 | a size exists exactly when the url holds a comma; otherwise the call throws |
| `ScreenshotCapture.DataUrlSizeOfPayload` | lib/screenshot-capture.js:392-396 | on a PNG data URL whose payload has no padding the size read is the length of the encoded text |
| `Popup.VisibleRoutes` | popup/popup.js:809-830 | the listed routes keep the list's order and are exactly those matching the lower-cased term (when one is given) in title or url and of the chosen type (unless 'all'); no term and 'all' list every route |
| `Popup.FindRoute` | popup/popup.js:228 | the first route carrying the id, or none when no route carries it |
| `Popup.Selection` | popup/popup.js:227-229 | the selected ids mapped to their routes, dropping ids no route carries |
| `Popup.ValidSelection` | popup/popup.js:225-241 | exactly the selected known routes that have a url |
| `Popup.RouteLabel` | popup/popup.js:368 | a record's `route` is the url, else the full url, else the route object itself |
| `Popup.TitleLabel` | popup/popup.js:369 | a record's `title` is the title, else the url, else the route object itself |
| `Popup.Screenshot` | popup/popup.js:354-364 | a screenshot is kept exactly when the capture answered with success |
| `Popup.RecordOf` | popup/popup.js:321-397 | no active tab gives no record; otherwise a record for the route with its labels, a failed record exactly when the tab query threw |
| `Popup.Records` | popup/popup.js:311-401 | at most one record per route, each for one of the routes |
| `Popup.RecordsAllVisited` | popup/popup.js:311-401 | when every route has an active tab, each route has its record, in order |
| `Popup.RecordsStep` | popup/popup.js:314-398 | one more route appends its record, if any, after the earlier ones |
| `Popup.AnalysisFailureForgotten` | popup/popup.js:339-377 | a failed analysis leaves the same record as a page that did not answer: empty sections and no error |
| `Popup.CaptureLabelInjective` | popup/popup.js:591-592 | the capture label always shows the selection size: different sizes give different labels |
| `Popup.ParseRoute` | popup/popup.js:127-143 | an object route is kept, a serialised one parsed; one that does not parse becomes an 'unknown' route whose url, full url and title are the text |
| `Popup.ParseRoutes` | popup/popup.js:127-143 | one parsed route per reported route, in order |
| `Popup.CurrentPageRoute` | popup/popup.js:152-160 | the page itself as a 'current' route, titled by the tab's title or 'Current Page' |
| `Popup.PopupController.constructor` | popup/popup.js:3-8 | no routes, an empty selection, not processing |
| `Popup.PopupController.SelectAll` | popup/popup.js:484-489 | the visible routes' ids join the selection; earlier selections and everything else stay |
| `Popup.PopupController.DeselectAll` | popup/popup.js:491-495 | the selection is emptied and nothing else changes |
| `Popup.PopupController.Toggle` | popup/popup.js:564-572 | exactly the box's id enters or leaves the selection |
| `Popup.PopupController.ButtonState` | popup/popup.js:583-600 | capture is disabled and unlabelled by a count exactly when nothing is selected; export is disabled while processing or with no routes |
| `Popup.PopupController.ScanRoutes` | popup/popup.js:75-171 | without a tab nothing changes; an answer carrying a list, even an empty one, gives its parsed routes; otherwise the page itself is the only route |
| `Popup.PopupController.ProcessRoutesInPopup` | popup/popup.js:311-401 | the records are the specified ones and the progress before route i is round((i+1)/n*100) |
| `Popup.PopupController.CaptureRoutes` | popup/popup.js:225-309 | nothing happens without a known selected route with a url or when setup fails; otherwise progress runs from 0, the records are stored when there are any, and processing is cleared at the end |
| `Popup.SelectAllCovers` | popup/popup.js:484-489 | after select all every visible route is selected, and so is everything selected before |
| `Popup.ToggleUndo` | popup/popup.js:564-572 | ticking a box and unticking it restores the selection |
| `Popup.CaptureProgressRises` | popup/popup.js:283-319 | a capture's progress starts at 0, never decreases and ends at 100 |
| `Popup.CaptureTakesOnlySelected` | popup/popup.js:225-288 | a capture processes only known, selected routes that have a url |
| `Options.DefaultKeysCover` | options/options.js:4-82 | the defaults cover exactly the known keys, and every checkbox defaults to true |
| `Options.Restrict` | options/options.js:48-50 | a storage read returns exactly the stored entries of the requested keys |
| `Options.Loaded` | options/options.js:46-56 | the loaded settings have the known keys, each the stored value when there is one, else the default; only defaults when reading fails |
| `Options.Validate` | options/options.js:104-123 | no error iff both values pass their range checks; a bad route maximum is reported first |
| `Options.ValidateBounds` | options/options.js:104-123 | for numbers, validation passes iff 1 <= maxRoutes <= 100 and 0.3 <= threshold <= 0.9, bounds included |
| `Options.UnparsedPasses` | options/options.js:104-123 | a missing value or NaN passes both range checks |
| `Options.DefaultsValid` | options/options.js:4-123 | the defaults pass validation |
| `Options.LastValue` | options/options.js:65-73 | the value a key gets is its last form entry |
| `Options.FormFields` | options/options.js:65-73 | one field per form key, converted from its last entry by parseInt, parseFloat or as text |
| `Options.CheckboxFlags` | options/options.js:84-86 | each checkbox is true exactly when the form has it |
| `Options.FormSettingsFields` | options/options.js:58-86 | each checkbox setting is true iff the form has it; every other form field comes from its last entry; nothing else is set |
| `Options.CollectForm` | options/options.js:61-86 | the two loops build the specified settings object |
| `Options.ImportedSettings` | options/options.js:196-213 | after an import the settings are the defaults overridden by exactly the file's known keys |
| `Options.OptionsController.constructor` | options/options.js:3-18 | no shown settings and no status before loading |
| `Options.OptionsController.LoadSettings` | options/options.js:46-56 | the shown settings become the loaded ones; storage is not written |
| `Options.OptionsController.SaveSettings` | options/options.js:58-102 | a range error or a failed write leaves storage and settings unchanged with an error status; otherwise the form's settings are written and shown |
| `Options.OptionsController.ResetToDefaults` | options/options.js:125-135 | once confirmed the settings are the defaults; storage is never written |
| `Options.OptionsController.ImportSettings` | options/options.js:196-223 | only the known keys are written and shown over the defaults; an unreadable or null file, or a failed write, changes only the status |

## Left out

- Chrome extension APIs (`chrome.tabs`, `chrome.scripting`, `chrome.runtime` messaging, `chrome.downloads`, notifications): their outcomes are parameters of the model, and storage is a map.
- The real DOM, `getComputedStyle`, `getBoundingClientRect`, `DOMParser` and `new URL`: the page is a synthetic element tree, and URL resolution and origin comparison are given as functions.
- `fetch` and the network, `setTimeout` delays, the navigation timeout and `waitForStableDOM`: time and I/O are not modelled; a route's outcome is given.
- Concurrency: `startRouteProcessing` is not awaited by `processRoutes`; the model runs it to completion before the reply.
- `JSON.stringify` used as an equality key (the route set, the variation deduplication) is modelled as value equality, i.e. assumed injective on these values.
- Floating point: `formatFileSize`, `calculateNormalizedBounds`, thumbnail sizes, `calculatePriorityScore` and the `toFixed` averages; the AI confidence is carried but not reasoned about; `calculateComplexity` is modelled scaled by 10 so that it stays on integers.
- Markdown document bodies and code templates (`generate*Markdown`, `generateCSS*`, `generateStyledComponents`, `generateSCSS`, `generateStoryFile`, `generateTestFile`, `generateReadme`, `generateReactComponentContent`, `generateAccessibilityProps`): file contents are text templates and are a parameter; the model states which files are produced and under which names.
- `createComponentLibrary` and `generatePackageJson`: packaging of already generated files.
- `processGoogleVisionResponse`, `segmentWithGoogleVision` and the AWS and custom segmentation back ends: remote services; their answer is a parameter.
- `processScreenshot`, `createThumbnail`, `saveScreenshot`, `optimizeForAI` and `blobToBase64`: image encoding through canvas and blobs.
- `lib/db.js`, `popup-test.js` and `types.d.ts` are not part of this model.
- The popup's and options page's DOM updates: only the controller state and the stored settings are modelled.
- Case mapping, trimming and character classes are ASCII only; a segment's `type` is assumed to be a string (a missing type would throw at `toLowerCase`).
- `RoundPercent`: computes the exact quotient rounded half up, while JavaScript rounds `k / n * 100` computed in doubles; where the exact value ends in .5 the double can fall just below it and JavaScript shows one less (23 of 40: JavaScript 57, the model 58). Bounds, monotonicity and the final 100 are unaffected, because rounded division and multiplication are monotone and `n / n * 100` is exactly 100.
- `Percentages`: the popup's percentages inherit the `RoundPercent` difference at exact halves.
- `Reports`: the capture progress percentages inherit the `RoundPercent` difference at exact halves.
- `Percents`: the background run's progress values inherit the `RoundPercent` difference at exact halves.
- `CaptureCount`: a zero viewport over a non-empty page makes `Math.ceil` give Infinity and the capture loop of `captureFullPage` never end (lib/screenshot-capture.js:204-206); the model excludes such a page report (`SaneDims`) instead of modelling a loop that does not terminate.

## Findings

| source | as written | input that shows it | evidently intended | confidence | as-written member | corrected member |
|---|---|---|---|---|---|---|
| background.js:560-576 | `findCommonElements` builds `new Set(instance.elements)`, but every section the content script reports carries `elements` as a `{direct, all}` count object, which is not iterable | a component group holding one section reported by the content script | the tag names every instance has in common | not executed | BackgroundWorker.AnalysedPageThrows | ComponentParts.CommonElementsSpec |
| lib/markdown-generator.js:705-712 | a repeated component name spreads `component.elements`, which components built from sections never carry | one route whose buttons section is reported twice | merge the instances of a repeated name | not executed | MarkdownComponents.RepeatedNameFails | MarkdownComponents.UniqueComponentsCount |
| lib/component-generator.js:135-215 | `generateReactComponent` reads the undeclared `_isTypeScript` (line 163), a ReferenceError | any component and any options | produce the component file set for the chosen options | not executed | ComponentGenerator.GenerateComponentAsWrittenFails | ComponentGenerator.GenerateComponentSpec |
| lib/ai-segmentation.js:314-318 | the cache key keeps the first 16 characters of the Base64 text, which depend only on the first 12 characters of the data URL | two PNG screenshots of different routes | a key that tells screenshots and routes apart | not executed | AiSegmentation.OtherRouteServedFromCache | AiSegmentation.CacheKeyInjective |
| lib/ai-segmentation.js:370 | `typeMapping[type]` on a plain object finds inherited members | a segment whose type is `constructor` | unknown types map to GenericComponent | not executed, lower: depends on what the AI service returns | AiSegmentation.ConstructorTypeIsInherited | AiSegmentation.InferComponentType |
