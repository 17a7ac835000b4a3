# scrappy — a verified model of the mirroring core

scrappy mirrors a website to disk. It starts from a root page and downloads the page. It then parses the page by content type. HTML and CSS are rewritten so that every link points at the local copy, and every discovered resource becomes a new download task. Tasks deeper than the maximum depth, and URLs already processed, are dropped. A coordinator ends the crawl once every downloader and every parser has reported itself idle while both queues are empty.

The repository holds two generations of the code, and both are modelled here:

* the current tree under `internal/` and `cmd/`. This is the stateful URL→file resolver `PathProcessor`, the content-type dispatch, the CSS and HTML rewriters, crawl admission, the coordinator's bookkeeping, and the run-mode check;
* the older tree under `src/`. This is a stateless resolver, two older dispatch tables, and the older CSS and HTML rewriters with four passes.

Modules:

| module | file | models |
|---|---|---|
| `Wrappers` | wrappers.dfy | `Option` and `Result`. The `Fatal` case of `Result` stands for a `logger.Fatalf` exit. |
| `Strings` | strings.dfy | `strings.HasPrefix`/`HasSuffix`/`Contains`, and the decimal printing done by `%d` |
| `Urls` | urls.dfy | the parts of `net/url` the core uses (`Parse`, `ResolveReference`, `String`), simplified |
| `FilePaths` | filepaths.dfy | `filepath.Ext`, `Dir`, `Base`, `Join`, simplified |
| `Dispatch` | dispatch.dfy | `internal/parsers/get-parser.go` |
| `LegacyDispatch` | legacy_dispatch.dfy | `src/parser/decider.go` (V1) and `src/parsers/decider.go` (V0) |
| `Paths` | path.dfy | `internal/parsers/path.go`, with lines 60 and 88 corrected (see Findings): the `PathProcessor` class with its two maps, and the pure `Handle` that specifies it |
| `PathFindings` | path_findings.dfy | two places where `path.go` as written differs from what it evidently intends |
| `LegacyPaths` | legacy_path.dfy | `src/parser/path.go` |
| `Css`, `LegacyCss` | css.dfy, legacy_css.dfy | the CSS token loops of `internal/parsers/css.go` and `src/parser/css.go` |
| `HtmlRules` | html_rules.dfy | the per-element rules shared by both HTML parsers, the generic walk over elements, and `concat` |
| `Html`, `LegacyHtml` | html.dfy, legacy_html.dfy | the extraction passes of `internal/parsers/html.go` (six selections in five methods) and `src/parser/html.go` (four) |
| `Crawl` | main_loop.dfy | `cmd/main-loop.go`: `Contains`, the root task, download admission, and the coordinator loop |
| `Environment` | environment.dfy | `internal/environment/environment.go` |

The imperative code keeps its imperative form:

* `PathProcessor` is a class whose methods reassign its `urlToFile`/`fileToUrl` map fields. Its collision loop is a `while` loop.
* The parsers are classes that rewrite an `array<Element>` in place.
* `concat` fills a preallocated array.
* Admission mutates a `processed` set field.
* The coordinator is a loop over its two lists.

Each method is proved equal to a pure function of its inputs and old state. The properties of the code are proved as lemmas about those functions.

## Model

| member | source | states |
|---|---|---|
| Strings.AtoiItoa | internal/parsers/path.go:91 | the decimal counter printed into a retry name reads back as the same number |
| Strings.ItoaInjective | internal/parsers/path.go:91 | distinct counters print differently |
| Urls.SchemeCaseIgnored | internal/parsers/path.go:46 | two links that differ only in the case of their scheme's letters parse to the same URL, so they share one key and one file |
| Urls.PrintsUnderSiteRoot | src/parser/html.go:196 | a URL with a scheme, a host and a non-empty path prints under scheme://host/, a relative path getting its "/" as url.URL.String adds it |
| Urls.Resolve | internal/parsers/path.go:51 | an absolute reference resolves to itself with its path made rooted; the resolved URL carries the reference's fragment unless the reference is empty |
| FilePaths.Ext | internal/parsers/path.go:80 | the extension is a suffix of the path, either empty or a dot with no later dot or slash |
| FilePaths.ExtOfExtended | internal/parsers/path.go:80-82 | appending an extension makes it the name's extension |
| FilePaths.HtmlExtension | internal/parsers/path.go:80-82 | a name given ".html" has extension ".html" |
| FilePaths.JoinKeepsExt | internal/parsers/path.go:84 | joining a non-trivial name under a prefix keeps the name's extension |
| FilePaths.BaseOfChild | src/parser/path.go:36 | the base of dir + "/" + name is the name, whatever the directory |
| Dispatch.HtmlWins | internal/parsers/get-parser.go:22-23 | a content type containing text/html selects HTML, whatever else it contains |
| Dispatch.CssIff | internal/parsers/get-parser.go:21-25 | CSS is selected iff the type contains text/css and not text/html |
| Dispatch.JavaScriptIff | internal/parsers/get-parser.go:26-27 | JavaScript is selected iff the type contains javascript and neither text type |
| Dispatch.PassthroughIff | internal/parsers/get-parser.go:28-33 | passthrough is selected iff no substring case matched and the type starts with image/, font/ or video/ |
| Dispatch.NoneIff | internal/parsers/get-parser.go:34-35 | no parser iff none of the six tests holds |
| Dispatch.MediaTypeMustLead | internal/parsers/get-parser.go:28-35 | the media-type tests are prefix tests: a type with a character before image/ etc. gets no parser |
| Dispatch.NewDownloadArg | internal/parsers/get-parser.go:52-72 | Ok iff the link parses, copying the URL, required flag, file name and depth unchanged; an unparsable link is fatal when required and an error otherwise |
| Dispatch.NewParseArg | internal/parsers/get-parser.go:74-84 | the record holds its three arguments unchanged |
| LegacyDispatch.V1AgreesWithNewest | src/parser/decider.go:16-35 | wherever the older table picks a parser, the newest picks the same; it picks none iff the newest does or the type is a video/ type with no substring match |
| LegacyDispatch.V1TextCases | src/parser/decider.go:21-27 | text/html wins; CSS iff text/css without text/html; JavaScript iff javascript and neither text type |
| LegacyDispatch.V0Cases | src/parsers/decider.go:16-31 | text/html wins; CSS iff text/css without text/html; image iff image/ leads; everything else, javascript and fonts included, gets none |
| LegacyDispatch.V0ImageIsLaterPassthrough | src/parsers/decider.go:26-27 | a type the oldest table sends to the image parser goes to passthrough in V1, unless it also mentions javascript |
| Paths.DerivedName | internal/parsers/path.go:64-82 | the derived relative name always has an extension |
| Paths.WithExtension | internal/parsers/path.go:80-82 | a name without an extension gets one (".html") |
| Paths.RootIsIndex | internal/parsers/path.go:64-79 | the root location's own path derives the name index.html |
| Paths.RetryShape | internal/parsers/path.go:89-92 | the k-th retry name (k ≥ 1) is the fixed head prefix/stem_ followed by the decimal k and the extension |
| Paths.CandidateInjective | internal/parsers/path.go:86-93 | distinct retry counters give distinct names |
| Paths.CandidateNonEmpty | internal/parsers/path.go:84-93 | every candidate name is non-empty |
| Paths.CandidatesBound | internal/parsers/path.go:86-93 | if retries 1..n are all taken then n ≤ the number of taken names, so the loop ends |
| Paths.FreeIndex | internal/parsers/path.go:86-93 | the counter the loop stops at names a free file and every smaller counter was taken |
| Paths.FirstFreeIsFirst | internal/parsers/path.go:84-93 | the chosen name is free and is the first free candidate in counter order |
| Paths.Disambiguate | internal/parsers/path.go:84-93 | with line 88 corrected, the collision loop returns the first free candidate and that name is not in fileToUrl |
| Paths.UnparsableLeavesMaps | internal/parsers/path.go:46-50 | an unparsable link fails and leaves both maps unchanged |
| Paths.ParsableSucceeds | internal/parsers/path.go:51-108 | a parsable link succeeds and its URL is the link resolved against the page |
| Paths.SeenUrlHits | internal/parsers/path.go:55-62 | a URL already recorded (without fragment) gets its stored name and changes no map |
| Paths.NewUrlGetsFreshName | internal/parsers/path.go:84-96 | a new URL gets a non-empty name no URL had, recorded in both directions and nowhere else |
| Paths.ReferenceShape | internal/parsers/path.go:98-101 | on a first visit the reference is the file name, plus "#" and the fragment when there is one; the lemma states the same shape for a hit, which holds for line 60 corrected only (see Findings) |
| Paths.InsertKeepsConsistent | internal/parsers/path.go:95-96 | recording a new URL under a free non-empty name keeps the maps mutual inverses and only adds |
| Paths.HandleKeepsConsistent | internal/parsers/path.go:95-96 | after every call urlToFile and fileToUrl are still mutual inverses |
| Paths.HandleGrows | internal/parsers/path.go:95-96 | every entry present before a call is present with the same value after it |
| Paths.DistinctUrlsDistinctFiles | internal/parsers/path.go:85-96 | in a consistent store distinct URLs never share a file |
| Paths.SameResourceSameFile | internal/parsers/path.go:52-62 | two links resolving to the same URL (fragments aside) get the same file, and the second call changes nothing |
| Paths.PathProcessor.constructor | internal/parsers/path.go:28-36 | a new resolver holds its location and two empty maps |
| Paths.PathProcessor.HandlePath | internal/parsers/path.go:38-109 | with lines 60 and 88 corrected, the result and the new maps are those of Handle on the old maps; the maps stay consistent and only grow |
| PathFindings.HitReferenceLosesHash | internal/parsers/path.go:55-61 | as written, a hit with a fragment yields a reference without the "#" that a first visit writes |
| PathFindings.RepeatedFragmentLinkDiffers | internal/parsers/path.go:55-61 | as written, the second link to a newly named resource with a fragment gets the same file but a different reference from the first, which wrote "#" (lines 98-101) |
| PathFindings.HitReferenceCorrected | internal/parsers/path.go:55-62 | corrected, asking twice for the same link gives the same reference |
| PathFindings.RetryAsWrittenAgrees | internal/parsers/path.go:86-93 | as written, the retry names equal the corrected candidates whenever the name has an extension and is not "." |
| PathFindings.CandidateKeepsExt | internal/parsers/path.go:88-92 | every candidate keeps the relative name's extension |
| PathFindings.DotNameFirstRetry | internal/parsers/path.go:84-92 | for the name "." under "styles" the first name is "styles" and the first retry "styles/._1" |
| PathFindings.ExtOfFirstRetry | internal/parsers/path.go:88 | the extension taken from "styles/._1" is "._1", longer than the name "." |
| PathFindings.DotNameSecondRetryPanics | internal/parsers/path.go:86-93 | as written, the second retry for "." slices out of range, while the corrected second candidate is "styles/_2." |
| PathFindings.DotNameCorrectedRetry | internal/parsers/path.go:89-92 | the corrected second candidate for "." is "styles/_2." |
| LegacyPaths.FromLocation | src/parser/path.go:27-35 | scheme and host are filled from the location when missing, "/" becomes "/index.html", and nothing else changes |
| LegacyPaths.LocalName | src/parser/path.go:36-39 | the local name always has an extension |
| LegacyPaths.HandlePath | src/parser/path.go:21-45 | succeeds iff the attribute parses, and a successful local path has an extension |
| LegacyPaths.FillsFromLocation | src/parser/path.go:27-32 | a missing scheme or host comes from the location; query and fragment are kept |
| LegacyPaths.RootIsIndexPage | src/parser/path.go:33-36 | the path "/" is fetched as /index.html and saved as prefix/index.html |
| LegacyPaths.SameNameCollides | src/parser/path.go:36 | two URLs whose paths share a base name map to the same file, whatever their directories |
| Css.TasksPerResolvedUrl | internal/parsers/css.go:36-52 | with no lexer error, one optional task per resolvable URL token, each at depth + 1; the resolver stays consistent and only grows |
| Css.TasksPerResolvedUrlStops | internal/parsers/css.go:19-57 | without an error token the loop never stops early |
| Css.OtherTokensCopied | internal/parsers/css.go:53-54 | tokens that are not URLs are copied verbatim and yield no tasks |
| Css.StoppedStaysStopped | internal/parsers/css.go:28-35 | once an error token has ended the loop, later tokens change nothing |
| Css.LexErrorReturnsOriginal | internal/parsers/css.go:33-35 | a lexer error other than end of input returns the original content and no tasks |
| Css.RenderSnoc | internal/parsers/css.go:25-56 | reading the stream from the front and adding one token at the end agree: the new token's piece is taken with the maps the earlier tokens left and appended |
| Css.LoopRenders | internal/parsers/css.go:25-56 | on a stream without error tokens the output is each token's piece in token order (a resolved URL token becomes url("../" + reference), any other token its own text) and the tasks are those of the resolved URL tokens in token order, each with the URL and local path the resolver gave that token, the maps passed from one resolution to the next |
| Css.EndOfInputKeepsOutput | internal/parsers/css.go:29-32 | end of input returns the output, tasks and resolver built so far |
| Css.CssParser.constructor | internal/parsers/css.go:13-17 | the parser holds the shared resolver |
| Css.CssParser.RewriteUrl | internal/parsers/css.go:36-52 | a URL token is resolved from its inner text; on success url("../" + reference) is written and a depth + 1 task added, and on failure the token is copied |
| Css.CssParser.Process | internal/parsers/css.go:19-57 | output, tasks and new resolver maps are those of the token loop on the old maps, and the resolver stays consistent |
| LegacyCss.LegacyTasksPerResolvedUrl | src/parser/css.go:35-51 | with no lexer error, one optional task per resolvable URL token, each at depth + 1 |
| LegacyCss.LegacyOtherTokensCopied | src/parser/css.go:52-53 | tokens that are not URLs are copied verbatim and yield no tasks |
| LegacyCss.LegacyRenderSnoc | src/parser/css.go:24-55 | reading the stream from the front and adding one token at the end agree: the new token's piece is appended |
| LegacyCss.LegacyLoopRenders | src/parser/css.go:24-55 | on a stream without error tokens the output is each token's piece in token order (a URL token the resolver accepts becomes url("../" + local path), any other token its own text) and the tasks are those of the accepted URL tokens in token order, each with the URL and local path the resolver gave that token |
| LegacyCss.LegacyStoppedStaysStopped | src/parser/css.go:27-34 | once an error token has ended the loop, later tokens change nothing |
| LegacyCss.LegacyLexErrorReturnsOriginal | src/parser/css.go:32-34 | a lexer error other than end of input returns the original content and no tasks |
| LegacyCss.LegacyCssParser.RewriteUrl | src/parser/css.go:35-51 | on success url("../" + local path) is written and a depth + 1 task added; on failure the token is copied |
| LegacyCss.LegacyCssParser.Process | src/parser/css.go:18-56 | output and tasks are those of the token loop |
| HtmlRules.ApplyRewrites | internal/parsers/html.go:193-219 | only the pass's attribute can change. A failed resolution, or an anchor outside the required prefix, leaves the element alone. Otherwise the attribute becomes the local path. |
| HtmlRules.ApplyTask | internal/parsers/html.go:206-218 | a task is emitted iff the element was rewritten and its printed URL parses again. It is optional and saved under the local path. |
| HtmlRules.ApplyTaskDepth | internal/parsers/html.go:206-212 | anchor tasks are at depth + 1 and every other pass's tasks at the page's depth |
| HtmlRules.FlattenLength | internal/parsers/html.go:63-68 | the concatenation's length is the sum of the input lengths |
| HtmlRules.FlattenKeepsOrder | internal/parsers/html.go:69-73 | element j of slice k sits at offset (lengths before k) + j |
| HtmlRules.FlattenFive | internal/parsers/html.go:54-60 | concatenating the five task lists is appending them left to right |
| HtmlRules.FlattenFour | src/parser/html.go:50-55 | concatenating the four task lists is appending them left to right |
| HtmlRules.CopyAt | internal/parsers/html.go:71 | copy writes the whole slice at the offset, returns its length, and keeps what was before it |
| HtmlRules.Concat | internal/parsers/html.go:63-74 | the preallocated array ends up holding the inputs concatenated in order |
| Html.PagePasses | internal/parsers/html.go:36-40 | the page is styles, images, anchors, scripts, posters, then sources, each pass on the previous one's document and resolver; the tasks are appended in that order |
| Html.InlineResourcesSkipped | internal/parsers/html.go:119-122 | a data: image, or a script, poster or source with an empty link, is left as it is, with no task and no change to the resolver |
| Html.AnchorOutsidePrefixKept | internal/parsers/html.go:201-204 | an anchor resolving outside the required prefix keeps its href and yields no task |
| Html.RewrittenEvenWithoutTask | internal/parsers/html.go:99-103 | a resolved link is rewritten to its local path even when the download task cannot be built |
| Html.VisitRules | internal/parsers/html.go:83-105 | a visit changes at most the pass's attribute, touches nothing it skips, keeps the resolver consistent and growing, and emits tasks at the pass's depth |
| Html.PassElementAt | internal/parsers/html.go:83-105 | element j after a pass is the visit of element j with the resolver as the first j visits left it |
| Html.PassElements | internal/parsers/html.go:83-105 | a pass changes only its attribute and leaves skipped and unselected elements as they were |
| Html.PassResolver | internal/parsers/html.go:86 | a whole pass keeps the shared resolver consistent and only grows it |
| Html.PassTasks | internal/parsers/html.go:76-108 | a pass yields at most one task per element, all at the pass's depth |
| Html.PassesRules | internal/parsers/html.go:24-61 | after all passes, tags are unchanged, every task is optional at depth or depth + 1, and the resolver is consistent and grown; without anchors every task is at depth |
| Html.HtmlParser.constructor | internal/parsers/html.go:16-22 | the parser holds the shared resolver and the required prefix |
| Html.HtmlParser.VisitElement | internal/parsers/html.go:83-105 | visiting one element returns the rules' result and moves the resolver to the rules' new store |
| Html.HtmlParser.VisitAt | internal/parsers/html.go:83-105 | the element at i is replaced in place by its visit and nothing else in the array changes |
| Html.HtmlParser.ProcessPass | internal/parsers/html.go:83-106 | the array is rewritten in place to the pass's document, with the pass's tasks and resolver |
| Html.HtmlParser.ProcessCss | internal/parsers/html.go:76-108 | the stylesheet pass on the document in place |
| Html.HtmlParser.ProcessImages | internal/parsers/html.go:110-146 | the image pass on the document in place |
| Html.HtmlParser.ProcessLinks | internal/parsers/html.go:186-222 | the anchor pass on the document in place |
| Html.HtmlParser.ProcessScripts | internal/parsers/html.go:148-184 | the script pass on the document in place |
| Html.HtmlParser.ProcessVideo | internal/parsers/html.go:224-296 | the poster pass then the source pass, their tasks in that order |
| Html.HtmlParser.Process | internal/parsers/html.go:24-61 | an unparsable page gives "Could not parse html" and an unchanged document; otherwise the five methods' passes in source order, with their tasks concatenated |
| LegacyHtml.LegacyVisitRules | src/parser/html.go:78-100 | a visit changes at most the pass's attribute, leaves skipped and unselected elements alone, and emits tasks at the pass's depth |
| LegacyHtml.LegacyRewritesParsable | src/parser/html.go:81-94 | a selected element whose link parses gets the local name, which always has an extension; an anchor only inside the prefix |
| LegacyHtml.LegacyRelativeAnchorFollowed | src/parser/html.go:190-212 | a relative anchor on a page with a scheme and a host, under a required prefix that covers the site root, gets the local name as its href and a task one level deeper for its printed URL exactly when that URL parses |
| LegacyHtml.LegacyPassRules | src/parser/html.go:71-103 | a pass yields at most one task per element, at the pass's depth, and keeps every tag |
| LegacyHtml.LegacyPageRules | src/parser/html.go:33-55 | the four passes keep the document's size and tags and yield at most four tasks per element, each optional at depth or depth + 1 |
| LegacyHtml.LegacyHtmlParser.constructor | src/parser/html.go:16-22 | the parser holds the required prefix |
| LegacyHtml.LegacyHtmlParser.VisitElement | src/parser/html.go:78-100 | visiting one element returns the rules' result |
| LegacyHtml.LegacyHtmlParser.ProcessPass | src/parser/html.go:71-103 | the array is rewritten in place to the pass's document, with the pass's tasks |
| LegacyHtml.LegacyHtmlParser.Process | src/parser/html.go:24-56 | an unparsable page gives "Could not parse html" and an unchanged document; otherwise styles, images, anchors, scripts in that order |
| Crawl.Contains | cmd/main-loop.go:21-28 | true iff some element equals the one sought |
| Crawl.RootTaskRules | cmd/main-loop.go:40-63 | the root task exists iff prefix and root both parse, and otherwise the run is fatal. The root task is required, at depth 0, with the root's URL. The resolver then maps exactly the root to its file. |
| Crawl.RootNameIsFirstCandidate | cmd/main-loop.go:50-57 | the root's file is the first candidate under "." for its derived name |
| Crawl.AdmitStepRules | cmd/main-loop.go:138-149 | admitted iff within the depth limit and not yet processed. Admission adds the URL to the set; a rejection, including any task deeper than the limit, leaves the set unchanged. |
| Crawl.AdmittedOnce | cmd/main-loop.go:138-149 | over any task sequence, admitted tasks are within depth, new, and pairwise distinct; the set grows by exactly their URLs |
| Crawl.Admission.constructor | cmd/main-loop.go:46-47 | admission starts with an empty processed set |
| Crawl.Admission.Admit | cmd/main-loop.go:138-149 | the decision and the new processed set are one admission step on the old set |
| Crawl.ReceiveRules | cmd/main-loop.go:78-104 | a round keeps both lists duplicate-free and below the concurrency counts. A tick with work queued clears both lists. A list grows only when both queues are empty. |
| Crawl.CoordinatorEndsWhenAllIdle | cmd/main-loop.go:73-108 | the lists never hold duplicates, and when the loop finishes every downloader id and every parser id below its count is listed and some observed round had both queues empty |
| Crawl.Coordinator | cmd/main-loop.go:70-109 | the loop's outcome and final lists are those of the round-by-round coordination from empty lists |
| Environment.ValidateEnvironment | internal/environment/environment.go:10-15 | no error iff the mode is "development" or "production"; otherwise the error "Invalid environment" |
| Environment.CaseMatters | internal/environment/environment.go:11-13 | the comparison is exact: "Production" and "Development" are rejected |

## Left out

- Concurrency in `cmd/main-loop.go`: the goroutines, channels, `select`, timers, signal contexts, `WaitGroup` and the queue library are not modelled. The coordinator is given the sequence of rounds it observes: per round, whether each queue is empty and which message arrived. Interleavings and liveness are not modelled.
- Crawl.Coordinator: checks the queue state once per round. The source reads it again in each branch; between two reads another goroutine may change it.
- `saveFile` (cmd/main-loop.go:234-261) is file-system I/O. `internal/download/download.go` is the HTTP client. Neither is part of this model.
- The goquery parse, render and flush and the `noscript` replacement (internal/parsers/html.go:28-34, 42-51) are not modelled. A page is an array of element records (tag and attribute map), and `SetAttr` is an array update. Whether the page parsed is an input to `Process`.
- The tdewolff CSS lexer is replaced by a token sequence given as input: URL tokens, other tokens, and an error token that is either end of input or a lexer error. The model assumes every URL token the lexer returns is at least five characters long, as in `url()`; both CSS loops slice the token's text (internal/parsers/css.go:38, src/parser/css.go:37), and a shorter token, such as an unclosed `url(` at end of input, would make that slice go out of range. Such a token is not modelled.
- `net/url` and `path/filepath` are simplified. `Urls.Parse` accepts any string without control characters and with a well-formed scheme, and lower-cases the scheme. `Urls.ToString` writes "//" only when there is a host; Go's `URL.String` also writes it for a URL with a scheme, no host and a non-empty path unless the URL was parsed without "//" (its `OmitHost` flag, which the model does not carry). A key printed from such a URL differs from Go's. There is no percent-escaping, no user info, no opaque URLs and no dot-segment removal in `Resolve`. `FilePaths.Join` only drops leading slashes of the name and a "" or "." element. It does not clean ".." or duplicate slashes.
- internal/parsers/html.go:298-304 does not compile against internal/parsers/path.go:38-42. It builds a fresh `PathProcessor` by value and calls a two-argument `HandlePath`. The model's HTML passes call path.go's `HandlePath(link, location, localPrefix)` on the one resolver shared by the whole crawl.
- cmd/main-loop.go:196 passes four arguments to the three-parameter `GetParser`. The model dispatches on the content type alone.
- The processed set is keyed by the full printed URL, fragment included, as in cmd/main-loop.go:143-148.
- src/parsers/html.go is not part of this model: its file names come from `uuid.New()` and its URLs from `url.JoinPath`.
- `uint64` depths are `nat`; `depth + 1` is assumed not to wrap at 2^64.
- The bodies of the JavaScript, passthrough and image parsers are not among the source files. Dispatch returns a parser tag only.
- The legacy `NewDownloadArg` of src/parser/decider.go:44-64 and src/parsers/decider.go:40-60 is the same code as internal/parsers/get-parser.go:52-72 and is modelled once, by `Dispatch.NewDownloadArg`.
- `IgnorePatterns`, the configuration and CLI readers, the logger, and the entry points are not part of this model. Log messages are dropped.
- Paths.PathProcessor.HandlePath: implements internal/parsers/path.go with line 60 corrected (a hit writes name + "#" + fragment, as a first visit does) and line 88 corrected (each retry cuts the relative name's own extension). The as-written behaviour of both lines is stated in `PathFindings`. The CSS and HTML rewrites of the current tree call this resolver and so inherit both corrections.
- Paths.Disambiguate: models the collision loop of internal/parsers/path.go:84-93 with line 88 corrected; as written, the loop takes the extension of the previously joined name and can slice out of range (see Findings).
- Paths.ReferenceShape: on a hit the shape it states is that of the corrected line 60; as written a hit writes the name followed directly by the fragment (`PathFindings.HandleAsWritten`).
- LegacyPaths.HandlePath: the stateless resolver is a function, so "equal inputs give equal outputs" holds by construction and is not stated separately.

## Findings

| source | as written | input that shows it | evidently intended | confidence | as-written member | corrected member |
|---|---|---|---|---|---|---|
| internal/parsers/path.go:60 | a URL already in `urlToFile` gets the reference `existingPath + fragment`, with no "#" | a link `a.html#top` seen for the second time gives `a.html` + `top` = `a.htmltop`, while the first visit wrote `a.html#top` | the same "#"-joined reference as a first visit (lines 98-101) | not executed | PathFindings.RepeatedFragmentLinkDiffers | PathFindings.HitReferenceCorrected |
| internal/parsers/path.go:88-91 | each retry takes the extension of the previously *joined* file name, then cuts that many characters off the relative name | relative name "." under prefix "styles" when "styles" and "styles/._1" are taken: the extension "._1" is longer than ".", so the slice at line 91 is out of range and the program panics | cut the relative name's own extension and increase the counter until a free name is found | not executed | PathFindings.DotNameSecondRetryPanics | Paths.Disambiguate |
