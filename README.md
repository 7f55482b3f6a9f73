# ghost-page-buster, modelled in Dafny

ghost-page-buster is a small Go crawler. It fetches a page, collects the
`href` of every anchor and turns each href into a canonical URL key. It then
probes each of those subpages for liveness: 200 is active, 404 and 410 are
"ghost" pages, and everything else is unknown. It prints one summary line
per page and recurses into the subpages up to a depth. A single coordinator
goroutine decides which page URLs are visited, so no URL string is inspected twice.

This project models the sequential logic of that crawler and proves what it
does:

- `text.dfy` (module `Text`): the parts of Go's `strings` package the crawler
  uses (`HasPrefix`, `TrimPrefix`, `TrimSuffix`, `TrimRight`, `LastIndex`,
  `Contains`). Strings are sequences of characters.
- `url.dfy` (module `Urls`): `normalizeURL` as four field rewrites on an
  abstract URL record. Go's `net/url` parser and printer are a `UrlLibrary`
  value that callers pass in. `URL.Hostname` follows Go's `splitHostPort`.
- `href.dfy` (module `Href`): the rule chain of `handleHref`, specified by the
  function `Resolve` and implemented by the method `HandleHref`, which
  inserts into a `UrlSet` passed by reference. The `../` loop is the method
  `ClimbLoop`. `CollectKeys` and `FindSubpages` fold a page's hrefs into its
  subpage set.
- `classify.dfy` (module `Liveness`): `inspectSubpage`'s status decision and
  the per-page counters of `inspectPage`. The counters are computed one
  subpage at a time by `Tally`.
- `visited.dfy` (module `Visited`): `visitCoordinator` as a class with a
  `visited` set and an `Admit` method. `Coordinate` runs it over a request
  sequence, and `Replies` is the reply sequence it must produce.
- `inspect.dfy` (module `Inspect`): `inspectPage`'s depth guard, admission
  request, subpage collection and summary arithmetic.

The model follows the code, including where it departs from reference
resolution as section 5.2 of RFC 3986 defines it:

- **Parent-relative truncation.** `fullURL[:idx-1]` drops the last '/'
  together with the character before it, and the `../` branch appends the
  rest of the href with no separator. On page `https://example.com/dir/page`,
  href `../other` resolves to `https://example.com/diother`
  (`Href.ParentExample`), where RFC 3986 gives `https://example.com/other`.
- **The slice at index 0.** When the only remaining '/' is at index 0,
  `idx-1` is -1 and the Go slice would panic. This is the `Panic`
  resolution (`Href.PanicOnlyWhenTruncating`). It cannot happen on a page
  URL that starts with anything but '/' (`Href.NoPanicWithoutLeadingSlash`).
  handleHref only runs on the page URL after a successful fetch, and that is
  the printed form of a parsed URL, which starts with its non-empty scheme.
  `FindSubpages` returns None and `InspectPage` returns `Crashed` only when
  the anchors are given for a page URL that starts with '/'. No fetch in the
  program produces that.
- **Normalisation is not idempotent.** Each call removes only one leading
  `www.` from the host: `www.www.a` becomes `www.a` and then `a`
  (`Urls.HostStepNotIdempotent`, `Urls.NormalizeFieldsFixedPoint`).
- **Root-relative links.** The root-relative branch always uses `https` and
  the page's host name without its port (`Href.RootRelative`,
  `Urls.HostnameDropsPort`).
- **Admission uses the raw URL.** `inspectPage` sends the coordinator the
  `pageURL` it was given, not its canonical form, and the coordinator compares
  exact strings (`Visited.NoNormalization`). So one page can be admitted
  under two spellings.

## Model

| member | source | states |
|---|---|---|
| `Text.HasPrefix` | src/inspect.go:130-163 | strings.HasPrefix: the first characters of the string are the prefix |
| `Text.TrimPrefix` | src/inspect.go:157 | a present prefix is removed once and the rest is kept; otherwise the string is unchanged |
| `Text.TrimSuffix` | src/inspect.go:149 | a present suffix is removed once and the rest is kept; otherwise the string is unchanged |
| `Text.Contains` | src/inspect.go:80 | strings.Contains: the substring is a prefix of the string or of one of its tails |
| `Text.TrimRight` | src/inspect.go:191 | the result is a prefix of the input that does not end in the character, and every removed character is that character |
| `Text.LastIndex` | src/inspect.go:154 | -1 exactly when the character is absent; otherwise an index holding the character with no occurrence after it |
| `Text.ContainsAt` | src/inspect.go:80 | the substring test holds exactly when the substring occurs at some position |
| `Urls.NormalizeFields` | src/inspect.go:184-192 | the record is canonical; http or empty scheme becomes https and any other scheme is kept; exactly one leading "www." leaves the host; the path loses exactly its trailing slashes; the query is kept |
| `Urls.NormalizeFieldsFixedPoint` | src/inspect.go:190 | a second rewrite changes nothing exactly when the rewritten host does not start with "www." again |
| `Urls.HostStepNotIdempotent` | src/inspect.go:190 | "www.www.a" becomes "www.a" after one rewrite and "a" after two |
| `Urls.SchemeHostAndSlashAgree` | src/inspect.go:184-191 | "http://example.com/a/" and "https://www.example.com/a" rewrite to the same record, https://example.com/a |
| `Urls.Normalize` | src/inspect.go:178-195 | an unparsable string is returned unchanged; otherwise the result is the printed form of a canonical record that keeps the parsed query |
| `Urls.StripPort` | src/inspect.go:145 | the host name is a prefix of the host; a host without ':' and a host ending in ']' are unchanged |
| `Urls.StripBrackets` | src/inspect.go:145 | a bracketed host loses exactly its two brackets; any other host is unchanged |
| `Urls.Hostname` | src/inspect.go:145 | never longer than the host; equal to it when the host has no port and no brackets; a bracketed host without a port loses exactly its brackets |
| `Urls.StripPortDigits` | src/inspect.go:145 | a ":digits" suffix after any name, including a bracketed IPv6 literal, is removed |
| `Urls.HostnameDropsPort` | src/inspect.go:145 | the host name of "name:digits" is the name with its IPv6 brackets removed: the port never survives |
| `Urls.HostnameDropsIPv6Port` | src/inspect.go:145 | a bracketed address with a port, such as "[::1]:8080", has the bare address ("::1") as its host name |
| `Href.Added` | src/inspect.go:137 | at most one key is added, and a key is added exactly when the resolution is that key |
| `Href.DropLastSegment` | src/inspect.go:154-156 | panics exactly when the only '/' is at index 0; without '/' nothing changes; otherwise the last '/' and the character before it are cut off |
| `Href.ClimbParents` | src/inspect.go:152-159 | the `../` loop: while the path starts with "../", truncate once and strip one "../"; then append the rest; None as soon as a truncation panics |
| `Href.StripUps` | src/inspect.go:152-158 | the loop leaves a path with no leading "../", shorter by three characters per leading "../" |
| `Href.ClimbParentsDecomposes` | src/inspect.go:148-159 | the loop truncates once per leading "../" and then appends the path with every "../" removed, without a separator |
| `Href.CurrentDir` | src/inspect.go:167-172 | the current-directory branch: the trimmed page URL truncated once, then "/" and the href without a leading '/'; None when the truncation panics |
| `Href.Resolve` | src/inspect.go:129-176 | handleHref's rules in the code's order: ignored schemes, "http", '/', "../", '#', then the current directory; the resolution is nothing, one normalised key, or a panic |
| `Href.IgnoredExactly` | src/inspect.go:130-165 | nothing is added exactly for mailto:, sms:, tel:, javascript: and '#' hrefs, and for root-relative hrefs on an unparsable page URL |
| `Href.PanicOnlyWhenTruncating` | src/inspect.go:148-170 | only the parent-relative and current-directory branches can panic, and the latter only when the trimmed page URL's sole '/' is its first character |
| `Href.ClimbNeverPanics` | src/inspect.go:152-158 | on a URL that does not start with '/', the `../` loop never reaches the panicking slice |
| `Href.NoPanicWithoutLeadingSlash` | src/inspect.go:148-174 | no href panics on a page URL that does not start with '/' |
| `Href.NoPanicOnPage` | src/inspect.go:118-123 | hence no href of such a page panics |
| `Href.AbsoluteFirst` | src/inspect.go:136-137 | any href starting with "http", even "httpfoo", yields the normalised href itself |
| `Href.RootRelative` | src/inspect.go:139-146 | a root-relative href yields the normalisation of https, the page's host name and the href, or nothing when the page URL does not parse |
| `Href.ParentRelative` | src/inspect.go:148-161 | a parent-relative href yields the normalised result of the `../` loop, and panics exactly when the loop does |
| `Href.CurrentDirVerbatim` | src/inspect.go:166-174 | a current-directory href yields the normalisation of the once-truncated page URL, "/" and the href unchanged |
| `Href.ExamplePageTruncates` | src/inspect.go:154-155 | one truncation of "https://host/dir/page" gives "https://host/di" |
| `Href.SingleUp` | src/inspect.go:152-159 | one leading "../" truncates once and appends the rest with no separator |
| `Href.ParentExample` | src/inspect.go:148-161 | page "https://host/dir/page" with href "../other" gives the key of "https://host/diother" |
| `Href.CurrentDirExample` | src/inspect.go:166-174 | page "https://host/dir/page" with href "x" gives the key of "https://host/di/x" |
| `Href.UrlSet.constructor` | src/inspect.go:101 | the subpage set starts empty |
| `Href.UrlSet.Insert` | src/inspect.go:137 | the key joins the set and nothing else changes |
| `Href.ClimbLoop` | src/inspect.go:149-159 | the loop computes the `../` resolution of the page URL, None where the slice would panic |
| `Href.HandleHref` | src/inspect.go:129-176 | the shared set gains exactly the key of the href's resolution and keeps every earlier key; it reports a panic exactly when the resolution is one |
| `Href.KeysOf` | src/inspect.go:118-123 | the subpage set after the hrefs, one after the other: the earlier keys plus the key of the last one |
| `Href.KeysOfStep` | src/inspect.go:118-123 | one more href adds its key, and a panic when it panics |
| `Href.KeysOfMembers` | src/inspect.go:118-123 | a key is in the subpage set exactly when some href resolves to it |
| `Href.KeysOfBound` | src/inspect.go:104-124 | a page has no more subpages than hrefs |
| `Href.RepeatAddsNothing` | src/inspect.go:118-123 | a resolution that already occurred adds no key |
| `Href.RepeatedHrefAddsNothing` | src/inspect.go:118-123 | an href that already occurred on the page adds no subpage |
| `Href.CollectKeys` | src/inspect.go:104-124 | None exactly when some href panics, otherwise the keys of all hrefs |
| `Href.FindSubpages` | src/inspect.go:90-127 | a failed fetch gives the empty result; otherwise the normalised page URL and the keys of all its hrefs, or None when an href panics |
| `Liveness.InspectSubpage` | src/inspect.go:61-88 | active exactly for 200; inactive exactly for 404 and 410. Each message is tied to its case: the error message exactly for a transport error, the reachable mark exactly for 200, the ghost mark exactly for the inactive statuses, and the Twitter or generic unverifiable text exactly for the other statuses, depending on whether the URL contains "twitter.com" |
| `Liveness.LinksWithAdd` | src/inspect.go:29-38 | one more subpage raises its own class count by one and no other |
| `Liveness.LinksPartition` | src/inspect.go:65-86 | every subpage sends at most one signal, so the three class sizes add up to the number of subpages |
| `Liveness.OneOfEachClass` | src/inspect.go:73-85 | three subpages answering 200, 404 and a transport error fall into one class each |
| `Liveness.Tally` | src/inspect.go:27-58 | the inactive and unknown counts are the sizes of their classes, and the reported active count is the number of active subpages, so it is never negative |
| `Visited.VisitCoordinator.constructor` | src/visited.go:9 | the visited set starts empty |
| `Visited.VisitCoordinator.Admit` | src/visited.go:11-15 | the reply is true exactly when the URL was not visited; afterwards it is; a rejected request changes nothing; the set only grows |
| `Visited.ElemsStep` | src/visited.go:13 | one more request adds its URL to the requested set |
| `Visited.Replies` | src/visited.go:10-16 | one reply per request; the reply to the last request is true exactly when its URL is neither visited nor among the earlier requests |
| `Visited.RepliesStep` | src/visited.go:10-15 | one more request appends its reply to the earlier ones |
| `Visited.Coordinate` | src/visited.go:8-16 | the replies are those of `Replies`, and from the empty set the visited set ends as exactly the requested URLs |
| `Visited.FirstRequestAdmitted` | src/visited.go:11-15 | a request is admitted exactly when its URL was neither visited nor requested earlier |
| `Visited.AdmittedAtMostOnce` | src/visited.go:11-14 | two requests for the same URL are never both admitted |
| `Visited.AdmittedAtFirstRequest` | src/visited.go:11-15 | from the empty set, every requested URL is admitted at its first request |
| `Visited.AdmissionsCount` | src/visited.go:8-16 | the number of admissions is the number of distinct URLs not already visited |
| `Visited.NoNormalization` | src/visited.go:11 | two different spellings of a URL are both admitted |
| `Inspect.InspectPage` | src/inspect.go:14-58 | the outcome is DepthExhausted exactly when depth <= 0, with nothing requested. It is AlreadyVisited exactly when the raw page URL was visited, with nothing fetched. It is Inspected exactly when the page is admitted and none of its hrefs panic; the raw URL is recorded whenever depth > 0. A failed fetch gives an empty page. A page URL that normalises to something not starting with '/' never crashes. The summary counts the subpages, with a non-negative active count |

## Left out

- HTTP fetching and its ten-second timeouts (src/inspect.go:62-64, src/inspect.go:92-94) are foreign I/O. A page's fetch is an `Option<seq<string>>` of anchor hrefs, and a subpage's probe is a function `string -> Response`.
- HTML tokenising (src/inspect.go:102-124) is foreign code. Its output is the sequence of the first `href` of each anchor tag, in document order.
- Go's `net/url` parser and printer are foreign code. They are the two abstract functions of `UrlLibrary`, so nothing is proved about parse/print round trips.
- Go's printer is not modelled, so the model cannot show that a normalised URL starts with its scheme. The no-crash clause of `Inspect.InspectPage` is stated for a normalised page URL that does not start with '/', which is what the printer produces.
- Urls.Normalize: states only that the result is the printed form of a canonical record. Whole-string idempotence depends on the printer, which is not visible.
- Goroutines, the `sync.WaitGroup`, the unbuffered signal channels and the aggregator goroutine of `inspectPage` (src/inspect.go:24-51) are concurrency. The aggregator keeps reading the channels after they are closed at src/inspect.go:50-51, so its counters race with the final print. The model counts sequentially.
- Inspect.InspectPage: states the counts the aggregator is meant to reach, not the raced values the concurrent code can print.
- The recursive `inspectPage` call on each subpage (src/inspect.go:45) is left out. Its point is the concurrent fan-out, and each call is an independent `InspectPage` with `depth - 1` against the same coordinator.
- The request and reply channels of `visitCoordinator` (src/visited.go:10, src/visited.go:15) are a method call and its result.
- Console output and the emoji texts are left out. Only the choice of message variant is modelled.
- src/main.go's `ghostbust` is not part of this model. It reads stdin and prints timings, and it calls `inspectPage` with one argument against a three-parameter signature, so there is nothing consistent to model.
- Strings are sequences of characters, not UTF-8 bytes. For ASCII URLs the indices agree. For non-ASCII input, Go's `[:idx-1]` can cut inside a multi-byte character, and the model cannot show that.
