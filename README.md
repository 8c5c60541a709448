# Handler registry and request-URL matching of msw

This project models two parts of the core of msw, an HTTP-mocking library, in Dafny and proves properties of them.

**The handler registry (`SetupApi`, src/core/SetupApi.ts).** A registry keeps two lists:

- `initialHandlers`: a snapshot of the handlers it was built with;
- `currentHandlers`: the working list. Index 0 has the highest precedence.

It has these operations:

- The constructor rejects an argument that is itself an array, a caller who forgot to spread a list.
- `use` prepends runtime handlers.
- `restoreHandlers` clears the `isUsed` flag of every handler that has an `isUsed` property (the request handlers).
- `resetHandlers` goes back to the snapshot, or to a new list.
- `listHandlers` returns the working list.

How the model represents this:

- Handlers are objects (`SetupApi.Handler`) with a mutable `isUsed` field. The two lists share them by reference, so a flag cleared through one list is cleared in the other.
- The registry is a class (`SetupApi.SetupApi`) whose two `seq` fields the methods reassign.
- The source constructor throws on bad input. Here that is the factory `SetupApi.SetupApi.Create`, which returns a `Result`.
- `use` reports its configuration error as an `Outcome`.
- Three client methods walk through a session. They have no contracts of their own; their assertions are checked against the method contracts:
  - `SetupApi.UseSession`: `[a, b]`, then `use(c)` gives `[c, a, b]`, and a misused `use` changes nothing;
  - `SetupApi.RestoreSession`: a flag cleared through the working list is also cleared in the snapshot;
  - `SetupApi.ResetSession`: `resetHandlers()` gives `[a, b]` and keeps flags; `resetHandlers(d)` gives `[d]`.

**Request-URL matching (`matchRequestUrl`, behaviour fixed by src/core/utils/matching/matchRequestUrl.test.ts).** `Matching.MatchRequestUrl(url, pattern)` returns `Match(matches, params)`.

The URL is already split into protocol, hostname, port and pathname segments (`Urls.Url`). A pattern is one of:

- an exact URL;
- the pattern `*`;
- a template: an origin, which is either a leading `*` or a protocol, hostname parts and port, followed by pathname tokens. The tokens are literal segments, segments made of text and `:name` groups (`:first.:second`), `:name?`, `:name+` and `*`.

How a template is matched:

- Alternatives are tried in the order a backtracking regular-expression engine tries them, as in the WHATWG URL Pattern standard:
  - `*` and `:name+` take as many segments as they can;
  - `:name?` prefers to be present;
  - a group inside a segment takes as few characters as it can.
- A group never spans a `.` in the hostname or a `/` in the pathname.
- Unnamed groups are keyed `0`, `1`, … in declaration order across components. A leading `*` takes key `0`.
- Captured values are percent-decoded.
- Parameters are assembled in two steps. Within one component a repeated name keeps its last value. Across components the values of a repeated name are collected into an array.

For properties that hold for every input, the model supplies reference definitions:

- `PartsAccept`, `PathAccepts` and `OriginAccepts` say which strings a pattern describes;
- `RenderParts` and `RenderPath` rebuild the input from the captures;
- `PartKeys`, `PathKeys` and `DeclaredKeys` give the declared keys.

The matcher is proved sound and complete against these definitions, and its preference order is proved.

Each case of the test file is a lemma in `MatchingCases`. Most cases come with a generic lemma proved for every URL of the case's shape and a concrete instance with the test's own URL.

Files:

- `Wrappers.dfy`: Option, Result and Outcome.
- `SetupApi.dfy`: the registry.
- `PercentEncoding.dfy`: `encodeURIComponent` and decoding, for ASCII.
- `Urls.dfy`: URLs and pathnames.
- `Matching.dfy`: the matcher.
- `MatchingParts.dfy`, `MatchingPath.dfy`, `MatchingParams.dfy` and `MatchingUrl.dfy`: its properties.
- `MatchingCases.dfy`: the test cases.

The matcher's implementation file, src/core/utils/matching/matchRequestUrl.ts, is not part of this model. Its semantics come from the test file and the WHATWG URL Pattern standard.

`resetHandlers()` with no arguments copies the snapshot shallowly (src/core/SetupApi.ts:77): the working list gets the snapshot's handler objects back, and no handler's `isUsed` flag changes. `SetupApi.SetupApi.ResetHandlers` states this, and `SetupApi.ResetSession` shows a flag surviving the reset.

## Model

| member | source | states |
|---|---|---|
| SetupApi.ValidateHandlers | src/core/SetupApi.ts:47-50 | the guard holds exactly when no argument is an array |
| SetupApi.SetupApi.Init | src/core/SetupApi.ts:32-33 | the snapshot and the working list both hold the given handlers in order |
| SetupApi.SetupApi.Create | src/core/SetupApi.ts:22-33 | fails with the configuration error exactly when some argument is an array; otherwise a fresh registry whose snapshot and working list equal the arguments in order |
| SetupApi.SetupApi.Use | src/core/SetupApi.ts:52-63 | fails exactly when some argument is an array, and then leaves the working list as it was; otherwise the new working list is the arguments, first at the front, followed by the old list; the snapshot never changes |
| SetupApi.SetupApi.RestoreHandlers | src/core/SetupApi.ts:65-71 | the working list and the snapshot keep their length, order and members; every listed handler with an `isUsed` property ends with `isUsed` false, and every other handler keeps its flag |
| SetupApi.SetupApi.ResetHandlers | src/core/SetupApi.ts:73-78 | with handlers given, the working list is exactly those; with none, it equals the snapshot; the snapshot and every listed handler's `isUsed` flag are unchanged |
| SetupApi.SetupApi.ListHandlers | src/core/SetupApi.ts:80-82 | returns the working list in precedence order and changes nothing |
| Matching.MatchRequestUrl | src/core/utils/matching/matchRequestUrl.test.ts:42-48 | a failed match has empty params, and an exact URL never yields params |
| Matching.MatchOrigin | src/core/utils/matching/matchRequestUrl.test.ts:131-143 | a leading `*` origin always matches; a literal origin matches only a URL with its protocol and port, and its hostname groups are named, present and never span a `.`; `MatchingUrl.OriginSound` and `MatchingUrl.TemplateMatchesIff` give the exact set it accepts |
| Matching.MatchParts | src/core/utils/matching/matchRequestUrl.test.ts:256-269 | in-segment groups are named and present, and no value spans the separator; `MatchingParts.PartsSound`, `MatchingParts.PartsComplete` and `MatchingParts.LazyGroupShortest` relate it to the strings the parts describe |
| Matching.LazyGroup | src/core/utils/matching/matchRequestUrl.test.ts:256-269 | the same for a group tried from a separator-free prefix; `MatchingParts.LazyGroupSound`, `MatchingParts.LazyGroupComplete` and `MatchingParts.LazyGroupShortest` are its partners |
| Matching.MatchPath | src/core/utils/matching/matchRequestUrl.test.ts:67-253 | the unnamed groups of a pathname match take indices from the first free one up to that plus the number of `*` tokens; `MatchingPath.PathSound`, `MatchingPath.PathComplete` and `MatchingPath.PathPositions` give the exact keys, the rebuilt pathname and the numbering |
| Matching.GreedyWildcard | src/core/utils/matching/matchRequestUrl.test.ts:86-129 | the `*` and the tokens after it take indices from the `*`'s own one up; `MatchingPath.GreedyWildcardLongest` proves it takes the most segments it can |
| Matching.GreedyRepeated | src/core/utils/matching/matchRequestUrl.test.ts:211-253 | the tokens after `:name+` take indices from the first free one up; `MatchingPath.GreedyRepeatedLongest` proves it takes the most non-empty segments it can |
| Matching.ComponentParams | src/core/utils/matching/matchRequestUrl.test.ts:145-165 | every parameter of a component is the decoded value of some capture of that key; `MatchingParams.ComponentParamsKeys` and `MatchingParams.ComponentParamsLastWins` pin the keys and the last-capture rule |
| Matching.MergeComponents | src/core/utils/matching/matchRequestUrl.test.ts:131-166 | a key is a parameter exactly when some component has it; `MatchingParams.MergeCollects` adds the single-or-array rule |
| PercentEncoding.Decode | src/core/utils/matching/matchRequestUrl.test.ts:168-179 | decoding never lengthens a value and leaves a value without `%` as it is |
| PercentEncoding.Encode | src/core/utils/matching/matchRequestUrl.test.ts:172 | the encoding of an ASCII string uses only unreserved characters, `%` and hex digits, never contains `/`, and is at least as long as the input |
| PercentEncoding.DecodeEncodeChar | src/core/utils/matching/matchRequestUrl.test.ts:172-177 | decoding one encoded ASCII character gives it back, whatever follows |
| PercentEncoding.DecodeEncode | src/core/utils/matching/matchRequestUrl.test.ts:168-179 | decoding the `encodeURIComponent` encoding of any ASCII string gives the string back |
| Urls.TrimTrailingSlash | src/core/utils/matching/matchRequestUrl.test.ts:28-40 | trimming removes at most one trailing slash from the pathname and never empties it |
| Urls.PathnameAppend | src/core/utils/matching/matchRequestUrl.test.ts:59-64 | the pathname of concatenated segment lists is the concatenation of their pathnames |
| Urls.PathnameJoin | src/core/utils/matching/matchRequestUrl.test.ts:75-83 | a non-empty segment list's pathname is `/` followed by its segments joined with `/` |
| Urls.PathnameSplit | src/core/utils/matching/matchRequestUrl.test.ts:75-83 | a pathname splits after any number of leading segments into their joined text and the rest's pathname |
| Urls.HrefJoin | src/core/utils/matching/matchRequestUrl.test.ts:59-64 | a URL with a pathname serializes as its origin, `/` and its segments joined with `/` |
| Urls.BareOriginHref | src/core/utils/matching/matchRequestUrl.test.ts:52-57 | a URL whose pathname is `/` serializes as its origin followed by `/` |
| MatchingParts.PartsSound | src/core/utils/matching/matchRequestUrl.test.ts:256-269 | a successful in-segment match captures the declared names in order, each with a value free of the separator, and the captures rebuild the input |
| MatchingParts.LazyGroupSound | src/core/utils/matching/matchRequestUrl.test.ts:256-269 | the same for a group followed by the rest of the parts, from any shortest length tried |
| MatchingParts.PartsComplete | src/core/utils/matching/matchRequestUrl.test.ts:256-269 | in-segment parts match a string exactly when the string is one the parts describe |
| MatchingParts.LazyGroupComplete | src/core/utils/matching/matchRequestUrl.test.ts:256-269 | a group's search succeeds exactly when some length from the current one up leaves a separator-free prefix and a suffix the rest describes |
| MatchingParts.LazyGroupShortest | src/core/utils/matching/matchRequestUrl.test.ts:256-269 | an in-segment group takes the shortest value after which the rest matches |
| MatchingParts.LoneGroup | src/core/utils/matching/matchRequestUrl.test.ts:98-112 | a group that is the whole segment captures the whole non-empty segment |
| MatchingParts.GroupBeforeText | src/core/utils/matching/matchRequestUrl.test.ts:131-143 | a group before literal text stops at the text when its value cannot contain the text's first character |
| MatchingPath.PathPositions | src/core/utils/matching/matchRequestUrl.test.ts:67-129 | the pathname's unnamed groups are numbered consecutively from the first free index; named groups take no number |
| MatchingPath.PositionsAppend | src/core/utils/matching/matchRequestUrl.test.ts:86-129 | the positions of concatenated key lists are the concatenation of their positions |
| MatchingPath.KeysOfAppend | src/core/utils/matching/matchRequestUrl.test.ts:86-129 | the keys of concatenated captures are the concatenation of their keys |
| MatchingPath.PathSound | src/core/utils/matching/matchRequestUrl.test.ts:67-253 | a successful pathname match captures exactly the declared keys in order, and the captures rebuild the pathname |
| MatchingPath.GreedyRepeatedSound | src/core/utils/matching/matchRequestUrl.test.ts:211-253 | the same for `:name+` and the tokens after it, from any segment count tried |
| MatchingPath.GreedyWildcardSound | src/core/utils/matching/matchRequestUrl.test.ts:67-129 | the same for `*` and the tokens after it, from any segment count tried |
| MatchingPath.PathComplete | src/core/utils/matching/matchRequestUrl.test.ts:67-253 | the tokens match a pathname exactly when the pathname is one the tokens describe |
| MatchingPath.GreedyRepeatedComplete | src/core/utils/matching/matchRequestUrl.test.ts:211-253 | the search for `:name+` succeeds exactly when some count up to the current one takes non-empty segments and leaves a rest that matches |
| MatchingPath.GreedyWildcardComplete | src/core/utils/matching/matchRequestUrl.test.ts:67-129 | the search for `*` succeeds exactly when some count up to the current one leaves a rest that matches |
| MatchingPath.GreedyWildcardLongest | src/core/utils/matching/matchRequestUrl.test.ts:86-129 | `*` takes the largest number of segments after which the rest matches |
| MatchingPath.GreedyRepeatedLongest | src/core/utils/matching/matchRequestUrl.test.ts:242-253 | `:name+` takes the largest number of non-empty segments after which the rest matches |
| MatchingPath.LiteralSegment | src/core/utils/matching/matchRequestUrl.test.ts:67-84 | a literal segment matches only that segment and captures nothing |
| MatchingPath.LiteralNeedsSegment | src/core/utils/matching/matchRequestUrl.test.ts:67-84 | a literal segment does not match an exhausted pathname |
| MatchingPath.ParamSegment | src/core/utils/matching/matchRequestUrl.test.ts:98-112 | `/:name` matches any non-empty segment, captures all of it, and then needs the rest to match |
| MatchingPath.ParamNeedsSegment | src/core/utils/matching/matchRequestUrl.test.ts:98-112 | `/:name` does not match an exhausted pathname |
| MatchingPath.ParamRejectsEmpty | src/core/utils/matching/matchRequestUrl.test.ts:114-129 | `/:name` does not match an empty segment, whatever follows |
| MatchingPath.TrailingWildcard | src/core/utils/matching/matchRequestUrl.test.ts:75-83 | a trailing `*` captures the rest of the pathname, slashes included, under the next index |
| MatchingPath.TrailingRepeated | src/core/utils/matching/matchRequestUrl.test.ts:211-240 | a trailing `:name+` captures one or more non-empty segments as one slash-joined string |
| MatchingPath.OptionalPresent | src/core/utils/matching/matchRequestUrl.test.ts:182-193 | `:name?` before a non-empty segment captures it when the rest then matches |
| MatchingPath.OptionalAbsent | src/core/utils/matching/matchRequestUrl.test.ts:195-208 | a trailing `:name?` with no segment left still yields its key, without a value |
| MatchingParams.ComponentParamsKeys | src/core/utils/matching/matchRequestUrl.test.ts:145-165 | a component's parameters are exactly its captured keys |
| MatchingParams.ComponentParamsLastWins | src/core/utils/matching/matchRequestUrl.test.ts:145-165 | within one component, a key takes the decoded value of its last capture |
| MatchingParams.MergeCollects | src/core/utils/matching/matchRequestUrl.test.ts:131-166 | a key is a parameter exactly when some component gives it a value; it holds a single value exactly when one component does, and otherwise every component's value in component order |
| MatchingParams.TwoComponents | src/core/utils/matching/matchRequestUrl.test.ts:131-166 | with two components, a key in both becomes an array of the two values, and a key in one keeps its single value |
| MatchingParams.PlainCapture | src/core/utils/matching/matchRequestUrl.test.ts:67-129 | a capture without `%` sets its key to its value as captured |
| MatchingParams.MergeDisjoint | src/core/utils/matching/matchRequestUrl.test.ts:67-129 | components with no key in common merge into single values |
| MatchingUrl.TemplateMatchesIff | src/core/utils/matching/matchRequestUrl.test.ts:67-269 | a template matches exactly the URLs whose origin and pathname it describes |
| MatchingUrl.OriginSound | src/core/utils/matching/matchRequestUrl.test.ts:67-143 | a successful origin match captures exactly the origin's declared keys |
| MatchingUrl.KeysOfCaptured | src/core/utils/matching/matchRequestUrl.test.ts:67-143 | captures whose keys are a list hold exactly that list's keys |
| MatchingUrl.TemplateParamKeys | src/core/utils/matching/matchRequestUrl.test.ts:67-209 | a matching template's params have exactly its declared keys, an absent optional group included |
| MatchingUrl.DeclaredPositions | src/core/utils/matching/matchRequestUrl.test.ts:67-129 | unnamed groups are numbered 0, 1, … in declaration order across components; a leading `*` takes 0 |
| MatchingUrl.ExactIgnoresTrailingSlash | src/core/utils/matching/matchRequestUrl.test.ts:28-40 | an exact URL matches itself with empty params, and a trailing slash on either side does not matter |
| MatchingUrl.ExactRejectsOtherHost | src/core/utils/matching/matchRequestUrl.test.ts:42-48 | an exact URL never matches a URL of another host, and the result has empty params |
| MatchingUrl.EverythingMatches | src/core/utils/matching/matchRequestUrl.test.ts:51-65 | the pattern `*` matches every URL with key 0 alone, and its value is the serialized URL when that has no `%` |
| MatchingCases.AnyOriginResult | src/core/utils/matching/matchRequestUrl.test.ts:67-129 | after a leading `*`, the origin is key 0 next to the pathname's params |
| MatchingCases.LiteralOrigin | src/core/utils/matching/matchRequestUrl.test.ts:145-269 | a literal origin matches its own URL and captures nothing |
| MatchingCases.LiteralOriginResult | src/core/utils/matching/matchRequestUrl.test.ts:145-269 | after a literal origin, the params are the pathname's alone |
| MatchingCases.OnePlain | src/core/utils/matching/matchRequestUrl.test.ts:181-253 | one capture without `%` gives its key its captured value |
| MatchingCases.TwoPlain | src/core/utils/matching/matchRequestUrl.test.ts:86-166 | two captures without `%` give their keys their values, the later winning |
| MatchingCases.ThreePlain | src/core/utils/matching/matchRequestUrl.test.ts:114-129 | three captures without `%` give their keys their values, the later winning |
| MatchingCases.TestHostOrigin | src/core/utils/matching/matchRequestUrl.test.ts:67-129 | the test host's origin is `https://test.mswjs.io` |
| MatchingCases.ExactUrl | src/core/utils/matching/matchRequestUrl.test.ts:20-49 | `https://test.mswjs.io` matches itself, with or without a trailing slash, with empty params; `https://example.com` does not match it, with empty params |
| MatchingCases.HrefOfTestHost | src/core/utils/matching/matchRequestUrl.test.ts:52-57 | the bare origin serializes with a trailing slash |
| MatchingCases.HrefOfTestPath | src/core/utils/matching/matchRequestUrl.test.ts:59-64 | a URL with a path serializes without one |
| MatchingCases.WildcardAsEntirePattern | src/core/utils/matching/matchRequestUrl.test.ts:51-65 | `*` captures the whole serialized URL as key 0 |
| MatchingCases.UserThenWildcard | src/core/utils/matching/matchRequestUrl.test.ts:67-84 | for every URL, `*/user/*` captures the origin as 0 and the rest after `/user`, slashes included, as 1 |
| MatchingCases.SingleUnnamedGroup | src/core/utils/matching/matchRequestUrl.test.ts:67-84 | the two cases of the test give `{0: origin, 1: "123"}` and `{0: origin, 1: "123/456/789"}` |
| MatchingCases.LiteralThenWildcard | src/core/utils/matching/matchRequestUrl.test.ts:67-84 | `/w/*` matches exactly pathnames starting with `w` and one more segment, capturing the rest |
| MatchingCases.FirstOfTwoWildcards | src/core/utils/matching/matchRequestUrl.test.ts:86-96 | in `/user/*/bar/*`, the first `*` gives back `bar` and what follows, keeping one segment as 1 and leaving the last as 2 |
| MatchingCases.TwoWildcardsPath | src/core/utils/matching/matchRequestUrl.test.ts:86-96 | `/user/*/bar/*` on `/user/a/bar/b` captures `a` as 1 and `b` as 2 |
| MatchingCases.TwoWildcards | src/core/utils/matching/matchRequestUrl.test.ts:86-96 | for every such URL, `*/user/*/bar/*` gives the origin as 0, `a` as 1 and `b` as 2 |
| MatchingCases.MultipleUnnamedGroups | src/core/utils/matching/matchRequestUrl.test.ts:86-96 | the test's case gives `{0: origin, 1: "123", 2: "456"}` |
| MatchingCases.NamedThenWildcardPath | src/core/utils/matching/matchRequestUrl.test.ts:98-112 | `/user/:name/bar/*` captures the name and then the wildcard as 1 |
| MatchingCases.NamedThenWildcard | src/core/utils/matching/matchRequestUrl.test.ts:98-112 | for every such URL, the named group takes no index: params are origin as 0, `name`, and 1 |
| MatchingCases.SingleNamedGroup | src/core/utils/matching/matchRequestUrl.test.ts:98-112 | the test's case gives `{0: origin, name: "john", 1: "456"}` |
| MatchingCases.NamedBarWildcardAfter | src/core/utils/matching/matchRequestUrl.test.ts:114-129 | after the first `*`, the rest of the pattern matches only when `*` took exactly one segment, the last segment being empty or not |
| MatchingCases.FirstWildcardTakesOne | src/core/utils/matching/matchRequestUrl.test.ts:114-129 | in `/user/*/:name/bar/*`, the first `*` keeps one segment as 1, then `name` and 2 follow |
| MatchingCases.WildcardNamedWildcardPath | src/core/utils/matching/matchRequestUrl.test.ts:114-129 | `/user/*/:name/bar/*` captures 1, `name` and 2, also when the last segment is empty |
| MatchingCases.WildcardNamedWildcard | src/core/utils/matching/matchRequestUrl.test.ts:114-129 | for every such URL, params are origin as 0, 1, `name` and 2, also when the last segment is empty |
| MatchingCases.MultipleNamedGroup | src/core/utils/matching/matchRequestUrl.test.ts:114-129 | the test's case gives `{0: origin, 1: "foo", name: "john", 2: "456"}` |
| MatchingCases.SharedKey | src/core/utils/matching/matchRequestUrl.test.ts:131-143 | a key in both components becomes the array of both values |
| MatchingCases.LabelThenCom | src/core/utils/matching/matchRequestUrl.test.ts:131-143 | `:segment.com` on a hostname captures the label before `.com` |
| MatchingCases.UserSegmentBarPath | src/core/utils/matching/matchRequestUrl.test.ts:131-143 | `/user/:segment/bar` captures the middle segment |
| MatchingCases.SegmentAcrossComponents | src/core/utils/matching/matchRequestUrl.test.ts:131-143 | for every such URL, a name in the hostname and the pathname yields the array `[host label, segment]` |
| MatchingCases.SegmentInOriginAndPath | src/core/utils/matching/matchRequestUrl.test.ts:131-143 | the test's case gives `{segment: ["example", "abc"]}` |
| MatchingCases.BarThenSegment | src/core/utils/matching/matchRequestUrl.test.ts:145-165 | `/bar/:segment` after the first segment captures the last segment |
| MatchingCases.RepeatedSegmentPath | src/core/utils/matching/matchRequestUrl.test.ts:145-165 | `/user/:segment/bar/:segment` captures both segments under the same name |
| MatchingCases.SegmentWithinComponent | src/core/utils/matching/matchRequestUrl.test.ts:145-165 | for every such URL, a name repeated in the pathname keeps its last value |
| MatchingCases.SegmentTwiceInPath | src/core/utils/matching/matchRequestUrl.test.ts:145-165 | the test's case gives `{segment: "def"}` |
| MatchingCases.DecodesEncodedGroup | src/core/utils/matching/matchRequestUrl.test.ts:168-179 | for every non-empty ASCII string, the group captures its encoding and returns the string decoded |
| MatchingCases.DecodesGroupMatches | src/core/utils/matching/matchRequestUrl.test.ts:168-179 | the test's case gives `{url: "http://example.com:5001/example"}` |
| MatchingCases.OptionalGroupPresent | src/core/utils/matching/matchRequestUrl.test.ts:182-193 | for every non-empty segment, `/user/:userId?` captures it |
| MatchingCases.OptionalGroupAbsent | src/core/utils/matching/matchRequestUrl.test.ts:195-208 | on `/user`, `userId` is still a key, with no value |
| MatchingCases.OptionalGroups | src/core/utils/matching/matchRequestUrl.test.ts:181-209 | the test's cases give `{userId: "abc-123"}` and `{userId: undefined}` |
| MatchingCases.RepeatedGroupToEnd | src/core/utils/matching/matchRequestUrl.test.ts:212-240 | for every one or more non-empty segments after `/product`, `:action+` captures them joined with `/` |
| MatchingCases.RepeatedBeforeLast | src/core/utils/matching/matchRequestUrl.test.ts:242-253 | `:name+` gives back exactly the last segment when the rest of the pattern needs exactly that one |
| MatchingCases.EndMatchesEnd | src/core/utils/matching/matchRequestUrl.test.ts:242-253 | `/end` matches `end` and needs a segment |
| MatchingCases.RepeatedBeforeLastPath | src/core/utils/matching/matchRequestUrl.test.ts:242-253 | `/w/:name+` followed by such a rest captures the segments in between, joined |
| MatchingCases.RepeatedGroupBeforeEnd | src/core/utils/matching/matchRequestUrl.test.ts:242-253 | for every such URL, `/product/:action+/end` captures the segments before `end` joined |
| MatchingCases.RepeatedGroups | src/core/utils/matching/matchRequestUrl.test.ts:211-254 | the test's three cases give `"one"`, `"one/two/three"` and `"one/two"` |
| MatchingCases.FirstDotSecond | src/core/utils/matching/matchRequestUrl.test.ts:256-269 | `:first.:second` splits a segment at its first `.` |
| MatchingCases.InComponentPath | src/core/utils/matching/matchRequestUrl.test.ts:256-269 | `/product/:first.:second` captures the text before the first `.` as `first` and the rest as `second` |
| MatchingCases.InComponentGroups | src/core/utils/matching/matchRequestUrl.test.ts:256-269 | for every such URL, params are `{first, second}` around the first `.` |
| MatchingCases.InComponentMatches | src/core/utils/matching/matchRequestUrl.test.ts:256-269 | the test's case gives `{first: "one", second: "two"}` |

## Left out

- RegExp patterns (src/core/utils/matching/matchRequestUrl.test.ts:4-18): they need a regular-expression engine. The no-match result with empty params is modelled for templates and exact URLs.
- Parsing pattern strings into tokens: patterns are given as tokens. Groups in the protocol or port, `*` inside a segment or the hostname, and custom group regular expressions are not modelled.
- URL parsing and normalization: host lower-casing, default ports, search and hash. A URL is given as protocol, hostname, port and pathname segments.
- PercentEncoding.Decode: decodes only escapes of ASCII characters and keeps malformed escapes as they are. Decoding of multi-byte UTF-8 sequences and the error on malformed input are not modelled.
- PercentEncoding.Encode: defined for ASCII strings only, so non-ASCII input is not modelled.
- Matching.MatchRequestUrl: the model has two components, origin and pathname, so a name repeated across components collects at most two values. `MatchingParams.MergeCollects` states the rule for any number of components.
- The event plumbing of `SetupApi`: emitters, `pipeEvents`, `createLifeCycleEvents` and the disposal subscriptions (src/core/SetupApi.ts:35-44, 84-96). It is a thin wrapper over an external event library.
- The text of the configuration error (src/core/SetupApi.ts:25-30, 55-60): modelled as the single error `InvalidHandlersInput`.
- `toReadonlyArray` (src/core/SetupApi.ts:32, 81): the model returns the list as an immutable `seq` value. Freezing has no counterpart.
- SetupApi.SetupApi.ResetHandlers: handlers are passed as a list of handler objects. An array passed by mistake cannot be expressed, and the source does not validate this call.
- The handler kinds' own behaviour (request matching, responses, WebSocket events): only the `isUsed` flag and whether a handler has one are modelled.
- src/node/setupServer.ts and the end-to-end response-patching tests: interceptor wiring, network I/O and async behaviour.
- Concurrency: the registry is modelled for a single caller.
