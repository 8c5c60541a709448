/**
 * `matchRequestUrl(url, pattern)`: matches a request URL against a handler's
 * path pattern and returns `{ matches, params }`.
 *
 * A template is given as tokens per URL component.  The origin is matched
 * first (its hostname at character level, a `.` ending a group), then the
 * pathname segment by segment.  Alternatives are tried in the order a
 * backtracking regular-expression engine tries them, as in the WHATWG URL
 * Pattern standard: `*` and `:name+` take as many segments as they can,
 * `:name?` prefers to be present, and a group inside a segment takes as few
 * characters as it can.
 */
module Matching {
  import opened Wrappers
  import opened Urls
  import PercentEncoding

  /** One piece of a segment (or of the hostname): literal text or a `:name` group. */
  datatype Part = Text(text: string) | Group(name: string)

  /** One `/`-prefixed piece of a pathname template. */
  datatype PathToken =
    | Segment(parts: seq<Part>)     // `/user`, `/:id`, `/:first.:second`
    | OptionalGroup(name: string)   // `/:name?`
    | RepeatedGroup(name: string)   // `/:name+`
    | Wildcard                      // `/*`

  datatype OriginPattern =
    | AnyOrigin                     // a leading `*` before the pathname
    | OriginOf(protocol: string, hostname: seq<Part>, port: string)

  datatype Pattern =
    | Exact(url: Url)               // an absolute URL with no groups
    | Everything                    // the pattern `*`
    | Template(origin: OriginPattern, path: seq<PathToken>)

  /** A parameter key: the position of an unnamed group, or a group's name. */
  datatype Key = Index(index: nat) | Name(name: string)

  /** One group's capture in declaration order; `None` is an absent optional group. */
  datatype Capture = Capture(key: Key, value: Option<string>)

  /** A parameter: one value, or the values of a name repeated across components. */
  datatype ParamValue = Single(value: Option<string>) | Multiple(values: seq<Option<string>>)

  datatype Match = Match(matches: bool, params: map<Key, ParamValue>)

  /** Separator a group of the hostname, and of a path segment, never spans. */
  const HostSeparator: char := '.'
  const PathSeparator: char := '/'

  /** Every capture is a named group's value, present and free of the separator. */
  predicate NamedWithin(caps: seq<Capture>, sep: char) {
    forall c :: c in caps ==> c.key.Name? && c.value.Some? && sep !in c.value.value
  }

  /** Every unnamed group's position lies in `[next, next + count)`. */
  predicate IndexedFrom(caps: seq<Capture>, next: nat, count: nat) {
    forall c :: c in caps && c.key.Index? ==> next <= c.key.index < next + count
  }

  /** The number of `*` tokens, each of which takes the next position key. */
  function WildcardCount(toks: seq<PathToken>): nat {
    if toks == [] then 0 else (if toks[0].Wildcard? then 1 else 0) + WildcardCount(toks[1..])
  }

  /** Matches the whole of `s` against segment (or hostname) parts. */
  function MatchParts(parts: seq<Part>, s: string, sep: char): (r: Option<seq<Capture>>)
    ensures r.Some? ==> NamedWithin(r.value, sep)
    decreases |parts|, 1, 0
  {
    if parts == [] then
      if s == "" then Some([]) else None
    else match parts[0]
      case Text(t) =>
        if t <= s then MatchParts(parts[1..], s[|t|..], sep) else None
      case Group(name) =>
        LazyGroup(name, parts[1..], s, sep, 1)
  }

  /**
   * A group that has already been given `s[..k - 1]`: tries `s[..k]` and
   * then longer prefixes, never past a separator.
   */
  function LazyGroup(name: string, rest: seq<Part>, s: string, sep: char, k: nat): (r: Option<seq<Capture>>)
    requires 1 <= k <= |s| + 1 && sep !in s[..k - 1]
    ensures r.Some? ==> NamedWithin(r.value, sep)
    decreases |rest| + 1, 0, |s| + 1 - k
  {
    if k > |s| || s[k - 1] == sep then None
    else match MatchParts(rest, s[k..], sep)
      case Some(caps) => Some([Capture(Name(name), Some(s[..k]))] + caps)
      case None => LazyGroup(name, rest, s, sep, k + 1)
  }

  /**
   * Matches the whole of `segs` against pathname tokens; `next` is the
   * position key of the first unnamed group among them.
   */
  function MatchPath(toks: seq<PathToken>, segs: seq<string>, next: nat): (r: Option<seq<Capture>>)
    ensures r.Some? ==> IndexedFrom(r.value, next, WildcardCount(toks))
    decreases |toks|, 1, 0
  {
    if toks == [] then
      if segs == [] then Some([]) else None
    else match toks[0]
      case Segment(parts) =>
        if segs == [] then None
        else (
          match MatchParts(parts, segs[0], PathSeparator)
          case None => None
          case Some(own) =>
            match MatchPath(toks[1..], segs[1..], next)
            case None => None
            case Some(caps) => Some(own + caps))
      case OptionalGroup(name) =>
        var present := if segs != [] && segs[0] != "" then MatchPath(toks[1..], segs[1..], next) else None;
        if present.Some? then Some([Capture(Name(name), Some(segs[0]))] + present.value)
        else (
          match MatchPath(toks[1..], segs, next)
          case None => None
          case Some(caps) => Some([Capture(Name(name), None)] + caps))
      case RepeatedGroup(name) =>
        GreedyRepeated(name, toks[1..], segs, next, |segs|)
      case Wildcard =>
        GreedyWildcard(toks[1..], segs, next, |segs|)
  }

  /** `:name+` taking the first `k` segments, or fewer; each must be non-empty. */
  function GreedyRepeated(name: string, rest: seq<PathToken>, segs: seq<string>, next: nat, k: nat): (r: Option<seq<Capture>>)
    requires k <= |segs|
    ensures r.Some? ==> IndexedFrom(r.value, next, WildcardCount(rest))
    decreases |rest| + 1, 0, k
  {
    if k == 0 then None
    else
      var tail := if "" !in segs[..k] then MatchPath(rest, segs[k..], next) else None;
      if tail.Some? then Some([Capture(Name(name), Some(Join(segs[..k])))] + tail.value)
      else GreedyRepeated(name, rest, segs, next, k - 1)
  }

  /** `*` taking the first `k` segments, or fewer, but at least one. */
  function GreedyWildcard(rest: seq<PathToken>, segs: seq<string>, next: nat, k: nat): (r: Option<seq<Capture>>)
    requires k <= |segs|
    ensures r.Some? ==> IndexedFrom(r.value, next, 1 + WildcardCount(rest))
    decreases |rest| + 1, 0, k
  {
    if k == 0 then None
    else match MatchPath(rest, segs[k..], next + 1)
      case Some(caps) => Some([Capture(Index(next), Some(Join(segs[..k])))] + caps)
      case None => GreedyWildcard(rest, segs, next, k - 1)
  }

  /** The origin's captures: a leading `*` captures the whole origin as group 0. */
  function MatchOrigin(o: OriginPattern, u: Url): (r: Option<seq<Capture>>)
    ensures o.AnyOrigin? ==> r.Some?
    ensures r.Some? && o.OriginOf? ==>
              o.protocol == u.protocol && o.port == u.port && NamedWithin(r.value, HostSeparator)
  {
    match o
    case AnyOrigin => Some([Capture(Index(0), Some(Origin(u)))])
    case OriginOf(protocol, hostname, port) =>
      if protocol == u.protocol && port == u.port then MatchParts(hostname, u.hostname, HostSeparator)
      else None
  }

  /** Position key of the first unnamed group of the pathname. */
  function FirstPathIndex(o: OriginPattern): nat {
    if o.AnyOrigin? then 1 else 0
  }

  /** An exact URL matches when the URLs agree up to one trailing slash. */
  predicate SameUpToTrailingSlash(u: Url, e: Url) {
    u.protocol == e.protocol && u.hostname == e.hostname && u.port == e.port
    && TrimTrailingSlash(u.path) == TrimTrailingSlash(e.path)
  }

  /** The captured value as it is returned: percent-decoded. */
  function DecodeValue(v: Option<string>): Option<string> {
    match v
    case None => None
    case Some(s) => Some(PercentEncoding.Decode(s))
  }

  /** The parameters of one component: a name repeated within it keeps its last value. */
  function ComponentParams(caps: seq<Capture>): (r: map<Key, Option<string>>)
    ensures forall k :: k in r ==>
              exists i :: 0 <= i < |caps| && caps[i].key == k && r[k] == DecodeValue(caps[i].value)
  {
    if caps == [] then map[]
    else
      var last := caps[|caps| - 1];
      ComponentParams(caps[..|caps| - 1])[last.key := DecodeValue(last.value)]
  }

  /** Adds one more component's value of a key already seen. */
  function Append(p: ParamValue, v: Option<string>): ParamValue {
    match p
    case Single(w) => Multiple([w, v])
    case Multiple(ws) => Multiple(ws + [v])
  }

  /** Merges one more component's parameters: a name seen before collects an array. */
  function MergeInto(acc: map<Key, ParamValue>, comp: map<Key, Option<string>>): map<Key, ParamValue> {
    map k | k in acc.Keys + comp.Keys ::
      if k in comp then (if k in acc then Append(acc[k], comp[k]) else Single(comp[k]))
      else acc[k]
  }

  /** Merges the components' parameters in component order. */
  function MergeComponents(comps: seq<map<Key, Option<string>>>): (r: map<Key, ParamValue>)
    ensures forall k :: k in r <==> exists i :: 0 <= i < |comps| && k in comps[i]
  {
    if comps == [] then map[]
    else MergeInto(MergeComponents(comps[..|comps| - 1]), comps[|comps| - 1])
  }

  const NoMatch := Match(false, map[])

  function MatchRequestUrl(u: Url, p: Pattern): (m: Match)
    ensures !m.matches ==> m.params == map[]
    ensures p.Exact? ==> m.params == map[]
  {
    match p
    case Exact(e) => Match(SameUpToTrailingSlash(u, e), map[])
    case Everything => Match(true, map[Index(0) := Single(DecodeValue(Some(Href(u))))])
    case Template(origin, path) =>
      match (MatchOrigin(origin, u), MatchPath(path, u.path, FirstPathIndex(origin)))
      case (Some(oc), Some(pc)) =>
        Match(true, MergeComponents([ComponentParams(oc), ComponentParams(pc)]))
      case _ => NoMatch
  }
}
