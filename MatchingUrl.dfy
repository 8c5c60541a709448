/**
 * Properties of `MatchRequestUrl` as a whole: when a template matches, which
 * keys its parameters have and how unnamed groups are numbered, and how an
 * exact URL treats a trailing slash.
 */
module MatchingUrl {
  import opened Wrappers
  import opened Urls
  import opened Matching
  import opened MatchingParts
  import opened MatchingPath
  import opened MatchingParams

  /** The URLs whose origin the origin pattern describes. */
  ghost predicate OriginAccepts(o: OriginPattern, u: Url) {
    match o
    case AnyOrigin => true
    case OriginOf(protocol, hostname, port) =>
      protocol == u.protocol && port == u.port && PartsAccept(hostname, u.hostname, HostSeparator)
  }

  /** The keys the origin pattern declares. */
  function OriginKeys(o: OriginPattern): seq<Key> {
    match o
    case AnyOrigin => [Index(0)]
    case OriginOf(_, hostname, _) => PartKeys(hostname)
  }

  /** The keys a template declares, in declaration order across its components. */
  function DeclaredKeys(o: OriginPattern, path: seq<PathToken>): seq<Key> {
    OriginKeys(o) + PathKeys(path, FirstPathIndex(o))
  }

  /** A template matches exactly the URLs whose origin and pathname it describes. */
  lemma TemplateMatchesIff(u: Url, o: OriginPattern, path: seq<PathToken>)
    ensures MatchRequestUrl(u, Template(o, path)).matches <==> OriginAccepts(o, u) && PathAccepts(path, u.path)
  {
    PathComplete(path, u.path, FirstPathIndex(o));
    if o.OriginOf? && o.protocol == u.protocol && o.port == u.port {
      PartsComplete(o.hostname, u.hostname, HostSeparator);
    }
  }

  lemma OriginSound(o: OriginPattern, u: Url)
    requires MatchOrigin(o, u).Some?
    ensures KeysOf(MatchOrigin(o, u).value) == OriginKeys(o)
  {
    if o.OriginOf? {
      PartsSound(o.hostname, u.hostname, HostSeparator);
    }
  }

  lemma KeysOfCaptured(caps: seq<Capture>, keys: seq<Key>)
    requires KeysOf(caps) == keys
    ensures CapturedKeys(caps) == set k | k in keys
  {
    forall k | k in keys ensures k in CapturedKeys(caps) {
      var i :| 0 <= i < |keys| && keys[i] == k;
      assert caps[i].key == k;
    }
  }

  /**
   * A matching template's parameters are exactly the keys it declares: an
   * optional group that is absent is still there, and nothing else is.
   */
  lemma TemplateParamKeys(u: Url, o: OriginPattern, path: seq<PathToken>)
    requires MatchRequestUrl(u, Template(o, path)).matches
    ensures MatchRequestUrl(u, Template(o, path)).params.Keys == set k | k in DeclaredKeys(o, path)
  {
    var oc := MatchOrigin(o, u).value;
    var pc := MatchPath(path, u.path, FirstPathIndex(o)).value;
    OriginSound(o, u);
    PathSound(path, u.path, FirstPathIndex(o));
    ComponentParamsKeys(oc);
    ComponentParamsKeys(pc);
    KeysOfCaptured(oc, OriginKeys(o));
    KeysOfCaptured(pc, PathKeys(path, FirstPathIndex(o)));
    var params := MatchRequestUrl(u, Template(o, path)).params;
    forall k ensures k in params <==> k in DeclaredKeys(o, path) {
      TwoComponents(ComponentParams(oc), ComponentParams(pc), k);
    }
  }

  /**
   * Unnamed groups, a leading `*` for the origin included, are numbered
   * 0, 1, 2, ... in declaration order across the components.
   */
  lemma DeclaredPositions(o: OriginPattern, path: seq<PathToken>)
    ensures Positions(DeclaredKeys(o, path)) == Range(0, (if o.AnyOrigin? then 1 else 0) + WildcardCount(path))
  {
    PositionsAppend(OriginKeys(o), PathKeys(path, FirstPathIndex(o)));
    PathPositions(path, FirstPathIndex(o));
    if o.OriginOf? {
      PartPositions(o.hostname);
    }
  }

  /** The URL with a slash added to the end of its pathname. */
  function WithTrailingSlash(u: Url): Url {
    u.(path := u.path + [""])
  }

  /**
   * An exact URL without a trailing slash (or whose pathname is just "/")
   * matches itself, and matches and is matched by the URL with a slash added.
   */
  lemma ExactIgnoresTrailingSlash(u: Url)
    requires |u.path| >= 1 && TrimTrailingSlash(u.path) == u.path
    ensures MatchRequestUrl(u, Exact(u)).matches
    ensures MatchRequestUrl(WithTrailingSlash(u), Exact(u)).matches
    ensures MatchRequestUrl(u, Exact(WithTrailingSlash(u))).matches
    ensures MatchRequestUrl(u, Exact(u)).params == map[]
  {
    var v := WithTrailingSlash(u);
    assert v.path[..|v.path| - 1] == u.path;
    if |u.path| == 1 {
      assert TrimTrailingSlash(v.path) == u.path;
    }
  }

  /** An exact URL never matches a URL of another host. */
  lemma ExactRejectsOtherHost(u: Url, e: Url)
    requires u.hostname != e.hostname
    ensures MatchRequestUrl(u, Exact(e)) == NoMatch
  {
  }

  /** The pattern `*` matches every URL and captures the whole serialized URL, decoded, as group 0. */
  lemma EverythingMatches(u: Url)
    ensures MatchRequestUrl(u, Everything).matches
    ensures MatchRequestUrl(u, Everything).params.Keys == {Index(0)}
    ensures '%' !in Href(u) ==> MatchRequestUrl(u, Everything).params[Index(0)] == Single(Some(Href(u)))
  {
  }
}
