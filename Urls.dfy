/**
 * A request URL after WHATWG URL parsing, already split into the components
 * the matcher looks at.  The search and hash components are not part of it.
 */
module Urls {

  /**
   * `protocol` is the scheme without its colon, `port` is empty for the
   * scheme's default port, and `path` holds the pathname's segments, each
   * written after a `/`: pathname "/" is [""], "/user" is ["user"] and
   * "/user/" is ["user", ""].
   */
  datatype Url = Url(protocol: string, hostname: string, port: string, path: seq<string>)

  /** The pathname made of the given segments. */
  function Pathname(segs: seq<string>): string {
    if segs == [] then "" else "/" + segs[0] + Pathname(segs[1..])
  }

  /** The segments separated by `/`, as a multi-segment group captures them. */
  function Join(segs: seq<string>): string {
    if segs == [] then "" else if |segs| == 1 then segs[0] else segs[0] + "/" + Join(segs[1..])
  }

  /** `protocol://hostname[:port]`, the URL's origin. */
  function Origin(u: Url): string {
    u.protocol + "://" + u.hostname + (if u.port == "" then "" else ":" + u.port)
  }

  /** The serialized URL. */
  function Href(u: Url): string {
    Origin(u) + Pathname(u.path)
  }

  /** The segments with a trailing slash removed, unless the pathname is just "/". */
  function TrimTrailingSlash(segs: seq<string>): (r: seq<string>)
    ensures Pathname(segs) == Pathname(r) || Pathname(segs) == Pathname(r) + "/"
    ensures |segs| >= 1 ==> |r| >= 1
  {
    if |segs| > 1 && segs[|segs| - 1] == "" then
      PathnameAppend(segs[..|segs| - 1], [""]);
      assert segs[..|segs| - 1] + [""] == segs;
      segs[..|segs| - 1]
    else segs
  }

  lemma {:induction false} PathnameAppend(a: seq<string>, b: seq<string>)
    ensures Pathname(a + b) == Pathname(a) + Pathname(b)
  {
    if a != [] {
      assert (a + b)[1..] == a[1..] + b;
      PathnameAppend(a[1..], b);
    } else {
      assert a + b == b;
    }
  }

  /** A multi-segment capture, written after a `/`, spells out its segments' pathname. */
  lemma {:induction false} PathnameJoin(segs: seq<string>)
    requires |segs| >= 1
    ensures Pathname(segs) == "/" + Join(segs)
  {
    if |segs| > 1 {
      PathnameJoin(segs[1..]);
    }
  }

  lemma PathnameSplit(segs: seq<string>, k: nat)
    requires 1 <= k <= |segs|
    ensures Pathname(segs) == "/" + Join(segs[..k]) + Pathname(segs[k..])
  {
    PathnameAppend(segs[..k], segs[k..]);
    assert segs[..k] + segs[k..] == segs;
    PathnameJoin(segs[..k]);
  }

  /** A URL with a pathname serializes as its origin, `/` and its segments joined with `/`. */
  lemma HrefJoin(u: Url)
    requires |u.path| >= 1
    ensures Href(u) == Origin(u) + "/" + Join(u.path)
  {
    PathnameJoin(u.path);
  }

  /** A bare origin (pathname "/") serializes with a trailing slash. */
  lemma BareOriginHref(u: Url)
    requires u.path == [""]
    ensures Href(u) == Origin(u) + "/"
  {
    HrefJoin(u);
  }
}
