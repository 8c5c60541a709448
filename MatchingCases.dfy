/**
 * The cases of src/core/utils/matching/matchRequestUrl.test.ts, each stated
 * as the match result the test expects.  A case is put together from the
 * origin's match, the pathname's match and the parameters their captures
 * give; where a case holds for every URL of its shape, that is proved too.
 */
module MatchingCases {
  import opened Wrappers
  import opened Urls
  import opened Matching
  import opened MatchingParts
  import opened MatchingPath
  import opened MatchingParams
  import PercentEncoding

  // ---------------------------------------------------------------------
  // Putting a match together

  /** A template matches with the parameters its two components' captures give. */
  lemma TemplateResult(u: Url, o: OriginPattern, toks: seq<PathToken>, oc: seq<Capture>, pc: seq<Capture>,
                       params: map<Key, ParamValue>)
    requires MatchOrigin(o, u) == Some(oc)
    requires MatchPath(toks, u.path, FirstPathIndex(o)) == Some(pc)
    requires MergeComponents([ComponentParams(oc), ComponentParams(pc)]) == params
    ensures MatchRequestUrl(u, Template(o, toks)) == Match(true, params)
  {
  }

  /** Behind a leading `*`, group 0 is the origin and the pathname's parameters come after it. */
  lemma AnyOriginResult(u: Url, toks: seq<PathToken>, pc: seq<Capture>, pm: map<Key, Option<string>>,
                        params: map<Key, ParamValue>)
    requires '%' !in Origin(u)
    requires MatchPath(toks, u.path, 1) == Some(pc)
    requires ComponentParams(pc) == pm && Index(0) !in pm
    requires Singles(map[Index(0) := Some(Origin(u))] + pm) == params
    ensures MatchRequestUrl(u, Template(AnyOrigin, toks)) == Match(true, params)
  {
    var c := Capture(Index(0), Some(Origin(u)));
    var none: seq<Capture> := [];
    PlainCapture(none, c);
    assert none + [c] == [c];
    MergeDisjoint(map[Index(0) := Some(Origin(u))], pm);
    TemplateResult(u, AnyOrigin, toks, [c], pc, params);
  }

  /** A literal origin matches a URL with that protocol, hostname and port, capturing nothing. */
  lemma LiteralOrigin(u: Url, protocol: string, hostname: string, port: string)
    requires u.protocol == protocol && u.hostname == hostname && u.port == port
    ensures MatchOrigin(OriginOf(protocol, [Text(hostname)], port), u) == Some([])
  {
    var noParts: seq<Part> := [];
    TextFirst(hostname, noParts, "", HostSeparator);
    assert [Text(hostname)] + noParts == [Text(hostname)] && hostname + "" == hostname;
  }

  /** Behind a literal origin, the parameters are the pathname's. */
  lemma LiteralOriginResult(u: Url, hostname: string, toks: seq<PathToken>, pc: seq<Capture>,
                            pm: map<Key, Option<string>>, params: map<Key, ParamValue>)
    requires u.hostname == hostname
    requires MatchPath(toks, u.path, 0) == Some(pc)
    requires ComponentParams(pc) == pm && Singles(pm) == params
    ensures MatchRequestUrl(u, Template(OriginOf(u.protocol, [Text(hostname)], u.port), toks)) == Match(true, params)
  {
    LiteralOrigin(u, u.protocol, hostname, u.port);
    var none: map<Key, Option<string>> := map[];
    MergeDisjoint(none, pm);
    assert none + pm == pm;
    TemplateResult(u, OriginOf(u.protocol, [Text(hostname)], u.port), toks, [], pc, params);
  }

  /** Captures whose values need no decoding give their values as they are. */
  lemma OnePlain(c: Capture)
    requires c.value.Some? ==> '%' !in c.value.value
    ensures ComponentParams([c]) == map[c.key := c.value]
  {
    var none: seq<Capture> := [];
    PlainCapture(none, c);
    assert none + [c] == [c];
  }

  lemma TwoPlain(c: Capture, d: Capture)
    requires c.value.Some? ==> '%' !in c.value.value
    requires d.value.Some? ==> '%' !in d.value.value
    ensures ComponentParams([c, d]) == map[c.key := c.value][d.key := d.value]
  {
    OnePlain(c);
    PlainCapture([c], d);
    assert [c] + [d] == [c, d];
  }

  lemma ThreePlain(c: Capture, d: Capture, e: Capture)
    requires c.value.Some? ==> '%' !in c.value.value
    requires d.value.Some? ==> '%' !in d.value.value
    requires e.value.Some? ==> '%' !in e.value.value
    ensures ComponentParams([c, d, e]) == map[c.key := c.value][d.key := d.value][e.key := e.value]
  {
    TwoPlain(c, d);
    PlainCapture([c, d], e);
    assert [c, d] + [e] == [c, d, e];
  }

  lemma UpdateIsUnion(k1: Key, v1: Option<string>, k2: Key, v2: Option<string>)
    requires k1 != k2
    ensures map[k1 := v1][k2 := v2] == map[k1 := v1] + map[k2 := v2]
  {
  }

  lemma UpdateTwice(k: Key, v: Option<string>, w: Option<string>)
    ensures map[k := v][k := w] == map[k := w]
  {
  }

  lemma PrependThree<T>(x: T, a: T, b: T, c: T)
    ensures [x] + [a, b, c] == [x, a, b, c]
  {
  }

  lemma PrependFour<T>(x: T, a: T, b: T, c: T, d: T)
    ensures [x] + [a, b, c, d] == [x, a, b, c, d]
  {
  }

  lemma SinglesOfOne(k: Key, v: Option<string>)
    ensures Singles(map[k := v]) == map[k := Single(v)]
  {
  }

  lemma SinglesOfTwo(k1: Key, v1: Option<string>, k2: Key, v2: Option<string>)
    requires k1 != k2
    ensures Singles(map[k1 := v1] + map[k2 := v2]) == map[k1 := Single(v1), k2 := Single(v2)]
  {
  }

  lemma SinglesOfThree(k1: Key, v1: Option<string>, k2: Key, v2: Option<string>, k3: Key, v3: Option<string>)
    requires k1 != k2 && k1 != k3 && k2 != k3
    ensures Singles(map[k1 := v1] + map[k2 := v2][k3 := v3])
         == map[k1 := Single(v1), k2 := Single(v2), k3 := Single(v3)]
  {
  }

  lemma SinglesOfFour(k1: Key, v1: Option<string>, k2: Key, v2: Option<string>,
                      k3: Key, v3: Option<string>, k4: Key, v4: Option<string>)
    requires k1 != k2 && k1 != k3 && k1 != k4 && k2 != k3 && k2 != k4 && k3 != k4
    ensures Singles(map[k1 := v1] + map[k2 := v2][k3 := v3][k4 := v4])
         == map[k1 := Single(v1), k2 := Single(v2), k3 := Single(v3), k4 := Single(v4)]
  {
  }

  /** The test host's origin, which needs no decoding. */
  lemma TestHostOrigin(u: Url)
    requires u.protocol == "https" && u.hostname == "test.mswjs.io" && u.port == ""
    ensures Origin(u) == "https://test.mswjs.io"
  {
  }

  lemma TestHostPlain()
    ensures '%' !in "https://test.mswjs.io"
  {
  }

  // ---------------------------------------------------------------------
  // "supports exact URL" (matchRequestUrl.test.ts:20-49).  After URL
  // parsing, `https://test.mswjs.io` and `https://test.mswjs.io/` are the
  // same URL, with pathname "/"; a trailing slash after a longer pathname
  // is MatchingUrl.ExactIgnoresTrailingSlash.

  lemma ExactUrl()
    ensures MatchRequestUrl(Url("https", "test.mswjs.io", "", [""]), Exact(Url("https", "test.mswjs.io", "", [""])))
         == Match(true, map[])
    ensures MatchRequestUrl(Url("https", "example.com", "", [""]), Exact(Url("https", "test.mswjs.io", "", [""])))
         == Match(false, map[])
  {
  }

  // ---------------------------------------------------------------------
  // "supports leading a wildcard as the entire pattern" (:51-65)

  lemma HrefOfTestHost()
    ensures Href(Url("https", "test.mswjs.io", "", [""])) == "https://test.mswjs.io/"
  {
    TestHostOrigin(Url("https", "test.mswjs.io", "", [""]));
    assert Pathname([""]) == "/";
  }

  lemma HrefOfTestPath()
    ensures Href(Url("https", "test.mswjs.io", "", ["path", "here"])) == "https://test.mswjs.io/path/here"
  {
    TestHostOrigin(Url("https", "test.mswjs.io", "", ["path", "here"]));
    assert Pathname(["path", "here"]) == "/path/here";
  }

  lemma TestHrefsPlain()
    ensures '%' !in "https://test.mswjs.io/" && '%' !in "https://test.mswjs.io/path/here"
  {
  }

  lemma WildcardAsEntirePattern()
    ensures MatchRequestUrl(Url("https", "test.mswjs.io", "", [""]), Everything)
         == Match(true, map[Index(0) := Single(Some("https://test.mswjs.io/"))])
    ensures MatchRequestUrl(Url("https", "test.mswjs.io", "", ["path", "here"]), Everything)
         == Match(true, map[Index(0) := Single(Some("https://test.mswjs.io/path/here"))])
  {
    HrefOfTestHost();
    HrefOfTestPath();
    TestHrefsPlain();
  }

  // ---------------------------------------------------------------------
  // "supports leading a wildcard and path with a single unnamed group" (:67-84)

  // The pattern `*/user/*` gives the origin and everything after `/user/`, for every such URL.
  lemma UserThenWildcard(u: Url, rest: seq<string>)
    requires u.path == ["user"] + rest && |rest| >= 1
    requires '%' !in Origin(u) && '%' !in Join(rest)
    ensures MatchRequestUrl(u, Template(AnyOrigin, [Literal("user"), Wildcard]))
         == Match(true, map[Index(0) := Single(Some(Origin(u))), Index(1) := Single(Some(Join(rest)))])
  {
    assert [Literal("user"), Wildcard] == [Literal("user")] + [Wildcard];
    LiteralSegment("user", "user", [Wildcard], rest, 1);
    TrailingWildcard(rest, 1);
    var c := Capture(Index(1), Some(Join(rest)));
    OnePlain(c);
    SinglesOfTwo(Index(0), Some(Origin(u)), Index(1), Some(Join(rest)));
    AnyOriginResult(u, [Literal("user"), Wildcard], [c], map[Index(1) := Some(Join(rest))],
                    map[Index(0) := Single(Some(Origin(u))), Index(1) := Single(Some(Join(rest)))]);
  }

  lemma JoinedSegments()
    ensures Join(["123"]) == "123" && Join(["123", "456", "789"]) == "123/456/789"
    ensures '%' !in "123" && '%' !in "123/456/789"
  {
  }

  lemma SingleUnnamedGroup()
    ensures MatchRequestUrl(Url("https", "test.mswjs.io", "", ["user", "123"]),
                            Template(AnyOrigin, [Literal("user"), Wildcard]))
         == Match(true, map[Index(0) := Single(Some("https://test.mswjs.io")), Index(1) := Single(Some("123"))])
    ensures MatchRequestUrl(Url("https", "test.mswjs.io", "", ["user", "123", "456", "789"]),
                            Template(AnyOrigin, [Literal("user"), Wildcard]))
         == Match(true, map[Index(0) := Single(Some("https://test.mswjs.io")), Index(1) := Single(Some("123/456/789"))])
  {
    JoinedSegments();
    TestHostPlain();
    var u := Url("https", "test.mswjs.io", "", ["user", "123"]);
    TestHostOrigin(u);
    assert u.path == ["user"] + ["123"];
    UserThenWildcard(u, ["123"]);
    var w := Url("https", "test.mswjs.io", "", ["user", "123", "456", "789"]);
    TestHostOrigin(w);
    assert w.path == ["user"] + ["123", "456", "789"];
    UserThenWildcard(w, ["123", "456", "789"]);
  }

  // ---------------------------------------------------------------------
  // "supports a wildcard and path with multiple unnamed groups" (:86-96)

  // `/w/*` matches a pathname of `w` and at least one more segment, which `*` captures.
  lemma LiteralThenWildcard(w: string, segs: seq<string>, next: nat)
    ensures MatchPath([Literal(w), Wildcard], segs, next)
         == if |segs| >= 2 && segs[0] == w then Some([Capture(Index(next), Some(Join(segs[1..])))]) else None
  {
    assert [Literal(w), Wildcard] == [Literal(w)] + [Wildcard];
    if segs == [] {
      LiteralNeedsSegment(w, [Wildcard], next);
    } else {
      assert segs == [segs[0]] + segs[1..];
      LiteralSegment(w, segs[0], [Wildcard], segs[1..], next);
      if |segs| >= 2 {
        TrailingWildcard(segs[1..], next);
      } else {
        var none: seq<PathToken> := [];
        WildcardFirst(none, segs[1..], next);
        assert [Wildcard] + none == [Wildcard];
      }
    }
  }

  // The first `*` takes one segment: with two or three, `/bar/*` cannot follow.
  lemma FirstOfTwoWildcards(a: string, b: string)
    ensures GreedyWildcard([Literal("bar"), Wildcard], [a, "bar", b], 1, 3)
         == Some([Capture(Index(1), Some(a)), Capture(Index(2), Some(b))])
  {
    var c1, c2 := Capture(Index(1), Some(a)), Capture(Index(2), Some(b));
    var rest := [Literal("bar"), Wildcard];
    var segs := [a, "bar", b];
    assert segs[1..] == ["bar", b] && segs[2..] == [b] && segs[3..] == [];
    LiteralThenWildcard("bar", segs[1..], 2);
    LiteralThenWildcard("bar", segs[2..], 2);
    LiteralThenWildcard("bar", segs[3..], 2);
    assert segs[1..][1..] == [b] && Join([b]) == b;
    forall j | 1 < j <= 3 ensures MatchPath(rest, segs[j..], 2).None? {
    }
    GreedyWildcardLongest(rest, segs, 1, 3, 1);
    assert segs[..1] == [a] && Join([a]) == a;
    assert [c1] + [c2] == [c1, c2];
  }

  lemma TwoWildcardsPath(a: string, b: string)
    ensures MatchPath([Literal("user"), Wildcard, Literal("bar"), Wildcard], ["user", a, "bar", b], 1)
         == Some([Capture(Index(1), Some(a)), Capture(Index(2), Some(b))])
  {
    var rest := [Literal("bar"), Wildcard];
    var segs := [a, "bar", b];
    FirstOfTwoWildcards(a, b);
    WildcardFirst(rest, segs, 1);
    LiteralSegment("user", "user", [Wildcard] + rest, segs, 1);
    assert [Literal("user")] + ([Wildcard] + rest) == [Literal("user"), Wildcard, Literal("bar"), Wildcard];
    assert ["user"] + segs == ["user", a, "bar", b];
  }

  // The pattern `*/user/*/bar/*`, for every URL of that shape.
  lemma TwoWildcards(u: Url, a: string, b: string)
    requires u.path == ["user", a, "bar", b]
    requires '%' !in Origin(u) && '%' !in a && '%' !in b
    ensures MatchRequestUrl(u, Template(AnyOrigin, [Literal("user"), Wildcard, Literal("bar"), Wildcard]))
         == Match(true, map[Index(0) := Single(Some(Origin(u))), Index(1) := Single(Some(a)), Index(2) := Single(Some(b))])
  {
    TwoWildcardsPath(a, b);
    var c, d := Capture(Index(1), Some(a)), Capture(Index(2), Some(b));
    TwoPlain(c, d);
    SinglesOfThree(Index(0), Some(Origin(u)), Index(1), Some(a), Index(2), Some(b));
    AnyOriginResult(u, [Literal("user"), Wildcard, Literal("bar"), Wildcard], [c, d],
                    map[Index(1) := Some(a)][Index(2) := Some(b)],
                    map[Index(0) := Single(Some(Origin(u))), Index(1) := Single(Some(a)), Index(2) := Single(Some(b))]);
  }

  lemma MultipleUnnamedGroups()
    ensures MatchRequestUrl(Url("https", "test.mswjs.io", "", ["user", "123", "bar", "456"]),
                            Template(AnyOrigin, [Literal("user"), Wildcard, Literal("bar"), Wildcard]))
         == Match(true, map[Index(0) := Single(Some("https://test.mswjs.io")),
                            Index(1) := Single(Some("123")), Index(2) := Single(Some("456"))])
  {
    var u := Url("https", "test.mswjs.io", "", ["user", "123", "bar", "456"]);
    TestHostOrigin(u);
    TestHostPlain();
    TwoWildcards(u, "123", "456");
  }

  // ---------------------------------------------------------------------
  // "supports a leading wildcard and a path with wildcards and a single named group" (:98-112)

  lemma NamedThenWildcardPath(v: string, b: string)
    requires v != "" && '/' !in v
    ensures MatchPath([Literal("user"), Param("name"), Literal("bar"), Wildcard], ["user", v, "bar", b], 1)
         == Some([Capture(Name("name"), Some(v)), Capture(Index(1), Some(b))])
  {
    var c1, c0 := Capture(Index(1), Some(b)), Capture(Name("name"), Some(v));
    var rest := [Literal("bar"), Wildcard];
    var segs := ["bar", b];
    LiteralThenWildcard("bar", segs, 1);
    assert segs[1..] == [b] && Join([b]) == b;
    ParamSegment("name", v, rest, segs, 1);
    assert [c0] + [c1] == [c0, c1];
    LiteralSegment("user", "user", [Param("name")] + rest, [v] + segs, 1);
    assert [Literal("user")] + ([Param("name")] + rest) == [Literal("user"), Param("name"), Literal("bar"), Wildcard];
    assert ["user"] + ([v] + segs) == ["user", v, "bar", b];
  }

  // The pattern `*/user/:name/bar/*`, for every URL of that shape.
  lemma NamedThenWildcard(u: Url, v: string, b: string)
    requires u.path == ["user", v, "bar", b] && v != "" && '/' !in v
    requires '%' !in Origin(u) && '%' !in v && '%' !in b
    ensures MatchRequestUrl(u, Template(AnyOrigin, [Literal("user"), Param("name"), Literal("bar"), Wildcard]))
         == Match(true, map[Index(0) := Single(Some(Origin(u))), Name("name") := Single(Some(v)), Index(1) := Single(Some(b))])
  {
    NamedThenWildcardPath(v, b);
    var c, d := Capture(Name("name"), Some(v)), Capture(Index(1), Some(b));
    TwoPlain(c, d);
    SinglesOfThree(Index(0), Some(Origin(u)), Name("name"), Some(v), Index(1), Some(b));
    AnyOriginResult(u, [Literal("user"), Param("name"), Literal("bar"), Wildcard], [c, d],
                    map[Name("name") := Some(v)][Index(1) := Some(b)],
                    map[Index(0) := Single(Some(Origin(u))), Name("name") := Single(Some(v)), Index(1) := Single(Some(b))]);
  }

  lemma SingleNamedGroup()
    ensures MatchRequestUrl(Url("https", "test.mswjs.io", "", ["user", "john", "bar", "456"]),
                            Template(AnyOrigin, [Literal("user"), Param("name"), Literal("bar"), Wildcard]))
         == Match(true, map[Index(0) := Single(Some("https://test.mswjs.io")),
                            Name("name") := Single(Some("john")), Index(1) := Single(Some("456"))])
  {
    var u := Url("https", "test.mswjs.io", "", ["user", "john", "bar", "456"]);
    TestHostOrigin(u);
    TestHostPlain();
    NamedThenWildcard(u, "john", "456");
  }

  // ---------------------------------------------------------------------
  // "supports a leading wildcard and a path with wildcards and a multiple named group" (:114-129)

  // `/:name/bar/*` after the first `*`: it matches only once `*` has taken one segment.
  lemma NamedBarWildcardAfter(a: string, v: string, b: string, j: nat)
    requires v != "" && '/' !in v && '/' !in b
    requires 1 <= j <= 4
    ensures MatchPath([Param("name"), Literal("bar"), Wildcard], [a, v, "bar", b][j..], 2)
         == if j == 1 then Some([Capture(Name("name"), Some(v)), Capture(Index(2), Some(b))]) else None
  {
    var segs := [a, v, "bar", b];
    var tail := [Literal("bar"), Wildcard];
    assert [Param("name"), Literal("bar"), Wildcard] == [Param("name")] + tail;
    if j == 4 {
      assert segs[j..] == [];
      ParamNeedsSegment("name", tail, 2);
    } else {
      var rest := segs[j + 1..];
      assert segs[j..] == [segs[j]] + rest;
      LiteralThenWildcard("bar", rest, 2);
      if segs[j] == "" {
        ParamRejectsEmpty("name", tail, rest, 2);
      } else {
        ParamSegment("name", segs[j], tail, rest, 2);
      }
      if j == 1 {
        assert rest == ["bar", b] && rest[1..] == [b] && Join([b]) == b;
        var c0, c2 := Capture(Name("name"), Some(v)), Capture(Index(2), Some(b));
        assert [c0] + [c2] == [c0, c2];
      }
    }
  }

  // The `*` takes one segment: with more, `/:name/bar/*` cannot follow.
  lemma FirstWildcardTakesOne(a: string, v: string, b: string)
    requires v != "" && '/' !in v && '/' !in b
    ensures GreedyWildcard([Param("name"), Literal("bar"), Wildcard], [a, v, "bar", b], 1, 4)
         == Some([Capture(Index(1), Some(a)), Capture(Name("name"), Some(v)), Capture(Index(2), Some(b))])
  {
    var c1, c0, c2 := Capture(Index(1), Some(a)), Capture(Name("name"), Some(v)), Capture(Index(2), Some(b));
    var rest := [Param("name"), Literal("bar"), Wildcard];
    var segs := [a, v, "bar", b];
    forall j | 1 <= j <= 4 ensures MatchPath(rest, segs[j..], 2) == if j == 1 then Some([c0, c2]) else None {
      NamedBarWildcardAfter(a, v, b, j);
    }
    GreedyWildcardLongest(rest, segs, 1, 4, 1);
    assert segs[..1] == [a] && Join([a]) == a;
    assert [c1] + [c0, c2] == [c1, c0, c2];
  }

  lemma WildcardNamedWildcardPath(a: string, v: string, b: string)
    requires v != "" && '/' !in v && '/' !in b
    ensures MatchPath([Literal("user"), Wildcard, Param("name"), Literal("bar"), Wildcard], ["user", a, v, "bar", b], 1)
         == Some([Capture(Index(1), Some(a)), Capture(Name("name"), Some(v)), Capture(Index(2), Some(b))])
  {
    var rest := [Param("name"), Literal("bar"), Wildcard];
    var segs := [a, v, "bar", b];
    FirstWildcardTakesOne(a, v, b);
    WildcardFirst(rest, segs, 1);
    LiteralSegment("user", "user", [Wildcard] + rest, segs, 1);
    PrependThree(Wildcard, Param("name"), Literal("bar"), Wildcard);
    PrependFour(Literal("user"), Wildcard, Param("name"), Literal("bar"), Wildcard);
    PrependFour("user", a, v, "bar", b);
  }

  // The pattern `*/user/*/:name/bar/*`, for every URL of that shape.
  lemma WildcardNamedWildcard(u: Url, a: string, v: string, b: string)
    requires u.path == ["user", a, v, "bar", b] && v != "" && '/' !in v && '/' !in b
    requires '%' !in Origin(u) && '%' !in a && '%' !in v && '%' !in b
    ensures MatchRequestUrl(u, Template(AnyOrigin, [Literal("user"), Wildcard, Param("name"), Literal("bar"), Wildcard]))
         == Match(true, map[Index(0) := Single(Some(Origin(u))), Index(1) := Single(Some(a)),
                            Name("name") := Single(Some(v)), Index(2) := Single(Some(b))])
  {
    WildcardNamedWildcardPath(a, v, b);
    var c, d, e := Capture(Index(1), Some(a)), Capture(Name("name"), Some(v)), Capture(Index(2), Some(b));
    ThreePlain(c, d, e);
    SinglesOfFour(Index(0), Some(Origin(u)), Index(1), Some(a), Name("name"), Some(v), Index(2), Some(b));
    AnyOriginResult(u, [Literal("user"), Wildcard, Param("name"), Literal("bar"), Wildcard], [c, d, e],
                    map[Index(1) := Some(a)][Name("name") := Some(v)][Index(2) := Some(b)],
                    map[Index(0) := Single(Some(Origin(u))), Index(1) := Single(Some(a)),
                        Name("name") := Single(Some(v)), Index(2) := Single(Some(b))]);
  }

  lemma MultipleNamedGroup()
    ensures MatchRequestUrl(Url("https", "test.mswjs.io", "", ["user", "foo", "john", "bar", "456"]),
                            Template(AnyOrigin, [Literal("user"), Wildcard, Param("name"), Literal("bar"), Wildcard]))
         == Match(true, map[Index(0) := Single(Some("https://test.mswjs.io")), Index(1) := Single(Some("foo")),
                            Name("name") := Single(Some("john")), Index(2) := Single(Some("456"))])
  {
    var u := Url("https", "test.mswjs.io", "", ["user", "foo", "john", "bar", "456"]);
    TestHostOrigin(u);
    TestHostPlain();
    WildcardNamedWildcard(u, "foo", "john", "456");
  }

  // ---------------------------------------------------------------------
  // "merges multiple same-named groups into an array of values" (:131-166)

  /** A name given a value by both components holds both values, origin host. */
  lemma SharedKey(k: Key, x: Option<string>, y: Option<string>)
    ensures MergeComponents([map[k := x], map[k := y]]) == map[k := Multiple([x, y])]
  {
    forall j ensures j in MergeComponents([map[k := x], map[k := y]]) <==> j == k {
      TwoComponents(map[k := x], map[k := y], j);
    }
    TwoComponents(map[k := x], map[k := y], k);
  }

  /** `:segment.com` against a hostname `host.com` captures what precedes `.com`. */
  lemma LabelThenCom(host: string)
    requires host != "" && HostSeparator !in host
    ensures MatchParts([Group("segment"), Text(".com")], host + ".com", HostSeparator)
         == Some([Capture(Name("segment"), Some(host))])
  {
    var noParts: seq<Part> := [];
    TextFirst(".com", noParts, "", HostSeparator);
    assert [Text(".com")] + noParts == [Text(".com")] && ".com" + "" == ".com";
    GroupBeforeText("segment", host, ".com", noParts, ".com", HostSeparator);
    assert [Group("segment"), Text(".com")] + noParts == [Group("segment"), Text(".com")];
    var c := Capture(Name("segment"), Some(host));
    assert [c] + [] == [c];
  }

  lemma UserSegmentBarPath(v: string)
    requires v != "" && '/' !in v
    ensures MatchPath([Literal("user"), Param("segment"), Literal("bar")], ["user", v, "bar"], 0)
         == Some([Capture(Name("segment"), Some(v))])
  {
    var none: seq<PathToken> := [];
    var noSegs: seq<string> := [];
    LiteralSegment("bar", "bar", none, noSegs, 0);
    assert [Literal("bar")] + none == [Literal("bar")] && ["bar"] + noSegs == ["bar"];
    ParamSegment("segment", v, [Literal("bar")], ["bar"], 0);
    var c := Capture(Name("segment"), Some(v));
    assert [c] + [] == [c];
    LiteralSegment("user", "user", [Param("segment"), Literal("bar")], [v, "bar"], 0);
    assert [Param("segment")] + [Literal("bar")] == [Param("segment"), Literal("bar")];
    assert [Literal("user")] + [Param("segment"), Literal("bar")] == [Literal("user"), Param("segment"), Literal("bar")];
    assert [v] + ["bar"] == [v, "bar"] && ["user"] + [v, "bar"] == ["user", v, "bar"];
  }

  // The pattern `https://:segment.com/user/:segment/bar`, for every URL of that shape.
  lemma SegmentAcrossComponents(u: Url, host: string, v: string)
    requires u.protocol == "https" && u.port == "" && u.hostname == host + ".com" && u.path == ["user", v, "bar"]
    requires host != "" && '.' !in host && v != "" && '/' !in v && '%' !in host && '%' !in v
    ensures MatchRequestUrl(u, Template(OriginOf("https", [Group("segment"), Text(".com")], ""),
                                        [Literal("user"), Param("segment"), Literal("bar")]))
         == Match(true, map[Name("segment") := Multiple([Some(host), Some(v)])])
  {
    LabelThenCom(host);
    UserSegmentBarPath(v);
    var oc, pc := Capture(Name("segment"), Some(host)), Capture(Name("segment"), Some(v));
    OnePlain(oc);
    OnePlain(pc);
    SharedKey(Name("segment"), Some(host), Some(v));
    TemplateResult(u, OriginOf("https", [Group("segment"), Text(".com")], ""),
                   [Literal("user"), Param("segment"), Literal("bar")], [oc], [pc],
                   map[Name("segment") := Multiple([Some(host), Some(v)])]);
  }

  lemma ExampleHost()
    ensures "example" + ".com" == "example.com"
  {
  }

  lemma SegmentInOriginAndPath()
    ensures MatchRequestUrl(Url("https", "example.com", "", ["user", "abc", "bar"]),
                            Template(OriginOf("https", [Group("segment"), Text(".com")], ""),
                                     [Literal("user"), Param("segment"), Literal("bar")]))
         == Match(true, map[Name("segment") := Multiple([Some("example"), Some("abc")])])
  {
    ExampleHost();
    SegmentAcrossComponents(Url("https", "example.com", "", ["user", "abc", "bar"]), "example", "abc");
  }

  lemma BarThenSegment(y: string)
    requires y != "" && '/' !in y
    ensures MatchPath([Literal("bar"), Param("segment")], ["bar", y], 0) == Some([Capture(Name("segment"), Some(y))])
  {
    var none: seq<PathToken> := [];
    var noSegs: seq<string> := [];
    var cy := Capture(Name("segment"), Some(y));
    ParamSegment("segment", y, none, noSegs, 0);
    assert [Param("segment")] + none == [Param("segment")] && [y] + noSegs == [y] && [cy] + [] == [cy];
    LiteralSegment("bar", "bar", [Param("segment")], [y], 0);
    assert [Literal("bar")] + [Param("segment")] == [Literal("bar"), Param("segment")] && ["bar"] + [y] == ["bar", y];
  }

  lemma RepeatedSegmentPath(x: string, y: string)
    requires x != "" && '/' !in x && y != "" && '/' !in y
    ensures MatchPath([Literal("user"), Param("segment"), Literal("bar"), Param("segment")], ["user", x, "bar", y], 0)
         == Some([Capture(Name("segment"), Some(x)), Capture(Name("segment"), Some(y))])
  {
    var cx, cy := Capture(Name("segment"), Some(x)), Capture(Name("segment"), Some(y));
    var rest := [Literal("bar"), Param("segment")];
    BarThenSegment(y);
    ParamSegment("segment", x, rest, ["bar", y], 0);
    assert [cx] + [cy] == [cx, cy];
    LiteralSegment("user", "user", [Param("segment")] + rest, [x] + ["bar", y], 0);
    assert [Literal("user")] + ([Param("segment")] + rest) == [Literal("user"), Param("segment"), Literal("bar"), Param("segment")];
    assert ["user"] + ([x] + ["bar", y]) == ["user", x, "bar", y];
  }

  // The pattern `https://example.com/user/:segment/bar/:segment`, for every URL of that shape.
  lemma SegmentWithinComponent(u: Url, x: string, y: string)
    requires u.protocol == "https" && u.hostname == "example.com" && u.port == "" && u.path == ["user", x, "bar", y]
    requires x != "" && '/' !in x && y != "" && '/' !in y && '%' !in x && '%' !in y
    ensures MatchRequestUrl(u, Template(OriginOf("https", [Text("example.com")], ""),
                                        [Literal("user"), Param("segment"), Literal("bar"), Param("segment")]))
         == Match(true, map[Name("segment") := Single(Some(y))])
  {
    RepeatedSegmentPath(x, y);
    var cx, cy := Capture(Name("segment"), Some(x)), Capture(Name("segment"), Some(y));
    TwoPlain(cx, cy);
    UpdateTwice(Name("segment"), Some(x), Some(y));
    SinglesOfOne(Name("segment"), Some(y));
    LiteralOriginResult(u, "example.com", [Literal("user"), Param("segment"), Literal("bar"), Param("segment")],
                        [cx, cy], map[Name("segment") := Some(y)], map[Name("segment") := Single(Some(y))]);
  }

  lemma SegmentTwiceInPath()
    ensures MatchRequestUrl(Url("https", "example.com", "", ["user", "abc", "bar", "def"]),
                            Template(OriginOf("https", [Text("example.com")], ""),
                                     [Literal("user"), Param("segment"), Literal("bar"), Param("segment")]))
         == Match(true, map[Name("segment") := Single(Some("def"))])
  {
    SegmentWithinComponent(Url("https", "example.com", "", ["user", "abc", "bar", "def"]), "abc", "def");
  }

  // ---------------------------------------------------------------------
  // "decodes group matches" (:168-179)

  // The pattern `https://test.mswjs.io/reflect-url/:url` gives back any ASCII
  // text sent through `encodeURIComponent` in the last segment.
  lemma DecodesEncodedGroup(url: string)
    requires PercentEncoding.IsAscii(url) && url != ""
    ensures MatchRequestUrl(Url("https", "test.mswjs.io", "", ["reflect-url", PercentEncoding.Encode(url)]),
                            Template(OriginOf("https", [Text("test.mswjs.io")], ""), [Literal("reflect-url"), Param("url")]))
         == Match(true, map[Name("url") := Single(Some(url))])
  {
    var e := PercentEncoding.Encode(url);
    var u := Url("https", "test.mswjs.io", "", ["reflect-url", e]);
    var none: seq<PathToken> := [];
    var noSegs: seq<string> := [];
    ParamSegment("url", e, none, noSegs, 0);
    var c := Capture(Name("url"), Some(e));
    assert [Param("url")] + none == [Param("url")] && [e] + noSegs == [e] && [c] + [] == [c];
    LiteralSegment("reflect-url", "reflect-url", [Param("url")], [e], 0);
    assert [Literal("reflect-url")] + [Param("url")] == [Literal("reflect-url"), Param("url")];
    assert ["reflect-url"] + [e] == u.path;
    assert [c][..0] == [];
    PercentEncoding.DecodeEncode(url);
    assert ComponentParams([c]) == map[Name("url") := Some(url)];
    SinglesOfOne(Name("url"), Some(url));
    LiteralOriginResult(u, "test.mswjs.io", [Literal("reflect-url"), Param("url")], [c],
                        map[Name("url") := Some(url)], map[Name("url") := Single(Some(url))]);
  }

  lemma ReflectedUrlIsAscii()
    ensures PercentEncoding.IsAscii("http://example.com:5001/example")
  {
  }

  lemma DecodesGroupMatches()
    ensures MatchRequestUrl(Url("https", "test.mswjs.io", "", ["reflect-url", PercentEncoding.Encode("http://example.com:5001/example")]),
                            Template(OriginOf("https", [Text("test.mswjs.io")], ""), [Literal("reflect-url"), Param("url")]))
         == Match(true, map[Name("url") := Single(Some("http://example.com:5001/example"))])
  {
    ReflectedUrlIsAscii();
    DecodesEncodedGroup("http://example.com:5001/example");
  }

  // ---------------------------------------------------------------------
  // "supports optional groups" (:181-209)

  // The pattern `https://test.mswjs.io/user/:userId?`, with the group present.
  lemma OptionalGroupPresent(u: Url, v: string)
    requires u.protocol == "https" && u.hostname == "test.mswjs.io" && u.port == "" && u.path == ["user", v]
    requires v != "" && '%' !in v
    ensures MatchRequestUrl(u, Template(OriginOf("https", [Text("test.mswjs.io")], ""),
                                        [Literal("user"), OptionalGroup("userId")]))
         == Match(true, map[Name("userId") := Single(Some(v))])
  {
    var none: seq<PathToken> := [];
    var noSegs: seq<string> := [];
    OptionalPresent("userId", v, none, noSegs, 0);
    var c := Capture(Name("userId"), Some(v));
    assert [OptionalGroup("userId")] + none == [OptionalGroup("userId")] && [v] + noSegs == [v] && [c] + [] == [c];
    LiteralSegment("user", "user", [OptionalGroup("userId")], [v], 0);
    assert [Literal("user")] + [OptionalGroup("userId")] == [Literal("user"), OptionalGroup("userId")];
    assert ["user"] + [v] == u.path;
    OnePlain(c);
    SinglesOfOne(Name("userId"), Some(v));
    LiteralOriginResult(u, "test.mswjs.io", [Literal("user"), OptionalGroup("userId")], [c],
                        map[Name("userId") := Some(v)], map[Name("userId") := Single(Some(v))]);
  }

  // The same pattern with the group absent: the key is still there, without a value.
  lemma OptionalGroupAbsent(u: Url)
    requires u.protocol == "https" && u.hostname == "test.mswjs.io" && u.port == "" && u.path == ["user"]
    ensures MatchRequestUrl(u, Template(OriginOf("https", [Text("test.mswjs.io")], ""),
                                        [Literal("user"), OptionalGroup("userId")]))
         == Match(true, map[Name("userId") := Single(None)])
  {
    var noSegs: seq<string> := [];
    OptionalAbsent("userId", 0);
    LiteralSegment("user", "user", [OptionalGroup("userId")], noSegs, 0);
    assert [Literal("user")] + [OptionalGroup("userId")] == [Literal("user"), OptionalGroup("userId")];
    assert ["user"] + noSegs == u.path;
    var c := Capture(Name("userId"), None);
    OnePlain(c);
    SinglesOfOne(Name("userId"), None);
    LiteralOriginResult(u, "test.mswjs.io", [Literal("user"), OptionalGroup("userId")], [c],
                        map[Name("userId") := None], map[Name("userId") := Single(None)]);
  }

  lemma OptionalGroups()
    ensures MatchRequestUrl(Url("https", "test.mswjs.io", "", ["user", "abc-123"]),
                            Template(OriginOf("https", [Text("test.mswjs.io")], ""),
                                     [Literal("user"), OptionalGroup("userId")]))
         == Match(true, map[Name("userId") := Single(Some("abc-123"))])
    ensures MatchRequestUrl(Url("https", "test.mswjs.io", "", ["user"]),
                            Template(OriginOf("https", [Text("test.mswjs.io")], ""),
                                     [Literal("user"), OptionalGroup("userId")]))
         == Match(true, map[Name("userId") := Single(None)])
  {
    OptionalGroupPresent(Url("https", "test.mswjs.io", "", ["user", "abc-123"]), "abc-123");
    OptionalGroupAbsent(Url("https", "test.mswjs.io", "", ["user"]));
  }

  // ---------------------------------------------------------------------
  // "supports repeated groups" (:211-254)

  // The pattern `https://example.com/product/:action+`: the group takes the
  // rest of the pathname, slashes included.
  lemma RepeatedGroupToEnd(u: Url, rest: seq<string>)
    requires u.protocol == "https" && u.hostname == "example.com" && u.port == "" && u.path == ["product"] + rest
    requires |rest| >= 1 && "" !in rest && '%' !in Join(rest)
    ensures MatchRequestUrl(u, Template(OriginOf("https", [Text("example.com")], ""),
                                        [Literal("product"), RepeatedGroup("action")]))
         == Match(true, map[Name("action") := Single(Some(Join(rest)))])
  {
    TrailingRepeated("action", rest, 0);
    LiteralSegment("product", "product", [RepeatedGroup("action")], rest, 0);
    assert [Literal("product")] + [RepeatedGroup("action")] == [Literal("product"), RepeatedGroup("action")];
    var c := Capture(Name("action"), Some(Join(rest)));
    OnePlain(c);
    SinglesOfOne(Name("action"), Some(Join(rest)));
    LiteralOriginResult(u, "example.com", [Literal("product"), RepeatedGroup("action")], [c],
                        map[Name("action") := Some(Join(rest))], map[Name("action") := Single(Some(Join(rest)))]);
  }

  // `:name+` before tokens that match exactly one more segment takes every segment but the last.
  lemma RepeatedBeforeLast(name: string, rest: seq<PathToken>, xs: seq<string>, last: string)
    requires |xs| >= 1 && "" !in xs
    requires MatchPath(rest, [last], 0) == Some([]) && MatchPath(rest, [], 0).None?
    ensures GreedyRepeated(name, rest, xs + [last], 0, |xs| + 1) == Some([Capture(Name(name), Some(Join(xs)))])
  {
    var segs := xs + [last];
    var m := |xs|;
    assert segs[..m] == xs && segs[m..] == [last] && segs[m + 1..] == [];
    GreedyRepeatedLongest(name, rest, segs, 0, m + 1, m);
    var c := Capture(Name(name), Some(Join(xs)));
    assert [c] + [] == [c];
  }

  lemma EndMatchesEnd()
    ensures MatchPath([Literal("end")], ["end"], 0) == Some([]) && MatchPath([Literal("end")], [], 0).None?
  {
    var none: seq<PathToken> := [];
    var noSegs: seq<string> := [];
    LiteralSegment("end", "end", none, noSegs, 0);
    LiteralNeedsSegment("end", none, 0);
    assert [Literal("end")] + none == [Literal("end")] && ["end"] + noSegs == ["end"];
  }

  // `/w/:name+` followed by tokens that match exactly one more segment:
  // the group takes every segment after `w` but the last.
  lemma RepeatedBeforeLastPath(w: string, name: string, rest: seq<PathToken>, xs: seq<string>, last: string)
    requires |xs| >= 1 && "" !in xs
    requires MatchPath(rest, [last], 0) == Some([]) && MatchPath(rest, [], 0).None?
    ensures MatchPath([Literal(w), RepeatedGroup(name)] + rest, [w] + xs + [last], 0)
         == Some([Capture(Name(name), Some(Join(xs)))])
  {
    RepeatedBeforeLast(name, rest, xs, last);
    RepeatedFirst(name, rest, xs + [last], 0);
    LiteralSegment(w, w, [RepeatedGroup(name)] + rest, xs + [last], 0);
    assert [Literal(w)] + ([RepeatedGroup(name)] + rest) == [Literal(w), RepeatedGroup(name)] + rest;
    assert [w] + (xs + [last]) == [w] + xs + [last];
  }

  // The pattern `https://example.com/product/:action+/end`, for every URL of that shape.
  lemma RepeatedGroupBeforeEnd(u: Url, xs: seq<string>)
    requires u.protocol == "https" && u.hostname == "example.com" && u.port == "" && u.path == ["product"] + xs + ["end"]
    requires |xs| >= 1 && "" !in xs && '%' !in Join(xs)
    ensures MatchRequestUrl(u, Template(OriginOf("https", [Text("example.com")], ""),
                                        [Literal("product"), RepeatedGroup("action"), Literal("end")]))
         == Match(true, map[Name("action") := Single(Some(Join(xs)))])
  {
    EndMatchesEnd();
    RepeatedBeforeLastPath("product", "action", [Literal("end")], xs, "end");
    assert [Literal("product"), RepeatedGroup("action")] + [Literal("end")]
        == [Literal("product"), RepeatedGroup("action"), Literal("end")];
    var c := Capture(Name("action"), Some(Join(xs)));
    OnePlain(c);
    SinglesOfOne(Name("action"), Some(Join(xs)));
    LiteralOriginResult(u, "example.com", [Literal("product"), RepeatedGroup("action"), Literal("end")], [c],
                        map[Name("action") := Some(Join(xs))], map[Name("action") := Single(Some(Join(xs)))]);
  }

  lemma ProductJoins()
    ensures Join(["one"]) == "one" && Join(["one", "two", "three"]) == "one/two/three" && Join(["one", "two"]) == "one/two"
    ensures '%' !in "one" && '%' !in "one/two/three" && '%' !in "one/two"
  {
  }

  lemma RepeatedGroups()
    ensures MatchRequestUrl(Url("https", "example.com", "", ["product", "one"]),
                            Template(OriginOf("https", [Text("example.com")], ""),
                                     [Literal("product"), RepeatedGroup("action")]))
         == Match(true, map[Name("action") := Single(Some("one"))])
    ensures MatchRequestUrl(Url("https", "example.com", "", ["product", "one", "two", "three"]),
                            Template(OriginOf("https", [Text("example.com")], ""),
                                     [Literal("product"), RepeatedGroup("action")]))
         == Match(true, map[Name("action") := Single(Some("one/two/three"))])
    ensures MatchRequestUrl(Url("https", "example.com", "", ["product", "one", "two", "end"]),
                            Template(OriginOf("https", [Text("example.com")], ""),
                                     [Literal("product"), RepeatedGroup("action"), Literal("end")]))
         == Match(true, map[Name("action") := Single(Some("one/two"))])
  {
    ProductJoins();
    assert ["product", "one"] == ["product"] + ["one"];
    RepeatedGroupToEnd(Url("https", "example.com", "", ["product", "one"]), ["one"]);
    assert ["product", "one", "two", "three"] == ["product"] + ["one", "two", "three"];
    RepeatedGroupToEnd(Url("https", "example.com", "", ["product", "one", "two", "three"]), ["one", "two", "three"]);
    assert ["product", "one", "two", "end"] == ["product"] + ["one", "two"] + ["end"];
    RepeatedGroupBeforeEnd(Url("https", "example.com", "", ["product", "one", "two", "end"]), ["one", "two"]);
  }

  // ---------------------------------------------------------------------
  // "supports in-component matches" (:256-269)

  // `:first.:second` splits a segment at its first dot.
  lemma FirstDotSecond(a: string, b: string)
    requires a != "" && b != "" && '.' !in a && PathSeparator !in a && PathSeparator !in b
    ensures MatchParts([Group("first"), Text("."), Group("second")], a + "." + b, PathSeparator)
         == Some([Capture(Name("first"), Some(a)), Capture(Name("second"), Some(b))])
  {
    LoneGroup("second", b, PathSeparator);
    TextFirst(".", [Group("second")], b, PathSeparator);
    assert [Text(".")] + [Group("second")] == [Text("."), Group("second")];
    GroupBeforeText("first", a, ".", [Group("second")], "." + b, PathSeparator);
    assert [Group("first"), Text(".")] + [Group("second")] == [Group("first"), Text("."), Group("second")];
    assert a + "." + b == a + ("." + b);
    var c1, c2 := Capture(Name("first"), Some(a)), Capture(Name("second"), Some(b));
    assert [c1] + [c2] == [c1, c2];
  }

  // `/product/:first.:second` on `/product/a.b`.
  lemma InComponentPath(a: string, b: string)
    requires a != "" && b != "" && '.' !in a && '/' !in a && '/' !in b
    ensures MatchPath([Literal("product"), Segment([Group("first"), Text("."), Group("second")])], ["product", a + "." + b], 0)
         == Some([Capture(Name("first"), Some(a)), Capture(Name("second"), Some(b))])
  {
    var parts := [Group("first"), Text("."), Group("second")];
    var none: seq<PathToken> := [];
    var noSegs: seq<string> := [];
    FirstDotSecond(a, b);
    SegmentFirst(parts, a + "." + b, none, noSegs, 0);
    var c1, c2 := Capture(Name("first"), Some(a)), Capture(Name("second"), Some(b));
    assert [Segment(parts)] + none == [Segment(parts)] && [a + "." + b] + noSegs == [a + "." + b];
    assert [c1, c2] + [] == [c1, c2];
    LiteralSegment("product", "product", [Segment(parts)], [a + "." + b], 0);
    assert [Literal("product")] + [Segment(parts)] == [Literal("product"), Segment(parts)];
    assert ["product"] + [a + "." + b] == ["product", a + "." + b];
  }

  // The pattern `https://example.com/product/:first.:second`, for every URL of that shape.
  lemma InComponentGroups(u: Url, a: string, b: string)
    requires u.protocol == "https" && u.hostname == "example.com" && u.port == "" && u.path == ["product", a + "." + b]
    requires a != "" && b != "" && '.' !in a && '/' !in a && '/' !in b && '%' !in a && '%' !in b
    ensures MatchRequestUrl(u, Template(OriginOf("https", [Text("example.com")], ""),
                                        [Literal("product"), Segment([Group("first"), Text("."), Group("second")])]))
         == Match(true, map[Name("first") := Single(Some(a)), Name("second") := Single(Some(b))])
  {
    InComponentPath(a, b);
    var c1, c2 := Capture(Name("first"), Some(a)), Capture(Name("second"), Some(b));
    TwoPlain(c1, c2);
    SinglesOfTwo(Name("first"), Some(a), Name("second"), Some(b));
    UpdateIsUnion(Name("first"), Some(a), Name("second"), Some(b));
    LiteralOriginResult(u, "example.com", [Literal("product"), Segment([Group("first"), Text("."), Group("second")])], [c1, c2],
                        map[Name("first") := Some(a)] + map[Name("second") := Some(b)],
                        map[Name("first") := Single(Some(a)), Name("second") := Single(Some(b))]);
  }

  lemma OneDotTwo()
    ensures "one" + "." + "two" == "one.two"
  {
  }

  lemma InComponentMatches()
    ensures MatchRequestUrl(Url("https", "example.com", "", ["product", "one.two"]),
                            Template(OriginOf("https", [Text("example.com")], ""),
                                     [Literal("product"), Segment([Group("first"), Text("."), Group("second")])]))
         == Match(true, map[Name("first") := Single(Some("one")), Name("second") := Single(Some("two"))])
  {
    OneDotTwo();
    InComponentGroups(Url("https", "example.com", "", ["product", "one.two"]), "one", "two");
  }
}
