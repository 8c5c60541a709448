/**
 * What the pathname matcher `MatchPath` computes: it succeeds exactly on
 * the pathnames the tokens describe, its captures put back into the tokens
 * give the pathname again, its keys are the declared ones (unnamed groups
 * numbered in order), and `*` and `:name+` take the most segments that let
 * the rest match.
 */
module MatchingPath {
  import opened Wrappers
  import opened Urls
  import opened Matching
  import opened MatchingParts

  /** The number of groups the tokens declare. */
  function CaptureCount(toks: seq<PathToken>): nat {
    if toks == [] then 0
    else (if toks[0].Segment? then |PartKeys(toks[0].parts)| else 1) + CaptureCount(toks[1..])
  }

  /**
   * The keys the tokens declare, in declaration order, the unnamed groups
   * numbered from `next`.
   */
  function PathKeys(toks: seq<PathToken>, next: nat): (keys: seq<Key>)
    ensures |keys| == CaptureCount(toks)
  {
    if toks == [] then []
    else match toks[0]
      case Segment(parts) => PartKeys(parts) + PathKeys(toks[1..], next)
      case OptionalGroup(name) => [Name(name)] + PathKeys(toks[1..], next)
      case RepeatedGroup(name) => [Name(name)] + PathKeys(toks[1..], next)
      case Wildcard => [Index(next)] + PathKeys(toks[1..], next + 1)
  }

  /** The positions of the unnamed keys, in order. */
  function Positions(keys: seq<Key>): seq<nat> {
    if keys == [] then []
    else (if keys[0].Index? then [keys[0].index] else []) + Positions(keys[1..])
  }

  /** `[from, from + 1, ..., from + count - 1]`. */
  function Range(from: nat, count: nat): seq<nat>
    decreases count
  {
    if count == 0 then [] else [from] + Range(from + 1, count - 1)
  }

  /** The tokens with each group replaced by its capture; an absent optional group leaves nothing. */
  ghost function RenderPath(toks: seq<PathToken>, caps: seq<Capture>): string
    requires |caps| == CaptureCount(toks)
  {
    if toks == [] then ""
    else match toks[0]
      case Segment(parts) =>
        var m := |PartKeys(parts)|;
        "/" + RenderParts(parts, caps[..m]) + RenderPath(toks[1..], caps[m..])
      case OptionalGroup(_) =>
        (if caps[0].value.Some? then "/" + caps[0].value.value else "") + RenderPath(toks[1..], caps[1..])
      case RepeatedGroup(_) =>
        "/" + ValueText(caps[0]) + RenderPath(toks[1..], caps[1..])
      case Wildcard =>
        "/" + ValueText(caps[0]) + RenderPath(toks[1..], caps[1..])
  }

  /**
   * The segment lists the tokens describe: a segment token one segment its
   * parts describe, `:name?` at most one non-empty segment, `:name+` one or
   * more non-empty segments, `*` one or more segments of any content.
   */
  ghost predicate PathAccepts(toks: seq<PathToken>, segs: seq<string>)
    decreases |toks|
  {
    if toks == [] then segs == []
    else match toks[0]
      case Segment(parts) =>
        |segs| >= 1 && PartsAccept(parts, segs[0], PathSeparator) && PathAccepts(toks[1..], segs[1..])
      case OptionalGroup(_) =>
        (|segs| >= 1 && segs[0] != "" && PathAccepts(toks[1..], segs[1..])) || PathAccepts(toks[1..], segs)
      case RepeatedGroup(_) =>
        exists j :: 1 <= j <= |segs| && "" !in segs[..j] && PathAccepts(toks[1..], segs[j..])
      case Wildcard =>
        exists j :: 1 <= j <= |segs| && PathAccepts(toks[1..], segs[j..])
  }

  /** Unnamed groups are numbered consecutively in declaration order; named groups take no number. */
  lemma {:induction false} PathPositions(toks: seq<PathToken>, next: nat)
    ensures Positions(PathKeys(toks, next)) == Range(next, WildcardCount(toks))
  {
    if toks != [] {
      var rest := toks[1..];
      match toks[0]
      case Segment(parts) =>
        PartPositions(parts);
        PositionsAppend(PartKeys(parts), PathKeys(rest, next));
        PathPositions(rest, next);
      case OptionalGroup(name) =>
        PositionsAppend([Name(name)], PathKeys(rest, next));
        PathPositions(rest, next);
      case RepeatedGroup(name) =>
        PositionsAppend([Name(name)], PathKeys(rest, next));
        PathPositions(rest, next);
      case Wildcard =>
        PositionsAppend([Index(next)], PathKeys(rest, next + 1));
        PathPositions(rest, next + 1);
    }
  }

  lemma {:induction false} PartPositions(parts: seq<Part>)
    ensures Positions(PartKeys(parts)) == []
  {
    if parts != [] {
      PositionsAppend(if parts[0].Group? then [Name(parts[0].name)] else [], PartKeys(parts[1..]));
      PartPositions(parts[1..]);
    }
  }

  lemma {:induction false} PositionsAppend(a: seq<Key>, b: seq<Key>)
    ensures Positions(a + b) == Positions(a) + Positions(b)
  {
    if a == [] {
      assert a + b == b;
    } else {
      var head := if a[0].Index? then [a[0].index] else [];
      assert (a + b)[0] == a[0] && (a + b)[1..] == a[1..] + b;
      PositionsAppend(a[1..], b);
      assert Positions(a + b) == head + (Positions(a[1..]) + Positions(b));
      assert head + (Positions(a[1..]) + Positions(b)) == (head + Positions(a[1..])) + Positions(b);
    }
  }

  lemma {:induction false} KeysOfAppend(a: seq<Capture>, b: seq<Capture>)
    ensures KeysOf(a + b) == KeysOf(a) + KeysOf(b)
  {
    assert |KeysOf(a + b)| == |KeysOf(a) + KeysOf(b)|;
    forall i | 0 <= i < |a + b|
      ensures KeysOf(a + b)[i] == (KeysOf(a) + KeysOf(b))[i]
    {
    }
  }

  /** The captures of a successful match carry the declared keys and render back to the pathname. */
  lemma {:induction false} PathSound(toks: seq<PathToken>, segs: seq<string>, next: nat)
    requires MatchPath(toks, segs, next).Some?
    ensures KeysOf(MatchPath(toks, segs, next).value) == PathKeys(toks, next)
    ensures RenderPath(toks, MatchPath(toks, segs, next).value) == Pathname(segs)
    decreases |toks|, 1, 0
  {
    if toks != [] {
      var rest := toks[1..];
      var caps := MatchPath(toks, segs, next).value;
      match toks[0]
      case Segment(parts) =>
        var own := MatchParts(parts, segs[0], PathSeparator).value;
        var tail := MatchPath(rest, segs[1..], next).value;
        PartsSound(parts, segs[0], PathSeparator);
        PathSound(rest, segs[1..], next);
        KeysOfAppend(own, tail);
        assert caps == own + tail;
        assert caps[..|own|] == own && caps[|own|..] == tail;
        assert Pathname(segs) == "/" + segs[0] + Pathname(segs[1..]);
      case OptionalGroup(name) =>
        var present := if segs != [] && segs[0] != "" then MatchPath(rest, segs[1..], next) else None;
        if present.Some? {
          PathSound(rest, segs[1..], next);
          assert caps[1..] == present.value;
        } else {
          var tail := MatchPath(rest, segs, next).value;
          PathSound(rest, segs, next);
          assert caps[1..] == tail;
        }
      case RepeatedGroup(name) =>
        GreedyRepeatedSound(name, rest, segs, next, |segs|);
        assert [RepeatedGroup(name)] + rest == toks;
      case Wildcard =>
        GreedyWildcardSound(rest, segs, next, |segs|);
        assert [Wildcard] + rest == toks;
    }
  }

  lemma {:induction false} GreedyRepeatedSound(name: string, rest: seq<PathToken>, segs: seq<string>, next: nat, k: nat)
    requires k <= |segs| && GreedyRepeated(name, rest, segs, next, k).Some?
    ensures KeysOf(GreedyRepeated(name, rest, segs, next, k).value) == PathKeys([RepeatedGroup(name)] + rest, next)
    ensures RenderPath([RepeatedGroup(name)] + rest, GreedyRepeated(name, rest, segs, next, k).value) == Pathname(segs)
    decreases |rest| + 1, 0, k
  {
    var toks := [RepeatedGroup(name)] + rest;
    assert toks[1..] == rest;
    var tail := if "" !in segs[..k] then MatchPath(rest, segs[k..], next) else None;
    if tail.Some? {
      PathSound(rest, segs[k..], next);
      var caps := GreedyRepeated(name, rest, segs, next, k).value;
      assert caps[1..] == tail.value;
      PathnameSplit(segs, k);
    } else {
      GreedyRepeatedSound(name, rest, segs, next, k - 1);
    }
  }

  lemma {:induction false} GreedyWildcardSound(rest: seq<PathToken>, segs: seq<string>, next: nat, k: nat)
    requires k <= |segs| && GreedyWildcard(rest, segs, next, k).Some?
    ensures KeysOf(GreedyWildcard(rest, segs, next, k).value) == PathKeys([Wildcard] + rest, next)
    ensures RenderPath([Wildcard] + rest, GreedyWildcard(rest, segs, next, k).value) == Pathname(segs)
    decreases |rest| + 1, 0, k
  {
    var toks := [Wildcard] + rest;
    assert toks[1..] == rest;
    match MatchPath(rest, segs[k..], next + 1)
    case Some(tail) =>
      PathSound(rest, segs[k..], next + 1);
      var caps := GreedyWildcard(rest, segs, next, k).value;
      assert caps[1..] == tail;
      PathnameSplit(segs, k);
    case None =>
      GreedyWildcardSound(rest, segs, next, k - 1);
  }

  /** `MatchPath` succeeds exactly on the segment lists the tokens describe. */
  lemma {:induction false} PathComplete(toks: seq<PathToken>, segs: seq<string>, next: nat)
    ensures MatchPath(toks, segs, next).Some? <==> PathAccepts(toks, segs)
    decreases |toks|, 1, 0
  {
    if toks != [] {
      var rest := toks[1..];
      match toks[0]
      case Segment(parts) =>
        if segs != [] {
          PartsComplete(parts, segs[0], PathSeparator);
          PathComplete(rest, segs[1..], next);
        }
      case OptionalGroup(name) =>
        if segs != [] && segs[0] != "" {
          PathComplete(rest, segs[1..], next);
        }
        PathComplete(rest, segs, next);
      case RepeatedGroup(name) =>
        GreedyRepeatedComplete(name, rest, segs, next, |segs|);
      case Wildcard =>
        GreedyWildcardComplete(rest, segs, next, |segs|);
    }
  }

  lemma {:induction false} GreedyRepeatedComplete(name: string, rest: seq<PathToken>, segs: seq<string>, next: nat, k: nat)
    requires k <= |segs|
    ensures GreedyRepeated(name, rest, segs, next, k).Some?
        <==> exists j :: 1 <= j <= k && "" !in segs[..j] && PathAccepts(rest, segs[j..])
    decreases |rest| + 1, 0, k
  {
    if k > 0 {
      if "" !in segs[..k] {
        PathComplete(rest, segs[k..], next);
      }
      GreedyRepeatedComplete(name, rest, segs, next, k - 1);
    }
  }

  lemma {:induction false} GreedyWildcardComplete(rest: seq<PathToken>, segs: seq<string>, next: nat, k: nat)
    requires k <= |segs|
    ensures GreedyWildcard(rest, segs, next, k).Some?
        <==> exists j :: 1 <= j <= k && PathAccepts(rest, segs[j..])
    decreases |rest| + 1, 0, k
  {
    if k > 0 {
      PathComplete(rest, segs[k..], next + 1);
      GreedyWildcardComplete(rest, segs, next, k - 1);
    }
  }

  /** `*` takes the most segments, at least one, after which the rest matches. */
  lemma {:induction false} GreedyWildcardLongest(rest: seq<PathToken>, segs: seq<string>, next: nat, k: nat, m: nat)
    requires 1 <= m <= k <= |segs|
    requires forall j :: m < j <= k ==> MatchPath(rest, segs[j..], next + 1).None?
    requires MatchPath(rest, segs[m..], next + 1).Some?
    ensures GreedyWildcard(rest, segs, next, k)
         == Some([Capture(Index(next), Some(Join(segs[..m])))] + MatchPath(rest, segs[m..], next + 1).value)
    decreases k - m
  {
    if m < k {
      GreedyWildcardLongest(rest, segs, next, k - 1, m);
    }
  }

  /** `:name+` takes the most non-empty segments, at least one, after which the rest matches. */
  lemma {:induction false} GreedyRepeatedLongest(name: string, rest: seq<PathToken>, segs: seq<string>, next: nat, k: nat, m: nat)
    requires 1 <= m <= k <= |segs|
    requires forall j :: m < j <= k ==> "" in segs[..j] || MatchPath(rest, segs[j..], next).None?
    requires "" !in segs[..m] && MatchPath(rest, segs[m..], next).Some?
    ensures GreedyRepeated(name, rest, segs, next, k)
         == Some([Capture(Name(name), Some(Join(segs[..m])))] + MatchPath(rest, segs[m..], next).value)
    decreases k - m
  {
    if m < k {
      GreedyRepeatedLongest(name, rest, segs, next, k - 1, m);
    }
  }

  /** The token `/w` of a literal segment. */
  function Literal(w: string): PathToken {
    Segment([Text(w)])
  }

  /** The token `/:name` of a group that is a whole segment. */
  function Param(name: string): PathToken {
    Segment([Group(name)])
  }

  /** A literal segment matches exactly that segment and captures nothing. */
  lemma LiteralSegment(w: string, s: string, toks: seq<PathToken>, segs: seq<string>, next: nat)
    ensures MatchPath([Literal(w)] + toks, [s] + segs, next)
         == if s == w then MatchPath(toks, segs, next) else None
  {
    var all := [Literal(w)] + toks;
    assert all[0] == Segment([Text(w)]) && all[1..] == toks;
    assert ([s] + segs)[0] == s && ([s] + segs)[1..] == segs;
    var parts, noParts: seq<Part> := [Text(w)], [];
    assert parts[0] == Text(w) && parts[1..] == noParts;
    var own := MatchParts(parts, s, PathSeparator);
    assert own == if s == w then Some([]) else None by {
      if w <= s {
        assert own == MatchParts(noParts, s[|w|..], PathSeparator);
        assert s[|w|..] == "" <==> s == w;
      }
    }
    if s == w && MatchPath(toks, segs, next).Some? {
      assert [] + MatchPath(toks, segs, next).value == MatchPath(toks, segs, next).value;
    }
  }

  /** A literal segment needs a segment to match. */
  lemma LiteralNeedsSegment(w: string, toks: seq<PathToken>, next: nat)
    ensures MatchPath([Literal(w)] + toks, [], next) == None
  {
  }

  /** A whole-segment group matches any non-empty segment and captures all of it. */
  lemma ParamSegment(name: string, v: string, toks: seq<PathToken>, segs: seq<string>, next: nat)
    requires v != "" && PathSeparator !in v
    ensures MatchPath([Param(name)] + toks, [v] + segs, next)
         == if MatchPath(toks, segs, next).Some?
            then Some([Capture(Name(name), Some(v))] + MatchPath(toks, segs, next).value)
            else None
  {
    var all := [Param(name)] + toks;
    assert all[0] == Segment([Group(name)]) && all[1..] == toks;
    assert ([v] + segs)[0] == v && ([v] + segs)[1..] == segs;
    LoneGroup(name, v, PathSeparator);
  }

  /** A whole-segment group does not match an empty segment. */
  lemma ParamRejectsEmpty(name: string, toks: seq<PathToken>, segs: seq<string>, next: nat)
    ensures MatchPath([Param(name)] + toks, [""] + segs, next) == None
  {
    var all := [Param(name)] + toks;
    assert all[0] == Segment([Group(name)]) && all[1..] == toks;
    assert ([""] + segs)[0] == "";
    assert MatchParts([Group(name)], "", PathSeparator) == None;
  }

  /** A whole-segment group needs a segment to match. */
  lemma ParamNeedsSegment(name: string, toks: seq<PathToken>, next: nat)
    ensures MatchPath([Param(name)] + toks, [], next) == None
  {
  }

  /** A trailing `*` captures the rest of the pathname, slashes included. */
  lemma TrailingWildcard(segs: seq<string>, next: nat)
    requires |segs| >= 1
    ensures MatchPath([Wildcard], segs, next) == Some([Capture(Index(next), Some(Join(segs)))])
  {
    var none: seq<PathToken> := [];
    assert [Wildcard][0] == Wildcard && [Wildcard][1..] == none;
    assert MatchPath([Wildcard], segs, next) == GreedyWildcard(none, segs, next, |segs|);
    assert segs[|segs|..] == [] && segs[..|segs|] == segs;
    assert MatchPath(none, segs[|segs|..], next + 1) == Some([]);
    var c := Capture(Index(next), Some(Join(segs)));
    assert [c] + [] == [c];
  }

  /** A `*` token hands the whole pathname to the greedy search. */
  lemma WildcardFirst(rest: seq<PathToken>, segs: seq<string>, next: nat)
    ensures MatchPath([Wildcard] + rest, segs, next) == GreedyWildcard(rest, segs, next, |segs|)
  {
    assert ([Wildcard] + rest)[0] == Wildcard && ([Wildcard] + rest)[1..] == rest;
  }

  /** A `:name+` token hands the whole pathname to the greedy search. */
  lemma RepeatedFirst(name: string, rest: seq<PathToken>, segs: seq<string>, next: nat)
    ensures MatchPath([RepeatedGroup(name)] + rest, segs, next) == GreedyRepeated(name, rest, segs, next, |segs|)
  {
    assert ([RepeatedGroup(name)] + rest)[0] == RepeatedGroup(name) && ([RepeatedGroup(name)] + rest)[1..] == rest;
  }

  /** A trailing `:name+` captures the rest of the pathname when no segment of it is empty. */
  lemma TrailingRepeated(name: string, segs: seq<string>, next: nat)
    requires |segs| >= 1 && "" !in segs
    ensures MatchPath([RepeatedGroup(name)], segs, next) == Some([Capture(Name(name), Some(Join(segs)))])
  {
    var none: seq<PathToken> := [];
    RepeatedFirst(name, none, segs, next);
    assert [RepeatedGroup(name)] + none == [RepeatedGroup(name)];
    assert segs[|segs|..] == [] && segs[..|segs|] == segs;
    assert MatchPath(none, segs[|segs|..], next) == Some([]);
    var c := Capture(Name(name), Some(Join(segs)));
    assert [c] + [] == [c];
  }

  /** `:name?` in front of a non-empty segment after which the rest matches captures that segment. */
  lemma OptionalPresent(name: string, v: string, toks: seq<PathToken>, segs: seq<string>, next: nat)
    requires v != "" && MatchPath(toks, segs, next).Some?
    ensures MatchPath([OptionalGroup(name)] + toks, [v] + segs, next)
         == Some([Capture(Name(name), Some(v))] + MatchPath(toks, segs, next).value)
  {
    var all := [OptionalGroup(name)] + toks;
    assert all[0] == OptionalGroup(name) && all[1..] == toks;
    assert ([v] + segs)[0] == v && ([v] + segs)[1..] == segs;
  }

  /** A trailing `:name?` with no segment left captures its absence. */
  lemma OptionalAbsent(name: string, next: nat)
    ensures MatchPath([OptionalGroup(name)], [], next) == Some([Capture(Name(name), None)])
  {
    var none: seq<PathToken> := [];
    assert [OptionalGroup(name)][1..] == none;
    var c := Capture(Name(name), None);
    assert [c] + [] == [c];
  }

  /** A segment token whose parts match the first segment, followed by the rest matching, captures both. */
  lemma SegmentFirst(parts: seq<Part>, s: string, toks: seq<PathToken>, segs: seq<string>, next: nat)
    requires MatchParts(parts, s, PathSeparator).Some? && MatchPath(toks, segs, next).Some?
    ensures MatchPath([Segment(parts)] + toks, [s] + segs, next)
         == Some(MatchParts(parts, s, PathSeparator).value + MatchPath(toks, segs, next).value)
  {
    var all := [Segment(parts)] + toks;
    assert all[0] == Segment(parts) && all[1..] == toks;
    assert ([s] + segs)[0] == s && ([s] + segs)[1..] == segs;
  }
}
