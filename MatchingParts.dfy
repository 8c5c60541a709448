/**
 * What the in-segment matcher `MatchParts` computes: it succeeds exactly on
 * the strings the parts describe, its captures put back into the parts
 * give the string again, and a group takes the shortest prefix that lets
 * the rest match.
 */
module MatchingParts {
  import opened Wrappers
  import opened Matching

  /** The keys a sequence of parts declares, in declaration order. */
  function PartKeys(parts: seq<Part>): (keys: seq<Key>)
    ensures |keys| <= |parts|
  {
    if parts == [] then []
    else (if parts[0].Group? then [Name(parts[0].name)] else []) + PartKeys(parts[1..])
  }

  function KeysOf(caps: seq<Capture>): (keys: seq<Key>)
    ensures |keys| == |caps|
    ensures forall i :: 0 <= i < |caps| ==> keys[i] == caps[i].key
  {
    if caps == [] then [] else [caps[0].key] + KeysOf(caps[1..])
  }

  function ValueText(c: Capture): string {
    if c.value.Some? then c.value.value else ""
  }

  /** The parts with each group replaced by its captured value. */
  function RenderParts(parts: seq<Part>, caps: seq<Capture>): string
    requires |caps| == |PartKeys(parts)|
  {
    if parts == [] then ""
    else match parts[0]
      case Text(t) => t + RenderParts(parts[1..], caps)
      case Group(_) => ValueText(caps[0]) + RenderParts(parts[1..], caps[1..])
  }

  /**
   * The strings the parts describe: literal text as written, and each group
   * a non-empty run of characters other than the separator.
   */
  ghost predicate PartsAccept(parts: seq<Part>, s: string, sep: char)
    decreases |parts|
  {
    if parts == [] then s == ""
    else match parts[0]
      case Text(t) => t <= s && PartsAccept(parts[1..], s[|t|..], sep)
      case Group(_) =>
        exists j :: 1 <= j <= |s| && sep !in s[..j] && PartsAccept(parts[1..], s[j..], sep)
  }

  /** The captures of a successful match are the declared groups, each with a value, and render back to the string. */
  lemma {:induction false} PartsSound(parts: seq<Part>, s: string, sep: char)
    requires MatchParts(parts, s, sep).Some?
    ensures KeysOf(MatchParts(parts, s, sep).value) == PartKeys(parts)
    ensures forall c :: c in MatchParts(parts, s, sep).value ==> c.value.Some? && sep !in c.value.value
    ensures RenderParts(parts, MatchParts(parts, s, sep).value) == s
    decreases |parts|, 1, 0
  {
    if parts != [] {
      match parts[0]
      case Text(t) =>
        PartsSound(parts[1..], s[|t|..], sep);
        assert s == t + s[|t|..];
      case Group(name) =>
        LazyGroupSound(name, parts[1..], s, sep, 1);
    }
  }

  lemma {:induction false} LazyGroupSound(name: string, rest: seq<Part>, s: string, sep: char, k: nat)
    requires 1 <= k <= |s| + 1 && sep !in s[..k - 1]
    requires LazyGroup(name, rest, s, sep, k).Some?
    ensures KeysOf(LazyGroup(name, rest, s, sep, k).value) == [Name(name)] + PartKeys(rest)
    ensures forall c :: c in LazyGroup(name, rest, s, sep, k).value ==> c.value.Some? && sep !in c.value.value
    ensures RenderParts([Group(name)] + rest, LazyGroup(name, rest, s, sep, k).value) == s
    decreases |rest| + 1, 0, |s| + 1 - k
  {
    assert s[..k] == s[..k - 1] + [s[k - 1]];
    var parts := [Group(name)] + rest;
    assert parts[1..] == rest;
    match MatchParts(rest, s[k..], sep)
    case Some(caps) =>
      PartsSound(rest, s[k..], sep);
      var all := [Capture(Name(name), Some(s[..k]))] + caps;
      assert all[1..] == caps;
      assert s == s[..k] + s[k..];
    case None =>
      LazyGroupSound(name, rest, s, sep, k + 1);
  }

  /** `MatchParts` succeeds exactly on the strings the parts describe. */
  lemma {:induction false} PartsComplete(parts: seq<Part>, s: string, sep: char)
    ensures MatchParts(parts, s, sep).Some? <==> PartsAccept(parts, s, sep)
    decreases |parts|, 1, 0
  {
    if parts != [] {
      match parts[0]
      case Text(t) =>
        if t <= s {
          PartsComplete(parts[1..], s[|t|..], sep);
        }
      case Group(name) =>
        LazyGroupComplete(name, parts[1..], s, sep, 1);
    }
  }

  lemma {:induction false} LazyGroupComplete(name: string, rest: seq<Part>, s: string, sep: char, k: nat)
    requires 1 <= k <= |s| + 1 && sep !in s[..k - 1]
    ensures LazyGroup(name, rest, s, sep, k).Some?
        <==> exists j :: k <= j <= |s| && sep !in s[..j] && PartsAccept(rest, s[j..], sep)
    decreases |rest| + 1, 0, |s| + 1 - k
  {
    if k > |s| {
    } else if s[k - 1] == sep {
      forall j | k <= j <= |s|
        ensures sep in s[..j]
      {
        assert s[..j][k - 1] == sep;
      }
    } else {
      assert s[..k] == s[..k - 1] + [s[k - 1]];
      PartsComplete(rest, s[k..], sep);
      if !PartsAccept(rest, s[k..], sep) {
        LazyGroupComplete(name, rest, s, sep, k + 1);
      }
    }
  }

  /**
   * A group takes the shortest prefix, never past a separator, after which
   * the rest of the parts match.
   */
  lemma {:induction false} LazyGroupShortest(name: string, rest: seq<Part>, s: string, sep: char, k: nat, m: nat)
    requires 1 <= k <= m <= |s| && sep !in s[..m]
    requires forall j :: k <= j < m ==> MatchParts(rest, s[j..], sep).None?
    requires MatchParts(rest, s[m..], sep).Some?
    ensures LazyGroup(name, rest, s, sep, k)
         == Some([Capture(Name(name), Some(s[..m]))] + MatchParts(rest, s[m..], sep).value)
    decreases m - k
  {
    assert s[k - 1] == s[..m][k - 1];
    if k < m {
      LazyGroupShortest(name, rest, s, sep, k + 1, m);
    }
  }

  /** Literal text matches exactly itself, then the rest of the parts match what follows it. */
  lemma TextFirst(t: string, rest: seq<Part>, x: string, sep: char)
    ensures MatchParts([Text(t)] + rest, t + x, sep) == MatchParts(rest, x, sep)
  {
    var parts := [Text(t)] + rest;
    assert parts[0] == Text(t) && parts[1..] == rest;
    assert t <= t + x && (t + x)[|t|..] == x;
  }

  /** A group that is the last part takes all of a non-empty rest without a separator. */
  lemma LoneGroup(name: string, v: string, sep: char)
    requires v != "" && sep !in v
    ensures MatchParts([Group(name)], v, sep) == Some([Capture(Name(name), Some(v))])
  {
    var parts, noParts: seq<Part> := [Group(name)], [];
    assert parts[0] == Group(name) && parts[1..] == noParts;
    forall j | 1 <= j < |v| ensures MatchParts(noParts, v[j..], sep).None? {
      assert |v[j..]| > 0;
    }
    assert v[|v|..] == "" && v[..|v|] == v;
    LazyGroupShortest(name, noParts, v, sep, 1, |v|);
    var c := Capture(Name(name), Some(v));
    assert [c] + [] == [c];
  }

  /**
   * A group followed by literal text stops before the first place the text
   * can start: with `a` holding no separator and not the text's first
   * character, the group captures `a`.
   */
  lemma GroupBeforeText(name: string, a: string, t: string, rest: seq<Part>, x: string, sep: char)
    requires a != "" && sep !in a && t != "" && t[0] !in a
    requires MatchParts([Text(t)] + rest, x, sep).Some?
    ensures MatchParts([Group(name), Text(t)] + rest, a + x, sep)
         == Some([Capture(Name(name), Some(a))] + MatchParts([Text(t)] + rest, x, sep).value)
  {
    var after := [Text(t)] + rest;
    var parts := [Group(name)] + after;
    assert [Group(name), Text(t)] + rest == parts;
    assert parts[0] == Group(name) && parts[1..] == after;
    var s := a + x;
    forall j | 1 <= j < |a| ensures MatchParts(after, s[j..], sep).None? {
      assert after[0] == Text(t) && s[j..][0] == a[j];
    }
    assert s[..|a|] == a && s[|a|..] == x;
    LazyGroupShortest(name, after, s, sep, 1, |a|);
  }
}
