/**
 * How captures become `params`: within one URL component a repeated name
 * keeps its last value; across components the values of a repeated name
 * are collected, in component order, into an array.
 */
module MatchingParams {
  import opened Wrappers
  import opened Matching

  /** The keys the captures carry. */
  function CapturedKeys(caps: seq<Capture>): set<Key> {
    set i | 0 <= i < |caps| :: caps[i].key
  }

  /** A component's parameters are exactly its captured keys. */
  lemma {:induction false} ComponentParamsKeys(caps: seq<Capture>)
    ensures ComponentParams(caps).Keys == CapturedKeys(caps)
  {
    if caps != [] {
      var n := |caps| - 1;
      var init := caps[..n];
      ComponentParamsKeys(init);
      forall k | k in CapturedKeys(caps) ensures k in CapturedKeys(init) + {caps[n].key} {
        var i :| 0 <= i < |caps| && caps[i].key == k;
        if i < n { assert init[i] == caps[i]; }
      }
      forall k | k in CapturedKeys(init) ensures k in CapturedKeys(caps) {
        var i :| 0 <= i < |init| && init[i].key == k;
        assert caps[i] == init[i];
      }
    }
  }

  /** Within one component a key holds the decoded value of its last capture. */
  lemma {:induction false} ComponentParamsLastWins(caps: seq<Capture>, i: nat)
    requires i < |caps|
    requires forall j :: i < j < |caps| ==> caps[j].key != caps[i].key
    ensures caps[i].key in ComponentParams(caps)
    ensures ComponentParams(caps)[caps[i].key] == DecodeValue(caps[i].value)
  {
    var n := |caps| - 1;
    if i < n {
      var init := caps[..n];
      assert init[i] == caps[i];
      ComponentParamsLastWins(init, i);
    }
  }

  /** The values a parameter holds, in order. */
  function ValuesOf(p: ParamValue): seq<Option<string>> {
    match p
    case Single(v) => [v]
    case Multiple(vs) => vs
  }

  /** The values the components give a key, in component order. */
  function Occurrences(comps: seq<map<Key, Option<string>>>, k: Key): seq<Option<string>> {
    if comps == [] then []
    else
      var last := comps[|comps| - 1];
      Occurrences(comps[..|comps| - 1], k) + (if k in last then [last[k]] else [])
  }

  /**
   * A key is a parameter when some component gives it a value; it holds a
   * single value when exactly one component does, and otherwise an array of
   * every component's value, in component order.
   */
  lemma {:induction false} MergeCollects(comps: seq<map<Key, Option<string>>>, k: Key)
    ensures k in MergeComponents(comps) <==> |Occurrences(comps, k)| >= 1
    ensures k in MergeComponents(comps) ==>
              ValuesOf(MergeComponents(comps)[k]) == Occurrences(comps, k)
              && (MergeComponents(comps)[k].Single? <==> |Occurrences(comps, k)| == 1)
  {
    if comps != [] {
      MergeCollects(comps[..|comps| - 1], k);
    }
  }

  /** Two components: a name in both becomes the array of its two values. */
  lemma TwoComponents(a: map<Key, Option<string>>, b: map<Key, Option<string>>, k: Key)
    ensures k in MergeComponents([a, b]) <==> k in a || k in b
    ensures k in a && k in b ==> MergeComponents([a, b])[k] == Multiple([a[k], b[k]])
    ensures k in a && k !in b ==> MergeComponents([a, b])[k] == Single(a[k])
    ensures k !in a && k in b ==> MergeComponents([a, b])[k] == Single(b[k])
  {
    var ab := [a, b];
    assert ab[..1] == [a] && ab[1] == b;
    assert [a][..0] == [];
    assert MergeComponents([a]) == MergeInto(MergeComponents([]), a);
    assert MergeComponents(ab) == MergeInto(MergeComponents([a]), b);
  }

  /** A capture with nothing to decode sets its key to its value, over the earlier captures. */
  lemma PlainCapture(caps: seq<Capture>, c: Capture)
    requires c.value.Some? ==> '%' !in c.value.value
    ensures ComponentParams(caps + [c]) == ComponentParams(caps)[c.key := c.value]
  {
    var all := caps + [c];
    assert all[|all| - 1] == c && all[..|all| - 1] == caps;
    assert ComponentParams(all) == ComponentParams(caps)[c.key := DecodeValue(c.value)];
    assert DecodeValue(c.value) == c.value;
  }

  /** Every value of a component's parameters as a single value. */
  function Singles(m: map<Key, Option<string>>): map<Key, ParamValue> {
    map k | k in m :: Single(m[k])
  }

  /** Components with no key in common merge into single values. */
  lemma MergeDisjoint(a: map<Key, Option<string>>, b: map<Key, Option<string>>)
    requires a.Keys !! b.Keys
    ensures MergeComponents([a, b]) == Singles(a + b)
  {
    forall k ensures k in MergeComponents([a, b]) <==> k in Singles(a + b) {
      TwoComponents(a, b, k);
    }
    forall k | k in Singles(a + b) ensures MergeComponents([a, b])[k] == Singles(a + b)[k] {
      TwoComponents(a, b, k);
    }
  }
}
