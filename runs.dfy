/**
 * Maximal runs of equal adjacent values. The console opens a new section whenever the
 * type of the current element differs from the previous one, so its sections are the
 * runs of this module, taken in input order.
 */
module Runs {

  /** Position i begins a maximal run: it is the first position or differs from its predecessor. */
  predicate IsRunStart(ts: seq<string>, i: int)
    requires 0 <= i < |ts|
  {
    i == 0 || ts[i - 1] != ts[i]
  }

  /** The positions where the maximal runs of `ts` begin. */
  function RunStarts(ts: seq<string>): set<int>
  {
    set i | 0 <= i < |ts| && IsRunStart(ts, i)
  }

  /** No two neighbours are equal. */
  predicate NoAdjacentRepeats(ts: seq<string>)
  {
    forall i :: 0 < i < |ts| ==> ts[i - 1] != ts[i]
  }

  /** Equal values stand together: whatever lies between two equal values equals them. */
  predicate Grouped(ts: seq<string>)
  {
    forall i, j, k :: 0 <= i < j < k < |ts| && ts[i] == ts[k] ==> ts[j] == ts[i]
  }

  predicate Distinct(ts: seq<string>)
  {
    forall i, j :: 0 <= i < j < |ts| ==> ts[i] != ts[j]
  }

  /**
   * The value of each maximal run, in input order: a value is taken whenever it differs
   * from the value before it, exactly as the console's `rt` comparison does.
   */
  function RunHeads(ts: seq<string>): (hs: seq<string>)
    ensures |hs| <= |ts|
    ensures hs == [] <==> ts == []
    ensures ts != [] ==> hs[|hs| - 1] == ts[|ts| - 1]
  {
    if ts == [] then []
    else
      var init := ts[..|ts| - 1];
      var last := ts[|ts| - 1];
      assert ts == init + [last];
      RunHeads(init) + (if init != [] && init[|init| - 1] == last then [] else [last])
  }

  /** Appending one value adds a run head exactly when the value differs from the last one. */
  lemma RunHeadsSnoc(ts: seq<string>, t: string)
    ensures RunHeads(ts + [t]) == RunHeads(ts) + (if ts != [] && ts[|ts| - 1] == t then [] else [t])
  {
    assert (ts + [t])[..|ts|] == ts;
  }

  /** The run heads are the values of the sequence, each value at least once. */
  lemma {:induction false} RunHeadsMembers(ts: seq<string>)
    ensures forall x :: x in RunHeads(ts) <==> x in ts
  {
    if ts != [] {
      var init, last := ts[..|ts| - 1], ts[|ts| - 1];
      assert ts == init + [last];
      RunHeadsMembers(init);
      RunHeadsSnoc(init, last);
    }
  }

  /** Appending one value adds its position to the run starts exactly when it begins a new run. */
  lemma RunStartsSnoc(ts: seq<string>, t: string)
    ensures var n := |ts|;
            RunStarts(ts + [t]) == RunStarts(ts) + (if n > 0 && ts[n - 1] == t then {} else {n})
  {
    var ts' := ts + [t];
    assert forall i :: 0 <= i < |ts| ==> (IsRunStart(ts', i) <==> IsRunStart(ts, i));
  }

  /** There are exactly as many run heads as maximal runs. */
  lemma {:induction false} RunHeadsCount(ts: seq<string>)
    ensures |RunHeads(ts)| == |RunStarts(ts)|
  {
    if ts != [] {
      var n := |ts|;
      var init := ts[..n - 1];
      assert ts == init + [ts[n - 1]];
      RunHeadsCount(init);
      RunHeadsSnoc(init, ts[n - 1]);
      RunStartsSnoc(init, ts[n - 1]);
      assert n - 1 !in RunStarts(init);
    }
  }

  /** Neighbouring run heads differ. */
  lemma {:induction false} RunHeadsNoRepeats(ts: seq<string>)
    ensures NoAdjacentRepeats(RunHeads(ts))
  {
    if ts != [] {
      var init := ts[..|ts| - 1];
      RunHeadsNoRepeats(init);
      RunHeadsSnoc(init, ts[|ts| - 1]);
      assert ts == init + [ts[|ts| - 1]];
    }
  }

  /** A sequence whose neighbours all differ is its own list of run heads: one run per element. */
  lemma {:induction false} RunHeadsOfRepeatFree(ts: seq<string>)
    requires NoAdjacentRepeats(ts)
    ensures RunHeads(ts) == ts
  {
    if ts != [] {
      var init := ts[..|ts| - 1];
      assert NoAdjacentRepeats(init);
      RunHeadsOfRepeatFree(init);
      RunHeadsSnoc(init, ts[|ts| - 1]);
      assert ts == init + [ts[|ts| - 1]];
    }
  }

  /** When equal values stand together, every value heads exactly one run. */
  lemma {:induction false} GroupedRunHeadsDistinct(ts: seq<string>)
    requires Grouped(ts)
    ensures Distinct(RunHeads(ts))
  {
    if ts != [] {
      var n := |ts|;
      var init := ts[..n - 1];
      var last := ts[n - 1];
      assert ts == init + [last];
      assert Grouped(init);
      GroupedRunHeadsDistinct(init);
      RunHeadsSnoc(init, last);
      RunHeadsMembers(init);
      if !(init != [] && init[|init| - 1] == last) && init != [] {
        assert forall k :: 0 <= k < n - 1 ==> init[k] != last;
        assert last !in RunHeads(init);
      }
    }
  }

  /** Values that are not grouped give a run head twice: nothing regroups them. */
  lemma InterleavedRunHeads()
    ensures RunHeads(["bundle", "config", "bundle"]) == ["bundle", "config", "bundle"]
  {
    RunHeadsSnoc(["bundle"], "config");
    RunHeadsSnoc(["bundle", "config"], "bundle");
  }
}
