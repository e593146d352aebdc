/**
 * Maximal runs of voiced frames. Both segmenters turn a per-frame voiced flag
 * sequence into half-open frame ranges [start, end); this module states what a
 * correct answer is (`IsMaximalRuns`), gives a reference left-to-right
 * definition (`Runs`) and proves that the two agree and that the answer is
 * unique.
 */
module VoicedRuns {

  /** A half-open frame-index range [start, end). */
  datatype Run = Run(start: nat, end: nat)

  /** The flag at `k`, reading `false` outside the track (a track padded with an unvoiced frame on each side). */
  predicate At(flags: seq<bool>, k: int)
  {
    0 <= k < |flags| && flags[k]
  }

  /** `r` is a non-empty, all-voiced run that cannot be extended on either side. */
  ghost predicate IsRun(flags: seq<bool>, r: Run)
  {
    r.start < r.end <= |flags|
    && (forall x :: r.start <= x < r.end ==> flags[x])
    && !At(flags, r.start - 1)
    && !At(flags, r.end)
  }

  /** Frame `x` lies inside one of the runs. */
  ghost predicate Covered(runs: seq<Run>, x: int)
  {
    exists j :: 0 <= j < |runs| && runs[j].start <= x < runs[j].end
  }

  /**
   * `runs` lists, in increasing order and without overlap, maximal voiced runs
   * lying inside frames [lo, hi), and every voiced frame of [lo, hi) is in one of them.
   */
  ghost predicate RunsWithin(flags: seq<bool>, runs: seq<Run>, lo: nat, hi: nat)
  {
    lo <= hi <= |flags|
    && (forall j :: 0 <= j < |runs| ==> lo <= runs[j].start && runs[j].end <= hi && IsRun(flags, runs[j]))
    && (forall j, k :: 0 <= j < k < |runs| ==> runs[j].end <= runs[k].start)
    && (forall x :: lo <= x < hi && flags[x] ==> Covered(runs, x))
  }

  /** `runs` is the ordered list of all maximal voiced runs of the whole track. */
  ghost predicate IsMaximalRuns(flags: seq<bool>, runs: seq<Run>)
  {
    RunsWithin(flags, runs, 0, |flags|)
  }

  /** The first unvoiced frame at or after `i` (or the track length). */
  function RunEnd(flags: seq<bool>, i: nat): (e: nat)
    requires i <= |flags|
    ensures i <= e <= |flags|
    ensures forall x :: i <= x < e ==> flags[x]
    ensures !At(flags, e)
    decreases |flags| - i
  {
    if i == |flags| || !flags[i] then i else RunEnd(flags, i + 1)
  }

  /** Reference segmentation of frames [i, |flags|), scanning left to right. */
  function RunsFrom(flags: seq<bool>, i: nat): (runs: seq<Run>)
    requires i <= |flags|
    ensures forall j :: 0 <= j < |runs| ==> i <= runs[j].start < runs[j].end <= |flags|
    decreases |flags| - i
  {
    if i == |flags| then []
    else if !flags[i] then RunsFrom(flags, i + 1)
    else
      var e := RunEnd(flags, i);
      [Run(i, e)] + RunsFrom(flags, e)
  }

  function Runs(flags: seq<bool>): (runs: seq<Run>)
    ensures forall j :: 0 <= j < |runs| ==> runs[j].start < runs[j].end <= |flags|
  {
    RunsFrom(flags, 0)
  }

  /** A voiced stretch that stops at an unvoiced frame (or the track end) stops where `RunEnd` says. */
  lemma {:induction false} RunEndUnique(flags: seq<bool>, i: nat, e: nat)
    requires i <= e <= |flags|
    requires forall x :: i <= x < e ==> flags[x]
    requires !At(flags, e)
    ensures RunEnd(flags, i) == e
    decreases e - i
  {
    if i < e {
      RunEndUnique(flags, i + 1, e);
    }
  }

  /** A maximal run [i, e) in front of the runs of [e, |flags|) gives the runs of [i, |flags|). */
  lemma RunsWithinCons(flags: seq<bool>, i: nat, e: nat, rest: seq<Run>)
    requires IsRun(flags, Run(i, e))
    requires RunsWithin(flags, rest, e, |flags|)
    ensures RunsWithin(flags, [Run(i, e)] + rest, i, |flags|)
  {
    var runs := [Run(i, e)] + rest;
    forall j | 0 <= j < |runs|
      ensures i <= runs[j].start && runs[j].end <= |flags| && IsRun(flags, runs[j])
    {
      if j > 0 {
        assert runs[j] == rest[j - 1];
      }
    }
    forall j, k | 0 <= j < k < |runs|
      ensures runs[j].end <= runs[k].start
    {
      assert runs[k] == rest[k - 1];
      if j > 0 {
        assert runs[j] == rest[j - 1];
      }
    }
    forall x | i <= x < |flags| && flags[x]
      ensures Covered(runs, x)
    {
      if x < e {
        assert runs[0].start <= x < runs[0].end;
      } else {
        assert Covered(rest, x);
        var j :| 0 <= j < |rest| && rest[j].start <= x < rest[j].end;
        assert runs[j + 1] == rest[j];
      }
    }
  }

  /** An unvoiced frame in front of frames [i+1, |flags|) adds no run. */
  lemma RunsWithinUnvoicedFront(flags: seq<bool>, runs: seq<Run>, i: nat)
    requires i < |flags| && !flags[i]
    requires RunsWithin(flags, runs, i + 1, |flags|)
    ensures RunsWithin(flags, runs, i, |flags|)
  {
  }

  /** Started at a frame that no run can straddle, the reference scan yields maximal runs. */
  lemma {:induction false} RunsFromMaximal(flags: seq<bool>, i: nat)
    requires i <= |flags|
    requires !At(flags, i - 1) || !At(flags, i)
    ensures RunsWithin(flags, RunsFrom(flags, i), i, |flags|)
    decreases |flags| - i
  {
    if i == |flags| {
    } else if !flags[i] {
      RunsFromMaximal(flags, i + 1);
      assert RunsFrom(flags, i) == RunsFrom(flags, i + 1);
      RunsWithinUnvoicedFront(flags, RunsFrom(flags, i), i);
    } else {
      var e := RunEnd(flags, i);
      RunsFromMaximal(flags, e);
      assert RunsFrom(flags, i) == [Run(i, e)] + RunsFrom(flags, e);
      RunsWithinCons(flags, i, e, RunsFrom(flags, e));
    }
  }

  /** When frame `i` is voiced, the first run found from `i` is the one starting there; the others cover the rest. */
  lemma RunsWithinHead(flags: seq<bool>, runs: seq<Run>, i: nat)
    requires RunsWithin(flags, runs, i, |flags|)
    requires i < |flags| && flags[i]
    ensures |runs| > 0 && runs[0] == Run(i, RunEnd(flags, i))
    ensures RunsWithin(flags, runs[1..], RunEnd(flags, i), |flags|)
  {
    assert Covered(runs, i);
    var j :| 0 <= j < |runs| && runs[j].start <= i < runs[j].end;
    if j != 0 {
      assert false;
    }
    var e := runs[0].end;
    RunEndUnique(flags, i, e);
    var rest := runs[1..];
    forall k | 0 <= k < |rest|
      ensures e <= rest[k].start && rest[k].end <= |flags| && IsRun(flags, rest[k])
    {
      assert rest[k] == runs[k + 1];
    }
    forall x | e <= x < |flags| && flags[x]
      ensures Covered(rest, x)
    {
      assert Covered(runs, x);
      var k :| 0 <= k < |runs| && runs[k].start <= x < runs[k].end;
      assert k != 0;
      assert rest[k - 1] == runs[k];
    }
  }

  /** Any list of maximal runs covering frames [i, |flags|) is the reference scan from `i`. */
  lemma {:induction false} RunsWithinAreRunsFrom(flags: seq<bool>, runs: seq<Run>, i: nat)
    requires RunsWithin(flags, runs, i, |flags|)
    ensures runs == RunsFrom(flags, i)
    decreases |flags| - i
  {
    if i == |flags| {
      if runs != [] {
        assert false;
      }
    } else if !flags[i] {
      forall j | 0 <= j < |runs|
        ensures i + 1 <= runs[j].start
      {
        assert flags[runs[j].start];
      }
      RunsWithinAreRunsFrom(flags, runs, i + 1);
    } else {
      RunsWithinHead(flags, runs, i);
      var e := RunEnd(flags, i);
      RunsWithinAreRunsFrom(flags, runs[1..], e);
      assert runs == [Run(i, e)] + runs[1..];
      assert RunsFrom(flags, i) == [Run(i, e)] + RunsFrom(flags, e);
    }
  }

  /** The reference segmentation lists exactly the maximal voiced runs. */
  lemma RunsAreMaximal(flags: seq<bool>)
    ensures IsMaximalRuns(flags, Runs(flags))
  {
    RunsFromMaximal(flags, 0);
  }

  /** The maximal voiced runs of a track are unique: any correct segmentation equals `Runs`. */
  lemma MaximalRunsAreRuns(flags: seq<bool>, runs: seq<Run>)
    requires IsMaximalRuns(flags, runs)
    ensures runs == Runs(flags)
  {
    RunsWithinAreRunsFrom(flags, runs, 0);
  }

  /** An all-unvoiced (or empty) track has no runs. */
  lemma NoVoicedNoRuns(flags: seq<bool>)
    requires forall k :: 0 <= k < |flags| ==> !flags[k]
    ensures Runs(flags) == []
  {
    MaximalRunsAreRuns(flags, []);
  }

  /** A non-empty all-voiced track is one run spanning the whole track. */
  lemma AllVoicedOneRun(flags: seq<bool>)
    requires |flags| > 0
    requires forall k :: 0 <= k < |flags| ==> flags[k]
    ensures Runs(flags) == [Run(0, |flags|)]
  {
    var runs := [Run(0, |flags|)];
    forall x | 0 <= x < |flags| && flags[x]
      ensures Covered(runs, x)
    {
      assert runs[0].start <= x < runs[0].end;
    }
    MaximalRunsAreRuns(flags, runs);
  }

  /** Step of a left-to-right scan: an unvoiced frame extends the scanned prefix and adds no run. */
  lemma RunsWithinSkip(flags: seq<bool>, runs: seq<Run>, i: nat)
    requires RunsWithin(flags, runs, 0, i)
    requires i < |flags| && !flags[i]
    ensures RunsWithin(flags, runs, 0, i + 1)
  {
  }

  /** A voiced frame right after frames scanned into maximal runs is preceded by an unvoiced one. */
  lemma RunsWithinBeforeVoiced(flags: seq<bool>, runs: seq<Run>, i: nat)
    requires RunsWithin(flags, runs, 0, i)
    requires i < |flags| && flags[i]
    ensures !At(flags, i - 1)
  {
    if i > 0 && flags[i - 1] {
      assert false;
    }
  }

  /**
   * Step of a left-to-right scan: a voiced stretch [i, e) that starts right
   * after the scanned prefix and stops at an unvoiced frame is the next run.
   */
  lemma RunsWithinExtend(flags: seq<bool>, runs: seq<Run>, i: nat, e: nat)
    requires RunsWithin(flags, runs, 0, i)
    requires i < e <= |flags|
    requires forall x :: i <= x < e ==> flags[x]
    requires !At(flags, e)
    ensures RunsWithin(flags, runs + [Run(i, e)], 0, e)
  {
    RunsWithinBeforeVoiced(flags, runs, i);
    var runs' := runs + [Run(i, e)];
    forall j | 0 <= j < |runs'|
      ensures runs'[j].end <= e && IsRun(flags, runs'[j])
    {
      if j < |runs| {
        assert runs'[j] == runs[j];
      }
    }
    forall x | 0 <= x < e && flags[x]
      ensures Covered(runs', x)
    {
      if x < i {
        assert Covered(runs, x);
        var j :| 0 <= j < |runs| && runs[j].start <= x < runs[j].end;
        assert runs'[j] == runs[j];
      } else {
        assert runs'[|runs|].start <= x < runs'[|runs|].end;
      }
    }
  }
}
