/**
 * The classical (pYIN-based) transcriber: the edge-based segmenter and the
 * per-segment loop that turns voiced frame ranges into
 * (start time, end time, median Hz) triples.
 */
module Transcribe {
  import opened Wrappers
  import opened Frames
  import opened Stats
  import opened VoicedRuns

  /** Samples per analysis frame. */
  const HOP: nat := 128
  /** The rate every recording is resampled to before analysis. */
  const TARGET_SR: nat := 8000
  /** Segments shorter than this many seconds are ignored. */
  const MIN_DUR: real := 0.10

  /** One kept segment: its start and end in seconds and its representative frequency in Hz. */
  datatype Kept = Kept(startT: real, endT: real, hz: real)

  // ---------------------------------------------------------------------------
  // Edge detection: flatnonzero(diff(pad(v, (1, 1))))
  // ---------------------------------------------------------------------------

  /** The flags as an int8 array of 0s and 1s. */
  function AsInt8(flags: seq<bool>): (v: seq<int>)
    ensures |v| == |flags|
  {
    seq(|flags|, k requires 0 <= k < |flags| => if flags[k] then 1 else 0)
  }

  /** Constant zero padding of width one on both sides. */
  function Pad(v: seq<int>): seq<int>
  {
    [0] + v + [0]
  }

  /** Differences of neighbouring elements. */
  function Diff(p: seq<int>): (d: seq<int>)
    ensures |p| > 0 ==> |d| == |p| - 1
  {
    if |p| == 0 then [] else seq(|p| - 1, k requires 0 <= k < |p| - 1 => p[k + 1] - p[k])
  }

  /** Ascending indices `k >= from` of the non-zero elements of `d`. */
  function NonzeroFrom(d: seq<int>, from: nat): seq<nat>
    decreases |d| - from
  {
    if from >= |d| then []
    else (if d[from] != 0 then [from] else []) + NonzeroFrom(d, from + 1)
  }

  function FlatNonzero(d: seq<int>): seq<nat>
  {
    NonzeroFrom(d, 0)
  }

  /** The frame indices at which the voiced flag switches, treating both ends as unvoiced. */
  function Edges(flags: seq<bool>): seq<nat>
  {
    FlatNonzero(Diff(Pad(AsInt8(flags))))
  }

  /** Run boundaries listed as start, end, start, end, ... */
  ghost function Flatten(runs: seq<Run>): (edges: seq<nat>)
    ensures |edges| == 2 * |runs|
  {
    if runs == [] then [] else [runs[0].start, runs[0].end] + Flatten(runs[1..])
  }

  /** Entries 2j and 2j+1 of the flattened list are the bounds of run j. */
  lemma {:induction false} FlattenAt(runs: seq<Run>, j: nat)
    requires j < |runs|
    ensures Flatten(runs)[2 * j] == runs[j].start && Flatten(runs)[2 * j + 1] == runs[j].end
  {
    if j > 0 {
      FlattenAt(runs[1..], j - 1);
      assert runs[1..][j - 1] == runs[j];
    }
  }

  /** The difference array has a non-zero entry at `k` exactly when the flag changes between frames k-1 and k. */
  lemma EdgeAt(flags: seq<bool>, k: nat)
    requires k <= |flags|
    ensures |Diff(Pad(AsInt8(flags)))| == |flags| + 1
    ensures Diff(Pad(AsInt8(flags)))[k] != 0 <==> At(flags, k) != At(flags, k - 1)
  {
    var v := AsInt8(flags);
    var p := Pad(v);
    assert |p| == |flags| + 2;
    var d := Diff(p);
    assert d[k] == p[k + 1] - p[k];
    var hi := if At(flags, k) then 1 else 0;
    var lo := if At(flags, k - 1) then 1 else 0;
    assert p[k + 1] == hi;
    assert p[k] == lo;
    assert d[k] != 0 <==> hi != lo;
  }

  /** `d` marks, at each position k in [0, |flags|], whether the padded flags change between k-1 and k. */
  ghost predicate Marks(flags: seq<bool>, d: seq<int>)
  {
    |d| == |flags| + 1 && forall k :: 0 <= k < |d| ==> (d[k] != 0 <==> At(flags, k) != At(flags, k - 1))
  }

  /** The difference of the padded int8 flags marks the changes. */
  lemma DiffMarks(flags: seq<bool>)
    ensures Marks(flags, Diff(Pad(AsInt8(flags))))
  {
    var d := Diff(Pad(AsInt8(flags)));
    EdgeAt(flags, 0);
    forall k | 0 <= k <= |flags|
      ensures d[k] != 0 <==> At(flags, k) != At(flags, k - 1)
    {
      EdgeAt(flags, k);
    }
  }

  /** No edge lies strictly inside a voiced stretch. */
  lemma {:induction false} NoEdgesInside(flags: seq<bool>, d: seq<int>, a: nat, b: nat)
    requires Marks(flags, d)
    requires 1 <= a <= b <= |flags|
    requires forall x :: a - 1 <= x < b ==> flags[x]
    ensures NonzeroFrom(d, a) == NonzeroFrom(d, b)
    decreases b - a
  {
    if a < b {
      assert At(flags, a) && At(flags, a - 1);
      NoEdgesInside(flags, d, a + 1, b);
    }
  }

  /** A voiced run starting at `i` contributes exactly its rise at `i` and its fall at its end. */
  lemma EdgesOfRun(flags: seq<bool>, d: seq<int>, i: nat)
    requires Marks(flags, d)
    requires i < |flags| && flags[i] && !At(flags, i - 1)
    ensures NonzeroFrom(d, i) == [i, RunEnd(flags, i)] + NonzeroFrom(d, RunEnd(flags, i) + 1)
  {
    var e := RunEnd(flags, i);
    NoEdgesInside(flags, d, i + 1, e);
    assert d[i] != 0;
    assert NonzeroFrom(d, i) == [i] + NonzeroFrom(d, i + 1);
    assert At(flags, e - 1) && !At(flags, e);
    assert NonzeroFrom(d, e) == [e] + NonzeroFrom(d, e + 1);
  }

  /** An unvoiced frame after an unvoiced frame (or the track start) is no edge. */
  lemma NoEdgeAtUnvoiced(flags: seq<bool>, d: seq<int>, i: nat)
    requires Marks(flags, d)
    requires i <= |flags| && !At(flags, i) && !At(flags, i - 1)
    ensures NonzeroFrom(d, i) == NonzeroFrom(d, i + 1)
  {
    assert d[i] == 0;
  }

  /** Flattening a run followed by more runs lists its bounds first. */
  lemma FlattenCons(r: Run, rest: seq<Run>)
    ensures Flatten([r] + rest) == [r.start, r.end] + Flatten(rest)
  {
    assert ([r] + rest)[1..] == rest;
  }

  /** The scan for runs steps over an unvoiced frame. */
  lemma RunsFromUnvoiced(flags: seq<bool>, i: nat)
    requires i < |flags| && !flags[i]
    ensures RunsFrom(flags, i) == RunsFrom(flags, i + 1)
  {
  }

  /** The edges from the start of a run are its bounds followed by the edges after it. */
  lemma EdgesFromRunStep(flags: seq<bool>, d: seq<int>, i: nat)
    requires Marks(flags, d)
    requires i < |flags| && flags[i] && !At(flags, i - 1)
    requires NonzeroFrom(d, RunEnd(flags, i) + 1) == Flatten(RunsFrom(flags, RunEnd(flags, i)))
    ensures NonzeroFrom(d, i) == Flatten(RunsFrom(flags, i))
  {
    var e := RunEnd(flags, i);
    var rest := RunsFrom(flags, e);
    assert RunsFrom(flags, i) == [Run(i, e)] + rest;
    EdgesOfRun(flags, d, i);
    FlattenCons(Run(i, e), rest);
  }

  /** From an unvoiced point on, the edges are the reference runs' bounds, in order. */
  lemma {:induction false} EdgesFromRuns(flags: seq<bool>, d: seq<int>, i: nat)
    requires Marks(flags, d)
    requires i <= |flags|
    requires !At(flags, i - 1)
    ensures NonzeroFrom(d, i) == Flatten(RunsFrom(flags, i))
    decreases |flags| - i
  {
    if i == |flags| {
      NoEdgeAtUnvoiced(flags, d, i);
    } else if !flags[i] {
      NoEdgeAtUnvoiced(flags, d, i);
      EdgesFromRuns(flags, d, i + 1);
      RunsFromUnvoiced(flags, i);
    } else {
      var e := RunEnd(flags, i);
      if e < |flags| {
        EdgesFromRuns(flags, d, e + 1);
        RunsFromUnvoiced(flags, e);
      }
      EdgesFromRunStep(flags, d, i);
    }
  }

  /**
   * The edges come in (rise, fall) pairs that are exactly the start and
   * exclusive end of each maximal voiced run; in particular there is an even
   * number of them.
   */
  lemma EdgesArePairedRunBounds(flags: seq<bool>)
    ensures Edges(flags) == Flatten(Runs(flags))
    ensures |Edges(flags)| == 2 * |Runs(flags)|
  {
    DiffMarks(flags);
    EdgesFromRuns(flags, Diff(Pad(AsInt8(flags))), 0);
  }

  /** There are exactly two edges per maximal run. */
  lemma EdgeCount(flags: seq<bool>)
    ensures |Edges(flags)| == 2 * |Runs(flags)|
  {
    EdgesArePairedRunBounds(flags);
  }

  /** The (2j)-th and (2j+1)-th edges are the start and exclusive end of the j-th maximal run. */
  lemma EdgePair(flags: seq<bool>, j: nat)
    requires j < |Runs(flags)|
    ensures 2 * j + 1 < |Edges(flags)|
    ensures Edges(flags)[2 * j] == Runs(flags)[j].start < Runs(flags)[j].end == Edges(flags)[2 * j + 1]
  {
    EdgesArePairedRunBounds(flags);
    FlattenAt(Runs(flags), j);
  }

  /**
   * The loop of `_segments_from_flags`: reads the edges two at a time as
   * (start, end), using the track length `n` for an unpaired last edge, and
   * keeps the non-empty ranges. Given edges that are paired run bounds, it
   * returns exactly those runs.
   */
  method PairEdges(edges: seq<nat>, n: nat, ghost runs: seq<Run>) returns (segs: seq<Run>)
    requires |edges| == 2 * |runs|
    requires forall j :: 0 <= j < |runs| ==> edges[2 * j] == runs[j].start < runs[j].end == edges[2 * j + 1]
    ensures segs == runs
  {
    segs := [];
    var i := 0;
    while i < |edges|
      invariant i == 2 * |segs| <= |edges|
      invariant segs == runs[..|segs|]
    {
      var s := edges[i];
      var e := if i + 1 < |edges| then edges[i + 1] else n;
      if e > s {
        segs := segs + [Run(s, e)];
      }
      i := i + 2;
    }
    assert runs[..|runs|] == runs;
  }

  /**
   * `_segments_from_flags`: an empty flag array has no segments; otherwise the
   * edges are paired into half-open ranges. The result is the list of maximal
   * voiced runs.
   */
  method SegmentsFromFlags(flags: seq<bool>) returns (segs: seq<Run>)
    ensures IsMaximalRuns(flags, segs)
    ensures segs == Runs(flags)
    ensures |flags| == 0 ==> segs == []
  {
    if |flags| == 0 {
      NoVoicedNoRuns(flags);
      return [];
    }
    var edges := Edges(flags);
    EdgeCount(flags);
    forall j | 0 <= j < |Runs(flags)|
      ensures edges[2 * j] == Runs(flags)[j].start < Runs(flags)[j].end == edges[2 * j + 1]
    {
      EdgePair(flags, j);
    }
    segs := PairEdges(edges, |flags|, Runs(flags));
    RunsAreMaximal(flags);
  }

  // ---------------------------------------------------------------------------
  // The per-segment loop of transcribe_to_json
  // ---------------------------------------------------------------------------

  /** `np.isfinite(f0)`: the voicing used when the pitch tracker supplies no flag. */
  function FiniteMask(f0: seq<Sample>): (flags: seq<bool>)
    ensures |flags| == |f0|
  {
    seq(|f0|, k requires 0 <= k < |f0| => f0[k].Some?)
  }

  /** The voicing flags the segmenter sees: the tracker's own, else "f0 is finite". */
  function Voicing(f0: seq<Sample>, vflag: Option<seq<bool>>): seq<bool>
  {
    if vflag.Some? then vflag.value else FiniteMask(f0)
  }

  /** `f0[s:e]` with numpy's clamping of out-of-range bounds. */
  function Slice(f0: seq<Sample>, s: nat, e: nat): seq<Sample>
  {
    if s <= e then f0[Min(s, |f0|)..Min(e, |f0|)] else []
  }

  /** Position `p` of a slice is frame `s + p` of the track, inside [s, e). */
  lemma SliceAt(f0: seq<Sample>, s: nat, e: nat, p: nat)
    requires p < |Slice(f0, s, e)|
    ensures s + p < e && s + p < |f0| && Slice(f0, s, e)[p] == f0[s + p]
  {
  }

  /** Seconds at a sample position. */
  function Seconds(samp: int): real
  {
    samp as real / TARGET_SR as real
  }

  function StartSample(seg: Run): nat
  {
    seg.start * HOP
  }

  /** The end sample, clipped to the recording length. */
  function EndSample(ySamples: nat, seg: Run): nat
  {
    Min(ySamples, seg.end * HOP)
  }

  /** What one loop iteration keeps of a segment: nothing if it is too short or has no finite f0. */
  function KeptOf(f0: seq<Sample>, ySamples: nat, seg: Run): Option<Kept>
  {
    var startT := Seconds(StartSample(seg));
    var endT := Seconds(EndSample(ySamples, seg));
    if endT - startT < MIN_DUR then None
    else
      var valid := Finite(Slice(f0, seg.start, seg.end));
      if |valid| == 0 then None else Some(Kept(startT, endT, Median(valid)))
  }

  /** What each segment keeps, segment by segment. */
  function KeptOfEach(f0: seq<Sample>, ySamples: nat, segs: seq<Run>): (os: seq<Option<Kept>>)
    ensures |os| == |segs|
  {
    seq(|segs|, j requires 0 <= j < |segs| => KeptOf(f0, ySamples, segs[j]))
  }

  lemma KeptOfEachPrefix(f0: seq<Sample>, ySamples: nat, segs: seq<Run>, j: nat)
    requires j < |segs|
    ensures KeptOfEach(f0, ySamples, segs[..j + 1]) == KeptOfEach(f0, ySamples, segs[..j]) + [KeptOf(f0, ySamples, segs[j])]
  {
    var a := KeptOfEach(f0, ySamples, segs[..j + 1]);
    var b := KeptOfEach(f0, ySamples, segs[..j]) + [KeptOf(f0, ySamples, segs[j])];
    forall k | 0 <= k < |a|
      ensures a[k] == b[k]
    {
      assert segs[..j + 1][k] == segs[k];
      if k < j {
        assert segs[..j][k] == segs[k];
      }
    }
  }

  /** The kept segments, in segment order. */
  function KeptAll(f0: seq<Sample>, ySamples: nat, segs: seq<Run>): seq<Kept>
  {
    Somes(KeptOfEach(f0, ySamples, segs))
  }

  /** The whole computation: segmentation of the voicing, then the per-segment filter. */
  function Transcription(f0: seq<Sample>, vflag: Option<seq<bool>>, ySamples: nat): seq<Kept>
  {
    KeptAll(f0, ySamples, Runs(Voicing(f0, vflag)))
  }

  /**
   * The body of `transcribe_to_json` from the voicing fallback up to the median
   * of each segment: segments are visited in order, too-short segments are
   * dropped first, then segments without any finite f0.
   */
  method TranscribeSegments(f0: seq<Sample>, vflag: Option<seq<bool>>, ySamples: nat) returns (kept: seq<Kept>)
    ensures kept == Transcription(f0, vflag, ySamples)
  {
    var flags := if vflag.Some? then vflag.value else FiniteMask(f0);
    var segs := SegmentsFromFlags(flags);
    kept := [];
    for j := 0 to |segs|
      invariant kept == KeptAll(f0, ySamples, segs[..j])
    {
      var seg := segs[j];
      KeptOfEachPrefix(f0, ySamples, segs, j);
      SomesSnoc(KeptOfEach(f0, ySamples, segs[..j]), KeptOf(f0, ySamples, seg));
      var startSamp := seg.start * HOP;
      var endSamp := Min(ySamples, seg.end * HOP);
      var startT := Seconds(startSamp);
      var endT := Seconds(endSamp);
      var dur := endT - startT;
      if dur < MIN_DUR {
        assert KeptOf(f0, ySamples, seg) == None;
        continue;
      }
      var f0Seg := Slice(f0, seg.start, seg.end);
      var f0Valid := Finite(f0Seg);
      if |f0Valid| == 0 {
        assert KeptOf(f0, ySamples, seg) == None;
        continue;
      }
      var hzMed := Median(f0Valid);
      assert KeptOf(f0, ySamples, seg) == Some(Kept(startT, endT, hzMed));
      kept := kept + [Kept(startT, endT, hzMed)];
    }
    assert segs[..|segs|] == segs;
  }

  // ---------------------------------------------------------------------------
  // Properties of the kept segments
  // ---------------------------------------------------------------------------

  /**
   * A segment is dropped exactly when it is shorter than MIN_DUR or none of
   * its f0 samples is finite.
   */
  lemma KeptOfDropsExactly(f0: seq<Sample>, ySamples: nat, seg: Run)
    ensures KeptOf(f0, ySamples, seg).None? <==>
      (Seconds(EndSample(ySamples, seg)) - Seconds(StartSample(seg)) < MIN_DUR
       || forall k :: 0 <= k < |Slice(f0, seg.start, seg.end)| ==> Slice(f0, seg.start, seg.end)[k].None?)
  {
    FiniteEmptyIff(Slice(f0, seg.start, seg.end));
  }

  /** The median of the finite samples of `f0[s:e]` lies between two finite samples of frames [s, e). */
  lemma SliceMedianWithin(f0: seq<Sample>, s: nat, e: nat)
    requires |Finite(Slice(f0, s, e))| > 0
    ensures var hz := Median(Finite(Slice(f0, s, e)));
      exists a, b :: s <= a < e && s <= b < e && a < |f0| && b < |f0|
        && f0[a].Some? && f0[b].Some? && f0[a].value <= hz <= f0[b].value
  {
    var sl := Slice(f0, s, e);
    var valid := Finite(sl);
    MedianBetweenSamples(valid);
    var i, j :| 0 <= i < |valid| && 0 <= j < |valid| && valid[i] <= Median(valid) <= valid[j];
    FiniteSource(sl, i);
    FiniteSource(sl, j);
    var p :| 0 <= p < |sl| && sl[p] == Some(valid[i]);
    var q :| 0 <= q < |sl| && sl[q] == Some(valid[j]);
    SliceAt(f0, s, e, p);
    SliceAt(f0, s, e, q);
  }

  /** The representative frequency of a kept segment lies between two finite f0 samples of that segment. */
  lemma KeptPitchWithinSegment(f0: seq<Sample>, ySamples: nat, seg: Run)
    requires KeptOf(f0, ySamples, seg).Some?
    ensures var hz := KeptOf(f0, ySamples, seg).value.hz;
      exists a, b :: seg.start <= a < seg.end && seg.start <= b < seg.end && a < |f0| && b < |f0|
        && f0[a].Some? && f0[b].Some? && f0[a].value <= hz <= f0[b].value
  {
    var valid := Finite(Slice(f0, seg.start, seg.end));
    assert |valid| > 0 && KeptOf(f0, ySamples, seg).value.hz == Median(valid);
    SliceMedianWithin(f0, seg.start, seg.end);
  }

  lemma SecondsMonotone(a: int, b: int)
    requires a <= b
    ensures Seconds(a) <= Seconds(b)
  {
  }

  /** A kept segment starts at its first frame's sample, lasts at least MIN_DUR and ends within the recording. */
  lemma KeptOfBounds(f0: seq<Sample>, ySamples: nat, seg: Run)
    requires KeptOf(f0, ySamples, seg).Some?
    ensures var k := KeptOf(f0, ySamples, seg).value;
      k.startT == Seconds(seg.start * HOP) && k.endT <= Seconds(seg.end * HOP)
      && k.endT - k.startT >= MIN_DUR && 0.0 <= k.startT && k.endT <= Seconds(ySamples)
  {
    SecondsMonotone(0, StartSample(seg));
    SecondsMonotone(EndSample(ySamples, seg), ySamples);
    SecondsMonotone(EndSample(ySamples, seg), seg.end * HOP);
  }

  /** Every kept segment lasts at least MIN_DUR and ends within the recording. */
  lemma KeptAllBounds(f0: seq<Sample>, ySamples: nat, segs: seq<Run>)
    ensures var kept := KeptAll(f0, ySamples, segs);
      forall k :: 0 <= k < |kept| ==>
        kept[k].endT - kept[k].startT >= MIN_DUR && 0.0 <= kept[k].startT && kept[k].endT <= Seconds(ySamples)
  {
    var os := KeptOfEach(f0, ySamples, segs);
    forall j | 0 <= j < |os| && os[j].Some?
      ensures os[j].value.endT - os[j].value.startT >= MIN_DUR && 0.0 <= os[j].value.startT
        && os[j].value.endT <= Seconds(ySamples)
    {
      KeptOfBounds(f0, ySamples, segs[j]);
    }
    SomesAll(os, (k: Kept) => k.endT - k.startT >= MIN_DUR && 0.0 <= k.startT && k.endT <= Seconds(ySamples));
  }

  /**
   * Segments in track order give kept segments in time order: each one ends
   * no later than the next one starts, so starts strictly increase.
   */
  lemma KeptAllOrdered(f0: seq<Sample>, ySamples: nat, segs: seq<Run>)
    requires forall j, k :: 0 <= j < k < |segs| ==> segs[j].end <= segs[k].start
    ensures var kept := KeptAll(f0, ySamples, segs);
      forall a, b :: 0 <= a < b < |kept| ==> kept[a].endT <= kept[b].startT && kept[a].startT < kept[b].startT
  {
    var os := KeptOfEach(f0, ySamples, segs);
    forall i, j | 0 <= i < j < |os| && os[i].Some? && os[j].Some?
      ensures os[i].value.endT <= os[j].value.startT && os[i].value.startT < os[j].value.startT
    {
      KeptOfBounds(f0, ySamples, segs[i]);
      KeptOfBounds(f0, ySamples, segs[j]);
      SecondsMonotone(segs[i].end * HOP, segs[j].start * HOP);
    }
    SomesOrdered(os, (x: Kept, y: Kept) => x.endT <= y.startT && x.startT < y.startT);
  }

  /** The transcription's kept segments are in time order and do not overlap. */
  lemma TranscriptionOrdered(f0: seq<Sample>, vflag: Option<seq<bool>>, ySamples: nat)
    ensures var kept := Transcription(f0, vflag, ySamples);
      forall a, b :: 0 <= a < b < |kept| ==> kept[a].endT <= kept[b].startT && kept[a].startT < kept[b].startT
  {
    var runs := Runs(Voicing(f0, vflag));
    RunsAreMaximal(Voicing(f0, vflag));
    KeptAllOrdered(f0, ySamples, runs);
    assert Transcription(f0, vflag, ySamples) == KeptAll(f0, ySamples, runs);
  }

  /** Without a tracker-supplied flag, the segments are exactly the maximal runs of finite f0. */
  lemma FallbackRunsAreFiniteStretches(f0: seq<Sample>)
    ensures var runs := Runs(Voicing(f0, None));
      (forall j, x :: 0 <= j < |runs| && runs[j].start <= x < runs[j].end ==> x < |f0| && f0[x].Some?)
      && (forall x :: 0 <= x < |f0| && f0[x].Some? ==> Covered(runs, x))
  {
    var flags := Voicing(f0, None);
    RunsAreMaximal(flags);
    assert forall x :: 0 <= x < |f0| ==> (flags[x] <==> f0[x].Some?);
  }
}
