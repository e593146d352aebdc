/**
 * The neural-tracker transcriber: a frame is voiced when its f0 is finite and
 * positive, a two-level scan collects maximal voiced runs, and each run long
 * enough becomes a note labelled with the name of its median frequency.
 */
module TranscribeMl {
  import opened Wrappers
  import opened Frames
  import opened Stats
  import opened VoicedRuns

  /**
   * A pitch label. `Named(hz)` stands for the note name `librosa.hz_to_note`
   * gives for `hz`; that conversion is not part of this model.
   */
  datatype Pitch = Rest | Named(hz: real)

  datatype Note = Note(pitch: Pitch, start: real, end: real)

  /** `hz_to_note_name`: silence and invalid input are a rest. */
  function HzToNoteName(hz: Sample): (p: Pitch)
    ensures p == Rest <==> hz.None? || hz.value <= 0.0
    ensures p.Named? ==> p.hz == hz.value
  {
    if hz.None? || hz.value <= 0.0 then Rest else Named(hz.value)
  }

  /** `np.isfinite(f0_hz) & (f0_hz > 0)`. */
  function Voiced(f0: seq<Sample>): (voiced: seq<bool>)
    ensures |voiced| == |f0|
  {
    seq(|f0|, k requires 0 <= k < |f0| => f0[k].Some? && f0[k].value > 0.0)
  }

  /** The note one run yields, if it is long enough (times of its first and last frame). */
  function NoteOf(times: seq<real>, f0: seq<Sample>, minDur: real, r: Run): Option<Note>
    requires r.start < r.end <= |times| <= |f0|
  {
    var t0 := times[r.start];
    var t1 := times[Min(r.end - 1, |times| - 1)];
    var freqs := Finite(f0[r.start..r.end]);
    if t1 - t0 < minDur || |freqs| == 0 then None
    else Some(Note(HzToNoteName(Some(Median(freqs))), t0, t1))
  }

  ghost predicate RunsInside(runs: seq<Run>, n: nat)
  {
    forall j :: 0 <= j < |runs| ==> runs[j].start < runs[j].end <= n
  }

  /** The note (or nothing) each run yields, run by run. */
  function NoteOfEach(times: seq<real>, f0: seq<Sample>, minDur: real, runs: seq<Run>): (os: seq<Option<Note>>)
    requires |times| <= |f0| && RunsInside(runs, |times|)
    ensures |os| == |runs|
  {
    seq(|runs|, j requires 0 <= j < |runs| => NoteOf(times, f0, minDur, runs[j]))
  }

  /** The notes of a list of runs, in run order. */
  function NotesOf(times: seq<real>, f0: seq<Sample>, minDur: real, runs: seq<Run>): seq<Note>
    requires |times| <= |f0| && RunsInside(runs, |times|)
  {
    Somes(NoteOfEach(times, f0, minDur, runs))
  }

  /** Appending a run appends what that run yields. */
  lemma NotesOfSnoc(times: seq<real>, f0: seq<Sample>, minDur: real, runs: seq<Run>, r: Run)
    requires |times| <= |f0| && RunsInside(runs, |times|)
    requires r.start < r.end <= |times|
    ensures RunsInside(runs + [r], |times|)
    ensures NotesOf(times, f0, minDur, runs + [r]) ==
      NotesOf(times, f0, minDur, runs) + match NoteOf(times, f0, minDur, r) case Some(n) => [n] case None => []
  {
    assert NoteOfEach(times, f0, minDur, runs + [r]) == NoteOfEach(times, f0, minDur, runs) + [NoteOf(times, f0, minDur, r)];
    SomesSnoc(NoteOfEach(times, f0, minDur, runs), NoteOf(times, f0, minDur, r));
  }

  /** Runs found within frames [0, hi) lie inside the first hi frames. */
  lemma RunsWithinInside(flags: seq<bool>, runs: seq<Run>, hi: nat)
    requires RunsWithin(flags, runs, 0, hi)
    ensures RunsInside(runs, hi)
  {
  }

  /** The voiced flags of the frames the scan visits. */
  function ScanFlags(times: seq<real>, f0: seq<Sample>): (flags: seq<bool>)
    requires |times| <= |f0|
    ensures |flags| == |times|
  {
    Voiced(f0)[..|times|]
  }

  /** What `segment_pitch_track` returns: one note per long-enough maximal voiced run. */
  function Transcription(times: seq<real>, f0: seq<Sample>, minDur: real): seq<Note>
    requires |times| <= |f0|
  {
    NotesOf(times, f0, minDur, Runs(ScanFlags(times, f0)))
  }

  /** One step of the outer scan: the maximal run [start, end) found at frame `start` extends the runs found so far. */
  lemma ScanRunStep(times: seq<real>, f0: seq<Sample>, runs: seq<Run>, start: nat, end: nat)
    requires |times| <= |f0|
    requires RunsWithin(ScanFlags(times, f0), runs, 0, start)
    requires start < end <= |times|
    requires forall x :: start <= x < end ==> Voiced(f0)[x]
    requires end == |times| || !Voiced(f0)[end]
    ensures RunsWithin(ScanFlags(times, f0), runs + [Run(start, end)], 0, end)
  {
    var flags := ScanFlags(times, f0);
    assert forall x :: start <= x < end ==> flags[x];
    assert !At(flags, end);
    RunsWithinExtend(flags, runs, start, end);
  }

  /** The run [start, end), with the f0 values collected over it, contributes its note, if any. */
  lemma ScanNoteStep(times: seq<real>, f0: seq<Sample>, minDur: real, runs: seq<Run>, start: nat, end: nat, freqs: seq<real>)
    requires |times| <= |f0| && RunsInside(runs, |times|)
    requires start < end <= |times|
    requires freqs == Finite(f0[start..end])
    ensures RunsInside(runs + [Run(start, end)], |times|)
    ensures var t0, t1 := times[start], times[Min(end - 1, |times| - 1)];
      NotesOf(times, f0, minDur, runs + [Run(start, end)]) == NotesOf(times, f0, minDur, runs) +
        if t1 - t0 < minDur || |freqs| == 0 then [] else [Note(HzToNoteName(Some(Median(freqs))), t0, t1)]
  {
    NotesOfSnoc(times, f0, minDur, runs, Run(start, end));
  }

  /**
   * The inner loop of `segment_pitch_track`: from a voiced frame `start`,
   * advance over voiced frames, collecting their f0, and stop at the first
   * unvoiced frame or at frame `n`.
   */
  method CollectRun(f0: seq<Sample>, voiced: seq<bool>, n: nat, start: nat) returns (end: nat, freqs: seq<real>)
    requires voiced == Voiced(f0) && n <= |f0|
    requires start < n && voiced[start]
    ensures start < end <= n
    ensures forall x :: start <= x < end ==> voiced[x]
    ensures end == n || !voiced[end]
    ensures freqs == Finite(f0[start..end]) && |freqs| == end - start
  {
    var i := start;
    freqs := [];
    while i < n && voiced[i]
      invariant start <= i <= n
      invariant forall x :: start <= x < i ==> voiced[x]
      invariant freqs == Finite(f0[start..i]) && |freqs| == i - start
    {
      assert f0[start..i + 1] == f0[start..i] + [f0[i]];
      freqs := freqs + [f0[i].value];
      i := i + 1;
    }
    end := i;
  }

  /**
   * `segment_pitch_track`. The outer loop skips unvoiced frames; each voiced
   * frame starts a run whose f0 values are collected by `CollectRun`. `times`
   * gives the frame count; a shorter `f0` would make the voiced lookup fail,
   * so the caller provides at least as many f0 values as times. The ghost
   * `runs` are the runs the scan walks: exactly the reference `Runs`.
   */
  method SegmentPitchTrack(times: seq<real>, f0: seq<Sample>, minDur: real) returns (notes: seq<Note>, ghost runs: seq<Run>)
    requires |times| <= |f0|
    ensures runs == Runs(ScanFlags(times, f0))
    ensures notes == Transcription(times, f0, minDur)
    ensures |times| == 0 ==> notes == []
  {
    notes := [];
    runs := [];
    var voiced := Voiced(f0);
    if |times| == 0 {
      NoVoicedNoRuns(ScanFlags(times, f0));
      return;
    }
    var i := 0;
    var n := |times|;
    ghost var flags := ScanFlags(times, f0);
    while i < n
      invariant i <= n
      invariant RunsWithin(flags, runs, 0, i)
      invariant RunsInside(runs, n)
      invariant notes == NotesOf(times, f0, minDur, runs)
    {
      if !voiced[i] {
        RunsWithinSkip(flags, runs, i);
        i := i + 1;
        continue;
      }
      var start := i;
      var end, freqs := CollectRun(f0, voiced, n, start);
      i := end;
      var t0 := times[start];
      var t1 := times[Min(end - 1, n - 1)];
      ScanRunStep(times, f0, runs, start, end);
      ScanNoteStep(times, f0, minDur, runs, start, end, freqs);
      runs := runs + [Run(start, end)];
      if t1 - t0 < minDur || |freqs| == 0 {
        continue;
      }
      var hzMed := Median(freqs);
      notes := notes + [Note(HzToNoteName(Some(hzMed)), t0, t1)];
    }
    MaximalRunsAreRuns(flags, runs);
  }

  // ---------------------------------------------------------------------------
  // Properties of the notes
  // ---------------------------------------------------------------------------

  /** A note spans the times of its run's first and last frame and lasts at least `minDur`. */
  lemma NoteOfTimes(times: seq<real>, f0: seq<Sample>, minDur: real, r: Run)
    requires r.start < r.end <= |times| <= |f0|
    requires NoteOf(times, f0, minDur, r).Some?
    ensures var note := NoteOf(times, f0, minDur, r).value;
      note.start == times[r.start] && note.end == times[r.end - 1] && note.end - note.start >= minDur
  {
  }

  /** With a positive `minDur`, a run of a single frame never becomes a note. */
  lemma SingleFrameRunDropped(times: seq<real>, f0: seq<Sample>, minDur: real, r: Run)
    requires r.start < r.end <= |times| <= |f0|
    requires minDur > 0.0 && r.end == r.start + 1
    ensures NoteOf(times, f0, minDur, r) == None
  {
  }

  /** A run of finite positive f0 yields a named pitch with a positive frequency, never a rest. */
  lemma NoteOfPitched(times: seq<real>, f0: seq<Sample>, minDur: real, r: Run)
    requires r.start < r.end <= |times| <= |f0|
    requires forall x :: r.start <= x < r.end ==> f0[x].Some? && f0[x].value > 0.0
    ensures |Finite(f0[r.start..r.end])| == r.end - r.start
    ensures NoteOf(times, f0, minDur, r).Some? ==>
      NoteOf(times, f0, minDur, r).value.pitch.Named? && NoteOf(times, f0, minDur, r).value.pitch.hz > 0.0
  {
    var sl := f0[r.start..r.end];
    var freqs := Finite(sl);
    FiniteKeepsAll(sl);
    MedianBetweenSamples(freqs);
    var i, j :| 0 <= i < |freqs| && 0 <= j < |freqs| && freqs[i] <= Median(freqs) <= freqs[j];
    FiniteSource(sl, i);
  }

  /** Every note lasts at least `minDur`. */
  lemma NotesOfMinDuration(times: seq<real>, f0: seq<Sample>, minDur: real, runs: seq<Run>)
    requires |times| <= |f0| && RunsInside(runs, |times|)
    ensures var notes := NotesOf(times, f0, minDur, runs);
      forall k :: 0 <= k < |notes| ==> notes[k].end - notes[k].start >= minDur
  {
    var os := NoteOfEach(times, f0, minDur, runs);
    forall j | 0 <= j < |os| && os[j].Some?
      ensures os[j].value.end - os[j].value.start >= minDur
    {
      NoteOfTimes(times, f0, minDur, runs[j]);
    }
    SomesAll(os, (n: Note) => n.end - n.start >= minDur);
  }

  /** Runs of finite positive f0 give notes that are all named, with positive frequency. */
  lemma NotesOfPitched(times: seq<real>, f0: seq<Sample>, minDur: real, runs: seq<Run>)
    requires |times| <= |f0| && RunsInside(runs, |times|)
    requires forall j, x :: 0 <= j < |runs| && runs[j].start <= x < runs[j].end ==> f0[x].Some? && f0[x].value > 0.0
    ensures var notes := NotesOf(times, f0, minDur, runs);
      forall k :: 0 <= k < |notes| ==> notes[k].pitch.Named? && notes[k].pitch.hz > 0.0
  {
    var os := NoteOfEach(times, f0, minDur, runs);
    forall j | 0 <= j < |os| && os[j].Some?
      ensures os[j].value.pitch.Named? && os[j].value.pitch.hz > 0.0
    {
      NoteOfPitched(times, f0, minDur, runs[j]);
    }
    SomesAll(os, (n: Note) => n.pitch.Named? && n.pitch.hz > 0.0);
  }

  ghost predicate StrictlyIncreasing(times: seq<real>)
  {
    forall a, b :: 0 <= a < b < |times| ==> times[a] < times[b]
  }

  /**
   * With strictly increasing times, notes of ordered runs are in time order:
   * each note starts no later than it ends and ends before the next one starts.
   */
  lemma NotesOfOrdered(times: seq<real>, f0: seq<Sample>, minDur: real, runs: seq<Run>)
    requires |times| <= |f0| && RunsInside(runs, |times|) && StrictlyIncreasing(times)
    requires forall j, k :: 0 <= j < k < |runs| ==> runs[j].end <= runs[k].start
    ensures var notes := NotesOf(times, f0, minDur, runs);
      (forall k :: 0 <= k < |notes| ==> notes[k].start <= notes[k].end)
      && (forall a, b :: 0 <= a < b < |notes| ==> notes[a].end < notes[b].start)
  {
    var os := NoteOfEach(times, f0, minDur, runs);
    forall j | 0 <= j < |os| && os[j].Some?
      ensures os[j].value.start <= os[j].value.end
    {
      NoteOfTimes(times, f0, minDur, runs[j]);
      if runs[j].start < runs[j].end - 1 {
        assert times[runs[j].start] < times[runs[j].end - 1];
      }
    }
    forall i, j | 0 <= i < j < |os| && os[i].Some? && os[j].Some?
      ensures os[i].value.end < os[j].value.start
    {
      NoteOfTimes(times, f0, minDur, runs[i]);
      NoteOfTimes(times, f0, minDur, runs[j]);
      assert times[runs[i].end - 1] < times[runs[j].start];
    }
    SomesAll(os, (n: Note) => n.start <= n.end);
    SomesOrdered(os, (x: Note, y: Note) => x.end < y.start);
  }

  /**
   * The scanned runs are exactly the stretches of finite, strictly positive
   * f0 among the first |times| frames.
   */
  lemma ScanRunsArePositiveStretches(times: seq<real>, f0: seq<Sample>)
    requires |times| <= |f0|
    ensures var runs := Runs(ScanFlags(times, f0));
      (forall j, x :: 0 <= j < |runs| && runs[j].start <= x < runs[j].end ==> f0[x].Some? && f0[x].value > 0.0)
      && (forall x :: 0 <= x < |times| && f0[x].Some? && f0[x].value > 0.0 ==> Covered(runs, x))
  {
    var flags := ScanFlags(times, f0);
    RunsAreMaximal(flags);
    assert forall x :: 0 <= x < |times| ==> (flags[x] <==> f0[x].Some? && f0[x].value > 0.0);
  }

  /** Every note of a pitch track lasts at least `minDur`. */
  lemma TranscriptionMinDuration(times: seq<real>, f0: seq<Sample>, minDur: real)
    requires |times| <= |f0|
    ensures var notes := Transcription(times, f0, minDur);
      forall k :: 0 <= k < |notes| ==> notes[k].end - notes[k].start >= minDur
  {
    var runs := Runs(ScanFlags(times, f0));
    NotesOfMinDuration(times, f0, minDur, runs);
    assert Transcription(times, f0, minDur) == NotesOf(times, f0, minDur, runs);
  }

  /** No note of a pitch track is a rest: its frequency is positive. */
  lemma TranscriptionNeverRest(times: seq<real>, f0: seq<Sample>, minDur: real)
    requires |times| <= |f0|
    ensures var notes := Transcription(times, f0, minDur);
      forall k :: 0 <= k < |notes| ==> notes[k].pitch != Rest && notes[k].pitch.hz > 0.0
  {
    var runs := Runs(ScanFlags(times, f0));
    ScanRunsArePositiveStretches(times, f0);
    NotesOfPitched(times, f0, minDur, runs);
    assert Transcription(times, f0, minDur) == NotesOf(times, f0, minDur, runs);
  }

  /** With strictly increasing times, the notes come in time order and do not overlap. */
  lemma TranscriptionOrdered(times: seq<real>, f0: seq<Sample>, minDur: real)
    requires |times| <= |f0| && StrictlyIncreasing(times)
    ensures var notes := Transcription(times, f0, minDur);
      (forall k :: 0 <= k < |notes| ==> notes[k].start <= notes[k].end)
      && (forall a, b :: 0 <= a < b < |notes| ==> notes[a].end < notes[b].start && notes[a].start < notes[b].start)
  {
    var runs := Runs(ScanFlags(times, f0));
    RunsAreMaximal(ScanFlags(times, f0));
    NotesOfOrdered(times, f0, minDur, runs);
    assert Transcription(times, f0, minDur) == NotesOf(times, f0, minDur, runs);
  }
}
