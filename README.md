# Pitch-track segmentation, verified in Dafny

This project models the core of a monophonic audio transcriber. A pitch tracker gives one
fundamental-frequency (f0) value per analysis frame. A frame without pitch carries NaN.
The core turns that track into note segments, and it exists in two versions.

* `transcribe.py` (the classical, pYIN-based transcriber):
  * `_segments_from_flags` finds the edges of the zero-padded voiced-flag array with
    `flatnonzero(diff(pad(...)))` and pairs them into half-open frame ranges `[s, e)`.
  * The segment loop of `transcribe_to_json` then handles each range in order:
    * it converts the range to sample positions (`HOP = 128`) and to seconds at the
      8000 Hz analysis rate;
    * it drops ranges shorter than `MIN_DUR = 0.10` s, then ranges without a finite f0
      sample;
    * it keeps `(start_t, end_t, hz_med)`, where `hz_med` is the median of the finite
      f0 samples.
  * When the tracker gives no voicing flag, "f0 is finite" is used instead.
* `transcribe_ml.py` (the neural-tracker transcriber):
  * A frame is voiced when its f0 is finite and strictly positive.
  * A two-level `while` scan collects maximal voiced runs.
  * Each run whose first-to-last frame time is at least `min_dur` becomes a note. Its
    pitch is named from the run's median frequency; `hz_to_note_name` gives `Rest` for
    non-finite or non-positive input.

NaN is `None` in `Sample = Option<real>`. Times and frequencies are exact reals.

The files are:
* `voiced_runs.dfy`: states what a correct segmentation is (`IsMaximalRuns`: ordered,
  disjoint, maximal, covering every voiced frame). It gives a reference left-to-right
  definition, `Runs`, and proves the two agree. It also proves that maximal runs are unique.
* `transcribe.dfy`: the edge computation and the two loops of `transcribe.py`, as methods
  proved against specification functions.
* `transcribe_ml.dfy`: `hz_to_note_name` and `segment_pitch_track`, with its outer loop
  and its inner run-collecting loop.
* `stats.dfy`: `np.median`.
* `frames.dfy`: numpy's finite-value filter.
* `wrappers.dfy`: a filter-map over `Option`.
* `agreement.dfy`: compares the two transcribers.

Both segmenters are proved to segment by exactly `Runs(flags)`: `Transcribe.SegmentsFromFlags`
returns `Runs(flags)`, and `TranscribeMl.SegmentPitchTrack` returns, beside its notes, the
runs its scan walks as a ghost result equal to `Runs` of its voicing. So on the same voiced
flags they produce the same runs.

Where the two source files differ, or where the code does something easy to miss, the model follows the code:
* The fallback voicing in `transcribe.py` (line 62) is "finite", not "finite and positive".
  `Agreement.FallbackVoicingAgrees` shows that it equals `transcribe_ml.py`'s voicing
  exactly when no finite f0 is zero or negative.
* The median in `transcribe.py` (lines 77-81) is taken over all finite samples, including
  non-positive ones.
* `transcribe.py` applies the duration filter before the pitch-validity filter
  (lines 73-79). `Transcribe.KeptOfDropsExactly` shows that the kept set does not depend
  on that order.
* The two files use different end times. `transcribe.py` uses the clipped exclusive end
  sample. `transcribe_ml.py` uses the time of the run's last frame. Both are kept as
  written.

## Model

| member | source | states |
|---|---|---|
| Transcribe.SegmentsFromFlags | transcribe.py:28-39 | Returns exactly the maximal voiced runs (`IsMaximalRuns`). They are in track order and do not overlap. Each is non-empty, all voiced and cannot be extended, and every voiced frame lies in one of them. The result equals the reference `Runs(flags)`, and empty flags give `[]`. |
| Transcribe.PairEdges | transcribe.py:33-39 | Reading the edges two at a time returns one range per (rise, fall) pair and drops none. This holds when the edges are the paired bounds of the runs. |
| Transcribe.EdgesArePairedRunBounds | transcribe.py:32 | `flatnonzero(diff(pad(v, (1, 1))))` is exactly start, end, start, end, ... of the maximal runs. There are two edges per run. |
| Transcribe.EdgeCount | transcribe.py:34-36 | The number of edges is even (twice the number of runs). So `i + 1 < len(edges)` always holds, and the `len(v)` fallback at line 36 is never used. |
| Transcribe.EdgePair | transcribe.py:35-37 | Edges 2j and 2j+1 are the start and exclusive end of run j, and start < end. So the `e > s` guard always passes. |
| Transcribe.EdgeAt | transcribe.py:32 | The padded difference is non-zero at k exactly when the flag changes between frames k-1 and k. Frames outside the track count as unvoiced. |
| Transcribe.DiffMarks | transcribe.py:32 | The padded difference array has length n+1 and marks every change of the flag, including at both ends. |
| Transcribe.NoEdgesInside | transcribe.py:32 | No edge lies strictly inside a voiced stretch. |
| Transcribe.EdgesOfRun | transcribe.py:32 | A run starting at i contributes exactly two edges, i and its end. |
| Transcribe.EdgesFromRuns | transcribe.py:32 | From any point not inside a run, the edges are the bounds of the runs that follow, in order. |
| Transcribe.Edges | transcribe.py:32 | Definition of `flatnonzero(diff(pad(v, (1, 1))))`; its properties are in `EdgesArePairedRunBounds`, `EdgeCount` and `EdgePair`. |
| Transcribe.FiniteMask | transcribe.py:62 | `isfinite(f0)`, one flag per frame; properties in `FallbackRunsAreFiniteStretches` and `Agreement.FallbackVoicingAgrees`. |
| Transcribe.Voicing | transcribe.py:61-62 | Definition: the tracker's flag when present, otherwise `FiniteMask`; properties in `FallbackRunsAreFiniteStretches` and `Agreement.FallbackVoicingAgrees`. |
| Transcribe.Slice | transcribe.py:76 | Definition of `f0[s_f:e_f]` with numpy's clamping; properties in `SliceAt` and `SliceMedianWithin`. |
| Transcribe.KeptOf | transcribe.py:66-81 | Definition of one loop iteration (times, the two `continue` filters, the median); properties in `KeptOfDropsExactly`, `KeptOfBounds` and `KeptPitchWithinSegment`. |
| Transcribe.Transcription | transcribe.py:61-81 | Definition of the whole segment loop over the runs of the voicing; `TranscribeSegments` is proved equal to it, and its properties are in `TranscriptionOrdered` and `KeptAllBounds`. |
| Transcribe.TranscribeSegments | transcribe.py:61-81 | The voicing fallback, the segmenter and the per-segment loop together return the kept `(start_t, end_t, hz_med)` triples. These are the kept segments of the maximal runs of the voicing, in segment order. |
| Transcribe.KeptOfDropsExactly | transcribe.py:72-79 | A segment is dropped if and only if `end_t - start_t < MIN_DUR` or none of its f0 samples is finite. |
| Transcribe.KeptOfBounds | transcribe.py:68-74 | A kept segment starts at `s_f*HOP/sr` and ends no later than `e_f*HOP/sr` and no later than `len(y)/sr`. It lasts at least `MIN_DUR`. |
| Transcribe.KeptAllBounds | transcribe.py:66-74 | Every kept segment starts at a non-negative time, lasts at least `MIN_DUR` and ends within the recording (`end_samp <= len(y)`). |
| Transcribe.SliceAt | transcribe.py:76 | Position p of `f0[s_f:e_f]`, with numpy's clamping, is frame `s_f + p` of the track, and that frame lies inside `[s_f, e_f)`. |
| Transcribe.SliceMedianWithin | transcribe.py:76-81 | The median of the finite samples of `f0[s_f:e_f]` lies between two finite f0 samples of frames in `[s_f, e_f)`. |
| Transcribe.KeptPitchWithinSegment | transcribe.py:76-81 | `hz_med` of a kept segment lies between the minimum and the maximum of the segment's finite f0 samples. |
| Transcribe.KeptAllOrdered | transcribe.py:64-74 | Segments in track order yield kept segments in time order. Each kept segment ends no later than the next one starts, and starts strictly increase. |
| Transcribe.TranscriptionOrdered | transcribe.py:61-81 | The kept segments of a whole track are chronological and do not overlap. |
| Transcribe.FallbackRunsAreFiniteStretches | transcribe.py:61-64 | Without a tracker flag, every segment frame has finite f0, and every frame with finite f0 is in a segment. |
| Stats.Median | transcribe.py:81 | Definition of `np.median`: the middle of the sorted copy; properties in `MedianOrderIndependent`, `MedianBetweenSamples` and `MedianWithin`. |
| Stats.MedianOrderIndependent | transcribe.py:81 | `np.median` depends only on the multiset of samples, not on their order. |
| Stats.MedianBetweenSamples | transcribe.py:81 | The median lies between two of the samples. |
| Stats.MedianWithin | transcribe_ml.py:38 | Any lower and upper bound that holds for every sample holds for the median. |
| Stats.SortedUnique | transcribe.py:81 | Two ascending sequences with the same elements are equal. So the sorted copy behind the median is unique. |
| Stats.SortAscSorted | transcribe.py:81 | The sorted copy used for the median is ascending and is a permutation of the samples (same multiset). |
| Stats.MiddleBetween | transcribe.py:81 | For an even count, the middle value (the mean of the two middle elements) lies between them. For an odd count it is the middle element. |
| Frames.Finite | transcribe.py:77 | The finite values of a segment in frame order; it keeps at most one value per frame. Further properties in `FiniteEmptyIff`, `FiniteSource` and `FiniteKeepsAll`. |
| Frames.FiniteEmptyIff | transcribe.py:77-78 | `f0_seg[isfinite(f0_seg)]` is empty exactly when every sample is NaN. |
| Frames.FiniteSource | transcribe.py:77 | Every finite value kept by the filter is a sample of the segment. |
| Frames.FiniteKeepsAll | transcribe_ml.py:30-31 | Over frames that are all finite, the filter keeps one value per frame. |
| VoicedRuns.RunsAreMaximal | transcribe_ml.py:22-33 | The reference left-to-right scan yields ordered, disjoint, maximal runs that cover every voiced frame. |
| VoicedRuns.MaximalRunsAreRuns | transcribe.py:32-38 | Any correct segmentation equals the reference scan. Maximal runs are unique, which is why the two segmenters agree. |
| VoicedRuns.RunsFromMaximal | transcribe_ml.py:22-33 | Started where no run can be straddled, the scan yields the maximal runs of the rest of the track. |
| VoicedRuns.RunsWithinAreRunsFrom | transcribe_ml.py:22-33 | A list of maximal runs covering a suffix of the track is the scan of that suffix. |
| VoicedRuns.RunsWithinHead | transcribe_ml.py:28-33 | If the first frame of a suffix is voiced, the first run of any correct segmentation of the suffix starts there and ends at the first unvoiced frame. |
| VoicedRuns.RunEndUnique | transcribe_ml.py:30-33 | A voiced stretch that stops at an unvoiced frame or at the track end stops where the scan's run end says. |
| VoicedRuns.NoVoicedNoRuns | transcribe.py:29-32 | All-false flags, in particular empty flags, have no runs. |
| VoicedRuns.AllVoicedOneRun | transcribe.py:32-38 | All-true flags of length n have the single run `[(0, n)]`. |
| VoicedRuns.RunsWithinSkip | transcribe_ml.py:25-27 | Skipping an unvoiced frame keeps the runs found so far maximal and complete. |
| VoicedRuns.RunsWithinBeforeVoiced | transcribe_ml.py:25-28 | When the outer loop stops at a voiced frame, the frame before it is unvoiced, so the run starts there. |
| VoicedRuns.RunsWithinExtend | transcribe_ml.py:28-33 | The voiced stretch `[start, end)` collected by the inner loop is the next maximal run. |
| VoicedRuns.RunsWithinCons | transcribe_ml.py:28-33 | A maximal run followed by the maximal runs after it gives the maximal runs from its start. |
| TranscribeMl.HzToNoteName | transcribe_ml.py:7-10 | The result is `Rest` if and only if the input is non-finite or `<= 0`. Otherwise it is the name of the input frequency. |
| TranscribeMl.Voiced | transcribe_ml.py:18 | `isfinite(f0) & (f0 > 0)`, one flag per frame; properties in `ScanRunsArePositiveStretches` and `Agreement.FallbackVoicingAgrees`. |
| TranscribeMl.CollectRun | transcribe_ml.py:28-33 | From a voiced frame, the inner loop stops at the first unvoiced frame or at N. Every frame it passes is voiced, and it moves at least one frame. `freqs` holds one value per frame, the finite f0 of those frames, so `len(freqs) == 0` never holds at line 36. |
| TranscribeMl.SegmentPitchTrack | transcribe_ml.py:12-40 | The runs the nested scan walks (a ghost result) are exactly `Runs` of "finite and > 0" among the first `len(times)` frames, and it returns, in run order, the notes of those runs. Empty `times` gives `[]`. |
| TranscribeMl.ScanRunStep | transcribe_ml.py:28-33 | Each run the outer loop collects extends the maximal runs found so far. |
| TranscribeMl.ScanNoteStep | transcribe_ml.py:34-39 | A collected run contributes `(name(median), t0, t1)`, or nothing if `t1 - t0 < min_dur` or `freqs` is empty. |
| TranscribeMl.NotesOfSnoc | transcribe_ml.py:39 | Appending a run appends exactly its note, if any. |
| TranscribeMl.NoteOf | transcribe_ml.py:34-39 | Definition of the note one run yields; properties in `NoteOfTimes`, `SingleFrameRunDropped` and `NoteOfPitched`. |
| TranscribeMl.Transcription | transcribe_ml.py:12-40 | Definition: the notes of `Runs` of the scanned voicing; `SegmentPitchTrack` is proved equal to it, and its properties are in `TranscriptionMinDuration`, `TranscriptionNeverRest` and `TranscriptionOrdered`. |
| TranscribeMl.NoteOfTimes | transcribe_ml.py:34-37 | A note starts at `times[start]`, ends at `times[end-1]` and lasts at least `min_dur`. |
| TranscribeMl.SingleFrameRunDropped | transcribe_ml.py:34-37 | With a positive `min_dur`, a run of one frame never becomes a note. |
| TranscribeMl.NoteOfPitched | transcribe_ml.py:30-39 | A run of finite positive f0 keeps every frame's value and yields a named pitch with a positive frequency. |
| TranscribeMl.NotesOfMinDuration | transcribe_ml.py:36-39 | Every note of a list of runs lasts at least `min_dur`. |
| TranscribeMl.NotesOfPitched | transcribe_ml.py:38-39 | Runs of finite positive f0 give only named notes with positive frequency. |
| TranscribeMl.NotesOfOrdered | transcribe_ml.py:22-39 | With strictly increasing times, notes of ordered disjoint runs have `start <= end`, and each ends before the next starts. |
| TranscribeMl.ScanRunsArePositiveStretches | transcribe_ml.py:18 | Every frame of a scanned run has finite, strictly positive f0. Every such frame among the first `len(times)` lies in a run. |
| TranscribeMl.TranscriptionMinDuration | transcribe_ml.py:36-37 | Every note of a track lasts at least `min_dur`. |
| TranscribeMl.TranscriptionNeverRest | transcribe_ml.py:38-39 | No note of a track is `Rest`. Its frequency is positive. |
| TranscribeMl.TranscriptionOrdered | transcribe_ml.py:22-40 | With strictly increasing times, notes come in time order and do not overlap, and their starts strictly increase. |
| Agreement.FallbackVoicingAgrees | transcribe.py:61-62 | The classical fallback voicing (finite) equals the neural voicing (finite and > 0) if and only if no finite f0 is zero or negative. |
| Agreement.SameRunsOnPositiveTrack | transcribe_ml.py:18-33 | On such a track, the classical segmenter on its fallback voicing and the neural scan find the same maximal runs. |

## Left out

- `_load` (transcribe.py:14-26): decoding, resampling, trimming and normalising audio is I/O. The recording enters the model only as its length in samples, `ySamples`.
- `librosa.pyin` and the `nn_filter` median smoothing (transcribe.py:45-59) are foreign estimators. Their outputs, `f0` and the optional `vflag`, are parameters.
- `librosa.hz_to_note` (transcribe.py:82, transcribe_ml.py:10) is a foreign floating-point conversion. A named pitch is kept as `Named(hz)`, standing for the name of `hz`.
- TranscribeMl.HzToNoteName: states only the `Rest` guard and that a non-rest carries the input frequency; which note name `librosa` picks is not modelled.
- transcribe.py after line 82 (the record appended per note and the function's return value) is not part of this model. The model stops at the kept `(start_t, end_t, hz_med)` triple.
- Transcribe.TranscribeSegments: the sample rate is the fixed analysis rate `TARGET_SR` that `_load` returns; `sr` is not a free parameter.
- TranscribeMl.SegmentPitchTrack: requires `len(f0) >= len(times)`. With a shorter `f0`, numpy raises `IndexError` at `voiced[i]`, and that error path is not modelled.
- TranscribeMl.SegmentPitchTrack: `min_dur` is a parameter without the default 0.08 of transcribe_ml.py:12; Dafny methods have no default arguments, and the only caller, server.py:50, passes 0.08 explicitly.
- Floating point: times, durations and frequencies are exact reals. Rounding in `s_f * HOP / sr`, in the `MIN_DUR` comparison and in the median's mean of two values is not modelled. Infinities count as non-finite, like NaN.
- server.py (HTTP endpoints, temporary files, CREPE, Basic Pitch, tempo estimation) is I/O and foreign-model plumbing and is not part of this model.
- No tempo or rhythm quantiser exists in the modelled source, so none is modelled.
