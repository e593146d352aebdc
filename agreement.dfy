/**
 * The two transcribers side by side. Both segmenters return the maximal voiced
 * runs of the flags they are given (`Transcribe.SegmentsFromFlags` returns
 * `Runs`, and the ghost runs `TranscribeMl.SegmentPitchTrack` walks are proved
 * equal to `Runs`); what can differ is the voicing they start from.
 */
module Agreement {
  import opened Wrappers
  import opened Frames
  import opened VoicedRuns
  import Transcribe
  import TranscribeMl

  /** No finite f0 sample is zero or negative. */
  ghost predicate FinitePositive(f0: seq<Sample>)
  {
    forall k :: 0 <= k < |f0| && f0[k].Some? ==> f0[k].value > 0.0
  }

  /**
   * Over a track whose times cover every f0 frame, the fallback voicing of the
   * classical transcriber ("f0 is finite") is the voicing of the neural one
   * ("f0 is finite and positive") exactly when no finite f0 is non-positive.
   */
  lemma FallbackVoicingAgrees(times: seq<real>, f0: seq<Sample>)
    requires |times| == |f0|
    ensures Transcribe.Voicing(f0, None) == TranscribeMl.ScanFlags(times, f0) <==> FinitePositive(f0)
  {
    var a, b := Transcribe.Voicing(f0, None), TranscribeMl.ScanFlags(times, f0);
    assert |a| == |b| == |f0|;
    if FinitePositive(f0) {
      forall k | 0 <= k < |f0|
        ensures a[k] == b[k]
      {
        assert b[k] == TranscribeMl.Voiced(f0)[k];
      }
    }
    if a == b {
      forall k | 0 <= k < |f0| && f0[k].Some?
        ensures f0[k].value > 0.0
      {
        assert a[k] && b[k] == TranscribeMl.Voiced(f0)[k];
      }
    }
  }

  /**
   * When no finite f0 is non-positive, the classical segmenter run on the
   * fallback voicing and the neural scan find the same runs.
   */
  lemma SameRunsOnPositiveTrack(times: seq<real>, f0: seq<Sample>)
    requires |times| == |f0|
    requires FinitePositive(f0)
    ensures Runs(Transcribe.Voicing(f0, None)) == Runs(TranscribeMl.ScanFlags(times, f0))
    ensures IsMaximalRuns(TranscribeMl.ScanFlags(times, f0), Runs(Transcribe.Voicing(f0, None)))
  {
    FallbackVoicingAgrees(times, f0);
    RunsAreMaximal(TranscribeMl.ScanFlags(times, f0));
  }
}
