/**
 * `apply_artifacts_pipeline`: the gating of the artifact-reduction stages,
 * the widen/clamp/merge of the non-silent intervals and the re-slicing of
 * the audio.
 *
 * Audio is a sequence of samples of any type `S`. The foreign stages are
 * parameters that either produce a value or fail (`None`, an exception the
 * pipeline catches): the RNNoise pass with its strength blend, the
 * `librosa.effects.split` interval search, and the Whisper transcription.
 */
module Artifacts {
  import opened Wrappers

  /** The configuration getters the pipeline reads. */
  datatype Settings = Settings(
    enabled: bool,
    denoise: bool,
    strength: real,
    trim: bool,
    threshold: real,
    margin: real,
    whisper: bool)

  /** A half-open sample range `[start, end)`, as `split` returns it. */
  type Interval = (int, int)

  function Max(a: int, b: int): int { if a < b then b else a }

  function Min(a: int, b: int): int { if a < b then a else b }

  /** `max(0.0, min(1.0, strength))`. */
  function Clamp01(x: real): (r: real)
    ensures 0.0 <= r <= 1.0
    ensures 0.0 <= x <= 1.0 ==> r == x
  {
    if x < 0.0 then 0.0 else if x > 1.0 then 1.0 else x
  }

  /** Python's `int(x)` on a float: truncation toward zero. */
  function Trunc(x: real): (r: int)
    ensures 0.0 <= x ==> 0 <= r && r as real <= x < r as real + 1.0
    ensures x < 0.0 ==> r <= 0 && x <= r as real && r as real - 1.0 < x
  {
    if x >= 0.0 then x.Floor else -((-x).Floor)
  }

  /** `int(margin * sample_rate)`. */
  function MarginSamples(margin: real, sampleRate: nat): int {
    Trunc(margin * sampleRate as real)
  }

  /** Threshold and margin of the silence trimmer: fixed in test mode, configured otherwise. */
  function TrimSettings(isTest: bool, cfg: Settings): (r: (real, real))
    ensures isTest ==> r == (4.0, 0.2)
    ensures !isTest ==> r == (cfg.threshold, cfg.margin)
  {
    if isTest then (4.0, 0.2) else (cfg.threshold, cfg.margin)
  }

  // ---------------------------------------------------------------------
  // Widening, clamping and merging
  // ---------------------------------------------------------------------

  /** One interval widened by `margin` samples on both sides and clamped to `[0, n]`. */
  function Widen(iv: Interval, margin: int, n: nat): (r: Interval)
    ensures 0 <= r.0 && r.1 <= n
    ensures 0 <= iv.0 <= iv.1 <= n && margin >= 0 ==> r.0 <= iv.0 && iv.1 <= r.1
  {
    (Max(0, iv.0 - margin), Min(n, iv.1 + margin))
  }

  function WidenAll(ivs: seq<Interval>, margin: int, n: nat): (r: seq<Interval>)
    ensures |r| == |ivs| && forall k :: 0 <= k < |ivs| ==> r[k] == Widen(ivs[k], margin, n)
  {
    seq(|ivs|, k requires 0 <= k < |ivs| => Widen(ivs[k], margin, n))
  }

  /** The loop body: the first interval opens the list, an overlapping or touching one extends the last, any other is appended. */
  function Step(acc: seq<Interval>, w: Interval): seq<Interval> {
    if acc == [] then [w]
    else
      var last := acc[|acc| - 1];
      if w.0 <= last.1 then acc[|acc| - 1 := (last.0, Max(last.1, w.1))]
      else acc + [w]
  }

  /** The merged list after the whole (widened) interval list has been scanned. */
  function Merge(ws: seq<Interval>): seq<Interval>
    decreases |ws|
  {
    if ws == [] then [] else Step(Merge(ws[..|ws| - 1]), ws[|ws| - 1])
  }

  /**
   * The merge loop of the silence trimmer: each interval is widened and
   * clamped, then merged into the last one when it starts at or before its
   * end.
   */
  method MergeIntervals(intervals: seq<Interval>, marginSamples: int, n: nat) returns (merged: seq<Interval>)
    ensures merged == Merge(WidenAll(intervals, marginSamples, n))
  {
    ghost var ws := WidenAll(intervals, marginSamples, n);
    merged := [];
    var i := 0;
    while i < |intervals|
      invariant 0 <= i <= |intervals|
      invariant merged == Merge(ws[..i])
    {
      var start := Max(0, intervals[i].0 - marginSamples);
      var end := Min(n, intervals[i].1 + marginSamples);
      if merged == [] {
        merged := merged + [(start, end)];
      } else {
        var prev := merged[|merged| - 1];
        if start <= prev.1 {
          merged := merged[|merged| - 1 := (prev.0, Max(prev.1, end))];
        } else {
          merged := merged + [(start, end)];
        }
      }
      assert ws[..i + 1][..i] == ws[..i];
      assert ws[..i + 1][i] == (start, end);
      i := i + 1;
    }
    assert ws[..|intervals|] == ws;
  }

  /** Every interval has `0 <= start <= end <= n`. */
  predicate Within(ws: seq<Interval>, n: int) {
    forall k :: 0 <= k < |ws| ==> 0 <= ws[k].0 <= ws[k].1 <= n
  }

  /** Starts do not decrease along the list. */
  predicate SortedByStart(ws: seq<Interval>) {
    forall j, k :: 0 <= j < k < |ws| ==> ws[j].0 <= ws[k].0
  }

  /** Each interval ends strictly before the next one starts: no overlap, no contact. */
  predicate Separated(ws: seq<Interval>) {
    forall j, k :: 0 <= j < k < |ws| ==> ws[j].1 < ws[k].0
  }

  /** What `librosa.effects.split` returns for audio of `n` samples: sorted intervals within the audio. */
  predicate SplitShape(ivs: seq<Interval>, n: int) {
    Within(ivs, n) && SortedByStart(ivs)
  }

  /** Sample `p` lies in one of the intervals. */
  predicate Covers(ws: seq<Interval>, p: int)
    decreases |ws|
  {
    ws != [] && (Covers(ws[..|ws| - 1], p) || ws[|ws| - 1].0 <= p < ws[|ws| - 1].1)
  }

  /** With a non-negative margin, widening keeps the intervals of `split` within the audio and in order. */
  lemma WidenKeepsShape(ivs: seq<Interval>, margin: int, n: nat)
    requires SplitShape(ivs, n) && margin >= 0
    ensures SplitShape(WidenAll(ivs, margin, n), n)
  {
    var ws := WidenAll(ivs, margin, n);
    forall j, k | 0 <= j < k < |ws| ensures ws[j].0 <= ws[k].0 {
      assert ivs[j].0 <= ivs[k].0;
    }
  }

  /**
   * Merging sorted intervals within `[0, n]` gives intervals within
   * `[0, n]` that neither overlap nor touch, whose last one starts no later
   * than the last input interval.
   */
  lemma {:induction false} MergeSeparates(ws: seq<Interval>, n: int)
    requires SplitShape(ws, n)
    ensures Within(Merge(ws), n) && Separated(Merge(ws))
    ensures ws != [] ==> Merge(ws) != [] && Merge(ws)[|Merge(ws)| - 1].0 <= ws[|ws| - 1].0
    decreases |ws|
  {
    if ws != [] {
      var init := ws[..|ws| - 1];
      var w := ws[|ws| - 1];
      assert SplitShape(init, n) by {
        forall j, k | 0 <= j < k < |init| ensures init[j].0 <= init[k].0 {
          assert init[j] == ws[j] && init[k] == ws[k];
        }
      }
      MergeSeparates(init, n);
      var acc := Merge(init);
      if acc != [] {
        assert init != [] && init[|init| - 1] == ws[|ws| - 2];
        StepSeparates(acc, w, n);
      }
    }
  }

  lemma StepSeparates(acc: seq<Interval>, w: Interval, n: int)
    requires acc != [] && Within(acc, n) && Separated(acc) && 0 <= w.0 <= w.1 <= n
    ensures Within(Step(acc, w), n) && Separated(Step(acc, w))
    ensures Step(acc, w)[|Step(acc, w)| - 1].0 <= Max(acc[|acc| - 1].0, w.0)
  {
    var last := acc[|acc| - 1];
    var r := Step(acc, w);
    if w.0 > last.1 {
      forall j, k | 0 <= j < k < |r| ensures r[j].1 < r[k].0 {
        if k == |r| - 1 && j < |acc| - 1 {
          assert acc[j].1 < last.0;
        }
      }
    }
  }

  /**
   * Merging sorted intervals covers exactly the samples the intervals
   * cover: a merge only joins intervals that overlap or touch.
   */
  lemma {:induction false} MergeCovers(ws: seq<Interval>, n: int, p: int)
    requires SplitShape(ws, n)
    ensures Covers(Merge(ws), p) <==> Covers(ws, p)
    decreases |ws|
  {
    if ws != [] {
      var init := ws[..|ws| - 1];
      var w := ws[|ws| - 1];
      assert SplitShape(init, n) by {
        forall j, k | 0 <= j < k < |init| ensures init[j].0 <= init[k].0 {
          assert init[j] == ws[j] && init[k] == ws[k];
        }
      }
      MergeCovers(init, n, p);
      MergeSeparates(init, n);
      var acc := Merge(init);
      if acc == [] {
        assert Covers([w], p) <==> w.0 <= p < w.1 by {
          assert [w][..0] == [];
        }
      } else {
        assert init[|init| - 1] == ws[|ws| - 2];
        StepCovers(acc, w, p);
      }
    }
  }

  lemma StepCovers(acc: seq<Interval>, w: Interval, p: int)
    requires acc != [] && acc[|acc| - 1].0 <= w.0 <= w.1
    requires acc[|acc| - 1].0 <= acc[|acc| - 1].1
    ensures Covers(Step(acc, w), p) <==> Covers(acc, p) || w.0 <= p < w.1
  {
    var last := acc[|acc| - 1];
    var init := acc[..|acc| - 1];
    var r := Step(acc, w);
    if w.0 <= last.1 {
      assert r[..|r| - 1] == init;
    } else {
      assert r[..|r| - 1] == acc;
    }
  }

  // ---------------------------------------------------------------------
  // Re-slicing
  // ---------------------------------------------------------------------

  /** A Python slice index normalised against length `n`: negative counts from the end. */
  function SliceIndex(i: int, n: nat): (r: nat)
    ensures r <= n
    ensures 0 <= i <= n ==> r == i
  {
    if i < 0 then (if i + n < 0 then 0 else i + n) else if i > n then n else i
  }

  /** `a[s:e]` with Python's slice semantics. */
  function Slice<S>(a: seq<S>, s: int, e: int): (r: seq<S>)
    ensures 0 <= s <= e <= |a| ==> r == a[s..e]
  {
    var i := SliceIndex(s, |a|);
    var j := SliceIndex(e, |a|);
    if i < j then a[i..j] else []
  }

  /** `np.concatenate([a[s:e] for s, e in ms])`. */
  function Joined<S>(a: seq<S>, ms: seq<Interval>): seq<S>
    decreases |ms|
  {
    if ms == [] then [] else Joined(a, ms[..|ms| - 1]) + Slice(a, ms[|ms| - 1].0, ms[|ms| - 1].1)
  }

  /** Separated intervals within the audio select no more samples than end where the last one ends. */
  lemma {:induction false} JoinedWithinLastEnd<S>(a: seq<S>, ms: seq<Interval>)
    requires Within(ms, |a|) && Separated(ms) && ms != []
    ensures |Joined(a, ms)| <= ms[|ms| - 1].1
    decreases |ms|
  {
    var init := ms[..|ms| - 1];
    var m := ms[|ms| - 1];
    assert |Slice(a, m.0, m.1)| == m.1 - m.0;
    if init != [] {
      assert Within(init, |a|) && Separated(init) by {
        forall j, k | 0 <= j < k < |init| ensures init[j].1 < init[k].0 {
          assert init[j] == ms[j] && init[k] == ms[k];
        }
      }
      JoinedWithinLastEnd(a, init);
      assert init[|init| - 1] == ms[|ms| - 2];
    } else {
      assert Joined(a, init) == [];
    }
  }

  // ---------------------------------------------------------------------
  // The pipeline
  // ---------------------------------------------------------------------

  /** Stage 1: the RNNoise pass blended in by the clamped strength; a failure or a zero strength keeps the audio. */
  function Denoised<S>(cur: seq<S>, cfg: Settings, denoise: (seq<S>, real) -> Option<seq<S>>): seq<S> {
    if cfg.denoise && Clamp01(cfg.strength) > 0.0 then
      match denoise(cur, Clamp01(cfg.strength))
      case Some(d) => d
      case None => cur
    else cur
  }

  /** Stage 2: the silence trimmer; no interval or a failure keeps the audio. */
  function Trimmed<S>(cur: seq<S>, sampleRate: nat, isTest: bool, cfg: Settings,
                      split: (seq<S>, real) -> Option<seq<Interval>>): seq<S>
  {
    if isTest || cfg.trim then
      var (threshold, margin) := TrimSettings(isTest, cfg);
      match split(cur, threshold)
      case None => cur
      case Some(ivs) =>
        if ivs == [] then cur
        else
          var merged := Merge(WidenAll(ivs, MarginSamples(margin, sampleRate), |cur|));
          if merged != [] then Joined(cur, merged) else cur
    else cur
  }

  /** Whether stage 3, the Whisper validation, runs. */
  predicate Validates(isTest: bool, cfg: Settings, expectedText: string) {
    cfg.whisper && expectedText != [] && !isTest
  }

  /** The audio the pipeline returns and the transcript it logged, if any. */
  function Pipeline<S>(audio: seq<S>, sampleRate: nat, expectedText: string, isTest: bool, cfg: Settings,
                       denoise: (seq<S>, real) -> Option<seq<S>>,
                       split: (seq<S>, real) -> Option<seq<Interval>>,
                       transcribe: seq<S> -> Option<string>): (r: (seq<S>, Option<string>))
    ensures !isTest && !cfg.enabled ==> r == (audio, None)
    ensures audio == [] ==> r == (audio, None)
    ensures r.1.Some? ==> Validates(isTest, cfg, expectedText) && r.1 == transcribe(r.0)
  {
    if !isTest && !cfg.enabled then (audio, None)
    else if audio == [] then (audio, None)
    else
      var trimmed := Trimmed(Denoised(audio, cfg, denoise), sampleRate, isTest, cfg, split);
      (trimmed, if Validates(isTest, cfg, expectedText) then transcribe(trimmed) else None)
  }

  /**
   * `apply_artifacts_pipeline`: denoise, trim, validate, each guarded by its
   * setting and each catching its own failure, so the call always returns
   * audio.
   */
  method ApplyPipeline<S>(audio: seq<S>, sampleRate: nat, expectedText: string, isTest: bool, cfg: Settings,
                          denoise: (seq<S>, real) -> Option<seq<S>>,
                          split: (seq<S>, real) -> Option<seq<Interval>>,
                          transcribe: seq<S> -> Option<string>)
    returns (current: seq<S>, transcript: Option<string>)
    ensures (current, transcript) == Pipeline(audio, sampleRate, expectedText, isTest, cfg, denoise, split, transcribe)
  {
    transcript := None;
    if !isTest && !cfg.enabled {
      return audio, None;
    }
    if |audio| == 0 {
      return audio, None;
    }
    current := audio;

    if cfg.denoise {
      var strength := Clamp01(cfg.strength);
      var out := denoise(current, strength);
      if out.Some? && strength > 0.0 {
        current := out.value;
      }
    }

    if isTest || cfg.trim {
      var (threshold, margin) := TrimSettings(isTest, cfg);
      var found := split(current, threshold);
      if found.Some? && found.value != [] {
        var merged := MergeIntervals(found.value, MarginSamples(margin, sampleRate), |current|);
        if merged != [] {
          current := Joined(current, merged);
        }
      }
    }

    if cfg.whisper && expectedText != [] && !isTest {
      transcript := transcribe(current);
    }
  }

  // ---------------------------------------------------------------------
  // Properties of the pipeline
  // ---------------------------------------------------------------------

  /** When `split` finds no interval, the trimmer keeps the audio. */
  lemma NoIntervalsKeepsAudio<S>(cur: seq<S>, sampleRate: nat, isTest: bool, cfg: Settings,
                                 split: (seq<S>, real) -> Option<seq<Interval>>)
    requires split(cur, TrimSettings(isTest, cfg).0) == Some([])
    ensures Trimmed(cur, sampleRate, isTest, cfg, split) == cur
  {
  }

  /** In test mode the trimmer always runs, with threshold 4.0 and margin 0.2, and no transcription happens. */
  lemma TestModeFixesTrim<S>(audio: seq<S>, sampleRate: nat, expectedText: string, cfg: Settings,
                             denoise: (seq<S>, real) -> Option<seq<S>>,
                             split: (seq<S>, real) -> Option<seq<Interval>>,
                             transcribe: seq<S> -> Option<string>)
    requires audio != []
    ensures Pipeline(audio, sampleRate, expectedText, true, cfg, denoise, split, transcribe)
         == (Trimmed(Denoised(audio, cfg, denoise), sampleRate, true, cfg, split), None)
    ensures var d := Denoised(audio, cfg, denoise);
      split(d, 4.0).Some? && split(d, 4.0).value != [] ==>
        Trimmed(d, sampleRate, true, cfg, split) ==
        Joined(d, Merge(WidenAll(split(d, 4.0).value, MarginSamples(0.2, sampleRate), |d|)))
  {
    var d := Denoised(audio, cfg, denoise);
    if split(d, 4.0).Some? && split(d, 4.0).value != [] {
      var ivs := split(d, 4.0).value;
      var ws := WidenAll(ivs, MarginSamples(0.2, sampleRate), |d|);
      assert ws[..|ws| - 1] + [ws[|ws| - 1]] == ws;
      assert Merge(ws) != [];
    }
  }

  /** The transcription result never changes the audio: it is only logged. */
  lemma ValidationKeepsAudio<S>(audio: seq<S>, sampleRate: nat, expectedText: string, isTest: bool, cfg: Settings,
                                denoise: (seq<S>, real) -> Option<seq<S>>,
                                split: (seq<S>, real) -> Option<seq<Interval>>,
                                transcribe: seq<S> -> Option<string>,
                                transcribe': seq<S> -> Option<string>)
    ensures Pipeline(audio, sampleRate, expectedText, isTest, cfg, denoise, split, transcribe).0
         == Pipeline(audio, sampleRate, expectedText, isTest, cfg, denoise, split, transcribe').0
  {
  }

  /** When every foreign stage fails, the audio comes back untouched. */
  lemma FailuresKeepAudio<S>(audio: seq<S>, sampleRate: nat, expectedText: string, isTest: bool, cfg: Settings,
                             split: (seq<S>, real) -> Option<seq<Interval>>,
                             transcribe: seq<S> -> Option<string>)
    requires forall a: seq<S>, t: real :: split(a, t) == None
    ensures Pipeline(audio, sampleRate, expectedText, isTest, cfg, (a: seq<S>, s: real) => None, split, transcribe).0 == audio
  {
  }

  /**
   * With a non-negative margin, intervals shaped as `split` returns them
   * and a denoiser that keeps the length, the output is never longer than
   * the input.
   */
  lemma PipelineNoLonger<S>(audio: seq<S>, sampleRate: nat, expectedText: string, isTest: bool, cfg: Settings,
                            denoise: (seq<S>, real) -> Option<seq<S>>,
                            split: (seq<S>, real) -> Option<seq<Interval>>,
                            transcribe: seq<S> -> Option<string>)
    requires forall a: seq<S>, s: real :: denoise(a, s).Some? ==> |denoise(a, s).value| == |a|
    requires forall a: seq<S>, t: real :: split(a, t).Some? ==> SplitShape(split(a, t).value, |a|)
    requires TrimSettings(isTest, cfg).1 >= 0.0
    ensures |Pipeline(audio, sampleRate, expectedText, isTest, cfg, denoise, split, transcribe).0| <= |audio|
  {
    var d := Denoised(audio, cfg, denoise);
    assert |d| == |audio|;
    TrimmedNoLonger(d, sampleRate, isTest, cfg, split);
  }

  lemma TrimmedNoLonger<S>(cur: seq<S>, sampleRate: nat, isTest: bool, cfg: Settings,
                           split: (seq<S>, real) -> Option<seq<Interval>>)
    requires split(cur, TrimSettings(isTest, cfg).0).Some? ==> SplitShape(split(cur, TrimSettings(isTest, cfg).0).value, |cur|)
    requires TrimSettings(isTest, cfg).1 >= 0.0
    ensures |Trimmed(cur, sampleRate, isTest, cfg, split)| <= |cur|
  {
    var (threshold, margin) := TrimSettings(isTest, cfg);
    if (isTest || cfg.trim) && split(cur, threshold).Some? && split(cur, threshold).value != [] {
      var ivs := split(cur, threshold).value;
      var m := MarginSamples(margin, sampleRate);
      var ws := WidenAll(ivs, m, |cur|);
      WidenKeepsShape(ivs, m, |cur|);
      MergeSeparates(ws, |cur|);
      var merged := Merge(ws);
      JoinedWithinLastEnd(cur, merged);
    }
  }

  /** The trimmed audio is the merged intervals' samples, and those are exactly the samples `split` found, widened. */
  lemma TrimKeepsFoundSamples(ivs: seq<Interval>, margin: int, n: nat, p: int)
    requires SplitShape(ivs, n) && margin >= 0
    ensures Covers(Merge(WidenAll(ivs, margin, n)), p) <==> Covers(WidenAll(ivs, margin, n), p)
    ensures Separated(Merge(WidenAll(ivs, margin, n))) && Within(Merge(WidenAll(ivs, margin, n)), n)
  {
    WidenKeepsShape(ivs, margin, n);
    MergeCovers(WidenAll(ivs, margin, n), n, p);
    MergeSeparates(WidenAll(ivs, margin, n), n);
  }
}
