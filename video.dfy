/**
 * Video analysis: the duration guard, the thinning of the extracted frames to at most
 * `VIDEO_MAX_FRAMES`, and the assembly of the summary text. Probing, audio extraction, frame
 * extraction, transcription and image description are inputs.
 */
module Video {
  import opened Wrappers
  import opened Strings
  import opened Sequences

  const DefaultMaxSeconds: int := 600
  const DefaultFrameEverySec: real := 2.0
  const DefaultMaxFrames: nat := 40
  const TranscriptLimit: nat := 4000
  const NoTranscript: string := "—"

  /** `VIDEO_MAX_SECONDS`, `VIDEO_FRAME_EVERY_SEC` and `VIDEO_MAX_FRAMES` once parsed. */
  datatype VideoConfig = VideoConfig(maxSeconds: int, frameEverySec: real, maxFrames: nat)

  const DefaultConfig: VideoConfig := VideoConfig(DefaultMaxSeconds, DefaultFrameEverySec, DefaultMaxFrames)

  /** `max(0.1, 1.0 / max(0.1, every_sec))`: the ffmpeg sampling rate, at least one frame per ten seconds. */
  function FramesPerSecond(everySec: real): (fps: real)
    ensures 0.1 <= fps <= 10.0
    ensures 0.1 <= everySec <= 10.0 ==> fps * everySec == 1.0
    ensures everySec > 10.0 ==> fps == 0.1
  {
    var e := if everySec > 0.1 then everySec else 0.1;
    var f := 1.0 / e;
    if f > 0.1 then f else 0.1
  }

  /** `math.ceil(n / d)` for a positive divisor. */
  function CeilDiv(n: nat, d: nat): (q: nat)
    requires d > 0
    ensures q * d >= n && q * d < n + d
  {
    var q := (n + d - 1) / d;
    assert q * d <= n + d - 1;
    assert q * d + d > n + d - 1;
    q
  }

  /**
   * `_sample_frames` after extraction: a listing longer than `maxFrames` is cut to every
   * `ceil(n / maxFrames)`-th frame, then to `maxFrames` entries; a zero limit divides by zero.
   */
  function ThinFrames<T>(frames: seq<T>, maxFrames: nat): Result<seq<T>> {
    if |frames| <= maxFrames then Ok(frames)
    else if maxFrames == 0 then Err("division by zero")
    else Ok(PyTake(Stride(frames, CeilDiv(|frames|, maxFrames)), maxFrames))
  }

  /**
   * The thinned list: unchanged when it fits; otherwise the frames at the multiples of the step, in
   * order, starting with the first, and never more than `maxFrames`.
   */
  lemma ThinFramesSpec<T>(frames: seq<T>, maxFrames: nat)
    ensures ThinFrames(frames, maxFrames).Err? <==> |frames| > maxFrames == 0
    ensures |frames| <= maxFrames ==> ThinFrames(frames, maxFrames) == Ok(frames)
    ensures |frames| > maxFrames > 0 ==>
      var step := CeilDiv(|frames|, maxFrames);
      var r := ThinFrames(frames, maxFrames).value;
      |r| <= maxFrames && r != [] && r[0] == frames[0] && r == Stride(frames, step) &&
      forall k :: 0 <= k < |r| ==> k * step < |frames| && r[k] == frames[k * step]
  {
    if |frames| > maxFrames > 0 {
      var step := CeilDiv(|frames|, maxFrames);
      var s := Stride(frames, step);
      StrideFits(frames, maxFrames, step);
      assert PyTake(s, maxFrames) == s;
      forall k | 0 <= k < |s|
        ensures k * step < |frames| && s[k] == frames[k * step]
      {
        StrideAt(frames, step, k);
      }
    }
  }

  /** With the step `ceil(n / max)`, `s[::step]` has no more than `max` elements. */
  lemma StrideFits<T>(frames: seq<T>, maxFrames: nat, step: nat)
    requires |frames| > maxFrames > 0 && step == CeilDiv(|frames|, maxFrames)
    ensures |Stride(frames, step)| <= maxFrames && Stride(frames, step) != []
  {
    var n, k := |frames|, |Stride(frames, step)|;
    StrideLength(frames, step);
    assert (k - 1) * step < n <= k * step;
    assert n <= step * maxFrames;
    FewerThanSteps(k, step, n, maxFrames);
  }

  /** If `k - 1` steps stay below `n` and `m` steps reach it, then `k <= m`. */
  lemma FewerThanSteps(k: nat, step: nat, n: nat, m: nat)
    requires step > 0 && n > 0 && (k - 1) * step < n <= k * step && n <= step * m
    ensures 0 < k <= m
  {
    if k > m {
      MulMono(m, k - 1, step);
    }
  }

  lemma MulMono(a: nat, b: nat, c: nat)
    requires a <= b
    ensures a * c <= b * c
  {
  }

  /** Python's `f"{x:.0f}"` rounds half to even. */
  function RoundHalfEven(x: real): (n: int)
    ensures x - 0.5 <= n as real <= x + 0.5
  {
    var f := x.Floor;
    var frac := x - f as real;
    if frac > 0.5 then f + 1
    else if frac < 0.5 then f
    else if f % 2 == 0 then f else f + 1
  }

  /** The excerpt of the transcript the summary embeds. */
  function Excerpt(transcript: string): (e: string)
    ensures transcript == "" ==> e == NoTranscript
    ensures transcript != "" ==> |e| <= TranscriptLimit && |e| <= |transcript| && e == transcript[..|e|] && e != ""
    ensures |transcript| <= TranscriptLimit && transcript != "" ==> e == transcript
  {
    if transcript != "" then PyTake(transcript, TranscriptLimit) else NoTranscript
  }

  const SummaryHead: string := "Відео: короткий опис за кадрами та мовленням.\n\nЩо бачимо (кадри):\n"
  const SpeechHead: string := "\n\nЩо чуємо (транскрипт, уривки):\n"

  /**
   * The summary text: the frame description under its heading, then the speech heading and at most
   * 4000 characters from the front of the transcript ("—" for none), then a newline.
   */
  function Summary(visionSummary: string, transcript: string): (s: string)
    ensures var head := SummaryHead + visionSummary + SpeechHead;
      StartsWith(s, head) && s[|s| - 1] == '\n' &&
      (transcript == "" ==> s[|head|..] == NoTranscript + "\n") &&
      (transcript != "" ==> s[|head|..] == PyTake(transcript, TranscriptLimit) + "\n")
    ensures |s| <= |SummaryHead| + |visionSummary| + |SpeechHead| + TranscriptLimit + 1
  {
    SummaryHead + visionSummary + SpeechHead + Excerpt(transcript) + "\n"
  }

  /** The dictionary `analyze_video` returns. */
  datatype VideoReport = VideoReport(transcript: string, frames: seq<string>, visionSummary: string,
                                     summary: string)

  /**
   * `analyze_video`, given the probed duration (0 when ffprobe's output does not parse), the
   * transcript, the sorted listing of extracted frames and the image describer, whose `Err` is
   * the exception `describe_images` raises (an unreadable frame, a failed vision request).
   */
  function AnalyzeVideo(cfg: VideoConfig, duration: real, transcript: string, extracted: seq<string>,
                        describe: seq<string> -> Result<string>): (r: Result<VideoReport>)
    ensures r.Err? <==> (duration != 0.0 && duration > cfg.maxSeconds as real) ||
                        (|extracted| > cfg.maxFrames == 0) ||
                        (ThinFrames(extracted, cfg.maxFrames).Ok? && describe(ThinFrames(extracted, cfg.maxFrames).value).Err?)
    ensures duration != 0.0 && duration > cfg.maxSeconds as real ==>
      r == Err("Video too long: " + IntToString(RoundHalfEven(duration)) + "s > " + IntToString(cfg.maxSeconds) + "s")
    ensures r.Ok? ==> var v := r.value;
      ThinFrames(extracted, cfg.maxFrames) == Ok(v.frames) &&
      |v.frames| <= |extracted| &&
      v.transcript == transcript && describe(v.frames) == Ok(v.visionSummary) &&
      v.summary == Summary(v.visionSummary, transcript)
  {
    if duration != 0.0 && duration > cfg.maxSeconds as real then
      Err("Video too long: " + IntToString(RoundHalfEven(duration)) + "s > " + IntToString(cfg.maxSeconds) + "s")
    else
      ThinFramesSpec(extracted, cfg.maxFrames);
      match ThinFrames(extracted, cfg.maxFrames)
      case Err(e) => Err(e)
      case Ok(frames) =>
        assert |frames| <= |extracted| by {
          if |extracted| > cfg.maxFrames {
            StrideLengthBound(extracted, CeilDiv(|extracted|, cfg.maxFrames));
          }
        }
        match describe(frames)
        case Err(e) => Err(e)
        case Ok(vision) => Ok(VideoReport(transcript, frames, vision, Summary(vision, transcript)))
  }

  lemma StrideLengthBound<T>(s: seq<T>, step: nat)
    requires step > 0
    ensures |Stride(s, step)| <= |s|
  {
    StrideLength(s, step);
  }

  /**
   * Under the defaults a ten-minute video passes the guard (it then succeeds if the frames can be
   * described) and an eleven-minute one does not.
   */
  lemma DefaultDurationGuard(transcript: string, extracted: seq<string>, describe: seq<string> -> Result<string>)
    requires forall fs :: describe(fs).Ok?
    ensures AnalyzeVideo(DefaultConfig, 600.0, transcript, extracted, describe).Ok?
    ensures AnalyzeVideo(DefaultConfig, 660.0, transcript, extracted, describe) ==
      Err("Video too long: 660s > 600s")
  {
    assert RoundHalfEven(660.0) == 660;
    assert IntToString(660) == "660" by {
      assert NatToString(66) == "66";
    }
    assert IntToString(600) == "600" by {
      assert NatToString(60) == "60";
    }
  }
}
