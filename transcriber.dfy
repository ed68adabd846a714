/** transcriber.py: the options record, the Transcriber's constructor
    constants, and transcribe_segment, which shifts the times of every
    segment the speech model recognises by the segment file's offset in the
    original audio. The speech model itself is foreign: it is a function
    from a request to the segments it yields, fixed when the Transcriber is
    built. */
module Transcription {

  /** A recognised stretch of speech: start and end in seconds, and text.
      The model yields these relative to the segment file; transcribe_segment
      returns them shifted by the offset (the "[start -> end] text" lines,
      with the number formatting left out). */
  datatype Fragment = Fragment(start: real, end: real, text: string)

  /** The keys of the vad_parameters dictionary the service passes. */
  datatype VadParameters = VadParameters(onset: real, offset: real, minSilenceDurationMs: int,
                                         speechPadMs: int, minSpeechDurationMs: int)

  /** The dataclass TranscribeOption. */
  datatype TranscribeOption = TranscribeOption(beamSize: int, hotwords: string, vadFilter: bool,
                                               vadParameters: VadParameters,
                                               wordTimestampsDict: map<string, bool>)

  /** The keyword arguments of one self.model.transcribe call. */
  datatype ModelRequest = ModelRequest(audio: string, beamSize: int, hotwords: string, vadFilter: bool,
                                       initialPrompt: map<string, string>, vadParameters: VadParameters,
                                       wordTimestampsDict: map<string, bool>,
                                       logProbLowThreshold: real)

  /** How WhisperModel is constructed: model size, device, compute type and
      worker count. */
  datatype ModelConfig = ModelConfig(modelSize: string, device: string, computeType: string, numWorkers: int)

  /** The Chinese initial prompt of transcriber.py:22. */
  const ZhPrompt: string := "以下内容是一段中文对话，话题涉及金融、历史、日常生活、体育、自我提升等"

  /** The English initial prompt of transcriber.py:23. */
  const EnPrompt: string :=
    "The follow is a conversation which include finance, history, daily life, sports, self-improvement etc."

  /** The log-probability threshold of transcriber.py:25. */
  const LogProbLowThreshold: real := -0.7

  // ---------------------------------------------------------------------
  // Rebasing, as a specification function
  // ---------------------------------------------------------------------

  /** The fragments with both times shifted by offset, in order, text unchanged. */
  function Rebased(fragments: seq<Fragment>, offset: real): (r: seq<Fragment>)
    ensures |r| == |fragments|
  {
    if fragments == [] then []
    else
      var last := fragments[|fragments| - 1];
      Rebased(fragments[..|fragments| - 1], offset) + [Fragment(last.start + offset, last.end + offset, last.text)]
  }

  /** The k-th result is the k-th fragment shifted by offset, with its text. */
  lemma {:induction false} RebasedAt(fragments: seq<Fragment>, offset: real, k: nat)
    requires k < |fragments|
    ensures var r := Rebased(fragments, offset)[k];
            r.start == fragments[k].start + offset && r.end == fragments[k].end + offset &&
            r.text == fragments[k].text
    decreases |fragments|
  {
    if k < |fragments| - 1 {
      RebasedAt(fragments[..|fragments| - 1], offset, k);
    }
  }

  /** Rebasing distributes over concatenation. */
  lemma {:induction false} RebasedAppend(a: seq<Fragment>, b: seq<Fragment>, offset: real)
    ensures Rebased(a + b, offset) == Rebased(a, offset) + Rebased(b, offset)
    decreases |b|
  {
    if b == [] {
      assert a + b == a;
    } else {
      assert (a + b)[..|a + b| - 1] == a + b[..|b| - 1];
      RebasedAppend(a, b[..|b| - 1], offset);
    }
  }

  /** Two shifts are one shift by the sum. */
  lemma {:induction false} RebasedCompose(fragments: seq<Fragment>, x: real, y: real)
    ensures Rebased(Rebased(fragments, x), y) == Rebased(fragments, x + y)
    decreases |fragments|
  {
    if fragments != [] {
      var n := |fragments| - 1;
      RebasedCompose(fragments[..n], x, y);
      assert Rebased(fragments, x)[..n] == Rebased(fragments[..n], x);
    }
  }

  /** A zero offset changes nothing. */
  lemma {:induction false} RebasedZero(fragments: seq<Fragment>)
    ensures Rebased(fragments, 0.0) == fragments
    decreases |fragments|
  {
    if fragments != [] {
      var n := |fragments| - 1;
      RebasedZero(fragments[..n]);
      assert fragments[..n] + [fragments[n]] == fragments;
    }
  }

  /** Shifting back by the offset recovers the model's own times. */
  lemma RebasedInverse(fragments: seq<Fragment>, offset: real)
    ensures Rebased(Rebased(fragments, offset), -offset) == fragments
  {
    RebasedCompose(fragments, offset, -offset);
    RebasedZero(fragments);
  }

  // ---------------------------------------------------------------------
  // Transcriber
  // ---------------------------------------------------------------------

  class Transcriber {
    /** The WhisperModel's construction arguments. */
    const config: ModelConfig
    /** The WhisperModel's transcribe, as a function of its arguments. */
    const model: ModelRequest -> seq<Fragment>
    const initialPrompt: map<string, string>
    const logProbLowThreshold: real

    /** __init__: device and compute type follow CUDA availability; the
        initial prompts and the threshold are fixed. */
    constructor (modelSize: string, numWorkers: int, cudaAvailable: bool,
                 model: ModelRequest -> seq<Fragment>)
      ensures config == ModelConfig(modelSize, if cudaAvailable then "cuda" else "cpu",
                                    if cudaAvailable then "float16" else "int8", numWorkers)
      ensures this.model == model
      ensures initialPrompt == map["zh" := ZhPrompt, "en" := EnPrompt]
      ensures logProbLowThreshold == LogProbLowThreshold
    {
      var device := if cudaAvailable then "cuda" else "cpu";
      var computeType := if cudaAvailable then "float16" else "int8";
      config := ModelConfig(modelSize, device, computeType, numWorkers);
      this.model := model;
      initialPrompt := map["zh" := ZhPrompt, "en" := EnPrompt];
      logProbLowThreshold := LogProbLowThreshold;
    }

    /** The request transcribe_segment makes: the option fields unmodified,
        the prompts and threshold from the constructor. */
    function RequestFor(segmentFile: string, options: TranscribeOption): (r: ModelRequest)
      ensures r.audio == segmentFile
      ensures r.beamSize == options.beamSize && r.hotwords == options.hotwords
      ensures r.vadFilter == options.vadFilter && r.vadParameters == options.vadParameters
      ensures r.wordTimestampsDict == options.wordTimestampsDict
      ensures r.initialPrompt == initialPrompt && r.logProbLowThreshold == logProbLowThreshold
    {
      ModelRequest(segmentFile, options.beamSize, options.hotwords, options.vadFilter, initialPrompt,
                   options.vadParameters, options.wordTimestampsDict, logProbLowThreshold)
    }

    /** transcribe_segment: one result per model segment, in the model's
        order, times shifted by offset and text carried through. */
    method TranscribeSegment(segmentFile: string, offset: int, options: TranscribeOption)
      returns (results: seq<Fragment>)
      ensures results == Rebased(model(RequestFor(segmentFile, options)), offset as real)
      ensures var segments := model(RequestFor(segmentFile, options));
              |results| == |segments| &&
              forall k :: 0 <= k < |results| ==>
                results[k] == Fragment(segments[k].start + offset as real, segments[k].end + offset as real,
                                       segments[k].text)
    {
      var segments := model(RequestFor(segmentFile, options));
      results := [];
      var k := 0;
      while k < |segments|
        invariant 0 <= k <= |segments|
        invariant results == Rebased(segments[..k], offset as real)
      {
        var segment := segments[k];
        results := results + [Fragment(segment.start + offset as real, segment.end + offset as real, segment.text)];
        assert segments[..k + 1][..k] == segments[..k];
        k := k + 1;
      }
      assert segments[..k] == segments;
      forall j | 0 <= j < |results|
        ensures results[j] == Fragment(segments[j].start + offset as real, segments[j].end + offset as real,
                                       segments[j].text)
      {
        RebasedAt(segments, offset as real, j);
      }
    }
  }
}
