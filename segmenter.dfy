/** split_audio_files.py: the request record and the planner that cuts one
    audio file of known duration into fixed-size clips, with the short-tail
    merge rule. The ffmpeg/ffprobe shell-outs are not executed here: each
    create_clip call becomes a Clip record returned to the caller, the
    probed duration is an input, and whether the segments directory already
    exists (with its listing) is an input too. */
module Segmenter {
  import opened Wrappers
  import opened Text

  /** The literal 100 of split_audio_files.py:58 and :66: a remainder below
      it triggers the merge, and the merged clip is this much longer than a
      nominal segment. */
  const ShortTail: int := 100

  /** One call create_clip(raw_audio, slice_audio, clipFromSecond, clipDuration). */
  datatype Clip = Clip(source: string, output: string, start: int, length: int)

  /** A planned clip window: start offset and clip length, in seconds. */
  datatype Step = Step(start: int, length: int)

  datatype SplitError = ZeroDivisionError

  /** What split_audio_file_into_segments returns (segments) together with
      the create_clip calls it made, in order. */
  datatype Split = Split(segments: seq<string>, clips: seq<Clip>)

  // ---------------------------------------------------------------------
  // The planning loop as a specification function
  // ---------------------------------------------------------------------

  /** Whether `range(i, duration, sd)` yields i: below the stop for a
      positive step, above it for a negative one. */
  predicate InRange(i: int, duration: int, sd: int)
  {
    if sd > 0 then i < duration else i > duration
  }

  /** The windows the loop `for i in range(i, duration, sd)` emits from
      offset i on, given the merge flag computed before the loop. */
  function PlanFrom(i: int, duration: int, sd: int, overlap: int, merge: bool): seq<Step>
    requires sd != 0
    decreases if sd > 0 then duration - i else i - duration
  {
    if !InRange(i, duration, sd) then []
    else if merge && i + 2 * sd > duration > i + sd then [Step(i, sd + ShortTail)]
    else [Step(i, sd + overlap)] + PlanFrom(i + sd, duration, sd, overlap, merge)
  }

  /** Python's a % b: the remainder takes the sign of the divisor. */
  function FloorMod(a: int, b: int): (r: int)
    requires b != 0
    ensures b > 0 ==> 0 <= r < b
    ensures b < 0 ==> b < r <= 0
  {
    if b > 0 then a % b
    else if a % -b == 0 then 0
    else a % -b + b
  }

  /** a and FloorMod(a, b) differ by a multiple of b. */
  lemma FloorModCongruent(a: int, b: int) returns (q: int)
    requires b != 0
    ensures a == q * b + FloorMod(a, b)
  {
    if b > 0 {
      q := a / b;
    } else {
      var m := -b;
      assert a == (a / m) * m + a % m;
      assert (a / m) * m == -(a / m) * b;
      if a % m == 0 {
        q := -(a / m);
      } else {
        q := -(a / m) - 1;
        assert q * b == -(a / m) * b - b;
      }
    }
  }

  /** The merge flag of split_audio_files.py:57-59. */
  predicate MergeFlag(duration: int, sd: int)
    requires sd != 0
  {
    FloorMod(duration, sd) < ShortTail
  }

  /** All windows the planner emits for one file. */
  function Plan(duration: int, sd: int, overlap: int): seq<Step>
    requires sd != 0
  {
    PlanFrom(0, duration, sd, overlap, MergeFlag(duration, sd))
  }

  // ---------------------------------------------------------------------
  // Closed form of the plan
  // ---------------------------------------------------------------------

  /** The merge actually happens: the flag is set, the last nominal
      segment would be non-empty, and there is a segment before it. */
  predicate MergeFires(duration: int, sd: int)
    requires sd > 0
  {
    duration > sd && 0 < duration % sd < ShortTail
  }

  /** Number of clips: ceil(duration / sd), one fewer when the merge fires. */
  function ClipCount(duration: int, sd: int): nat
    requires sd > 0
  {
    if duration <= 0 then 0
    else if MergeFires(duration, sd) then duration / sd
    else duration / sd + (if duration % sd == 0 then 0 else 1)
  }

  /** The k-th window of the plan, stated independently of the loop. */
  function ExpectedStep(duration: int, sd: int, overlap: int, k: nat): Step
    requires sd > 0
  {
    Step(k * sd,
         if MergeFires(duration, sd) && k == ClipCount(duration, sd) - 1
         then sd + ShortTail else sd + overlap)
  }

  lemma MulStrict(a: int, b: int, sd: int)
    requires sd > 0
    ensures a < b <==> a * sd < b * sd
  {
    if a < b {
      assert b * sd - a * sd == (b - a) * sd;
    } else {
      assert a * sd - b * sd == (a - b) * sd;
    }
  }

  lemma {:induction false} PlanFromClosedForm(m: nat, duration: int, sd: int, overlap: int)
    requires sd > 0
    requires if MergeFires(duration, sd) then m < ClipCount(duration, sd) else m <= ClipCount(duration, sd)
    ensures var p := PlanFrom(m * sd, duration, sd, overlap, MergeFlag(duration, sd));
            |p| == ClipCount(duration, sd) - m &&
            forall j :: 0 <= j < |p| ==> p[j] == ExpectedStep(duration, sd, overlap, m + j)
    decreases ClipCount(duration, sd) - m
  {
    var merge := MergeFlag(duration, sd);
    var i := m * sd;
    var p := PlanFrom(i, duration, sd, overlap, merge);
    if m == ClipCount(duration, sd) {
      PlanEndArith(m, duration, sd);
    } else {
      PlanStepArith(m, duration, sd);
      if MergeFires(duration, sd) && m == ClipCount(duration, sd) - 1 {
        assert p == [Step(i, sd + ShortTail)];
      } else {
        PlanFromClosedForm(m + 1, duration, sd, overlap);
        assert (m + 1) * sd == i + sd;
        assert p == [Step(i, sd + overlap)] + PlanFrom((m + 1) * sd, duration, sd, overlap, merge);
      }
    }
  }

  /** After ClipCount windows the walk has reached the duration. */
  lemma PlanEndArith(m: nat, duration: int, sd: int)
    requires sd > 0 && !MergeFires(duration, sd) && m == ClipCount(duration, sd)
    ensures m * sd >= duration
  {
    var q, r := duration / sd, duration % sd;
    assert duration == q * sd + r;
    if duration > 0 {
      if r == 0 {
        assert m == q;
      } else {
        assert m == q + 1;
        assert (q + 1) * sd == q * sd + sd;
      }
    }
  }

  /** Before the last window the walk is below the duration, and the merge
      test holds exactly at the last window of a plan whose merge fires. */
  lemma PlanStepArith(m: nat, duration: int, sd: int)
    requires sd > 0 && m < ClipCount(duration, sd)
    ensures m * sd < duration
    ensures MergeFlag(duration, sd) && m * sd + 2 * sd > duration > m * sd + sd <==>
            MergeFires(duration, sd) && m == ClipCount(duration, sd) - 1
  {
    var q, r := duration / sd, duration % sd;
    assert duration == q * sd + r;
    assert (m + 1) * sd == m * sd + sd;
    assert (m + 2) * sd == m * sd + 2 * sd;
    MulStrict(m, q, sd);
    MulStrict(q, m + 1, sd);
    MulStrict(q, m + 2, sd);
  }

  /** The plan is exactly ClipCount(duration, sd) windows, the k-th starting
      at k * sd, all of length sd + overlap except a merged last one of
      length sd + 100. */
  lemma PlanClosedForm(duration: int, sd: int, overlap: int)
    requires sd > 0
    ensures |Plan(duration, sd, overlap)| == ClipCount(duration, sd)
    ensures forall k :: 0 <= k < |Plan(duration, sd, overlap)| ==>
              Plan(duration, sd, overlap)[k] == ExpectedStep(duration, sd, overlap, k)
  {
    if MergeFires(duration, sd) {
      MulStrict(1, duration / sd, sd);
    }
    PlanFromClosedForm(0, duration, sd, overlap);
  }

  // ---------------------------------------------------------------------
  // Properties of the plan
  // ---------------------------------------------------------------------

  /** Every window emitted from offset i starts inside [i, duration), and the
      starts are strictly increasing. */
  lemma {:induction false} PlanFromStartsInRange(i: int, duration: int, sd: int, overlap: int, merge: bool)
    requires sd > 0
    ensures var p := PlanFrom(i, duration, sd, overlap, merge);
            (forall k :: 0 <= k < |p| ==> i <= p[k].start < duration) &&
            (forall k, l :: 0 <= k < l < |p| ==> p[k].start < p[l].start)
    decreases duration - i
  {
    if i < duration && !(merge && i + 2 * sd > duration > i + sd) {
      PlanFromStartsInRange(i + sd, duration, sd, overlap, merge);
      var p := PlanFrom(i, duration, sd, overlap, merge);
      assert p == [Step(i, sd + overlap)] + PlanFrom(i + sd, duration, sd, overlap, merge);
      assert forall k :: 1 <= k < |p| ==> p[k] == PlanFrom(i + sd, duration, sd, overlap, merge)[k - 1];
    }
  }

  /** Start offsets are 0, sd, 2sd, ... for either sign of the step. */
  lemma PlanStarts(duration: int, sd: int, overlap: int)
    requires sd != 0
    ensures forall k :: 0 <= k < |Plan(duration, sd, overlap)| ==> Plan(duration, sd, overlap)[k].start == k * sd
  {
    var p := Plan(duration, sd, overlap);
    if sd < 0 {
      PlanNegativeStep(duration, sd, overlap);
      return;
    }
    PlanClosedForm(duration, sd, overlap);
    forall k | 0 <= k < |p|
      ensures p[k].start == k * sd
    {
      assert p[k] == ExpectedStep(duration, sd, overlap, k);
    }
  }

  /** With a negative step the range runs downwards from i while above the
      stop: the merge test, whose bounds are then reversed, never fires, so
      every window has length sd + overlap. */
  lemma {:induction false} PlanFromDescending(i: int, duration: int, sd: int, overlap: int, merge: bool)
    requires sd < 0
    ensures i <= duration ==> PlanFrom(i, duration, sd, overlap, merge) == []
    ensures forall k :: 0 <= k < |PlanFrom(i, duration, sd, overlap, merge)| ==>
              PlanFrom(i, duration, sd, overlap, merge)[k] == Step(i + k * sd, sd + overlap) &&
              i + k * sd > duration
    decreases i - duration
  {
    if i > duration {
      var rest := PlanFrom(i + sd, duration, sd, overlap, merge);
      PlanFromDescending(i + sd, duration, sd, overlap, merge);
      var p := PlanFrom(i, duration, sd, overlap, merge);
      assert p == [Step(i, sd + overlap)] + rest;
      forall k | 1 <= k < |p|
        ensures p[k] == Step(i + k * sd, sd + overlap) && i + k * sd > duration
      {
        assert p[k] == rest[k - 1];
        assert rest[k - 1] == Step(i + sd + (k - 1) * sd, sd + overlap) && i + sd + (k - 1) * sd > duration;
        assert i + sd + (k - 1) * sd == i + k * sd;
      }
    }
  }

  /** A negative segment duration: the merge flag is always set (Python's
      remainder is then never positive) yet no merge happens; the windows
      start at 0, sd, 2sd, ... above the duration, so a non-negative
      duration gives no clip at all. */
  lemma PlanNegativeStep(duration: int, sd: int, overlap: int)
    requires sd < 0
    ensures MergeFlag(duration, sd)
    ensures duration >= 0 ==> Plan(duration, sd, overlap) == []
    ensures var p := Plan(duration, sd, overlap);
            forall k :: 0 <= k < |p| ==> p[k] == Step(k * sd, sd + overlap) && p[k].start > duration
  {
    PlanFromDescending(0, duration, sd, overlap, MergeFlag(duration, sd));
  }

  /** Start offsets lie in [0, duration) and strictly increase; a
      non-positive duration gives no clip. */
  lemma PlanStartsInRange(duration: int, sd: int, overlap: int)
    requires sd > 0
    ensures var p := Plan(duration, sd, overlap);
            (forall k :: 0 <= k < |p| ==> 0 <= p[k].start < duration) &&
            (forall k, l :: 0 <= k < l < |p| ==> p[k].start < p[l].start) &&
            (duration <= 0 ==> p == [])
  {
    var p := Plan(duration, sd, overlap);
    assert p == PlanFrom(0, duration, sd, overlap, MergeFlag(duration, sd));
    PlanFromStartsInRange(0, duration, sd, overlap, MergeFlag(duration, sd));
  }

  /** Every clip but the last has length sd + overlap; the last has length
      sd + 100 exactly when the merge fires (whatever the overlap). */
  lemma PlanLengths(duration: int, sd: int, overlap: int)
    requires sd > 0
    ensures var p := Plan(duration, sd, overlap);
            (forall k :: 0 <= k < |p| - 1 ==> p[k].length == sd + overlap) &&
            (|p| > 0 ==> p[|p| - 1].length == if MergeFires(duration, sd) then sd + ShortTail else sd + overlap)
  {
    PlanClosedForm(duration, sd, overlap);
  }

  /** The merge flag is set whenever duration % sd < 100, but the merge only
      happens when in addition the remainder is non-zero and duration > sd;
      it then removes exactly one clip. N below is ceil(duration / sd). */
  lemma PlanCount(duration: int, sd: int, overlap: int)
    requires sd > 0
    ensures MergeFires(duration, sd) <==> MergeFlag(duration, sd) && duration % sd != 0 && duration > sd
    ensures var n := |Plan(duration, sd, overlap)| + (if MergeFires(duration, sd) then 1 else 0);
            (duration <= 0 ==> n == 0) &&
            (duration > 0 ==> (n - 1) * sd < duration <= n * sd)
  {
    PlanClosedForm(duration, sd, overlap);
    var q, r := duration / sd, duration % sd;
    assert duration == q * sd + r;
    if duration > 0 {
      var n := |Plan(duration, sd, overlap)| + (if MergeFires(duration, sd) then 1 else 0);
      if r == 0 {
        assert n == q;
        assert (n - 1) * sd == q * sd - sd;
      } else {
        assert n == q + 1;
        assert n * sd == q * sd + sd;
      }
    }
  }

  /** With a non-negative overlap the last clip reaches the end of the audio. */
  lemma PlanCoversDuration(duration: int, sd: int, overlap: int)
    requires sd > 0 && overlap >= 0 && duration > 0
    ensures var p := Plan(duration, sd, overlap);
            |p| > 0 && p[|p| - 1].start + p[|p| - 1].length >= duration
  {
    PlanClosedForm(duration, sd, overlap);
    PlanCount(duration, sd, overlap);
    var p := Plan(duration, sd, overlap);
    var n := |p| + (if MergeFires(duration, sd) then 1 else 0);
    assert n >= 1;
    if MergeFires(duration, sd) {
      assert p[|p| - 1].start == (n - 2) * sd;
      assert (n - 2) * sd + sd + ShortTail == (n - 1) * sd + ShortTail;
      assert duration - (n - 1) * sd == duration % sd by {
        assert duration / sd == n - 1;
      }
    } else {
      assert p[|p| - 1].start == (n - 1) * sd;
      assert (n - 1) * sd + sd == n * sd;
    }
  }

  /** The example of a 650 s file cut at 600 s: one clip of 700 s. */
  lemma ShortTailExample()
    ensures Plan(650, 600, 0) == [Step(0, 700)]
  {
    PlanClosedForm(650, 600, 0);
  }

  /** A remainder of exactly 100 s is not merged: three nominal clips. */
  lemma NoSpuriousMergeExample()
    ensures Plan(1300, 600, 0) == [Step(0, 600), Step(600, 600), Step(1200, 600)]
  {
    PlanClosedForm(1300, 600, 0);
  }

  // ---------------------------------------------------------------------
  // File naming
  // ---------------------------------------------------------------------

  /** f"{audio_dir}/segments" */
  function SegmentsDir(audioDir: string): string
  {
    audioDir + "/segments"
  }

  /** f"{audio_dir}/segments/{index}{audio_suffix}" */
  function SegmentPath(audioDir: string, suffix: string, index: nat): string
  {
    SegmentsDir(audioDir) + "/" + NatToString(index) + suffix
  }

  /** The segment file of the given index for an input file: its directory
      and suffix come from the input's path. */
  function SegmentFile(audioFile: string, index: nat): string
  {
    SegmentPath(Dirname(audioFile), Extension(audioFile), index)
  }

  /** The create_clip calls the planner makes for the windows steps, the
      k-th window written to the file of index k. */
  function ClipsFor(audioFile: string, audioDir: string, suffix: string, steps: seq<Step>): (r: seq<Clip>)
    ensures |r| == |steps|
  {
    seq(|steps|, k requires 0 <= k < |steps| =>
      Clip(audioFile, SegmentPath(audioDir, suffix, k), steps[k].start, steps[k].length))
  }

  /** The segment paths of indices 0 .. n-1, in order. */
  function SegmentFiles(audioDir: string, suffix: string, n: nat): (r: seq<string>)
    ensures |r| == n
  {
    if n == 0 then [] else SegmentFiles(audioDir, suffix, n - 1) + [SegmentPath(audioDir, suffix, n - 1)]
  }

  /** The k-th of the segment paths is the path of index k. */
  lemma {:induction false} SegmentFilesIndex(audioDir: string, suffix: string, n: nat, k: nat)
    requires k < n
    ensures SegmentFiles(audioDir, suffix, n)[k] == SegmentPath(audioDir, suffix, k)
    decreases n
  {
    if k < n - 1 {
      SegmentFilesIndex(audioDir, suffix, n - 1, k);
    }
  }

  lemma ClipsForAppend(audioFile: string, audioDir: string, suffix: string, steps: seq<Step>, s: Step)
    ensures ClipsFor(audioFile, audioDir, suffix, steps + [s]) ==
            ClipsFor(audioFile, audioDir, suffix, steps) + [Clip(audioFile, SegmentPath(audioDir, suffix, |steps|), s.start, s.length)]
  {
  }

  /** The basename of a segment file is "{index}{suffix}", and distinct
      indices give distinct files. */
  lemma SegmentFileNaming(audioFile: string, k: nat, l: nat)
    ensures Basename(SegmentFile(audioFile, k)) == NatToString(k) + Extension(audioFile)
    ensures k != l ==> SegmentFile(audioFile, k) != SegmentFile(audioFile, l)
  {
    var name := NatToString(k) + Extension(audioFile);
    var dir := SegmentsDir(Dirname(audioFile));
    assert SegmentFile(audioFile, k) == dir + "/" + name;
    BasenameOfJoin(dir, name);
    SegmentPathInjective(Dirname(audioFile), Extension(audioFile), k, l);
  }

  /** Within one directory and suffix, distinct indices name distinct files. */
  lemma SegmentPathInjective(audioDir: string, suffix: string, k: nat, l: nat)
    ensures k != l ==> SegmentPath(audioDir, suffix, k) != SegmentPath(audioDir, suffix, l)
  {
    if SegmentPath(audioDir, suffix, k) == SegmentPath(audioDir, suffix, l) {
      var pre := SegmentsDir(audioDir) + "/";
      var a, b := NatToString(k), NatToString(l);
      assert pre + a + suffix == pre + b + suffix;
      assert |a| == |b|;
      assert a == (pre + a + suffix)[|pre|..|pre| + |a|];
      assert b == (pre + b + suffix)[|pre|..|pre| + |b|];
      NatToStringInjective(k, l);
    }
  }

  // ---------------------------------------------------------------------
  // split_audio_file_into_segments
  // ---------------------------------------------------------------------

  /** What a first run returns for a file: one segment file per planned
      window, named by its index, and the create_clip call for each. */
  function FreshSplit(audioFile: string, duration: int, sd: int, overlap: int): (r: Split)
    requires sd != 0
    ensures |r.segments| == |r.clips| == |Plan(duration, sd, overlap)|
    ensures forall k :: 0 <= k < |r.clips| ==>
              r.clips[k] == Clip(audioFile, SegmentFile(audioFile, k), Plan(duration, sd, overlap)[k].start,
                                 Plan(duration, sd, overlap)[k].length)
    ensures forall k :: 0 <= k < |r.segments| ==> r.segments[k] == SegmentFile(audioFile, k)
  {
    var plan := Plan(duration, sd, overlap);
    var audioDir, suffix := Dirname(audioFile), Extension(audioFile);
    FreshSplitIndex(audioFile, plan);
    Split(SegmentFiles(audioDir, suffix, |plan|), ClipsFor(audioFile, audioDir, suffix, plan))
  }

  /** The first n segment paths of a file are those of indices 0 .. n-1. */
  lemma FreshSplitIndex(audioFile: string, plan: seq<Step>)
    ensures forall k :: 0 <= k < |plan| ==>
              SegmentFiles(Dirname(audioFile), Extension(audioFile), |plan|)[k] == SegmentFile(audioFile, k)
  {
    forall k | 0 <= k < |plan|
      ensures SegmentFiles(Dirname(audioFile), Extension(audioFile), |plan|)[k] == SegmentFile(audioFile, k)
    {
      SegmentFilesIndex(Dirname(audioFile), Extension(audioFile), |plan|, k);
    }
  }

  /** The segment paths returned on a re-run: one per entry of the existing
      directory listing, in the listing's (unspecified) order. */
  function ListedSegments(audioFile: string, listing: seq<string>): seq<string>
  {
    seq(|listing|, k requires 0 <= k < |listing| => SegmentsDir(Dirname(audioFile)) + "/" + listing[k])
  }

  /** Each reused segment path ends in its listing entry: os.listdir gives
      bare names, so the basename of path k is entry k. */
  lemma ListedSegmentsNames(audioFile: string, listing: seq<string>)
    requires forall k, j :: 0 <= k < |listing| && 0 <= j < |listing[k]| ==> listing[k][j] != '/'
    ensures |ListedSegments(audioFile, listing)| == |listing|
    ensures forall k :: 0 <= k < |listing| ==> Basename(ListedSegments(audioFile, listing)[k]) == listing[k]
  {
    forall k | 0 <= k < |listing|
      ensures Basename(ListedSegments(audioFile, listing)[k]) == listing[k]
    {
      BasenameOfJoin(SegmentsDir(Dirname(audioFile)), listing[k]);
    }
  }

  /** The for loop of split_audio_files.py:61-74, given the merge flag
      computed before it: one clip per step of sd seconds, named by a dense
      index, and the merged clip ends the loop. */
  method EmitSegments(audioFile: string, audioDir: string, suffix: string,
                      duration: int, sd: int, overlap: int, merge: bool)
    returns (segments: seq<string>, clips: seq<Clip>)
    requires sd != 0
    ensures segments == SegmentFiles(audioDir, suffix, |PlanFrom(0, duration, sd, overlap, merge)|)
    ensures clips == ClipsFor(audioFile, audioDir, suffix, PlanFrom(0, duration, sd, overlap, merge))
  {
    ghost var done: seq<Step> := [];
    segments, clips := [], [];
    var index: nat := 0;
    var i := 0;
    while InRange(i, duration, sd)
      invariant index == |done|
      invariant done + PlanFrom(i, duration, sd, overlap, merge) == PlanFrom(0, duration, sd, overlap, merge)
      invariant segments == SegmentFiles(audioDir, suffix, index)
      invariant clips == ClipsFor(audioFile, audioDir, suffix, done)
      decreases if sd > 0 then duration - i else i - duration
    {
      var segmentFile := SegmentPath(audioDir, suffix, index);
      if merge && i + 2 * sd > duration > i + sd {
        ClipsForAppend(audioFile, audioDir, suffix, done, Step(i, sd + ShortTail));
        clips := clips + [Clip(audioFile, segmentFile, i, sd + ShortTail)];
        segments := segments + [segmentFile];
        done := done + [Step(i, sd + ShortTail)];
        return;
      }
      assert PlanFrom(i, duration, sd, overlap, merge) ==
             [Step(i, sd + overlap)] + PlanFrom(i + sd, duration, sd, overlap, merge);
      ClipsForAppend(audioFile, audioDir, suffix, done, Step(i, sd + overlap));
      clips := clips + [Clip(audioFile, segmentFile, i, sd + overlap)];
      segments := segments + [segmentFile];
      AppendAssoc(done, [Step(i, sd + overlap)], PlanFrom(i + sd, duration, sd, overlap, merge));
      done := done + [Step(i, sd + overlap)];
      index := index + 1;
      i := i + sd;
    }
    assert done + [] == done;
  }

  /** split_audio_file_into_segments. `existing` is None when the segments
      directory does not exist yet, and Some(os.listdir(...)) when it does.
      A zero segment duration raises ZeroDivisionError at the modulo, after
      the directory has been created; a negative one walks the range
      downwards from 0. */
  method SplitAudioFileIntoSegments(audioFile: string, duration: int, sd: int, overlap: int,
                                    existing: Option<seq<string>>)
    returns (r: Result<Split, SplitError>)
    ensures existing.Some? ==> r == Success(Split(ListedSegments(audioFile, existing.value), []))
    ensures existing.None? && sd == 0 ==> r == Failure(ZeroDivisionError)
    ensures existing.None? && sd != 0 ==> r == Success(FreshSplit(audioFile, duration, sd, overlap))
  {
    if existing.Some? {
      return Success(Split(ListedSegments(audioFile, existing.value), []));
    }
    // os.mkdir(f"{audio_dir}/segments") happens here.
    if sd == 0 {
      return Failure(ZeroDivisionError);
    }
    var audioDir := Dirname(audioFile);
    var suffix := Extension(audioFile);
    var merge := FloorMod(duration, sd) < ShortTail;
    var segments, clips := EmitSegments(audioFile, audioDir, suffix, duration, sd, overlap, merge);
    return Success(Split(segments, clips));
  }

  // ---------------------------------------------------------------------
  // RequestData
  // ---------------------------------------------------------------------

  /** The request dictionary handed to parse_from_request_json; a None field
      stands for a missing key. */
  datatype RequestJson = RequestJson(audioFilePath: Option<string>,
                                     segmentDurationSeconds: Option<int>,
                                     overlapSeconds: Option<int>)

  /** The KeyError raised for a missing key, naming it. */
  datatype KeyError = KeyError(key: string)

  class RequestData {
    var audioFilePath: Option<string>
    var segmentDurationSeconds: Option<int>
    var overlapSeconds: Option<int>

    constructor ()
      ensures audioFilePath == None && segmentDurationSeconds == None && overlapSeconds == None
    {
      audioFilePath, segmentDurationSeconds, overlapSeconds := None, None, None;
    }

    /** Copies the three keys in order; the first missing key raises
        KeyError, leaving the fields assigned before it set. */
    method ParseFromRequestJson(json: RequestJson) returns (err: Option<KeyError>)
      modifies this
      ensures err == (if json.audioFilePath.None? then Some(KeyError("audio_file_path"))
                      else if json.segmentDurationSeconds.None? then Some(KeyError("segment_duration_seconds"))
                      else if json.overlapSeconds.None? then Some(KeyError("overlap_seconds"))
                      else None)
      ensures audioFilePath == (if json.audioFilePath.Some? then json.audioFilePath else old(audioFilePath))
      ensures segmentDurationSeconds ==
                (if json.audioFilePath.Some? && json.segmentDurationSeconds.Some?
                 then json.segmentDurationSeconds else old(segmentDurationSeconds))
      ensures overlapSeconds ==
                (if json.audioFilePath.Some? && json.segmentDurationSeconds.Some? && json.overlapSeconds.Some?
                 then json.overlapSeconds else old(overlapSeconds))
    {
      if json.audioFilePath.None? {
        return Some(KeyError("audio_file_path"));
      }
      audioFilePath := json.audioFilePath;
      if json.segmentDurationSeconds.None? {
        return Some(KeyError("segment_duration_seconds"));
      }
      segmentDurationSeconds := json.segmentDurationSeconds;
      if json.overlapSeconds.None? {
        return Some(KeyError("overlap_seconds"));
      }
      overlapSeconds := json.overlapSeconds;
      return None;
    }
  }

  /** run(args): probe the duration (an input here) and split the file
      named by the request's fields. */
  method Run(args: RequestData, duration: int, existing: Option<seq<string>>)
    returns (r: Result<Split, SplitError>)
    requires args.audioFilePath.Some? && args.segmentDurationSeconds.Some? && args.overlapSeconds.Some?
    ensures existing.Some? ==> r == Success(Split(ListedSegments(args.audioFilePath.value, existing.value), []))
    ensures existing.None? && args.segmentDurationSeconds.value == 0 ==> r == Failure(ZeroDivisionError)
    ensures existing.None? && args.segmentDurationSeconds.value != 0 ==>
              r == Success(FreshSplit(args.audioFilePath.value, duration,
                                      args.segmentDurationSeconds.value, args.overlapSeconds.value))
  {
    r := SplitAudioFileIntoSegments(args.audioFilePath.value, duration, args.segmentDurationSeconds.value,
                                    args.overlapSeconds.value, existing);
  }
}
