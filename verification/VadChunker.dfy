// One audio frame of 512 samples at 16 kHz, the unit in which the daemon hears everything.
module Audio {
  const FRAME_SAMPLES := 512

  datatype Frame = Frame(pcm: seq<int>)
}

// The streaming chunker: frames go in one at a time with the voice detector's verdict, and a
// chunk comes out when a pause or the length cap closes it and the gate lets it through.
module VadChunker {
  import opened Wrappers
  import opened Audio

  // 700 ms, 30 s and 500 ms at 16 kHz; the first in whole frames, the others in samples.
  const SILENCE_FRAMES_TO_CUT := 700 * 16_000 / (1000 * 512)
  const MAX_CHUNK_SAMPLES := 30 * 16_000
  const MIN_CHUNK_SAMPLES := 500 * 16_000 / 1000
  const MIN_SPEECH_FRAMES_PER_CHUNK := 5

  /** A frame with the voice detector's verdict on it. */
  datatype Marked = Marked(frame: Frame, speech: bool)

  datatype Reason = Silence | MaxLen | Final

  /** A chunker seen from outside: the frames it still holds, and why it last let a chunk out. */
  datatype Chunker = Chunker(pending: seq<Marked>, lastCut: Option<Reason>)

  /** What one call does with the frames held so far. */
  datatype Emission = Nothing | Dropped(chunk: seq<Marked>) | Kept(chunk: seq<Marked>, reason: Reason)
  {
    function Frames(): seq<Marked> {
      if Nothing? then [] else chunk
    }

    function Audio(): Option<seq<Frame>> {
      if Kept? then Some(Unmark(chunk)) else None
    }
  }

  function Mark(frames: seq<Frame>, verdicts: seq<bool>): (b: seq<Marked>)
    requires |frames| == |verdicts|
    ensures |b| == |frames|
    ensures forall i :: 0 <= i < |b| ==> b[i] == Marked(frames[i], verdicts[i])
  {
    seq(|frames|, i requires 0 <= i < |frames| == |verdicts| => Marked(frames[i], verdicts[i]))
  }

  function Unmark(b: seq<Marked>): (fs: seq<Frame>)
    ensures |fs| == |b| && forall i :: 0 <= i < |b| ==> fs[i] == b[i].frame
  {
    seq(|b|, i requires 0 <= i < |b| => b[i].frame)
  }

  /** How many of the first n frames are speech. */
  function SpeechIn(b: seq<Marked>, n: nat): nat
    requires n <= |b|
  {
    if n == 0 then 0 else SpeechIn(b, n - 1) + if b[n - 1].speech then 1 else 0
  }

  function SpeechCount(b: seq<Marked>): nat {
    SpeechIn(b, |b|)
  }

  predicate HasSpeech(b: seq<Marked>) {
    SpeechCount(b) > 0
  }

  /** How many frames without speech end the first n. */
  function TailIn(b: seq<Marked>, n: nat): (t: nat)
    requires n <= |b|
    ensures t <= n
  {
    if n == 0 || b[n - 1].speech then 0 else 1 + TailIn(b, n - 1)
  }

  function SilenceTail(b: seq<Marked>): nat {
    TailIn(b, |b|)
  }

  lemma {:induction false} PrefixCounts(b: seq<Marked>, c: seq<Marked>, n: nat)
    requires n <= |b| && n <= |c| && b[..n] == c[..n]
    ensures SpeechIn(b, n) == SpeechIn(c, n) && TailIn(b, n) == TailIn(c, n)
  {
    if n > 0 {
      assert b[n - 1] == b[..n][n - 1] == c[..n][n - 1] == c[n - 1];
      assert b[..n - 1] == b[..n][..n - 1] == c[..n - 1];
      PrefixCounts(b, c, n - 1);
    }
  }

  lemma TailGrowsByOne(b: seq<Marked>, m: Marked)
    ensures SilenceTail(b + [m]) == if m.speech then 0 else SilenceTail(b) + 1
    ensures HasSpeech(b + [m]) == (HasSpeech(b) || m.speech)
  {
    PrefixCounts(b, b + [m], |b|);
  }

  lemma {:induction false} TailInMeaning(b: seq<Marked>, n: nat)
    requires n <= |b|
    ensures forall i :: n - TailIn(b, n) <= i < n ==> !b[i].speech
    ensures TailIn(b, n) < n ==> b[n - 1 - TailIn(b, n)].speech
    ensures SpeechIn(b, n) > 0 <==> TailIn(b, n) < n
  {
    if n > 0 {
      TailInMeaning(b, n - 1);
    }
  }

  /** What the tail is: no speech in it, and speech just before it unless there is none at all. */
  lemma TailMeaning(b: seq<Marked>)
    ensures forall i :: |b| - SilenceTail(b) <= i < |b| ==> !b[i].speech
    ensures SilenceTail(b) < |b| ==> b[|b| - 1 - SilenceTail(b)].speech
    ensures HasSpeech(b) <==> SilenceTail(b) < |b|
  {
    TailInMeaning(b, |b|);
  }

  /** Half a second is reached with 16 frames. */
  predicate PassesGate(b: seq<Marked>) {
    |b| >= 16 && SpeechCount(b) >= MIN_SPEECH_FRAMES_PER_CHUNK
  }

  function CutAll(b: seq<Marked>, reason: Reason): (Chunker, Emission) {
    if PassesGate(b) then (Chunker([], Some(reason)), Kept(b, reason)) else (Chunker([], None), Dropped(b))
  }

  /** A pause of 21 frames after speech closes the chunk, and so do 938 frames of anything. */
  function CutReason(b: seq<Marked>): Option<Reason> {
    if HasSpeech(b) && SilenceTail(b) >= 21 then Some(Silence)
    else if |b| >= 938 then Some(MaxLen)
    else None
  }

  /** A chunk closed by a pause is always long enough for the half-second minimum, so that the
      minimum never decides a cut. */
  lemma PauseCutIsLongEnough(b: seq<Marked>)
    requires HasSpeech(b) && SilenceTail(b) >= SILENCE_FRAMES_TO_CUT
    ensures |b| * FRAME_SAMPLES >= MIN_CHUNK_SAMPLES
  {
    TailMeaning(b);
  }

  /** The code's two conditions, in samples, decide as the frame counts do. */
  lemma CutDecision(b: seq<Marked>)
    ensures CutReason(b) ==
      if HasSpeech(b) && SilenceTail(b) >= SILENCE_FRAMES_TO_CUT && |b| * FRAME_SAMPLES >= MIN_CHUNK_SAMPLES then Some(Silence)
      else if |b| * FRAME_SAMPLES >= MAX_CHUNK_SAMPLES then Some(MaxLen)
      else None
  {
    if HasSpeech(b) && SilenceTail(b) >= SILENCE_FRAMES_TO_CUT {
      PauseCutIsLongEnough(b);
    }
  }

  function PushSpec(c: Chunker, m: Marked): (Chunker, Emission) {
    var b := c.pending + [m];
    match CutReason(b)
    case Some(reason) => CutAll(b, reason)
    case None => (Chunker(b, c.lastCut), Nothing)
  }

  function FlushSpec(c: Chunker): (Chunker, Emission) {
    if HasSpeech(c.pending) then CutAll(c.pending, Final)
    else (Chunker([], c.lastCut), if c.pending == [] then Nothing else Dropped(c.pending))
  }

  class StreamingChunker {
    var buf: seq<Frame>
    var frameIsSpeech: seq<bool>
    var silenceRun: nat
    var sawSpeech: bool
    var lastCutReason: Option<Reason>

    ghost function Pending(): (b: seq<Marked>)
      reads `buf, `frameIsSpeech
      requires |buf| == |frameIsSpeech|
      ensures |b| == |buf|
    {
      Mark(buf, frameIsSpeech)
    }

    /** The counters are determined by the frames held. */
    ghost predicate Valid()
      reads this
    {
      && |buf| == |frameIsSpeech|
      && silenceRun == SilenceTail(Pending())
      && sawSpeech == HasSpeech(Pending())
    }

    ghost function State(): Chunker
      reads this
      requires Valid()
    {
      Chunker(Pending(), lastCutReason)
    }

    constructor ()
      ensures Valid() && State() == Chunker([], None)
    {
      buf, frameIsSpeech, silenceRun, sawSpeech, lastCutReason := [], [], 0, false, None;
      new;
      assert Pending() == [];
    }

    method Push(frame: Frame, isSpeech: bool) returns (audio: Option<seq<Frame>>)
      requires Valid()
      modifies this
      ensures Valid()
      ensures State() == PushSpec(old(State()), Marked(frame, isSpeech)).0
      ensures audio == PushSpec(old(State()), Marked(frame, isSpeech)).1.Audio()
    {
      hide SpeechCount, SilenceTail, HasSpeech, CutReason, CutAll, PassesGate;
      ghost var before, m := Pending(), Marked(frame, isSpeech);
      buf := buf + [frame];
      frameIsSpeech := frameIsSpeech + [isSpeech];
      assert Pending() == before + [m];
      TailGrowsByOne(before, m);
      if isSpeech {
        sawSpeech := true;
        silenceRun := 0;
      } else {
        silenceRun := silenceRun + 1;
      }
      var chunkLen := |buf| * FRAME_SAMPLES;
      var shouldCutOnSilence := sawSpeech && silenceRun >= SILENCE_FRAMES_TO_CUT && chunkLen >= MIN_CHUNK_SAMPLES;
      var shouldCutOnMaxlen := chunkLen >= MAX_CHUNK_SAMPLES;
      CutDecision(before + [m]);
      if shouldCutOnSilence {
        audio := Cut(Silence);
        return;
      }
      if shouldCutOnMaxlen {
        audio := Cut(MaxLen);
        return;
      }
      audio := None;
    }

    method Flush() returns (audio: Option<seq<Frame>>)
      requires Valid()
      modifies this
      ensures Valid()
      ensures State() == FlushSpec(old(State())).0
      ensures audio == FlushSpec(old(State())).1.Audio()
    {
      if buf != [] && sawSpeech {
        audio := Cut(Final);
        return;
      }
      ResetBuffer();
      audio := None;
    }

    method ResetBuffer()
      modifies this
      ensures Valid() && State() == Chunker([], old(lastCutReason))
    {
      buf, frameIsSpeech, silenceRun, sawSpeech := [], [], 0, false;
    }

    method Cut(reason: Reason) returns (audio: Option<seq<Frame>>)
      requires Valid()
      modifies this
      ensures Valid()
      ensures State() == CutAll(old(Pending()), reason).0
      ensures audio == CutAll(old(Pending()), reason).1.Audio()
    {
      ghost var held := Pending();
      var all, speechFlags := buf, frameIsSpeech;
      ResetBuffer();
      audio := Gate(all, speechFlags);
      assert Unmark(held) == all;
      CountsAgree(speechFlags, held, |held|);
      lastCutReason := if audio != None then Some(reason) else None;
    }

    static method Gate(audio: seq<Frame>, speechFlags: seq<bool>) returns (kept: Option<seq<Frame>>)
      ensures kept == if |audio| * FRAME_SAMPLES >= MIN_CHUNK_SAMPLES && TrueCount(speechFlags) >= MIN_SPEECH_FRAMES_PER_CHUNK
                      then Some(audio) else None
    {
      if |audio| * FRAME_SAMPLES < MIN_CHUNK_SAMPLES {
        return None;
      }
      var speechFrames := TrueCount(speechFlags);
      if speechFrames < MIN_SPEECH_FRAMES_PER_CHUNK {
        return None;
      }
      return Some(audio);
    }
  }

  function TrueCount(flags: seq<bool>): nat {
    if flags == [] then 0 else TrueCount(flags[..|flags| - 1]) + if flags[|flags| - 1] then 1 else 0
  }

  lemma {:induction false} CountsAgree(flags: seq<bool>, b: seq<Marked>, n: nat)
    requires n == |flags| <= |b| && forall i :: 0 <= i < n ==> b[i].speech == flags[i]
    ensures TrueCount(flags) == SpeechIn(b, n)
  {
    if n > 0 {
      CountsAgree(flags[..n - 1], b, n - 1);
    }
  }

  // Whole runs, over every sequence of frames and verdicts.

  /** The chunker after the first i frames. */
  function After(input: seq<Marked>, i: nat): Chunker
    requires i <= |input|
  {
    if i == 0 then Chunker([], None) else PushSpec(After(input, i - 1), input[i - 1]).0
  }

  /** What came out when frame i went in. */
  function EmissionAt(input: seq<Marked>, i: nat): Emission
    requires i < |input|
  {
    PushSpec(After(input, i), input[i]).1
  }

  /** All chunks that have left within the first i frames, kept or dropped, in order. */
  function Emitted(input: seq<Marked>, i: nat): seq<Marked>
    requires i <= |input|
  {
    if i == 0 then [] else Emitted(input, i - 1) + EmissionAt(input, i - 1).Frames()
  }

  /** What holds of the frames a chunker keeps between calls. */
  ghost predicate Bounded(b: seq<Marked>) {
    |b| <= 937 && (HasSpeech(b) ==> SilenceTail(b) <= 20)
  }

  lemma StepKeepsBounded(c: Chunker, m: Marked)
    requires Bounded(c.pending)
    ensures Bounded(PushSpec(c, m).0.pending)
  {
  }

  /** The silence run never exceeds 937 frames, and 20 while there is speech in the buffer. */
  lemma {:induction false} HeldFramesBounded(input: seq<Marked>, i: nat)
    requires i <= |input|
    ensures Bounded(After(input, i).pending)
    ensures SilenceTail(After(input, i).pending) <= 937
  {
    if i > 0 {
      HeldFramesBounded(input, i - 1);
      StepKeepsBounded(After(input, i - 1), input[i - 1]);
    }
  }

  lemma StepConserves(c: Chunker, m: Marked)
    ensures PushSpec(c, m).1.Frames() + PushSpec(c, m).0.pending == c.pending + [m]
  {
  }

  /** Nothing is lost, repeated or reordered. */
  lemma {:induction false} FramesConserved(input: seq<Marked>, i: nat)
    requires i <= |input|
    ensures Emitted(input, i) + After(input, i).pending == input[..i]
  {
    hide PushSpec;
    if i > 0 {
      FramesConserved(input, i - 1);
      OneStep(input, i - 1);
      var out, em, rest := Emitted(input, i - 1), EmissionAt(input, i - 1).Frames(), After(input, i).pending;
      var held, m := After(input, i - 1).pending, input[i - 1];
      assert Emitted(input, i) == out + em;
      Regroup(out, em, rest, held, m);
      assert (out + em) + rest == input[..i - 1] + [m];
      assert input[..i] == input[..i - 1] + [m];
    }
  }

  lemma OneStep(input: seq<Marked>, i: nat)
    requires i < |input|
    ensures EmissionAt(input, i).Frames() + After(input, i + 1).pending == After(input, i).pending + [input[i]]
  {
    StepConserves(After(input, i), input[i]);
  }

  lemma Regroup(out: seq<Marked>, em: seq<Marked>, rest: seq<Marked>, held: seq<Marked>, m: Marked)
    requires em + rest == held + [m]
    ensures (out + em) + rest == (out + held) + [m]
  {
    assert (out + em) + rest == out + (em + rest);
  }

  lemma FlushConserves(c: Chunker)
    ensures FlushSpec(c).1.Frames() == c.pending
  {
  }

  /** With the final flush, everything that went in has come out. */
  lemma FramesConservedToTheEnd(input: seq<Marked>)
    ensures Emitted(input, |input|) + FlushSpec(After(input, |input|)).1.Frames() == input
  {
    hide PushSpec, FlushSpec;
    FramesConserved(input, |input|);
    FlushConserves(After(input, |input|));
    assert input[..|input|] == input;
  }

  /** The frames of a chunk closed by a pause: speech, then exactly 21 frames without. */
  ghost predicate EndsInPause(b: seq<Marked>) {
    |b| >= 22 && b[|b| - 22].speech && forall i :: |b| - 21 <= i < |b| ==> !b[i].speech
  }

  lemma CutShape(held: seq<Marked>, m: Marked)
    requires Bounded(held) && CutReason(held + [m]).Some?
    ensures var b, reason := held + [m], CutReason(held + [m]).value;
      && 16 <= |b| <= 938
      && (reason == Silence || reason == MaxLen)
      && (reason == Silence <==> EndsInPause(b))
      && (reason == MaxLen ==> |b| == 938)
  {
    var b := held + [m];
    TailGrowsByOne(held, m);
    TailMeaning(held);
    TailMeaning(b);
    if SilenceTail(b) >= 21 && HasSpeech(b) {
      assert SilenceTail(b) == 21;
    }
  }

  /** The shape of everything that leaves while frames are pushed. */
  lemma EmissionShape(input: seq<Marked>, i: nat)
    requires i < |input|
    ensures match EmissionAt(input, i)
      case Nothing => true
      case Kept(b, reason) =>
        && SpeechCount(b) >= 5
        && (reason == Silence || reason == MaxLen)
        && (reason == Silence <==> EndsInPause(b))
        && (reason == MaxLen ==> |b| == 938)
        && |b| <= 938
      case Dropped(b) => SpeechCount(b) < 5 && (EndsInPause(b) || |b| == 938) && 16 <= |b| <= 938
  {
    HeldFramesBounded(input, i);
    var held := After(input, i).pending;
    if CutReason(held + [input[i]]).Some? {
      CutShape(held, input[i]);
    }
  }

  /** The frame at which the held ones begin. */
  function HeldFrom(input: seq<Marked>, i: nat): int
    requires i <= |input|
  {
    i - |After(input, i).pending|
  }

  /** The held frames are the last ones heard. */
  lemma HeldIsSuffix(input: seq<Marked>, i: nat)
    requires i <= |input|
    ensures 0 <= HeldFrom(input, i) <= i
    ensures After(input, i).pending == input[HeldFrom(input, i)..i]
  {
    FramesConserved(input, i);
    var out, held := Emitted(input, i), After(input, i).pending;
    assert held == (out + held)[|out|..] == input[..i][|out|..];
  }

  lemma OneMoreFrame(input: seq<Marked>, i: nat)
    requires i < |input|
    ensures HeldFrom(input, i + 1) == if EmissionAt(input, i).Nothing? then HeldFrom(input, i) else i + 1
    ensures 0 <= HeldFrom(input, i)
    ensures !EmissionAt(input, i).Nothing? ==> EmissionAt(input, i).chunk == input[HeldFrom(input, i)..i + 1]
  {
    HeldIsSuffix(input, i);
  }

  /** A chunk was dropped when one of the frames from s up to e went in. */
  predicate DroppedWithin(input: seq<Marked>, s: nat, e: nat)
    requires e <= |input|
  {
    s < e && (EmissionAt(input, e - 1).Dropped? || DroppedWithin(input, s, e - 1))
  }

  /** A yielded chunk: from frame start up to frame end. The code gives both in samples, 512 to the
      frame, and gives the last range the length of the recording, which may exceed end by less than a frame. */
  datatype Range = Range(start: nat, end: nat, audio: seq<Frame>)

  /** The audio lies at the end of its range, and fills it unless a chunk was dropped within. */
  ghost predicate RangeFits(input: seq<Marked>, r: Range) {
    && r.start < r.end <= |input| && r.start + |r.audio| <= r.end
    && r.audio == Unmark(input[r.end - |r.audio|..r.end])
    && (r.start + |r.audio| < r.end <==> DroppedWithin(input, r.start, r.end))
  }

  /** Frames s up to i have been pushed since the last range ended at s. */
  ghost predicate Gap(input: seq<Marked>, s: nat, i: nat) {
    && s <= i <= |input| && s <= HeldFrom(input, i)
    && (s < HeldFrom(input, i) <==> DroppedWithin(input, s, i))
  }

  lemma GapGrows(input: seq<Marked>, s: nat, i: nat)
    requires i < |input| && Gap(input, s, i)
    ensures EmissionAt(input, i).Kept? ==> Gap(input, i + 1, i + 1)
    ensures !EmissionAt(input, i).Kept? ==> Gap(input, s, i + 1)
  {
    OneMoreFrame(input, i);
  }

  lemma KeptFits(input: seq<Marked>, s: nat, i: nat, audio: seq<Frame>)
    requires i < |input| && Gap(input, s, i) && EmissionAt(input, i).Audio() == Some(audio)
    ensures RangeFits(input, Range(s, i + 1, audio))
  {
    hide After;
    OneMoreFrame(input, i);
  }

  lemma TailFits(input: seq<Marked>, s: nat, audio: seq<Frame>)
    requires Gap(input, s, |input|)
    requires FlushSpec(After(input, |input|)).1.Audio() == Some(audio)
    ensures RangeFits(input, Range(s, |input|, audio))
  {
    hide After, EmissionAt, DroppedWithin, FlushSpec;
    HeldIsSuffix(input, |input|);
    FlushLetsThrough(After(input, |input|));
  }

  lemma FlushLetsThrough(c: Chunker)
    ensures FlushSpec(c).1.Kept? ==> FlushSpec(c).1.chunk == c.pending != []
  {
  }

  /** The final flush lets through exactly what is at least half a second long and has five frames of
      speech in it; anything else it drops. */
  lemma FlushShape(c: Chunker)
    ensures FlushSpec(c).0.pending == []
    ensures match FlushSpec(c).1
      case Kept(b, reason) => b == c.pending && reason == Final && |b| >= 16 && SpeechCount(b) >= 5
      case Dropped(b) => b == c.pending && (|b| < 16 || SpeechCount(b) < 5)
      case Nothing => c.pending == []
  {
  }

  /** A chunk that is let through leaves nothing behind, and tells why it was closed. */
  lemma KeptTellsReason(c: Chunker, m: Marked)
    ensures var (r, em) := PushSpec(c, m);
      em.Kept? ==> r == Chunker([], Some(em.reason))
  {
  }

  function AudioOf(em: Emission): seq<seq<Frame>> {
    if em.Kept? then [Unmark(em.chunk)] else []
  }

  /** The audio of the chunks let through within the first i frames, in order. */
  function KeptAudio(input: seq<Marked>, i: nat): seq<seq<Frame>>
    requires i <= |input|
  {
    if i == 0 then [] else KeptAudio(input, i - 1) + AudioOf(EmissionAt(input, i - 1))
  }

  /** With what the flush at the end lets through. */
  function AllKeptAudio(input: seq<Marked>): seq<seq<Frame>> {
    KeptAudio(input, |input|) + AudioOf(FlushSpec(After(input, |input|)).1)
  }

  function Audios(ranges: seq<Range>): (audios: seq<seq<Frame>>)
    ensures |audios| == |ranges| && forall k :: 0 <= k < |ranges| ==> audios[k] == ranges[k].audio
  {
    seq(|ranges|, k requires 0 <= k < |ranges| => ranges[k].audio)
  }

  /** Where the last range ends. */
  function EndOf(ranges: seq<Range>): nat {
    if ranges == [] then 0 else ranges[|ranges| - 1].end
  }

  /** The ranges follow one another from the start of the recording, and each fits its audio. */
  ghost predicate LaidOut(input: seq<Marked>, ranges: seq<Range>) {
    && (|ranges| > 0 ==> ranges[0].start == 0)
    && (forall k :: 0 < k < |ranges| ==> ranges[k].start == ranges[k - 1].end)
    && (forall k :: 0 <= k < |ranges| ==> RangeFits(input, ranges[k]))
  }

  lemma OneMoreRange(input: seq<Marked>, ranges: seq<Range>, r: Range)
    requires LaidOut(input, ranges) && RangeFits(input, r) && r.start == EndOf(ranges)
    ensures LaidOut(input, ranges + [r]) && EndOf(ranges + [r]) == r.end
    ensures Audios(ranges + [r]) == Audios(ranges) + [r.audio]
  {
    hide RangeFits;
  }

  lemma NoRangeYet(input: seq<Marked>)
    ensures LaidOut(input, []) && Audios([]) == [] == KeptAudio(input, 0)
    ensures Gap(input, 0, 0) && After(input, 0) == Chunker([], None)
  {
  }

  lemma KeptAudioGrows(input: seq<Marked>, i: nat)
    requires i < |input|
    ensures KeptAudio(input, i + 1) == KeptAudio(input, i) + match EmissionAt(input, i).Audio() case None => [] case Some(audio) => [audio]
  {
    hide EmissionAt;
  }

  /** Chunks a whole recording: one range for every chunk that is let through, in order. */
  method ChunkPcm(input: seq<Marked>) returns (ranges: seq<Range>)
    ensures Audios(ranges) == AllKeptAudio(input)
    ensures LaidOut(input, ranges)
  {
    hide PushSpec, FlushSpec, RangeFits, EmissionAt, Audios, Gap, LaidOut, After, KeptAudio, StreamingChunker.Valid, Unmark;
    var chunker := new StreamingChunker();
    var chunkStart: nat := 0;
    ranges := [];
    NoRangeYet(input);
    var i := 0;
    while i < |input|
      invariant 0 <= i <= |input| && chunker.Valid() && fresh(chunker)
      invariant chunker.State() == After(input, i) && Gap(input, chunkStart, i)
      invariant Audios(ranges) == KeptAudio(input, i) && LaidOut(input, ranges) && chunkStart == EndOf(ranges)
    {
      GapGrows(input, chunkStart, i);
      KeptAudioGrows(input, i);
      var audio := PushNext(chunker, input, i);
      i := i + 1;
      if audio != None {
        KeptFits(input, chunkStart, i - 1, audio.value);
        OneMoreRange(input, ranges, Range(chunkStart, i, audio.value));
        ranges := ranges + [Range(chunkStart, i, audio.value)];
        chunkStart := i;
      }
    }
    var tail := chunker.Flush();
    if tail != None {
      TailFits(input, chunkStart, tail.value);
      OneMoreRange(input, ranges, Range(chunkStart, |input|, tail.value));
      ranges := ranges + [Range(chunkStart, |input|, tail.value)];
    }
  }

  method PushNext(chunker: StreamingChunker, input: seq<Marked>, i: nat) returns (audio: Option<seq<Frame>>)
    requires i < |input| && chunker.Valid() && chunker.State() == After(input, i)
    modifies chunker
    ensures chunker.Valid() && chunker.State() == After(input, i + 1)
    ensures audio == EmissionAt(input, i).Audio()
  {
    audio := chunker.Push(input[i].frame, input[i].speech);
  }
}
