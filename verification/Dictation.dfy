// One dictation: frames are chunked, chunks are transcribed, and the texts that survive the
// hallucination filter are assembled, with a log record for every transcription.
module Dictation {
  import opened Wrappers
  import opened Audio
  import opened VadChunker
  import Text
  import StopPhrase

  /** What transcription and the hallucination filter make of a chunk. */
  datatype Transcript = Transcript(raw: string, passes: bool)

  type Whisper = seq<Frame> -> Transcript

  datatype Source = FromFeed | FromFinalFlush

  /** A log record. Positions count frames from the start of the dictation; audio is what was
      handed to the transcriber, which the code writes to a wave file instead. */
  datatype Record = Record(
    source: Source, start: int, end: nat, audio: seq<Frame>, raw: string, kept: Option<string>,
    stopMatched: bool, nearMiss: bool)

  /** A dictation seen from outside; fed is every frame it was given. */
  datatype Session = Session(
    chunks: seq<string>, log: seq<Record>, chunker: Chunker, fed: seq<Marked>, hold: bool)

  const NewSession := Session([], [], Chunker([], None), [], false)

  function Last<T>(s: seq<T>): T
    requires s != []
  {
    s[|s| - 1]
  }

  function TranscribeSpec(s: Session, audio: seq<Frame>, t: Transcript, source: Source): Session {
    var end := |s.fed|;
    var kept := if t.passes then Some(t.raw) else None;
    var s1 := s.(log := s.log + [Record(source, end - |audio|, end, audio, t.raw, kept, false, false)]);
    if t.passes then s1.(chunks := s.chunks + [t.raw]) else s1
  }

  function FeedSpec(s: Session, m: Marked, whisper: Whisper): (r: (Session, Option<string>))
    ensures r.1.Some? ==> r.0.chunks != [] && r.0.log != [] && Last(r.0.chunks) == r.1.value
  {
    var (chunker, em) := PushSpec(s.chunker, m);
    var s1 := s.(chunker := chunker, fed := s.fed + [m]);
    match em.Audio()
    case None => (s1, None)
    case Some(audio) =>
      var t := whisper(audio);
      (TranscribeSpec(s1, audio, t, FromFeed), if t.passes then Some(t.raw) else None)
  }

  function FlushFinalSpec(s: Session, whisper: Whisper): Session {
    var (chunker, em) := FlushSpec(s.chunker);
    var s1 := s.(chunker := chunker);
    match em.Audio()
    case None => s1
    case Some(audio) => if audio == [] then s1 else TranscribeSpec(s1, audio, whisper(audio), FromFinalFlush)
  }

  /** Takes the stop phrase out of the chunk that ended the dictation. */
  function StripSpec(s: Session, matched: string, remainder: string): Session
    requires s.chunks != [] && Last(s.chunks) == matched && s.log != []
  {
    var chunks := s.chunks[..|s.chunks| - 1] + if remainder != "" then [remainder] else [];
    var record := Last(s.log).(kept := if remainder != "" then Some(remainder) else None, stopMatched := true);
    s.(chunks := chunks, log := s.log[|s.log| - 1 := record])
  }

  function MarkNearMiss(s: Session): Session {
    if s.log == [] then s else s.(log := s.log[|s.log| - 1 := Last(s.log).(nearMiss := true)])
  }

  function NonEmpty(ts: seq<string>): seq<string> {
    if ts == [] then [] else (if ts[0] == "" then [] else [ts[0]]) + NonEmpty(ts[1..])
  }

  function FullTranscript(s: Session): string {
    Text.Join(NonEmpty(s.chunks))
  }

  /** The silence that ends the dictation, in frames: 50 s, 10 s and 2.7 s. */
  function SilenceLimit(s: Session): nat {
    if s.hold then 1563 else if s.chunks == [] then 313 else 85
  }

  predicate SilenceExceeds(s: Session) {
    SilenceTail(s.chunker.pending) >= SilenceLimit(s)
  }

  class DictationSession {
    var chunksTranscribed: seq<string>
    var chunkLog: seq<Record>
    const chunker: StreamingChunker
    var totalFed: nat
    var holdActive: bool
    ghost var fed: seq<Marked>

    ghost predicate Valid()
      reads this, chunker
    {
      chunker.Valid() && totalFed == |fed|
    }

    ghost function State(): Session
      reads this, chunker
      requires Valid()
    {
      Session(chunksTranscribed, chunkLog, chunker.State(), fed, holdActive)
    }

    constructor ()
      ensures Valid() && State() == NewSession && fresh(chunker)
    {
      chunksTranscribed, chunkLog, totalFed, holdActive, fed := [], [], 0, false, [];
      chunker := new StreamingChunker();
    }

    method NoteHoldPhrase()
      requires Valid()
      modifies this
      ensures Valid() && State() == old(State()).(hold := true)
    {
      holdActive := true;
    }

    method ClearHold()
      requires Valid()
      modifies this
      ensures Valid() && State() == old(State()).(hold := false)
    {
      holdActive := false;
    }

    /** Silence is measured in samples against 50 s, 10 s or 2.7 s at 16 kHz. */
    method SilenceExceedsSafetyNet() returns (exceeds: bool)
      requires Valid()
      ensures exceeds == SilenceExceeds(State())
    {
      var limit := if holdActive then 50 * 16_000 else if chunksTranscribed == [] then 10 * 16_000 else 27 * 1_600;
      exceeds := chunker.silenceRun * 512 >= limit;
    }

    method TranscribeAndAppend(audio: seq<Frame>, whisper: Whisper, source: Source) returns (text: Option<string>)
      requires Valid()
      modifies this
      ensures Valid()
      ensures var t := whisper(audio);
        && State() == TranscribeSpec(old(State()), audio, t, source)
        && text == if t.passes then Some(t.raw) else None
    {
      var end := totalFed;
      var start := end - |audio|;
      var t := whisper(audio);
      text := if t.passes then Some(t.raw) else None;
      chunkLog := chunkLog + [Record(source, start, end, audio, t.raw, text, false, false)];
      if text == None {
        return;
      }
      chunksTranscribed := chunksTranscribed + [text.value];
    }

    method Feed(frame: Frame, speech: bool, whisper: Whisper) returns (text: Option<string>)
      requires Valid()
      modifies this, chunker
      ensures Valid()
      ensures State() == FeedSpec(old(State()), Marked(frame, speech), whisper).0
      ensures text == FeedSpec(old(State()), Marked(frame, speech), whisper).1
    {
      hide PushSpec;
      totalFed := totalFed + 1;
      fed := fed + [Marked(frame, speech)];
      var audio := chunker.Push(frame, speech);
      if audio == None {
        return None;
      }
      text := TranscribeAndAppend(audio.value, whisper, FromFeed);
    }

    method FlushFinal(whisper: Whisper)
      requires Valid()
      modifies this, chunker
      ensures Valid() && State() == FlushFinalSpec(old(State()), whisper)
    {
      hide FlushSpec;
      var audio := chunker.Flush();
      if audio != None && |audio.value| > 0 {
        var _ := TranscribeAndAppend(audio.value, whisper, FromFinalFlush);
      }
    }

    /** The precondition on the last chunk is the assertion the code makes here. */
    method StripStopPhrase(matched: string, remainder: string)
      requires Valid() && chunkLog != []
      requires chunksTranscribed != [] && Last(chunksTranscribed) == matched
      modifies this
      ensures Valid() && State() == StripSpec(old(State()), matched, remainder)
    {
      chunksTranscribed := chunksTranscribed[..|chunksTranscribed| - 1];
      if remainder != "" {
        chunksTranscribed := chunksTranscribed + [remainder];
      }
      var k := |chunkLog| - 1;
      chunkLog := chunkLog[k := chunkLog[k].(kept := if remainder != "" then Some(remainder) else None)];
      chunkLog := chunkLog[k := chunkLog[k].(stopMatched := true)];
    }

    method TranscriptText() returns (text: string)
      requires Valid()
      ensures text == FullTranscript(State())
    {
      return Text.Join(NonEmpty(chunksTranscribed));
    }

    method MarkStopPhraseNearMiss()
      requires Valid()
      modifies this
      ensures Valid() && State() == MarkNearMiss(old(State()))
    {
      if chunkLog != [] {
        var k := |chunkLog| - 1;
        chunkLog := chunkLog[k := chunkLog[k].(nearMiss := true)];
      }
    }
  }

  // What holds of every dictation.

  /** The transcripts that were kept, in the order of the log. */
  function KeptTexts(log: seq<Record>): seq<string> {
    if log == [] then [] else
      KeptTexts(log[..|log| - 1]) + match Last(log).kept case None => [] case Some(t) => [t]
  }

  /** Each record names the place of its audio in what was fed, and the places follow one another. */
  ghost predicate Placed(log: seq<Record>, fed: seq<Marked>) {
    forall k :: 0 <= k < |log| ==>
      && 0 <= log[k].start < log[k].end <= |fed|
      && log[k].audio == Unmark(fed[log[k].start..log[k].end])
      && (k > 0 ==> log[k - 1].end <= log[k].start)
  }

  function LoggedUpTo(log: seq<Record>): nat {
    if log == [] then 0 else Last(log).end
  }

  /** The assembly is what the log says was kept, and the log says where each chunk lies. */
  ghost predicate Recorded(s: Session) {
    s.chunks == KeptTexts(s.log) && Placed(s.log, s.fed)
  }

  /** The chunker has heard exactly what was fed, and holds only what comes behind the log. */
  ghost predicate Listening(s: Session) {
    s.chunker == After(s.fed, |s.fed|) && LoggedUpTo(s.log) <= HeldFrom(s.fed, |s.fed|)
  }

  lemma NewRuns()
    ensures Recorded(NewSession) && Listening(NewSession)
  {
  }

  /** Another record whose audio ends where the feed ends. */
  lemma PlacedAppend(log: seq<Record>, fed: seq<Marked>, r: Record)
    requires Placed(log, fed) && LoggedUpTo(log) <= r.start < r.end == |fed|
    requires r.audio == Unmark(fed[r.start..r.end])
    ensures Placed(log + [r], fed)
  {
  }

  lemma PlacedGrows(log: seq<Record>, fed: seq<Marked>, m: Marked)
    requires Placed(log, fed)
    ensures Placed(log, fed + [m])
  {
    forall k | 0 <= k < |log|
      ensures fed[log[k].start..log[k].end] == (fed + [m])[log[k].start..log[k].end]
    {
    }
  }

  lemma KeptAppend(log: seq<Record>, r: Record)
    ensures KeptTexts(log + [r]) == KeptTexts(log) + match r.kept case None => [] case Some(t) => [t]
  {
    assert (log + [r])[..|log|] == log;
  }

  /** A run only looks at the frames before it. */
  lemma {:induction false} AfterPrefix(a: seq<Marked>, b: seq<Marked>, i: nat)
    requires i <= |a| && i <= |b| && a[..i] == b[..i]
    ensures After(a, i) == After(b, i)
  {
    hide PushSpec;
    if i > 0 {
      assert a[i - 1] == a[..i][i - 1] == b[..i][i - 1] == b[i - 1];
      assert a[..i - 1] == a[..i][..i - 1] == b[..i - 1];
      AfterPrefix(a, b, i - 1);
    }
  }

  lemma FeedChunker(fed: seq<Marked>, m: Marked)
    ensures PushSpec(After(fed, |fed|), m).0 == After(fed + [m], |fed| + 1)
    ensures PushSpec(After(fed, |fed|), m).1 == EmissionAt(fed + [m], |fed|)
    ensures HeldFrom(fed + [m], |fed|) == HeldFrom(fed, |fed|)
  {
    hide PushSpec;
    AfterPrefix(fed, fed + [m], |fed|);
  }

  lemma TranscribeKeeps(s: Session, audio: seq<Frame>, t: Transcript, source: Source)
    requires Recorded(s) && 0 < |audio| <= |s.fed| - LoggedUpTo(s.log)
    requires audio == Unmark(s.fed[|s.fed| - |audio|..])
    ensures Recorded(TranscribeSpec(s, audio, t, source))
    ensures LoggedUpTo(TranscribeSpec(s, audio, t, source).log) == |s.fed|
  {
    hide Placed, KeptTexts;
    var end := |s.fed|;
    var r := Record(source, end - |audio|, end, audio, t.raw, if t.passes then Some(t.raw) else None, false, false);
    assert s.fed[r.start..r.end] == s.fed[|s.fed| - |audio|..];
    PlacedAppend(s.log, s.fed, r);
    KeptAppend(s.log, r);
    assert s.chunks + [] == s.chunks;
    assert TranscribeSpec(s, audio, t, source).log == s.log + [r];
  }

  /** What the chunker lets out lies at the end of what was fed, behind the log. */
  lemma LetOut(s: Session, m: Marked)
    requires Listening(s)
    ensures var fed := s.fed + [m];
      && PushSpec(s.chunker, m).0 == After(fed, |fed|)
      && LoggedUpTo(s.log) <= HeldFrom(fed, |fed|)
      && match PushSpec(s.chunker, m).1.Audio()
         case None => true
         case Some(audio) =>
           && 0 < |audio| <= |fed| - LoggedUpTo(s.log)
           && audio == Unmark(fed[|fed| - |audio|..])
           && HeldFrom(fed, |fed|) == |fed|
  {
    hide PushSpec, After;
    var fed := s.fed + [m];
    FeedChunker(s.fed, m);
    OneMoreFrame(fed, |s.fed|);
    KeptIsNotEmpty(fed, |s.fed|);
  }

  /** One more frame keeps the assembly, the log and the chunker in step. */
  lemma FeedKeeps(s: Session, m: Marked, whisper: Whisper)
    requires Recorded(s) && Listening(s)
    ensures var r := FeedSpec(s, m, whisper).0;
      Recorded(r) && Listening(r) && r.fed == s.fed + [m]
  {
    hide PushSpec, After, Placed, KeptTexts, HeldFrom;
    LetOut(s, m);
    PlacedGrows(s.log, s.fed, m);
    var s1 := s.(chunker := PushSpec(s.chunker, m).0, fed := s.fed + [m]);
    match PushSpec(s.chunker, m).1.Audio()
    case None =>
    case Some(audio) =>
      TranscribeKeeps(s1, audio, whisper(audio), FromFeed);
  }

  lemma KeptIsNotEmpty(input: seq<Marked>, i: nat)
    requires i < |input|
    ensures EmissionAt(input, i).Kept? ==> EmissionAt(input, i).chunk != []
  {
    EmissionShape(input, i);
  }

  /** The final flush keeps the assembly and the log in step. */
  lemma FlushKeeps(s: Session, whisper: Whisper)
    requires Recorded(s) && Listening(s)
    ensures Recorded(FlushFinalSpec(s, whisper)) && FlushFinalSpec(s, whisper).fed == s.fed
  {
    hide After, Placed, KeptTexts, CutAll;
    HeldIsSuffix(s.fed, |s.fed|);
    var held := s.chunker.pending;
    var s1 := s.(chunker := FlushSpec(s.chunker).0);
    FlushEmits(s.chunker);
    match FlushSpec(s.chunker).1.Audio()
    case None =>
    case Some(audio) =>
      if audio != [] {
        TranscribeKeeps(s1, audio, whisper(audio), FromFinalFlush);
      }
  }

  lemma FlushEmits(c: Chunker)
    ensures FlushSpec(c).1.Audio() == None || FlushSpec(c).1.Audio() == Some(Unmark(c.pending))
  {
  }

  /** Stripping the stop phrase keeps the assembly and the log in step. */
  lemma StripKeeps(s: Session, matched: string, remainder: string)
    requires Recorded(s) && s.chunks != [] && s.log != []
    requires Last(s.chunks) == matched && Last(s.log).kept == Some(matched)
    ensures Recorded(StripSpec(s, matched, remainder))
  {
    var k, r := |s.log| - 1, StripSpec(s, matched, remainder);
    assert r.log[..k] == s.log[..k];
    assert s.chunks[..|s.chunks| - 1] == KeptTexts(s.log[..k]);
  }

  /** Marking a near miss keeps the assembly and the log in step. */
  lemma MarkKeeps(s: Session)
    requires Recorded(s)
    ensures Recorded(MarkNearMiss(s)) && LoggedUpTo(MarkNearMiss(s).log) == LoggedUpTo(s.log)
  {
    if s.log != [] {
      assert MarkNearMiss(s).log[..|s.log| - 1] == s.log[..|s.log| - 1];
    }
  }
}
