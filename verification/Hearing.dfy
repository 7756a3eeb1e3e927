// What a dictation hands on, said by what was heard: every chunk the chunker let through is in the
// log with what the transcriber made of it, and texts and silence decide when a dictation ends.
module Hearing {
  import opened Wrappers
  import opened Audio
  import opened VadChunker
  import opened Dictation
  import opened Controller
  import opened ControllerRuns
  import StopPhrase
  import Text

  // What was heard, and what it was heard to say.

  function Marks(heard: seq<Tick>): (b: seq<Marked>)
    ensures |b| == |heard| && forall i :: 0 <= i < |b| ==> b[i] == Marked(heard[i].frame, heard[i].speech)
  {
    seq(|heard|, i requires 0 <= i < |heard| => Marked(heard[i].frame, heard[i].speech))
  }

  /** A chunk's audio and what the transcriber made of it. */
  datatype Chunk = Chunk(audio: seq<Frame>, said: Transcript)

  /** The chunks let through within the first n frames, each with what the transcriber made of it. */
  function Chunks(heard: seq<Tick>, n: nat): seq<Chunk>
    requires n <= |heard|
  {
    if n == 0 then []
    else
      Chunks(heard, n - 1) +
      match EmissionAt(Marks(heard), n - 1).Audio()
      case None => []
      case Some(audio) => [Chunk(audio, heard[n - 1].whisper(audio))]
  }

  /** What the final flush lets through, transcribed when the dictation ends. */
  function FlushChunk(heard: seq<Tick>, whisper: Whisper): seq<Chunk> {
    match FlushSpec(After(Marks(heard), |heard|)).1.Audio()
    case None => []
    case Some(audio) => [Chunk(audio, whisper(audio))]
  }

  function ChunkAudios(chunks: seq<Chunk>): (audios: seq<seq<Frame>>)
    ensures |audios| == |chunks| && forall k :: 0 <= k < |chunks| ==> audios[k] == chunks[k].audio
  {
    seq(|chunks|, k requires 0 <= k < |chunks| => chunks[k].audio)
  }

  lemma {:induction false} ChunksAreKept(heard: seq<Tick>, n: nat)
    requires n <= |heard|
    ensures ChunkAudios(Chunks(heard, n)) == KeptAudio(Marks(heard), n)
  {
    hide EmissionAt;
    if n > 0 {
      ChunksAreKept(heard, n - 1);
    }
  }

  /** A record says what the transcriber made of a chunk: its text, and whether it was kept. */
  ghost predicate Tells(r: Record, c: Chunk, source: Source) {
    && r.source == source && r.audio == c.audio && r.raw == c.said.raw && !r.stopMatched
    && r.kept == (if c.said.passes then Some(c.said.raw) else None)
  }

  /** The log tells of the chunks of the feed, one by one. */
  ghost predicate LogTells(log: seq<Record>, chunks: seq<Chunk>) {
    |log| == |chunks| && forall k :: 0 <= k < |log| ==> Tells(log[k], chunks[k], FromFeed)
  }

  /** The log leaves nothing out of what was let through. */
  lemma LogIsComplete(log: seq<Record>, heard: seq<Tick>)
    requires LogTells(log, Chunks(heard, |heard|))
    ensures |log| == |KeptAudio(Marks(heard), |heard|)|
    ensures forall k :: 0 <= k < |log| ==> log[k].audio == KeptAudio(Marks(heard), |heard|)[k]
  {
    ChunksAreKept(heard, |heard|);
    var audios := ChunkAudios(Chunks(heard, |heard|));
    assert forall k :: 0 <= k < |log| ==> Tells(log[k], Chunks(heard, |heard|)[k], FromFeed);
  }

  /** A dictation that has heard these frames and told all of them. */
  ghost predicate HasTold(s: Session, heard: seq<Tick>) {
    s.fed == Marks(heard) && LogTells(s.log, Chunks(heard, |heard|))
  }

  // One more frame.

  lemma MarksAppend(heard: seq<Tick>, tick: Tick)
    ensures Marks(heard + [tick]) == Marks(heard) + [Marked(tick.frame, tick.speech)]
  {
  }

  lemma SamePrefix(a: seq<Tick>, b: seq<Tick>, n: nat)
    requires 0 < n <= |a| && n <= |b| && a[..n] == b[..n]
    ensures a[n - 1] == b[n - 1] && a[..n - 1] == b[..n - 1] && Marks(a)[..n - 1] == Marks(b)[..n - 1]
  {
    assert a[n - 1] == a[..n][n - 1] == b[..n][n - 1] == b[n - 1];
    assert a[..n - 1] == a[..n][..n - 1] == b[..n - 1];
    forall i | 0 <= i < n - 1
      ensures a[i] == b[i]
    {
      assert a[i] == a[..n - 1][i] == b[..n - 1][i];
    }
  }

  lemma {:induction false} ChunksPrefix(a: seq<Tick>, b: seq<Tick>, n: nat)
    requires n <= |a| && n <= |b| && a[..n] == b[..n]
    ensures Chunks(a, n) == Chunks(b, n)
  {
    hide PushSpec, After;
    if n > 0 {
      SamePrefix(a, b, n);
      ChunksPrefix(a, b, n - 1);
      AfterPrefix(Marks(a), Marks(b), n - 1);
    }
  }

  lemma ChunksAppend(heard: seq<Tick>, tick: Tick)
    ensures var m := Marked(tick.frame, tick.speech);
      Chunks(heard + [tick], |heard| + 1) == Chunks(heard, |heard|) +
        match PushSpec(After(Marks(heard), |heard|), m).1.Audio()
        case None => []
        case Some(audio) => [Chunk(audio, tick.whisper(audio))]
  {
    hide PushSpec, After, EmissionAt;
    var more := heard + [tick];
    MarksAppend(heard, tick);
    FeedChunker(Marks(heard), Marked(tick.frame, tick.speech));
    assert more[..|heard|] == heard[..|heard|];
    ChunksPrefix(more, heard, |heard|);
  }

  lemma TellsAppend(log: seq<Record>, chunks: seq<Chunk>, r: Record, c: Chunk)
    requires LogTells(log, chunks) && Tells(r, c, FromFeed)
    ensures LogTells(log + [r], chunks + [c])
  {
    hide Tells;
  }

  /** Feeding tells of the chunk that comes out, if one does. */
  lemma FeedTells(s: Session, heard: seq<Tick>, tick: Tick)
    requires HasTold(s, heard) && s.chunker == After(s.fed, |s.fed|)
    ensures HasTold(FeedSpec(s, Marked(tick.frame, tick.speech), tick.whisper).0, heard + [tick])
  {
    hide PushSpec, After, Chunks, LogTells;
    MarksAppend(heard, tick);
    ChunksAppend(heard, tick);
    var m := Marked(tick.frame, tick.speech);
    match PushSpec(s.chunker, m).1.Audio()
    case None =>
      assert Chunks(heard, |heard|) + [] == Chunks(heard, |heard|);
    case Some(audio) =>
      var r := FeedSpec(s, m, tick.whisper).0;
      TellsAppend(s.log, Chunks(heard, |heard|), r.log[|s.log|], Chunk(audio, tick.whisper(audio)));
      assert r.log == s.log + [r.log[|s.log|]];
  }

  /** Marking a near miss tells no less. */
  lemma MarkTells(s: Session, heard: seq<Tick>)
    requires HasTold(s, heard)
    ensures HasTold(MarkNearMiss(s), heard)
  {
  }

  // The dictation that is running.

  /** What the dictation running after i events has heard. */
  function HeardSince(events: seq<Event>, i: nat): seq<Tick>
    requires i <= |events|
  {
    if i == 0 || LiveAfter(events, i).session.None? || LiveAfter(events, i - 1).session.None? then []
    else HeardSince(events, i - 1) + if events[i - 1].Heard? then [events[i - 1].tick] else []
  }

  /** What goes on after a text is the session the feed left, but for its hold and the mark of a near miss. */
  lemma TextTells(s: Session, text: string, tick: Tick, heard: seq<Tick>)
    requires HasTold(s, heard) && s.chunks != [] && s.log != [] && Last(s.chunks) == text
    ensures LiveText(s, text, tick).GoesOn? ==> HasTold(LiveText(s, text, tick).session, heard)
  {
    hide StopMatch, LogTells;
    MarkTells(s.(hold := false), heard);
    MarkTells(s.(hold := true), heard);
  }

  lemma CaptureTells(s: Session, tick: Tick, heard: seq<Tick>)
    requires HasTold(s, heard) && s.chunker == After(s.fed, |s.fed|)
    ensures LiveCapture(s, tick).GoesOn? ==> HasTold(LiveCapture(s, tick).session, heard + [tick])
  {
    hide FeedSpec, LiveText, HasTold, FlushFinalSpec, FullTranscript;
    FeedTells(s, heard, tick);
    var (s1, partial) := FeedSpec(s, Marked(tick.frame, tick.speech), tick.whisper);
    if partial.Some? {
      TextTells(s1, partial.value, tick, heard + [tick]);
    }
  }

  lemma NewTells()
    ensures HasTold(NewSession, [])
  {
  }

  /** In every reachable state a running dictation's log tells of every chunk let through since it began. */
  lemma {:induction false} RunningTells(events: seq<Event>, i: nat)
    requires i <= |events|
    ensures var l := LiveAfter(events, i); l.session.Some? ==> HasTold(l.session.value, HeardSince(events, i))
  {
    hide LiveEvent, HasTold, SessionFits, ReportFits, WakeFits;
    if i > 0 {
      RunningTells(events, i - 1);
      EveryRunFits(events, i - 1);
      EventTells(LiveAfter(events, i - 1), events[i - 1], Stream(events, i - 1), HeardSince(events, i - 1));
    }
  }

  lemma EventTells(l: Live, e: Event, stream: seq<Frame>, heard: seq<Tick>)
    requires Fits(l, stream) && (l.session.Some? ==> HasTold(l.session.value, heard))
    ensures var r := LiveEvent(l, e);
      r.session.Some? ==>
        HasTold(r.session.value, if l.session.None? then [] else heard + if e.Heard? then [e.tick] else [])
  {
    hide LiveCapture, HasTold, ReportFits, WakeFits, Recorded, After;
    NewTells();
    if e.Heard? && l.mode == Capturing {
      CaptureTells(l.session.value, e.tick, heard);
    }
    assert heard + [] == heard;
  }

  // The dictations that were handed on.

  /** It ended with a stop variant: the last chunk was closed by a pause and ends with it, and its record
      keeps the remainder; the other records tell of the chunks before. */
  ghost predicate EndedByStop(log: seq<Record>, heard: seq<Tick>, v: string) {
    var chunks := Chunks(heard, |heard|);
    && heard != [] && |log| == |chunks| > 0 && v in StopPhrase.STOP_PHRASE_VARIANTS
    && (forall k :: 0 <= k < |log| - 1 ==> Tells(log[k], chunks[k], FromFeed))
    && EmissionAt(Marks(heard), |heard| - 1).Kept? && EmissionAt(Marks(heard), |heard| - 1).reason == Silence
    && var r, c := log[|log| - 1], chunks[|log| - 1];
    && r.source == FromFeed && r.audio == c.audio && r.raw == c.said.raw && r.stopMatched && c.said.passes
    && StopPhrase.Ends(StopPhrase.Normalize(r.raw), v)
    && var rest := StopPhrase.Remainder(r.raw, v);
    r.kept == if rest == "" then None else Some(rest)
  }

  /** It ended in silence: the log tells of all chunks, and then of what the final flush let through. */
  ghost predicate EndedInSilence(log: seq<Record>, heard: seq<Tick>, whisper: Whisper) {
    var chunks, flushed := Chunks(heard, |heard|), FlushChunk(heard, whisper);
    && |log| == |chunks| + |flushed|
    && LogTells(log[..|chunks|], chunks)
    && forall k :: 0 <= k < |flushed| ==> Tells(log[|chunks| + k], flushed[k], FromFinalFlush)
  }

  /** A report is the whole of a stretch of the stream: its text joins what its log kept, and the log is
      complete and says where in the stream each chunk was. */
  ghost predicate TellsAll(r: Report, stream: seq<Frame>, a: nat, heard: seq<Tick>) {
    && r.text == Text.Join(NonEmpty(KeptTexts(r.log)))
    && a + |heard| <= |stream| && Unmark(Marks(heard)) == stream[a..a + |heard|]
    && PlacedFrom(r.log, stream, a)
    && ((exists v :: EndedByStop(r.log, heard, v)) || (exists whisper: Whisper :: EndedInSilence(r.log, heard, whisper)))
  }

  ghost predicate IsWhole(r: Report, stream: seq<Frame>) {
    exists a: nat, heard: seq<Tick> :: TellsAll(r, stream, a, heard)
  }

  lemma WholeLonger(r: Report, stream: seq<Frame>, frame: Frame)
    requires IsWhole(r, stream)
    ensures IsWhole(r, stream + [frame])
  {
    hide KeptTexts, EndedByStop, EndedInSilence;
    var a: nat, heard: seq<Tick> :| TellsAll(r, stream, a, heard);
    var longer := stream + [frame];
    assert longer[a..a + |heard|] == stream[a..a + |heard|];
    forall k | 0 <= k < |r.log|
      ensures r.log[k].audio == longer[a + r.log[k].start..a + r.log[k].end]
    {
      assert longer[a + r.log[k].start..a + r.log[k].end] == stream[a + r.log[k].start..a + r.log[k].end];
    }
    assert TellsAll(r, longer, a, heard);
  }

  lemma FlushTells(s: Session, heard: seq<Tick>, whisper: Whisper)
    requires HasTold(s, heard) && s.chunker == After(s.fed, |s.fed|)
    ensures EndedInSilence(FlushFinalSpec(s, whisper).log, heard, whisper)
  {
    hide FlushSpec, After, Chunks;
    FlushIsNotEmpty(s.chunker);
    var log := FlushFinalSpec(s, whisper).log;
    assert log[..|s.log|] == s.log;
  }

  lemma FlushIsNotEmpty(c: Chunker)
    ensures FlushSpec(c).1.Audio().Some? ==> FlushSpec(c).1.Audio().value != []
  {
    FlushShape(c);
  }

  /** What FeedSpec returned was the last chunk's text, and why the chunk was closed is what the chunker says. */
  lemma TextIsLastChunk(s: Session, heard: seq<Tick>, tick: Tick)
    requires HasTold(s, heard) && s.chunker == After(s.fed, |s.fed|)
    ensures var (s1, text) := FeedSpec(s, Marked(tick.frame, tick.speech), tick.whisper);
      var more := heard + [tick]; var em := EmissionAt(Marks(more), |heard|);
      text.Some? ==>
        && em.Kept? && s1.chunker.lastCut == Some(em.reason) && s1.chunker.pending == []
        && s1.log != [] && s1.chunks == s.chunks + [text.value]
        && var c := Chunk(Unmark(em.chunk), tick.whisper(Unmark(em.chunk)));
        && c.said.passes && c.said.raw == text.value
        && |Chunks(more, |more|)| > 0 && Chunks(more, |more|)[|Chunks(more, |more|)| - 1] == c
  {
    hide PushSpec, After, EmissionAt, Chunks;
    var m := Marked(tick.frame, tick.speech);
    MarksAppend(heard, tick);
    FeedChunker(Marks(heard), m);
    ChunksAppend(heard, tick);
    KeptTellsReason(s.chunker, m);
  }

  lemma StopTells(s: Session, heard: seq<Tick>, tick: Tick, v: string)
    requires HasTold(s, heard) && s.chunker == After(s.fed, |s.fed|)
    requires v in StopPhrase.STOP_PHRASE_VARIANTS
    requires var (s1, text) := FeedSpec(s, Marked(tick.frame, tick.speech), tick.whisper);
      text.Some? && s1.chunker.lastCut == Some(Silence) && StopPhrase.Ends(StopPhrase.Normalize(text.value), v)
    ensures var (s1, text) := FeedSpec(s, Marked(tick.frame, tick.speech), tick.whisper);
      EndedByStop(StripSpec(s1, text.value, StopPhrase.Remainder(text.value, v)).log, heard + [tick], v)
  {
    hide FeedSpec, EmissionAt, Chunks, StopPhrase.Ends, StopPhrase.Normalize, StopPhrase.Remainder;
    FeedTells(s, heard, tick);
    TextIsLastChunk(s, heard, tick);
    var s1 := FeedSpec(s, Marked(tick.frame, tick.speech), tick.whisper).0;
    var chunks := Chunks(heard + [tick], |heard| + 1);
    assert forall k :: 0 <= k < |s1.log| ==> Tells(s1.log[k], chunks[k], FromFeed);
  }

  lemma VariantsAreAll(v: string)
    ensures v in StopPhrase.STOP_PHRASE_VARIANTS <==> v in STOP_VARIANTS
    ensures forall k :: 0 <= k < |STOP_VARIANTS| ==> STOP_VARIANTS[k] in StopPhrase.STOP_PHRASE_VARIANTS
  {
  }

  /** The search finds a variant if and only if the text ends with it, and leaves the remainder. */
  lemma StopFound(text: string, v: string)
    requires v in StopPhrase.STOP_PHRASE_VARIANTS && StopPhrase.Ends(StopPhrase.Normalize(text), v)
    ensures StopPhrase.MatchStopPhrase(text, STOP_VARIANTS) == (true, StopPhrase.Remainder(text, v))
  {
    hide StopPhrase.MatchStopPhrase, StopPhrase.Ends, StopPhrase.Normalize, StopPhrase.Remainder;
    VariantsAreAll(v);
    StopPhrase.SearchMeaning(text, STOP_VARIANTS);
    var k :| 0 <= k < |STOP_VARIANTS| && STOP_VARIANTS[k] == v;
  }

  ghost predicate IsStop(text: string) {
    exists v :: v in StopPhrase.STOP_PHRASE_VARIANTS && StopPhrase.Ends(StopPhrase.Normalize(text), v)
  }

  ghost predicate IsHold(text: string) {
    exists v :: v in StopPhrase.HOLD_PHRASE_VARIANTS && StopPhrase.Ends(StopPhrase.Normalize(text), v)
  }

  lemma StopMissed(text: string)
    requires !IsStop(text)
    ensures StopPhrase.MatchStopPhrase(text, STOP_VARIANTS) == (false, text)
  {
    hide StopPhrase.MatchStopPhrase, StopPhrase.Ends, StopPhrase.Normalize, StopPhrase.Remainder;
    VariantsAreAll("");
    StopPhrase.SearchMeaning(text, STOP_VARIANTS);
  }

  // What decides, in every reachable state.

  /** The chunk that comes out with this frame, if one is let through. */
  function ChunkOut(s: Session, tick: Tick): Emission {
    PushSpec(s.chunker, Marked(tick.frame, tick.speech)).1
  }

  function Transcribed(em: Emission, tick: Tick): Transcript
    requires em.Kept?
  {
    tick.whisper(Unmark(em.chunk))
  }

  /** A chunk comes out with this frame, and its transcript passes the filter. */
  predicate BringsText(s: Session, tick: Tick) {
    ChunkOut(s, tick).Kept? && Transcribed(ChunkOut(s, tick), tick).passes
  }

  lemma FedText(s: Session, tick: Tick)
    ensures var (s1, text) := FeedSpec(s, Marked(tick.frame, tick.speech), tick.whisper);
      && s1.hold == s.hold && s1.fed == s.fed + [Marked(tick.frame, tick.speech)]
      && s1.chunker == PushSpec(s.chunker, Marked(tick.frame, tick.speech)).0
      && (text.Some? <==> BringsText(s, tick))
      && (text.None? ==> s1.chunks == s.chunks)
      && (text.Some? ==>
            (text.value == Transcribed(ChunkOut(s, tick), tick).raw && s1.chunks == s.chunks + [text.value]
             && s1.chunker == Chunker([], Some(ChunkOut(s, tick).reason))
             && |s1.log| == |s.log| + 1 && s1.log[..|s.log|] == s.log && !s1.log[|s.log|].nearMiss))
  {
    hide PushSpec;
    KeptTellsReason(s.chunker, Marked(tick.frame, tick.speech));
  }

  /** The chunks before the last, and what is left of the last. */
  function WithRemainder(chunks: seq<string>, rest: string): seq<string> {
    if rest == "" then chunks else chunks + [rest]
  }

  /** A text that ends with a stop variant, in a chunk closed by a pause, ends the dictation: the controller
      is idle, without a session and with the wake model reset, and exactly one more transcript is handed
      on, the earlier chunks and what the variant leaves of the text. */
  lemma StopEndsCapture(s: Session, tick: Tick, v: string)
    requires BringsText(s, tick) && ChunkOut(s, tick).reason == Silence
    requires v in StopPhrase.STOP_PHRASE_VARIANTS
    requires StopPhrase.Ends(StopPhrase.Normalize(Transcribed(ChunkOut(s, tick), tick).raw), v)
    ensures var text := Transcribed(ChunkOut(s, tick), tick).raw;
      var (s1, _) := FeedSpec(s, Marked(tick.frame, tick.speech), tick.whisper);
      && s1.chunks != [] && s1.log != [] && Last(s1.chunks) == text
      && var s2 := StripSpec(s1, text, StopPhrase.Remainder(text, v));
      && LiveCapture(s, tick) == Ends(ReportOf(s2))
      && s2.chunks == WithRemainder(s.chunks, StopPhrase.Remainder(text, v)) && s2.fed == s1.fed
  {
    hide PushSpec, FeedSpec, NonEmpty, StopPhrase.Ends, StopPhrase.Normalize, StopPhrase.Remainder, StopPhrase.MatchStopPhrase, StopPhrase.MatchHoldPhrase;
    var (s1, text) := FeedSpec(s, Marked(tick.frame, tick.speech), tick.whisper);
    FedText(s, tick);
    StopFound(text.value, v);
    assert s1.chunks[..|s1.chunks| - 1] == s.chunks;
    assert s.chunks + [] == s.chunks;
  }

  lemma StopEnds(events: seq<Event>, i: nat, v: string)
    requires i < |events| && events[i].Heard? && LiveAfter(events, i).mode == Capturing && LiveAfter(events, i).session.Some?
    requires var s, tick := LiveAfter(events, i).session.value, events[i].tick;
      && BringsText(s, tick) && ChunkOut(s, tick).reason == Silence && v in StopPhrase.STOP_PHRASE_VARIANTS
      && StopPhrase.Ends(StopPhrase.Normalize(Transcribed(ChunkOut(s, tick), tick).raw), v)
    ensures var l, next := LiveAfter(events, i), LiveAfter(events, i + 1);
      var s, tick := l.session.value, events[i].tick;
      && next.mode == Idle && next.session == None && next.wake == []
      && |next.reports| == |l.reports| + 1 && next.reports[..|l.reports|] == l.reports
      && next.reports[|l.reports|].text ==
           Text.Join(NonEmpty(WithRemainder(s.chunks, StopPhrase.Remainder(Transcribed(ChunkOut(s, tick), tick).raw, v))))
  {
    hide LiveCapture, ChunkOut, BringsText, Transcribed, StopPhrase.Ends, StopPhrase.Normalize, StopPhrase.Remainder, NonEmpty;
    StopEndsCapture(LiveAfter(events, i).session.value, events[i].tick, v);
  }

  lemma TextGoesOn(s: Session, tick: Tick)
    requires BringsText(s, tick) && !(ChunkOut(s, tick).reason == Silence && IsStop(Transcribed(ChunkOut(s, tick), tick).raw))
    ensures var text, silence := Transcribed(ChunkOut(s, tick), tick).raw, ChunkOut(s, tick).reason == Silence;
      match LiveCapture(s, tick)
      case Ends(_) => false
      case GoesOn(r) =>
        && r.chunks == s.chunks + [text] && r.chunker.pending == []
        && (r.hold <==> silence && IsHold(text))
        && r.log != [] && (Last(r.log).nearMiss <==> silence && tick.nearMiss(text))
  {
    hide PushSpec, FeedSpec, StopPhrase.Ends, StopPhrase.Normalize, StopPhrase.MatchStopPhrase, FullTranscript;
    var (s1, text) := FeedSpec(s, Marked(tick.frame, tick.speech), tick.whisper);
    FedText(s, tick);
    if ChunkOut(s, tick).reason == Silence {
      StopMissed(text.value);
    }
  }

  /** Any other text goes on: it is appended, the dictation is held if and only if the chunk was closed by a
      pause and the text ends with a hold variant, and nothing is handed on. */
  lemma OtherTextGoesOn(events: seq<Event>, i: nat)
    requires i < |events| && events[i].Heard? && LiveAfter(events, i).mode == Capturing && LiveAfter(events, i).session.Some?
    requires var s, tick := LiveAfter(events, i).session.value, events[i].tick;
      && BringsText(s, tick)
      && !(ChunkOut(s, tick).reason == Silence && IsStop(Transcribed(ChunkOut(s, tick), tick).raw))
    ensures var l, next := LiveAfter(events, i), LiveAfter(events, i + 1);
      var s, tick := l.session.value, events[i].tick;
      var text, silence := Transcribed(ChunkOut(s, tick), tick).raw, ChunkOut(s, tick).reason == Silence;
      && next.mode == Capturing && next.session.Some? && next.reports == l.reports && next.wake == l.wake
      && next.session.value.chunks == s.chunks + [text]
      && (next.session.value.hold <==> silence && IsHold(text))
      && next.session.value.log != [] && (Last(next.session.value.log).nearMiss <==> silence && tick.nearMiss(text))
  {
    hide LiveCapture, ChunkOut, BringsText, Transcribed, IsHold, IsStop;
    TextGoesOn(LiveAfter(events, i).session.value, events[i].tick);
  }

  /** A frame from which no text comes ends the dictation if and only if it makes the silence as long as 50
      seconds with a hold, 10 seconds before anything was transcribed, and 2.7 seconds otherwise, in frames
      of 512 samples at 16 kHz; then what is still held is flushed. */
  lemma SilenceDecides(events: seq<Event>, i: nat)
    requires i < |events| && events[i].Heard? && LiveAfter(events, i).mode == Capturing && LiveAfter(events, i).session.Some?
    requires !BringsText(LiveAfter(events, i).session.value, events[i].tick)
    ensures var l, next := LiveAfter(events, i), LiveAfter(events, i + 1);
      var s, m := l.session.value, Marked(events[i].tick.frame, events[i].tick.speech);
      var limit := if s.hold then 50 * 16_000 else if s.chunks == [] then 10 * 16_000 else 43_200;
      if SilenceTail(PushSpec(s.chunker, m).0.pending) * 512 >= limit then
        && next.mode == Idle && next.session == None && next.wake == []
        && |next.reports| == |l.reports| + 1 && next.reports[..|l.reports|] == l.reports
        && next.reports[|l.reports|] == ReportOf(FlushFinalSpec(FeedSpec(s, m, events[i].tick.whisper).0, events[i].tick.whisper))
      else
        && next.mode == Capturing && next.session.Some? && next.reports == l.reports && next.wake == l.wake
        && next.session.value.chunks == s.chunks && next.session.value.hold == s.hold
  {
    hide FeedSpec, LiveText, PushSpec, FlushFinalSpec, FullTranscript, BringsText, SilenceTail, ReportOf;
    FedText(LiveAfter(events, i).session.value, events[i].tick);
  }

  /** The frames heard outside cancel windows since the start, or since the last dictation began. */
  function HeardOpenly(events: seq<Event>, i: nat): seq<Frame>
    requires i <= |events|
  {
    if i == 0 then []
    else if !events[i - 1].Heard? || LiveAfter(events, i - 1).mode == CancelArmed then HeardOpenly(events, i - 1)
    else if LiveAfter(events, i - 1).mode == Idle && LiveAfter(events, i).mode == Capturing then []
    else HeardOpenly(events, i - 1) + [events[i - 1].tick.frame]
  }

  function LastFrames(heard: seq<Frame>): seq<Frame> {
    if |heard| <= 62 then heard else heard[|heard| - 62..]
  }

  lemma OneMoreRecent(heard: seq<Frame>, frame: Frame)
    ensures PushPreroll(LastFrames(heard), frame) == LastFrames(heard + [frame])
  {
  }

  lemma PrerollStep(l: Live, tick: Tick, now: int)
    ensures LiveFrame(l, tick, now).preroll ==
      if l.mode == CancelArmed then l.preroll
      else if l.mode == Idle && LiveFrame(l, tick, now).mode == Capturing then []
      else PushPreroll(l.preroll, tick.frame)
  {
    hide LiveCapture, PushPreroll;
  }

  /** What a wake word is verified against is the last two seconds of them: 62 frames, or all if fewer. */
  lemma {:induction false} PrerollIsRecent(events: seq<Event>, i: nat)
    requires i <= |events|
    ensures LiveAfter(events, i).preroll == LastFrames(HeardOpenly(events, i))
  {
    hide LiveFrame, PushPreroll, LastFrames;
    if i == 0 {
      NoneRecent();
    } else {
      PrerollIsRecent(events, i - 1);
      if events[i - 1].Heard? {
        PrerollStep(LiveAfter(events, i - 1), events[i - 1].tick, events[i - 1].now);
        OneMoreRecent(HeardOpenly(events, i - 1), events[i - 1].tick.frame);
        NoneRecent();
      }
    }
  }

  lemma NoneRecent()
    ensures LastFrames([]) == []
  {
  }

  /** While idle every frame is given to the wake model, which is not reset; a new dictation begins if and
      only if the wake word is scored and verified. */
  lemma WakeDecides(events: seq<Event>, i: nat)
    requires i < |events| && events[i].Heard? && LiveAfter(events, i).mode == Idle
    ensures var l, next, tick := LiveAfter(events, i), LiveAfter(events, i + 1), events[i].tick;
      && next.wake == l.wake + [tick.frame] && next.reports == l.reports
      && (next.mode == Capturing <==> tick.wakeHit && tick.verified)
      && (next.mode == Capturing ==> next.session == Some(Session([], [], Chunker([], None), [], false)))
      && (next.mode != Capturing ==> next.mode == Idle && next.session == l.session)
  {
  }
}

// Everything that is handed on is whole.
module WholeReports {
  import opened Wrappers
  import opened Audio
  import opened VadChunker
  import opened Dictation
  import opened Controller
  import opened ControllerRuns
  import opened Hearing
  import StopPhrase
  import Text

  /** The controller's reports are whole, and its dictation has told all it has heard. */
  ghost predicate AllWhole(l: Live, stream: seq<Frame>, heard: seq<Tick>) {
    && (forall k :: 0 <= k < |l.reports| ==> IsWhole(l.reports[k], stream))
    && (l.session.Some? ==> HasTold(l.session.value, heard))
  }

  lemma StopIsWhole(s: Session, tick: Tick, stream: seq<Frame>, heard: seq<Tick>, v: string)
    requires SessionFits(s, stream) && HasTold(s, heard) && BringsText(s, tick) && ChunkOut(s, tick).reason == Silence
    requires v in StopPhrase.STOP_PHRASE_VARIANTS
    requires StopPhrase.Ends(StopPhrase.Normalize(Transcribed(ChunkOut(s, tick), tick).raw), v)
    ensures LiveCapture(s, tick).Ends? && IsWhole(LiveCapture(s, tick).report, stream + [tick.frame])
  {
    hide KeptTexts, Placed, After, FeedSpec, PushSpec, LiveCapture, EndedByStop, Listening, ChunkOut, Transcribed, HearsEnd;
    hide StopPhrase.Ends, StopPhrase.Normalize, StopPhrase.Remainder, StripSpec, IsWhole, Recorded, LogTells, ReportOf;
    var m := Marked(tick.frame, tick.speech);
    var text := Transcribed(ChunkOut(s, tick), tick).raw;
    var s1 := FeedSpec(s, m, tick.whisper).0;
    InStep(s, tick, stream, heard);
    StopEndsCapture(s, tick, v);
    StopTells(s, heard, tick, v);
    var s2 := StripSpec(s1, text, StopPhrase.Remainder(text, v));
    StripKeeps(s1, text, StopPhrase.Remainder(text, v));
    SameFeed(s1, s2, stream + [tick.frame]);
    StoppedIsWhole(s2, stream + [tick.frame], heard + [tick], v);
  }

  lemma SameFeed(s: Session, r: Session, stream: seq<Frame>)
    requires HearsEnd(s, stream) && r.fed == s.fed
    ensures HearsEnd(r, stream)
  {
  }

  lemma StoppedIsWhole(s: Session, stream: seq<Frame>, heard: seq<Tick>, v: string)
    requires Recorded(s) && HearsEnd(s, stream) && s.fed == Marks(heard) && EndedByStop(s.log, heard, v)
    ensures IsWhole(ReportOf(s), stream)
  {
    hide KeptTexts, Placed, EndedByStop, PlacedFrom;
    RecordsPlaced(s, stream);
    assert TellsAll(ReportOf(s), stream, |stream| - |s.fed|, heard);
  }

  /** One more frame leaves the session in step with the stream and with what was heard. */
  lemma InStep(s: Session, tick: Tick, stream: seq<Frame>, heard: seq<Tick>)
    requires SessionFits(s, stream) && HasTold(s, heard)
    ensures var (s1, text) := FeedSpec(s, Marked(tick.frame, tick.speech), tick.whisper);
      && s.chunker == After(s.fed, |s.fed|)
      && Recorded(s1) && Listening(s1) && HearsEnd(s1, stream + [tick.frame]) && HasTold(s1, heard + [tick])
      && s1.hold == s.hold && (text.Some? <==> BringsText(s, tick))
      && (text.Some? ==> text.value == Transcribed(ChunkOut(s, tick), tick).raw && s1.chunks == s.chunks + [text.value]
                         && s1.log != [] && Last(s1.log).kept == text && s1.chunker.lastCut == Some(ChunkOut(s, tick).reason))
      && (text.None? ==> s1.chunks == s.chunks)
  {
    hide KeptTexts, Placed, After, FeedSpec, PushSpec, LogTells, Chunks;
    var m := Marked(tick.frame, tick.speech);
    FeedKeeps(s, m, tick.whisper);
    FeedTells(s, heard, tick);
    FedText(s, tick);
    TranscribedChunk(s, m, tick.whisper);
    var s1 := FeedSpec(s, m, tick.whisper).0;
    assert Unmark(s1.fed) == Unmark(s.fed) + [tick.frame];
  }

  lemma SilenceIsWhole(s: Session, tick: Tick, stream: seq<Frame>, heard: seq<Tick>)
    requires Recorded(s) && Listening(s) && HearsEnd(s, stream) && HasTold(s, heard)
    ensures IsWhole(ReportOf(FlushFinalSpec(s, tick.whisper)), stream)
  {
    hide KeptTexts, Placed, After, EndedInSilence, LogTells, Chunks;
    FlushKeeps(s, tick.whisper);
    FlushTells(s, heard, tick.whisper);
    var s2 := FlushFinalSpec(s, tick.whisper);
    RecordsPlaced(s2, stream);
    assert TellsAll(ReportOf(s2), stream, |stream| - |s.fed|, heard);
  }

  /** A captured frame goes on in step, or hands on a whole dictation. */
  lemma CaptureIsWhole(s: Session, tick: Tick, stream: seq<Frame>, heard: seq<Tick>)
    requires SessionFits(s, stream) && HasTold(s, heard)
    ensures LiveCapture(s, tick).Ends? ==> IsWhole(LiveCapture(s, tick).report, stream + [tick.frame])
  {
    hide SessionFits, HasTold, IsWhole, ChunkOut, Transcribed, FeedSpec, LiveText, FlushFinalSpec, IsStop;
    hide Recorded, Listening, HearsEnd;
    InStep(s, tick, stream, heard);
    var (s1, text) := FeedSpec(s, Marked(tick.frame, tick.speech), tick.whisper);
    if text.Some? {
      if ChunkOut(s, tick).reason == Silence && IsStop(text.value) {
        var v := StopOf(text.value);
        StopIsWhole(s, tick, stream, heard, v);
      } else {
        TextGoesOn(s, tick);
      }
    } else {
      SilenceIsWhole(s1, tick, stream + [tick.frame], heard + [tick]);
    }
  }

  lemma StopOf(text: string) returns (v: string)
    requires IsStop(text)
    ensures v in StopPhrase.STOP_PHRASE_VARIANTS && StopPhrase.Ends(StopPhrase.Normalize(text), v)
  {
    hide StopPhrase.Ends, StopPhrase.Normalize;
    v :| v in StopPhrase.STOP_PHRASE_VARIANTS && StopPhrase.Ends(StopPhrase.Normalize(text), v);
  }

  lemma StepIsWhole(l: Live, e: Event, stream: seq<Frame>, heard: seq<Tick>)
    requires Fits(l, stream) && AllWhole(l, stream, heard)
    ensures var longer := stream + if e.Heard? then [e.tick.frame] else [];
      forall k :: 0 <= k < |LiveEvent(l, e).reports| ==> IsWhole(LiveEvent(l, e).reports[k], longer)
  {
    hide LiveCapture, SessionFits, HasTold, IsWhole, ReportFits, WakeFits;
    if e.Heard? {
      forall k | 0 <= k < |l.reports|
        ensures IsWhole(l.reports[k], stream + [e.tick.frame])
      {
        WholeLonger(l.reports[k], stream, e.tick.frame);
      }
      if l.mode == Capturing {
        CaptureIsWhole(l.session.value, e.tick, stream, heard);
      }
    } else {
      assert stream + [] == stream;
    }
  }

  /** Over every run, every transcript handed on is whole: its log has every chunk the chunker let through,
      in order and with the text the transcriber made of it, placed where it was in the stream, and ends with
      what a stop variant left or with what the final flush let through. */
  lemma {:induction false} EveryReportWhole(events: seq<Event>, i: nat)
    requires i <= |events|
    ensures AllWhole(LiveAfter(events, i), Stream(events, i), HeardSince(events, i))
  {
    hide LiveEvent, SessionFits, HasTold, IsWhole, ReportFits, WakeFits;
    RunningTells(events, i);
    if i > 0 {
      EveryReportWhole(events, i - 1);
      EveryRunFits(events, i - 1);
      StepIsWhole(LiveAfter(events, i - 1), events[i - 1], Stream(events, i - 1), HeardSince(events, i - 1));
    }
  }

  /** The whole of a dictation that ended in silence is all the chunks of its frames, with the final flush. */
  lemma SilenceTellsAllKept(log: seq<Record>, heard: seq<Tick>, whisper: Whisper)
    requires EndedInSilence(log, heard, whisper)
    ensures |log| == |AllKeptAudio(Marks(heard))|
    ensures forall k :: 0 <= k < |log| ==> log[k].audio == AllKeptAudio(Marks(heard))[k]
  {
    hide EmissionAt, FlushSpec, After;
    ChunksAreKept(heard, |heard|);
    var chunks, flushed := Chunks(heard, |heard|), FlushChunk(heard, whisper);
    var audios := ChunkAudios(chunks);
    forall k | 0 <= k < |log|
      ensures log[k].audio == AllKeptAudio(Marks(heard))[k]
    {
      if k < |chunks| {
        assert Tells(log[..|chunks|][k], chunks[k], FromFeed);
      } else {
        assert Tells(log[|chunks| + (k - |chunks|)], flushed[k - |chunks|], FromFinalFlush);
      }
    }
  }

  /** What the simulation hands on for a recording that ends mid-dictation is whole, too. */
  lemma EndOfFileIsWhole(events: seq<Event>, whisper: Whisper, tick: Tick)
    requires (forall k :: 0 <= k < |events| ==> events[k].Heard?) && tick.whisper == whisper
    ensures var n := |events|; var m := SimAfter(Ticks(events), n);
      && m.reports == LiveAfter(events, n).reports
      && forall k :: 0 <= k < |SimReports(m, whisper)| ==> IsWhole(SimReports(m, whisper)[k], Stream(events, n))
    ensures var m := SimAfter(Ticks(events), |events|);
      |SimReports(m, whisper)| == |m.reports| + (if m.mode == Capturing then 1 else 0)
  {
    hide LiveAfter, SimAfter, HasTold, IsWhole, ReportFits, WakeFits, Recorded, Listening, HearsEnd, FlushFinalSpec;
    var n := |events|;
    LiveAgreesWithSimulation(events, n);
    EveryReportWhole(events, n);
    EveryRunFits(events, n);
    var l := LiveAfter(events, n);
    if l.session.Some? {
      SilenceIsWhole(l.session.value, tick, Stream(events, n), HeardSince(events, n));
    }
  }
}
