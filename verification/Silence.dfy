// How silence ends a dictation, and how a held one outlasts it.
module Silence {
  import opened Wrappers
  import opened Audio
  import opened VadChunker
  import opened Dictation
  import opened Controller
  import opened ControllerRuns

  /** A dictation between frames: no longer silent than it may be. */
  ghost predicate Running(s: Session) {
    Bounded(s.chunker.pending) && (!s.hold ==> !SilenceExceeds(s))
  }

  lemma SessionRuns(s: Session, stream: seq<Frame>)
    requires SessionFits(s, stream)
    ensures Running(s)
  {
    HeldFramesBounded(s.fed, |s.fed|);
  }

  /** The silent frames that still fit: first those that close a chunk with speech in it, then
      those up to the limit. */
  function Countdown(s: Session): int {
    if HasSpeech(s.chunker.pending) then 21 - SilenceTail(s.chunker.pending) + SilenceLimit(s)
    else SilenceLimit(s) - SilenceTail(s.chunker.pending)
  }

  /** Nothing the chunker holds could be transcribed if a pause closed it now. */
  predicate TooLittleSpeech(b: seq<Marked>) {
    SpeechCount(b) < 5 && |b| - SilenceTail(b) <= 900
  }

  /** What a silent frame does to the frames held. */
  lemma SilentPush(c: Chunker, m: Marked)
    requires Bounded(c.pending) && !m.speech
    ensures var (r, em) := PushSpec(c, m);
      if em.Nothing? then
        r.pending == c.pending + [m] && SilenceTail(r.pending) == SilenceTail(c.pending) + 1 && HasSpeech(r.pending) == HasSpeech(c.pending)
      else r.pending == [] && SilenceTail(r.pending) == 0 && !HasSpeech(r.pending)
    ensures HasSpeech(c.pending) && SilenceTail(c.pending) == 20 ==> !PushSpec(c, m).1.Nothing?
    ensures !HasSpeech(c.pending) ==> SilenceTail(c.pending) == |c.pending| && !PushSpec(c, m).1.Kept?
    ensures !HasSpeech(c.pending) && |c.pending| < 937 ==> PushSpec(c, m).1.Nothing?
    ensures SilenceTail(c.pending) <= |c.pending| && Bounded(PushSpec(c, m).0.pending)
  {
    TailGrowsByOne(c.pending, m);
    TailMeaning(c.pending);
    StepKeepsBounded(c, m);
  }

  /** A frame that yields no transcript, and one that does. */
  lemma SilentFeed(s: Session, tick: Tick)
    ensures var m := Marked(tick.frame, tick.speech); var (r, text) := FeedSpec(s, m, tick.whisper);
      && r.chunker == PushSpec(s.chunker, m).0 && r.hold == s.hold
      && (text.Some? ==> PushSpec(s.chunker, m).1.Kept? && r.chunks == s.chunks + [text.value])
      && (text.None? ==> r.chunks == s.chunks)
  {
    hide PushSpec;
  }

  lemma TextLeavesChunker(s: Session, text: string, tick: Tick)
    requires s.chunks != [] && s.log != [] && Last(s.chunks) == text
    ensures match LiveText(s, text, tick)
      case GoesOn(r) => r.chunker == s.chunker && r.chunks == s.chunks
      case Ends(_) => true
  {
    hide StopMatch;
  }

  /** Without a hold, every silent frame ends the dictation, arms a hold, or uses up the countdown. */
  lemma SilentStep(s: Session, tick: Tick)
    requires Running(s) && !s.hold && !tick.speech
    ensures match LiveCapture(s, tick)
      case GoesOn(r) => r.hold || (Running(r) && 0 < Countdown(r) < Countdown(s) && |r.chunks| >= |s.chunks|)
      case Ends(_) => true
  {
    hide FeedSpec, LiveText, PushSpec, SilenceTail, HasSpeech, FlushFinalSpec, FullTranscript;
    var m := Marked(tick.frame, tick.speech);
    var (s1, partial) := FeedSpec(s, m, tick.whisper);
    SilentFeed(s, tick);
    SilentPush(s.chunker, m);
    if partial.Some? {
      TextLeavesChunker(s1, partial.value, tick);
    }
  }

  /** A held dictation with no speech waiting stays as it is. */
  lemma SilentHold(s: Session, tick: Tick)
    requires Running(s) && s.hold && !HasSpeech(s.chunker.pending) && !tick.speech
    ensures var m := Marked(tick.frame, false);
      LiveCapture(s, tick) == GoesOn(s.(chunker := PushSpec(s.chunker, m).0, fed := s.fed + [m]))
    ensures var r := PushSpec(s.chunker, Marked(tick.frame, false)).0;
      Bounded(r.pending) && !HasSpeech(r.pending)
  {
    hide LiveText, PushSpec, SilenceTail, HasSpeech, FlushFinalSpec, FullTranscript;
    SilentPush(s.chunker, Marked(tick.frame, false));
  }

  /** With too little speech to transcribe, every silent frame uses up exactly one. */
  lemma ExactStep(s: Session, tick: Tick)
    requires Running(s) && !s.hold && TooLittleSpeech(s.chunker.pending) && !tick.speech
    ensures match LiveCapture(s, tick)
      case GoesOn(r) => Running(r) && !r.hold && TooLittleSpeech(r.chunker.pending) && Countdown(r) == Countdown(s) - 1 > 0
      case Ends(_) => Countdown(s) == 1
  {
    hide LiveText, PushSpec, SilenceTail, HasSpeech, SpeechCount, FlushFinalSpec, FullTranscript, TooLittleSpeech;
    var m := Marked(tick.frame, tick.speech);
    SilentPush(s.chunker, m);
    FewStayFew(s.chunker, m);
  }

  lemma FewStayFew(c: Chunker, m: Marked)
    requires Bounded(c.pending) && TooLittleSpeech(c.pending) && !m.speech
    ensures TooLittleSpeech(PushSpec(c, m).0.pending) && !PushSpec(c, m).1.Kept?
    ensures !HasSpeech(c.pending) || SilenceTail(c.pending) < 20 ==> HasSpeech(c.pending) ==> PushSpec(c, m).1.Nothing?
  {
    TailGrowsByOne(c.pending, m);
    PrefixCounts(c.pending, c.pending + [m], |c.pending|);
    TailMeaning(c.pending);
  }

  // Over runs of the controller.

  ghost predicate SilentBetween(events: seq<Event>, i: nat, j: nat)
    requires i <= j <= |events|
  {
    forall k :: i <= k < j ==> events[k].Heard? && !events[k].tick.speech
  }

  /** The dictation has ended, or a hold phrase has been heard. */
  predicate OverOrHeld(l: Live) {
    l.mode != Capturing || l.session.None? || l.session.value.hold
  }

  lemma ReachableRuns(events: seq<Event>, i: nat)
    requires i <= |events| && LiveAfter(events, i).session.Some?
    ensures Running(LiveAfter(events, i).session.value)
  {
    hide LiveAfter, SessionFits, ReportFits, WakeFits;
    EveryRunFits(events, i);
    SessionRuns(LiveAfter(events, i).session.value, Stream(events, i));
  }

  lemma CountEvent(l: Live, e: Event)
    requires !OverOrHeld(l) && Running(l.session.value) && e.Heard? && !e.tick.speech
    ensures var r := LiveEvent(l, e);
      OverOrHeld(r) || 0 < Countdown(r.session.value) < Countdown(l.session.value)
  {
    hide LiveCapture, Countdown, Running;
    SilentStep(l.session.value, e.tick);
  }

  lemma RunsOn(l: Live)
    ensures !OverOrHeld(l) ==> l.session.Some?
  {
  }

  lemma {:induction false} CountsDown(events: seq<Event>, i: nat, n: nat)
    requires i + n <= |events| && SilentBetween(events, i, i + n) && !OverOrHeld(LiveAfter(events, i))
    ensures (exists j :: i < j <= i + n && OverOrHeld(LiveAfter(events, j)))
      || (!OverOrHeld(LiveAfter(events, i + n))
          && 0 < Countdown(LiveAfter(events, i + n).session.value) <= Countdown(LiveAfter(events, i).session.value) - n)
  {
    hide LiveEvent, Countdown, OverOrHeld, Running;
    RunsOn(LiveAfter(events, i));
    ReachableRuns(events, i);
    if n == 0 {
      CountdownPositive(LiveAfter(events, i).session.value);
      NotHeld(LiveAfter(events, i));
    } else {
      CountsDown(events, i, n - 1);
      var l := LiveAfter(events, i + n - 1);
      if !OverOrHeld(l) {
        RunsOn(l);
        ReachableRuns(events, i + n - 1);
        CountEvent(l, events[i + n - 1]);
        RunsOn(LiveAfter(events, i + n));
      }
    }
  }

  lemma NotHeld(l: Live)
    requires !OverOrHeld(l)
    ensures !l.session.value.hold
  {
  }

  lemma CountdownPositive(s: Session)
    requires Running(s)
    ensures !s.hold ==> 0 < Countdown(s) <= if s.chunks == [] then 334 else 106
  {
  }

  /** From any capturing state without a hold, 334 silent frames, or 106 once something has been
      transcribed, end the dictation unless a chunk closed on the way is a hold phrase. */
  lemma SilenceEndsDictation(events: seq<Event>, i: nat, n: nat)
    requires i + n <= |events| && SilentBetween(events, i, i + n)
    requires LiveAfter(events, i).mode == Capturing && !OverOrHeld(LiveAfter(events, i))
    requires n >= if LiveAfter(events, i).session.value.chunks == [] then 334 else 106
    ensures exists j :: i < j <= i + n && OverOrHeld(LiveAfter(events, j))
  {
    hide LiveAfter, Countdown, Running;
    ReachableRuns(events, i);
    CountdownPositive(LiveAfter(events, i).session.value);
    CountsDown(events, i, n);
  }

  /** With too little speech waiting to be transcribed the dictation ends with exactly the frame
      the countdown says, so both bounds are met: with one speech frame just heard it takes 334. */
  lemma {:induction false} EndsExactly(events: seq<Event>, i: nat, n: nat)
    requires i + n <= |events| && SilentBetween(events, i, i + n) && !OverOrHeld(LiveAfter(events, i))
    requires TooLittleSpeech(LiveAfter(events, i).session.value.chunker.pending)
    requires n <= Countdown(LiveAfter(events, i).session.value)
    ensures LiveAfter(events, i + n).mode == Idle <==> n == Countdown(LiveAfter(events, i).session.value)
    ensures n < Countdown(LiveAfter(events, i).session.value) ==>
      && !OverOrHeld(LiveAfter(events, i + n))
      && TooLittleSpeech(LiveAfter(events, i + n).session.value.chunker.pending)
      && Countdown(LiveAfter(events, i + n).session.value) == Countdown(LiveAfter(events, i).session.value) - n
  {
    hide LiveEvent, Countdown, Running, TooLittleSpeech;
    if n == 0 {
      ReachableRuns(events, i);
      CountdownPositive(LiveAfter(events, i).session.value);
    } else {
      EndsExactly(events, i, n - 1);
      ReachableRuns(events, i + n - 1);
      ExactEvent(LiveAfter(events, i + n - 1), events[i + n - 1]);
    }
  }

  lemma ExactEvent(l: Live, e: Event)
    requires !OverOrHeld(l) && Running(l.session.value) && TooLittleSpeech(l.session.value.chunker.pending) && e.Heard? && !e.tick.speech
    ensures var r := LiveEvent(l, e);
      if Countdown(l.session.value) == 1 then r.mode == Idle
      else !OverOrHeld(r) && TooLittleSpeech(r.session.value.chunker.pending)
           && Countdown(r.session.value) == Countdown(l.session.value) - 1
  {
    hide LiveCapture, Countdown, Running, TooLittleSpeech;
    ExactStep(l.session.value, e.tick);
  }

  /** What a frame was heard to say, if it closed a chunk that was transcribed and kept. */
  function HeardText(s: Session, tick: Tick): Option<string> {
    FeedSpec(s, Marked(tick.frame, tick.speech), tick.whisper).1
  }

  /** In every reachable state the silence run is at most 937 frames, so the 50 seconds meant to end a
      held dictation are never reached: whatever the next frame is, unless a transcript comes out of
      it, the dictation goes on, still held and with the transcript it had. */
  lemma HoldLimitUnreachable(events: seq<Event>, i: nat, tick: Tick)
    requires i <= |events| && LiveAfter(events, i).session.Some?
    ensures var s := LiveAfter(events, i).session.value;
      && SilenceTail(s.chunker.pending) <= 937
      && (s.hold && HeardText(s, tick) == None ==>
            match LiveCapture(s, tick)
            case GoesOn(r) => r.hold && r.chunks == s.chunks
            case Ends(_) => false)
  {
    hide LiveAfter, LiveCapture, Bounded, SilenceTail, HeardText;
    ReachableRuns(events, i);
    var s := LiveAfter(events, i).session.value;
    ShortTail(s.chunker.pending);
    if s.hold && HeardText(s, tick) == None {
      HeldFrame(s, tick);
    }
  }

  /** A frame of a held dictation from which no transcript comes. */
  lemma HeldFrame(s: Session, tick: Tick)
    requires Running(s) && s.hold && HeardText(s, tick) == None
    ensures match LiveCapture(s, tick)
      case GoesOn(r) => r.hold && r.chunks == s.chunks
      case Ends(_) => false
  {
    hide FeedSpec, PushSpec, LiveText, FlushFinalSpec, FullTranscript, SilenceTail, HasSpeech;
    var m := Marked(tick.frame, tick.speech);
    SilentFeed(s, tick);
    StepKeepsBounded(s.chunker, m);
    ShortTail(PushSpec(s.chunker, m).0.pending);
  }

  lemma ShortTail(b: seq<Marked>)
    requires Bounded(b)
    ensures SilenceTail(b) <= 937
  {
    TailMeaning(b);
  }

  predicate IsHeld(l: Live) {
    l.mode == Capturing && l.session.Some? && l.session.value.hold
  }

  /** A held dictation from which event e brings a transcript. */
  predicate SaysMore(l: Live, e: Event) {
    IsHeld(l) && e.Heard? && HeardText(l.session.value, e.tick).Some?
  }

  /** Nothing but speech that is transcribed ends a held dictation: over any n events from any
      reachable held state, requests for a cancel window included, it is still held with the
      transcript it had, unless a transcript came out of one of them. */
  lemma {:induction false} HoldOutlastsSilence(events: seq<Event>, i: nat, n: nat)
    requires i + n <= |events| && IsHeld(LiveAfter(events, i))
    ensures (exists j :: i <= j < i + n && SaysMore(LiveAfter(events, j), events[j]))
      || (IsHeld(LiveAfter(events, i + n)) && LiveAfter(events, i + n).session.value.chunks == LiveAfter(events, i).session.value.chunks)
  {
    hide LiveEvent, IsHeld, SaysMore;
    if n > 0 {
      HoldOutlastsSilence(events, i, n - 1);
      var l, e := LiveAfter(events, i + n - 1), events[i + n - 1];
      if !SaysMore(l, e) && IsHeld(l) {
        HeldHasSession(l);
        ReachableRuns(events, i + n - 1);
        HeldEvent(l, e);
      }
    }
  }

  lemma HeldHasSession(l: Live)
    requires IsHeld(l)
    ensures l.session.Some?
  {
  }

  lemma HeldEvent(l: Live, e: Event)
    requires IsHeld(l) && Running(l.session.value) && !SaysMore(l, e)
    ensures IsHeld(LiveEvent(l, e)) && LiveEvent(l, e).session.value.chunks == l.session.value.chunks
  {
    hide LiveCapture, HeardText, Running;
    if e.Heard? {
      HeldFrame(l.session.value, e.tick);
    }
  }

  /** With no speech waiting, silence leaves the log of a held dictation as it was, too. */
  ghost predicate StillHeld(l: Live, s: Session, n: nat) {
    l.mode == Capturing && l.session.Some? && var r := l.session.value;
    r.hold && !HasSpeech(r.chunker.pending) && r.chunks == s.chunks && r.log == s.log && |r.fed| == |s.fed| + n
  }

  lemma StillHeldStep(l: Live, s: Session, n: nat, e: Event, stream: seq<Frame>)
    requires StillHeld(l, s, n) && SessionFits(l.session.value, stream) && e.Heard? && !e.tick.speech
    ensures StillHeld(LiveEvent(l, e), s, n + 1)
  {
    hide LiveCapture, Running, SessionFits, HasSpeech, PushSpec;
    SessionRuns(l.session.value, stream);
    SilentHold(l.session.value, e.tick);
  }

  /** From a hold with no speech waiting, as every hold begins, any number of silent frames leave the
      hold, the transcript and the log as they were. */
  lemma {:induction false} SilenceLeavesHoldAlone(events: seq<Event>, i: nat, n: nat, s: Session)
    requires i + n <= |events| && SilentBetween(events, i, i + n)
    requires StillHeld(LiveAfter(events, i), s, 0)
    ensures StillHeld(LiveAfter(events, i + n), s, n)
  {
    hide LiveEvent, StillHeld, SessionFits, ReportFits, WakeFits;
    if n > 0 {
      SilenceLeavesHoldAlone(events, i, n - 1, s);
      EveryRunFits(events, i + n - 1);
      SessionOfHeld(LiveAfter(events, i + n - 1), s, n - 1);
      StillHeldStep(LiveAfter(events, i + n - 1), s, n - 1, events[i + n - 1], Stream(events, i + n - 1));
    }
  }

  lemma SessionOfHeld(l: Live, s: Session, n: nat)
    ensures StillHeld(l, s, n) ==> l.session.Some?
  {
  }

  /** A hold phrase leaves no speech waiting, so silence cannot end the dictation it holds. */
  lemma HoldStartsWithoutSpeech(s: Session, tick: Tick, stream: seq<Frame>)
    requires SessionFits(s, stream)
    ensures match LiveCapture(s, tick)
      case GoesOn(r) => r.hold && r.chunks != s.chunks ==> !HasSpeech(r.chunker.pending)
      case Ends(_) => true
  {
    hide FeedSpec, LiveText, PushSpec, FlushFinalSpec, FullTranscript, KeptTexts, Placed, After;
    var m := Marked(tick.frame, tick.speech);
    var (s1, partial) := FeedSpec(s, m, tick.whisper);
    SilentFeed(s, tick);
    TranscribedChunk(s, m, tick.whisper);
    if partial.Some? {
      TextLeavesChunker(s1, partial.value, tick);
    }
  }
}
