// The two drivers of a dictation: the live controller, fed by the microphone, and the simulation
// over a recording. Both wait for the wake word, capture until a stop phrase or silence, and
// hand the transcript on; only the live one can also be armed for a cancel window.
module Controller {
  import opened Wrappers
  import opened Audio
  import opened VadChunker
  import opened Dictation
  import StopPhrase

  datatype Mode = Idle | Capturing | CancelArmed

  /** One frame, with what the models would answer if asked about it: the voice detector, the wake
      word score against its threshold, the verification, the transcriber, the similarity
      measure, and the cancel ensemble's score against its threshold. */
  datatype Tick = Tick(
    frame: Frame, speech: bool, wakeHit: bool, verified: bool, whisper: Whisper,
    nearMiss: string -> bool, cancelHit: bool)

  /** What is handed on when a dictation ends. */
  datatype Report = Report(text: string, log: seq<Record>)

  /** The set of stop variants in some order; the order does not matter. */
  const STOP_VARIANTS := ["that's it", "thats it", "that is it"]

  const PREROLL_FRAMES := 62

  function PushPreroll(preroll: seq<Frame>, frame: Frame): seq<Frame> {
    var longer := preroll + [frame];
    if |longer| > PREROLL_FRAMES then longer[1..] else longer
  }

  function ReportOf(s: Session): Report {
    Report(FullTranscript(s), s.log)
  }

  datatype Outcome = GoesOn(session: Session) | Ends(report: Report)

  /** Did the chunk just transcribed end in a pause? Stop and hold phrases count only then. */
  predicate Paused(s: Session) {
    s.chunker.lastCut == Some(Silence)
  }

  function StopMatch(s: Session, text: string): (bool, string) {
    if Paused(s) then StopPhrase.MatchStopPhrase(text, STOP_VARIANTS) else (false, text)
  }

  /** A transcribed chunk in the live controller: the hold is spent, and perhaps armed again,
      before the stop phrase is acted on. */
  function LiveText(s: Session, text: string, tick: Tick): Outcome
    requires s.chunks != [] && s.log != [] && Last(s.chunks) == text
  {
    var stop := StopMatch(s, text);
    var s1 := s.(hold := false);
    var s2 := if Paused(s) && StopPhrase.MatchHoldPhrase(text) then s1.(hold := true) else s1;
    if stop.0 then Ends(ReportOf(StripSpec(s2, text, stop.1)))
    else GoesOn(if Paused(s) && tick.nearMiss(text) then MarkNearMiss(s2) else s2)
  }

  /** A transcribed chunk in the simulation: a stop phrase ends the dictation with the hold untouched. */
  function SimText(s: Session, text: string, tick: Tick): Outcome
    requires s.chunks != [] && s.log != [] && Last(s.chunks) == text
  {
    var stop := StopMatch(s, text);
    if stop.0 then Ends(ReportOf(StripSpec(s, text, stop.1)))
    else
      var s1 := s.(hold := false);
      var s2 := if Paused(s) && StopPhrase.MatchHoldPhrase(text) then s1.(hold := true) else s1;
      GoesOn(if Paused(s) && tick.nearMiss(text) then MarkNearMiss(s2) else s2)
  }

  /** A frame without a transcript: silence may end the dictation. */
  function QuietFrame(s: Session, tick: Tick): Outcome {
    if SilenceExceeds(s) then Ends(ReportOf(FlushFinalSpec(s, tick.whisper))) else GoesOn(s)
  }

  function LiveCapture(s: Session, tick: Tick): Outcome {
    var (s1, partial) := FeedSpec(s, Marked(tick.frame, tick.speech), tick.whisper);
    match partial
    case Some(text) => LiveText(s1, text, tick)
    case None => QuietFrame(s1, tick)
  }

  function SimCapture(s: Session, tick: Tick): Outcome {
    var (s1, partial) := FeedSpec(s, Marked(tick.frame, tick.speech), tick.whisper);
    match partial
    case Some(text) => SimText(s1, text, tick)
    case None => QuietFrame(s1, tick)
  }

  /** The live controller seen from outside; wake is what the wake model has been given since its reset. */
  datatype Live = Live(
    mode: Mode, session: Option<Session>, preroll: seq<Frame>, wake: seq<Frame>, reports: seq<Report>,
    deadline: int, detected: bool)

  const LiveStart := Live(Idle, None, [], [], [], 0, false)

  function ToIdle(l: Live): Live {
    l.(mode := Idle, wake := [])
  }

  function LiveFrame(l: Live, tick: Tick, now: int): Live {
    if l.mode == CancelArmed then
      if now >= l.deadline then ToIdle(l)
      else if tick.cancelHit then ToIdle(l.(detected := true))
      else l
    else
      var l1 := l.(preroll := PushPreroll(l.preroll, tick.frame));
      if l.mode == Idle then
        var l2 := l1.(wake := l.wake + [tick.frame]);
        if tick.wakeHit && tick.verified then l2.(mode := Capturing, session := Some(NewSession), preroll := [])
        else l2
      else if l.session == None then l1
      else
        match LiveCapture(l.session.value, tick)
        case GoesOn(s) => l1.(session := Some(s))
        case Ends(report) => ToIdle(l1).(session := None, reports := l.reports + [report])
  }

  function LiveArm(l: Live, timeout: int, now: int): Live {
    if l.mode != Idle then l else l.(mode := CancelArmed, deadline := now + timeout, detected := false)
  }

  /** The simulation's loop variables. */
  datatype Sim = Sim(mode: Mode, session: Option<Session>, preroll: seq<Frame>, wake: seq<Frame>, reports: seq<Report>)

  const SimStart := Sim(Idle, None, [], [], [])

  function SimFrame(m: Sim, tick: Tick): Sim {
    var m1 := m.(preroll := PushPreroll(m.preroll, tick.frame));
    if m.mode == Idle then
      var m2 := m1.(wake := m.wake + [tick.frame]);
      if tick.wakeHit && tick.verified then m2.(mode := Capturing, session := Some(NewSession), preroll := [])
      else m2
    else if m.mode == Capturing && m.session.Some? then
      match SimCapture(m.session.value, tick)
      case GoesOn(s) => m1.(session := Some(s))
      case Ends(report) => m1.(mode := Idle, wake := [], session := None, reports := m.reports + [report])
    else m1
  }

  function SimAfter(ticks: seq<Tick>, i: nat): Sim
    requires i <= |ticks|
  {
    if i == 0 then SimStart else SimFrame(SimAfter(ticks, i - 1), ticks[i - 1])
  }

  /** At the end of the file a dictation still running is flushed and handed on. */
  function SimReports(m: Sim, whisper: Whisper): seq<Report> {
    if m.mode == Capturing && m.session.Some? then m.reports + [ReportOf(FlushFinalSpec(m.session.value, whisper))]
    else m.reports
  }

  class LiveController {
    var mode: Mode
    var session: DictationSession?
    var preroll: seq<Frame>
    var wakeModel: seq<Frame>
    var reports: seq<Report>
    var cancelDeadline: int
    var cancelDetected: bool

    ghost function Repr(): set<object>
      reads this, session
    {
      if session == null then {this} else {this, session, session.chunker}
    }

    /** A session exists exactly while capturing. */
    ghost predicate Valid()
      reads this, Repr()
    {
      && (mode == Capturing <==> session != null)
      && (session != null ==> session.Valid())
    }

    ghost function State(): Live
      reads this, Repr()
      requires Valid()
    {
      Live(mode, if session == null then None else Some(session.State()), preroll, wakeModel, reports,
           cancelDeadline, cancelDetected)
    }

    constructor ()
      ensures Valid() && State() == LiveStart && fresh(Repr())
    {
      mode, session, preroll, wakeModel, reports, cancelDeadline, cancelDetected := Idle, null, [], [], [], 0, false;
    }

    method ArmCancel(timeout: int, now: int) returns (armed: bool)
      requires Valid()
      modifies this
      ensures Valid() && State() == LiveArm(old(State()), timeout, now)
      ensures armed == old(mode == Idle) && Repr() == old(Repr())
    {
      if mode != Idle {
        return false;
      }
      mode := CancelArmed;
      cancelDeadline := now + timeout;
      cancelDetected := false;
      return true;
    }

    method GoIdle()
      modifies this
      ensures mode == Idle && wakeModel == []
      ensures unchanged(`session) && unchanged(`preroll) && unchanged(`reports)
      ensures unchanged(`cancelDeadline) && unchanged(`cancelDetected)
    {
      mode := Idle;
      wakeModel := [];
    }

    method OnFrame(tick: Tick, now: int)
      requires Valid()
      modifies Repr()
      ensures Valid() && State() == LiveFrame(old(State()), tick, now)
      ensures fresh(Repr() - old(Repr()))
    {
      if mode == CancelArmed {
        OnCancelFrame(tick, now);
        return;
      }
      preroll := PushPreroll(preroll, tick.frame);
      if mode == Idle {
        wakeModel := wakeModel + [tick.frame];
        if tick.wakeHit && tick.verified {
          mode := Capturing;
          session := new DictationSession();
          preroll := [];
        }
      } else {
        OnCaptureFrame(tick);
      }
    }

    method OnCaptureFrame(tick: Tick)
      requires Valid() && mode == Capturing
      modifies Repr()
      ensures Valid() && Repr() <= old(Repr())
      ensures Follows(old(State()), LiveCapture(old(session.State()), tick))
    {
      hide FeedSpec, LiveText, QuietFrame;
      var partial := session.Feed(tick.frame, tick.speech, tick.whisper);
      if partial != None {
        OnText(partial.value, tick);
      } else {
        OnQuietFrame(tick);
      }
    }

    /** The controller after a captured frame: the session goes on, or it is over and handed on. */
    ghost predicate Follows(before: Live, outcome: Outcome)
      reads this, Repr()
      requires Valid()
    {
      State() == match outcome
        case GoesOn(s) => before.(session := Some(s))
        case Ends(report) => ToIdle(before).(session := None, reports := before.reports + [report])
    }

    method OnText(text: string, tick: Tick)
      requires Valid() && mode == Capturing
      requires session.chunksTranscribed != [] && Last(session.chunksTranscribed) == text && session.chunkLog != []
      modifies Repr()
      ensures Valid() && Repr() <= old(Repr())
      ensures Follows(old(State()), LiveText(old(session.State()), text, tick))
    {
      hide StripSpec, MarkNearMiss, FullTranscript, StopPhrase.MatchStopPhrase, StopPhrase.MatchHoldPhrase;
      var paused := session.chunker.lastCutReason == Some(Silence);
      var stop := if paused then StopPhrase.MatchStopPhrase(text, STOP_VARIANTS) else (false, text);
      session.ClearHold();
      if paused && StopPhrase.MatchHoldPhrase(text) {
        session.NoteHoldPhrase();
      }
      if stop.0 {
        session.StripStopPhrase(text, stop.1);
        Finish();
      } else if paused && tick.nearMiss(text) {
        session.MarkStopPhraseNearMiss();
      }
    }

    method OnQuietFrame(tick: Tick)
      requires Valid() && mode == Capturing
      modifies Repr()
      ensures Valid() && Repr() <= old(Repr())
      ensures Follows(old(State()), QuietFrame(old(session.State()), tick))
    {
      hide FlushFinalSpec, SilenceExceeds, FullTranscript;
      var exceeds := session.SilenceExceedsSafetyNet();
      if exceeds {
        session.FlushFinal(tick.whisper);
        Finish();
      }
    }

    /** Hands the transcript on and drops the session. */
    method Finish()
      requires Valid() && session != null
      modifies this
      ensures Valid() && Repr() <= old(Repr())
      ensures State() == ToIdle(old(State())).(session := None, reports := old(reports) + [ReportOf(old(session.State()))])
    {
      var text := session.TranscriptText();
      reports := reports + [Report(text, session.chunkLog)];
      GoIdle();
      session := null;
    }

    method OnCancelFrame(tick: Tick, now: int)
      requires Valid() && mode == CancelArmed
      modifies this
      ensures Valid() && State() == LiveFrame(old(State()), tick, now) && Repr() == old(Repr())
    {
      if now >= cancelDeadline {
        GoIdle();
        return;
      }
      if tick.cancelHit {
        cancelDetected := true;
        GoIdle();
      }
    }
  }

  ghost predicate SimIs(m: Sim, mode: Mode, session: DictationSession?, preroll: seq<Frame>, wake: seq<Frame>, reports: seq<Report>)
    reads session, if session == null then {} else {session.chunker}
  {
    && (mode == Capturing <==> session != null)
    && (session != null ==> session.Valid())
    && m == Sim(mode, if session == null then None else Some(session.State()), preroll, wake, reports)
  }

  /** Drives a recording through the state machine; whisper is what would be heard in the rest at its end. */
  method Simulate(ticks: seq<Tick>, whisper: Whisper) returns (reports: seq<Report>)
    ensures reports == SimReports(SimAfter(ticks, |ticks|), whisper)
  {
    hide SimText, QuietFrame, FeedSpec, FlushFinalSpec;
    var mode, preroll: seq<Frame>, wakeModel: seq<Frame> := Idle, [], [];
    var session: DictationSession? := null;
    reports := [];
    for i := 0 to |ticks|
      invariant session != null ==> fresh(session) && fresh(session.chunker)
      invariant SimIs(SimAfter(ticks, i), mode, session, preroll, wakeModel, reports)
    {
      var tick := ticks[i];
      preroll := PushPreroll(preroll, tick.frame);
      if mode == Idle {
        wakeModel := wakeModel + [tick.frame];
        if tick.wakeHit && tick.verified {
          mode := Capturing;
          session := new DictationSession();
          preroll := [];
        }
      } else if mode == Capturing {
        var ended := SimulateCapture(session, tick);
        if ended.Some? {
          reports := reports + [ended.value];
          mode := Idle;
          wakeModel := [];
          session := null;
        }
      }
    }
    if mode == Capturing && session != null {
      session.FlushFinal(whisper);
      var text := session.TranscriptText();
      reports := reports + [Report(text, session.chunkLog)];
    }
  }

  /** The capturing branch of the simulation's loop. */
  method SimulateCapture(session: DictationSession, tick: Tick) returns (ended: Option<Report>)
    requires session.Valid()
    modifies session, session.chunker
    ensures session.Valid()
    ensures match SimCapture(old(session.State()), tick)
      case GoesOn(s) => ended == None && session.State() == s
      case Ends(report) => ended == Some(report)
  {
    hide FeedSpec, FlushFinalSpec, SilenceExceeds, FullTranscript, StripSpec, MarkNearMiss;
    hide StopPhrase.MatchStopPhrase, StopPhrase.MatchHoldPhrase;
    var partial := session.Feed(tick.frame, tick.speech, tick.whisper);
    if partial != None {
      ended := SimulateText(session, partial.value, tick);
    } else {
      var exceeds := session.SilenceExceedsSafetyNet();
      if exceeds {
        session.FlushFinal(tick.whisper);
        var text := session.TranscriptText();
        return Some(Report(text, session.chunkLog));
      }
      return None;
    }
  }

  method SimulateText(session: DictationSession, text: string, tick: Tick) returns (ended: Option<Report>)
    requires session.Valid()
    requires session.chunksTranscribed != [] && Last(session.chunksTranscribed) == text && session.chunkLog != []
    modifies session
    ensures session.Valid()
    ensures match SimText(old(session.State()), text, tick)
      case GoesOn(s) => ended == None && session.State() == s
      case Ends(report) => ended == Some(report)
  {
    hide FullTranscript, StripSpec, MarkNearMiss, StopPhrase.MatchStopPhrase, StopPhrase.MatchHoldPhrase;
    var paused := session.chunker.lastCutReason == Some(Silence);
    var stop := if paused then StopPhrase.MatchStopPhrase(text, STOP_VARIANTS) else (false, text);
    if stop.0 {
      session.StripStopPhrase(text, stop.1);
      var transcript := session.TranscriptText();
      return Some(Report(transcript, session.chunkLog));
    }
    session.ClearHold();
    if paused && StopPhrase.MatchHoldPhrase(text) {
      session.NoteHoldPhrase();
    }
    if paused && tick.nearMiss(text) {
      session.MarkStopPhraseNearMiss();
    }
    return None;
  }
}
