// What holds over every run of the controller, cancel windows included.
module ControllerRuns {
  import opened Wrappers
  import opened Audio
  import opened VadChunker
  import opened Dictation
  import opened Controller
  import Text

  datatype Event = Heard(tick: Tick, now: int) | Armed(timeout: int, now: int)

  function LiveEvent(l: Live, e: Event): Live {
    match e
    case Heard(tick, now) => LiveFrame(l, tick, now)
    case Armed(timeout, now) => LiveArm(l, timeout, now)
  }

  function LiveAfter(events: seq<Event>, i: nat): Live
    requires i <= |events|
  {
    if i == 0 then LiveStart else LiveEvent(LiveAfter(events, i - 1), events[i - 1])
  }

  /** The microphone stream so far. */
  function Stream(events: seq<Event>, i: nat): seq<Frame>
    requires i <= |events|
  {
    if i == 0 then [] else Stream(events, i - 1) + if events[i - 1].Heard? then [events[i - 1].tick.frame] else []
  }

  /** The records lie, from frame a of the stream on, where they say, one after the other. */
  ghost predicate PlacedFrom(log: seq<Record>, stream: seq<Frame>, a: nat) {
    forall k :: 0 <= k < |log| ==>
      && 0 <= log[k].start < log[k].end && a + log[k].end <= |stream|
      && log[k].audio == stream[a + log[k].start..a + log[k].end]
      && (k > 0 ==> log[k - 1].end <= log[k].start)
  }

  /** A transcript that was handed on is what its log kept, and its log says where the audio was. */
  ghost predicate ReportFits(r: Report, stream: seq<Frame>) {
    && r.text == Text.Join(NonEmpty(KeptTexts(r.log)))
    && exists a: nat :: PlacedFrom(r.log, stream, a)
  }

  /** The dictation hears the end of the stream. */
  ghost predicate HearsEnd(s: Session, stream: seq<Frame>) {
    |s.fed| <= |stream| && Unmark(s.fed) == stream[|stream| - |s.fed|..]
  }

  /** A running dictation is in step with its log, hears the end of the stream, and would have
      been ended by now if its silence were too long. */
  ghost predicate SessionFits(s: Session, stream: seq<Frame>) {
    && Recorded(s) && Listening(s)
    && HearsEnd(s, stream)
    && (!s.hold ==> !SilenceExceeds(s))
  }

  /** The wake model has been given, since its reset, the frames of the stream up to k, without a gap. */
  ghost predicate WakeUpTo(wake: seq<Frame>, stream: seq<Frame>, k: nat) {
    |wake| <= k <= |stream| && wake == stream[k - |wake|..k]
  }

  ghost predicate WakeFits(l: Live, stream: seq<Frame>) {
    if l.mode == Idle then WakeUpTo(l.wake, stream, |stream|) else exists k: nat :: WakeUpTo(l.wake, stream, k)
  }

  ghost predicate Fits(l: Live, stream: seq<Frame>) {
    && (l.mode == Capturing <==> l.session.Some?)
    && (l.session.Some? ==> SessionFits(l.session.value, stream))
    && (forall r :: r in l.reports ==> ReportFits(r, stream))
    && WakeFits(l, stream)
  }

  lemma RecordsPlaced(s: Session, stream: seq<Frame>)
    requires Recorded(s) && HearsEnd(s, stream)
    ensures PlacedFrom(s.log, stream, |stream| - |s.fed|)
  {
    hide KeptTexts;
    var a := |stream| - |s.fed|;
    forall k | 0 <= k < |s.log|
      ensures a + s.log[k].end <= |stream|
      ensures s.log[k].audio == stream[a + s.log[k].start..a + s.log[k].end]
    {
      UnmarkSlice(s.fed, s.log[k].start, s.log[k].end);
      SliceOfRest(stream, a, s.log[k].start, s.log[k].end);
    }
  }

  lemma UnmarkSlice(b: seq<Marked>, i: int, j: int)
    requires 0 <= i <= j <= |b|
    ensures Unmark(b[i..j]) == Unmark(b)[i..j]
  {
  }

  lemma SliceOfRest(s: seq<Frame>, a: int, i: int, j: int)
    requires 0 <= a <= |s| && 0 <= i <= j <= |s| - a
    ensures s[a..][i..j] == s[a + i..a + j]
  {
  }

  lemma RecordsInStream(s: Session, stream: seq<Frame>)
    requires Recorded(s) && HearsEnd(s, stream)
    ensures ReportFits(ReportOf(s), stream)
  {
    hide KeptTexts, PlacedFrom;
    RecordsPlaced(s, stream);
    assert PlacedFrom(s.log, stream, |stream| - |s.fed|);
  }

  lemma ReportFitsLonger(r: Report, stream: seq<Frame>, frame: Frame)
    requires ReportFits(r, stream)
    ensures ReportFits(r, stream + [frame])
  {
    hide KeptTexts;
    var a: nat :| PlacedFrom(r.log, stream, a);
    var longer := stream + [frame];
    forall k | 0 <= k < |r.log|
      ensures r.log[k].audio == longer[a + r.log[k].start..a + r.log[k].end]
    {
      assert longer[a + r.log[k].start..a + r.log[k].end] == stream[a + r.log[k].start..a + r.log[k].end];
    }
    assert PlacedFrom(r.log, longer, a);
  }

  /** A transcribed chunk leaves the chunker empty and its text at the end of the log. */
  lemma TranscribedChunk(s: Session, m: Marked, whisper: Whisper)
    requires Recorded(s) && Listening(s)
    ensures var (r, text) := FeedSpec(s, m, whisper);
      text.Some? ==> r.chunker.pending == [] && Last(r.log).kept == text && SilenceTail(r.chunker.pending) == 0
  {
    hide After;
  }

  /** Arming or spending the hold and marking a near miss change nothing of this. */
  lemma HoldKeeps(s: Session, hold: bool, stream: seq<Frame>)
    requires Recorded(s) && Listening(s) && HearsEnd(s, stream) && s.chunker.pending == []
    ensures var r := s.(hold := hold);
      && SessionFits(r, stream) && SessionFits(MarkNearMiss(r), stream)
      && Recorded(r) && HearsEnd(r, stream) && r.fed == s.fed && r.chunks == s.chunks && r.log == s.log
  {
    hide KeptTexts, Placed, After;
    MarkKeeps(s.(hold := hold));
  }

  lemma StrippedFits(s: Session, text: string, rest: string, stream: seq<Frame>)
    requires Recorded(s) && HearsEnd(s, stream) && s.log != [] && Last(s.log).kept == Some(text)
    requires s.chunks != [] && Last(s.chunks) == text
    ensures ReportFits(ReportOf(StripSpec(s, text, rest)), stream)
  {
    hide KeptTexts, Placed, ReportFits;
    StripKeeps(s, text, rest);
    RecordsInStream(StripSpec(s, text, rest), stream);
  }

  lemma TextKeeps(s: Session, text: string, tick: Tick, stream: seq<Frame>)
    requires Recorded(s) && Listening(s) && HearsEnd(s, stream)
    requires s.chunker.pending == [] && s.log != [] && Last(s.log).kept == Some(text)
    requires s.chunks != [] && Last(s.chunks) == text
    ensures match LiveText(s, text, tick)
      case GoesOn(r) => SessionFits(r, stream)
      case Ends(report) => ReportFits(report, stream)
  {
    hide KeptTexts, Placed, After, StopMatch, ReportFits, SessionFits, Recorded, Listening, HearsEnd, StripSpec;
    var hold := Paused(s) && StopPhrase.MatchHoldPhrase(text);
    HoldKeeps(s, hold, stream);
    var stop := StopMatch(s, text);
    if stop.0 {
      StrippedFits(s.(hold := hold), text, stop.1, stream);
    }
  }

  lemma CaptureKeeps(s: Session, tick: Tick, stream: seq<Frame>)
    requires SessionFits(s, stream)
    ensures match LiveCapture(s, tick)
      case GoesOn(r) => SessionFits(r, stream + [tick.frame])
      case Ends(report) => ReportFits(report, stream + [tick.frame])
  {
    hide KeptTexts, Placed, After, ReportFits, Recorded, Listening, FeedSpec, LiveText, FlushFinalSpec;
    var longer, m := stream + [tick.frame], Marked(tick.frame, tick.speech);
    var (s1, partial) := FeedSpec(s, m, tick.whisper);
    FeedKeeps(s, m, tick.whisper);
    TranscribedChunk(s, m, tick.whisper);
    assert Unmark(s1.fed) == Unmark(s.fed) + [tick.frame] == longer[|longer| - |s1.fed|..];
    if partial.Some? {
      TextKeeps(s1, partial.value, tick, longer);
    } else if SilenceExceeds(s1) {
      FlushKeeps(s1, tick.whisper);
      RecordsInStream(FlushFinalSpec(s1, tick.whisper), longer);
    }
  }

  lemma WakeLonger(wake: seq<Frame>, stream: seq<Frame>, frame: Frame, k: nat)
    requires WakeUpTo(wake, stream, k)
    ensures WakeUpTo(wake, stream + [frame], k)
    ensures k == |stream| ==> WakeUpTo(wake + [frame], stream + [frame], k + 1)
    ensures WakeUpTo([], stream + [frame], k + 1)
  {
  }

  lemma WakeKeeps(l: Live, tick: Tick, now: int, stream: seq<Frame>)
    requires WakeFits(l, stream) && (l.mode == Capturing <==> l.session.Some?)
    ensures WakeFits(LiveFrame(l, tick, now), stream + [tick.frame])
  {
    hide LiveCapture;
    var k: nat :| WakeUpTo(l.wake, stream, k) && (l.mode == Idle ==> k == |stream|);
    WakeLonger(l.wake, stream, tick.frame, k);
    WakeLonger([], stream, tick.frame, |stream|);
  }

  lemma FrameKeeps(l: Live, tick: Tick, now: int, stream: seq<Frame>)
    requires Fits(l, stream)
    ensures Fits(LiveFrame(l, tick, now), stream + [tick.frame])
  {
    hide LiveCapture, SessionFits, ReportFits, WakeFits;
    WakeKeeps(l, tick, now, stream);
    var longer := stream + [tick.frame];
    forall r | r in l.reports
      ensures ReportFits(r, longer)
    {
      ReportFitsLonger(r, stream, tick.frame);
    }
    if l.mode == Capturing {
      CaptureKeeps(l.session.value, tick, stream);
    } else if l.mode == Idle {
      FreshSessionFits(longer);
    }
  }

  lemma FreshSessionFits(stream: seq<Frame>)
    ensures SessionFits(NewSession, stream)
  {
    NewRuns();
  }

  /** Over every run: a session exists exactly while capturing, every running and every finished
      dictation is in step with its log and the stream, and the wake model's frames have no gap. */
  lemma {:induction false} EveryRunFits(events: seq<Event>, i: nat)
    requires i <= |events|
    ensures Fits(LiveAfter(events, i), Stream(events, i))
  {
    hide LiveFrame, SessionFits, ReportFits;
    if i == 0 {
      assert WakeUpTo([], [], 0);
    } else {
      EveryRunFits(events, i - 1);
      var l, stream := LiveAfter(events, i - 1), Stream(events, i - 1);
      match events[i - 1]
      case Heard(tick, now) => FrameKeeps(l, tick, now, stream);
      case Armed(timeout, now) =>
        assert stream + [] == stream;
    }
  }

  /** The frames given to the wake model since its reset are contiguous in the stream; while idle
      they are its last ones. */
  lemma WakeModelContiguous(events: seq<Event>, i: nat)
    requires i <= |events|
    ensures var l, stream := LiveAfter(events, i), Stream(events, i);
      exists k: nat :: WakeUpTo(l.wake, stream, k) && (l.mode == Idle ==> k == |stream|)
  {
    hide LiveEvent, SessionFits, ReportFits;
    EveryRunFits(events, i);
    assert LiveAfter(events, i).mode == Idle ==> WakeUpTo(LiveAfter(events, i).wake, Stream(events, i), |Stream(events, i)|);
  }

  // The two drivers agree.

  function Ticks(events: seq<Event>): (ts: seq<Tick>)
    requires forall k :: 0 <= k < |events| ==> events[k].Heard?
    ensures |ts| == |events| && forall k :: 0 <= k < |events| ==> ts[k] == events[k].tick
  {
    seq(|events|, k requires 0 <= k < |events| && events[k].Heard? => events[k].tick)
  }

  lemma TextAgrees(s: Session, text: string, tick: Tick)
    requires s.chunks != [] && s.log != [] && Last(s.chunks) == text
    ensures LiveText(s, text, tick) == SimText(s, text, tick)
  {
    hide StopMatch, NonEmpty;
  }

  /** Without cancel windows the live controller and the simulation go through the same states:
      the same dictations handed on, the same resets of the wake model, the same hold. */
  lemma {:induction false} LiveAgreesWithSimulation(events: seq<Event>, i: nat)
    requires i <= |events| && forall k :: 0 <= k < |events| ==> events[k].Heard?
    ensures var l, m := LiveAfter(events, i), SimAfter(Ticks(events), i);
      && m == Sim(l.mode, l.session, l.preroll, l.wake, l.reports)
      && l.mode != CancelArmed && (l.mode == Capturing <==> l.session.Some?)
  {
    hide FeedSpec, LiveText, SimText, QuietFrame;
    if i > 0 {
      LiveAgreesWithSimulation(events, i - 1);
      var l, tick := LiveAfter(events, i - 1), events[i - 1].tick;
      assert Ticks(events)[i - 1] == tick;
      if l.mode == Capturing {
        var s := l.session.value;
        var (s1, partial) := FeedSpec(s, Marked(tick.frame, tick.speech), tick.whisper);
        if partial.Some? {
          TextAgrees(s1, partial.value, tick);
        }
      }
    }
  }
}
