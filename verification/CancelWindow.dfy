// The cancel window: a request arms the controller, the audio stream decides, and the handler
// polls until it can answer. Handlers of several requests, frames and polls interleave freely.
module CancelWindow {
  import opened Wrappers
  import opened Audio
  import opened Dictation
  import opened Controller
  import opened ControllerRuns

  /** Times are in milliseconds. A handler learns about its window only by polling. */
  datatype Step =
    | Frame(tick: Tick, now: int)
    | Request(timeout: int, now: int)
    | Garbled(now: int)
    | Poll(handler: nat, now: int)

  /** What became of a request: begun and at are the steps that begun and answered it. */
  datatype Handler =
    | Waiting(begun: nat, deadline: int)
    | Replied(begun: nat, deadline: int, at: nat, cancelled: bool)
    | Refused
    | Unread

  datatype World = World(live: Live, handlers: seq<Handler>)

  /** The handler waits half a second longer than the controller. */
  const REPLY_SLACK := 500

  function Handle(w: World, e: Step, at: nat): World {
    match e
    case Frame(tick, now) => w.(live := LiveFrame(w.live, tick, now))
    case Request(timeout, now) =>
      var h := if w.live.mode == Idle then Waiting(at, now + timeout) else Refused;
      World(LiveArm(w.live, timeout, now), w.handlers + [h])
    case Garbled(_) => w.(handlers := w.handlers + [Unread])
    case Poll(k, now) =>
      if k < |w.handlers| && w.handlers[k].Waiting? && !(now < w.handlers[k].deadline + REPLY_SLACK && w.live.mode == CancelArmed)
      then w.(handlers := w.handlers[k := Replied(w.handlers[k].begun, w.handlers[k].deadline, at, w.live.detected)])
      else w
  }

  function After(steps: seq<Step>, i: nat): World
    requires i <= |steps|
  {
    if i == 0 then World(LiveStart, []) else Handle(After(steps, i - 1), steps[i - 1], i - 1)
  }

  ghost predicate Monotone(steps: seq<Step>) {
    forall a, b :: 0 <= a <= b < |steps| ==> steps[a].now <= steps[b].now
  }

  /** A request that opens a window: one that comes while the controller is idle. */
  predicate Accepted(steps: seq<Step>, k: nat)
    requires k < |steps|
  {
    steps[k].Request? && After(steps, k).live.mode == Idle
  }

  /** The last request accepted before step i. */
  function LastAccepted(steps: seq<Step>, i: nat): (last: Option<nat>)
    requires i <= |steps|
    ensures last.Some? ==> last.value < i && steps[last.value].Request? && Accepted(steps, last.value)
  {
    if i == 0 then None else if Accepted(steps, i - 1) then Some(i - 1) else LastAccepted(steps, i - 1)
  }

  function DeadlineOf(e: Step): int
    requires e.Request?
  {
    e.now + e.timeout
  }

  predicate IsHit(e: Step, deadline: int) {
    e.Frame? && e.now < deadline && e.tick.cancelHit
  }

  /** One of the frames of a window scored at or above the threshold before the deadline. */
  ghost predicate Hit(steps: seq<Step>, begun: nat, at: nat, deadline: int)
    requires at <= |steps|
  {
    exists k :: begun <= k < at && IsHit(steps[k], deadline)
  }

  lemma HitLater(steps: seq<Step>, begun: nat, i: nat, deadline: int)
    requires begun <= i < |steps|
    ensures Hit(steps, begun, i + 1, deadline) <==> Hit(steps, begun, i, deadline) || IsHit(steps[i], deadline)
  {
  }

  /** What the controller knows before step i: whether the window of the last accepted request was
      hit, and while armed that window's deadline; if it is closed without a hit, time is up. */
  ghost predicate Tracks(steps: seq<Step>, i: nat, live: Live)
    requires i <= |steps|
  {
    match LastAccepted(steps, i)
    case None => !live.detected && live.mode != CancelArmed
    case Some(k) =>
      var deadline := DeadlineOf(steps[k]);
      && live.detected == Hit(steps, k, i, deadline)
      && (live.mode == CancelArmed ==> !live.detected && live.deadline == deadline)
      && (live.mode != CancelArmed && !live.detected ==> steps[i - 1].now >= deadline)
  }

  lemma FrameTracks(steps: seq<Step>, i: nat, live: Live)
    requires i < |steps| && Monotone(steps) && Tracks(steps, i, live) && steps[i].Frame? && !Accepted(steps, i)
    ensures Tracks(steps, i + 1, LiveFrame(live, steps[i].tick, steps[i].now))
  {
    hide LiveCapture, Accepted, Hit, LastAccepted;
    SameLast(steps, i);
    if LastAccepted(steps, i).Some? {
      HitLater(steps, LastAccepted(steps, i).value, i, DeadlineOf(steps[LastAccepted(steps, i).value]));
      assert steps[i - 1].now <= steps[i].now;
    }
  }

  lemma SameLast(steps: seq<Step>, i: nat)
    requires i < |steps|
    ensures LastAccepted(steps, i + 1) == if Accepted(steps, i) then Some(i) else LastAccepted(steps, i)
  {
    hide Accepted;
  }

  lemma QuietTracks(steps: seq<Step>, i: nat, live: Live)
    requires i < |steps| && Monotone(steps) && Tracks(steps, i, live) && !steps[i].Frame? && !Accepted(steps, i)
    ensures Tracks(steps, i + 1, live)
  {
    hide Accepted, Hit, LastAccepted;
    SameLast(steps, i);
    if LastAccepted(steps, i).Some? {
      HitLater(steps, LastAccepted(steps, i).value, i, DeadlineOf(steps[LastAccepted(steps, i).value]));
      assert steps[i - 1].now <= steps[i].now;
    }
  }

  lemma OpensTracks(steps: seq<Step>, i: nat, live: Live)
    requires i < |steps| && steps[i].Request? && Accepted(steps, i) && live.mode == Idle
    ensures Tracks(steps, i + 1, LiveArm(live, steps[i].timeout, steps[i].now))
  {
    hide Accepted, LastAccepted;
    SameLast(steps, i);
  }

  lemma {:induction false} RunTracks(steps: seq<Step>, i: nat)
    requires i <= |steps| && Monotone(steps)
    ensures Tracks(steps, i, After(steps, i).live)
  {
    hide Tracks, LiveFrame, LastAccepted;
    if i == 0 {
      StartTracks(steps);
    } else {
      RunTracks(steps, i - 1);
      var live := After(steps, i - 1).live;
      if Accepted(steps, i - 1) {
        OpensTracks(steps, i - 1, live);
      } else if steps[i - 1].Frame? {
        FrameTracks(steps, i - 1, live);
      } else {
        QuietTracks(steps, i - 1, live);
      }
    }
  }

  lemma StartTracks(steps: seq<Step>)
    ensures Tracks(steps, 0, LiveStart)
  {
  }

  /** What a handler is: it waits for the window it opened, or was answered with what the controller
      knew at that moment, when the controller was no longer armed or the handler would wait no more. */
  ghost predicate Handles(steps: seq<Step>, i: nat, h: Handler)
    requires i <= |steps|
  {
    match h
    case Waiting(begun, deadline) => begun < i && Accepted(steps, begun) && deadline == DeadlineOf(steps[begun])
    case Replied(begun, deadline, at, cancelled) =>
      && begun < at < i && Accepted(steps, begun) && deadline == DeadlineOf(steps[begun])
      && cancelled == After(steps, at).live.detected
      && (After(steps, at).live.mode != CancelArmed || steps[at].now >= deadline + REPLY_SLACK)
    case _ => true
  }

  lemma StepHandles(steps: seq<Step>, i: nat, k: nat)
    requires i < |steps| && k < |After(steps, i + 1).handlers|
    requires k < |After(steps, i).handlers| ==> Handles(steps, i, After(steps, i).handlers[k])
    ensures Handles(steps, i + 1, After(steps, i + 1).handlers[k])
  {
    hide LiveFrame;
    assert After(steps, i + 1) == Handle(After(steps, i), steps[i], i);
  }

  lemma {:induction false} RunHandles(steps: seq<Step>, i: nat, k: nat)
    requires i <= |steps| && k < |After(steps, i).handlers|
    ensures Handles(steps, i, After(steps, i).handlers[k])
  {
    hide Handle, Handles;
    if i > 0 {
      if k < |After(steps, i - 1).handlers| {
        RunHandles(steps, i - 1, k);
      }
      StepHandles(steps, i - 1, k);
    }
  }

  lemma {:induction false} LastIsLater(steps: seq<Step>, k: nat, i: nat)
    requires k < i <= |steps| && Accepted(steps, k)
    ensures LastAccepted(steps, i).Some? && k <= LastAccepted(steps, i).value
    ensures LastAccepted(steps, i) == Some(k) <==> forall j :: k < j < i ==> !Accepted(steps, j)
    decreases i
  {
    hide Accepted;
    if k < i - 1 {
      LastIsLater(steps, k, i - 1);
    }
  }

  /** In every run: an answer tells whether the window of the last request accepted before it was hit.
      If that is the handler's own, it says cancelled if and only if, in the whole run, some frame hit
      after the request and before its deadline, and not cancelled only once the deadline is past. */
  lemma ReplyIsTrue(steps: seq<Step>, i: nat, k: nat)
    requires i <= |steps| && Monotone(steps) && k < |After(steps, i).handlers|
    ensures match After(steps, i).handlers[k]
      case Replied(begun, deadline, at, cancelled) =>
        && begun < at < i && LastAccepted(steps, at).Some?
        && var last := LastAccepted(steps, at).value;
        && begun <= last && (cancelled <==> Hit(steps, last, at, DeadlineOf(steps[last])))
        && (last == begun <==> NoneBetween(steps, begun, at))
        && (last == begun ==>
              (cancelled <==> Hit(steps, begun, |steps|, deadline)) && (!cancelled ==> steps[at].now >= deadline))
      case _ => true
  {
    hide After, Hit, Accepted, LastAccepted;
    RunHandles(steps, i, k);
    var h := After(steps, i).handlers[k];
    if h.Replied? {
      RunTracks(steps, h.at);
      LastIsLater(steps, h.begun, h.at);
      if LastAccepted(steps, h.at) == Some(h.begun) {
        assert steps[h.at - 1].now <= steps[h.at].now;
        NoHitLater(steps, h.begun, h.at, h.deadline);
      }
    }
  }

  /** No request is accepted between a request and its answer. */
  ghost predicate NoneBetween(steps: seq<Step>, begun: nat, at: nat)
    requires at <= |steps|
  {
    forall j :: begun < j < at ==> !Accepted(steps, j)
  }

  lemma NoHitLater(steps: seq<Step>, begun: nat, at: nat, deadline: int)
    requires begun < at < |steps| && Monotone(steps) && (Hit(steps, begun, at, deadline) || steps[at].now >= deadline)
    ensures Hit(steps, begun, at, deadline) <==> Hit(steps, begun, |steps|, deadline)
  {
    assert forall k :: at <= k < |steps| ==> steps[at].now <= steps[k].now;
  }

  /** When an answer is right for the window it was asked about: if and only if no other request was
      accepted in between, or the last one's window, as far as it had gone, came out the same. */
  lemma ReplyRightIff(steps: seq<Step>, i: nat, k: nat)
    requires i <= |steps| && Monotone(steps) && k < |After(steps, i).handlers| && After(steps, i).handlers[k].Replied?
    ensures var h := After(steps, i).handlers[k];
      && h.begun < h.at < i && LastAccepted(steps, h.at).Some?
      && var last := LastAccepted(steps, h.at).value;
      var own := Hit(steps, h.begun, |steps|, h.deadline);
      (h.cancelled <==> own) <==> NoneBetween(steps, h.begun, h.at) || (Hit(steps, last, h.at, DeadlineOf(steps[last])) <==> own)
  {
    hide After, Hit, Accepted, LastAccepted, NoneBetween;
    ReplyIsTrue(steps, i, k);
  }

  /** How many requests there were among the first i steps, readable or not. */
  function Requests(steps: seq<Step>, i: nat): nat
    requires i <= |steps|
  {
    if i == 0 then 0 else Requests(steps, i - 1) + if steps[i - 1].Request? || steps[i - 1].Garbled? then 1 else 0
  }

  /** Of the request that was step j: refused unless the controller was idle; else waiting or answered, for
      the deadline it asked for; and answered at once if it could not be read. */
  ghost predicate HandledAs(steps: seq<Step>, j: nat, h: Handler)
    requires j < |steps|
  {
    match steps[j]
    case Request(timeout, now) =>
      if After(steps, j).live.mode != Idle then h == Refused
      else (h.Waiting? || h.Replied?) && h.begun == j && h.deadline == now + timeout
    case Garbled(_) => h == Unread
    case _ => true
  }

  lemma StepHandledAs(steps: seq<Step>, i: nat, j: nat, k: nat)
    requires j < i < |steps| && k < |After(steps, i).handlers| && HandledAs(steps, j, After(steps, i).handlers[k])
    ensures k < |After(steps, i + 1).handlers| && HandledAs(steps, j, After(steps, i + 1).handlers[k])
  {
    hide LiveFrame, LiveArm;
    assert After(steps, i + 1) == Handle(After(steps, i), steps[i], i);
  }

  lemma {:induction false} OneHandlerEach(steps: seq<Step>, i: nat)
    requires i <= |steps|
    ensures |After(steps, i).handlers| == Requests(steps, i)
  {
    hide LiveFrame, LiveArm;
    if i > 0 {
      OneHandlerEach(steps, i - 1);
    }
  }

  /** Every request has its own handler, which does for it what the controller's mode at its time says. */
  lemma {:induction false} EveryRequestHandled(steps: seq<Step>, i: nat, j: nat)
    requires j < i <= |steps| && (steps[j].Request? || steps[j].Garbled?)
    ensures Requests(steps, j) < |After(steps, i).handlers| && HandledAs(steps, j, After(steps, i).handlers[Requests(steps, j)])
  {
    hide Handle, HandledAs;
    if j < i - 1 {
      EveryRequestHandled(steps, i - 1, j);
      StepHandledAs(steps, i - 1, j, Requests(steps, j));
    } else {
      OneHandlerEach(steps, j);
      NewHandlerAs(steps, j);
    }
  }

  lemma NewHandlerAs(steps: seq<Step>, j: nat)
    requires j < |steps| && (steps[j].Request? || steps[j].Garbled?)
    ensures var k := |After(steps, j).handlers|;
      k < |After(steps, j + 1).handlers| && HandledAs(steps, j, After(steps, j + 1).handlers[k])
  {
    hide LiveFrame, LiveArm;
    assert After(steps, j + 1) == Handle(After(steps, j), steps[j], j);
  }

  // How soon an answer comes.

  predicate NoPoll(steps: seq<Step>, k: nat, p: nat, i: nat)
    requires i <= |steps|
  {
    forall j :: p < j < i ==> !(steps[j].Poll? && steps[j].handler == k)
  }

  /** From its request, at begun, or a poll of its own on, nothing happens later than d without the
      handler polling before. */
  ghost predicate PollsEvery(steps: seq<Step>, k: nat, begun: nat, d: int) {
    forall p, i :: begun <= p < i < |steps| && (p == begun || steps[p] == Poll(k, steps[p].now)) && NoPoll(steps, k, p, i) ==>
      steps[i].now - steps[p].now <= d
  }

  function Later(a: int, b: int): int {
    if a < b then b else a
  }

  /** The last poll of a handler that still waits, or its request, came before it had to be answered. */
  ghost predicate PolledEarly(steps: seq<Step>, k: nat, i: nat, h: Handler)
    requires i <= |steps| && h.Waiting? && h.begun < i
  {
    exists p :: h.begun <= p < i && (p == h.begun || steps[p] == Poll(k, steps[p].now)) && NoPoll(steps, k, p, i)
      && steps[p].now <= Later(h.deadline + REPLY_SLACK, steps[h.begun].now)
  }

  lemma {:induction false} WaitingPolledEarly(steps: seq<Step>, i: nat, k: nat)
    requires i <= |steps| && k < |After(steps, i).handlers| && After(steps, i).handlers[k].Waiting?
    ensures After(steps, i).handlers[k].begun < i && PolledEarly(steps, k, i, After(steps, i).handlers[k])
  {
    hide LiveFrame, LiveArm;
    var h, w := After(steps, i).handlers[k], After(steps, i - 1);
    if k < |w.handlers| {
      WaitingPolledEarly(steps, i - 1, k);
      var p :| h.begun <= p < i - 1 && (p == h.begun || steps[p] == Poll(k, steps[p].now)) && NoPoll(steps, k, p, i - 1)
        && steps[p].now <= Later(h.deadline + REPLY_SLACK, steps[h.begun].now);
      if steps[i - 1].Poll? && steps[i - 1].handler == k {
        assert NoPoll(steps, k, i - 1, i);
      } else {
        assert NoPoll(steps, k, p, i);
      }
    } else {
      assert h.begun == i - 1 && NoPoll(steps, k, i - 1, i);
    }
  }

  /** A handler that polls at least every d waits no longer than d past the moment it gives up, half
      a second after its deadline. */
  lemma AnsweredInTime(steps: seq<Step>, i: nat, k: nat, d: int)
    requires i < |steps| && k < |After(steps, i).handlers| && After(steps, i).handlers[k].Waiting?
    requires PollsEvery(steps, k, After(steps, i).handlers[k].begun, d)
    ensures var h := After(steps, i).handlers[k];
      h.begun < |steps| && steps[i].now <= Later(h.deadline + 500, steps[h.begun].now) + d
  {
    hide After, NoPoll;
    WaitingPolledEarly(steps, i, k);
    var h := After(steps, i).handlers[k];
    var p :| h.begun <= p < i && (p == h.begun || steps[p] == Poll(k, steps[p].now)) && NoPoll(steps, k, p, i)
      && steps[p].now <= Later(h.deadline + REPLY_SLACK, steps[h.begun].now);
    assert steps[i].now - steps[p].now <= d;
  }

  /** Two requests that overlap: the second arrives after the hit and before the first has polled. */
  function Overlap(tick: Tick): (steps: seq<Step>)
    ensures |steps| == 5
  {
    [Request(2500, 0), Step.Frame(tick, 32), Request(2500, 40), Step.Frame(tick.(cancelHit := false), 2560), Poll(0, 2561)]
  }

  /** Why requests must not overlap: the second window clears what the first one detected, and
      the first, though it was hit, is answered with not cancelled. */
  lemma OverlapLosesCancel(tick: Tick)
    requires tick.cancelHit
    ensures Monotone(Overlap(tick)) && Hit(Overlap(tick), 0, 4, 2500)
    ensures After(Overlap(tick), 5).handlers == [Replied(0, 2500, 4, false), Waiting(2, 2540)]
  {
    hide LiveCapture;
    var steps := Overlap(tick);
    assert IsHit(steps[1], 2500);
    var armed := LiveStart.(mode := CancelArmed, deadline := 2500);
    assert After(steps, 1) == World(armed, [Waiting(0, 2500)]) by {
      assert After(steps, 0) == World(LiveStart, []);
    }
    var hit := ToIdle(armed.(detected := true));
    assert After(steps, 2) == World(hit, [Waiting(0, 2500)]);
    var again := hit.(mode := CancelArmed, deadline := 2540, detected := false);
    assert After(steps, 3) == World(again, [Waiting(0, 2500), Waiting(2, 2540)]);
    assert After(steps, 4) == World(ToIdle(again), [Waiting(0, 2500), Waiting(2, 2540)]);
  }

  // The controller under the handshake is the controller of every run.

  function Controls(steps: seq<Step>, i: nat): seq<Event>
    requires i <= |steps|
  {
    if i == 0 then [] else
      Controls(steps, i - 1) + match steps[i - 1]
        case Frame(tick, now) => [Heard(tick, now)]
        case Request(timeout, now) => [Armed(timeout, now)]
        case _ => []
  }

  lemma {:induction false} SamePrefix(a: seq<Event>, b: seq<Event>, i: nat)
    requires i <= |a| && i <= |b| && a[..i] == b[..i]
    ensures LiveAfter(a, i) == LiveAfter(b, i)
  {
    hide LiveEvent;
    if i > 0 {
      assert a[i - 1] == a[..i][i - 1] == b[..i][i - 1] == b[i - 1];
      assert a[..i - 1] == a[..i][..i - 1] == b[..i - 1];
      SamePrefix(a, b, i - 1);
    }
  }

  lemma {:induction false} HandshakeRunsController(steps: seq<Step>, i: nat)
    requires i <= |steps|
    ensures After(steps, i).live == LiveAfter(Controls(steps, i), |Controls(steps, i)|)
    ensures After(steps, i).live.mode == Capturing <==> After(steps, i).live.session.Some?
  {
    hide LiveFrame, Fits, SessionFits, ReportFits;
    var es := Controls(steps, i);
    if i > 0 {
      HandshakeRunsController(steps, i - 1);
      var before := Controls(steps, i - 1);
      SamePrefix(before, es, |before|);
    }
    SessionWhileCapturing(es);
  }

  lemma SessionWhileCapturing(es: seq<Event>)
    ensures var l := LiveAfter(es, |es|); l.mode == Capturing <==> l.session.Some?
  {
    hide LiveAfter, SessionFits, ReportFits, WakeFits;
    EveryRunFits(es, |es|);
  }

  // The client's side of the socket.

  datatype Received = Chunk(data: string) | Failed

  datatype CancelResult = CancelResult(cancelled: bool, available: bool)

  const NoWindow := CancelResult(false, false)

  /** What the handler has sent when it closes the connection. */
  function Sent(h: Handler): string {
    match h
    case Replied(_, _, _, cancelled) => ReplyText(cancelled)
    case Unread => ReplyText(false)
    case _ => ""
  }

  function ReplyText(cancelled: bool): string {
    if cancelled then "{\"cancelled\": true}" else "{\"cancelled\": false}"
  }

  /** A reader of replies that understands what the handler writes, and nothing in silence. */
  ghost predicate ReadsReplies(read: string -> Option<bool>) {
    read("") == None && forall b :: read(ReplyText(b)) == Some(b)
  }

  /** All that arrived, unless receiving failed. */
  function Gathered(received: seq<Received>): Option<string> {
    if received == [] then Some("")
    else match Last(received)
      case Failed => None
      case Chunk(d) =>
        match Gathered(received[..|received| - 1])
        case None => None
        case Some(t) => Some(t + d)
  }

  function Understood(text: Option<string>, read: string -> Option<bool>): CancelResult {
    if text == None || read(text.value) == None then NoWindow else CancelResult(read(text.value).value, true)
  }

  /** Receives until the other side closes; anything but a readable answer means no window. */
  method ListenForCancel(socketExists: bool, received: seq<Received>, read: string -> Option<bool>) returns (r: CancelResult)
    requires forall k :: 0 <= k < |received| && received[k].Chunk? ==> received[k].data != ""
    ensures r == if socketExists then Understood(Gathered(received), read) else NoWindow
  {
    if !socketExists {
      return NoWindow;
    }
    var data := "";
    for i := 0 to |received|
      invariant Gathered(received[..i]) == Some(data)
    {
      assert received[..i + 1][..i] == received[..i];
      match received[i]
      case Failed =>
        FailureStays(received, i + 1);
        return NoWindow;
      case Chunk(d) =>
        data := data + d;
    }
    assert received[..|received|] == received;
    var response := read(data);
    if response == None {
      return NoWindow;
    }
    return CancelResult(response.value, true);
  }

  /** A text sent piece by piece. */
  function Pieces(parts: seq<string>): (received: seq<Received>)
    ensures |received| == |parts| && forall k :: 0 <= k < |parts| ==> received[k] == Chunk(parts[k])
  {
    seq(|parts|, k requires 0 <= k < |parts| => Chunk(parts[k]))
  }

  lemma {:induction false} GatheredConcat(a: seq<Received>, b: seq<Received>)
    ensures Gathered(a + b) ==
      if Gathered(a) == None || Gathered(b) == None then None else Some(Gathered(a).value + Gathered(b).value)
  {
    if b == [] {
      assert a + b == a;
      if Gathered(a).Some? {
        assert Gathered(a).value + "" == Gathered(a).value;
      }
    } else {
      var front := b[..|b| - 1];
      assert (a + b)[..|a + b| - 1] == a + front;
      GatheredConcat(a, front);
      if Last(b).Chunk? && Gathered(a).Some? && Gathered(front).Some? {
        assert Gathered(a).value + (Gathered(front).value + Last(b).data) == (Gathered(a).value + Gathered(front).value) + Last(b).data;
      }
    }
  }

  /** However a text is cut in two and cut again, what is gathered is the text. */
  lemma AnyCutGathers(text: string, cut: nat)
    requires cut <= |text|
    ensures Gathered(Pieces([text])) == Some(text) && Gathered(Pieces([text[..cut], text[cut..]])) == Some(text)
    ensures Gathered([Failed]) == None && Gathered([]) == Some("")
  {
    OnePiece(text);
    OnePiece(text[..cut]);
    OnePiece(text[cut..]);
    GatheredConcat(Pieces([text[..cut]]), Pieces([text[cut..]]));
    assert Pieces([text[..cut]]) + Pieces([text[cut..]]) == Pieces([text[..cut], text[cut..]]);
    assert text[..cut] + text[cut..] == text;
    assert [Failed][..0] == [];
  }

  lemma OnePiece(text: string)
    ensures Gathered(Pieces([text])) == Some(text)
  {
    assert Pieces([text])[..0] == [];
    assert "" + text == text;
  }

  lemma {:induction false} FailureStays(received: seq<Received>, i: nat)
    requires i <= |received| && Gathered(received[..i]) == None
    ensures Gathered(received) == None
    decreases |received| - i
  {
    if i < |received| {
      assert received[..i + 1][..i] == received[..i];
      FailureStays(received, i + 1);
    } else {
      assert received[..i] == received;
    }
  }

  /** What the client may conclude from its result about the request it made. */
  ghost predicate Concludes(steps: seq<Step>, h: Handler, r: CancelResult) {
    match h
    case Replied(begun, deadline, at, _) =>
      at < |steps| && (r.available && NoneBetween(steps, begun, at) ==> (r.cancelled <==> Hit(steps, begun, |steps|, deadline)))
    case Unread => !r.cancelled
    case _ => r == NoWindow
  }

  /** However the answer is cut into pieces, the client reports an available window exactly when the
      handler wrote an answer that arrived whole; unless another request was accepted in between, it
      then says cancelled exactly when a frame of the window hit. A refused request means no window. */
  lemma ClientLearnsOutcome(steps: seq<Step>, k: nat, received: seq<Received>, read: string -> Option<bool>)
    requires Monotone(steps) && k < |After(steps, |steps|).handlers| && ReadsReplies(read)
    requires Gathered(received) == None || Gathered(received) == Some(Sent(After(steps, |steps|).handlers[k]))
    ensures var h, r := After(steps, |steps|).handlers[k], Understood(Gathered(received), read);
      && Concludes(steps, h, r)
      && (r.cancelled ==> r.available)
      && (r.available <==> Gathered(received) != None && Sent(h) != "")
  {
    hide After, NoneBetween, Accepted, LastAccepted, Hit;
    ReplyIsTrue(steps, |steps|, k);
  }

  // Speaking with a window.

  const HINT := " Say Hey Jarvis to cancel."

  datatype Utterance = Utterance(text: string, urgent: bool)

  /** Without a window the text is only spoken; with one, the hint is spoken with it, and a window
      that was not real is announced, and never reported as one that found nothing. */
  method SpeakWithCancelWindow(text: string, window: int, urgent: bool, socketExists: bool, received: seq<Received>, read: string -> Option<bool>)
    returns (r: CancelResult, said: seq<Utterance>)
    requires forall k :: 0 <= k < |received| && received[k].Chunk? ==> received[k].data != ""
    ensures window <= 0 ==> r == CancelResult(false, true) && said == [Utterance(text, urgent)]
    ensures window > 0 ==> r == if socketExists then Understood(Gathered(received), read) else NoWindow
    ensures window > 0 ==> |said| == (if r.available then 1 else 2) && said[0] == Utterance(text + HINT, urgent)
    ensures window > 0 && !r.available ==> said[1] == Utterance("Cancel unavailable.", true) && !r.cancelled
  {
    if window <= 0 {
      return CancelResult(false, true), [Utterance(text, urgent)];
    }
    said := [Utterance(text + HINT, urgent)];
    r := ListenForCancel(socketExists, received, read);
    if !r.available {
      said := said + [Utterance("Cancel unavailable.", true)];
    }
  }
}
