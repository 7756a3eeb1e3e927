// Delivering the instructions of one dictation: each to its own session, a busy one once more, and
// everything that did not go through spoken.
module Batch {
  import opened Wrappers
  import opened PaneStates
  import opened Transport
  import opened Keystrokes
  import opened DispatchStore
  import Delivery
  import Text

  // In milliseconds; the budget is for the whole batch.
  const RETRY_DELAY := 3000
  const RETRY_BUDGET := 10_000

  datatype Instruction = Instruction(target: string, payload: string)

  datatype Cause = NoSuchSession | CancelUnavailable | Undelivered(reason: Reason)

  /** What became of one instruction; its target is the session it was resolved to, if it was. */
  datatype Outcome = Outcome(target: string, ok: bool, cause: Option<Cause>, view: Option<string>)

  datatype Failure = Failure(target: string, cause: Cause)

  datatype Said =
    | NotFound(target: string) | NoCancel(target: string) | Restarted(target: string, detail: string)
    | Figures(target: string, figures: string) | Unparsed(target: string) | SentTo(target: string)
    | NotClosed(target: string, summary: Option<string>) | NotSent(target: string, reason: Reason)
    | SomeFailed(failures: seq<Failure>, count: nat) | AllSent(count: nat) | NothingToSend

  /** What the surroundings answer: names to sessions, test targets, restarts, summaries of views. */
  datatype Surroundings = Surroundings(
    resolve: string -> Option<string>, isTest: string -> bool, restarted: string -> Option<string>,
    summarize: (string, string) -> Option<string>, commands: Commands, cancelSocket: bool)

  function CountFailed(outcomes: seq<Outcome>): nat {
    if outcomes == [] then 0
    else CountFailed(outcomes[..|outcomes| - 1]) + if outcomes[|outcomes| - 1].ok then 0 else 1
  }

  function SessionOf(s: Surroundings, i: Instruction): string {
    if s.resolve(i.target).Some? then s.resolve(i.target).value else i.target
  }

  /** A refusal before anything is done to a pane. */
  function Refusal(s: Surroundings, i: Instruction): (cause: Option<Cause>)
    ensures cause == None <==> s.resolve(i.target).Some? && (s.cancelSocket || s.isTest(s.resolve(i.target).value))
    ensures cause == Some(NoSuchSession) <==> s.resolve(i.target) == None
    ensures cause.Some? ==> !cause.value.Undelivered?
  {
    match s.resolve(i.target)
    case None => Some(NoSuchSession)
    case Some(session) => if !s.cancelSocket && !s.isTest(session) then Some(CancelUnavailable) else None
  }

  /** How often a payload was typed since start. */
  function TypedSince(t: Trace, start: nat): nat
    requires start <= |t|
    decreases |t|
  {
    if |t| == start then 0 else TypedSince(t[..|t| - 1], start) + if t[|t| - 1].Typed? then 1 else 0
  }

  /** One delivery, and one more if the first found the pane busy and may be repeated. */
  function AttemptSpec(w: World, eyes: Eyes, commands: Commands, h: Trace, payload: string, mayRetry: bool): (Trace, DeliveryResult, bool) {
    var (t, r) := DeliverSpec(w, eyes, commands, h, payload);
    if mayRetry && !r.ok && r.reason == NotReady(Busy) then
      var (t2, r2) := DeliverSpec(w, eyes, commands, t, payload);
      (t2, r2, true)
    else (t, r, false)
  }

  /** A delivery is repeated if and only if it may be and the first time the pane was busy; then the second
      time decides. */
  lemma AttemptMeaning(w: World, eyes: Eyes, commands: Commands, h: Trace, payload: string, mayRetry: bool)
    ensures var (t, r, retried) := AttemptSpec(w, eyes, commands, h, payload, mayRetry);
      var (t1, r1) := DeliverSpec(w, eyes, commands, h, payload);
      && (retried <==> mayRetry && r1.reason == NotReady(Busy))
      && (t, r) == if retried then DeliverSpec(w, eyes, commands, t1, payload) else (t1, r1)
  {
    hide DeliverSpec;
    DeliveryAllowed(w, eyes, commands, h, payload);
  }

  /** A pane that is busy at the first look and ready at the second gets the payload of a batch. */
  lemma BusyOnceIsDelivered(w: World, eyes: Eyes, commands: Commands, h: Trace, payload: string)
    requires var busy := h + [Saw(w.ansi(h))];
      var look := busy + [Saw(w.ansi(busy))];
      && w.alive(h) && w.alive(busy) && eyes.classify(w.ansi(h)) == Busy && eyes.classify(w.ansi(busy)) == Ready
      && !w.refuses(look) && !w.refuses(look + [Typed(Normalize(payload))])
    requires Normalize(payload) == "" || Normalize(payload)[0] != '/'
    ensures var busy := h + [Saw(w.ansi(h))];
      AttemptSpec(w, eyes, commands, h, payload, true) ==
        (busy + [Saw(w.ansi(busy))] + [Typed(Normalize(payload))] + [Enter], DeliveryResult(true, NoReason, None), true)
  {
    hide DeliverSpec, Normalize, LeadingToken, SlashView, GateSpec;
    var busy := h + [Saw(w.ansi(h))];
    Delivery.GateMeaning(w, eyes, h);
    Delivery.RefusedIff(w, eyes, commands, h, payload);
    Delivery.SlashMeaning(Normalize(payload), commands);
    NotTolerated(Normalize(payload));
    Delivery.ReadyPaneGetsPayload(w, eyes, commands, busy, payload);
    AttemptMeaning(w, eyes, commands, h, payload, true);
  }

  lemma NotTolerated(payload: string)
    requires payload == "" || payload[0] != '/'
    ensures !Delivery.Tolerated(payload)
  {
    var rest := Delivery.TokenMeaning(payload);
    if LeadingToken(payload) != "" {
      assert LeadingToken(payload)[0] == payload[0];
    }
    assert "/compact"[0] == '/' && "/btw"[0] == '/';
  }

  lemma {:induction false} TypedConcat(t: Trace, start: nat, mid: nat)
    requires start <= mid <= |t|
    ensures TypedSince(t, start) == TypedSince(t[..mid], start) + TypedSince(t, mid)
    decreases |t|
  {
    if |t| == mid {
      assert t[..mid] == t;
    } else {
      assert t[..|t| - 1][..mid] == t[..mid];
      TypedConcat(t[..|t| - 1], start, mid);
    }
  }

  /** What a call's phase says about what it typed. */
  lemma {:induction false} TypedByPhase(eyes: Eyes, call: Call, start: nat, t: Trace)
    requires start <= |t| && PhaseOf(eyes, call, start, t) != Broken
    ensures TypedSince(t, start) == if PhaseOf(eyes, call, start, t) in {Fresh, Healed} then 0 else 1
    decreases |t|
  {
    if |t| > start {
      TypedByPhase(eyes, call, start, t[..|t| - 1]);
      TypedStep(eyes, call, start, t[..|t| - 1], PhaseOf(eyes, call, start, t[..|t| - 1]), t[|t| - 1]);
    }
  }

  lemma TypedStep(eyes: Eyes, call: Call, start: nat, t: Trace, phase: Phase, e: Transport.Event)
    requires Advance(eyes, call, start, t, phase, e) != Broken
    ensures var next := Advance(eyes, call, start, t, phase, e);
      && phase != Broken
      && (e.Typed? ==> phase in {Fresh, Healed} && next !in {Fresh, Healed})
      && (!e.Typed? ==> (phase in {Fresh, Healed} <==> next in {Fresh, Healed}))
  {
    hide StuckView, ViewShown, MayType;
  }

  lemma DeliveryTypes(w: World, eyes: Eyes, commands: Commands, h: Trace, payload: string)
    ensures var (t, r) := DeliverSpec(w, eyes, commands, h, payload);
      && |h| <= |t| && t[..|h|] == h
      && TypedSince(t, |h|) <= 1 && (WasSubmitted(r) ==> TypedSince(t, |h|) == 1)
      && (r.reason.NotReady? ==> TypedSince(t, |h|) == 0)
      && (r.ok <==> r.reason == NoReason)
  {
    hide DeliverSpec, PhaseOf;
    DeliveryAllowed(w, eyes, commands, h, payload);
    var t := DeliverSpec(w, eyes, commands, h, payload).0;
    TypedByPhase(eyes, DeliveryCall(payload, commands), |h|, t);
  }

  /** However often a delivery is tried, its payload is typed at most once, and exactly once when
      it went through. */
  lemma PayloadTypedOnce(w: World, eyes: Eyes, commands: Commands, h: Trace, payload: string, mayRetry: bool)
    ensures var (t, r, retried) := AttemptSpec(w, eyes, commands, h, payload, mayRetry);
      && |h| <= |t| && t[..|h|] == h
      && TypedSince(t, |h|) <= 1 && (r.ok ==> TypedSince(t, |h|) == 1)
  {
    hide DeliverSpec;
    DeliveryTypes(w, eyes, commands, h, payload);
    var t := DeliverSpec(w, eyes, commands, h, payload).0;
    DeliveryTypes(w, eyes, commands, t, payload);
    var t2 := DeliverSpec(w, eyes, commands, t, payload).0;
    assert t2[..|h|] == t2[..|t|][..|h|] == h;
    TypedConcat(t2, |h|, |t|);
  }

  lemma AttemptGrows(w: World, eyes: Eyes, commands: Commands, h: Trace, payload: string, mayRetry: bool)
    ensures Grew(h, AttemptSpec(w, eyes, commands, h, payload, mayRetry).0, 1)
  {
    hide AttemptSpec;
    PayloadTypedOnce(w, eyes, commands, h, payload, mayRetry);
  }

  /** From h to t, nothing undone and at most n payloads typed. */
  ghost predicate Grew(h: Trace, t: Trace, n: nat) {
    |h| <= |t| && t[..|h|] == h && TypedSince(t, |h|) <= n
  }

  lemma GrewTwice(h: Trace, t: Trace, u: Trace, m: nat, n: nat)
    requires Grew(h, t, m) && Grew(t, u, n)
    ensures Grew(h, u, m + n)
  {
    assert u[..|h|] == u[..|t|][..|h|];
    TypedConcat(u, |h|, |t|);
  }

  lemma GrewFrom(h: Trace, t: Trace, n: nat)
    requires Grew(h, t, n)
    ensures |h| <= |t| && t[..|h|] == h && t[..|t|] == t
  {
  }

  lemma GrewNot(h: Trace)
    ensures Grew(h, h, 0)
  {
  }

  /** How many of the first n instructions are for a session and not refused beforehand. */
  function AddressedTo(s: Surroundings, instructions: seq<Instruction>, n: nat, session: string): nat
    requires n <= |instructions|
  {
    if n == 0 then 0 else AddressedTo(s, instructions, n - 1, session) + ForSession(s, instructions[n - 1], session)
  }

  lemma AddressedMore(s: Surroundings, instructions: seq<Instruction>, k: nat, session: string)
    requires k < |instructions|
    ensures AddressedTo(s, instructions, k + 1, session) == AddressedTo(s, instructions, k, session) + ForSession(s, instructions[k], session)
  {
  }

  function ForSession(s: Surroundings, i: Instruction, session: string): nat {
    if Refusal(s, i) == None && SessionOf(s, i) == session then 1 else 0
  }

  predicate IsAbout(x: Said, target: string) {
    !x.SomeFailed? && !x.AllSent? && !x.NothingToSend? && x.target == target
  }

  predicate GoodNews(x: Said) {
    x.Figures? || x.Unparsed? || x.SentTo?
  }

  /** What is said of an instruction: something, about its own target, and in the end how it went. */
  ghost predicate TurnFits(i: Instruction, o: Outcome, turn: seq<Said>) {
    && turn != [] && (forall k :: 0 <= k < |turn| ==> IsAbout(turn[k], i.target))
    && (GoodNews(turn[|turn| - 1]) <==> o.ok)
  }

  /** What one instruction did: its outcome, the failure it counts as, and what was said of it. */
  ghost predicate Handled(s: Surroundings, i: Instruction, o: Outcome, failures: seq<Failure>, turn: seq<Said>) {
    && o.target == SessionOf(s, i) && TurnFits(i, o, turn)
    && (o.ok <==> o.cause == None)
    && failures == (if o.ok then [] else [Failure(i.target, o.cause.value)])
    && (Refusal(s, i).Some? ==> o.cause == Refusal(s, i))
  }

  /** Where in its session's trace an instruction was attempted, whether it could be repeated, and was. */
  datatype Span = Span(from: nat, to: nat, mayRetry: bool, retried: bool)

  /** Within its span an instruction did what its attempt does, and its outcome is the attempt's. */
  ghost predicate Did(s: Surroundings, i: Instruction, o: Outcome, span: Span, w: World, eyes: Eyes, t: Trace) {
    && span.from <= span.to <= |t|
    && var (done, r, retried) := AttemptSpec(w, eyes, s.commands, t[..span.from], i.payload, span.mayRetry);
    && t[..span.to] == done && span.retried == retried
    && o.ok == r.ok && o.view == r.view && (!o.ok ==> o.cause == Some(Undelivered(r.reason)))
  }

  lemma DidStays(s: Surroundings, i: Instruction, o: Outcome, span: Span, w: World, eyes: Eyes, t: Trace, u: Trace)
    requires Did(s, i, o, span, w, eyes, t) && |t| <= |u| && u[..|t|] == t
    ensures Did(s, i, o, span, w, eyes, u)
  {
    hide AttemptSpec;
    assert u[..span.from] == u[..|t|][..span.from] && u[..span.to] == u[..|t|][..span.to];
  }

  /** The payload was typed and entered between from and to. */
  ghost predicate EnteredWithin(t: Trace, from: nat, to: nat, payload: string) {
    exists j :: from <= j < to - 1 && j + 1 < |t| && t[j] == Typed(Normalize(payload)) && t[j + 1] == Enter
  }

  lemma EnteredLonger(t: Trace, u: Trace, from: nat, to: nat, from1: nat, to1: nat, payload: string)
    requires EnteredWithin(t, from, to, payload) && |t| <= |u| && u[..|t|] == t && from1 <= from && to <= to1
    ensures EnteredWithin(u, from1, to1, payload)
  {
    hide Normalize;
    var j :| from <= j < to - 1 && j + 1 < |t| && t[j] == Typed(Normalize(payload)) && t[j + 1] == Enter;
    assert u[j] == u[..|t|][j] && u[j + 1] == u[..|t|][j + 1];
  }

  /** A call that is past Enter has typed its payload and entered it. */
  lemma {:induction false} EnteredByPhase(eyes: Eyes, payload: string, commands: Commands, start: nat, t: Trace)
    requires start <= |t| && PhaseOf(eyes, DeliveryCall(payload, commands), start, t) in {Submitted, Closed}
    ensures EnteredWithin(t, start, |t|, payload)
    decreases |t|
  {
    hide Normalize, SlashView, StuckView, ViewShown, MayType;
    var call, front, e := DeliveryCall(payload, commands), t[..|t| - 1], t[|t| - 1];
    if e.Enter? {
      FilledEndsTyped(eyes, call, start, front);
      assert t[|t| - 2] == Typed(Normalize(payload)) && t[|t| - 2 + 1] == Enter;
    } else {
      EnteredByPhase(eyes, payload, commands, start, front);
      EnteredLonger(front, t, start, |front|, start, |t|, payload);
    }
  }

  lemma FilledEndsTyped(eyes: Eyes, call: Call, start: nat, t: Trace)
    requires start <= |t| && call.Deliver? && PhaseOf(eyes, call, start, t) == Filled
    ensures |t| > start && t[|t| - 1] == Typed(call.text)
  {
    hide StuckView, ViewShown, MayType;
  }

  lemma DeliveredIsEntered(w: World, eyes: Eyes, commands: Commands, h: Trace, payload: string)
    ensures var (t, r) := DeliverSpec(w, eyes, commands, h, payload);
      |h| <= |t| && t[..|h|] == h && (r.ok ==> EnteredWithin(t, |h|, |t|, payload))
  {
    hide DeliverSpec, PhaseOf, EnteredWithin, DeliveryCall;
    DeliveryAllowed(w, eyes, commands, h, payload);
    var (t, r) := DeliverSpec(w, eyes, commands, h, payload);
    if r.ok {
      EnteredByPhase(eyes, payload, commands, |h|, t);
    }
  }

  /** An instruction whose outcome is ok was typed and entered in its span. */
  lemma OkWasEntered(s: Surroundings, i: Instruction, o: Outcome, span: Span, w: World, eyes: Eyes, t: Trace)
    requires Did(s, i, o, span, w, eyes, t) && o.ok
    ensures EnteredWithin(t, span.from, span.to, i.payload)
  {
    hide DeliverSpec, EnteredWithin;
    var h := t[..span.from];
    DeliveredIsEntered(w, eyes, s.commands, h, i.payload);
    var mid := DeliverSpec(w, eyes, s.commands, h, i.payload).0;
    DeliveredIsEntered(w, eyes, s.commands, mid, i.payload);
    var done := t[..span.to];
    if AttemptSpec(w, eyes, s.commands, h, i.payload, span.mayRetry).2 {
      EnteredLonger(done, t, |mid|, |done|, span.from, span.to, i.payload);
    } else {
      EnteredLonger(done, t, |h|, |done|, span.from, span.to, i.payload);
    }
  }

  method Attempt(pane: Pane, commands: Commands, payload: string, mayRetry: bool) returns (r: DeliveryResult, retried: bool)
    modifies pane
    ensures (pane.trace, r, retried) == AttemptSpec(pane.world, pane.eyes, commands, old(pane.trace), payload, mayRetry)
    ensures retried ==> mayRetry
  {
    hide DeliverSpec;
    r := pane.DeliverLocked(payload, commands);
    retried := mayRetry && !r.ok && r.reason == NotReady(Busy);
    if retried {
      r := pane.DeliverLocked(payload, commands);
    }
  }

  type Traces = map<string, Trace>

  ghost function TracesOf(panes: map<string, Pane>): (traces: Traces)
    reads panes.Values
    ensures traces.Keys == panes.Keys && forall x :: x in panes ==> traces[x] == panes[x].trace
  {
    map x | x in panes :: panes[x].trace
  }

  /** What one instruction did to the traces: nothing but its attempt, in its own session's pane. */
  ghost predicate Attempted(s: Surroundings, i: Instruction, o: Outcome, span: Span, panes: map<string, Pane>, traces: Traces) {
    Refusal(s, i) == None ==>
      && SessionOf(s, i) in panes && SessionOf(s, i) in traces
      && var p := panes[SessionOf(s, i)]; Did(s, i, o, span, p.world, p.eyes, traces[SessionOf(s, i)])
  }

  ghost predicate StartsAt(s: Surroundings, i: Instruction, span: Span, traces: Traces) {
    Refusal(s, i) == None ==> SessionOf(s, i) in traces && span.from == |traces[SessionOf(s, i)]|
  }

  /** Other sessions' traces are as they were, and the instruction's own grew by one payload at most. */
  ghost predicate AllGrew(s: Surroundings, i: Instruction, before: Traces, after: Traces) {
    && before.Keys == after.Keys
    && (forall x :: x in before ==> Grew(before[x], after[x], ForSession(s, i, x)))
    && (forall x :: x in before && (x != SessionOf(s, i) || Refusal(s, i).Some?) ==> after[x] == before[x])
  }

  /** Whether the attempt in the trace so far is repeated. */
  ghost predicate Repeats(s: Surroundings, i: Instruction, mayRetry: bool, panes: map<string, Pane>, traces: Traces) {
    && Refusal(s, i) == None && SessionOf(s, i) in panes && SessionOf(s, i) in traces
    && var p := panes[SessionOf(s, i)];
    AttemptSpec(p.world, p.eyes, s.commands, traces[SessionOf(s, i)], i.payload, mayRetry).2
  }

  lemma RefusedDoesNothing(s: Surroundings, i: Instruction, span: Span, mayRetry: bool, panes: map<string, Pane>, traces: Traces)
    ensures Refusal(s, i).Some? ==>
      && AllGrew(s, i, traces, traces) && StartsAt(s, i, span, traces) && !Repeats(s, i, mayRetry, panes, traces)
      && forall o: Outcome :: Attempted(s, i, o, span, panes, traces)
  {
    forall x | x in traces
      ensures Grew(traces[x], traces[x], 0)
    {
      GrewNot(traces[x]);
    }
  }

  lemma OneGrew(s: Surroundings, i: Instruction, session: string, before: Traces, after: Traces)
    requires Refusal(s, i) == None && SessionOf(s, i) == session && session in before && before.Keys == after.Keys
    requires Grew(before[session], after[session], 1)
    requires forall x :: x in before && x != session ==> after[x] == before[x]
    ensures AllGrew(s, i, before, after)
  {
    hide Grew, Refusal, SessionOf;
    forall x | x in before
      ensures Grew(before[x], after[x], ForSession(s, i, x))
    {
      GrewNot(before[x]);
    }
  }

  /** What is said of a delivery, and the failure it counts as. */
  method Announce(s: Surroundings, i: Instruction, r: DeliveryResult) returns (failures: seq<Failure>, x: Said)
    ensures IsAbout(x, i.target) && (GoodNews(x) <==> r.ok)
    ensures failures == if r.ok then [] else [Failure(i.target, Undelivered(r.reason))]
  {
    failures := [];
    var command := LeadingToken(Text.Strip(i.payload));
    if r.ok && r.view.Some? {
      var summary := s.summarize(command, r.view.value);
      x := if summary.Some? then Figures(i.target, summary.value) else Unparsed(i.target);
    } else if r.ok {
      x := SentTo(i.target);
    } else if r.reason == DismissFailed && r.view.Some? {
      failures := [Failure(i.target, Undelivered(r.reason))];
      x := NotClosed(i.target, s.summarize(command, r.view.value));
    } else {
      failures := [Failure(i.target, Undelivered(r.reason))];
      x := NotSent(i.target, r.reason);
    }
  }

  /** The delivery of an instruction that is not refused beforehand. */
  method DeliverTo(s: Surroundings, i: Instruction, session: string, mayRetry: bool, panes: map<string, Pane>)
    returns (r: DeliveryResult, retried: bool, ghost span: Span)
    requires Refusal(s, i) == None && SessionOf(s, i) == session && session in panes
    requires forall x, y :: x in panes && y in panes && panes[x] == panes[y] ==> x == y
    modifies panes[session]
    ensures retried ==> mayRetry
    ensures retried <==> Repeats(s, i, mayRetry, panes, old(TracesOf(panes)))
    ensures span.mayRetry == mayRetry && span.retried == retried
    ensures var o := Outcome(session, r.ok, if r.ok then None else Some(Undelivered(r.reason)), r.view);
      Attempted(s, i, o, span, panes, TracesOf(panes))
    ensures StartsAt(s, i, span, old(TracesOf(panes))) && AllGrew(s, i, old(TracesOf(panes)), TracesOf(panes))
  {
    hide AttemptSpec, Grew, Refusal, SessionOf, AllGrew;
    var pane := panes[session];
    ghost var h, before := pane.trace, TracesOf(panes);
    AttemptGrows(pane.world, pane.eyes, s.commands, h, i.payload, mayRetry);
    r, retried := Attempt(pane, s.commands, i.payload, mayRetry);
    span := Span(|h|, |pane.trace|, mayRetry, retried);
    GrewFrom(h, pane.trace, 1);
    OneGrew(s, i, session, before, TracesOf(panes));
  }

  /** One instruction of a batch; panes are the sessions' panes. */
  method DeliverOne(s: Surroundings, i: Instruction, mayRetry: bool, panes: map<string, Pane>)
    returns (o: Outcome, failures: seq<Failure>, said: seq<Said>, deliveries: nat, retried: bool, ghost span: Span)
    requires s.resolve(i.target).Some? ==> s.resolve(i.target).value in panes
    requires forall x, y :: x in panes && y in panes && panes[x] == panes[y] ==> x == y
    modifies panes.Values
    ensures Handled(s, i, o, failures, said)
    ensures deliveries == (if Refusal(s, i).Some? then 0 else if retried then 2 else 1) && (retried ==> mayRetry)
    ensures Attempted(s, i, o, span, panes, TracesOf(panes)) && StartsAt(s, i, span, old(TracesOf(panes)))
    ensures AllGrew(s, i, old(TracesOf(panes)), TracesOf(panes))
    ensures retried <==> Repeats(s, i, mayRetry, panes, old(TracesOf(panes)))
    ensures span.mayRetry == mayRetry && span.retried == retried
  {
    hide Attempted, StartsAt, AllGrew, Repeats, AttemptSpec;
    span := Span(0, 0, mayRetry, false);
    retried, deliveries, failures := false, 0, [];
    RefusedDoesNothing(s, i, span, mayRetry, panes, TracesOf(panes));
    match s.resolve(i.target)
    case None =>
      return Outcome(i.target, false, Some(NoSuchSession), None), [Failure(i.target, NoSuchSession)], [NotFound(i.target)], 0, false, span;
    case Some(session) =>
      if !s.cancelSocket && !s.isTest(session) {
        return Outcome(session, false, Some(CancelUnavailable), None), [Failure(i.target, CancelUnavailable)], [NoCancel(i.target)], 0, false, span;
      }
      said := if s.restarted(session).Some? then [Restarted(i.target, s.restarted(session).value)] else [];
      var r, x;
      r, retried, span := DeliverTo(s, i, session, mayRetry, panes);
      deliveries := if retried then 2 else 1;
      o := Outcome(session, r.ok, if r.ok then None else Some(Undelivered(r.reason)), r.view);
      failures, x := Announce(s, i, r);
      said := said + [x];
  }

  function Flatten(turns: seq<seq<Said>>): seq<Said> {
    if turns == [] then [] else Flatten(turns[..|turns| - 1]) + turns[|turns| - 1]
  }

  function SummaryOf(failures: seq<Failure>, count: nat): (x: Said)
    ensures x.SomeFailed? <==> failures != []
    ensures x.SomeFailed? ==> x.failures == failures && x.count == count
    ensures x.AllSent? <==> failures == [] && count > 0
  {
    if failures != [] then SomeFailed(failures, count) else if count > 0 then AllSent(count) else NothingToSend
  }

  /** One result for each instruction so far, in order; one that is refused beforehand says why; and
      each is spoken of in its turn. */
  ghost predicate OutcomesFit(s: Surroundings, instructions: seq<Instruction>, outcomes: seq<Outcome>, turns: seq<seq<Said>>) {
    && |outcomes| == |turns| <= |instructions|
    && forall k :: 0 <= k < |outcomes| ==>
         && outcomes[k].target == SessionOf(s, instructions[k])
         && (Refusal(s, instructions[k]).Some? ==> !outcomes[k].ok && outcomes[k].cause == Refusal(s, instructions[k]))
         && TurnFits(instructions[k], outcomes[k], turns[k])
  }

  lemma OneMoreOutcome(s: Surroundings, instructions: seq<Instruction>, outcomes: seq<Outcome>, turns: seq<seq<Said>>,
                       o: Outcome, failures: seq<Failure>, fs: seq<Failure>, turn: seq<Said>)
    requires |outcomes| < |instructions| && OutcomesFit(s, instructions, outcomes, turns)
    requires Handled(s, instructions[|outcomes|], o, fs, turn) && |failures| == CountFailed(outcomes)
    ensures OutcomesFit(s, instructions, outcomes + [o], turns + [turn])
    ensures |failures + fs| == CountFailed(outcomes + [o]) && Flatten(turns + [turn]) == Flatten(turns) + turn
  {
    hide TurnFits, Refusal, SessionOf;
    CountOneMore(outcomes, o);
    FlattenOneMore(turns, turn);
    HandledFits(s, instructions[|outcomes|], o, fs, turn);
    forall k | 0 <= k < |outcomes + [o]|
      ensures var os, ts := outcomes + [o], turns + [turn];
        && os[k].target == SessionOf(s, instructions[k])
        && (Refusal(s, instructions[k]).Some? ==> !os[k].ok && os[k].cause == Refusal(s, instructions[k]))
        && TurnFits(instructions[k], os[k], ts[k])
    {
    }
  }

  lemma HandledFits(s: Surroundings, i: Instruction, o: Outcome, fs: seq<Failure>, turn: seq<Said>)
    requires Handled(s, i, o, fs, turn)
    ensures o.target == SessionOf(s, i) && TurnFits(i, o, turn) && |fs| == (if o.ok then 0 else 1)
    ensures Refusal(s, i).Some? ==> !o.ok && o.cause == Refusal(s, i)
  {
    hide TurnFits, Refusal, SessionOf;
  }

  /** How many of the first n instructions were repeated. */
  function Retries(spans: seq<Span>, n: nat): nat
    requires n <= |spans|
  {
    if n == 0 then 0 else Retries(spans, n - 1) + if spans[n - 1].retried then 1 else 0
  }

  /** An instruction may be repeated exactly if that is wanted and fewer than three were before it. */
  ghost predicate Budgeted(spans: seq<Span>, retryBusyOnce: bool) {
    forall k :: 0 <= k < |spans| ==> (spans[k].mayRetry <==> retryBusyOnce && Retries(spans, k) < 3)
  }

  lemma {:induction false} RetriesAppend(spans: seq<Span>, span: Span, n: nat)
    requires n <= |spans|
    ensures Retries(spans + [span], n) == Retries(spans, n)
  {
    if n > 0 {
      RetriesAppend(spans, span, n - 1);
    }
  }

  lemma NoneRetried(retryBusyOnce: bool)
    ensures Budgeted([], retryBusyOnce) && Retries([], 0) == 0
  {
  }

  lemma BudgetedMore(spans: seq<Span>, span: Span, retryBusyOnce: bool)
    requires Budgeted(spans, retryBusyOnce) && (span.mayRetry <==> retryBusyOnce && Retries(spans, |spans|) < 3)
    ensures Budgeted(spans + [span], retryBusyOnce)
    ensures Retries(spans + [span], |spans| + 1) == Retries(spans, |spans|) + if span.retried then 1 else 0
  {
    hide Retries;
    forall k: nat | k < |spans + [span]|
      ensures (spans + [span])[k].mayRetry <==> retryBusyOnce && Retries(spans + [span], k) < 3
    {
      RetriesAppend(spans, span, k);
    }
    RetriesAppend(spans, span, |spans|);
    LastRetry(spans, span);
  }

  lemma LastRetry(spans: seq<Span>, span: Span)
    ensures Retries(spans + [span], |spans| + 1) == Retries(spans + [span], |spans|) + if span.retried then 1 else 0
  {
  }

  /** Instructions for one session are attempted one after the other. */
  ghost predicate InTurn(s: Surroundings, instructions: seq<Instruction>, spans: seq<Span>)
    requires |spans| <= |instructions|
  {
    forall j, k :: 0 <= j < k < |spans| && SameSession(s, instructions[j], instructions[k]) ==> spans[j].to <= spans[k].from
  }

  predicate SameSession(s: Surroundings, i: Instruction, j: Instruction) {
    Refusal(s, i) == None == Refusal(s, j) && SessionOf(s, i) == SessionOf(s, j)
  }

  /** How far a batch has come: the results, failures and utterances so far, and what was done to the
      traces since the start. */
  ghost predicate Progress(s: Surroundings, instructions: seq<Instruction>, outcomes: seq<Outcome>, failures: seq<Failure>,
                           turns: seq<seq<Said>>, spans: seq<Span>, panes: map<string, Pane>, start: Traces, traces: Traces) {
    && |outcomes| == |spans| && OutcomesFit(s, instructions, outcomes, turns) && |failures| == CountFailed(outcomes)
    && start.Keys == traces.Keys
    && (forall x :: x in start ==> Grew(start[x], traces[x], AddressedTo(s, instructions, |outcomes|, x)))
    && (forall x :: x in start && !s.cancelSocket && !s.isTest(x) ==> traces[x] == start[x])
    && InTurn(s, instructions, spans)
    && (forall j :: 0 <= j < |outcomes| ==> Attempted(s, instructions[j], outcomes[j], spans[j], panes, traces))
  }

  lemma NoProgressYet(s: Surroundings, instructions: seq<Instruction>, panes: map<string, Pane>, start: Traces)
    ensures Progress(s, instructions, [], [], [], [], panes, start, start) && Flatten([]) == []
  {
    forall x | x in start
      ensures Grew(start[x], start[x], AddressedTo(s, instructions, 0, x))
    {
      GrewNot(start[x]);
    }
  }

  lemma TracesGrow(s: Surroundings, instructions: seq<Instruction>, k: nat, start: Traces, before: Traces, after: Traces)
    requires k < |instructions| && start.Keys == before.Keys
    requires forall x :: x in start ==> Grew(start[x], before[x], AddressedTo(s, instructions, k, x))
    requires AllGrew(s, instructions[k], before, after)
    ensures start.Keys == after.Keys && forall x :: x in start ==> Grew(start[x], after[x], AddressedTo(s, instructions, k + 1, x))
  {
    hide Grew, AddressedTo, ForSession;
    forall x | x in start
      ensures Grew(start[x], after[x], AddressedTo(s, instructions, k + 1, x))
    {
      GrewTwice(start[x], before[x], after[x], AddressedTo(s, instructions, k, x), ForSession(s, instructions[k], x));
      AddressedMore(s, instructions, k, x);
    }
  }

  /** What was attempted before another instruction stands, and lies before what that one does. */
  lemma AttemptStays(s: Surroundings, i: Instruction, o: Outcome, span: Span, panes: map<string, Pane>, before: Traces, after: Traces,
                     next: Instruction, nextSpan: Span)
    requires Attempted(s, i, o, span, panes, before) && AllGrew(s, next, before, after) && StartsAt(s, next, nextSpan, before)
    ensures Attempted(s, i, o, span, panes, after)
    ensures SameSession(s, i, next) ==> span.to <= nextSpan.from
  {
    hide Refusal, SessionOf, Grew, AttemptSpec, ForSession;
    if Refusal(s, i) == None {
      var x := SessionOf(s, i);
      GrewFrom(before[x], after[x], ForSession(s, next, x));
      DidStays(s, i, o, span, panes[x].world, panes[x].eyes, before[x], after[x]);
    }
  }

  /** While the cancel socket is down, nothing is done to a session that is not a test target. */
  lemma UntestedUntouched(s: Surroundings, i: Instruction, x: string, before: Traces, after: Traces)
    requires AllGrew(s, i, before, after) && x in before && !s.cancelSocket && !s.isTest(x)
    ensures after[x] == before[x]
  {
    hide Grew;
    assert SessionOf(s, i) == x ==> Refusal(s, i).Some?;
  }

  lemma OneMoreDone(s: Surroundings, instructions: seq<Instruction>, outcomes: seq<Outcome>, failures: seq<Failure>,
                    turns: seq<seq<Said>>, spans: seq<Span>, panes: map<string, Pane>, start: Traces, before: Traces, after: Traces,
                    o: Outcome, fs: seq<Failure>, turn: seq<Said>, span: Span)
    requires |outcomes| < |instructions| && Progress(s, instructions, outcomes, failures, turns, spans, panes, start, before)
    requires Handled(s, instructions[|outcomes|], o, fs, turn)
    requires Attempted(s, instructions[|outcomes|], o, span, panes, after) && StartsAt(s, instructions[|outcomes|], span, before)
    requires AllGrew(s, instructions[|outcomes|], before, after)
    ensures Progress(s, instructions, outcomes + [o], failures + fs, turns + [turn], spans + [span], panes, start, after)
    ensures Flatten(turns + [turn]) == Flatten(turns) + turn
  {
    hide Handled, Attempted, StartsAt, AllGrew, OutcomesFit, CountFailed, Flatten, InTurn, Grew, AddressedTo, SameSession;
    var k := |outcomes|;
    OneMoreOutcome(s, instructions, outcomes, turns, o, failures, fs, turn);
    TracesGrow(s, instructions, k, start, before, after);
    forall x | x in start && !s.cancelSocket && !s.isTest(x)
      ensures after[x] == start[x]
    {
      UntestedUntouched(s, instructions[k], x, before, after);
    }
    forall j | 0 <= j < k
      ensures Attempted(s, instructions[j], outcomes[j], spans[j], panes, after)
      ensures SameSession(s, instructions[j], instructions[k]) ==> spans[j].to <= span.from
    {
      AttemptStays(s, instructions[j], outcomes[j], spans[j], panes, before, after, instructions[k], span);
    }
    InTurnMore(s, instructions, spans, span);
  }

  /** The instructions of a batch, one after the other. */
  method DeliverAll(s: Surroundings, instructions: seq<Instruction>, retryBusyOnce: bool, panes: map<string, Pane>)
    returns (outcomes: seq<Outcome>, failures: seq<Failure>, spoken: seq<Said>, retries: nat, slept: nat, deliveries: nat,
             ghost turns: seq<seq<Said>>, ghost spans: seq<Span>)
    requires forall k :: 0 <= k < |instructions| && s.resolve(instructions[k].target).Some? ==> s.resolve(instructions[k].target).value in panes
    requires forall x, y :: x in panes && y in panes && panes[x] == panes[y] ==> x == y
    modifies panes.Values
    ensures |outcomes| == |instructions| && spoken == Flatten(turns)
    ensures retries <= 3 && slept == 3000 * retries && (!retryBusyOnce ==> retries == 0) && deliveries <= |instructions| + retries
    ensures |spans| == |instructions| && Budgeted(spans, retryBusyOnce) && retries == Retries(spans, |spans|)
    ensures Progress(s, instructions, outcomes, failures, turns, spans, panes, old(TracesOf(panes)), TracesOf(panes))
  {
    hide Refusal, SessionOf, Flatten, Progress, Handled, Attempted, StartsAt, AllGrew, Repeats, Budgeted;
    NoneRetried(retryBusyOnce);
    outcomes, failures, retries, slept, deliveries := [], [], 0, 0, 0;
    turns, spans, spoken := [], [], [];
    var budget := RETRY_BUDGET;
    ghost var start := TracesOf(panes);
    NoProgressYet(s, instructions, panes, start);
    for k := 0 to |instructions|
      invariant |outcomes| == k == |spans| && spoken == Flatten(turns)
      invariant Budgeted(spans, retryBusyOnce) && retries == Retries(spans, k)
      invariant budget + slept == RETRY_BUDGET && slept == 3000 * retries && retries <= 3
      invariant (!retryBusyOnce ==> retries == 0) && deliveries <= k + retries
      invariant Progress(s, instructions, outcomes, failures, turns, spans, panes, start, TracesOf(panes))
    {
      ghost var before := TracesOf(panes);
      var o, fs, said, ds, retried, span := DeliverOne(s, instructions[k], retryBusyOnce && budget >= RETRY_DELAY, panes);
      OneMoreDone(s, instructions, outcomes, failures, turns, spans, panes, start, before, TracesOf(panes), o, fs, said, span);
      BudgetedMore(spans, span, retryBusyOnce);
      if retried {
        budget := budget - RETRY_DELAY;
        slept := slept + RETRY_DELAY;
        retries := retries + 1;
      }
      deliveries := deliveries + ds;
      outcomes := outcomes + [o];
      failures := failures + fs;
      spoken := spoken + said;
      turns := turns + [said];
      spans := spans + [span];
    }
  }

  lemma InTurnMore(s: Surroundings, instructions: seq<Instruction>, spans: seq<Span>, span: Span)
    requires |spans| < |instructions| && InTurn(s, instructions, spans)
    requires forall j :: 0 <= j < |spans| && SameSession(s, instructions[j], instructions[|spans|]) ==> spans[j].to <= span.from
    ensures InTurn(s, instructions, spans + [span])
  {
    hide SameSession;
  }

  /** One result for each instruction, in order; as many failures as results that are not ok; at most
      three retries and nine seconds of sleep, so at most three deliveries more than instructions.
      Every instruction is spoken of in its turn, the summary comes last, and the dispatch is recorded
      complete. While the cancel socket is down only test targets are touched. No session is typed more payloads than there are instructions for it. Each instruction
      that is not refused beforehand did its attempt in its own session's pane, in turn, and one whose
      result is ok was typed and entered there. */
  method DeliverBatch(s: Surroundings, instructions: seq<Instruction>, ref: string, retryBusyOnce: bool, panes: map<string, Pane>, store: Store, now: int)
    returns (outcomes: seq<Outcome>, failures: seq<Failure>, spoken: seq<Said>, retries: nat, slept: nat, deliveries: nat,
             ghost turns: seq<seq<Said>>, ghost spans: seq<Span>)
    requires forall k :: 0 <= k < |instructions| && s.resolve(instructions[k].target).Some? ==> s.resolve(instructions[k].target).value in panes
    requires forall x, y :: x in panes && y in panes && panes[x] == panes[y] ==> x == y
    modifies panes.Values, store
    ensures |outcomes| == |instructions| && OutcomesFit(s, instructions, outcomes, turns) && |failures| == CountFailed(outcomes)
    ensures retries <= 3 && slept == 3000 * retries && (!retryBusyOnce ==> retries == 0) && deliveries <= |instructions| + retries
    ensures spoken == Flatten(turns) + [SummaryOf(failures, |instructions|)]
    ensures forall x :: x in panes ==> Grew(old(panes[x].trace), panes[x].trace, AddressedTo(s, instructions, |instructions|, x))
    ensures |spans| == |instructions| && InTurn(s, instructions, spans)
    ensures Budgeted(spans, retryBusyOnce) && retries == Retries(spans, |spans|)
    ensures forall x :: x in panes && !s.cancelSocket && !s.isTest(x) ==> panes[x].trace == old(panes[x].trace)
    ensures forall k :: 0 <= k < |instructions| ==> Attempted(s, instructions[k], outcomes[k], spans[k], panes, TracesOf(panes))
    ensures forall k :: 0 <= k < |instructions| && outcomes[k].ok ==> IsEntered(s, instructions[k], spans[k], TracesOf(panes))
    ensures store.file == WriteTo(old(store.file), MarkComplete(Summary(|instructions|, |failures|)), ref, now)
  {
    hide WriteTo, Progress, Grew, AddressedTo, Flatten, Attempted, InTurn, IsEntered, OutcomesFit, CountFailed;
    outcomes, failures, spoken, retries, slept, deliveries, turns, spans := DeliverAll(s, instructions, retryBusyOnce, panes);
    BatchDone(s, instructions, outcomes, failures, turns, spans, panes, old(TracesOf(panes)), TracesOf(panes));
    ghost var traces := TracesOf(panes);
    store.MarkDispatchComplete(ref, Summary(|instructions|, |failures|), now);
    assert TracesOf(panes) == traces;
    spoken := spoken + [SummaryOf(failures, |instructions|)];
  }

  lemma BatchDone(s: Surroundings, instructions: seq<Instruction>, outcomes: seq<Outcome>, failures: seq<Failure>,
                  turns: seq<seq<Said>>, spans: seq<Span>, panes: map<string, Pane>, start: Traces, traces: Traces)
    requires |outcomes| == |instructions| && Progress(s, instructions, outcomes, failures, turns, spans, panes, start, traces)
    ensures OutcomesFit(s, instructions, outcomes, turns) && |failures| == CountFailed(outcomes)
    ensures start.Keys == traces.Keys && forall x :: x in start ==> Grew(start[x], traces[x], AddressedTo(s, instructions, |instructions|, x))
    ensures forall x :: x in start && !s.cancelSocket && !s.isTest(x) ==> traces[x] == start[x]
    ensures |spans| == |instructions| && InTurn(s, instructions, spans)
    ensures forall k :: 0 <= k < |instructions| ==> Attempted(s, instructions[k], outcomes[k], spans[k], panes, traces)
    ensures forall k :: 0 <= k < |instructions| && outcomes[k].ok ==> IsEntered(s, instructions[k], spans[k], traces)
  {
    hide Grew, AddressedTo, Attempted, InTurn, IsEntered, CountFailed, TurnFits, Refusal, SessionOf;
    forall k | 0 <= k < |instructions| && outcomes[k].ok
      ensures IsEntered(s, instructions[k], spans[k], traces)
    {
      assert Refusal(s, instructions[k]) == None;
      AttemptEntered(s, instructions[k], outcomes[k], spans[k], panes, traces);
    }
  }

  /** In the trace of its session, within its span, an instruction's payload was typed and entered. */
  ghost predicate IsEntered(s: Surroundings, i: Instruction, span: Span, traces: Traces) {
    SessionOf(s, i) in traces && EnteredWithin(traces[SessionOf(s, i)], span.from, span.to, i.payload)
  }

  lemma AttemptEntered(s: Surroundings, i: Instruction, o: Outcome, span: Span, panes: map<string, Pane>, traces: Traces)
    requires Refusal(s, i) == None && o.ok && Attempted(s, i, o, span, panes, traces)
    ensures IsEntered(s, i, span, traces)
  {
    hide Refusal, SessionOf, Did, EnteredWithin;
    var p := panes[SessionOf(s, i)];
    OkWasEntered(s, i, o, span, p.world, p.eyes, traces[SessionOf(s, i)]);
  }

  lemma CountOneMore(outcomes: seq<Outcome>, o: Outcome)
    ensures CountFailed(outcomes + [o]) == CountFailed(outcomes) + if o.ok then 0 else 1
  {
    assert (outcomes + [o])[..|outcomes|] == outcomes;
  }

  lemma FlattenOneMore(said: seq<seq<Said>>, more: seq<Said>)
    ensures Flatten(said + [more]) == Flatten(said) + more
  {
    assert (said + [more])[..|said|] == said;
  }
}
