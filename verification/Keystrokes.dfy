// Which keys a call may send into a pane, and after which captures.
module Keystrokes {
  import opened Wrappers
  import opened PaneStates
  import opened Transport
  import Text

  datatype Call = Deliver(text: string, view: View) | Press(option: int, asking: PaneState)

  /** How far a call has come: an old view escaped from, the payload typed, entered, and its own
      view closed; or an option pressed. Broken is for anything out of turn. */
  datatype Phase = Fresh | Healed | Filled | Submitted | Closed | Pressed | Broken

  /** All six looks of a call so far: five at the same covered screen, then its text, a known view. */
  predicate StuckView(eyes: Eyes, t: Trace, start: nat) {
    && |t| == start + 6
    && (forall i :: start <= i < start + 5 ==> t[i].Saw? && eyes.classify(t[i].ansi) == PersistentView)
    && t[start + 5].Read? && eyes.readonlyView(t[start + 5].plain)
  }

  /** The marker of the view was on the screen at some look since Enter. */
  predicate MarkerSinceEnter(eyes: Eyes, t: Trace) {
    t != [] && var e := t[|t| - 1];
    !e.Enter? && ((e.Read? && eyes.marker(e.plain)) || MarkerSinceEnter(eyes, t[..|t| - 1]))
  }

  predicate ViewShown(eyes: Eyes, text: string, t: Trace) {
    if HasMarker(LeadingToken(text)) then t != [] && t[|t| - 1].Read? && MarkerSinceEnter(eyes, t)
    else |t| >= 2 && t[|t| - 1].Read? && t[|t| - 2].Saw? && eyes.classify(t[|t| - 2].ansi) == PersistentView
  }

  /** The call that started at start does e after t. */
  function Advance(eyes: Eyes, call: Call, start: nat, t: Trace, phase: Phase, e: Event): Phase {
    match e
    case Saw(_) => if phase == Filled then Broken else phase
    case Read(_) => if phase == Filled then Broken else phase
    case Esc =>
      if call.Deliver? && phase == Fresh && StuckView(eyes, t, start) then Healed
      else if call.Deliver? && phase == Submitted && call.view == Readonly && ViewShown(eyes, call.text, t) then Closed
      else Broken
    case Typed(text) =>
      if |t| <= start || !t[|t| - 1].Saw? then Broken
      else if call.Deliver? then
        if (phase == Fresh || phase == Healed) && text == call.text && MayType(eyes, text, t[|t| - 1].ansi) then Filled else Broken
      else
        if phase == Fresh && call.option >= 1 && text == Text.Decimal(call.option) && eyes.classify(t[|t| - 1].ansi) == call.asking
        then Pressed else Broken
    case Enter => if call.Deliver? && phase == Filled then Submitted else Broken
  }

  function PhaseOf(eyes: Eyes, call: Call, start: nat, t: Trace): Phase
    requires start <= |t|
    decreases |t|
  {
    if |t| == start then Fresh
    else Advance(eyes, call, start, t[..|t| - 1], PhaseOf(eyes, call, start, t[..|t| - 1]), t[|t| - 1])
  }

  lemma PhaseAppend(eyes: Eyes, call: Call, start: nat, t: Trace, e: Event)
    requires start <= |t|
    ensures PhaseOf(eyes, call, start, t + [e]) == Advance(eyes, call, start, t, PhaseOf(eyes, call, start, t), e)
  {
    assert (t + [e])[..|t|] == t;
  }

  lemma {:induction false} PhaseLooks(eyes: Eyes, call: Call, start: nat, h: Trace, t: Trace)
    requires start <= |h| && OnlyLooks(h, t) && PhaseOf(eyes, call, start, h) != Filled
    ensures PhaseOf(eyes, call, start, t) == PhaseOf(eyes, call, start, h)
    decreases |t|
  {
    hide Advance;
    if |t| > |h| {
      var front := t[..|t| - 1];
      assert front[..|h|] == t[..|h|];
      PhaseLooks(eyes, call, start, h, front);
      LooksStay(eyes, call, start, front, PhaseOf(eyes, call, start, front), t[|t| - 1]);
    } else {
      assert t == h;
    }
  }

  lemma LooksStay(eyes: Eyes, call: Call, start: nat, t: Trace, phase: Phase, e: Event)
    requires IsCapture(e) && phase != Filled
    ensures Advance(eyes, call, start, t, phase, e) == phase
  {
  }

  /** Once broken, always broken: what is allowed is allowed at every moment of a call. */
  lemma {:induction false} PrefixAllowed(eyes: Eyes, call: Call, start: nat, t: Trace, n: nat)
    requires start <= n <= |t| && PhaseOf(eyes, call, start, t) != Broken
    ensures PhaseOf(eyes, call, start, t[..n]) != Broken
    decreases |t|
  {
    if n == |t| {
      assert t[..n] == t;
    } else {
      var front := t[..|t| - 1];
      assert front[..n] == t[..n];
      PrefixAllowed(eyes, call, start, front, n);
    }
  }

  function Keys(t: Trace, start: nat): Trace
    requires start <= |t|
    decreases |t|
  {
    if |t| == start then [] else
      Keys(t[..|t| - 1], start) + if IsCapture(t[|t| - 1]) then [] else [t[|t| - 1]]
  }

  /** The keys of each phase, with or without the Escape that heals. */
  predicate KeysFit(call: Call, phase: Phase, keys: Trace) {
    match phase
    case Fresh => keys == []
    case Healed => keys == [Esc]
    case Filled => call.Deliver? && (keys == [Typed(call.text)] || keys == [Esc, Typed(call.text)])
    case Submitted => call.Deliver? && (keys == [Typed(call.text), Enter] || keys == [Esc, Typed(call.text), Enter])
    case Closed => call.Deliver? && (keys == [Typed(call.text), Enter, Esc] || keys == [Esc, Typed(call.text), Enter, Esc])
    case Pressed => call.Press? && call.option >= 1 && keys == [Typed(Text.Decimal(call.option))]
    case Broken => true
  }

  /** The keys a call has sent are [Esc] [payload [Enter [Esc]]], or one option key. */
  lemma {:induction false} KeysOfCall(eyes: Eyes, call: Call, start: nat, t: Trace)
    requires start <= |t|
    ensures KeysFit(call, PhaseOf(eyes, call, start, t), Keys(t, start))
    decreases |t|
  {
    hide StuckView, ViewShown, MayType, Text.Decimal;
    if |t| > start {
      var front, e := t[..|t| - 1], t[|t| - 1];
      KeysOfCall(eyes, call, start, front);
      var keys := Keys(front, start);
      assert keys + [] == keys;
      KeysStep(eyes, call, start, front, PhaseOf(eyes, call, start, front), e, keys);
    }
  }

  lemma KeysStep(eyes: Eyes, call: Call, start: nat, t: Trace, phase: Phase, e: Event, keys: Trace)
    requires KeysFit(call, phase, keys)
    ensures KeysFit(call, Advance(eyes, call, start, t, phase, e), if IsCapture(e) then keys else keys + [e])
  {
    hide StuckView, ViewShown, MayType, Text.Decimal;
    var next := keys + [e];
    assert |next| == |keys| + 1 && next[|keys|] == e && forall i :: 0 <= i < |keys| ==> next[i] == keys[i];
  }

  // The calls of the transport are allowed.

  lemma RecoverAllowed(w: World, eyes: Eyes, call: Call, h: Trace)
    requires call.Deliver? && eyes.classify(w.ansi(h)) == PersistentView
    ensures var t := RecoverSpec(w, eyes, h + [Saw(w.ansi(h))]).0;
      && |h| < |t| <= |h| + 13 && t[..|h|] == h
      && PhaseOf(eyes, call, |h|, t) in {Fresh, Healed}
    ensures RecoverSpec(w, eyes, h + [Saw(w.ansi(h))]).1.Some? <==>
      PhaseOf(eyes, call, |h|, RecoverSpec(w, eyes, h + [Saw(w.ansi(h))]).0) == Healed
  {
    hide PollSpec, PhaseOf, Advance;
    var first := h + [Saw(w.ansi(h))];
    StartsFresh(eyes, call, h);
    assert OnlyLooks(h, first);
    var (waited, cleared) := PollSpec(w, eyes, first, 4, Leaves(PersistentView));
    assert OnlyLooks(h, waited) by {
      assert waited[..|h|] == waited[..|first|][..|h|] == h;
    }
    PhaseLooks(eyes, call, |h|, h, waited);
    if !cleared {
      var looked := waited + [Read(w.plain(waited))];
      assert OnlyLooks(h, looked);
      PhaseLooks(eyes, call, |h|, h, looked);
      if eyes.readonlyView(w.plain(waited)) {
        assert waited[|h|] == waited[..|first|][|h|];
        StuckAfterWaiting(w, eyes, h, waited);
        PhaseAppend(eyes, call, |h|, looked, Esc);
        HealsHere(eyes, call, |h|, looked);
        var t := PollSpec(w, eyes, looked + [Esc], 6, Becomes(Ready)).0;
        PhaseLooks(eyes, call, |h|, looked + [Esc], t);
        assert t[..|h|] == t[..|looked + [Esc]|][..|h|] == h;
      }
    }
  }

  lemma HealsHere(eyes: Eyes, call: Call, start: nat, t: Trace)
    requires call.Deliver? && StuckView(eyes, t, start)
    ensures Advance(eyes, call, start, t, Fresh, Esc) == Healed
  {
  }

  lemma StartsFresh(eyes: Eyes, call: Call, h: Trace)
    ensures PhaseOf(eyes, call, |h|, h) == Fresh
  {
  }

  lemma StuckAfterWaiting(w: World, eyes: Eyes, h: Trace, waited: Trace)
    requires eyes.classify(w.ansi(h)) == PersistentView
    requires |waited| > |h| && waited[|h|] == Saw(w.ansi(h))
    requires (waited, false) == PollSpec(w, eyes, h + [Saw(w.ansi(h))], 4, Leaves(PersistentView))
    requires eyes.readonlyView(w.plain(waited))
    ensures StuckView(eyes, waited + [Read(w.plain(waited))], |h|)
  {
    hide PollSpec;
    forall i | |h| <= i < |h| + 5
      ensures waited[i].Saw? && eyes.classify(waited[i].ansi) == PersistentView
    {
    }
  }

  lemma GateAllowed(w: World, eyes: Eyes, call: Call, h: Trace)
    requires call.Deliver?
    ensures var t := GateSpec(w, eyes, h);
      && |h| < |t| <= |h| + 14 && t[..|h|] == h
      && PhaseOf(eyes, call, |h|, t) in {Fresh, Healed}
  {
    hide RecoverSpec, PhaseOf;
    StartsFresh(eyes, call, h);
    if eyes.classify(w.ansi(h)) == PersistentView {
      RecoverAllowed(w, eyes, call, h);
      var recovered := RecoverSpec(w, eyes, h + [Saw(w.ansi(h))]).0;
      PhaseLooks(eyes, call, |h|, recovered, recovered + [Saw(w.ansi(recovered))]);
    } else {
      PhaseLooks(eyes, call, |h|, h, h + [Saw(w.ansi(h))]);
    }
  }

  /** Whether the payload reached the pane's input and was entered. */
  predicate WasSubmitted(r: DeliveryResult) {
    r.reason == NoReason || r.reason == ViewNotOpened || r.reason == DismissFailed
  }

  lemma ClosesHere(eyes: Eyes, call: Call, start: nat, t: Trace)
    requires start <= |t| && PhaseOf(eyes, call, start, t) == Submitted
    requires call.Deliver? && call.view == Readonly && ViewShown(eyes, call.text, t)
    ensures PhaseOf(eyes, call, start, t + [Esc]) == Closed
  {
    PhaseAppend(eyes, call, start, t, Esc);
  }

  /** A view that a command opened: either nothing more is typed, or one Escape. */
  lemma ReadonlyViewAllowed(w: World, eyes: Eyes, call: Call, start: nat, h: Trace)
    requires start <= |h| && PhaseOf(eyes, call, start, h) == Submitted
    requires call.Deliver? && call.view == Readonly && !HasMarker(LeadingToken(call.text))
    ensures var (t, r) := ReadonlyViewSpec(w, eyes, h);
      && |h| <= |t| <= |h| + 14 && t[..|h|] == h
      && PhaseOf(eyes, call, start, t) == (if r.reason == ViewNotOpened then Submitted else Closed)
      && WasSubmitted(r) && (r.ok <==> r.reason == NoReason)
      && (r.ok ==> t != [] && t[|t| - 1].Saw? && eyes.classify(t[|t| - 1].ansi) == Ready)
  {
    hide PollSpec, PhaseOf, Advance, Text.Strip, LeadingToken;
    var (looked, seen) := PollSpec(w, eyes, h, 6, Becomes(PersistentView));
    PhaseLooks(eyes, call, start, h, looked);
    if seen {
      var read := looked + [Read(w.plain(looked))];
      PhaseLooks(eyes, call, start, looked, read);
      ClosesHere(eyes, call, start, read);
      var t := PollSpec(w, eyes, read + [Esc], 6, Becomes(Ready)).0;
      PhaseLooks(eyes, call, start, read + [Esc], t);
      assert t[..|h|] == t[..|read + [Esc]|][..|h|] == h;
    }
  }

  lemma {:induction false} MarkerStays(eyes: Eyes, h: Trace, t: Trace)
    requires MarkerSinceEnter(eyes, h) && OnlyLooks(h, t)
    ensures MarkerSinceEnter(eyes, t)
    decreases |t|
  {
    if |t| > |h| {
      assert t[..|t| - 1][..|h|] == t[..|h|];
      MarkerStays(eyes, h, t[..|t| - 1]);
    } else {
      assert t == h;
    }
  }

  lemma MarkerNow(eyes: Eyes, t: Trace)
    requires t != [] && t[|t| - 1].Read? && eyes.marker(t[|t| - 1].plain)
    ensures MarkerSinceEnter(eyes, t)
  {
  }

  lemma StillShown(eyes: Eyes, text: string, looked: Trace, settled: Trace)
    requires HasMarker(LeadingToken(text)) && OnlyLooks(looked, settled)
    requires looked != [] && looked[|looked| - 1].Read? && eyes.marker(looked[|looked| - 1].plain)
    requires forall i :: |looked| <= i < |settled| ==> settled[i].Read?
    ensures ViewShown(eyes, text, settled)
  {
    MarkerNow(eyes, looked);
    MarkerStays(eyes, looked, settled);
    assert settled[..|looked|][|looked| - 1] == settled[|looked| - 1];
  }

  lemma BusyViewAllowed(w: World, eyes: Eyes, call: Call, start: nat, h: Trace)
    requires start <= |h| && PhaseOf(eyes, call, start, h) == Submitted
    requires call.Deliver? && call.view == Readonly && HasMarker(LeadingToken(call.text))
    ensures var (t, r) := BusyViewSpec(w, eyes, h);
      && |h| <= |t| <= |h| + 23 && t[..|h|] == h
      && PhaseOf(eyes, call, start, t) == (if r.reason == ViewNotOpened then Submitted else Closed)
      && WasSubmitted(r) && (r.ok <==> r.reason == NoReason)
      && (r.ok ==> t != [] && t[|t| - 1].Read? && !eyes.marker(t[|t| - 1].plain))
  {
    hide PollSpec, SettleSpec, PhaseOf, Advance, Text.Strip, LeadingToken, MarkerSinceEnter, ViewShown;
    var (looked, seen) := PollSpec(w, eyes, h, 6, Opens);
    PhaseLooks(eyes, call, start, h, looked);
    if seen {
      var (settled, content) := SettleSpec(w, eyes, looked, Text.Strip(looked[|looked| - 1].plain), 10);
      PhaseLooks(eyes, call, start, looked, settled);
      StillShown(eyes, call.text, looked, settled);
      ClosesHere(eyes, call, start, settled);
      var t := PollSpec(w, eyes, settled + [Esc], 6, Closes).0;
      PhaseLooks(eyes, call, start, settled + [Esc], t);
      assert t[..|h|] == t[..|settled + [Esc]|][..|looked|][..|h|] == h;
    }
  }

  function DeliveryCall(payload: string, commands: Commands): Call {
    var text := Normalize(payload);
    Deliver(text, if SlashView(text, commands) == Some(Readonly) then Readonly else Inline)
  }

  /** Whatever the pane shows, a delivery sends only what is allowed, within 39 events. Its result
      tells whether the payload was entered, and ok means that its own view, if it opens one, is
      closed again; a refusal for the pane's state, for the command or for a missing session means
      that nothing was typed. */
  lemma DeliveryAllowed(w: World, eyes: Eyes, commands: Commands, h: Trace, payload: string)
    ensures var (t, r) := DeliverSpec(w, eyes, commands, h, payload); var call := DeliveryCall(payload, commands);
      && |h| <= |t| <= |h| + 39 && t[..|h|] == h
      && var phase := PhaseOf(eyes, call, |h|, t);
      && phase in {Fresh, Healed, Filled, Submitted, Closed}
      && (WasSubmitted(r) <==> phase in {Submitted, Closed})
      && (r.reason.NotReady? || r.reason.UnsafeSlash? || r.reason.NoSession? ==> phase in {Fresh, Healed})
      && (r.ok <==> r.reason == NoReason)
      && (r.ok ==> (phase == Closed <==> call.view == Readonly))
  {
    hide GateSpec, PhaseOf, ReadonlyViewSpec, BusyViewSpec, SlashView, MayType, LeadingToken, Normalize;
    var text, call := Normalize(payload), DeliveryCall(payload, commands);
    StartsFresh(eyes, call, h);
    if w.alive(h) && SlashView(text, commands) != None {
      GateAllowed(w, eyes, call, h);
      var gate := GateSpec(w, eyes, h);
      if MayType(eyes, text, gate[|gate| - 1].ansi) {
        var typed := gate + [Typed(text)];
        var sent := typed + [Enter];
        PhaseAppend(eyes, call, |h|, gate, Typed(text));
        PhaseAppend(eyes, call, |h|, typed, Enter);
        if !w.refuses(gate) && !w.refuses(typed) {
          match SlashView(text, commands).value
          case Inline =>
          case Readonly =>
            if HasMarker(LeadingToken(text)) {
              BusyViewAllowed(w, eyes, call, |h|, sent);
            } else {
              ReadonlyViewAllowed(w, eyes, call, |h|, sent);
            }
            ExtendsTwice(h, sent, DeliverSpec(w, eyes, commands, h, payload).0);
        }
      }
    }
  }

  lemma ExtendsTwice(a: Trace, b: Trace, c: Trace)
    requires |a| <= |b| <= |c| && b[..|a|] == a && c[..|b|] == b
    ensures c[..|a|] == a
  {
    assert c[..|a|] == c[..|b|][..|a|];
  }

  lemma PressesHere(eyes: Eyes, option: int, asking: PaneState, h: Trace, ansi: string)
    requires option >= 1 && eyes.classify(ansi) == asking
    ensures PhaseOf(eyes, Press(option, asking), |h|, h + [Saw(ansi)]) == Fresh
    ensures PhaseOf(eyes, Press(option, asking), |h|, h + [Saw(ansi)] + [Typed(Text.Decimal(option))]) == Pressed
  {
    hide Text.Decimal;
    var call, looked := Press(option, asking), h + [Saw(ansi)];
    PhaseAppend(eyes, call, |h|, h, Saw(ansi));
    PhaseAppend(eyes, call, |h|, looked, Typed(Text.Decimal(option)));
  }

  /** Answering and approving press one key, and only after a look that showed the question; ok
      means that a later look no longer did. */
  lemma PressAllowed(w: World, eyes: Eyes, h: Trace, option: int, asking: PaneState)
    ensures var (t, r) := PressSpec(w, eyes, h, option, asking);
      && |h| <= |t| <= |h| + 8 && t[..|h|] == h
      && PhaseOf(eyes, Press(option, asking), |h|, t) == (if r.ok || r.reason == NotConfirmed then Pressed else Fresh)
      && (r.ok ==> t != [] && t[|t| - 1].Saw? && eyes.classify(t[|t| - 1].ansi) != asking)
  {
    hide PollSpec, PhaseOf, Advance, Text.Decimal;
    var call, ansi := Press(option, asking), w.ansi(h);
    StartsFresh(eyes, call, h);
    if w.alive(h) && option >= 1 {
      var looked := h + [Saw(ansi)];
      PhaseLooks(eyes, call, |h|, h, looked);
      if eyes.classify(ansi) == asking {
        PressesHere(eyes, option, asking, h, ansi);
        var pressed := looked + [Typed(Text.Decimal(option))];
        var t := PollSpec(w, eyes, pressed, 6, Leaves(asking)).0;
        PhaseLooks(eyes, call, |h|, pressed, t);
        ExtendsTwice(h, pressed, t);
      }
    }
  }

  // Where the code does less than it says.

  /** A pane whose view is open at one look and gone ever after. */
  function ClosingView(h: Trace, shown: string, gone: string): World {
    World(_ => true, _ => "", t => if t == h then shown else gone, _ => false)
  }

  /** An Escape may be sent into a pane that was last seen without the view: when the view closes by
      itself while its answer is still pending, the wait stops and the key is sent all the same. */
  lemma EscapeAfterViewIsGone(eyes: Eyes, h: Trace, shown: string, gone: string)
    requires eyes.marker(shown) && eyes.pending(Text.Strip(shown)) && !eyes.marker(gone)
    ensures BusyViewSpec(ClosingView(h, shown, gone), eyes, h) ==
      (h + [Read(shown)] + [Read(gone)] + [Esc] + [Read(gone)], DeliveryResult(true, NoReason, Some(Text.Strip(shown))))
  {
    hide Text.Strip;
    var w := ClosingView(h, shown, gone);
    assert PollSpec(w, eyes, h, 6, Opens) == (h + [Read(shown)], true);
    assert h + [Read(shown)] != h && |h + [Read(shown)] + [Read(gone)] + [Esc]| != |h|;
    assert SettleSpec(w, eyes, h + [Read(shown)], Text.Strip(shown), 10) == (h + [Read(shown)] + [Read(gone)], Text.Strip(shown));
    assert PollSpec(w, eyes, h + [Read(shown)] + [Read(gone)] + [Esc], 6, Closes)
      == (h + [Read(shown)] + [Read(gone)] + [Esc] + [Read(gone)], true);
  }

  /** The look before the Escape shows the view exactly when the view was not found gone while its
      answer was pending. */
  lemma EscapeSeesView(w: World, eyes: Eyes, h: Trace, content: string, n: nat)
    requires h != [] && h[|h| - 1].Read? && eyes.marker(h[|h| - 1].plain)
    ensures var t := SettleSpec(w, eyes, h, content, n).0;
      && t != [] && t[|t| - 1].Read?
      && (eyes.marker(t[|t| - 1].plain) <==> forall i :: |h| <= i < |t| ==> t[i].Read? && eyes.marker(t[i].plain))
    decreases n
  {
    if n > 0 && eyes.pending(content) && eyes.marker(w.plain(h)) {
      var next := h + [Read(w.plain(h))];
      EscapeSeesView(w, eyes, next, Text.Strip(w.plain(h)), n - 1);
      var t := SettleSpec(w, eyes, h, content, n).0;
      assert t[|h|] == t[..|next|][|h|] == Read(w.plain(h));
    }
  }

  /** A payload that the code types, it types right after a look that showed the pane ready, or busy
      with a command that may be queued, and it types it as it was normalised. */
  lemma {:induction false} TypedAfterLook(w: World, eyes: Eyes, commands: Commands, h: Trace, payload: string, j: nat)
    requires |h| <= j < |DeliverSpec(w, eyes, commands, h, payload).0| && DeliverSpec(w, eyes, commands, h, payload).0[j].Typed?
    ensures var t := DeliverSpec(w, eyes, commands, h, payload).0;
      && j > |h| && t[j] == Typed(Normalize(payload)) && t[j - 1].Saw? && MayType(eyes, Normalize(payload), t[j - 1].ansi)
  {
    hide DeliverSpec, MayType, PhaseOf, Normalize;
    DeliveryAllowed(w, eyes, commands, h, payload);
    var t, call := DeliverSpec(w, eyes, commands, h, payload).0, DeliveryCall(payload, commands);
    PrefixAllowed(eyes, call, |h|, t, j + 1);
    assert t[..j + 1] == t[..j] + [t[j]];
    PhaseAppend(eyes, call, |h|, t[..j], t[j]);
  }
}

// Any number of threads delivering into, answering and approving any number of targets. Each event
// of a call interleaves freely with those of the others; a call does what the code does with what it
// has seen, and may stop early, as it does when a command of the terminal multiplexer fails.
module KeystrokeRuns {
  import opened Wrappers
  import opened PaneStates
  import opened Transport
  import opened Keystrokes
  import Text

  datatype Job = DeliverJob(payload: string, commands: Commands) | AnswerJob(option: int) | ApproveJob

  function CallOf(job: Job): Call {
    match job
    case DeliverJob(payload, commands) => DeliveryCall(payload, commands)
    case AnswerJob(option) => Press(option, BlockedQuestion)
    case ApproveJob => Press(1, PermissionPrompt)
  }

  /** What the code makes of the trace h, and what it returns, in a world that answers as w. */
  function Run(eyes: Eyes, w: World, job: Job, h: Trace): (Trace, DeliveryResult) {
    match job
    case DeliverJob(payload, commands) => DeliverSpec(w, eyes, commands, h, payload)
    case AnswerJob(option) => PressSpec(w, eyes, h, option, BlockedQuestion)
    case ApproveJob => PressSpec(w, eyes, h, 1, PermissionPrompt)
  }

  function Script(eyes: Eyes, w: World, job: Job, h: Trace): Trace {
    Run(eyes, w, job, h).0
  }

  /** A thread asks for a call, gets the target's lock from the table, acquires it, and is inside;
      start is where the target's trace then stood. What the target will show it is its own world. */
  datatype Thread =
    | Idle
    | Wants(target: string, world: World, job: Job)
    | HasLock(target: string, world: World, job: Job, lock: nat)
    | Inside(target: string, world: World, job: Job, lock: nat, start: nat)

  /** A call that is over: what it did lies between start and end of its target's trace; it returned a
      result unless it stopped early. */
  datatype Block = Block(world: World, job: Job, start: nat, end: nat, result: Option<DeliveryResult>)

  datatype State = State(
    table: map<string, nat>, locks: seq<Option<nat>>, threads: seq<Thread>,
    traces: map<string, Trace>, blocks: map<string, seq<Block>>)

  datatype Step =
    | Ask(thread: nat, target: string, world: World, job: Job)
    | LookUp(thread: nat)
    | Acquire(thread: nat)
    | Do(thread: nat)
    | Return(thread: nat)
    | Stop(thread: nat)

  function TraceOf(s: State, target: string): Trace {
    if target in s.traces then s.traces[target] else []
  }

  function BlocksOf(s: State, target: string): seq<Block> {
    if target in s.blocks then s.blocks[target] else []
  }

  function Set(s: State, t: nat, thread: Thread): State
    requires t < |s.threads|
  {
    s.(threads := s.threads[t := thread])
  }

  /** Gets the target's lock, creating it at the first request. */
  function LookUpLock(s: State, t: nat, thread: Thread): State
    requires t < |s.threads| && thread.Wants?
  {
    var x := thread.target;
    if x in s.table then Set(s, t, HasLock(x, thread.world, thread.job, s.table[x]))
    else Set(s, t, HasLock(x, thread.world, thread.job, |s.locks|)).(table := s.table[x := |s.locks|], locks := s.locks + [None])
  }

  /** The next thing the thread's call does, if there is one. */
  function NextEvent(eyes: Eyes, thread: Thread, trace: Trace): Option<Event>
    requires thread.Inside?
  {
    if thread.start > |trace| then None
    else
      var script := Script(eyes, thread.world, thread.job, trace[..thread.start]);
      if |trace| < |script| then Some(script[|trace|]) else None
  }

  function Leave(s: State, t: nat, result: Option<DeliveryResult>): State
    requires t < |s.threads| && s.threads[t].Inside? && s.threads[t].lock < |s.locks|
  {
    var thread := s.threads[t];
    var block := Block(thread.world, thread.job, thread.start, |TraceOf(s, thread.target)|, result);
    Set(s, t, Idle).(
      locks := s.locks[thread.lock := None],
      blocks := s.blocks[thread.target := BlocksOf(s, thread.target) + [block]])
  }

  /** A step that is not possible leaves everything as it is. */
  function Next(eyes: Eyes, s: State, step: Step): State {
    if step.thread >= |s.threads| then s else
      var t := step.thread;
      var thread := s.threads[t];
      match step
      case Ask(_, target, world, job) => if thread.Idle? then Set(s, t, Wants(target, world, job)) else s
      case LookUp(_) => if thread.Wants? then LookUpLock(s, t, thread) else s
      case Acquire(_) =>
        if thread.HasLock? && thread.lock < |s.locks| && s.locks[thread.lock] == None
        then
          Set(s, t, Inside(thread.target, thread.world, thread.job, thread.lock, |TraceOf(s, thread.target)|)).(
            locks := s.locks[thread.lock := Some(t)])
        else s
      case Do(_) =>
        if thread.Inside? && NextEvent(eyes, thread, TraceOf(s, thread.target)).Some?
        then
          var trace := TraceOf(s, thread.target);
          s.(traces := s.traces[thread.target := trace + [NextEvent(eyes, thread, trace).value]])
        else s
      case Return(_) =>
        if thread.Inside? && thread.lock < |s.locks| && thread.start <= |TraceOf(s, thread.target)|
          && NextEvent(eyes, thread, TraceOf(s, thread.target)) == None
        then Leave(s, t, Some(Run(eyes, thread.world, thread.job, TraceOf(s, thread.target)[..thread.start]).1))
        else s
      case Stop(_) => if thread.Inside? && thread.lock < |s.locks| then Leave(s, t, None) else s
  }

  function Start(threads: nat): State {
    State(map[], [], seq(threads, _ => Idle), map[], map[])
  }

  function After(eyes: Eyes, threads: nat, steps: seq<Step>, i: nat): State
    requires i <= |steps|
  {
    if i == 0 then Start(threads) else Next(eyes, After(eyes, threads, steps, i - 1), steps[i - 1])
  }

  // The calls of the code are allowed, and so is every beginning of one.

  lemma ScriptAllowed(eyes: Eyes, w: World, job: Job, h: Trace)
    ensures var t := Script(eyes, w, job, h);
      |h| <= |t| && t[..|h|] == h && PhaseOf(eyes, CallOf(job), |h|, t) != Broken
  {
    hide DeliverSpec, PressSpec, PhaseOf, DeliveryCall;
    match job
    case DeliverJob(payload, commands) => DeliveryAllowed(w, eyes, commands, h, payload);
    case AnswerJob(option) => PressAllowed(w, eyes, h, option, BlockedQuestion);
    case ApproveJob => PressAllowed(w, eyes, h, 1, PermissionPrompt);
  }

  /** From start on, t is the beginning of what the call does. */
  ghost predicate Follows(eyes: Eyes, w: World, job: Job, start: nat, t: Trace) {
    && start <= |t| && |t| <= |Script(eyes, w, job, t[..start])|
    && t == Script(eyes, w, job, t[..start])[..|t|]
  }

  lemma BeginsFollowing(eyes: Eyes, w: World, job: Job, t: Trace)
    ensures Follows(eyes, w, job, |t|, t)
  {
    hide Script;
    ScriptAllowed(eyes, w, job, t);
    assert t[..|t|] == t;
  }

  lemma GoesOnFollowing(eyes: Eyes, thread: Thread, t: Trace)
    requires thread.Inside? && Follows(eyes, thread.world, thread.job, thread.start, t)
    ensures match NextEvent(eyes, thread, t)
      case Some(e) => Follows(eyes, thread.world, thread.job, thread.start, t + [e])
      case None => t == Script(eyes, thread.world, thread.job, t[..thread.start])
  {
    hide Script;
    var script := Script(eyes, thread.world, thread.job, t[..thread.start]);
    if |t| < |script| {
      var longer := t + [script[|t|]];
      assert longer[..thread.start] == t[..thread.start];
      assert longer == script[..|longer|];
    } else {
      assert script[..|t|] == script;
    }
  }

  lemma FollowingAllowed(eyes: Eyes, w: World, job: Job, start: nat, t: Trace)
    requires Follows(eyes, w, job, start, t)
    ensures PhaseOf(eyes, CallOf(job), start, t) != Broken
  {
    hide Script, PhaseOf, CallOf;
    ScriptAllowed(eyes, w, job, t[..start]);
    PrefixAllowed(eyes, CallOf(job), start, Script(eyes, w, job, t[..start]), |t|);
  }

  // What holds in every reachable state.

  /** Each target has one lock of its own. */
  ghost predicate OneLockEach(s: State) {
    && (forall x :: x in s.table ==> s.table[x] < |s.locks|)
    && (forall x, y :: x in s.table && y in s.table && s.table[x] == s.table[y] ==> x == y)
    && (forall t :: 0 <= t < |s.threads| ==> KnowsLock(s.threads[t], s.table))
  }

  ghost predicate KnowsLock(thread: Thread, table: map<string, nat>) {
    thread.HasLock? || thread.Inside? ==> thread.target in table && table[thread.target] == thread.lock
  }

  /** A lock is held by the thread that is inside with it. */
  ghost predicate Held(s: State) {
    && (forall t :: 0 <= t < |s.threads| && s.threads[t].Inside? ==>
          s.threads[t].lock < |s.locks| && s.locks[s.threads[t].lock] == Some(t))
    && (forall k :: 0 <= k < |s.locks| && s.locks[k].Some? ==>
          s.locks[k].value < |s.threads| && s.threads[s.locks[k].value].Inside? && s.threads[s.locks[k].value].lock == k)
  }

  /** What a call did: the beginning of what the code does, and all of it, with the code's result, if
      it returned. */
  ghost predicate IsCall(eyes: Eyes, b: Block, t: Trace) {
    && b.end == |t| && Follows(eyes, b.world, b.job, b.start, t)
    && (b.result.Some? ==> (t, b.result.value) == Run(eyes, b.world, b.job, t[..b.start]))
  }

  /** The blocks are calls and lie end to end up to cut. */
  ghost predicate Tiled(eyes: Eyes, blocks: seq<Block>, t: Trace, cut: nat)
    requires cut <= |t|
  {
    if blocks == [] then cut == 0
    else
      var b := blocks[|blocks| - 1];
      IsCall(eyes, b, t[..cut]) && Tiled(eyes, blocks[..|blocks| - 1], t, b.start)
  }

  ghost predicate NobodyInside(s: State, target: string) {
    forall t :: 0 <= t < |s.threads| && s.threads[t].Inside? ==> s.threads[t].target != target
  }

  ghost predicate InStep(eyes: Eyes, s: State, thread: Thread)
    requires thread.Inside?
  {
    var trace := TraceOf(s, thread.target);
    && Follows(eyes, thread.world, thread.job, thread.start, trace)
    && Tiled(eyes, BlocksOf(s, thread.target), trace, thread.start)
  }

  /** A target's trace is its calls that are over and then what the thread inside has done so far. */
  ghost predicate Whole(eyes: Eyes, s: State, target: string) {
    && (NobodyInside(s, target) ==> Tiled(eyes, BlocksOf(s, target), TraceOf(s, target), |TraceOf(s, target)|))
    && (forall t :: 0 <= t < |s.threads| && s.threads[t].Inside? && s.threads[t].target == target ==> InStep(eyes, s, s.threads[t]))
  }

  lemma StartInv(eyes: Eyes, threads: nat, target: string)
    ensures var s := Start(threads); OneLockEach(s) && Held(s) && Whole(eyes, s, target)
  {
  }

  lemma KeepsOneLockEach(eyes: Eyes, s: State, step: Step)
    requires OneLockEach(s)
    ensures OneLockEach(Next(eyes, s, step))
  {
    hide OneLockEach;
    match step
    case LookUp(t) => LookUpKeepsOneLock(eyes, s, t);
    case _ => SameTable(eyes, s, step);
  }

  lemma LookUpKeepsOneLock(eyes: Eyes, s: State, t: nat)
    requires OneLockEach(s)
    ensures OneLockEach(Next(eyes, s, LookUp(t)))
  {
  }

  lemma SameTable(eyes: Eyes, s: State, step: Step)
    requires OneLockEach(s) && !step.LookUp?
    ensures OneLockEach(Next(eyes, s, step))
  {
    hide NextEvent, Run, TraceOf, BlocksOf;
  }

  lemma KeepsHeld(eyes: Eyes, s: State, step: Step)
    requires Held(s)
    ensures Held(Next(eyes, s, step))
  {
    hide Held;
    match step
    case Acquire(t) => AcquireKeepsHeld(eyes, s, t);
    case Return(t) => LeavingKeepsHeld(eyes, s, step);
    case Stop(t) => LeavingKeepsHeld(eyes, s, step);
    case _ => OthersKeepHeld(eyes, s, step);
  }

  lemma AcquireKeepsHeld(eyes: Eyes, s: State, t: nat)
    requires Held(s)
    ensures Held(Next(eyes, s, Acquire(t)))
  {
  }

  lemma LeavingKeepsHeld(eyes: Eyes, s: State, step: Step)
    requires Held(s) && (step.Return? || step.Stop?)
    ensures Held(Next(eyes, s, step))
  {
    hide NextEvent, Run, TraceOf, BlocksOf;
  }

  lemma OthersKeepHeld(eyes: Eyes, s: State, step: Step)
    requires Held(s) && !step.Acquire? && !step.Return? && !step.Stop?
    ensures Held(Next(eyes, s, step))
  {
    hide NextEvent, TraceOf;
  }

  lemma {:induction false} TiledLonger(eyes: Eyes, blocks: seq<Block>, t: Trace, cut: nat, e: Event)
    requires cut <= |t| && Tiled(eyes, blocks, t, cut)
    ensures Tiled(eyes, blocks, t + [e], cut)
    decreases |blocks|
  {
    hide IsCall;
    if blocks != [] {
      var b := blocks[|blocks| - 1];
      assert (t + [e])[..cut] == t[..cut];
      StartsBefore(eyes, b, t[..cut]);
      TiledLonger(eyes, blocks[..|blocks| - 1], t, b.start, e);
    }
  }

  lemma StartsBefore(eyes: Eyes, b: Block, t: Trace)
    requires IsCall(eyes, b, t)
    ensures b.start <= b.end == |t|
  {
  }

  /** Two threads are never inside for the same target. */
  lemma Exclusive(s: State, t: nat, u: nat)
    requires OneLockEach(s) && Held(s) && t < |s.threads| && u < |s.threads|
    requires s.threads[t].Inside? && s.threads[u].Inside? && s.threads[t].target == s.threads[u].target
    ensures t == u
  {
    assert KnowsLock(s.threads[t], s.table) && KnowsLock(s.threads[u], s.table);
  }

  /** Nothing that concerns the target changes. */
  ghost predicate SameFor(s: State, r: State, target: string) {
    && |r.threads| == |s.threads| && TraceOf(r, target) == TraceOf(s, target) && BlocksOf(r, target) == BlocksOf(s, target)
    && (forall t :: 0 <= t < |s.threads| && s.threads[t].Inside? && s.threads[t].target == target ==> r.threads[t] == s.threads[t])
    && (forall t :: 0 <= t < |s.threads| && r.threads[t].Inside? && r.threads[t].target == target ==> r.threads[t] == s.threads[t])
  }

  lemma SameKeeps(eyes: Eyes, s: State, r: State, target: string)
    requires Whole(eyes, s, target) && SameFor(s, r, target)
    ensures Whole(eyes, r, target)
  {
    hide Tiled, Follows;
    if NobodyInside(r, target) {
      assert NobodyInside(s, target);
    }
    forall t | 0 <= t < |r.threads| && r.threads[t].Inside? && r.threads[t].target == target
      ensures InStep(eyes, r, r.threads[t])
    {
      assert InStep(eyes, s, s.threads[t]);
    }
  }

  predicate Concerns(s: State, step: Step, target: string) {
    && step.thread < |s.threads|
    && match step
       case Ask(_, _, _, _) => false
       case LookUp(_) => false
       case Acquire(_) => s.threads[step.thread].HasLock? && s.threads[step.thread].target == target
       case _ => s.threads[step.thread].Inside? && s.threads[step.thread].target == target
  }

  lemma OthersUntouched(eyes: Eyes, s: State, step: Step, target: string)
    requires !Concerns(s, step, target)
    ensures SameFor(s, Next(eyes, s, step), target)
  {
    hide NextEvent, Run, SameFor;
    match step
    case Return(_) => LeavingElsewhere(eyes, s, step, target);
    case Stop(_) => LeavingElsewhere(eyes, s, step, target);
    case _ => StepElsewhere(eyes, s, step, target);
  }

  lemma LeavingElsewhere(eyes: Eyes, s: State, step: Step, target: string)
    requires !Concerns(s, step, target) && (step.Return? || step.Stop?)
    ensures SameFor(s, Next(eyes, s, step), target)
  {
    hide NextEvent, Run;
  }

  lemma StepElsewhere(eyes: Eyes, s: State, step: Step, target: string)
    requires !Concerns(s, step, target) && !step.Return? && !step.Stop?
    ensures SameFor(s, Next(eyes, s, step), target)
  {
    hide NextEvent, Run;
  }

  lemma AcquireKeeps(eyes: Eyes, s: State, t: nat, target: string)
    requires OneLockEach(s) && Held(s) && Whole(eyes, s, target) && Concerns(s, Acquire(t), target)
    ensures Whole(eyes, Next(eyes, s, Acquire(t)), target)
  {
    hide Tiled, Follows;
    var thread, r := s.threads[t], Next(eyes, s, Acquire(t));
    if r != s {
      assert KnowsLock(thread, s.table);
      forall u | 0 <= u < |s.threads| && s.threads[u].Inside?
        ensures s.threads[u].target != target
      {
        assert KnowsLock(s.threads[u], s.table);
      }
      assert NobodyInside(s, target);
      BeginsFollowing(eyes, thread.world, thread.job, TraceOf(s, target));
      assert InStep(eyes, r, r.threads[t]);
    }
  }

  lemma AloneInside(s: State, t: nat)
    requires OneLockEach(s) && Held(s) && t < |s.threads| && s.threads[t].Inside?
    ensures forall u :: 0 <= u < |s.threads| && s.threads[u].Inside? && s.threads[u].target == s.threads[t].target ==> u == t
  {
    hide OneLockEach, Held;
    forall u | 0 <= u < |s.threads| && s.threads[u].Inside? && s.threads[u].target == s.threads[t].target
      ensures u == t
    {
      Exclusive(s, t, u);
    }
  }

  lemma DoKeeps(eyes: Eyes, s: State, t: nat, target: string)
    requires OneLockEach(s) && Held(s) && Whole(eyes, s, target) && Concerns(s, Do(t), target)
    ensures Whole(eyes, Next(eyes, s, Do(t)), target)
  {
    hide Tiled, Follows, NextEvent, OneLockEach, Held;
    var thread, r, trace := s.threads[t], Next(eyes, s, Do(t)), TraceOf(s, target);
    assert InStep(eyes, s, thread);
    GoesOnFollowing(eyes, thread, trace);
    if r != s {
      var e := NextEvent(eyes, thread, trace).value;
      StartsWithin(eyes, thread, trace);
      TiledLonger(eyes, BlocksOf(s, target), trace, thread.start, e);
      AloneInside(s, t);
      assert r.threads == s.threads && TraceOf(r, target) == trace + [e] && BlocksOf(r, target) == BlocksOf(s, target);
      assert InStep(eyes, r, thread);
    }
  }

  lemma StartsWithin(eyes: Eyes, thread: Thread, t: Trace)
    requires thread.Inside? && Follows(eyes, thread.world, thread.job, thread.start, t)
    ensures thread.start <= |t|
  {
  }

  lemma TiledMore(eyes: Eyes, blocks: seq<Block>, b: Block, t: Trace)
    requires IsCall(eyes, b, t) && b.start <= |t| && Tiled(eyes, blocks, t, b.start)
    ensures Tiled(eyes, blocks + [b], t, |t|)
  {
    hide IsCall;
    assert (blocks + [b])[..|blocks|] == blocks && t[..|t|] == t;
  }

  lemma LeaveKeeps(eyes: Eyes, s: State, t: nat, result: Option<DeliveryResult>, target: string)
    requires OneLockEach(s) && Held(s) && Whole(eyes, s, target) && t < |s.threads|
    requires s.threads[t].Inside? && s.threads[t].target == target && s.threads[t].lock < |s.locks|
    requires var thread, trace := s.threads[t], TraceOf(s, target);
      thread.start <= |trace|
      && (result.Some? ==> (trace, result.value) == Run(eyes, thread.world, thread.job, trace[..thread.start]))
    ensures Whole(eyes, Leave(s, t, result), target)
  {
    hide Follows, OneLockEach, Held, Run, Tiled;
    var thread, r, trace := s.threads[t], Leave(s, t, result), TraceOf(s, target);
    assert InStep(eyes, s, thread);
    AloneInside(s, t);
    var block := Block(thread.world, thread.job, thread.start, |trace|, result);
    TiledMore(eyes, BlocksOf(s, target), block, trace);
    assert BlocksOf(r, target) == BlocksOf(s, target) + [block] && TraceOf(r, target) == trace;
    assert forall u :: 0 <= u < |r.threads| && r.threads[u].Inside? ==> r.threads[u] == s.threads[u];
  }

  lemma LeavingKeeps(eyes: Eyes, s: State, step: Step, target: string)
    requires OneLockEach(s) && Held(s) && Whole(eyes, s, target) && Concerns(s, step, target) && (step.Return? || step.Stop?)
    ensures Whole(eyes, Next(eyes, s, step), target)
  {
    hide Follows, NextEvent, OneLockEach, Held, Run, Tiled, Leave, Whole;
    var thread, trace := s.threads[step.thread], TraceOf(s, target);
    InsideInStep(eyes, s, step.thread, target);
    StartsWithin(eyes, thread, trace);
    GoesOnFollowing(eyes, thread, trace);
    if thread.lock < |s.locks| {
      LeaveKeeps(eyes, s, step.thread, None, target);
      if NextEvent(eyes, thread, trace) == None {
        LeaveKeeps(eyes, s, step.thread, Some(Run(eyes, thread.world, thread.job, trace[..thread.start]).1), target);
      }
    }
  }

  lemma InsideInStep(eyes: Eyes, s: State, t: nat, target: string)
    requires Whole(eyes, s, target) && t < |s.threads| && s.threads[t].Inside? && s.threads[t].target == target
    ensures Follows(eyes, s.threads[t].world, s.threads[t].job, s.threads[t].start, TraceOf(s, target))
  {
    hide Follows, Tiled;
    assert InStep(eyes, s, s.threads[t]);
  }

  lemma KeepsWhole(eyes: Eyes, s: State, step: Step, target: string)
    requires OneLockEach(s) && Held(s) && Whole(eyes, s, target)
    ensures Whole(eyes, Next(eyes, s, step), target)
  {
    hide Next, Whole, OneLockEach, Held;
    if Concerns(s, step, target) {
      match step
      case Acquire(t) => AcquireKeeps(eyes, s, t, target);
      case Do(t) => DoKeeps(eyes, s, t, target);
      case _ => LeavingKeeps(eyes, s, step, target);
    } else {
      OthersUntouched(eyes, s, step, target);
      SameKeeps(eyes, s, Next(eyes, s, step), target);
    }
  }

  /** For every interleaving, a target's trace is whole calls of the code, one after the other, cut
      short only if they stopped early, and the beginning of the call that is inside. */
  lemma {:induction false} EveryRun(eyes: Eyes, threads: nat, steps: seq<Step>, i: nat, target: string)
    requires i <= |steps|
    ensures var s := After(eyes, threads, steps, i); OneLockEach(s) && Held(s) && Whole(eyes, s, target)
  {
    hide Next, Whole, OneLockEach, Held;
    if i == 0 {
      StartInv(eyes, threads, target);
    } else {
      EveryRun(eyes, threads, steps, i - 1, target);
      var s := After(eyes, threads, steps, i - 1);
      KeepsOneLockEach(eyes, s, steps[i - 1]);
      KeepsHeld(eyes, s, steps[i - 1]);
      KeepsWhole(eyes, s, steps[i - 1], target);
    }
  }

  /** What a thread inside has done is the beginning of what the code does alone, and no step of another
      thread touches its target. */
  lemma CallRunsInside(eyes: Eyes, threads: nat, steps: seq<Step>, i: nat, t: nat, step: Step)
    requires i <= |steps| && t < |After(eyes, threads, steps, i).threads| && After(eyes, threads, steps, i).threads[t].Inside?
    ensures var s := After(eyes, threads, steps, i); var thread := s.threads[t];
      && Follows(eyes, thread.world, thread.job, thread.start, TraceOf(s, thread.target))
      && (step.thread != t ==> TraceOf(Next(eyes, s, step), thread.target) == TraceOf(s, thread.target))
  {
    hide After, OneLockEach, Held, Tiled, Follows, NextEvent, Run;
    var s := After(eyes, threads, steps, i);
    EveryRun(eyes, threads, steps, i, s.threads[t].target);
    assert InStep(eyes, s, s.threads[t]);
    AloneInside(s, t);
    OnlyInsiders(eyes, s, step, s.threads[t].target);
  }

  lemma OnlyInsiders(eyes: Eyes, s: State, step: Step, target: string)
    ensures TraceOf(Next(eyes, s, step), target) == TraceOf(s, target)
      || (step.thread < |s.threads| && s.threads[step.thread].Inside? && s.threads[step.thread].target == target)
  {
    hide NextEvent, Run;
  }

  lemma {:induction false} BlockInTiles(eyes: Eyes, blocks: seq<Block>, t: Trace, cut: nat, k: nat)
    requires cut <= |t| && Tiled(eyes, blocks, t, cut) && k < |blocks|
    ensures var b := blocks[k];
      && b.end <= cut && IsCall(eyes, b, t[..b.end])
      && b.start == (if k == 0 then 0 else blocks[k - 1].end)
      && (k == |blocks| - 1 ==> b.end == cut)
    decreases |blocks|
  {
    hide IsCall;
    var m := |blocks| - 1;
    StartsBefore(eyes, blocks[m], t[..cut]);
    if k < m {
      BlockInTiles(eyes, blocks[..m], t, blocks[m].start, k);
    } else if k > 0 {
      BlockInTiles(eyes, blocks[..m], t, blocks[m].start, k - 1);
    }
  }

  /** The calls lie end to end. Each did what the code does, all of it and with its result unless it
      stopped early, and its keys are [Esc] [payload [Enter [Esc]]] or one option key. */
  lemma KeysAreWholeBlocks(eyes: Eyes, threads: nat, steps: seq<Step>, i: nat, target: string, k: nat)
    requires i <= |steps| && k < |BlocksOf(After(eyes, threads, steps, i), target)|
    ensures var s := After(eyes, threads, steps, i);
      var trace, blocks := TraceOf(s, target), BlocksOf(s, target);
      var b := blocks[k];
      && b.start <= b.end <= |trace|
      && b.start == (if k == 0 then 0 else blocks[k - 1].end)
      && IsCall(eyes, b, trace[..b.end])
      && KeysFit(CallOf(b.job), PhaseOf(eyes, CallOf(b.job), b.start, trace[..b.end]), Keys(trace[..b.end], b.start))
      && PhaseOf(eyes, CallOf(b.job), b.start, trace[..b.end]) != Broken
      && (k == |blocks| - 1 && NobodyInside(s, target) ==> b.end == |trace|)
  {
    hide After, PhaseOf, OneLockEach, Held, Tiled, Follows, CallOf;
    EveryRun(eyes, threads, steps, i, target);
    var s := After(eyes, threads, steps, i);
    var trace, blocks := TraceOf(s, target), BlocksOf(s, target);
    var cut := TileEnd(eyes, s, target);
    BlockInTiles(eyes, blocks, trace, cut, k);
    var b := blocks[k];
    StartsBefore(eyes, b, trace[..b.end]);
    FollowingAllowed(eyes, b.world, b.job, b.start, trace[..b.end]);
    KeysOfCall(eyes, CallOf(b.job), b.start, trace[..b.end]);
  }

  lemma TileEnd(eyes: Eyes, s: State, target: string) returns (cut: nat)
    requires Whole(eyes, s, target)
    ensures cut <= |TraceOf(s, target)| && Tiled(eyes, BlocksOf(s, target), TraceOf(s, target), cut)
    ensures NobodyInside(s, target) ==> cut == |TraceOf(s, target)|
  {
    hide Tiled;
    if NobodyInside(s, target) {
      cut := |TraceOf(s, target)|;
    } else {
      var t :| 0 <= t < |s.threads| && s.threads[t].Inside? && s.threads[t].target == target;
      assert InStep(eyes, s, s.threads[t]);
      cut := s.threads[t].start;
    }
  }

  ghost predicate IsNumber(text: string) {
    exists k: nat :: k >= 1 && text == Text.Decimal(k)
  }

  /** What stands before a key, seen over the whole trace: a payload or an option key comes right after
      a look that called for it, Enter right after a payload, Escape right after a reading. */
  ghost predicate KeyJustified(eyes: Eyes, t: Trace, j: nat)
    requires j < |t|
  {
    match t[j]
    case Saw(_) => true
    case Read(_) => true
    case Esc => j > 0 && t[j - 1].Read?
    case Enter => j > 0 && t[j - 1].Typed?
    case Typed(text) =>
      && j > 0 && t[j - 1].Saw?
      && var state := eyes.classify(t[j - 1].ansi);
      || MayType(eyes, text, t[j - 1].ansi)
      || (state == BlockedQuestion && IsNumber(text))
      || (state == PermissionPrompt && text == "1")
  }

  lemma FilledLast(eyes: Eyes, call: Call, start: nat, t: Trace)
    requires start <= |t| && PhaseOf(eyes, call, start, t) == Filled
    ensures |t| > start && t[|t| - 1].Typed?
  {
    hide StuckView, ViewShown, MayType;
  }

  lemma EscapeAfterReading(eyes: Eyes, call: Call, start: nat, t: Trace)
    requires start <= |t| && PhaseOf(eyes, call, start, t + [Esc]) != Broken
    ensures t != [] && t[|t| - 1].Read?
  {
    hide PhaseOf;
    PhaseAppend(eyes, call, start, t, Esc);
  }

  lemma NewKeyJustified(eyes: Eyes, job: Job, start: nat, t: Trace, e: Event)
    requires start <= |t| && PhaseOf(eyes, CallOf(job), start, t + [e]) != Broken
    ensures KeyJustified(eyes, t + [e], |t|)
  {
    hide PhaseOf, MayType, MarkerSinceEnter, SlashView, Normalize;
    PhaseAppend(eyes, CallOf(job), start, t, e);
    match e
    case Enter => FilledLast(eyes, CallOf(job), start, t);
    case Esc => EscapeAfterReading(eyes, CallOf(job), start, t);
    case Typed(_) => assert Text.Decimal(1) == "1";
    case _ =>
  }

  ghost predicate AllJustified(eyes: Eyes, t: Trace) {
    forall j :: 0 <= j < |t| ==> KeyJustified(eyes, t, j)
  }

  lemma OneMoreJustified(eyes: Eyes, t: Trace, e: Event)
    requires AllJustified(eyes, t) && KeyJustified(eyes, t + [e], |t|)
    ensures AllJustified(eyes, t + [e])
  {
    hide MayType;
    forall j | 0 <= j < |t|
      ensures KeyJustified(eyes, t + [e], j)
    {
      assert KeyJustified(eyes, t, j);
    }
  }

  lemma StepJustified(eyes: Eyes, s: State, step: Step, target: string)
    requires Whole(eyes, s, target) && AllJustified(eyes, TraceOf(s, target))
    ensures AllJustified(eyes, TraceOf(Next(eyes, s, step), target))
  {
    hide PhaseOf, AllJustified, KeyJustified, Follows, Tiled, NextEvent, Run, CallOf;
    OnlyInsiders(eyes, s, step, target);
    if TraceOf(Next(eyes, s, step), target) != TraceOf(s, target) {
      var thread, trace := s.threads[step.thread], TraceOf(s, target);
      assert InStep(eyes, s, thread);
      GoesOnFollowing(eyes, thread, trace);
      StartsWithin(eyes, thread, trace);
      var e := NextEvent(eyes, thread, trace).value;
      FollowingAllowed(eyes, thread.world, thread.job, thread.start, trace + [e]);
      NewKeyJustified(eyes, thread.job, thread.start, trace, e);
      OneMoreJustified(eyes, trace, e);
    }
  }

  /** For every interleaving of calls of the code and in every target's trace, each key is justified by
      what stands immediately before it, whichever calls they belong to. */
  lemma {:induction false} EveryKeyJustified(eyes: Eyes, threads: nat, steps: seq<Step>, i: nat, target: string)
    requires i <= |steps|
    ensures AllJustified(eyes, TraceOf(After(eyes, threads, steps, i), target))
  {
    hide Next, TraceOf, AllJustified, Whole, OneLockEach, Held;
    if i == 0 {
      NothingTyped(eyes, threads, target);
    } else {
      EveryKeyJustified(eyes, threads, steps, i - 1, target);
      EveryRun(eyes, threads, steps, i - 1, target);
      StepJustified(eyes, After(eyes, threads, steps, i - 1), steps[i - 1], target);
    }
  }

  lemma NothingTyped(eyes: Eyes, threads: nat, target: string)
    ensures AllJustified(eyes, TraceOf(Start(threads), target))
  {
  }

  // A thread that nobody interrupts completes its call.

  function DoTimes(eyes: Eyes, s: State, t: nat, n: nat): State {
    if n == 0 then s else Next(eyes, DoTimes(eyes, s, t, n - 1), Do(t))
  }

  lemma DoOnce(eyes: Eyes, s: State, t: nat)
    requires t < |s.threads| && s.threads[t].Inside? && NextEvent(eyes, s.threads[t], TraceOf(s, s.threads[t].target)).Some?
    ensures var r, x := Next(eyes, s, Do(t)), s.threads[t].target;
      && r.threads == s.threads && r.locks == s.locks && r.blocks == s.blocks
      && TraceOf(r, x) == TraceOf(s, x) + [NextEvent(eyes, s.threads[t], TraceOf(s, x)).value]
  {
    hide NextEvent;
  }

  lemma {:induction false} DoesAll(eyes: Eyes, s: State, t: nat, n: nat)
    requires t < |s.threads| && s.threads[t].Inside? && s.threads[t].start == |TraceOf(s, s.threads[t].target)|
    requires var thread, h := s.threads[t], TraceOf(s, s.threads[t].target);
      |h| + n <= |Script(eyes, thread.world, thread.job, h)|
    ensures var thread, h := s.threads[t], TraceOf(s, s.threads[t].target);
      var r := DoTimes(eyes, s, t, n);
      && r.threads == s.threads && r.locks == s.locks && r.blocks == s.blocks
      && TraceOf(r, thread.target) == Script(eyes, thread.world, thread.job, h)[..|h| + n]
  {
    hide Next, Script, TraceOf;
    var thread, h := s.threads[t], TraceOf(s, s.threads[t].target);
    var script := Script(eyes, thread.world, thread.job, h);
    ScriptAllowed(eyes, thread.world, thread.job, h);
    assert DoTimes(eyes, s, t, 0) == s;
    if n > 0 {
      DoesAll(eyes, s, t, n - 1);
      var r := DoTimes(eyes, s, t, n - 1);
      var trace := TraceOf(r, thread.target);
      assert trace[..thread.start] == script[..|h|] == h;
      assert trace + [script[|trace|]] == script[..|h| + n];
      DoOnce(eyes, r, t);
    }
  }

  /** Asking, getting the lock and acquiring it. */
  function Enter3(eyes: Eyes, s: State, t: nat, target: string, world: World, job: Job): State {
    Next(eyes, Next(eyes, Next(eyes, s, Ask(t, target, world, job)), LookUp(t)), Acquire(t))
  }

  predicate IsFree(s: State, target: string) {
    target in s.table ==> s.table[target] < |s.locks| && s.locks[s.table[target]] == None
  }

  lemma GetsInside(eyes: Eyes, s: State, t: nat, target: string, world: World, job: Job)
    requires t < |s.threads| && s.threads[t] == Idle && IsFree(s, target)
    ensures var r := Enter3(eyes, s, t, target, world, job);
      && |r.threads| == |s.threads| && r.threads[t].Inside?
      && r.threads[t] == Inside(target, world, job, r.threads[t].lock, |TraceOf(s, target)|)
      && r.threads[t].lock < |r.locks|
      && r.traces == s.traces && r.blocks == s.blocks
  {
    var s1 := Next(eyes, s, Ask(t, target, world, job));
    assert s1 == s.(threads := s.threads[t := Wants(target, world, job)]);
    var s2 := Next(eyes, s1, LookUp(t));
    assert s2.threads[t].HasLock? && s2.locks[s2.threads[t].lock] == None;
  }

  /** The state after a whole call, by a thread that nobody interrupts. */
  function Completed(eyes: Eyes, s: State, t: nat, target: string, world: World, job: Job): State {
    var h := TraceOf(s, target);
    var script := Script(eyes, world, job, h);
    var events := if |h| <= |script| then |script| - |h| else 0;
    Next(eyes, DoTimes(eyes, Enter3(eyes, s, t, target, world, job), t, events), Return(t))
  }

  /** A call to a target that nobody holds, by a thread that nobody interrupts, does all that the code
      does and returns the code's result. */
  lemma CallCompletes(eyes: Eyes, s: State, t: nat, target: string, world: World, job: Job)
    requires t < |s.threads| && s.threads[t] == Idle && IsFree(s, target)
    ensures var h, r := TraceOf(s, target), Completed(eyes, s, t, target, world, job);
      var (script, result) := Run(eyes, world, job, h);
      && TraceOf(r, target) == script
      && BlocksOf(r, target) == BlocksOf(s, target) + [Block(world, job, |h|, |script|, Some(result))]
      && t < |r.threads| && r.threads[t] == Idle
  {
    hide Enter3, Run, DoTimes;
    var h := TraceOf(s, target);
    var script := Script(eyes, world, job, h);
    ScriptAllowed(eyes, world, job, h);
    GetsInside(eyes, s, t, target, world, job);
    var s1 := Enter3(eyes, s, t, target, world, job);
    assert TraceOf(s1, target) == h && BlocksOf(s1, target) == BlocksOf(s, target);
    DoesAll(eyes, s1, t, |script| - |h|);
    var s2 := DoTimes(eyes, s1, t, |script| - |h|);
    assert TraceOf(s2, target) == script && script[..|h|] == h && BlocksOf(s2, target) == BlocksOf(s, target);
  }
}
