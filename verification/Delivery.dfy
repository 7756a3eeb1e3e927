// What a delivery, an answer and an approval do for a given pane, said by what the pane shows.
module Delivery {
  import opened Wrappers
  import opened PaneStates
  import opened Transport
  import Text

  // Captures show the pane.

  /** From h on, every capture is what the pane shows at that moment. */
  ghost predicate Truthful(w: World, h: Trace, t: Trace) {
    && |h| <= |t| && t[..|h|] == h
    && forall i :: |h| <= i < |t| ==> ShowsPane(w, t[..i], t[i])
  }

  predicate ShowsPane(w: World, past: Trace, e: Event) {
    (e.Saw? ==> e.ansi == w.ansi(past)) && (e.Read? ==> e.plain == w.plain(past))
  }

  lemma TruthfulNow(w: World, h: Trace)
    ensures Truthful(w, h, h)
  {
  }

  lemma TruthfulStep(w: World, h: Trace, t: Trace, e: Event)
    requires Truthful(w, h, t) && ShowsPane(w, t, e)
    ensures Truthful(w, h, t + [e])
  {
    hide ShowsPane;
    var longer := t + [e];
    forall i | |h| <= i < |longer|
      ensures ShowsPane(w, longer[..i], longer[i])
    {
      if i < |t| {
        assert longer[..i] == t[..i];
      } else {
        assert longer[..i] == t;
      }
    }
  }

  lemma TruthfulOn(w: World, a: Trace, b: Trace, c: Trace)
    requires Truthful(w, a, b) && Truthful(w, b, c)
    ensures Truthful(w, a, c)
  {
    hide ShowsPane;
    assert c[..|a|] == c[..|b|][..|a|];
    forall i | |a| <= i < |c|
      ensures ShowsPane(w, c[..i], c[i])
    {
      if i < |b| {
        assert c[..i] == b[..i] && c[i] == b[i];
      }
    }
  }

  // Looks in a row.

  /** The trace after k looks in a row. */
  function Looks(w: World, h: Trace, until: Until, k: nat): (t: Trace)
    ensures |t| == |h| + k
  {
    if k == 0 then h else Looks(w, h, until, k - 1) + [Look(w, Looks(w, h, until, k - 1), until)]
  }

  /** Does the look after k looks in a row show what is waited for? */
  predicate StopsAt(w: World, eyes: Eyes, h: Trace, until: Until, k: nat) {
    Stops(eyes, until, Look(w, Looks(w, h, until, k), until))
  }

  lemma {:induction false} LooksShift(w: World, h: Trace, until: Until, k: nat)
    ensures Looks(w, h, until, k + 1) == Looks(w, h + [Look(w, h, until)], until, k)
  {
    if k > 0 {
      LooksShift(w, h, until, k - 1);
    } else {
      assert Looks(w, h, until, 0) == h;
    }
  }

  lemma {:induction false} LooksTruthful(w: World, h: Trace, until: Until, k: nat)
    ensures Truthful(w, h, Looks(w, h, until, k))
  {
    hide Truthful;
    if k == 0 {
      TruthfulNow(w, h);
    } else {
      LooksTruthful(w, h, until, k - 1);
      TruthfulStep(w, h, Looks(w, h, until, k - 1), Look(w, Looks(w, h, until, k - 1), until));
    }
  }

  lemma StopsShift(w: World, eyes: Eyes, h: Trace, until: Until, k: nat)
    ensures StopsAt(w, eyes, h, until, k + 1) <==> StopsAt(w, eyes, h + [Look(w, h, until)], until, k)
  {
    hide Looks, Look, Stops;
    LooksShift(w, h, until, k);
  }

  /** The first k looks do not show what is waited for, and no k-th look does either within n; or the next
      one does, and is the last. */
  ghost predicate PollsTo(w: World, eyes: Eyes, h: Trace, n: nat, until: Until, k: nat, r: (Trace, bool)) {
    && k <= n && (forall j :: 0 <= j < k ==> !StopsAt(w, eyes, h, until, j))
    && (if r.1 then k < n && StopsAt(w, eyes, h, until, k) && r.0 == Looks(w, h, until, k + 1)
        else k == n && r.0 == Looks(w, h, until, n))
  }

  lemma PollsLater(w: World, eyes: Eyes, h: Trace, n: nat, until: Until, k: nat, r: (Trace, bool))
    requires !StopsAt(w, eyes, h, until, 0) && PollsTo(w, eyes, h + [Look(w, h, until)], n, until, k, r)
    ensures PollsTo(w, eyes, h, n + 1, until, k + 1, r)
  {
    hide Looks, Look, StopsAt;
    forall j | 0 <= j < k + 1
      ensures !StopsAt(w, eyes, h, until, j)
    {
      if j > 0 {
        StopsShift(w, eyes, h, until, j - 1);
      }
    }
    if r.1 {
      StopsShift(w, eyes, h, until, k);
      LooksShift(w, h, until, k + 1);
    } else {
      LooksShift(w, h, until, n);
    }
  }

  lemma PollsAtOnce(w: World, eyes: Eyes, h: Trace, n: nat, until: Until)
    requires n == 0 || StopsAt(w, eyes, h, until, 0)
    ensures PollsTo(w, eyes, h, n, until, 0, PollSpec(w, eyes, h, n, until))
  {
    hide Stops, Look;
    assert Looks(w, h, until, 0) == h;
  }

  lemma PollGoesOn(w: World, eyes: Eyes, h: Trace, n: nat, until: Until)
    requires n > 0 && !StopsAt(w, eyes, h, until, 0)
    ensures PollSpec(w, eyes, h, n, until) == PollSpec(w, eyes, h + [Look(w, h, until)], n - 1, until)
  {
    hide Stops, Look;
    assert Looks(w, h, until, 0) == h;
  }

  /** Polling looks until the first look that shows what is waited for, and at most n times. */
  lemma {:induction false} PollMeaning(w: World, eyes: Eyes, h: Trace, n: nat, until: Until) returns (k: nat)
    ensures PollsTo(w, eyes, h, n, until, k, PollSpec(w, eyes, h, n, until))
    decreases n
  {
    hide StopsAt, Look, Stops, PollSpec, PollsTo;
    if n == 0 || StopsAt(w, eyes, h, until, 0) {
      PollsAtOnce(w, eyes, h, n, until);
      k := 0;
    } else {
      PollGoesOn(w, eyes, h, n, until);
      k := PollMeaning(w, eyes, h + [Look(w, h, until)], n - 1, until);
      PollsLater(w, eyes, h, n - 1, until, k, PollSpec(w, eyes, h + [Look(w, h, until)], n - 1, until));
      k := k + 1;
    }
  }

  /** Within n looks in a row one shows what is waited for. */
  ghost predicate ShowsWithin(w: World, eyes: Eyes, h: Trace, n: nat, until: Until) {
    exists k :: 0 <= k < n && StopsAt(w, eyes, h, until, k)
  }

  lemma PollHits(w: World, eyes: Eyes, h: Trace, n: nat, until: Until)
    ensures PollSpec(w, eyes, h, n, until).1 <==> ShowsWithin(w, eyes, h, n, until)
    ensures Truthful(w, h, PollSpec(w, eyes, h, n, until).0)
  {
    hide StopsAt, Truthful, PollSpec;
    var k := PollMeaning(w, eyes, h, n, until);
    LooksTruthful(w, h, until, k + 1);
    LooksTruthful(w, h, until, n);
  }

  // The payload.

  /** The leading token is all there is before the first space. */
  lemma {:induction false} TokenMeaning(s: string) returns (rest: string)
    ensures ' ' !in LeadingToken(s)
    ensures s == LeadingToken(s) || s == LeadingToken(s) + (" " + rest)
  {
    rest := "";
    if s != "" {
      if s[0] == ' ' {
        rest := s[1..];
        assert s == "" + (" " + rest);
      } else {
        rest := TokenMeaning(s[1..]);
        assert s == [s[0]] + s[1..];
        assert LeadingToken(s) + (" " + rest) == [s[0]] + (LeadingToken(s[1..]) + (" " + rest));
      }
    }
  }

  /** A command is refused if it is blocked, or known neither in general nor for the target; it opens a
      view if it is known to and not blocked; and everything that is no command is plain text. */
  lemma SlashMeaning(text: string, commands: Commands)
    ensures var token, isCommand := LeadingToken(text), text != "" && text[0] == '/';
      && (SlashView(text, commands) == None <==>
            isCommand && (token in commands.blocked || (token !in commands.allowed && token !in commands.custom)))
      && (SlashView(text, commands) == Some(Readonly) <==>
            isCommand && token !in commands.blocked && token in commands.allowed && commands.allowed[token] == Readonly)
  {
    hide LeadingToken;
  }

  lemma {:induction false} CollapseFront(a: string, rest: string)
    requires forall c :: c in a ==> !IsBreak(c)
    ensures CollapseBreaks(a + rest) == a + CollapseBreaks(rest)
  {
    if a == "" {
      assert a + rest == rest;
    } else {
      CollapseFront(a[1..], rest);
      assert (a + rest)[1..] == a[1..] + rest;
      assert [a[0]] + (a[1..] + CollapseBreaks(rest)) == a + CollapseBreaks(rest);
    }
  }

  lemma {:induction false} CollapseRun(breaks: string, rest: string)
    requires breaks != "" && (forall c :: c in breaks ==> IsBreak(c)) && (rest == "" || !IsBreak(rest[0]))
    ensures CollapseBreaks(breaks + rest) == " " + CollapseBreaks(rest)
  {
    var all := breaks + rest;
    assert all[0] == breaks[0] && breaks[0] in breaks && all[1..] == breaks[1..] + rest;
    if |breaks| > 1 {
      assert breaks[1] in breaks && all[1] == breaks[1];
      CollapseRun(breaks[1..], rest);
    } else {
      assert all[1..] == rest;
    }
  }

  /** Text without line breaks is left alone, and a run of line breaks becomes one space. */
  lemma CollapseMeaning(a: string, breaks: string, rest: string)
    requires forall c :: c in a ==> c != '\r' && c != '\n'
    requires breaks != "" && (forall c :: c in breaks ==> c == '\r' || c == '\n')
    requires rest == "" || (rest[0] != '\r' && rest[0] != '\n')
    ensures CollapseBreaks(a) == a
    ensures CollapseBreaks(a + (breaks + rest)) == a + (" " + CollapseBreaks(rest))
  {
    CollapseFront(a, "");
    assert a + "" == a && CollapseBreaks("") == "";
    CollapseFront(a, breaks + rest);
    CollapseRun(breaks, rest);
  }

  // Deliveries.

  predicate Tolerated(payload: string) {
    LeadingToken(payload) in {"/compact", "/btw"}
  }

  /** A ready pane gets every payload that is not a command: it is typed and entered, at once. */
  lemma ReadyPaneGetsPayload(w: World, eyes: Eyes, commands: Commands, h: Trace, payload: string)
    requires w.alive(h) && eyes.classify(w.ansi(h)) == Ready
    requires Normalize(payload) == "" || Normalize(payload)[0] != '/'
    requires var look := h + [Saw(w.ansi(h))]; !w.refuses(look) && !w.refuses(look + [Typed(Normalize(payload))])
    ensures DeliverSpec(w, eyes, commands, h, payload) ==
      (h + [Saw(w.ansi(h))] + [Typed(Normalize(payload))] + [Enter], DeliveryResult(true, NoReason, None))
  {
    hide Normalize, LeadingToken;
  }

  /** A busy pane gets a command that may be queued. */
  lemma BusyPaneGetsTolerated(w: World, eyes: Eyes, commands: Commands, h: Trace, payload: string)
    requires w.alive(h) && eyes.classify(w.ansi(h)) == Busy && Tolerated(Normalize(payload))
    requires SlashView(Normalize(payload), commands) == Some(Inline)
    requires var look := h + [Saw(w.ansi(h))]; !w.refuses(look) && !w.refuses(look + [Typed(Normalize(payload))])
    ensures DeliverSpec(w, eyes, commands, h, payload) ==
      (h + [Saw(w.ansi(h))] + [Typed(Normalize(payload))] + [Enter], DeliveryResult(true, NoReason, None))
  {
    hide Normalize, LeadingToken, SlashView;
  }

  /** The last look before anything is typed. */
  function LastLook(w: World, eyes: Eyes, h: Trace): string {
    var gate := GateSpec(w, eyes, h);
    gate[|gate| - 1].ansi
  }

  /** The looks before a payload: one, unless the pane is covered by a view; then, whether or not the
      view is escaped from, one more afterwards. */
  lemma GateMeaning(w: World, eyes: Eyes, h: Trace)
    ensures var gate := GateSpec(w, eyes, h);
      && Truthful(w, h, gate)
      && (eyes.classify(w.ansi(h)) != PersistentView ==> gate == h + [Saw(w.ansi(h))])
      && (eyes.classify(w.ansi(h)) == PersistentView ==>
            var recovered := RecoverSpec(w, eyes, h + [Saw(w.ansi(h))]).0;
            gate == recovered + [Saw(w.ansi(recovered))])
  {
    hide RecoverSpec, Truthful;
    var first := h + [Saw(w.ansi(h))];
    TruthfulNow(w, h);
    TruthfulStep(w, h, h, Saw(w.ansi(h)));
    if eyes.classify(w.ansi(h)) == PersistentView {
      var recovered := RecoverSpec(w, eyes, first).0;
      RecoverMeaning(w, eyes, first);
      TruthfulOn(w, h, first, recovered);
      TruthfulStep(w, h, recovered, Saw(w.ansi(recovered)));
    }
  }

  /** A view that was open already is escaped from, and that announced, if and only if four more looks
      all show it and its text is that of a known one; it is announced as dismissed if and only if one
      of the next six looks shows the pane ready. */
  lemma RecoverMeaning(w: World, eyes: Eyes, h: Trace)
    ensures var (t, announced) := RecoverSpec(w, eyes, h);
      var stuck := Looks(w, h, Leaves(PersistentView), 4);
      var escaped := stuck + [Read(w.plain(stuck))] + [Esc];
      && Truthful(w, h, t)
      && (announced.Some? <==> !ShowsWithin(w, eyes, h, 4, Leaves(PersistentView)) && eyes.readonlyView(w.plain(stuck)))
      && (announced.Some? ==>
            (|escaped| <= |t| && t[..|escaped|] == escaped
             && (announced.value <==> ShowsWithin(w, eyes, escaped, 6, Becomes(Ready)))))
  {
    hide PollSpec, Truthful, ShowsWithin, Looks;
    PollHits(w, eyes, h, 4, Leaves(PersistentView));
    var (waited, cleared) := PollSpec(w, eyes, h, 4, Leaves(PersistentView));
    if !cleared {
      var k := PollMeaning(w, eyes, h, 4, Leaves(PersistentView));
      var read := waited + [Read(w.plain(waited))];
      TruthfulStep(w, h, waited, Read(w.plain(waited)));
      if eyes.readonlyView(w.plain(waited)) {
        TruthfulStep(w, h, read, Esc);
        PollHits(w, eyes, read + [Esc], 6, Becomes(Ready));
        TruthfulOn(w, h, read + [Esc], PollSpec(w, eyes, read + [Esc], 6, Becomes(Ready)).0);
      }
    }
  }

  /** When each refusal comes: for a missing session; for a refused command; and for the state of the
      pane exactly when the last look before typing shows it neither ready nor busy with a command that
      may be queued, and then it names that state. */
  lemma RefusedIff(w: World, eyes: Eyes, commands: Commands, h: Trace, payload: string)
    ensures var (t, r) := DeliverSpec(w, eyes, commands, h, payload);
      var text := Normalize(payload); var state := eyes.classify(LastLook(w, eyes, h));
      && (r.reason == NoSession <==> !w.alive(h))
      && (r.reason == UnsafeSlash <==> w.alive(h) && SlashView(text, commands) == None)
      && (r.reason.NotReady? <==>
            w.alive(h) && SlashView(text, commands) != None && state != Ready && !(state == Busy && Tolerated(text)))
      && (r.reason.NotReady? ==> r.reason.state == state && t == GateSpec(w, eyes, h))
      && (r.reason == NoSession || r.reason == UnsafeSlash ==> t == h)
  {
    hide Normalize, LeadingToken, SlashView, GateSpec, ReadonlyViewSpec, BusyViewSpec;
    var sent := GateSpec(w, eyes, h) + [Typed(Normalize(payload))] + [Enter];
    ViewReasons(w, eyes, sent);
  }

  lemma ViewReasons(w: World, eyes: Eyes, h: Trace)
    ensures ReadonlyViewSpec(w, eyes, h).1.reason in {NoReason, ViewNotOpened, DismissFailed}
    ensures BusyViewSpec(w, eyes, h).1.reason in {NoReason, ViewNotOpened, DismissFailed}
  {
    hide PollSpec, SettleSpec;
  }

  /** What comes of a delivery that is not refused: the payload and Enter follow the last look, unless
      the terminal multiplexer fails; a plain command is then delivered, and a command that opens a view
      goes on with its view. */
  lemma NotRefusedIsTyped(w: World, eyes: Eyes, commands: Commands, h: Trace, payload: string)
    requires var text, state := Normalize(payload), eyes.classify(LastLook(w, eyes, h));
      w.alive(h) && SlashView(text, commands) != None && (state == Ready || (state == Busy && Tolerated(text)))
    ensures var text, gate := Normalize(payload), GateSpec(w, eyes, h);
      var typed := gate + [Typed(text)];
      DeliverSpec(w, eyes, commands, h, payload) ==
        if w.refuses(gate) then (gate, DeliveryResult(false, TmuxError, None))
        else if w.refuses(typed) then (typed, DeliveryResult(false, TmuxError, None))
        else if SlashView(text, commands) == Some(Inline) then (typed + [Enter], DeliveryResult(true, NoReason, None))
        else if LeadingToken(text) == "/btw" then BusyViewSpec(w, eyes, typed + [Enter])
        else ReadonlyViewSpec(w, eyes, typed + [Enter])
  {
    hide Normalize, LeadingToken, SlashView, GateSpec, ReadonlyViewSpec, BusyViewSpec;
  }

  /** The view of a command is read back and closed: it is not opened if none of six looks shows it; if
      one does, its text then is the answer, and ok says that one of six looks after the one Escape
      showed the pane ready. */
  lemma ReadonlyViewMeaning(w: World, eyes: Eyes, h: Trace) returns (k: nat)
    ensures Truthful(w, h, ReadonlyViewSpec(w, eyes, h).0)
    ensures var (t, r) := ReadonlyViewSpec(w, eyes, h);
      var opens := Becomes(PersistentView);
      if !ShowsWithin(w, eyes, h, 6, opens) then
        r == DeliveryResult(false, ViewNotOpened, None) && t == Looks(w, h, opens, 6)
      else
        && k < 6 && StopsAt(w, eyes, h, opens, k) && (forall j :: 0 <= j < k ==> !StopsAt(w, eyes, h, opens, j))
        && var looked := Looks(w, h, opens, k + 1);
        var escaped := looked + [Read(w.plain(looked))] + [Esc];
        && |escaped| <= |t| && t[..|escaped|] == escaped
        && r.view == Some(Text.Strip(w.plain(looked)))
        && (r.ok <==> ShowsWithin(w, eyes, escaped, 6, Becomes(Ready)))
        && r.reason == (if r.ok then NoReason else DismissFailed)
  {
    hide PollSpec, Truthful, ShowsWithin, Looks, StopsAt, Text.Strip;
    var opens := Becomes(PersistentView);
    k := PollMeaning(w, eyes, h, 6, opens);
    PollHits(w, eyes, h, 6, opens);
    var (looked, seen) := PollSpec(w, eyes, h, 6, opens);
    if seen {
      var read := looked + [Read(w.plain(looked))];
      TruthfulStep(w, h, looked, Read(w.plain(looked)));
      TruthfulStep(w, h, read, Esc);
      PollHits(w, eyes, read + [Esc], 6, Becomes(Ready));
      TruthfulOn(w, h, read + [Esc], PollSpec(w, eyes, read + [Esc], 6, Becomes(Ready)).0);
    }
  }

  /** What the waiting for an answer ends with: the last reading that showed the view's marker; it ends
      when that reading is not pending, when the view is gone, or after n readings. */
  lemma {:induction false} SettleMeaning(w: World, eyes: Eyes, h: Trace, n: nat)
    requires h != [] && h[|h| - 1].Read? && eyes.marker(h[|h| - 1].plain)
    ensures var (t, content) := SettleSpec(w, eyes, h, Text.Strip(h[|h| - 1].plain), n);
      && Truthful(w, h, t) && |h| <= |t| <= |h| + n
      && (forall i :: |h| - 1 <= i < |t| - 1 ==> t[i].Read? && eyes.marker(t[i].plain) && eyes.pending(Text.Strip(t[i].plain)))
      && t[|t| - 1].Read?
      && (if eyes.marker(t[|t| - 1].plain)
          then content == Text.Strip(t[|t| - 1].plain) && (|t| == |h| + n || !eyes.pending(content))
          else |t| > |h| && t[|t| - 2].Read? && content == Text.Strip(t[|t| - 2].plain))
    decreases n
  {
    hide Text.Strip, Truthful;
    TruthfulNow(w, h);
    if n > 0 && eyes.pending(Text.Strip(h[|h| - 1].plain)) {
      var e := Read(w.plain(h));
      TruthfulStep(w, h, h, e);
      if eyes.marker(w.plain(h)) {
        SettleMeaning(w, eyes, h + [e], n - 1);
        var t := SettleSpec(w, eyes, h + [e], Text.Strip(w.plain(h)), n - 1).0;
        TruthfulOn(w, h, h + [e], t);
        StartsWith(w, h + [e], t);
      }
    }
  }

  lemma StartsWith(w: World, h: Trace, t: Trace)
    requires Truthful(w, h, t)
    ensures forall i :: 0 <= i < |h| ==> t[i] == h[i]
  {
    forall i | 0 <= i < |h|
      ensures t[i] == h[i]
    {
      assert t[..|h|][i] == t[i];
    }
  }

  /** A view that may be open while the pane is busy: not opened if none of six readings shows its marker;
      otherwise it is given up to ten readings to settle, and closed with one Escape; ok says that one
      of six readings after that shows it gone. */
  lemma BusyViewMeaning(w: World, eyes: Eyes, h: Trace) returns (k: nat)
    ensures Truthful(w, h, BusyViewSpec(w, eyes, h).0)
    ensures var (t, r) := BusyViewSpec(w, eyes, h);
      if !ShowsWithin(w, eyes, h, 6, Opens) then
        r == DeliveryResult(false, ViewNotOpened, None) && t == Looks(w, h, Opens, 6)
      else
        && k < 6 && StopsAt(w, eyes, h, Opens, k) && (forall j :: 0 <= j < k ==> !StopsAt(w, eyes, h, Opens, j))
        && var looked := Looks(w, h, Opens, k + 1);
        && looked[|looked| - 1].Read?
        && var (settled, content) := SettleSpec(w, eyes, looked, Text.Strip(looked[|looked| - 1].plain), 10);
        && r.view == Some(content)
        && |settled| < |t| && t[..|settled| + 1] == settled + [Esc]
        && (r.ok <==> ShowsWithin(w, eyes, settled + [Esc], 6, Closes))
        && r.reason == (if r.ok then NoReason else DismissFailed)
  {
    hide PollSpec, SettleSpec, Truthful, ShowsWithin, Looks, StopsAt, Text.Strip;
    k := PollMeaning(w, eyes, h, 6, Opens);
    PollHits(w, eyes, h, 6, Opens);
    var (looked, seen) := PollSpec(w, eyes, h, 6, Opens);
    if seen {
      SettleMeaning(w, eyes, looked, 10);
      var settled := SettleSpec(w, eyes, looked, Text.Strip(looked[|looked| - 1].plain), 10).0;
      TruthfulOn(w, h, looked, settled);
      TruthfulStep(w, h, settled, Esc);
      PollHits(w, eyes, settled + [Esc], 6, Closes);
      TruthfulOn(w, h, settled + [Esc], PollSpec(w, eyes, settled + [Esc], 6, Closes).0);
    }
  }

  /** Every capture of a delivery is what the pane shows at that moment. */
  lemma DeliveryTruthful(w: World, eyes: Eyes, commands: Commands, h: Trace, payload: string)
    ensures Truthful(w, h, DeliverSpec(w, eyes, commands, h, payload).0)
  {
    hide Normalize, LeadingToken, SlashView, GateSpec, ReadonlyViewSpec, BusyViewSpec, Truthful;
    TruthfulNow(w, h);
    GateMeaning(w, eyes, h);
    var gate := GateSpec(w, eyes, h);
    var typed := gate + [Typed(Normalize(payload))];
    TruthfulStep(w, h, gate, Typed(Normalize(payload)));
    TruthfulStep(w, h, typed, Enter);
    var k := ReadonlyViewMeaning(w, eyes, typed + [Enter]);
    TruthfulOn(w, h, typed + [Enter], ReadonlyViewSpec(w, eyes, typed + [Enter]).0);
    k := BusyViewMeaning(w, eyes, typed + [Enter]);
    TruthfulOn(w, h, typed + [Enter], BusyViewSpec(w, eyes, typed + [Enter]).0);
  }

  /** An asking pane gets its key: answering and approving press the option's number after one look if
      and only if the session lives, the option is at least 1, the look shows the pane asking and the
      terminal multiplexer does not fail; ok says that one of six later looks no longer shows it asking.
      Otherwise the reason is the first of these that is missing. */
  lemma AskingPaneGetsKey(w: World, eyes: Eyes, h: Trace, option: int, asking: PaneState)
    ensures var (t, r) := PressSpec(w, eyes, h, option, asking);
      var look := h + [Saw(w.ansi(h))]; var state := eyes.classify(w.ansi(h));
      && Truthful(w, h, t)
      && (if !w.alive(h) then (t, r) == (h, DeliveryResult(false, NoSession, None))
          else if option < 1 then (t, r) == (h, DeliveryResult(false, InvalidOption, None))
          else if state != asking then (t, r) == (look, DeliveryResult(false, NotReady(state), None))
          else if w.refuses(look) then (t, r) == (look, DeliveryResult(false, TmuxError, None))
          else
            var pressed := look + [Typed(Text.Decimal(option))];
            && |pressed| <= |t| && t[..|pressed|] == pressed
            && (r.ok <==> ShowsWithin(w, eyes, pressed, 6, Leaves(asking)))
            && r == DeliveryResult(r.ok, if r.ok then NoReason else NotConfirmed, None))
  {
    hide PollSpec, Truthful, ShowsWithin, Text.Decimal;
    TruthfulNow(w, h);
    var look := h + [Saw(w.ansi(h))];
    TruthfulStep(w, h, h, Saw(w.ansi(h)));
    if option >= 1 {
      var pressed := look + [Typed(Text.Decimal(option))];
      TruthfulStep(w, h, look, Typed(Text.Decimal(option)));
      PollHits(w, eyes, pressed, 6, Leaves(asking));
      TruthfulOn(w, h, pressed, PollSpec(w, eyes, pressed, 6, Leaves(asking)).0);
    }
  }
}
