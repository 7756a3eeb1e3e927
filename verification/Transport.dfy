// What a screen shows decides what may be typed into it. The patterns themselves are opaque.
module PaneStates {
  import Text

  datatype PaneState = Ready | Busy | PermissionPrompt | BlockedQuestion | PersistentView | Unknown

  /** The patterns: what a tail of ten lines, or a whole screen, may show, and how the escape codes
      of a capture are read. */
  datatype Patterns = Patterns(
    permission: string -> bool, question: string -> bool, busy: string -> bool, view: string -> bool,
    stripCodes: string -> string, dim: string -> bool)

  const GLYPH: char := '\U{276F}'

  function Lines(s: string): (ls: seq<string>)
    ensures ls != []
  {
    if s == "" then [""]
    else if s[0] == '\n' then [""] + Lines(s[1..])
    else var rest := Lines(s[1..]); [[s[0]] + rest[0]] + rest[1..]
  }

  function NonBlank(ls: seq<string>): seq<string> {
    if ls == [] then [] else (if Text.Strip(ls[0]) == "" then [] else [ls[0]]) + NonBlank(ls[1..])
  }

  function LastTen(ls: seq<string>): seq<string> {
    if |ls| <= 10 then ls else ls[|ls| - 10..]
  }

  function JoinLines(ls: seq<string>): string {
    if ls == [] then "" else if |ls| == 1 then ls[0] else ls[0] + "\n" + JoinLines(ls[1..])
  }

  /** The last line, stripped, that starts with the prompt's glyph. */
  function PromptLine(ls: seq<string>): string {
    if ls == [] then ""
    else
      var l := Text.Strip(ls[|ls| - 1]);
      if l != "" && l[0] == GLYPH then l else PromptLine(ls[..|ls| - 1])
  }

  function ClassifyPane(p: Patterns, text: string): PaneState {
    var tail := LastTen(NonBlank(Lines(text)));
    var shown := JoinLines(tail);
    if p.permission(shown) then PermissionPrompt
    else if p.question(shown) then BlockedQuestion
    else if p.busy(shown) then Busy
    else if p.view(text) then PersistentView
    else if PromptLine(tail) == [GLYPH] then Ready
    else Unknown
  }

  /** What follows the last glyph on its line. */
  function AfterGlyph(s: string): string {
    if s == "" then "" else if GLYPH in s[1..] then AfterGlyph(s[1..]) else if s[0] == GLYPH then Lines(s[1..])[0] else ""
  }

  function ClassifyPaneAnsi(p: Patterns, ansi: string): PaneState {
    var state := ClassifyPane(p, p.stripCodes(ansi));
    if state != Ready && state != Unknown then state
    else if GLYPH !in ansi then Unknown
    else
      var after := AfterGlyph(ansi);
      if Text.Strip(p.stripCodes(after)) == "" || p.dim(after) then Ready else Unknown
  }

  /** A pane is ready exactly when nothing on it asks, works or covers it, and its last prompt holds
      nothing or only a dimmed suggestion. */
  lemma ReadyMeaning(p: Patterns, ansi: string)
    ensures ClassifyPaneAnsi(p, ansi) == Ready <==>
      var plain := p.stripCodes(ansi); var shown := JoinLines(LastTen(NonBlank(Lines(plain))));
      && !p.permission(shown) && !p.question(shown) && !p.busy(shown) && !p.view(plain)
      && GLYPH in ansi && (Text.Strip(p.stripCodes(AfterGlyph(ansi))) == "" || p.dim(AfterGlyph(ansi)))
  {
    hide AfterGlyph, Lines, NonBlank, LastTen, JoinLines, PromptLine;
  }

  /** The verdict on a screen without escape codes: what asks for permission comes first, then a question,
      then work going on, all in the last ten lines that are not blank; then a view anywhere; and what
      remains is ready exactly if the last line with a prompt among those ten holds the prompt alone. */
  lemma ClassifyMeaning(p: Patterns, text: string)
    ensures var tail := LastTen(NonBlank(Lines(text))); var shown := JoinLines(tail);
      && (ClassifyPane(p, text) == PermissionPrompt <==> p.permission(shown))
      && (ClassifyPane(p, text) == BlockedQuestion <==> !p.permission(shown) && p.question(shown))
      && (ClassifyPane(p, text) == Busy <==> !p.permission(shown) && !p.question(shown) && p.busy(shown))
      && (ClassifyPane(p, text) == PersistentView <==> !p.permission(shown) && !p.question(shown) && !p.busy(shown) && p.view(text))
      && (ClassifyPane(p, text) == Ready <==>
            !p.permission(shown) && !p.question(shown) && !p.busy(shown) && !p.view(text) && PromptLine(tail) == [GLYPH])
  {
    hide Lines, NonBlank, LastTen, JoinLines, PromptLine;
  }

  /** With escape codes, only ready and unknown are looked at again: every other verdict stands, and a
      pane that is neither asked, working nor covered is ready or unknown. */
  lemma AnsiKeepsVerdict(p: Patterns, ansi: string)
    ensures var plain, coded := ClassifyPane(p, p.stripCodes(ansi)), ClassifyPaneAnsi(p, ansi);
      if plain == Ready || plain == Unknown then coded == Ready || coded == Unknown else coded == plain
  {
    hide Lines, NonBlank, LastTen, JoinLines, PromptLine, AfterGlyph;
  }

  lemma {:induction false} NonBlankMeaning(ls: seq<string>)
    ensures forall l :: l in NonBlank(ls) <==> l in ls && Text.Strip(l) != ""
    ensures |NonBlank(ls)| <= |ls|
    ensures (forall l :: l in ls ==> Text.Strip(l) != "") ==> NonBlank(ls) == ls
  {
    hide Text.Strip;
    if ls != [] {
      NonBlankMeaning(ls[1..]);
      assert ls == [ls[0]] + ls[1..];
    }
  }

  /** The prompt's line is the last that starts with the glyph, stripped, or nothing. */
  lemma {:induction false} PromptMeaning(ls: seq<string>) returns (k: nat)
    ensures k <= |ls| && forall j :: k <= j < |ls| ==> !IsPrompt(ls[j])
    ensures if k == 0 then PromptLine(ls) == "" else IsPrompt(ls[k - 1]) && PromptLine(ls) == Text.Strip(ls[k - 1])
  {
    hide Text.Strip;
    k := |ls|;
    if ls != [] && !IsPrompt(ls[|ls| - 1]) {
      k := PromptMeaning(ls[..|ls| - 1]);
    }
  }

  predicate IsPrompt(line: string) {
    Text.Strip(line) != "" && Text.Strip(line)[0] == GLYPH
  }

  /** What follows the last glyph, up to the end of its line. */
  lemma {:induction false} AfterGlyphMeaning(s: string) returns (before: string, rest: string)
    requires GLYPH in s
    ensures s == before + ([GLYPH] + (AfterGlyph(s) + rest))
    ensures GLYPH !in AfterGlyph(s) + rest && '\n' !in AfterGlyph(s) && (rest == "" || rest[0] == '\n')
  {
    if GLYPH in s[1..] {
      before, rest := AfterGlyphMeaning(s[1..]);
      assert s == [s[0]] + s[1..];
      before := [s[0]] + before;
      assert s == before + ([GLYPH] + (AfterGlyph(s) + rest));
    } else {
      assert s == [s[0]] + s[1..] && s[0] == GLYPH;
      rest := FirstLine(s[1..]);
      before := "";
      assert forall c :: c in AfterGlyph(s) + rest ==> c in s[1..];
    }
  }

  lemma {:induction false} FirstLine(s: string) returns (rest: string)
    ensures s == Lines(s)[0] + rest && '\n' !in Lines(s)[0] && (rest == "" || rest[0] == '\n')
  {
    rest := s;
    if s != "" && s[0] != '\n' {
      rest := FirstLine(s[1..]);
      assert s == [s[0]] + s[1..];
    }
  }
}

// Keystroke delivery into one target's pane. The pane may change at any moment: what a capture
// shows is an arbitrary function of everything seen and typed before it.
module Transport {
  import opened Wrappers
  import opened PaneStates
  import Text

  /** What passes between a call and the pane: captures with and without escape codes, and keys. */
  datatype Event = Saw(ansi: string) | Read(plain: string) | Esc | Enter | Typed(text: string)

  type Trace = seq<Event>

  datatype World = World(alive: Trace -> bool, ansi: Trace -> string, plain: Trace -> string, refuses: Trace -> bool)

  /** How screens are read. */
  datatype Eyes = Eyes(
    classify: string -> PaneState, readonlyView: string -> bool, marker: string -> bool, pending: string -> bool)

  datatype View = Inline | Readonly

  /** The slash commands known for a target. */
  datatype Commands = Commands(allowed: map<string, View>, blocked: set<string>, custom: set<string>)

  datatype Reason =
    | NoReason | NoSession | UnsafeSlash | InvalidOption | NotReady(state: PaneState) | TmuxError
    | ViewNotOpened | DismissFailed | NotConfirmed

  datatype DeliveryResult = DeliveryResult(ok: bool, reason: Reason, view: Option<string>)

  const Delivered := DeliveryResult(true, NoReason, None)

  function Failed(reason: Reason): DeliveryResult {
    DeliveryResult(false, reason, None)
  }

  // The payload.

  predicate IsBreak(c: char) {
    c == '\r' || c == '\n'
  }

  /** Every run of line breaks becomes one space. */
  function CollapseBreaks(s: string): string {
    if s == "" then ""
    else if IsBreak(s[0]) then
      if |s| > 1 && IsBreak(s[1]) then CollapseBreaks(s[1..]) else " " + CollapseBreaks(s[1..])
    else [s[0]] + CollapseBreaks(s[1..])
  }

  function Normalize(payload: string): string {
    Text.Strip(CollapseBreaks(payload))
  }

  lemma {:induction false} CollapsedHasNoBreaks(s: string)
    ensures forall c :: c in CollapseBreaks(s) ==> !IsBreak(c)
  {
    if s != "" {
      CollapsedHasNoBreaks(s[1..]);
    }
  }

  lemma {:induction false} LeftStripPart(s: string)
    ensures forall c :: c in Text.LeftStrip(s) ==> c in s
  {
    if s != "" {
      LeftStripPart(s[1..]);
    }
  }

  /** No typed payload holds a line break, which would submit it half way. */
  lemma NoEnterInside(payload: string)
    ensures forall c :: c in Normalize(payload) ==> !IsBreak(c)
    ensures Text.IsStripped(Normalize(payload))
  {
    var s := CollapseBreaks(payload);
    CollapsedHasNoBreaks(payload);
    LeftStripPart(s);
    Text.RightStripped(Text.LeftStrip(s));
    Text.StripStrips(s);
  }

  /** The text up to the first space. */
  function LeadingToken(s: string): string {
    if s == "" || s[0] == ' ' then "" else [s[0]] + LeadingToken(s[1..])
  }

  /** The view a payload opens, or none if it is refused. */
  function SlashView(payload: string, commands: Commands): Option<View> {
    var token := LeadingToken(payload);
    if payload == "" || payload[0] != '/' then Some(Inline)
    else if token in commands.blocked then None
    else if token in commands.allowed then Some(commands.allowed[token])
    else if token in commands.custom then Some(Inline)
    else None
  }

  predicate BusyTolerant(token: string) {
    token == "/compact" || token == "/btw"
  }

  /** The command whose view may be open while the pane is busy. */
  predicate HasMarker(token: string) {
    token == "/btw"
  }

  // Looking until something is so.

  datatype Until = Leaves(state: PaneState) | Becomes(state: PaneState) | Opens | Closes

  function Look(w: World, h: Trace, until: Until): Event {
    if until.Opens? || until.Closes? then Read(w.plain(h)) else Saw(w.ansi(h))
  }

  predicate Stops(eyes: Eyes, until: Until, e: Event) {
    match until
    case Leaves(state) => e.Saw? && eyes.classify(e.ansi) != state
    case Becomes(state) => e.Saw? && eyes.classify(e.ansi) == state
    case Opens => e.Read? && eyes.marker(e.plain)
    case Closes => e.Read? && !eyes.marker(e.plain)
  }

  predicate IsCapture(e: Event) {
    e.Saw? || e.Read?
  }

  /** t goes on from h with captures only. */
  predicate OnlyLooks(h: Trace, t: Trace) {
    |h| <= |t| && t[..|h|] == h && forall i :: |h| <= i < |t| ==> IsCapture(t[i])
  }

  /** At most n captures, up to the first that shows what is waited for. */
  function PollSpec(w: World, eyes: Eyes, h: Trace, n: nat, until: Until): (r: (Trace, bool))
    ensures OnlyLooks(h, r.0) && |r.0| <= |h| + n
    ensures r.1 ==> |r.0| > |h| && Stops(eyes, until, r.0[|r.0| - 1])
    ensures forall i :: |h| <= i < |r.0| && (i < |r.0| - 1 || !r.1) ==> !Stops(eyes, until, r.0[i])
    ensures forall i :: |h| <= i < |r.0| ==> (r.0[i].Read? <==> until.Opens? || until.Closes?)
    ensures !r.1 ==> |r.0| == |h| + n
    decreases n
  {
    if n == 0 then (h, false)
    else
      var e := Look(w, h, until);
      if Stops(eyes, until, e) then (h + [e], true) else PollSpec(w, eyes, h + [e], n - 1, until)
  }

  /** Waits for an answer still being computed; stops also when the view is gone. */
  function SettleSpec(w: World, eyes: Eyes, h: Trace, content: string, n: nat): (r: (Trace, string))
    ensures OnlyLooks(h, r.0) && |r.0| <= |h| + n
    ensures forall i :: |h| <= i < |r.0| ==> r.0[i].Read?
    decreases n
  {
    if n == 0 || !eyes.pending(content) then (h, content)
    else
      var plain := w.plain(h);
      if !eyes.marker(plain) then (h + [Read(plain)], content)
      else SettleSpec(w, eyes, h + [Read(plain)], Text.Strip(plain), n - 1)
  }

  // The calls, as what they make of the trace and what they return.

  /** A view that was open already is given four looks, and one Escape if it is a known one. */
  function RecoverSpec(w: World, eyes: Eyes, h: Trace): (Trace, Option<bool>) {
    var (waited, cleared) := PollSpec(w, eyes, h, 4, Leaves(PersistentView));
    if cleared then (waited, None)
    else
      var plain := w.plain(waited);
      if !eyes.readonlyView(plain) then (waited + [Read(plain)], None)
      else
        var (t, dismissed) := PollSpec(w, eyes, waited + [Read(plain)] + [Esc], 6, Becomes(Ready));
        (t, Some(dismissed))
  }

  function ReadonlyViewSpec(w: World, eyes: Eyes, h: Trace): (Trace, DeliveryResult) {
    var (looked, seen) := PollSpec(w, eyes, h, 6, Becomes(PersistentView));
    if !seen then (looked, Failed(ViewNotOpened))
    else
      var plain := w.plain(looked);
      var (t, closed) := PollSpec(w, eyes, looked + [Read(plain)] + [Esc], 6, Becomes(Ready));
      (t, DeliveryResult(closed, if closed then NoReason else DismissFailed, Some(Text.Strip(plain))))
  }

  function BusyViewSpec(w: World, eyes: Eyes, h: Trace): (Trace, DeliveryResult) {
    var (looked, seen) := PollSpec(w, eyes, h, 6, Opens);
    if !seen then (looked, Failed(ViewNotOpened))
    else
      var (settled, content) := SettleSpec(w, eyes, looked, Text.Strip(looked[|looked| - 1].plain), 10);
      var (t, closed) := PollSpec(w, eyes, settled + [Esc], 6, Closes);
      (t, DeliveryResult(closed, if closed then NoReason else DismissFailed, Some(content)))
  }

  predicate MayType(eyes: Eyes, payload: string, ansi: string) {
    eyes.classify(ansi) == Ready || (eyes.classify(ansi) == Busy && BusyTolerant(LeadingToken(payload)))
  }

  /** The gate: a look, and after a recovery a second look. */
  function GateSpec(w: World, eyes: Eyes, h: Trace): (t: Trace)
    ensures t != [] && t[|t| - 1].Saw?
  {
    var first := h + [Saw(w.ansi(h))];
    if eyes.classify(w.ansi(h)) != PersistentView then first
    else
      var recovered := RecoverSpec(w, eyes, first).0;
      recovered + [Saw(w.ansi(recovered))]
  }

  function DeliverSpec(w: World, eyes: Eyes, commands: Commands, h: Trace, payload: string): (Trace, DeliveryResult) {
    var text := Normalize(payload);
    if !w.alive(h) then (h, Failed(NoSession))
    else if SlashView(text, commands) == None then (h, Failed(UnsafeSlash))
    else
      var gate := GateSpec(w, eyes, h);
      var ansi := gate[|gate| - 1].ansi;
      if !MayType(eyes, text, ansi) then (gate, Failed(NotReady(eyes.classify(ansi))))
      else if w.refuses(gate) then (gate, Failed(TmuxError))
      else if w.refuses(gate + [Typed(text)]) then (gate + [Typed(text)], Failed(TmuxError))
      else
        var sent := gate + [Typed(text)] + [Enter];
        if SlashView(text, commands) == Some(Inline) then (sent, Delivered)
        else if HasMarker(LeadingToken(text)) then BusyViewSpec(w, eyes, sent)
        else ReadonlyViewSpec(w, eyes, sent)
  }

  /** One option key, if the pane asks for one at this moment. */
  function PressSpec(w: World, eyes: Eyes, h: Trace, option: int, asking: PaneState): (Trace, DeliveryResult) {
    if !w.alive(h) then (h, Failed(NoSession))
    else if option < 1 then (h, Failed(InvalidOption))
    else
      var looked := h + [Saw(w.ansi(h))];
      if eyes.classify(w.ansi(h)) != asking then (looked, Failed(NotReady(eyes.classify(w.ansi(h)))))
      else if w.refuses(looked) then (looked, Failed(TmuxError))
      else
        var (t, left) := PollSpec(w, eyes, looked + [Typed(Text.Decimal(option))], 6, Leaves(asking));
        (t, if left then Delivered else Failed(NotConfirmed))
  }

  /** The pane of one target, as the process that drives it knows it. */
  class Pane {
    const world: World
    const eyes: Eyes
    var trace: Trace

    constructor (world: World, eyes: Eyes)
      ensures this.world == world && this.eyes == eyes && trace == []
    {
      this.world, this.eyes, trace := world, eyes, [];
    }

    method CapturePane() returns (ansi: string)
      modifies this
      ensures ansi == world.ansi(old(trace)) && trace == old(trace) + [Saw(ansi)]
    {
      ansi := world.ansi(trace);
      trace := trace + [Saw(ansi)];
    }

    method CapturePanePlain() returns (plain: string)
      modifies this
      ensures plain == world.plain(old(trace)) && trace == old(trace) + [Read(plain)]
    {
      plain := world.plain(trace);
      trace := trace + [Read(plain)];
    }

    method SendKey(key: Event)
      modifies this
      ensures trace == old(trace) + [key]
    {
      trace := trace + [key];
    }

    method Poll(n: nat, until: Until) returns (hit: bool)
      modifies this
      ensures (trace, hit) == PollSpec(world, eyes, old(trace), n, until)
    {
      for i := 0 to n
        invariant PollSpec(world, eyes, trace, n - i, until) == PollSpec(world, eyes, old(trace), n, until)
      {
        var e := Look(world, trace, until);
        trace := trace + [e];
        if Stops(eyes, until, e) {
          return true;
        }
      }
      return false;
    }

    method RecoverStuckView() returns (announced: Option<bool>)
      modifies this
      ensures (trace, announced) == RecoverSpec(world, eyes, old(trace))
    {
      var cleared := Poll(4, Leaves(PersistentView));
      if cleared {
        return None;
      }
      var plain := CapturePanePlain();
      if !eyes.readonlyView(plain) {
        return None;
      }
      SendKey(Esc);
      var dismissed := Poll(6, Becomes(Ready));
      return Some(dismissed);
    }

    method HandleReadonlyView() returns (r: DeliveryResult)
      modifies this
      ensures (trace, r) == ReadonlyViewSpec(world, eyes, old(trace))
    {
      var seen := Poll(6, Becomes(PersistentView));
      if !seen {
        return Failed(ViewNotOpened);
      }
      var plain := CapturePanePlain();
      SendKey(Esc);
      var closed := Poll(6, Becomes(Ready));
      return DeliveryResult(closed, if closed then NoReason else DismissFailed, Some(Text.Strip(plain)));
    }

    method Settle(first: string) returns (content: string)
      modifies this
      ensures (trace, content) == SettleSpec(world, eyes, old(trace), first, 10)
    {
      content := first;
      for i := 0 to 10
        invariant SettleSpec(world, eyes, trace, content, 10 - i) == SettleSpec(world, eyes, old(trace), first, 10)
      {
        if !eyes.pending(content) {
          return;
        }
        var plain := CapturePanePlain();
        if !eyes.marker(plain) {
          return;
        }
        content := Text.Strip(plain);
      }
    }

    method HandleBusyTolerantView() returns (r: DeliveryResult)
      modifies this
      ensures (trace, r) == BusyViewSpec(world, eyes, old(trace))
    {
      hide PollSpec, SettleSpec, Text.Strip;
      var seen := Poll(6, Opens);
      if !seen {
        return Failed(ViewNotOpened);
      }
      var content := Settle(Text.Strip(trace[|trace| - 1].plain));
      SendKey(Esc);
      var closed := Poll(6, Closes);
      return DeliveryResult(closed, if closed then NoReason else DismissFailed, Some(content));
    }

    method Gate() returns (ansi: string)
      modifies this
      ensures trace == GateSpec(world, eyes, old(trace)) && trace != [] && trace[|trace| - 1] == Saw(ansi)
    {
      ansi := CapturePane();
      if eyes.classify(ansi) == PersistentView {
        var _ := RecoverStuckView();
        ansi := CapturePane();
      }
    }

    method DeliverLocked(payload: string, commands: Commands) returns (r: DeliveryResult)
      modifies this
      ensures (trace, r) == DeliverSpec(world, eyes, commands, old(trace), payload)
    {
      hide GateSpec, BusyViewSpec, ReadonlyViewSpec, SlashView, MayType, Normalize, LeadingToken;
      if !world.alive(trace) {
        return Failed(NoSession);
      }
      var text := Normalize(payload);
      var view := SlashView(text, commands);
      if view == None {
        return Failed(UnsafeSlash);
      }
      var ansi := Gate();
      if !MayType(eyes, text, ansi) {
        return Failed(NotReady(eyes.classify(ansi)));
      }
      if world.refuses(trace) {
        return Failed(TmuxError);
      }
      SendKey(Typed(text));
      if world.refuses(trace) {
        return Failed(TmuxError);
      }
      SendKey(Enter);
      if view == Some(Inline) {
        return Delivered;
      }
      if HasMarker(LeadingToken(text)) {
        r := HandleBusyTolerantView();
      } else {
        r := HandleReadonlyView();
      }
    }

    method AnswerBlockedQuestionLocked(option: int) returns (r: DeliveryResult)
      modifies this
      ensures (trace, r) == PressSpec(world, eyes, old(trace), option, BlockedQuestion)
    {
      if !world.alive(trace) {
        return Failed(NoSession);
      }
      if option < 1 {
        return Failed(InvalidOption);
      }
      var ansi := CapturePane();
      if eyes.classify(ansi) != BlockedQuestion {
        return Failed(NotReady(eyes.classify(ansi)));
      }
      if world.refuses(trace) {
        return Failed(TmuxError);
      }
      SendKey(Typed(Text.Decimal(option)));
      var left := Poll(6, Leaves(BlockedQuestion));
      return if left then Delivered else Failed(NotConfirmed);
    }

    method ApprovePermissionPromptLocked() returns (r: DeliveryResult)
      modifies this
      ensures (trace, r) == PressSpec(world, eyes, old(trace), 1, PermissionPrompt)
    {
      if !world.alive(trace) {
        return Failed(NoSession);
      }
      var ansi := CapturePane();
      if eyes.classify(ansi) != PermissionPrompt {
        return Failed(NotReady(eyes.classify(ansi)));
      }
      if world.refuses(trace) {
        return Failed(TmuxError);
      }
      assert Text.Decimal(1) == "1";
      SendKey(Typed("1"));
      var left := Poll(6, Leaves(PermissionPrompt));
      return if left then Delivered else Failed(NotConfirmed);
    }
  }
}
