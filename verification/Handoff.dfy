// Handing a dictation over: its file is written under a free name, the dispatch is recorded, and a
// message is delivered to the concierge; every failure on the way is spoken.
module Handoff {
  import opened Wrappers
  import opened Transport
  import opened Keystrokes
  import opened DispatchStore
  import Delivery
  import Picker
  import PaneStates
  import Text

  // Names of dictation files.

  function Suffix(n: nat): string {
    if n == 0 then ".txt" else "-" + (Text.Decimal(n) + ".txt")
  }

  function Name(stamp: string, n: nat): string {
    stamp + Suffix(n)
  }

  lemma NumberInSuffix(n: nat)
    requires n > 0
    ensures var s := Suffix(n); |s| >= 5 && s[0] == '-' && s[1..|s| - 4] == Text.Decimal(n)
  {
    hide Text.Decimal;
  }

  lemma SuffixesDiffer(m: nat, n: nat)
    requires Suffix(m) == Suffix(n)
    ensures m == n
  {
    hide Suffix, Text.Decimal;
    assert Suffix(0)[..] == ".txt" by {
      PlainSuffix();
    }
    if m > 0 {
      NumberInSuffix(m);
    }
    if n > 0 {
      NumberInSuffix(n);
    }
    if m > 0 && n > 0 {
      Picker.DecimalInjective(m, n);
    }
  }

  lemma PlainSuffix()
    ensures Suffix(0) == ".txt"
  {
  }

  lemma NamesDiffer(stamp: string, m: nat, n: nat)
    requires Name(stamp, m) == Name(stamp, n)
    ensures m == n
  {
    hide Suffix;
    assert Name(stamp, m)[|stamp|..] == Suffix(m) && Name(stamp, n)[|stamp|..] == Suffix(n);
    SuffixesDiffer(m, n);
  }

  /** The names tried before the n-th. */
  function Tried(stamp: string, n: nat): (names: set<string>)
    ensures forall k: nat :: k < n ==> Name(stamp, k) in names
    ensures forall x :: x in names ==> exists k: nat :: k < n && Name(stamp, k) == x
  {
    if n == 0 then {} else Tried(stamp, n - 1) + {Name(stamp, n - 1)}
  }

  lemma NotTried(stamp: string, n: nat)
    ensures Name(stamp, n) !in Tried(stamp, n)
  {
    if Name(stamp, n) in Tried(stamp, n) {
      var k: nat :| k < n && Name(stamp, k) == Name(stamp, n);
      NamesDiffer(stamp, k, n);
    }
  }

  /** Writes a dictation under the first name that is free. The search ends because every name tried
      is another one of the files that exist. */
  method WriteDictation(files: map<string, string>, stamp: string, text: string) returns (path: string, after: map<string, string>)
    ensures path !in files && after == files[path := text]
    ensures exists n: nat :: path == Name(stamp, n) && forall k: nat :: k < n ==> Name(stamp, k) in files
  {
    path := Name(stamp, 0);
    var n := 1;
    while path in files
      invariant n >= 1 && path == Name(stamp, n - 1)
      invariant forall k: nat :: k < n - 1 ==> Name(stamp, k) in files
      decreases files.Keys - Tried(stamp, n - 1)
    {
      NotTried(stamp, n - 1);
      assert path in files.Keys - Tried(stamp, n - 1) && path in Tried(stamp, n);
      path := Name(stamp, n);
      n := n + 1;
    }
    after := files[path := text];
  }

  // The message.

  const MAX_INLINE := 1200

  /** The parts that only inform, the sessions and teams, are given. */
  function Pointer(text: string, path: string, tail: string): string {
    "Ayman said" +
    (if |text| <= MAX_INLINE then ": \"" + text + "\"\nAnswer him if you can, or hand it to the router. Full transcript also saved at " + path + ".\n"
     else " something long -- read it at " + path + ", then answer him if you can, or hand it to the router. ")
    + tail
  }

  /** The message holds the whole dictation if it is short, and always where its file is and what there is
      to inform about, which ends it. */
  lemma PointerHolds(text: string, path: string, tail: string) returns (before: string, between: string, after: string)
    ensures Pointer(text, path, tail) ==
      if |text| <= 1200 then before + text + between + path + after + tail else before + path + after + tail
  {
    if |text| <= MAX_INLINE {
      between := "\"\nAnswer him if you can, or hand it to the router. Full transcript also saved at ";
      after := ".\n";
      before := PutInFront("Ayman said", ": \"", text, between, path, after, tail);
    } else {
      between := "";
      after := ", then answer him if you can, or hand it to the router. ";
      before := PutPathInFront("Ayman said", " something long -- read it at ", path, after, tail);
    }
  }

  lemma PutInFront(a: string, b: string, c: string, d: string, e: string, f: string, g: string) returns (ab: string)
    ensures a + (b + c + d + e + f) + g == ab + c + d + e + f + g
  {
    ab := a + b;
    assert a + (b + c + d + e + f) + g == ab + c + d + e + f + g;
  }

  lemma PutPathInFront(a: string, b: string, c: string, d: string, e: string) returns (ab: string)
    ensures a + (b + c + d) + e == ab + c + d + e
  {
    ab := a + b;
    assert a + (b + c + d) + e == ab + c + d + e;
  }

  lemma {:induction false} RightStripKeepsFront(s: string, n: nat)
    requires 0 < n <= |s| && !Text.IsSpace(s[n - 1])
    ensures |Text.RightStrip(s)| >= n && Text.RightStrip(s)[..n] == s[..n]
    decreases |s|
  {
    if Text.IsSpace(s[|s| - 1]) {
      RightStripKeepsFront(s[..|s| - 1], n);
      assert s[..|s| - 1][..n] == s[..n];
    }
  }

  lemma {:induction false} TokenOfFront(front: string, rest: string)
    requires ' ' !in front
    ensures LeadingToken(front + (" " + rest)) == front
  {
    if front == "" {
      assert front + (" " + rest) == " " + rest;
    } else {
      TokenOfFront(front[1..], rest);
      assert (front + (" " + rest))[1..] == front[1..] + (" " + rest);
      assert [front[0]] + front[1..] == front;
    }
  }

  /** Whatever was dictated, the message is typed as plain text: it starts with the same word, which
      is no command, so that it opens no view and is never typed into a busy pane. */
  lemma PointerIsPlain(text: string, path: string, tail: string, commands: Commands, eyes: Eyes, ansi: string)
    ensures LeadingToken(Normalize(Pointer(text, path, tail))) == "Ayman"
    ensures SlashView(Normalize(Pointer(text, path, tail)), commands) == Some(Inline)
    ensures MayType(eyes, Normalize(Pointer(text, path, tail)), ansi) <==> eyes.classify(ansi) == PaneStates.Ready
  {
    hide LeadingToken, Normalize;
    var p := Pointer(text, path, tail);
    assert p == "Ayman said" + p[10..];
    NormalStart(p[10..]);
    PlainStart(Normalize(p));
    assert !BusyTolerant("Ayman") by {
      NotTolerant();
    }
  }

  lemma NotTolerant()
    ensures !BusyTolerant("Ayman")
  {
    assert "Ayman"[0] == 'A' && "/compact"[0] == '/' && "/btw"[0] == '/';
  }

  lemma NormalStart(rest: string)
    ensures var s := Normalize("Ayman said" + rest); |s| >= 10 && s[..10] == "Ayman said"
  {
    hide CollapseBreaks, Text.RightStrip;
    Delivery.CollapseFront("Ayman said", rest);
    var c := "Ayman said" + CollapseBreaks(rest);
    assert c[0] == 'A' && c[9] == 'd' && Text.LeftStrip(c) == c;
    RightStripKeepsFront(c, 10);
    assert c[..10] == "Ayman said";
  }

  lemma PlainStart(s: string)
    requires |s| >= 10 && s[..10] == "Ayman said"
    ensures LeadingToken(s) == "Ayman" && s[0] == 'A'
  {
    hide LeadingToken;
    assert s == s[..10] + s[10..] == "Ayman" + (" " + ("said" + s[10..]));
    TokenOfFront("Ayman", "said" + s[10..]);
    assert s[0] == s[..10][0];
  }

  // The handoff.

  datatype Fault = NoFault | WriteFails | RecordFails

  datatype Speech = NoTools | NotRecorded | NoSession | NotHandedOff(reason: Reason)

  class Desk {
    var files: map<string, string>
    const store: Store
    const concierge: Pane
    var spoken: seq<Speech>

    constructor (files: map<string, string>, store: Store, concierge: Pane)
      ensures this.files == files && this.store == store && this.concierge == concierge && spoken == []
    {
      this.files, this.store, this.concierge, spoken := files, store, concierge, [];
    }

    /** The dictation's file is its reference in the dispatch record. */
    method DeliverTranscript(text: string, stamp: string, hasTools: bool, fault: Fault, tail: string, commands: Commands, now: int, later: int)
      returns (result: Option<DeliveryResult>, ref: string)
      modifies this, store, concierge
      ensures result == None <==> !hasTools || fault != NoFault
      ensures result == None ==>
        && concierge.trace == old(concierge.trace) && store.file == old(store.file) && |spoken| == |old(spoken)| + 1
        && (!hasTools || fault == WriteFails ==> files == old(files))
        && spoken[|old(spoken)|] == (if !hasTools then NoTools else NotRecorded)
      ensures result.Some? ==>
        && ref !in old(files) && files == old(files)[ref := text]
        && (concierge.trace, result.value) ==
             DeliverSpec(concierge.world, concierge.eyes, commands, old(concierge.trace), Pointer(text, ref, tail))
        && |spoken| == |old(spoken)| + (if result.value.ok then 0 else 1)
        && (!result.value.ok ==>
              spoken[|old(spoken)|] == if result.value.reason == Reason.NoSession then Speech.NoSession else NotHandedOff(result.value.reason))
        && var forwarded := WriteTo(old(store.file), MarkForwarded, ref, now);
        && store.file == if result.value.ok then forwarded else WriteTo(forwarded, MarkFailed(ReasonText(result.value.reason)), ref, later)
      ensures |spoken| >= |old(spoken)| && spoken[..|old(spoken)|] == old(spoken)
    {
      hide DeliverSpec, WriteTo, Pointer;
      ref := "";
      if !hasTools {
        spoken := spoken + [NoTools];
        return None, ref;
      }
      if fault == WriteFails {
        spoken := spoken + [NotRecorded];
        return None, ref;
      }
      var path, after := WriteDictation(files, stamp, text);
      files := after;
      ref := path;
      if fault == RecordFails {
        spoken := spoken + [NotRecorded];
        return None, ref;
      }
      store.MarkDispatchForwarded(ref, now);
      var r := concierge.DeliverLocked(Pointer(text, ref, tail), commands);
      if !r.ok {
        spoken := spoken + [if r.reason == Reason.NoSession then Speech.NoSession else NotHandedOff(r.reason)];
        store.MarkDispatchFailed(ref, ReasonText(r.reason), later);
      }
      return Some(r), ref;
    }
  }

  function ReasonText(reason: Reason): string {
    match reason
    case NoReason => ""
    case NoSession => "no_session"
    case UnsafeSlash => "unsafe_slash"
    case InvalidOption => "invalid_option"
    case NotReady(state) =>
      (match state
       case Ready => "ready"
       case Busy => "busy"
       case PermissionPrompt => "permission_prompt"
       case BlockedQuestion => "blocked_question"
       case PersistentView => "persistent_view"
       case Unknown => "unknown")
    case TmuxError => "tmux_error"
    case ViewNotOpened => "view_not_opened"
    case DismissFailed => "dismiss_failed"
    case NotConfirmed => "not_confirmed"
  }

  /** How long the text of a reason is, and how it begins. */
  lemma ReasonBegins(reason: Reason)
    ensures var s := ReasonText(reason);
      match reason
      case NoReason => s == ""
      case NoSession => |s| == 10 && s[0] == 'n'
      case UnsafeSlash => |s| == 12
      case InvalidOption => |s| == 14 && s[0] == 'i'
      case NotReady(Ready) => |s| == 5
      case NotReady(Busy) => |s| == 4
      case NotReady(PermissionPrompt) => |s| == 17
      case NotReady(BlockedQuestion) => |s| == 16
      case NotReady(PersistentView) => |s| == 15 && s[0] == 'p'
      case NotReady(Unknown) => |s| == 7
      case TmuxError => |s| == 10 && s[0] == 't'
      case ViewNotOpened => |s| == 15 && s[0] == 'v'
      case DismissFailed => |s| == 14 && s[0] == 'd'
      case NotConfirmed => |s| == 13
  {
  }

  /** The record's reason tells which it was. */
  lemma ReasonsDiffer(a: Reason, b: Reason)
    requires ReasonText(a) == ReasonText(b)
    ensures a == b
  {
    hide ReasonText;
    ReasonBegins(a);
    ReasonBegins(b);
  }

  /** What the record says of a handoff: forwarded if it was delivered and failed if not, and other
      dictations' records are untouched. */
  lemma RecordTellsOutcome(file: File, ref: string, ok: bool, reason: string, now: int, later: int, other: string)
    requires now <= later
    ensures var forwarded := WriteTo(file, MarkForwarded, ref, now);
      var after := if ok then forwarded else WriteTo(forwarded, MarkFailed(reason), ref, later);
      && Existing(ReadRaw(after).0, ref).stage == (if ok then Some(Forwarded) else Some(Stage.Failed))
      && Existing(ReadRaw(after).0, ref).forwardedAt == Some(now)
      && (!ok ==> Existing(ReadRaw(after).0, ref).reason == Some(reason))
      && (other != ref ==> Lookup(ReadRaw(after).0, other) == Lookup(ReadRaw(file).0, other))
  {
  }

  /** A delivered message was typed and entered, exactly as one plain payload. */
  lemma DeliveredIsTyped(w: World, eyes: Eyes, commands: Commands, h: Trace, text: string, path: string, tail: string)
    ensures var (t, r) := DeliverSpec(w, eyes, commands, h, Pointer(text, path, tail));
      var call := DeliveryCall(Pointer(text, path, tail), commands);
      && |h| <= |t| && call.view == Inline
      && (r.ok <==> PhaseOf(eyes, call, |h|, t) == Submitted)
      && (!r.ok ==> PhaseOf(eyes, call, |h|, t) in {Fresh, Healed, Filled})
  {
    hide DeliverSpec, PhaseOf, Pointer, LeadingToken, Normalize;
    PointerIsPlain(text, path, tail, commands, eyes, "");
    DeliveryAllowed(w, eyes, commands, h, Pointer(text, path, tail));
    InlineNeverCloses(w, eyes, commands, h, Pointer(text, path, tail));
  }

  lemma InlineNeverCloses(w: World, eyes: Eyes, commands: Commands, h: Trace, payload: string)
    requires SlashView(Normalize(payload), commands) == Some(Inline)
    ensures DeliverSpec(w, eyes, commands, h, payload).1.reason !in {ViewNotOpened, DismissFailed}
  {
    hide GateSpec, MayType, Normalize;
  }

  // Sequential handoffs.

  /** One more file, under a name that was free. */
  ghost predicate WrittenAt(files: map<string, string>, path: string, after: map<string, string>) {
    path !in files && path in after && after == files[path := after[path]]
  }

  /** Dictations written one after the other never share a reference, whatever their time stamps. */
  lemma {:induction false} RefsNeverShared(files: seq<map<string, string>>, refs: seq<string>, i: nat, j: nat)
    requires |files| == |refs| + 1 && i < j < |refs|
    requires forall k :: 0 <= k < |refs| ==> WrittenAt(files[k], refs[k], files[k + 1])
    ensures refs[i] in files[j] && refs[i] != refs[j]
  {
    if j == i + 1 {
      assert WrittenAt(files[i], refs[i], files[i + 1]);
    } else {
      RefsNeverShared(files, refs, i, j - 1);
      assert WrittenAt(files[j - 1], refs[j - 1], files[j]);
    }
    assert WrittenAt(files[j], refs[j], files[j + 1]);
  }
}
