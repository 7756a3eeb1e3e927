// The record of dispatches: a file keyed by dictation, in which a dispatch that was forwarded and
// never finished is found to be abandoned only when somebody reads it.
module DispatchStore {
  import opened Wrappers

  // Times are in milliseconds.
  const ABANDONED_AFTER := 180_000
  const LEGACY_KEY := "legacy-unknown"

  datatype Stage = Forwarded | Complete | Failed | Abandoned

  /** How many instructions a dictation held, and how many of them failed. */
  datatype Summary = Summary(count: nat, failures: nat)

  datatype Note = Note(stage: string, detail: string, at: int)

  /** A record; a field the file may lack is an option. */
  datatype Record = Record(
    stage: Option<Stage>, ref: Option<string>, forwardedAt: Option<int>, completedAt: Option<int>, failedAt: Option<int>,
    abandonedAt: Option<int>, summary: Option<Summary>, reason: Option<string>, note: Option<Note>)

  type Records = map<string, Record>

  /** What is on disk: nothing usable, one flat record of the old shape, or records by key. */
  datatype File = Unusable | Legacy(record: Record) | Keyed(records: Records)

  function ReadRaw(file: File): (Records, bool) {
    match file
    case Unusable => (map[], false)
    case Keyed(records) => (records, false)
    case Legacy(record) =>
      if record.stage == None then (map[], false)
      else (map[if record.ref == None || record.ref == Some("") then LEGACY_KEY else record.ref.value := record], true)
  }

  function Existing(records: Records, ref: string): Record {
    if ref in records then records[ref] else Record(None, None, None, None, None, None, None, None, None)
  }

  predicate IsOverdue(r: Record, now: int) {
    r.stage == Some(Forwarded) && r.forwardedAt.Some? && now - r.forwardedAt.value > ABANDONED_AFTER
  }

  function Heal(r: Record, now: int): Record {
    if IsOverdue(r, now) then r.(stage := Some(Abandoned), abandonedAt := Some(now)) else r
  }

  function HealAll(records: Records, now: int): Records {
    map ref | ref in records :: Heal(records[ref], now)
  }

  /** One write, as what it does to the record of its own dictation. */
  datatype Write = MarkForwarded | MarkComplete(summary: Summary) | MarkFailed(reason: string) | Report(stage: string, detail: string)

  function Written(w: Write, ref: string, existing: Option<Record>, now: int): Record {
    var prior := if existing.Some? then existing.value else Record(None, Some(ref), None, None, None, None, None, None, None);
    match w
    case MarkForwarded => Record(Some(Forwarded), Some(ref), Some(now), None, None, None, None, None, None)
    case MarkComplete(summary) =>
      Record(Some(Complete), Some(ref), prior.forwardedAt, Some(now), None, None, Some(summary), None, prior.note)
    case MarkFailed(reason) =>
      Record(Some(Failed), Some(ref), prior.forwardedAt, None, Some(now), None, None, Some(reason), prior.note)
    case Report(stage, detail) => prior.(note := Some(Note(stage, detail, now)))
  }

  function Lookup(records: Records, ref: string): Option<Record> {
    if ref in records then Some(records[ref]) else None
  }

  function WriteTo(file: File, w: Write, ref: string, now: int): File {
    var records := ReadRaw(file).0;
    Keyed(records[ref := Written(w, ref, Lookup(records, ref), now)])
  }

  /** A read heals, and writes only if it healed or migrated something. */
  function AfterRead(file: File, now: int): File {
    var (records, migrated) := ReadRaw(file);
    if migrated || (exists ref :: ref in records && IsOverdue(records[ref], now)) then Keyed(HealAll(records, now)) else file
  }

  /** When it was forwarded, or else completed; a missing time and a time of zero count for nothing. */
  function Recency(r: Record): (t: int)
    ensures r.forwardedAt.Some? && r.forwardedAt.value != 0 ==> t == r.forwardedAt.value
    ensures r.forwardedAt in {None, Some(0)} && r.completedAt.Some? ==> t == r.completedAt.value
    ensures r.forwardedAt in {None, Some(0)} && r.completedAt == None ==> t == 0
  {
    if r.forwardedAt.Some? && r.forwardedAt.value != 0 then r.forwardedAt.value
    else if r.completedAt.Some? && r.completedAt.value != 0 then r.completedAt.value
    else 0
  }

  /** Still forwarded once healed. */
  predicate InFlight(records: Records, ref: string, now: int) {
    ref in records && Heal(records[ref], now).stage == Some(Forwarded)
  }

  class Store {
    var file: File

    constructor (file: File)
      ensures this.file == file
    {
      this.file := file;
    }

    method MarkDispatchForwarded(ref: string, now: int)
      modifies this
      ensures file == WriteTo(old(file), MarkForwarded, ref, now)
    {
      var records := ReadRaw(file).0;
      records := records[ref := Record(Some(Forwarded), Some(ref), Some(now), None, None, None, None, None, None)];
      file := Keyed(records);
    }

    method MarkDispatchComplete(ref: string, summary: Summary, now: int)
      modifies this
      ensures file == WriteTo(old(file), MarkComplete(summary), ref, now)
    {
      var records := ReadRaw(file).0;
      var existing := Existing(records, ref);
      records := records[ref := Record(Some(Complete), Some(ref), existing.forwardedAt, Some(now), None, None, Some(summary), None, existing.note)];
      file := Keyed(records);
    }

    method MarkDispatchFailed(ref: string, reason: string, now: int)
      modifies this
      ensures file == WriteTo(old(file), MarkFailed(reason), ref, now)
    {
      var records := ReadRaw(file).0;
      var existing := Existing(records, ref);
      records := records[ref := Record(Some(Failed), Some(ref), existing.forwardedAt, None, Some(now), None, None, Some(reason), existing.note)];
      file := Keyed(records);
    }

    method ReportDispatchStage(ref: string, stage: string, detail: string, now: int)
      modifies this
      ensures file == WriteTo(old(file), Report(stage, detail), ref, now)
    {
      var records := ReadRaw(file).0;
      var existing := if ref in records then records[ref] else Record(None, Some(ref), None, None, None, None, None, None, None);
      records := records[ref := existing.(note := Some(Note(stage, detail, now)))];
      file := Keyed(records);
    }

    method HealAndMaybeWrite(now: int) returns (records: Records)
      modifies this
      ensures file == AfterRead(old(file), now) && records == HealAll(ReadRaw(old(file)).0, now)
    {
      var raw := ReadRaw(file);
      records := raw.0;
      var todo, healed := records.Keys, false;
      while todo != {}
        invariant todo <= raw.0.Keys && records.Keys == raw.0.Keys
        invariant forall ref :: ref in raw.0 ==> records[ref] == if ref in todo then raw.0[ref] else Heal(raw.0[ref], now)
        invariant healed <==> exists ref :: ref in raw.0 && ref !in todo && IsOverdue(raw.0[ref], now)
        decreases |todo|
      {
        var ref :| ref in todo;
        todo := todo - {ref};
        if IsOverdue(records[ref], now) {
          records := records[ref := records[ref].(stage := Some(Abandoned), abandonedAt := Some(now))];
          healed := true;
        }
      }
      assert records == HealAll(raw.0, now);
      if healed || raw.1 {
        file := Keyed(records);
      }
    }

    /** The record of one dictation. */
    method DispatchState(ref: string, now: int) returns (r: Option<Record>)
      modifies this
      ensures file == AfterRead(old(file), now) && r == Lookup(HealAll(ReadRaw(old(file)).0, now), ref)
    {
      var records := HealAndMaybeWrite(now);
      return if ref in records then Some(records[ref]) else None;
    }

    /** A record that no other is more recent than, if there is any record. */
    method LatestDispatch(now: int) returns (r: Option<Record>)
      modifies this
      ensures file == AfterRead(old(file), now)
      ensures var records := HealAll(ReadRaw(old(file)).0, now);
        match r
        case None => records == map[]
        case Some(latest) => latest in records.Values && forall ref :: ref in records ==> Recency(records[ref]) <= Recency(latest)
    {
      var records := HealAndMaybeWrite(now);
      var todo := records.Keys;
      r := None;
      while todo != {}
        invariant todo <= records.Keys
        invariant r == None ==> todo == records.Keys
        invariant r.Some? ==> r.value in records.Values
        invariant r.Some? ==> forall ref :: ref in records && ref !in todo ==> Recency(records[ref]) <= Recency(r.value)
        decreases |todo|
      {
        var ref :| ref in todo;
        todo := todo - {ref};
        if r == None || Recency(records[ref]) > Recency(r.value) {
          r := Some(records[ref]);
        }
      }
    }

    method AnyForwarded(now: int) returns (any: bool)
      modifies this
      ensures file == AfterRead(old(file), now)
      ensures any <==> exists ref :: InFlight(ReadRaw(old(file)).0, ref, now)
    {
      ghost var raw := ReadRaw(file).0;
      var records := HealAndMaybeWrite(now);
      assert forall ref :: ref in records && records[ref].stage == Some(Forwarded) <==> InFlight(raw, ref, now);
      return exists ref :: ref in records && records[ref].stage == Some(Forwarded);
    }
  }

  // Every run, with a clock that does not go back.

  datatype Event = Wrote(write: Write, ref: string, now: int) | Looked(now: int)

  function FileAfter(start: File, events: seq<Event>, i: nat): File
    requires i <= |events|
  {
    if i == 0 then start
    else
      var before := FileAfter(start, events, i - 1);
      match events[i - 1]
      case Wrote(w, ref, now) => WriteTo(before, w, ref, now)
      case Looked(now) => AfterRead(before, now)
  }

  /** The record as the writes to its own dictation alone leave it, if nothing is ever healed. */
  function OwnRecord(start: File, events: seq<Event>, i: nat, ref: string): Option<Record>
    requires i <= |events|
  {
    if i == 0 then Lookup(ReadRaw(start).0, ref)
    else
      var before := OwnRecord(start, events, i - 1, ref);
      if events[i - 1].Wrote? && events[i - 1].ref == ref then Some(Written(events[i - 1].write, ref, before, events[i - 1].now))
      else before
  }

  ghost predicate Monotone(events: seq<Event>) {
    forall a, b :: 0 <= a <= b < |events| ==> events[a].now <= events[b].now
  }

  /** The same record, or the same found abandoned when it was overdue, at a moment not after now. */
  ghost predicate HealedFrom(lazy: Option<Record>, own: Option<Record>, now: int) {
    || lazy == own
    || (own.Some? && exists t :: t <= now && IsOverdue(own.value, t) && lazy == Some(Heal(own.value, t)))
  }

  lemma WriteHealed(w: Write, ref: string, lazy: Option<Record>, own: Option<Record>, earlier: int, now: int)
    requires HealedFrom(lazy, own, earlier) && earlier <= now
    ensures HealedFrom(Some(Written(w, ref, lazy, now)), Some(Written(w, ref, own, now)), now)
  {
    if lazy != own {
      var t :| t <= earlier && IsOverdue(own.value, t) && lazy == Some(Heal(own.value, t));
      if w.Report? {
        var own1 := Written(w, ref, own, now);
        assert IsOverdue(own1, t) && Written(w, ref, lazy, now) == Heal(own1, t);
      }
    }
  }

  lemma ReadHealed(lazy: Option<Record>, own: Option<Record>, earlier: int, now: int)
    requires HealedFrom(lazy, own, earlier) && earlier <= now && lazy.Some?
    ensures HealedFrom(Some(Heal(lazy.value, now)), own, now)
  {
  }

  lemma ReadKeeps(file: File, now: int, ref: string)
    ensures var before, after := Lookup(ReadRaw(file).0, ref), Lookup(ReadRaw(AfterRead(file, now)).0, ref);
      after == if before.Some? then Some(Heal(before.value, now)) else None
  {
  }

  lemma {:induction false} LazyIsHealed(start: File, events: seq<Event>, i: nat, ref: string)
    requires i <= |events| && Monotone(events)
    ensures HealedFrom(Lookup(ReadRaw(FileAfter(start, events, i)).0, ref), OwnRecord(start, events, i, ref),
                       if i == 0 then 0 else events[i - 1].now)
  {
    hide HealedFrom, Written, AfterRead;
    if i == 0 {
      SameIsHealed(Lookup(ReadRaw(start).0, ref), 0);
    } else {
      LazyIsHealed(start, events, i - 1, ref);
      var file, own := FileAfter(start, events, i - 1), OwnRecord(start, events, i - 1, ref);
      var lazy := Lookup(ReadRaw(file).0, ref);
      var earlier := if i == 1 then events[0].now else events[i - 2].now;
      if i == 1 {
        SameIsHealed(own, earlier);
      }
      match events[i - 1]
      case Wrote(w, r, now) =>
        if r == ref {
          WriteHealed(w, ref, lazy, own, earlier, now);
        } else {
          StillHealed(lazy, own, earlier, now);
        }
      case Looked(now) =>
        ReadKeeps(file, now, ref);
        if lazy.Some? {
          ReadHealed(lazy, own, earlier, now);
        } else {
          StillHealed(lazy, own, earlier, now);
        }
    }
  }

  lemma SameIsHealed(r: Option<Record>, now: int)
    ensures HealedFrom(r, r, now)
  {
  }

  lemma StillHealed(lazy: Option<Record>, own: Option<Record>, earlier: int, now: int)
    requires HealedFrom(lazy, own, earlier) && earlier <= now
    ensures HealedFrom(lazy, own, now)
  {
  }

  /** A record as a reader sees it at a moment, apart from when it was found abandoned. */
  function Seen(r: Option<Record>, now: int): Option<Record> {
    if r.Some? then Some(Heal(r.value, now).(abandonedAt := None)) else None
  }

  lemma HealedSeenAlike(lazy: Option<Record>, own: Option<Record>, earlier: int, now: int)
    requires HealedFrom(lazy, own, earlier) && earlier <= now
    ensures Seen(lazy, now) == Seen(own, now)
  {
  }

  /** What is read for a dictation at any moment is what its own writes alone make it by then,
      however often and whenever anything was read, and whatever was written for others. */
  lemma {:induction false} LazyRefinesEager(start: File, events: seq<Event>, i: nat, ref: string, now: int)
    requires i <= |events| && Monotone(events) && (i > 0 ==> events[i - 1].now <= now)
    ensures Seen(Lookup(ReadRaw(FileAfter(start, events, i)).0, ref), now) == Seen(OwnRecord(start, events, i, ref), now)
  {
    hide FileAfter, OwnRecord, HealedFrom;
    if i > 0 {
      LazyIsHealed(start, events, i, ref);
      HealedSeenAlike(Lookup(ReadRaw(FileAfter(start, events, i)).0, ref), OwnRecord(start, events, i, ref), events[i - 1].now, now);
    } else {
      StartAlike(start, events, ref);
    }
  }

  lemma StartAlike(start: File, events: seq<Event>, ref: string)
    ensures Lookup(ReadRaw(FileAfter(start, events, 0)).0, ref) == OwnRecord(start, events, 0, ref)
  {
  }

  function EagerStage(start: File, events: seq<Event>, i: nat, ref: string, now: int): Option<Stage>
    requires i <= |events|
  {
    var own := OwnRecord(start, events, i, ref);
    if own == None then None else if IsOverdue(own.value, now) then Some(Abandoned) else own.value.stage
  }

  lemma {:induction false} OwnUnchanged(start: File, events: seq<Event>, j: nat, i: nat, ref: string)
    requires j <= i <= |events| && forall k :: j <= k < i ==> events[k].Looked? || events[k].ref != ref
    ensures OwnRecord(start, events, i, ref) == OwnRecord(start, events, j, ref)
  {
    if j < i {
      OwnUnchanged(start, events, j, i - 1, ref);
    }
  }

  /** A dispatch that was forwarded and not heard of since is read as forwarded for 180 seconds, the
      last moment included, and as abandoned from then on, whoever looked in between. */
  lemma {:induction false} ForwardedForThreeMinutes(start: File, events: seq<Event>, j: nat, i: nat, ref: string, now: int)
    requires j < i <= |events| && Monotone(events) && events[i - 1].now <= now
    requires events[j] == Wrote(MarkForwarded, ref, events[j].now)
    requires forall k :: j < k < i ==> events[k].Looked? || events[k].ref != ref
    ensures var read := Seen(Lookup(ReadRaw(FileAfter(start, events, i)).0, ref), now);
      && read.Some? && read.value.forwardedAt == Some(events[j].now)
      && read.value.stage == (if now - events[j].now <= 180_000 then Some(Forwarded) else Some(Abandoned))
  {
    LazyRefinesEager(start, events, i, ref, now);
    OwnUnchanged(start, events, j + 1, i, ref);
  }

  /** What a reader at a moment sees of a dictation, apart from when it was found abandoned. */
  function ReadAt(start: File, events: seq<Event>, i: nat, ref: string, now: int): Option<Record>
    requires i <= |events|
  {
    Seen(Lookup(ReadRaw(FileAfter(start, events, i)).0, ref), now)
  }

  /** Event j wrote to a dictation, and since then, up to event i, nobody else did. */
  ghost predicate LastWrite(events: seq<Event>, j: nat, i: nat, ref: string, w: Write) {
    && j < i <= |events| && Monotone(events) && events[j] == Wrote(w, ref, events[j].now)
    && forall k :: j < k < i ==> events[k].Looked? || events[k].ref != ref
  }

  lemma {:induction false} ReadsLastWrite(start: File, events: seq<Event>, j: nat, i: nat, ref: string, w: Write, now: int)
    requires LastWrite(events, j, i, ref, w) && events[i - 1].now <= now
    ensures ReadAt(start, events, i, ref, now) == Seen(Some(Written(w, ref, OwnRecord(start, events, j, ref), events[j].now)), now)
    ensures ReadAt(start, events, j, ref, events[j].now) == Seen(OwnRecord(start, events, j, ref), events[j].now)
    ensures events[j].now <= now
  {
    hide Written, Seen;
    LazyRefinesEager(start, events, i, ref, now);
    LazyRefinesEager(start, events, j, ref, events[j].now);
    OwnUnchanged(start, events, j + 1, i, ref);
  }

  function ForwardedAt(r: Option<Record>): Option<int> {
    if r.Some? then r.value.forwardedAt else None
  }

  function NoteOf(r: Option<Record>): Option<Note> {
    if r.Some? then r.value.note else None
  }

  /** A dispatch that was forwarded is a fresh record, whatever was there before. */
  lemma {:induction false} ForwardedIsFresh(start: File, events: seq<Event>, j: nat, i: nat, ref: string, now: int)
    requires LastWrite(events, j, i, ref, MarkForwarded) && events[i - 1].now <= now
    ensures var stage := if now - events[j].now <= 180_000 then Forwarded else Abandoned;
      ReadAt(start, events, i, ref, now) ==
        Some(Record(Some(stage), Some(ref), Some(events[j].now), None, None, None, None, None, None))
  {
    hide FileAfter, OwnRecord;
    ReadsLastWrite(start, events, j, i, ref, MarkForwarded, now);
  }

  /** A completed dispatch stays complete: whenever it is read, it is complete with its summary and the
      time of completion, it keeps when it was forwarded and what was noted, and it is not in flight. */
  lemma {:induction false} CompleteStays(start: File, events: seq<Event>, j: nat, i: nat, ref: string, summary: Summary, now: int)
    requires LastWrite(events, j, i, ref, MarkComplete(summary)) && events[i - 1].now <= now
    ensures var before := ReadAt(start, events, j, ref, events[j].now);
      ReadAt(start, events, i, ref, now) ==
        Some(Record(Some(Complete), Some(ref), ForwardedAt(before), Some(events[j].now), None, None, Some(summary), None, NoteOf(before)))
    ensures !InFlight(ReadRaw(FileAfter(start, events, i)).0, ref, now)
  {
    hide FileAfter, OwnRecord;
    ReadsLastWrite(start, events, j, i, ref, MarkComplete(summary), now);
  }

  /** A failed dispatch stays failed, with its reason, and is not in flight. */
  lemma {:induction false} FailedStays(start: File, events: seq<Event>, j: nat, i: nat, ref: string, reason: string, now: int)
    requires LastWrite(events, j, i, ref, MarkFailed(reason)) && events[i - 1].now <= now
    ensures var before := ReadAt(start, events, j, ref, events[j].now);
      ReadAt(start, events, i, ref, now) ==
        Some(Record(Some(Failed), Some(ref), ForwardedAt(before), None, Some(events[j].now), None, None, Some(reason), NoteOf(before)))
    ensures !InFlight(ReadRaw(FileAfter(start, events, i)).0, ref, now)
  {
    hide FileAfter, OwnRecord;
    ReadsLastWrite(start, events, j, i, ref, MarkFailed(reason), now);
  }

  /** A report changes the note and nothing else: of a dictation with a record, what was read before is
      read after, apart from the note and from what time does to it; of one without, only the note. */
  lemma {:induction false} ReportChangesNote(start: File, events: seq<Event>, j: nat, i: nat, ref: string, stage: string, detail: string, now: int)
    requires LastWrite(events, j, i, ref, Report(stage, detail)) && events[i - 1].now <= now
    ensures var before, after := ReadAt(start, events, j, ref, events[j].now), ReadAt(start, events, i, ref, now);
      var note := Some(Note(stage, detail, events[j].now));
      match before
      case None => after == Some(Record(None, Some(ref), None, None, None, None, None, None, note))
      case Some(b) =>
        && after.Some? && after.value == b.(note := note, stage := after.value.stage)
        && after.value.stage == (if b.stage == Some(Forwarded) && b.forwardedAt.Some? && now - b.forwardedAt.value > 180_000
                                 then Some(Abandoned) else b.stage)
  {
    hide FileAfter, OwnRecord;
    ReadsLastWrite(start, events, j, i, ref, Report(stage, detail), now);
  }

  /** A record of the old flat shape is read under its own reference, or under a fixed one if it has
      none; a file of any other shape reads as empty. */
  lemma OldShapeIsRead(r: Record)
    requires r.stage.Some?
    ensures var ref := if r.ref.Some? && r.ref.value != "" then r.ref.value else "legacy-unknown";
      Lookup(ReadRaw(Legacy(r)).0, ref) == Some(r) && |ReadRaw(Legacy(r)).0| == 1 && ReadRaw(Legacy(r)).1
    ensures ReadRaw(Unusable) == (map[], false) && ReadRaw(Legacy(r.(stage := None))) == (map[], false)
  {
  }

  /** The question whether anything is still forwarded has the eager answer. */
  lemma {:induction false} AnyForwardedIsEager(start: File, events: seq<Event>, i: nat, now: int)
    requires i <= |events| && Monotone(events) && (i > 0 ==> events[i - 1].now <= now)
    ensures var records := ReadRaw(FileAfter(start, events, i)).0;
      (exists ref :: InFlight(records, ref, now)) <==> exists ref :: EagerStage(start, events, i, ref, now) == Some(Forwarded)
  {
    hide FileAfter, OwnRecord, InFlight, EagerStage;
    var records := ReadRaw(FileAfter(start, events, i)).0;
    if ref :| InFlight(records, ref, now) {
      InFlightIsEager(start, events, i, ref, now);
    } else if ref :| EagerStage(start, events, i, ref, now) == Some(Forwarded) {
      InFlightIsEager(start, events, i, ref, now);
    }
  }

  lemma InFlightIsEager(start: File, events: seq<Event>, i: nat, ref: string, now: int)
    requires i <= |events| && Monotone(events) && (i > 0 ==> events[i - 1].now <= now)
    ensures InFlight(ReadRaw(FileAfter(start, events, i)).0, ref, now) <==> EagerStage(start, events, i, ref, now) == Some(Forwarded)
  {
    hide FileAfter, OwnRecord;
    LazyRefinesEager(start, events, i, ref, now);
  }

  /** Reading twice changes no more than reading once, and an upgraded file stays upgraded. */
  lemma ReadingIsIdempotent(file: File, now: int)
    ensures AfterRead(AfterRead(file, now), now) == AfterRead(file, now)
    ensures ReadRaw(AfterRead(file, now)) == (HealAll(ReadRaw(file).0, now), false)
  {
    var records := ReadRaw(file).0;
    HealTwice(records, now);
    if !ReadRaw(file).1 && !(exists ref :: ref in records && IsOverdue(records[ref], now)) {
      assert HealAll(records, now) == records;
    }
  }

  lemma HealTwice(records: Records, now: int)
    ensures HealAll(HealAll(records, now), now) == HealAll(records, now)
    ensures forall ref :: ref in HealAll(records, now) ==> !IsOverdue(HealAll(records, now)[ref], now)
  {
  }
}
