// Any number of threads, in any number of processes, that add to and flush the one queue file.
// Each takes the file lock, reads, and writes in separate steps that interleave freely, and each
// may die at any of them.
module ReturnQueueRuns {
  import opened Wrappers
  import opened ReturnQueue
  import Text

  datatype Entry = Entry(kind: Kind, text: string, team: Option<string>)

  /** Where a thread is. Wants waits for the lock; everything up to Done holds it. */
  datatype Pc =
    | Free
    | AddWants(entry: Entry) | AddLocked(entry: Entry) | AddRead(entry: Entry, items: seq<Item>)
    | FlushWants | FlushLocked | FlushRead(items: seq<Item>) | FlushTook(items: seq<Item>, remaining: seq<Item>)
    | Written(batch: Option<nat>)
    | Speaks(taken: nat)
    | Dead

  /** A flush: what was in the file in the order it had arrived, and what the flush speaks. */
  datatype Batch = Batch(arrivals: seq<Item>, items: seq<Item>)

  /** The file, its lock and the threads, and the history: all that ever arrived, the batches taken,
      the batches handed to the speech service, and those whose thread died before that. */
  datatype State = State(
    file: seq<Item>, lock: Option<nat>, threads: seq<Pc>,
    arrived: seq<Item>, batches: seq<Batch>, spoken: seq<nat>, lost: set<nat>)

  datatype Step = Add(thread: nat, entry: Entry, now: int) | Flush(thread: nat, now: int) | Advance(thread: nat, now: int) | Die(thread: nat, now: int)

  predicate HoldsLock(pc: Pc) {
    pc.AddLocked? || pc.AddRead? || pc.FlushLocked? || pc.FlushRead? || pc.FlushTook? || pc.Written?
  }

  /** The batch a thread has taken and still has to speak. */
  function Owes(pc: Pc): Option<nat> {
    match pc
    case Written(b) => b
    case Speaks(b) => Some(b)
    case _ => None
  }

  function Set(s: State, t: nat, pc: Pc): State
    requires t < |s.threads|
  {
    s.(threads := s.threads[t := pc])
  }

  /** What thread t does next. */
  function Act(s: State, t: nat, now: int): (r: State)
    requires t < |s.threads|
    ensures |r.threads| == |s.threads|
  {
    match s.threads[t]
    case AddWants(e) => if s.lock == None then Set(s, t, AddLocked(e)).(lock := Some(t)) else s
    case AddLocked(e) => Set(s, t, AddRead(e, s.file))
    case AddRead(e, items) =>
      var item := Item(e.kind, e.text, e.team, now);
      Set(s, t, Written(None)).(file := items + [item], arrived := s.arrived + [item])
    case FlushWants => if s.lock == None then Set(s, t, FlushLocked).(lock := Some(t)) else s
    case FlushLocked => if s.file == [] then Set(s, t, Written(None)) else Set(s, t, FlushRead(Sorted(s.file)))
    case FlushRead(items) => Set(s, t, FlushTook(items, Remaining(s.file, Identities(items))))
    case FlushTook(items, remaining) =>
      Set(s, t, Written(Some(|s.batches|))).(file := remaining, batches := s.batches + [Batch(s.file, items)])
    case Written(b) => Set(s, t, if b.Some? then Speaks(b.value) else Free).(lock := None)
    case Speaks(b) => Set(s, t, Free).(spoken := s.spoken + [b])
    case _ => s
  }

  function Next(s: State, step: Step): State {
    if step.thread >= |s.threads| then s else
      var pc := s.threads[step.thread];
      match step
      case Add(t, e, _) =>
        var entry := e.(text := Text.Strip(e.text));
        if pc == Free && Batchable(e.kind) && entry.text != "" then Set(s, t, AddWants(entry)) else s
      case Flush(t, _) => if pc == Free then Set(s, t, FlushWants) else s
      case Advance(t, now) => Act(s, t, now)
      case Die(t, _) =>
        Set(s, t, Dead).(
          lock := if s.lock == Some(t) then None else s.lock,
          lost := s.lost + if Owes(pc).Some? then {Owes(pc).value} else {})
  }

  function Start(threads: nat): State {
    State([], None, seq(threads, _ => Free), [], [], [], {})
  }

  function After(threads: nat, steps: seq<Step>, i: nat): State
    requires i <= |steps|
  {
    if i == 0 then Start(threads) else Next(After(threads, steps, i - 1), steps[i - 1])
  }

  // What holds in every reachable state.

  /** At most one thread is between taking the lock and releasing it. */
  ghost predicate Exclusive(s: State) {
    && (forall t :: 0 <= t < |s.threads| ==> (HoldsLock(s.threads[t]) <==> s.lock == Some(t)))
    && (s.lock.Some? ==> s.lock.value < |s.threads|)
  }

  /** What a thread has read under the lock is what the file still holds. */
  ghost predicate Reads(pc: Pc, file: seq<Item>) {
    match pc
    case AddRead(_, items) => items == file
    case FlushRead(items) => items == Sorted(file)
    case FlushTook(items, remaining) => items == Sorted(file) && remaining == []
    case _ => true
  }

  ghost predicate UpToDate(s: State) {
    forall t :: 0 <= t < |s.threads| ==> Reads(s.threads[t], s.file)
  }

  function Flat(batches: seq<Batch>): seq<Item> {
    if batches == [] then [] else Flat(batches[..|batches| - 1]) + batches[|batches| - 1].arrivals
  }

  /** The batches, and then the file, are the arrivals in order; a batch is spoken sorted. */
  ghost predicate Conserved(s: State) {
    && s.arrived == Flat(s.batches) + s.file
    && forall b :: 0 <= b < |s.batches| ==> s.batches[b].items == Sorted(s.batches[b].arrivals)
  }

  /** Nobody owes a batch that was spoken or lost, and no two threads owe the same. */
  ghost predicate OwedOnce(s: State) {
    && (forall t :: 0 <= t < |s.threads| && Owes(s.threads[t]).Some? ==>
          Owes(s.threads[t]).value < |s.batches|
          && Owes(s.threads[t]).value !in s.spoken && Owes(s.threads[t]).value !in s.lost)
    && (forall t, u :: 0 <= t < u < |s.threads| && Owes(s.threads[t]).Some? ==> Owes(s.threads[t]) != Owes(s.threads[u]))
  }

  ghost predicate SpokenOnce(s: State) {
    && (forall i, j :: 0 <= i < j < |s.spoken| ==> s.spoken[i] != s.spoken[j])
    && (forall b :: b in s.spoken ==> b < |s.batches| && b !in s.lost)
    && (forall b :: b in s.lost ==> b < |s.batches|)
  }

  ghost predicate Owed(s: State, b: nat) {
    exists t :: 0 <= t < |s.threads| && Owes(s.threads[t]) == Some(b)
  }

  ghost predicate Accounted(s: State) {
    forall b :: 0 <= b < |s.batches| ==> b in s.spoken || b in s.lost || Owed(s, b)
  }

  lemma StartInv(threads: nat)
    ensures var s := Start(threads); Exclusive(s) && UpToDate(s) && Conserved(s) && OwedOnce(s) && SpokenOnce(s) && Accounted(s)
  {
  }

  lemma KeepsExclusive(s: State, step: Step)
    requires Exclusive(s)
    ensures Exclusive(Next(s, step))
  {
    hide Sorted, Remaining, Identities;
  }

  lemma KeepsUpToDate(s: State, step: Step)
    requires Exclusive(s) && UpToDate(s)
    ensures UpToDate(Next(s, step))
  {
    hide Sorted, Remaining, Identities;
    NothingRemains(s.file);
    if step.thread < |s.threads| {
      assert Reads(s.threads[step.thread], s.file);
    }
  }

  lemma FlatAppend(batches: seq<Batch>, b: Batch)
    ensures Flat(batches + [b]) == Flat(batches) + b.arrivals
  {
    assert (batches + [b])[..|batches|] == batches;
  }

  lemma KeepsConserved(s: State, step: Step)
    requires UpToDate(s) && Conserved(s)
    ensures Conserved(Next(s, step))
  {
    hide Sorted, Remaining, Identities, Flat;
    if step.Advance? && step.thread < |s.threads| {
      var pc := s.threads[step.thread];
      assert Reads(pc, s.file);
      if pc.FlushTook? {
        FlatAppend(s.batches, Batch(s.file, pc.items));
      }
    }
  }

  /** A step leaves other threads alone. Its own thread takes a new batch, or passes on the one it
      owed to the speech service, or loses it, or owes what it owed before. */
  ghost predicate OwesAs(s: State, r: State, t: nat)
    requires t < |s.threads| == |r.threads|
  {
    var before, now := Owes(s.threads[t]), Owes(r.threads[t]);
    || (now == before && |r.batches| == |s.batches| && r.spoken == s.spoken && r.lost == s.lost)
    || (before == None && now == Some(|s.batches|) && |r.batches| == |s.batches| + 1 && r.spoken == s.spoken && r.lost == s.lost)
    || (before.Some? && now == None && |r.batches| == |s.batches| && r.spoken == s.spoken + [before.value] && r.lost == s.lost)
    || (before.Some? && now == None && |r.batches| == |s.batches| && r.spoken == s.spoken && r.lost == s.lost + {before.value})
  }

  lemma StepOwes(s: State, step: Step)
    requires step.thread < |s.threads|
    ensures var r := Next(s, step);
      && |r.threads| == |s.threads| && OwesAs(s, r, step.thread)
      && (forall t :: 0 <= t < |s.threads| && t != step.thread ==> r.threads[t] == s.threads[t])
  {
    hide Sorted, Remaining, Identities;
  }

  lemma KeepsOwedOnce(s: State, step: Step)
    requires OwedOnce(s) && SpokenOnce(s)
    ensures OwedOnce(Next(s, step)) && SpokenOnce(Next(s, step))
  {
    if step.thread < |s.threads| {
      StepOwes(s, step);
      hide Next, Owes;
    }
  }

  lemma KeepsAccounted(s: State, step: Step)
    requires Accounted(s)
    ensures Accounted(Next(s, step))
  {
    hide Next;
    var r := Next(s, step);
    if step.thread < |s.threads| {
      StepOwes(s, step);
      forall b: nat | b < |r.batches|
        ensures b in r.spoken || b in r.lost || Owed(r, b)
      {
        if b < |s.batches| && Owed(s, b) {
          var t :| 0 <= t < |s.threads| && Owes(s.threads[t]) == Some(b);
          assert Owes(r.threads[t]) == Some(b) || b in r.spoken || b in r.lost;
        } else if b >= |s.batches| {
          assert Owes(r.threads[step.thread]) == Some(b);
        }
      }
    } else {
      NoSuchThread(s, step);
    }
  }

  lemma NoSuchThread(s: State, step: Step)
    requires step.thread >= |s.threads|
    ensures Next(s, step) == s
  {
  }

  ghost predicate Inv(s: State) {
    Exclusive(s) && UpToDate(s) && Conserved(s) && OwedOnce(s) && SpokenOnce(s) && Accounted(s)
  }

  lemma {:induction false} EveryRun(threads: nat, steps: seq<Step>, i: nat)
    requires i <= |steps|
    ensures Inv(After(threads, steps, i))
  {
    hide Next, Exclusive, UpToDate, Conserved, OwedOnce, SpokenOnce, Accounted;
    if i == 0 {
      StartInv(threads);
    } else {
      EveryRun(threads, steps, i - 1);
      var s, step := After(threads, steps, i - 1), steps[i - 1];
      KeepsExclusive(s, step);
      KeepsUpToDate(s, step);
      KeepsConserved(s, step);
      KeepsOwedOnce(s, step);
      KeepsAccounted(s, step);
    }
  }

  // The promises of the channel, for every interleaving.

  function Taken(batches: seq<Batch>): multiset<Item> {
    if batches == [] then multiset{} else Taken(batches[..|batches| - 1]) + multiset(batches[|batches| - 1].items)
  }

  lemma {:induction false} TakenIsFlat(batches: seq<Batch>)
    requires forall b :: 0 <= b < |batches| ==> batches[b].items == Sorted(batches[b].arrivals)
    ensures Taken(batches) == multiset(Flat(batches))
  {
    if batches != [] {
      var m := |batches| - 1;
      TakenIsFlat(batches[..m]);
      SortedIsStableSort(batches[m].arrivals);
    }
  }

  /** Every item that was enqueued is either still queued or in exactly one batch. */
  lemma ItemsConserved(threads: nat, steps: seq<Step>, i: nat)
    requires i <= |steps|
    ensures var s := After(threads, steps, i); multiset(s.arrived) == multiset(s.file) + Taken(s.batches)
  {
    hide After;
    EveryRun(threads, steps, i);
    TakenIsFlat(After(threads, steps, i).batches);
  }

  /** A flush never leaves anything behind. */
  lemma FlushTakesAll(threads: nat, steps: seq<Step>, i: nat, t: nat)
    requires i <= |steps| && t < |After(threads, steps, i).threads| && After(threads, steps, i).threads[t].FlushTook?
    ensures var s := After(threads, steps, i); s.threads[t].remaining == [] && s.lock == Some(t)
  {
    hide After;
    EveryRun(threads, steps, i);
    assert Reads(After(threads, steps, i).threads[t], After(threads, steps, i).file);
  }

  /** No batch is spoken twice. Once nobody has a batch still to speak, and nobody died between
      writing the file and speaking, every batch has been spoken exactly once. */
  lemma SpokenExactlyOnce(threads: nat, steps: seq<Step>, i: nat)
    requires i <= |steps|
    ensures var s := After(threads, steps, i);
      && (forall j, k :: 0 <= j < k < |s.spoken| ==> s.spoken[j] != s.spoken[k])
      && ((forall t :: 0 <= t < |s.threads| ==> Owes(s.threads[t]) == None) && s.lost == {} ==>
            forall b :: b in s.spoken <==> 0 <= b < |s.batches|)
  {
    hide After;
    EveryRun(threads, steps, i);
  }

  /** Only a thread that dies while it owes a batch loses it. */
  lemma {:induction false} NothingLost(threads: nat, steps: seq<Step>, i: nat)
    requires i <= |steps|
    requires forall j :: 0 <= j < i && steps[j].Die? ==>
      var s := After(threads, steps, j);
      steps[j].thread < |s.threads| ==> Owes(s.threads[steps[j].thread]) == None
    ensures After(threads, steps, i).lost == {}
  {
    hide Next, Owes;
    if i > 0 {
      NothingLost(threads, steps, i - 1);
      LosesOnlyOwed(After(threads, steps, i - 1), steps[i - 1]);
    }
  }

  lemma LosesOnlyOwed(s: State, step: Step)
    requires step.Die? && step.thread < |s.threads| ==> Owes(s.threads[step.thread]) == None
    ensures Next(s, step).lost == s.lost
  {
    hide Sorted, Remaining, Identities;
  }

  /** n steps of one thread. */
  function Proceed(s: State, t: nat, now: int, n: nat): (r: State)
    requires t < |s.threads|
    ensures |r.threads| == |s.threads|
    decreases n
  {
    if n == 0 then s else Proceed(Act(s, t, now), t, now, n - 1)
  }

  /** Nobody can wedge the lock: it is free, or a live thread holds it and lets go of it within four
      steps of its own. */
  lemma LockIsLetGo(threads: nat, steps: seq<Step>, i: nat, now: int)
    requires i <= |steps|
    ensures var s := After(threads, steps, i);
      s.lock == None || (s.lock.value < |s.threads| && !s.threads[s.lock.value].Dead?
                         && exists n :: 1 <= n <= 4 && Proceed(s, s.lock.value, now, n).lock == None)
  {
    hide After, Sorted, Remaining, Identities, UpToDate, Conserved, OwedOnce, SpokenOnce, Accounted;
    EveryRun(threads, steps, i);
    var s := After(threads, steps, i);
    if s.lock.Some? {
      StepsToGo(s, s.lock.value, now);
    }
  }

  lemma StepsToGo(s: State, t: nat, now: int)
    requires t < |s.threads| && HoldsLock(s.threads[t])
    ensures exists n :: 1 <= n <= 4 && Proceed(s, t, now, n).lock == None
  {
    hide Sorted, Remaining, Identities;
    var s1 := Act(s, t, now);
    var s2 := Act(s1, t, now);
    var s3 := Act(s2, t, now);
    assert Proceed(s, t, now, 1) == s1 by {
      assert Proceed(s1, t, now, 0) == s1;
    }
    assert Proceed(s, t, now, 2) == Proceed(s1, t, now, 1) == Proceed(s2, t, now, 0) == s2;
    assert Proceed(s, t, now, 3) == Proceed(s1, t, now, 2) == Proceed(s2, t, now, 1) == Proceed(s3, t, now, 0) == s3;
    var s4 := Act(s3, t, now);
    assert Proceed(s, t, now, 4) == Proceed(s1, t, now, 3) == Proceed(s2, t, now, 2) == Proceed(s3, t, now, 1) == Proceed(s4, t, now, 0) == s4;
    match s.threads[t]
    case Written(_) => assert s1.lock == None;
    case FlushTook(_, _) => assert s2.lock == None;
    case FlushRead(_) => assert s3.lock == None;
    case AddRead(_, _) => assert s2.lock == None;
    case AddLocked(_) => assert s3.lock == None;
    case FlushLocked => assert s2.lock == None || s4.lock == None;
  }

  /** A thread that nobody interrupts adds its item, stripped and with the time at which it writes; it
      does nothing if the kind is not batchable or the text is blank. */
  lemma AddsAlone(s: State, t: nat, e: Entry, now: int)
    requires t < |s.threads| && s.threads[t] == Free && s.lock == None
    ensures var item := Item(e.kind, Text.Strip(e.text), e.team, now);
      if (e.kind == BlockedQuestion || e.kind == Completion) && item.text != "" then
        Proceed(Next(s, Add(t, e, now)), t, now, 4) == s.(file := s.file + [item], arrived := s.arrived + [item])
      else Next(s, Add(t, e, now)) == s
  {
    hide Text.Strip;
    var item := Item(e.kind, Text.Strip(e.text), e.team, now);
    if Batchable(e.kind) && item.text != "" {
      var s0 := Next(s, Add(t, e, now));
      assert s0 == s.(threads := s.threads[t := AddWants(e.(text := item.text))]);
      Four(s0, t, now);
      var s3 := Act(Act(Act(s0, t, now), t, now), t, now);
      assert s3 == s.(threads := s.threads[t := Written(None)], lock := Some(t), file := s.file + [item], arrived := s.arrived + [item]);
      assert s.threads[t := Free] == s.threads;
    }
  }

  /** A thread that nobody interrupts takes all there is, in speaking order, leaves nothing in the file
      and hands the batch to the speech service. */
  lemma FlushesAlone(s: State, t: nat, now: int)
    requires t < |s.threads| && s.threads[t] == Free && s.lock == None && s.file != []
    ensures Proceed(Next(s, Flush(t, now)), t, now, 6) ==
      s.(file := [], batches := s.batches + [Batch(s.file, Sorted(s.file))], spoken := s.spoken + [|s.batches|])
  {
    hide Sorted, Remaining, Identities;
    var s0 := Next(s, Flush(t, now));
    assert s0 == s.(threads := s.threads[t := FlushWants]);
    Four(s0, t, now);
    NothingRemains(s.file);
    var s2 := Act(Act(s0, t, now), t, now);
    assert s2 == s.(threads := s.threads[t := FlushRead(Sorted(s.file))], lock := Some(t));
    var s4 := Act(Act(s2, t, now), t, now);
    assert s4 == s.(threads := s.threads[t := Written(Some(|s.batches|))], lock := Some(t), file := [],
                    batches := s.batches + [Batch(s.file, Sorted(s.file))]);
    Two(s4, t, now);
    ProceedOn(s0, t, now, 4, 2);
    assert s.threads[t := Free] == s.threads;
  }

  lemma Two(s: State, t: nat, now: int)
    requires t < |s.threads|
    ensures Proceed(s, t, now, 2) == Act(Act(s, t, now), t, now)
  {
    hide Act;
    var s1 := Proceed(s, t, now, 1);
    assert s1 == Act(s, t, now) by {
      assert Proceed(Act(s, t, now), t, now, 0) == Act(s, t, now);
    }
    ProceedOn(s, t, now, 1, 1);
    assert Proceed(s1, t, now, 1) == Proceed(Act(s1, t, now), t, now, 0) == Act(s1, t, now);
  }

  lemma Four(s: State, t: nat, now: int)
    requires t < |s.threads|
    ensures Proceed(s, t, now, 4) == Act(Act(Act(Act(s, t, now), t, now), t, now), t, now)
  {
    hide Act;
    Two(s, t, now);
    Two(Proceed(s, t, now, 2), t, now);
    ProceedOn(s, t, now, 2, 2);
  }

  lemma {:induction false} ProceedOn(s: State, t: nat, now: int, m: nat, n: nat)
    requires t < |s.threads|
    ensures Proceed(s, t, now, m + n) == Proceed(Proceed(s, t, now, m), t, now, n)
    decreases m
  {
    hide Act;
    if m > 0 {
      ProceedOn(Act(s, t, now), t, now, m - 1, n);
    }
  }

  ghost predicate Monotone(steps: seq<Step>) {
    forall a, b :: 0 <= a <= b < |steps| ==> steps[a].now <= steps[b].now
  }

  ghost predicate Entered(s: State, limit: int) {
    && InArrivalOrder(s.arrived)
    && (forall x :: x in s.arrived ==> x.at <= limit && Batchable(x.kind))
    && (forall t :: 0 <= t < |s.threads| ==> WillAdd(s.threads[t]))
  }

  predicate WillAdd(pc: Pc) {
    match pc
    case AddWants(e) => Batchable(e.kind)
    case AddLocked(e) => Batchable(e.kind)
    case AddRead(e, _) => Batchable(e.kind)
    case _ => true
  }

  lemma StepEnters(s: State, step: Step, limit: int)
    requires Entered(s, limit) && limit <= step.now
    ensures Entered(Next(s, step), step.now)
  {
    hide Sorted, Remaining, Identities;
    var r := Next(s, step);
    if r.arrived != s.arrived {
      var item := r.arrived[|s.arrived|];
      assert r.arrived == s.arrived + [item];
    }
  }

  lemma {:induction false} RunEnters(threads: nat, steps: seq<Step>, i: nat)
    requires i <= |steps| && Monotone(steps) && (i == 0 ==> steps != [])
    ensures Entered(After(threads, steps, i), steps[if i == 0 then 0 else i - 1].now)
  {
    hide Next;
    if i > 0 {
      RunEnters(threads, steps, i - 1);
      StepEnters(After(threads, steps, i - 1), steps[i - 1], steps[if i == 1 then 0 else i - 2].now);
    }
  }

  predicate Stretch(whole: seq<Item>, part: seq<Item>, k: nat) {
    k + |part| <= |whole| && whole[k..k + |part|] == part
  }

  lemma {:induction false} WithinFlat(batches: seq<Batch>, b: nat) returns (k: nat)
    requires b < |batches|
    ensures Stretch(Flat(batches), batches[b].arrivals, k)
  {
    var m := |batches| - 1;
    var front := Flat(batches[..m]);
    if b == m {
      k := |front|;
    } else {
      k := WithinFlat(batches[..m], b);
      assert Flat(batches)[k..k + |batches[b].arrivals|] == front[k..k + |batches[b].arrivals|];
    }
  }

  /** If the clock does not go back, each batch is a stretch of consecutive arrivals, its blocked
      questions first and then its completions, each in the order they arrived. */
  lemma BatchOrder(threads: nat, steps: seq<Step>, i: nat, b: nat)
    requires i <= |steps| && Monotone(steps) && b < |After(threads, steps, i).batches|
    ensures var s := After(threads, steps, i); var batch := s.batches[b];
      && batch.items == InTier(batch.arrivals, 0) + InTier(batch.arrivals, 1)
      && exists k: nat :: Stretch(s.arrived, batch.arrivals, k)
  {
    hide Next, Sorted, InTier, Flat;
    if i > 0 {
      EveryRun(threads, steps, i);
      RunEnters(threads, steps, i);
      var s := After(threads, steps, i);
      var k := WithinFlat(s.batches, b);
      assert s.arrived[k..k + |s.batches[b].arrivals|] == Flat(s.batches)[k..k + |s.batches[b].arrivals|];
      StretchInOrder(s.arrived, k, s.batches[b].arrivals);
      TierThenArrival(s.batches[b].arrivals);
      assert Stretch(s.arrived, s.batches[b].arrivals, k);
    }
  }

  lemma StretchInOrder(arrived: seq<Item>, k: nat, arrivals: seq<Item>)
    requires Stretch(arrived, arrivals, k)
    requires InArrivalOrder(arrived) && forall x :: x in arrived ==> Batchable(x.kind)
    ensures InArrivalOrder(arrivals) && forall x :: x in arrivals ==> Batchable(x.kind)
  {
    forall j | 0 <= j < |arrivals|
      ensures arrivals[j] == arrived[k + j]
    {
    }
  }
}

// How long the queue holds an item, as its workers tick.
module ReturnQueueHold {
  import opened Wrappers
  import opened ReturnQueue

  // In milliseconds.
  const SETTLE := 2500
  const MAX_HOLD := 12_000
  const WAKE_STALE_AFTER := 1000

  /** The daemon's wake file as read: missing or unreadable, or whether it says capturing, and when. */
  datatype Wake = Unreadable | Says(capturing: bool, updatedAt: int)

  /** One event on the queue; every worker's tick and every operation is one. */
  datatype Event = Add(item: Item) | Tick(now: int, wake: Wake) | Flush(now: int)

  function Time(e: Event): int {
    if e.Add? then e.item.at else e.now
  }

  /** The earliest and the latest arrival among the first n items. */
  function Oldest(items: seq<Item>, n: nat): (t: int)
    requires 0 < n <= |items|
    ensures exists k :: 0 <= k < n && items[k].at == t
    ensures forall k :: 0 <= k < n ==> t <= items[k].at
  {
    if n == 1 then items[0].at
    else
      var t := Oldest(items, n - 1);
      if items[n - 1].at < t then items[n - 1].at else t
  }

  function Newest(items: seq<Item>, n: nat): (t: int)
    requires 0 < n <= |items|
    ensures exists k :: 0 <= k < n && items[k].at == t
    ensures forall k :: 0 <= k < n ==> items[k].at <= t
  {
    if n == 1 then items[0].at
    else
      var t := Newest(items, n - 1);
      if items[n - 1].at > t then items[n - 1].at else t
  }

  /** Some item has waited as long as age, or less. */
  predicate SomeWaited(file: seq<Item>, now: int, age: int) {
    exists k :: 0 <= k < |file| && now - file[k].at >= age
  }

  predicate SomeYounger(file: seq<Item>, now: int, age: int) {
    exists k :: 0 <= k < |file| && now - file[k].at < age
  }

  predicate MidSentence(now: int, wake: Wake) {
    wake.Says? && wake.capturing && now - wake.updatedAt <= WAKE_STALE_AFTER
  }

  datatype Verdict = Ready | NothingQueued | UntilYouStopTalking | Collecting

  function ReadyToFlush(file: seq<Item>, now: int, wake: Wake): (v: Verdict)
    ensures v == Ready <==>
      || SomeWaited(file, now, 12_000)
      || (file != [] && !SomeYounger(file, now, 2500)
          && !(wake.Says? && wake.capturing && now - wake.updatedAt <= 1000))
  {
    if file == [] then NothingQueued
    else if now - Oldest(file, |file|) >= MAX_HOLD then Ready
    else if MidSentence(now, wake) then UntilYouStopTalking
    else if now - Newest(file, |file|) < SETTLE then Collecting
    else Ready
  }

  /** What an event leaves in the file. */
  function Left(file: seq<Item>, e: Event): seq<Item> {
    match e
    case Add(item) => file + [item]
    case Tick(now, wake) => if ReadyToFlush(file, now, wake) == Ready then [] else file
    case Flush(_) => []
  }

  function FileAfter(events: seq<Event>, i: nat): seq<Item>
    requires i <= |events|
  {
    if i == 0 then [] else Left(FileAfter(events, i - 1), events[i - 1])
  }

  predicate NoTick(events: seq<Event>, p: nat, i: nat)
    requires i <= |events|
  {
    forall k :: p < k < i ==> !events[k].Tick?
  }

  /** From an arrival, which starts a worker, or a tick on, nothing happens later than d without
      another tick before it. */
  ghost predicate TicksEvery(events: seq<Event>, d: int) {
    forall p, i :: 0 <= p < i < |events| && !events[p].Flush? && NoTick(events, p, i) ==> Time(events[i]) - Time(events[p]) <= d
  }

  /** The last tick before event i, or the arrival after it, found the item younger than the backstop. */
  ghost predicate Young(events: seq<Event>, i: nat, item: Item)
    requires i <= |events|
  {
    exists p :: 0 <= p < i && !events[p].Flush? && NoTick(events, p, i) && Time(events[p]) - item.at < MAX_HOLD
  }

  lemma {:induction false} QueuedIsYoung(events: seq<Event>, i: nat, item: Item)
    requires i <= |events| && item in FileAfter(events, i)
    ensures Young(events, i, item)
  {
    var e := events[i - 1];
    var before := FileAfter(events, i - 1);
    if item in before {
      QueuedIsYoung(events, i - 1, item);
      var p :| 0 <= p < i - 1 && !events[p].Flush? && NoTick(events, p, i - 1) && Time(events[p]) - item.at < MAX_HOLD;
      if e.Tick? {
        assert Time(e) - item.at < MAX_HOLD && NoTick(events, i - 1, i);
      } else {
        assert NoTick(events, p, i);
      }
    } else {
      assert e == Add(item) && NoTick(events, i - 1, i);
    }
  }

  /** Whatever the wake file says and however often new items restart the settling, an item that is
      queued, or is being taken, when event i happens is younger than the backstop and one tick. */
  lemma HoldIsBounded(events: seq<Event>, i: nat, d: int, item: Item)
    requires i < |events| && TicksEvery(events, d) && item in FileAfter(events, i)
    ensures Time(events[i]) - item.at < 12_000 + d
  {
    QueuedIsYoung(events, i, item);
    var p :| 0 <= p < i && !events[p].Flush? && NoTick(events, p, i) && Time(events[p]) - item.at < MAX_HOLD;
    assert Time(events[i]) - Time(events[p]) <= d;
  }
}
