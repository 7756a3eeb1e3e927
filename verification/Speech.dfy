// The speech service of one process: any number of threads submit items to one priority queue,
// and the worker that the first of them starts serves it. All steps interleave freely.
module Speech {
  import opened Wrappers

  /** What a caller wants spoken; with a window, a listener waits for the item to start. */
  datatype Request = Request(priority: int, text: string, window: bool)

  datatype Entry = Entry(caller: nat, seqNo: nat, request: Request)

  /** Where a caller is: it makes sure a worker runs, takes a number, and only then queues. */
  datatype Caller =
    | Idle
    | Wants(request: Request) | Locking(request: Request) | Locked(request: Request) | Launched(request: Request)
    | Unlocking(request: Request) | Ready(request: Request) | Numbered(entry: Entry)

  datatype Worker = Waiting | Taken(item: Entry) | Logged(item: Entry) | Signalled(item: Entry) | Playing(item: Entry)

  /** One item served, and how many had been queued by then. */
  datatype Service = Service(entry: Entry, queuedBefore: nat)

  datatype State = State(
    callers: seq<Caller>, started: bool, lock: Option<nat>, nextSeq: nat,
    workers: seq<Worker>, queued: seq<Entry>, served: seq<Service>,
    logged: set<Entry>, signalled: set<Entry>, armed: set<Entry>, finished: set<Entry>)

  datatype Step =
    | Speak(caller: nat, request: Request)
    | Go(caller: nat)
    | Get(worker: nat, item: Entry)
    | Work(worker: nat)
    | Fail(worker: nat)
    | Arm(item: Entry)

  predicate Before(a: Entry, b: Entry) {
    a.request.priority < b.request.priority || (a.request.priority == b.request.priority && a.seqNo < b.seqNo)
  }

  /** Among the first n served. */
  predicate ServedBy(served: seq<Service>, n: nat, e: Entry) {
    exists j :: 0 <= j < n && j < |served| && served[j].entry == e
  }

  /** Among the first n queued. */
  predicate QueuedBy(queued: seq<Entry>, n: nat, e: Entry) {
    exists i :: 0 <= i < n && i < |queued| && queued[i] == e
  }

  predicate IsWaiting(s: State, e: Entry) {
    QueuedBy(s.queued, |s.queued|, e) && !ServedBy(s.served, |s.served|, e)
  }

  predicate IsLeast(s: State, e: Entry) {
    IsWaiting(s, e) && forall i :: 0 <= i < |s.queued| && IsWaiting(s, s.queued[i]) ==> s.queued[i] == e || Before(e, s.queued[i])
  }

  function SetCaller(s: State, c: nat, caller: Caller): State
    requires c < |s.callers|
  {
    s.(callers := s.callers[c := caller])
  }

  function SetWorker(s: State, w: nat, worker: Worker): State
    requires w < |s.workers|
  {
    s.(workers := s.workers[w := worker])
  }

  function GoOn(s: State, c: nat): State
    requires c < |s.callers|
  {
    match s.callers[c]
    case Idle => s
    case Wants(r) => SetCaller(s, c, if s.started then Ready(r) else Locking(r))
    case Locking(r) => if s.lock == None then SetCaller(s, c, Locked(r)).(lock := Some(c)) else s
    case Locked(r) =>
      if s.started then SetCaller(s, c, Unlocking(r))
      else SetCaller(s, c, Launched(r)).(workers := s.workers + [Waiting])
    case Launched(r) => SetCaller(s, c, Unlocking(r)).(started := true)
    case Unlocking(r) => SetCaller(s, c, Ready(r)).(lock := None)
    case Ready(r) => SetCaller(s, c, Numbered(Entry(c, s.nextSeq, r))).(nextSeq := s.nextSeq + 1)
    case Numbered(e) => SetCaller(s, c, Idle).(queued := s.queued + [e])
  }

  function WorkOn(s: State, w: nat): State
    requires w < |s.workers|
  {
    match s.workers[w]
    case Waiting => s
    case Taken(e) => SetWorker(s, w, Logged(e)).(logged := s.logged + {e})
    case Logged(e) => SetWorker(s, w, Signalled(e)).(signalled := s.signalled + if e.request.window then {e} else {})
    case Signalled(e) => SetWorker(s, w, Playing(e))
    case Playing(e) => SetWorker(s, w, Waiting).(finished := s.finished + {e})
  }

  /** A step that is not possible leaves everything as it is. */
  function Next(s: State, step: Step): State {
    match step
    case Speak(c, r) => if c < |s.callers| && s.callers[c] == Idle then SetCaller(s, c, Wants(r)) else s
    case Go(c) => if c < |s.callers| then GoOn(s, c) else s
    case Get(w, e) =>
      if w < |s.workers| && s.workers[w] == Waiting && IsLeast(s, e)
      then SetWorker(s, w, Taken(e)).(served := s.served + [Service(e, |s.queued|)]) else s
    case Work(w) => if w < |s.workers| then WorkOn(s, w) else s
    case Fail(w) => if w < |s.workers| then SetWorker(s, w, Waiting) else s
    case Arm(e) => if e in s.signalled then s.(armed := s.armed + {e}) else s
  }

  function Start(callers: nat): State {
    State(seq(callers, _ => Idle), false, None, 0, [], [], [], {}, {}, {}, {})
  }

  function After(callers: nat, steps: seq<Step>, i: nat): State
    requires i <= |steps|
  {
    if i == 0 then Start(callers) else Next(After(callers, steps, i - 1), steps[i - 1])
  }

  // What holds in every reachable state.

  predicate HoldsLock(c: Caller) {
    c.Locked? || c.Launched? || c.Unlocking?
  }

  /** One caller at a time looks whether a worker runs, and so there is never a second. */
  ghost predicate OneWorker(s: State) {
    && (forall c :: 0 <= c < |s.callers| ==> (HoldsLock(s.callers[c]) <==> s.lock == Some(c)))
    && (forall c :: 0 <= c < |s.callers| ==> (s.callers[c].Launched? ==> !s.started && |s.workers| == 1))
    && (forall c :: 0 <= c < |s.callers| ==> (s.callers[c].Unlocking? || s.callers[c].Ready? || s.callers[c].Numbered? ==> s.started))
    && (s.started ==> |s.workers| == 1)
    && (!s.started && (s.lock.None? || s.lock.value >= |s.callers| || !s.callers[s.lock.value].Launched?) ==> s.workers == [])
  }

  /** Numbers are given out once, and a caller's items are queued in the order of their numbers. */
  ghost predicate Numbering(s: State) {
    && (forall i :: 0 <= i < |s.queued| ==> s.queued[i].seqNo < s.nextSeq)
    && (forall i, j :: 0 <= i < j < |s.queued| ==> s.queued[i].seqNo != s.queued[j].seqNo)
    && (forall i, j :: 0 <= i < j < |s.queued| && s.queued[i].caller == s.queued[j].caller ==> s.queued[i].seqNo < s.queued[j].seqNo)
    && (forall c :: 0 <= c < |s.callers| && s.callers[c].Numbered? ==> PendingNumber(s, c, s.callers[c].entry))
    && (forall c, d :: 0 <= c < d < |s.callers| && s.callers[c].Numbered? && s.callers[d].Numbered? ==>
          s.callers[c].entry.seqNo != s.callers[d].entry.seqNo)
  }

  ghost predicate PendingNumber(s: State, c: nat, e: Entry) {
    && e.caller == c && e.seqNo < s.nextSeq
    && (forall i :: 0 <= i < |s.queued| ==> s.queued[i].seqNo != e.seqNo)
    && (forall i :: 0 <= i < |s.queued| && s.queued[i].caller == c ==> s.queued[i].seqNo < e.seqNo)
  }

  /** No item is served twice, and each was queued when it was served. */
  ghost predicate ServedOnce(queued: seq<Entry>, served: seq<Service>) {
    && (forall j :: 0 <= j < |served| ==> served[j].queuedBefore <= |queued| && QueuedBy(queued, served[j].queuedBefore, served[j].entry))
    && (forall j, k :: 0 <= j < k < |served| ==> served[j].entry != served[k].entry)
  }

  /** What had been queued when an item was served was served before it or comes after it in rank. */
  ghost predicate LeastFirst(queued: seq<Entry>, served: seq<Service>) {
    forall j, i :: 0 <= j < |served| && 0 <= i < served[j].queuedBefore && i < |queued| ==>
      ServedBy(served, j + 1, queued[i]) || Before(served[j].entry, queued[i])
  }

  /** An armed listener's item has started, a started item has been logged, a logged item served. */
  ghost predicate ArmedLate(s: State) {
    && s.armed <= s.signalled <= s.logged
    && (forall e :: e in s.logged ==> ServedBy(s.served, |s.served|, e))
    && (forall w :: 0 <= w < |s.workers| && !s.workers[w].Waiting? ==> ServedBy(s.served, |s.served|, s.workers[w].item))
    && (forall w :: 0 <= w < |s.workers| && (s.workers[w].Logged? || s.workers[w].Signalled? || s.workers[w].Playing?) ==>
          s.workers[w].item in s.logged)
  }

  lemma StartInv(callers: nat)
    ensures var s := Start(callers); OneWorker(s) && Numbering(s) && ServedOnce(s.queued, s.served) && LeastFirst(s.queued, s.served) && ArmedLate(s)
  {
  }

  lemma KeepsOneWorker(s: State, step: Step)
    requires OneWorker(s)
    ensures OneWorker(Next(s, step))
  {
    hide IsLeast, OneWorker;
    match step
    case Go(c) => GoKeepsOneWorker(s, c);
    case Speak(c, r) => SpeakKeepsOneWorker(s, c, r);
    case _ => SameWorkers(s, Next(s, step));
  }

  lemma SameWorkers(s: State, r: State)
    requires OneWorker(s) && r.callers == s.callers && r.started == s.started && r.lock == s.lock && |r.workers| == |s.workers|
    ensures OneWorker(r)
  {
  }

  lemma SpeakKeepsOneWorker(s: State, c: nat, r: Request)
    requires OneWorker(s)
    ensures OneWorker(Next(s, Speak(c, r)))
  {
  }

  lemma GoKeepsOneWorker(s: State, c: nat)
    requires OneWorker(s)
    ensures OneWorker(Next(s, Go(c)))
  {
  }

  lemma KeepsNumbering(s: State, step: Step)
    requires Numbering(s)
    ensures Numbering(Next(s, step))
  {
    hide IsLeast, PendingNumber;
    if step.Go? && step.caller < |s.callers| {
      match s.callers[step.caller]
      case Ready(r) => TakesNumber(s, step.caller, r);
      case Numbered(e) => QueuesNumbered(s, step.caller, e);
      case _ => SameNumbers(s, Next(s, step));
    } else {
      SameNumbers(s, Next(s, step));
    }
  }

  lemma SameNumbers(s: State, r: State)
    requires Numbering(s) && r.queued == s.queued && r.nextSeq == s.nextSeq && |r.callers| == |s.callers|
    requires forall c :: 0 <= c < |s.callers| && r.callers[c].Numbered? ==> r.callers[c] == s.callers[c]
    ensures Numbering(r)
  {
  }

  lemma TakesNumber(s: State, c: nat, r: Request)
    requires Numbering(s) && c < |s.callers| && s.callers[c] == Ready(r)
    ensures Numbering(GoOn(s, c))
  {
  }

  lemma QueuesNumbered(s: State, c: nat, e: Entry)
    requires Numbering(s) && c < |s.callers| && s.callers[c] == Numbered(e)
    ensures Numbering(GoOn(s, c))
  {
    assert PendingNumber(s, c, e);
    var r := GoOn(s, c);
    forall d | 0 <= d < |r.callers| && r.callers[d].Numbered?
      ensures PendingNumber(r, d, r.callers[d].entry)
    {
      assert r.callers[d] == s.callers[d] && PendingNumber(s, d, s.callers[d].entry);
    }
  }

  /** What a step does to the queue: nothing, or one more item in it, or its least item served. */
  lemma StepServes(s: State, step: Step)
    ensures var r := Next(s, step);
      || (r.queued == s.queued && r.served == s.served)
      || (r.served == s.served && |r.queued| == |s.queued| + 1 && r.queued[..|s.queued|] == s.queued)
      || (step.Get? && IsLeast(s, step.item) && r.queued == s.queued && r.served == s.served + [Service(step.item, |s.queued|)])
  {
    hide IsLeast;
  }

  lemma OneMoreQueued(queued: seq<Entry>, longer: seq<Entry>, served: seq<Service>)
    requires ServedOnce(queued, served) && LeastFirst(queued, served)
    requires |queued| <= |longer| && longer[..|queued|] == queued
    ensures ServedOnce(longer, served) && LeastFirst(longer, served)
  {
    hide Before, ServedBy;
    assert forall i :: 0 <= i < |queued| ==> longer[i] == queued[i];
    forall j | 0 <= j < |served|
      ensures QueuedBy(longer, served[j].queuedBefore, served[j].entry)
    {
      assert QueuedBy(queued, served[j].queuedBefore, served[j].entry);
    }
  }

  lemma OneMoreServed(s: State, e: Entry)
    requires ServedOnce(s.queued, s.served) && LeastFirst(s.queued, s.served) && IsLeast(s, e)
    ensures ServedOnce(s.queued, s.served + [Service(e, |s.queued|)])
    ensures LeastFirst(s.queued, s.served + [Service(e, |s.queued|)])
  {
    hide ServedOnce, LeastFirst, IsLeast, Before;
    ServedOnceMore(s, e);
    LeastFirstMore(s, e);
  }

  lemma ServedOnceMore(s: State, e: Entry)
    requires ServedOnce(s.queued, s.served) && IsLeast(s, e)
    ensures ServedOnce(s.queued, s.served + [Service(e, |s.queued|)])
  {
    hide QueuedBy;
    var r, n := s.served + [Service(e, |s.queued|)], |s.served|;
    assert forall j :: 0 <= j < n ==> r[j] == s.served[j] && r[j].entry != e;
  }

  lemma LeastFirstMore(s: State, e: Entry)
    requires LeastFirst(s.queued, s.served) && IsLeast(s, e)
    ensures LeastFirst(s.queued, s.served + [Service(e, |s.queued|)])
  {
    hide Before, ServedBy;
    var r, n := s.served + [Service(e, |s.queued|)], |s.served|;
    forall j, i | 0 <= j < |r| && 0 <= i < r[j].queuedBefore && i < |s.queued|
      ensures ServedBy(r, j + 1, s.queued[i]) || Before(r[j].entry, s.queued[i])
    {
      if j == n {
        IsQueued(s.queued, i);
        NowServed(s.served, e, |s.queued|);
        ServedLonger(s.served, r, n, s.queued[i]);
      } else {
        assert r[j] == s.served[j];
        ServedLonger(s.served, r, j + 1, s.queued[i]);
      }
    }
  }

  lemma IsQueued(queued: seq<Entry>, i: nat)
    requires i < |queued|
    ensures QueuedBy(queued, |queued|, queued[i])
  {
  }

  lemma ServedLonger(a: seq<Service>, b: seq<Service>, n: nat, e: Entry)
    requires |a| <= |b| && b[..|a|] == a
    ensures ServedBy(a, n, e) ==> ServedBy(b, n, e) && ServedBy(b, |b|, e)
  {
    if ServedBy(a, n, e) {
      var j :| 0 <= j < n && j < |a| && a[j].entry == e;
      assert b[j] == b[..|a|][j] == a[j];
    }
  }

  lemma KeepsServing(s: State, step: Step)
    requires ServedOnce(s.queued, s.served) && LeastFirst(s.queued, s.served)
    ensures ServedOnce(Next(s, step).queued, Next(s, step).served) && LeastFirst(Next(s, step).queued, Next(s, step).served)
  {
    hide Next, ServedOnce, LeastFirst, IsLeast;
    var r := Next(s, step);
    StepServes(s, step);
    if r.queued != s.queued {
      OneMoreQueued(s.queued, r.queued, s.served);
    } else if r.served != s.served {
      OneMoreServed(s, step.item);
    }
  }

  lemma KeepsArmedLate(s: State, step: Step)
    requires ArmedLate(s)
    ensures ArmedLate(Next(s, step))
  {
    hide IsLeast, ServedBy, ArmedLate;
    match step
    case Work(w) => WorkKeepsArmedLate(s, w);
    case Get(w, e) => GetKeepsArmedLate(s, w, e);
    case _ => OthersKeepArmedLate(s, step);
  }

  lemma WorkKeepsArmedLate(s: State, w: nat)
    requires ArmedLate(s)
    ensures ArmedLate(Next(s, Work(w)))
  {
    hide ServedBy;
  }

  lemma GetKeepsArmedLate(s: State, w: nat, e: Entry)
    requires ArmedLate(s)
    ensures ArmedLate(Next(s, Get(w, e)))
  {
    hide IsLeast, ServedBy;
    var r := Next(s, Get(w, e));
    NowServed(s.served, e, |s.queued|);
    forall x | ServedBy(s.served, |s.served|, x)
      ensures ServedBy(r.served, |r.served|, x)
    {
      ServedLonger(s.served, r.served, |s.served|, x);
    }
  }

  lemma OthersKeepArmedLate(s: State, step: Step)
    requires ArmedLate(s) && !step.Get? && !step.Work?
    ensures ArmedLate(Next(s, step))
  {
    hide ServedBy;
  }

  lemma NowServed(served: seq<Service>, e: Entry, n: nat)
    ensures ServedBy(served + [Service(e, n)], |served| + 1, e)
  {
    assert (served + [Service(e, n)])[|served|].entry == e;
  }

  ghost predicate Inv(s: State) {
    OneWorker(s) && Numbering(s) && ServedOnce(s.queued, s.served) && LeastFirst(s.queued, s.served) && ArmedLate(s)
  }

  lemma {:induction false} EveryRun(callers: nat, steps: seq<Step>, i: nat)
    requires i <= |steps|
    ensures Inv(After(callers, steps, i))
  {
    hide Next, OneWorker, Numbering, ServedOnce, LeastFirst, ArmedLate;
    if i == 0 {
      StartInv(callers);
    } else {
      EveryRun(callers, steps, i - 1);
      var s, step := After(callers, steps, i - 1), steps[i - 1];
      KeepsOneWorker(s, step);
      KeepsNumbering(s, step);
      KeepsServing(s, step);
      KeepsArmedLate(s, step);
    }
  }

  // The promises of the service, for every interleaving.

  /** Never two at once. */
  lemma OneAtATime(callers: nat, steps: seq<Step>, i: nat)
    requires i <= |steps|
    ensures |After(callers, steps, i).workers| <= 1
  {
    hide After, Numbering, ServedOnce, LeastFirst, ArmedLate;
    EveryRun(callers, steps, i);
  }

  /** A listener arms only after its own item left the queue and was logged. */
  lemma ArmsAfterItsOwnItem(callers: nat, steps: seq<Step>, i: nat, e: Entry)
    requires i <= |steps| && e in After(callers, steps, i).armed
    ensures var s := After(callers, steps, i); e in s.logged && ServedBy(s.served, |s.served|, e) && !IsWaiting(s, e)
  {
    hide After, Numbering, ServedOnce, LeastFirst, OneWorker;
    EveryRun(callers, steps, i);
  }

  /** No item is served twice. And nothing that waited is overtaken: when one item is served before
      another that was already queued, it comes before it in (priority, number). */
  lemma NoOvertaking(callers: nat, steps: seq<Step>, i: nat, j: nat, k: nat)
    requires i <= |steps| && j < k < |After(callers, steps, i).served|
    ensures var s := After(callers, steps, i);
      && s.served[j].entry != s.served[k].entry
      && (QueuedBy(s.queued, s.served[j].queuedBefore, s.served[k].entry) ==>
            var a, b := s.served[j].entry, s.served[k].entry;
            a.request.priority < b.request.priority || (a.request.priority == b.request.priority && a.seqNo < b.seqNo))
  {
    hide After, Numbering, ArmedLate, OneWorker;
    EveryRun(callers, steps, i);
    var s := After(callers, steps, i);
    var e := s.served[k].entry;
    if QueuedBy(s.queued, s.served[j].queuedBefore, e) {
      var q :| 0 <= q < s.served[j].queuedBefore && q < |s.queued| && s.queued[q] == e;
      assert !ServedBy(s.served, j + 1, e);
    }
  }

  /** What one thread submits at one priority is spoken in the order it was submitted. */
  lemma ThreadOrderKept(callers: nat, steps: seq<Step>, i: nat, j: nat, k: nat)
    requires i <= |steps| && j < |After(callers, steps, i).served| && k < |After(callers, steps, i).served|
    requires var s := After(callers, steps, i);
      && s.served[j].entry.caller == s.served[k].entry.caller
      && s.served[j].entry.request.priority == s.served[k].entry.request.priority
      && s.served[j].entry.seqNo < s.served[k].entry.seqNo
    ensures j < k
  {
    hide After, LeastFirst, ArmedLate, OneWorker, IsLeast;
    EveryRun(callers, steps, i);
    var s := After(callers, steps, i);
    if k < j {
      QueuedEarlier(s, j, k);
      NoOvertaking(callers, steps, i, k, j);
    }
  }

  lemma QueuedEarlier(s: State, j: nat, k: nat)
    requires Numbering(s) && ServedOnce(s.queued, s.served) && j < |s.served| && k < |s.served|
    requires s.served[j].entry.caller == s.served[k].entry.caller && s.served[j].entry.seqNo < s.served[k].entry.seqNo
    ensures QueuedBy(s.queued, s.served[k].queuedBefore, s.served[j].entry)
  {
    hide PendingNumber;
    var n, m := s.served[k].queuedBefore, s.served[j].queuedBefore;
    assert QueuedBy(s.queued, n, s.served[k].entry) && QueuedBy(s.queued, m, s.served[j].entry);
    var b :| 0 <= b < n && b < |s.queued| && s.queued[b] == s.served[k].entry;
    var a :| 0 <= a < m && a < |s.queued| && s.queued[a] == s.served[j].entry;
    assert a < b;
  }

  lemma {:induction false} LeastAmong(s: State, n: nat) returns (r: Option<Entry>)
    requires Numbering(s) && n <= |s.queued|
    ensures r.None? ==> forall i :: 0 <= i < n ==> !IsWaiting(s, s.queued[i])
    ensures r.Some? ==> IsWaiting(s, r.value)
    ensures r.Some? ==> forall i :: 0 <= i < n && IsWaiting(s, s.queued[i]) ==> s.queued[i] == r.value || Before(r.value, s.queued[i])
  {
    r := None;
    if n > 0 {
      r := LeastAmong(s, n - 1);
      var e := s.queued[n - 1];
      if IsWaiting(s, e) {
        if r.Some? {
          var k :| 0 <= k < |s.queued| && s.queued[k] == r.value;
          assert k != n - 1 ==> e.seqNo != r.value.seqNo;
        }
        if r.None? || Before(e, r.value) {
          r := Some(e);
        }
      }
    }
  }

  /** As long as something waits there is a least to serve, so an idle worker is never stuck. */
  lemma LeastExists(callers: nat, steps: seq<Step>, i: nat, waiting: Entry)
    requires i <= |steps| && IsWaiting(After(callers, steps, i), waiting)
    ensures exists e :: IsLeast(After(callers, steps, i), e)
  {
    hide After, LeastFirst, ServedOnce, ArmedLate, OneWorker;
    EveryRun(callers, steps, i);
    var s := After(callers, steps, i);
    var r := LeastAmong(s, |s.queued|);
    var k :| 0 <= k < |s.queued| && s.queued[k] == waiting;
    assert IsLeast(s, r.value);
  }

  /** Served, but never started, and no longer with any worker. */
  ghost predicate Orphaned(s: State, e: Entry) {
    && ServedBy(s.served, |s.served|, e) && e !in s.signalled && e !in s.armed
    && forall w :: 0 <= w < |s.workers| && !s.workers[w].Waiting? ==> s.workers[w].item != e
  }

  lemma OrphanStays(s: State, step: Step, e: Entry)
    requires Orphaned(s, e)
    ensures Orphaned(Next(s, step), e)
  {
    hide ServedBy, Orphaned;
    match step
    case Get(w, x) => OrphanNotTaken(s, w, x, e);
    case Work(w) => OrphanNotWorked(s, w, e);
    case _ => OrphanLeftAlone(s, step, e);
  }

  lemma OrphanNotTaken(s: State, w: nat, x: Entry, e: Entry)
    requires Orphaned(s, e)
    ensures Orphaned(Next(s, Get(w, x)), e)
  {
    hide ServedBy;
    ServedLonger(s.served, Next(s, Get(w, x)).served, |s.served|, e);
    assert !IsLeast(s, e);
  }

  lemma OrphanNotWorked(s: State, w: nat, e: Entry)
    requires Orphaned(s, e)
    ensures Orphaned(Next(s, Work(w)), e)
  {
    hide ServedBy;
  }

  lemma OrphanLeftAlone(s: State, step: Step, e: Entry)
    requires Orphaned(s, e) && !step.Get? && !step.Work?
    ensures Orphaned(Next(s, step), e)
  {
    hide ServedBy;
  }

  /** A worker has taken the item and not yet signalled its start. */
  ghost predicate Starting(s: State, e: Entry) {
    exists w :: 0 <= w < |s.workers| && (s.workers[w] == Taken(e) || s.workers[w] == Logged(e))
  }

  /** With this step a worker fails that was about to start the item. */
  predicate FailsStart(s: State, step: Step, e: Entry) {
    step.Fail? && step.worker < |s.workers| && (s.workers[step.worker] == Taken(e) || s.workers[step.worker] == Logged(e))
  }

  /** Such a step is among the first i. */
  predicate FailedBefore(callers: nat, steps: seq<Step>, i: nat, e: Entry)
    requires i <= |steps|
  {
    i > 0 && (FailsStart(After(callers, steps, i - 1), steps[i - 1], e) || FailedBefore(callers, steps, i - 1, e))
  }

  lemma StepStarts(s: State, step: Step, e: Entry)
    requires e.request.window && !FailsStart(s, step, e)
    requires ServedBy(s.served, |s.served|, e) ==> e in s.signalled || Starting(s, e)
    ensures var r := Next(s, step); ServedBy(r.served, |r.served|, e) ==> e in r.signalled || Starting(r, e)
  {
    hide Next, ServedBy, FailsStart;
    var r := Next(s, step);
    if ServedBy(r.served, |r.served|, e) {
      ServedNow(s, step, e);
      if Starting(s, e) {
        var w :| 0 <= w < |s.workers| && (s.workers[w] == Taken(e) || s.workers[w] == Logged(e));
        StillStarting(s, step, e, w);
      } else if e in s.signalled {
        SignalledStays(s, step, e);
      } else if !ServedBy(s.served, |s.served|, e) {
        assert r.workers[step.worker] == Taken(e);
      }
    }
  }

  lemma SignalledStays(s: State, step: Step, e: Entry)
    requires e in s.signalled
    ensures e in Next(s, step).signalled
  {
    hide IsLeast;
  }

  lemma StillStarting(s: State, step: Step, e: Entry, w: nat)
    requires w < |s.workers| && (s.workers[w] == Taken(e) || s.workers[w] == Logged(e))
    requires e.request.window && !FailsStart(s, step, e)
    ensures var r := Next(s, step); w < |r.workers| && (r.workers[w] == Taken(e) || r.workers[w] == Logged(e) || e in r.signalled)
  {
    hide IsLeast;
  }

  lemma ServedNow(s: State, step: Step, e: Entry)
    requires ServedBy(Next(s, step).served, |Next(s, step).served|, e)
    ensures ServedBy(s.served, |s.served|, e) ||
      (step.Get? && step.worker < |Next(s, step).workers| && Next(s, step).workers[step.worker] == Taken(e))
  {
    hide IsLeast;
    var r := Next(s, step);
    var j :| 0 <= j < |r.served| && r.served[j].entry == e;
    if j < |s.served| {
      assert r.served[j] == s.served[j];
    }
  }

  /** In every run, an item with a window that was served has been signalled, or a worker is about to
      signal it, or a worker failed when it was. */
  lemma {:induction false} StartedOrFailed(callers: nat, steps: seq<Step>, i: nat, e: Entry)
    requires i <= |steps| && e.request.window
    ensures var s := After(callers, steps, i);
      ServedBy(s.served, |s.served|, e) ==> e in s.signalled || Starting(s, e) || FailedBefore(callers, steps, i, e)
  {
    hide Next, Starting, FailsStart, ServedBy;
    if i == 0 {
      NothingServed(callers, e);
    } else {
      StartedOrFailed(callers, steps, i - 1, e);
      var s := After(callers, steps, i - 1);
      if !FailsStart(s, steps[i - 1], e) && !FailedBefore(callers, steps, i - 1, e) {
        StepStarts(s, steps[i - 1], e);
      }
    }
  }

  lemma NothingServed(callers: nat, e: Entry)
    ensures !ServedBy(Start(callers).served, 0, e)
  {
  }

  /** What a worker is about to start has not been signalled. */
  ghost predicate Unsignalled(s: State) {
    forall w :: 0 <= w < |s.workers| && (s.workers[w].Taken? || s.workers[w].Logged?) ==> s.workers[w].item !in s.signalled
  }

  lemma StepUnsignalled(s: State, step: Step)
    requires Unsignalled(s) && ArmedLate(s) && |s.workers| <= 1
    ensures Unsignalled(Next(s, step))
  {
    hide ServedBy;
  }

  lemma {:induction false} RunUnsignalled(callers: nat, steps: seq<Step>, i: nat)
    requires i <= |steps|
    ensures Unsignalled(After(callers, steps, i))
  {
    hide Next, Numbering, ServedOnce, LeastFirst, ArmedLate, OneWorker;
    if i > 0 {
      RunUnsignalled(callers, steps, i - 1);
      EveryRun(callers, steps, i - 1);
      OneAtATime(callers, steps, i - 1);
      StepUnsignalled(After(callers, steps, i - 1), steps[i - 1]);
    }
  }

  /** A caller with a window waits for good exactly when a worker failed on its item before signalling
      the start: in every run the item is out of the queue and of every worker's hands, and its
      listener not armed and never to be, if and only if such a failure is among the steps. */
  lemma {:induction false} NeverArmsIff(callers: nat, steps: seq<Step>, i: nat, e: Entry)
    requires i <= |steps| && e.request.window
    ensures Orphaned(After(callers, steps, i), e) <==> FailedBefore(callers, steps, i, e)
  {
    hide Next, After, Starting, ServedBy, FailsStart;
    StartedOrFailed(callers, steps, i, e);
    OrphanNotStarting(After(callers, steps, i), e);
    if FailedBefore(callers, steps, i, e) {
      FailureBeforeStartNeverArms(callers, steps, i, i, e);
    }
  }

  lemma OrphanNotStarting(s: State, e: Entry)
    ensures Orphaned(s, e) ==> !Starting(s, e) && e !in s.signalled && ServedBy(s.served, |s.served|, e)
  {
    hide ServedBy;
  }

  /** After such a failure the listener never arms, however the run goes on. */
  lemma {:induction false} FailureBeforeStartNeverArms(callers: nat, steps: seq<Step>, i: nat, j: nat, e: Entry)
    requires i <= j <= |steps| && FailedBefore(callers, steps, i, e)
    ensures Orphaned(After(callers, steps, j), e) && e !in After(callers, steps, j).armed
    decreases j
  {
    hide Next, Orphaned, FailsStart;
    var s, step := After(callers, steps, j - 1), steps[j - 1];
    if i < j {
      FailureBeforeStartNeverArms(callers, steps, i, j - 1, e);
      OrphanStays(s, step, e);
    } else if FailsStart(s, step, e) {
      FailureOrphans(callers, steps, j - 1, e);
    } else {
      FailureBeforeStartNeverArms(callers, steps, j - 1, j - 1, e);
      OrphanStays(s, step, e);
    }
    OrphanUnarmed(After(callers, steps, j), e);
  }

  lemma FailureOrphans(callers: nat, steps: seq<Step>, i: nat, e: Entry)
    requires i < |steps| && FailsStart(After(callers, steps, i), steps[i], e)
    ensures Orphaned(After(callers, steps, i + 1), e)
  {
    hide Next, After, Numbering, ServedOnce, LeastFirst, Orphaned, OneWorker, ArmedLate;
    EveryRun(callers, steps, i);
    RunUnsignalled(callers, steps, i);
    assert After(callers, steps, i + 1) == Next(After(callers, steps, i), steps[i]) by {
      AfterStep(callers, steps, i);
    }
    FailOrphans(After(callers, steps, i), steps[i].worker, e);
  }

  lemma AfterStep(callers: nat, steps: seq<Step>, i: nat)
    requires i < |steps|
    ensures After(callers, steps, i + 1) == Next(After(callers, steps, i), steps[i])
  {
    hide Next;
  }

  /** One caller speaks with a window, and writing the log fails. */
  function FailingRun(r: Request): (steps: seq<Step>)
    ensures |steps| == 10
  {
    [Speak(0, r), Go(0), Go(0), Go(0), Go(0), Go(0), Go(0), Go(0), Get(0, Entry(0, 0, r)), Fail(0)]
  }

  lemma GoesOn(r: Request, i: nat, s: State)
    requires 1 <= i <= 7 && After(1, FailingRun(r), i) == s && |s.callers| == 1
    ensures After(1, FailingRun(r), i + 1) == GoOn(s, 0)
  {
    hide GoOn;
    assert FailingRun(r)[i] == Go(0);
  }

  lemma RunStarts(r: Request)
    ensures After(1, FailingRun(r), 4) == State([Launched(r)], false, Some(0), 0, [Waiting], [], [], {}, {}, {}, {})
  {
    hide After;
    BeginsWanting(r);
    GoesOn(r, 1, State([Wants(r)], false, None, 0, [], [], [], {}, {}, {}, {}));
    GoesOn(r, 2, State([Locking(r)], false, None, 0, [], [], [], {}, {}, {}, {}));
    GoesOn(r, 3, State([Locked(r)], false, Some(0), 0, [], [], [], {}, {}, {}, {}));
  }

  lemma BeginsWanting(r: Request)
    ensures After(1, FailingRun(r), 1) == State([Wants(r)], false, None, 0, [], [], [], {}, {}, {}, {})
  {
    assert After(1, FailingRun(r), 0) == Start(1);
    assert Start(1).callers == [Idle];
  }

  lemma RunQueues(r: Request)
    ensures After(1, FailingRun(r), 8) == State([Idle], true, None, 1, [Waiting], [Entry(0, 0, r)], [], {}, {}, {}, {})
  {
    hide After;
    RunStarts(r);
    GoesOn(r, 4, State([Launched(r)], false, Some(0), 0, [Waiting], [], [], {}, {}, {}, {}));
    GoesOn(r, 5, State([Unlocking(r)], true, Some(0), 0, [Waiting], [], [], {}, {}, {}, {}));
    GoesOn(r, 6, State([Ready(r)], true, None, 0, [Waiting], [], [], {}, {}, {}, {}));
    GoesOn(r, 7, State([Numbered(Entry(0, 0, r))], true, None, 1, [Waiting], [], [], {}, {}, {}, {}));
  }

  /** The failure is reached, by a run of ten steps. */
  lemma FailureIsReached(r: Request)
    ensures FailedBefore(1, FailingRun(r), 10, Entry(0, 0, r))
    ensures Orphaned(After(1, FailingRun(r), 10), Entry(0, 0, r))
  {
    hide After, IsLeast, Orphaned;
    var steps, e := FailingRun(r), Entry(0, 0, r);
    RunQueues(r);
    OnlyIsLeast(After(1, steps, 8), e);
    AfterStep(1, steps, 8);
    assert After(1, steps, 9).workers == [Taken(e)];
    FailureBeforeStartNeverArms(1, steps, 10, 10, e);
  }

  lemma OnlyIsLeast(s: State, e: Entry)
    requires s.queued == [e] && s.served == []
    ensures IsLeast(s, e)
  {
    assert s.queued[0] == e;
  }

  lemma FailOrphans(s: State, w: nat, e: Entry)
    requires OneWorker(s) && ArmedLate(s) && w < |s.workers| && !s.workers[w].Waiting? && s.workers[w].item == e && e !in s.signalled
    ensures Orphaned(Next(s, Fail(w)), e)
  {
    hide ServedBy;
    assert |s.workers| <= 1;
  }

  lemma OrphanUnarmed(s: State, e: Entry)
    ensures Orphaned(s, e) ==> e !in s.armed
  {
  }

  // What is asked for is queued, and what is served is spoken.

  /** What a caller has asked for and was not busy to take. */
  function Asked(callers: nat, steps: seq<Step>, i: nat, c: nat): seq<Request>
    requires i <= |steps|
  {
    if i == 0 then []
    else
      var s, step := After(callers, steps, i - 1), steps[i - 1];
      Asked(callers, steps, i - 1, c) +
      if step.Speak? && step.caller == c && c < |s.callers| && s.callers[c] == Idle then [step.request] else []
  }

  /** The requests of one caller that are in the queue, in order. */
  function QueuedOf(queued: seq<Entry>, c: nat): seq<Request> {
    if queued == [] then []
    else
      var e := queued[|queued| - 1];
      QueuedOf(queued[..|queued| - 1], c) + if e.caller == c then [e.request] else []
  }

  /** What a caller is about to queue. */
  function OnItsWay(caller: Caller): seq<Request> {
    match caller
    case Idle => []
    case Wants(r) => [r]
    case Locking(r) => [r]
    case Locked(r) => [r]
    case Launched(r) => [r]
    case Unlocking(r) => [r]
    case Ready(r) => [r]
    case Numbered(e) => [e.request]
  }

  ghost predicate OwnNumbers(s: State) {
    forall c :: 0 <= c < |s.callers| && s.callers[c].Numbered? ==> s.callers[c].entry.caller == c
  }

  lemma QueuedAppend(queued: seq<Entry>, e: Entry, c: nat)
    ensures QueuedOf(queued + [e], c) == QueuedOf(queued, c) + if e.caller == c then [e.request] else []
  {
    assert (queued + [e])[..|queued|] == queued;
  }

  lemma NumbersAreOwn(s: State)
    requires Numbering(s)
    ensures OwnNumbers(s)
  {
    forall c: nat | c < |s.callers| && s.callers[c].Numbered?
      ensures s.callers[c].entry.caller == c
    {
      assert PendingNumber(s, c, s.callers[c].entry);
    }
  }

  /** A step moves what one caller has on its way one step on, and takes on nothing but what is asked. */
  lemma StepCarries(s: State, step: Step, c: nat)
    requires c < |s.callers| && OwnNumbers(s)
    ensures var r := Next(s, step);
      |r.callers| == |s.callers| &&
      QueuedOf(r.queued, c) + OnItsWay(r.callers[c]) ==
        QueuedOf(s.queued, c) + OnItsWay(s.callers[c]) +
        if step.Speak? && step.caller == c && s.callers[c] == Idle then [step.request] else []
  {
    hide IsLeast, QueuedOf;
    match step
    case Go(d) =>
      if d < |s.callers| {
        GoCarries(s, d, c);
      }
    case Speak(d, r) => SpeakCarries(s, d, r, c);
    case _ => assert Next(s, step).queued == s.queued && Next(s, step).callers == s.callers;
  }

  lemma SpeakCarries(s: State, d: nat, r: Request, c: nat)
    requires c < |s.callers|
    ensures var n := Next(s, Speak(d, r));
      && |n.callers| == |s.callers| && n.queued == s.queued
      && OnItsWay(n.callers[c]) == OnItsWay(s.callers[c]) + if d == c && s.callers[c] == Idle then [r] else []
  {
  }

  lemma GoCarries(s: State, d: nat, c: nat)
    requires c < |s.callers| && d < |s.callers| && OwnNumbers(s)
    ensures var n := GoOn(s, d);
      && |n.callers| == |s.callers|
      && QueuedOf(n.queued, c) + OnItsWay(n.callers[c]) == QueuedOf(s.queued, c) + OnItsWay(s.callers[c])
  {
    hide QueuedOf;
    match s.callers[d]
    case Numbered(e) => QueuedAppend(s.queued, e, c);
    case _ => assert GoOn(s, d).queued == s.queued && OnItsWay(GoOn(s, d).callers[c]) == OnItsWay(s.callers[c]);
  }

  /** Nothing asked for is lost, changed or made up: what a caller's items in the queue ask for, in order, and
      then what it has on its way, is what it asked for. */
  lemma {:induction false} AskedIsQueued(callers: nat, steps: seq<Step>, i: nat, c: nat)
    requires i <= |steps| && c < callers
    ensures var s := After(callers, steps, i);
      c < |s.callers| && QueuedOf(s.queued, c) + OnItsWay(s.callers[c]) == Asked(callers, steps, i, c)
  {
    hide Next, OnItsWay, QueuedOf, OneWorker, ServedOnce, LeastFirst, ArmedLate, Numbering;
    if i == 0 {
      NothingAsked(callers, c);
    } else {
      AskedIsQueued(callers, steps, i - 1, c);
      EveryRun(callers, steps, i - 1);
      NumbersAreOwn(After(callers, steps, i - 1));
      StepCarries(After(callers, steps, i - 1), steps[i - 1], c);
    }
  }

  lemma NothingAsked(callers: nat, c: nat)
    requires c < callers
    ensures QueuedOf(Start(callers).queued, c) + OnItsWay(Start(callers).callers[c]) == []
  {
  }

  predicate IsWith(s: State, w: nat, e: Entry) {
    w < |s.workers| && !s.workers[w].Waiting? && s.workers[w].item == e
  }

  ghost predicate WithWorker(s: State, e: Entry) {
    exists w :: 0 <= w < |s.workers| && IsWith(s, w, e)
  }

  /** Among the first i steps a worker failed on the item. */
  predicate FailedOn(callers: nat, steps: seq<Step>, i: nat, e: Entry)
    requires i <= |steps|
  {
    i > 0 && ((steps[i - 1].Fail? && IsWith(After(callers, steps, i - 1), steps[i - 1].worker, e)) || FailedOn(callers, steps, i - 1, e))
  }

  lemma StepFinishes(s: State, step: Step, e: Entry)
    requires !(step.Fail? && IsWith(s, step.worker, e))
    requires ServedBy(s.served, |s.served|, e) ==> e in s.finished || WithWorker(s, e)
    ensures var r := Next(s, step); ServedBy(r.served, |r.served|, e) ==> e in r.finished || WithWorker(r, e)
  {
    hide Next, ServedBy;
    var r := Next(s, step);
    if ServedBy(r.served, |r.served|, e) {
      ServedNow(s, step, e);
      FinishedStays(s, step, e);
      if WithWorker(s, e) {
        var w :| 0 <= w < |s.workers| && IsWith(s, w, e);
        StillWith(s, step, e, w);
        assert IsWith(r, w, e) || e in r.finished;
      } else if !ServedBy(s.served, |s.served|, e) {
        assert IsWith(r, step.worker, e);
      }
    }
  }

  lemma FinishedStays(s: State, step: Step, e: Entry)
    ensures e in s.finished ==> e in Next(s, step).finished
  {
    hide IsLeast;
  }

  lemma StillWith(s: State, step: Step, e: Entry, w: nat)
    requires IsWith(s, w, e) && !(step.Fail? && IsWith(s, step.worker, e))
    ensures IsWith(Next(s, step), w, e) || e in Next(s, step).finished
  {
    hide IsLeast;
  }

  /** Every item that was served has been spoken to its end, or a worker is at it, or a worker failed on it. */
  lemma {:induction false} ServedIsSpoken(callers: nat, steps: seq<Step>, i: nat, e: Entry)
    requires i <= |steps|
    ensures var s := After(callers, steps, i);
      ServedBy(s.served, |s.served|, e) ==> e in s.finished || WithWorker(s, e) || FailedOn(callers, steps, i, e)
  {
    hide Next, WithWorker, IsWith, ServedBy;
    if i == 0 {
      NothingServed(callers, e);
    } else {
      ServedIsSpoken(callers, steps, i - 1, e);
      var s := After(callers, steps, i - 1);
      if !(steps[i - 1].Fail? && IsWith(s, steps[i - 1].worker, e)) && !FailedOn(callers, steps, i - 1, e) {
        StepFinishes(s, steps[i - 1], e);
      }
    }
  }

  /** What is past its start was logged, and its listener signalled; and so was what was spoken. */
  ghost predicate StartedFirst(s: State) {
    && (forall w :: 0 <= w < |s.workers| && (s.workers[w].Signalled? || s.workers[w].Playing?) ==> WasStarted(s, s.workers[w].item))
    && (forall e :: e in s.finished ==> WasStarted(s, e))
  }

  predicate WasStarted(s: State, e: Entry) {
    e in s.logged && (e.request.window ==> e in s.signalled)
  }

  lemma StepStartedFirst(s: State, step: Step)
    requires StartedFirst(s) && ArmedLate(s)
    ensures StartedFirst(Next(s, step))
  {
    hide ServedBy, StartedFirst, ArmedLate;
    match step
    case Work(w) =>
      if w < |s.workers| {
        WorkStartedFirst(s, w);
      }
    case _ => OthersStartedFirst(s, step);
  }

  lemma OthersStartedFirst(s: State, step: Step)
    requires StartedFirst(s) && !step.Work?
    ensures StartedFirst(Next(s, step))
  {
    hide IsLeast;
    var r := Next(s, step);
    assert r.logged == s.logged && r.signalled == s.signalled && r.finished == s.finished;
    forall e | WasStarted(s, e)
      ensures WasStarted(r, e)
    {
    }
  }

  lemma WorkStartedFirst(s: State, w: nat)
    requires StartedFirst(s) && ArmedLate(s) && w < |s.workers|
    ensures StartedFirst(WorkOn(s, w))
  {
    hide ServedBy;
    var r := WorkOn(s, w);
    forall e | WasStarted(s, e)
      ensures WasStarted(r, e)
    {
    }
  }

  /** Nothing is spoken to its end before it was logged and, if it has a window, its start signalled. */
  lemma {:induction false} SpokenWasStarted(callers: nat, steps: seq<Step>, i: nat)
    requires i <= |steps|
    ensures StartedFirst(After(callers, steps, i))
  {
    hide Next, Numbering, ServedOnce, LeastFirst, OneWorker, ArmedLate;
    if i > 0 {
      SpokenWasStarted(callers, steps, i - 1);
      EveryRun(callers, steps, i - 1);
      StepStartedFirst(After(callers, steps, i - 1), steps[i - 1]);
    }
  }

  /** An idle worker takes the least item there is, and left alone logs it, signals its start and speaks it. */
  lemma ServesToTheEnd(s: State, w: nat, e: Entry)
    requires w < |s.workers| && s.workers[w] == Waiting && IsLeast(s, e)
    ensures var s1 := Next(s, Get(w, e));
      var r := Next(Next(Next(Next(s1, Work(w)), Work(w)), Work(w)), Work(w));
      && s1.served == s.served + [Service(e, |s.queued|)] && r.served == s1.served
      && r.logged == s.logged + {e} && r.signalled == s.signalled + (if e.request.window then {e} else {})
      && r.finished == s.finished + {e} && r.workers == s.workers
  {
    hide IsLeast;
    var s1 := Next(s, Get(w, e));
    assert s1 == s.(workers := s.workers[w := Taken(e)], served := s.served + [Service(e, |s.queued|)]);
    var s2 := Next(s1, Work(w));
    assert s2 == s1.(workers := s.workers[w := Logged(e)], logged := s.logged + {e});
    var s3 := Next(s2, Work(w));
    assert s3 == s2.(workers := s.workers[w := Signalled(e)], signalled := s.signalled + if e.request.window then {e} else {});
    var s4 := Next(s3, Work(w));
    assert s4 == s3.(workers := s.workers[w := Playing(e)]);
    assert s.workers[w := Waiting] == s.workers;
  }
}
