/** Every interleaving of one master and any number of workers on a check queue. */
module CheckQueueRuns {
  import opened Coins
  import opened CheckQueue

  /** Where a thread is at a moment when nobody holds the mutex. */
  datatype Phase = Outside | Asleep(notified: bool) | Working(batch: seq<Check>, fOk: bool)

  /** added and done are history: the checks added, and those handed in, since the master last returned. */
  datatype System = System(shared: Shared, workers: seq<Phase>, master: Phase, nBatchSize: nat,
                           added: multiset<Check>, done: multiset<Check>)

  /** A step of worker w, of the master, or of whoever shuts the queue down. */
  datatype Step =
    | WorkerEnter(w: nat) | WorkerWake(w: nat) | WorkerFinish(w: nat)
    | MasterAdd(checks: seq<Check>, notified: nat) | MasterEnter | MasterWake | MasterFinish
    | QuitStep

  function PhaseAfter(e: Exit): Phase
  {
    match e
    case Returned(_) => Outside
    case Slept => Asleep(false)
    case Took(batch, fOk) => Working(batch, fOk)
  }

  function Notify(p: Phase): Phase { if p.Asleep? then Asleep(true) else p }

  function NotifyAll(ws: seq<Phase>): seq<Phase>
  {
    seq(|ws|, i requires 0 <= i < |ws| => Notify(ws[i]))
  }

  /** One waiting worker is notified for one new check, all of them for more. */
  function NotifyFor(ws: seq<Phase>, n: nat, notified: nat): seq<Phase>
  {
    if n == 1 then (if notified < |ws| then ws[notified := Notify(ws[notified])] else ws)
    else if n > 1 then NotifyAll(ws)
    else ws
  }

  /** notify_one reaches a thread that waits and has not been notified, if there is one. */
  predicate Chosen(ws: seq<Phase>, notified: nat)
  {
    (exists i :: 0 <= i < |ws| && ws[i] == Asleep(false)) ==> notified < |ws| && ws[notified] == Asleep(false)
  }

  predicate Counters(s: System) { s.shared.nTotal >= 0 && s.shared.nIdle >= 0 }

  predicate Enabled(s: System, step: Step)
  {
    match step
    case WorkerEnter(w) => w < |s.workers| && s.workers[w].Outside?
    case WorkerWake(w) => w < |s.workers| && s.workers[w].Asleep?
    case WorkerFinish(w) => w < |s.workers| && s.workers[w].Working?
    case MasterAdd(checks, notified) => s.master.Outside? && (|checks| == 1 ==> Chosen(s.workers, notified))
    case MasterEnter => s.master.Outside?
    case MasterWake => s.master.Asleep?
    case MasterFinish => s.master.Working?
    case QuitStep => true
  }

  function WorkerTo(s: System, w: nat, o: Outcome): System
    requires w < |s.workers|
  {
    s.(shared := o.shared, workers := s.workers[w := PhaseAfter(o.exit)])
  }

  /** The master moves; when it returns, the histories start afresh. */
  function MasterTo(s: System, o: Outcome): System
  {
    s.(shared := o.shared, master := PhaseAfter(o.exit),
       added := if o.exit.Returned? then multiset{} else s.added,
       done := if o.exit.Returned? then multiset{} else s.done)
  }

  /** What the thread in phase p has computed by the time it re-enters. */
  function Result(p: Phase): bool
    requires p.Working?
  {
    p.fOk && AllPass(p.batch)
  }

  function MasterOutcome(s: System, step: Step): Outcome
    requires Enabled(s, step) && Counters(s) && (step.MasterWake? ==> s.shared.nIdle >= 1)
    requires step.MasterEnter? || step.MasterWake? || step.MasterFinish?
  {
    match step
    case MasterEnter => Enter(s.shared, true, s.nBatchSize)
    case MasterWake => Wake(s.shared, true, s.nBatchSize)
    case MasterFinish => Finish(s.shared, |s.master.batch|, Result(s.master), true, s.nBatchSize)
  }

  function Apply(s: System, step: Step): System
    requires Enabled(s, step) && Counters(s)
    requires step.WorkerWake? || step.MasterWake? ==> s.shared.nIdle >= 1
  {
    match step
    case WorkerEnter(w) => WorkerTo(s, w, Enter(s.shared, false, s.nBatchSize))
    case WorkerWake(w) => WorkerTo(s, w, Wake(s.shared, false, s.nBatchSize))
    case WorkerFinish(w) =>
      var p := s.workers[w];
      var o := Finish(s.shared, |p.batch|, Result(p), false, s.nBatchSize);
      var s' := WorkerTo(s, w, o).(done := s.done + multiset(p.batch));
      if s.shared.nTodo - |p.batch| == 0 then s'.(master := Notify(s'.master)) else s'
    case MasterAdd(checks, notified) =>
      s.(shared := AddChecks(s.shared, checks), workers := NotifyFor(s.workers, |checks|, notified),
         added := s.added + multiset(checks))
    case MasterEnter => MasterTo(s, MasterOutcome(s, step))
    case MasterWake => MasterTo(s, MasterOutcome(s, step))
    case MasterFinish => MasterTo(s.(done := s.done + multiset(s.master.batch)), MasterOutcome(s, step))
    case QuitStep => s.(shared := s.shared.(fQuit := true), workers := NotifyAll(s.workers))
  }

  // ----- counting over the workers -----

  function Sum(ws: seq<Phase>, f: Phase -> nat): nat
  {
    if ws == [] then 0 else Sum(ws[..|ws| - 1], f) + f(ws[|ws| - 1])
  }

  lemma {:induction false} SumUpdate(ws: seq<Phase>, f: Phase -> nat, w: nat, p: Phase)
    requires w < |ws|
    ensures Sum(ws[w := p], f) == Sum(ws, f) - f(ws[w]) + f(p)
  {
    var n := |ws| - 1;
    if w == n {
      assert ws[w := p][..n] == ws[..n];
    } else {
      SumUpdate(ws[..n], f, w, p);
      assert ws[w := p][..n] == ws[..n][w := p];
    }
  }

  lemma {:induction false} SumSame(ws: seq<Phase>, ws': seq<Phase>, f: Phase -> nat)
    requires |ws| == |ws'| && forall i :: 0 <= i < |ws| ==> f(ws[i]) == f(ws'[i])
    ensures Sum(ws, f) == Sum(ws', f)
  {
    if ws != [] {
      SumSame(ws[..|ws| - 1], ws'[..|ws| - 1], f);
    }
  }

  lemma {:induction false} SumPositive(ws: seq<Phase>, f: Phase -> nat) returns (w: nat)
    requires Sum(ws, f) > 0
    ensures w < |ws| && f(ws[w]) > 0
  {
    var n := |ws| - 1;
    if f(ws[n]) > 0 {
      w := n;
    } else {
      w := SumPositive(ws[..n], f);
    }
  }

  function BatchOf(p: Phase): seq<Check> { if p.Working? then p.batch else [] }

  function Flights(ws: seq<Phase>): multiset<Check>
  {
    if ws == [] then multiset{} else Flights(ws[..|ws| - 1]) + multiset(BatchOf(ws[|ws| - 1]))
  }

  lemma {:induction false} FlightsUpdate(ws: seq<Phase>, w: nat, p: Phase)
    requires w < |ws|
    ensures Flights(ws[w := p]) + multiset(BatchOf(ws[w])) == Flights(ws) + multiset(BatchOf(p))
  {
    var n := |ws| - 1;
    if w == n {
      assert ws[w := p][..n] == ws[..n];
    } else {
      FlightsUpdate(ws[..n], w, p);
      assert ws[w := p][..n] == ws[..n][w := p] && ws[..n][w] == ws[w] && ws[w := p][n] == ws[n];
      AddToBoth(Flights(ws[..n][w := p]), multiset(BatchOf(ws[w])), Flights(ws[..n]), multiset(BatchOf(p)),
                multiset(BatchOf(ws[n])));
    }
  }

  lemma AddToBoth(a: multiset<Check>, x: multiset<Check>, b: multiset<Check>, y: multiset<Check>, z: multiset<Check>)
    requires a + x == b + y
    ensures a + z + x == b + z + y
  {
    assert a + z + x == (a + x) + z;
    assert b + z + y == (b + y) + z;
  }

  lemma {:induction false} FlightsSame(ws: seq<Phase>, ws': seq<Phase>)
    requires |ws| == |ws'| && forall i :: 0 <= i < |ws| ==> BatchOf(ws[i]) == BatchOf(ws'[i])
    ensures Flights(ws) == Flights(ws')
  {
    if ws != [] {
      FlightsSame(ws[..|ws| - 1], ws'[..|ws| - 1]);
    }
  }

  const SIZE: Phase -> nat := (p: Phase) => |BatchOf(p)|
  const IDLE: Phase -> nat := (p: Phase) => if p.Asleep? then 1 else 0
  const INSIDE: Phase -> nat := (p: Phase) => if p.Outside? then 0 else 1

  // ----- the invariant -----

  /** Every outstanding check is counted once, and so is every thread. */
  ghost predicate CountsOk(s: System)
  {
    && s.shared.nTodo == |s.shared.queue| + Sum(s.workers, SIZE) + SIZE(s.master)
    && s.shared.nIdle == Sum(s.workers, IDLE) + IDLE(s.master)
    && s.shared.nTotal == Sum(s.workers, INSIDE) + INSIDE(s.master)
  }

  /** Each check added is queued, in the batch of one thread, or handed in. */
  ghost predicate ChecksOk(s: System)
  {
    s.added == s.done + multiset(s.shared.queue) + Flights(s.workers) + multiset(BatchOf(s.master))
  }

  ghost predicate PhaseOk(s: System, p: Phase)
  {
    p.Working? ==> p.batch != [] && (p.fOk || !s.shared.fAllOk)
  }

  /** The flag tells the truth about what has been handed in, and once false has a reason. */
  ghost predicate VerdictOk(s: System)
  {
    && (s.shared.fAllOk ==> forall c :: c in s.done ==> c.passes)
    && (!s.shared.fAllOk ==> exists c :: c in s.added && !c.passes)
    && (forall i :: 0 <= i < |s.workers| ==> PhaseOk(s, s.workers[i]))
    && PhaseOk(s, s.master)
  }

  /** The master sleeps only while others work, and is notified only when all is done. */
  ghost predicate MasterOk(s: System)
  {
    s.master.Asleep? ==> s.shared.queue == [] && (s.master.notified <==> s.shared.nTodo == 0)
  }

  ghost predicate Inv(s: System)
  {
    CountsOk(s) && ChecksOk(s) && VerdictOk(s) && MasterOk(s)
  }

  function Start(n: nat, nBatchSize: nat): System
  {
    System(Shared([], 0, 0, true, 0, false), seq(n, _ => Outside), Outside, nBatchSize, multiset{}, multiset{})
  }

  lemma {:induction false} AllOutside(ws: seq<Phase>)
    requires forall i :: 0 <= i < |ws| ==> ws[i].Outside?
    ensures Sum(ws, SIZE) == 0 && Sum(ws, IDLE) == 0 && Sum(ws, INSIDE) == 0 && Flights(ws) == multiset{}
  {
    if ws != [] {
      AllOutside(ws[..|ws| - 1]);
    }
  }

  lemma StartOk(n: nat, nBatchSize: nat)
    ensures Inv(Start(n, nBatchSize))
  {
    AllOutside(Start(n, nBatchSize).workers);
  }

  // ----- what every step keeps -----

  lemma WorkerCounts(s: System, w: nat, p: Phase)
    requires w < |s.workers|
    ensures Sum(s.workers[w := p], SIZE) == Sum(s.workers, SIZE) - SIZE(s.workers[w]) + SIZE(p)
    ensures Sum(s.workers[w := p], IDLE) == Sum(s.workers, IDLE) - IDLE(s.workers[w]) + IDLE(p)
    ensures Sum(s.workers[w := p], INSIDE) == Sum(s.workers, INSIDE) - INSIDE(s.workers[w]) + INSIDE(p)
    ensures BatchOf(s.workers[w]) == [] ==> Flights(s.workers[w := p]) == Flights(s.workers) + multiset(BatchOf(p))
    ensures BatchOf(p) == [] ==> Flights(s.workers) == Flights(s.workers[w := p]) + multiset(BatchOf(s.workers[w]))
  {
    SumUpdate(s.workers, SIZE, w, p);
    SumUpdate(s.workers, IDLE, w, p);
    SumUpdate(s.workers, INSIDE, w, p);
    FlightsUpdate(s.workers, w, p);
    var a, b := Flights(s.workers[w := p]), Flights(s.workers);
    assert a + multiset{} == a && b + multiset{} == b;
  }

  lemma QueueToFlight(added: multiset<Check>, done: multiset<Check>, q: multiset<Check>, b: multiset<Check>,
                      q0: multiset<Check>, f: multiset<Check>, m: multiset<Check>)
    requires added == done + q0 + f + m && q + b == q0
    ensures added == done + q + (f + b) + m
  {
    assert done + (q + b) + f + m == done + q + (f + b) + m;
  }

  lemma FlightToDone(added: multiset<Check>, done: multiset<Check>, q: multiset<Check>, b: multiset<Check>,
                     f0: multiset<Check>, f: multiset<Check>, m: multiset<Check>)
    requires added == done + q + f0 + m && f0 == f + b
    ensures added == (done + b) + q + f + m
  {
    assert done + q + (f + b) + m == (done + b) + q + f + m;
  }

  lemma SettleOnEmpty(sh: Shared, fMaster: bool, nBatchSize: nat)
    requires sh.nTotal >= 0 && sh.nIdle >= 0 && sh.queue == []
    ensures Settle(sh, fMaster, nBatchSize) ==
            if (fMaster || sh.fQuit) && sh.nTodo == 0
            then Outcome(sh.(nTotal := sh.nTotal - 1, fAllOk := fMaster || sh.fAllOk), Returned(sh.fAllOk))
            else Outcome(sh.(nIdle := sh.nIdle + 1), Slept)
  {
  }

  /** Taking a batch moves checks from the queue to the batch, none lost and none twice. */
  lemma TookSplits(sh: Shared, fMaster: bool, nBatchSize: nat)
    requires sh.nTotal >= 0 && sh.nIdle >= 0 && sh.queue != []
    ensures var o := Settle(sh, fMaster, nBatchSize);
            && o.exit.Took? && o.exit.batch != [] && o.exit.fOk == sh.fAllOk
            && o.shared == sh.(queue := o.shared.queue)
            && |o.shared.queue| + |o.exit.batch| == |sh.queue|
            && multiset(o.shared.queue) + multiset(o.exit.batch) == multiset(sh.queue)
  {
    var keep := |sh.queue| - BatchSize(sh, nBatchSize);
    assert sh.queue == sh.queue[..keep] + sh.queue[keep..];
  }

  /** Worker w is inside with a batch from the queue. */
  ghost function Taken(s: System, w: nat, queue: seq<Check>, batch: seq<Check>): System
    requires w < |s.workers|
  {
    s.(shared := s.shared.(nTotal := s.shared.nTotal + 1, queue := queue),
       workers := s.workers[w := Working(batch, s.shared.fAllOk)])
  }

  lemma TakenCounts(s: System, w: nat, queue: seq<Check>, batch: seq<Check>)
    requires CountsOk(s) && w < |s.workers| && s.workers[w].Outside? && |queue| + |batch| == |s.shared.queue|
    ensures CountsOk(Taken(s, w, queue, batch))
  {
    WorkerCounts(s, w, Working(batch, s.shared.fAllOk));
    hide Sum, Flights;
  }

  lemma TakenChecks(s: System, w: nat, queue: seq<Check>, batch: seq<Check>)
    requires ChecksOk(s) && w < |s.workers| && s.workers[w].Outside?
    requires multiset(queue) + multiset(batch) == multiset(s.shared.queue)
    ensures ChecksOk(Taken(s, w, queue, batch))
  {
    WorkerCounts(s, w, Working(batch, s.shared.fAllOk));
    QueueToFlight(s.added, s.done, multiset(queue), multiset(batch), multiset(s.shared.queue), Flights(s.workers),
                  multiset(BatchOf(s.master)));
    hide Sum, Flights;
  }

  lemma TakenVerdict(s: System, w: nat, queue: seq<Check>, batch: seq<Check>)
    requires VerdictOk(s) && w < |s.workers| && batch != []
    ensures VerdictOk(Taken(s, w, queue, batch))
  {
    var s' := Taken(s, w, queue, batch);
    forall i | 0 <= i < |s'.workers|
      ensures PhaseOk(s', s'.workers[i])
    {
      assert PhaseOk(s, s.workers[i]);
    }
  }

  lemma WorkerTakes(s: System, w: nat, queue: seq<Check>, batch: seq<Check>)
    requires Inv(s) && w < |s.workers| && s.workers[w].Outside? && s.shared.queue != [] && batch != []
    requires |queue| + |batch| == |s.shared.queue| && multiset(queue) + multiset(batch) == multiset(s.shared.queue)
    ensures Inv(Taken(s, w, queue, batch))
  {
    hide CountsOk, ChecksOk, VerdictOk;
    TakenCounts(s, w, queue, batch);
    TakenChecks(s, w, queue, batch);
    TakenVerdict(s, w, queue, batch);
  }

  /** Worker w is inside, asleep. */
  ghost function WithSleeper(s: System, w: nat): System
    requires w < |s.workers|
  {
    s.(shared := s.shared.(nTotal := s.shared.nTotal + 1, nIdle := s.shared.nIdle + 1),
       workers := s.workers[w := Asleep(false)])
  }

  lemma WorkerSleeps(s: System, w: nat)
    requires Inv(s) && w < |s.workers| && s.workers[w].Outside?
    ensures Inv(WithSleeper(s, w))
  {
    hide CountsOk, ChecksOk, VerdictOk;
    SleeperCounts(s, w);
    SleeperVerdict(s, w);
  }

  lemma SleeperCounts(s: System, w: nat)
    requires CountsOk(s) && ChecksOk(s) && w < |s.workers| && s.workers[w].Outside?
    ensures CountsOk(WithSleeper(s, w)) && ChecksOk(WithSleeper(s, w))
  {
    hide Sum, Flights;
    WorkerCounts(s, w, Asleep(false));
    assert Flights(s.workers) + multiset{} == Flights(s.workers);
  }

  lemma SleeperVerdict(s: System, w: nat)
    requires VerdictOk(s) && w < |s.workers|
    ensures VerdictOk(WithSleeper(s, w))
  {
    forall i | 0 <= i < |s.workers| ensures PhaseOk(WithSleeper(s, w), WithSleeper(s, w).workers[i]) {
      assert PhaseOk(s, s.workers[i]);
    }
  }

  /** A worker outside comes in. */
  lemma WorkerEntryKeeps(s: System, w: nat)
    requires Inv(s) && w < |s.workers| && s.workers[w].Outside?
    ensures Counters(s) && Inv(WorkerTo(s, w, Enter(s.shared, false, s.nBatchSize)))
  {
    hide Inv, Settle;
    InvCounters(s);
    var sh := s.shared.(nTotal := s.shared.nTotal + 1);
    var o := Settle(sh, false, s.nBatchSize);
    if sh.queue != [] {
      TookSplits(sh, false, s.nBatchSize);
      WorkerTakes(s, w, o.shared.queue, o.exit.batch);
    } else {
      SettleOnEmpty(sh, false, s.nBatchSize);
      if s.shared.fQuit && s.shared.nTodo == 0 {
        assert WorkerTo(s, w, o) == s;
      } else {
        WorkerSleeps(s, w);
      }
    }
  }

  lemma InvCounters(s: System)
    requires Inv(s)
    ensures Counters(s) && (s.master.Asleep? ==> s.shared.nIdle >= 1)
    ensures forall w :: 0 <= w < |s.workers| && s.workers[w].Asleep? ==> s.shared.nIdle >= 1
  {
    forall w | 0 <= w < |s.workers| && s.workers[w].Asleep?
      ensures s.shared.nIdle >= 1
    {
      SumUpdate(s.workers, IDLE, w, Outside);
    }
  }

  /** A waiting worker, seen as outside again. */
  ghost function WithoutSleeper(s: System, w: nat): System
    requires w < |s.workers|
  {
    s.(shared := s.shared.(nTotal := s.shared.nTotal - 1, nIdle := s.shared.nIdle - 1),
       workers := s.workers[w := Outside])
  }

  lemma WorkerLeavesSleep(s: System, w: nat)
    requires Inv(s) && w < |s.workers| && s.workers[w].Asleep?
    ensures Inv(WithoutSleeper(s, w))
  {
    hide CountsOk, ChecksOk, VerdictOk;
    LeaverCounts(s, w);
    LeaverVerdict(s, w);
  }

  lemma LeaverCounts(s: System, w: nat)
    requires CountsOk(s) && ChecksOk(s) && w < |s.workers| && s.workers[w].Asleep?
    ensures CountsOk(WithoutSleeper(s, w)) && ChecksOk(WithoutSleeper(s, w))
  {
    hide Sum, Flights;
    WorkerCounts(s, w, Outside);
    var flights := Flights(s.workers[w := Outside]);
    assert flights + multiset{} == flights;
  }

  lemma LeaverVerdict(s: System, w: nat)
    requires VerdictOk(s) && w < |s.workers|
    ensures VerdictOk(WithoutSleeper(s, w))
  {
    forall i | 0 <= i < |s.workers| ensures PhaseOk(WithoutSleeper(s, w), WithoutSleeper(s, w).workers[i]) {
      assert PhaseOk(s, s.workers[i]);
    }
  }

  /** A worker that hands in its batch, seen as outside again. */
  ghost function HandedIn(s: System, w: nat): System
    requires w < |s.workers| && s.workers[w].Working?
  {
    var p := s.workers[w];
    var sh := Credit(s.shared, |p.batch|, Result(p));
    s.(shared := sh.(nTotal := sh.nTotal - 1),
       workers := s.workers[w := Outside],
       done := s.done + multiset(p.batch),
       master := if sh.nTodo == 0 then Notify(s.master) else s.master)
  }

  lemma HandedInVerdict(s: System, w: nat)
    requires VerdictOk(s) && ChecksOk(s) && w < |s.workers| && s.workers[w].Working?
    requires forall c :: c in s.workers[w].batch ==> c in s.added
    ensures VerdictOk(HandedIn(s, w))
  {
    var p := s.workers[w];
    var s' := HandedIn(s, w);
    assert PhaseOk(s, p);
    if s.shared.fAllOk && !s'.shared.fAllOk {
      var c :| c in p.batch && !c.passes;
      assert c in s'.added;
    }
    forall i | 0 <= i < |s.workers|
      ensures PhaseOk(s', s'.workers[i])
    {
      assert PhaseOk(s, s.workers[i]);
    }
  }

  lemma HandedInCounts(s: System, w: nat)
    requires CountsOk(s) && MasterOk(s) && w < |s.workers| && s.workers[w].Working?
    ensures CountsOk(HandedIn(s, w)) && MasterOk(HandedIn(s, w))
  {
    WorkerCounts(s, w, Outside);
    hide Sum, Flights, AllPass;
  }

  lemma HandedInChecks(s: System, w: nat)
    requires ChecksOk(s) && w < |s.workers| && s.workers[w].Working?
    ensures ChecksOk(HandedIn(s, w))
    ensures forall c :: c in s.workers[w].batch ==> c in s.added
  {
    var p := s.workers[w];
    WorkerCounts(s, w, Outside);
    FlightToDone(s.added, s.done, multiset(s.shared.queue), multiset(p.batch), Flights(s.workers),
                 Flights(s.workers[w := Outside]), multiset(BatchOf(s.master)));
    hide Sum, Flights, AllPass;
    assert BatchOf(HandedIn(s, w).master) == BatchOf(s.master);
    forall c | c in p.batch
      ensures c in s.added
    {
      assert c in multiset(p.batch);
    }
  }

  lemma WorkerHandsIn(s: System, w: nat)
    requires Inv(s) && w < |s.workers| && s.workers[w].Working?
    ensures Inv(HandedIn(s, w))
  {
    hide HandedIn, CountsOk, ChecksOk, VerdictOk, MasterOk;
    HandedInCounts(s, w);
    HandedInChecks(s, w);
    HandedInVerdict(s, w);
  }

  lemma WorkerStepKeeps(s: System, step: Step)
    requires Inv(s) && Enabled(s, step) && (step.WorkerEnter? || step.WorkerWake? || step.WorkerFinish?)
    ensures Counters(s) && (step.WorkerWake? ==> s.shared.nIdle >= 1) && Inv(Apply(s, step))
  {
    hide Inv, Settle, Result;
    InvCounters(s);
    match step
    case WorkerEnter(w) =>
      WorkerEntryKeeps(s, w);
    case WorkerWake(w) =>
      WorkerLeavesSleep(s, w);
      var s0 := s.(shared := s.shared.(nTotal := s.shared.nTotal - 1, nIdle := s.shared.nIdle - 1),
                   workers := s.workers[w := Outside]);
      WorkerEntryKeeps(s0, w);
      assert s0.workers[w := PhaseAfter(Wake(s.shared, false, s.nBatchSize).exit)]
          == s.workers[w := PhaseAfter(Wake(s.shared, false, s.nBatchSize).exit)];
    case WorkerFinish(w) =>
      WorkerHandsIn(s, w);
      var s0 := HandedIn(s, w);
      WorkerEntryKeeps(s0, w);
      var o := Finish(s.shared, |s.workers[w].batch|, Result(s.workers[w]), false, s.nBatchSize);
      assert Enter(s0.shared, false, s.nBatchSize) == o;
      assert s0.workers[w := PhaseAfter(o.exit)] == s.workers[w := PhaseAfter(o.exit)];
  }

  // ----- the master -----

  lemma {:induction false} NoFlights(ws: seq<Phase>)
    requires Sum(ws, SIZE) == 0
    ensures Flights(ws) == multiset{}
    ensures forall i :: 0 <= i < |ws| ==> BatchOf(ws[i]) == []
  {
    if ws != [] {
      NoFlights(ws[..|ws| - 1]);
      assert SIZE(ws[|ws| - 1]) == 0;
    }
  }

  /** When nothing is outstanding, everything added has been handed in. */
  lemma AllHandedIn(s: System)
    requires Inv(s) && s.shared.nTodo == 0
    ensures s.added == s.done && s.shared.queue == [] && BatchOf(s.master) == []
    ensures forall i :: 0 <= i < |s.workers| ==> !s.workers[i].Working?
    ensures Flights(s.workers) == multiset{}
  {
    assert SIZE(s.master) == 0;
    NoFlights(s.workers);
    hide Sum, Flights;
    assert forall i :: 0 <= i < |s.workers| && s.workers[i].Working? ==> PhaseOk(s, s.workers[i]);
    assert s.done + multiset{} + multiset{} + multiset{} == s.done;
  }

  lemma MasterTakes(s: System, queue: seq<Check>, batch: seq<Check>)
    requires Inv(s) && s.master.Outside? && s.shared.queue != [] && batch != []
    requires |queue| + |batch| == |s.shared.queue| && multiset(queue) + multiset(batch) == multiset(s.shared.queue)
    ensures Inv(s.(shared := s.shared.(nTotal := s.shared.nTotal + 1, queue := queue),
                   master := Working(batch, s.shared.fAllOk)))
  {
    hide Sum, Flights;
    var q, b, f := multiset(queue), multiset(batch), Flights(s.workers);
    assert s.done + (q + b) + f + multiset{} == s.done + q + f + b;
  }

  lemma MasterSleeps(s: System)
    requires Inv(s) && s.master.Outside? && s.shared.queue == [] && s.shared.nTodo != 0
    ensures Inv(s.(shared := s.shared.(nTotal := s.shared.nTotal + 1, nIdle := s.shared.nIdle + 1),
                   master := Asleep(false)))
  {
    hide Sum, Flights;
  }

  lemma MasterReturns(s: System)
    requires Inv(s) && s.master.Outside? && s.shared.nTodo == 0
    ensures Inv(s.(shared := s.shared.(fAllOk := true), added := multiset{}, done := multiset{}))
  {
    AllHandedIn(s);
    hide Sum, Flights;
  }

  /** The master outside comes in; when it returns at once, its answer is the conjunction of all checks added. */
  lemma MasterEntryKeeps(s: System)
    requires Inv(s) && s.master.Outside?
    ensures Counters(s)
    ensures var o := Enter(s.shared, true, s.nBatchSize);
            && Inv(MasterTo(s, o))
            && (o.exit.Returned? <==> s.shared.nTodo == 0)
            && (o.exit.Returned? ==> (o.exit.ret <==> forall c :: c in s.added ==> c.passes))
  {
    hide Inv, Settle;
    InvCounters(s);
    var sh := s.shared.(nTotal := s.shared.nTotal + 1);
    var o := Settle(sh, true, s.nBatchSize);
    if sh.queue == [] {
      SettleOnEmpty(sh, true, s.nBatchSize);
    }
    if sh.queue != [] {
      QueuedIsTodo(s);
      TookSplits(sh, true, s.nBatchSize);
      MasterTakes(s, o.shared.queue, o.exit.batch);
    } else if s.shared.nTodo == 0 {
      VerdictWhenDone(s);
      MasterReturns(s);
    } else {
      MasterSleeps(s);
    }
  }

  lemma QueuedIsTodo(s: System)
    requires Inv(s) && s.shared.queue != []
    ensures s.shared.nTodo > 0
  {
  }

  lemma VerdictWhenDone(s: System)
    requires Inv(s) && s.shared.nTodo == 0
    ensures s.shared.fAllOk <==> forall c :: c in s.added ==> c.passes
  {
    AllHandedIn(s);
  }

  /** The master, asleep or done with a batch, seen as outside again. */
  ghost function MasterOut(s: System): System
  {
    match s.master
    case Outside => s
    case Asleep(_) =>
      s.(shared := s.shared.(nTotal := s.shared.nTotal - 1, nIdle := s.shared.nIdle - 1), master := Outside)
    case Working(batch, fOk) =>
      var sh := Credit(s.shared, |batch|, Result(s.master));
      s.(shared := sh.(nTotal := sh.nTotal - 1), master := Outside, done := s.done + multiset(batch))
  }

  lemma MasterOutKeeps(s: System)
    requires Inv(s)
    ensures Inv(MasterOut(s)) && MasterOut(s).master.Outside? && MasterOut(s).added == s.added
  {
    hide Sum, Flights, VerdictOk, ChecksOk;
    MasterOutChecks(s);
    MasterOutVerdict(s);
  }

  lemma MasterOutChecks(s: System)
    requires ChecksOk(s)
    ensures ChecksOk(MasterOut(s))
  {
    hide Sum, Flights;
    if s.master.Working? {
      var q, f, b := multiset(s.shared.queue), Flights(s.workers), multiset(s.master.batch);
      assert s.done + q + f + b == (s.done + b) + q + f + multiset{};
    }
  }

  lemma MasterOutVerdict(s: System)
    requires ChecksOk(s) && VerdictOk(s)
    ensures VerdictOk(MasterOut(s))
  {
    hide Flights;
    if s.master.Working? {
      var b, s' := s.master.batch, MasterOut(s);
      if s.shared.fAllOk && !s'.shared.fAllOk {
        var c :| c in b && !c.passes;
        assert c in multiset(b) && c in s'.added;
      }
      forall i | 0 <= i < |s.workers| ensures PhaseOk(s', s'.workers[i]) {
        assert PhaseOk(s, s.workers[i]);
      }
    }
  }

  /** Every step of the master inside Loop is: leave, and enter again. */
  lemma MasterStepKeeps(s: System, step: Step)
    requires Inv(s) && Enabled(s, step) && (step.MasterEnter? || step.MasterWake? || step.MasterFinish?)
    ensures Counters(s) && (step.MasterWake? ==> s.shared.nIdle >= 1) && Inv(Apply(s, step))
    ensures var o := MasterOutcome(s, step);
            o.exit.Returned? ==> (o.exit.ret <==> forall c :: c in s.added ==> c.passes)
  {
    hide Inv, Settle, AllPass;
    InvCounters(s);
    MasterOutKeeps(s);
    MasterEntryKeeps(MasterOut(s));
    assert MasterOutcome(s, step) == Enter(MasterOut(s).shared, true, s.nBatchSize);
  }

  // ----- all runs -----

  lemma NotifyKeepsCounts(ws: seq<Phase>, ws': seq<Phase>)
    requires |ws| == |ws'| && forall i :: 0 <= i < |ws| ==> ws'[i] == ws[i] || ws'[i] == Notify(ws[i])
    ensures Sum(ws', SIZE) == Sum(ws, SIZE) && Sum(ws', IDLE) == Sum(ws, IDLE) && Sum(ws', INSIDE) == Sum(ws, INSIDE)
    ensures Flights(ws') == Flights(ws)
  {
    SumSame(ws', ws, SIZE);
    SumSame(ws', ws, IDLE);
    SumSame(ws', ws, INSIDE);
    FlightsSame(ws', ws);
  }

  lemma NotifyForNotifies(ws: seq<Phase>, n: nat, notified: nat)
    ensures var ws' := NotifyFor(ws, n, notified);
            |ws'| == |ws| && forall i :: 0 <= i < |ws| ==> ws'[i] == ws[i] || ws'[i] == Notify(ws[i])
  {
  }

  lemma AddChecksOk(s: System, checks: seq<Check>, ws: seq<Phase>)
    requires ChecksOk(s) && s.master.Outside? && Flights(ws) == Flights(s.workers)
    ensures ChecksOk(s.(shared := AddChecks(s.shared, checks), workers := ws, added := s.added + multiset(checks)))
  {
    hide Flights;
    var q, c, f := multiset(s.shared.queue), multiset(checks), Flights(s.workers);
    assert multiset(s.shared.queue + checks) == q + c;
    assert s.done + q + f + multiset{} + c == s.done + (q + c) + f + multiset{};
  }

  lemma AddVerdictOk(s: System, checks: seq<Check>, ws: seq<Phase>)
    requires VerdictOk(s) && |ws| == |s.workers|
    requires forall i :: 0 <= i < |ws| ==> ws[i] == s.workers[i] || ws[i] == Notify(s.workers[i])
    ensures VerdictOk(s.(shared := AddChecks(s.shared, checks), workers := ws, added := s.added + multiset(checks)))
  {
    var s' := s.(shared := AddChecks(s.shared, checks), workers := ws, added := s.added + multiset(checks));
    forall i | 0 <= i < |ws|
      ensures PhaseOk(s', ws[i])
    {
      assert PhaseOk(s, s.workers[i]);
    }
    if !s.shared.fAllOk {
      var c :| c in s.added && !c.passes;
      assert c in s'.added;
    }
  }

  lemma AddKeeps(s: System, checks: seq<Check>, notified: nat)
    requires Inv(s) && Enabled(s, MasterAdd(checks, notified))
    ensures Counters(s) && Inv(Apply(s, MasterAdd(checks, notified)))
  {
    hide Sum, Flights, NotifyFor, ChecksOk, VerdictOk, Apply, Chosen;
    InvCounters(s);
    var ws := NotifyFor(s.workers, |checks|, notified);
    NotifyForNotifies(s.workers, |checks|, notified);
    NotifyKeepsCounts(s.workers, ws);
    AddChecksOk(s, checks, ws);
    AddVerdictOk(s, checks, ws);
    AddIs(s, checks, notified);
  }

  lemma AddIs(s: System, checks: seq<Check>, notified: nat)
    requires Counters(s) && Enabled(s, MasterAdd(checks, notified))
    ensures Apply(s, MasterAdd(checks, notified)) ==
      s.(shared := AddChecks(s.shared, checks), workers := NotifyFor(s.workers, |checks|, notified),
         added := s.added + multiset(checks))
  {
  }

  /** The master can always add checks, whoever gets the notification. */
  lemma AddIsPossible(s: System, checks: seq<Check>) returns (notified: nat)
    requires s.master.Outside?
    ensures Enabled(s, MasterAdd(checks, notified))
  {
    notified := 0;
    if i :| 0 <= i < |s.workers| && s.workers[i] == Asleep(false) {
      notified := i;
    }
  }

  /**
   One new check wakes exactly one of the workers that wait, if any does; more than one wake all of them; none wakes
   nobody.  Threads that do not wait are left alone.
   */
  lemma AddWakes(s: System, checks: seq<Check>, notified: nat)
    requires Counters(s) && Enabled(s, MasterAdd(checks, notified))
    ensures var ws, ws' := s.workers, Apply(s, MasterAdd(checks, notified)).workers;
            && |ws'| == |ws|
            && (forall i :: 0 <= i < |ws| && !ws[i].Asleep? ==> ws'[i] == ws[i])
            && (|checks| == 0 ==> ws' == ws)
            && (|checks| == 1 && Asleep(false) in ws ==>
                 exists w :: 0 <= w < |ws| && ws[w] == Asleep(false) && ws' == ws[w := Asleep(true)])
            && (|checks| == 1 && Asleep(false) !in ws ==> ws' == ws)
            && (|checks| > 1 ==> forall i :: 0 <= i < |ws| && ws[i].Asleep? ==> ws'[i] == Asleep(true))
  {
  }

  lemma QuitKeeps(s: System)
    requires Inv(s)
    ensures Counters(s) && Inv(Apply(s, QuitStep))
  {
    hide Sum, Flights, VerdictOk;
    InvCounters(s);
    NotifyKeepsCounts(s.workers, Apply(s, QuitStep).workers);
    QuitVerdict(s);
  }

  lemma QuitVerdict(s: System)
    requires VerdictOk(s) && Counters(s)
    ensures VerdictOk(Apply(s, QuitStep))
  {
    var s' := Apply(s, QuitStep);
    forall i | 0 <= i < |s'.workers| ensures PhaseOk(s', s'.workers[i]) {
      assert PhaseOk(s, s.workers[i]);
    }
  }

  lemma StepKeeps(s: System, step: Step)
    requires Inv(s) && Enabled(s, step)
    ensures Counters(s) && (step.WorkerWake? || step.MasterWake? ==> s.shared.nIdle >= 1) && Inv(Apply(s, step))
  {
    hide Inv, Apply;
    match step
    case WorkerEnter(_) => WorkerStepKeeps(s, step);
    case WorkerWake(_) => WorkerStepKeeps(s, step);
    case WorkerFinish(_) => WorkerStepKeeps(s, step);
    case MasterAdd(checks, notified) => AddKeeps(s, checks, notified);
    case MasterEnter => MasterStepKeeps(s, step);
    case MasterWake => MasterStepKeeps(s, step);
    case MasterFinish => MasterStepKeeps(s, step);
    case QuitStep => QuitKeeps(s);
  }

  /** The states reached from n idle workers by the given steps, in this order. */
  ghost predicate Reaches(n: nat, nBatchSize: nat, steps: seq<Step>, s: System)
  {
    if steps == [] then s == Start(n, nBatchSize)
    else
      var last := steps[|steps| - 1];
      exists prev :: Reaches(n, nBatchSize, steps[..|steps| - 1], prev) && Follows(prev, last, s)
  }

  ghost predicate Follows(prev: System, step: Step, s: System)
  {
    && Enabled(prev, step) && Counters(prev)
    && (step.WorkerWake? || step.MasterWake? ==> prev.shared.nIdle >= 1)
    && s == Apply(prev, step)
  }

  lemma {:induction false} ReachedOk(n: nat, nBatchSize: nat, steps: seq<Step>, s: System)
    requires Reaches(n, nBatchSize, steps, s)
    ensures Inv(s)
    decreases |steps|
  {
    hide Inv, Apply;
    if steps == [] {
      StartOk(n, nBatchSize);
    } else {
      var prefix, last := steps[..|steps| - 1], steps[|steps| - 1];
      var prev :| Reaches(n, nBatchSize, prefix, prev) && Follows(prev, last, s);
      ReachedOk(n, nBatchSize, prefix, prev);
      StepKeeps(prev, last);
    }
  }

  /** In every interleaving, whenever Wait returns it returns whether all checks added since the last return pass. */
  lemma WaitReturnsConjunction(n: nat, nBatchSize: nat, steps: seq<Step>, s: System, step: Step)
    requires Reaches(n, nBatchSize, steps, s) && Enabled(s, step)
    requires step.MasterEnter? || step.MasterWake? || step.MasterFinish?
    ensures Counters(s) && (step.MasterWake? ==> s.shared.nIdle >= 1)
    ensures var o := MasterOutcome(s, step);
            o.exit.Returned? ==> (o.exit.ret <==> forall c :: c in s.added ==> c.passes)
  {
    hide Inv, MasterOutcome;
    ReachedOk(n, nBatchSize, steps, s);
    MasterStepKeeps(s, step);
  }

  /** In every interleaving the counters are exact. */
  lemma CountersAreExact(n: nat, nBatchSize: nat, steps: seq<Step>, s: System)
    requires Reaches(n, nBatchSize, steps, s)
    ensures s.shared.nTodo == |s.shared.queue| + Sum(s.workers, SIZE) + SIZE(s.master)
    ensures s.shared.nTodo == |s.added| - |s.done|
  {
    ReachedOk(n, nBatchSize, steps, s);
    FlightsSize(s.workers);
  }

  lemma {:induction false} FlightsSize(ws: seq<Phase>)
    ensures |Flights(ws)| == Sum(ws, SIZE)
  {
    if ws != [] {
      FlightsSize(ws[..|ws| - 1]);
    }
  }

  /**
   No wake-up is lost: while the master is inside Wait, either it works itself, or it sleeps un-notified and some worker
   works, or it has been notified and returns as soon as it wakes.
   */
  lemma MasterIsNeverStuck(n: nat, nBatchSize: nat, steps: seq<Step>, s: System)
    requires Reaches(n, nBatchSize, steps, s)
    ensures s.master == Asleep(false) ==> exists w :: 0 <= w < |s.workers| && s.workers[w].Working?
    ensures s.master == Asleep(true) ==>
              Counters(s) && s.shared.nIdle >= 1 && Wake(s.shared, true, s.nBatchSize).exit.Returned?
  {
    ReachedOk(n, nBatchSize, steps, s);
    InvCounters(s);
    if s.master == Asleep(false) {
      var w := SumPositive(s.workers, SIZE);
      assert s.workers[w].Working?;
    }
  }

  /** While the master is inside, no step adds work and every hand-in takes some away, so Wait comes to an end. */
  lemma HandInsMakeProgress(n: nat, nBatchSize: nat, steps: seq<Step>, s: System, step: Step)
    requires Reaches(n, nBatchSize, steps, s) && Enabled(s, step) && !s.master.Outside?
    ensures Counters(s) && (step.WorkerWake? || step.MasterWake? ==> s.shared.nIdle >= 1)
    ensures Apply(s, step).shared.nTodo <= s.shared.nTodo
    ensures step.WorkerFinish? || step.MasterFinish? ==> Apply(s, step).shared.nTodo < s.shared.nTodo
  {
    hide Reaches, Inv, Settle;
    ReachedOk(n, nBatchSize, steps, s);
    InvCounters(s);
    BatchesNotEmpty(s);
    match step
    case WorkerEnter(w) => SettleKeepsTodo(s.shared.(nTotal := s.shared.nTotal + 1), false, s.nBatchSize);
    case WorkerWake(w) => SettleKeepsTodo(s.shared.(nIdle := s.shared.nIdle - 1), false, s.nBatchSize);
    case WorkerFinish(w) =>
      SettleKeepsTodo(Credit(s.shared, |s.workers[w].batch|, Result(s.workers[w])), false, s.nBatchSize);
    case MasterWake => SettleKeepsTodo(s.shared.(nIdle := s.shared.nIdle - 1), true, s.nBatchSize);
    case MasterFinish =>
      SettleKeepsTodo(Credit(s.shared, |s.master.batch|, Result(s.master)), true, s.nBatchSize);
    case QuitStep =>
  }

  lemma BatchesNotEmpty(s: System)
    requires Inv(s)
    ensures s.master.Working? ==> |s.master.batch| > 0
    ensures forall w :: 0 <= w < |s.workers| && s.workers[w].Working? ==> |s.workers[w].batch| > 0
  {
    assert forall w :: 0 <= w < |s.workers| ==> PhaseOk(s, s.workers[w]);
  }

  lemma SettleKeepsTodo(sh: Shared, fMaster: bool, nBatchSize: nat)
    requires sh.nTotal >= 0 && sh.nIdle >= 0
    ensures Settle(sh, fMaster, nBatchSize).shared.nTodo == sh.nTodo
  {
  }

  /**
   The assertions in the constructor of CCheckQueueControl hold in every interleaving: with no master inside and nothing
   added since the last Wait, no check is outstanding, every thread inside is idle, and the verdict is reset.
   */
  lemma ControlAssertionsHold(n: nat, nBatchSize: nat, steps: seq<Step>, s: System)
    requires Reaches(n, nBatchSize, steps, s) && s.master.Outside? && s.added == multiset{}
    ensures s.shared.nTotal == s.shared.nIdle && s.shared.nTodo == 0 && s.shared.fAllOk
  {
    ReachedOk(n, nBatchSize, steps, s);
    CountersAreExact(n, nBatchSize, steps, s);
    IdleWhenDone(s);
  }

  lemma IdleWhenDone(s: System)
    requires Inv(s) && s.shared.nTodo == 0 && s.master.Outside?
    ensures s.shared.nTotal == s.shared.nIdle
  {
    AllHandedIn(s);
    InsideIsIdle(s.workers);
  }

  lemma {:induction false} InsideIsIdle(ws: seq<Phase>)
    requires forall i :: 0 <= i < |ws| ==> !ws[i].Working?
    ensures Sum(ws, INSIDE) == Sum(ws, IDLE)
  {
    if ws != [] {
      InsideIsIdle(ws[..|ws| - 1]);
    }
  }
}
