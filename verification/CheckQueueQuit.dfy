/**
 Shutting the check queue down (src/checkqueue.h:155-168): when Quit comes to an end, and exactly when it may wait for
 ever.
 */
module CheckQueueQuit {
  import opened CheckQueue
  import opened CheckQueueRuns

  // ----- nothing outstanding -----

  /** The queue is shut down, nothing is outstanding, and every worker still inside has been told. */
  ghost predicate ShutDown(s: System)
  {
    && s.shared.fQuit && s.shared.nTodo == 0 && s.master.Outside?
    && forall i :: 0 <= i < |s.workers| ==> s.workers[i].Outside? || s.workers[i] == Asleep(true)
  }

  /**
   Quit called with nothing outstanding comes to an end: from then on every worker inside has been notified, each one
   that wakes leaves for good, and the count of threads drops with it.
   */
  lemma QuitWhenIdleEnds(n: nat, nBatchSize: nat, steps: seq<Step>, s: System)
    requires Reaches(n, nBatchSize, steps, s) && s.master.Outside? && s.shared.nTodo == 0
    ensures Counters(s) && ShutDown(Apply(s, QuitStep))
  {
    hide Inv, Reaches, ShutDown, Apply;
    ReachedOk(n, nBatchSize, steps, s);
    InvCounters(s);
    AllHandedIn(s);
    QuitFromIdle(s);
  }

  lemma QuitFromIdle(s: System)
    requires Counters(s) && s.master.Outside? && s.shared.nTodo == 0
    requires forall i :: 0 <= i < |s.workers| ==> !s.workers[i].Working?
    ensures ShutDown(Apply(s, QuitStep))
  {
  }

  lemma ShutDownDrains(s: System, step: Step)
    requires Inv(s) && ShutDown(s) && Enabled(s, step)
    requires step.WorkerEnter? || step.WorkerWake? || step.WorkerFinish? || step.QuitStep?
    ensures Counters(s) && (step.WorkerWake? ==> s.shared.nIdle >= 1)
    ensures ShutDown(Apply(s, step))
    ensures step.WorkerWake? ==> Apply(s, step).shared.nTotal == s.shared.nTotal - 1
  {
    InvCounters(s);
    AllHandedIn(s);
    hide Inv;
  }

  /** As long as threads are inside, one of them has been notified and can leave. */
  lemma ShutDownIsNotStuck(s: System)
    requires Inv(s) && ShutDown(s) && s.shared.nTotal > 0
    ensures exists w :: 0 <= w < |s.workers| && s.workers[w] == Asleep(true)
  {
    var w := SumPositive(s.workers, INSIDE);
    assert s.workers[w] == Asleep(true);
  }

  /** A state in which Quit waits for a worker that nobody will ever notify. */
  ghost predicate QuitHangs(s: System)
  {
    && s.shared.fQuit && s.shared.nTotal > 0 && s.shared.nTodo == 0 && s.master.Outside?
    && forall i :: 0 <= i < |s.workers| ==> s.workers[i].Outside? || s.workers[i] == Asleep(false)
  }

  const CHECK_A := Check(0, true)
  const CHECK_B := Check(1, true)

  /** A run of two workers in which Quit comes while both hold a check. */
  const SCENARIO: seq<Step> :=
    [WorkerEnter(0), WorkerEnter(1), MasterAdd([CHECK_A, CHECK_B], 0), WorkerWake(0), WorkerWake(1),
     QuitStep, WorkerFinish(0), WorkerFinish(1)]

  /** The state after the first i steps of the scenario. */
  function Scene(i: nat): System
    requires i <= 8
  {
    var a, b := CHECK_A, CHECK_B;
    var both := multiset{a, b};
    var none: multiset<Check> := multiset{};
    match i
    case 0 => System(Shared([], 0, 0, true, 0, false), [Outside, Outside], Outside, 128, none, none)
    case 1 => System(Shared([], 1, 1, true, 0, false), [Asleep(false), Outside], Outside, 128, none, none)
    case 2 => System(Shared([], 2, 2, true, 0, false), [Asleep(false), Asleep(false)], Outside, 128, none, none)
    case 3 => System(Shared([a, b], 2, 2, true, 2, false), [Asleep(true), Asleep(true)], Outside, 128, both, none)
    case 4 => System(Shared([a], 1, 2, true, 2, false), [Working([b], true), Asleep(true)], Outside, 128, both, none)
    case 5 => System(Shared([], 0, 2, true, 2, false), [Working([b], true), Working([a], true)], Outside, 128, both,
                     none)
    case 6 => System(Shared([], 0, 2, true, 2, true), [Working([b], true), Working([a], true)], Outside, 128, both,
                     none)
    case 7 => System(Shared([], 1, 2, true, 1, true), [Asleep(false), Working([a], true)], Outside, 128, both,
                     multiset{b})
    case _ => System(Shared([], 1, 1, true, 0, true), [Asleep(false), Outside], Outside, 128, both, multiset{b, a})
  }

  lemma SceneEntries()
    ensures Follows(Scene(0), SCENARIO[0], Scene(1)) && Follows(Scene(1), SCENARIO[1], Scene(2))
  {
  }

  lemma SceneAdd()
    ensures Follows(Scene(2), SCENARIO[2], Scene(3))
  {
    assert NotifyAll(Scene(2).workers) == Scene(3).workers;
    assert multiset([CHECK_A, CHECK_B]) == multiset{CHECK_A, CHECK_B};
  }

  lemma SceneTakes()
    ensures Follows(Scene(3), SCENARIO[3], Scene(4)) && Follows(Scene(4), SCENARIO[4], Scene(5))
  {
    hide Settle;
    TakesOne(Scene(3).shared.(nIdle := 1), CHECK_A, CHECK_B);
    TakesLast(Scene(4).shared.(nIdle := 0), CHECK_A);
    assert Scene(3).workers[0 := Working([CHECK_B], true)] == Scene(4).workers;
    assert Scene(4).workers[1 := Working([CHECK_A], true)] == Scene(5).workers;
  }

  lemma TakesOne(sh: Shared, a: Check, b: Check)
    requires sh.queue == [a, b] && sh.nTotal >= 2 && sh.nIdle >= 0
    ensures Settle(sh, false, 128) == Outcome(sh.(queue := [a]), Took([b], sh.fAllOk))
  {
    assert BatchSize(sh, 128) == 1;
    assert Backwards([b]) == [b];
  }

  lemma TakesLast(sh: Shared, a: Check)
    requires sh.queue == [a] && sh.nTotal >= 1 && sh.nIdle >= 0
    ensures Settle(sh, false, 128) == Outcome(sh.(queue := []), Took([a], sh.fAllOk))
  {
    assert BatchSize(sh, 128) == 1;
    assert Backwards([a]) == [a];
  }

  lemma SceneQuit()
    ensures Follows(Scene(5), SCENARIO[5], Scene(6))
  {
    assert NotifyAll(Scene(5).workers) == Scene(6).workers;
  }

  lemma SceneFirstDone()
    ensures Follows(Scene(6), SCENARIO[6], Scene(7))
  {
    hide Finish;
    FirstGoesToSleep();
    assert multiset([CHECK_B]) == multiset{CHECK_B};
    assert Scene(6).workers[0 := Asleep(false)] == Scene(7).workers;
    assert Result(Scene(6).workers[0]);
  }

  lemma FirstGoesToSleep()
    ensures Finish(Scene(6).shared, 1, true, false, 128) == Outcome(Scene(7).shared, Slept)
  {
    hide Settle;
    SettleOnEmpty(Credit(Scene(6).shared, 1, true), false, 128);
  }

  lemma SceneLastDone()
    ensures Follows(Scene(7), SCENARIO[7], Scene(8))
  {
    assert multiset([CHECK_A]) == multiset{CHECK_A};
    assert Scene(7).workers[1 := Outside] == Scene(8).workers;
  }

  lemma {:induction false} SceneReached(i: nat)
    requires i <= 8
    ensures Reaches(2, 128, SCENARIO[..i], Scene(i))
  {
    hide Follows, Scene;
    if i == 0 {
      SceneStart();
    } else {
      SceneReached(i - 1);
      assert SCENARIO[..i][..i - 1] == SCENARIO[..i - 1];
      assert Follows(Scene(i - 1), SCENARIO[i - 1], Scene(i)) by {
        SceneEntries(); SceneAdd(); SceneTakes(); SceneQuit(); SceneFirstDone(); SceneLastDone();
      }
    }
  }

  lemma SceneStart()
    ensures Scene(0) == Start(2, 128)
  {
    assert Start(2, 128).workers == [Outside, Outside];
  }

  /**
   Quit called while checks are outstanding can wait for ever: two workers hold a check each, the first one to finish
   goes to sleep because the other is not done, and the second one leaves without notifying it.
   */
  lemma QuitWithWorkMayHang()
    ensures exists steps, s :: Reaches(2, 128, steps, s) && QuitHangs(s)
  {
    hide Reaches;
    SceneReached(8);
    assert QuitHangs(Scene(8));
  }

  // ----- a hang is for good -----

  /**
   Once Quit hangs it keeps hanging: every step but a wake-up that nobody asked for, new checks, or another Quit leaves
   the state one in which it hangs.
   */
  lemma HangIsKept(s: System, step: Step)
    requires Inv(s) && QuitHangs(s) && Enabled(s, step)
    requires !step.WorkerWake? && !step.MasterAdd? && !step.QuitStep?
    ensures Counters(s) && (step.MasterWake? ==> s.shared.nIdle >= 1) && QuitHangs(Apply(s, step))
  {
    InvCounters(s);
    AllHandedIn(s);
    hide Inv;
  }

  // ----- runs from a given state -----

  ghost predicate Runs(s: System, steps: seq<Step>, t: System)
    decreases |steps|
  {
    if steps == [] then s == t
    else exists mid :: Follows(s, steps[0], mid) && Runs(mid, steps[1..], t)
  }

  predicate NoAdd(steps: seq<Step>) { forall i :: 0 <= i < |steps| ==> !steps[i].MasterAdd? }

  /** Some continuation without new checks ends in a hang. */
  ghost predicate MayHang(s: System)
  {
    exists steps, t :: Runs(s, steps, t) && NoAdd(steps) && QuitHangs(t)
  }

  lemma FollowsKeeps(s: System, step: Step, t: System)
    requires Inv(s) && Follows(s, step, t)
    ensures Inv(t) && |t.workers| == |s.workers|
  {
    hide Inv;
    StepKeeps(s, step);
    hide Settle, NotifyAll, NotifyFor;
  }

  /** One more step in front of a continuation. */
  lemma MayHangBefore(s: System, step: Step)
    requires Inv(s) && Enabled(s, step) && !step.MasterAdd?
    requires Counters(s) && (step.WorkerWake? || step.MasterWake? ==> s.shared.nIdle >= 1)
    requires MayHang(Apply(s, step))
    ensures MayHang(s)
  {
    hide Inv, Apply, QuitHangs;
    var next := Apply(s, step);
    var steps, t :| Runs(next, steps, t) && NoAdd(steps) && QuitHangs(t);
    var more := [step] + steps;
    assert more[1..] == steps && Follows(s, step, next);
    assert Runs(s, more, t) && NoAdd(more);
  }

  // ----- when Quit cannot hang -----

  /** The only worker holds everything that is outstanding, or has just handed it in. */
  ghost predicate Lone(s: System)
  {
    && s.shared.fQuit && s.shared.queue == [] && |s.workers| == 1
    && if s.workers[0].Working? then s.shared.nTodo > 0 && (s.master.Outside? || s.master == Asleep(false))
       else s.workers[0].Outside? && s.shared.nTodo == 0 && (s.master.Outside? || s.master == Asleep(true))
  }

  lemma LoneIsKept(s: System, step: Step, t: System)
    requires Inv(s) && Lone(s) && Follows(s, step, t) && !step.MasterAdd?
    ensures Lone(t)
  {
    LoneCounts(s);
    hide Inv, Result;
  }

  lemma LoneCounts(s: System)
    requires Inv(s) && Lone(s)
    ensures s.workers[0].Working? ==> s.shared.nTodo == |s.workers[0].batch|
  {
    assert Sum(s.workers, SIZE) == SIZE(s.workers[0]) by {
      assert s.workers[..0] == [] && Sum(s.workers[..0], SIZE) == 0;
    }
  }

  lemma ShutDownIsKept(s: System, step: Step, t: System)
    requires Inv(s) && ShutDown(s) && Follows(s, step, t) && !step.MasterAdd?
    ensures ShutDown(t)
  {
    AllHandedIn(s);
    hide Inv, Result;
  }

  /** What keeps Quit from hanging. */
  ghost predicate Safe(s: System) { ShutDown(s) || Lone(s) || |s.workers| == 0 }

  lemma SafeDoesNotHang(s: System)
    requires Inv(s) && Safe(s)
    ensures !QuitHangs(s)
  {
    if QuitHangs(s) {
      var w := HangHasSleeper(s);
    }
  }

  lemma HangHasSleeper(s: System) returns (w: nat)
    requires Inv(s) && QuitHangs(s)
    ensures w < |s.workers| && s.workers[w] == Asleep(false)
  {
    w := SumPositive(s.workers, INSIDE);
  }

  lemma {:induction false} SafeRuns(s: System, steps: seq<Step>, t: System)
    requires Inv(s) && Safe(s) && Runs(s, steps, t) && NoAdd(steps)
    ensures !QuitHangs(t)
    decreases |steps|
  {
    hide Inv, ShutDown, Lone, Follows, QuitHangs;
    if steps == [] {
      SafeDoesNotHang(s);
    } else {
      var mid :| Follows(s, steps[0], mid) && Runs(mid, steps[1..], t);
      FollowsKeeps(s, steps[0], mid);
      if ShutDown(s) {
        ShutDownIsKept(s, steps[0], mid);
      } else if Lone(s) {
        LoneIsKept(s, steps[0], mid);
      }
      SafeRuns(mid, steps[1..], t);
    }
  }

  // ----- when Quit may hang -----

  /** Thread h, a worker or, one past them, the master, holds a batch and nothing is queued. */
  ghost predicate Holds(s: System, h: nat)
  {
    && s.shared.fQuit && s.shared.queue == [] && h <= |s.workers|
    && if h < |s.workers| then s.workers[h].Working? && s.master.Outside? else s.master.Working?
  }

  /** The first i workers, but for the holder, sleep and have not been notified. */
  ghost predicate Settled(s: System, h: nat, i: nat)
    requires i <= |s.workers|
  {
    forall j :: 0 <= j < i && j != h ==> s.workers[j] == Asleep(false)
  }

  /** What the holder has is outstanding besides what another worker has. */
  lemma HolderOutstanding(s: System, h: nat, i: nat)
    requires Inv(s) && Holds(s, h) && i < |s.workers| && i != h
    ensures s.shared.nTodo > |BatchOf(s.workers[i])|
  {
    SumUpdate(s.workers, SIZE, i, Outside);
    if h < |s.workers| {
      SumUpdate(s.workers[i := Outside], SIZE, h, Outside);
      assert PhaseOk(s, s.workers[h]);
    }
  }

  /** What the holder has is all that is outstanding once the others sleep. */
  lemma HolderHasAll(s: System, h: nat)
    requires Inv(s) && Holds(s, h) && Settled(s, h, |s.workers|)
    ensures s.shared.nTodo == |BatchOf(if h < |s.workers| then s.workers[h] else s.master)|
  {
    var ws := if h < |s.workers| then s.workers[h := Outside] else s.workers;
    if h < |s.workers| {
      SumUpdate(s.workers, SIZE, h, Outside);
    }
    NothingHeld(ws);
  }

  lemma {:induction false} NothingHeld(ws: seq<Phase>)
    requires forall j :: 0 <= j < |ws| ==> !ws[j].Working?
    ensures Sum(ws, SIZE) == 0
  {
    if ws != [] {
      NothingHeld(ws[..|ws| - 1]);
    }
  }

  /** The step that sends worker i to sleep. */
  function QuietStep(p: Phase, i: nat): Step
  {
    match p
    case Outside => WorkerEnter(i)
    case Asleep(_) => WorkerWake(i)
    case Working(_, _) => WorkerFinish(i)
  }

  lemma QuietOne(s: System, h: nat, i: nat)
    requires Inv(s) && Holds(s, h) && i < |s.workers| && i != h
    ensures Enabled(s, QuietStep(s.workers[i], i)) && Counters(s) && (s.workers[i].Asleep? ==> s.shared.nIdle >= 1)
    ensures var t := Apply(s, QuietStep(s.workers[i], i)); Holds(t, h) && t.workers == s.workers[i := Asleep(false)]
  {
    InvCounters(s);
    HolderOutstanding(s, h, i);
    hide Inv, Result, Settle;
    match s.workers[i]
    case Outside => SettleOnEmpty(s.shared.(nTotal := s.shared.nTotal + 1), false, s.nBatchSize);
    case Asleep(_) => SettleOnEmpty(s.shared.(nIdle := s.shared.nIdle - 1), false, s.nBatchSize);
    case Working(batch, _) => SettleOnEmpty(Credit(s.shared, |batch|, Result(s.workers[i])), false, s.nBatchSize);
  }

  function LastStep(s: System, h: nat): Step { if h < |s.workers| then WorkerFinish(h) else MasterFinish }

  /** The holder hands in last, and nobody notifies the sleepers. */
  lemma LastHandsIn(s: System, h: nat)
    requires Inv(s) && Holds(s, h) && Settled(s, h, |s.workers|) && |s.workers| >= if h < |s.workers| then 2 else 1
    ensures MayHang(s)
  {
    hide Inv, Apply, QuitHangs, Settled;
    InvCounters(s);
    LastHangs(s, h);
    var step := LastStep(s, h);
    var t := Apply(s, step);
    assert Runs(t, [], t) && Follows(s, step, t) && [step][1..] == [];
    assert Runs(s, [step], t);
  }

  lemma LastHangs(s: System, h: nat)
    requires Inv(s) && Holds(s, h) && Settled(s, h, |s.workers|) && |s.workers| >= if h < |s.workers| then 2 else 1
    ensures Enabled(s, LastStep(s, h)) && Counters(s) && QuitHangs(Apply(s, LastStep(s, h)))
  {
    hide Inv, Settle, Result, Sum;
    InvCounters(s);
    HolderHasAll(s, h);
    var sh := if h < |s.workers| then Credit(s.shared, |s.workers[h].batch|, Result(s.workers[h]))
              else Credit(s.shared, |s.master.batch|, Result(s.master));
    SettleOnEmpty(sh, h == |s.workers|, s.nBatchSize);
    StepKeeps(s, LastStep(s, h));
    var t := Apply(s, LastStep(s, h));
    var j := if h == 0 then 1 else 0;
    assert t.workers[j] == Asleep(false);
    SomeoneInside(t, j);
  }

  lemma SomeoneInside(s: System, w: nat)
    requires Inv(s) && w < |s.workers| && !s.workers[w].Outside?
    ensures s.shared.nTotal > 0
  {
    SumUpdate(s.workers, INSIDE, w, Outside);
  }

  lemma {:induction false} Quiet(s: System, h: nat, i: nat)
    requires Inv(s) && Holds(s, h) && i <= |s.workers| && Settled(s, h, i)
    requires |s.workers| >= if h < |s.workers| then 2 else 1
    ensures MayHang(s)
    decreases |s.workers| - i
  {
    hide Inv, Apply, MayHang, Holds;
    if i == |s.workers| {
      LastHandsIn(s, h);
    } else if i == h || s.workers[i] == Asleep(false) {
      Quiet(s, h, i + 1);
    } else {
      QuietOne(s, h, i);
      var step := QuietStep(s.workers[i], i);
      StepKeeps(s, step);
      Quiet(Apply(s, step), h, i + 1);
      MayHangBefore(s, step);
    }
  }

  /** The master works until the queue is empty. */
  lemma {:induction false} Drain(s: System)
    requires Inv(s) && s.shared.fQuit && s.master.Working? && |s.workers| >= 1
    ensures MayHang(s)
    decreases |s.shared.queue|
  {
    hide Inv, MayHang, Settle, Result;
    if s.shared.queue == [] {
      Quiet(s, |s.workers|, 0);
    } else {
      InvCounters(s);
      TookSplits(Credit(s.shared, |s.master.batch|, Result(s.master)), true, s.nBatchSize);
      StepKeeps(s, MasterFinish);
      Drain(Apply(s, MasterFinish));
      MayHangBefore(s, MasterFinish);
    }
  }

  /** What a caller can read off the queue before Quit: work left that the threads can hand in out of order. */
  predicate HangPossible(s: System)
  {
    s.shared.nTodo > 0 && (|s.workers| >= 2 || (|s.workers| == 1 && s.shared.queue != []))
  }

  /**
   Quit, called from outside in any reachable state, may wait for ever if and only if something is outstanding and there
   are two workers, or one and something still queued.
   */
  lemma QuitMayHangIff(n: nat, nBatchSize: nat, steps: seq<Step>, s: System)
    requires Reaches(n, nBatchSize, steps, s) && s.master.Outside?
    ensures Counters(s) && (MayHang(Apply(s, QuitStep)) <==> HangPossible(s))
  {
    hide Inv, MayHang, Apply, Reaches;
    ReachedOk(n, nBatchSize, steps, s);
    StepKeeps(s, QuitStep);
    if HangPossible(s) {
      QuitCanHang(s);
    } else {
      QuitIsSafe(s);
    }
  }

  lemma QuitCanHang(s: System)
    requires Inv(s) && s.master.Outside? && HangPossible(s)
    ensures Counters(s) && MayHang(Apply(s, QuitStep))
  {
    hide Inv, MayHang, Apply;
    StepKeeps(s, QuitStep);
    AfterQuit(s);
    var t := Apply(s, QuitStep);
    if s.shared.queue != [] {
      MasterComesIn(t);
    } else {
      var h := SomeoneHolds(s);
      Quiet(t, h, 0);
    }
  }

  lemma AfterQuit(s: System)
    requires Counters(s)
    ensures var t := Apply(s, QuitStep);
            && t == s.(shared := s.shared.(fQuit := true), workers := t.workers) && |t.workers| == |s.workers|
            && forall i :: 0 <= i < |s.workers| ==> t.workers[i] == Notify(s.workers[i])
  {
  }

  lemma SomeoneHolds(s: System) returns (h: nat)
    requires Inv(s) && s.master.Outside? && s.shared.queue == [] && s.shared.nTodo > 0
    ensures h < |s.workers| && s.workers[h].Working?
  {
    h := SumPositive(s.workers, SIZE);
  }

  lemma MasterComesIn(t: System)
    requires Inv(t) && t.shared.fQuit && t.master.Outside? && t.shared.queue != [] && |t.workers| >= 1
    ensures MayHang(t)
  {
    hide Inv, MayHang, Settle;
    InvCounters(t);
    TookSplits(t.shared.(nTotal := t.shared.nTotal + 1), true, t.nBatchSize);
    StepKeeps(t, MasterEnter);
    Drain(Apply(t, MasterEnter));
    MayHangBefore(t, MasterEnter);
  }

  lemma QuitIsSafe(s: System)
    requires Inv(s) && s.master.Outside? && !HangPossible(s)
    ensures Counters(s) && !MayHang(Apply(s, QuitStep))
  {
    hide Inv, QuitHangs, Runs, Safe, Apply;
    StepKeeps(s, QuitStep);
    SafeAfterQuit(s);
    var t := Apply(s, QuitStep);
    forall steps, u | Runs(t, steps, u) && NoAdd(steps) ensures !QuitHangs(u) {
      SafeRuns(t, steps, u);
    }
  }

  lemma SafeAfterQuit(s: System)
    requires Inv(s) && s.master.Outside? && !HangPossible(s)
    ensures Counters(s) && Safe(Apply(s, QuitStep))
  {
    InvCounters(s);
    AfterQuit(s);
    NothingIsNegative(s);
    if |s.workers| > 0 {
      if s.shared.nTodo == 0 {
        AllHandedIn(s);
        QuitFromIdle(s);
      } else {
        var h := SomeoneHolds(s);
      }
    }
    hide Inv;
  }

  lemma NothingIsNegative(s: System)
    requires Inv(s)
    ensures s.shared.nTodo >= 0
  {
  }
}
