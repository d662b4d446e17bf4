/**
 The parallel check queue (src/checkqueue.h): one master and any number of workers around a mutex.

 A thread runs Loop as a series of critical sections with work in between; each critical section is one atomic step.
 The class holds the shared fields, with one method per critical section, proved against the functions that the
 transition system in CheckQueueRuns is made of.
 */
module CheckQueue {
  import opened Arith

  /** A check with the verdict it gives when it is run. */
  datatype Check = Check(tag: nat, passes: bool)

  datatype Shared = Shared(queue: seq<Check>, nIdle: int, nTotal: int, fAllOk: bool, nTodo: int, fQuit: bool)

  /** How a critical section ends: Loop returns, the thread waits on its condition, or it takes a batch. */
  datatype Exit = Returned(ret: bool) | Slept | Took(batch: seq<Check>, fOk: bool)

  datatype Outcome = Outcome(shared: Shared, exit: Exit)

  predicate AllPass(batch: seq<Check>) { forall c :: c in batch ==> c.passes }

  /** max(1, min(nBatchSize, queue / (nTotal + nIdle + 1))). */
  function BatchSize(s: Shared, nBatchSize: nat): (n: nat)
    requires s.queue != [] && s.nTotal >= 0 && s.nIdle >= 0
    ensures 1 <= n <= |s.queue|
    ensures n > 1 ==> n <= nBatchSize && n * (s.nTotal + s.nIdle + 1) <= |s.queue|
    ensures n < nBatchSize ==> |s.queue| < (n + 1) * (s.nTotal + s.nIdle + 1)
  {
    DivideAtMost(|s.queue|, s.nTotal + s.nIdle + 1);
    var share := |s.queue| / (s.nTotal + s.nIdle + 1);
    ShareIs(|s.queue|, s.nTotal + s.nIdle + 1);
    MulMono(if share < nBatchSize then share else nBatchSize, share, s.nTotal + s.nIdle + 1);
    var n := if nBatchSize < share then nBatchSize else share;
    if n < 1 then 1 else n
  }

  lemma ShareIs(size: nat, threads: nat)
    requires threads >= 1
    ensures var share := size / threads; share * threads <= size < (share + 1) * threads <= (share + 2) * threads
  {
  }

  function Backwards(s: seq<Check>): (r: seq<Check>)
    ensures |r| == |s| && multiset(r) == multiset(s)
  {
    if s == [] then []
    else
      assert s == s[..|s| - 1] + [s[|s| - 1]];
      [s[|s| - 1]] + Backwards(s[..|s| - 1])
  }

  /** From "logically, the do loop starts here" to the end of the critical section. */
  function Settle(s: Shared, fMaster: bool, nBatchSize: nat): Outcome
    requires s.nTotal >= 0 && s.nIdle >= 0
  {
    if s.queue == [] then
      if (fMaster || s.fQuit) && s.nTodo == 0 then
        Outcome(s.(nTotal := s.nTotal - 1, fAllOk := fMaster || s.fAllOk), Returned(s.fAllOk))
      else
        Outcome(s.(nIdle := s.nIdle + 1), Slept)
    else
      var keep := |s.queue| - BatchSize(s, nBatchSize);
      Outcome(s.(queue := s.queue[..keep]), Took(Backwards(s.queue[keep..]), s.fAllOk))
  }

  /** First entry of a thread into Loop. */
  function Enter(s: Shared, fMaster: bool, nBatchSize: nat): Outcome
    requires s.nTotal >= 0 && s.nIdle >= 0
  {
    Settle(s.(nTotal := s.nTotal + 1), fMaster, nBatchSize)
  }

  /** Return from a wait, called for or not. */
  function Wake(s: Shared, fMaster: bool, nBatchSize: nat): Outcome
    requires s.nTotal >= 0 && s.nIdle >= 1
  {
    Settle(s.(nIdle := s.nIdle - 1), fMaster, nBatchSize)
  }

  /** What the clean-up after a batch of nNow checks does before the thread goes on. */
  function Credit(s: Shared, nNow: nat, fOk: bool): Shared
  {
    s.(fAllOk := s.fAllOk && fOk, nTodo := s.nTodo - nNow)
  }

  /** Re-entry after a batch whose checks gave fOk together. */
  function Finish(s: Shared, nNow: nat, fOk: bool, fMaster: bool, nBatchSize: nat): Outcome
    requires s.nTotal >= 0 && s.nIdle >= 0
  {
    Settle(Credit(s, nNow, fOk), fMaster, nBatchSize)
  }

  function AddChecks(s: Shared, checks: seq<Check>): Shared
  {
    s.(queue := s.queue + checks, nTodo := s.nTodo + |checks|)
  }

  /** Work between two critical sections: once a check fails, the rest of the batch is skipped. */
  method RunBatch(batch: seq<Check>, fOk0: bool) returns (fOk: bool)
    ensures fOk == (fOk0 && AllPass(batch))
  {
    fOk := fOk0;
    for i := 0 to |batch|
      invariant fOk <==> fOk0 && forall c :: c in batch[..i] ==> c.passes
    {
      assert batch[..i + 1] == batch[..i] + [batch[i]];
      if fOk {
        fOk := batch[i].passes;
      }
    }
    assert batch[..|batch|] == batch;
  }

  class Queue {
    var queue: seq<Check>
    var nIdle: int
    var nTotal: int
    var fAllOk: bool
    var nTodo: int
    var fQuit: bool
    const nBatchSize: nat

    constructor (nBatchSize: nat)
      ensures View() == Shared([], 0, 0, true, 0, false) && this.nBatchSize == nBatchSize
    {
      queue, nIdle, nTotal, fAllOk, nTodo, fQuit := [], 0, 0, true, 0, false;
      this.nBatchSize := nBatchSize;
    }

    function View(): Shared
      reads this
    {
      Shared(queue, nIdle, nTotal, fAllOk, nTodo, fQuit)
    }

    /** Pop nNow checks off the back of the queue, one at a time. */
    method TakeBatch(nNow: nat) returns (vChecks: seq<Check>)
      requires nNow <= |queue|
      modifies this`queue
      ensures queue == old(queue)[..|old(queue)| - nNow]
      ensures vChecks == Backwards(old(queue)[|old(queue)| - nNow..])
    {
      vChecks := [];
      ghost var q := queue;
      for i := 0 to nNow
        invariant queue == q[..|q| - i]
        invariant |vChecks| == i && forall k :: 0 <= k < i ==> vChecks[k] == q[|q| - 1 - k]
      {
        vChecks := vChecks + [queue[|queue| - 1]];
        queue := queue[..|queue| - 1];
      }
      BackwardsAt(q[|q| - nNow..]);
    }

    /** The part every critical section of Loop ends with. */
    method SettleNow(fMaster: bool) returns (exit: Exit)
      requires nTotal >= 0 && nIdle >= 0
      modifies this
      ensures Outcome(View(), exit) == Settle(old(View()), fMaster, nBatchSize)
    {
      if |queue| == 0 {
        if (fMaster || fQuit) && nTodo == 0 {
          nTotal := nTotal - 1;
          exit := Returned(fAllOk);
          if fMaster { fAllOk := true; }
          return;
        }
        nIdle := nIdle + 1;
        return Slept;
      }
      var nNow := BatchSize(View(), nBatchSize);
      var vChecks := TakeBatch(nNow);
      exit := Took(vChecks, fAllOk);
    }

    method EnterLoop(fMaster: bool) returns (exit: Exit)
      requires nTotal >= 0 && nIdle >= 0
      modifies this
      ensures Outcome(View(), exit) == Enter(old(View()), fMaster, nBatchSize)
    {
      hide Settle;
      nTotal := nTotal + 1;
      exit := SettleNow(fMaster);
    }

    method WakeUp(fMaster: bool) returns (exit: Exit)
      requires nTotal >= 0 && nIdle >= 1
      modifies this
      ensures Outcome(View(), exit) == Wake(old(View()), fMaster, nBatchSize)
    {
      hide Settle;
      nIdle := nIdle - 1;
      exit := SettleNow(fMaster);
    }

    /** notifyMaster: this worker handed in the last outstanding check. */
    method FinishBatch(nNow: nat, fOk: bool, fMaster: bool) returns (exit: Exit, notifyMaster: bool)
      requires nTotal >= 0 && nIdle >= 0
      modifies this
      ensures Outcome(View(), exit) == Finish(old(View()), nNow, fOk, fMaster, nBatchSize)
      ensures notifyMaster <==> old(nTodo) - nNow == 0 && !fMaster
    {
      hide Settle;
      fAllOk := fAllOk && fOk;
      nTodo := nTodo - nNow;
      notifyMaster := nTodo == 0 && !fMaster;
      exit := SettleNow(fMaster);
    }

    method Add(vChecks: seq<Check>)
      modifies this
      ensures View() == AddChecks(old(View()), vChecks)
    {
      for i := 0 to |vChecks|
        invariant View() == old(View()).(queue := old(queue) + vChecks[..i])
      {
        queue := queue + [vChecks[i]];
        assert vChecks[..i + 1] == vChecks[..i] + [vChecks[i]];
      }
      nTodo := nTodo + |vChecks|;
    }

    method Quit()
      modifies this
      ensures View() == old(View()).(fQuit := true)
    {
      fQuit := true;
    }
  }

  lemma {:induction false} BackwardsAt(s: seq<Check>)
    ensures forall k :: 0 <= k < |s| ==> Backwards(s)[k] == s[|s| - 1 - k]
  {
    if s != [] {
      BackwardsAt(s[..|s| - 1]);
    }
  }
}
