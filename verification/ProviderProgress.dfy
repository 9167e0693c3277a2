/**
 The lock protocol does not block itself: in every reachable state some activation can go on, whatever the environment
 will answer, and every activation returns after a bounded number of steps.
 */
module ProviderProgress {
  import opened Prelude
  import opened Registry
  import opened ProviderConcurrency
  import opened ProviderLinearization
  import opened ProviderSafety

  /** The most steps an activation at `pc` can still take. */
  function Rank(pc: Pc): nat {
    match pc
    case AddRLock => 18
    case AddFastRead => 17
    case AddFastMiss => 16
    case AddLock => 15
    case AddRecheck => 14
    case AddNewContext => 13
    case AddCreate => 12
    case AddPutCluster => 11
    case AddPutCancel => 10
    case AddUnlock => 9
    case AddEngage => 8
    case AddEngaging | DelIndex => 7
    case FailLock | DelLock => 6
    case FailCancel | DelLookup => 5
    case FailCompare | DelCancel(_) => 4
    case FailDropCluster | DelDropCancel(_) | GetRLock => 3
    case FailDropCancel | AddCreateFailed | DelDropCluster(_) | GetRead => 2
    case FailUnlock | AddCreateUnlock | AddFastHit | AddPresent | DelUnlock | GetUnlock(_) => 1
    case AddDone | DelDone | GetDone(_) => 0
  }

  /** The most steps all activations together can still take. */
  function Work(threads: seq<Thread>): nat {
    if threads == [] then 0 else Work(threads[..|threads| - 1]) + Rank(threads[|threads| - 1].pc)
  }

  predicate AllReturned(s: State) {
    forall t :: 0 <= t < |s.threads| ==> Phase(s.threads[t].pc).Returned?
  }

  predicate NoStarts(run: seq<Action>) {
    forall i :: 0 <= i < |run| ==> run[i].Run?
  }

  /** The activation can take its next step whatever the environment answers. */
  ghost predicate CanGoOn(s: State, t: Id) {
    forall good :: Enabled(s, Run(t, good))
  }

  lemma {:induction false} MovesLowerRank(m: Memory, t: Id, n: Name, pc: Pc, good: bool)
    requires !Phase(pc).Returned?
    ensures Rank(NextMove(m, t, n, pc, good).pc) < Rank(pc)
  {
  }

  lemma {:induction false} WorkOfUpdate(threads: seq<Thread>, t: nat, th: Thread)
    requires t < |threads|
    ensures Work(threads[t := th]) == Work(threads) - Rank(threads[t].pc) + Rank(th.pc)
  {
    var init := threads[..|threads| - 1];
    if t == |threads| - 1 {
      assert threads[t := th][..|threads| - 1] == init;
    } else {
      WorkOfUpdate(init, t, th);
      assert threads[t := th][..|threads| - 1] == init[t := th];
    }
  }

  /**
   No deadlock: if somebody is inside the lock, that activation can go on; if nobody is, every unfinished one can. So
   a lock that holds new readers back while a writer waits does not block either.
   */
  lemma {:induction false} InsidersCanGoOn(s: State, t: Id)
    requires Reachable(s) && t < |s.threads| && !Phase(s.threads[t].pc).Returned?
    requires s.writer == Some(t) || t in s.readers || (s.writer.None? && s.readers == {})
    ensures CanGoOn(s, t)
  {
    ReachableInvariants(s);
    forall good ensures Enabled(s, Run(t, good)) {
      MovesAcrossTheLock(s.mem, t, s.threads[t].name, s.threads[t].pc, good);
    }
  }

  lemma {:induction false} NoDeadlock(s: State)
    requires Reachable(s)
    ensures AllReturned(s) <==> !exists t :: CanGoOn(s, t)
  {
    ReachableInvariants(s);
    if !AllReturned(s) {
      var t :| 0 <= t < |s.threads| && !Phase(s.threads[t].pc).Returned?;
      if s.writer.Some? {
        t := s.writer.value;
      } else if s.readers != {} {
        t :| t in s.readers;
      }
      InsidersCanGoOn(s, t);
    } else {
      forall t ensures !CanGoOn(s, t) {
        assert !Enabled(s, Run(t, true));
      }
    }
  }

  /** Every step is paid for by the activation that takes it, so without new activations a run comes to an end. */
  lemma {:induction false} RunsAreBounded(s: State, run: seq<Action>)
    requires Exec(s, run).Some? && NoStarts(run)
    ensures |run| + Work(Exec(s, run).value.threads) <= Work(s.threads)
    decreases |run|
  {
    if run != [] {
      var t, good := run[0].id, run[0].good;
      MovesLowerRank(s.mem, t, s.threads[t].name, s.threads[t].pc, good);
      WorkOfUpdate(s.threads, t, Step(s, run[0]).threads[t]);
      RunsAreBounded(Step(s, run[0]), run[1..]);
    }
  }

  /** However activations are scheduled and answered, once no new ones start they all return, and the lock is free. */
  lemma {:induction false} EveryActivationReturns(s: State, run: seq<Action>)
    requires Reachable(s) && Exec(s, run).Some? && NoStarts(run)
    ensures |run| <= Work(s.threads)
    ensures var end := Exec(s, run).value; AllReturned(end) <==> !exists t :: CanGoOn(end, t)
    ensures var end := Exec(s, run).value; AllReturned(end) ==> end.writer.None? && end.readers == {}
  {
    var end := Exec(s, run).value;
    RunsAreBounded(s, run);
    ExecReaches(s, run);
    NoDeadlock(end);
    if AllReturned(end) {
      LockIsFree(end);
    }
  }

  lemma {:induction false} LockIsFree(s: State)
    requires Reachable(s) && AllReturned(s)
    ensures s.writer.None? && s.readers == {}
  {
    ReachableInvariants(s);
    assert forall t :: 0 <= t < |s.threads| ==> !HoldsWrite(s.threads[t].pc) && !HoldsRead(s.threads[t].pc);
  }

  lemma {:induction false} ExecReaches(s: State, run: seq<Action>)
    requires Reachable(s) && Exec(s, run).Some?
    ensures Reachable(Exec(s, run).value)
    decreases |run|
  {
    if run != [] {
      ReachableStep(s, run[0]);
      ExecReaches(Step(s, run[0]), run[1..]);
    }
  }
}
