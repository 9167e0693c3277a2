/** What every reachable state of the interleaved provider guarantees. */
module ProviderSafety {
  import opened Prelude
  import opened Registry
  import opened ProviderConcurrency
  import opened ProviderLinearization

  /**
   With no writer inside, the two maps hold the same names, each pair comes from one activation, and the contexts
   made but not cancelled are exactly the registered ones.
   */
  lemma {:induction false} UnlockedProviderIsConsistent(s: State)
    requires Reachable(s) && s.writer.None?
    ensures s.mem.clusters == s.mem.cancelFns
    ensures forall n :: n in s.mem.cancelFns ==> Live(s, n, s.mem.cancelFns[n])
    ensures forall t: Id :: t in s.mem.created && t !in s.mem.cancelled ==>
              t < |s.threads| && Find(s.mem.cancelFns, s.threads[t].name) == Some(t)
  {
    ReachableInvariants(s);
    forall n ensures Find(s.mem.clusters, n) == Find(s.mem.cancelFns, n)
    ensures n in s.mem.cancelFns ==> Live(s, n, s.mem.cancelFns[n]) {
      assert MapInv(s, n);
    }
    assert forall n :: n in s.mem.clusters <==> Find(s.mem.clusters, n).Some?;
    assert forall n :: n in s.mem.cancelFns <==> Find(s.mem.cancelFns, n).Some?;
    forall n | n in s.mem.clusters ensures s.mem.clusters[n] == s.mem.cancelFns[n] {
      assert Find(s.mem.clusters, n) == Find(s.mem.cancelFns, n);
    }
    forall t: Id | t in s.mem.created && t !in s.mem.cancelled
      ensures t < |s.threads| && Find(s.mem.cancelFns, s.threads[t].name) == Some(t)
    {
      assert MapInv(s, s.threads[t].name);
      assert Live(s, s.threads[t].name, t);
    }
  }

  /** Until a Get that was started for `n` releases the lock, the cluster it has found is the registered one, not cancelled. */
  lemma {:induction false} GetAnswersLiveCluster(run: seq<Action>, s: State, t: Id, n: Name)
    requires Exec(INITIAL, run) == Some(s) && t < |Starts(run)| && Starts(run)[t] == StartGet(n)
    ensures t < |s.threads|
    ensures match s.threads[t].pc
      case GetUnlock(found) => found == Find(s.mem.clusters, n) && (found.Some? ==> Live(s, n, found.value))
      case GetDone(answer) => OpsOf(s.history, t) == [LookupOp(t, n, answer)]
      case GetRLock | GetRead => OpsOf(s.history, t) == []
      case _ => false
  {
    assert Reachable(s);
    ReachableInvariants(s);
    ActivationsAreAsStarted(run, s);
    assert MapInv(s, n) && InProgress(s, t);
    assert StartedBy(s.threads[t], StartGet(n));
    if s.threads[t].pc.GetUnlock? {
      assert HoldsRead(s.threads[t].pc);
    }
  }

  lemma {:induction false} AtMostOneLivePerName(s: State, n: Name, t: Id, u: Id)
    requires Reachable(s) && Live(s, n, t) && Live(s, n, u)
    ensures t == u
  {
    ReachableInvariants(s);
    assert MapInv(s, n);
  }

  /** Another activation's engagement for the name is registered and running. */
  predicate OtherEngagementRegistered(s: State, n: Name, t: Id) {
    var owner := Find(s.mem.cancelFns, n);
    owner.Some? && owner.value != t && owner.value in s.mem.engaged && owner.value !in s.mem.cancelled
  }

  ghost predicate OthersCancelled(s: State, n: Name, t: Id) {
    forall u :: u in s.mem.engaged && u < |s.threads| && s.threads[u].name == n && u != t ==> u in s.mem.cancelled
  }

  /**
   When an activation is about to call Engage, every other engagement of its name has been cancelled, unless the name
   has meanwhile been disengaged and registered again by an activation that has called Engage already.
   */
  lemma {:induction false} EngageStartsAloneIff(s: State, t: Id)
    requires Reachable(s) && t < |s.threads| && s.threads[t].pc.AddEngage?
    ensures OthersCancelled(s, s.threads[t].name, t) <==> !OtherEngagementRegistered(s, s.threads[t].name, t)
    ensures t !in s.mem.cancelled ==> OthersCancelled(s, s.threads[t].name, t)
  {
    ReachableInvariants(s);
    var n := s.threads[t].name;
    assert MapInv(s, n);
    forall u | u in s.mem.engaged && u < |s.threads| && s.threads[u].name == n && u !in s.mem.cancelled
      ensures Find(s.mem.cancelFns, n) == Some(u)
    {
      assert Live(s, n, u);
      assert !BeforeEngage(s.threads[u].pc);
    }
    if t !in s.mem.cancelled {
      assert Live(s, n, t);
    }
    if OtherEngagementRegistered(s, n, t) {
      var owner := s.mem.cancelFns[n];
      OwnersCarryTheirName(s, n);
      assert owner in s.mem.engaged && owner < |s.threads| && s.threads[owner].name == n && owner != t;
    }
  }

  lemma {:induction false} OwnersCarryTheirName(s: State, n: Name)
    requires Inv(s) && n in s.mem.cancelFns && s.mem.cancelFns[n] !in s.mem.cancelled && s.mem.cancelFns[n] in s.mem.created
    ensures Live(s, n, s.mem.cancelFns[n])
  {
    assert MapInv(s, n);
  }

  lemma {:induction false} ReachableStep(s: State, a: Action)
    requires Reachable(s) && Enabled(s, a)
    ensures Reachable(Step(s, a))
  {
    var run :| Exec(INITIAL, run) == Some(s);
    ExecAppend(INITIAL, run, a);
    assert Exec(INITIAL, run + [a]) == Some(Step(s, a));
  }

  lemma {:induction false} ExecAppend(s: State, run: seq<Action>, a: Action)
    requires Exec(s, run).Some? && Enabled(Exec(s, run).value, a)
    ensures Exec(s, run + [a]) == Some(Step(Exec(s, run).value, a))
    decreases |run|
  {
    if run == [] {
      assert run + [a] == [a];
    } else {
      ExecAppend(Step(s, run[0]), run[1..], a);
      assert (run + [a])[1..] == run[1..] + [a];
    }
  }

  /** Nobody is inside the lock, and activation `t` for `n` is at `pc`. */
  ghost predicate Waiting(s: State, t: Id, n: Name, pc: Pc) {
    Reachable(s) && s.writer.None? && s.readers == {} && t < |s.threads| && s.threads[t] == Thread(n, pc)
  }

  /** Only `t` has moved between `s` and `s'`. */
  ghost predicate OnlyMoved(s: State, s': State, t: Id) {
    |s'.threads| == |s.threads| && forall u: Id :: u < |s.threads| && u != t ==> s'.threads[u] == s.threads[u]
  }

  /** `t`, at `pc`, takes its next step with the environment on its side. */
  lemma {:induction false} Take(s: State, t: Id, n: Name, pc: Pc) returns (s': State)
    requires Reachable(s) && t < |s.threads| && s.threads[t] == Thread(n, pc) && !Phase(pc).Returned?
    requires var lock := NextMove(s.mem, t, n, pc, true).lock;
      (lock.RLock? || lock.Lock? ==> s.writer.None?) && (lock.Lock? ==> s.readers == {})
    ensures Reachable(s') && OnlyMoved(s, s', t)
    ensures var mv := NextMove(s.mem, t, n, pc, true);
      && s'.threads[t] == Thread(n, mv.pc) && s'.mem == mv.mem
      && s'.writer == (if mv.lock.Lock? then Some(t) else if mv.lock.Unlock? then None else s.writer)
      && s'.readers == (if mv.lock.RLock? then s.readers + {t} else if mv.lock.RUnlock? then s.readers - {t} else s.readers)
  {
    s' := Step(s, Run(t, true));
    ReachableStep(s, Run(t, true));
  }

  lemma {:induction false} AddMissesFast(s: State, t: Id, n: Name) returns (s': State)
    requires Waiting(s, t, n, AddRLock) && n !in s.mem.clusters
    ensures Waiting(s', t, n, AddLock) && OnlyMoved(s, s', t) && s'.mem == s.mem
  {
    s' := s;
    s' := Take(s', t, n, AddRLock);
    s' := Take(s', t, n, AddFastRead);
    s' := Take(s', t, n, AddFastMiss);
  }

  lemma {:induction false} AddCreatesCluster(s: State, t: Id, n: Name) returns (s': State)
    requires Waiting(s, t, n, AddLock) && n !in s.mem.clusters
    ensures Reachable(s') && OnlyMoved(s, s', t) && s'.threads[t] == Thread(n, AddPutCluster)
    ensures s'.writer == Some(t) && s'.readers == {} && s'.mem == s.mem.(created := s.mem.created + {t})
  {
    s' := s;
    s' := Take(s', t, n, AddLock);
    s' := Take(s', t, n, AddRecheck);
    s' := Take(s', t, n, AddNewContext);
    s' := Take(s', t, n, AddCreate);
  }

  lemma {:induction false} AddRunsUpToEngage(s: State, t: Id, n: Name) returns (s': State)
    requires Waiting(s, t, n, AddRLock) && n !in s.mem.clusters
    ensures Waiting(s', t, n, AddEngage) && OnlyMoved(s, s', t)
    ensures s'.mem == s.mem.(clusters := s.mem.clusters[n := t], cancelFns := s.mem.cancelFns[n := t],
                             created := s.mem.created + {t})
  {
    s' := AddMissesFast(s, t, n);
    s' := AddCreatesCluster(s', t, n);
    s' := Take(s', t, n, AddPutCluster);
    s' := Take(s', t, n, AddPutCancel);
    s' := Take(s', t, n, AddUnlock);
  }

  lemma {:induction false} DeleteFindsOwner(s: State, t: Id, n: Name, o: Id) returns (s': State)
    requires Waiting(s, t, n, DelIndex) && Find(s.mem.cancelFns, n) == Some(o)
    ensures Reachable(s') && OnlyMoved(s, s', t) && s'.threads[t] == Thread(n, DelCancel(o))
    ensures s'.writer == Some(t) && s'.readers == {} && s'.mem == s.mem
  {
    s' := s;
    s' := Take(s', t, n, DelIndex);
    s' := Take(s', t, n, DelLock);
    s' := Take(s', t, n, DelLookup);
  }

  lemma {:induction false} DeleteDropsOwner(s: State, t: Id, n: Name, o: Id) returns (s': State)
    requires Reachable(s) && t < |s.threads| && s.threads[t] == Thread(n, DelCancel(o))
    ensures Reachable(s') && OnlyMoved(s, s', t) && s'.threads[t] == Thread(n, DelUnlock)
    ensures s'.writer == s.writer && s'.readers == s.readers
    ensures s'.mem == s.mem.(clusters := s.mem.clusters - {n}, cancelFns := s.mem.cancelFns - {n},
                             cancelled := s.mem.cancelled + {o})
  {
    s' := Take(s, t, n, DelCancel(o));
    s' := Take(s', t, n, DelDropCancel(o));
    s' := Take(s', t, n, DelDropCluster(o));
  }

  lemma {:induction false} DeleteRunsToTheEnd(s: State, t: Id, n: Name, o: Id) returns (s': State)
    requires Waiting(s, t, n, DelIndex) && Find(s.mem.cancelFns, n) == Some(o)
    ensures Waiting(s', t, n, DelDone) && OnlyMoved(s, s', t)
    ensures s'.mem == s.mem.(clusters := s.mem.clusters - {n}, cancelFns := s.mem.cancelFns - {n},
                             cancelled := s.mem.cancelled + {o})
  {
    s' := DeleteFindsOwner(s, t, n, o);
    s' := DeleteDropsOwner(s', t, n, o);
    s' := Take(s', t, n, DelUnlock);
  }

  /**
   The exception is real: an AddFunc that is slow to call Engage calls it after the name was disengaged and engaged
   again by another activation.
   */
  lemma {:induction false} LateEngageFindsAnotherRunning()
    ensures exists s: State, t: Id :: Reachable(s) && t < |s.threads| && s.threads[t].pc.AddEngage?
              && !OthersCancelled(s, s.threads[t].name, t)
  {
    var n := "c";
    assert Exec(INITIAL, []) == Some(INITIAL);
    ReachableStep(INITIAL, StartAdd(n));
    var s := Step(INITIAL, StartAdd(n));
    s := AddRunsUpToEngage(s, 0, n);
    ReachableStep(s, StartDelete(n));
    s := Step(s, StartDelete(n));
    s := DeleteRunsToTheEnd(s, 1, n, 0);
    ReachableStep(s, StartAdd(n));
    s := Step(s, StartAdd(n));
    s := AddRunsUpToEngage(s, 2, n);
    s := Take(s, 2, n, AddEngage);
    assert s.threads[0] == Thread(n, AddEngage);
    assert OtherEngagementRegistered(s, n, 0);
    EngageStartsAloneIff(s, 0);
  }

  /** Cleaning up after a failed Engage leaves every other activation's registration and context alone. */
  lemma {:induction false} LateFailureSparesOthers(s: State, t: Id, good: bool, n: Name, r: Id)
    requires Reachable(s) && Enabled(s, Run(t, good)) && Phase(s.threads[t].pc).Engage? && r != t
    ensures var s' := Step(s, Run(t, good));
      && (Find(s.mem.clusters, n) == Some(r) ==> Find(s'.mem.clusters, n) == Some(r))
      && (Find(s.mem.cancelFns, n) == Some(r) ==> Find(s'.mem.cancelFns, n) == Some(r))
      && (r in s'.mem.cancelled ==> r in s.mem.cancelled)
  {
    ReachableInvariants(s);
    MovesOverMaps(s.mem, t, s.threads[t].name, s.threads[t].pc, good, n);
    MovesOverContexts(s.mem, t, s.threads[t].name, s.threads[t].pc, good);
    assert MapInv(s, s.threads[t].name);
  }

  /** An AddFunc whose creation or Engage failed returns with its context cancelled and nothing of it registered. */
  lemma {:induction false} FailedAddLeavesNothing(s: State, t: Id)
    requires Reachable(s) && s.writer.None?
    requires t < |s.threads| && s.threads[t].pc.AddDone? && t in s.refused
    ensures t in s.mem.cancelled
    ensures forall n :: Find(s.mem.clusters, n) != Some(t) && Find(s.mem.cancelFns, n) != Some(t)
  {
    ReachableInvariants(s);
    assert FailureCancels(s, t);
    UnlockedProviderIsConsistent(s);
  }

  /**
   Every interleaving is a legal history of the sequential map, and that map is `clusters`. An AddFunc that was started and
   has returned registered once, and engaged what it registered, or was refused and has left nothing; a DeleteFunc has
   disengaged exactly if the index was empty; a Get has looked up what it answers.
   */
  lemma {:induction false} EveryRunIsLinearizable(run: seq<Action>, s: State, t: Id)
    requires Exec(INITIAL, run) == Some(s) && t < |Starts(run)|
    ensures LegalHistory(s.history) && Replay(s.history) == s.mem.clusters
    ensures t < |s.threads| && (Phase(s.threads[t].pc).Returned? ==>
      var pc, ops := s.threads[t].pc, OpsOf(s.history, t);
      match Starts(run)[t]
      case StartAdd(n) =>
        && (t in s.mem.engaged <==> RegisterOp(t, n, Inserted) in ops)
        && if t in s.refused
           then ops == [RegisterOp(t, n, CreateFailed)] || exists b: bool :: ops == [RegisterOp(t, n, Inserted), WithdrawOp(t, n, b)]
           else ops == [RegisterOp(t, n, Present)] || ops == [RegisterOp(t, n, Inserted)]
      case StartDelete(n) =>
        if t in s.refused then ops == [] else exists owner :: ops == [DisengageOp(t, n, owner)]
      case StartGet(n) => pc.GetDone? && ops == [LookupOp(t, n, pc.answer)]
      case Run(_, _) => false)
  {
    assert Reachable(s);
    ReachableInvariants(s);
    ActivationsAreAsStarted(run, s);
    assert InProgress(s, t);
  }

  /** The steps of an AddFunc that only looks, which ends there if the name is registered. */
  predicate OnFastPath(pc: Pc) {
    pc.AddRLock? || pc.AddFastRead? || pc.AddFastHit? || pc.AddDone?
  }

  /** The name is registered in every state of the run. */
  ghost predicate StaysRegistered(s: State, run: seq<Action>, n: Name)
    requires Exec(s, run).Some?
    decreases |run|
  {
    n in s.mem.clusters && (run != [] ==> StaysRegistered(Step(s, run[0]), run[1..], n))
  }

  /** An AddFunc whose name stays registered while it looks never waits for, or holds, the write lock. */
  lemma {:induction false} RegisteredNameTakesFastPath(s: State, run: seq<Action>, t: Id)
    requires Exec(s, run).Some? && t < |s.threads| && OnFastPath(s.threads[t].pc)
    requires StaysRegistered(s, run, s.threads[t].name)
    ensures var s' := Exec(s, run).value;
      t < |s'.threads| && s'.threads[t].name == s.threads[t].name && OnFastPath(s'.threads[t].pc)
    decreases |run|
  {
    if run != [] {
      RegisteredNameTakesFastPath(Step(s, run[0]), run[1..], t);
    }
  }

  /** What a step at name `n` of activation `t`, in one of the closures, may change. */
  ghost predicate OwnPart(m: Memory, m': Memory, t: Id, n: Name, closure: Closure) {
    match closure
    case GetFunc => m' == m
    case DeleteFunc =>
      && m'.created == m.created && m'.engaged == m.engaged
      && m'.clusters - {n} == m.clusters - {n} && m'.clusters.Keys <= m.clusters.Keys
      && m'.cancelFns - {n} == m.cancelFns - {n} && m'.cancelFns.Keys <= m.cancelFns.Keys
    case AddFunc =>
      && m'.created <= m.created + {t} && m'.cancelled <= m.cancelled + {t} && m'.engaged <= m.engaged + {t}
      && m'.clusters - {n} == m.clusters - {n} && m'.cancelFns - {n} == m.cancelFns - {n}
  }

  lemma {:induction false} SlowOwnPart(m: Memory, t: Id, n: Name, pc: Pc, good: bool)
    requires Phase(pc).Slow?
    ensures OwnPart(m, SlowMove(m, t, n, pc, good).mem, t, n, AddFunc)
  {
    assert m.clusters[n := t] - {n} == m.clusters - {n};
    assert m.cancelFns[n := t] - {n} == m.cancelFns - {n};
  }

  lemma {:induction false} EngageOwnPart(m: Memory, t: Id, n: Name, pc: Pc, good: bool)
    requires Phase(pc).Engage?
    ensures OwnPart(m, EngageMove(m, t, n, pc, good).mem, t, n, AddFunc)
  {
  }

  lemma {:induction false} DeleteOwnPart(m: Memory, t: Id, n: Name, pc: Pc, good: bool)
    requires Phase(pc).Delete?
    ensures OwnPart(m, DeleteMove(m, t, n, pc, good).mem, t, n, DeleteFunc)
  {
  }

  lemma {:induction false} MovesKeepToTheirPart(m: Memory, t: Id, n: Name, pc: Pc, good: bool)
    requires !Phase(pc).Returned?
    ensures OwnPart(m, NextMove(m, t, n, pc, good).mem, t, n, ClosureOf(pc))
  {
    match Phase(pc)
    case Slow => SlowOwnPart(m, t, n, pc, good);
    case Engage => EngageOwnPart(m, t, n, pc, good);
    case Delete => DeleteOwnPart(m, t, n, pc, good);
    case _ =>
  }

  /**
   An activation started as a Get changes nothing; one started as a DeleteFunc makes no context and only drops its name;
   one started as an AddFunc touches its own context and its own name only.
   */
  lemma {:induction false} ActivationsKeepToTheirPart(run: seq<Action>, s: State, t: Id, good: bool)
    requires Exec(INITIAL, run) == Some(s) && Enabled(s, Run(t, good))
    ensures t < |Starts(run)|
    ensures var m' := Step(s, Run(t, good)).mem;
      match Starts(run)[t]
      case StartGet(n) => OwnPart(s.mem, m', t, n, GetFunc)
      case StartDelete(n) => OwnPart(s.mem, m', t, n, DeleteFunc)
      case StartAdd(n) => OwnPart(s.mem, m', t, n, AddFunc)
      case Run(_, _) => false
  {
    ActivationsAreAsStarted(run, s);
    assert StartedBy(s.threads[t], Starts(run)[t]);
    MovesKeepToTheirPart(s.mem, t, s.threads[t].name, s.threads[t].pc, good);
  }

  /** `s'` is later than `s`: the history has only grown, and what has returned stays as it was. */
  ghost predicate Later(s: State, s': State) {
    && s.history <= s'.history
    && |s.threads| <= |s'.threads|
    && (forall t: Id :: t < |s.threads| && Phase(s.threads[t].pc).Returned? ==>
          s'.threads[t] == s.threads[t] && OpsOf(s'.history, t) == OpsOf(s.history, t))
  }

  lemma {:induction false} StepIsLater(s: State, a: Action)
    requires Inv(s) && Enabled(s, a)
    ensures Later(s, Step(s, a))
  {
    forall t: Id | t < |s.threads| && Phase(s.threads[t].pc).Returned?
      ensures OpsOf(Step(s, a).history, t) == OpsOf(s.history, t)
    {
      OpsOfStep(s, a, t);
    }
  }

  lemma {:induction false} ExecIsLater(s: State, run: seq<Action>)
    requires Inv(s) && HistoryInv(s) && Exec(s, run).Some?
    ensures Later(s, Exec(s, run).value)
    decreases |run|
  {
    if run != [] {
      StepIsLater(s, run[0]);
      InvStep(s, run[0]);
      HistoryInvStep(s, run[0]);
      ExecIsLater(Step(s, run[0]), run[1..]);
    }
  }

  /** Operations keep real-time order: what has returned is settled, and what starts later takes effect later. */
  lemma {:induction false} OperationsKeepRealTimeOrder(s: State, run: seq<Action>)
    requires Reachable(s) && Exec(s, run).Some?
    ensures var s' := Exec(s, run).value;
      && Later(s, s')
      && (forall t: Id :: t >= |s.threads| ==> OpsOf(s'.history[..|s.history|], t) == [])
  {
    ReachableInvariants(s);
    ExecIsLater(s, run);
    var s' := Exec(s, run).value;
    assert s'.history[..|s.history|] == s.history;
    forall t: Id | t >= |s.threads| ensures OpsOf(s'.history[..|s.history|], t) == [] {
      assert InProgress(s, t);
    }
  }
}
