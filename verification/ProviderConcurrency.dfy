/**
 Any number of AddFunc, DeleteFunc and Get activations interleaving, one lock
 operation, map access, cancellation or call at a time.

 An AddFunc activation makes at most one context and at most one scoped
 cluster, so both are named by the activation that made them.
 */
module ProviderConcurrency {
  import opened Prelude
  import opened Registry

  type Id = nat

  datatype Pc =
    // AddFunc, fast path under the read lock
    | AddRLock | AddFastRead | AddFastHit | AddFastMiss
    // AddFunc, slow path under the write lock
    | AddLock | AddRecheck | AddPresent | AddNewContext | AddCreate | AddCreateFailed | AddCreateUnlock
    | AddPutCluster | AddPutCancel | AddUnlock
    // AddFunc, engaging outside the lock and cleaning up when that fails
    | AddEngage | AddEngaging
    | FailLock | FailCancel | FailCompare | FailDropCluster | FailDropCancel | FailUnlock
    | AddDone
    // DeleteFunc
    | DelIndex | DelLock | DelLookup | DelCancel(owner: Id) | DelDropCancel(owner: Id)
    | DelDropCluster(owner: Id) | DelUnlock | DelDone
    // Get
    | GetRLock | GetRead | GetUnlock(found: Option<Id>) | GetDone(answer: Option<Id>)

  datatype Thread = Thread(name: Name, pc: Pc)

  /** The provider's two maps, and which contexts were made, cancelled, and passed to Engage. */
  datatype Memory = Memory(
    clusters: map<Name, Id>,
    cancelFns: map<Name, Id>,
    created: set<Id>,
    cancelled: set<Id>,
    engaged: set<Id>)

  /** `refused` are the activations to which the environment has said no, whatever they made of it. */
  datatype State = State(
    writer: Option<Id>,
    readers: set<Id>,
    mem: Memory,
    threads: seq<Thread>,
    history: seq<Op<Id>>,
    refused: set<Id>)

  datatype LockOp = Keep | RLock | RUnlock | Lock | Unlock

  /** One step of one activation. `log` marks the step at which an operation takes effect. */
  datatype Move = Move(pc: Pc, lock: LockOp, mem: Memory, log: Option<Op<Id>>)

  /** `good` is what the environment decides: creation or Engage succeeds, the index is empty. */
  datatype Action = StartAdd(name: Name) | StartDelete(name: Name) | StartGet(name: Name) | Run(id: Id, good: bool)

  const INITIAL := State(None, {}, Memory(map[], map[], {}, {}, {}), [], [], {})

  /** Steps at which the environment answers: creation, Engage, the index lookup. */
  predicate Asks(pc: Pc) {
    pc.AddCreate? || pc.AddEngaging? || pc.DelIndex?
  }

  datatype Phases = Fast | Slow | Engage | Delete | Get | Returned

  function Phase(pc: Pc): Phases {
    match pc
    case AddRLock | AddFastRead | AddFastHit | AddFastMiss => Fast
    case AddLock | AddRecheck | AddPresent | AddNewContext | AddCreate | AddCreateFailed | AddCreateUnlock => Slow
    case AddPutCluster | AddPutCancel | AddUnlock => Slow
    case AddEngage | AddEngaging | FailLock | FailCancel | FailCompare => Engage
    case FailDropCluster | FailDropCancel | FailUnlock => Engage
    case DelIndex | DelLock | DelLookup | DelCancel(_) | DelDropCancel(_) | DelDropCluster(_) | DelUnlock => Delete
    case GetRLock | GetRead | GetUnlock(_) => Get
    case AddDone | DelDone | GetDone(_) => Returned
  }

  /** AddFunc while it only looks. */
  function FastMove(m: Memory, t: Id, n: Name, pc: Pc): Move
    requires Phase(pc).Fast?
  {
    match pc
    case AddRLock => Move(AddFastRead, RLock, m, None)
    case AddFastRead =>
      if n in m.clusters then Move(AddFastHit, Keep, m, Some(RegisterOp(t, n, Present)))
      else Move(AddFastMiss, Keep, m, None)
    case AddFastHit => Move(AddDone, RUnlock, m, None)
    case AddFastMiss => Move(AddLock, RUnlock, m, None)
  }

  /** AddFunc under the write lock. */
  function SlowMove(m: Memory, t: Id, n: Name, pc: Pc, good: bool): Move
    requires Phase(pc).Slow?
  {
    match pc
    case AddLock => Move(AddRecheck, Lock, m, None)
    case AddRecheck =>
      if n in m.clusters then Move(AddPresent, Keep, m, Some(RegisterOp(t, n, Present)))
      else Move(AddNewContext, Keep, m, None)
    case AddPresent => Move(AddDone, Unlock, m, None)
    case AddNewContext => Move(AddCreate, Keep, m.(created := m.created + {t}), None)
    case AddCreate =>
      if good then Move(AddPutCluster, Keep, m, None)
      else Move(AddCreateFailed, Keep, m, Some(RegisterOp(t, n, CreateFailed)))
    case AddCreateFailed => Move(AddCreateUnlock, Keep, m.(cancelled := m.cancelled + {t}), None)
    case AddCreateUnlock => Move(AddDone, Unlock, m, None)
    case AddPutCluster =>
      Move(AddPutCancel, Keep, m.(clusters := m.clusters[n := t]), Some(RegisterOp(t, n, Inserted)))
    case AddPutCancel => Move(AddUnlock, Keep, m.(cancelFns := m.cancelFns[n := t]), None)
    case AddUnlock => Move(AddEngage, Unlock, m, None)
  }

  /** AddFunc after it has registered: engaging, and cleaning up when that fails. */
  function EngageMove(m: Memory, t: Id, n: Name, pc: Pc, good: bool): Move
    requires Phase(pc).Engage?
  {
    match pc
    case AddEngage => Move(AddEngaging, Keep, m.(engaged := m.engaged + {t}), None)
    case AddEngaging => Move(if good then AddDone else FailLock, Keep, m, None)
    case FailLock => Move(FailCancel, Lock, m, None)
    case FailCancel => Move(FailCompare, Keep, m.(cancelled := m.cancelled + {t}), None)
    case FailCompare =>
      if Find(m.clusters, n) == Some(t) then Move(FailDropCluster, Keep, m, None)
      else Move(FailUnlock, Keep, m, Some(WithdrawOp(t, n, false)))
    case FailDropCluster =>
      Move(FailDropCancel, Keep, m.(clusters := m.clusters - {n}), Some(WithdrawOp(t, n, true)))
    case FailDropCancel => Move(FailUnlock, Keep, m.(cancelFns := m.cancelFns - {n}), None)
    case FailUnlock => Move(AddDone, Unlock, m, None)
  }

  function DeleteMove(m: Memory, t: Id, n: Name, pc: Pc, good: bool): Move
    requires Phase(pc).Delete?
  {
    match pc
    case DelIndex => Move(if good then DelLock else DelDone, Keep, m, None)
    case DelLock => Move(DelLookup, Lock, m, None)
    case DelLookup =>
      if n in m.cancelFns then Move(DelCancel(m.cancelFns[n]), Keep, m, None)
      else Move(DelUnlock, Keep, m, Some(DisengageOp(t, n, None)))
    case DelCancel(owner) => Move(DelDropCancel(owner), Keep, m.(cancelled := m.cancelled + {owner}), None)
    case DelDropCancel(owner) => Move(DelDropCluster(owner), Keep, m.(cancelFns := m.cancelFns - {n}), None)
    case DelDropCluster(owner) =>
      Move(DelUnlock, Keep, m.(clusters := m.clusters - {n}), Some(DisengageOp(t, n, Some(owner))))
    case DelUnlock => Move(DelDone, Unlock, m, None)
  }

  function GetMove(m: Memory, t: Id, n: Name, pc: Pc): Move
    requires Phase(pc).Get?
  {
    match pc
    case GetRLock => Move(GetRead, RLock, m, None)
    case GetRead =>
      Move(GetUnlock(Find(m.clusters, n)), Keep, m, Some(LookupOp(t, n, Find(m.clusters, n))))
    case GetUnlock(found) => Move(GetDone(found), RUnlock, m, None)
  }

  function NextMove(m: Memory, t: Id, n: Name, pc: Pc, good: bool): Move
    requires !Phase(pc).Returned?
  {
    match Phase(pc)
    case Fast => FastMove(m, t, n, pc)
    case Slow => SlowMove(m, t, n, pc, good)
    case Engage => EngageMove(m, t, n, pc, good)
    case Delete => DeleteMove(m, t, n, pc, good)
    case Get => GetMove(m, t, n, pc)
  }

  predicate CanRun(s: State, t: Id) {
    && t < |s.threads|
    && !Phase(s.threads[t].pc).Returned?
  }

  function MoveOf(s: State, t: Id, good: bool): Move
    requires CanRun(s, t)
  {
    NextMove(s.mem, t, s.threads[t].name, s.threads[t].pc, good)
  }

  /** A read lock waits for the writer, the write lock waits for everybody. */
  predicate Enabled(s: State, a: Action) {
    a.Run? ==>
      && CanRun(s, a.id)
      && var lock := MoveOf(s, a.id, a.good).lock;
      && (lock.RLock? ==> s.writer.None?)
      && (lock.Lock? ==> s.writer.None? && s.readers == {})
  }

  function Spawn(s: State, n: Name, pc: Pc): State {
    s.(threads := s.threads + [Thread(n, pc)])
  }

  function Step(s: State, a: Action): State
    requires Enabled(s, a)
  {
    match a
    case StartAdd(n) => Spawn(s, n, AddRLock)
    case StartDelete(n) => Spawn(s, n, DelIndex)
    case StartGet(n) => Spawn(s, n, GetRLock)
    case Run(t, good) =>
      var mv := MoveOf(s, t, good);
      State(
        match mv.lock { case Lock => Some(t) case Unlock => None case _ => s.writer },
        match mv.lock { case RLock => s.readers + {t} case RUnlock => s.readers - {t} case _ => s.readers },
        mv.mem,
        s.threads[t := s.threads[t].(pc := mv.pc)],
        if mv.log.Some? then s.history + [mv.log.value] else s.history,
        if Asks(s.threads[t].pc) && !good then s.refused + {t} else s.refused)
  }

  // ---------- runs ----------

  function Exec(s: State, run: seq<Action>): Option<State>
    decreases |run|
  {
    if run == [] then Some(s)
    else if Enabled(s, run[0]) then Exec(Step(s, run[0]), run[1..])
    else None
  }

  ghost predicate Reachable(s: State) {
    exists run :: Exec(INITIAL, run) == Some(s)
  }

  // ---------- which activation is which ----------

  datatype Closure = AddFunc | DeleteFunc | GetFunc

  /** The closure that has the step `pc`. */
  function ClosureOf(pc: Pc): Closure {
    match Phase(pc)
    case Fast | Slow | Engage => AddFunc
    case Delete => DeleteFunc
    case Get => GetFunc
    case Returned => if pc.AddDone? then AddFunc else if pc.DelDone? then DeleteFunc else GetFunc
  }

  /** The start actions of a run, in order: the t-th of them starts activation t. */
  function Starts(run: seq<Action>): seq<Action> {
    if run == [] then []
    else
      var earlier, a := Starts(run[..|run| - 1]), run[|run| - 1];
      if a.Run? then earlier else earlier + [a]
  }

  /** The thread works on the name, and is in the closure, that it was started for. */
  ghost predicate StartedBy(th: Thread, a: Action) {
    match a
    case StartAdd(n) => th.name == n && ClosureOf(th.pc) == AddFunc
    case StartDelete(n) => th.name == n && ClosureOf(th.pc) == DeleteFunc
    case StartGet(n) => th.name == n && ClosureOf(th.pc) == GetFunc
    case Run(_, _) => false
  }

  lemma {:induction false} MovesKeepClosure(m: Memory, t: Id, n: Name, pc: Pc, good: bool)
    requires !Phase(pc).Returned?
    ensures ClosureOf(NextMove(m, t, n, pc, good).pc) == ClosureOf(pc)
  {
  }

  lemma {:induction false} ExecLast(s: State, run: seq<Action>)
    requires run != [] && Exec(s, run).Some?
    ensures var init, a := run[..|run| - 1], run[|run| - 1];
      && Exec(s, init).Some? && Enabled(Exec(s, init).value, a)
      && Exec(s, run) == Some(Step(Exec(s, init).value, a))
    decreases |run|
  {
    if |run| > 1 {
      ExecLast(Step(s, run[0]), run[1..]);
      assert run[1..][..|run| - 2] == run[..|run| - 1][1..];
    } else {
      assert run[1..] == [];
    }
  }

  /** In every run, the activations are those that were started, in that order, each in its own closure and on its own name. */
  lemma {:induction false} ActivationsAreAsStarted(run: seq<Action>, s: State)
    requires Exec(INITIAL, run) == Some(s)
    ensures |s.threads| == |Starts(run)|
    ensures forall t :: 0 <= t < |s.threads| ==> StartedBy(s.threads[t], Starts(run)[t])
    decreases |run|
  {
    if run != [] {
      ExecLast(INITIAL, run);
      var s0, a := Exec(INITIAL, run[..|run| - 1]).value, run[|run| - 1];
      ActivationsAreAsStarted(run[..|run| - 1], s0);
      StepKeepsActivations(s0, a, Starts(run[..|run| - 1]));
    }
  }

  lemma {:induction false} StepKeepsActivations(s: State, a: Action, starts: seq<Action>)
    requires Enabled(s, a) && |s.threads| == |starts|
    requires forall t :: 0 <= t < |starts| ==> StartedBy(s.threads[t], starts[t])
    ensures var threads, starts' := Step(s, a).threads, if a.Run? then starts else starts + [a];
      |threads| == |starts'| && forall t :: 0 <= t < |starts'| ==> StartedBy(threads[t], starts'[t])
  {
    if a.Run? {
      MovesKeepClosure(s.mem, a.id, s.threads[a.id].name, s.threads[a.id].pc, a.good);
      assert StartedBy(s.threads[a.id], starts[a.id]);
    }
  }

  // ---------- the invariant ----------

  predicate HoldsRead(pc: Pc) {
    pc.AddFastRead? || pc.AddFastHit? || pc.AddFastMiss? || pc.GetRead? || pc.GetUnlock?
  }

  predicate HoldsWrite(pc: Pc) {
    match pc
    case AddRecheck | AddPresent | AddNewContext | AddCreate | AddCreateFailed | AddCreateUnlock => true
    case AddPutCluster | AddPutCancel | AddUnlock => true
    case FailCancel | FailCompare | FailDropCluster | FailDropCancel | FailUnlock => true
    case DelLookup | DelCancel(_) | DelDropCancel(_) | DelDropCluster(_) | DelUnlock => true
    case _ => false
  }

  /** The lock says who is inside, and a writer is alone. */
  ghost predicate LockInv(s: State) {
    && (s.writer.Some? ==> s.writer.value < |s.threads| && s.readers == {})
    && (forall t :: t in s.readers ==> t < |s.threads|)
    && (forall t :: 0 <= t < |s.threads| ==> (HoldsWrite(s.threads[t].pc) <==> s.writer == Some(t)))
    && (forall t :: 0 <= t < |s.threads| ==> (HoldsRead(s.threads[t].pc) <==> t in s.readers))
  }

  /** The activation has made its context and not yet returned. */
  predicate HasContext(pc: Pc) {
    BeforeEngage(pc) || pc.AddEngaging? || pc.FailLock? || pc.FailCancel? || pc.FailCompare?
    || pc.FailDropCluster? || pc.FailDropCancel? || pc.FailUnlock?
  }

  predicate BeforeEngage(pc: Pc) {
    pc.AddCreate? || pc.AddCreateFailed? || pc.AddCreateUnlock? || pc.AddPutCluster? || pc.AddPutCancel?
    || pc.AddUnlock? || pc.AddEngage?
  }

  ghost predicate ContextInv(s: State) {
    && s.mem.cancelled <= s.mem.created
    && s.mem.engaged <= s.mem.created
    && (forall t :: t in s.mem.created ==> t < |s.threads|)
    && (forall t :: 0 <= t < |s.threads| && !s.threads[t].pc.AddDone? ==>
          (HasContext(s.threads[t].pc) <==> t in s.mem.created))
    && (forall t :: 0 <= t < |s.threads| && BeforeEngage(s.threads[t].pc) ==> t !in s.mem.engaged)
    && (forall t :: 0 <= t < |s.threads| && HasCancelled(s.threads[t].pc) ==> t in s.mem.cancelled)
  }

  /** The activation has cancelled its own context after a failure. */
  predicate HasCancelled(pc: Pc) {
    pc.AddCreateUnlock? || pc.FailCompare? || pc.FailDropCluster? || pc.FailDropCancel? || pc.FailUnlock?
  }

  /** `t` made a context for name `n` that nobody has cancelled. */
  ghost predicate Live(s: State, n: Name, t: Id) {
    t in s.mem.created && t !in s.mem.cancelled && t < |s.threads| && s.threads[t].name == n
  }

  /** What the two maps hold at `n`, and which context for `n` is live. */
  ghost predicate At(s: State, n: Name, cluster: Option<Id>, cancel: Option<Id>, live: Option<Id>) {
    && Find(s.mem.clusters, n) == cluster
    && Find(s.mem.cancelFns, n) == cancel
    && (forall t: Id :: Live(s, n, t) <==> live == Some(t))
  }

  /** Both maps agree at `n` and the registered context is the one live context for `n`. */
  ghost predicate Settled(s: State, n: Name) {
    var owner := Find(s.mem.cancelFns, n);
    At(s, n, owner, owner, owner)
  }

  /** What holds at name `n` while the lock holder `w`, at `pc`, is working on it. */
  ghost predicate HolderInv(s: State, n: Name, w: Id, pc: Pc) {
    match pc
    case AddNewContext => At(s, n, None, None, None)
    case AddCreate | AddPutCluster | AddCreateFailed => At(s, n, None, None, Some(w))
    case AddPutCancel => At(s, n, Some(w), None, Some(w))
    case FailCompare => if Find(s.mem.clusters, n) == Some(w) then At(s, n, Some(w), Some(w), None) else Settled(s, n)
    case FailDropCluster => At(s, n, Some(w), Some(w), None)
    case FailDropCancel => At(s, n, None, Some(w), None)
    case DelCancel(r) => At(s, n, Some(r), Some(r), Some(r))
    case DelDropCancel(r) => At(s, n, Some(r), Some(r), None) && r in s.mem.cancelled
    case DelDropCluster(r) => At(s, n, Some(r), None, None)
    case _ => Settled(s, n)
  }

  ghost predicate Holder(s: State, n: Name) {
    s.writer.Some? && s.writer.value < |s.threads| && s.threads[s.writer.value].name == n
  }

  ghost predicate MapInv(s: State, n: Name) {
    if Holder(s, n)
    then HolderInv(s, n, s.writer.value, s.threads[s.writer.value].pc)
    else Settled(s, n)
  }

  ghost predicate Inv(s: State) {
    LockInv(s) && ContextInv(s) && forall n :: MapInv(s, n)
  }

  // ---------- every step keeps the invariant ----------

  lemma {:induction false} MovesAcrossTheLock(m: Memory, t: Id, n: Name, pc: Pc, good: bool)
    requires !Phase(pc).Returned?
    ensures var mv := NextMove(m, t, n, pc, good);
      && (mv.lock == Lock <==> !HoldsWrite(pc) && HoldsWrite(mv.pc))
      && (mv.lock == Unlock <==> HoldsWrite(pc) && !HoldsWrite(mv.pc))
      && (mv.lock == RLock <==> !HoldsRead(pc) && HoldsRead(mv.pc))
      && (mv.lock == RUnlock <==> HoldsRead(pc) && !HoldsRead(mv.pc))
  {
  }

  lemma {:induction false} LockInvStep(s: State, a: Action)
    requires LockInv(s) && Enabled(s, a)
    ensures LockInv(Step(s, a))
  {
    match a
    case Run(t, good) => MovesAcrossTheLock(s.mem, t, s.threads[t].name, s.threads[t].pc, good);
    case _ =>
  }

  predicate SelfCancels(pc: Pc) {
    pc.AddCreateFailed? || pc.FailCancel?
  }

  /** Which contexts a step makes, cancels and engages. */
  lemma {:induction false} MovesOverContexts(m: Memory, t: Id, n: Name, pc: Pc, good: bool)
    requires !Phase(pc).Returned?
    ensures var mv := NextMove(m, t, n, pc, good);
      && mv.mem.created == (if pc.AddNewContext? then m.created + {t} else m.created)
      && mv.mem.cancelled == (if SelfCancels(pc) then m.cancelled + {t}
                              else if pc.DelCancel? then m.cancelled + {pc.owner} else m.cancelled)
      && mv.mem.engaged == (if pc.AddEngage? then m.engaged + {t} else m.engaged)
      && (mv.pc.AddDone? || (HasContext(mv.pc) <==> pc.AddNewContext? || HasContext(pc)))
      && (BeforeEngage(mv.pc) ==> pc.AddNewContext? || (BeforeEngage(pc) && !pc.AddEngage?))
      && (SelfCancels(pc) || pc.AddEngage? ==> HasContext(pc))
      && (HasCancelled(mv.pc) ==> SelfCancels(pc) || HasCancelled(pc))
  {
  }

  lemma {:induction false} ContextInvStep(s: State, a: Action)
    requires Inv(s) && Enabled(s, a)
    ensures ContextInv(Step(s, a))
  {
    CreatedAsFarAsGot(s, a);
    if a.Run? {
      var n, pc := s.threads[a.id].name, s.threads[a.id].pc;
      MovesOverContexts(s.mem, a.id, n, pc, a.good);
      if pc.DelCancel? {
        DeleteCancelsLive(s, a.id);
      }
    }
  }

  lemma {:induction false} CreatedAsFarAsGot(s: State, a: Action)
    requires ContextInv(s) && Enabled(s, a)
    ensures var s' := Step(s, a);
      forall t :: 0 <= t < |s'.threads| && !s'.threads[t].pc.AddDone? ==> (HasContext(s'.threads[t].pc) <==> t in s'.mem.created)
  {
    if a.Run? {
      MovesOverContexts(s.mem, a.id, s.threads[a.id].name, s.threads[a.id].pc, a.good);
    }
  }

  lemma {:induction false} DeleteCancelsLive(s: State, t: Id)
    requires Inv(s) && t < |s.threads| && s.threads[t].pc.DelCancel?
    ensures Live(s, s.threads[t].name, s.threads[t].pc.owner)
  {
    assert MapInv(s, s.threads[t].name);
  }

  /** A step touches the maps at its own name only, and touches shared state only as the writer. */
  lemma {:induction false} MovesOverMaps(m: Memory, t: Id, n: Name, pc: Pc, good: bool, other: Name)
    requires !Phase(pc).Returned?
    ensures var mem := NextMove(m, t, n, pc, good).mem;
      && (other != n ==> Find(mem.clusters, other) == Find(m.clusters, other)
                         && Find(mem.cancelFns, other) == Find(m.cancelFns, other))
      && (!HoldsWrite(pc) ==> mem.clusters == m.clusters && mem.cancelFns == m.cancelFns)
  {
  }

  /** Nothing changes at names other than the running activation's. */
  lemma {:induction false} OtherNameKeeps(s: State, a: Action, n: Name)
    requires Inv(s) && Enabled(s, a)
    requires a.Run? ==> s.threads[a.id].name != n || !HoldsWrite(s.threads[a.id].pc)
    ensures forall c, f, l :: At(s, n, c, f, l) ==> At(Step(s, a), n, c, f, l)
    ensures s.mem.cancelled <= Step(s, a).mem.cancelled
  {
    var s' := Step(s, a);
    if a.Run? {
      var own, pc := s.threads[a.id].name, s.threads[a.id].pc;
      MovesOverMaps(s.mem, a.id, own, pc, a.good, n);
      MovesOverContexts(s.mem, a.id, own, pc, a.good);
      if pc.DelCancel? {
        DeleteCancelsLive(s, a.id);
      }
    }
    forall t: Id ensures Live(s', n, t) <==> Live(s, n, t) {
    }
  }

  lemma {:induction false} BystanderKeepsMapInv(s: State, a: Action, n: Name)
    requires Inv(s) && Enabled(s, a)
    requires a.Run? ==> s.threads[a.id].name != n || !HoldsWrite(s.threads[a.id].pc)
    ensures MapInv(Step(s, a), n)
  {
    OtherNameKeeps(s, a, n);
    assert MapInv(s, n);
    if a.Run? {
      HolderAfterStep(s, a, n);
    }
  }

  /** A step takes the lock at the start of a critical section only, and leaves another holder where it is. */
  lemma {:induction false} HolderAfterStep(s: State, a: Action, n: Name)
    requires LockInv(s) && Enabled(s, a) && a.Run?
    requires s.threads[a.id].name != n || !HoldsWrite(s.threads[a.id].pc)
    ensures var s' := Step(s, a);
      Holder(s', n) ==>
        if Holder(s, n) then s'.writer == s.writer && s'.threads[s.writer.value] == s.threads[s.writer.value]
        else var pc := s'.threads[s'.writer.value].pc; pc.AddRecheck? || pc.FailCancel? || pc.DelLookup?
    ensures !Holder(Step(s, a), n) ==> !Holder(s, n)
  {
    MovesAcrossTheLock(s.mem, a.id, s.threads[a.id].name, s.threads[a.id].pc, a.good);
    if MoveOf(s, a.id, a.good).lock.Lock? {
      LockTakers(s.mem, a.id, s.threads[a.id].name, s.threads[a.id].pc, a.good);
    }
  }

  lemma {:induction false} LockTakers(m: Memory, t: Id, n: Name, pc: Pc, good: bool)
    requires !Phase(pc).Returned? && NextMove(m, t, n, pc, good).lock.Lock?
    ensures var next := NextMove(m, t, n, pc, good).pc; next.AddRecheck? || next.FailCancel? || next.DelLookup?
  {
  }

  /** The step `a` is taken by the lock holder, working on its own name `n` in phase `phase`. */
  ghost predicate HolderRuns(s: State, a: Action, n: Name, phase: Phases) {
    && Inv(s) && Enabled(s, a) && a.Run?
    && s.threads[a.id].name == n && HoldsWrite(s.threads[a.id].pc) && Phase(s.threads[a.id].pc) == phase
  }

  lemma {:induction false} SlowKeepsMapInv(s: State, a: Action, n: Name)
    requires HolderRuns(s, a, n, Slow)
    ensures MapInv(Step(s, a), n)
  {
    assert MapInv(s, n);
    var s' := Step(s, a);
    assert s' == Step(s, a);
    forall t: Id ensures Live(s', n, t) <==>
        (if s.threads[a.id].pc.AddNewContext? && t == a.id then true
         else if s.threads[a.id].pc.AddCreateFailed? && t == a.id then false
         else Live(s, n, t)) {
    }
  }

  lemma {:induction false} EngageKeepsMapInv(s: State, a: Action, n: Name)
    requires HolderRuns(s, a, n, Engage)
    ensures MapInv(Step(s, a), n)
  {
    assert MapInv(s, n);
    var s' := Step(s, a);
    forall t: Id ensures Live(s', n, t) <==>
        (if s.threads[a.id].pc.FailCancel? && t == a.id then false else Live(s, n, t)) {
    }
  }

  lemma {:induction false} DeleteKeepsMapInv(s: State, a: Action, n: Name)
    requires HolderRuns(s, a, n, Delete)
    ensures MapInv(Step(s, a), n)
  {
    assert MapInv(s, n);
    var s' := Step(s, a);
    forall t: Id ensures Live(s', n, t) <==>
        (if s.threads[a.id].pc.DelCancel? && t == s.threads[a.id].pc.owner then false else Live(s, n, t)) {
    }
  }

  lemma {:induction false} InvStep(s: State, a: Action)
    requires Inv(s) && Enabled(s, a)
    ensures Inv(Step(s, a))
  {
    LockInvStep(s, a);
    ContextInvStep(s, a);
    forall n ensures MapInv(Step(s, a), n) {
      if a.Run? && s.threads[a.id].name == n && HoldsWrite(s.threads[a.id].pc) {
        match Phase(s.threads[a.id].pc)
        case Slow => SlowKeepsMapInv(s, a, n);
        case Engage => EngageKeepsMapInv(s, a, n);
        case Delete => DeleteKeepsMapInv(s, a, n);
        case _ => assert false;
      } else {
        BystanderKeepsMapInv(s, a, n);
      }
    }
  }
}
