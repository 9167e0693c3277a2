/**
 Every interleaving of the provider's closures is a history of the sequential
 map in `Registry`, with each operation taking effect at one of its own steps.
 */
module ProviderLinearization {
  import opened Prelude
  import opened Registry
  import opened ProviderConcurrency

  /** The operations of one activation, in order. */
  ghost function OpsOf(h: seq<Op<Id>>, t: Id): seq<Op<Id>> {
    if h == [] then []
    else OpsOf(h[..|h| - 1], t) + (if h[|h| - 1].who == t then [h[|h| - 1]] else [])
  }

  lemma {:induction false} OpsOfAppend(h: seq<Op<Id>>, op: Op<Id>, t: Id)
    ensures OpsOf(h + [op], t) == OpsOf(h, t) + (if op.who == t then [op] else [])
  {
    assert (h + [op])[..|h|] == h;
  }

  /** What the records say of one activation: its operations, whether it was refused, whether it called Engage. */
  datatype Record = Record(ops: seq<Op<Id>>, refused: bool, engaged: bool)

  ghost function RecordOf(s: State, t: Id): Record {
    Record(OpsOf(s.history, t), t in s.refused, t in s.mem.engaged)
  }

  /** An activation at `pc` has done what it should have done by then, and has been answered accordingly. */
  ghost predicate Progress(rec: Record, t: Id, n: Name, pc: Pc) {
    match pc
    case AddFastHit | AddPresent => rec == Record([RegisterOp(t, n, Present)], false, false)
    case AddCreateFailed | AddCreateUnlock => rec == Record([RegisterOp(t, n, CreateFailed)], true, false)
    case AddPutCancel | AddUnlock | AddEngage => rec == Record([RegisterOp(t, n, Inserted)], false, false)
    case AddEngaging => rec == Record([RegisterOp(t, n, Inserted)], false, true)
    case FailLock | FailCancel | FailCompare | FailDropCluster => rec == Record([RegisterOp(t, n, Inserted)], true, true)
    case FailDropCancel => rec == Record([RegisterOp(t, n, Inserted), WithdrawOp(t, n, true)], true, true)
    case FailUnlock => exists b: bool :: rec == Record([RegisterOp(t, n, Inserted), WithdrawOp(t, n, b)], true, true)
    case AddDone => AddReturned(rec, t, n)
    case DelUnlock => exists r :: rec == Record([DisengageOp(t, n, r)], false, false)
    case DelDone => DeleteReturned(rec, t, n)
    case GetUnlock(found) => rec == Record([LookupOp(t, n, found)], false, false)
    case GetDone(answer) => rec == Record([LookupOp(t, n, answer)], false, false)
    case _ => rec == Record([], false, false)
  }

  /**
   A finished AddFunc found the name taken, or registered and engaged it, or was refused: then it could not create
   the cluster, or it withdrew what it had registered because Engage had failed.
   */
  ghost predicate AddReturned(rec: Record, t: Id, n: Name) {
    if !rec.refused then
      || rec == Record([RegisterOp(t, n, Present)], false, false)
      || rec == Record([RegisterOp(t, n, Inserted)], false, true)
    else
      || rec == Record([RegisterOp(t, n, CreateFailed)], true, false)
      || exists b: bool :: rec == Record([RegisterOp(t, n, Inserted), WithdrawOp(t, n, b)], true, true)
  }

  /** A finished DeleteFunc disengaged the name, unless the index was not empty: then it did nothing. */
  ghost predicate DeleteReturned(rec: Record, t: Id, n: Name) {
    if rec.refused then rec == Record([], true, false)
    else exists r :: rec == Record([DisengageOp(t, n, r)], false, false)
  }

  /** The history is the sequential map's, and the sequential map is `clusters`. */
  ghost predicate Linear(s: State) {
    LegalHistory(s.history) && Replay(s.history) == s.mem.clusters
  }

  ghost predicate InProgress(s: State, t: Id) {
    if t < |s.threads| then Progress(RecordOf(s, t), t, s.threads[t].name, s.threads[t].pc)
    else RecordOf(s, t) == Record([], false, false)
  }

  /** What Get has read stays true until it unlocks. */
  ghost predicate ReadsStand(s: State) {
    forall t :: 0 <= t < |s.threads| && s.threads[t].pc.GetUnlock? ==>
      s.threads[t].pc.found == Find(s.mem.clusters, s.threads[t].name)
  }

  ghost predicate HistoryInv(s: State) {
    && Linear(s)
    && ReadsStand(s)
    && (forall t: Id :: InProgress(s, t))
    && (forall t: Id :: FailureCancels(s, t))
  }

  /** A refused activation that has returned has cancelled its context. */
  ghost predicate FailureCancels(s: State, t: Id) {
    t < |s.threads| && s.threads[t].pc.AddDone? && t in s.refused ==> t in s.mem.cancelled
  }

  /** The operation a move logs, if any, is what the sequential map does to `clusters` at that moment. */
  ghost predicate ActsAtomically(m: Memory, t: Id, mv: Move) {
    match mv.log
    case None => mv.mem.clusters == m.clusters
    case Some(op) => op.who == t && Answers(m.clusters, op) && Effect(m.clusters, op) == mv.mem.clusters
  }

  lemma {:induction false} SlowActsAtomically(s: State, t: Id, good: bool)
    requires Inv(s) && Enabled(s, Run(t, good)) && Phase(s.threads[t].pc).Slow?
    ensures ActsAtomically(s.mem, t, SlowMove(s.mem, t, s.threads[t].name, s.threads[t].pc, good))
  {
    assert MapInv(s, s.threads[t].name);
  }

  lemma {:induction false} EngageActsAtomically(s: State, t: Id, good: bool)
    requires Inv(s) && Enabled(s, Run(t, good)) && Phase(s.threads[t].pc).Engage?
    ensures ActsAtomically(s.mem, t, EngageMove(s.mem, t, s.threads[t].name, s.threads[t].pc, good))
  {
    assert MapInv(s, s.threads[t].name);
  }

  lemma {:induction false} DeleteActsAtomically(s: State, t: Id, good: bool)
    requires Inv(s) && Enabled(s, Run(t, good)) && Phase(s.threads[t].pc).Delete?
    ensures ActsAtomically(s.mem, t, DeleteMove(s.mem, t, s.threads[t].name, s.threads[t].pc, good))
  {
    assert MapInv(s, s.threads[t].name);
  }

  lemma {:induction false} LoggedOperationIsAtomic(s: State, t: Id, good: bool)
    requires Inv(s) && Enabled(s, Run(t, good))
    ensures ActsAtomically(s.mem, t, MoveOf(s, t, good))
  {
    match Phase(s.threads[t].pc)
    case Slow => SlowActsAtomically(s, t, good);
    case Engage => EngageActsAtomically(s, t, good);
    case Delete => DeleteActsAtomically(s, t, good);
    case _ =>
  }

  /** The record after a step from `pc` that logs `log`. */
  ghost function Recorded(rec: Record, pc: Pc, good: bool, log: Option<Op<Id>>): Record {
    Record(if log.Some? then rec.ops + [log.value] else rec.ops,
           rec.refused || (Asks(pc) && !good), rec.engaged || pc.AddEngage?)
  }

  lemma {:induction false} SlowProgress(m: Memory, t: Id, n: Name, pc: Pc, good: bool, rec: Record)
    requires Phase(pc).Slow? && Progress(rec, t, n, pc)
    ensures var mv := SlowMove(m, t, n, pc, good); Progress(Recorded(rec, pc, good, mv.log), t, n, mv.pc)
  {
  }

  lemma {:induction false} EngageProgress(m: Memory, t: Id, n: Name, pc: Pc, good: bool, rec: Record)
    requires Phase(pc).Engage? && Progress(rec, t, n, pc)
    ensures var mv := EngageMove(m, t, n, pc, good); Progress(Recorded(rec, pc, good, mv.log), t, n, mv.pc)
  {
  }

  lemma {:induction false} ProgressStep(m: Memory, t: Id, n: Name, pc: Pc, good: bool, rec: Record)
    requires !Phase(pc).Returned? && Progress(rec, t, n, pc)
    ensures var mv := NextMove(m, t, n, pc, good); Progress(Recorded(rec, pc, good, mv.log), t, n, mv.pc)
  {
    match Phase(pc)
    case Slow => SlowProgress(m, t, n, pc, good, rec);
    case Engage => EngageProgress(m, t, n, pc, good, rec);
    case _ =>
  }

  lemma {:induction false} LinearStep(s: State, a: Action)
    requires Inv(s) && Linear(s) && Enabled(s, a)
    ensures Linear(Step(s, a))
  {
    if a.Run? {
      LoggedOperationIsAtomic(s, a.id, a.good);
      var mv := MoveOf(s, a.id, a.good);
      if mv.log.Some? {
        LegalHistoryExtends(s.history, mv.log.value);
      }
    }
  }

  lemma {:induction false} OpsOfStep(s: State, a: Action, t: Id)
    requires Inv(s) && Enabled(s, a)
    ensures OpsOf(Step(s, a).history, t) == OpsOf(s.history, t) +
      (if a.Run? && a.id == t && MoveOf(s, t, a.good).log.Some? then [MoveOf(s, t, a.good).log.value] else [])
  {
    if a.Run? {
      LoggedOperationIsAtomic(s, a.id, a.good);
      var mv := MoveOf(s, a.id, a.good);
      if mv.log.Some? {
        OpsOfAppend(s.history, mv.log.value, t);
      }
    }
  }

  lemma {:induction false} RecordStep(s: State, a: Action, t: Id)
    requires Inv(s) && Enabled(s, a)
    ensures RecordOf(Step(s, a), t) ==
      if a.Run? && a.id == t then Recorded(RecordOf(s, t), s.threads[t].pc, a.good, MoveOf(s, t, a.good).log)
      else RecordOf(s, t)
  {
    OpsOfStep(s, a, t);
    if a.Run? {
      MovesOverContexts(s.mem, a.id, s.threads[a.id].name, s.threads[a.id].pc, a.good);
    }
  }

  lemma {:induction false} InProgressStep(s: State, a: Action, t: Id)
    requires Inv(s) && InProgress(s, t) && Enabled(s, a)
    ensures InProgress(Step(s, a), t)
  {
    RecordStep(s, a, t);
    if a.Run? && a.id == t {
      ProgressStep(s.mem, t, s.threads[t].name, s.threads[t].pc, a.good, RecordOf(s, t));
    }
  }

  lemma {:induction false} ReadsStandStep(s: State, a: Action)
    requires Inv(s) && ReadsStand(s) && Enabled(s, a)
    ensures ReadsStand(Step(s, a))
  {
    if a.Run? {
      var n, pc := s.threads[a.id].name, s.threads[a.id].pc;
      MovesOverMaps(s.mem, a.id, n, pc, a.good, n);
      if MoveOf(s, a.id, a.good).pc.GetUnlock? {
        OnlyGetReads(s.mem, a.id, n, pc, a.good);
      }
      forall t | 0 <= t < |s.threads| && t != a.id && s.threads[t].pc.GetUnlock?
        ensures Step(s, a).mem.clusters == s.mem.clusters
      {
        assert HoldsRead(s.threads[t].pc);
      }
    }
  }

  lemma {:induction false} OnlyGetReads(m: Memory, t: Id, n: Name, pc: Pc, good: bool)
    requires !Phase(pc).Returned? && NextMove(m, t, n, pc, good).pc.GetUnlock?
    ensures pc.GetRead?
  {
  }

  lemma {:induction false} FailureCancelsStep(s: State, a: Action, t: Id)
    requires Inv(s) && HistoryInv(s) && Enabled(s, a)
    ensures FailureCancels(Step(s, a), t)
  {
    assert FailureCancels(s, t) && InProgress(s, t);
    if a.Run? {
      MovesOverContexts(s.mem, a.id, s.threads[a.id].name, s.threads[a.id].pc, a.good);
      if a.id == t && MoveOf(s, t, a.good).pc.AddDone? {
        ReturnAfterFailure(s.mem, t, s.threads[t].name, s.threads[t].pc, a.good, RecordOf(s, t));
      }
    }
  }

  /** Whoever returns from AddFunc after a refusal, this step's included, has cancelled its context. */
  lemma {:induction false} ReturnAfterFailure(m: Memory, t: Id, n: Name, pc: Pc, good: bool, rec: Record)
    requires !Phase(pc).Returned? && Progress(rec, t, n, pc)
    requires NextMove(m, t, n, pc, good).pc.AddDone?
    ensures rec.refused || (Asks(pc) && !good) ==> HasCancelled(pc)
  {
  }

  lemma {:induction false} HistoryInvStep(s: State, a: Action)
    requires Inv(s) && HistoryInv(s) && Enabled(s, a)
    ensures HistoryInv(Step(s, a))
  {
    LinearStep(s, a);
    ReadsStandStep(s, a);
    forall t: Id ensures InProgress(Step(s, a), t) {
      InProgressStep(s, a, t);
    }
    forall t: Id ensures FailureCancels(Step(s, a), t) {
      FailureCancelsStep(s, a, t);
    }
  }

  lemma {:induction false} ExecKeepsInvariants(s: State, run: seq<Action>)
    requires Inv(s) && HistoryInv(s) && Exec(s, run).Some?
    ensures Inv(Exec(s, run).value) && HistoryInv(Exec(s, run).value)
    decreases |run|
  {
    if run != [] {
      InvStep(s, run[0]);
      HistoryInvStep(s, run[0]);
      ExecKeepsInvariants(Step(s, run[0]), run[1..]);
    }
  }

  lemma {:induction false} ReachableInvariants(s: State)
    requires Reachable(s)
    ensures Inv(s) && HistoryInv(s)
  {
    var run :| Exec(INITIAL, run) == Some(s);
    assert Inv(INITIAL) && HistoryInv(INITIAL);
    ExecKeepsInvariants(INITIAL, run);
  }
}
