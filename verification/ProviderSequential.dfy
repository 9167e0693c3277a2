/**
 An activation that has the provider to itself: it always returns, and its steps together do what the sequential closure
 does to the maps. This ties the interleaved model to the plain operations that `Providers.Provider` performs.
 */
module ProviderSequential {
  import opened Prelude
  import opened Registry
  import opened ProviderConcurrency
  import opened ProviderLinearization
  import opened ProviderSafety
  import opened ProviderProgress

  predicate Solo(run: seq<Action>, t: Id) {
    forall i :: 0 <= i < |run| ==> run[i].Run? && run[i].id == t
  }

  ghost predicate AllOthersReturned(s: State, t: Id) {
    t < |s.threads| && forall u: Id :: u < |s.threads| && u != t ==> Phase(s.threads[u].pc).Returned?
  }

  /** Whatever the environment answers at each step, an activation that is alone gets to its end. */
  lemma {:induction false} SoloReturns(s: State, t: Id, env: Pc -> bool) returns (run: seq<Action>)
    requires Reachable(s) && AllOthersReturned(s, t)
    ensures Solo(run, t) && Exec(s, run).Some? && AllReturned(Exec(s, run).value)
    decreases Rank(s.threads[t].pc)
  {
    if Phase(s.threads[t].pc).Returned? {
      return [];
    }
    LockIsMine(s, t);
    InsidersCanGoOn(s, t);
    var a := Run(t, env(s.threads[t].pc));
    assert Enabled(s, a);
    MovesLowerRank(s.mem, t, s.threads[t].name, s.threads[t].pc, a.good);
    ReachableStep(s, a);
    var rest := SoloReturns(Step(s, a), t, env);
    run := [a] + rest;
    assert run[1..] == rest;
  }

  lemma {:induction false} LockIsMine(s: State, t: Id)
    requires Reachable(s) && AllOthersReturned(s, t)
    ensures s.writer == Some(t) || t in s.readers || (s.writer.None? && s.readers == {})
  {
    ReachableInvariants(s);
    if s.writer.Some? {
      assert HoldsWrite(s.threads[s.writer.value].pc);
    } else if s.readers != {} {
      var u :| u in s.readers;
      assert HoldsRead(s.threads[u].pc);
    }
  }

  /** While `t` is alone, the history grows by operations of `t` only, and a Get leaves maps and contexts as they are. */
  lemma {:induction false} SoloHistory(s: State, run: seq<Action>, t: Id)
    requires Reachable(s) && Solo(run, t) && t < |s.threads| && Exec(s, run).Some?
    ensures var s' := Exec(s, run).value;
      && s.history <= s'.history
      && (forall i :: |s.history| <= i < |s'.history| ==> s'.history[i].who == t)
      && |s'.threads| == |s.threads| && s'.threads[t].name == s.threads[t].name
      && ClosureOf(s'.threads[t].pc) == ClosureOf(s.threads[t].pc)
      && (ClosureOf(s.threads[t].pc) == GetFunc ==> s'.mem == s.mem)
    decreases |run|
  {
    if run != [] {
      var n, pc, good := s.threads[t].name, s.threads[t].pc, run[0].good;
      ReachableInvariants(s);
      LoggedOperationIsAtomic(s, t, good);
      MovesKeepClosure(s.mem, t, n, pc, good);
      MovesKeepToTheirPart(s.mem, t, n, pc, good);
      ReachableStep(s, run[0]);
      SoloHistory(Step(s, run[0]), run[1..], t);
    }
  }

  lemma {:induction false} OpsOfOwnTail(h: seq<Op<Id>>, h': seq<Op<Id>>, t: Id)
    requires h <= h' && forall i :: |h| <= i < |h'| ==> h'[i].who == t
    ensures OpsOf(h', t) == OpsOf(h, t) + h'[|h|..]
  {
    if |h'| > |h| {
      var init := h'[..|h'| - 1];
      OpsOfOwnTail(h, init, t);
      assert h'[|h|..] == init[|h|..] + [h'[|h'| - 1]];
    } else {
      assert h == h';
    }
  }

  /** One more operation of a legal history gets the answer of the map so far and has its effect on it. */
  lemma {:induction false} LegalTail(h: seq<Op<Id>>, h': seq<Op<Id>>)
    requires LegalHistory(h') && h <= h' && |h| < |h'|
    ensures Answers(Replay(h), h'[|h|]) && Replay(h'[..|h| + 1]) == Effect(Replay(h), h'[|h|])
  {
    assert h'[..|h|] == h;
    assert h'[..|h| + 1][..|h|] == h;
  }

  /** A finished AddFunc's operations, if they are all that was added to a history. */
  lemma {:induction false} AddTail(h: seq<Op<Id>>, h': seq<Op<Id>>, rec: Record, t: Id, n: Name)
    requires LegalHistory(h') && h' == h + rec.ops && AddReturned(rec, t, n)
    ensures var m := Replay(h);
      && Replay(h') == (if n in m || rec.refused then m else m[n := t])
      && (n in m ==> !rec.refused && !rec.engaged)
  {
    LegalTail(h, h');
    if |rec.ops| == 1 {
      assert h'[..|h| + 1] == h';
    } else {
      LegalTail(h + [rec.ops[0]], h');
      assert h'[..|h| + 1] == h + [rec.ops[0]] && h'[..|h| + 2] == h';
      assert Replay(h)[n := t] - {n} == Replay(h) - {n};
    }
  }

  lemma {:induction false} DeleteTail(h: seq<Op<Id>>, h': seq<Op<Id>>, rec: Record, t: Id, n: Name)
    requires LegalHistory(h') && h' == h + rec.ops && DeleteReturned(rec, t, n)
    ensures Replay(h') == if rec.refused then Replay(h) else Replay(h) - {n}
  {
    if rec.refused {
      assert h' == h;
    } else {
      LegalTail(h, h');
      assert h'[..|h| + 1] == h';
    }
  }

  /** `s'` is where the activation started by `a` in the idle state `s` has returned, all by itself. */
  ghost predicate RanAlone(s: State, a: Action, run: seq<Action>, s': State) {
    && Reachable(s) && AllReturned(s) && !a.Run? && Solo(run, |s.threads|)
    && Exec(Step(s, a), run) == Some(s') && AllReturned(s')
  }

  /** Between the idle states `s` and `s'` one activation for `a` has come and gone. */
  ghost predicate OneMore(s: State, a: Action, s': State) {
    && |s'.threads| == |s.threads| + 1 && StartedBy(s'.threads[|s.threads|], a) && AllReturned(s')
    && s.history <= s'.history && forall i :: |s.history| <= i < |s'.history| ==> s'.history[i].who == |s.threads|
  }

  lemma {:induction false} AloneEnds(s: State, a: Action, run: seq<Action>, s': State)
    requires RanAlone(s, a, run, s')
    ensures Reachable(s) && Reachable(s') && OneMore(s, a, s')
    ensures a.StartGet? ==> s'.mem == s.mem
  {
    ReachableStep(s, a);
    assert StartedBy(Step(s, a).threads[|s.threads|], a);
    SoloHistory(Step(s, a), run, |s.threads|);
    ExecReaches(Step(s, a), run);
  }

  lemma {:induction false} ReachableRecord(s: State, t: Id)
    requires Reachable(s)
    ensures LegalHistory(s.history) && Replay(s.history) == s.mem.clusters && InProgress(s, t)
  {
    ReachableInvariants(s);
  }

  /** What the activation has recorded is all that happened between `s` and `s'`. */
  lemma {:induction false} AloneRecord(s: State, a: Action, s': State)
    requires Reachable(s) && Reachable(s') && OneMore(s, a, s')
    ensures LegalHistory(s'.history) && Replay(s'.history) == s'.mem.clusters && Replay(s.history) == s.mem.clusters
    ensures s'.history == s.history + OpsOf(s'.history, |s.threads|)
    ensures InProgress(s', |s.threads|)
  {
    NothingRecordedYet(s, |s.threads|);
    ReachableRecord(s', |s.threads|);
    OpsOfOwnTail(s.history, s'.history, |s.threads|);
  }

  lemma {:induction false} NothingRecordedYet(s: State, t: Id)
    requires Reachable(s) && t >= |s.threads|
    ensures Replay(s.history) == s.mem.clusters && OpsOf(s.history, t) == []
  {
    ReachableRecord(s, t);
  }

  lemma {:induction false} IdleMapsAgree(s: State)
    requires Reachable(s) && AllReturned(s)
    ensures s.mem.cancelFns == s.mem.clusters
  {
    LockIsFree(s);
    UnlockedProviderIsConsistent(s);
  }

  /** Alone, AddFunc inserts itself exactly if the name is absent and neither creation nor Engage is refused. */
  lemma {:induction false} AddAlone(s: State, n: Name, run: seq<Action>, s': State)
    requires RanAlone(s, StartAdd(n), run, s')
    ensures var t, m := |s.threads|, s.mem.clusters;
      && s'.mem.clusters == (if n in m || t in s'.refused then m else m[n := t])
      && s'.mem.cancelFns == s'.mem.clusters
      && (n in m ==> t !in s'.refused && t !in s'.mem.engaged)
  {
    AloneEnds(s, StartAdd(n), run, s');
    AddAloneEffect(s, n, s');
    IdleMapsAgree(s');
  }

  lemma {:induction false} AddAloneEffect(s: State, n: Name, s': State)
    requires Reachable(s) && Reachable(s') && OneMore(s, StartAdd(n), s')
    ensures var t, m := |s.threads|, s.mem.clusters;
      && s'.mem.clusters == (if n in m || t in s'.refused then m else m[n := t])
      && (n in m ==> t !in s'.refused && t !in s'.mem.engaged)
  {
    AloneRecord(s, StartAdd(n), s');
    assert s'.threads[|s.threads|].pc.AddDone?;
    AddTail(s.history, s'.history, RecordOf(s', |s.threads|), |s.threads|, n);
  }

  /** Alone, DeleteFunc drops its name exactly if the index is empty. */
  lemma {:induction false} DeleteAlone(s: State, n: Name, run: seq<Action>, s': State)
    requires RanAlone(s, StartDelete(n), run, s')
    ensures s'.mem.clusters == if |s.threads| in s'.refused then s.mem.clusters else s.mem.clusters - {n}
    ensures s'.mem.cancelFns == s'.mem.clusters
  {
    AloneEnds(s, StartDelete(n), run, s');
    DeleteAloneEffect(s, n, s');
    IdleMapsAgree(s');
  }

  lemma {:induction false} DeleteAloneEffect(s: State, n: Name, s': State)
    requires Reachable(s) && Reachable(s') && OneMore(s, StartDelete(n), s')
    ensures s'.mem.clusters == if |s.threads| in s'.refused then s.mem.clusters else s.mem.clusters - {n}
  {
    AloneRecord(s, StartDelete(n), s');
    assert s'.threads[|s.threads|].pc.DelDone?;
    DeleteTail(s.history, s'.history, RecordOf(s', |s.threads|), |s.threads|, n);
  }

  /** Alone, Get answers with what is registered under its name, if anything, and changes nothing. */
  lemma {:induction false} GetAlone(s: State, n: Name, run: seq<Action>, s': State)
    requires RanAlone(s, StartGet(n), run, s')
    ensures |s'.threads| == |s.threads| + 1 && s'.threads[|s.threads|].pc == GetDone(Find(s.mem.clusters, n))
    ensures s'.mem == s.mem
  {
    AloneEnds(s, StartGet(n), run, s');
    GetAloneAnswer(s, n, s');
  }

  lemma {:induction false} GetAloneAnswer(s: State, n: Name, s': State)
    requires Reachable(s) && Reachable(s') && OneMore(s, StartGet(n), s')
    ensures s'.threads[|s.threads|].pc == GetDone(Find(s.mem.clusters, n))
  {
    AloneRecord(s, StartGet(n), s');
    var pc := s'.threads[|s.threads|].pc;
    assert pc.GetDone?;
    assert OpsOf(s'.history, |s.threads|) == [LookupOp(|s.threads|, n, pc.answer)];
    LegalTail(s.history, s'.history);
  }

  /** Activations can be started at any time, and one that is started in an idle state can run to its end alone. */
  lemma {:induction false} CanRunAlone(s: State, a: Action, env: Pc -> bool) returns (run: seq<Action>, s': State)
    requires Reachable(s) && AllReturned(s) && !a.Run?
    ensures Enabled(s, a) && RanAlone(s, a, run, s')
  {
    ReachableStep(s, a);
    run := SoloReturns(Step(s, a), |s.threads|, env);
    s' := Exec(Step(s, a), run).value;
  }
}
