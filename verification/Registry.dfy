/**
 The simple sequential object that the provider's two maps implement: a map
 from cluster names to the registration that currently owns the name.
 `Op` records one operation together with the answer its caller saw.
 */
module Registry {
  import opened Prelude

  type Name = string

  function RegisterIfAbsent<R>(m: map<Name, R>, n: Name, r: R): map<Name, R> {
    if n in m then m else m[n := r]
  }

  function Withdraw<R(==)>(m: map<Name, R>, n: Name, r: R): map<Name, R> {
    if Find(m, n) == Some(r) then m - {n} else m
  }

  function Disengage<R>(m: map<Name, R>, n: Name): map<Name, R> {
    m - {n}
  }

  /** Withdrawing a registration that was just made leaves the map as it was before. */
  lemma {:induction false} WithdrawUndoesRegister<R>(m: map<Name, R>, n: Name, r: R)
    requires n !in m
    ensures Withdraw(RegisterIfAbsent(m, n, r), n, r) == m
  {
    assert m[n := r] - {n} == m;
  }

  datatype Outcome = Present | Inserted | CreateFailed

  datatype Op<R> =
    | RegisterOp(who: R, name: Name, outcome: Outcome)
    | WithdrawOp(who: R, name: Name, removed: bool)
    | DisengageOp(who: R, name: Name, owner: Option<R>)
    | LookupOp(who: R, name: Name, found: Option<R>)

  /** The recorded answer is the one a single map would have given in state `m`. */
  ghost predicate Answers<R>(m: map<Name, R>, op: Op<R>) {
    match op
    case RegisterOp(_, n, outcome) => outcome.Present? <==> n in m
    case WithdrawOp(r, n, removed) => removed <==> Find(m, n) == Some(r)
    case DisengageOp(_, n, owner) => owner == Find(m, n)
    case LookupOp(_, n, found) => found == Find(m, n)
  }

  ghost function Effect<R>(m: map<Name, R>, op: Op<R>): map<Name, R> {
    match op
    case RegisterOp(r, n, Inserted) => RegisterIfAbsent(m, n, r)
    case RegisterOp(_, _, _) => m
    case WithdrawOp(r, n, _) => Withdraw(m, n, r)
    case DisengageOp(_, n, _) => Disengage(m, n)
    case LookupOp(_, _, _) => m
  }

  /** The map reached by performing a history one operation after the other. */
  ghost function Replay<R>(h: seq<Op<R>>): map<Name, R> {
    if h == [] then map[] else Effect(Replay(h[..|h| - 1]), h[|h| - 1])
  }

  /** Every operation of the history got a sequential map's answer. */
  ghost predicate LegalHistory<R>(h: seq<Op<R>>) {
    forall i :: 0 <= i < |h| ==> Answers(Replay(h[..i]), h[i])
  }

  lemma {:induction false} LegalHistoryExtends<R>(h: seq<Op<R>>, op: Op<R>)
    requires LegalHistory(h) && Answers(Replay(h), op)
    ensures LegalHistory(h + [op]) && Replay(h + [op]) == Effect(Replay(h), op)
  {
    var h' := h + [op];
    assert h'[..|h|] == h;
    forall i | 0 <= i < |h'| ensures Answers(Replay(h'[..i]), h'[i]) {
      if i < |h| {
        assert h'[..i] == h[..i];
      }
    }
  }
}
