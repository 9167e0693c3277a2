/**
 The provider fed by its informer: a store of objects, a first-in first-out
 queue that every store change extends in the same step, and one handler that
 takes events off the queue. DeleteFunc asks the index of the store, which is
 ahead of the event it is handling.
 */
module ProviderConvergence {
  import opened Prelude
  import opened Registry
  import opened Providers

  datatype ObjectKey = ObjectKey(cluster: Name, namespace: string, name: string)

  datatype Event = Added(key: ObjectKey) | Updated(key: ObjectKey) | Deleted(key: ObjectKey)

  /** `told` is what the handled events add up to; `attempts` holds the outcome of each name's latest registration attempt. */
  datatype World = World(
    store: set<ObjectKey>,
    queue: seq<Event>,
    registered: set<Name>,
    told: set<ObjectKey>,
    attempts: map<Name, bool>)

  /** `created` and `engages` are what the environment decides, should AddFunc get that far. */
  datatype Action = Put(key: ObjectKey) | Remove(key: ObjectKey) | Handle(created: bool, engages: bool)

  const EMPTY := World({}, [], {}, {}, map[])

  predicate HasObject(store: set<ObjectKey>, n: Name) {
    exists k | k in store :: k.cluster == n
  }

  /** What the cluster index answers; `indexed` says whether the informer carries that index at all. */
  function IndexAnswer(indexed: bool, store: set<ObjectKey>, n: Name): Option<bool> {
    if indexed then Some(!HasObject(store, n)) else None
  }

  predicate Enabled(w: World, a: Action) {
    match a
    case Put(_) => true
    case Remove(k) => k in w.store
    case Handle(_, _) => w.queue != []
  }

  function Tell(told: set<ObjectKey>, e: Event): set<ObjectKey> {
    match e
    case Added(k) => told + {k}
    case Updated(_) => told
    case Deleted(k) => told - {k}
  }

  function HandleAdd(w: World, n: Name, created: bool, engages: bool): World {
    if n in w.registered then w
    else w.(registered := if created && engages then w.registered + {n} else w.registered,
            attempts := w.attempts[n := created && engages])
  }

  function HandleDelete(w: World, indexed: bool, n: Name): World {
    if IndexAnswer(indexed, w.store, n) == Some(true) then w.(registered := w.registered - {n}) else w
  }

  function Step(indexed: bool, w: World, a: Action): World
    requires Enabled(w, a)
  {
    match a
    case Put(k) => w.(store := w.store + {k}, queue := w.queue + [if k in w.store then Updated(k) else Added(k)])
    case Remove(k) => w.(store := w.store - {k}, queue := w.queue + [Deleted(k)])
    case Handle(created, engages) =>
      var e := w.queue[0];
      var w' := w.(queue := w.queue[1..], told := Tell(w.told, e));
      match e
      case Added(k) => HandleAdd(w', k.cluster, created, engages)
      case Updated(_) => w'
      case Deleted(k) => HandleDelete(w', indexed, k.cluster)
  }

  function Exec(indexed: bool, w: World, run: seq<Action>): Option<World>
    decreases |run|
  {
    if run == [] then Some(w)
    else if Enabled(w, run[0]) then Exec(indexed, Step(indexed, w, run[0]), run[1..])
    else None
  }

  ghost predicate Reachable(indexed: bool, w: World) {
    exists run :: Exec(indexed, EMPTY, run) == Some(w)
  }

  // ---------- the invariant ----------

  /** The queued events lead from what the handler has been told to what is stored. */
  ghost predicate LeadsTo(told: set<ObjectKey>, queue: seq<Event>, store: set<ObjectKey>)
    decreases |queue|
  {
    if queue == [] then told == store
    else LeadsTo(Tell(told, queue[0]), queue[1..], store)
  }

  /** A registered name has an object or a Deleted event still to come, and its latest attempt succeeded. */
  ghost predicate RegisteredInv(w: World, n: Name) {
    n in w.registered ==>
      && n in w.attempts && w.attempts[n]
      && (HasObject(w.store, n) || exists k :: Deleted(k) in w.queue && k.cluster == n)
  }

  /** A stored object's name is registered, has an Added event still to come, or failed its latest attempt. */
  ghost predicate StoredInv(w: World, n: Name) {
    HasObject(w.store, n) ==>
      || n in w.registered
      || (exists k :: Added(k) in w.queue && k.cluster == n)
      || (n in w.attempts && !w.attempts[n])
  }

  ghost predicate Inv(w: World) {
    LeadsTo(w.told, w.queue, w.store) && forall n :: RegisteredInv(w, n) && StoredInv(w, n)
  }

  lemma {:induction false} LeadsToAppend(told: set<ObjectKey>, queue: seq<Event>, store: set<ObjectKey>, e: Event)
    requires LeadsTo(told, queue, store)
    ensures LeadsTo(told, queue + [e], Tell(store, e))
    decreases |queue|
  {
    if queue != [] {
      LeadsToAppend(Tell(told, queue[0]), queue[1..], store, e);
      assert (queue + [e])[1..] == queue[1..] + [e];
    }
  }

  /** An object the handler knows of that is no longer stored has its Deleted event in the queue. */
  lemma {:induction false} StaleObjectHasPendingDelete(told: set<ObjectKey>, queue: seq<Event>, store: set<ObjectKey>, k: ObjectKey)
    requires LeadsTo(told, queue, store) && k in told && k !in store
    ensures Deleted(k) in queue
    decreases |queue|
  {
    if queue[0] != Deleted(k) {
      StaleObjectHasPendingDelete(Tell(told, queue[0]), queue[1..], store, k);
    }
  }

  lemma {:induction false} ChangeKeepsInv(w: World, a: Action)
    requires Inv(w) && Enabled(w, a) && !a.Handle?
    ensures Inv(Step(true, w, a))
  {
    var w' := Step(true, w, a);
    var e := w'.queue[|w.queue|];
    assert w'.queue == w.queue + [e] && w'.store == Tell(w.store, e);
    LeadsToAppend(w.told, w.queue, w.store, e);
    forall n ensures RegisteredInv(w', n) && StoredInv(w', n) {
      assert RegisteredInv(w, n) && StoredInv(w, n);
      assert forall x | x in w.queue :: x in w'.queue;
      assert e in w'.queue;
    }
  }

  lemma {:induction false} HandleKeepsInv(w: World, a: Action)
    requires Inv(w) && Enabled(w, a) && a.Handle?
    ensures Inv(Step(true, w, a))
  {
    var w' := Step(true, w, a);
    var e := w.queue[0];
    assert w.queue == [e] + w'.queue;
    forall n ensures RegisteredInv(w', n) && StoredInv(w', n) {
      assert RegisteredInv(w, n) && StoredInv(w, n);
      assert forall x | x in w.queue :: x == e || x in w'.queue;
      if e.Added? && e.key.cluster == n && !HasObject(w'.store, n) {
        StaleObjectHasPendingDelete(w'.told, w'.queue, w'.store, e.key);
      }
    }
  }

  lemma {:induction false} ExecKeepsInv(w: World, run: seq<Action>)
    requires Inv(w) && Exec(true, w, run).Some?
    ensures Inv(Exec(true, w, run).value)
    decreases |run|
  {
    if run != [] {
      if run[0].Handle? {
        HandleKeepsInv(w, run[0]);
      } else {
        ChangeKeepsInv(w, run[0]);
      }
      ExecKeepsInv(Step(true, w, run[0]), run[1..]);
    }
  }

  // ---------- main results ----------

  /**
   Once the queue has drained, the registered names are exactly those that have a stored object and whose latest
   registration attempt did not fail; so nothing is registered without an object.
   */
  lemma {:induction false} DrainedProviderHasConverged(w: World, n: Name)
    requires Reachable(true, w) && w.queue == []
    ensures n in w.registered <==> HasObject(w.store, n) && n in w.attempts && w.attempts[n]
  {
    var run :| Exec(true, EMPTY, run) == Some(w);
    ExecKeepsInv(EMPTY, run);
    assert RegisteredInv(w, n) && StoredInv(w, n);
  }

  predicate NeverFails(run: seq<Action>) {
    forall i :: 0 <= i < |run| && run[i].Handle? ==> run[i].created && run[i].engages
  }

  lemma {:induction false} AttemptsSucceed(indexed: bool, w: World, run: seq<Action>)
    requires NeverFails(run) && Exec(indexed, w, run).Some?
    requires forall n :: n in w.attempts ==> w.attempts[n]
    ensures var w' := Exec(indexed, w, run).value; forall n :: n in w'.attempts ==> w'.attempts[n]
    decreases |run|
  {
    if run != [] {
      assert forall i :: 0 <= i < |run[1..]| ==> run[1..][i] == run[i + 1];
      AttemptsSucceed(indexed, Step(indexed, w, run[0]), run[1..]);
    }
  }

  /** Without failures the drained provider has registered exactly the clusters that have an object. */
  lemma {:induction false} DrainedProviderMatchesStore(run: seq<Action>, n: Name)
    requires NeverFails(run) && Exec(true, EMPTY, run).Some? && Exec(true, EMPTY, run).value.queue == []
    ensures var w := Exec(true, EMPTY, run).value; n in w.registered <==> HasObject(w.store, n)
  {
    var w := Exec(true, EMPTY, run).value;
    assert Reachable(true, w);
    DrainedProviderHasConverged(w, n);
    AttemptsSucceed(true, EMPTY, run);
    ExecKeepsInv(EMPTY, run);
    assert StoredInv(w, n);
  }

  /**
   A name is registered only by handling an Added event of the name without failures, and dropped only by handling a
   Deleted event of the name when the index is there and shows no object left; updates change nothing.
   */
  lemma {:induction false} RegistrationChangesIff(indexed: bool, w: World, created: bool, engages: bool, n: Name)
    requires w.queue != []
    ensures var w', e := Step(indexed, w, Handle(created, engages)), w.queue[0];
      && (n in w'.registered && n !in w.registered <==>
            n !in w.registered && e.Added? && e.key.cluster == n && created && engages)
      && (n in w.registered && n !in w'.registered <==>
            n in w.registered && e.Deleted? && e.key.cluster == n && indexed && !exists k :: k in w.store && k.cluster == n)
      && w'.store == w.store && w'.queue == w.queue[1..]
  {
  }

  /** With failures it can miss one: nothing retries a failed attempt, also when the object is updated later. */
  lemma {:induction false} FailedAttemptIsNotRetried(k: ObjectKey)
    ensures var run := [Put(k), Handle(false, true), Put(k), Handle(true, true)];
      && Exec(true, EMPTY, run).Some?
      && var w := Exec(true, EMPTY, run).value;
      w.queue == [] && HasObject(w.store, k.cluster) && k.cluster !in w.registered
  {
    var run := [Put(k), Handle(false, true), Put(k), Handle(true, true)];
    var w1 := Step(true, EMPTY, run[0]);
    assert w1.queue == [Added(k)];
    var w2 := Step(true, w1, run[1]);
    var w3 := Step(true, w2, run[2]);
    assert w3.queue == [Updated(k)];
    var w4 := Step(true, w3, run[3]);
    assert Exec(true, w4, run[4..]) == Some(w4);
    assert run[3..][1..] == run[4..] && run[2..][1..] == run[3..] && run[1..][1..] == run[2..];
    assert Exec(true, w3, run[3..]) == Some(w4);
    assert Exec(true, w2, run[2..]) == Some(w4);
    assert Exec(true, w1, run[1..]) == Some(w4);
    assert Exec(true, EMPTY, run) == Some(w4);
    assert k in w4.store;
  }

  ghost predicate DrainsWithoutStaleNames(indexed: bool) {
    forall w, n :: Reachable(indexed, w) && w.queue == [] && n in w.registered ==> HasObject(w.store, n)
  }

  /** DeleteFunc gives up when the index lookup fails, so stale names go away if and only if the index is there. */
  lemma {:induction false} NoStaleNamesIffIndexed(indexed: bool)
    ensures DrainsWithoutStaleNames(indexed) <==> indexed
  {
    if indexed {
      forall w, n | Reachable(indexed, w) && w.queue == [] && n in w.registered ensures HasObject(w.store, n) {
        DrainedProviderHasConverged(w, n);
      }
    } else {
      var k := ObjectKey("c", "", "o");
      var run := [Put(k), Handle(true, true), Remove(k), Handle(true, true)];
      var w1 := Step(false, EMPTY, run[0]);
      var w2 := Step(false, w1, run[1]);
      var w3 := Step(false, w2, run[2]);
      var w4 := Step(false, w3, run[3]);
      assert Exec(false, w4, run[4..]) == Some(w4);
      assert run[3..][1..] == run[4..] && run[2..][1..] == run[3..] && run[1..][1..] == run[2..];
      assert Exec(false, w3, run[3..]) == Some(w4);
      assert Exec(false, w2, run[2..]) == Some(w4);
      assert Exec(false, w1, run[1..]) == Some(w4);
      assert Exec(false, EMPTY, run) == Some(w4);
      assert "c" in w4.registered && !HasObject(w4.store, "c");
    }
  }

  /** When the store stops changing, as many handler turns as there are events drain the queue. */
  lemma {:induction false} QuietStoreDrains(indexed: bool, w: World, turns: seq<Action>)
    requires |turns| == |w.queue| && forall i :: 0 <= i < |turns| ==> turns[i].Handle?
    ensures Exec(indexed, w, turns).Some?
    ensures var w' := Exec(indexed, w, turns).value; w'.queue == [] && w'.store == w.store
    decreases |turns|
  {
    if turns != [] {
      QuietStoreDrains(indexed, Step(indexed, w, turns[0]), turns[1..]);
    }
  }

  /** The provider object, driven through any run, has registered exactly what the model says. */
  method Drive(indexed: bool, run: seq<Action>) returns (p: Provider, ok: bool, w: World)
    ensures fresh(p) && p.Valid()
    ensures ok <==> Exec(indexed, EMPTY, run).Some?
    ensures ok ==> Exec(indexed, EMPTY, run) == Some(w) && p.clusters.Keys == w.registered
    ensures ok && indexed && w.queue == [] ==> forall n :: n in p.clusters ==> HasObject(w.store, n)
  {
    p := new Provider();
    w := EMPTY;
    ok := true;
    var i := 0;
    while i < |run| && ok
      invariant 0 <= i <= |run|
      invariant p.Valid() && fresh(p) && fresh(p.contexts)
      invariant ok ==> Exec(indexed, EMPTY, run) == Exec(indexed, w, run[i..]) && p.clusters.Keys == w.registered
      invariant !ok ==> Exec(indexed, EMPTY, run).None?
    {
      var a := run[i];
      assert run[i..][0] == a && run[i..][1..] == run[i + 1..];
      if !Enabled(w, a) {
        ok := false;
      } else {
        match a {
          case Handle(created, engages) =>
            match w.queue[0] {
              case Added(k) => p.AddFunc(k.cluster, created, engages);
              case Deleted(k) => p.DeleteFunc(k.cluster, IndexAnswer(indexed, w.store, k.cluster));
              case Updated(_) =>
            }
          case _ =>
        }
        w := Step(indexed, w, a);
      }
      i := i + 1;
    }
    if ok && indexed && w.queue == [] {
      assert Reachable(true, w);
      forall n | n in p.clusters ensures HasObject(w.store, n) {
        DrainedProviderHasConverged(w, n);
      }
    }
  }
}
