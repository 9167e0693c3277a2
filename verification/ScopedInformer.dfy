/**
 The scoped informer: each event of the cluster-spanning stream is forwarded to
 a scoped handler or not, by the cluster of the object it carries. Both
 registration methods install the same three closures.
 */
module ScopedInforming {
  import opened Prelude
  import opened Keys
  import opened Objects
  import opened Queries
  import opened QueryProperties

  datatype Event =
    | OnAdd(obj: Value, isInInitialList: bool)
    | OnUpdate(prior: Value, obj: Value)
    | OnDelete(obj: Value)
    | OnTombstone(key: string, obj: Value)

  /** What the closures pass on to the handler of one cluster. */
  function Forward(cluster: string, e: Event): seq<Event> {
    match e
    case OnAdd(obj, _) => if ClusterOf(obj) == cluster then [e] else []
    case OnUpdate(_, obj) => if ClusterOf(obj) == cluster then [e] else []
    case OnDelete(obj) => if ClusterOf(obj) == cluster then [e] else []
    case OnTombstone(_, obj) => if ClusterOf(obj) == cluster then [e] else []
  }

  function Project(cluster: string, es: seq<Event>): seq<Event> {
    if es == [] then [] else Project(cluster, es[..|es| - 1]) + Forward(cluster, es[|es| - 1])
  }

  /** The state a handler keeps up to date: the objects it has been told of, by store key. */
  function Apply(st: Store, e: Event): Store {
    match e
    case OnAdd(obj, _) => st[StoreKey(true, obj) := obj]
    case OnUpdate(prior, obj) => (st - {StoreKey(true, prior)})[StoreKey(true, obj) := obj]
    case OnDelete(obj) => st - {StoreKey(true, obj)}
    case OnTombstone(key, _) => st - {key}
  }

  function Replay(es: seq<Event>): Store {
    if es == [] then map[] else Apply(Replay(es[..|es| - 1]), es[|es| - 1])
  }

  predicate LegalStream(es: seq<Event>) {
    forall i :: 0 <= i < |es| ==> LegalObject(es[i].obj) && (es[i].OnUpdate? ==> LegalObject(es[i].prior))
  }

  /** The event removes an object of a cluster whose scoped handler is not told. */
  predicate Leaks(st: Store, e: Event) {
    match e
    case OnUpdate(prior, obj) => StoreKey(true, prior) in st && ClusterOf(prior) != ClusterOf(obj)
    case OnTombstone(key, obj) => key in st && ClusterOf(st[key]) != ClusterOf(obj)
    case _ => false
  }

  ghost predicate Proper(st: Store) {
    KeyedByCluster(st) && LegalStore(st)
  }

  lemma {:induction false} ReplayIsProper(es: seq<Event>)
    requires LegalStream(es)
    ensures Proper(Replay(es))
  {
    if es != [] {
      ReplayIsProper(es[..|es| - 1]);
    }
  }

  /** What a scoped handler makes of the one event. */
  function ApplyForwarded(st: Store, cluster: string, e: Event): Store {
    if Forward(cluster, e) == [] then st else Apply(st, e)
  }

  lemma {:induction false} SameKeySameCluster(v: Value, w: Value)
    requires LegalObject(v) && LegalObject(w) && StoreKey(true, v) == StoreKey(true, w)
    ensures ClusterOf(v) == ClusterOf(w)
  {
    ClusteredStoreKeyInjective(ClusterOf(v), v.namespace, v.name, ClusterOf(w), w.namespace, w.name);
  }

  ghost predicate StepCommutes(st: Store, cluster: string, e: Event) {
    ApplyForwarded(Restrict(st, cluster), cluster, e) == Restrict(Apply(st, e), cluster)
  }

  /** One event may be filtered before or after it is applied, for every cluster, exactly when it does not leak. */
  lemma {:induction false} StepCommutesIff(st: Store, e: Event)
    requires Proper(st) && LegalStream([e])
    ensures (forall c: string :: StepCommutes(st, c, e)) <==> !Leaks(st, e)
  {
    assert LegalObject([e][0].obj) && (e.OnUpdate? ==> LegalObject([e][0].prior));
    if Leaks(st, e) {
      var key := if e.OnUpdate? then StoreKey(true, e.prior) else e.key;
      var c := ClusterOf(st[key]);
      if e.OnUpdate? {
        SameKeySameCluster(st[key], e.prior);
        if StoreKey(true, e.obj) == StoreKey(true, e.prior) {
          SameKeySameCluster(e.obj, e.prior);
        }
      }
      assert key in ApplyForwarded(Restrict(st, c), c, e);
      assert key !in Restrict(Apply(st, e), c);
      assert !StepCommutes(st, c, e);
    } else {
      forall c: string ensures StepCommutes(st, c, e) {
        NoLeakCommutes(st, c, e);
      }
    }
  }

  lemma {:induction false} NoLeakCommutes(st: Store, c: string, e: Event)
    requires Proper(st) && LegalObject(e.obj) && (e.OnUpdate? ==> LegalObject(e.prior)) && !Leaks(st, e)
    ensures StepCommutes(st, c, e)
  {
    KeyHoldsOwnCluster(st, e.obj);
    match e
    case OnAdd(obj, _) =>
      PutCommutes(st, c, StoreKey(true, obj), obj);
    case OnUpdate(prior, obj) =>
      KeyHoldsOwnCluster(st, prior);
      if StoreKey(true, prior) in st {
        DropCommutes(st, c, StoreKey(true, prior), ClusterOf(prior));
      } else {
        assert st - {StoreKey(true, prior)} == st;
        assert Restrict(st, c) - {StoreKey(true, prior)} == Restrict(st, c);
      }
      PutCommutes(st - {StoreKey(true, prior)}, c, StoreKey(true, obj), obj);
    case OnDelete(obj) =>
      DropCommutes(st, c, StoreKey(true, obj), ClusterOf(obj));
    case OnTombstone(key, obj) =>
      DropCommutes(st, c, key, ClusterOf(obj));
  }

  lemma {:induction false} KeyHoldsOwnCluster(st: Store, v: Value)
    requires Proper(st) && LegalObject(v)
    ensures StoreKey(true, v) in st ==> ClusterOf(st[StoreKey(true, v)]) == ClusterOf(v)
  {
    if StoreKey(true, v) in st {
      SameKeySameCluster(st[StoreKey(true, v)], v);
    }
  }

  lemma {:induction false} PutCommutes(st: Store, c: string, key: string, v: Value)
    requires key in st ==> ClusterOf(st[key]) == ClusterOf(v)
    ensures Restrict(st[key := v], c) == if ClusterOf(v) == c then Restrict(st, c)[key := v] else Restrict(st, c)
  {
  }

  lemma {:induction false} DropCommutes(st: Store, c: string, key: string, owner: string)
    requires key in st ==> ClusterOf(st[key]) == owner
    ensures Restrict(st - {key}, c) == Restrict(st, c) - {key}
    ensures owner != c ==> Restrict(st - {key}, c) == Restrict(st, c)
  {
  }

  lemma {:induction false} ReplayProjectStep(c: string, es: seq<Event>)
    requires es != []
    ensures Replay(Project(c, es)) == ApplyForwarded(Replay(Project(c, es[..|es| - 1])), c, es[|es| - 1])
  {
    var init, e := Project(c, es[..|es| - 1]), es[|es| - 1];
    if Forward(c, e) == [] {
      assert init + [] == init;
    } else {
      assert (init + [e])[..|init|] == init;
    }
  }

  ghost predicate Commutes(es: seq<Event>) {
    forall c: string :: Replay(Project(c, es)) == Restrict(Replay(es), c)
  }

  /** After every prefix of the stream. */
  ghost predicate AlwaysCommutes(es: seq<Event>) {
    Commutes(es) && (es != [] ==> AlwaysCommutes(es[..|es| - 1]))
  }

  /** No event of the stream leaks in the state in which it arrives. */
  ghost predicate NeverLeaks(es: seq<Event>) {
    es != [] ==> NeverLeaks(es[..|es| - 1]) && !Leaks(Replay(es[..|es| - 1]), es[|es| - 1])
  }

  /**
   After every prefix of a stream each scoped handler has rebuilt the wildcard state restricted to its cluster, exactly
   when no event takes a known object away from another cluster than its own. Streams that an informer delivers meet
   this: `DeliveredStreamsCommute`.
   */
  lemma {:induction false} FilteringCommutesIff(es: seq<Event>)
    requires LegalStream(es)
    ensures AlwaysCommutes(es) <==> NeverLeaks(es)
  {
    if es != [] {
      var init, e := es[..|es| - 1], es[|es| - 1];
      FilteringCommutesIff(init);
      if Commutes(init) {
        CommutesOneMore(es);
      }
    }
  }

  lemma {:induction false} CommutesOneMore(es: seq<Event>)
    requires LegalStream(es) && es != [] && Commutes(es[..|es| - 1])
    ensures Commutes(es) <==> !Leaks(Replay(es[..|es| - 1]), es[|es| - 1])
  {
    var st, e := Replay(es[..|es| - 1]), es[|es| - 1];
    forall c: string
      ensures Replay(Project(c, es)) == Restrict(Replay(es), c) <==> StepCommutes(st, c, e)
    {
      ReplayProjectStep(c, es);
    }
    ReplayIsProper(es[..|es| - 1]);
    StepCommutesIff(st, e);
  }

  /** Updates keep the cluster, tombstones carry the key of their object. */
  predicate Steady(es: seq<Event>) {
    forall i :: 0 <= i < |es| ==>
      && (es[i].OnUpdate? ==> ClusterOf(es[i].prior) == ClusterOf(es[i].obj))
      && (es[i].OnTombstone? ==> es[i].key == StoreKey(true, es[i].obj))
  }

  lemma {:induction false} SteadyStreamsNeverLeak(es: seq<Event>)
    requires LegalStream(es) && Steady(es)
    ensures NeverLeaks(es)
  {
    if es != [] {
      var st, e := Replay(es[..|es| - 1]), es[|es| - 1];
      SteadyStreamsNeverLeak(es[..|es| - 1]);
      ReplayIsProper(es[..|es| - 1]);
      if e.OnTombstone? && e.key in st {
        SameKeySameCluster(st[e.key], e.obj);
      }
    }
  }

  /**
   The streams an informer delivers: it compares what it stores with what it receives key by key, so both objects of an
   update have the same store key.
   */
  predicate PairedByKey(es: seq<Event>) {
    forall i :: 0 <= i < |es| ==>
      && (es[i].OnUpdate? ==> StoreKey(true, es[i].prior) == StoreKey(true, es[i].obj))
      && (es[i].OnTombstone? ==> es[i].key == StoreKey(true, es[i].obj))
  }

  function KeyOfEvent(e: Event): string {
    if e.OnTombstone? then e.key else StoreKey(true, e.obj)
  }

  /** The last event of the stream that concerns the object under `k`. */
  function Latest(es: seq<Event>, k: string): Option<Event> {
    if es == [] then None
    else if KeyOfEvent(es[|es| - 1]) == k then Some(es[|es| - 1])
    else Latest(es[..|es| - 1], k)
  }

  /** A rebuilt state holds, under each key, what the latest event about it brought, unless that was a deletion. */
  lemma {:induction false} ReplayHoldsLatest(es: seq<Event>, k: string)
    requires PairedByKey(es)
    ensures Find(Replay(es), k) ==
      match Latest(es, k)
      case Some(OnAdd(obj, _)) => Some(obj)
      case Some(OnUpdate(_, obj)) => Some(obj)
      case _ => None
  {
    if es != [] {
      ReplayHoldsLatest(es[..|es| - 1], k);
    }
  }

  /** On every stream that an informer delivers, filtering commutes with replaying. */
  lemma {:induction false} DeliveredStreamsCommute(es: seq<Event>)
    requires LegalStream(es) && PairedByKey(es)
    ensures Steady(es) && AlwaysCommutes(es)
  {
    forall i | 0 <= i < |es| && es[i].OnUpdate? ensures ClusterOf(es[i].prior) == ClusterOf(es[i].obj) {
      SameKeySameCluster(es[i].prior, es[i].obj);
    }
    SteadyStreamsNeverLeak(es);
    FilteringCommutesIff(es);
  }

  /** On steady streams the scoped states are disjoint parts that make up the wildcard state, after every event. */
  lemma {:induction false} ScopedStatesPartitionWildcard(es: seq<Event>)
    requires LegalStream(es) && Steady(es)
    ensures forall c: string :: Replay(Project(c, es)) == Restrict(Replay(es), c)
    ensures forall c, d, k :: c != d && k in Replay(Project(c, es)) ==> k !in Replay(Project(d, es))
    ensures forall k :: k in Replay(es) ==>
              var own := Replay(Project(ClusterOf(Replay(es)[k]), es));
              k in own && own[k] == Replay(es)[k]
  {
    SteadyStreamsNeverLeak(es);
    FilteringCommutesIff(es);
    assert Commutes(es);
    forall c, d, k | c != d && k in Replay(Project(c, es)) ensures k !in Replay(Project(d, es)) {
      assert Replay(Project(c, es)) == Restrict(Replay(es), c);
      assert Replay(Project(d, es)) == Restrict(Replay(es), d);
    }
    forall k | k in Replay(es)
      ensures k in Replay(Project(ClusterOf(Replay(es)[k]), es))
      ensures Replay(Project(ClusterOf(Replay(es)[k]), es))[k] == Replay(es)[k]
    {
      var c := ClusterOf(Replay(es)[k]);
      assert Replay(Project(c, es)) == Restrict(Replay(es), c);
    }
  }

  // ---------- no event is lost or delivered twice ----------

  /** What the scoped handlers of these clusters receive, one cluster after the other. */
  function Spread(clusters: seq<string>, es: seq<Event>): seq<Event> {
    if clusters == [] then []
    else Spread(clusters[..|clusters| - 1], es) + Project(clusters[|clusters| - 1], es)
  }

  lemma {:induction false} SpreadStep(clusters: seq<string>, es: seq<Event>)
    requires es != [] && NoDuplicates(clusters)
    ensures multiset(Spread(clusters, es)) == multiset(Spread(clusters, es[..|es| - 1]))
      + (if ClusterOf(es[|es| - 1].obj) in clusters then multiset{es[|es| - 1]} else multiset{})
  {
    if clusters != [] {
      var init, last := clusters[..|clusters| - 1], clusters[|clusters| - 1];
      assert clusters == init + [last];
      assert forall c | c in init :: c != last;
      SpreadStep(init, es);
    }
  }

  /** Over all clusters of a stream every event reaches exactly one scoped handler, as often as it occurs. */
  lemma {:induction false} DemultiplexingIsLossless(clusters: seq<string>, es: seq<Event>)
    requires NoDuplicates(clusters) && forall i :: 0 <= i < |es| ==> ClusterOf(es[i].obj) in clusters
    ensures multiset(Spread(clusters, es)) == multiset(es)
  {
    if es == [] {
      SpreadNothing(clusters);
    } else {
      var init, e := es[..|es| - 1], es[|es| - 1];
      DemultiplexingIsLossless(clusters, init);
      SpreadStep(clusters, es);
      assert multiset(es) == multiset(init) + multiset{e} by {
        assert es == init + [e];
      }
    }
  }

  lemma {:induction false} SpreadNothing(clusters: seq<string>)
    ensures Spread(clusters, []) == []
  {
    if clusters != [] {
      SpreadNothing(clusters[..|clusters| - 1]);
    }
  }

  /** A handler receives its events in the order of the stream. */
  lemma {:induction false} ProjectKeepsOrder(c: string, es: seq<Event>, later: seq<Event>)
    ensures Project(c, es + later) == Project(c, es) + Project(c, later)
  {
    if later == [] {
      assert es + later == es;
    } else {
      var init, e := later[..|later| - 1], later[|later| - 1];
      assert (es + later)[..|es + later| - 1] == es + init;
      ProjectKeepsOrder(c, es, init);
    }
  }
}
