/** The cluster-spanning cache: the doubled keys of its field indexes, and its registry of informers. */
module WildcardCaching {
  import opened Prelude
  import opened Keys
  import opened Objects
  import opened Queries
  import opened QueryProperties
  import opened QueryErrors

  // ---------- IndexField ----------

  /** Every key under one prefix. */
  function Prefixed(prefix: string, keys: seq<string>): seq<string> {
    if keys == [] then [] else Prefixed(prefix, keys[..|keys| - 1]) + [prefix + "/" + keys[|keys| - 1]]
  }

  lemma {:induction false} PrefixedAt(prefix: string, keys: seq<string>)
    ensures |Prefixed(prefix, keys)| == |keys|
    ensures forall i :: 0 <= i < |keys| ==> Prefixed(prefix, keys)[i] == prefix + "/" + keys[i]
  {
    if keys != [] {
      PrefixedAt(prefix, keys[..|keys| - 1]);
    }
  }

  /** The extracted keys twice: under the object's cluster and under the wildcard. */
  function DoubledKeys(cluster: string, keys: seq<string>): seq<string> {
    Prefixed(cluster, keys) + Prefixed("*", keys)
  }

  method WithCluster(cluster: string, keys: seq<string>) returns (withCluster: array<string>)
    ensures fresh(withCluster) && withCluster[..] == DoubledKeys(cluster, keys)
  {
    withCluster := new string[|keys| * 2](_ => "");
    for i := 0 to |keys|
      invariant forall j :: 0 <= j < i ==> withCluster[j] == cluster + "/" + keys[j]
      invariant forall j :: 0 <= j < i ==> withCluster[j + |keys|] == "*/" + keys[j]
    {
      withCluster[i] := cluster + "/" + keys[i];
      withCluster[i + |keys|] := "*/" + keys[i];
    }
    PrefixedAt(cluster, keys);
    PrefixedAt("*", keys);
    var doubled := DoubledKeys(cluster, keys);
    forall i | 0 <= i < withCluster.Length ensures |doubled| == withCluster.Length && withCluster[i] == doubled[i] {
      if i >= |keys| {
        assert withCluster[(i - |keys|) + |keys|] == "*/" + keys[i - |keys|];
        assert "*" + "/" == "*/";
      }
    }
    assert keys == [] ==> doubled == [];
  }

  /** The index function that IndexField registers for an extractor. */
  function DoubledIndex(extract: Value -> seq<string>): IndexFunc {
    v => Ok(DoubledKeys(ClusterOf(v), extract(v)))
  }

  /** An object is filed under a slash-free prefix and an arbitrary key if the prefix is its cluster or the wildcard. */
  lemma {:induction false} FiledUnder(v: Value, extract: Value -> seq<string>, prefix: string, key: string)
    requires '/' !in prefix && '/' !in ClusterOf(v)
    ensures Yields(DoubledIndex(extract), v, prefix + "/" + key) <==>
      key in extract(v) && (prefix == ClusterOf(v) || prefix == "*")
  {
    var c, keys := ClusterOf(v), extract(v);
    PrefixedAt(c, keys);
    PrefixedAt("*", keys);
    var doubled := DoubledKeys(c, keys);
    assert DoubledIndex(extract)(v) == Ok(doubled);
    if prefix + "/" + key in doubled {
      var i :| 0 <= i < |doubled| && doubled[i] == prefix + "/" + key;
      if i < |keys| {
        SplitAtSeparator(c, keys[i], prefix, key, '/');
      } else {
        SplitAtSeparator("*", keys[i - |keys|], prefix, key, '/');
      }
    }
    if key in keys && (prefix == c || prefix == "*") {
      var i :| 0 <= i < |keys| && keys[i] == key;
      assert doubled[i] == c + "/" + key && doubled[i + |keys|] == "*" + "/" + key;
    }
  }

  /** Looking up a cluster's key finds that cluster's objects with the key, looking up the wildcard's finds all of them. */
  lemma {:induction false} DoubledIndexLookup(store: Store, extract: Value -> seq<string>, prefix: string, key: string)
    requires LegalStore(store) && '/' !in prefix
    ensures Bucket(store, DoubledIndex(extract), prefix + "/" + key) ==
      set k | k in store && key in extract(store[k]) && (prefix == "*" || ClusterOf(store[k]) == prefix)
  {
    forall k | k in store
      ensures Yields(DoubledIndex(extract), store[k], prefix + "/" + key) <==>
        key in extract(store[k]) && (prefix == "*" || ClusterOf(store[k]) == prefix)
    {
      FiledUnder(store[k], extract, prefix, key);
    }
  }

  /** The wildcard bucket is the disjoint union of the clusters' buckets. */
  lemma {:induction false} WildcardBucketIsPartitioned(store: Store, extract: Value -> seq<string>, key: string)
    requires LegalStore(store)
    ensures var fn := DoubledIndex(extract);
      && (forall k | k in store :: k in Bucket(store, fn, "*/" + key) <==>
            exists c | c in ClustersOf(store) :: k in Bucket(store, fn, c + "/" + key))
      && (forall c, d | c in ClustersOf(store) && d in ClustersOf(store) && c != d ::
            Bucket(store, fn, c + "/" + key) !! Bucket(store, fn, d + "/" + key))
  {
    var fn := DoubledIndex(extract);
    DoubledIndexLookup(store, extract, "*", key);
    assert "*" + "/" + key == "*/" + key;
    forall c | c in ClustersOf(store)
      ensures Bucket(store, fn, c + "/" + key) == set k | k in store && key in extract(store[k]) && ClusterOf(store[k]) == c
    {
      var k :| k in store && ClusterOf(store[k]) == c;
      DoubledIndexLookup(store, extract, c, key);
    }
    forall k | k in store && key in extract(store[k]) ensures ClusterOf(store[k]) in ClustersOf(store) {
    }
  }

  // ---------- informers ----------

  type Gvk = string

  datatype ObjectClass = Structured | Unstructured | Metadata

  class SharedInformer {
    const indexers: Indexers

    /** NewSharedIndexInformer, then AddIndexers, whose failure is reported but not fatal. */
    constructor (given: Indexers, indexersAdded: bool)
      ensures indexers == InformerIndexers(given, indexersAdded)
    {
      indexers := InformerIndexers(given, indexersAdded);
    }
  }

  function InformerIndexers(given: Indexers, indexersAdded: bool): Indexers {
    if indexersAdded
    then given[CLUSTER_INDEX := ClusterIndexFunc][CLUSTER_AND_NAMESPACE_INDEX := ClusterAndNamespaceIndexFunc]
    else given
  }

  datatype TrackerError = AlreadyExists(gvk: Gvk)

  class InformerTracker {
    var structured: map<Gvk, SharedInformer>
    var unstructured: map<Gvk, SharedInformer>
    var metadata: map<Gvk, SharedInformer>

    constructor ()
      ensures forall c :: ByClass(c) == map[]
    {
      structured, unstructured, metadata := map[], map[], map[];
    }

    /** informersByType. */
    function ByClass(c: ObjectClass): map<Gvk, SharedInformer>
      reads this
    {
      match c
      case Unstructured => unstructured
      case Metadata => metadata
      case Structured => structured
    }

    /** The NewInformer closure; it panics if the slot is taken. */
    method NewInformer(c: ObjectClass, gvk: Gvk, given: Indexers, indexersAdded: bool)
      returns (r: Result<SharedInformer, TrackerError>)
      modifies this
      ensures r.Err? <==> gvk in old(ByClass(c))
      ensures r.Err? ==> r.error == AlreadyExists(gvk) && unchanged(this)
      ensures r.Ok? ==> fresh(r.value) && r.value.indexers == InformerIndexers(given, indexersAdded)
      ensures r.Ok? && indexersAdded ==> forall v ::
                && r.value.indexers[CLUSTER_INDEX](v) == Ok([ClusterOf(v)])
                && r.value.indexers[CLUSTER_AND_NAMESPACE_INDEX](v) == Ok([ClusterOf(v) + "/" + v.namespace])
      ensures r.Ok? ==> forall name | name in given && name !in {CLUSTER_INDEX, CLUSTER_AND_NAMESPACE_INDEX} ::
                name in r.value.indexers && r.value.indexers[name] == given[name]
      ensures r.Ok? && !indexersAdded ==> r.value.indexers == given
      ensures r.Ok? ==> ByClass(c) == old(ByClass(c))[gvk := r.value]
      ensures forall d :: d != c ==> ByClass(d) == old(ByClass(d))
    {
      var inf := new SharedInformer(given, indexersAdded);
      if gvk in ByClass(c) {
        return Err(AlreadyExists(gvk));
      }
      match c {
        case Unstructured => unstructured := unstructured[gvk := inf];
        case Metadata => metadata := metadata[gvk := inf];
        case Structured => structured := structured[gvk := inf];
      }
      r := Ok(inf);
    }

    method GetSharedInformer(c: ObjectClass, gvk: Gvk) returns (inf: Option<SharedInformer>)
      ensures inf == Find(ByClass(c), gvk)
    {
      inf := Find(ByClass(c), gvk);
    }
  }

  datatype Call = Create(class_: ObjectClass, gvk: Gvk, given: Indexers, indexersAdded: bool) | Get(class_: ObjectClass, gvk: Gvk)

  /** The informer a call hands out, if any; a creation in a run without panics always hands one out. */
  type Answer = Option<SharedInformer>

  ghost predicate SameSlot(a: Call, b: Call) {
    a.class_ == b.class_ && a.gvk == b.gvk
  }

  /** The answer to call `j` follows from the calls before it: a creation's own informer, or the one created for the slot. */
  ghost predicate Follows(script: seq<Call>, answers: seq<Answer>, j: nat)
    requires j < |script| && j < |answers|
  {
    && (script[j].Create? ==> answers[j].Some?)
    && (script[j].Create? ==> answers[j].value.indexers == InformerIndexers(script[j].given, script[j].indexersAdded))
    && (forall i :: 0 <= i < j && SameSlot(script[i], script[j]) && answers[i].Some? ==> answers[j] == answers[i])
    && (script[j].Get? && answers[j].Some? ==>
          exists i :: 0 <= i < j && script[i].Create? && SameSlot(script[i], script[j]) && answers[i] == answers[j])
  }

  ghost predicate Consistent(script: seq<Call>, answers: seq<Answer>) {
    |answers| <= |script| && forall j :: 0 <= j < |answers| ==> Follows(script, answers, j)
  }

  lemma {:induction false} ConsistentExtends(script: seq<Call>, answers: seq<Answer>, a: Answer)
    requires Consistent(script, answers) && |answers| < |script| && Follows(script, answers + [a], |answers|)
    ensures Consistent(script, answers + [a])
  {
    forall j | 0 <= j < |answers| ensures Follows(script, answers + [a], j) {
      assert Follows(script, answers, j);
    }
  }

  /**
   Any script of creations and lookups, up to the first panic: once a slot yields an informer it yields that informer
   ever after, and only informers created for that very slot are found, with the indexes they were created with.
   */
  method RunScript(script: seq<Call>) returns (answers: seq<Answer>)
    ensures |answers| <= |script|
    ensures Consistent(script, answers)
    ensures |answers| < |script| ==>
      var call := script[|answers|];
      call.Create? && exists i :: 0 <= i < |answers| && script[i].Create? && SameSlot(script[i], call)
  {
    var tracker := new InformerTracker();
    answers := [];
    while |answers| < |script|
      invariant |answers| <= |script|
      invariant Consistent(script, answers)
      invariant fresh(tracker)
      invariant forall i :: 0 <= i < |answers| && answers[i].Some? ==>
                  Find(tracker.ByClass(script[i].class_), script[i].gvk) == answers[i]
      invariant forall c, g :: g in tracker.ByClass(c) ==>
                  exists i :: 0 <= i < |answers| && script[i].Create? && script[i].class_ == c && script[i].gvk == g
      decreases |script| - |answers|
    {
      var n := |answers|;
      match script[n]
      case Create(c, g, given, added) =>
        var r := tracker.NewInformer(c, g, given, added);
        if r.Err? {
          return;
        }
        ConsistentExtends(script, answers, Some(r.value));
        answers := answers + [Some(r.value)];
      case Get(c, g) =>
        var inf := tracker.GetSharedInformer(c, g);
        if inf.Some? {
          ghost var i :| 0 <= i < n && script[i].Create? && script[i].class_ == c && script[i].gvk == g;
          assert SameSlot(script[i], script[n]) && Follows(script, answers, i);
          assert (answers + [inf])[i] == (answers + [inf])[n];
        }
        ConsistentExtends(script, answers, inf);
        answers := answers + [inf];
    }
  }

  /**
   An informer that is found, whose given indexes had the one by namespace and whose other indexes could be added, answers
   lists as promised: a List over its store selects the plain scan, and the cluster index that DeleteFunc asks is empty
   for a cluster exactly if the store has no object of it.
   */
  lemma {:induction false} FoundInformersAnswerLists(script: seq<Call>, answers: seq<Answer>, j: nat,
                                                     store: Store, cluster: string, ns: string)
    requires Consistent(script, answers)
    requires j < |answers| && answers[j].Some?
    requires forall i :: 0 <= i < |script| && script[i].Create? && SameSlot(script[i], script[j]) ==>
               script[i].indexersAdded && NAMESPACE_INDEX in script[i].given
               && forall v :: script[i].given[NAMESPACE_INDEX](v) == NamespaceIndexFunc(v)
    requires LegalStore(store) && '/' !in cluster
    ensures var indexers := answers[j].value.indexers;
      && StandardIndexes(indexers)
      && Selected(store, indexers, cluster, ns) == Ok(Scan(store, cluster, ns, None))
      && (Bucket(store, indexers[CLUSTER_INDEX], ClusterIndexKey(cluster)) == {} <==>
            !exists k :: k in store && ClusterOf(store[k]) == cluster)
  {
    var i :| 0 <= i <= j && script[i].Create? && SameSlot(script[i], script[j]) && answers[i] == answers[j] by {
      assert Follows(script, answers, j);
      assert SameSlot(script[j], script[j]);
    }
    assert Follows(script, answers, i);
    SelectedIsScan(store, answers[j].value.indexers, cluster, ns);
    ClusterBucketIsEmptyIff(store, answers[j].value.indexers, cluster);
  }

  /** A non-empty-cluster reader takes the cluster-aware path on every informer whose indexes could be added. */
  lemma {:induction false} FoundInformersAreClusterAware(script: seq<Call>, answers: seq<Answer>, j: nat)
    requires Consistent(script, answers)
    requires j < |answers| && answers[j].Some?
    requires forall i :: 0 <= i < |script| && script[i].Create? && SameSlot(script[i], script[j]) ==> script[i].indexersAdded
    ensures {CLUSTER_INDEX, CLUSTER_AND_NAMESPACE_INDEX} <= answers[j].value.indexers.Keys
    ensures forall root, cluster, ns, name :: cluster != "" ==>
      GetKey(answers[j].value.indexers, root, cluster, ns, name) == Ok(ClusteredStoreKey(cluster, if root then "" else ns, name))
  {
    assert Follows(script, answers, j);
    if script[j].Get? {
      var i :| 0 <= i < j && script[i].Create? && SameSlot(script[i], script[j]) && answers[i] == answers[j];
      assert Follows(script, answers, i);
    } else {
      assert SameSlot(script[j], script[j]);
    }
  }
}
