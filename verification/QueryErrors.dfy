/** Which requests the readers refuse, and with which error; and what readers over indexers without clusters answer. */
module QueryErrors {
  import opened Prelude
  import opened Keys
  import opened Objects
  import opened Queries
  import opened QueryProperties

  // ---------- Get ----------

  /** Get refuses exactly a reader without a cluster on a cluster-aware indexer; otherwise an error says what is not there. */
  lemma {:induction false} GetRefusedIff(store: Store, indexers: Indexers, root: bool, gvk: string,
                                         cluster: string, ns: string, name: string)
    ensures var answer := GetAnswer(store, indexers, root, gvk, cluster, ns, name);
            var refused := CLUSTER_AND_NAMESPACE_INDEX in indexers && cluster == "";
      && (answer == Err(ClusterRequired) <==> refused)
      && (answer.Err? && !refused ==> answer == Err(NotFound(gvk, name)))
  {
  }

  predicate Identified(v: Value, cluster: string, ns: string, name: string) {
    ClusterOf(v) == cluster && v.namespace == ns && v.name == name
  }

  /** A scoped Get answers that the object is not found, by kind and name, exactly if its cluster has no such object. */
  lemma {:induction false} GetReportsAbsenceIff(store: Store, indexers: Indexers, root: bool, gvk: string,
                                                cluster: string, ns: string, name: string)
    requires ClusterAware(indexers) && KeyedByCluster(store) && LegalStore(store)
    requires LegalCluster(cluster) && LegalNamespace(ns) && LegalName(name)
    ensures GetAnswer(store, indexers, root, gvk, cluster, ns, name) == Err(NotFound(gvk, name)) <==>
      !exists k :: k in store && Identified(store[k], cluster, if root then "" else ns, name)
  {
    var answer := GetAnswer(store, indexers, root, gvk, cluster, ns, name);
    GetRefusedIff(store, indexers, root, gvk, cluster, ns, name);
    forall k ensures answer == Ok(k) <==> k in store && Identified(store[k], cluster, if root then "" else ns, name) {
      GetFindsByIdentity(store, indexers, root, gvk, cluster, ns, name, k);
    }
    if answer.Ok? {
      assert answer == Ok(answer.value);
    }
  }

  /** On an indexer that knows no clusters, Get goes by namespace and name, whatever cluster the reader has. */
  lemma {:induction false} PlainGetFindsByIdentity(store: Store, indexers: Indexers, root: bool, gvk: string,
                                                   cluster: string, ns: string, name: string, k: string)
    requires CLUSTER_AND_NAMESPACE_INDEX !in indexers && LegalStore(store)
    requires forall k :: k in store ==> StoreKey(false, store[k]) == k
    requires LegalNamespace(ns) && LegalName(name)
    ensures GetAnswer(store, indexers, root, gvk, cluster, ns, name) == Ok(k) <==>
      k in store && store[k].namespace == (if root then "" else ns) && store[k].name == name
  {
    var key := ObjectKeyToStoreKey(if root then "" else ns, name);
    if key in store {
      assert StoreKey(false, store[key]) == key;
      ObjectKeyToStoreKeyInjective(if root then "" else ns, name, store[key].namespace, store[key].name);
    }
    if k in store {
      assert StoreKey(false, store[k]) == k;
    }
  }

  // ---------- List ----------

  predicate Inexact(reqs: seq<Requirement>) {
    reqs == [] || exists r | r in reqs :: r.op.NotEquals? || r.op.OtherOperator?
  }

  lemma {:induction false} FilterErrors(store: Store, fn: IndexFunc, x: string, keys: seq<string>)
    requires forall k | k in keys :: k in store
    ensures var c := FilterByIndex(store, fn, x, keys); c.Err? ==> c.error.IndexFuncFailed?
  {
    if keys != [] {
      FilterErrors(store, fn, x, keys[..|keys| - 1]);
    }
  }

  lemma {:induction false} RefineErrors(store: Store, indexers: Indexers, cluster: string, ns: string,
                                        reqs: seq<Requirement>, keys: seq<string>)
    requires forall k | k in keys :: k in store
    ensures var c := Refine(store, indexers, cluster, ns, reqs, keys); c.Err? ==> c.error.IndexFuncFailed? || c.error.NoIndex?
    decreases |reqs|
  {
    if reqs != [] && FieldIndexName(reqs[0].field) in indexers {
      var fn, x := indexers[FieldIndexName(reqs[0].field)], IndexedValue(indexers, cluster, ns, reqs[0]);
      FilterByIndexShrinks(store, fn, x, keys);
      FilterErrors(store, fn, x, keys);
      var kept := FilterByIndex(store, fn, x, keys);
      if kept.Ok? {
        RefineErrors(store, indexers, cluster, ns, reqs[1..], kept.value);
      }
    }
  }

  /** List refuses exactly continue tokens, and selectors that are empty or have another operator than `=` and `==`. */
  lemma {:induction false} ListRefusedIff(store: Store, indexers: Indexers, cluster: string, opts: ListOptions,
                                          c: Result<seq<string>, ReadError>)
    requires Candidates(store, indexers, cluster, opts, c)
    ensures c == Err(ContinueUnsupported) <==> opts.continueToken != ""
    ensures c == Err(NonExactFieldMatch) <==>
      opts.continueToken == "" && opts.fieldSelector.Some? && Inexact(opts.fieldSelector.value)
    ensures opts.continueToken == "" && opts.fieldSelector.Some? && Indexed(store, indexers, opts.fieldSelector.value) ==>
      (c.Ok? <==> !Inexact(opts.fieldSelector.value))
  {
    if opts.continueToken == "" && opts.fieldSelector.Some? {
      var reqs := opts.fieldSelector.value;
      ExactIff(reqs);
      if RequiresExactMatch(reqs) {
        var first :| FirstBucket(store, indexers, cluster, opts.namespace, reqs, first)
          && c == ByIndexesAnswer(store, indexers, cluster, opts.namespace, reqs, first);
        RefineErrors(store, indexers, cluster, opts.namespace, reqs[1..], first);
        if Indexed(store, indexers, reqs) {
          ByIndexesIsScan(store, indexers, cluster, opts.namespace, reqs, first);
        }
      }
    }
  }

  lemma {:induction false} ExactIff(reqs: seq<Requirement>)
    ensures RequiresExactMatch(reqs) <==> !Inexact(reqs)
  {
    assert forall i :: 0 <= i < |reqs| ==> reqs[i] in reqs;
  }

  /** A refused selector is refused whatever the store holds. */
  lemma {:induction false} InexactSelectorIsRefused(store: Store, indexers: Indexers, cluster: string, opts: ListOptions)
    requires opts.continueToken == "" && opts.fieldSelector.Some? && Inexact(opts.fieldSelector.value)
    ensures Candidates(store, indexers, cluster, opts, Err(NonExactFieldMatch))
  {
    ExactIff(opts.fieldSelector.value);
  }

  /** The index that a List without a field selector depends on, if any. */
  function IndexNeeded(indexers: Indexers, cluster: string, ns: string): Option<string> {
    var scoped := CLUSTER_AND_NAMESPACE_INDEX in indexers && cluster != "";
    if !scoped then (if ns == "" then None else Some(NAMESPACE_INDEX))
    else Some(if ns == "" then CLUSTER_INDEX else CLUSTER_AND_NAMESPACE_INDEX)
  }

  /** Without a field selector List fails exactly if the one index it depends on is missing, and says which. */
  lemma {:induction false} ListLacksIndexIff(store: Store, indexers: Indexers, cluster: string, opts: ListOptions,
                                             c: Result<seq<string>, ReadError>)
    requires opts.continueToken == "" && opts.fieldSelector.None? && Candidates(store, indexers, cluster, opts, c)
    ensures var needed := IndexNeeded(indexers, cluster, opts.namespace);
      if needed.Some? && needed.value !in indexers then c == Err(NoIndex(needed.value)) else c.Ok?
  {
  }

  /** On an indexer that knows no clusters List is the scan by namespace over all clusters. */
  lemma {:induction false} PlainSelectedIsScan(store: Store, indexers: Indexers, cluster: string, ns: string)
    requires CLUSTER_AND_NAMESPACE_INDEX !in indexers
    requires NAMESPACE_INDEX in indexers && forall v :: indexers[NAMESPACE_INDEX](v) == NamespaceIndexFunc(v)
    ensures Selected(store, indexers, cluster, ns) == Ok(Scan(store, "", ns, None))
  {
    if ns == "" {
      assert store.Keys == Scan(store, "", ns, None);
    } else {
      assert Bucket(store, indexers[NAMESPACE_INDEX], ns) == Scan(store, "", ns, None);
    }
  }

  /** On such an indexer a field requirement goes by namespace and value, if index functions file under namespaced keys. */
  lemma {:induction false} PlainFieldIsScan(store: Store, indexers: Indexers, cluster: string, ns: string,
                                            req: Requirement, extract: Value -> seq<string>, k: string)
    requires CLUSTER_AND_NAMESPACE_INDEX !in indexers && FieldIndexName(req.field) in indexers
    requires forall v :: var vals := indexers[FieldIndexName(req.field)](v); vals.Ok? && forall x :: x in vals.value <==>
               exists e | e in extract(v) :: x == KeyToNamespacedKey(v.namespace, e) || x == KeyToNamespacedKey("", e)
    requires LegalStore(store) && k in store && LegalNamespace(ns)
    ensures Files(indexers, cluster, ns, store[k], req) <==>
      (ns == "" || store[k].namespace == ns) && req.value in extract(store[k])
  {
    var v := store[k];
    var x := IndexedValue(indexers, cluster, ns, req);
    assert x == KeyToNamespacedKey(ns, req.value);
    forall e | e in extract(v)
      ensures x == KeyToNamespacedKey(v.namespace, e) <==> ns == v.namespace && req.value == e
      ensures x == KeyToNamespacedKey("", e) <==> ns == "" && req.value == e
    {
      KeyToNamespacedKeyInjective(ns, req.value, v.namespace, e);
      KeyToNamespacedKeyInjective(ns, req.value, "", e);
    }
  }

  // ---------- failing index functions ----------

  ghost predicate Registered(indexers: Indexers, reqs: seq<Requirement>) {
    forall i :: 0 <= i < |reqs| ==> FieldIndexName(reqs[i].field) in indexers
  }

  /** The object meets the first `j` requirements, and the index function of the next one fails on it. */
  ghost predicate FailsAt(indexers: Indexers, cluster: string, ns: string, reqs: seq<Requirement>, v: Value, j: nat)
    requires Registered(indexers, reqs) && j < |reqs|
  {
    && (forall i :: 0 <= i < j ==> Files(indexers, cluster, ns, v, reqs[i]))
    && indexers[FieldIndexName(reqs[j].field)](v).Err?
  }

  ghost predicate SomeFails(store: Store, indexers: Indexers, cluster: string, ns: string, reqs: seq<Requirement>, keys: seq<string>)
    requires Registered(indexers, reqs) && forall k | k in keys :: k in store
  {
    exists k, j: nat :: k in keys && j < |reqs| && FailsAt(indexers, cluster, ns, reqs, store[k], j)
  }

  /** `e` reports such a failure. */
  ghost predicate Reports(store: Store, indexers: Indexers, cluster: string, ns: string, reqs: seq<Requirement>, keys: seq<string>,
                          e: ReadError)
    requires Registered(indexers, reqs) && forall k | k in keys :: k in store
  {
    exists k, j: nat :: k in keys && j < |reqs| && FailsAt(indexers, cluster, ns, reqs, store[k], j)
      && e == IndexFuncFailed(indexers[FieldIndexName(reqs[j].field)](store[k]).error)
  }

  lemma {:induction false} FilterFailsIff(store: Store, fn: IndexFunc, x: string, keys: seq<string>)
    requires forall k | k in keys :: k in store
    ensures var c := FilterByIndex(store, fn, x, keys);
      if exists k :: k in keys && fn(store[k]).Err? then
        exists k :: k in keys && fn(store[k]).Err? && c == Err(IndexFuncFailed(fn(store[k]).error))
      else c == Ok(Keep(keys, Bucket(store, fn, x)))
  {
    if keys != [] {
      var init, last := keys[..|keys| - 1], keys[|keys| - 1];
      FilterFailsIff(store, fn, x, init);
      assert keys == init + [last];
    }
  }

  /**
   byIndexes over registered indexes fails exactly if an index function fails on an object that is still a candidate when
   its turn comes, that is, one that met all requirements before; otherwise it answers with the plain scan.
   */
  lemma {:induction false} RefineFailsIff(store: Store, indexers: Indexers, cluster: string, ns: string,
                                          reqs: seq<Requirement>, keys: seq<string>)
    requires Registered(indexers, reqs) && forall k | k in keys :: k in store
    ensures var c := Refine(store, indexers, cluster, ns, reqs, keys);
      if SomeFails(store, indexers, cluster, ns, reqs, keys) then c.Err? && Reports(store, indexers, cluster, ns, reqs, keys, c.error)
      else c == Ok(Keep(keys, FieldScan(store, indexers, cluster, ns, reqs)))
    decreases |reqs|
  {
    if reqs == [] {
      KeepAll(keys, FieldScan(store, indexers, cluster, ns, reqs));
    } else {
      var fn, x := indexers[FieldIndexName(reqs[0].field)], IndexedValue(indexers, cluster, ns, reqs[0]);
      FilterFailsIff(store, fn, x, keys);
      if exists k :: k in keys && fn(store[k]).Err? {
        var c := FilterByIndex(store, fn, x, keys);
        var k :| k in keys && fn(store[k]).Err? && c == Err(IndexFuncFailed(fn(store[k]).error));
        assert FailsAt(indexers, cluster, ns, reqs, store[k], 0);
      } else {
        var kept := Keep(keys, Bucket(store, fn, x));
        KeepMembers(keys, Bucket(store, fn, x));
        assert forall i :: 0 <= i < |reqs[1..]| ==> reqs[1..][i] == reqs[i + 1];
        RefineFailsIff(store, indexers, cluster, ns, reqs[1..], kept);
        LaterFailures(store, indexers, cluster, ns, reqs, keys, kept);
        FieldScanSplits(store, indexers, cluster, ns, reqs);
        KeepTwice(keys, Bucket(store, fn, x), FieldScan(store, indexers, cluster, ns, reqs[1..]));
      }
    }
  }

  /** If the first index function fails on no candidate, what fails are later ones on candidates that met the first requirement. */
  lemma {:induction false} LaterFailures(store: Store, indexers: Indexers, cluster: string, ns: string,
                                         reqs: seq<Requirement>, keys: seq<string>, kept: seq<string>)
    requires reqs != [] && Registered(indexers, reqs) && Registered(indexers, reqs[1..])
    requires forall k | k in keys :: k in store && indexers[FieldIndexName(reqs[0].field)](store[k]).Ok?
    requires forall k :: k in kept <==> k in keys && Files(indexers, cluster, ns, store[k], reqs[0])
    ensures SomeFails(store, indexers, cluster, ns, reqs, keys) <==> SomeFails(store, indexers, cluster, ns, reqs[1..], kept)
    ensures forall e :: Reports(store, indexers, cluster, ns, reqs[1..], kept, e) ==> Reports(store, indexers, cluster, ns, reqs, keys, e)
  {
    var rest := reqs[1..];
    if SomeFails(store, indexers, cluster, ns, reqs, keys) {
      var k, j: nat :| k in keys && j < |reqs| && FailsAt(indexers, cluster, ns, reqs, store[k], j);
      assert FailsAt(indexers, cluster, ns, rest, store[k], j - 1);
    }
    forall k, j: nat | k in kept && j < |rest| && FailsAt(indexers, cluster, ns, rest, store[k], j)
      ensures FailsAt(indexers, cluster, ns, reqs, store[k], j + 1) && reqs[j + 1] == rest[j]
    {
      forall i | 0 <= i < j + 1 ensures Files(indexers, cluster, ns, store[k], reqs[i]) {
        assert i > 0 ==> reqs[i] == rest[i - 1];
      }
    }
  }

  /** A whole selector: the first bucket's objects have been filed, so only the later requirements' functions can fail. */
  lemma {:induction false} FieldListFailsIff(store: Store, indexers: Indexers, cluster: string, ns: string,
                                             reqs: seq<Requirement>, first: seq<string>)
    requires Registered(indexers, reqs) && FirstBucket(store, indexers, cluster, ns, reqs, first)
    ensures var c := ByIndexesAnswer(store, indexers, cluster, ns, reqs, first);
      if reqs == [] then c == Ok([])
      else if SomeFails(store, indexers, cluster, ns, reqs, first) then c.Err? && Reports(store, indexers, cluster, ns, reqs, first, c.error)
      else c == Ok(Keep(first, FieldScan(store, indexers, cluster, ns, reqs)))
  {
    if reqs != [] {
      assert forall i :: 0 <= i < |reqs[1..]| ==> reqs[1..][i] == reqs[i + 1];
      RefineFailsIff(store, indexers, cluster, ns, reqs[1..], first);
      LaterFailures(store, indexers, cluster, ns, reqs, first, first);
      FieldScanSplits(store, indexers, cluster, ns, reqs);
      KeepDependsOnMembers(first, FieldScan(store, indexers, cluster, ns, reqs), FieldScan(store, indexers, cluster, ns, reqs[1..]));
    }
  }

  // ---------- the index that DeleteFunc asks ----------

  /** The cluster index has an empty bucket for a cluster exactly if no stored object is in that cluster. */
  lemma {:induction false} ClusterBucketIsEmptyIff(store: Store, indexers: Indexers, cluster: string)
    requires StandardIndexes(indexers)
    ensures Bucket(store, indexers[CLUSTER_INDEX], ClusterIndexKey(cluster)) == {} <==>
      !exists k :: k in store && ClusterOf(store[k]) == cluster
  {
    var bucket := Bucket(store, indexers[CLUSTER_INDEX], ClusterIndexKey(cluster));
    forall k | k in store ensures k in bucket <==> ClusterOf(store[k]) == cluster {
    }
  }
}
