/** The answers of the readers agree with a plain scan of the store, and with each other. */
module QueryProperties {
  import opened Prelude
  import opened Keys
  import opened Objects
  import opened Queries

  // ---------- assumptions about the store and its indexes ----------

  /** The informer carries the namespace index and both cluster indexes. */
  ghost predicate StandardIndexes(indexers: Indexers) {
    && {CLUSTER_INDEX, CLUSTER_AND_NAMESPACE_INDEX, NAMESPACE_INDEX} <= indexers.Keys
    && (forall v :: indexers[CLUSTER_INDEX](v) == ClusterIndexFunc(v))
    && (forall v :: indexers[CLUSTER_AND_NAMESPACE_INDEX](v) == ClusterAndNamespaceIndexFunc(v))
    && (forall v :: indexers[NAMESPACE_INDEX](v) == NamespaceIndexFunc(v))
  }

  /** Every object is stored under its cluster-aware key. */
  ghost predicate KeyedByCluster(store: Store) {
    forall k :: k in store ==> StoreKey(true, store[k]) == k
  }

  ghost predicate LegalStore(store: Store) {
    forall k :: k in store ==> LegalObject(store[k])
  }

  /** The plain scan: everything in the cluster and namespace with matching labels; empty names stand for all. */
  function Scan(store: Store, cluster: string, ns: string, sel: Option<LabelSelector>): set<string> {
    set k | k in store
            && (cluster == "" || ClusterOf(store[k]) == cluster)
            && (ns == "" || store[k].namespace == ns)
            && (sel.Some? ==> sel.value(store[k].labels))
  }

  // ---------- sequences that enumerate sets ----------

  lemma {:induction false} KeepEnumerates<T>(s: seq<T>, elems: set<T>, keep: set<T>)
    requires Enumerates(s, elems)
    ensures Enumerates(Keep(s, keep), elems * keep)
  {
    KeepMembers(s, keep);
    KeepNoDuplicates(s, keep);
  }

  lemma {:induction false} KeepMembers<T>(s: seq<T>, keep: set<T>)
    ensures forall x | x in Keep(s, keep) :: x in s && x in keep
    ensures forall x | x in s && x in keep :: x in Keep(s, keep)
  {
    if s != [] {
      KeepMembers(s[..|s| - 1], keep);
      assert s == s[..|s| - 1] + [s[|s| - 1]];
    }
  }

  lemma {:induction false} KeepNoDuplicates<T>(s: seq<T>, keep: set<T>)
    requires NoDuplicates(s)
    ensures NoDuplicates(Keep(s, keep))
  {
    if s != [] {
      var init := s[..|s| - 1];
      KeepNoDuplicates(init, keep);
      KeepMembers(init, keep);
    }
  }

  lemma {:induction false} EnumerationHasSize<T>(s: seq<T>, elems: set<T>)
    requires Enumerates(s, elems)
    ensures |s| == |elems|
  {
    if s == [] {
      assert elems == {};
    } else {
      var init, last := s[..|s| - 1], s[|s| - 1];
      assert s == init + [last];
      assert forall x | x in init :: x != last;
      EnumerationHasSize(init, elems - {last});
    }
  }

  lemma {:induction false} EnumerationMultiset<T>(s: seq<T>, elems: set<T>)
    requires Enumerates(s, elems)
    ensures multiset(s) == multiset(elems)
  {
    if s == [] {
      assert elems == {};
    } else {
      var init, last := s[..|s| - 1], s[|s| - 1];
      assert s == init + [last];
      assert forall x | x in init :: x != last;
      EnumerationMultiset(init, elems - {last});
      assert elems == (elems - {last}) + {last};
    }
  }

  lemma {:induction false} KeepTwice<T>(s: seq<T>, a: set<T>, b: set<T>)
    ensures Keep(Keep(s, a), b) == Keep(s, a * b)
  {
    if s != [] {
      var init, kept := s[..|s| - 1], Keep(s[..|s| - 1], a);
      KeepTwice(init, a, b);
      if s[|s| - 1] in a {
        assert (kept + [s[|s| - 1]])[..|kept|] == kept;
      }
    }
  }

  // ---------- List without a field selector ----------

  /** Each index bucket that List may choose holds exactly the objects asked for. */
  lemma {:induction false} SelectedIsScan(store: Store, indexers: Indexers, cluster: string, ns: string)
    requires StandardIndexes(indexers) && LegalStore(store) && '/' !in cluster
    ensures Selected(store, indexers, cluster, ns) == Ok(Scan(store, cluster, ns, None))
  {
    match ListIndex(indexers, cluster, ns)
    case None =>
      assert store.Keys == Scan(store, cluster, ns, None);
    case Some((index, x)) =>
      forall k | k in store ensures Yields(indexers[index], store[k], x) <==> k in Scan(store, cluster, ns, None) {
        if index == CLUSTER_AND_NAMESPACE_INDEX {
          ClusterAndNamespaceIndexKeyInjective(ClusterOf(store[k]), store[k].namespace, cluster, ns);
        }
      }
      assert Bucket(store, indexers[index], x) == Scan(store, cluster, ns, None);
  }

  /** `picked` is what List answers with when its candidates come in `order`. */
  ghost predicate ListAnswers(store: Store, indexers: Indexers, cluster: string, opts: ListOptions,
                              order: seq<string>, picked: seq<string>)
  {
    && Candidates(store, indexers, cluster, opts, Ok(order))
    && picked == Truncate(Keep(order, LabelMatches(store, opts.labelSelector)), opts.limit)
  }

  /** `picked` is the matching part of `order`, cut off at a positive limit, where `wanted` is all that matches. */
  ghost predicate IsLimited(picked: seq<string>, order: seq<string>, wanted: set<string>, limit: int) {
    && picked <= Keep(order, wanted)
    && NoDuplicates(picked) && (forall k | k in picked :: k in wanted)
    && (limit <= 0 ==> Enumerates(picked, wanted))
    && |picked| == (if 0 < limit < |wanted| then limit else |wanted|)
  }

  lemma {:induction false} TruncatedKeepIsLimited(order: seq<string>, all: set<string>, matching: set<string>, limit: int)
    requires Enumerates(order, all)
    ensures IsLimited(Truncate(Keep(order, matching), limit), order, all * matching, limit)
  {
    var wanted := all * matching;
    KeepEnumerates(order, all, matching);
    KeepEnumerates(order, all, wanted);
    KeepDependsOnMembers(order, matching, wanted);
    EnumerationHasSize(Keep(order, wanted), wanted);
  }

  /** List is the plain scan in the bucket's order, cut off at the limit. */
  lemma {:induction false} ListIsLimitedScan(store: Store, indexers: Indexers, cluster: string, opts: ListOptions,
                                             order: seq<string>, picked: seq<string>)
    requires StandardIndexes(indexers) && LegalStore(store) && '/' !in cluster
    requires opts.fieldSelector.None? && ListAnswers(store, indexers, cluster, opts, order, picked)
    ensures Enumerates(order, Scan(store, cluster, opts.namespace, None))
    ensures IsLimited(picked, order, Scan(store, cluster, opts.namespace, opts.labelSelector), opts.limit)
  {
    var all, matching := Scan(store, cluster, opts.namespace, None), LabelMatches(store, opts.labelSelector);
    SelectedIsScan(store, indexers, cluster, opts.namespace);
    TruncatedKeepIsLimited(order, all, matching, opts.limit);
    assert Scan(store, cluster, opts.namespace, opts.labelSelector) == all * matching;
  }

  lemma {:induction false} KeepDependsOnMembers<T>(s: seq<T>, a: set<T>, b: set<T>)
    requires forall x | x in s :: x in a <==> x in b
    ensures Keep(s, a) == Keep(s, b)
  {
    if s != [] {
      KeepDependsOnMembers(s[..|s| - 1], a, b);
    }
  }

  // ---------- scoped and unscoped readers ----------

  function ClustersOf(store: Store): set<string> {
    set k | k in store :: ClusterOf(store[k])
  }

  function Concat<T>(clusters: seq<string>, parts: map<string, seq<T>>): seq<T>
    requires forall c | c in clusters :: c in parts
  {
    if clusters == [] then []
    else Concat(clusters[..|clusters| - 1], parts) + parts[clusters[|clusters| - 1]]
  }

  /** Unlimited lists: the unscoped one has exactly the elements of the scoped ones together, each once. */
  lemma {:induction false} ScopedListsPartitionUnscoped(
    store: Store, indexers: Indexers, opts: ListOptions, allOrder: seq<string>, all: seq<string>,
    clusters: seq<string>, orders: map<string, seq<string>>, parts: map<string, seq<string>>)
    requires StandardIndexes(indexers) && LegalStore(store)
    requires opts.fieldSelector.None? && opts.limit <= 0
    requires ListAnswers(store, indexers, "", opts, allOrder, all)
    requires Enumerates(clusters, ClustersOf(store))
    requires forall c | c in clusters ::
               c in orders && c in parts && ListAnswers(store, indexers, c, opts, orders[c], parts[c])
    ensures multiset(all) == multiset(Concat(clusters, parts))
  {
    ListIsLimitedScan(store, indexers, "", opts, allOrder, all);
    EnumerationMultiset(all, Scan(store, "", opts.namespace, opts.labelSelector));
    forall c | c in clusters ensures Enumerates(parts[c], Scan(store, c, opts.namespace, opts.labelSelector)) {
      var k :| k in store && ClusterOf(store[k]) == c;
      ListIsLimitedScan(store, indexers, c, opts, orders[c], parts[c]);
    }
    assert forall c | c in clusters :: c != "" by {
      forall c | c in clusters ensures c != "" {
        var k :| k in store && ClusterOf(store[k]) == c;
      }
    }
    ConcatEnumerates(store, opts, clusters, parts);
    assert Scan(store, "", opts.namespace, opts.labelSelector) == ScanAny(store, clusters, opts) by {
      forall k | k in store ensures ClusterOf(store[k]) in clusters {
        assert ClusterOf(store[k]) in ClustersOf(store);
      }
    }
    EnumerationMultiset(Concat(clusters, parts), ScanAny(store, clusters, opts));
  }

  function ScanAny(store: Store, clusters: seq<string>, opts: ListOptions): set<string> {
    set k | k in Scan(store, "", opts.namespace, opts.labelSelector) && ClusterOf(store[k]) in clusters
  }

  lemma {:induction false} ConcatEnumerates(store: Store, opts: ListOptions, clusters: seq<string>, parts: map<string, seq<string>>)
    requires NoDuplicates(clusters) && "" !in clusters
    requires forall c | c in clusters ::
               c in parts && Enumerates(parts[c], Scan(store, c, opts.namespace, opts.labelSelector))
    ensures Enumerates(Concat(clusters, parts), ScanAny(store, clusters, opts))
  {
    if clusters != [] {
      var init, last := clusters[..|clusters| - 1], clusters[|clusters| - 1];
      assert clusters == init + [last];
      ConcatEnumerates(store, opts, init, parts);
      assert forall c | c in init :: c != last;
      AppendEnumerates(Concat(init, parts), ScanAny(store, init, opts),
                       parts[last], Scan(store, last, opts.namespace, opts.labelSelector));
      assert ScanAny(store, clusters, opts) ==
        ScanAny(store, init, opts) + Scan(store, last, opts.namespace, opts.labelSelector);
    }
  }

  lemma {:induction false} AppendEnumerates<T>(s: seq<T>, a: set<T>, t: seq<T>, b: set<T>)
    requires Enumerates(s, a) && Enumerates(t, b) && a !! b
    ensures Enumerates(s + t, a + b)
  {
    var u := s + t;
    forall i, j | 0 <= i < j < |u| ensures u[i] != u[j] {
      assert u[i] in s || u[i] in t;
      if i < |s| <= j {
        assert u[i] in a && u[j] in b;
      }
    }
  }

  // ---------- List with a field selector ----------

  /** Every requirement's index is registered, and its function fails on no stored object. */
  ghost predicate Indexed(store: Store, indexers: Indexers, reqs: seq<Requirement>) {
    forall i :: 0 <= i < |reqs| ==>
      && FieldIndexName(reqs[i].field) in indexers
      && forall k | k in store :: indexers[FieldIndexName(reqs[i].field)](store[k]).Ok?
  }

  /** The object's index entries contain what the requirement asks for. */
  predicate Files(indexers: Indexers, cluster: string, ns: string, v: Value, req: Requirement) {
    && FieldIndexName(req.field) in indexers
    && Yields(indexers[FieldIndexName(req.field)], v, IndexedValue(indexers, cluster, ns, req))
  }

  /** The plain scan for a field selector. */
  function FieldScan(store: Store, indexers: Indexers, cluster: string, ns: string, reqs: seq<Requirement>): set<string> {
    set k | k in store && forall i :: 0 <= i < |reqs| ==> Files(indexers, cluster, ns, store[k], reqs[i])
  }

  lemma {:induction false} FilterByIndexIsKeep(store: Store, fn: IndexFunc, x: string, keys: seq<string>)
    requires forall k | k in keys :: k in store
    requires forall k | k in store :: fn(store[k]).Ok?
    ensures FilterByIndex(store, fn, x, keys) == Ok(Keep(keys, Bucket(store, fn, x)))
  {
    if keys != [] {
      FilterByIndexIsKeep(store, fn, x, keys[..|keys| - 1]);
    }
  }

  lemma {:induction false} FieldScanSplits(store: Store, indexers: Indexers, cluster: string, ns: string, reqs: seq<Requirement>)
    requires reqs != [] && FieldIndexName(reqs[0].field) in indexers
    ensures FieldScan(store, indexers, cluster, ns, reqs) ==
      Bucket(store, indexers[FieldIndexName(reqs[0].field)], IndexedValue(indexers, cluster, ns, reqs[0]))
      * FieldScan(store, indexers, cluster, ns, reqs[1..])
  {
    forall k | k in store
      ensures k in FieldScan(store, indexers, cluster, ns, reqs) <==>
        Files(indexers, cluster, ns, store[k], reqs[0]) && k in FieldScan(store, indexers, cluster, ns, reqs[1..])
    {
      assert forall i :: 0 < i < |reqs| ==> reqs[i] == reqs[1..][i - 1];
      assert forall i :: 0 <= i < |reqs[1..]| ==> reqs[1..][i] == reqs[i + 1];
    }
  }

  /** Narrowing step by step keeps what the whole scan keeps; stopping early loses nothing. */
  lemma {:induction false} RefineIsKeep(store: Store, indexers: Indexers, cluster: string, ns: string, reqs: seq<Requirement>,
                                        keys: seq<string>)
    requires Indexed(store, indexers, reqs) && forall k | k in keys :: k in store
    ensures Refine(store, indexers, cluster, ns, reqs, keys) == Ok(Keep(keys, FieldScan(store, indexers, cluster, ns, reqs)))
    decreases |reqs|
  {
    if reqs == [] {
      KeepAll(keys, FieldScan(store, indexers, cluster, ns, reqs));
    } else {
      var fn, x := indexers[FieldIndexName(reqs[0].field)], IndexedValue(indexers, cluster, ns, reqs[0]);
      FilterByIndexIsKeep(store, fn, x, keys);
      FieldScanSplits(store, indexers, cluster, ns, reqs);
      KeepTwice(keys, Bucket(store, fn, x), FieldScan(store, indexers, cluster, ns, reqs[1..]));
      KeepMembers(keys, Bucket(store, fn, x));
      assert forall i :: 0 <= i < |reqs[1..]| ==> reqs[1..][i] == reqs[i + 1];
      RefineIsKeep(store, indexers, cluster, ns, reqs[1..], Keep(keys, Bucket(store, fn, x)));
    }
  }

  lemma {:induction false} KeepAll<T>(s: seq<T>, keep: set<T>)
    requires forall x | x in s :: x in keep
    ensures Keep(s, keep) == s
  {
    if s != [] {
      KeepAll(s[..|s| - 1], keep);
      assert s == s[..|s| - 1] + [s[|s| - 1]];
    }
  }

  /** byIndexes answers with the conjunctive scan, without duplicates, in the order of the first bucket. */
  lemma {:induction false} ByIndexesIsScan(store: Store, indexers: Indexers, cluster: string, ns: string,
                                           reqs: seq<Requirement>, first: seq<string>)
    requires reqs != [] && Indexed(store, indexers, reqs) && FirstBucket(store, indexers, cluster, ns, reqs, first)
    ensures var scan := FieldScan(store, indexers, cluster, ns, reqs);
      && ByIndexesAnswer(store, indexers, cluster, ns, reqs, first) == Ok(Keep(first, scan))
      && Enumerates(Keep(first, scan), scan)
  {
    var scan, rest := FieldScan(store, indexers, cluster, ns, reqs), FieldScan(store, indexers, cluster, ns, reqs[1..]);
    var bucket := Bucket(store, indexers[FieldIndexName(reqs[0].field)], IndexedValue(indexers, cluster, ns, reqs[0]));
    FieldScanSplits(store, indexers, cluster, ns, reqs);
    assert forall i :: 0 <= i < |reqs[1..]| ==> reqs[1..][i] == reqs[i + 1];
    RefineIsKeep(store, indexers, cluster, ns, reqs[1..], first);
    KeepDependsOnMembers(first, scan, rest);
    KeepEnumerates(first, bucket, scan);
    assert bucket * scan == scan;
  }

  /** The order in which the requirements are written does not matter for which objects are found. */
  lemma {:induction false} RequirementOrderIsIrrelevant(
    store: Store, indexers: Indexers, cluster: string, ns: string,
    reqs1: seq<Requirement>, first1: seq<string>, reqs2: seq<Requirement>, first2: seq<string>)
    requires reqs1 != [] && Indexed(store, indexers, reqs1) && FirstBucket(store, indexers, cluster, ns, reqs1, first1)
    requires reqs2 != [] && FirstBucket(store, indexers, cluster, ns, reqs2, first2)
    requires (forall r | r in reqs1 :: r in reqs2) && (forall r | r in reqs2 :: r in reqs1)
    ensures var a1 := ByIndexesAnswer(store, indexers, cluster, ns, reqs1, first1);
            var a2 := ByIndexesAnswer(store, indexers, cluster, ns, reqs2, first2);
      a1.Ok? && a2.Ok? && multiset(a1.value) == multiset(a2.value)
  {
    forall i | 0 <= i < |reqs2|
      ensures FieldIndexName(reqs2[i].field) in indexers
      ensures forall k | k in store :: indexers[FieldIndexName(reqs2[i].field)](store[k]).Ok?
    {
      assert reqs2[i] in reqs1;
    }
    ByIndexesIsScan(store, indexers, cluster, ns, reqs1, first1);
    ByIndexesIsScan(store, indexers, cluster, ns, reqs2, first2);
    var scan1, scan2 := FieldScan(store, indexers, cluster, ns, reqs1), FieldScan(store, indexers, cluster, ns, reqs2);
    forall k | k in store ensures k in scan1 <==> k in scan2 {
      assert k in scan1 <==> forall r | r in reqs1 :: Files(indexers, cluster, ns, store[k], r);
      assert k in scan2 <==> forall r | r in reqs2 :: Files(indexers, cluster, ns, store[k], r);
    }
    assert scan1 == scan2;
    EnumerationMultiset(Keep(first1, scan1), scan1);
    EnumerationMultiset(Keep(first2, scan2), scan2);
  }

  /** What the requirement, operator included, says about an object. */
  predicate Meets(indexers: Indexers, cluster: string, ns: string, v: Value, req: Requirement) {
    match req.op
    case Equals | DoubleEquals => Files(indexers, cluster, ns, v, req)
    case NotEquals => !Files(indexers, cluster, ns, v, req)
    case OtherOperator => false
  }

  /** byIndexes never looks at operators, and List never lets it see one where that would matter. */
  lemma {:induction false} FieldListMeetsSelector(store: Store, indexers: Indexers, cluster: string, opts: ListOptions,
                                                  c: Result<seq<string>, ReadError>)
    requires opts.fieldSelector.Some? && opts.continueToken == ""
    requires Indexed(store, indexers, opts.fieldSelector.value)
    requires Candidates(store, indexers, cluster, opts, c)
    ensures c.Ok? <==> opts.fieldSelector.value != []
                       && forall r | r in opts.fieldSelector.value :: !r.op.NotEquals? && !r.op.OtherOperator?
    ensures c.Ok? ==> Enumerates(c.value,
      set k | k in store && forall r | r in opts.fieldSelector.value :: Meets(indexers, cluster, opts.namespace, store[k], r))
  {
    var reqs := opts.fieldSelector.value;
    assert forall i :: 0 <= i < |reqs| ==> reqs[i] in reqs;
    if RequiresExactMatch(reqs) {
      var first :| FirstBucket(store, indexers, cluster, opts.namespace, reqs, first)
        && c == ByIndexesAnswer(store, indexers, cluster, opts.namespace, reqs, first);
      ByIndexesIsScan(store, indexers, cluster, opts.namespace, reqs, first);
      forall k | k in store
        ensures k in FieldScan(store, indexers, cluster, opts.namespace, reqs) <==>
          forall r | r in reqs :: Meets(indexers, cluster, opts.namespace, store[k], r)
      {
        assert forall i :: 0 <= i < |reqs| ==>
          (Meets(indexers, cluster, opts.namespace, store[k], reqs[i]) <==> Files(indexers, cluster, opts.namespace, store[k], reqs[i]));
      }
    }
  }

  /** With a field selector too, List is the plain scan by fields and labels in the first bucket's order, cut off at the limit. */
  lemma {:induction false} FieldListIsLimitedScan(store: Store, indexers: Indexers, cluster: string, opts: ListOptions,
                                                  order: seq<string>, picked: seq<string>)
    requires opts.fieldSelector.Some? && Indexed(store, indexers, opts.fieldSelector.value)
    requires ListAnswers(store, indexers, cluster, opts, order, picked)
    ensures var fields := FieldScan(store, indexers, cluster, opts.namespace, opts.fieldSelector.value);
      && Enumerates(order, fields)
      && IsLimited(picked, order, fields * LabelMatches(store, opts.labelSelector), opts.limit)
  {
    var reqs := opts.fieldSelector.value;
    var first :| FirstBucket(store, indexers, cluster, opts.namespace, reqs, first)
      && Ok(order) == ByIndexesAnswer(store, indexers, cluster, opts.namespace, reqs, first);
    ByIndexesIsScan(store, indexers, cluster, opts.namespace, reqs, first);
    TruncatedKeepIsLimited(order, FieldScan(store, indexers, cluster, opts.namespace, reqs),
                           LabelMatches(store, opts.labelSelector), opts.limit);
  }

  /** A missing index is reported unless the requirements before it already leave nothing. */
  lemma {:induction false} MissingIndexIsReported(store: Store, indexers: Indexers, cluster: string, ns: string,
                                                  reqs: seq<Requirement>, first: seq<string>, j: nat)
    requires j < |reqs| && Indexed(store, indexers, reqs[..j]) && FieldIndexName(reqs[j].field) !in indexers
    requires FirstBucket(store, indexers, cluster, ns, reqs, first)
    ensures ByIndexesAnswer(store, indexers, cluster, ns, reqs, first) ==
      if j > 0 && FieldScan(store, indexers, cluster, ns, reqs[..j]) == {} then Ok([])
      else Err(NoIndex(FieldIndexName(reqs[j].field)))
  {
    if j > 0 {
      assert reqs[..j][0] == reqs[0];
      assert FirstBucket(store, indexers, cluster, ns, reqs[..j], first);
      ByIndexesIsScan(store, indexers, cluster, ns, reqs[..j], first);
      var scan := FieldScan(store, indexers, cluster, ns, reqs[..j]);
      EnumerationHasSize(Keep(first, scan), scan);
      if first != [] {
        LaterRequirementIsMissing(store, indexers, cluster, ns, reqs, first, j);
      }
    }
  }

  lemma {:induction false} LaterRequirementIsMissing(store: Store, indexers: Indexers, cluster: string, ns: string,
                                                     reqs: seq<Requirement>, first: seq<string>, j: nat)
    requires 0 < j < |reqs| && Indexed(store, indexers, reqs[..j]) && FieldIndexName(reqs[j].field) !in indexers
    requires first != [] && forall k | k in first :: k in store && Files(indexers, cluster, ns, store[k], reqs[0])
    ensures Refine(store, indexers, cluster, ns, reqs[1..], first) ==
      if Keep(first, FieldScan(store, indexers, cluster, ns, reqs[..j])) == [] then Ok([])
      else Err(NoIndex(FieldIndexName(reqs[j].field)))
  {
    var later := reqs[1..][..j - 1];
    assert later == reqs[..j][1..] && reqs[..j][0] == reqs[0];
    assert forall i :: 0 <= i < |later| ==> later[i] == reqs[..j][i + 1];
    FieldScanSplits(store, indexers, cluster, ns, reqs[..j]);
    KeepDependsOnMembers(first, FieldScan(store, indexers, cluster, ns, reqs[..j]), FieldScan(store, indexers, cluster, ns, later));
    RefineStopsAtMissing(store, indexers, cluster, ns, reqs[1..], first, j - 1);
  }

  lemma {:induction false} RefineStopsAtMissing(store: Store, indexers: Indexers, cluster: string, ns: string,
                                                reqs: seq<Requirement>, keys: seq<string>, j: nat)
    requires keys != [] && forall k | k in keys :: k in store
    requires j < |reqs| && Indexed(store, indexers, reqs[..j]) && FieldIndexName(reqs[j].field) !in indexers
    ensures Refine(store, indexers, cluster, ns, reqs, keys) ==
      if Keep(keys, FieldScan(store, indexers, cluster, ns, reqs[..j])) == [] then Ok([])
      else Err(NoIndex(FieldIndexName(reqs[j].field)))
    decreases |reqs|
  {
    if j == 0 {
      KeepAll(keys, FieldScan(store, indexers, cluster, ns, reqs[..j]));
    } else {
      assert reqs[..j][0] == reqs[0];
      var fn, x := indexers[FieldIndexName(reqs[0].field)], IndexedValue(indexers, cluster, ns, reqs[0]);
      var kept := Keep(keys, Bucket(store, fn, x));
      FilterByIndexIsKeep(store, fn, x, keys);
      KeepMembers(keys, Bucket(store, fn, x));
      FieldScanSplits(store, indexers, cluster, ns, reqs[..j]);
      var later := reqs[1..][..j - 1];
      assert later == reqs[..j][1..];
      assert forall i :: 0 <= i < |later| ==> later[i] == reqs[..j][i + 1];
      KeepTwice(keys, Bucket(store, fn, x), FieldScan(store, indexers, cluster, ns, later));
      if kept != [] {
        RefineStopsAtMissing(store, indexers, cluster, ns, reqs[1..], kept, j - 1);
      }
    }
  }

  /** The index function of a field files each extracted value under the object's cluster, with and without namespace. */
  ghost predicate EncodesField(fn: IndexFunc, extract: Value -> seq<string>) {
    forall v :: fn(v).Ok? && forall x :: x in fn(v).value <==>
      exists e | e in extract(v) :: x == KeyToClusteredKey(ClusterOf(v), v.namespace, e) || x == KeyToClusteredKey(ClusterOf(v), "", e)
  }

  /**
   On such indexes a requirement finds exactly the objects of the reader's cluster and namespace with the required
   value. An unscoped reader's cluster is "", which is the cluster of no object.
   */
  lemma {:induction false} EncodedFieldIsScan(store: Store, indexers: Indexers, cluster: string, ns: string,
                                              req: Requirement, extract: Value -> seq<string>, k: string)
    requires ClusterAware(indexers) && FieldIndexName(req.field) in indexers
    requires EncodesField(indexers[FieldIndexName(req.field)], extract)
    requires LegalStore(store) && k in store && '|' !in cluster && LegalNamespace(ns)
    ensures Files(indexers, cluster, ns, store[k], req) <==>
      ClusterOf(store[k]) == cluster && (ns == "" || store[k].namespace == ns) && req.value in extract(store[k])
  {
    var v := store[k];
    var x := IndexedValue(indexers, cluster, ns, req);
    assert x == KeyToClusteredKey(cluster, ns, req.value);
    forall e | e in extract(v)
      ensures x == KeyToClusteredKey(ClusterOf(v), v.namespace, e) <==> cluster == ClusterOf(v) && ns == v.namespace && req.value == e
      ensures x == KeyToClusteredKey(ClusterOf(v), "", e) <==> cluster == ClusterOf(v) && ns == "" && req.value == e
    {
      KeyToClusteredKeyInjective(cluster, ns, req.value, ClusterOf(v), v.namespace, e);
      KeyToClusteredKeyInjective(cluster, ns, req.value, ClusterOf(v), "", e);
    }
  }

  /** What a field selector is meant to find: the plain scan by cluster (none for all of them), namespace and values. */
  function FieldsWanted(store: Store, cluster: string, ns: string, reqs: seq<Requirement>,
                        extracts: map<string, Value -> seq<string>>): set<string>
    requires forall r | r in reqs :: r.field in extracts
  {
    set k | k in Scan(store, cluster, ns, None) && forall r | r in reqs :: r.value in extracts[r.field](store[k])
  }

  /**
   Over such indexes a whole selector finds what it is meant to find, except that an unscoped reader, which List lets
   see every cluster, finds nothing at all.
   */
  lemma {:induction false} EncodedFieldListIsScan(store: Store, indexers: Indexers, cluster: string, ns: string,
                                                  reqs: seq<Requirement>, extracts: map<string, Value -> seq<string>>)
    requires ClusterAware(indexers) && reqs != [] && LegalStore(store) && LegalNamespace(ns)
    requires cluster == "" || LegalCluster(cluster)
    requires forall r | r in reqs :: r.field in extracts && FieldIndexName(r.field) in indexers
                                     && EncodesField(indexers[FieldIndexName(r.field)], extracts[r.field])
    ensures var found, wanted := FieldScan(store, indexers, cluster, ns, reqs), FieldsWanted(store, cluster, ns, reqs, extracts);
      && (found == wanted <==> cluster != "" || wanted == {})
      && (cluster == "" ==> found == {})
  {
    forall k | k in store
      ensures k in FieldScan(store, indexers, cluster, ns, reqs) <==>
        cluster != "" && k in FieldsWanted(store, cluster, ns, reqs, extracts)
    {
      forall r | r in reqs
        ensures Files(indexers, cluster, ns, store[k], r) <==>
          cluster != "" && k in Scan(store, cluster, ns, None) && r.value in extracts[r.field](store[k])
      {
        EncodedFieldIsScan(store, indexers, cluster, ns, r, extracts[r.field], k);
      }
      assert reqs[0] in reqs;
      assert k in FieldScan(store, indexers, cluster, ns, reqs) <==>
        forall r | r in reqs :: Files(indexers, cluster, ns, store[k], r);
    }
  }

  /** An index of the field `metadata.name` in the form that the reader expects. */
  function NameIndexFunc(v: Value): Result<seq<string>, string> {
    Ok([KeyToClusteredKey(ClusterOf(v), v.namespace, v.name), KeyToClusteredKey(ClusterOf(v), "", v.name)])
  }

  /** For instance: of any one stored object, the scoped reader finds it by its name and the unscoped reader does not. */
  lemma {:induction false} UnscopedFieldListMissesObject(v: Value, indexers: Indexers)
    requires LegalObject(v) && ClusterAware(indexers)
    requires FieldIndexName("metadata.name") in indexers && indexers[FieldIndexName("metadata.name")] == NameIndexFunc
    ensures var store, reqs := map[StoreKey(true, v) := v], [Requirement("metadata.name", Equals, v.name)];
      && FieldScan(store, indexers, ClusterOf(v), v.namespace, reqs) == {StoreKey(true, v)}
      && FieldScan(store, indexers, "", v.namespace, reqs) == {}
  {
    var store, reqs := map[StoreKey(true, v) := v], [Requirement("metadata.name", Equals, v.name)];
    var name := (w: Value) => [w.name];
    assert EncodesField(NameIndexFunc, name) by {
      assert forall w: Value :: w.name in name(w);
    }
    var extracts := map["metadata.name" := name];
    EncodedFieldListIsScan(store, indexers, ClusterOf(v), v.namespace, reqs, extracts);
    EncodedFieldListIsScan(store, indexers, "", v.namespace, reqs, extracts);
    assert FieldsWanted(store, ClusterOf(v), v.namespace, reqs, extracts) == {StoreKey(true, v)};
  }

  // ---------- Get ----------

  /** Get finds an object exactly when there is one with that cluster, namespace and name; it is the only one. */
  lemma {:induction false} GetFindsByIdentity(store: Store, indexers: Indexers, root: bool, gvk: string,
                                              cluster: string, ns: string, name: string, k: string)
    requires ClusterAware(indexers) && KeyedByCluster(store) && LegalStore(store)
    requires LegalCluster(cluster) && LegalNamespace(ns) && LegalName(name)
    ensures GetAnswer(store, indexers, root, gvk, cluster, ns, name) == Ok(k) <==>
      k in store && ClusterOf(store[k]) == cluster && store[k].namespace == (if root then "" else ns) && store[k].name == name
  {
    var key := ClusteredStoreKey(cluster, if root then "" else ns, name);
    if key in store {
      assert StoreKey(true, store[key]) == key;
      ClusteredStoreKeyInjective(cluster, if root then "" else ns, name, ClusterOf(store[key]), store[key].namespace, store[key].name);
    }
    if k in store {
      assert StoreKey(true, store[k]) == k;
    }
  }

  /** Get and the scoped List of the same namespace agree on every name; for root-scoped kinds, whatever the namespace. */
  lemma {:induction false} GetAgreesWithList(
    store: Store, indexers: Indexers, root: bool, gvk: string, cluster: string, ns: string, name: string,
    opts: ListOptions, order: seq<string>, picked: seq<string>, k: string)
    requires StandardIndexes(indexers) && KeyedByCluster(store) && LegalStore(store)
    requires LegalCluster(cluster) && LegalNamespace(ns) && LegalName(name)
    requires if root then opts.namespace == "" && forall o | o in store :: store[o].namespace == ""
             else ns != "" && opts.namespace == ns
    requires opts.fieldSelector.None? && opts.labelSelector.None? && opts.limit <= 0
    requires ListAnswers(store, indexers, cluster, opts, order, picked)
    ensures GetAnswer(store, indexers, root, gvk, cluster, ns, name) == Ok(k) <==> k in picked && k in store && store[k].name == name
  {
    ListIsLimitedScan(store, indexers, cluster, opts, order, picked);
    GetFindsByIdentity(store, indexers, root, gvk, cluster, ns, name, k);
  }

  // ---------- clusters do not see each other ----------

  function Restrict(store: Store, cluster: string): Store {
    map k | k in store && ClusterOf(store[k]) == cluster :: store[k]
  }

  /** What a scoped Get answers depends on its own cluster's objects only, whatever name it is asked for. */
  lemma {:induction false} GetSeesOwnClusterOnly(store: Store, indexers: Indexers, root: bool, gvk: string,
                                                 cluster: string, ns: string, name: string)
    requires ClusterAware(indexers) && KeyedByCluster(store) && LegalStore(store) && '|' !in cluster
    ensures GetAnswer(store, indexers, root, gvk, cluster, ns, name) ==
            GetAnswer(Restrict(store, cluster), indexers, root, gvk, cluster, ns, name)
  {
    var key := ClusteredStoreKey(cluster, if root then "" else ns, name);
    if key in store {
      assert StoreKey(true, store[key]) == key;
      ClusteredStoreKeyInjective(cluster, if root then "" else ns, name, ClusterOf(store[key]), store[key].namespace, store[key].name);
    }
  }

  /** The index function files an object under keys of the object's own cluster only. */
  ghost predicate FilesByCluster(fn: IndexFunc) {
    forall v, x :: Yields(fn, v, x) ==> exists ns, e :: x == KeyToClusteredKey(ClusterOf(v), ns, e)
  }

  /** The index that supplies the candidates of a field selector, if any, files objects by their cluster. */
  ghost predicate FieldsByCluster(indexers: Indexers, opts: ListOptions) {
    opts.fieldSelector.Some? && opts.fieldSelector.value != [] ==>
      var index := FieldIndexName(opts.fieldSelector.value[0].field);
      index in indexers ==> FilesByCluster(indexers[index])
  }

  lemma {:induction false} RefineShrinks(store: Store, indexers: Indexers, cluster: string, ns: string,
                                         reqs: seq<Requirement>, keys: seq<string>)
    requires forall k | k in keys :: k in store
    ensures var c := Refine(store, indexers, cluster, ns, reqs, keys); c.Ok? ==> forall k | k in c.value :: k in keys
    decreases |reqs|
  {
    if reqs != [] && FieldIndexName(reqs[0].field) in indexers {
      var fn, x := indexers[FieldIndexName(reqs[0].field)], IndexedValue(indexers, cluster, ns, reqs[0]);
      FilterByIndexShrinks(store, fn, x, keys);
      var kept := FilterByIndex(store, fn, x, keys);
      if kept.Ok? {
        RefineShrinks(store, indexers, cluster, ns, reqs[1..], kept.value);
      }
    }
  }

  lemma {:induction false} FilterSeesCandidatesOnly(store: Store, own: Store, fn: IndexFunc, x: string, keys: seq<string>)
    requires forall k | k in keys :: k in store && k in own && store[k] == own[k]
    ensures FilterByIndex(store, fn, x, keys) == FilterByIndex(own, fn, x, keys)
  {
    if keys != [] {
      FilterSeesCandidatesOnly(store, own, fn, x, keys[..|keys| - 1]);
    }
  }

  lemma {:induction false} RefineSeesCandidatesOnly(store: Store, own: Store, indexers: Indexers, cluster: string, ns: string,
                                                    reqs: seq<Requirement>, keys: seq<string>)
    requires forall k | k in keys :: k in store && k in own && store[k] == own[k]
    ensures Refine(store, indexers, cluster, ns, reqs, keys) == Refine(own, indexers, cluster, ns, reqs, keys)
    decreases |reqs|
  {
    if reqs != [] && FieldIndexName(reqs[0].field) in indexers {
      var fn, x := indexers[FieldIndexName(reqs[0].field)], IndexedValue(indexers, cluster, ns, reqs[0]);
      FilterSeesCandidatesOnly(store, own, fn, x, keys);
      FilterByIndexShrinks(store, fn, x, keys);
      var kept := FilterByIndex(store, fn, x, keys);
      if kept.Ok? {
        RefineSeesCandidatesOnly(store, own, indexers, cluster, ns, reqs[1..], kept.value);
      }
    }
  }

  /** An index that files by cluster has only the cluster's own objects in the bucket that a scoped reader asks for. */
  lemma {:induction false} ClusteredBucketIsOwn(store: Store, indexers: Indexers, cluster: string, ns: string, req: Requirement)
    requires ClusterAware(indexers) && FieldIndexName(req.field) in indexers && LegalStore(store) && '|' !in cluster
    requires FilesByCluster(indexers[FieldIndexName(req.field)])
    ensures var fn, x := indexers[FieldIndexName(req.field)], IndexedValue(indexers, cluster, ns, req);
      Bucket(store, fn, x) == Bucket(Restrict(store, cluster), fn, x)
  {
    var fn, x := indexers[FieldIndexName(req.field)], IndexedValue(indexers, cluster, ns, req);
    forall k | k in store && Yields(fn, store[k], x) ensures ClusterOf(store[k]) == cluster {
      var ns', e :| x == KeyToClusteredKey(ClusterOf(store[k]), ns', e);
      SplitAtSeparator(cluster, KeyToNamespacedKey(ns, req.value), ClusterOf(store[k]), KeyToNamespacedKey(ns', e), '|');
    }
  }

  /** All that a field selector finds through a scoped reader, errors included, depends on its own cluster's objects only. */
  lemma {:induction false} FieldCandidatesSeeOwnClusterOnly(store: Store, indexers: Indexers, cluster: string, ns: string,
                                                            reqs: seq<Requirement>, first: seq<string>)
    requires ClusterAware(indexers) && LegalStore(store) && '|' !in cluster
    requires reqs != [] && FieldIndexName(reqs[0].field) in indexers && FilesByCluster(indexers[FieldIndexName(reqs[0].field)])
    ensures var own := Restrict(store, cluster);
      && (FirstBucket(store, indexers, cluster, ns, reqs, first) <==> FirstBucket(own, indexers, cluster, ns, reqs, first))
      && (FirstBucket(own, indexers, cluster, ns, reqs, first) ==>
            ByIndexesAnswer(store, indexers, cluster, ns, reqs, first) == ByIndexesAnswer(own, indexers, cluster, ns, reqs, first))
  {
    ClusteredBucketIsOwn(store, indexers, cluster, ns, reqs[0]);
    var own := Restrict(store, cluster);
    if FirstBucket(own, indexers, cluster, ns, reqs, first) {
      RefineSeesCandidatesOnly(store, own, indexers, cluster, ns, reqs[1..], first);
    }
  }

  lemma {:induction false} CandidatesAreStored(store: Store, indexers: Indexers, cluster: string, opts: ListOptions, order: seq<string>)
    requires Candidates(store, indexers, cluster, opts, Ok(order))
    ensures forall k | k in order :: k in store
  {
    if opts.fieldSelector.Some? {
      var reqs := opts.fieldSelector.value;
      var first :| FirstBucket(store, indexers, cluster, opts.namespace, reqs, first)
        && Ok(order) == ByIndexesAnswer(store, indexers, cluster, opts.namespace, reqs, first);
      RefineShrinks(store, indexers, cluster, opts.namespace, reqs[1..], first);
    }
  }

  lemma {:induction false} CandidatesSeeOwnClusterOnly(store: Store, indexers: Indexers, cluster: string, opts: ListOptions,
                                                       c: Result<seq<string>, ReadError>)
    requires StandardIndexes(indexers) && LegalStore(store) && LegalCluster(cluster) && FieldsByCluster(indexers, opts)
    ensures Candidates(store, indexers, cluster, opts, c) <==> Candidates(Restrict(store, cluster), indexers, cluster, opts, c)
  {
    var own := Restrict(store, cluster);
    match opts.fieldSelector
    case None =>
      SelectedIsScan(store, indexers, cluster, opts.namespace);
      SelectedIsScan(own, indexers, cluster, opts.namespace);
      assert Scan(store, cluster, opts.namespace, None) == Scan(own, cluster, opts.namespace, None);
    case Some(reqs) =>
      if reqs != [] {
        if FieldIndexName(reqs[0].field) in indexers {
          forall first: seq<string> {
            FieldCandidatesSeeOwnClusterOnly(store, indexers, cluster, opts.namespace, reqs, first);
          }
        } else {
          assert FirstBucket(store, indexers, cluster, opts.namespace, reqs, []);
          assert FirstBucket(own, indexers, cluster, opts.namespace, reqs, []);
        }
      }
  }

  /** A scoped List answers over the whole store exactly what it could answer over its own cluster's objects. */
  lemma {:induction false} ListSeesOwnClusterOnly(store: Store, indexers: Indexers, cluster: string, opts: ListOptions,
                                                  order: seq<string>, picked: seq<string>)
    requires StandardIndexes(indexers) && LegalStore(store) && LegalCluster(cluster) && FieldsByCluster(indexers, opts)
    ensures ListAnswers(store, indexers, cluster, opts, order, picked) <==>
            ListAnswers(Restrict(store, cluster), indexers, cluster, opts, order, picked)
    ensures ListAnswers(store, indexers, cluster, opts, order, picked) ==>
            forall k | k in picked :: k in store && ClusterOf(store[k]) == cluster
  {
    var own := Restrict(store, cluster);
    CandidatesSeeOwnClusterOnly(store, indexers, cluster, opts, Ok(order));
    if Candidates(own, indexers, cluster, opts, Ok(order)) {
      CandidatesAreStored(own, indexers, cluster, opts, order);
      KeepDependsOnMembers(order, LabelMatches(store, opts.labelSelector), LabelMatches(own, opts.labelSelector));
      KeepMembers(order, LabelMatches(own, opts.labelSelector));
    }
  }
}
