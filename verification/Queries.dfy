/**
 What the readers answer, as a matter of store contents. A store maps keys to
 object values; an answer is a sequence of keys, in whatever order the indexer
 happens to enumerate a bucket.
 */
module Queries {
  import opened Prelude
  import opened Keys
  import opened Objects

  type Store = map<string, Value>
  type IndexFunc = Value -> Result<seq<string>, string>
  type Indexers = map<string, IndexFunc>
  type LabelSelector = map<string, string> -> bool

  datatype Operator = Equals | DoubleEquals | NotEquals | OtherOperator

  datatype Requirement = Requirement(field: string, op: Operator, value: string)

  datatype ListOptions = ListOptions(
    continueToken: string,
    fieldSelector: Option<seq<Requirement>>,
    namespace: string,
    labelSelector: Option<LabelSelector>,
    limit: int,
    unsafeDisableDeepCopy: Option<bool>)

  datatype ReadError =
    | ContinueUnsupported
    | NonExactFieldMatch
    | NoIndex(indexName: string)
    | IndexFuncFailed(message: string)
    | ClusterRequired
    | NotFound(kind: string, name: string)

  function ClusterIndexFunc(v: Value): Result<seq<string>, string> {
    Ok([ClusterIndexKey(ClusterOf(v))])
  }

  function ClusterAndNamespaceIndexFunc(v: Value): Result<seq<string>, string> {
    Ok([ClusterAndNamespaceIndexKey(ClusterOf(v), v.namespace)])
  }

  function NamespaceIndexFunc(v: Value): Result<seq<string>, string> {
    Ok([v.namespace])
  }

  predicate ClusterAware(indexers: Indexers) {
    CLUSTER_AND_NAMESPACE_INDEX in indexers
  }

  // ---------- buckets ----------

  predicate Yields(fn: IndexFunc, v: Value, x: string) {
    fn(v).Ok? && x in fn(v).value
  }

  /** The keys of the objects filed under `x` by `fn`. */
  function Bucket(store: Store, fn: IndexFunc, x: string): set<string> {
    set k | k in store && Yields(fn, store[k], x)
  }

  /** The elements of `s` that are in `keep`, in order. */
  function Keep<T(==)>(s: seq<T>, keep: set<T>): seq<T> {
    if s == [] then []
    else
      var kept := Keep(s[..|s| - 1], keep);
      if s[|s| - 1] in keep then kept + [s[|s| - 1]] else kept
  }

  /** The first `limit` elements, or all of them if no positive limit is given. */
  function Truncate<T>(s: seq<T>, limit: int): seq<T> {
    if 0 < limit < |s| then s[..limit] else s
  }

  function LabelMatches(store: Store, sel: Option<LabelSelector>): set<string> {
    set k | k in store && (sel.Some? ==> sel.value(store[k].labels))
  }

  // ---------- Get ----------

  /** The key Get looks up. */
  function GetKey(indexers: Indexers, root: bool, cluster: string, ns: string, name: string): Result<string, ReadError> {
    var key := ObjectKeyToStoreKey(if root then "" else ns, name);
    if !ClusterAware(indexers) then Ok(key)
    else if cluster == "" then Err(ClusterRequired)
    else Ok(cluster + "|" + key)
  }

  function GetAnswer(store: Store, indexers: Indexers, root: bool, gvk: string, cluster: string, ns: string, name: string):
    Result<string, ReadError>
  {
    match GetKey(indexers, root, cluster, ns, name)
    case Err(e) => Err(e)
    case Ok(key) => if key in store then Ok(key) else Err(NotFound(gvk, name))
  }

  // ---------- List without a field selector ----------

  /** The index and the value that List asks for, or none if it takes the whole store. */
  function ListIndex(indexers: Indexers, cluster: string, ns: string): Option<(string, string)> {
    var scoped := ClusterAware(indexers) && cluster != "";
    if ns != "" then
      if scoped then Some((CLUSTER_AND_NAMESPACE_INDEX, ClusterAndNamespaceIndexKey(cluster, ns)))
      else Some((NAMESPACE_INDEX, ns))
    else
      if scoped then Some((CLUSTER_INDEX, ClusterIndexKey(cluster)))
      else None
  }

  function Selected(store: Store, indexers: Indexers, cluster: string, ns: string): Result<set<string>, ReadError> {
    match ListIndex(indexers, cluster, ns)
    case None => Ok(store.Keys)
    case Some((index, x)) => if index in indexers then Ok(Bucket(store, indexers[index], x)) else Err(NoIndex(index))
  }

  // ---------- List with a field selector ----------

  predicate RequiresExactMatch(reqs: seq<Requirement>) {
    |reqs| > 0 && forall i :: 0 <= i < |reqs| ==> reqs[i].op.Equals? || reqs[i].op.DoubleEquals?
  }

  function IndexedValue(indexers: Indexers, cluster: string, ns: string, req: Requirement): string {
    if ClusterAware(indexers) then KeyToClusteredKey(cluster, ns, req.value) else KeyToNamespacedKey(ns, req.value)
  }

  /** The keys whose object `fn` files under `x`, unless `fn` fails on one of them. */
  function FilterByIndex(store: Store, fn: IndexFunc, x: string, keys: seq<string>): Result<seq<string>, ReadError>
    requires forall k | k in keys :: k in store
  {
    if keys == [] then Ok([])
    else
      match FilterByIndex(store, fn, x, keys[..|keys| - 1])
      case Err(e) => Err(e)
      case Ok(kept) =>
        match fn(store[keys[|keys| - 1]])
        case Err(message) => Err(IndexFuncFailed(message))
        case Ok(vals) => Ok(if x in vals then kept + [keys[|keys| - 1]] else kept)
  }

  lemma {:induction false} FilterByIndexShrinks(store: Store, fn: IndexFunc, x: string, keys: seq<string>)
    requires forall k | k in keys :: k in store
    ensures FilterByIndex(store, fn, x, keys).Ok? ==> forall k | k in FilterByIndex(store, fn, x, keys).value :: k in keys
  {
    if keys != [] {
      FilterByIndexShrinks(store, fn, x, keys[..|keys| - 1]);
    }
  }

  lemma {:induction false} FilterByIndexStep(store: Store, fn: IndexFunc, x: string, keys: seq<string>, i: nat)
    requires forall k | k in keys :: k in store
    requires i < |keys| && FilterByIndex(store, fn, x, keys[..i]).Ok? && fn(store[keys[i]]).Ok?
    ensures FilterByIndex(store, fn, x, keys[..i + 1]) ==
              Ok(if x in fn(store[keys[i]]).value then FilterByIndex(store, fn, x, keys[..i]).value + [keys[i]]
                 else FilterByIndex(store, fn, x, keys[..i]).value)
  {
    assert keys[..i + 1][..i] == keys[..i];
  }

  /** A failure among the first keys is a failure on all of them. */
  lemma {:induction false} FilterByIndexFails(store: Store, fn: IndexFunc, x: string, keys: seq<string>, i: nat)
    requires forall k | k in keys :: k in store
    requires i < |keys| && fn(store[keys[i]]).Err? && FilterByIndex(store, fn, x, keys[..i]).Ok?
    ensures FilterByIndex(store, fn, x, keys) == Err(IndexFuncFailed(fn(store[keys[i]]).error))
    decreases |keys|
  {
    if i < |keys| - 1 {
      var init := keys[..|keys| - 1];
      assert init[..i] == keys[..i];
      FilterByIndexFails(store, fn, x, init, i);
    }
  }

  /** Narrows `keys` by one requirement after the other, stopping as soon as nothing is left. */
  function Refine(store: Store, indexers: Indexers, cluster: string, ns: string, reqs: seq<Requirement>, keys: seq<string>):
    Result<seq<string>, ReadError>
    requires forall k | k in keys :: k in store
    decreases |reqs|
  {
    if reqs == [] then Ok(keys)
    else if FieldIndexName(reqs[0].field) !in indexers then Err(NoIndex(FieldIndexName(reqs[0].field)))
    else
      var fn, x := indexers[FieldIndexName(reqs[0].field)], IndexedValue(indexers, cluster, ns, reqs[0]);
      FilterByIndexShrinks(store, fn, x, keys);
      match FilterByIndex(store, fn, x, keys)
      case Err(e) => Err(e)
      case Ok(kept) => if kept == [] then Ok([]) else Refine(store, indexers, cluster, ns, reqs[1..], kept)
  }

  /** `first` is the order in which the indexer enumerated the bucket of the first requirement. */
  function ByIndexesAnswer(store: Store, indexers: Indexers, cluster: string, ns: string, reqs: seq<Requirement>,
                           first: seq<string>): Result<seq<string>, ReadError>
    requires forall k | k in first :: k in store
  {
    if reqs == [] then Ok([])
    else if FieldIndexName(reqs[0].field) !in indexers then Err(NoIndex(FieldIndexName(reqs[0].field)))
    else if first == [] then Ok([])
    else Refine(store, indexers, cluster, ns, reqs[1..], first)
  }

  /** `c` is a sequence of candidates, or an error, that List may start from before it looks at labels and limit. */
  ghost predicate Candidates(store: Store, indexers: Indexers, cluster: string, opts: ListOptions,
                             c: Result<seq<string>, ReadError>)
  {
    if opts.continueToken != "" then c == Err(ContinueUnsupported)
    else
      match opts.fieldSelector
      case Some(reqs) =>
        if !RequiresExactMatch(reqs) then c == Err(NonExactFieldMatch)
        else exists first ::
          FirstBucket(store, indexers, cluster, opts.namespace, reqs, first)
          && c == ByIndexesAnswer(store, indexers, cluster, opts.namespace, reqs, first)
      case None =>
        match Selected(store, indexers, cluster, opts.namespace)
        case Err(e) => c == Err(e)
        case Ok(keys) => c.Ok? && Enumerates(c.value, keys)
  }

  /** `first` enumerates the bucket of the first requirement, if there is such an index. */
  ghost predicate FirstBucket(store: Store, indexers: Indexers, cluster: string, ns: string, reqs: seq<Requirement>,
                              first: seq<string>)
  {
    && (forall k | k in first :: k in store)
    && (reqs != [] && FieldIndexName(reqs[0].field) in indexers ==>
          Enumerates(first, Bucket(store, indexers[FieldIndexName(reqs[0].field)], IndexedValue(indexers, cluster, ns, reqs[0]))))
  }

  lemma {:induction false} KeepStep<T>(s: seq<T>, keep: set<T>, i: nat)
    requires i < |s|
    ensures Keep(s[..i + 1], keep) == if s[i] in keep then Keep(s[..i], keep) + [s[i]] else Keep(s[..i], keep)
  {
    assert s[..i + 1][..i] == s[..i];
  }

  lemma {:induction false} KeepPrefix<T>(s: seq<T>, keep: set<T>, i: nat)
    requires i <= |s|
    ensures Keep(s[..i], keep) <= Keep(s, keep)
    decreases |s| - i
  {
    if i < |s| {
      KeepPrefix(s, keep, i + 1);
      assert s[..i + 1][..i] == s[..i];
    } else {
      assert s[..i] == s;
    }
  }
}
