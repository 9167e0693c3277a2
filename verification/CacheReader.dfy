/** The reader over one indexer, scoped to one logical cluster. */
module CacheReading {
  import opened Prelude
  import opened Keys
  import opened Objects
  import opened Queries
  import opened Indexing

  datatype CacheReader = CacheReader(
    indexer: Indexer, gvk: string, root: bool, disableDeepCopy: bool, clusterName: string)
  {
    /** `out` holds a copy of `stored`: a deep one stamped with the reader's kind, or a shallow one. */
    ghost predicate Copied(stored: Object, out: Object)
      reads stored, out, stored.labels, stored.annotations, out.labels, out.annotations
    {
      if disableDeepCopy then
        out.View() == stored.View() && out.labels == stored.labels && out.annotations == stored.annotations
      else
        out.View() == stored.View().(gvk := gvk)
    }

    method CopyOut(stored: Object, out: Object)
      requires out !in stored.Footprint()
      modifies out
      ensures Copied(stored, out)
      ensures !disableDeepCopy ==> fresh(out.labels) && fresh(out.annotations) && out.labels != out.annotations
    {
      if disableDeepCopy {
        out.CopyFrom(stored);
      } else {
        var obj := stored.DeepCopy();
        out.CopyFrom(obj);
        out.SetGroupVersionKind(gvk);
      }
    }

    /** The first half of Get: finding the object. */
    method Lookup(ns: string, name: string) returns (r: Result<string, ReadError>)
      requires indexer.Valid()
      ensures r == GetAnswer(indexer.Contents(), indexer.indexers, root, gvk, clusterName, ns, name)
      ensures r.Ok? ==> r.value in indexer.items
    {
      var storeKey := ObjectKeyToStoreKey(if root then "" else ns, name);
      var aware := CLUSTER_AND_NAMESPACE_INDEX in indexer.indexers;
      if aware && clusterName == "" {
        return Err(ClusterRequired);
      }
      if aware {
        storeKey := clusterName + "|" + storeKey;
      }
      var found := indexer.GetByKey(storeKey);
      if found.None? {
        return Err(NotFound(gvk, name));
      }
      r := Ok(storeKey);
    }

    /** Looks the object up and writes a copy of it to `out`, which belongs to the caller. */
    method Get(ns: string, name: string, out: Object) returns (r: Result<string, ReadError>)
      requires indexer.Valid() && out !in indexer.repr
      modifies out
      ensures indexer.Valid() && indexer.Contents() == old(indexer.Contents())
      ensures r == GetAnswer(indexer.Contents(), indexer.indexers, root, gvk, clusterName, ns, name)
      ensures r == Err(ClusterRequired) <==> CLUSTER_AND_NAMESPACE_INDEX in indexer.indexers && clusterName == ""
      ensures r.Err? && r.error != ClusterRequired ==> r.error == NotFound(gvk, name)
      ensures r.Err? ==> unchanged(out)
      ensures r.Ok? ==> r.value in indexer.items && Copied(indexer.items[r.value], out)
      ensures r.Ok? && !disableDeepCopy ==> fresh(out.labels) && fresh(out.annotations) && out.labels != out.annotations
    {
      r := Lookup(ns, name);
      if r.Ok? {
        var stored := indexer.items[r.value];
        assert stored.Footprint() <= indexer.repr;
        CopyOut(stored, out);
        indexer.Untouched();
      }
    }
  
    /** The middle loop of byIndexes: keeps the objects that `fn` files under `x`. */
    static method Filter(objs: seq<Object>, fn: IndexFunc, x: string, ghost store: Store, ghost keys: seq<string>)
      returns (r: Result<seq<Object>, ReadError>, ghost kept: seq<string>)
      requires Indexer.Shows(store, keys, objs)
      ensures FilterByIndex(store, fn, x, keys) == (if r.Err? then Err(r.error) else Ok(kept))
      ensures r.Ok? ==> Indexer.Shows(store, kept, r.value) && forall o | o in r.value :: o in objs
    {
      var filtered := [];
      kept := [];
      for i := 0 to |objs|
        invariant Indexer.Shows(store, kept, filtered) && forall o | o in filtered :: o in objs
        invariant FilterByIndex(store, fn, x, keys[..i]) == Ok(kept)
      {
        var vals := fn(objs[i].View());
        if vals.Err? {
          FilterByIndexFails(store, fn, x, keys, i);
          return Err(IndexFuncFailed(vals.error)), [];
        }
        var j := 0;
        while j < |vals.value| && vals.value[j] != x
          invariant 0 <= j <= |vals.value| && x !in vals.value[..j]
        {
          j := j + 1;
        }
        assert vals.value[..|vals.value|] == vals.value;
        FilterByIndexStep(store, fn, x, keys, i);
        if j < |vals.value| {
          filtered, kept := filtered + [objs[i]], kept + [keys[i]];
        }
      }
      assert keys[..|objs|] == keys;
      r := Ok(filtered);
    }

    /** Answers a field selector from one index bucket and the index functions of the other requirements. */
    method ByIndexes(reqs: seq<Requirement>, ns: string)
      returns (r: Result<seq<Object>, ReadError>, ghost first: seq<string>, ghost keys: seq<string>)
      requires indexer.Valid()
      ensures FirstBucket(indexer.Contents(), indexer.indexers, clusterName, ns, reqs, first)
      ensures ByIndexesAnswer(indexer.Contents(), indexer.indexers, clusterName, ns, reqs, first) ==
                (if r.Err? then Err(r.error) else Ok(keys))
      ensures r.Ok? ==> Indexer.Shows(indexer.Contents(), keys, r.value)
      ensures r.Ok? ==> forall o | o in r.value :: o in indexer.items.Values
    {
      first, keys := [], [];
      if reqs == [] {
        return Ok([]), first, keys;
      }
      var objs;
      var bucket;
      bucket, first := indexer.ByIndex(FieldIndexName(reqs[0].field), IndexedValue(indexer.indexers, clusterName, ns, reqs[0]));
      if bucket.Err? {
        return Err(bucket.error), [], keys;
      }
      objs, keys := bucket.value, first;
      indexer.ListsShows(objs, keys);
      if objs == [] {
        return Ok([]), first, keys;
      }
      ghost var store, answer := indexer.Contents(),
        ByIndexesAnswer(indexer.Contents(), indexer.indexers, clusterName, ns, reqs, first);
      var idx := 1;
      while idx < |reqs|
        invariant 1 <= idx <= |reqs| && Indexer.Shows(store, keys, objs)
        invariant forall o | o in objs :: o in indexer.items.Values
        invariant answer == Refine(store, indexer.indexers, clusterName, ns, reqs[idx..], keys)
      {
        assert reqs[idx..][0] == reqs[idx] && reqs[idx..][1..] == reqs[idx + 1..];
        var indexName := FieldIndexName(reqs[idx].field);
        if indexName !in indexer.indexers {
          return Err(NoIndex(indexName)), first, keys;
        }
        var filtered;
        filtered, keys := Filter(objs, indexer.indexers[indexName], IndexedValue(indexer.indexers, clusterName, ns, reqs[idx]), store, keys);
        if filtered.Err? {
          return Err(filtered.error), first, keys;
        }
        if filtered.value == [] {
          return Ok([]), first, keys;
        }
        objs := filtered.value;
        idx := idx + 1;
      }
      r := Ok(objs);
    }

    static method RequiresExact(reqs: seq<Requirement>) returns (exact: bool)
      ensures exact == RequiresExactMatch(reqs)
      ensures exact <==> reqs != [] && forall r | r in reqs :: !r.op.NotEquals? && !r.op.OtherOperator?
    {
      if |reqs| == 0 {
        return false;
      }
      for i := 0 to |reqs|
        invariant forall j :: 0 <= j < i ==> reqs[j].op.Equals? || reqs[j].op.DoubleEquals?
      {
        if !reqs[i].op.Equals? && !reqs[i].op.DoubleEquals? {
          return false;
        }
      }
      return true;
    }
  
    /** What List puts into the answer for one stored object: nothing, a stamped deep copy, or the object itself. */
    method HandOut(stored: Object, sel: Option<LabelSelector>, deep: bool) returns (o: Option<Object>)
      ensures o.Some? <==> (sel.Some? ==> sel.value(stored.labels.entries))
      ensures o.Some? && deep ==> fresh(o.value.Footprint()) && o.value.View() == stored.View().(gvk := gvk)
      ensures o.Some? && !deep ==> o.value == stored
    {
      if sel.Some? && !sel.value(stored.labels.entries) {
        return None;
      }
      var outObj := stored;
      if deep {
        outObj := stored.DeepCopy();
        outObj.SetGroupVersionKind(gvk);
      }
      o := Some(outObj);
    }

    /** A deep copy is stamped with the reader's kind. */
    function Shown(v: Value, deep: bool): Value {
      if deep then v.(gvk := gvk) else v
    }

    /** List once it has its candidates: drops what the labels exclude, stops at the limit, copies the rest. */
    method CopyMatching(objs: seq<Object>, opts: ListOptions, deep: bool, ghost store: Store, ghost order: seq<string>)
      returns (outs: seq<Object>, ghost picked: seq<string>)
      requires Indexer.Shows(store, order, objs)
      ensures picked == Truncate(Keep(order, LabelMatches(store, opts.labelSelector)), opts.limit)
      ensures |outs| == |picked| && forall j :: 0 <= j < |outs| ==> picked[j] in store
      ensures forall j :: 0 <= j < |outs| ==> outs[j].View() == Shown(store[picked[j]], deep)
      ensures deep ==> forall o | o in outs :: fresh(o.Footprint())
      ensures !deep ==> forall o | o in outs :: o in objs
    {
      ghost var keep := LabelMatches(store, opts.labelSelector);
      outs, picked := [], [];
      var i := 0;
      while i < |objs|
        invariant 0 <= i <= |objs|
        invariant picked == Keep(order[..i], keep)
        invariant opts.limit > 0 ==> |picked| <= opts.limit
        invariant |outs| == |picked| && forall j :: 0 <= j < |outs| ==> picked[j] in store
        invariant forall j :: 0 <= j < |outs| ==> outs[j].View() == Shown(store[picked[j]], deep)
        invariant deep ==> forall o | o in outs :: fresh(o.Footprint())
        invariant !deep ==> forall o | o in outs :: o in objs
      {
        if opts.limit > 0 && |outs| >= opts.limit {
          KeepPrefix(order, keep, i);
          return;
        }
        KeepStep(order, keep, i);
        var outObj := HandOut(objs[i], opts.labelSelector, deep);
        if outObj.Some? {
          outs, picked := outs + [outObj.value], picked + [order[i]];
        }
        i := i + 1;
      }
      assert order[..|objs|] == order;
    }
  
    /** The candidates List starts from: a field selector's answer, an index bucket, or everything. */
    method FindCandidates(opts: ListOptions) returns (r: Result<seq<Object>, ReadError>, ghost order: seq<string>)
      requires indexer.Valid()
      ensures Candidates(indexer.Contents(), indexer.indexers, clusterName, opts, if r.Err? then Err(r.error) else Ok(order))
      ensures r.Ok? ==> Indexer.Shows(indexer.Contents(), order, r.value)
      ensures r.Ok? ==> forall o | o in r.value :: o in indexer.items.Values
    {
      order := [];
      if opts.continueToken != "" {
        return Err(ContinueUnsupported), order;
      }
      var scoped := CLUSTER_AND_NAMESPACE_INDEX in indexer.indexers && clusterName != "";
      if opts.fieldSelector.Some? {
        var exact := RequiresExact(opts.fieldSelector.value);
        if !exact {
          return Err(NonExactFieldMatch), order;
        }
        ghost var first;
        r, first, order := ByIndexes(opts.fieldSelector.value, opts.namespace);
        return;
      }
      if opts.namespace != "" {
        if scoped {
          r, order := indexer.ByIndex(CLUSTER_AND_NAMESPACE_INDEX, ClusterAndNamespaceIndexKey(clusterName, opts.namespace));
        } else {
          r, order := indexer.ByIndex(NAMESPACE_INDEX, opts.namespace);
        }
      } else {
        if scoped {
          r, order := indexer.ByIndex(CLUSTER_INDEX, ClusterIndexKey(clusterName));
        } else {
          var objs;
          objs, order := indexer.List();
          r := Ok(objs);
        }
      }
      if r.Ok? {
        indexer.ListsShows(r.value, order);
      }
    }

    /**
     Lists the matching objects, up to the limit, as deep copies unless the reader or the caller has disabled copying.
     `order` is the order in which the candidates came, `picked` the keys of the answer.
     */
    method List(opts: ListOptions)
      returns (r: Result<seq<Object>, ReadError>, ghost order: seq<string>, ghost picked: seq<string>)
      requires indexer.Valid()
      ensures indexer.Valid() && indexer.Contents() == old(indexer.Contents())
      ensures Candidates(indexer.Contents(), indexer.indexers, clusterName, opts, if r.Err? then Err(r.error) else Ok(order))
      ensures r.Ok? ==> picked == Truncate(Keep(order, LabelMatches(indexer.Contents(), opts.labelSelector)), opts.limit)
      ensures r.Ok? ==> |r.value| == |picked| && forall j :: 0 <= j < |picked| ==> picked[j] in indexer.Contents()
      ensures r.Ok? ==> forall j :: 0 <= j < |picked| ==>
                r.value[j].View() == Shown(indexer.Contents()[picked[j]], DeepCopies(opts))
      ensures r.Ok? && DeepCopies(opts) ==> forall o | o in r.value :: fresh(o.Footprint())
      ensures r.Ok? && !DeepCopies(opts) ==> forall o | o in r.value :: o in indexer.items.Values
    {
      r, order := FindCandidates(opts);
      picked := [];
      if r.Ok? {
        var outs;
        outs, picked := CopyMatching(r.value, opts, DeepCopies(opts), indexer.Contents(), order);
        indexer.Untouched();
        r := Ok(outs);
      }
    }

    predicate DeepCopies(opts: ListOptions) {
      !disableDeepCopy && opts.unsafeDisableDeepCopy != Some(true)
    }
  }
}
