/** The cache handed to one cluster's controllers, and what its callers can do to it. */
module ScopedCaching {
  import opened Prelude
  import opened Keys
  import opened Objects
  import opened Queries
  import opened QueryProperties
  import opened QueryErrors
  import opened Indexing
  import opened CacheReading

  /** A cache for one logical cluster, on top of the shared cache that spans all of them. */
  datatype ScopedCache = ScopedCache(clusterName: string) {
    /** The reader that Get and List make over the informer they were given. */
    function Reader(indexer: Indexer, gvk: string, root: bool): CacheReader {
      CacheReader(indexer, gvk, root, false, clusterName)
    }

    /** Answers from the cache's own cluster only, whatever namespace and name it is asked for. */
    method Get(indexer: Indexer, gvk: string, root: bool, ns: string, name: string, out: Object)
      returns (r: Result<string, ReadError>)
      requires indexer.Valid() && ClusterAware(indexer.indexers) && LegalStore(indexer.Contents())
      requires LegalCluster(clusterName) && out !in indexer.repr
      modifies out
      ensures indexer.Valid() && indexer.Contents() == old(indexer.Contents())
      ensures r == GetAnswer(Restrict(indexer.Contents(), clusterName), indexer.indexers, root, gvk, clusterName, ns, name)
      ensures r.Err? ==> r.error == NotFound(gvk, name) && unchanged(out)
      ensures LegalNamespace(ns) && LegalName(name) ==>
                (r.Err? <==> !exists k :: k in indexer.Contents()
                                          && Identified(indexer.Contents()[k], clusterName, if root then "" else ns, name))
      ensures r.Ok? ==> fresh(out.labels) && fresh(out.annotations)
      ensures r.Ok? ==> ClusterOf(out.View()) == clusterName && out.View() == indexer.Contents()[r.value].(gvk := gvk)
    {
      ghost var store := indexer.Contents();
      GetSeesOwnClusterOnly(store, indexer.indexers, root, gvk, clusterName, ns, name);
      if LegalNamespace(ns) && LegalName(name) {
        GetReportsAbsenceIff(store, indexer.indexers, root, gvk, clusterName, ns, name);
      }
      r := Reader(indexer, gvk, root).Get(ns, name, out);
    }

    /**
     Lists copies of what the plain scan of the cache's own cluster finds, errors included; with a field selector too, if
     the index that supplies its candidates files objects by cluster.
     */
    method List(indexer: Indexer, gvk: string, root: bool, opts: ListOptions)
      returns (r: Result<seq<Object>, ReadError>, ghost order: seq<string>, ghost picked: seq<string>)
      requires indexer.Valid() && StandardIndexes(indexer.indexers) && LegalStore(indexer.Contents())
      requires LegalCluster(clusterName)
      ensures indexer.Valid() && indexer.Contents() == old(indexer.Contents())
      ensures opts.fieldSelector.None? ==> (r.Ok? <==> opts.continueToken == "")
      ensures FieldsByCluster(indexer.indexers, opts) ==>
                Candidates(Restrict(indexer.Contents(), clusterName), indexer.indexers, clusterName, opts,
                           if r.Err? then Err(r.error) else Ok(order))
      ensures FieldsByCluster(indexer.indexers, opts) && r.Ok? ==>
                && ListAnswers(Restrict(indexer.Contents(), clusterName), indexer.indexers, clusterName, opts, order, picked)
                && forall o | o in r.value :: ClusterOf(o.View()) == clusterName
      ensures r.Ok? ==>
                && |r.value| == |picked| && (forall j :: 0 <= j < |picked| ==> picked[j] in indexer.Contents())
                && forall j :: 0 <= j < |picked| ==>
                     r.value[j].View() == ListedAs(gvk, indexer.Contents()[picked[j]], opts)
      ensures r.Ok? && opts.unsafeDisableDeepCopy != Some(true) ==> forall o | o in r.value :: fresh(o.Footprint())
    {
      ghost var store := indexer.Contents();
      var reader := Reader(indexer, gvk, root);
      r, order, picked := reader.List(opts);
      SelectedIsScan(store, indexer.indexers, clusterName, opts.namespace);
      if FieldsByCluster(indexer.indexers, opts) {
        CandidatesSeeOwnClusterOnly(store, indexer.indexers, clusterName, opts, if r.Err? then Err(r.error) else Ok(order));
        if r.Ok? {
          ListSeesOwnClusterOnly(store, indexer.indexers, clusterName, opts, order, picked);
          assert forall j :: 0 <= j < |picked| ==> picked[j] in picked;
        }
      }
    }

    /** What List shows of a stored object: a stamped copy, unless the caller has asked for the object itself. */
    function ListedAs(gvk: string, stored: Value, opts: ListOptions): Value {
      if opts.unsafeDisableDeepCopy == Some(true) then stored else stored.(gvk := gvk)
    }
  }
}
