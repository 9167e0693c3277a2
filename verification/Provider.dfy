/**
 The provider object: its two maps, the contexts it makes and cancels, and the
 three closures that use them. Each critical section is proved to do to
 `clusters` what one `Registry` operation does. The lock itself, and what
 happens between the critical sections, is the subject of `ProviderConcurrency`.
 */
module Providers {
  import opened Prelude
  import opened Registry

  class Context {
    var cancelled: bool

    constructor ()
      ensures !cancelled
    {
      cancelled := false;
    }
  }

  class ScopedCluster {
    const clusterName: Name

    constructor (n: Name)
      ensures clusterName == n
    {
      clusterName := n;
    }
  }

  datatype Registration = Registration(cluster: ScopedCluster, context: Context)

  datatype GetError = ClusterNotFound(name: Name)

  class Provider {
    var clusters: map<Name, ScopedCluster>
    var cancelFns: map<Name, Context>
    /** Every context the provider has made. */
    ghost var contexts: set<Context>

    /**
     Both maps hold the same names, and a context is uncancelled exactly if it is registered, under one name. A context in
     `except` is being registered or dropped just now.
     */
    ghost predicate ValidBut(except: set<Context>)
      reads this, contexts
    {
      && clusters.Keys == cancelFns.Keys
      && (forall n | n in clusters :: clusters[n].clusterName == n)
      && (forall n | n in cancelFns :: cancelFns[n] in contexts)
      && (forall n, m | n in cancelFns && m in cancelFns && n != m :: cancelFns[n] != cancelFns[m])
      && (forall c | c in contexts - except :: !c.cancelled <==> exists n :: Find(cancelFns, n) == Some(c))
    }

    ghost predicate Valid()
      reads this, contexts
    {
      ValidBut({})
    }

    /** The cluster and the context belong together, wherever they are registered. */
    ghost predicate Paired(cl: ScopedCluster, ctx: Context)
      reads this
    {
      forall n :: Find(clusters, n) == Some(cl) <==> Find(cancelFns, n) == Some(ctx)
    }

    constructor ()
      ensures Valid() && clusters == map[] && cancelFns == map[] && contexts == {}
    {
      clusters, cancelFns, contexts := map[], map[], {};
    }

    /** AddFunc up to the point where it releases the lock. */
    method Register(n: Name, created: bool) returns (r: Option<Registration>)
      requires Valid()
      modifies this
      ensures Valid() && old(contexts) <= contexts && fresh(contexts - old(contexts))
      ensures r.Some? <==> n !in old(clusters) && created
      ensures r.None? ==> clusters == old(clusters) && cancelFns == old(cancelFns)
      ensures r.Some? ==> fresh(r.value.cluster) && fresh(r.value.context) 
      ensures r.Some? ==> r.value.context in contexts && Paired(r.value.cluster, r.value.context)
      ensures r.Some? ==> r.value.cluster.clusterName == n
      ensures r.Some? ==> clusters == RegisterIfAbsent(old(clusters), n, r.value.cluster)
      ensures r.Some? ==> cancelFns == RegisterIfAbsent(old(cancelFns), n, r.value.context)
      ensures n in old(clusters) ==> contexts == old(contexts)
    {
      if n in clusters {
        return None;
      }
      var ctx := new Context();
      contexts := contexts + {ctx};
      if !created {
        ctx.cancelled := true;
        return None;
      }
      var cl := new ScopedCluster(n);
      PutName(n, cl, ctx);
      r := Some(Registration(cl, ctx));
    }

    /** Both insertions at the end of a critical section. */
    method PutName(n: Name, cl: ScopedCluster, ctx: Context)
      requires ValidBut({ctx}) && n !in clusters && cl.clusterName == n
      requires ctx in contexts && !ctx.cancelled && forall m | m in cancelFns :: cancelFns[m] != ctx
      modifies this
      ensures Valid() && contexts == old(contexts)
      ensures clusters == RegisterIfAbsent(old(clusters), n, cl) && cancelFns == RegisterIfAbsent(old(cancelFns), n, ctx)
    {
      clusters := clusters[n := cl];
      cancelFns := cancelFns[n := ctx];
      assert Find(cancelFns, n) == Some(ctx);
      forall c, m | c in contexts && c != ctx ensures Find(cancelFns, m) == Some(c) <==> Find(old(cancelFns), m) == Some(c) {
      }
    }

    /** AddFunc after Engage has failed; by now the name may belong to a newer registration. */
    method CleanUp(n: Name, cl: ScopedCluster, ctx: Context)
      requires Valid() && ctx in contexts && cl.clusterName == n && Paired(cl, ctx)
      modifies this, ctx
      ensures Valid() && contexts == old(contexts) && ctx.cancelled
      ensures clusters == Withdraw(old(clusters), n, cl)
      ensures cancelFns == Withdraw(old(cancelFns), n, ctx)
    {
      ctx.cancelled := true;
      forall m | m in cancelFns && cancelFns[m] == ctx ensures m == n && Find(clusters, n) == Some(cl) {
        assert Find(cancelFns, m) == Some(ctx);
      }
      assert Find(clusters, n) == Some(cl) ==> Find(cancelFns, n) == Some(ctx);
      if n in clusters && clusters[n] == cl {
        DropName(n);
      }
    }

    /** Both deletions at the end of a critical section; the name's context has just been cancelled. */
    method DropName(n: Name)
      requires n in cancelFns && ValidBut({cancelFns[n]}) && cancelFns[n].cancelled
      modifies this
      ensures Valid() && contexts == old(contexts)
      ensures clusters == Disengage(old(clusters), n) && cancelFns == Disengage(old(cancelFns), n)
    {
      ghost var ctx := cancelFns[n];
      clusters := clusters - {n};
      cancelFns := cancelFns - {n};
      forall c, m | c in contexts && c != ctx ensures Find(cancelFns, m) == Some(c) <==> Find(old(cancelFns), m) == Some(c) {
      }
    }

    /** AddFunc with nothing else running in between. */
    method AddFunc(n: Name, created: bool, engages: bool)
      requires Valid()
      modifies this
      ensures Valid() && old(contexts) <= contexts && fresh(contexts - old(contexts))
      ensures n in old(clusters) ==> clusters == old(clusters) && cancelFns == old(cancelFns)
      ensures !(created && engages) ==> clusters == old(clusters) && cancelFns == old(cancelFns)
      ensures n !in old(clusters) && created && engages ==>
                n in clusters && fresh(clusters[n]) && clusters == old(clusters)[n := clusters[n]]
                && fresh(cancelFns[n]) && cancelFns == old(cancelFns)[n := cancelFns[n]]
    {
      var r := Register(n, created);
      if r.Some? && !engages {
        WithdrawUndoesRegister(old(clusters), n, r.value.cluster);
        WithdrawUndoesRegister(old(cancelFns), n, r.value.context);
        CleanUp(n, r.value.cluster, r.value.context);
      }
    }

    /** `index` is what the cluster index answered: whether it is empty, or an error. */
    method DeleteFunc(n: Name, index: Option<bool>)
      requires Valid()
      modifies this, contexts
      ensures Valid() && contexts == old(contexts)
      ensures clusters == (if index == Some(true) then Disengage(old(clusters), n) else old(clusters))
      ensures cancelFns == (if index == Some(true) then Disengage(old(cancelFns), n) else old(cancelFns))
      ensures forall c | c in contexts :: c.cancelled <==>
                old(c.cancelled) || (index == Some(true) && Find(old(cancelFns), n) == Some(c))
    {
      if index == Some(true) && n in cancelFns {
        cancelFns[n].cancelled := true;
        DropName(n);
      }
    }

    method Get(n: Name) returns (r: Result<ScopedCluster, GetError>)
      requires Valid()
      ensures r == (if n in clusters then Ok(clusters[n]) else Err(ClusterNotFound(n)))
      ensures r.Ok? ==> r.value.clusterName == n && n in cancelFns && !cancelFns[n].cancelled
    {
      if n in clusters {
        assert Find(cancelFns, n) == Some(cancelFns[n]);
        return Ok(clusters[n]);
      }
      return Err(ClusterNotFound(n));
    }
  }
}
