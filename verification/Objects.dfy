/** API objects as values, and as the heap objects that a cache stores and hands out. */
module Objects {
  import opened Keys

  const CLUSTER_ANNOTATION := "kcp.io/cluster"

  datatype Value = Value(
    namespace: string,
    name: string,
    gvk: string,
    labels: map<string, string>,
    annotations: map<string, string>)

  /** The logical cluster an object lives in. */
  function ClusterOf(v: Value): string {
    if CLUSTER_ANNOTATION in v.annotations then v.annotations[CLUSTER_ANNOTATION] else ""
  }

  /** The cluster is what the annotation says, and nothing else about the object matters. */
  lemma {:induction false} ClusterComesFromAnnotation(v: Value, w: Value, c: string)
    ensures ClusterOf(v.(annotations := v.annotations["kcp.io/cluster" := c])) == c
    ensures v.annotations == w.annotations ==> ClusterOf(v) == ClusterOf(w)
    ensures "kcp.io/cluster" !in v.annotations ==> ClusterOf(v) == ""
  {
  }

  /** The key an informer stores an object under: with its cluster if the informer is cluster-aware. */
  function StoreKey(aware: bool, v: Value): string {
    if aware then ClusteredStoreKey(ClusterOf(v), v.namespace, v.name) else ObjectKeyToStoreKey(v.namespace, v.name)
  }

  predicate LegalObject(v: Value) {
    LegalCluster(ClusterOf(v)) && LegalNamespace(v.namespace) && LegalName(v.name)
  }

  class StringMap {
    var entries: map<string, string>

    constructor (entries: map<string, string>)
      ensures this.entries == entries
    {
      this.entries := entries;
    }
  }

  /** An object in memory. Its label and annotation maps are separate heap cells. */
  class Object {
    var namespace: string
    var name: string
    var gvk: string
    var labels: StringMap
    var annotations: StringMap

    ghost function Footprint(): set<object>
      reads this
    {
      {this, labels, annotations}
    }

    function View(): Value
      reads this, labels, annotations
    {
      Value(namespace, name, gvk, labels.entries, annotations.entries)
    }

    constructor (v: Value)
      ensures View() == v && fresh(Footprint()) && labels != annotations
    {
      namespace, name, gvk := v.namespace, v.name, v.gvk;
      labels := new StringMap(v.labels);
      annotations := new StringMap(v.annotations);
    }

    /** DeepCopyObject: nothing of the copy is shared with the original. */
    method DeepCopy() returns (c: Object)
      ensures c.View() == View() && fresh(c.Footprint()) && c.labels != c.annotations
    {
      c := new Object(View());
    }

    method SetGroupVersionKind(kind: string)
      modifies this`gvk
      ensures gvk == kind
    {
      gvk := kind;
    }

    /** Assigning one struct to another: the nested maps end up shared. */
    method CopyFrom(from: Object)
      modifies this
      ensures namespace == from.namespace && name == from.name && gvk == from.gvk
      ensures labels == from.labels && annotations == from.annotations
    {
      namespace, name, gvk := from.namespace, from.name, from.gvk;
      labels, annotations := from.labels, from.annotations;
    }
  }
}
