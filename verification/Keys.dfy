/** The composite string keys of the indexes, the store and the field selectors, and what they tell apart. */
module Keys {

  const ALL_NAMESPACES := "__all_namespaces"

  const CLUSTER_INDEX := "cluster"
  const CLUSTER_AND_NAMESPACE_INDEX := "cluster-and-namespace"
  const NAMESPACE_INDEX := "namespace"

  function ClusterIndexKey(cluster: string): string {
    cluster
  }

  function ClusterAndNamespaceIndexKey(cluster: string, ns: string): string {
    cluster + "/" + ns
  }

  function ObjectKeyToStoreKey(ns: string, name: string): string {
    if ns == "" then name else ns + "/" + name
  }

  function ClusteredStoreKey(cluster: string, ns: string, name: string): string {
    cluster + "|" + ObjectKeyToStoreKey(ns, name)
  }

  function FieldIndexName(field: string): string {
    "field:" + field
  }

  function KeyToNamespacedKey(ns: string, baseKey: string): string {
    if ns != "" then ns + "/" + baseKey else ALL_NAMESPACES + "/" + baseKey
  }

  function KeyToClusteredKey(cluster: string, ns: string, baseKey: string): string {
    cluster + "|" + KeyToNamespacedKey(ns, baseKey)
  }

  /** Logical cluster names, as the API server admits them. */
  predicate LegalCluster(c: string) {
    c != "" && c != "*" && '|' !in c && '/' !in c
  }

  predicate LegalNamespace(ns: string) {
    '/' !in ns && ns != ALL_NAMESPACES
  }

  predicate LegalName(name: string) {
    '/' !in name
  }

  /** The names of field indexes tell fields apart and are not those of the three other indexes. */
  lemma {:induction false} FieldIndexNameInjective(field: string, other: string)
    ensures FieldIndexName(field) == FieldIndexName(other) <==> field == other
    ensures FieldIndexName(field) !in {CLUSTER_INDEX, CLUSTER_AND_NAMESPACE_INDEX, NAMESPACE_INDEX}
  {
    var name := FieldIndexName(field);
    assert name[6..] == field && FieldIndexName(other)[6..] == other;
    assert name[0] == 'f' && CLUSTER_INDEX[0] == 'c' && CLUSTER_AND_NAMESPACE_INDEX[0] == 'c' && NAMESPACE_INDEX[0] == 'n';
  }

  /** The text of the keys, which other programs write and read as well. */
  lemma {:induction false} FieldKeysAreSpelled()
    ensures FieldIndexName("f") == "field:f"
    ensures KeyToClusteredKey("c", "ns", "v") == "c|ns/v" && KeyToClusteredKey("c", "", "v") == "c|__all_namespaces/v"
  {
  }

  lemma {:induction false} StoreKeysAreSpelled()
    ensures ClusteredStoreKey("c", "ns", "a") == "c|ns/a" && ClusteredStoreKey("c", "", "a") == "c|a"
    ensures ClusterIndexKey("c") == "c" && ClusterAndNamespaceIndexKey("c", "ns") == "c/ns"
  {
  }

  /** Text before a separator it does not contain is determined by the whole. */
  lemma {:induction false} SplitAtSeparator(a: string, x: string, b: string, y: string, sep: char)
    requires sep !in a && sep !in b
    requires a + [sep] + x == b + [sep] + y
    ensures a == b && x == y
  {
    var whole := a + [sep] + x;
    assert whole[|a|] == sep && whole[|b|] == sep;
    assert a == whole[..|a|] && b == whole[..|b|];
    assert x == whole[|a| + 1..] && y == whole[|b| + 1..];
  }

  /** What a field key records of a namespace; no namespace stands for all of them. */
  function Scope(ns: string): string {
    if ns == "" then ALL_NAMESPACES else ns
  }

  lemma {:induction false} KeyToNamespacedKeyInjective(ns1: string, v1: string, ns2: string, v2: string)
    requires '/' !in ns1 && '/' !in ns2
    ensures KeyToNamespacedKey(ns1, v1) == KeyToNamespacedKey(ns2, v2) <==> Scope(ns1) == Scope(ns2) && v1 == v2
  {
    if KeyToNamespacedKey(ns1, v1) == KeyToNamespacedKey(ns2, v2) {
      SplitAtSeparator(Scope(ns1), v1, Scope(ns2), v2, '/');
    }
  }

  /**
   Clustered field keys tell apart clusters, namespaces and arbitrary values. Only a namespace that is spelled like the
   stand-in for all namespaces would be mistaken for it.
   */
  lemma {:induction false} KeyToClusteredKeyInjective(c1: string, ns1: string, v1: string, c2: string, ns2: string, v2: string)
    requires '|' !in c1 && '|' !in c2 && '/' !in ns1 && '/' !in ns2
    ensures KeyToClusteredKey(c1, ns1, v1) == KeyToClusteredKey(c2, ns2, v2) <==>
              c1 == c2 && Scope(ns1) == Scope(ns2) && v1 == v2
    ensures LegalNamespace(ns1) && LegalNamespace(ns2) ==> (Scope(ns1) == Scope(ns2) <==> ns1 == ns2)
  {
    KeyToNamespacedKeyInjective(ns1, v1, ns2, v2);
    if KeyToClusteredKey(c1, ns1, v1) == KeyToClusteredKey(c2, ns2, v2) {
      SplitAtSeparator(c1, KeyToNamespacedKey(ns1, v1), c2, KeyToNamespacedKey(ns2, v2), '|');
    }
  }

  /** The store key of a legally named object determines it; the cluster part does so whatever the rest looks like. */
  lemma {:induction false} ClusteredStoreKeyInjective(c1: string, ns1: string, n1: string, c2: string, ns2: string, n2: string)
    requires '|' !in c1 && '|' !in c2
    requires ClusteredStoreKey(c1, ns1, n1) == ClusteredStoreKey(c2, ns2, n2)
    ensures c1 == c2 && ObjectKeyToStoreKey(ns1, n1) == ObjectKeyToStoreKey(ns2, n2)
    ensures LegalNamespace(ns1) && LegalNamespace(ns2) && LegalName(n1) && LegalName(n2) ==> ns1 == ns2 && n1 == n2
  {
    SplitAtSeparator(c1, ObjectKeyToStoreKey(ns1, n1), c2, ObjectKeyToStoreKey(ns2, n2), '|');
    if LegalNamespace(ns1) && LegalNamespace(ns2) && LegalName(n1) && LegalName(n2) {
      ObjectKeyToStoreKeyInjective(ns1, n1, ns2, n2);
    }
  }

  lemma {:induction false} ObjectKeyToStoreKeyInjective(ns1: string, n1: string, ns2: string, n2: string)
    requires LegalNamespace(ns1) && LegalNamespace(ns2) && LegalName(n1) && LegalName(n2)
    ensures ObjectKeyToStoreKey(ns1, n1) == ObjectKeyToStoreKey(ns2, n2) <==> ns1 == ns2 && n1 == n2
  {
    if ObjectKeyToStoreKey(ns1, n1) == ObjectKeyToStoreKey(ns2, n2) {
      assert ns1 != "" ==> '/' in ObjectKeyToStoreKey(ns1, n1);
      assert ns2 != "" ==> '/' in ObjectKeyToStoreKey(ns2, n2);
      if ns1 != "" {
        SplitAtSeparator(ns1, n1, ns2, n2, '/');
      }
    }
  }

  lemma {:induction false} ClusterAndNamespaceIndexKeyInjective(c1: string, ns1: string, c2: string, ns2: string)
    requires '/' !in c1 && '/' !in c2
    ensures ClusterAndNamespaceIndexKey(c1, ns1) == ClusterAndNamespaceIndexKey(c2, ns2) <==> c1 == c2 && ns1 == ns2
  {
    if ClusterAndNamespaceIndexKey(c1, ns1) == ClusterAndNamespaceIndexKey(c2, ns2) {
      SplitAtSeparator(c1, ns1, c2, ns2, '/');
    }
  }
}
