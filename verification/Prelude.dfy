/** Small datatypes and sequence notions shared by the whole model. */
module Prelude {

  datatype Option<+T> = None | Some(value: T)

  datatype Result<+T, +E> = Ok(value: T) | Err(error: E)

  /** What a map holds at a key, if anything. */
  function Find<K, V>(m: map<K, V>, k: K): Option<V> {
    if k in m then Some(m[k]) else None
  }

  ghost predicate NoDuplicates<T>(s: seq<T>) {
    forall i, j :: 0 <= i < j < |s| ==> s[i] != s[j]
  }

  /** `s` lists the elements of `elems`, each exactly once, in some order. */
  ghost predicate Enumerates<T>(s: seq<T>, elems: set<T>) {
    NoDuplicates(s) && (forall x | x in s :: x in elems) && (forall x | x in elems :: x in s)
  }
}
