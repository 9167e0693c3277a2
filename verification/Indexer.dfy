/** The informer's indexer: stored objects under their keys, and named index functions over them. */
module Indexing {
  import opened Prelude
  import opened Keys
  import opened Objects
  import opened Queries

  class Indexer {
    const indexers: Indexers
    var items: map<string, Object>
    /** The stored objects with everything they are made of. */
    ghost var repr: set<object>

    ghost predicate Valid()
      reads this, repr
    {
      && this !in repr
      && (forall k | k in items :: items[k] in repr && items[k].Footprint() <= repr)
      && (forall k | k in items :: StoreKey(ClusterAware(indexers), items[k].View()) == k)
    }

    /** The store as values. */
    ghost function Contents(): Store
      requires Valid()
      reads this, repr
    {
      map k | k in items :: items[k].View()
    }

    /** What happens outside the stored objects does not concern the indexer. */
    twostate lemma Untouched()
      requires old(Valid()) && unchanged(this) && unchanged(old(repr))
      ensures Valid() && Contents() == old(Contents())
    {
    }

    constructor (indexers: Indexers)
      ensures Valid() && items == map[] && this.indexers == indexers && repr == {}
    {
      this.indexers := indexers;
      items, repr := map[], {};
    }

    /** The watch has delivered a new or changed object. */
    method Store(o: Object)
      requires Valid() && this !in o.Footprint()
      modifies this
      ensures Valid() && repr == old(repr) + o.Footprint()
      ensures items == old(items)[StoreKey(ClusterAware(indexers), o.View()) := o]
    {
      items := items[StoreKey(ClusterAware(indexers), o.View()) := o];
      repr := repr + o.Footprint();
    }

    method GetByKey(key: string) returns (o: Option<Object>)
      requires Valid()
      ensures o == Find(items, key)
    {
      o := Find(items, key);
    }

    /** `objs` are the objects stored under `keys`, in that order. */
    ghost predicate Lists(objs: seq<Object>, keys: seq<string>)
      reads this
    {
      |objs| == |keys| && forall i :: 0 <= i < |keys| ==> keys[i] in items && objs[i] == items[keys[i]]
    }

    /** `objs` are what `store` holds under `keys`. */
    static ghost predicate Shows(store: Store, keys: seq<string>, objs: seq<Object>)
      reads objs, (set o | o in objs :: o.labels), (set o | o in objs :: o.annotations)
    {
      |objs| == |keys| && forall i :: 0 <= i < |keys| ==> keys[i] in store && objs[i].View() == store[keys[i]]
    }

    lemma ListsShows(objs: seq<Object>, keys: seq<string>)
      requires Valid() && Lists(objs, keys)
      ensures Shows(Contents(), keys, objs)
    {
    }

    /** The stored objects with these keys, in an order of the indexer's choosing. */
    method Collect(keys: set<string>) returns (objs: seq<Object>, ghost order: seq<string>)
      requires Valid() && keys <= items.Keys
      ensures Lists(objs, order) && Enumerates(order, keys)
    {
      objs, order := [], [];
      var rest := keys;
      while rest != {}
        invariant rest <= keys && Lists(objs, order) && Enumerates(order, keys - rest)
      {
        var k :| k in rest;
        objs, order := objs + [items[k]], order + [k];
        rest := rest - {k};
      }
    }

    method List() returns (objs: seq<Object>, ghost order: seq<string>)
      requires Valid()
      ensures Lists(objs, order) && Enumerates(order, Contents().Keys)
    {
      objs, order := Collect(items.Keys);
    }

    method ByIndex(index: string, x: string) returns (r: Result<seq<Object>, ReadError>, ghost order: seq<string>)
      requires Valid()
      ensures r.Ok? <==> index in indexers
      ensures r.Err? ==> r.error == NoIndex(index)
      ensures r.Ok? ==> Lists(r.value, order) && Enumerates(order, Bucket(Contents(), indexers[index], x))
    {
      if index !in indexers {
        return Err(NoIndex(index)), [];
      }
      var bucket := set k | k in items && Yields(indexers[index], items[k].View(), x);
      assert bucket == Bucket(Contents(), indexers[index], x);
      var objs;
      objs, order := Collect(bucket);
      r := Ok(objs);
    }
  }
}
