/** Callers may do what they like with deep-copied answers; the cache goes on answering as if they had not. */
module ReadIsolation {
  import opened Prelude
  import opened Objects
  import opened Queries
  import opened Indexing
  import opened CacheReading

  /** A caller reads, or overwrites the object at some position among those it has been given so far. */
  datatype Call = GetCall(namespace: string, name: string) | ListCall(opts: ListOptions) | Overwrite(held: nat, with: Value)

  datatype Answer = Got(one: Result<Value, ReadError>) | Listed(many: Result<seq<Value>, ReadError>) | Nothing

  /** `answer` is what a reader over `store` may say to `call`. */
  ghost predicate MayAnswer(store: Store, reader: CacheReader, call: Call, answer: Answer) {
    match call
    case GetCall(ns, name) =>
      && answer.Got?
      && (match GetAnswer(store, reader.indexer.indexers, reader.root, reader.gvk, reader.clusterName, ns, name)
          case Err(e) => answer.one == Err(e)
          case Ok(k) => answer.one == Ok(store[k].(gvk := reader.gvk)))
    case ListCall(opts) =>
      && answer.Listed?
      && (match answer.many
          case Err(e) => Candidates(store, reader.indexer.indexers, reader.clusterName, opts, Err(e))
          case Ok(vals) => exists order, picked :: ListShows(store, reader, opts, vals, order, picked))
    case Overwrite(_, _) => answer.Nothing?
  }

  ghost predicate ListShows(store: Store, reader: CacheReader, opts: ListOptions, vals: seq<Value>,
                            order: seq<string>, picked: seq<string>)
  {
    && Candidates(store, reader.indexer.indexers, reader.clusterName, opts, Ok(order))
    && picked == Truncate(Keep(order, LabelMatches(store, opts.labelSelector)), opts.limit)
    && |vals| == |picked|
    && forall j :: 0 <= j < |picked| ==> picked[j] in store && vals[j] == store[picked[j]].(gvk := reader.gvk)
  }

  ghost predicate AlwaysCopies(reader: CacheReader, script: seq<Call>) {
    !reader.disableDeepCopy && forall c | c in script && c.ListCall? :: c.opts.unsafeDisableDeepCopy != Some(true)
  }

  method Snapshot(objs: seq<Object>) returns (vals: seq<Value>)
    ensures |vals| == |objs| && forall i :: 0 <= i < |objs| ==> vals[i] == objs[i].View()
  {
    vals := [];
    for i := 0 to |objs|
      invariant |vals| == i && forall j :: 0 <= j < i ==> vals[j] == objs[j].View()
    {
      vals := vals + [objs[i].View()];
    }
  }

  method Write(o: Object, v: Value)
    modifies o, o.labels, o.annotations
    ensures o.labels == old(o.labels) && o.annotations == old(o.annotations)
  {
    o.namespace, o.name, o.gvk := v.namespace, v.name, v.gvk;
    o.labels.entries := v.labels;
    o.annotations.entries := v.annotations;
  }

  /** The objects a caller gets from one call are all its own. */
  method Read(reader: CacheReader, call: Call) returns (answer: Answer, given: seq<Object>)
    requires reader.indexer.Valid() && AlwaysCopies(reader, [call]) && !call.Overwrite?
    ensures MayAnswer(reader.indexer.Contents(), reader, call, answer)
    ensures forall o | o in given :: fresh(o.Footprint())
  {
    ghost var store := reader.indexer.Contents();
    match call
    case GetCall(ns, name) =>
      var out := new Object(Value("", "", "", map[], map[]));
      reader.indexer.Untouched();
      var r := reader.Get(ns, name, out);
      answer := Got(if r.Err? then Err(r.error) else Ok(out.View()));
      given := [out];
    case ListCall(opts) =>
      assert call in [call];
      ghost var order, picked;
      var r;
      r, order, picked := reader.List(opts);
      if r.Err? {
        return Listed(Err(r.error)), [];
      }
      given := r.value;
      var vals := Snapshot(given);
      assert ListShows(store, reader, opts, vals, order, picked);
      answer := Listed(Ok(vals));
  }

  /**
   Any script of reads and overwrites: every answer is one that the store as it was at the start may give, and the store
   is at the end as it was at the start.
   */
  method RunScript(reader: CacheReader, script: seq<Call>) returns (answers: seq<Answer>)
    requires reader.indexer.Valid() && AlwaysCopies(reader, script)
    ensures reader.indexer.Valid() && reader.indexer.Contents() == old(reader.indexer.Contents())
    ensures |answers| == |script|
    ensures forall i :: 0 <= i < |script| ==> MayAnswer(old(reader.indexer.Contents()), reader, script[i], answers[i])
  {
    answers := [];
    var held: seq<Object> := [];
    ghost var store := reader.indexer.Contents();
    for i := 0 to |script|
      invariant |answers| == i
      invariant forall j :: 0 <= j < i ==> MayAnswer(store, reader, script[j], answers[j])
      invariant forall o | o in held :: fresh(o.Footprint())
    {
      reader.indexer.Untouched();
      var call, answer := script[i], Nothing;
      if call.Overwrite? {
        if call.held < |held| {
          var o := held[call.held];
          assert {o, o.labels, o.annotations} == o.Footprint() && o in held;
          Write(o, call.with);
        }
      } else {
        var given;
        answer, given := Read(reader, call);
        held := held + given;
      }
      assert MayAnswer(store, reader, call, answer);
      answers := answers + [answer];
    }
    reader.indexer.Untouched();
  }

  /** With copying disabled the answers are the cached objects: relabelling one relabels the cache. */
  method RelabelUncopied(reader: CacheReader, opts: ListOptions, i: nat, labels: map<string, string>)
    returns (r: Result<seq<Object>, ReadError>, ghost picked: seq<string>)
    requires reader.indexer.Valid() && (reader.disableDeepCopy || opts.unsafeDisableDeepCopy == Some(true))
    modifies reader.indexer.repr
    ensures r.Ok? && i < |r.value| ==>
      i < |picked| && picked[i] in reader.indexer.items && reader.indexer.items[picked[i]].labels.entries == labels
  {
    ghost var order;
    r, order, picked := reader.List(opts);
    if r.Ok? && i < |r.value| {
      assert r.value[i] in reader.indexer.items.Values;
      assert reader.indexer.items[picked[i]] == r.value[i];
      r.value[i].labels.entries := labels;
    }
  }

  /** So it is with Get: the answer keeps the kind it was stored with and shares its labels with the cache. */
  method RelabelUncopiedGet(reader: CacheReader, ns: string, name: string, out: Object, labels: map<string, string>)
    returns (r: Result<string, ReadError>)
    requires reader.indexer.Valid() && reader.disableDeepCopy
    requires out !in reader.indexer.repr
    modifies reader.indexer.repr, out
    ensures r.Ok? ==> r.value in reader.indexer.items && reader.indexer.items[r.value].labels.entries == labels
    ensures r.Ok? ==> out.gvk == reader.indexer.items[r.value].gvk
  {
    r := reader.Get(ns, name, out);
    if r.Ok? {
      var stored := reader.indexer.items[r.value];
      assert out.View() == stored.View() && out.labels == stored.labels;
      assert stored.labels in stored.Footprint();
      assert out.View().gvk == out.gvk && stored.View().gvk == stored.gvk;
      out.labels.entries := labels;
    }
  }
}
