/** The cache-first read of a collection: cached records first, the graph for the rest. */
module Collection {
  import opened Wrappers
  import opened Text

  /** An id is a list of parts; its cache key joins them. */
  type Id = seq<string>

  function Join(parts: Id): string {
    if parts == [] then ""
    else if |parts| == 1 then parts[0]
    else parts[0] + [':'] + Join(parts[1..])
  }

  predicate NoColon(parts: Id) {
    forall i :: 0 <= i < |parts| ==> ':' !in parts[i]
  }

  lemma {:induction false} JoinHasColon(parts: Id)
    requires NoColon(parts)
    ensures ':' in Join(parts) <==> |parts| > 1
  {
  }

  /**
   * Keys of colon-free ids are equal only for equal ids, except that the id of no parts and the id
   * of one empty part share the empty key.
   */
  lemma {:induction false} JoinInjective(a: Id, b: Id)
    requires NoColon(a) && NoColon(b)
    ensures Join(a) == Join(b) <==> a == b || (a == [] && b == [""]) || (a == [""] && b == [])
  {
    JoinHasColon(a);
    JoinHasColon(b);
    if |a| > 1 && |b| > 1 && Join(a) == Join(b) {
      SplitAtFirst(':', a[0], Join(a[1..]), b[0], Join(b[1..]));
      JoinInjective(a[1..], b[1..]);
      JoinHasColon(a[1..]);
      JoinHasColon(b[1..]);
      assert a == [a[0]] + a[1..] && b == [b[0]] + b[1..];
    } else if |a| == 1 && |b| == 1 && Join(a) == Join(b) {
      assert a == [a[0]] && b == [b[0]];
    }
  }

  /** The ids a collection is read by: at least one part, none with a colon. */
  predicate ValidId(id: Id) {
    id != [] && NoColon(id)
  }

  function Keys(ids: seq<Id>): seq<string> {
    seq(|ids|, i requires 0 <= i < |ids| => Join(ids[i]))
  }

  /** Every cached record of a valid id is the graph's. */
  ghost predicate Agrees<T>(cache: map<string, T>, graph: Id -> Option<T>) {
    forall id :: ValidId(id) && Join(id) in cache ==> graph(id) == Some(cache[Join(id)])
  }

  function Cached<T>(cache: map<string, T>, key: string): Option<T> {
    if key in cache then Some(cache[key]) else None
  }

  class Store<T(!new, ==)> {
    var cache: map<string, T>

    constructor (cache: map<string, T>)
      ensures this.cache == cache
    {
      this.cache := cache;
    }

    method GetFromIndex(keys: seq<string>) returns (found: seq<Option<T>>)
      ensures |found| == |keys| && forall i :: 0 <= i < |keys| ==> found[i] == Cached(cache, keys[i])
    {
      found := [];
      for i := 0 to |keys|
        invariant |found| == i && forall j :: 0 <= j < i ==> found[j] == Cached(cache, keys[j])
      {
        found := found + [Cached(cache, keys[i])];
      }
    }

    /** Caches the records that were found, each under its own id's key. */
    method PutToIndex(ids: seq<Id>, records: seq<Option<T>>, ghost graph: Id -> Option<T>)
      requires |ids| == |records| && forall i :: 0 <= i < |ids| ==> ValidId(ids[i]) && records[i] == graph(ids[i])
      requires Agrees(cache, graph)
      modifies this
      ensures Agrees(cache, graph)
      ensures forall key :: key in old(cache) ==> key in cache
      ensures forall i :: 0 <= i < |ids| && records[i].Some? ==> Join(ids[i]) in cache
    {
      for i := 0 to |ids|
        invariant Agrees(cache, graph)
        invariant forall key :: key in old(cache) ==> key in cache
        invariant forall j :: 0 <= j < i && records[j].Some? ==> Join(ids[j]) in cache
      {
        if records[i].Some? {
          forall id | ValidId(id) && Join(id) == Join(ids[i]) ensures id == ids[i] {
            JoinInjective(id, ids[i]);
          }
          cache := cache[Join(ids[i]) := records[i].value];
        }
      }
    }

    /**
     * Reads records by id, whatever is cached and however ids repeat: the answer is the graph's at
     * every position, and the cache afterwards still agrees with it and holds all that was found.
     * `answer` is the graph's reply to one query, a row for each id in order.
     */
    method GetByIds(ids: seq<Id>, graph: Id -> Option<T>, answer: seq<Id> -> seq<Option<T>>) returns (collection: seq<Option<T>>)
      requires forall i :: 0 <= i < |ids| ==> ValidId(ids[i])
      requires Agrees(cache, graph)
      requires forall asked :: |answer(asked)| == |asked| && forall i :: 0 <= i < |asked| ==> answer(asked)[i] == graph(asked[i])
      modifies this
      ensures |collection| == |ids| && forall i :: 0 <= i < |ids| ==> collection[i] == graph(ids[i])
      ensures Agrees(cache, graph)
      ensures forall key :: key in old(cache) ==> key in cache
      ensures forall i :: 0 <= i < |ids| && collection[i].Some? ==> Join(ids[i]) in cache
    {
      hide Agrees;
      collection := GetFromIndex(Keys(ids));
      HitsAgree(cache, graph, ids);
      var missing := MissingFrom(collection);
      if missing != [] {
        var flat := seq(|missing|, k requires 0 <= k < |missing| => ids[missing[k]]);
        var fetched := answer(flat);
        if fetched != [] {
          ghost var hits := collection;
          collection := Fill(collection, missing, fetched);
          PutToIndex(flat, fetched, graph);
          forall i | 0 <= i < |ids|
            ensures collection[i] == graph(ids[i]) && (collection[i].Some? ==> Join(ids[i]) in cache)
          {
            if hits[i].None? {
              var k :| 0 <= k < |missing| && missing[k] == i;
              assert flat[k] == ids[i] && fetched[k] == graph(flat[k]);
            } else {
              assert Join(ids[i]) in old(cache);
            }
          }
        }
      }
    }
  }

  lemma HitsAgree<T>(cache: map<string, T>, graph: Id -> Option<T>, ids: seq<Id>)
    requires Agrees(cache, graph) && forall i :: 0 <= i < |ids| ==> ValidId(ids[i])
    ensures forall i :: 0 <= i < |ids| && Cached(cache, Join(ids[i])).Some? ==> Cached(cache, Join(ids[i])) == graph(ids[i])
  {
  }

  /** The positions without a record, in order. */
  method MissingFrom<T>(collection: seq<Option<T>>) returns (missing: seq<nat>)
    ensures forall k :: 0 <= k < |missing| ==> missing[k] < |collection|
    ensures forall i :: 0 <= i < |collection| ==> (collection[i].None? <==> i in missing)
    ensures forall k, l :: 0 <= k < l < |missing| ==> missing[k] < missing[l]
  {
    missing := [];
    for i := 0 to |collection|
      invariant forall k :: 0 <= k < |missing| ==> missing[k] < i
      invariant forall j :: 0 <= j < i ==> (collection[j].None? <==> j in missing)
      invariant forall k, l :: 0 <= k < l < |missing| ==> missing[k] < missing[l]
    {
      if collection[i].None? {
        missing := missing + [i];
      }
    }
  }

  /** Overwrites the missing positions with what was fetched for them. */
  method Fill<T>(hits: seq<Option<T>>, missing: seq<nat>, fetched: seq<Option<T>>) returns (collection: seq<Option<T>>)
    requires |fetched| == |missing|
    requires forall k :: 0 <= k < |missing| ==> missing[k] < |hits|
    requires forall k, l :: 0 <= k < l < |missing| ==> missing[k] < missing[l]
    ensures |collection| == |hits|
    ensures forall i :: 0 <= i < |hits| && i !in missing ==> collection[i] == hits[i]
    ensures forall k :: 0 <= k < |missing| ==> collection[missing[k]] == fetched[k]
  {
    collection := hits;
    for k := 0 to |missing|
      invariant |collection| == |hits|
      invariant forall i :: 0 <= i < |hits| && i !in missing ==> collection[i] == hits[i]
      invariant forall l :: 0 <= l < k ==> collection[missing[l]] == fetched[l]
    {
      collection := collection[missing[k] := fetched[k]];
    }
  }
}
