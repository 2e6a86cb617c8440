/**
 * Attachment metadata of posts: fetched post by post, or for a whole stream in one batch.
 */
module Attachments {
  import opened Wrappers

  /** A file's key in the database: its owner and its id. */
  type Key = (string, string)

  datatype FileDetails = FileDetails(owner: string, id: string, name: string)
  {
    function Key(): Key { (owner, id) }
  }

  datatype PostView = PostView(details: string, attachments: Option<seq<string>>)

  datatype PostViewDetailed = PostViewDetailed(view: PostView, metadata: seq<FileDetails>)

  /** The file store: how an attachment URI names a key, and the record of each key. */
  datatype Files = Files(keyOf: string -> Option<Key>, record: Key -> Option<FileDetails>)

  /** A stored record carries its own key. */
  ghost predicate Lawful(files: Files) {
    forall key :: files.record(key).Some? ==> files.record(key).value.Key() == key
  }

  function Uris(view: PostView): seq<string> {
    if view.attachments.Some? then view.attachments.value else []
  }

  /** The valid keys of the URIs, in order; malformed ones are skipped. */
  function ValidKeys(files: Files, uris: seq<string>): seq<Key> {
    if uris == [] then []
    else (if files.keyOf(uris[0]).Some? then [files.keyOf(uris[0]).value] else []) + ValidKeys(files, uris[1..])
  }

  /** One batched read by keys, answering each key in order. */
  function GetByIds(files: Files, keys: seq<Key>): seq<Option<FileDetails>> {
    seq(|keys|, i requires 0 <= i < |keys| => files.record(keys[i]))
  }

  function Found(results: seq<Option<FileDetails>>): seq<FileDetails> {
    if results == [] then []
    else (if results[0].Some? then [results[0].value] else []) + Found(results[1..])
  }

  function FetchMetadata(files: Files, uris: seq<string>): seq<FileDetails> {
    if uris == [] then [] else Found(GetByIds(files, ValidKeys(files, uris)))
  }

  /** A single post read on its own. */
  function GetById(files: Files, view: PostView, withMetadata: bool): PostViewDetailed {
    PostViewDetailed(view, if withMetadata then FetchMetadata(files, Uris(view)) else [])
  }

  /** The attachment URIs of all posts, without repeats. */
  function AllUris(views: seq<PostView>): set<string> {
    set i, j | 0 <= i < |views| && 0 <= j < |Uris(views[i])| :: Uris(views[i])[j]
  }

  /** Records by their own keys; a later one with the same key replaces an earlier. */
  function ByKey(records: seq<FileDetails>): map<Key, FileDetails> {
    if records == [] then map[]
    else ByKey(records[..|records| - 1])[records[|records| - 1].Key() := records[|records| - 1]]
  }

  function Distribute(files: Files, byKey: map<Key, FileDetails>, uris: seq<string>): seq<FileDetails> {
    if uris == [] then []
    else
      var key := files.keyOf(uris[0]);
      (if key.Some? && key.value in byKey then [byKey[key.value]] else []) + Distribute(files, byKey, uris[1..])
  }

  /** A stream of posts read with one fetch; `order` is the order the set of URIs is iterated in. */
  function FromPostViews(files: Files, views: seq<PostView>, withMetadata: bool, order: seq<string>): seq<PostViewDetailed> {
    if !withMetadata then seq(|views|, i requires 0 <= i < |views| => PostViewDetailed(views[i], []))
    else
      var byKey := ByKey(FetchMetadata(files, order));
      seq(|views|, i requires 0 <= i < |views| =>
        PostViewDetailed(views[i], Distribute(files, byKey, Uris(views[i]))))
  }

  /** A key is in the lookup exactly when one of the URIs names it and its record exists. */
  predicate Named(files: Files, uris: seq<string>, key: Key) {
    exists i :: 0 <= i < |uris| && files.keyOf(uris[i]) == Some(key)
  }

  lemma {:induction false} FoundByKey(files: Files, uris: seq<string>)
    requires Lawful(files)
    ensures forall fd :: fd in Found(GetByIds(files, ValidKeys(files, uris)))
              <==> Named(files, uris, fd.Key()) && files.record(fd.Key()) == Some(fd)
  {
    var keys := ValidKeys(files, uris);
    var results := GetByIds(files, keys);
    FoundIsIn(results);
    ValidKeysAreNamed(files, uris);
    forall fd ensures fd in Found(results) <==> Named(files, uris, fd.Key()) && files.record(fd.Key()) == Some(fd) {
      if fd in Found(results) {
        var i :| 0 <= i < |results| && results[i] == Some(fd);
        assert keys[i] in keys;
      }
      if Named(files, uris, fd.Key()) && files.record(fd.Key()) == Some(fd) {
        var i :| 0 <= i < |keys| && keys[i] == fd.Key();
        assert results[i] == Some(fd);
      }
    }
  }

  lemma {:induction false} FoundIsIn(results: seq<Option<FileDetails>>)
    ensures forall fd :: fd in Found(results) <==> exists i :: 0 <= i < |results| && results[i] == Some(fd)
  {
    if results != [] {
      FoundIsIn(results[1..]);
      forall fd ensures fd in Found(results) <==> exists i :: 0 <= i < |results| && results[i] == Some(fd) {
        if i :| 0 <= i < |results| && results[i] == Some(fd) {
          assert i > 0 ==> results[1..][i - 1] == Some(fd);
        }
        if fd in Found(results[1..]) {
          var i :| 0 <= i < |results[1..]| && results[1..][i] == Some(fd);
          assert results[i + 1] == Some(fd);
        }
      }
    }
  }

  lemma {:induction false} ValidKeysAreNamed(files: Files, uris: seq<string>)
    ensures forall key :: key in ValidKeys(files, uris) <==> Named(files, uris, key)
  {
    if uris != [] {
      ValidKeysAreNamed(files, uris[1..]);
      forall key ensures key in ValidKeys(files, uris) <==> Named(files, uris, key) {
        if Named(files, uris, key) {
          var i :| 0 <= i < |uris| && files.keyOf(uris[i]) == Some(key);
          assert i > 0 ==> uris[1..][i - 1] == uris[i];
        }
        if key in ValidKeys(files, uris[1..]) {
          var i :| 0 <= i < |uris[1..]| && files.keyOf(uris[1..][i]) == Some(key);
          assert uris[i + 1] == uris[1..][i];
        }
      }
    }
  }

  lemma {:induction false} ByKeyIsRecord(files: Files, records: seq<FileDetails>)
    requires forall fd :: fd in records ==> files.record(fd.Key()) == Some(fd)
    ensures forall key :: key in ByKey(records) <==> exists i :: 0 <= i < |records| && records[i].Key() == key
    ensures forall key :: key in ByKey(records) ==> files.record(key) == Some(ByKey(records)[key])
  {
    if records != [] {
      var front, last := records[..|records| - 1], records[|records| - 1];
      ByKeyIsRecord(files, front);
      forall key ensures key in ByKey(records) <==> exists i :: 0 <= i < |records| && records[i].Key() == key {
        if i :| 0 <= i < |records| && records[i].Key() == key {
          assert i < |front| ==> front[i].Key() == key;
        }
        if key in ByKey(front) {
          var i :| 0 <= i < |front| && front[i].Key() == key;
          assert records[i].Key() == key;
        }
      }
    }
  }

  /** What the batch looks up for a URI is what the store holds for it. */
  lemma {:induction false} LookupIsRecord(files: Files, order: seq<string>, uri: string)
    requires Lawful(files) && uri in order
    ensures var byKey := ByKey(FetchMetadata(files, order));
            files.keyOf(uri).Some? ==>
              var key := files.keyOf(uri).value;
              && (key in byKey <==> files.record(key).Some?)
              && (key in byKey ==> files.record(key) == Some(byKey[key]))
  {
    FoundByKey(files, order);
    var records := FetchMetadata(files, order);
    ByKeyIsRecord(files, records);
    if files.keyOf(uri).Some? {
      var key := files.keyOf(uri).value;
      assert Named(files, order, key);
      if files.record(key).Some? {
        var fd := files.record(key).value;
        assert fd in records;
      }
    }
  }

  lemma {:induction false} DistributeIsFetch(files: Files, order: seq<string>, uris: seq<string>)
    requires Lawful(files) && forall i :: 0 <= i < |uris| ==> uris[i] in order
    ensures Distribute(files, ByKey(FetchMetadata(files, order)), uris) == Found(GetByIds(files, ValidKeys(files, uris)))
  {
    if uris != [] {
      LookupIsRecord(files, order, uris[0]);
      DistributeIsFetch(files, order, uris[1..]);
      var keys := ValidKeys(files, uris);
      if files.keyOf(uris[0]).Some? {
        assert keys[1..] == ValidKeys(files, uris[1..]);
        var results := GetByIds(files, keys);
        assert results[1..] == GetByIds(files, keys[1..]);
        assert results[0] == files.record(files.keyOf(uris[0]).value);
      } else {
        assert keys == ValidKeys(files, uris[1..]);
      }
    }
  }

  /**
   * The batch gives every post exactly the attachments it gets when read alone: same order, same
   * repeats, whatever the posts share and whatever order the URIs were fetched in.
   */
  lemma {:induction false} BatchIsSingle(files: Files, views: seq<PostView>, withMetadata: bool, order: seq<string>)
    requires Lawful(files)
    requires (set uri | uri in order) == AllUris(views)
    ensures |FromPostViews(files, views, withMetadata, order)| == |views|
    ensures forall i :: 0 <= i < |views| ==> FromPostViews(files, views, withMetadata, order)[i] == GetById(files, views[i], withMetadata)
  {
    if withMetadata {
      forall i | 0 <= i < |views|
        ensures FromPostViews(files, views, withMetadata, order)[i] == GetById(files, views[i], withMetadata)
      {
        var uris := Uris(views[i]);
        forall j | 0 <= j < |uris| ensures uris[j] in order {
          assert uris[j] in AllUris(views);
        }
        DistributeIsFetch(files, order, uris);
      }
    }
  }

  /** The file an attachment URI leads to. */
  function FileOf(files: Files, uri: string): Option<FileDetails> {
    match files.keyOf(uri)
    case None => None
    case Some(key) => files.record(key)
  }

  lemma FetchStep(files: Files, uris: seq<string>)
    requires uris != []
    ensures Found(GetByIds(files, ValidKeys(files, uris)))
         == (if FileOf(files, uris[0]).Some? then [FileOf(files, uris[0]).value] else [])
            + Found(GetByIds(files, ValidKeys(files, uris[1..])))
  {
    var keys := ValidKeys(files, uris);
    if files.keyOf(uris[0]).Some? {
      assert keys[1..] == ValidKeys(files, uris[1..]);
      assert GetByIds(files, keys)[1..] == GetByIds(files, keys[1..]);
    } else {
      assert keys == ValidKeys(files, uris[1..]);
    }
  }

  /** The list is that of the files at some positions of the URIs, in rising order. */
  ghost predicate FilesAt(files: Files, uris: seq<string>, list: seq<FileDetails>, at: seq<nat>) {
    && |at| == |list|
    && (forall i :: 0 <= i < |at| ==> at[i] < |uris| && FileOf(files, uris[at[i]]) == Some(list[i]))
    && (forall i, j :: 0 <= i < j < |at| ==> at[i] < at[j])
  }

  /** Every position whose URI leads to a file is among them. */
  ghost predicate AllFilesAt(files: Files, uris: seq<string>, at: seq<nat>) {
    forall p: nat :: p < |uris| && FileOf(files, uris[p]).Some? ==> p in at
  }

  /** Positions in the rest of some URIs, as positions in all of them, after the first when it counts. */
  function Shifted(rest: seq<nat>, first: bool): seq<nat> {
    (if first then [0] else []) + seq(|rest|, i requires 0 <= i < |rest| => rest[i] + 1)
  }

  lemma {:induction false} ShiftKeepsFiles(files: Files, uris: seq<string>, list: seq<FileDetails>, rest: seq<nat>)
    requires uris != [] && FilesAt(files, uris[1..], list, rest)
    ensures var file := FileOf(files, uris[0]);
            FilesAt(files, uris, (if file.Some? then [file.value] else []) + list, Shifted(rest, file.Some?))
  {
    hide FileOf;
    var file := FileOf(files, uris[0]);
    var more, at := (if file.Some? then [file.value] else []) + list, Shifted(rest, file.Some?);
    forall i | 0 <= i < |at| ensures at[i] < |uris| && FileOf(files, uris[at[i]]) == Some(more[i]) {
      var k := if file.Some? then i - 1 else i;
      if k >= 0 {
        assert at[i] == rest[k] + 1 && more[i] == list[k] && uris[1..][rest[k]] == uris[at[i]];
      }
    }
  }

  lemma {:induction false} ShiftKeepsAll(files: Files, uris: seq<string>, rest: seq<nat>)
    requires uris != [] && AllFilesAt(files, uris[1..], rest)
    ensures AllFilesAt(files, uris, Shifted(rest, FileOf(files, uris[0]).Some?))
  {
    hide FileOf;
    var first := FileOf(files, uris[0]).Some?;
    forall p: nat | p < |uris| && FileOf(files, uris[p]).Some? ensures p in Shifted(rest, first) {
      if p > 0 {
        assert uris[1..][p - 1] == uris[p];
        var i :| 0 <= i < |rest| && rest[i] == p - 1;
        assert Shifted(rest, first)[if first then i + 1 else i] == p;
      } else {
        assert Shifted(rest, first)[0] == 0;
      }
    }
  }

  lemma {:induction false} FetchedInOrder(files: Files, uris: seq<string>) returns (at: seq<nat>)
    ensures FilesAt(files, uris, Found(GetByIds(files, ValidKeys(files, uris))), at) && AllFilesAt(files, uris, at)
  {
    at := [];
    if uris != [] {
      FetchStep(files, uris);
      var rest := FetchedInOrder(files, uris[1..]);
      ShiftKeepsFiles(files, uris, Found(GetByIds(files, ValidKeys(files, uris[1..]))), rest);
      ShiftKeepsAll(files, uris, rest);
      at := Shifted(rest, FileOf(files, uris[0]).Some?);
      hide *;
    }
  }

  /**
   * A post read alone holds, with metadata asked for, the file of each attachment that leads to one:
   * every such position of its attachments once, in order; and none otherwise.
   */
  lemma SingleInOrder(files: Files, view: PostView) returns (at: seq<nat>)
    ensures GetById(files, view, true).view == view && GetById(files, view, false) == PostViewDetailed(view, [])
    ensures view.attachments.None? ==> GetById(files, view, true).metadata == []
    ensures view.attachments.Some? ==>
              && FilesAt(files, view.attachments.value, GetById(files, view, true).metadata, at)
              && AllFilesAt(files, view.attachments.value, at)
  {
    at := [];
    if view.attachments.Some? {
      at := FetchedInOrder(files, view.attachments.value);
    }
  }
}
