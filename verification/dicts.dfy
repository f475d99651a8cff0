/**
 * The data the two renamers exchange: directory entries as the listing
 * returns them, Python dicts from old to new file name (which keep insertion
 * order), and the body of a batch-rename request.
 */
module Dicts {
  import opened Wrappers

  /** One element of a directory listing: only `name` and `is_dir` are read. */
  datatype DirEntry = DirEntry(name: string, isDir: bool)

  /** Some entry of the listing that `keep` accepts has this name. */
  ghost predicate Listed(entries: seq<DirEntry>, keep: DirEntry -> bool, name: string)
  {
    exists i :: 0 <= i < |entries| && keep(entries[i]) && entries[i].name == name
  }

  lemma ListedSnoc(entries: seq<DirEntry>, keep: DirEntry -> bool, name: string)
    requires entries != []
    ensures Listed(entries, keep, name) <==>
      Listed(entries[..|entries| - 1], keep, name)
      || (keep(entries[|entries| - 1]) && entries[|entries| - 1].name == name)
  {
    var init := entries[..|entries| - 1];
    if Listed(entries, keep, name) {
      var i :| 0 <= i < |entries| && keep(entries[i]) && entries[i].name == name;
      if i < |init| { assert init[i] == entries[i]; }
    }
    if Listed(init, keep, name) {
      var i :| 0 <= i < |init| && keep(init[i]) && init[i].name == name;
      assert entries[i] == init[i];
    }
  }

  datatype Item = Item(key: string, value: string)

  /** A dict from original name to new name, as its items() list in insertion order. */
  type Dict = seq<Item>

  function Keys(d: Dict): set<string>
  {
    if d == [] then {} else {d[0].key} + Keys(d[1..])
  }

  /** Every key occurs once, as in any Python dict. */
  predicate DistinctKeys(d: Dict)
  {
    d == [] || (d[0].key !in Keys(d[1..]) && DistinctKeys(d[1..]))
  }

  /** d.get(k). */
  function Get(d: Dict, k: string): (r: Option<string>)
    ensures r.Some? <==> k in Keys(d)
  {
    if d == [] then None
    else if d[0].key == k then Some(d[0].value)
    else Get(d[1..], k)
  }

  /**
   * d[k] = v: an existing key keeps its place and takes the new value, a new
   * key is appended at the end.
   */
  function Put(d: Dict, k: string, v: string): (r: Dict)
  {
    if d == [] then [Item(k, v)]
    else if d[0].key == k then [Item(k, v)] + d[1..]
    else [d[0]] + Put(d[1..], k, v)
  }

  /** What d[k] = v does to the keys, the lookups and the order of a dict. */
  lemma {:induction false} PutSpec(d: Dict, k: string, v: string)
    ensures Keys(Put(d, k, v)) == Keys(d) + {k}
    ensures Get(Put(d, k, v), k) == Some(v)
    ensures forall k' :: k' != k ==> Get(Put(d, k, v), k') == Get(d, k')
    ensures DistinctKeys(d) ==> DistinctKeys(Put(d, k, v))
    ensures k !in Keys(d) ==> Put(d, k, v) == d + [Item(k, v)]
    ensures DistinctKeys(d) && k in Keys(d) ==> UpdatedInPlace(d, Put(d, k, v), k, v)
  {
    if DistinctKeys(d) && k in Keys(d) {
      PutInPlace(d, k, v);
    }
    if d != [] {
      var r := Put(d, k, v);
      if d[0].key == k {
        assert r[1..] == d[1..];
      } else {
        PutSpec(d[1..], k, v);
        assert r[1..] == Put(d[1..], k, v);
        assert k !in Keys(d) ==> d + [Item(k, v)] == [d[0]] + (d[1..] + [Item(k, v)]);
      }
    }
  }

  /** `r` is `d` with the item of key `k` given the value `v` where it stands, and nothing else changed. */
  ghost predicate UpdatedInPlace(d: Dict, r: Dict, k: string, v: string)
  {
    |r| == |d| && forall i :: 0 <= i < |d| ==> r[i] == (if d[i].key == k then Item(k, v) else d[i])
  }

  /** d[k] = v adds k to the keys and no other key. */
  lemma {:induction false} PutKeys(d: Dict, k: string, v: string)
    ensures Keys(Put(d, k, v)) == Keys(d) + {k}
  {
    if d != [] && d[0].key != k {
      PutKeys(d[1..], k, v);
      assert Put(d, k, v)[1..] == Put(d[1..], k, v);
    }
  }

  /** An existing key: the items keep their positions, and only that key's item takes the new value. */
  lemma {:induction false} PutInPlace(d: Dict, k: string, v: string)
    requires DistinctKeys(d) && k in Keys(d)
    ensures UpdatedInPlace(d, Put(d, k, v), k, v)
  {
    var r := Put(d, k, v);
    if d[0].key == k {
      forall i | 1 <= i < |d| ensures d[i].key != k {
        KeyAt(d[1..], i - 1);
      }
    } else {
      PutInPlace(d[1..], k, v);
      assert r == [d[0]] + Put(d[1..], k, v);
    }
  }

  /** One element of `rename_objects` in a batch-rename request. */
  datatype RenameObject = RenameObject(srcName: string, newName: string)

  /** The payload of one batch-rename request. */
  datatype RenameRequest = RenameRequest(srcDir: string, renameObjects: seq<RenameObject>)

  /** The `rename_objects` list of a request for a mapping: its items, in order, as pairs. */
  function RenameObjects(mapping: Dict): (objs: seq<RenameObject>)
    ensures |objs| == |mapping|
    ensures forall i :: 0 <= i < |objs| ==> objs[i] == RenameObject(mapping[i].key, mapping[i].value)
  {
    seq(|mapping|, i requires 0 <= i < |mapping| => RenameObject(mapping[i].key, mapping[i].value))
  }

  /** Each pair of the request renames a key of the mapping to the value the mapping gives it. */
  lemma RenameObjectsFaithful(mapping: Dict)
    requires DistinctKeys(mapping)
    ensures forall i :: 0 <= i < |mapping| ==>
      RenameObjects(mapping)[i].srcName in Keys(mapping)
      && Get(mapping, RenameObjects(mapping)[i].srcName) == Some(RenameObjects(mapping)[i].newName)
  {
    forall i | 0 <= i < |mapping|
      ensures RenameObjects(mapping)[i].srcName in Keys(mapping)
      ensures Get(mapping, RenameObjects(mapping)[i].srcName) == Some(RenameObjects(mapping)[i].newName)
    {
      GetAt(mapping, i);
    }
  }

  /**
   * The loop of batch_rename that builds `rename_objects`: one pair per item
   * of the mapping, in the mapping's order.
   */
  method BuildRenameObjects(mapping: Dict) returns (objs: seq<RenameObject>)
    ensures objs == RenameObjects(mapping)
  {
    objs := [];
    for i := 0 to |mapping|
      invariant |objs| == i
      invariant forall j :: 0 <= j < i ==> objs[j] == RenameObject(mapping[j].key, mapping[j].value)
    {
      objs := objs + [RenameObject(mapping[i].key, mapping[i].value)];
    }
  }

  /** In a dict, the value found for the key of item `i` is that item's value. */
  lemma {:induction false} GetAt(d: Dict, i: nat)
    requires DistinctKeys(d) && i < |d|
    ensures Get(d, d[i].key) == Some(d[i].value)
  {
    if i > 0 {
      KeyAt(d[1..], i - 1);
      GetAt(d[1..], i - 1);
    }
  }

  lemma {:induction false} KeyAt(d: Dict, i: nat)
    requires i < |d|
    ensures d[i].key in Keys(d)
  {
    if i > 0 { KeyAt(d[1..], i - 1); }
  }
}
