/** Directories of JSON documents: a directory is a map from file stem to
    document. The `list_*` operations read a directory and keep the
    documents that pass a filter, in the order the listing gave. */
module Store {
  import Choice
  import Seqs
  import Sorting

  /** `os.listdir`: every name once, in an order the file system chooses. */
  method ListDir<V>(dir: map<string, V>) returns (names: seq<string>)
    ensures forall k :: k in names <==> k in dir
    ensures Seqs.Distinct(names)
  {
    names := Choice.Elements(dir.Keys);
  }

  /** The documents under `keys` that `keep` accepts, in the order of `keys`. */
  function Collected<V>(keys: seq<string>, dir: map<string, V>, keep: (string, V) -> bool): seq<V>
    requires forall k :: k in keys ==> k in dir
  {
    if keys == [] then []
    else
      var key := keys[|keys| - 1];
      Collected(keys[..|keys| - 1], dir, keep) + (if keep(key, dir[key]) then [dir[key]] else [])
  }

  lemma CollectedSnoc<V>(keys: seq<string>, key: string, dir: map<string, V>, keep: (string, V) -> bool)
    requires forall k :: k in keys ==> k in dir
    requires key in dir
    ensures Collected(keys + [key], dir, keep)
         == Collected(keys, dir, keep) + if keep(key, dir[key]) then [dir[key]] else []
  {
    assert (keys + [key])[..|keys|] == keys;
  }

  /** The collection depends only on the documents under the visited keys. */
  lemma {:induction false} CollectedFrame<V>(keys: seq<string>, d1: map<string, V>, d2: map<string, V>,
                                             keep: (string, V) -> bool)
    requires forall k :: k in keys ==> k in d1 && k in d2 && d1[k] == d2[k]
    ensures Collected(keys, d1, keep) == Collected(keys, d2, keep)
  {
    if keys != [] {
      CollectedFrame(keys[..|keys| - 1], d1, d2, keep);
    }
  }

  /** The collection holds exactly the accepted documents under the keys. */
  lemma {:induction false} CollectedExactly<V>(keys: seq<string>, dir: map<string, V>, keep: (string, V) -> bool)
    requires forall k :: k in keys ==> k in dir
    ensures forall v :: v in Collected(keys, dir, keep) ==> exists k :: k in keys && keep(k, v) && v == dir[k]
    ensures forall k :: k in keys && keep(k, dir[k]) ==> dir[k] in Collected(keys, dir, keep)
  {
    if keys != [] {
      var init, key := keys[..|keys| - 1], keys[|keys| - 1];
      assert forall k :: k in keys ==> k in init || k == key;
      CollectedExactly(init, dir, keep);
    }
  }

  /** What every `list_*` promises: the accepted documents of the whole
      directory, none missing and none extra, sorted by the given order. */
  lemma Listing<V(!new)>(keys: seq<string>, dir: map<string, V>, keep: (string, V) -> bool, ge: (V, V) -> bool)
    requires forall k :: k in keys <==> k in dir
    requires Sorting.Total(ge) && Sorting.Transitive(ge)
    ensures var listed := Sorting.SortBy(Collected(keys, dir, keep), ge);
      && Sorting.SortedBy(listed, ge)
      && (forall v :: v in listed ==> exists k :: k in dir && keep(k, v) && v == dir[k])
      && (forall k :: k in dir && keep(k, dir[k]) ==> dir[k] in listed)
  {
    var sel := Collected(keys, dir, keep);
    Sorting.SortBySorted(sel, ge);
    CollectedExactly(keys, dir, keep);
    var listed := Sorting.SortBy(sel, ge);
    assert forall v :: v in listed <==> v in sel by {
      assert forall v :: v in listed <==> v in multiset(listed);
      assert forall v :: v in sel <==> v in multiset(sel);
    }
  }
}
