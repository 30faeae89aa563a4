/** Cognitive diffs between two checkpoints: each of the `memory`,
    `model` and `bolt` directories of the older checkpoint is compared
    with its namesake in the newer one, file by relative path, and the
    report counts what was added, removed, modified and left unchanged.
    A directory is the map from relative path to file that a recursive
    walk finds. */
module Diff {
  import opened Wrappers
  import opened Seqs
  import Choice

  type Bytes = seq<bv8>

  /** A name the walk lists as a file. `isFile` is `os.path.isfile` on it
      (false for a dangling link); `contents` is what reading it gives,
      `None` when reading raises. */
  datatype Entry = Entry(isFile: bool, contents: Option<Bytes>)

  /** A directory: relative path to entry, for every file under it. */
  type Tree = map<string, Entry>

  /** `os.path.join(dir, rel)` for a relative `rel`. */
  function Join(dir: string, rel: string): string {
    dir + "/" + rel
  }

  function JoinTo(dir: string): string -> string {
    (rel: string) => Join(dir, rel)
  }

  /** Within one directory, two relative paths name the same file only
      when they are equal. */
  lemma JoinInjective(dir: string, a: string, b: string)
    ensures Join(dir, a) == Join(dir, b) ==> a == b
  {
    if Join(dir, a) == Join(dir, b) {
      assert a == Join(dir, a)[|dir| + 1..];
    }
  }

  /** The full paths of the given relative paths under `dir`. */
  function Under(dir: string, rels: set<string>): set<string> {
    set rel | rel in rels :: Join(dir, rel)
  }

  /** `fs` lists each full path of `rels` under `dir` once, and nothing else. */
  ghost predicate Lists(fs: seq<string>, dir: string, rels: set<string>) {
    Distinct(fs) && forall f :: f in fs <==> f in Under(dir, rels)
  }

  /** `_files_differ`: the bytes differ, or one of the reads fails. */
  function FilesDiffer(a: Entry, b: Entry): (differ: bool)
    ensures differ <==> !(a.contents.Some? && a.contents == b.contents)
  {
    match (a.contents, b.contents)
    case (Some(x), Some(y)) => x != y
    case _ => true
  }

  /** Two readable files with the same bytes do not differ, in either
      order; a file that cannot be read differs even from itself. */
  lemma FilesDifferFacts(a: Entry, b: Entry)
    ensures FilesDiffer(a, b) == FilesDiffer(b, a)
    ensures a.contents.Some? && a.contents == b.contents ==> !FilesDiffer(a, b)
    ensures a.contents.None? ==> FilesDiffer(a, a)
  {
  }

  /** A common path whose two sides are files that differ. */
  function Changed(older: Tree, newer: Tree): string -> bool {
    (rel: string) => rel in older && rel in newer && older[rel].isFile && newer[rel].isFile
                     && FilesDiffer(older[rel], newer[rel])
  }

  /** A common path whose two sides are files that do not differ. */
  function Kept(older: Tree, newer: Tree): string -> bool {
    (rel: string) => rel in older && rel in newer && older[rel].isFile && newer[rel].isFile
                     && !FilesDiffer(older[rel], newer[rel])
  }

  function ChangedPaths(older: Tree, newer: Tree): set<string> {
    set rel | rel in older.Keys && Changed(older, newer)(rel)
  }

  function KeptPaths(older: Tree, newer: Tree): set<string> {
    set rel | rel in older.Keys && Kept(older, newer)(rel)
  }

  /** Modified and unchanged paths never overlap, and together they are
      the common paths that are files on both sides. */
  lemma ChangedKeptPartition(older: Tree, newer: Tree)
    ensures ChangedPaths(older, newer) * KeptPaths(older, newer) == {}
    ensures ChangedPaths(older, newer) + KeptPaths(older, newer)
         == set rel | rel in older && rel in newer && older[rel].isFile && newer[rel].isFile
  {
  }

  /** The relative paths of a directory that may be missing. */
  function Paths(tree: Option<Tree>): set<string> {
    if tree.Some? then tree.value.Keys else {}
  }

  /** The four lists of `_diff_directory`; `kept` is its `unchanged`. */
  datatype DirDiff = DirDiff(
    added: seq<string>,
    removed: seq<string>,
    modified: seq<string>,
    kept: seq<string>)

  /** What `_diff_directory` returns for the two directories. */
  ghost predicate DiffOf(d: DirDiff, oldDir: string, newDir: string, older: Option<Tree>, newer: Option<Tree>) {
    if older.None? then
      && Lists(d.added, newDir, Paths(newer)) && |d.added| == |Paths(newer)|
      && d.removed == [] && d.modified == [] && d.kept == []
    else if newer.None? then
      && Lists(d.removed, oldDir, older.value.Keys) && |d.removed| == |older.value.Keys|
      && d.added == [] && d.modified == [] && d.kept == []
    else
      var o, n := older.value, newer.value;
      && Lists(d.added, newDir, n.Keys - o.Keys) && |d.added| == |n.Keys - o.Keys|
      && Lists(d.removed, oldDir, o.Keys - n.Keys) && |d.removed| == |o.Keys - n.Keys|
      && Lists(d.modified, newDir, ChangedPaths(o, n))
      && Lists(d.kept, newDir, KeptPaths(o, n))
      && |d.modified| + |d.kept| <= |o.Keys * n.Keys|
  }

  /** A list of distinct relative paths, joined to `dir`. */
  lemma MapLists(xs: seq<string>, dir: string, rels: set<string>)
    requires Distinct(xs)
    requires forall x :: x in xs <==> x in rels
    ensures Lists(Map(xs, JoinTo(dir)), dir, rels)
  {
    var fs := Map(xs, JoinTo(dir));
    forall i, j | 0 <= i < j < |fs|
      ensures fs[i] != fs[j]
    {
      JoinInjective(dir, xs[i], xs[j]);
    }
    forall f | f in Under(dir, rels)
      ensures f in fs
    {
      var rel :| rel in rels && f == Join(dir, rel);
      var k :| 0 <= k < |xs| && xs[k] == rel;
      assert fs[k] == f;
    }
  }

  /** The passing paths of a list of distinct relative paths, joined to `dir`. */
  lemma FilterLists(xs: seq<string>, p: string -> bool, dir: string, rels: set<string>)
    requires Distinct(xs)
    requires forall x :: x in rels <==> x in xs && p(x)
    ensures Lists(Map(Filter(xs, p), JoinTo(dir)), dir, rels)
  {
    FilterDistinct(xs, p);
    FilterFacts(xs, p);
    var kept := Filter(xs, p);
    forall x | x in rels
      ensures x in kept
    {
      var k :| 0 <= k < |xs| && xs[k] == x;
    }
    MapLists(kept, dir, rels);
  }

  /** `_get_all_files`: the full path of every file under `dir`, in walk
      order, and nothing when the directory is missing. */
  method AllFiles(dir: string, tree: Option<Tree>) returns (files: seq<string>)
    ensures Lists(files, dir, Paths(tree))
    ensures |files| == |Paths(tree)|
  {
    if tree.None? {
      return [];
    }
    var walk := Choice.Elements(tree.value.Keys);
    files := Map(walk, JoinTo(dir));
    MapLists(walk, dir, tree.value.Keys);
  }

  /** The loop of `_diff_directory` over the common paths. */
  method SortCommon(common: seq<string>, older: Tree, newer: Tree, newDir: string)
    returns (modified: seq<string>, kept: seq<string>)
    requires forall rel :: rel in common ==> rel in older && rel in newer
    ensures modified == Map(Filter(common, Changed(older, newer)), JoinTo(newDir))
    ensures kept == Map(Filter(common, Kept(older, newer)), JoinTo(newDir))
  {
    modified, kept := [], [];
    for i := 0 to |common|
      invariant modified == Map(Filter(common[..i], Changed(older, newer)), JoinTo(newDir))
      invariant kept == Map(Filter(common[..i], Kept(older, newer)), JoinTo(newDir))
    {
      var rel := common[i];
      var newFile := Join(newDir, rel);
      FilterStep(common, i, Changed(older, newer));
      FilterStep(common, i, Kept(older, newer));
      if older[rel].isFile && newer[rel].isFile {
        if FilesDiffer(older[rel], newer[rel]) {
          MapSnoc(Filter(common[..i], Changed(older, newer)), rel, JoinTo(newDir));
          modified := modified + [newFile];
        } else {
          MapSnoc(Filter(common[..i], Kept(older, newer)), rel, JoinTo(newDir));
          kept := kept + [newFile];
        }
      }
    }
    assert common[..|common|] == common;
  }

  /** `_diff_directory`. Set iteration order and walk order are arbitrary,
      so only membership and counts are promised. */
  method DiffDirectory(oldDir: string, newDir: string, older: Option<Tree>, newer: Option<Tree>)
    returns (d: DirDiff)
    ensures DiffOf(d, oldDir, newDir, older, newer)
  {
    if older.None? {
      var added := AllFiles(newDir, newer);
      return DirDiff(added, [], [], []);
    }
    if newer.None? {
      var removed := AllFiles(oldDir, older);
      return DirDiff([], removed, [], []);
    }
    var o, n := older.value, newer.value;
    var newOnly := Choice.Elements(n.Keys - o.Keys);
    var oldOnly := Choice.Elements(o.Keys - n.Keys);
    var added := Map(newOnly, JoinTo(newDir));
    var removed := Map(oldOnly, JoinTo(oldDir));
    MapLists(newOnly, newDir, n.Keys - o.Keys);
    MapLists(oldOnly, oldDir, o.Keys - n.Keys);
    var common := Choice.Elements(o.Keys * n.Keys);
    var modified, kept := SortCommon(common, o, n, newDir);
    FilterLists(common, Changed(o, n), newDir, ChangedPaths(o, n));
    FilterLists(common, Kept(o, n), newDir, KeptPaths(o, n));
    FilterExclusive(common, Changed(o, n), Kept(o, n));
    d := DirDiff(added, removed, modified, kept);
  }

  // ---- compare_checkpoints -------------------------------------------------

  /** A checkpoint directory: its parsed `metadata.json`, if present, and
      its three sub-directories, each of which may be missing. */
  datatype Checkpoint = Checkpoint(
    meta: Option<map<string, string>>,
    memory: Option<Tree>,
    model: Option<Tree>,
    bolt: Option<Tree>)

  datatype Error = OldNotFound | NewNotFound | MetadataNotFound

  /** The four lengths of a directory diff. */
  datatype Counts = Counts(added: nat, removed: nat, modified: nat, kept: nat)

  datatype Report = Report(
    oldId: string, oldCreatedAt: string,
    newId: string, newCreatedAt: string,
    generatedAt: string,
    memory: DirDiff, model: DirDiff, bolt: DirDiff,
    memoryStats: Counts, modelStats: Counts, boltStats: Counts)

  /** `meta.get(key, "unknown")`. */
  function MetaField(meta: map<string, string>, key: string): string {
    if key in meta then meta[key] else "unknown"
  }

  function CountsOf(d: DirDiff): (c: Counts)
    ensures c.added == |d.added| && c.removed == |d.removed|
    ensures c.modified == |d.modified| && c.kept == |d.kept|
  {
    Counts(|d.added|, |d.removed|, |d.modified|, |d.kept|)
  }

  /** `compare_checkpoints` on the checkpoints at `oldPath` and `newPath`
      (`None` for a path that does not exist); `now` is the clock's
      reading for `generated_at`. */
  method CompareCheckpoints(oldPath: string, newPath: string,
                            oldCp: Option<Checkpoint>, newCp: Option<Checkpoint>, now: string)
    returns (r: Result<Report, Error>)
    ensures oldCp.None? <==> r == Failure(OldNotFound)
    ensures oldCp.Some? && newCp.None? <==> r == Failure(NewNotFound)
    ensures oldCp.Some? && newCp.Some? && (oldCp.value.meta.None? || newCp.value.meta.None?)
        <==> r == Failure(MetadataNotFound)
    ensures r.Success? ==>
      var o, n, rep := oldCp.value, newCp.value, r.value;
      && rep.oldId == MetaField(o.meta.value, "checkpoint_id")
      && rep.oldCreatedAt == MetaField(o.meta.value, "created_at")
      && rep.newId == MetaField(n.meta.value, "checkpoint_id")
      && rep.newCreatedAt == MetaField(n.meta.value, "created_at")
      && rep.generatedAt == now
      && DiffOf(rep.memory, Join(oldPath, "memory"), Join(newPath, "memory"), o.memory, n.memory)
      && DiffOf(rep.model, Join(oldPath, "model"), Join(newPath, "model"), o.model, n.model)
      && DiffOf(rep.bolt, Join(oldPath, "bolt"), Join(newPath, "bolt"), o.bolt, n.bolt)
      && rep.memoryStats == CountsOf(rep.memory)
      && rep.modelStats == CountsOf(rep.model)
      && rep.boltStats == CountsOf(rep.bolt)
  {
    if oldCp.None? {
      return Failure(OldNotFound);
    }
    if newCp.None? {
      return Failure(NewNotFound);
    }
    var o, n := oldCp.value, newCp.value;
    if o.meta.None? || n.meta.None? {
      return Failure(MetadataNotFound);
    }
    var memory := DiffDirectory(Join(oldPath, "memory"), Join(newPath, "memory"), o.memory, n.memory);
    var model := DiffDirectory(Join(oldPath, "model"), Join(newPath, "model"), o.model, n.model);
    var bolt := DiffDirectory(Join(oldPath, "bolt"), Join(newPath, "bolt"), o.bolt, n.bolt);
    r := Success(Report(
      MetaField(o.meta.value, "checkpoint_id"), MetaField(o.meta.value, "created_at"),
      MetaField(n.meta.value, "checkpoint_id"), MetaField(n.meta.value, "created_at"),
      now, memory, model, bolt,
      CountsOf(memory), CountsOf(model), CountsOf(bolt)));
  }
}
