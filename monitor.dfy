/** The statistics of the memory monitor: a walk over the memory store
    reads every `.json` file, counts the atoms it holds by type, tag and
    actor, sums their links and collects their timestamps. */
module Monitor {
  import opened Wrappers

  /** What a list element or a whole document holds, as far as the
      counting is concerned. `links` is the length of its `links` field,
      `stamp` the POSIX time its `created_at` string parses to, when it
      has one and it parses. */
  datatype Atom = Atom(
    atomType: Option<string>,
    tags: seq<string>,
    actors: seq<string>,
    links: nat,
    stamp: Option<int>)

  /** A JSON value standing where an atom is expected: an object, or a
      value of another kind, on which `atom.get` raises. */
  datatype Item = Obj(atom: Atom) | NonObject

  /** A parsed document: a list of items, or a single one. */
  datatype Json = List(items: seq<Item>) | Single(item: Item)

  /** A file the walk lists: its directory, its name, its size, and its
      parsed contents, `None` when reading or parsing raises. */
  datatype File = File(dir: string, name: string, size: nat, data: Option<Json>)

  function PathOf(f: File): string {
    f.dir + "/" + f.name
  }

  predicate EndsWith(s: string, suffix: string) {
    |suffix| <= |s| && s[|s| - |suffix|..] == suffix
  }

  predicate IsJson(f: File) {
    EndsWith(f.name, ".json")
  }

  /** `data if isinstance(data, list) else [data]`. */
  function ItemsOf(data: Json): seq<Item> {
    match data
    case List(items) => items
    case Single(item) => [item]
  }

  /** The items the loop over one file reaches: all of them, or those up
      to the first that is not an object, which is counted and then
      raises, abandoning the rest of the file. */
  function Visited(items: seq<Item>): (r: seq<Item>)
    ensures r <= items
    ensures forall k :: 0 <= k < |r| - 1 ==> r[k].Obj?
    ensures |r| < |items| ==> r != [] && r[|r| - 1].NonObject?
  {
    var n := FirstNonObject(items);
    if n < |items| then items[..n + 1] else items
  }

  /** The position of the first item that is not an object, or the
      length when there is none. */
  function FirstNonObject(items: seq<Item>): (n: nat)
    ensures n <= |items|
    ensures forall k :: 0 <= k < n ==> items[k].Obj?
    ensures n < |items| ==> items[n].NonObject?
  {
    if items == [] || items[0].NonObject? then 0
    else
      var rest := FirstNonObject(items[1..]);
      assert forall k :: 1 <= k < rest + 1 ==> items[k] == items[1..][k - 1];
      rest + 1
  }

  /** The items the whole walk counts, file after file. */
  function Counted(files: seq<File>): seq<Item> {
    if files == [] then []
    else
      var f := files[|files| - 1];
      Counted(files[..|files| - 1])
      + if IsJson(f) && f.data.Some? then Visited(ItemsOf(f.data.value)) else []
  }

  // ---- Counting maps ---------------------------------------------------------

  type Counter = map<string, nat>

  /** `m.get(k, 0)`. */
  function Get(m: Counter, k: string): nat {
    if k in m then m[k] else 0
  }

  /** `m[k] = m.get(k, 0) + 1`. */
  function Bump(m: Counter, k: string): Counter {
    m[k := Get(m, k) + 1]
  }

  /** `m` after bumping every key of `ks`, in order. */
  function TallyOnto(m: Counter, ks: seq<string>): Counter {
    if ks == [] then m else Bump(TallyOnto(m, ks[..|ks| - 1]), ks[|ks| - 1])
  }

  /** Each key is counted once per occurrence, and the other keys are
      left alone. */
  lemma {:induction false} TallyOntoCount(m: Counter, ks: seq<string>, k: string)
    ensures Get(TallyOnto(m, ks), k) == Get(m, k) + multiset(ks)[k]
    ensures k in TallyOnto(m, ks) <==> k in m || k in ks
  {
    if ks != [] {
      var init := ks[..|ks| - 1];
      assert ks == init + [ks[|ks| - 1]];
      TallyOntoCount(m, init, k);
    }
  }

  lemma {:induction false} TallyOntoAppend(m: Counter, a: seq<string>, b: seq<string>)
    ensures TallyOnto(TallyOnto(m, a), b) == TallyOnto(m, a + b)
  {
    if b != [] {
      var init, last := b[..|b| - 1], b[|b| - 1];
      assert (a + b)[..|a + b| - 1] == a + init;
      assert (a + b)[|a + b| - 1] == last;
      TallyOntoAppend(m, a, init);
      assert TallyOnto(m, a + b) == Bump(TallyOnto(m, a + init), last);
    } else {
      assert a + b == a;
    }
  }

  /** The count of every key seen: how often it occurs in `ks`; the keys
      counted are exactly those of `ks`. */
  lemma TallyFacts(ks: seq<string>)
    ensures forall k :: k in TallyOnto(map[], ks) <==> k in ks
    ensures forall k :: k in TallyOnto(map[], ks) ==> TallyOnto(map[], ks)[k] == multiset(ks)[k]
    ensures |TallyOnto(map[], ks)| == |set k | k in ks|
  {
    forall k
      ensures (k in TallyOnto(map[], ks) <==> k in ks)
      ensures k in TallyOnto(map[], ks) ==> TallyOnto(map[], ks)[k] == multiset(ks)[k]
    {
      TallyOntoCount(map[], ks, k);
    }
    assert TallyOnto(map[], ks).Keys == set k | k in ks;
  }

  /** Some key of a non-empty counter. */
  ghost function AnyKey(m: Counter): string
    requires m != map[]
  {
    var k :| k in m; k
  }

  /** The sum of the counts. */
  ghost function Total(m: Counter): nat
    decreases |m|
  {
    if m == map[] then 0
    else
      var k := AnyKey(m);
      assert |m - {k}| < |m| by {
        assert m.Keys == (m - {k}).Keys + {k};
      }
      m[k] + Total(m - {k})
  }

  lemma {:induction false} TotalRemove(m: Counter, k: string)
    requires k in m
    ensures Total(m) == m[k] + Total(m - {k})
    decreases |m|
  {
    var j := AnyKey(m);
    assert m.Keys == (m - {j}).Keys + {j};
    if j != k {
      assert m.Keys == (m - {k}).Keys + {k};
      TotalRemove(m - {j}, k);
      TotalRemove(m - {k}, j);
      assert m - {j} - {k} == m - {k} - {j};
    }
  }

  lemma TotalBump(m: Counter, k: string)
    ensures Total(Bump(m, k)) == Total(m) + 1
  {
    var b := Bump(m, k);
    TotalRemove(b, k);
    assert b - {k} == m - {k};
    if k in m {
      TotalRemove(m, k);
    } else {
      assert m - {k} == m;
    }
  }

  /** Tallying `ks` adds `|ks|` to the sum of the counts. */
  lemma {:induction false} TotalTally(m: Counter, ks: seq<string>)
    ensures Total(TallyOnto(m, ks)) == Total(m) + |ks|
  {
    if ks != [] {
      TotalTally(m, ks[..|ks| - 1]);
      TotalBump(TallyOnto(m, ks[..|ks| - 1]), ks[|ks| - 1]);
    }
  }

  // ---- One pass over the items -----------------------------------------------

  /** `atom.get("type", "unknown")`. */
  function TypeKey(a: Atom): string {
    a.atomType.GetOr("unknown")
  }

  /** The counters of the walk. */
  datatype Acc = Acc(
    total: nat,
    byType: Counter,
    byTag: Counter,
    byActor: Counter,
    links: nat,
    stamps: seq<int>)

  const Start := Acc(0, map[], map[], map[], 0, [])

  /** The loop body for one item. */
  function Count(acc: Acc, item: Item): Acc {
    match item
    case NonObject => acc.(total := acc.total + 1)
    case Obj(a) =>
      Acc(acc.total + 1,
          Bump(acc.byType, TypeKey(a)),
          TallyOnto(acc.byTag, a.tags),
          TallyOnto(acc.byActor, a.actors),
          acc.links + a.links,
          acc.stamps + if a.stamp.Some? then [a.stamp.value] else [])
  }

  function CountAll(acc: Acc, items: seq<Item>): Acc {
    if items == [] then acc else Count(CountAll(acc, items[..|items| - 1]), items[|items| - 1])
  }

  lemma CountAllSnoc(acc: Acc, items: seq<Item>, x: Item)
    ensures CountAll(acc, items + [x]) == Count(CountAll(acc, items), x)
  {
    assert (items + [x])[..|items|] == items;
  }

  lemma {:induction false} CountAllAppend(acc: Acc, a: seq<Item>, b: seq<Item>)
    ensures CountAll(CountAll(acc, a), b) == CountAll(acc, a + b)
  {
    if b != [] {
      var init, last := b[..|b| - 1], b[|b| - 1];
      assert a + b == (a + init) + [last];
      CountAllAppend(acc, a, init);
      CountAllSnoc(acc, a + init, last);
    } else {
      assert a + b == a;
    }
  }

  /** The atoms among the items, in order. */
  function Atoms(items: seq<Item>): seq<Atom> {
    if items == [] then []
    else
      Atoms(items[..|items| - 1])
      + match items[|items| - 1] case Obj(a) => [a] case NonObject => []
  }

  function Types(atoms: seq<Atom>): seq<string> {
    if atoms == [] then [] else Types(atoms[..|atoms| - 1]) + [TypeKey(atoms[|atoms| - 1])]
  }

  function Tags(atoms: seq<Atom>): seq<string> {
    if atoms == [] then [] else Tags(atoms[..|atoms| - 1]) + atoms[|atoms| - 1].tags
  }

  function ActorsOf(atoms: seq<Atom>): seq<string> {
    if atoms == [] then [] else ActorsOf(atoms[..|atoms| - 1]) + atoms[|atoms| - 1].actors
  }

  function Links(atoms: seq<Atom>): nat {
    if atoms == [] then 0 else Links(atoms[..|atoms| - 1]) + atoms[|atoms| - 1].links
  }

  function Stamps(atoms: seq<Atom>): seq<int> {
    if atoms == [] then []
    else
      var a := atoms[|atoms| - 1];
      Stamps(atoms[..|atoms| - 1]) + if a.stamp.Some? then [a.stamp.value] else []
  }

  /** A pass from the start counts every item once, and counts the atoms
      among them by type, by links and by timestamp. */
  lemma {:induction false} CountAllCloses(items: seq<Item>)
    ensures var acc, atoms := CountAll(Start, items), Atoms(items);
      && acc.total == |items|
      && acc.byType == TallyOnto(map[], Types(atoms))
      && acc.links == Links(atoms)
      && acc.stamps == Stamps(atoms)
  {
    if items != [] {
      var init, last := items[..|items| - 1], items[|items| - 1];
      CountAllCloses(init);
      var atoms := Atoms(init);
      assert CountAll(Start, items) == Count(CountAll(Start, init), last);
      if last.Obj? {
        var a := last.atom;
        assert Atoms(items) == atoms + [a];
        assert (atoms + [a])[..|atoms|] == atoms;
      } else {
        assert Atoms(items) == atoms;
      }
    }
  }

  /** ... and by every occurrence of a tag or an actor. */
  lemma {:induction false} CountAllTallies(items: seq<Item>)
    ensures var acc, atoms := CountAll(Start, items), Atoms(items);
      && acc.byTag == TallyOnto(map[], Tags(atoms))
      && acc.byActor == TallyOnto(map[], ActorsOf(atoms))
  {
    if items != [] {
      var init, last := items[..|items| - 1], items[|items| - 1];
      CountAllTallies(init);
      var atoms := Atoms(init);
      assert CountAll(Start, items) == Count(CountAll(Start, init), last);
      if last.Obj? {
        var a := last.atom;
        assert Atoms(items) == atoms + [a];
        assert (atoms + [a])[..|atoms|] == atoms;
        TallyOntoAppend(map[], Tags(atoms), a.tags);
        TallyOntoAppend(map[], ActorsOf(atoms), a.actors);
      } else {
        assert Atoms(items) == atoms;
      }
    }
  }

  /** Counting one atom per type, the counts of `by_type` add up to the
      number of atoms; they add up to `total_atoms` when every item is
      an object. */
  lemma ByTypeTotal(items: seq<Item>)
    ensures Total(CountAll(Start, items).byType) == |Atoms(items)|
    ensures (forall k :: 0 <= k < |items| ==> items[k].Obj?) ==>
      Total(CountAll(Start, items).byType) == CountAll(Start, items).total
  {
    CountAllCloses(items);
    TotalTally(map[], Types(Atoms(items)));
    TypesLength(Atoms(items));
    AtomsAll(items);
  }

  lemma {:induction false} TypesLength(atoms: seq<Atom>)
    ensures |Types(atoms)| == |atoms|
  {
    if atoms != [] {
      TypesLength(atoms[..|atoms| - 1]);
    }
  }

  lemma {:induction false} AtomsAll(items: seq<Item>)
    ensures |Atoms(items)| <= |items|
    ensures (forall k :: 0 <= k < |items| ==> items[k].Obj?) ==> |Atoms(items)| == |items|
  {
    if items != [] {
      AtomsAll(items[..|items| - 1]);
    }
  }

  // ---- The statistics -------------------------------------------------------

  datatype Summary = Summary(
    totalSizeBytes: nat,
    totalFiles: nat,
    typesCount: nat,
    tagsCount: nat,
    actorsCount: nat,
    oldest: Option<int>,
    newest: Option<int>)

  datatype Stats = Stats(
    totalAtoms: nat,
    byType: Counter,
    byTag: Counter,
    byActor: Counter,
    avgLinksPerAtom: real,
    fileSizes: Counter,
    timestamps: seq<int>,
    summary: Summary)

  /** `stats["file_sizes"]` after the files listed: the size of every
      `.json` file by its path. */
  function Sizes(files: seq<File>): Counter {
    if files == [] then map[]
    else
      var f := files[|files| - 1];
      var m := Sizes(files[..|files| - 1]);
      if IsJson(f) then m[PathOf(f) := f.size] else m
  }

  /** The paths of `Sizes` are those of the `.json` files. */
  lemma {:induction false} SizesKeys(files: seq<File>)
    ensures forall p :: p in Sizes(files) <==> exists k :: 0 <= k < |files| && IsJson(files[k]) && PathOf(files[k]) == p
  {
    if files != [] {
      var init := files[..|files| - 1];
      SizesKeys(init);
      forall p | p in Sizes(files)
        ensures exists k :: 0 <= k < |files| && IsJson(files[k]) && PathOf(files[k]) == p
      {
        if p !in Sizes(init) {
          assert PathOf(files[|files| - 1]) == p;
        } else {
          var k :| 0 <= k < |init| && IsJson(init[k]) && PathOf(init[k]) == p;
          assert files[k] == init[k];
        }
      }
      forall p | exists k :: 0 <= k < |files| && IsJson(files[k]) && PathOf(files[k]) == p
        ensures p in Sizes(files)
      {
        var k :| 0 <= k < |files| && IsJson(files[k]) && PathOf(files[k]) == p;
        if k < |init| {
          assert init[k] == files[k];
        }
      }
    }
  }

  function Min(s: seq<int>): (m: int)
    requires s != []
    ensures m in s && forall x :: x in s ==> m <= x
  {
    if |s| == 1 then s[0]
    else
      var rest := Min(s[1..]);
      assert forall x :: x in s ==> x == s[0] || x in s[1..];
      if s[0] <= rest then s[0] else rest
  }

  function Max(s: seq<int>): (m: int)
    requires s != []
    ensures m in s && forall x :: x in s ==> x <= m
  {
    if |s| == 1 then s[0]
    else
      var rest := Max(s[1..]);
      assert forall x :: x in s ==> x == s[0] || x in s[1..];
      if s[0] >= rest then s[0] else rest
  }

  /** What `scan_memory_store` returns for the files the walk lists. */
  ghost function StatsOf(files: seq<File>): Stats {
    var acc := CountAll(Start, Counted(files));
    var sizes := Sizes(files);
    Stats(
      acc.total, acc.byType, acc.byTag, acc.byActor,
      if acc.total > 0 then acc.links as real / acc.total as real else 0.0,
      sizes, acc.stamps,
      Summary(
        Total(sizes), |sizes|, |acc.byType|, |acc.byTag|, |acc.byActor|,
        if acc.stamps == [] then None else Some(Min(acc.stamps)),
        if acc.stamps == [] then None else Some(Max(acc.stamps))))
  }

  /** The statistics of a walk: every counted item is an atom of the
      total; tags and actors are counted per occurrence; the average is
      links over atoms, or 0 without atoms; the kind counts are the
      numbers of distinct keys; and the file sizes are those of the
      `.json` files. */
  lemma StatsFacts(files: seq<File>)
    ensures var s, atoms := StatsOf(files), Atoms(Counted(files));
      && s.totalAtoms == |Counted(files)|
      && (forall t :: t in s.byTag ==> s.byTag[t] == multiset(Tags(atoms))[t])
      && (forall t :: t in s.byTag <==> t in Tags(atoms))
      && (forall a :: a in s.byActor ==> s.byActor[a] == multiset(ActorsOf(atoms))[a])
      && (forall y :: y in s.byType ==> s.byType[y] == multiset(Types(atoms))[y])
      && Total(s.byType) == |atoms|
      && s.avgLinksPerAtom == (if |Counted(files)| > 0 then Links(atoms) as real / |Counted(files)| as real else 0.0)
      && s.summary.typesCount == |set y | y in Types(atoms)|
      && s.summary.tagsCount == |set t | t in Tags(atoms)|
      && s.summary.actorsCount == |set a | a in ActorsOf(atoms)|
      && s.summary.totalFiles == |s.fileSizes|
      && (forall p :: p in s.fileSizes <==>
            exists k :: 0 <= k < |files| && IsJson(files[k]) && PathOf(files[k]) == p)
  {
    var atoms := Atoms(Counted(files));
    CountAllCloses(Counted(files));
    CountAllTallies(Counted(files));
    ByTypeTotal(Counted(files));
    TallyFacts(Tags(atoms));
    TallyFacts(ActorsOf(atoms));
    TallyFacts(Types(atoms));
    SizesKeys(files);
  }

  // ---- The scan ---------------------------------------------------------------

  /** `m[k] = m.get(k, 0) + 1` for every `k` of `ks`. */
  method TallyInto(m: Counter, ks: seq<string>) returns (r: Counter)
    ensures r == TallyOnto(m, ks)
  {
    r := m;
    for i := 0 to |ks|
      invariant r == TallyOnto(m, ks[..i])
    {
      assert ks[..i + 1][..i] == ks[..i];
      r := Bump(r, ks[i]);
    }
    assert ks[..|ks|] == ks;
  }

  /** The loop body of `scan_memory_store` for one item. */
  method CountItem(acc: Acc, item: Item) returns (r: Acc)
    ensures r == Count(acc, item)
  {
    if item.NonObject? {
      return acc.(total := acc.total + 1);
    }
    var a := item.atom;
    var byTag := TallyInto(acc.byTag, a.tags);
    var byActor := TallyInto(acc.byActor, a.actors);
    var stamps := acc.stamps;
    if a.stamp.Some? {
      stamps := stamps + [a.stamp.value];
    }
    r := Acc(acc.total + 1, Bump(acc.byType, TypeKey(a)), byTag, byActor, acc.links + a.links, stamps);
  }

  /** The items of one file, up to the first that raises. */
  method CountFile(acc: Acc, items: seq<Item>) returns (r: Acc)
    ensures r == CountAll(acc, Visited(items))
  {
    r := acc;
    var j := 0;
    while j < |items|
      invariant j <= |items|
      invariant forall k :: 0 <= k < j ==> items[k].Obj?
      invariant r == CountAll(acc, items[..j])
    {
      r := CountItem(r, items[j]);
      CountAllSnoc(acc, items[..j], items[j]);
      assert items[..j + 1] == items[..j] + [items[j]];
      if items[j].NonObject? {
        assert FirstNonObject(items) == j;
        return;
      }
      j := j + 1;
    }
    assert FirstNonObject(items) == |items|;
    assert items[..j] == items;
  }

  /** `sum(m.values())`, in the order the dictionary gives. */
  method SumValues(m: Counter) returns (s: nat)
    ensures s == Total(m)
  {
    s := 0;
    var rest := m;
    while rest != map[]
      invariant s + Total(rest) == Total(m)
      decreases |rest|
    {
      var k :| k in rest;
      TotalRemove(rest, k);
      assert rest.Keys == (rest - {k}).Keys + {k};
      s := s + rest[k];
      rest := rest - {k};
    }
  }

  /** `scan_memory_store` over the files the walk lists, in walk order. */
  method ScanMemoryStore(files: seq<File>) returns (stats: Stats)
    ensures stats == StatsOf(files)
  {
    var acc := Start;
    var sizes: Counter := map[];
    for i := 0 to |files|
      invariant acc == CountAll(Start, Counted(files[..i]))
      invariant sizes == Sizes(files[..i])
    {
      var f := files[i];
      assert files[..i + 1][..i] == files[..i];
      assert Counted(files[..i + 1])
          == Counted(files[..i]) + if IsJson(f) && f.data.Some? then Visited(ItemsOf(f.data.value)) else [];
      if !IsJson(f) {
        assert Counted(files[..i + 1]) == Counted(files[..i]);
        continue;
      }
      sizes := sizes[PathOf(f) := f.size];
      if f.data.Some? {
        acc := CountFile(acc, ItemsOf(f.data.value));
        CountAllAppend(Start, Counted(files[..i]), Visited(ItemsOf(f.data.value)));
      } else {
        assert Counted(files[..i + 1]) == Counted(files[..i]);
      }
    }
    assert files[..|files|] == files;
    var avg := if acc.total > 0 then acc.links as real / acc.total as real else 0.0;
    var totalSize := SumValues(sizes);
    var oldest := if acc.stamps == [] then None else Some(Min(acc.stamps));
    var newest := if acc.stamps == [] then None else Some(Max(acc.stamps));
    stats := Stats(acc.total, acc.byType, acc.byTag, acc.byActor, avg, sizes, acc.stamps,
                   Summary(totalSize, |sizes|, |acc.byType|, |acc.byTag|, |acc.byActor|, oldest, newest));
  }
}
