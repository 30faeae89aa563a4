/** Retrieval of memory atoms for the RAG models: atoms are selected by
    shared tags, scored by the share of requested tags they carry, or
    selected by memory type, newest first, and cut to the `k` best. */
module Retriever {
  import opened Wrappers
  import opened Seqs
  import Sorting

  /** A loaded memory atom. A missing `tags` field reads as no tags. */
  datatype Atom = Atom(
    id: string,
    atomType: Option<string>,
    tags: seq<string>,
    createdAt: Option<string>,
    content: string)

  /** A copy of an atom with its `relevance` added. */
  datatype Scored = Scored(atom: Atom, relevance: real)

  /** `any(tag in atom_tags for tag in tags)`. */
  predicate SharesTag(tags: seq<string>, atomTags: seq<string>) {
    exists i :: 0 <= i < |tags| && tags[i] in atomTags
  }

  /** `sum(1 for tag in tags if tag in atom_tags)`: requested tags the
      atom carries, counted with the request's repetitions. */
  function Overlap(tags: seq<string>, atomTags: seq<string>): (n: nat)
    ensures n <= |tags|
    ensures n > 0 <==> SharesTag(tags, atomTags)
  {
    if tags == [] then 0
    else
      var m := |tags| - 1;
      assert forall i :: 0 <= i < m ==> tags[..m][i] == tags[i];
      Overlap(tags[..m], atomTags) + (if tags[m] in atomTags then 1 else 0)
  }

  /** `overlap / len(tags) if tags else 0`. */
  function Relevance(tags: seq<string>, atomTags: seq<string>): real {
    if tags == [] then 0.0 else Overlap(tags, atomTags) as real / |tags| as real
  }

  /** An atom that shares a tag has a relevance in (0, 1]. */
  lemma RelevanceBounds(tags: seq<string>, atomTags: seq<string>)
    requires SharesTag(tags, atomTags)
    ensures 0.0 < Relevance(tags, atomTags) <= 1.0
  {
    var n := Overlap(tags, atomTags);
    assert 0 < n <= |tags|;
  }

  /** The copies the loop of `filter_by_tags` collects, in atom order. */
  function Matching(atoms: seq<Atom>, tags: seq<string>): seq<Scored> {
    if atoms == [] then []
    else
      var a := atoms[|atoms| - 1];
      Matching(atoms[..|atoms| - 1], tags)
      + (if SharesTag(tags, a.tags) then [Scored(a, Relevance(tags, a.tags))] else [])
  }

  /** The sort key of `filter_by_tags`, descending. */
  predicate MoreRelevant(a: Scored, b: Scored) {
    a.relevance >= b.relevance
  }

  /** The sort key of `filter_by_type`, descending: `created_at`, with a
      missing one read as the empty string. */
  function CreatedKey(a: Atom): string {
    a.createdAt.GetOr("")
  }

  predicate NewerFirst(a: Atom, b: Atom) {
    Sorting.LexLe(CreatedKey(b), CreatedKey(a))
  }

  lemma NewerFirstOrders()
    ensures Sorting.Total(NewerFirst) && Sorting.Transitive(NewerFirst)
  {
    forall a: Atom, b: Atom
      ensures NewerFirst(a, b) || NewerFirst(b, a)
    {
      Sorting.LexLeTotal(CreatedKey(a), CreatedKey(b));
    }
    forall a: Atom, b: Atom, c: Atom | NewerFirst(a, b) && NewerFirst(b, c)
      ensures NewerFirst(a, c)
    {
      Sorting.LexLeTransitive(CreatedKey(c), CreatedKey(b), CreatedKey(a));
    }
  }

  /** What `filter_by_tags` returns: the matching copies, most relevant
      first, cut to `top_k` (a Python slice bound). */
  function TagResults(atoms: seq<Atom>, tags: seq<string>, topK: int): seq<Scored> {
    Sorting.Take(Sorting.SortBy(Matching(atoms, tags), MoreRelevant), topK)
  }

  /** The test of `filter_by_type`: `atom.get('type') == memory_type`. */
  function OfType(memoryType: string): Atom -> bool {
    (a: Atom) => a.atomType == Some(memoryType)
  }

  class MemoryAtomRetriever {
    /** The atoms loaded from the store. */
    var atoms: seq<Atom>

    /** The loaded atoms are given; reading them from disk is not part of
        this model. */
    constructor(loaded: seq<Atom>)
      ensures atoms == loaded
    {
      atoms := loaded;
    }

    /** `filter_by_tags`. The atoms themselves are left as they were. */
    method FilterByTags(tags: seq<string>, topK: int) returns (results: seq<Scored>)
      ensures results == TagResults(atoms, tags, topK)
    {
      if atoms == [] {
        return [];
      }
      var matching: seq<Scored> := [];
      for i := 0 to |atoms|
        invariant matching == Matching(atoms[..i], tags)
      {
        var atom := atoms[i];
        assert atoms[..i + 1][..i] == atoms[..i];
        if SharesTag(tags, atom.tags) {
          var relevance := Relevance(tags, atom.tags);
          matching := matching + [Scored(atom, relevance)];
        }
      }
      assert atoms[..|atoms|] == atoms;
      results := Sorting.Take(Sorting.SortBy(matching, MoreRelevant), topK);
    }

    /** `filter_by_type`: the `top_k` newest atoms of the given type,
        newest first. */
    function FilterByType(memoryType: string, topK: int): (r: seq<Atom>)
      reads this
      ensures forall i :: 0 <= i < |r| ==> r[i] in atoms && OfType(memoryType)(r[i])
      ensures Sorting.SortedBy(r, NewerFirst)
      ensures var matching := Filter(atoms, OfType(memoryType));
        topK >= 0 ==> |r| == if topK < |matching| then topK else |matching|
      ensures var matching := Filter(atoms, OfType(memoryType));
        forall x, y :: x in r && y in multiset(matching) - multiset(r) ==> NewerFirst(x, y)
      ensures topK >= |atoms| ==>
        multiset(r) == multiset(Filter(atoms, OfType(memoryType)))
    {
      if atoms == [] then []
      else
        var matching := Filter(atoms, OfType(memoryType));
        TypeResultsFacts(atoms, memoryType, topK);
        Sorting.Take(Sorting.SortBy(matching, NewerFirst), topK)
    }
  }

  /** The facts `FilterByType` states, for a list of atoms. */
  lemma TypeResultsFacts(atoms: seq<Atom>, memoryType: string, topK: int)
    ensures var matching := Filter(atoms, OfType(memoryType));
      var r := Sorting.Take(Sorting.SortBy(matching, NewerFirst), topK);
      && (forall i :: 0 <= i < |r| ==> r[i] in atoms && OfType(memoryType)(r[i]))
      && Sorting.SortedBy(r, NewerFirst)
      && (topK >= 0 ==> |r| == if topK < |matching| then topK else |matching|)
      && (forall x, y :: x in r && y in multiset(matching) - multiset(r) ==> NewerFirst(x, y))
      && (topK >= |atoms| ==> multiset(r) == multiset(matching))
  {
    var matching := Filter(atoms, OfType(memoryType));
    var r := Sorting.Take(Sorting.SortBy(matching, NewerFirst), topK);
    NewerFirstOrders();
    Sorting.TopK(matching, topK, NewerFirst);
    forall i | 0 <= i < |r| ensures r[i] in atoms && OfType(memoryType)(r[i]) {
      assert r[i] in matching;
    }
    if topK >= |atoms| {
      assert multiset(r) == multiset(matching);
    }
  }

  // ---- What filter_by_tags promises ----------------------------------------

  /** Every match carries a requested tag; its relevance is the share of
      requested tags it carries, a number in (0, 1]; and it is a copy of
      a loaded atom. */
  lemma {:induction false} MatchingFacts(atoms: seq<Atom>, tags: seq<string>)
    ensures forall s :: s in Matching(atoms, tags) ==>
      && s.atom in atoms
      && SharesTag(tags, s.atom.tags)
      && s.relevance == Overlap(tags, s.atom.tags) as real / |tags| as real
      && 0.0 < s.relevance <= 1.0
  {
    if atoms != [] {
      var n := |atoms| - 1;
      MatchingFacts(atoms[..n], tags);
      var a := atoms[n];
      if SharesTag(tags, a.tags) {
        RelevanceBounds(tags, a.tags);
      }
      forall s | s in Matching(atoms[..n], tags)
        ensures s.atom in atoms
      {
        assert s.atom in atoms[..n];
      }
    }
  }

  /** Every atom sharing a tag is matched, once. */
  lemma {:induction false} MatchingComplete(atoms: seq<Atom>, tags: seq<string>, i: nat)
    requires i < |atoms| && SharesTag(tags, atoms[i].tags)
    ensures Scored(atoms[i], Relevance(tags, atoms[i].tags)) in Matching(atoms, tags)
  {
    var n := |atoms| - 1;
    if i < n {
      assert atoms[..n][i] == atoms[i];
      MatchingComplete(atoms[..n], tags, i);
    }
  }

  lemma MoreRelevantOrders()
    ensures Sorting.Total(MoreRelevant) && Sorting.Transitive(MoreRelevant)
  {
  }

  /** The results of `filter_by_tags`: matches only, most relevant first,
      the `top_k` most relevant of them (each at least as relevant as any
      match cut off), and all of them when `top_k` is at least the number
      of atoms. */
  lemma TagResultsFacts(atoms: seq<Atom>, tags: seq<string>, topK: int)
    ensures var r := TagResults(atoms, tags, topK);
      && (forall s :: s in r ==>
            && s.atom in atoms
            && SharesTag(tags, s.atom.tags)
            && 0.0 < s.relevance <= 1.0)
      && Sorting.SortedBy(r, MoreRelevant)
      && (var matching := Matching(atoms, tags);
          && (topK >= 0 ==> |r| == if topK < |matching| then topK else |matching|)
          && (forall x, y :: x in r && y in multiset(matching) - multiset(r) ==> MoreRelevant(x, y)))
      && (topK >= |atoms| ==>
            forall i :: 0 <= i < |atoms| && SharesTag(tags, atoms[i].tags) ==>
              Scored(atoms[i], Relevance(tags, atoms[i].tags)) in r)
  {
    var matching := Matching(atoms, tags);
    MatchingFacts(atoms, tags);
    MoreRelevantOrders();
    Sorting.TopK(matching, topK, MoreRelevant);
    MatchingLength(atoms, tags);
    if topK >= |atoms| {
      var sorted := Sorting.SortBy(matching, MoreRelevant);
      forall i | 0 <= i < |atoms| && SharesTag(tags, atoms[i].tags)
        ensures Scored(atoms[i], Relevance(tags, atoms[i].tags)) in sorted
      {
        MatchingComplete(atoms, tags, i);
        assert Scored(atoms[i], Relevance(tags, atoms[i].tags)) in multiset(sorted);
      }
    }
  }

  lemma {:induction false} MatchingLength(atoms: seq<Atom>, tags: seq<string>)
    ensures |Matching(atoms, tags)| <= |atoms|
  {
    if atoms != [] {
      MatchingLength(atoms[..|atoms| - 1], tags);
    }
  }
}
