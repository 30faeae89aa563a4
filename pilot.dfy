/** Tag and actor extraction of the pilot data generator: a concept or
    actor is found when its lower-case form occurs anywhere in the
    lower-cased content. */
module Pilot {
  import opened Seqs
  import Sorting

  /** `str.lower()` on one character; only the ASCII letters are mapped. */
  function LowerChar(c: char): char {
    if 'A' <= c <= 'Z' then (c as int + 32) as char else c
  }

  /** `s.lower()`: no ASCII capital is left, and every other character
      stays where it was. */
  function Lower(s: string): (r: string)
    ensures |r| == |s|
    ensures forall i :: 0 <= i < |r| ==> !('A' <= r[i] <= 'Z')
    ensures forall i :: 0 <= i < |s| && !('A' <= s[i] <= 'Z') ==> r[i] == s[i]
  {
    seq(|s|, i requires 0 <= i < |s| => LowerChar(s[i]))
  }

  /** Python's `p in s` on strings. */
  predicate Contains(s: string, p: string)
    decreases |s|
  {
    if |p| > |s| then false else s[..|p|] == p || Contains(s[1..], p)
  }

  /** `p` occurs in `s` starting at position `i`. */
  ghost predicate OccursAt(s: string, p: string, i: int) {
    0 <= i <= |s| - |p| && s[i..i + |p|] == p
  }

  /** `Contains` finds exactly the substrings. */
  lemma {:induction false} ContainsAt(s: string, p: string)
    ensures Contains(s, p) <==> exists i :: OccursAt(s, p, i)
    decreases |s|
  {
    if |p| <= |s| && s[..|p|] != p {
      ContainsAt(s[1..], p);
      if Contains(s[1..], p) {
        var i :| OccursAt(s[1..], p, i);
        assert s[1..][i..i + |p|] == s[i + 1..i + 1 + |p|];
        assert OccursAt(s, p, i + 1);
      }
      forall i | OccursAt(s, p, i)
        ensures OccursAt(s[1..], p, i - 1)
      {
        assert i != 0;
        assert s[1..][i - 1..i - 1 + |p|] == s[i..i + |p|];
      }
    } else if |p| <= |s| {
      assert OccursAt(s, p, 0);
    }
  }

  /** The found test of both extractors. */
  function InContent(content: string): string -> bool {
    (x: string) => Contains(Lower(content), Lower(x))
  }

  /** `concept.lower().replace(" ", "-")`. */
  function TagOf(concept: string): (tag: string)
    ensures |tag| == |concept|
  {
    Hyphenate(Lower(concept))
  }

  /** A tag has no space and no ASCII capital, and is its own tag:
      lower-casing and hyphenating it again changes nothing. */
  lemma TagOfNormal(concept: string)
    ensures var t := TagOf(concept);
      && ' ' !in t
      && (forall i :: 0 <= i < |t| ==> !('A' <= t[i] <= 'Z'))
      && TagOf(t) == t
  {
    var t := TagOf(concept);
    assert Lower(t) == t;
    assert Hyphenate(t) == t;
  }

  /** `s.replace(" ", "-")`: no space is left, and every other character
      stays where it was. */
  function Hyphenate(s: string): (r: string)
    ensures |r| == |s|
    ensures ' ' !in r
    ensures forall i :: 0 <= i < |s| && s[i] != ' ' ==> r[i] == s[i]
  {
    seq(|s|, i requires 0 <= i < |s| => if s[i] == ' ' then '-' else s[i])
  }

  const Concepts: seq<string> := [
    "cognitive tokamak", "memory atom", "perennial structure", "groundhog day problem",
    "toroidal grammar", "lightface exploration", "darkface synthesis", "bolt framework",
    "resonant structure", "hypergraph", "chaotic brilliance", "recursive exploration",
    "marduk daemon", "echo space", "persistent memory", "cognitive continuity",
    "recursive self-improvement", "entelechy", "embodied cognition",
    "neural-symbolic integration"]

  const Actors: seq<string> := [
    "Marduk", "Echo", "Dan", "the team", "the cognitive system",
    "the Marduk daemon", "the LightFace component", "the DarkFace component"]

  const Unclassified := "unclassified"

  const MaxTags := 5

  /** What `extract_tags` returns for a concept list: the tags of the
      concepts that occur, or "unclassified" when none does, cut to five. */
  function TagsOf(concepts: seq<string>, content: string): seq<string> {
    var found := Map(Filter(concepts, InContent(content)), TagOf);
    Sorting.Take(if found == [] then [Unclassified] else found, MaxTags)
  }

  /** `extract_tags`. */
  method ExtractTags(content: string) returns (tags: seq<string>)
    ensures tags == TagsOf(Concepts, content)
  {
    tags := ConceptTags(Concepts, content);
    if tags == [] {
      tags := tags + [Unclassified];
    }
    tags := Sorting.Take(tags, MaxTags);
  }

  /** Between one and five tags. */
  lemma TagsCount(concepts: seq<string>, content: string)
    ensures 1 <= |TagsOf(concepts, content)| <= MaxTags
  {
  }

  /** "unclassified" comes out alone exactly when no concept occurs. */
  lemma TagsUnclassified(concepts: seq<string>, content: string)
    requires forall c :: c in concepts ==> TagOf(c) != Unclassified
    ensures TagsOf(concepts, content) == [Unclassified]
        <==> forall k :: 0 <= k < |concepts| ==> !InContent(content)(concepts[k])
  {
    var picked := Filter(concepts, InContent(content));
    FilterFacts(concepts, InContent(content));
    if picked != [] {
      var found := Map(picked, TagOf);
      assert picked[0] in concepts && found[0] == TagOf(picked[0]);
      assert TagsOf(concepts, content)[0] == found[0];
    }
  }

  /** Otherwise the tags are those of the concepts that occur, in the
      order of the concept list. */
  lemma TagsInOrder(concepts: seq<string>, content: string)
    requires forall c :: c in concepts ==> TagOf(c) != Unclassified
    ensures TagsOf(concepts, content) != [Unclassified] ==>
      && TagsOf(concepts, content) <= Map(Filter(concepts, InContent(content)), TagOf)
      && SubsequenceOf(TagsOf(concepts, content), Map(concepts, TagOf))
  {
    var picked := Filter(concepts, InContent(content));
    if TagsOf(concepts, content) != [Unclassified] {
      assert picked != [];
      FilterSubsequence(concepts, InContent(content));
      MapSubsequence(picked, concepts, TagOf);
      PrefixSubsequence(TagsOf(concepts, content), Map(picked, TagOf), Map(concepts, TagOf));
    }
  }

  /** No concept is as long as "unclassified", so no tag spells it. */
  lemma NoConceptIsUnclassified()
    ensures forall c :: c in Concepts ==> TagOf(c) != Unclassified
  {
    assert forall c :: c in Concepts ==> |c| != |Unclassified|;
  }

  /** The loop of `extract_tags`: the tag of every concept found, in order. */
  method ConceptTags(concepts: seq<string>, content: string) returns (tags: seq<string>)
    ensures tags == Map(Filter(concepts, InContent(content)), TagOf)
  {
    tags := [];
    for i := 0 to |concepts|
      invariant tags == Map(Filter(concepts[..i], InContent(content)), TagOf)
    {
      FilterStep(concepts, i, InContent(content));
      if Contains(Lower(content), Lower(concepts[i])) {
        MapSnoc(Filter(concepts[..i], InContent(content)), concepts[i], TagOf);
        tags := tags + [TagOf(concepts[i])];
      }
    }
    assert concepts[..|concepts|] == concepts;
  }

  /** `extract_actors`: the actors that occur, in the order of the actor
      list. */
  method ExtractActors(content: string) returns (actors: seq<string>)
    ensures SubsequenceOf(actors, Actors)
    ensures forall k :: 0 <= k < |Actors| ==> (Actors[k] in actors <==> InContent(content)(Actors[k]))
  {
    actors := FoundActors(Actors, content);
    FilterFacts(Actors, InContent(content));
  }

  /** The loop of `extract_actors`. */
  method FoundActors(pool: seq<string>, content: string) returns (actors: seq<string>)
    ensures actors == Filter(pool, InContent(content))
  {
    actors := [];
    for i := 0 to |pool|
      invariant actors == Filter(pool[..i], InContent(content))
    {
      FilterStep(pool, i, InContent(content));
      if Contains(Lower(content), Lower(pool[i])) {
        actors := actors + [pool[i]];
      }
    }
    assert pool[..|pool|] == pool;
  }
}
