/** The rule-based classifier of the memory ETL pipeline: a cleaned text
    is scored against four word lists, one per memory type, and the
    type with the highest score wins; themes and actors are picked out
    by the same kind of word match. */
module Classify {
  import opened Wrappers
  import opened Seqs

  /** How often `word` occurs as a whole word in `text`, ignoring case:
      `len(re.findall(r'\bword\b', text, re.I))`. `re.search` with the
      same pattern succeeds exactly when this is positive. */
  type Counter = (string, string) -> nat

  datatype MemoryType = Declarative | Episodic | Procedural | Semantic {
    function Name(): string {
      match this
      case Declarative => "declarative"
      case Episodic => "episodic"
      case Procedural => "procedural"
      case Semantic => "semantic"
    }

    /** Position in the classifier's pattern table, which is also the
        order in which ties are broken. */
    function Rank(): nat {
      match this
      case Declarative => 0
      case Episodic => 1
      case Procedural => 2
      case Semantic => 3
    }
  }

  const Types: seq<MemoryType> := [Declarative, Episodic, Procedural, Semantic]

  /** The words whose matches count towards each type. "method" belongs
      to two lists. */
  function Patterns(t: MemoryType): seq<string> {
    match t
    case Declarative =>
      ["fact", "definition", "concept", "framework", "theory", "principle", "method"]
    case Episodic =>
      ["experience", "meeting", "conversation", "session", "event", "incident",
       "journey", "interaction"]
    case Procedural =>
      ["step", "process", "method", "workflow", "protocol", "algorithm",
       "procedure", "implement"]
    case Semantic =>
      ["relationship", "connection", "network", "ontology", "taxonomy", "semantic",
       "meaning", "significance"]
  }

  /** The number of matches of all the words in `ws`. */
  function Matches(ws: seq<string>, text: string, count: Counter): nat {
    if ws == [] then 0
    else Matches(ws[..|ws| - 1], text, count) + count(ws[|ws| - 1], text)
  }

  /** A type's score: the matches of its words. */
  function Score(t: MemoryType, text: string, count: Counter): nat {
    Matches(Patterns(t), text, count)
  }

  function Total(text: string, count: Counter): nat {
    Score(Declarative, text, count) + Score(Episodic, text, count)
    + Score(Procedural, text, count) + Score(Semantic, text, count)
  }

  /** Every match of a listed word is part of the list's total. */
  lemma {:induction false} MatchesCount(ws: seq<string>, w: string, text: string, count: Counter)
    requires w in ws
    ensures count(w, text) <= Matches(ws, text, count)
  {
    var n := |ws| - 1;
    if ws[n] != w {
      assert w in ws[..n] by {
        var k :| 0 <= k < |ws| && ws[k] == w;
        assert ws[..n][k] == w;
      }
      MatchesCount(ws[..n], w, text, count);
    }
  }

  /** "method" raises both the declarative and the procedural score. */
  lemma MethodCountsTwice(text: string, count: Counter)
    ensures count("method", text) <= Score(Declarative, text, count)
    ensures count("method", text) <= Score(Procedural, text, count)
  {
    assert Patterns(Declarative)[6] == "method";
    assert Patterns(Procedural)[2] == "method";
    MatchesCount(Patterns(Declarative), "method", text, count);
    MatchesCount(Patterns(Procedural), "method", text, count);
  }

  /** A cleaned document: field name to text value. */
  type Doc = map<string, string>

  datatype Error = MissingCleanedContent

  /** `classify_text`: fails exactly when `cleaned_content` is missing.
      With no match at all the answer is declarative with confidence one
      half; otherwise it is a type of highest score, the first such in
      table order, and the confidence is its share of all matches. */
  method ClassifyText(doc: Doc, count: Counter) returns (r: Result<(MemoryType, real), Error>)
    ensures r.Failure? <==> "cleaned_content" !in doc
    ensures r.Success? ==>
      var text := doc["cleaned_content"];
      var (best, confidence) := r.value;
      && (Total(text, count) == 0 ==> best == Declarative && confidence == 0.5)
      && (Total(text, count) > 0 ==>
            && (forall t: MemoryType :: Score(t, text, count) <= Score(best, text, count))
            && (forall t: MemoryType :: t.Rank() < best.Rank() ==>
                  Score(t, text, count) < Score(best, text, count))
            && confidence == Score(best, text, count) as real / Total(text, count) as real
            && 0.0 < confidence <= 1.0)
  {
    if "cleaned_content" !in doc {
      return Failure(MissingCleanedContent);
    }
    var text := doc["cleaned_content"];
    var scores := ScoreAll(text, count);
    var best := FirstMax(scores);
    SumOfFour(scores);
    assert Total(text, count) == Sum(scores);
    if scores[best] == 0 {
      return Success((Declarative, 0.5));
    }
    var total := SumOf(scores);
    SumAtLeast(scores, best);
    // The source guards the division with `total > 0`, which always
    // holds here since the best score is positive.
    var confidence := scores[best] as real / total as real;
    ShareBounds(scores[best], total);
    var winner := TypeAt(best);
    forall t: MemoryType
      ensures Score(t, text, count) <= Score(winner, text, count)
    {
      assert scores[t.Rank()] <= scores[best];
    }
    forall t: MemoryType | t.Rank() < winner.Rank()
      ensures Score(t, text, count) < Score(winner, text, count)
    {
      assert scores[t.Rank()] < scores[best];
    }
    r := Success((winner, confidence));
  }

  /** The type at a position of the table. */
  function TypeAt(i: nat): (t: MemoryType)
    requires i < 4
    ensures t.Rank() == i
  {
    if i == 0 then Declarative else if i == 1 then Episodic
    else if i == 2 then Procedural else Semantic
  }

  /** The scoring loop of `classify_text`: the score of every type, in
      table order. */
  method ScoreAll(text: string, count: Counter) returns (scores: seq<nat>)
    ensures |scores| == 4
    ensures forall t: MemoryType :: scores[t.Rank()] == Score(t, text, count)
  {
    scores := [];
    for i := 0 to |Types|
      invariant |scores| == i
      invariant forall k :: 0 <= k < i ==> scores[k] == Score(Types[k], text, count)
    {
      var score := CountMatches(Patterns(Types[i]), text, count);
      scores := scores + [score];
    }
    forall t: MemoryType
      ensures scores[t.Rank()] == Score(t, text, count)
    {
      assert Types[t.Rank()] == t;
    }
  }

  /** The inner loop: the matches of one type's words, added up. */
  method CountMatches(patterns: seq<string>, text: string, count: Counter) returns (score: nat)
    ensures score == Matches(patterns, text, count)
  {
    score := 0;
    for j := 0 to |patterns|
      invariant score == Matches(patterns[..j], text, count)
    {
      assert patterns[..j + 1][..j] == patterns[..j];
      score := score + count(patterns[j], text);
    }
    assert patterns[..|patterns|] == patterns;
  }

  /** `max(d, key=d.get)`: the first position holding a largest value. */
  method FirstMax(xs: seq<nat>) returns (best: nat)
    requires xs != []
    ensures best < |xs|
    ensures forall k :: 0 <= k < |xs| ==> xs[k] <= xs[best]
    ensures forall k :: 0 <= k < best ==> xs[k] < xs[best]
  {
    best := 0;
    for i := 1 to |xs|
      invariant best < i
      invariant forall k :: 0 <= k < i ==> xs[k] <= xs[best]
      invariant forall k :: 0 <= k < best ==> xs[k] < xs[best]
    {
      if xs[i] > xs[best] {
        best := i;
      }
    }
  }

  /** `sum(d.values())`. */
  method SumOf(xs: seq<nat>) returns (total: nat)
    ensures total == Sum(xs)
  {
    total := 0;
    for i := 0 to |xs|
      invariant total == Sum(xs[..i])
    {
      assert xs[..i + 1][..i] == xs[..i];
      total := total + xs[i];
    }
    assert xs[..|xs|] == xs;
  }

  lemma SumOfFour(xs: seq<nat>)
    requires |xs| == 4
    ensures Sum(xs) == xs[0] + xs[1] + xs[2] + xs[3]
  {
    var a, b, c := xs[..3], xs[..2], xs[..1];
    assert a[..2] == b && b[..1] == c && c[..0] == [];
    assert Sum(xs) == Sum(a) + xs[3];
    assert Sum(a) == Sum(b) + xs[2];
    assert Sum(b) == Sum(c) + xs[1];
    assert Sum(c) == xs[0];
  }

  /** A positive part of a whole is a share in (0, 1]. */
  lemma ShareBounds(part: nat, whole: nat)
    requires 0 < part <= whole
    ensures 0.0 < part as real / whole as real <= 1.0
  {
  }

  lemma {:induction false} SumAtLeast(xs: seq<nat>, i: nat)
    requires i < |xs|
    ensures xs[i] <= Sum(xs)
  {
    var n := |xs| - 1;
    if i < n {
      SumAtLeast(xs[..n], i);
    }
  }

  function Sum(xs: seq<nat>): nat {
    if xs == [] then 0 else Sum(xs[..|xs| - 1]) + xs[|xs| - 1]
  }

  // ---- Themes and actors ------------------------------------------------

  /** The themes `extract_tags` looks for, in the order it checks them. */
  const Themes: seq<string> :=
    ["continuity", "identity", "design", "chaos", "tokamak", "grammar", "toroidal",
     "memory", "experiment"]

  const Unclassified := "unclassified"

  /** The word test of `extract_tags` and `extract_actors`:
      `re.search(r'\bword\b', text, re.I)` succeeds. */
  function Occurs(text: string, count: Counter): string -> bool {
    (w: string) => count(w, text) > 0
  }

  /** `extract_tags`: the themes that occur, in check order, or
      "unclassified" alone when none does. */
  method ExtractTags(text: string, count: Counter) returns (tags: seq<string>)
    ensures tags != []
    ensures tags == [Unclassified] <==> forall k :: 0 <= k < |Themes| ==> count(Themes[k], text) == 0
    ensures tags != [Unclassified] ==>
      && SubsequenceOf(tags, Themes)
      && forall k :: 0 <= k < |Themes| ==> (Themes[k] in tags <==> count(Themes[k], text) > 0)
  {
    UnclassifiedIsNoTheme();
    tags := TagsFrom(Themes, text, count);
  }

  /** `extract_tags` over a theme list that does not hold "unclassified". */
  method TagsFrom(themes: seq<string>, text: string, count: Counter) returns (tags: seq<string>)
    requires Unclassified !in themes
    ensures tags != []
    ensures tags == [Unclassified] <==> forall k :: 0 <= k < |themes| ==> count(themes[k], text) == 0
    ensures tags != [Unclassified] ==>
      && SubsequenceOf(tags, themes)
      && forall k :: 0 <= k < |themes| ==> (themes[k] in tags <==> count(themes[k], text) > 0)
  {
    tags := Occurring(themes, text, count);
    FilterFacts(themes, Occurs(text, count));
    if tags == [] {
      forall k | 0 <= k < |themes|
        ensures count(themes[k], text) == 0
      {
        assert !Occurs(text, count)(themes[k]);
      }
      tags := [Unclassified];
    } else {
      var k :| 0 <= k < |themes| && themes[k] == tags[0];
      assert Occurs(text, count)(themes[k]);
      assert count(themes[k], text) != 0;
      assert tags[0] != Unclassified;
    }
  }

  lemma UnclassifiedIsNoTheme()
    ensures Unclassified !in Themes
  {
    assert forall w :: w in Themes ==> |w| < |Unclassified|;
  }

  /** The words of `words` that occur in `text`, checked one by one in
      order. */
  method Occurring(words: seq<string>, text: string, count: Counter) returns (found: seq<string>)
    ensures found == Filter(words, Occurs(text, count))
  {
    found := [];
    for i := 0 to |words|
      invariant found == Filter(words[..i], Occurs(text, count))
    {
      FilterStep(words, i, Occurs(text, count));
      if count(words[i], text) > 0 {
        found := found + [words[i]];
      }
    }
    assert words[..|words|] == words;
  }

  /** An actor with the word that reveals it. */
  datatype Actor = Actor(word: string, name: string)

  const Actors: seq<Actor> := [Actor("marduk", "Marduk"), Actor("echo", "Echo"), Actor("dan", "Dan")]

  function NameOf(a: Actor): string {
    a.name
  }

  function Mentions(text: string, count: Counter): Actor -> bool {
    (a: Actor) => count(a.word, text) > 0
  }

  /** `extract_actors`: the actors whose word occurs, in the order
      Marduk, Echo, Dan. */
  method ExtractActors(text: string, count: Counter) returns (actors: seq<string>)
    ensures SubsequenceOf(actors, ["Marduk", "Echo", "Dan"])
    ensures forall k :: 0 <= k < |Actors| ==> (Actors[k].name in actors <==> count(Actors[k].word, text) > 0)
  {
    actors := Mentioned(Actors, text, count);
    FilterSubsequence(Actors, Mentions(text, count));
    MapSubsequence(Filter(Actors, Mentions(text, count)), Actors, NameOf);
    ActorNames();
    forall k | 0 <= k < |Actors|
      ensures Actors[k].name in actors <==> count(Actors[k].word, text) > 0
    {
      FilterMapMember(Actors, Mentions(text, count), NameOf, k);
    }
  }

  /** The actors' names, which tell them apart. */
  lemma ActorNames()
    ensures Map(Actors, NameOf) == ["Marduk", "Echo", "Dan"]
    ensures forall i, j :: 0 <= i < j < |Actors| ==> NameOf(Actors[i]) != NameOf(Actors[j])
  {
    var names := Map(Actors, NameOf);
    assert names[0] == "Marduk" && names[1] == "Echo" && names[2] == "Dan";
  }

  /** The names of the actors in `pool` whose word occurs in `text`,
      checked one by one in order. */
  method Mentioned(pool: seq<Actor>, text: string, count: Counter) returns (names: seq<string>)
    ensures names == Map(Filter(pool, Mentions(text, count)), NameOf)
  {
    names := [];
    for i := 0 to |pool|
      invariant names == Map(Filter(pool[..i], Mentions(text, count)), NameOf)
    {
      FilterStep(pool, i, Mentions(text, count));
      if count(pool[i].word, text) > 0 {
        MapSnoc(Filter(pool[..i], Mentions(text, count)), pool[i], NameOf);
        names := names + [pool[i].name];
      }
    }
    assert pool[..|pool|] == pool;
  }
}
