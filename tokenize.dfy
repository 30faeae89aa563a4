/** Text cleaning and document tokenisation of the memory ETL pipeline:
    every run of whitespace becomes one space, the ends are stripped, and
    a document is turned into a record carrying the cleaned text and its
    word count. */
module Tokenize {
  import opened Wrappers

  /** The characters Python treats as whitespace, both for `\s` in a
      `str` pattern and for `str.strip()` / `str.split()`. */
  predicate IsSpace(c: char) {
    c == ' ' || ('\t' <= c <= '\r') || ('\U{1c}' <= c <= '\U{1f}')
    || c == '\U{85}' || c == '\U{a0}' || c == '\U{1680}'
    || ('\U{2000}' <= c <= '\U{200a}') || c == '\U{2028}' || c == '\U{2029}'
    || c == '\U{202f}' || c == '\U{205f}' || c == '\U{3000}'
  }

  /** Drops the whitespace at the front of `s`. */
  function SkipSpaces(s: string): (r: string)
    ensures |r| <= |s| && r == s[|s| - |r|..]
    ensures forall k :: 0 <= k < |s| - |r| ==> IsSpace(s[k])
    ensures r == [] || !IsSpace(r[0])
  {
    if s != [] && IsSpace(s[0]) then SkipSpaces(s[1..]) else s
  }

  /** `re.sub(r'\s+', ' ', s)`: each maximal whitespace run becomes one
      space. */
  function Collapse(s: string): (r: string)
    decreases |s|
  {
    if s == [] then []
    else if IsSpace(s[0]) then [' '] + Collapse(SkipSpaces(s))
    else [s[0]] + Collapse(s[1..])
  }

  /** Whitespace only as single plain spaces. */
  ghost predicate Normal(r: string) {
    (forall i :: 0 <= i < |r| && IsSpace(r[i]) ==> r[i] == ' ')
    && (forall i :: 0 <= i < |r| - 1 ==> !(IsSpace(r[i]) && IsSpace(r[i + 1])))
  }

  /** `str.strip()`. */
  function Strip(s: string): (r: string)
    ensures r == [] || (!IsSpace(r[0]) && !IsSpace(r[|r| - 1]))
  {
    StripRight(SkipSpaces(s))
  }

  function StripRight(s: string): (r: string)
    ensures |r| <= |s| && r == s[..|r|]
    ensures forall k :: |r| <= k < |s| ==> IsSpace(s[k])
    ensures r == [] || !IsSpace(r[|r| - 1])
  {
    if s != [] && IsSpace(s[|s| - 1]) then StripRight(s[..|s| - 1]) else s
  }

  /** `clean_text`. The quote normalisation in the source replaces the
      ASCII double quote by itself and so changes nothing. */
  function CleanText(text: string): (r: string)
    ensures r == [] || (!IsSpace(r[0]) && !IsSpace(r[|r| - 1]))
  {
    Strip(Collapse(text))
  }

  /** The characters of `s` that are not whitespace, in order. */
  function Visible(s: string): string {
    if s == [] then []
    else (if IsSpace(s[0]) then [] else [s[0]]) + Visible(s[1..])
  }

  /** The longest prefix of `s` without whitespace. */
  function WordAt(s: string): (w: string)
    ensures |w| <= |s| && w == s[..|w|]
    ensures forall k :: 0 <= k < |w| ==> !IsSpace(w[k])
    ensures |w| == |s| || IsSpace(s[|w|])
  {
    if s == [] || IsSpace(s[0]) then [] else [s[0]] + WordAt(s[1..])
  }

  /** `str.split()` with no separator: the maximal runs of non-whitespace. */
  function Words(s: string): seq<string>
    decreases |s|
  {
    if s == [] then []
    else if IsSpace(s[0]) then Words(s[1..])
    else [WordAt(s)] + Words(s[|WordAt(s)|..])
  }

  // ---- Properties of Collapse --------------------------------------------

  lemma {:induction false} CollapseNormal(s: string)
    ensures Normal(Collapse(s))
    ensures Collapse(s) != [] ==> s != [] && (IsSpace(Collapse(s)[0]) <==> IsSpace(s[0]))
    ensures Collapse(s) == [] <==> s == []
    decreases |s|
  {
    if s == [] {
    } else if IsSpace(s[0]) {
      var t := SkipSpaces(s);
      CollapseNormal(t);
      var r := Collapse(s);
      assert r == [' '] + Collapse(t);
      forall i | 0 <= i < |r| - 1
        ensures !(IsSpace(r[i]) && IsSpace(r[i + 1]))
      {
        if i > 0 {
          assert r[i] == Collapse(t)[i - 1] && r[i + 1] == Collapse(t)[i];
        } else {
          assert r[1] == Collapse(t)[0];
        }
      }
      forall i | 0 <= i < |r| && IsSpace(r[i])
        ensures r[i] == ' '
      {
        if i > 0 {
          assert r[i] == Collapse(t)[i - 1];
        }
      }
    } else {
      var t := s[1..];
      CollapseNormal(t);
      var r := Collapse(s);
      assert r == [s[0]] + Collapse(t);
      forall i | 0 <= i < |r| - 1
        ensures !(IsSpace(r[i]) && IsSpace(r[i + 1]))
      {
        if i > 0 {
          assert r[i] == Collapse(t)[i - 1] && r[i + 1] == Collapse(t)[i];
        }
      }
      forall i | 0 <= i < |r| && IsSpace(r[i])
        ensures r[i] == ' '
      {
        assert i > 0;
        assert r[i] == Collapse(t)[i - 1];
      }
    }
  }

  /** A normal string is left alone by the collapsing step. */
  lemma {:induction false} CollapseFixes(r: string)
    requires Normal(r)
    ensures Collapse(r) == r
    decreases |r|
  {
    if r != [] {
      assert Normal(r[1..]) by {
        forall i | 0 <= i < |r[1..]| - 1
          ensures !(IsSpace(r[1..][i]) && IsSpace(r[1..][i + 1]))
        {
          assert r[1..][i] == r[i + 1] && r[1..][i + 1] == r[i + 2];
        }
      }
      CollapseFixes(r[1..]);
      if IsSpace(r[0]) {
        assert |r| > 1 ==> !IsSpace(r[1]);
        assert SkipSpaces(r) == r[1..];
        assert r == [' '] + r[1..];
      } else {
        assert r == [r[0]] + r[1..];
      }
    }
  }

  lemma {:induction false} VisibleAppend(a: string, b: string)
    ensures Visible(a + b) == Visible(a) + Visible(b)
    decreases |a|
  {
    if a == [] {
      assert a + b == b;
    } else {
      assert (a + b)[0] == a[0] && (a + b)[1..] == a[1..] + b;
      VisibleAppend(a[1..], b);
    }
  }

  /** Whitespace has nothing visible. */
  lemma {:induction false} VisibleSpaces(s: string)
    requires forall k :: 0 <= k < |s| ==> IsSpace(s[k])
    ensures Visible(s) == []
    decreases |s|
  {
    if s != [] {
      VisibleSpaces(s[1..]);
    }
  }

  lemma {:induction false} CollapseVisible(s: string)
    ensures Visible(Collapse(s)) == Visible(s)
    decreases |s|
  {
    if s == [] {
    } else if IsSpace(s[0]) {
      var t := SkipSpaces(s);
      CollapseVisible(t);
      VisibleAppend([' '], Collapse(t));
      assert s == s[..|s| - |t|] + t;
      VisibleAppend(s[..|s| - |t|], t);
      VisibleSpaces(s[..|s| - |t|]);
    } else {
      CollapseVisible(s[1..]);
      VisibleAppend([s[0]], Collapse(s[1..]));
    }
  }

  lemma StripVisible(s: string)
    ensures Visible(Strip(s)) == Visible(s)
  {
    SkipVisible(s);
    StripRightVisible(SkipSpaces(s));
  }

  lemma SkipVisible(s: string)
    ensures Visible(SkipSpaces(s)) == Visible(s)
  {
    var t := SkipSpaces(s);
    var front := s[..|s| - |t|];
    assert s == front + t;
    VisibleAppend(front, t);
    VisibleSpaces(front);
  }

  lemma StripRightVisible(t: string)
    ensures Visible(StripRight(t)) == Visible(t)
  {
    var r := StripRight(t);
    var back := t[|r|..];
    assert t == r + back;
    VisibleAppend(r, back);
    VisibleSpaces(back);
  }

  /** Stripping the two ends of a normal string keeps it normal. */
  lemma StripNormal(s: string)
    requires Normal(s)
    ensures Normal(Strip(s))
  {
    var t := SkipSpaces(s);
    var r := StripRight(t);
    assert r == s[|s| - |t|..][..|r|];
    forall i | 0 <= i < |r|
      ensures r[i] == s[|s| - |t| + i]
    {
    }
  }

  // ---- What clean_text promises ------------------------------------------

  /** Every whitespace character left is a plain space and no two are
      adjacent. */
  lemma CleanTextSingleSpaces(text: string)
    ensures var r := CleanText(text);
      (forall i :: 0 <= i < |r| && IsSpace(r[i]) ==> r[i] == ' ')
      && (forall i :: 0 <= i < |r| - 1 ==> !(IsSpace(r[i]) && IsSpace(r[i + 1])))
  {
    CollapseNormal(text);
    StripNormal(Collapse(text));
  }

  /** The non-whitespace characters survive, in order. */
  lemma CleanTextVisible(text: string)
    ensures Visible(CleanText(text)) == Visible(text)
  {
    CollapseVisible(text);
    StripVisible(Collapse(text));
  }

  /** Cleaning twice is cleaning once. */
  lemma CleanTextIdempotent(text: string)
    ensures CleanText(CleanText(text)) == CleanText(text)
  {
    var r := CleanText(text);
    CleanTextSingleSpaces(text);
    CollapseFixes(r);
    assert SkipSpaces(r) == r;
    assert StripRight(r) == r;
  }

  // ---- Words ----------------------------------------------------------------

  lemma {:induction false} WordsSkip(s: string)
    ensures Words(SkipSpaces(s)) == Words(s)
    decreases |s|
  {
    if s != [] && IsSpace(s[0]) {
      WordsSkip(s[1..]);
    }
  }

  /** A word followed by the rest collapses word first. */
  lemma {:induction false} CollapseWord(w: string, rest: string)
    requires forall k :: 0 <= k < |w| ==> !IsSpace(w[k])
    ensures Collapse(w + rest) == w + Collapse(rest)
    decreases |w|
  {
    if w == [] {
      assert w + rest == rest;
    } else {
      assert (w + rest)[0] == w[0] && (w + rest)[1..] == w[1..] + rest;
      CollapseWord(w[1..], rest);
      assert w + Collapse(rest) == [w[0]] + (w[1..] + Collapse(rest));
    }
  }

  lemma {:induction false} WordAtConcat(w: string, rest: string)
    requires forall k :: 0 <= k < |w| ==> !IsSpace(w[k])
    requires rest == [] || IsSpace(rest[0])
    ensures WordAt(w + rest) == w
    decreases |w|
  {
    if w != [] {
      assert (w + rest)[1..] == w[1..] + rest;
      WordAtConcat(w[1..], rest);
    }
  }

  lemma {:induction false} CollapseWords(s: string)
    ensures Words(Collapse(s)) == Words(s)
    decreases |s|
  {
    if s == [] {
    } else if IsSpace(s[0]) {
      var t := SkipSpaces(s);
      CollapseWords(t);
      WordsSkip(s);
      assert Collapse(s)[1..] == Collapse(t);
    } else {
      var w := WordAt(s);
      var rest := s[|w|..];
      assert s == w + rest;
      CollapseWord(w, rest);
      CollapseNormal(rest);
      WordAtConcat(w, Collapse(rest));
      var c := Collapse(s);
      assert c[|w|..] == Collapse(rest);
      CollapseWords(rest);
    }
  }

  lemma {:induction false} WordsStripRight(s: string)
    ensures Words(StripRight(s)) == Words(s)
    decreases |s|
  {
    if s != [] && IsSpace(s[|s| - 1]) {
      WordsStripRight(s[..|s| - 1]);
      WordsDropSpace(s[..|s| - 1], s[|s| - 1]);
      assert s == s[..|s| - 1] + [s[|s| - 1]];
    }
  }

  /** A whitespace character at the end adds no word. */
  lemma {:induction false} WordsDropSpace(s: string, c: char)
    requires IsSpace(c)
    ensures Words(s + [c]) == Words(s)
    decreases |s|
  {
    if s == [] {
      assert Words([c]) == Words([]);
    } else if IsSpace(s[0]) {
      assert (s + [c])[1..] == s[1..] + [c];
      WordsDropSpace(s[1..], c);
    } else {
      var w := WordAt(s);
      var rest := s[|w|..];
      assert s == w + rest;
      if rest == [] {
        assert s + [c] == w + [c];
        WordAtConcat(w, [c]);
        assert (s + [c])[|w|..] == [c];
        assert Words([c]) == Words([]);
        assert Words(s) == [w] + Words([]);
      } else {
        assert s + [c] == w + (rest + [c]);
        WordAtConcat(w, rest + [c]);
        assert (s + [c])[|w|..] == rest + [c];
        WordsDropSpace(rest, c);
        assert Words(s + [c]) == [w] + Words(rest + [c]);
      }
    }
  }

  /** Cleaning does not change the words, so a document's token count is
      that of its raw content. */
  lemma CleanTextWords(text: string)
    ensures Words(CleanText(text)) == Words(text)
  {
    CollapseWords(text);
    WordsSkip(Collapse(text));
    WordsStripRight(SkipSpaces(Collapse(text)));
  }

  // ---- Documents ------------------------------------------------------------

  /** A raw document: field name to text value. */
  type Doc = map<string, string>

  datatype Tokenized = Tokenized(
    original: Doc,
    cleanedContent: string,
    tokenCount: nat,
    processed: bool)

  datatype Error = MissingContent

  /** `tokenize_document`: fails exactly when the document has no
      `content`; otherwise keeps the document, cleans its content and
      counts the content's words. */
  function TokenizeDocument(doc: Doc): (r: Result<Tokenized, Error>)
    ensures r.Failure? <==> "content" !in doc
    ensures r.Success? ==>
      && r.value.original == doc
      && r.value.cleanedContent == CleanText(doc["content"])
      && r.value.tokenCount == |Words(r.value.cleanedContent)|
      && r.value.tokenCount == |Words(doc["content"])|
      && r.value.processed
  {
    if "content" !in doc then Failure(MissingContent)
    else
      var cleaned := CleanText(doc["content"]);
      CleanTextWords(doc["content"]);
      Success(Tokenized(doc, cleaned, |Words(cleaned)|, true))
  }
}
