/**
  Message search: the pattern that internal/chat/readstate_postgres.go builds from a query, under
  the semantics of LIKE with ESCAPE '\' (section 8.5 of ISO/IEC 9075-2), compared through a
  per-character case fold.
*/
module LikePattern {

  /** LIKE. A pattern that ends in the escape character is an error in SQL and matches nothing here. */
  predicate Matches(fold: char -> char, pattern: string, text: string)
    decreases |pattern| + |text|
  {
    if pattern == "" then text == ""
    else if pattern[0] == '%' then
      Matches(fold, pattern[1..], text) || (text != "" && Matches(fold, pattern, text[1..]))
    else if pattern[0] == '_' then
      text != "" && Matches(fold, pattern[1..], text[1..])
    else if pattern[0] == '\\' then
      |pattern| > 1 && text != "" && fold(text[0]) == fold(pattern[1]) && Matches(fold, pattern[2..], text[1..])
    else
      text != "" && fold(text[0]) == fold(pattern[0]) && Matches(fold, pattern[1..], text[1..])
  }

  /** What the replacer writes for one character. */
  function Escaped(c: char): string {
    if c == '\\' || c == '%' || c == '_' then ['\\', c] else [c]
  }

  function EscapeLike(value: string): string {
    if value == "" then "" else Escaped(value[0]) + EscapeLike(value[1..])
  }

  /** The argument of ILIKE in SearchMessages. */
  function SearchPattern(query: string): string {
    "%" + EscapeLike(query) + "%"
  }

  /** The text has the query, up to case, at a position. */
  predicate OccursAt(fold: char -> char, query: string, text: string, at: nat) {
    at + |query| <= |text| && forall j | 0 <= j < |query| :: fold(text[at + j]) == fold(query[j])
  }

  ghost predicate Occurs(fold: char -> char, query: string, text: string) {
    exists at: nat :: OccursAt(fold, query, text, at)
  }

  /** An escaped query matches itself, up to case, and nothing else. */
  lemma {:induction false} EscapedIsLiteral(fold: char -> char, query: string, rest: string, text: string)
    ensures Matches(fold, EscapeLike(query) + rest, text) <==>
            OccursAt(fold, query, text, 0) && Matches(fold, rest, text[|query|..])
    decreases |query|
  {
    var pattern := EscapeLike(query) + rest;
    if query == "" {
      assert pattern == rest && text[0..] == text;
    } else {
      var tail := EscapeLike(query[1..]) + rest;
      assert pattern == Escaped(query[0]) + tail;
      assert Matches(fold, pattern, text) <==>
             text != "" && fold(text[0]) == fold(query[0]) && Matches(fold, tail, text[1..]) by {
        OneCharacter(fold, query[0], tail, text);
      }
      if text != "" {
        EscapedIsLiteral(fold, query[1..], rest, text[1..]);
        OccursFromFront(fold, query, text);
        if |query| <= |text| {
          assert text[1..][|query[1..]|..] == text[|query|..];
        }
      }
    }
  }

  lemma OneCharacter(fold: char -> char, c: char, tail: string, text: string)
    ensures Matches(fold, Escaped(c) + tail, text) <==>
            text != "" && fold(text[0]) == fold(c) && Matches(fold, tail, text[1..])
  {
    var pattern := Escaped(c) + tail;
    if |Escaped(c)| == 2 {
      assert pattern[2..] == tail;
    } else {
      assert pattern[1..] == tail;
    }
  }

  lemma OccursFromFront(fold: char -> char, query: string, text: string)
    requires query != "" && text != ""
    ensures OccursAt(fold, query, text, 0) <==> fold(text[0]) == fold(query[0]) && OccursAt(fold, query[1..], text[1..], 0)
  {
    if fold(text[0]) == fold(query[0]) && OccursAt(fold, query[1..], text[1..], 0) {
      forall j | 0 <= j < |query|
        ensures fold(text[0 + j]) == fold(query[j])
      {
        if j > 0 {
          assert fold(text[1..][0 + (j - 1)]) == fold(query[1..][j - 1]);
        }
      }
    }
    if OccursAt(fold, query, text, 0) {
      assert fold(text[0 + 0]) == fold(query[0]);
      forall j | 0 <= j < |query[1..]|
        ensures fold(text[1..][0 + j]) == fold(query[1..][j])
      {
        assert fold(text[0 + (j + 1)]) == fold(query[j + 1]);
      }
    }
  }

  /** A leading % matches anywhere. */
  lemma {:induction false} PercentSkips(fold: char -> char, pattern: string, text: string)
    ensures Matches(fold, "%" + pattern, text) <==> exists at :: 0 <= at <= |text| && Matches(fold, pattern, text[at..])
    decreases |text|
  {
    assert ("%" + pattern)[1..] == pattern && text[0..] == text;
    if text != "" {
      PercentSkips(fold, pattern, text[1..]);
      if Matches(fold, "%" + pattern, text[1..]) {
        var at :| 0 <= at <= |text[1..]| && Matches(fold, pattern, text[1..][at..]);
        assert text[1..][at..] == text[at + 1..];
      }
      forall at | 1 <= at <= |text| && Matches(fold, pattern, text[at..])
        ensures Matches(fold, "%" + pattern, text[1..])
      {
        assert text[1..][at - 1..] == text[at..];
      }
    }
  }

  /** A message is found exactly when its content has the query as a substring, up to case. */
  lemma SearchFindsSubstrings(fold: char -> char, query: string, text: string)
    ensures Matches(fold, SearchPattern(query), text) <==> Occurs(fold, query, text)
  {
    var middle := EscapeLike(query) + "%";
    assert SearchPattern(query) == "%" + middle;
    PercentSkips(fold, middle, text);
    forall at | 0 <= at <= |text|
      ensures Matches(fold, middle, text[at..]) <==> OccursAt(fold, query, text, at)
    {
      EscapedIsLiteral(fold, query, "%", text[at..]);
      if |query| <= |text[at..]| {
        PercentMatchesAll(fold, text[at..][|query|..]);
      }
      Shifted(fold, query, text, at);
    }
    if Occurs(fold, query, text) {
      var at: nat :| OccursAt(fold, query, text, at);
      assert Matches(fold, middle, text[at..]);
    }
  }

  lemma {:induction false} PercentMatchesAll(fold: char -> char, text: string)
    ensures Matches(fold, "%", text)
    decreases |text|
  {
    if text != "" {
      PercentMatchesAll(fold, text[1..]);
    }
  }

  lemma Shifted(fold: char -> char, query: string, text: string, at: nat)
    requires at <= |text|
    ensures OccursAt(fold, query, text[at..], 0) <==> OccursAt(fold, query, text, at)
  {
    if at + |query| <= |text| {
      assert forall i | 0 <= i < |text[at..]| :: text[at..][i] == text[at + i];
      assert forall j | 0 <= j < |query| :: fold(text[at..][0 + j]) == fold(query[j]) <==> fold(text[at + j]) == fold(query[j]);
    }
  }
}
