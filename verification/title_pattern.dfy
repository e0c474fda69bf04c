/**
 The title pattern `\w.+ --? (\w.+) \[`, applied with Python's `re.match`.

 The engine backtracks the greedy prefix `\w.+` from the right, tries the
 optional second dash before doing without it, and backtracks group 1 from
 the right. `Chosen` states that priority; `Match` finds the same group by
 locating the last `" ["` on the first line and then the last separator that
 fits before it.
 */
module TitlePattern {
  import opened Text

  /** The separator between prefix and group 1: `" -- "` when the optional dash is taken. */
  function Sep(twoDash: bool): string {
    if twoDash then " -- " else " - "
  }

  /** The literal that must follow the title. */
  const Close: string := " ["

  /** The pattern matches `s` with the prefix `\w.+` ending at `a`, separator `Sep(d)` and group 1 ending at `e`. */
  predicate Matches(s: string, a: int, d: bool, e: int) {
    && 1 <= |s|
    && IsWordChar(s[0])
    && 2 <= a <= |s|
    && NoNewlineIn(s, 1, a)
    && HasAt(s, a, Sep(d))
    && CaptureAt(s, a + |Sep(d)|, e, Close)
  }

  /**
   The two separators never both fit at one prefix end (the third character
   is `'-'` in one and `' '` in the other), so preferring `" -- "` only orders
   different prefix ends.
   */
  lemma SeparatorsExclusive(s: string, a: int)
    ensures HasAt(s, a, Sep(true)) ==> s[a + 2] == '-'
    ensures HasAt(s, a, Sep(false)) ==> s[a + 2] == ' '
    ensures !(HasAt(s, a, Sep(true)) && HasAt(s, a, Sep(false)))
  {
    if HasAt(s, a, Sep(true)) {
      assert s[a + 2] == Sep(true)[2];
    }
    if HasAt(s, a, Sep(false)) {
      assert s[a + 2] == Sep(false)[2];
    }
  }

  /** `(a', d', e')` is tried after `(a, d, e)` by the backtracking engine. */
  predicate TriedAfter(a: int, d: bool, e: int, a': int, d': bool, e': int) {
    a' < a || (a' == a && ((d && !d') || (d' == d && e' <= e)))
  }

  /** The match `re.match` reports: the first in the engine's order of trial. */
  ghost predicate Chosen(s: string, a: int, d: bool, e: int) {
    && Matches(s, a, d, e)
    && forall a', d', e' :: Matches(s, a', d', e') ==> TriedAfter(a, d, e, a', d', e')
  }

  /** Separator `Sep(d)` at `a`, then a word character, leaving room for group 1 to end at `end`. */
  predicate Fits(s: string, a: int, d: bool, end: int) {
    var g := a + |Sep(d)|;
    HasAt(s, a, Sep(d)) && g < |s| && IsWordChar(s[g]) && g + 2 <= end
  }

  /** Some separator fits at `a`. */
  function FitsAt(s: string, end: int): int -> bool {
    a => Fits(s, a, true, end) || Fits(s, a, false, end)
  }

  /**
   The prefix end, separator choice and group end the scan settles on: group 1
   ends at the last `" ["` of the first line, and the prefix at the last
   separator that leaves room for a group before it.
   */
  function Find(s: string): Option<(int, bool, int)> {
    if |s| == 0 || !IsWordChar(s[0]) then None
    else
      var n := LineEnd(s, 1);
      match Last(0, n, At(s, Close))
      case None => None
      case Some(end) =>
        match Last(2, n, FitsAt(s, end))
        case None => None
        case Some(a) => Some((a, Fits(s, a, true, end), end))
  }

  /** Group 1 of `re.match(titleRegex, s)`, or `None` when the pattern does not match. */
  function Match(s: string): (r: Option<Span>)
    ensures r.Some? ==>
      && r.value.start >= 5
      && (HasAt(s, r.value.start - 4, Sep(true)) || HasAt(s, r.value.start - 3, Sep(false)))
      && CaptureAt(s, r.value.start, r.value.end, Close)
  {
    match Find(s)
    case None => None
    case Some((a, d, e)) => Some(Span(a + |Sep(d)|, e))
  }

  /** Every match lies on the first line: prefix, separator and group hold no line feed. */
  lemma MatchesWithinLine(s: string, a: int, d: bool, e: int)
    requires Matches(s, a, d, e)
    ensures a + |Sep(d)| + 2 <= e <= LineEnd(s, 1)
  {
    var g := a + |Sep(d)|;
    forall j | a <= j < g
      ensures s[j] != '\n'
    {
      assert s[j] == Sep(d)[j - a];
    }
    assert NoNewlineIn(s, 1, e);
    NoNewlineInIffBeforeLineEnd(s, 1, e);
  }

  /** A separator that fits before the chosen close yields a match. */
  lemma FitsMatches(s: string, a: int, d: bool, end: int)
    requires 1 <= |s| && IsWordChar(s[0]) && 2 <= a
    requires end <= LineEnd(s, 1) && HasAt(s, end, Close) && Fits(s, a, d, end)
    ensures Matches(s, a, d, end)
  {
  }

  /** What the scan finds is a match, and no match is tried before it. */
  lemma FindIsChosen(s: string)
    requires Find(s).Some?
    ensures Chosen(s, Find(s).value.0, Find(s).value.1, Find(s).value.2)
  {
    var (a1, d1, end) := Find(s).value;
    var n := LineEnd(s, 1);
    FitsMatches(s, a1, d1, end);
    forall a', d', e' | Matches(s, a', d', e')
      ensures TriedAfter(a1, d1, end, a', d', e')
    {
      MatchesWithinLine(s, a', d', e');
      LastIsGreatest(0, n, At(s, Close), e');
      assert Fits(s, a', d', end);
      LastIsGreatest(2, n, FitsAt(s, end), a');
    }
  }

  /** Whenever the pattern can match, the scan finds something. */
  lemma FindComplete(s: string, a: int, d: bool, e: int)
    requires Matches(s, a, d, e)
    ensures Find(s).Some?
  {
    MatchesWithinLine(s, a, d, e);
    var n := LineEnd(s, 1);
    LastIsGreatest(0, n, At(s, Close), e);
    var end := Last(0, n, At(s, Close)).value;
    assert Fits(s, a, d, end);
    LastIsGreatest(2, n, FitsAt(s, end), a);
  }

  /** Two matches each tried no later than the other are the same match. */
  lemma ChosenUnique(s: string, a: int, d: bool, e: int, a': int, d': bool, e': int)
    requires Chosen(s, a, d, e) && Chosen(s, a', d', e')
    ensures a == a' && d == d' && e == e'
  {
  }

  /** The scanner finds a title exactly at the match the backtracking engine returns. */
  lemma MatchIsChosen(s: string, a: int, d: bool, e: int)
    ensures Chosen(s, a, d, e) ==> Match(s) == Some(Span(a + |Sep(d)|, e))
    ensures Match(s).Some? ==>
      exists a', d' :: Chosen(s, a', d', Match(s).value.end) && Match(s).value.start == a' + |Sep(d')|
  {
    if Chosen(s, a, d, e) {
      FindComplete(s, a, d, e);
    }
    if Find(s).Some? {
      FindIsChosen(s);
      var (a1, d1, e1) := Find(s).value;
      if Chosen(s, a, d, e) {
        ChosenUnique(s, a, d, e, a1, d1, e1);
      }
    }
  }

  /** The scanner reports no title exactly when the pattern cannot match at all. */
  lemma NoMatchIffNoParse(s: string)
    ensures Match(s).None? <==> forall a, d, e :: !Matches(s, a, d, e)
  {
    if Find(s).Some? {
      FindIsChosen(s);
    }
    if exists a, d, e :: Matches(s, a, d, e) {
      var a, d, e :| Matches(s, a, d, e);
      FindComplete(s, a, d, e);
    }
  }
}
