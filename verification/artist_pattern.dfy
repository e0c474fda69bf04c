/**
 The artist pattern `\d{0,5} :: (\w.+) \-\-?`, applied with Python's `re.match`:
 anchored at the start of the rendered submission, not at its end.

 `Matches` lists every way the pattern can match; `Chosen` picks the one the
 backtracking engine returns; `Match` finds it by scanning for the last
 separator, and `MatchIsChosen` / `NoMatchIffNoParse` prove the two agree.
 */
module ArtistPattern {
  import opened Text

  /** The literal between the score and the artist. */
  const Lead: string := " :: "

  /** The literal that must follow the artist (the trailing `-?` never changes a match). */
  const Close: string := " -"

  /** The pattern matches `s` with `k` leading digits and group 1 ending at `e`. */
  predicate Matches(s: string, k: int, e: int) {
    && 0 <= k <= 5
    && HasAt(s, k, Lead)
    && AllDigits(s, k)
    && CaptureAt(s, k + |Lead|, e, Close)
  }

  /**
   The match `re.match` reports: `\d{0,5}` is greedy, so more digits come first;
   then the greedy `.+` of group 1 makes the longest group win.
   */
  ghost predicate Chosen(s: string, k: int, e: int) {
    && Matches(s, k, e)
    && forall k', e' :: Matches(s, k', e') ==> k' < k || (k' == k && e' <= e)
  }

  /**
   The last position, from the group's second character up to the end of its
   line, where `Close` occurs: where the greedy `.+` stops after backtracking.
   */
  function Scan(s: string, p: nat): Option<int>
    requires p < |s|
  {
    Last(p + 2, LineEnd(s, p + 1), At(s, Close))
  }

  /** Group 1 of `re.match(artistRegex, s)`, or `None` when the pattern does not match. */
  function Match(s: string): (r: Option<Span>)
    ensures DigitRun(s) > 5 ==> r.None?
    ensures r.Some? ==> r.value.start == DigitRun(s) + |Lead|
    ensures r.Some? ==>
      var k := r.value.start - |Lead|;
      && 0 <= k <= 5 && k <= |s| && AllDigits(s, k) && HasAt(s, k, Lead)
      && CaptureAt(s, r.value.start, r.value.end, Close)
  {
    var k := DigitRun(s);
    if k <= 5 && HasAt(s, k, Lead) && k + |Lead| < |s| && IsWordChar(s[k + |Lead|]) then
      var p := k + |Lead|;
      match Scan(s, p)
      case None => None
      case Some(e) => Some(Span(p, e))
    else
      None
  }

  /** Any match uses exactly the leading digit run. */
  lemma MatchesUsesDigitRun(s: string, k: int, e: int)
    requires Matches(s, k, e)
    ensures k == DigitRun(s)
  {
    assert s[k] == Lead[0];
    DigitPrefixIsRun(s, k);
  }

  /** A match ends its group no later than the end of the line the group starts on. */
  lemma MatchesWithinLine(s: string, k: int, e: int)
    requires Matches(s, k, e)
    ensures e <= LineEnd(s, k + |Lead| + 1)
  {
    NoNewlineInIffBeforeLineEnd(s, k + |Lead| + 1, e);
  }

  /** What the scanner finds is a match, and no match the engine prefers exists. */
  lemma MatchSound(s: string, k: nat, e: nat)
    requires Match(s) == Some(Span(k + |Lead|, e))
    ensures Chosen(s, k, e)
  {
    assert k == DigitRun(s);
    var p := k + |Lead|;
    assert Scan(s, p) == Some(e);
    NoNewlineInIffBeforeLineEnd(s, p + 1, e);
    assert Matches(s, k, e);
    forall k', e' | Matches(s, k', e')
      ensures k' < k || (k' == k && e' <= e)
    {
      MatchesUsesDigitRun(s, k', e');
      MatchesWithinLine(s, k', e');
      LastIsGreatest(p + 2, LineEnd(s, p + 1), At(s, Close), e');
    }
  }

  /** The match the engine reports is the one the scanner finds. */
  lemma MatchComplete(s: string, k: nat, e: nat)
    requires Chosen(s, k, e)
    ensures Match(s) == Some(Span(k + |Lead|, e))
  {
    MatchesUsesDigitRun(s, k, e);
    MatchesWithinLine(s, k, e);
    var p := k + |Lead|;
    var found := Scan(s, p);
    LastIsGreatest(p + 2, LineEnd(s, p + 1), At(s, Close), e);
    NoNewlineInIffBeforeLineEnd(s, p + 1, found.value);
    assert Matches(s, k, found.value);
  }

  /** The scanner finds a group exactly at the match the backtracking engine returns. */
  lemma MatchIsChosen(s: string, k: nat, e: nat)
    ensures Match(s) == Some(Span(k + |Lead|, e)) <==> Chosen(s, k, e)
  {
    if Match(s) == Some(Span(k + |Lead|, e)) {
      MatchSound(s, k, e);
    }
    if Chosen(s, k, e) {
      MatchComplete(s, k, e);
    }
  }

  /** The scanner reports no artist exactly when the pattern cannot match at all. */
  lemma NoMatchIffNoParse(s: string)
    ensures Match(s).None? <==> forall k, e :: !Matches(s, k, e)
  {
    if Match(s).Some? {
      var sp := Match(s).value;
      NoNewlineInIffBeforeLineEnd(s, sp.start + 1, sp.end);
      assert Matches(s, sp.start - |Lead|, sp.end);
    }
    if exists k, e :: Matches(s, k, e) {
      var k, e :| Matches(s, k, e);
      MatchesUsesDigitRun(s, k, e);
      MatchesWithinLine(s, k, e);
      LastIsGreatest(k + |Lead| + 2, LineEnd(s, k + |Lead| + 1), At(s, Close), e);
    }
  }
}
