/**
 The track validator: each rendered submission `"<score> :: <title>"` yields
 an (artist, title) candidate when both patterns match it, and nothing
 otherwise. Submissions that fail are dropped silently; nothing is raised.
 */
module Validator {
  import opened Text
  import FilterMap
  import ArtistPattern
  import TitlePattern

  /** An (artist, title) pair guessed from one submission. */
  datatype Candidate = Candidate(artist: string, title: string)

  /** A submission as the feed service renders it: its score, `" :: "`, its title. */
  function Render(score: int, title: string): string {
    IntToString(score) + ArtistPattern.Lead + title
  }

  /**
   Group 1 of both patterns on one rendered submission, artist first; `None`
   when either pattern fails.
   */
  function Parse(s: string): (r: Option<Candidate>)
    ensures r.Some? ==>
      && |r.value.artist| >= 2 && IsWordChar(r.value.artist[0])
      && |r.value.title| >= 2 && IsWordChar(r.value.title[0])
      && '\n' !in r.value.artist && '\n' !in r.value.title
  {
    match ArtistPattern.Match(s)
    case None => None
    case Some(a) =>
      match TitlePattern.Match(s)
      case None => None
      case Some(t) => Some(Candidate(Group(s, a), Group(s, t)))
  }

  /** A candidate is produced exactly when both patterns match the submission somewhere. */
  lemma ParseIffBothMatch(s: string)
    ensures Parse(s).Some? <==>
      (exists k, e :: ArtistPattern.Matches(s, k, e)) && (exists a, d, e :: TitlePattern.Matches(s, a, d, e))
  {
    ArtistPattern.NoMatchIffNoParse(s);
    TitlePattern.NoMatchIffNoParse(s);
  }

  /** The artist is group 1 of the match Python's engine reports: the longest after the score. */
  ghost predicate ChosenArtist(s: string, artist: string) {
    exists k: nat, e: nat :: ArtistPattern.Chosen(s, k, e) && artist == s[k + |ArtistPattern.Lead|..e]
  }

  /** The title is group 1 of the first match in the title pattern's order of trial. */
  ghost predicate ChosenTitle(s: string, title: string) {
    exists a: nat, d, e: nat :: TitlePattern.Chosen(s, a, d, e) && title == s[a + |TitlePattern.Sep(d)|..e]
  }

  /** The artist span is group 1 of the artist match the engine reports, and only that. */
  lemma ArtistChosen(s: string, artist: string)
    ensures (ArtistPattern.Match(s).Some? && Group(s, ArtistPattern.Match(s).value) == artist)
        <==> ChosenArtist(s, artist)
  {
    if ArtistPattern.Match(s).Some? {
      var sa := ArtistPattern.Match(s).value;
      var k: nat := sa.start - |ArtistPattern.Lead|;
      ArtistPattern.MatchIsChosen(s, k, sa.end);
      assert ArtistPattern.Chosen(s, k, sa.end);
    }
    if ChosenArtist(s, artist) {
      var k: nat, e: nat :| ArtistPattern.Chosen(s, k, e) && artist == s[k + |ArtistPattern.Lead|..e];
      ArtistPattern.MatchIsChosen(s, k, e);
    }
  }

  /** The title span, when there is one, is group 1 of the title match the engine reports. */
  lemma TitleSound(s: string)
    requires TitlePattern.Match(s).Some?
    ensures ChosenTitle(s, Group(s, TitlePattern.Match(s).value))
  {
    TitlePattern.FindIsChosen(s);
    var (a, d, e) := TitlePattern.Find(s).value;
    var title := Group(s, TitlePattern.Match(s).value);
    assert TitlePattern.Chosen(s, a, d, e) && title == s[a + |TitlePattern.Sep(d)|..e];
  }

  /** Group 1 of the title match the engine reports is the title span. */
  lemma TitleComplete(s: string, title: string)
    requires ChosenTitle(s, title)
    ensures TitlePattern.Match(s).Some? && Group(s, TitlePattern.Match(s).value) == title
  {
    var a: nat, d, e: nat :| TitlePattern.Chosen(s, a, d, e) && title == s[a + |TitlePattern.Sep(d)|..e];
    TitlePattern.MatchIsChosen(s, a, d, e);
  }

  /** The title span is group 1 of the title match the engine reports, and only that. */
  lemma TitleChosen(s: string, title: string)
    ensures (TitlePattern.Match(s).Some? && Group(s, TitlePattern.Match(s).value) == title)
        <==> ChosenTitle(s, title)
  {
    if TitlePattern.Match(s).Some? {
      TitleSound(s);
    }
    if ChosenTitle(s, title) {
      TitleComplete(s, title);
    }
  }

  /** A candidate carries exactly the groups of the matches Python's engine reports. */
  lemma ParseSound(s: string)
    ensures Parse(s).Some? ==> ChosenArtist(s, Parse(s).value.artist)
    ensures Parse(s).Some? ==> ChosenTitle(s, Parse(s).value.title)
  {
    if Parse(s).Some? {
      ArtistChosen(s, Parse(s).value.artist);
      TitleChosen(s, Parse(s).value.title);
    }
  }

  /** Whenever both reported groups exist, the candidate is made of them. */
  lemma ParseComplete(s: string, artist: string, title: string)
    requires ChosenArtist(s, artist) && ChosenTitle(s, title)
    ensures Parse(s) == Some(Candidate(artist, title))
  {
    ArtistChosen(s, artist);
    TitleChosen(s, title);
  }

  /** The artist group never reaches into the score: only scores of at most five digits pass. */
  lemma ScoreGate(score: int, title: string)
    ensures ArtistPattern.Match(Render(score, title)).Some? ==> 0 <= score < 100000
    ensures ArtistPattern.Match(Render(score, title)).Some? ==>
      ArtistPattern.Match(Render(score, title)).value.start == |IntToString(score)| + |ArtistPattern.Lead|
  {
    var s := Render(score, title);
    var r := ArtistPattern.Match(s);
    if r.Some? {
      var k := r.value.start - |ArtistPattern.Lead|;
      var w := |IntToString(score)|;
      assert s[w] == ' ';
      assert AllDigits(s, w);
      DigitPrefixIsRun(s, w);
      assert k == DigitRun(s);
      DecimalWidth(score, 5);
    }
  }

  /** The candidates of a batch of rendered submissions, in submission order. */
  function Candidates(subs: seq<string>): (cs: seq<Candidate>)
    ensures |cs| <= |subs|
    ensures forall j :: 0 <= j < |cs| ==>
      exists i :: 0 <= i < |subs| && Parse(subs[i]) == Some(cs[j])
    ensures var idx := FilterMap.Kept(subs, Parse);
      |cs| == |idx| && forall j :: 0 <= j < |idx| ==> cs[j] == Parse(subs[idx[j]]).value
  {
    var cs := FilterMap.FilterMap(subs, Parse);
    var idx := FilterMap.Kept(subs, Parse);
    FilterMap.FilterMapIsKept(subs, Parse);
    assert forall j :: 0 <= j < |idx| ==> Parse(subs[idx[j]]) == Some(cs[j]);
    cs
  }

  /**
   One candidate per submission that both patterns match, in submission order,
   and none for any other submission.
   */
  lemma CandidatesInOrder(subs: seq<string>)
    ensures var idx := FilterMap.Kept(subs, Parse);
      && |Candidates(subs)| == |idx|
      && (forall j :: 0 <= j < |idx| ==> Candidates(subs)[j] == Parse(subs[idx[j]]).value)
      && (forall j, k :: 0 <= j < k < |idx| ==> idx[j] < idx[k])
      && (forall i :: 0 <= i < |subs| ==> (i in idx <==> Parse(subs[i]).Some?))
  {
    FilterMap.FilterMapIsKept(subs, Parse);
  }

  /** The first submission contributes its candidate, if any, ahead of the rest. */
  lemma CandidatesCons(subs: seq<string>)
    requires |subs| > 0
    ensures Candidates(subs) == FilterMap.ToSeq(Parse(subs[0])) + Candidates(subs[1..])
  {
  }

  /** Validating one more submission appends its candidate, if any. */
  lemma CandidatesSnoc(subs: seq<string>, i: nat)
    requires i < |subs|
    ensures Candidates(subs[..i + 1]) == Candidates(subs[..i]) + FilterMap.ToSeq(Parse(subs[i]))
  {
    assert subs[..i + 1] == subs[..i] + [subs[i]];
    CandidatesAppend(subs[..i], [subs[i]]);
    CandidatesCons([subs[i]]);
    assert [subs[i]][1..] == [];
  }

  /** Feeding submissions one at a time yields the same candidates as the whole batch. */
  lemma CandidatesAppend(xs: seq<string>, ys: seq<string>)
    ensures Candidates(xs + ys) == Candidates(xs) + Candidates(ys)
  {
    FilterMap.FilterMapAppend(xs, ys, Parse);
  }
}
