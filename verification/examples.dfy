/**
 Worked examples: three submissions of a feed, a catalog that knows only the
 second candidate, and the name of the playlist made on 15 January 2024.
 */
module Examples {
  import opened Text
  import ArtistPattern
  import TitlePattern
  import Validator
  import Catalog
  import Playlists
  import StreamBuilder

  const Band: string := "12 :: The Band - A Song [2019]"
  const Junk: string := "not a track title"
  const Other: string := "34 :: Other Artist -- Another Tune [Live]"

  /** On a single line, the line starting at `i` runs to the end of the string. */
  lemma OneLine(s: string, i: nat)
    requires i <= |s| && forall k :: 0 <= k < |s| ==> s[k] != '\n'
    ensures LineEnd(s, i) == |s|
  {
  }

  /** `Last` is pinned by one index that satisfies `P` and none above it. */
  lemma LastPinned(lo: int, hi: int, P: int -> bool, v: int)
    requires lo <= v <= hi && P(v)
    requires forall j :: v < j <= hi ==> !P(j)
    ensures Last(lo, hi, P) == Some(v)
  {
    LastIsGreatest(lo, hi, P, v);
  }

  /** One differing character rules out an occurrence of `lit` at `j`. */
  lemma Mismatch(s: string, j: int, lit: string, k: nat)
    requires k < |lit| && 0 <= j && j + k < |s| && s[j + k] != lit[k]
    ensures !HasAt(s, j, lit)
  {
  }

  /** A two-character literal occurs nowhere after `lo` when no adjacent pair there spells it. */
  lemma NoTwoCharLitAfter(s: string, lit: string, lo: int)
    requires |lit| == 2 && 0 <= lo
    requires forall j :: lo < j < |s| - 1 ==> s[j] != lit[0] || s[j + 1] != lit[1]
    ensures forall j :: lo < j <= |s| ==> !HasAt(s, j, lit)
  {
    forall j | lo < j <= |s|
      ensures !HasAt(s, j, lit)
    {
      if j < |s| - 1 {
        if s[j] != lit[0] {
          Mismatch(s, j, lit, 0);
        } else {
          Mismatch(s, j, lit, 1);
        }
      }
    }
  }

  /** Both title separators begin with `" -"`. */
  lemma SepStartsWithDash(s: string, j: int)
    ensures HasAt(s, j, TitlePattern.Sep(true)) ==> HasAt(s, j, " -")
    ensures HasAt(s, j, TitlePattern.Sep(false)) ==> HasAt(s, j, " -")
  {
    if HasAt(s, j, TitlePattern.Sep(true)) {
      assert s[j] == TitlePattern.Sep(true)[0] && s[j + 1] == TitlePattern.Sep(true)[1];
    }
    if HasAt(s, j, TitlePattern.Sep(false)) {
      assert s[j] == TitlePattern.Sep(false)[0] && s[j + 1] == TitlePattern.Sep(false)[1];
    }
  }

  /** The artist pattern's match, from the facts the scan reads. */
  lemma ArtistMatchFrom(s: string, k: nat, e: int)
    requires DigitRun(s) == k <= 5 && HasAt(s, k, ArtistPattern.Lead)
    requires k + 4 < |s| && IsWordChar(s[k + 4])
    requires Last(k + 6, LineEnd(s, k + 5), At(s, ArtistPattern.Close)) == Some(e)
    ensures ArtistPattern.Match(s) == Some(Span(k + 4, e))
  {
  }

  /** The title pattern's match, from the facts the scan reads. */
  lemma TitleMatchFrom(s: string, a: int, d: bool, end: int)
    requires |s| > 0 && IsWordChar(s[0])
    requires Last(0, LineEnd(s, 1), At(s, TitlePattern.Close)) == Some(end)
    requires Last(2, LineEnd(s, 1), TitlePattern.FitsAt(s, end)) == Some(a)
    requires TitlePattern.Fits(s, a, true, end) == d
    ensures TitlePattern.Match(s) == Some(Span(a + |TitlePattern.Sep(d)|, end))
  {
  }

  /** Neither example spans more than one line. */
  lemma SingleLines()
    ensures LineEnd(Band, 1) == LineEnd(Band, 7) == |Band|
    ensures LineEnd(Other, 1) == LineEnd(Other, 7) == |Other|
  {
    OneLine(Band, 1);
    OneLine(Band, 7);
    OneLine(Other, 1);
    OneLine(Other, 7);
  }

  /** In the first example the artist's group ends at the last `" -"`. */
  lemma BandArtistClose()
    ensures Last(8, |Band|, At(Band, ArtistPattern.Close)) == Some(14)
  {
    NoTwoCharLitAfter(Band, " -", 14);
    LastPinned(8, 30, At(Band, ArtistPattern.Close), 14);
  }

  /** In the third example the artist's group ends at the last `" -"`. */
  lemma OtherArtistClose()
    ensures Last(8, |Other|, At(Other, ArtistPattern.Close)) == Some(18)
  {
    NoTwoCharLitAfter(Other, " -", 18);
    LastPinned(8, 41, At(Other, ArtistPattern.Close), 18);
  }

  /** In the first example the title's group ends at the last `" ["`. */
  lemma BandTitleClose()
    ensures Last(0, |Band|, At(Band, TitlePattern.Close)) == Some(23)
  {
    NoTwoCharLitAfter(Band, " [", 23);
    LastPinned(0, 30, At(Band, TitlePattern.Close), 23);
  }

  /** In the third example the title's group ends at the last `" ["`. */
  lemma OtherTitleClose()
    ensures Last(0, |Other|, At(Other, TitlePattern.Close)) == Some(34)
  {
    NoTwoCharLitAfter(Other, " [", 34);
    LastPinned(0, 41, At(Other, TitlePattern.Close), 34);
  }

  /** No separator in the first example lies after position 14. */
  lemma BandNoLaterSeparator()
    ensures forall j :: 14 < j <= 30 ==> !TitlePattern.FitsAt(Band, 23)(j)
  {
    NoTwoCharLitAfter(Band, " -", 14);
    forall j | 14 < j <= 30
      ensures !TitlePattern.FitsAt(Band, 23)(j)
    {
      SepStartsWithDash(Band, j);
    }
  }

  /** In the first example the title follows the single-dash separator at 14. */
  lemma BandSeparator()
    ensures Last(2, |Band|, TitlePattern.FitsAt(Band, 23)) == Some(14)
    ensures !TitlePattern.Fits(Band, 14, true, 23)
  {
    assert TitlePattern.Fits(Band, 14, false, 23);
    Mismatch(Band, 14, TitlePattern.Sep(true), 2);
    BandNoLaterSeparator();
    LastPinned(2, 30, TitlePattern.FitsAt(Band, 23), 14);
  }

  /** No separator in the third example lies after position 18. */
  lemma OtherNoLaterSeparator()
    ensures forall j :: 18 < j <= 41 ==> !TitlePattern.FitsAt(Other, 34)(j)
  {
    NoTwoCharLitAfter(Other, " -", 18);
    forall j | 18 < j <= 41
      ensures !TitlePattern.FitsAt(Other, 34)(j)
    {
      SepStartsWithDash(Other, j);
    }
  }

  /** In the third example the title follows the double-dash separator at 18. */
  lemma OtherSeparator()
    ensures Last(2, |Other|, TitlePattern.FitsAt(Other, 34)) == Some(18)
    ensures TitlePattern.Fits(Other, 18, true, 34)
  {
    OtherNoLaterSeparator();
    LastPinned(2, 41, TitlePattern.FitsAt(Other, 34), 18);
  }

  /** The artist's span in the first example cuts out `The Band`. */
  lemma BandArtistGroup()
    ensures Group(Band, Span(6, 14)) == "The Band"
  {
    forall i | 0 <= i < 8
      ensures Band[6 + i] == "The Band"[i]
    {
      assert Band[6 + i] == Band[6..14][i];
    }
  }

  /** The title's span in the first example cuts out `A Song`. */
  lemma BandTitleGroup()
    ensures Group(Band, Span(17, 23)) == "A Song"
  {
    forall i | 0 <= i < 6
      ensures Band[17 + i] == "A Song"[i]
    {
      assert Band[17 + i] == Band[17..23][i];
    }
  }

  /** The artist's span in the third example cuts out `Other Artist`. */
  lemma OtherArtistGroup()
    ensures Group(Other, Span(6, 18)) == "Other Artist"
  {
    forall i | 0 <= i < 12
      ensures Other[6 + i] == "Other Artist"[i]
    {
      assert Other[6 + i] == Other[6..18][i];
    }
  }

  /** The title's span in the third example cuts out `Another Tune`. */
  lemma OtherTitleGroup()
    ensures Group(Other, Span(22, 34)) == "Another Tune"
  {
    forall i | 0 <= i < 12
      ensures Other[22 + i] == "Another Tune"[i]
    {
      assert Other[22 + i] == Other[22..34][i];
    }
  }

  /** What the scan reads at the start of the first example: two digits, `" :: "`, a word character. */
  lemma BandOpening()
    ensures DigitRun(Band) == 2 && HasAt(Band, 2, ArtistPattern.Lead)
    ensures IsWordChar(Band[0]) && IsWordChar(Band[6])
  {
    BandDigits();
  }

  /** The first example's score is two digits long. */
  lemma BandDigits()
    ensures DigitRun(Band) == 2
  {
    DigitPrefixIsRun(Band, 2);
  }

  /** The artist pattern matches the first example. */
  lemma BandArtistMatch()
    ensures ArtistPattern.Match(Band) == Some(Span(6, 14))
  {
    BandOpening();
    SingleLines();
    BandArtistClose();
    ArtistMatchFrom(Band, 2, 14);
  }

  /** The title pattern matches the first example. */
  lemma BandTitleMatch()
    ensures TitlePattern.Match(Band) == Some(Span(17, 23))
  {
    BandOpening();
    SingleLines();
    BandTitleClose();
    BandSeparator();
    TitleMatchFrom(Band, 14, false, 23);
  }

  /** The first example yields `("The Band", "A Song")`. */
  lemma BandParse()
    ensures Validator.Parse(Band) == Some(Validator.Candidate("The Band", "A Song"))
  {
    BandArtistMatch();
    BandTitleMatch();
    BandArtistGroup();
    BandTitleGroup();
  }

  /** What the scan reads at the start of the third example: two digits, `" :: "`, a word character. */
  lemma OtherOpening()
    ensures DigitRun(Other) == 2 && HasAt(Other, 2, ArtistPattern.Lead)
    ensures IsWordChar(Other[0]) && IsWordChar(Other[6])
  {
    OtherDigits();
  }

  /** The third example's score is two digits long. */
  lemma OtherDigits()
    ensures DigitRun(Other) == 2
  {
    DigitPrefixIsRun(Other, 2);
  }

  /** The artist pattern matches the third example. */
  lemma OtherArtistMatch()
    ensures ArtistPattern.Match(Other) == Some(Span(6, 18))
  {
    OtherOpening();
    SingleLines();
    OtherArtistClose();
    ArtistMatchFrom(Other, 2, 18);
  }

  /** The title pattern matches the third example. */
  lemma OtherTitleMatch()
    ensures TitlePattern.Match(Other) == Some(Span(22, 34))
  {
    OtherOpening();
    SingleLines();
    OtherTitleClose();
    OtherSeparator();
    TitleMatchFrom(Other, 18, true, 34);
  }

  /** The third example yields `("Other Artist", "Another Tune")`. */
  lemma OtherParse()
    ensures Validator.Parse(Other) == Some(Validator.Candidate("Other Artist", "Another Tune"))
  {
    OtherArtistMatch();
    OtherTitleMatch();
    OtherArtistGroup();
    OtherTitleGroup();
  }

  /** The second example has no score, so the artist pattern fails at once. */
  lemma JunkParse()
    ensures Validator.Parse(Junk) == None
  {
    assert Junk[0] == 'n';
    DigitPrefixIsRun(Junk, 0);
    assert !HasAt(Junk, 0, ArtistPattern.Lead) by {
      Mismatch(Junk, 0, ArtistPattern.Lead, 0);
    }
  }

  /** Of the three submissions, the first and third yield candidates and the second is skipped. */
  lemma FeedCandidates()
    ensures Validator.Candidates([Band, Junk, Other])
         == [Validator.Candidate("The Band", "A Song"), Validator.Candidate("Other Artist", "Another Tune")]
  {
    BandParse();
    JunkParse();
    OtherParse();
    Validator.CandidatesCons([Band, Junk, Other]);
    Validator.CandidatesCons([Junk, Other]);
    Validator.CandidatesCons([Other]);
    assert [Band, Junk, Other][1..] == [Junk, Other];
    assert [Junk, Other][1..] == [Other];
  }

  /** The one track the catalog holds. */
  const Found: Catalog.Track := Catalog.Track("abc123", "Another Tune", ["Other Artist"])

  /** A catalog that finds nothing for the first candidate and `abc123` for the second. */
  function Stub(q: string): Catalog.SearchResult {
    if q == Catalog.Query(Validator.Candidate("Other Artist", "Another Tune")) then Catalog.Hits([Found])
    else Catalog.Hits([])
  }

  /** Resolving both candidates against the stub hands exactly `abc123` to the playlist. */
  lemma StubResolves()
    ensures var o := Catalog.Resolve([Validator.Candidate("The Band", "A Song"),
                                      Validator.Candidate("Other Artist", "Another Tune")], Stub);
      && o.added == [Found]
      && o.error.None?
      && |o.queries| == 2
  {
    var c1 := Validator.Candidate("The Band", "A Song");
    var c2 := Validator.Candidate("Other Artist", "Another Tune");
    assert Catalog.Query(c1) != Catalog.Query(c2) by {
      assert |Catalog.Query(c1)| != |Catalog.Query(c2)|;
    }
    Catalog.ResolveCons(c1, [c2], Stub);
    Catalog.ResolveCons(c2, [], Stub);
    assert [c1, c2] == [c1] + [c2];
    assert [c2] == [c2] + [];
  }

  /** The playlist made for `listentothis` on 15 January 2024. */
  lemma ListenToThisName()
    ensures Playlists.Valid(Playlists.Date(2024, 1, 15))
    ensures Playlists.Name("listentothis", Playlists.Date(2024, 1, 15)) == "listentothis - 2024-01-15"
  {
    MidJanuary();
    assert "listentothis" + Playlists.Separator + "2024-01-15" == "listentothis - 2024-01-15";
  }

  /** 15 January 2024 is a real date, written `2024-01-15`. */
  lemma MidJanuary()
    ensures Playlists.Valid(Playlists.Date(2024, 1, 15))
    ensures Playlists.IsoFormat(Playlists.Date(2024, 1, 15)) == "2024-01-15"
  {
    assert Playlists.Pad(2, 1) == "2";
    assert Playlists.Pad(20, 2) == "20";
    assert Playlists.Pad(202, 3) == "202";
    assert Playlists.Pad(2024, 4) == "2024";
    assert Playlists.Pad(0, 1) == "0";
    assert Playlists.Pad(1, 2) == "01";
    assert Playlists.Pad(1, 1) == "1";
    assert Playlists.Pad(15, 2) == "15";
  }

  /**
   The whole run on the three submissions and the stub catalog: one playlist
   named for the community and the day, holding `abc123` alone.
   */
  lemma ExampleRun()
    ensures var run := StreamBuilder.BuildPlaylist("listentothis", Playlists.Date(2024, 1, 15),
                                                   [Band, Junk, Other], Stub);
      && run.playlist == Playlists.Playlist("listentothis - 2024-01-15", [Found])
      && run.playlist.tracks[0].uri == "abc123"
      && run.error.None?
  {
    ListenToThisName();
    FeedCandidates();
    StubResolves();
    StreamBuilder.RevisionsAgree("listentothis", Playlists.Date(2024, 1, 15), [Band, Junk, Other], Stub);
  }
}
