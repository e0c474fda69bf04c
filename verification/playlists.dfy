/**
 The playlist a run creates, and its name: the community, `" - "`, and the
 run's date as Python's `str(date)` renders it (`YYYY-MM-DD`). The date is a
 parameter, not a clock.
 */
module Playlists {
  import opened Text
  import Catalog

  /** The remote playlist: its name and the tracks appended to it, in order. */
  datatype Playlist = Playlist(name: string, tracks: seq<Catalog.Track>)

  /** What a run leaves behind: the playlist, the queries it sent, the error that stopped it, if any. */
  datatype Run = Run(playlist: Playlist, queries: seq<string>, error: Option<string>)

  /** A calendar date as Python's `datetime.date` holds it. */
  datatype Date = Date(year: int, month: int, day: int)

  predicate IsLeap(y: int) {
    y % 4 == 0 && (y % 100 != 0 || y % 400 == 0)
  }

  function DaysIn(y: int, m: int): int
    requires 1 <= m <= 12
  {
    if m == 2 then (if IsLeap(y) then 29 else 28)
    else if m == 4 || m == 6 || m == 9 || m == 11 then 30
    else 31
  }

  /** The dates `datetime.date` can hold: years 1 to 9999, real days of real months. */
  predicate Valid(d: Date) {
    1 <= d.year <= 9999 && 1 <= d.month <= 12 && 1 <= d.day <= DaysIn(d.year, d.month)
  }

  /** `n` in exactly `w` decimal digits, zero-padded on the left, as `%0wd` writes it. */
  function Pad(n: nat, w: nat): (r: string)
    requires n < Pow10(w)
    ensures |r| == w && AllDigits(r, w)
    decreases w
  {
    if w == 0 then "" else Pad(n / 10, w - 1) + [DigitChar(n % 10)]
  }

  /** The number a string of decimal digits denotes. */
  function ReadDigits(s: string): (n: nat)
    requires AllDigits(s, |s|)
    ensures n < Pow10(|s|)
    decreases |s|
  {
    if |s| == 0 then 0 else 10 * ReadDigits(s[..|s| - 1]) + DigitValue(s[|s| - 1])
  }

  /** Reading a padded numeral gives the number back. */
  lemma {:induction false} ReadPad(n: nat, w: nat)
    requires n < Pow10(w)
    ensures ReadDigits(Pad(n, w)) == n
    decreases w
  {
    if w > 0 {
      var r := Pad(n, w);
      assert r[..w - 1] == Pad(n / 10, w - 1);
      ReadPad(n / 10, w - 1);
    }
  }

  /** Padding the number a digit string denotes to the string's width gives the string back. */
  lemma {:induction false} PadRead(s: string)
    requires AllDigits(s, |s|)
    ensures Pad(ReadDigits(s), |s|) == s
    decreases |s|
  {
    if |s| > 0 {
      var front := s[..|s| - 1];
      var n := ReadDigits(s);
      assert AllDigits(front, |front|);
      PadRead(front);
      assert n / 10 == ReadDigits(front);
      assert n % 10 == DigitValue(s[|s| - 1]);
    }
  }

  /** `str(date)`: `%04d-%02d-%02d`. */
  function IsoFormat(d: Date): (r: string)
    requires Valid(d)
    ensures |r| == 10 && r[4] == '-' && r[7] == '-'
    ensures forall i :: 0 <= i < 10 && i != 4 && i != 7 ==> IsDigit(r[i])
  {
    Pad(d.year, 4) + "-" + Pad(d.month, 2) + "-" + Pad(d.day, 2)
  }

  /** Reads `YYYY-MM-DD` back into a date; `None` for anything else or an impossible date. */
  function ParseIso(s: string): (r: Option<Date>)
    ensures r.Some? ==> Valid(r.value) && IsoFormat(r.value) == s
  {
    if |s| == 10 && s[4] == '-' && s[7] == '-'
       && AllDigits(s[..4], 4) && AllDigits(s[5..7], 2) && AllDigits(s[8..], 2)
    then
      var d := Date(ReadDigits(s[..4]), ReadDigits(s[5..7]), ReadDigits(s[8..]));
      if Valid(d) then
        PadRead(s[..4]);
        PadRead(s[5..7]);
        PadRead(s[8..]);
        assert s == s[..4] + "-" + s[5..7] + "-" + s[8..];
        Some(d)
      else None
    else None
  }

  /** Every date survives rendering and reading back. */
  lemma IsoRoundTrip(d: Date)
    requires Valid(d)
    ensures ParseIso(IsoFormat(d)) == Some(d)
  {
    var s := IsoFormat(d);
    assert s[..4] == Pad(d.year, 4);
    assert s[5..7] == Pad(d.month, 2);
    assert s[8..] == Pad(d.day, 2);
    ReadPad(d.year, 4);
    ReadPad(d.month, 2);
    ReadPad(d.day, 2);
  }

  /** What joins the community and the date. */
  const Separator: string := " - "

  /** The name given to the new playlist. */
  function Name(community: string, d: Date): (r: string)
    requires Valid(d)
    ensures |r| == |community| + |Separator| + 10
    ensures r[..|community|] == community
    ensures r[|community|..|community| + |Separator|] == Separator
    ensures r[|community| + |Separator|..] == IsoFormat(d)
  {
    community + Separator + IsoFormat(d)
  }

  /** Splits a playlist name into its community and date. */
  function SplitName(name: string): (r: Option<(string, Date)>)
    ensures r.Some? ==> Valid(r.value.1) && Name(r.value.0, r.value.1) == name
  {
    var n := |name|;
    if n < 13 || name[n - 13..n - 10] != Separator then None
    else
      match ParseIso(name[n - 10..])
      case None => None
      case Some(d) =>
        assert name == name[..n - 13] + Separator + name[n - 10..];
        Some((name[..n - 13], d))
  }

  /** The name determines its community and date: splitting it gives them back. */
  lemma NameRoundTrip(community: string, d: Date)
    requires Valid(d)
    ensures SplitName(Name(community, d)) == Some((community, d))
  {
    var name := Name(community, d);
    var n := |name|;
    assert name[n - 13..n - 10] == Separator;
    assert name[n - 10..] == IsoFormat(d);
    assert name[..n - 13] == community;
    IsoRoundTrip(d);
  }
}
