/**
 The catalog side of the pipeline: the search query built for a candidate,
 the rule that keeps the first hit, and the resolution of a whole list of
 candidates. The catalog's search endpoint is an oracle parameter.
 */
module Catalog {
  import opened Text
  import FilterMap
  import Validator

  /** A catalog track: its identifier, its name and its artists' names. */
  datatype Track = Track(uri: string, name: string, artists: seq<string>)

  /** What a search call returns: the hits in catalog order, or the error it raised. */
  datatype SearchResult = Hits(tracks: seq<Track>) | Failed(reason: string)

  /** What resolving one candidate does to the playlist. */
  datatype Step = Skip | Add(track: Track) | Abort(reason: string)

  /** The queries sent so far, the tracks appended so far, and the error that stopped the run, if any. */
  datatype Outcome = Outcome(queries: seq<string>, added: seq<Track>, error: Option<string>)

  const ArtistKey: string := "artist:\""
  const TitleKey: string := "\" title:\""
  const Quote: string := "\""

  /** The reason reported when the first hit has no artist to print. */
  const NoArtist: string := "IndexError: list index out of range"

  /** The catalog query `artist:"A" title:"T"` for a candidate. */
  function Query(c: Validator.Candidate): (q: string)
    ensures |q| == |c.artist| + |c.title| + 18
    ensures q[..|ArtistKey|] == ArtistKey && q[|q| - 1] == '"'
    ensures q[|ArtistKey|..|ArtistKey| + |c.artist|] == c.artist
  {
    ArtistKey + c.artist + TitleKey + c.title + Quote
  }

  /** The index of the first `"` in `s` at or after `i`, or `|s|`. */
  function QuoteFrom(s: string, i: nat): (j: nat)
    requires i <= |s|
    ensures i <= j <= |s|
    ensures forall k :: i <= k < j ==> s[k] != '"'
    ensures j < |s| ==> s[j] == '"'
    decreases |s| - i
  {
    if i == |s| || s[i] == '"' then i else QuoteFrom(s, i + 1)
  }

  /**
   Reads a query back into the candidate it asks for: the artist runs to the
   first quote after the `artist:"` key, the title to the final quote.
   */
  function ReadQuery(q: string): (r: Option<Validator.Candidate>)
    ensures r.Some? ==> Query(r.value) == q
  {
    if |q| < |ArtistKey| + |TitleKey| + |Quote| || q[..|ArtistKey|] != ArtistKey || q[|q| - 1] != '"' then None
    else
      var j := QuoteFrom(q, |ArtistKey|);
      if j + |TitleKey| <= |q| - 1 && q[j..j + |TitleKey|] == TitleKey then
        var c := Validator.Candidate(q[|ArtistKey|..j], q[j + |TitleKey|..|q| - 1]);
        assert Query(c) == q;
        Some(c)
      else None
  }

  /**
   The query names its candidate unambiguously whenever the artist holds no
   quote: reading it back gives the candidate.
   */
  lemma QueryRoundTrip(c: Validator.Candidate)
    requires '"' !in c.artist
    ensures ReadQuery(Query(c)) == Some(c)
  {
    var q := Query(c);
    var j := |ArtistKey| + |c.artist|;
    assert q[..|ArtistKey|] == ArtistKey;
    assert q[j] == '"';
    assert forall k :: |ArtistKey| <= k < j ==> q[k] == c.artist[k - |ArtistKey|];
    assert QuoteFrom(q, |ArtistKey|) == j;
    assert q[j..j + |TitleKey|] == TitleKey;
    assert q[|ArtistKey|..j] == c.artist;
    assert q[j + |TitleKey|..|q| - 1] == c.title;
  }

  /** The query is not escaped: an artist holding `" title:"` makes two candidates share one query. */
  lemma QueryNotInjective()
    ensures Query(Validator.Candidate("ab\" title:\"cd", "ef")) == Query(Validator.Candidate("ab", "cd\" title:\"ef"))
  {
  }

  /**
   One candidate's lookup: an error from the search aborts; no hit skips;
   otherwise the first hit is added, once its first artist has been read for
   the progress line (a hit with no artist raises there).
   */
  function Lookup(c: Validator.Candidate, search: string -> SearchResult): (st: Step)
    ensures st.Add? <==> search(Query(c)).Hits? && |search(Query(c)).tracks| >= 1
                         && |search(Query(c)).tracks[0].artists| >= 1
    ensures st.Add? ==> st.track == search(Query(c)).tracks[0]
    ensures st.Skip? <==> search(Query(c)) == Hits([])
  {
    match search(Query(c))
    case Failed(reason) => Abort(reason)
    case Hits(tracks) =>
      if |tracks| == 0 then Skip
      else if |tracks[0].artists| == 0 then Abort(NoArtist)
      else Add(tracks[0])
  }

  /** The track a lookup adds, if any. */
  function Added(st: Step): Option<Track> {
    if st.Add? then Some(st.track) else None
  }

  /** The lookup seen as a partial function from candidates to tracks. */
  function HitOf(search: string -> SearchResult): Validator.Candidate -> Option<Track> {
    c => Added(Lookup(c, search))
  }

  /** The effect of looking up one candidate: its query, the track it adds, the error it raises. */
  function StepOutcome(c: Validator.Candidate, search: string -> SearchResult): Outcome {
    match Lookup(c, search)
    case Abort(reason) => Outcome([Query(c)], [], Some(reason))
    case Skip => Outcome([Query(c)], [], None)
    case Add(t) => Outcome([Query(c)], [t], None)
  }

  /** `o`, then `next` unless `o` stopped the run. */
  function Then(o: Outcome, next: Outcome): Outcome {
    if o.error.Some? then o else Outcome(o.queries + next.queries, o.added + next.added, next.error)
  }

  lemma ThenAssociative(a: Outcome, b: Outcome, c: Outcome)
    ensures Then(Then(a, b), c) == Then(a, Then(b, c))
  {
  }

  /**
   Resolving candidates in order: each adds at most its first hit; the first
   lookup that raises stops the run with what was added before it.
   */
  function Resolve(cands: seq<Validator.Candidate>, search: string -> SearchResult): (o: Outcome)
    ensures |o.added| <= |o.queries| <= |cands|
    ensures o.error.None? ==> |o.queries| == |cands|
    ensures o.error.None? ==> o.queries == Queries(cands)
    decreases |cands|
  {
    if |cands| == 0 then Outcome([], [], None)
    else Then(StepOutcome(cands[0], search), Resolve(cands[1..], search))
  }

  /** Resolving a list that starts with `c` looks `c` up first. */
  lemma ResolveCons(c: Validator.Candidate, rest: seq<Validator.Candidate>, search: string -> SearchResult)
    ensures Resolve([c] + rest, search) == Then(StepOutcome(c, search), Resolve(rest, search))
  {
    assert ([c] + rest)[1..] == rest;
  }

  /** Resolving from position `i` looks up candidate `i`, then resolves from `i + 1` unless it raised. */
  lemma ResolveFrom(cands: seq<Validator.Candidate>, i: nat, search: string -> SearchResult)
    requires i < |cands|
    ensures Resolve(cands[i..], search) == Then(StepOutcome(cands[i], search), Resolve(cands[i + 1..], search))
  {
    assert cands[i..][1..] == cands[i + 1..];
  }

  /** Resolving a concatenation resolves the first part, then the second unless the first stopped. */
  lemma {:induction false} ResolveAppend(xs: seq<Validator.Candidate>, ys: seq<Validator.Candidate>,
                                         search: string -> SearchResult)
    ensures Resolve(xs + ys, search) == Then(Resolve(xs, search), Resolve(ys, search))
    decreases |xs|
  {
    if |xs| == 0 {
      assert xs + ys == ys;
    } else {
      assert (xs + ys)[1..] == xs[1..] + ys;
      assert (xs + ys)[0] == xs[0];
      ResolveAppend(xs[1..], ys, search);
      ThenAssociative(StepOutcome(xs[0], search), Resolve(xs[1..], search), Resolve(ys, search));
    }
  }

  /** The position of the first candidate whose lookup stops the run, or `|cands|`. */
  function FirstAbort(cands: seq<Validator.Candidate>, search: string -> SearchResult): (i: nat)
    ensures i <= |cands|
    ensures forall j :: 0 <= j < i ==> !Lookup(cands[j], search).Abort?
    ensures i < |cands| ==> Lookup(cands[i], search).Abort?
    decreases |cands|
  {
    if |cands| == 0 || Lookup(cands[0], search).Abort? then 0
    else 1 + FirstAbort(cands[1..], search)
  }

  /** The query of each candidate, in order. */
  function Queries(cands: seq<Validator.Candidate>): (qs: seq<string>)
    ensures |qs| == |cands|
    ensures forall j :: 0 <= j < |cands| ==> qs[j] == Query(cands[j])
  {
    seq(|cands|, j requires 0 <= j < |cands| => Query(cands[j]))
  }

  /**
   Exactly one query per candidate up to and including the first failing
   lookup, in candidate order, and none after it.
   */
  lemma {:induction false} ResolveQueriesEach(cands: seq<Validator.Candidate>, search: string -> SearchResult)
    ensures var i := FirstAbort(cands, search);
      Resolve(cands, search).queries == Queries(cands[..if i < |cands| then i + 1 else i])
    decreases |cands|
  {
    if |cands| > 0 && !Lookup(cands[0], search).Abort? {
      var i := FirstAbort(cands, search);
      var n := if i < |cands| then i + 1 else i;
      ResolveQueriesEach(cands[1..], search);
      assert cands[1..][..n - 1] == cands[..n][1..];
    }
  }

  /**
   What the playlist receives is exactly the first hit of every candidate
   before the first failing lookup, in candidate order; the run reports that
   lookup's error, or none when every lookup succeeds.
   */
  lemma {:induction false} ResolveIsFirstHits(cands: seq<Validator.Candidate>, search: string -> SearchResult)
    ensures var i := FirstAbort(cands, search);
      && Resolve(cands, search).added == FilterMap.FilterMap(cands[..i], HitOf(search))
      && Resolve(cands, search).error == (if i < |cands| then Some(Lookup(cands[i], search).reason) else None)
    decreases |cands|
  {
    if |cands| > 0 {
      var i := FirstAbort(cands, search);
      var st := StepOutcome(cands[0], search);
      var rest := Resolve(cands[1..], search);
      assert Resolve(cands, search) == Then(st, rest);
      if !Lookup(cands[0], search).Abort? {
        ResolveIsFirstHits(cands[1..], search);
        assert cands[..i][1..] == cands[1..][..i - 1];
        assert cands[..i][0] == cands[0];
        assert st.added == FilterMap.ToSeq(HitOf(search)(cands[0]));
        assert FilterMap.FilterMap(cands[..i], HitOf(search))
            == st.added + FilterMap.FilterMap(cands[1..][..i - 1], HitOf(search));
      }
    }
  }
}
