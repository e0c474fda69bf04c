/**
 The package revision (`spotty/spotty.py`): the playlist is created first;
 then each fetched submission is sent to the validator, which sends each
 candidate on to the resolver as soon as it is found. The two coroutines are
 modelled as one pass over the submissions.
 */
module StreamBuilder {
  import opened Text
  import FilterMap
  import Validator
  import Catalog
  import Playlists
  import BatchBuilder

  /**
   Sends the submissions one by one through validation and lookup, appending
   each first hit to `playlist` and logging each query after `queries`.
   */
  function Stream(subs: seq<string>, search: string -> Catalog.SearchResult,
                  playlist: Playlists.Playlist, queries: seq<string>): (run: Playlists.Run)
    ensures run.playlist.name == playlist.name
    ensures |run.queries| <= |queries| + |subs|
    ensures |run.queries| <= |queries| + |Validator.Candidates(subs)|
    decreases |subs|
  {
    if |subs| == 0 then Playlists.Run(playlist, queries, None)
    else
      Validator.CandidatesCons(subs);
      match Validator.Parse(subs[0])
      case None => Stream(subs[1..], search, playlist, queries)
      case Some(c) =>
        var qs := queries + [Catalog.Query(c)];
        match Catalog.Lookup(c, search)
        case Abort(reason) => Playlists.Run(playlist, qs, Some(reason))
        case Skip => Stream(subs[1..], search, playlist, qs)
        case Add(t) => Stream(subs[1..], search, playlist.(tracks := playlist.tracks + [t]), qs)
  }

  /** `build_playlist_container` then `reddit_scrape`: a fresh, empty playlist, then the stream. */
  function BuildPlaylist(community: string, date: Playlists.Date, subs: seq<string>,
                         search: string -> Catalog.SearchResult): (run: Playlists.Run)
    requires Playlists.Valid(date)
    ensures run.playlist.name == Playlists.Name(community, date)
    ensures |run.queries| <= |subs|
    ensures |run.queries| <= |Validator.Candidates(subs)|
  {
    Stream(subs, search, Playlists.Playlist(Playlists.Name(community, date), []), [])
  }

  /** A submission neither pattern pair accepts is passed over. */
  lemma StreamSkips(subs: seq<string>, search: string -> Catalog.SearchResult,
                    playlist: Playlists.Playlist, queries: seq<string>)
    requires |subs| > 0 && Validator.Parse(subs[0]).None?
    ensures Stream(subs, search, playlist, queries) == Stream(subs[1..], search, playlist, queries)
  {
  }

  /** Streaming a submission with candidate `c` looks `c` up, then streams the rest unless it raised. */
  lemma StreamCons(subs: seq<string>, c: Validator.Candidate, search: string -> Catalog.SearchResult,
                   playlist: Playlists.Playlist, queries: seq<string>)
    requires |subs| > 0
    ensures var st := Catalog.StepOutcome(c, search);
      Validator.Parse(subs[0]) == Some(c) ==>
      Stream(subs, search, playlist, queries)
        == if st.error.Some? then Playlists.Run(playlist, queries + st.queries, st.error)
           else Stream(subs[1..], search, playlist.(tracks := playlist.tracks + st.added), queries + st.queries)
  {
    if Validator.Parse(subs[0]) == Some(c) && Catalog.Lookup(c, search).Skip? {
      assert playlist.(tracks := playlist.tracks + []) == playlist;
    }
  }

  /** The run a stream leaves when the candidates ahead resolve to `o`. */
  function Finish(playlist: Playlists.Playlist, queries: seq<string>, o: Catalog.Outcome): Playlists.Run {
    Playlists.Run(playlist.(tracks := playlist.tracks + o.added), queries + o.queries, o.error)
  }

  /** Finishing after one lookup, then the rest, is finishing after both at once. */
  lemma FinishThen(playlist: Playlists.Playlist, queries: seq<string>, st: Catalog.Outcome, r: Catalog.Outcome)
    requires st.error.None?
    ensures Finish(playlist.(tracks := playlist.tracks + st.added), queries + st.queries, r)
         == Finish(playlist, queries, Catalog.Then(st, r))
  {
    assert playlist.tracks + st.added + r.added == playlist.tracks + (st.added + r.added);
    assert queries + st.queries + r.queries == queries + (st.queries + r.queries);
  }

  /** Streaming from any starting state appends exactly what resolving the batch of candidates yields. */
  lemma {:induction false} StreamIsResolve(subs: seq<string>, search: string -> Catalog.SearchResult,
                                           playlist: Playlists.Playlist, queries: seq<string>)
    ensures Stream(subs, search, playlist, queries)
         == Finish(playlist, queries, Catalog.Resolve(Validator.Candidates(subs), search))
    decreases |subs|
  {
    if |subs| == 0 {
      assert playlist.(tracks := playlist.tracks + []) == playlist;
    } else {
      var rest := subs[1..];
      var p := Validator.Parse(subs[0]);
      Validator.CandidatesCons(subs);
      if p.None? {
        assert FilterMap.ToSeq(p) + Validator.Candidates(rest) == Validator.Candidates(rest);
        StreamSkips(subs, search, playlist, queries);
        StreamIsResolve(rest, search, playlist, queries);
      } else {
        var c := p.value;
        var st := Catalog.StepOutcome(c, search);
        var r := Catalog.Resolve(Validator.Candidates(rest), search);
        Catalog.ResolveCons(c, Validator.Candidates(rest), search);
        StreamCons(subs, c, search, playlist, queries);
        if st.error.None? {
          StreamIsResolve(rest, search, playlist.(tracks := playlist.tracks + st.added), queries + st.queries);
          FinishThen(playlist, queries, st, r);
        }
      }
    }
  }

  /**
   The two revisions build the same playlist, send the same queries and stop
   on the same error, for every feed and every catalog.
   */
  lemma RevisionsAgree(community: string, date: Playlists.Date, subs: seq<string>,
                       search: string -> Catalog.SearchResult)
    requires Playlists.Valid(date)
    ensures var o := Catalog.Resolve(Validator.Candidates(subs), search);
      BuildPlaylist(community, date, subs, search)
        == Playlists.Run(Playlists.Playlist(Playlists.Name(community, date), o.added), o.queries, o.error)
  {
    var empty := Playlists.Playlist(Playlists.Name(community, date), []);
    var o := Catalog.Resolve(Validator.Candidates(subs), search);
    StreamIsResolve(subs, search, empty, []);
    assert Finish(empty, [], o) == Playlists.Run(empty.(tracks := o.added), o.queries, o.error) by {
      assert empty.tracks + o.added == o.added;
      assert [] + o.queries == o.queries;
    }
  }

  /** The batch revision's `main` and the streaming revision's `main` leave the same playlist, queries and error. */
  method BothRevisions(community: string, date: Playlists.Date, subs: seq<string>,
                       search: string -> Catalog.SearchResult)
    returns (batch: Playlists.Run)
    requires Playlists.Valid(date)
    ensures batch == BuildPlaylist(community, date, subs, search)
  {
    batch := BatchBuilder.BuildPlaylist(community, date, subs, search);
    RevisionsAgree(community, date, subs, search);
  }

  /** The playlist exists even when the feed yields nothing: it is created empty before any lookup. */
  lemma EmptyFeedStillCreates(community: string, date: Playlists.Date, subs: seq<string>,
                              search: string -> Catalog.SearchResult)
    requires Playlists.Valid(date)
    requires Validator.Candidates(subs) == []
    ensures BuildPlaylist(community, date, subs, search)
         == Playlists.Run(Playlists.Playlist(Playlists.Name(community, date), []), [], None)
  {
    RevisionsAgree(community, date, subs, search);
  }
}
