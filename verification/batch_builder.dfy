/**
 The script revision (`spotty.py`): every submission is validated into a
 list of candidates first; then the playlist is created and each candidate
 is searched for and its first hit appended, one at a time.
 */
module BatchBuilder {
  import opened Text
  import Validator
  import Catalog
  import Playlists

  /** `track_grabber`: the candidates of the fetched submissions, appended in order. */
  method TrackGrabber(subs: seq<string>) returns (scraped: seq<Validator.Candidate>)
    ensures scraped == Validator.Candidates(subs)
    ensures |scraped| <= |subs|
  {
    scraped := [];
    for i := 0 to |subs|
      invariant scraped == Validator.Candidates(subs[..i])
    {
      Validator.CandidatesSnoc(subs, i);
      match Validator.Parse(subs[i]) {
        case None =>
        case Some(c) => scraped := scraped + [c];
      }
    }
    assert subs[..|subs|] == subs;
  }

  /**
   `search`: creates the playlist named after the community and date, then
   searches for each scraped candidate in order and appends its first hit.
   A search that raises ends the run with the playlist as it stands.
   */
  method Search(community: string, date: Playlists.Date, scraped: seq<Validator.Candidate>,
                search: string -> Catalog.SearchResult)
    returns (run: Playlists.Run)
    requires Playlists.Valid(date)
    ensures run.playlist.name == Playlists.Name(community, date)
    ensures Catalog.Outcome(run.queries, run.playlist.tracks, run.error) == Catalog.Resolve(scraped, search)
  {
    var playlist := Playlists.Playlist(Playlists.Name(community, date), []);
    var queries := [];
    var i := 0;
    while i < |scraped|
      invariant 0 <= i <= |scraped|
      invariant playlist.name == Playlists.Name(community, date)
      invariant Catalog.Resolve(scraped, search)
             == Catalog.Then(Catalog.Outcome(queries, playlist.tracks, None), Catalog.Resolve(scraped[i..], search))
    {
      var done := Catalog.Outcome(queries, playlist.tracks, None);
      var st := Catalog.StepOutcome(scraped[i], search);
      Catalog.ResolveFrom(scraped, i, search);
      Catalog.ThenAssociative(done, st, Catalog.Resolve(scraped[i + 1..], search));
      queries := queries + [Catalog.Query(scraped[i])];
      match Catalog.Lookup(scraped[i], search) {
        case Abort(reason) =>
          return Playlists.Run(playlist, queries, Some(reason));
        case Skip =>
        case Add(t) =>
          playlist := playlist.(tracks := playlist.tracks + [t]);
      }
      assert Catalog.Then(done, st) == Catalog.Outcome(queries, playlist.tracks, None);
      i := i + 1;
    }
    assert Catalog.Then(Catalog.Outcome(queries, playlist.tracks, None), Catalog.Resolve([], search))
        == Catalog.Outcome(queries, playlist.tracks, None);
    run := Playlists.Run(playlist, queries, None);
  }

  /**
   One run of the script: scrape, then search. The playlist is created even
   when no submission yields a candidate or no candidate resolves.
   */
  method BuildPlaylist(community: string, date: Playlists.Date, subs: seq<string>,
                       search: string -> Catalog.SearchResult)
    returns (run: Playlists.Run)
    requires Playlists.Valid(date)
    ensures run.playlist.name == Playlists.Name(community, date)
    ensures Catalog.Outcome(run.queries, run.playlist.tracks, run.error)
         == Catalog.Resolve(Validator.Candidates(subs), search)
  {
    var scraped := TrackGrabber(subs);
    run := Search(community, date, scraped, search);
  }
}
