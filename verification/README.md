# spotty: title matching and track selection

spotty builds a playlist for one subreddit community. It reads the week's top
submissions and guesses an (artist, title) pair from each submission's text
with two regular expressions. It searches the music catalog for each pair and
appends the first hit to a playlist named `<community> - <date>`. This project
models that pipeline in Dafny and proves what it does. The repository has two
revisions of `PlaylistBuilder`, and both are modelled:

- `spotty.py` works in batch. `track_grabber` collects every candidate first.
  Then `search` creates the playlist and looks the candidates up one by one.
- `spotty/spotty.py` streams. `build_playlist_container` creates the playlist.
  Then `reddit_scrape` sends each submission to the `track_validator`
  coroutine, which sends each candidate to `add_tracks_to_playlist`.

Modules:

- `Text`: strings as `seq<char>` and the character classes `\d` and `\w`.
  It also holds literal occurrence (`HasAt`), the end of a line (`.` refuses
  only a line feed), and `Last`, the greatest index satisfying a predicate.
  `Last` is where a greedy `.+` settles after backtracking. Python's `str` of
  an integer is here too.
- `ArtistPattern` and `TitlePattern`: the two patterns under `re.match`
  semantics. Each module has two parts:
  - a declarative description: `Matches` gives every way to split the string
    that fits the pattern, and `Chosen` is the split the backtracking engine
    reports;
  - a scanner, `Match`, that finds the same group by looking for the last
    closing literal.
  Lemmas prove that the scanner and the declarative description agree.
- `Validator`: one submission to at most one `Candidate`, and a batch of
  submissions to its candidates in order. `FilterMap` is the generic
  filter-and-map it uses.
- `Catalog`: the query `artist:"A" title:"T"` and reading it back, plus one
  candidate's lookup against a search oracle. `Resolve` folds the lookups
  over a candidate list.
- `Playlists`: the date as `str(datetime.date)` renders it, and the playlist
  name.
- `BatchBuilder`: the methods of `spotty.py`.
- `StreamBuilder`: the coroutine pipeline of `spotty/spotty.py` as a single
  pass. `BothRevisions` proves both revisions produce the same playlist,
  the same queries and the same error.
- `Examples`: a worked run with three submissions, a catalog stub and a
  fixed date.

Behaviour the model takes from the code:

- A search that raises is not caught in either revision. The run stops
  there. Tracks already appended stay on the playlist, because both revisions
  append one track at a time rather than in bulk.
- The progress line reads `tracks[0].artists[0]` before the track is
  appended. A first hit with no artist therefore raises `IndexError` and stops
  the run (`Catalog.NoArtist`).
- Both revisions create the playlist before the first lookup. The playlist
  therefore exists, empty, when nothing resolves.

## Model

| member | source | states |
|---|---|---|
| ArtistPattern.Match | spotty/spotty.py:171-177 | a group exists only when the leading digit run has at most 5 digits and is followed by `" :: "`; the group starts right after it, begins with a word character, has at least 2 characters, holds no line feed and is followed by `" -"` |
| ArtistPattern.MatchesUsesDigitRun | spotty/spotty.py:171 | every match of `\d{0,5} :: ` uses the whole leading digit run, so a six-digit score can never match |
| ArtistPattern.MatchIsChosen | spotty/spotty.py:176-177 | the scanner reports span (k, e) exactly when that is the match the backtracking engine returns: most digits first, then the longest group |
| ArtistPattern.NoMatchIffNoParse | spotty.py:158-160 | the scanner finds nothing exactly when no split of the string fits the artist pattern |
| TitlePattern.Match | spotty/spotty.py:172-179 | a title group starts at position 5 or later, right after `" -- "` or `" - "`, begins with a word character, has at least 2 characters, holds no line feed and is followed by `" ["` |
| TitlePattern.SeparatorsExclusive | spotty/spotty.py:172 | `" -- "` and `" - "` never both fit at one prefix end, so the optional dash only ranks different prefix ends |
| TitlePattern.FindIsChosen | spotty/spotty.py:178-179 | the scan's prefix end, separator and group end form a match, and no match comes earlier in the engine's order (longest prefix, then `"--"`, then longest group) |
| TitlePattern.MatchIsChosen | spotty/spotty.py:178-179 | the scanner's span is group 1 of the match the engine reports, in both directions |
| TitlePattern.NoMatchIffNoParse | spotty.py:161-162 | the scanner finds nothing exactly when no split of the string fits the title pattern |
| Validator.Parse | spotty/spotty.py:176-180 | a candidate's artist and title each begin with a word character, have at least 2 characters and hold no line feed |
| Validator.ParseIffBothMatch | spotty.py:158-166 | a candidate is produced exactly when both patterns match; otherwise the submission is skipped |
| Validator.ParseSound | spotty/spotty.py:176-180 | the candidate's artist and title are group 1 of the matches Python's engine reports |
| Validator.ParseComplete | spotty.py:158-169 | whenever both reported groups exist, the candidate is exactly that pair |
| Validator.ScoreGate | spotty/spotty.py:171 | on a rendered submission `"<score> :: <title>"` the artist pattern matches only if the score is between 0 and 99999, and the group starts right after `" :: "` |
| Validator.Candidates | spotty.py:156-169 | exactly one candidate per submission that parses, in submission order: the j-th candidate is the parse of the j-th parsing submission |
| Validator.CandidatesInOrder | spotty.py:156-169 | one candidate per submission that both patterns match, in submission order, and none for any other submission |
| Validator.CandidatesAppend | spotty/spotty.py:174-180 | validating submissions one at a time yields the same candidates as validating the whole batch |
| Catalog.ReadQuery | spotty.py:188-189 | a query read back into a candidate renders to the same query |
| Catalog.Query | spotty/spotty.py:196-198 | the query is `artist:"` followed by the artist, and ends with a quote; its length is the two names' lengths plus 18 characters of literal text |
| Catalog.QueryRoundTrip | spotty/spotty.py:196-198 | the query `artist:"A" title:"T"` names its candidate: reading it back gives the candidate when the artist holds no quote |
| Catalog.QueryNotInjective | spotty/spotty.py:196-198 | the query is not escaped: two different candidates can share one query |
| Catalog.Lookup | spotty/spotty.py:199-202 | a track is added exactly when the search succeeds with at least one hit and that hit has an artist, and then the first hit; no hit skips; a search error or an artist-less hit stops the run |
| Catalog.Resolve | spotty.py:187-193 | at most one query per candidate and at most one track per query; when no lookup raises, the queries are every candidate's own query, in candidate order |
| Catalog.ResolveIsFirstHits | spotty.py:187-193 | the tracks added are the first hits of the candidates before the first failing lookup, in candidate order; the run's error is that lookup's error, or none |
| Catalog.ResolveQueriesEach | spotty.py:187-189 | one query per candidate, in order, up to and including the first failing lookup |
| Catalog.ResolveAppend | spotty/spotty.py:193-202 | resolving two lists one after the other is resolving their concatenation, unless the first stops the run |
| Playlists.ParseIso | spotty/spotty.py:215 | a string read as a date is a real calendar date whose `str` is that string |
| Playlists.IsoFormat | spotty/spotty.py:215 | `str(date)` is ten characters: digits, with `-` at positions 4 and 7 |
| Playlists.IsoRoundTrip | spotty/spotty.py:215 | every valid date survives `str(date)` (`YYYY-MM-DD`) and reading back |
| Playlists.SplitName | spotty.py:180-181 | a name split into community and date is rebuilt exactly by `community + " - " + str(date)` |
| Playlists.Name | spotty/spotty.py:214-215 | the name starts with the community followed by `" - "`, and ends with the date's ten-character `str` |
| Playlists.NameRoundTrip | spotty/spotty.py:214-215 | the playlist name determines its community and date |
| BatchBuilder.TrackGrabber | spotty.py:152-169 | the scraped list is exactly the candidates of the submissions, appended in order |
| BatchBuilder.Search | spotty.py:173-195 | the playlist carries the community-and-date name, and its tracks, queries and error are what resolving the scraped list yields |
| BatchBuilder.BuildPlaylist | spotty.py:243-246 | a whole batch run's playlist, queries and error are those of resolving the feed's candidates |
| StreamBuilder.Stream | spotty/spotty.py:157-202 | streaming keeps the playlist's name and sends no more queries than there are candidates; a submission either pattern rejects sends none |
| StreamBuilder.BuildPlaylist | spotty/spotty.py:249-253 | a streaming run's playlist carries the community-and-date name, and the run sends no more queries than there are candidates; a submission either pattern rejects sends none |
| StreamBuilder.StreamIsResolve | spotty/spotty.py:157-202 | streaming submissions through the two coroutines appends exactly what resolving the batch of their candidates yields |
| StreamBuilder.RevisionsAgree | spotty/spotty.py:249-253 | the streaming revision builds the same playlist, sends the same queries and stops on the same error as the batch resolution |
| StreamBuilder.BothRevisions | spotty.py:243-246 | the batch revision's run equals the streaming revision's run: the same named playlist, queries and error |
| StreamBuilder.EmptyFeedStillCreates | spotty/spotty.py:214-216 | a feed with no candidates still leaves an empty playlist with the community-and-date name |
| Examples.FeedCandidates | spotty/spotty.py:171-180 | `"12 :: The Band - A Song [2019]"`, `"not a track title"` and `"34 :: Other Artist -- Another Tune [Live]"` yield exactly ("The Band", "A Song") and ("Other Artist", "Another Tune") |
| Examples.StubResolves | spotty/spotty.py:195-202 | with no hit for the first candidate and hit `abc123` for the second, exactly `abc123` is added |
| Examples.ListenToThisName | spotty/spotty.py:214-215 | community `listentothis` on 2024-01-15 gives the name `listentothis - 2024-01-15` |
| Examples.ExampleRun | spotty/spotty.py:249-253 | the whole streaming run on those submissions and that stub leaves the playlist `listentothis - 2024-01-15` holding `abc123` alone |

## Left out

- The music-service session: login, the `threading.Event` login wait and the event loop (spotty/spotty.py:92-126, spotty.py:85-124). This is concurrency inside a foreign library.
- The Reddit connection and fetching, including the sleep of 60 seconds on status 429 or 5xx (spotty/spotty.py:128-162, spotty.py:126-150). This is network I/O. The fetched submissions are an input `seq<string>`.
- How the Reddit client renders a submission with `str(submission)`. Inputs are the rendered strings. `Validator.Render` (score, `" :: "`, title) is used only to state `Validator.ScoreGate`.
- Key-file location (`os_default`, `key_location_setup`), the click/argparse command line and the banner. These are environment and console plumbing.
- The `print` diagnostics. The one that reads `tracks[0].artists[0]` is modelled only for the error it raises.
- `datetime.date.today()`. The date is a parameter, as a `Playlists.Date`.
- The `coroutine` decorator and `send`/`close`. The pipeline is a fold over the submissions, and `close` ends it.
- Playlist creation and `add_tracks` failing. Both are assumed to succeed. `.load()` waits are part of the search oracle.
- `setup.py`, which is packaging metadata.
- Unicode `\w` and `\d`. Python 3 matches any Unicode letter or digit. `Text.IsWordChar` and `Text.IsDigit` accept ASCII only.
- The search oracle is a function, so the same query always gets the same answer. A catalog that answers differently over time is not modelled.
- Catalog.QueryRoundTrip: stated only for artists without a `"`, because the query is not escaped and `Catalog.QueryNotInjective` shows two candidates that share a query.
