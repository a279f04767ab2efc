# musicmate backend core in Dafny

This project models the server side of musicmate, a student dating app that matches people on their Spotify listening. The model covers:

- the **compatibility scorer**, which compares two music profiles;
- the **swipe ledger**, which turns reciprocated likes into matches, and the **match feed**, which ranks candidates by score;
- **music-profile building**, which counts genres into a bounded, count-ordered list;
- **shared playlists**: a track list, a membership table with owner and editor roles, the owner and member guard chains, automatic creation of a playlist for a new match seeded from the artists both users listen to, and the weekly recap;
- **chat**: messages, read and unread bookkeeping, paging, grouped unread counts, song search;
- the **account and token stores**: the university email gate, the simulated single sign-on, login, partial profile updates, and the Spotify token and profile upserts.

The database session is a class `Tables.Db`. It has one field per table: a sequence for a table in insertion order, and a map for the two tables keyed by a unique `user_id`. The crud functions and handlers that write to the database are methods with `modifies` clauses. Each such method is specified by a pure function of the old tables, which gives its response and its new tables. Lemmas then prove the route's promises about that function: guard order, idempotence, frame conditions and round trips. Pure queries and scoring are functions.

Modules follow the source files:

| module | file | models |
|---|---|---|
| `Base`, `Text`, `Sorting` | `base.dfy`, `text.dfy`, `sorting.dfy` | result and status values, sequence helpers, ASCII lower-casing, a stable descending sort (Python's `sorted(..., reverse=True)` and `Counter.most_common`) |
| `Music`, `Tables` | `music.dfy`, `tables.dfy` | profile records; one row datatype per table, the uniqueness constraints, and the `Db` session |
| `Compatibility` | `compatibility.dfy` | `services/compatibility.py` |
| `SpotifyService` | `spotify_service.dfy` | `services/spotify.py` (mock mode, rank mapping, `build_music_profile`) |
| `AuthService`, `AuthRoutes`, `UserStore` | `auth_service.dfy`, `auth_routes.dfy`, `user_store.dfy` | `services/auth.py`, `api/routes/auth.py`, `crud/user.py` |
| `MatchStore`, `MatchRoutes`, `Seeding` | `match_store.dfy`, `match_routes.dfy`, `seeding.dfy` | `crud/match.py`, `api/routes/match.py`, and the shared-artist seeding loop that both playlist creators run |
| `PlaylistStore`, `PlaylistRoutes` | `playlist_store.dfy`, `playlist_routes.dfy` | `crud/playlist.py`, `api/routes/playlist.py` |
| `MessageStore`, `ChatRoutes` | `message_store.dfy`, `chat_routes.dfy` | `crud/message.py`, `api/routes/chat.py` |
| `SpotifyStore` | `spotify_store.dfy` | `crud/spotify.py` |

Conventions:

- **Row ids.** The n-th row inserted into a table gets id n, as SQLite assigns ids to a table that is never deleted from. The users, matches, playlists, messages and recaps tables are never deleted from. Membership rows, which are deleted, have no id.
- **Time.** `now` is a parameter, in whole seconds since the epoch. A day number is `now / 86400`, and 1970-01-01 (day 0) was a Thursday.
- **Creation times.** Messages, matches and recaps store the `now` of the call that inserted them as `created_at`. An `order_by(created_at)` is a stable sort: rows with the same `created_at`, whose order SQL leaves open, keep their table order.
- **Errors.** Every HTTP error is a `Result` error carrying its status: 400, 401, 403, 404, 409, 422 or 500. A unique-constraint violation that the code does not catch is a 500 with no change to the table it concerns.
- **Randomness and cryptography.** Random choices are parameters, as a sequence of draws. Password hashing and verification are function parameters, `hash` and `verify`. An access token is represented by the user id it carries.
- **Mock mode.** The Spotify client id is a parameter of the handlers that depend on mock mode.

Behaviours of the code that a reader might not expect, all of which the model reproduces:

- **Score weights.** The score weights artist overlap, genre overlap and pattern similarity 40/40/20. The shared artists are divided by the larger of the two artist counts, not by their union, and the score has no rank term.
- **Repeat swipe.** A second swipe by the same user on the same target is rejected with 409, and the stored swipe is left as it was (`backend/app/api/routes/match.py:108-113`).
- **Mock-mode likes.** A like in mock mode is not always a match. The reverse like is inserted only when the target has no swipe on the actor. If the target already passed, the reverse check fails and no match is made (`MatchRoutes.MockLikeMatchesUnlessPassed`).
- **Recap renewal.** The weekly recap is generated once and then returned forever, even in later weeks (`PlaylistRoutes.RecapIsNotRenewed`).
- **Creating a group playlist.**
  - It ignores the request's `match_id`.
  - A member id listed twice makes the second `add_member` hit the unique constraint. That gives a 500 after the playlist, the owner row and the earlier editors were already committed, which the model reproduces.
- **Automatic playlists for a match.** The two creators seed differently.
  - The match handler seeds from the breakdown's shared artist names, which are looked up by id.
  - The playlist route seeds from the intersection of the two users' top-artist names.
  - A match of a user with themself makes the route fail with 500 once its second owner row is refused. By then the playlist and the first owner row are written.
- **Email domain.** The domain check also accepts a bare domain with no `@` at all (`AuthService.BareDomainPasses`).
- **Match detail.** A missing other user gives 500, because the code reads an attribute of `None`.

## Model

| member | source | states |
|---|---|---|
| `Compatibility.ArtistIds` | backend/app/services/compatibility.py:12-13 | the id set holds exactly the `spotify_id`s of the top artists |
| `Compatibility.GenreNames` | backend/app/services/compatibility.py:29-30 | the genre set holds exactly the genre names of the top genres |
| `Compatibility.Ratio` | backend/app/services/compatibility.py:25-34 | a count over a positive denominator is non-negative; it is at most 1 when the count is at most the denominator, 0 exactly when the count is 0, and 1 when they are equal |
| `Compatibility.ArtistOverlap` | backend/app/services/compatibility.py:19-26 | the number of shared ids over the larger id count (at least 1) lies in [0,1]; it is 0 exactly when no id is shared, and 1 when both id sets are equal and non-empty |
| `Compatibility.GenreOverlap` | backend/app/services/compatibility.py:29-34 | the Jaccard index of the genre sets lies in [0,1]; it is 0 exactly when no genre is shared, and 1 for equal non-empty sets |
| `Compatibility.CountSim` | backend/app/services/compatibility.py:40-45 | a count similarity is 1 for equal counts, and lies in [0,1] for non-negative counts |
| `Compatibility.PatternSim` | backend/app/services/compatibility.py:37-47 | pattern similarity is 1 when both artist totals and both genre totals agree, and lies in [0,1] for non-negative totals |
| `Compatibility.RawScore` | backend/app/services/compatibility.py:49-50 | the weighted sum of artist overlap, genre overlap and pattern similarity at 40/40/20; for profiles whose artist and genre totals are not negative it lies in [0,100], so the clamp leaves it unchanged |
| `Compatibility.Clamp` | backend/app/services/compatibility.py:50-51 | the clamped value lies in [0,100] and equals its input when the input is already in range |
| `Compatibility.RoundHalfEven` | backend/app/services/compatibility.py:50-51 | Python's `round`: the result is within 1/2 of the input, exact on integers, and even on a tie |
| `Compatibility.Score` | backend/app/services/compatibility.py:50-51 | the rounded score lies in 0..100 |
| `Compatibility.NameById` | backend/app/services/compatibility.py:16-23 | for a present id, the name returned belongs to an artist with that id |
| `Compatibility.Compute` | backend/app/services/compatibility.py:1-59 | the breakdown's score lies in 0..100, both overlaps lie in [0,1], and the shared genres are exactly the intersection of the two genre sets |
| `Compatibility.SharedNamesComeFromSharedIds` | backend/app/services/compatibility.py:16-23 | every shared artist name is the name of a shared id in one of the two profiles |
| `Compatibility.SharedArtistsIffSharedIds` | backend/app/services/compatibility.py:19-23 | the shared-artist list is empty exactly when no artist id is shared |
| `Compatibility.Symmetric` | backend/app/services/compatibility.py:25-51 | swapping the profiles leaves the score, both overlaps, the shared genres, the shared ids and the unrounded score unchanged |
| `Compatibility.RawScoreSymmetric` | backend/app/services/compatibility.py:25-51 | both overlaps, the unrounded score and the rounded score are symmetric in the two profiles |
| `Compatibility.ArtistOverlapSymmetric` | backend/app/services/compatibility.py:19-26 | artist overlap is symmetric |
| `Compatibility.GenreOverlapSymmetric` | backend/app/services/compatibility.py:29-34 | genre overlap is symmetric |
| `Compatibility.PatternSimSymmetric` | backend/app/services/compatibility.py:37-47 | pattern similarity is symmetric |
| `Compatibility.SharedNamesDependOnOrder` | backend/app/services/compatibility.py:16-23 | an artist shared by id but named differently is reported under the first profile's name, so the shared-name set is not symmetric |
| `Compatibility.IdentityIsSpotifyId` | backend/app/services/compatibility.py:12-26 | the artist overlap is 0 and no artist is shared exactly when no artist of one profile has the Spotify id of an artist of the other, whatever their names |
| `Compatibility.Identical` | backend/app/services/compatibility.py:25-51 | a profile with artists and genres, compared with itself, has both overlaps 1, pattern similarity 1 and score 100 |
| `Compatibility.EmptyProfiles` | backend/app/services/compatibility.py:25-51 | two empty profiles have both overlaps 0 and pattern similarity 1, so they score 20 |
| `Compatibility.ExampleArtists` | backend/app/services/compatibility.py:19-26 | a worked example: artists {x,y} against {y,z} overlap by 1/2, sharing the name "Y" |
| `Compatibility.ExampleGenres` | backend/app/services/compatibility.py:29-34 | a worked example: genres with one of three distinct names in common overlap by 1/3 |
| `Compatibility.ExampleScore` | backend/app/services/compatibility.py:50-51 | a worked example: that pair scores 53 |
| `Compatibility.Example` | backend/app/services/compatibility.py:53-59 | a worked example: the full breakdown for that pair |
| `SpotifyService.IsMockMode` | backend/app/services/spotify.py:11-12 | mock mode holds exactly when the client id is empty or the placeholder |
| `SpotifyService.MockModeCases` | backend/app/services/spotify.py:11-12 | worked examples: the empty id and the placeholder are mock mode; a real id is not |
| `SpotifyService.RankItems` | backend/app/services/spotify.py:156-165 | the i-th Spotify artist item maps to the i-th artist, ranked i+1 |
| `SpotifyService.RankPool` | backend/app/services/spotify.py:63-66 | the i-th sampled pool artist keeps its name, id and genres, has no image and is ranked i+1 |
| `SpotifyService.RanksAreOneToN` | backend/app/services/spotify.py:63-66 | ranks run 1..n in list order, and an item has no image URL exactly when it has no images |
| `SpotifyService.CountsOf` | backend/app/services/spotify.py:219-222 | each listed genre is paired with its number of occurrences |
| `SpotifyService.CounterItems` | backend/app/services/spotify.py:224-227 | reading a counter in key order pairs each key with its count |
| `SpotifyService.TallyItems` | backend/app/services/spotify.py:219-227 | the counter built from a genre list holds each distinct genre's occurrence count |
| `SpotifyService.CountGenres` | backend/app/services/spotify.py:219-222 | the loop extends the insertion-ordered counter and its key list exactly as if the genres had been counted along with the earlier ones |
| `SpotifyService.BuildMusicProfile` | backend/app/services/spotify.py:217-241 | the method's nested counting loops compute the profile function `Profile` |
| `SpotifyService.TopGenres` | backend/app/services/spotify.py:219-227 | `most_common(15)` of the genre counter; `TopGenresIsSortedTally`, `TopGenresLength`, `TopGenresCounts`, `TopGenresDistinct`, `TopGenresOrdered`, `TopGenresTiesInFirstSeenOrder` and `TopGenresAreMostCommon` state that it holds at most 15 distinct genres with their true counts, in descending count order with ties in first-seen order, and that no genre left out has a larger count than one kept |
| `SpotifyService.Profile` | backend/app/services/spotify.py:217-241 | the dict `build_music_profile` returns; `BuildMusicProfile` computes it with its loops, and `ProfileShape` states its fields |
| `SpotifyService.TopGenresIsSortedTally` | backend/app/services/spotify.py:224-227 | the top genres are the first 15 of a stable count-descending permutation of the tally |
| `SpotifyService.TopGenresLength` | backend/app/services/spotify.py:224-227 | there are min(15, number of distinct genres) top genres |
| `SpotifyService.TopGenresCounts` | backend/app/services/spotify.py:219-226 | every top genre occurs in the artists' genres, with its exact occurrence count |
| `SpotifyService.TopGenresDistinct` | backend/app/services/spotify.py:224-227 | the top genres are distinct |
| `SpotifyService.TopGenresOrdered` | backend/app/services/spotify.py:224-227 | the top genres are ordered by count, non-increasing |
| `SpotifyService.TopGenresTiesInFirstSeenOrder` | backend/app/services/spotify.py:219-227 | among equal counts the listed genres are a prefix of the tied genres in first-seen order |
| `SpotifyService.TopGenresAreMostCommon` | backend/app/services/spotify.py:224-227 | a genre left out occurs no more often than any listed one |
| `SpotifyService.ProfileShape` | backend/app/services/spotify.py:229-241 | the profile keeps the top artists and the recent tracks unchanged; its artist total is their number; its genre total is the number of distinct genres and at least the number listed; its top genre is the first entry, and is absent exactly when there are no genres; its average popularity is 0 |
| `SpotifyService.GenresMembers` | backend/app/services/spotify.py:219-222 | a genre is in the flattened list exactly when some artist has it |
| `UserStore.GetUserByEmail` | backend/app/crud/user.py:7-8 | a user found has that email; none is found exactly when no user has it |
| `UserStore.GetUserByEmailUnique` | backend/app/crud/user.py:7-8 | emails are unique, so looking up a user's email finds that user |
| `UserStore.GetUserById` | backend/app/crud/user.py:11-12 | a user found has that id; none is found exactly when no user has it |
| `UserStore.GetUserByIdPosition` | backend/app/crud/user.py:11-12 | users are found exactly for ids 1..n, the id-th row |
| `UserStore.NewUser` | backend/app/crud/user.py:28-40 | a new account is verified, stores the password's hash and not the password, and keeps the given email and id |
| `UserStore.CreateUser` | backend/app/crud/user.py:15-44 | a taken email is refused by the unique constraint with the table unchanged; otherwise exactly one new verified row is appended |
| `UserStore.Apply` | backend/app/crud/user.py:47-53 | a non-null update stores the value it carries in its field, and every other field keeps its value; a null update changes nothing; id, email, hash, student id and verification never change; a set field is never cleared |
| `UserStore.ApplyAll` | backend/app/crud/user.py:48-50 | the user after every entry of the dict in order; `UpdateUser` computes it with its loop, and `UpdateKeepsIdentity`, `NullsIgnored`, `UnnamedFieldsUnchanged`, `CannotClear` and `LastValueStored` state what it keeps and what it stores |
| `UserStore.UpdateUser` | backend/app/crud/user.py:47-53 | the method's loop applies the updates in order to that user's row, and no other row changes |
| `UserStore.UpdateKeepsIdentity` | backend/app/crud/user.py:47-53 | no sequence of updates changes the user's id, email, hash, student id or verification |
| `UserStore.NullsIgnored` | backend/app/crud/user.py:49 | updates that are all null leave the user unchanged |
| `UserStore.UnnamedFieldsUnchanged` | backend/app/crud/user.py:47-53 | a field no update names keeps its value |
| `UserStore.ApplyUnnamed` | backend/app/crud/user.py:50-51 | one update leaves every other field as it was |
| `UserStore.CannotClear` | backend/app/crud/user.py:49-51 | a field that has a value keeps some value after any updates |
| `UserStore.LastValueStored` | backend/app/crud/user.py:48-50 | for any field, a non-null value sent for it that no later entry overrides is the value the field holds after all the updates |
| `AuthService.LastAt` | backend/app/services/auth.py:40 | the position found is the last `@`, or -1 when there is none |
| `AuthService.LastAtUnique` | backend/app/services/auth.py:40 | any position with those properties is the one found |
| `AuthService.AfterLastAt` | backend/app/services/auth.py:40 | `split("@")[-1]` is the `@`-free suffix after the last `@`, or the whole string when there is none |
| `AuthService.ValidateEmailDomain` | backend/app/services/auth.py:39-41 | the lower-cased text after the last `@` is one of the allowed domains; `LocalPartIrrelevant`, `DomainCaseInsensitive` and `BareDomainPasses` state which addresses it accepts |
| `AuthService.AfterLastAtOfAddress` | backend/app/services/auth.py:40 | the domain of `local@domain` is `domain` |
| `AuthService.LocalPartIrrelevant` | backend/app/services/auth.py:39-41 | the local part does not affect the check, which accepts exactly when the lowercased domain is allowed |
| `AuthService.LowerAfterLastAt` | backend/app/services/auth.py:40 | splitting then lowercasing equals lowercasing then splitting |
| `AuthService.DomainCaseInsensitive` | backend/app/services/auth.py:39-41 | addresses equal up to case get the same answer |
| `AuthService.NoAtIsWholeDomain` | backend/app/services/auth.py:40 | a string without `@` is checked as a domain in its entirety |
| `AuthService.BareDomainPasses` | backend/app/services/auth.py:39-41 | the bare allowed domain passes the check |
| `AuthService.StudentId` | backend/app/services/auth.py:72 | the student id has seven digit characters |
| `AuthService.Pick` | backend/app/services/auth.py:73-75 | `random.choice` returns a member of the list |
| `AuthService.SsoAnswer` | backend/app/services/auth.py:70-76 | the answer echoes the email, has a year in 1..4, a seven-digit student id, and a listed course and faculty |
| `AuthService.SimulateSso` | backend/app/services/auth.py:44-76 | there is no answer exactly when the domain is disallowed |
| `AuthService.SsoCoversRange` | backend/app/services/auth.py:57-74 | every year 1..4 and every course occurs for some draws, so the bounds are tight |
| `AuthRoutes.SsoInitiate` | backend/app/api/routes/auth.py:26-44 | an answer is the simulated SSO answer for that email |
| `AuthRoutes.SsoInitiateOrder` | backend/app/api/routes/auth.py:29-44 | a disallowed domain gives 403 before an existing email gives 409; an answer exists exactly when both checks pass, and it echoes the email |
| `AuthRoutes.SsoCompleteSpec` | backend/app/api/routes/auth.py:48-78 | the answer and the users table of `sso_complete`: 403 for a domain that is not allowed, then 409 for a taken email, both with the table unchanged, otherwise the next id with one account appended; `SsoComplete` and `SsoCompleteOutcome` are stated against it |
| `AuthRoutes.SsoComplete` | backend/app/api/routes/auth.py:47-78 | the response and new users table are `SsoCompleteSpec` of the old table |
| `AuthRoutes.SsoCompleteOutcome` | backend/app/api/routes/auth.py:50-77 | 403 precedes 409; an account is created exactly when both checks pass, with the next id, that email, verified and storing the hash; a refusal changes nothing; emails stay unique |
| `AuthRoutes.AppendUserValid` | backend/app/crud/user.py:15-44 | appending an account with a fresh email and the next id keeps the users table well formed |
| `AuthRoutes.Login` | backend/app/api/routes/auth.py:81-91 | every failure is the same 401 |
| `AuthRoutes.LoginCases` | backend/app/api/routes/auth.py:81-91 | login succeeds exactly when the account with that email accepts the password, and returns that account's id |
| `AuthRoutes.SignUpThenLogin` | backend/app/api/routes/auth.py:47-91 | after a successful sign-up, logging in with the same password returns the new account |
| `AuthRoutes.UpdateMe` | backend/app/api/routes/auth.py:100-114 | an empty update is a 400 with the user unchanged; otherwise the updates are applied to the caller's row only |
| `MatchStore.GetSwipe` | backend/app/crud/match.py:17-21 | a swipe found is for that ordered pair; none is found exactly when the pair has no row |
| `MatchStore.GetSwipeUnique` | backend/app/crud/match.py:17-21 | with one row per ordered pair, looking up a row's pair finds that row |
| `MatchStore.SwipeDirection` | backend/app/crud/match.py:17-21 | after a swipe by a user on another, a lookup for that ordered pair finds a row, while a lookup for the reverse pair gives what it gave before |
| `MatchStore.CheckMutualLike` | backend/app/crud/match.py:24-30 | the check holds exactly when the target has a like row for the user |
| `MatchStore.PassIsNotMutual` | backend/app/crud/match.py:24-30 | under the unique constraint on swipes, a target who passed on the user is never found to have liked them |
| `MatchStore.CreateSwipe` | backend/app/crud/match.py:9-14 | exactly one row for the pair is appended when the pair has none; otherwise the unique constraint refuses it and nothing changes |
| `MatchStore.CreateMatch` | backend/app/crud/match.py:33-43 | one match with the next id, the users as given and `created_at` of now is appended, unconditionally |
| `MatchStore.MatchesAreNotDeduplicated` | backend/app/crud/match.py:33-43 | calling `create_match` for a pair that already has a match leaves two distinct entries of the match table for that pair |
| `MatchStore.GetMatches` | backend/app/crud/match.py:46-49 | exactly the matches involving the user are returned, ordered by `created_at` newest first; among matches with equal `created_at` the table order is kept |
| `MatchStore.GetMatchesNewestFirst` | backend/app/crud/match.py:46-49 | the matches are newest first by `created_at`; with ids assigned in insertion order each one is a row id and no id is listed twice |
| `MatchStore.GetMatchById` | backend/app/crud/match.py:52-53 | a match found has that id; none is found exactly when no match has it |
| `MatchStore.GetMatchByIdPosition` | backend/app/crud/match.py:52-53 | matches are found exactly for ids 1..n, the id-th row |
| `MatchStore.GetSwipedUserIds` | backend/app/crud/match.py:56-58 | the set holds exactly the users the user has swiped on |
| `MatchStore.FalsyFiltersIgnored` | backend/app/crud/match.py:78-83 | None, "" and 0 filters let every user through |
| `MatchStore.GetCandidates` | backend/app/crud/match.py:61-85 | candidates are exactly the users with a profile who are not the requester, have not been swiped on by the requester, and meet every truthy filter |
| `MatchStore.SwipedOnMeStillCandidate` | backend/app/crud/match.py:68-75 | a swipe of either action by another user on the requester leaves the requester's candidates unchanged: only the requester's own swipes exclude anyone |
| `MatchRoutes.Visible` | backend/app/api/routes/match.py:72-74 | course, year and faculty are shown exactly when their flag is set, and hidden otherwise |
| `MatchRoutes.ArtistNames` | backend/app/api/routes/match.py:67 | the names of the artists, in order |
| `MatchRoutes.TopArtistNames` | backend/app/api/routes/match.py:67 | the first min(5, n) artist names, in order |
| `MatchRoutes.EntriesFromCandidates` | backend/app/api/routes/match.py:49-83 | every feed entry is built from a candidate with a profile |
| `MatchRoutes.EntriesComplete` | backend/app/api/routes/match.py:49-83 | every candidate with a profile has an entry |
| `MatchRoutes.EntriesStep` | backend/app/api/routes/match.py:49-83 | one loop step appends an entry exactly for a candidate with a profile |
| `MatchRoutes.Feed` | backend/app/api/routes/match.py:31-86 | 400 without the caller's own profile, otherwise one entry per candidate with a profile, sorted by score; `FeedNeedsProfile`, `FeedSorted`, `FeedOnlyEligible` and `FeedComplete` state its properties |
| `MatchRoutes.MatchFeed` | backend/app/api/routes/match.py:30-86 | the method's loop and sort compute the feed function |
| `MatchRoutes.FeedNeedsProfile` | backend/app/api/routes/match.py:39-44 | the feed fails, with 400, exactly when the requester has no profile |
| `MatchRoutes.FeedSorted` | backend/app/api/routes/match.py:85 | the feed is a permutation of the entries, sorted by score non-increasing, and stable on ties |
| `MatchRoutes.FeedOnlyEligible` | backend/app/api/routes/match.py:49-83 | every entry is for an eligible, unswiped user with a profile, with masked fields |
| `MatchRoutes.CandidateEligible` | backend/app/crud/match.py:61-85 | a candidate is eligible |
| `MatchRoutes.FeedComplete` | backend/app/api/routes/match.py:49-85 | every eligible user with a profile appears in the feed |
| `MatchRoutes.MatchSeedsShape` | backend/app/api/routes/match.py:253-270 | seeds are only by shared artists, stamped by the actor, with distinct ids: the actor's recent tracks first, then the target's new ones |
| `MatchRoutes.AutoPlaylist` | backend/app/api/routes/match.py:237-284 | the playlists and members after `_auto_create_playlist`: unchanged when the match already has a playlist or the other user is missing, otherwise one match playlist seeded from the breakdown's shared artists and an owner row for each user; `AutoPlaylistIdempotent` and `AutoPlaylistOwners` state its properties |
| `MatchRoutes.AutoPlaylistIdempotent` | backend/app/api/routes/match.py:241-243 | a second automatic creation for the same match changes nothing |
| `MatchRoutes.AutoPlaylistOwners` | backend/app/api/routes/match.py:237-284 | a playlist is created exactly when the match has none and the other user exists; it is the next playlist, holds the seeds, and both users own it |
| `MatchRoutes.OwnerRows` | backend/app/api/routes/match.py:283-284 | after the two owner rows, both users are found as owners |
| `MatchRoutes.AutoCreatePlaylist` | backend/app/api/routes/match.py:237-284 | the method's seeding loop and inserts compute the automatic-playlist function |
| `MatchRoutes.InsertMatchPlaylist` | backend/app/api/routes/match.py:273-284 | exactly the playlist row and the two owner rows are appended |
| `MatchRoutes.ParseAction` | backend/app/api/routes/match.py:96-100 | "like" and "pass" are the only accepted actions |
| `MatchRoutes.SwipeGuard` | backend/app/api/routes/match.py:96-113 | the three guards of `swipe` in their order: 400 for a bad action, 400 for a swipe on oneself, 409 for a repeat; `SwipeGuardOrder` states each case and when it passes |
| `MatchRoutes.SwipeGuardOrder` | backend/app/api/routes/match.py:96-113 | a bad action gives 400, then a self-swipe gives 400, then a repeat gives 409; the swipe is accepted exactly when all three pass |
| `MatchRoutes.SwipeSpec` | backend/app/api/routes/match.py:89-158 | the answer and the tables after `swipe`: a guard error changes nothing; otherwise the swipe row, in mock mode the reciprocal like, and a match with its automatic playlist exactly when the target has liked the actor; `DoSwipe`, `SwipeOutcome`, `PassNeverMatches`, `LikeMatchesIffReciprocated` and `MockLikeMatchesUnlessPassed` are stated against it |
| `MatchRoutes.RecordSwipe` | backend/app/api/routes/match.py:115-121 | the swipe, plus the reverse like in mock mode, are appended as the swipes function says |
| `MatchRoutes.RecordMatch` | backend/app/api/routes/match.py:126-152 | one scored match is appended, then the automatic playlist is made |
| `MatchRoutes.DoSwipe` | backend/app/api/routes/match.py:89-158 | the response and new tables are `SwipeSpec` of the old tables |
| `MatchRoutes.SwipeOutcome` | backend/app/api/routes/match.py:96-158 | a refused swipe changes nothing; an accepted one records the swipes, and it makes a match with the next id exactly when the pair matched, leaving the matches and playlists unchanged otherwise |
| `MatchRoutes.PassNeverMatches` | backend/app/api/routes/match.py:126 | a pass never matches, and only the pass is recorded |
| `MatchRoutes.LikeMatchesIffReciprocated` | backend/app/api/routes/match.py:126 | outside mock mode a like matches exactly when the target already liked the actor |
| `MatchRoutes.MockLikeMatchesUnlessPassed` | backend/app/api/routes/match.py:117-126 | in mock mode a like matches exactly when the target has not passed on the actor |
| `MatchRoutes.MatchScoreCases` | backend/app/api/routes/match.py:130-145 | a missing profile gives score 0 and no breakdown; otherwise there is a breakdown and the score lies in 0..100 |
| `MatchRoutes.OtherIdIsTheOtherParticipant` | backend/app/api/routes/match.py:171 | the other id is a participant, and differs from the caller unless the match is with oneself |
| `MatchRoutes.ViewsFromMatches` | backend/app/api/routes/match.py:161-196 | every listed view is built from a match whose other user exists |
| `MatchRoutes.ViewsComplete` | backend/app/api/routes/match.py:173-174 | every match whose other user exists is listed |
| `MatchRoutes.ListMatches` | backend/app/api/routes/match.py:161-196 | the method's loop lists the views of the caller's matches |
| `MatchRoutes.MatchDetail` | backend/app/api/routes/match.py:200-234 | 404 for an unknown match, 403 for a non-participant, 500 when the other user is missing, otherwise the masked view of the match; `MatchDetailGuards`, `DetailOfMatch` and `ListingAgreesWithDetail` state its cases |
| `MatchRoutes.MatchDetailGuards` | backend/app/api/routes/match.py:199-234 | 404 exactly when no match has the id; 403 only for a match the caller is not in; a result has the requested id |
| `MatchRoutes.ListingAgreesWithDetail` | backend/app/api/routes/match.py:161-234 | every listed view is what the detail route returns for its id |
| `MatchRoutes.DetailOfMatch` | backend/app/api/routes/match.py:199-234 | the detail of a match the caller is in is its view |
| `MatchRoutes.ListingMasked` | backend/app/api/routes/match.py:182-184 | every listed user is shown through the visibility mask |
| `Seeding.SeedsFrom` | backend/app/api/routes/match.py:253-270 | seeds are distinct, by a listed artist, not already seen, and taken from the recent tracks; every such track's id is seeded |
| `Seeding.Seeds` | backend/app/api/routes/match.py:253-270 | the seeding loop started with no seen id; it inherits the contract of `SeedsFrom`, and `SeedTracks` and `SeedsConcat` are stated against it |
| `Seeding.SeedTracks` | backend/app/api/routes/playlist.py:302-323 | the method's loop over `seen_ids` computes the seed function |
| `Seeding.SeedsConcat` | backend/app/api/routes/match.py:253-270 | seeding two lists is seeding the first, then the second with the first's ids marked seen |
| `Sorting.SortDescCorrect` | backend/app/api/routes/match.py:85 | the sort is a permutation, non-increasing by key, and stable: each key's elements keep their order |
| `Sorting.MostCommon` | backend/app/services/spotify.py:224-227 | `most_common(n)` returns min(n, length) entries |
| `Text.LowerChar` | backend/app/services/auth.py:40 | ASCII lower-casing maps A..Z to a..z and leaves everything else |
| `Text.Lower` | backend/app/api/routes/chat.py:139 | lower-casing acts character by character and keeps the length |
| `Text.LowerIdempotent` | backend/app/api/routes/chat.py:139 | lower-casing twice is lower-casing once |
| `PlaylistStore.GetPlaylist` | backend/app/crud/playlist.py:31-35 | only active playlists with that id are found; none exactly when there is none |
| `PlaylistStore.GetPlaylistPosition` | backend/app/crud/playlist.py:31-35 | a playlist is found exactly for an id 1..n whose row is active, and it is that row |
| `PlaylistStore.GetPlaylistByMatch` | backend/app/crud/playlist.py:105-109 | only an active playlist for that match is found; none exactly when there is none |
| `PlaylistStore.GetMember` | backend/app/crud/playlist.py:56-60 | a row found is for that playlist and user; none exactly when there is none |
| `PlaylistStore.GetMemberUnique` | backend/app/crud/playlist.py:56-60 | with one row per playlist and user, looking up a row's pair finds it |
| `PlaylistStore.GetMembers` | backend/app/crud/playlist.py:72-75 | exactly the playlist's membership rows |
| `PlaylistStore.GetUserPlaylists` | backend/app/crud/playlist.py:38-45 | the active playlists the user is a member of, most recently updated first; `UserPlaylistsCorrect` states both |
| `PlaylistStore.UserPlaylistsCorrect` | backend/app/crud/playlist.py:38-45 | the user's playlists are exactly the active ones they belong to, most recently updated first |
| `PlaylistStore.WithTrack` | backend/app/crud/playlist.py:78-90 | one stamped track is appended at the end, the earlier tracks are kept, and only the tracks and `updated_at` change |
| `PlaylistStore.WithoutTrack` | backend/app/crud/playlist.py:93-102 | exactly the tracks with another id are kept |
| `PlaylistStore.WithoutTrackIdempotent` | backend/app/crud/playlist.py:93-102 | removing a track twice is removing it once |
| `PlaylistStore.CreatePlaylist` | backend/app/crud/playlist.py:8-28 | one active playlist with the next id is appended |
| `PlaylistStore.AddMember` | backend/app/crud/playlist.py:48-53 | one row is appended when the pair has none; otherwise the unique constraint refuses it and nothing changes |
| `PlaylistStore.RemoveAtValid` | backend/app/crud/playlist.py:63-69 | deleting a row keeps the membership table well formed |
| `PlaylistStore.RemoveMember` | backend/app/crud/playlist.py:63-69 | False with no change when there is no such row; otherwise exactly that row is deleted; afterwards the user is not a member |
| `PlaylistStore.AddTrack` | backend/app/crud/playlist.py:78-90 | a missing playlist gives None with no change; otherwise only that playlist gets the track |
| `PlaylistStore.RemoveTrack` | backend/app/crud/playlist.py:93-102 | a missing playlist gives None with no change; otherwise only that playlist loses the tracks with that id |
| `PlaylistStore.Weekday` | backend/app/crud/playlist.py:117-118 | the weekday lies in 0..6 |
| `PlaylistStore.WeekStart` | backend/app/crud/playlist.py:117-118 | the week starts on the Monday on or before today's date |
| `PlaylistStore.WeekTracksMembers` | backend/app/crud/playlist.py:124-134 | this week's tracks are exactly the tracks with a parseable date on or after the week start |
| `PlaylistStore.Adders` | backend/app/crud/playlist.py:131-132 | the adder of each track, in order |
| `PlaylistStore.WeekRows` | backend/app/crud/playlist.py:142 | each week track's name and artist, in order |
| `PlaylistStore.MaxKey` | backend/app/crud/playlist.py:136 | `max(..., key=...)` returns a key of maximal count, the first such key |
| `PlaylistStore.TopContributor` | backend/app/crud/playlist.py:123-136 | none without a track this week, otherwise the adder counted first among those with the most tracks; `RecapTopContributor` states it |
| `PlaylistStore.RecapOf` | backend/app/crud/playlist.py:117-143 | the `recap_data` of a track list at a time; `RecapCounts`, `RecapContributorsSum`, `RecapTopContributor` and `RecapCountsToday` state its fields |
| `PlaylistStore.RecapCounts` | backend/app/crud/playlist.py:117-143 | the recap counts this week's tracks and the total number of tracks |
| `PlaylistStore.RecapContributorsSum` | backend/app/crud/playlist.py:124-143 | the contributor counts sum to the number of tracks added |
| `PlaylistStore.RecapTopContributor` | backend/app/crud/playlist.py:136 | there is no top contributor exactly when nothing was added, and otherwise it has a maximal count |
| `PlaylistStore.RecapCountsToday` | backend/app/crud/playlist.py:117-136 | a track added now counts, and its adder is the top contributor |
| `PlaylistStore.WeekTracksSnoc` | backend/app/crud/playlist.py:124-134 | one loop step keeps the track exactly when it was added this week |
| `PlaylistStore.AddersSnoc` | backend/app/crud/playlist.py:131-132 | one more week track adds its adder |
| `PlaylistStore.CountWeek` | backend/app/crud/playlist.py:124-134 | the method's loop collects this week's tracks and tallies their adders in first-seen order |
| `PlaylistStore.ComputeRecap` | backend/app/crud/playlist.py:115-142 | the `recap_data` built from the loop's results is `RecapOf` the tracks at that time |
| `PlaylistStore.GenerateWeeklyRecap` | backend/app/crud/playlist.py:112-153 | a missing playlist gives None with no change; otherwise one recap of its tracks for this week, created now, is appended |
| `PlaylistStore.GetLatestRecap` | backend/app/crud/playlist.py:156-159 | the recap found is one of the playlist's recaps; none exactly when the playlist has none |
| `PlaylistStore.LatestRecapNewest` | backend/app/crud/playlist.py:156-159 | no recap of the playlist has a later `created_at` than the one found |
| `PlaylistRoutes.MemberViews` | backend/app/api/routes/playlist.py:40-49 | one entry per membership row whose user exists, in row order; `MemberViewsFromRows` and `MemberViewsComplete` state both directions |
| `PlaylistRoutes.MemberViewsFromRows` | backend/app/api/routes/playlist.py:41-49 | every member view comes from a row whose user exists |
| `PlaylistRoutes.MemberViewsComplete` | backend/app/api/routes/playlist.py:41-49 | every row whose user exists has a view |
| `PlaylistRoutes.BuildPlaylistResponse` | backend/app/api/routes/playlist.py:39-66 | the response keeps the playlist, counts its tracks, and lists and counts its members' views |
| `PlaylistRoutes.ResponseMembers` | backend/app/api/routes/playlist.py:39-66 | a view is listed exactly when a row of that playlist with an existing user produces it |
| `PlaylistRoutes.GetPlaylistDetail` | backend/app/api/routes/playlist.py:92-107 | a guard failure (404, then 403) is returned as is; otherwise the response is the playlist with its track count and its members' views |
| `PlaylistRoutes.ListPlaylists` | backend/app/api/routes/playlist.py:69-89 | one summary per playlist of the user, in order, with its track and member counts |
| `PlaylistRoutes.MemberGuard` | backend/app/api/routes/playlist.py:99-105 | 404 without an active playlist, then 403 for a caller who is not a member; `MemberGuardCases` states each case |
| `PlaylistRoutes.MemberGuardCases` | backend/app/api/routes/playlist.py:99-105 | 404 exactly when there is no active playlist; 403 exactly when there is one and the caller is not a member |
| `PlaylistRoutes.OwnerGuard` | backend/app/api/routes/playlist.py:193-202 | 404, then 400 for a playlist that is not a group playlist, then 403 unless the caller is an owner; `OwnerGuardCases` states each case |
| `PlaylistRoutes.OwnerGuardCases` | backend/app/api/routes/playlist.py:194-202 | 404 for no playlist, 400 for a match playlist; it passes exactly for a group playlist the caller owns |
| `PlaylistRoutes.AddTrackSpec` | backend/app/api/routes/playlist.py:147-162 | the member guard, then 409 for a Spotify id already listed, otherwise the track appended with the caller and the time, and the playlists unchanged on every error; `AddPlaylistTrack` and `AddTrackThenDuplicate` are stated against it |
| `PlaylistRoutes.AddPlaylistTrack` | backend/app/api/routes/playlist.py:139-162 | the response and new playlists are `AddTrackSpec` of the old table |
| `PlaylistRoutes.AddTrackThenDuplicate` | backend/app/api/routes/playlist.py:147-162 | an accepted track is appended to that playlist only; adding it again is a 409 that changes nothing |
| `PlaylistRoutes.RemoveTrackSpec` | backend/app/api/routes/playlist.py:173-182 | the member guard, then every track with the id removed and the playlist stamped; `RemovePlaylistTrack` and `RemoveTrackTwice` are stated against it |
| `PlaylistRoutes.RemovePlaylistTrack` | backend/app/api/routes/playlist.py:165-182 | the response and new playlists are `RemoveTrackSpec` of the old table |
| `PlaylistRoutes.RemoveTrackTwice` | backend/app/api/routes/playlist.py:165-182 | removing a track a second time succeeds and leaves the same tracks |
| `PlaylistRoutes.AddMemberGuard` | backend/app/api/routes/playlist.py:193-210 | the owner guard, then 409 for a target who is already a member, then 404 for an unknown target; `AddMemberGuardOrder` states each case |
| `PlaylistRoutes.AddPlaylistMember` | backend/app/api/routes/playlist.py:185-213 | a refusal changes nothing; an accepted target is appended as an editor |
| `PlaylistRoutes.AddMemberGuardOrder` | backend/app/api/routes/playlist.py:194-210 | owner-guard errors come first, then 409 for an existing member, then 404 for a missing user; an accepted target becomes an editor |
| `PlaylistRoutes.RemoveMemberGuard` | backend/app/api/routes/playlist.py:224-240 | the owner guard, then 400 for removing oneself, then 404 for a target who is not a member; `RemoveMemberGuardOrder` states each case |
| `PlaylistRoutes.RemoveAtKeepsOthers` | backend/app/crud/playlist.py:63-69 | deleting a row removes exactly that playlist-and-user pair |
| `PlaylistRoutes.RemovePlaylistMember` | backend/app/api/routes/playlist.py:216-242 | a refusal changes nothing; otherwise exactly the target's row goes, and the caller's own row is kept |
| `PlaylistRoutes.RemovalKeepsOwner` | backend/app/api/routes/playlist.py:235-242 | deleting another user's row keeps the caller's row |
| `PlaylistRoutes.RemoveMemberGuardOrder` | backend/app/api/routes/playlist.py:225-240 | owner-guard errors come first, then 400 for removing yourself; it succeeds exactly when the target is a member |
| `PlaylistRoutes.EditorRowsSound` | backend/app/api/routes/playlist.py:129-134 | every editor row added is for a listed, existing id other than the creator, not seen before |
| `PlaylistRoutes.EditorRowsDistinct` | backend/app/api/routes/playlist.py:129-134 | the editor rows are for distinct users |
| `PlaylistRoutes.EditorRowsComplete` | backend/app/api/routes/playlist.py:129-134 | when the loop completes, every eligible listed id has an editor row |
| `PlaylistRoutes.EditorRowsCompleteIff` | backend/app/api/routes/playlist.py:129-134 | the loop runs to the end exactly when no eligible id is listed twice (an id already seen counts as listed) |
| `PlaylistRoutes.RepeatedEditorFails` | backend/app/api/routes/playlist.py:129-134 | any eligible id listed twice stops the loop at the unique constraint, so the handler answers 500 |
| `PlaylistRoutes.CreateSpec` | backend/app/api/routes/playlist.py:111-136 | a group playlist appended, the creator as owner, then an editor row for each listed existing user other than the creator, and a 500 after the committed rows when an id repeats; `CreateNewPlaylist`, `NewPlaylistMember`, `CreatedMembership` and `RepeatedEditorFails` are stated against it |
| `PlaylistRoutes.CreateNewPlaylist` | backend/app/api/routes/playlist.py:110-136 | the response and new tables are `CreateSpec` of the old tables |
| `PlaylistRoutes.AddEditors` | backend/app/api/routes/playlist.py:129-134 | the loop appends exactly the editor rows that `EditorRows` lists, and reports whether it completed |
| `PlaylistRoutes.NewPlaylistMember` | backend/app/api/routes/playlist.py:117-134 | in a new playlist, only the creator and the ids added are members |
| `PlaylistRoutes.CreatedMembership` | backend/app/api/routes/playlist.py:110-136 | a new group playlist has no tracks, and the creator is its sole owner; every eligible listed id is an editor, and every other member is such an editor |
| `PlaylistRoutes.RecapSpec` | backend/app/api/routes/playlist.py:252-273 | the member guard, then the latest stored recap when there is one, otherwise a new recap appended; `GetRecap`, `RecapGeneratedOnce` and `RecapIsNotRenewed` are stated against it |
| `PlaylistRoutes.GetRecap` | backend/app/api/routes/playlist.py:245-273 | the response and new recaps are `RecapSpec` of the old table: the latest recap, or a new one when there is none |
| `PlaylistRoutes.RecapGeneratedOnce` | backend/app/api/routes/playlist.py:260-262 | a recap is generated exactly when none exists, and asking again returns the same recap with no change |
| `PlaylistRoutes.RecapIsNotRenewed` | backend/app/api/routes/playlist.py:260-262 | a week or more later the first week's recap is still returned |
| `PlaylistRoutes.RouteSeedsShape` | backend/app/api/routes/playlist.py:302-323 | seeds are by artists in both top-artist name sets and have distinct ids, the caller's recent tracks first |
| `PlaylistRoutes.AutoSpec` | backend/app/api/routes/playlist.py:283-339 | 404 for an unknown match, 403 for a non-participant, the existing playlist with no change, otherwise `AutoCreate`; `AutoSpecIdempotent`, `AutoSpecGuards` and `AutoSpecCreated` state its cases |
| `PlaylistRoutes.AutoCreate` | backend/app/api/routes/playlist.py:295-339 | 500 with nothing written when the other user is missing; otherwise a match playlist seeded from the shared top-artist names and an owner row for each user, and for a match of a user with themself a 500 after the playlist and one owner row; `AutoSpecCreated` states it |
| `PlaylistRoutes.AutoCreateMatchPlaylist` | backend/app/api/routes/playlist.py:276-339 | the response and new tables are `AutoSpec` of the old tables |
| `PlaylistRoutes.CreateForMatch` | backend/app/api/routes/playlist.py:295-339 | the creation part computes the creation function, including the 500 paths |
| `PlaylistRoutes.InsertSelfMatchPlaylist` | backend/app/api/routes/playlist.py:326-337 | for a match with oneself, the playlist and one owner row are written before the second owner row is refused |
| `PlaylistRoutes.AutoSpecIdempotent` | backend/app/api/routes/playlist.py:291-293 | a second call returns the same playlist and changes nothing |
| `PlaylistRoutes.AutoSpecGuards` | backend/app/api/routes/playlist.py:283-293 | 404 exactly for a missing match, 403 exactly for a non-participant, with no change; an existing playlist is returned unchanged |
| `PlaylistRoutes.AutoSpecCreated` | backend/app/api/routes/playlist.py:295-337 | a created playlist is the next match playlist, holds the seeds, and both participants own it |
| `MessageStore.CreateMessage` | backend/app/crud/message.py:7-25 | one unread message with the next id is appended |
| `MessageStore.Conversation` | backend/app/crud/message.py:28-36 | the conversation is a permutation of the match's messages, ascending in `created_at`, with ties in table order |
| `MessageStore.ConversationMembers` | backend/app/crud/message.py:28-36 | the conversation holds exactly the match's messages |
| `MessageStore.Page` | backend/app/crud/message.py:33-34 | `OFFSET`/`LIMIT`: a contiguous window from the offset, of length min(limit, rest), or the whole rest for a negative limit |
| `MessageStore.GetMessages` | backend/app/crud/message.py:28-36 | a page of the conversation; `GetMessagesPage` states its contents, order and size |
| `MessageStore.GetMessagesPage` | backend/app/crud/message.py:28-36 | a page holds only the match's messages, ascending; it has at most `limit` of them and is the conversation's slice at the offset |
| `MessageStore.PageOfConversation` | backend/app/crud/message.py:31-35 | a window of an ascending conversation keeps its members and its order |
| `MessageStore.PageWindow` | backend/app/crud/message.py:33-34 | the page is the slice at the offset, is empty beyond the end, and is bounded by the limit |
| `MessageStore.WindowKeepsOrder` | backend/app/crud/message.py:32-35 | a contiguous window keeps membership and ascending order |
| `MessageStore.FirstPageIsWholeConversation` | backend/app/crud/message.py:28-36 | a first page whose limit covers every message is the whole conversation |
| `MessageStore.CreatedMessageListed` | backend/app/crud/message.py:7-36 | a sent message appears in its conversation |
| `MessageStore.MarkedRead` | backend/app/crud/message.py:39-50 | marking keeps the number of messages |
| `MessageStore.MarkMessagesRead` | backend/app/crud/message.py:39-50 | the method returns the number of messages it marks and marks exactly them |
| `MessageStore.MarkedReadEffect` | backend/app/crud/message.py:43-49 | exactly the unread messages of the match from other senders become read; nothing else changes |
| `MessageStore.CountSame` | backend/app/crud/message.py:43-50 | counts agree on pointwise-equivalent rows |
| `MessageStore.MarkedReadClears` | backend/app/crud/message.py:39-50 | afterwards the match has no unread messages, and other matches keep their counts |
| `MessageStore.MarkTwiceReturnsZero` | backend/app/crud/message.py:39-50 | marking again finds nothing and changes nothing |
| `MessageStore.CreatedMessageUnread` | backend/app/crud/message.py:7-25 | a new message adds one unread message for the other participant and none for the sender |
| `MessageStore.GetUnreadCount` | backend/app/crud/message.py:53-67 | an empty id list gives `{}`; the keys are exactly the listed matches with unread messages, each mapped to its positive count |
| `MessageStore.SumOverAgree` | backend/app/api/routes/chat.py:123 | sums over the same keys of agreeing maps are equal |
| `MessageStore.UnreadInSnoc` | backend/app/api/routes/chat.py:123 | adding a match adds its unread count to the total |
| `MessageStore.UnreadCountSum` | backend/app/crud/message.py:53-67 | over distinct match ids, the sum of the grouped counts is the total number of unread messages |
| `ChatRoutes.VerifyMatchAccess` | backend/app/api/routes/chat.py:43-50 | access is granted only to a participant of an existing match with that id |
| `ChatRoutes.VerifyMatchAccessCases` | backend/app/api/routes/chat.py:43-50 | 404 exactly for a missing match, 403 exactly for a non-participant, granted exactly otherwise |
| `ChatRoutes.GetConversationAsWritten` | backend/app/api/routes/chat.py:53-64 | a limit above 100 or a negative offset is a 422 (as written, no lower bound on the limit) |
| `ChatRoutes.NegativeLimitIsUnbounded` | backend/app/api/routes/chat.py:56 | as written, `limit=-1` returns more than 100 messages |
| `ChatRoutes.GetConversation` | backend/app/api/routes/chat.py:54-64 | the handler with `limit` bounded to [0,100]: 422 outside the bounds or for a negative offset, then the access guard, then the page; `ConversationBounded` and `ConversationCorrectionIsNarrow` state its properties |
| `ChatRoutes.ConversationBounded` | backend/app/api/routes/chat.py:53-64 | with `0 <= limit <= 100` enforced, a page never exceeds 100 messages and holds only the match's messages, ascending; anything else is a 422 |
| `ChatRoutes.ConversationCorrectionIsNarrow` | backend/app/api/routes/chat.py:56 | the correction changes only negative limits |
| `ChatRoutes.SendSpec` | backend/app/api/routes/chat.py:68-99 | the access guard, 400 for an unknown type, 400 for a song share without song data, otherwise one unread message appended; `SendMessage`, `SendOutcome` and `SendKeepsWellFormed` are stated against it |
| `ChatRoutes.SendMessage` | backend/app/api/routes/chat.py:67-99 | the response and new messages are `SendSpec` of the old table |
| `ChatRoutes.SendOutcome` | backend/app/api/routes/chat.py:67-99 | a message is sent exactly for a participant, a known type, and song data when sharing a song; it is appended unread, and a refusal changes nothing |
| `ChatRoutes.SendKeepsWellFormed` | backend/app/api/routes/chat.py:77-87 | every stored message keeps a known type, and a song share keeps its song data |
| `ChatRoutes.ReadSpec` | backend/app/api/routes/chat.py:103-111 | the access guard, then the number of the other participant's unread messages, which are marked read; `ReadMessages` and `ReadTwice` are stated against it |
| `ChatRoutes.ReadMessages` | backend/app/api/routes/chat.py:102-111 | the response and new messages are `ReadSpec` of the old table: access is checked, then the messages are marked read and counted |
| `ChatRoutes.ReadTwice` | backend/app/api/routes/chat.py:102-111 | reading again marks nothing, and no unread message is left |
| `ChatRoutes.MatchIds` | backend/app/api/routes/chat.py:120 | the ids of the matches, in order |
| `ChatRoutes.UnreadCount` | backend/app/api/routes/chat.py:115-124 | the per-match unread counts over the caller's matches and their total; `UnreadCountTotal` states both |
| `ChatRoutes.UnreadCountTotal` | backend/app/api/routes/chat.py:114-124 | the grouped counts are only for the user's own matches, each positive; the total is the number of unread messages across the user's matches |
| `ChatRoutes.MockSongsShape` | backend/app/api/routes/chat.py:29-40 | the song pool has ten distinct entries |
| `ChatRoutes.Search` | backend/app/api/routes/chat.py:133-157 | an empty query is a 422; otherwise at most ten pool entries, each matching the lowercased query |
| `ChatRoutes.SearchComplete` | backend/app/api/routes/chat.py:139-157 | for a pool of at most ten, every matching entry is returned, in pool order |
| `ChatRoutes.SearchSong` | backend/app/api/routes/chat.py:134-157 | the search of the built-in pool; `Search`, `SearchSongComplete` and `SearchCaseInsensitive` state what it returns |
| `ChatRoutes.SearchSongComplete` | backend/app/api/routes/chat.py:141-157 | every matching song of the built-in pool is returned, in pool order |
| `ChatRoutes.SearchCaseInsensitive` | backend/app/api/routes/chat.py:139 | queries equal up to case get the same answer |
| `SpotifyStore.GetSpotifyTokens` | backend/app/crud/spotify.py:9-10 | the user's token row, or none exactly when there is none |
| `SpotifyStore.SavedToken` | backend/app/crud/spotify.py:21-42 | both tokens and the expiry are overwritten; the Spotify user id changes only on a truthy value, or is set on insert |
| `SpotifyStore.RefreshKeepsSpotifyUser` | backend/app/crud/spotify.py:26-27 | a null or empty Spotify user id keeps the stored one |
| `SpotifyStore.SaveSpotifyTokens` | backend/app/crud/spotify.py:13-42 | an upsert of exactly that user's row |
| `SpotifyStore.DeleteSpotifyTokens` | backend/app/crud/spotify.py:45-47 | only that user's row is removed, and a later get finds none |
| `SpotifyStore.GetMusicProfile` | backend/app/crud/spotify.py:50-51 | the user's profile, or none exactly when there is none |
| `SpotifyStore.SaveMusicProfile` | backend/app/crud/spotify.py:54-77 | an upsert of exactly that user's row; a later get returns the saved fields, stamped with the save time |
| `SpotifyStore.DeleteMusicProfile` | backend/app/crud/spotify.py:80-82 | only that user's profile is removed, and a later get finds none |

## Left out

- Password hashing (`hash_password`, `verify_password`) is left out because it is cryptography. The handlers take `hash` and `verify` as function parameters.
- Token signing (`create_access_token`, `decode_access_token`) is left out because it is cryptography. An access token is modelled by the user id in its `sub` claim.
- `get_me` is left out because it only returns the user its dependency resolved.
- `chat_prompts` is left out because it only returns the constant prompt list.
- The Spotify HTTP and OAuth calls are network I/O and are left out: `get_auth_url`, `exchange_code`, `refresh_access_token`, `get_spotify_user_id`, `fetch_top_artists`, `fetch_top_tracks` and `fetch_recent_tracks`. Only the per-item rank mapping of `fetch_top_artists` is modelled. `api/routes/spotify.py` is not part of this model.
- `generate_mock_profile` is mostly randomness (`random.sample` from the pools). Only its rank assignment is modelled, by `SpotifyService.RankPool`.
- `simulate_sso`'s random choices are parameters: a sequence of ten draws, each scaled to its range.
- Floating point is not modelled. Overlaps and similarities are exact `real`s, and `round(x, 3)` on the stored overlaps is not applied. The score is rounded from the exact value with round-half-even, as Python's `round` does.
- The playlist description's `{:.0f}` formatting is not modelled; the description stores the match score.
- Time is simplified. `datetime.utcnow()` is the parameter `now`. The ISO text of a track's `added_at` is an optional timestamp in seconds, and the recap compares its day number with the week's first day. An unparseable or missing date is an absent timestamp, and the `fromisoformat` parsing itself is not modelled.
- Concurrency is left out. The check-then-create race between `check_mutual_like` and `create_match` is not modelled: swipes are sequential. No "one match per pair" property is claimed, because the code does not enforce one.
- The SQLAlchemy session, commit and refresh, the ORM and the frontend are left out. Tables are sequences and maps on a `Db` object.
- Text.Lower: lower-cases ASCII letters only, while Python's `str.lower` also folds non-ASCII letters.
- ChatRoutes.SearchSong: the mock-mode branch and the live branch of `search_song` filter the same built-in pool in the code, so the model has one branch.
- ChatRoutes.UnreadCountTotal: the total is stated as a sum over the ids of the user's matches. Those ids are distinct, so this is the same as the code's sum over the dictionary's values.
- Compatibility.Compute: `shared_artists` is a set of names, while the code builds a list with one name per shared id, in the iteration order of a Python set. Two shared ids listed under the same name give one entry here and two in the code, and the list's order is not modelled. The seeding of automatic playlists turns the list into a set first, so it is unaffected.
- Compatibility.RawScore: is stated without the source's `round(..., 3)` of the two overlaps, because floating point is not modelled.

## Findings

| source | as written | input that shows it | evidently intended | confidence | as-written member | corrected member |
|---|---|---|---|---|---|---|
| backend/app/api/routes/chat.py:56 | `limit` is declared with only an upper bound (`le=100`); SQLite reads a negative `LIMIT` as no limit | `limit=-1`, `offset=0` on a match with more than 100 messages returns all of them | `0 <= limit <= 100`, so a page never exceeds 100 messages | not executed | `ChatRoutes.NegativeLimitIsUnbounded` | `ChatRoutes.ConversationBounded` |
