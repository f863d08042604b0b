# Party playlist: the queue, the rooms and the client state

A model of the core of a collaborative party playlist. A host creates a
party. It gets a random six-character code, and guests join with that code.
Everyone queues Spotify tracks and up- or down-votes them. The queue is
played highest-voted first; among equal votes, the earlier-queued song goes
first. Changes are pushed over WebSockets to everyone in the party room.

The model covers:

- **Database** (`database.dfy`): the three SQLite tables `parties`, `songs`
  and `votes`, with the queries and updates the routes run on them. It also
  holds the invariant `Consistent`. This is the schema's keys (the primary
  keys, UNIQUE on the party code, UNIQUE(song_id, session_id)), its two
  foreign keys, and the facts the route handlers keep:
  - every song belongs to an existing party (`songs.party_id REFERENCES
    parties(id)`, enforced because better-sqlite3 builds SQLite with foreign
    keys on);
  - every vote row belongs to an existing song;
  - no URI is pending twice in one party;
  - a song's `votes` column is at least its number of vote rows and at most
    one more. The extra one is the creation vote of a song added without a
    session id; the invariant states only this range.

  `Db` is the connection as a mutable object.
- **Queue routes** (`queue_routes.dfy`):
  - listing the queue and picking the next song;
  - adding a song, with its automatic upvote;
  - voting and un-voting;
  - marking a song played;
  - removing a song (host only).

  Each handler is a pure step function on `Tables`. The step returns the
  new tables, the HTTP reply and the room broadcast. Each handler is also a
  module-level method that takes the connection `db: Db`, updates it in
  place, and has that step as its postcondition. Lemmas state what each step
  does and that it keeps `Consistent`.
  - The vote request's `upvote` field is an optional JSON value. A missing
    field means `true`, as the destructuring default does. A sent value
    counts by JavaScript truthiness, so `null`, `false`, `0` and `""` vote
    down and the string `"false"` votes up.
- **Party routes** (`party_routes.dfy`):
  - the party code generator;
  - `POST /create` with its retry loop for a free code;
  - join and details by an upper-cased code;
  - deleting a party, with all its songs and their votes.
- **Rooms** (`rooms.dfy`): the WebSocket server's two module-level maps,
  socket → client and party → sockets. It covers the `join`/`ping`
  handler, the `close` handler and `broadcastToParty`. `RoomServer` is the
  object whose methods mutate the maps in place.
- **Client state** (`use_party.dfy`): the `useParty` hook's message
  reducer and its optimistic vote update.
- **Queue panel** (`queue_component.dfy`): the `Queue` component's empty
  state, its count, and its stable sort by votes with ranks from 1.
- **Support modules**:
  - `ordering.dfy` has the stable sort by a (primary desc, secondary desc)
    rank. It serves both `ORDER BY votes DESC, queued_at` and
    `Array.prototype.sort`, which ECMAScript requires to be stable.
  - `wrappers.dfy` has `Option`, a JSON scalar value and JavaScript
    truthiness.

Behaviour of the code that the model keeps:

- Voting on a played song is accepted.
- `POST /add` does not check that the party exists; the foreign key does.
  For an unknown party the song insert throws, nothing is written, and the
  app's error handler answers 500.
- The removal guard `party?.hostId === hostId` would let a request without a
  `hostId` remove a song whose party row is missing, because
  `undefined === undefined`. The foreign key keeps such songs out of the
  database, so in a consistent database the host check always applies.
- Removing a song is host-only, although the comment above the route also
  promises removal of "own songs".
- A downvote's `Math.max(0, votes - 1)` never clamps. Only a session that
  holds a vote row can downvote, so `votes` is then at least 1.
- Details report `hasSpotify` by truthiness, so an empty access token counts
  as "no Spotify".
- A socket that sends `join` for a second party stays in the first party's
  set, while `clients` records only the second party. It keeps receiving the
  first party's broadcasts, and closing it removes it from the second
  party's set only.

## Model

| member | source | states |
|---|---|---|
| Ordering.SortByRank | src/server/routes/queue.ts:17 | the result is a permutation of the input, ordered by rank descending |
| Ordering.SortIsStable | src/client/components/Queue.tsx:21 | the elements of any one rank keep their relative input order |
| Ordering.InsertKeepsOrder | src/server/routes/queue.ts:17 | inserting into an ordered list keeps it ordered |
| Database.Where | src/server/routes/queue.ts:12-18 | a row is in the result iff it is in the table and matches the condition |
| Database.WhereCounts | src/server/routes/queue.ts:12-18 | a matching row occurs in the result as often as in the table, and a row that does not match never |
| Database.First | src/server/routes/queue.ts:32-38 | finds a row iff the result is non-empty, and the row is one of the results |
| Database.FindSong | src/server/routes/queue.ts:78-84 | finds a row with that id, and finds none iff no song has the id |
| Database.FindSongFindsRow | src/server/routes/queue.ts:121-123 | under the primary key, looking up a row's id gives back that row |
| Database.FindPartyByCode | src/server/routes/party.ts:55-57 | finds a party with that code, and finds none iff no party has it |
| Database.FindPartyById | src/server/routes/queue.ts:172-174 | finds a party with that id, and finds none iff no party has it |
| Database.SetVotesRows | src/server/routes/queue.ts:101-103 | under the primary key, exactly the one row changes, and the ids stay distinct and the same |
| Database.SetVotesRestores | src/server/routes/queue.ts:115-117 | setting a song's votes back to its old value restores the table |
| Database.SetVotesKeepsPending | src/server/routes/queue.ts:101-103 | changing one song's votes keeps each URI pending at most once per party |
| Database.TallyMatchesAfterSetVotes | src/server/routes/queue.ts:99-117 | when one song's vote rows change by some amount and its votes by the same amount, every song's votes stays in step with its rows |
| Database.SetPlayedRows | src/server/routes/queue.ts:146-148 | exactly the one row becomes played, and the ids stay distinct and the same |
| Database.AppendKeepsDistinct | src/server/routes/queue.ts:44-51 | inserting a row with a fresh id keeps the ids distinct and adds exactly that id |
| Database.WhereKeepsDistinct | src/server/routes/queue.ts:187 | deleting rows keeps the primary key unique |
| Database.DeleteVote | src/server/routes/queue.ts:110-114 | afterwards the session has no vote row on the song, no row is added, and every row of another (song, session) pair stays |
| Database.DeleteSongVotes | src/server/routes/queue.ts:184 | afterwards the song has no vote rows, no row is added, and every row of another song stays |
| Database.TallyAfterInsert | src/server/routes/queue.ts:100 | a fresh vote row adds one to its own song's count and nothing to the others |
| Database.InsertVoteKeepsKeys | src/server/db/index.ts:34-39 | inserting a row with an id above all others, for a (song, session) pair without a row, keeps both keys of the votes table |
| Database.TallyAfterDelete | src/server/routes/queue.ts:110-114 | under UNIQUE(song_id, session_id), retracting an existing vote removes exactly one row from that song's count |
| Database.TallyAfterDeleteSong | src/server/routes/queue.ts:184 | deleting a song's vote rows leaves it none and a tally of 0, and leaves every other song's rows and tally as they were |
| Database.DeleteVoteKeepsKeys | src/server/routes/queue.ts:110-114 | deleting a session's vote keeps both keys of the votes table |
| Database.TallyMatchesAfterUpvote | src/server/routes/queue.ts:99-103 | inserting a fresh vote row on a song and raising its votes by one keeps every song's votes in range of its rows |
| Database.TallyMatchesAfterDownvote | src/server/routes/queue.ts:109-117 | deleting the session's existing row on a song and lowering its votes by one keeps every song's votes in range of its rows |
| Database.DeleteParty | src/server/routes/party.ts:120 | removes exactly the parties with that id |
| Database.AppendPartyKeepsKeys | src/server/routes/party.ts:39-42 | inserting a party with a new id and code keeps both keys unique |
| Database.DeletePartyKeepsKeys | src/server/routes/party.ts:120 | deleting a party keeps both keys unique |
| Database.SameIdSameRow | src/server/db/index.ts:23 | under the primary key, one song id names one row |
| Database.SameCodeSameParty | src/server/db/index.ts:14 | under UNIQUE(code), one code names one party |
| Database.EmptyIsConsistent | src/server/db/index.ts:11-43 | the empty schema satisfies every invariant |
| Database.SongPartyExists | src/server/db/index.ts:24 | under the foreign key, every song's party row is found by its id |
| Database.Db.constructor | src/server/db/index.ts:5-43 | a new database has no rows, its id sequences start at 1, and it is consistent |
| QueueRoutes.QueueIsPendingSongsInOrder | src/server/routes/queue.ts:9-21 | the queue holds exactly the party's unplayed songs, each exactly as often as in the table and no other row at all, ordered by votes desc and then queued time asc |
| QueueRoutes.NextIsBestPending | src/server/routes/queue.ts:199-216 | the next song is null iff nothing is pending; otherwise it is pending and no pending song outranks it |
| QueueRoutes.AddWithoutFieldsRejected | src/server/routes/queue.ts:27-29 | a falsy partyId, uri, title or artist gives 400 and changes nothing |
| QueueRoutes.AddDuplicateRejected | src/server/routes/queue.ts:31-42 | a URI already pending in the party gives 409, replies with a pending song of that URI and party, and changes nothing |
| QueueRoutes.AddPartyMissingRejected | src/server/routes/queue.ts:44-51 | with all fields present and no party of that id, the song insert breaks the foreign key: 500 and nothing written |
| QueueRoutes.AddedFacts | src/server/routes/queue.ts:44-59 | an accepted add takes the next song id, which no row has and no vote references, and inserts the creator's vote row exactly when a truthy sessionId was sent |
| QueueRoutes.AddQueuesNewSong | src/server/routes/queue.ts:44-65 | for an existing party, the new song has a fresh id, 1 vote and is unplayed; it is appended last; it has one vote row iff a truthy sessionId was sent; other songs' counts are unchanged; `queue_update` goes to the party |
| QueueRoutes.AddKeepsConsistent | src/server/routes/queue.ts:24-68 | adding keeps every table invariant, the foreign key from songs to parties among them |
| QueueRoutes.PostAdd | src/server/routes/queue.ts:24-68 | the handler's new tables, reply and broadcast are those of the step, the foreign-key failure included, and the database stays consistent |
| QueueRoutes.VoteRejections | src/server/routes/queue.ts:74-84 | a falsy songId or sessionId gives 400 and an unknown song 404, both without change |
| QueueRoutes.UpvoteFieldTruthiness | src/server/routes/queue.ts:72-94 | a missing `upvote` votes up; a sent one votes up iff it is not `null`, `false`, `0` or `""`, so the string "false" votes up |
| QueueRoutes.VoteOnExistingSong | src/server/routes/queue.ts:86-129 | upvoting twice gives 409; downvoting without a vote gives 400; otherwise the vote row is added or removed, votes moves by one, and the re-read song is replied and broadcast to its party, played or not |
| QueueRoutes.AcceptedUpvote | src/server/routes/queue.ts:94-128 | an upvote from a session without a row inserts a row with a fresh id, raises the song's votes by one, and replies and broadcasts the re-read song |
| QueueRoutes.AcceptedDownvote | src/server/routes/queue.ts:104-128 | a downvote from a session with a row deletes exactly one row, lowers the votes by one without reaching the floor at 0, and replies and broadcasts the re-read song |
| QueueRoutes.RefusedVote | src/server/routes/queue.ts:94-107 | a second upvote gives 409 and a downvote without a row gives 400, both without change |
| QueueRoutes.VotedFacts | src/server/routes/queue.ts:94-118 | an accepted vote changes exactly the one vote row and that song's votes column |
| QueueRoutes.VoteKeepsDifference | src/server/routes/queue.ts:94-118 | every song's votes minus its number of vote rows is unchanged by a vote |
| QueueRoutes.UpvotedKeepsDifference | src/server/routes/queue.ts:99-103 | after an upvote's writes, every song still exists and its votes minus its rows is unchanged |
| QueueRoutes.DownvotedKeepsDifference | src/server/routes/queue.ts:109-117 | after a downvote's writes, every song still exists and its votes minus its rows is unchanged |
| QueueRoutes.UpvoteThenDownvoteTables | src/server/routes/queue.ts:99-117 | the writes of an upvote followed by those of the retracting downvote give the tables back, with the vote id sequence one further |
| QueueRoutes.UpvoteThenDownvoteRestores | src/server/routes/queue.ts:94-118 | an accepted upvote followed by a downvote from the same session restores the tables, except that the vote id sequence has advanced |
| QueueRoutes.UpvoteKeepsConsistent | src/server/routes/queue.ts:94-103 | an accepted upvote keeps every table invariant: its row has a fresh id, is the session's only row for the song, and the song's votes move with its rows |
| QueueRoutes.DownvoteKeepsConsistent | src/server/routes/queue.ts:104-117 | an accepted downvote keeps every table invariant: it removes one row and one vote of the song |
| QueueRoutes.UpvoteWrites | src/server/routes/queue.ts:99-103 | an upvote's writes keep the vote keys, add only the fresh row on that song, and keep every song's votes in range of its rows |
| QueueRoutes.VoteWriteKeepsConsistent | src/server/routes/queue.ts:99-117 | writes that change only one song's votes and add at most the fresh vote row keep every table invariant once the keys and counts hold |
| QueueRoutes.VoteKeepsConsistent | src/server/routes/queue.ts:71-132 | voting keeps every table invariant |
| QueueRoutes.VotesNeverNegative | src/server/routes/queue.ts:116 | in a consistent database, votes is never negative, and the clamp at 0 never applies to an accepted downvote |
| QueueRoutes.PostVote | src/server/routes/queue.ts:71-132 | the handler's new tables, reply and broadcast are those of the step, and the database stays consistent |
| QueueRoutes.WriteVote | src/server/routes/queue.ts:99-117 | the writes of an accepted vote: insert or delete the row and set the song's votes |
| QueueRoutes.PlayedMarksOnlyThatSong | src/server/routes/queue.ts:135-157 | an unknown song gives 404 and no change; otherwise exactly that song becomes played, votes and parties are untouched, it leaves its party's queue, `song_played` goes to its party, and marking it again changes nothing |
| QueueRoutes.PlayedNotQueued | src/server/routes/queue.ts:9-21 | a played song is in no party's queue listing |
| QueueRoutes.PlayedKeepsConsistent | src/server/routes/queue.ts:146-148 | marking played keeps every table invariant |
| QueueRoutes.PostPlayed | src/server/routes/queue.ts:135-157 | the handler's new tables, reply and broadcast are those of the step |
| QueueRoutes.RemoveIsHostOnly | src/server/routes/queue.ts:172-193 | with the song's party row present, a hostId other than the party's host gives 403 and no change; the host's request deletes exactly the song and its vote rows and sends `song_removed` to the party |
| QueueRoutes.RemoveUnknownSong | src/server/routes/queue.ts:164-170 | removing an unknown song gives 404 and changes nothing |
| QueueRoutes.RemoveWithoutPartyRow | src/server/routes/queue.ts:172-177 | the guard alone removes a song whose party row is missing iff no hostId is sent; such a song cannot occur in a consistent database |
| QueueRoutes.RemoveKeepsConsistent | src/server/routes/queue.ts:183-187 | removing keeps every table invariant |
| QueueRoutes.DeleteSong | src/server/routes/queue.ts:160-196 | the handler's new tables, reply and broadcast are those of the step |
| PartyRoutes.AlphabetIsTheGeneratorString | src/server/routes/party.ts:10 | the alphabet, defined position by position, is the generator's string |
| PartyRoutes.AlphabetChar | src/server/routes/party.ts:10 | every position of the alphabet holds a code character |
| PartyRoutes.AlphabetHasNoLookalikes | src/server/routes/party.ts:10 | the alphabet has 32 characters, none of them I, O, 0 or 1, and a character is in it iff it is an upper-case letter other than I and O or a digit from 2 to 9 |
| PartyRoutes.DrawsSpellWellFormedCode | src/server/routes/party.ts:12-14 | any random stream spells six alphabet characters |
| PartyRoutes.IndexIn | src/server/routes/party.ts:13 | every code character has a draw that selects it |
| PartyRoutes.WellFormedCodeIsDrawn | src/server/routes/party.ts:9-16 | every six-character alphabet code is produced by some random stream |
| PartyRoutes.GeneratePartyCode | src/server/routes/party.ts:9-16 | the loop builds the code the draws spell, and it is well formed |
| PartyRoutes.FirstFreeIsEarliest | src/server/routes/party.ts:32-37 | the search finds the earliest free attempt, and finds none iff every attempt in range is taken |
| PartyRoutes.FirstFreeIsOnly | src/server/routes/party.ts:32-37 | a free attempt after only taken ones is the one found |
| PartyRoutes.FindFreeCode | src/server/routes/party.ts:26-37 | the retry loop returns the first generated code that no party has, or none when the attempts run out |
| PartyRoutes.CreateUsesFirstFreeCode | src/server/routes/party.ts:19-45 | a falsy hostId gives 400 and no change; a created party has the host, a well-formed code unused so far and earliest among the attempts, a new id and no tokens, and it is appended |
| PartyRoutes.CreateKeepsConsistent | src/server/routes/party.ts:39-42 | creating keeps every table invariant, the code UNIQUE in particular |
| PartyRoutes.Create | src/server/routes/party.ts:19-45 | the handler's new tables and reply are those of the step, and the database stays consistent |
| PartyRoutes.ToUpperFacts | src/server/routes/party.ts:56 | upper-casing is idempotent and fixes every well-formed code |
| PartyRoutes.JoinMatchesUpperCaseCode | src/server/routes/party.ts:48-64 | a missing code gives 400; otherwise the party found is the one whose code equals the upper-cased input, and 404 iff there is none |
| PartyRoutes.DetailsDescribeParty | src/server/routes/party.ts:67-88 | 404 iff no party has the upper-cased code; otherwise id, code, host and creation time of that party, with hasSpotify the access token's truthiness and no token exposed |
| PartyRoutes.CreatedPartyIsJoinable | src/server/routes/party.ts:48-88 | any input whose upper-case form is a new party's code joins that party and shows its details, without Spotify |
| PartyRoutes.VotesWithout | src/server/routes/party.ts:112-114 | no listed song keeps a vote row, no row is added, and every row of an unlisted song stays |
| PartyRoutes.DeleteRemovesEverything | src/server/routes/party.ts:91-125 | 404 for an unknown code, 403 for a wrong host, both without change; otherwise the party, its songs and their vote rows go, everything else stays, and `party_deleted` is broadcast |
| PartyRoutes.DeleteKeepsConsistent | src/server/routes/party.ts:107-120 | deleting a party keeps every table invariant |
| PartyRoutes.RemoveParty | src/server/routes/party.ts:91-125 | the handler with its per-song delete loop reaches the step's tables, reply and broadcast |
| PartyRoutes.DeleteVotesOf | src/server/routes/party.ts:108-114 | the per-song loop deletes exactly the vote rows of the listed songs and changes nothing else |
| Rooms.AddMember | src/server/websocket.ts:73-76 | `Set.add`: the members are the old ones plus the socket, and a duplicate-free set stays duplicate-free |
| Rooms.RemoveMember | src/server/websocket.ts:33 | `Set.delete`: exactly the socket is removed |
| Rooms.RemoveMemberKeepsSet | src/server/websocket.ts:33 | deleting from a duplicate-free set keeps it duplicate-free |
| Rooms.RecipientsExactly | src/server/websocket.ts:103-107 | the recipients are exactly the members that are open and not excluded, taken in the set's order; a duplicate-free set gives each recipient once |
| Rooms.RecipientsAppend | src/server/websocket.ts:103-107 | the recipients of two concatenated member lists are the recipients of the first followed by those of the second |
| Rooms.FanoutExactly | src/server/websocket.ts:98-108 | a broadcast reaches a socket iff it is in the party's set, open and not excluded; a party without a set gets nothing; a duplicate-free set sends each socket one copy |
| Rooms.JoinWithoutIdsRejected | src/server/websocket.ts:62-67 | a join without a truthy partyId and sessionId answers only the sender, with the error, and changes nothing |
| Rooms.JoinRegisters | src/server/websocket.ts:69-87 | the socket is recorded under its party and session and added to the party's set, whose earlier members stay, so the count grows by one unless it was there; it gets `joined`; every other open member gets `user_joined` with the new size |
| Rooms.JoinKeepsConsistent | src/server/websocket.ts:58-96 | handling any message keeps the two maps in agreement |
| Rooms.RegisterKeepsConsistent | src/server/websocket.ts:70-76 | recording a socket under its party and adding it to the party's set keeps the two maps in agreement |
| Rooms.PingAnswersSender | src/server/websocket.ts:89-91 | ping answers pong to the sender and changes nothing |
| Rooms.CloseUnknownIsNoop | src/server/websocket.ts:29-30 | closing a socket that never joined changes nothing and sends nothing |
| Rooms.CloseUnregisters | src/server/websocket.ts:28-46 | closing removes the socket from clients and from its party's set, and every remaining open member gets `user_left` with the new count |
| Rooms.CloseKeepsConsistent | src/server/websocket.ts:31-38 | closing keeps the two maps in agreement and drops empty sets |
| Rooms.UserCountIsSetSize | src/server/websocket.ts:110-112 | the count is the number of distinct sockets in the party's set, and it is 0 iff the party has no set |
| Rooms.DistinctCardinality | src/server/websocket.ts:111 | a duplicate-free sequence has as many elements as its set |
| Rooms.RejoinLeavesStaleMembership | src/server/websocket.ts:70-76 | after joining a second party, a socket is still in the first party's set and receives its broadcasts while open |
| Rooms.RoomServer.constructor | src/server/websocket.ts:10-11 | both maps start empty and agree |
| Rooms.RoomServer.BroadcastToParty | src/server/websocket.ts:98-108 | the loop sends exactly the fan-out of the message and changes neither map |
| Rooms.RoomServer.OnMessage | src/server/websocket.ts:58-96 | the maps and the sends are those of the message handler |
| Rooms.RoomServer.OnJoin | src/server/websocket.ts:60-87 | the join updates the maps in place and sends what the handler sends |
| Rooms.RoomServer.OnClose | src/server/websocket.ts:28-48 | the maps and the sends are those of the close handler |
| UseParty.Without | src/client/hooks/useParty.ts:84 | the result holds exactly the songs with another id and never a song with that id |
| UseParty.WithoutAppend | src/client/hooks/useParty.ts:84 | filtering a concatenation is concatenating the filtered parts, so the kept songs stay in their order |
| UseParty.WithoutCounts | src/client/hooks/useParty.ts:84 | a song with that id occurs 0 times afterwards, and any other song as often as before |
| UseParty.WithoutSingle | src/client/hooks/useParty.ts:84 | a one-song list is kept iff its song has another id |
| UseParty.StateMessagesReplace | src/client/hooks/useParty.ts:47-60 | `party:state` replaces the state, with a missing queue becoming empty; `queue:update` with a queue gives exactly that queue and the old party and current song, and without one changes nothing; neither message touches the error |
| UseParty.SongAddedAppends | src/client/hooks/useParty.ts:62-67 | `song:added` appends the song last and keeps the rest |
| UseParty.VoteUpdateOverwritesMatching | src/client/hooks/useParty.ts:69-78 | `vote:update` sets votes and userVote on exactly the songs with that id, keeping order and length |
| UseParty.NowPlayingDequeues | src/client/hooks/useParty.ts:80-86 | `now-playing:update` sets the current song, keeps the party, and the queue holds exactly the old entries with another id; with no song, only nowPlaying is cleared |
| UseParty.NowPlayingKeepsCounts | src/client/hooks/useParty.ts:84 | after `now-playing:update` the played id does not occur in the queue, and every other entry occurs as often as before |
| UseParty.NowPlayingKeepsOrder | src/client/hooks/useParty.ts:84 | the new queue is the filtered old queue cut at any point, so the remaining entries keep their order |
| UseParty.ErrorAndUnknownMessages | src/client/hooks/useParty.ts:88-91 | `error` sets only the error text; an unknown type changes nothing |
| UseParty.VoteChangeCases | src/client/hooks/useParty.ts:137-151 | a new vote counts once, the same vote again retracts it, the other vote flips it by two; the change is always the difference in the vote's weight |
| UseParty.VoteKeepsBaseline | src/client/hooks/useParty.ts:131-159 | the optimistic update changes only votes and userVote, only on songs with that id, and keeps votes minus the user's own vote weight |
| UseParty.VoteTwice | src/client/hooks/useParty.ts:141-151 | clicking the same direction twice is a no-op unless the song started with the opposite vote |
| QueueComponent.RenderShape | src/client/components/Queue.tsx:9-35 | the empty notice shows iff there are no songs; otherwise the header counts every song and the cards are ranked 1, 2, … |
| QueueComponent.CardsAreStableSortByVotes | src/client/components/Queue.tsx:21 | the cards show a permutation of the songs with votes non-increasing, and equal-vote songs keep their list order |

## Left out

- The Spotify routes (`spotify.ts`), static hosting and the server wiring (apart from the error handler's 500 reply) are not part of this model.
- The SQLite engine, drizzle's query builder and the WAL pragma are not modelled. The schema's keys, UNIQUE constraints and both foreign keys are kept as invariants, NOT NULL columns are fields without `Option`, and the routes' row effects are kept.
- A failed insert is modelled only for the foreign key of `songs.party_id`, the one a route can break. Its reply is the 500 of the app's error handler (`src/server/index.ts:35-38`); the error text is not modelled.
- Concurrency between requests is not modelled. Each handler runs as one atomic step, although the source awaits between its queries.
- `createdAt` and `queuedAt` come from a `now` parameter in seconds, in place of the clock.
- `Math.random` is an oracle: `draw(n)` is the n-th draw, in 0..31. Its distribution is not modelled.
- PartyRoutes.CreateStep: the retry loop is bounded by a `fuel` parameter. When every attempt is taken, the model gives `Exhausted` (status 503). The source loops until it finds a free code, and may run forever.
- `parseInt` of route parameters and NaN are not modelled. Ids arrive as integers, and absent JSON fields arrive as `None`.
- Malformed or missing JSON bodies, which the framework rejects before the handlers run, are not modelled.
- PartyRoutes.ToUpper: upper-cases ASCII letters only. JavaScript's `toUpperCase` also maps some non-ASCII characters onto code letters: `ſ` becomes `S`, and `ß` becomes `SS`, which also changes the length. So an input like "abcdeſ" joins party ABCDES in the source but gets 404 in the model. Inputs that `toUpperCase` maps onto a code through non-ASCII characters are not covered.
- JSON serialisation of messages is not modelled, and neither are the concrete `type` strings beyond the constructor names. The mismatch between the server's message types and the ones the client reducer listens for is not modelled either.
- Socket state is an `isOpen` predicate supplied by the transport. Send failures, `error` events and the console are not modelled.
- `useParty`'s side effects are not modelled: sending over the socket, `localStorage`, the user id, `fetch` of the party and React scheduling. The reducer is modelled as a function on the state.
- The `SongCard` rendering and the JSX markup are not modelled; the queue panel is reduced to what it shows and in which order.
- A `song:added` message without a `song` field is not modelled.
- JSON numbers are integers in the model, so a fractional `upvote` such as `0.5` is not modelled; its truthiness would be that of a non-zero number.
- Arrays and objects sent as `upvote` are one `JsonStructure` value, which is truthy.
