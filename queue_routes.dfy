/** The queue routes: listing a party's queue, adding a song, voting,
    marking a song played, removing a song, and the next song to play. Each
    route is a pure step over the tables (its reply, its new tables and the
    broadcast it asks for) and an imperative handler on the database that
    performs the same reads and writes one by one. */
module QueueRoutes {
  import opened Wrappers
  import opened Database
  import opened Ordering
  import Rooms

  // ---------------------------------------------------------------- replies

  /** What `POST /add` reads from its JSON body. */
  datatype AddRequest = AddRequest(
    partyId: Option<int>,
    spotifyUri: Option<string>,
    title: Option<string>,
    artist: Option<string>,
    albumArt: Option<string>,
    sessionId: Option<string>)

  /** `AddPartyMissing` is the failed insert of a song whose party does not
      exist: the foreign key throws, and the app's error handler answers 500. */
  datatype AddReply = Added(song: Song) | AddMissingFields | AlreadyQueued(existing: Song) | AddPartyMissing
  {
    function Status(): int {
      match this
      case Added(_) => 200
      case AddMissingFields => 400
      case AlreadyQueued(_) => 409
      case AddPartyMissing => 500
    }
  }

  /** What `POST /vote` reads; `upvote` is whatever JSON value the body
      holds, `None` when the field is absent. */
  datatype VoteRequest = VoteRequest(songId: Option<int>, sessionId: Option<string>, upvote: Option<JsonValue>)
  {
    /** `upvote = true` in the destructuring applies only to an absent
        field; any value sent is then tested for truthiness. */
    predicate IsUpvote() {
      upvote.None? || Truthy(upvote.value)
    }
  }

  datatype VoteReply = Voted(song: Song) | VoteMissingFields | VoteSongNotFound | AlreadyVoted | NoVoteToRemove
  {
    function Status(): int {
      match this
      case Voted(_) => 200
      case VoteMissingFields => 400
      case VoteSongNotFound => 404
      case AlreadyVoted => 409
      case NoVoteToRemove => 400
    }
  }

  datatype PlayedReply = PlayedOk | PlayedSongNotFound
  {
    function Status(): int {
      if PlayedOk? then 200 else 404
    }
  }

  datatype RemoveReply = RemovedOk | RemoveSongNotFound | NotHost
  {
    function Status(): int {
      match this
      case RemovedOk => 200
      case RemoveSongNotFound => 404
      case NotHost => 403
    }
  }

  /** A route's effect: the tables afterwards, the reply, and the
      `broadcastToParty` call it makes, if any. */
  datatype Step<R> = Step(tables: Tables, reply: R, broadcast: Option<Rooms.Broadcast>)

  // ------------------------------------------------------------ the queue

  /** `ORDER BY votes DESC, queued_at ASC`. */
  function ServerRank(s: Song): Rank {
    Rank(s.votes, -s.queuedAt)
  }

  /** `GET /:partyId`: the party's unplayed songs, best first. */
  function GetQueue(songs: seq<Song>, partyId: int): seq<Song> {
    SortByRank(Where(songs, PendingIn(partyId)), ServerRank)
  }

  /** `GET /next/:partyId`: the head of the queue, `null` when it is empty. */
  function GetNext(songs: seq<Song>, partyId: int): Option<Song> {
    First(GetQueue(songs, partyId))
  }

  /** The queue holds exactly the party's unplayed songs, each as often as in
      the table, by votes descending and then by queue time ascending. */
  lemma QueueIsPendingSongsInOrder(songs: seq<Song>, partyId: int)
    ensures var q := GetQueue(songs, partyId);
      && (forall x :: x in q <==> x in songs && x.partyId == partyId && !x.played)
      && multiset(q) == multiset(Where(songs, PendingIn(partyId)))
      && (forall x :: multiset(q)[x] == if x.partyId == partyId && !x.played then multiset(songs)[x] else 0)
      && (forall i, j :: 0 <= i < j < |q| ==>
            q[i].votes > q[j].votes || (q[i].votes == q[j].votes && q[i].queuedAt <= q[j].queuedAt))
  {
    var q := GetQueue(songs, partyId);
    forall x
      ensures x in q <==> x in songs && x.partyId == partyId && !x.played
    {
      assert x in q <==> x in multiset(q);
    }
    forall x
      ensures multiset(q)[x] == if x.partyId == partyId && !x.played then multiset(songs)[x] else 0
    {
      WhereCounts(songs, PendingIn(partyId), x);
    }
    forall i, j | 0 <= i < j < |q|
      ensures q[i].votes > q[j].votes || (q[i].votes == q[j].votes && q[i].queuedAt <= q[j].queuedAt)
    {
      assert !Outranks(ServerRank(q[j]), ServerRank(q[i]));
    }
  }

  /** The next song is absent exactly when the party has no unplayed song;
      otherwise it is an unplayed song of the party that no other one beats
      on (votes desc, queued time asc). */
  lemma NextIsBestPending(songs: seq<Song>, partyId: int)
    ensures GetNext(songs, partyId).None? <==>
      forall x :: x in songs ==> x.partyId != partyId || x.played
    ensures GetNext(songs, partyId).Some? ==>
      var n := GetNext(songs, partyId).value;
      && n in songs && n.partyId == partyId && !n.played
      && forall x :: x in songs && x.partyId == partyId && !x.played ==>
           n.votes > x.votes || (n.votes == x.votes && n.queuedAt <= x.queuedAt)
  {
    QueueIsPendingSongsInOrder(songs, partyId);
    var q := GetQueue(songs, partyId);
    if q != [] {
      forall x | x in songs && x.partyId == partyId && !x.played
        ensures q[0].votes > x.votes || (q[0].votes == x.votes && q[0].queuedAt <= x.queuedAt)
      {
        var j :| 0 <= j < |q| && q[j] == x;
      }
    } else {
      forall x | x in songs
        ensures x.partyId != partyId || x.played
      {
        assert x !in q;
      }
    }
  }

  // ---------------------------------------------------------------- add

  /** `POST /add`. */
  function AddStep(t: Tables, req: AddRequest, now: int): Step<AddReply> {
    if !TruthyNumber(req.partyId) || !TruthyString(req.spotifyUri)
       || !TruthyString(req.title) || !TruthyString(req.artist) then
      Step(t, AddMissingFields, None)
    else
      var partyId := req.partyId.value;
      match First(Where(t.songs, PendingWithUri(partyId, req.spotifyUri.value)))
      case Some(existing) => Step(t, AlreadyQueued(existing), None)
      case None =>
        if partyId !in PartyIds(t.parties) then Step(t, AddPartyMissing, None)
        else
          var song := Song(t.nextSongId, partyId, req.spotifyUri.value, req.title.value,
                           req.artist.value, req.albumArt, 1, false, now);
          var insertVote := TruthyString(req.sessionId) && !HasVote(t.votes, song.id, req.sessionId.value);
          var t' := t.(
            songs := t.songs + [song],
            nextSongId := t.nextSongId + 1,
            votes := if insertVote then t.votes + {Vote(t.nextVoteId, song.id, req.sessionId.value)} else t.votes,
            nextVoteId := if insertVote then t.nextVoteId + 1 else t.nextVoteId);
          Step(t', Added(song), Some(Rooms.Broadcast(partyId, Rooms.QueueUpdate(song))))
  }

  /** A body without a truthy partyId, spotifyUri, title or artist gets 400
      and changes nothing. */
  lemma AddWithoutFieldsRejected(t: Tables, req: AddRequest, now: int)
    requires !TruthyNumber(req.partyId) || !TruthyString(req.spotifyUri)
          || !TruthyString(req.title) || !TruthyString(req.artist)
    ensures AddStep(t, req, now) == Step(t, AddMissingFields, None)
    ensures AddStep(t, req, now).reply.Status() == 400
  {
  }

  /** A URI that is already pending in the party gets 409 with that song and
      changes nothing. */
  lemma AddDuplicateRejected(t: Tables, req: AddRequest, now: int, pending: Song)
    requires TruthyNumber(req.partyId) && TruthyString(req.spotifyUri)
          && TruthyString(req.title) && TruthyString(req.artist)
    requires pending in t.songs && pending.partyId == req.partyId.value
          && pending.spotifyUri == req.spotifyUri.value && !pending.played
    ensures var st := AddStep(t, req, now);
      && st.tables == t && st.broadcast == None && st.reply.Status() == 409
      && st.reply.AlreadyQueued? && st.reply.existing.spotifyUri == pending.spotifyUri
      && st.reply.existing.partyId == pending.partyId && !st.reply.existing.played
  {
    assert pending in Where(t.songs, PendingWithUri(req.partyId.value, req.spotifyUri.value));
  }

  /** A party id with no party row: in a consistent database no song
      belongs to it, so the duplicate check passes, the song insert breaks
      the foreign key, and the reply is 500 with nothing inserted. */
  lemma AddPartyMissingRejected(t: Tables, req: AddRequest, now: int)
    requires Consistent(t)
    requires TruthyNumber(req.partyId) && TruthyString(req.spotifyUri)
          && TruthyString(req.title) && TruthyString(req.artist)
    requires FindPartyById(t.parties, req.partyId.value).None?
    ensures AddStep(t, req, now) == Step(t, AddPartyMissing, None)
    ensures AddStep(t, req, now).reply.Status() == 500
  {
    var w := PendingWithUri(req.partyId.value, req.spotifyUri.value);
    assert forall x :: x in t.songs ==> !Matches(x, w);
  }

  /** The vote row a successful add inserts, if any: one for the session
      that added the song, unless it is absent or empty. */
  function CreationVote(t: Tables, req: AddRequest): Option<Vote> {
    if TruthyString(req.sessionId) && !HasVote(t.votes, t.nextSongId, req.sessionId.value)
    then Some(Vote(t.nextVoteId, t.nextSongId, req.sessionId.value))
    else None
  }

  lemma AddedFacts(t: Tables, req: AddRequest, now: int)
    requires Consistent(t)
    requires AddStep(t, req, now).reply.Added?
    ensures var st := AddStep(t, req, now);
      && st.reply.song.id == t.nextSongId
      && st.reply.song.id !in SongIds(t.songs)
      && VotesFor(t.votes, st.reply.song.id) == {}
      && CreationVote(t, req) == (if TruthyString(req.sessionId) then Some(Vote(t.nextVoteId, t.nextSongId, req.sessionId.value)) else None)
      && st.tables.votes == (if CreationVote(t, req).Some? then t.votes + {CreationVote(t, req).value} else t.votes)
      && (CreationVote(t, req).Some? ==> CreationVote(t, req).value !in t.votes)
  {
    var song := AddStep(t, req, now).reply.song;
    assert forall v :: v in t.votes ==> v.songId != song.id;
  }

  /** A URI that is not pending in the party (never queued, or only already
      played) is queued as a new unplayed song with one vote at the end of
      the table, under an id no row had; it has one vote row exactly when a
      session id was given, and no other song's vote rows change; the party
      is sent `queue_update`. */
  lemma AddQueuesNewSong(t: Tables, req: AddRequest, now: int)
    requires Consistent(t)
    requires TruthyNumber(req.partyId) && TruthyString(req.spotifyUri)
          && TruthyString(req.title) && TruthyString(req.artist)
    requires forall s :: s in t.songs && s.partyId == req.partyId.value && s.spotifyUri == req.spotifyUri.value
               ==> s.played
    requires FindPartyById(t.parties, req.partyId.value).Some?
    ensures var st := AddStep(t, req, now);
      && st.reply.Added? && st.reply.Status() == 200
      && st.tables.songs == t.songs + [st.reply.song]
      && st.reply.song.id !in SongIds(t.songs)
      && st.reply.song.votes == 1 && !st.reply.song.played
      && st.reply.song.partyId == req.partyId.value && st.reply.song.spotifyUri == req.spotifyUri.value
      && st.reply.song.title == req.title.value && st.reply.song.artist == req.artist.value
      && Tally(st.tables.votes, st.reply.song.id) == (if TruthyString(req.sessionId) then 1 else 0)
      && (forall id :: id != st.reply.song.id ==> Tally(st.tables.votes, id) == Tally(t.votes, id))
      && st.tables.parties == t.parties
      && st.broadcast == Some(Rooms.Broadcast(req.partyId.value, Rooms.QueueUpdate(st.reply.song)))
  {
    var st := AddStep(t, req, now);
    AddedFacts(t, req, now);
    var song := st.reply.song;
    var cv := CreationVote(t, req);
    if cv.Some? {
      TallyAfterInsert(t.votes, cv.value, song.id);
      forall id | id != song.id
        ensures Tally(st.tables.votes, id) == Tally(t.votes, id)
      {
        TallyAfterInsert(t.votes, cv.value, id);
      }
    }
  }

  lemma AddKeepsConsistent(t: Tables, req: AddRequest, now: int)
    requires Consistent(t)
    ensures Consistent(AddStep(t, req, now).tables)
  {
    var st := AddStep(t, req, now);
    if st.reply.Added? {
      var song := st.reply.song;
      var t' := st.tables;
      AddedFacts(t, req, now);
      AppendKeepsDistinct(t.songs, song);
      var cv := CreationVote(t, req);
      forall s | s in t'.songs
        ensures Tally(t'.votes, s.id) <= s.votes <= Tally(t'.votes, s.id) + 1
      {
        if cv.Some? {
          TallyAfterInsert(t.votes, cv.value, s.id);
        }
      }
    }
  }

  /** The handler of `POST /add`. */
  method PostAdd(db: Db, req: AddRequest, now: int) returns (reply: AddReply, broadcast: Option<Rooms.Broadcast>)
    requires db.Valid()
    modifies db
    ensures db.Valid()
    ensures Step(db.State(), reply, broadcast) == AddStep(old(db.State()), req, now)
  {
    AddKeepsConsistent(db.State(), req, now);
    if !TruthyNumber(req.partyId) || !TruthyString(req.spotifyUri)
       || !TruthyString(req.title) || !TruthyString(req.artist) {
      return AddMissingFields, None;
    }
    var partyId := req.partyId.value;
    var existing := First(Where(db.songs, PendingWithUri(partyId, req.spotifyUri.value)));
    if existing.Some? {
      return AlreadyQueued(existing.value), None;
    }
    if partyId !in PartyIds(db.parties) {
      return AddPartyMissing, None;
    }
    var song := Song(db.nextSongId, partyId, req.spotifyUri.value, req.title.value,
                     req.artist.value, req.albumArt, 1, false, now);
    db.songs := db.songs + [song];
    db.nextSongId := db.nextSongId + 1;
    if TruthyString(req.sessionId) && !HasVote(db.votes, song.id, req.sessionId.value) {
      db.votes := db.votes + {Vote(db.nextVoteId, song.id, req.sessionId.value)};
      db.nextVoteId := db.nextVoteId + 1;
    }
    reply, broadcast := Added(song), Some(Rooms.Broadcast(partyId, Rooms.QueueUpdate(song)));
  }

  // --------------------------------------------------------------- vote

  function Max(a: int, b: int): int {
    if a >= b then a else b
  }

  /** The writes of an accepted upvote: the session's vote row, then the
      song's `votes` as read before, plus one. */
  function Upvoted(t: Tables, song: Song, session: string): Tables {
    t.(votes := t.votes + {Vote(t.nextVoteId, song.id, session)},
       nextVoteId := t.nextVoteId + 1,
       songs := SetVotes(t.songs, song.id, song.votes + 1))
  }

  /** The writes of an accepted downvote: the session's vote row goes, then
      the song's `votes` as read before, minus one and floored at 0. */
  function Downvoted(t: Tables, song: Song, session: string): Tables {
    t.(votes := DeleteVote(t.votes, song.id, session),
       songs := SetVotes(t.songs, song.id, Max(0, song.votes - 1)))
  }

  /** `POST /vote`. Upvoting adds the session's vote row, downvoting retracts
      it; the song's `played` flag is not consulted. */
  function VoteStep(t: Tables, req: VoteRequest): Step<VoteReply> {
    if !TruthyNumber(req.songId) || !TruthyString(req.sessionId) then
      Step(t, VoteMissingFields, None)
    else
      var sessionId := req.sessionId.value;
      match FindSong(t.songs, req.songId.value)
      case None => Step(t, VoteSongNotFound, None)
      case Some(song) =>
        var existing := HasVote(t.votes, song.id, sessionId);
        if req.IsUpvote() && existing then Step(t, AlreadyVoted, None)
        else if !req.IsUpvote() && !existing then Step(t, NoVoteToRemove, None)
        else
          var updated := song.(votes := if req.IsUpvote() then song.votes + 1 else Max(0, song.votes - 1));
          var t' := if req.IsUpvote() then Upvoted(t, song, sessionId) else Downvoted(t, song, sessionId);
          Step(t', Voted(updated), Some(Rooms.Broadcast(song.partyId, Rooms.VoteUpdate(updated))))
  }

  /** An absent `upvote` votes up; a sent `null`, `false`, `0` or `""` votes
      down; any other value, the string "false" among them, votes up. */
  lemma UpvoteFieldTruthiness(songId: Option<int>, sessionId: Option<string>, v: JsonValue)
    ensures VoteRequest(songId, sessionId, None).IsUpvote()
    ensures VoteRequest(songId, sessionId, Some(v)).IsUpvote() <==>
      v != JsonNull && v != JsonBool(false) && v != JsonNumber(0) && v != JsonString("")
    ensures VoteRequest(songId, sessionId, Some(JsonString("false"))).IsUpvote()
  {
  }

  /** A missing songId or sessionId gets 400, an unknown song 404; neither
      changes anything. */
  lemma VoteRejections(t: Tables, req: VoteRequest)
    ensures !TruthyNumber(req.songId) || !TruthyString(req.sessionId) ==>
      VoteStep(t, req) == Step(t, VoteMissingFields, None) && VoteMissingFields.Status() == 400
    ensures TruthyNumber(req.songId) && TruthyString(req.sessionId) && req.songId.value !in SongIds(t.songs) ==>
      VoteStep(t, req) == Step(t, VoteSongNotFound, None) && VoteSongNotFound.Status() == 404
  {
  }

  /** The bookkeeping of a vote on an existing song (played or not):
      upvote is refused with 409 when the session already has a row, and
      otherwise adds exactly that row and one vote; downvote is refused with
      400 when there is no row, and otherwise deletes exactly that row and
      takes one vote off, never going below 0. Nothing else changes, and the
      updated row is what a re-read of the table returns. */
  lemma VoteOnExistingSong(t: Tables, req: VoteRequest, song: Song)
    requires DistinctIds(t.songs) && VoteKeys(t.votes) && TallyMatches(t.songs, t.votes)
    requires TruthyNumber(req.songId) && TruthyString(req.sessionId)
    requires song in t.songs && song.id == req.songId.value
    ensures var st := VoteStep(t, req);
      var session := req.sessionId.value;
      var row := Vote(t.nextVoteId, song.id, session);
      && (req.IsUpvote() && HasVote(t.votes, song.id, session) ==> st == Step(t, AlreadyVoted, None) && AlreadyVoted.Status() == 409)
      && (!req.IsUpvote() && !HasVote(t.votes, song.id, session) ==> st == Step(t, NoVoteToRemove, None) && NoVoteToRemove.Status() == 400)
      && (req.IsUpvote() && !HasVote(t.votes, song.id, session) ==>
            && st.reply == Voted(song.(votes := song.votes + 1))
            && st.tables.votes == t.votes + {row} && row !in t.votes)
      && (!req.IsUpvote() && HasVote(t.votes, song.id, session) ==>
            && st.reply == Voted(song.(votes := song.votes - 1))
            && song.votes - 1 >= 0
            && !HasVote(st.tables.votes, song.id, session)
            && |t.votes - st.tables.votes| == 1 && st.tables.votes <= t.votes)
      && (st.reply.Voted? ==>
            && st.tables.songs == SetVotes(t.songs, song.id, st.reply.song.votes)
            && FindSong(st.tables.songs, song.id) == Some(st.reply.song)
            && st.tables.parties == t.parties
            && st.broadcast == Some(Rooms.Broadcast(song.partyId, Rooms.VoteUpdate(st.reply.song))))
  {
    var has := HasVote(t.votes, song.id, req.sessionId.value);
    if req.IsUpvote() && !has {
      AcceptedUpvote(t, req, song);
    } else if !req.IsUpvote() && has {
      AcceptedDownvote(t, req, song);
    } else {
      RefusedVote(t, req, song);
    }
  }

  /** The refused cases of `VoteOnExistingSong`: nothing changes. */
  lemma RefusedVote(t: Tables, req: VoteRequest, song: Song)
    requires DistinctIds(t.songs)
    requires TruthyNumber(req.songId) && TruthyString(req.sessionId)
    requires song in t.songs && song.id == req.songId.value
    ensures var st := VoteStep(t, req);
      var has := HasVote(t.votes, song.id, req.sessionId.value);
      && (req.IsUpvote() && has ==> st == Step(t, AlreadyVoted, None) && AlreadyVoted.Status() == 409)
      && (!req.IsUpvote() && !has ==> st == Step(t, NoVoteToRemove, None) && NoVoteToRemove.Status() == 400)
  {
    FindSongFindsRow(t.songs, song);
  }

  /** The accepted upvote case of `VoteOnExistingSong`. */
  lemma AcceptedUpvote(t: Tables, req: VoteRequest, song: Song)
    requires DistinctIds(t.songs)
    requires TruthyNumber(req.songId) && TruthyString(req.sessionId) && req.IsUpvote()
    requires song in t.songs && song.id == req.songId.value
    requires !HasVote(t.votes, song.id, req.sessionId.value)
    ensures var st := VoteStep(t, req);
      var raised := song.(votes := song.votes + 1);
      && st == Step(Upvoted(t, song, req.sessionId.value), Voted(raised), Some(Rooms.Broadcast(song.partyId, Rooms.VoteUpdate(raised))))
      && Vote(t.nextVoteId, song.id, req.sessionId.value) !in t.votes
      && FindSong(st.tables.songs, song.id) == Some(raised)
      && st.reply == Voted(song.(votes := song.votes + 1))
      && st.tables.votes == t.votes + {Vote(t.nextVoteId, song.id, req.sessionId.value)}
      && st.tables.songs == SetVotes(t.songs, song.id, st.reply.song.votes)
      && FindSong(st.tables.songs, song.id) == Some(st.reply.song)
      && st.tables.parties == t.parties
      && st.broadcast == Some(Rooms.Broadcast(song.partyId, Rooms.VoteUpdate(st.reply.song)))
  {
    FindSongFindsRow(t.songs, song);
    var raised := song.(votes := song.votes + 1);
    SetVotesRows(t.songs, song, raised.votes);
    FindSongFindsRow(SetVotes(t.songs, song.id, raised.votes), raised);
  }

  /** The accepted downvote case of `VoteOnExistingSong`: the floor at 0 is
      not reached, because the song's votes count its row. */
  lemma AcceptedDownvote(t: Tables, req: VoteRequest, song: Song)
    requires DistinctIds(t.songs) && VoteKeys(t.votes) && TallyMatches(t.songs, t.votes)
    requires TruthyNumber(req.songId) && TruthyString(req.sessionId) && !req.IsUpvote()
    requires song in t.songs && song.id == req.songId.value
    requires HasVote(t.votes, song.id, req.sessionId.value)
    ensures var st := VoteStep(t, req);
      var lowered := song.(votes := song.votes - 1);
      && song.votes - 1 >= 0
      && st == Step(Downvoted(t, song, req.sessionId.value), Voted(lowered), Some(Rooms.Broadcast(song.partyId, Rooms.VoteUpdate(lowered))))
      && !HasVote(st.tables.votes, song.id, req.sessionId.value)
      && |t.votes - st.tables.votes| == 1 && st.tables.votes <= t.votes
      && FindSong(st.tables.songs, song.id) == Some(lowered)
      && st.reply == Voted(song.(votes := song.votes - 1))
      && st.tables.songs == SetVotes(t.songs, song.id, st.reply.song.votes)
      && FindSong(st.tables.songs, song.id) == Some(st.reply.song)
      && st.tables.parties == t.parties
      && st.broadcast == Some(Rooms.Broadcast(song.partyId, Rooms.VoteUpdate(st.reply.song)))
  {
    FindSongFindsRow(t.songs, song);
    var session := req.sessionId.value;
    var w :| w in t.votes && w.songId == song.id && w.sessionId == session;
    assert w in VotesFor(t.votes, song.id);
    var lowered := song.(votes := song.votes - 1);
    assert t.votes - DeleteVote(t.votes, song.id, session) == {w};
    SetVotesRows(t.songs, song, lowered.votes);
    FindSongFindsRow(SetVotes(t.songs, song.id, lowered.votes), lowered);
  }

  /** What an accepted vote did, in the terms the lemmas below use. */
  lemma VotedFacts(t: Tables, req: VoteRequest)
    requires Consistent(t)
    requires VoteStep(t, req).reply.Voted?
    ensures var st := VoteStep(t, req);
      var song := FindSong(t.songs, req.songId.value).value;
      var session := req.sessionId.value;
      var row := Vote(t.nextVoteId, song.id, session);
      && song in t.songs && song.id == req.songId.value
      && st.reply.song == song.(votes := st.reply.song.votes)
      && st.tables.songs == SetVotes(t.songs, song.id, st.reply.song.votes)
      && st.tables.parties == t.parties
      && (req.IsUpvote() ==>
            && !HasVote(t.votes, song.id, session) && row !in t.votes
            && st.tables.votes == t.votes + {row} && st.reply.song.votes == song.votes + 1)
      && (!req.IsUpvote() ==>
            && HasVote(t.votes, song.id, session)
            && st.tables.votes == DeleteVote(t.votes, song.id, session)
            && st.reply.song.votes == song.votes - 1)
  {
    var song := FindSong(t.songs, req.songId.value).value;
    var session := req.sessionId.value;
    if !req.IsUpvote() {
      var w :| w in t.votes && w.songId == song.id && w.sessionId == session;
      assert w in VotesFor(t.votes, song.id);
    }
  }

  /** A vote moves a song's `votes` and its number of vote rows together:
      their difference is the same before and after, for every song. */
  lemma VoteKeepsDifference(t: Tables, req: VoteRequest, s: Song)
    requires Consistent(t) && s in t.songs
    ensures var st := VoteStep(t, req);
      var s' := FindSong(st.tables.songs, s.id);
      && s'.Some?
      && s'.value.votes - Tally(st.tables.votes, s.id) == s.votes - Tally(t.votes, s.id)
  {
    FindSongFindsRow(t.songs, s);
    if TruthyNumber(req.songId) && TruthyString(req.sessionId) && req.songId.value in SongIds(t.songs) {
      var song := FindSong(t.songs, req.songId.value).value;
      var session := req.sessionId.value;
      var has := HasVote(t.votes, song.id, session);
      if req.IsUpvote() && !has {
        AcceptedUpvote(t, req, song);
        UpvotedKeepsDifference(t, song, session, s);
      } else if !req.IsUpvote() && has {
        AcceptedDownvote(t, req, song);
        DownvotedKeepsDifference(t, song, session, s);
      } else {
        assert VoteStep(t, req).tables == t;
      }
    }
  }

  /** The upvote case of `VoteKeepsDifference`. */
  lemma UpvotedKeepsDifference(t: Tables, song: Song, session: string, s: Song)
    requires DistinctIds(t.songs) && song in t.songs && s in t.songs
    requires Vote(t.nextVoteId, song.id, session) !in t.votes
    ensures var u := Upvoted(t, song, session);
      && FindSong(u.songs, s.id).Some?
      && FindSong(u.songs, s.id).value.votes - Tally(u.votes, s.id) == s.votes - Tally(t.votes, s.id)
  {
    var u := Upvoted(t, song, session);
    var raised := song.(votes := song.votes + 1);
    SetVotesRows(t.songs, song, raised.votes);
    TallyAfterInsert(t.votes, Vote(t.nextVoteId, song.id, session), s.id);
    var kept := if s.id == song.id then raised else s;
    assert kept in u.songs;
    FindSongFindsRow(u.songs, kept);
  }

  /** The downvote case of `VoteKeepsDifference`. */
  lemma DownvotedKeepsDifference(t: Tables, song: Song, session: string, s: Song)
    requires Consistent(t) && song in t.songs && s in t.songs && HasVote(t.votes, song.id, session)
    ensures var d := Downvoted(t, song, session);
      && FindSong(d.songs, s.id).Some?
      && FindSong(d.songs, s.id).value.votes - Tally(d.votes, s.id) == s.votes - Tally(t.votes, s.id)
  {
    var d := Downvoted(t, song, session);
    var lowered := song.(votes := song.votes - 1);
    VotesNeverNegative(t, song, session);
    SetVotesRows(t.songs, song, lowered.votes);
    TallyAfterDelete(t.votes, song.id, session, s.id);
    if s.id == song.id {
      FindSongFindsRow(d.songs, lowered);
    } else {
      FindSongFindsRow(d.songs, s);
    }
  }

  /** Writing an upvote and then the downvote that retracts it gives the
      tables back, with the vote id sequence one further. */
  lemma UpvoteThenDownvoteTables(t: Tables, song: Song, session: string)
    requires DistinctIds(t.songs) && song in t.songs && song.votes >= 0
    requires !HasVote(t.votes, song.id, session)
    ensures Downvoted(Upvoted(t, song, session), song.(votes := song.votes + 1), session)
         == t.(nextVoteId := t.nextVoteId + 1)
  {
    var up := Upvoted(t, song, session);
    assert DeleteVote(up.votes, song.id, session) == t.votes;
    assert Max(0, song.votes + 1 - 1) == song.votes;
    SetVotesRestores(t.songs, song, song.votes + 1);
  }

  /** An upvote followed by a downvote of the same session on the same song
      restores both tables; only the vote id sequence has advanced. */
  lemma UpvoteThenDownvoteRestores(t: Tables, songId: int, session: string)
    requires Consistent(t) && songId != 0 && session != ""
    requires songId in SongIds(t.songs) && !HasVote(t.votes, songId, session)
    ensures var up := VoteStep(t, VoteRequest(Some(songId), Some(session), None));
      var down := VoteStep(up.tables, VoteRequest(Some(songId), Some(session), Some(JsonBool(false))));
      && up.reply.Voted? && down.reply.Voted?
      && down.tables == t.(nextVoteId := t.nextVoteId + 1)
  {
    var song := FindSong(t.songs, songId).value;
    var upReq := VoteRequest(Some(songId), Some(session), None);
    var downReq := VoteRequest(Some(songId), Some(session), Some(JsonBool(false)));
    var raised := song.(votes := song.votes + 1);
    AcceptedUpvote(t, upReq, song);
    var upped := Upvoted(t, song, session);
    UpvoteKeepsConsistent(t, song, session);
    assert HasVote(upped.votes, songId, session) by {
      assert Vote(t.nextVoteId, songId, session) in upped.votes;
    }
    AcceptedDownvote(upped, downReq, raised);
    UpvoteThenDownvoteTables(t, song, session);
  }

  /** An accepted upvote keeps every table invariant: its row has a fresh
      id and is the session's only row for the song, and the song's `votes`
      moves with its rows. */
  lemma UpvoteKeepsConsistent(t: Tables, song: Song, session: string)
    requires Consistent(t) && song in t.songs && !HasVote(t.votes, song.id, session)
    ensures Consistent(Upvoted(t, song, session))
  {
    UpvoteWrites(t, song, session);
    VoteWriteKeepsConsistent(t, Upvoted(t, song, session), song, song.votes + 1);
  }

  /** The vote rows an accepted upvote leaves: keys stay unique, the only
      new row is the fresh one on `song`, and the counters still match. */
  lemma UpvoteWrites(t: Tables, song: Song, session: string)
    requires DistinctIds(t.songs) && VoteKeys(t.votes) && TallyMatches(t.songs, t.votes)
    requires forall v :: v in t.votes ==> v.id < t.nextVoteId
    requires song in t.songs && !HasVote(t.votes, song.id, session)
    ensures var u := Upvoted(t, song, session);
      && u.parties == t.parties && u.nextPartyId == t.nextPartyId && u.nextSongId == t.nextSongId
      && u.songs == SetVotes(t.songs, song.id, song.votes + 1) && t.nextVoteId <= u.nextVoteId
      && VoteKeys(u.votes)
      && (forall v :: v in u.votes ==> v in t.votes || (v.id == t.nextVoteId < u.nextVoteId && v.songId == song.id))
      && TallyMatches(u.songs, u.votes)
  {
    var row := Vote(t.nextVoteId, song.id, session);
    assert row !in t.votes;
    InsertVoteKeepsKeys(t.votes, row);
    TallyMatchesAfterUpvote(t.songs, t.votes, song, row);
  }

  /** An accepted downvote keeps every table invariant: it removes one row
      of the song and one vote, which the song has since it has a row. */
  lemma DownvoteKeepsConsistent(t: Tables, song: Song, session: string)
    requires Consistent(t) && song in t.songs && HasVote(t.votes, song.id, session)
    ensures Consistent(Downvoted(t, song, session))
  {
    VotesNeverNegative(t, song, session);
    DeleteVoteKeepsKeys(t.votes, song.id, session);
    TallyMatchesAfterDownvote(t.songs, t.votes, song, session);
    VoteWriteKeepsConsistent(t, Downvoted(t, song, session), song, song.votes - 1);
  }

  /** A vote write keeps every table invariant when the new vote rows keep
      both keys and reference existing songs, and the songs' `votes` stay in
      step with them. */
  lemma VoteWriteKeepsConsistent(t: Tables, t': Tables, song: Song, n: int)
    requires Consistent(t) && song in t.songs
    requires t'.parties == t.parties && t'.nextPartyId == t.nextPartyId && t'.nextSongId == t.nextSongId
    requires t'.songs == SetVotes(t.songs, song.id, n) && t.nextVoteId <= t'.nextVoteId
    requires VoteKeys(t'.votes)
    requires forall v :: v in t'.votes ==> v in t.votes || (v.id == t.nextVoteId < t'.nextVoteId && v.songId == song.id)
    requires TallyMatches(t'.songs, t'.votes)
    ensures Consistent(t')
  {
    SetVotesRows(t.songs, song, n);
    SetVotesKeepsPending(t.songs, song, n);
    assert song.id in SongIds(t.songs);
  }

  lemma VoteKeepsConsistent(t: Tables, req: VoteRequest)
    requires Consistent(t)
    ensures Consistent(VoteStep(t, req).tables)
  {
    if VoteStep(t, req).reply.Voted? {
      var song := FindSong(t.songs, req.songId.value).value;
      if req.IsUpvote() {
        UpvoteKeepsConsistent(t, song, req.sessionId.value);
      } else {
        DownvoteKeepsConsistent(t, song, req.sessionId.value);
      }
    }
  }

  /** The handler of `POST /vote`. */
  method PostVote(db: Db, req: VoteRequest) returns (reply: VoteReply, broadcast: Option<Rooms.Broadcast>)
    requires db.Valid()
    modifies db
    ensures db.Valid()
    ensures Step(db.State(), reply, broadcast) == VoteStep(old(db.State()), req)
  {
    VoteKeepsConsistent(db.State(), req);
    if !TruthyNumber(req.songId) || !TruthyString(req.sessionId) {
      return VoteMissingFields, None;
    }
    var sessionId := req.sessionId.value;
    var found := FindSong(db.songs, req.songId.value);
    if found.None? {
      return VoteSongNotFound, None;
    }
    var song := found.value;
    var existing := HasVote(db.votes, song.id, sessionId);
    if req.IsUpvote() && existing {
      return AlreadyVoted, None;
    } else if !req.IsUpvote() && !existing {
      return NoVoteToRemove, None;
    }
    var updated := WriteVote(db, song, sessionId, req.IsUpvote());
    reply, broadcast := Voted(updated), Some(Rooms.Broadcast(song.partyId, Rooms.VoteUpdate(updated)));
  }

  /** The writes of an accepted vote: the vote row is inserted or deleted,
      then the song's `votes` is set. */
  method WriteVote(db: Db, song: Song, sessionId: string, upvote: bool) returns (updated: Song)
    modifies db
    ensures updated == song.(votes := if upvote then song.votes + 1 else Max(0, song.votes - 1))
    ensures db.State() == if upvote then Upvoted(old(db.State()), song, sessionId)
                          else Downvoted(old(db.State()), song, sessionId)
  {
    if upvote {
      updated := song.(votes := song.votes + 1);
      db.votes := db.votes + {Vote(db.nextVoteId, song.id, sessionId)};
      db.nextVoteId := db.nextVoteId + 1;
    } else {
      updated := song.(votes := Max(0, song.votes - 1));
      db.votes := DeleteVote(db.votes, song.id, sessionId);
    }
    db.songs := SetVotes(db.songs, song.id, updated.votes);
  }

  // ------------------------------------------------------------- played

  /** `POST /played`. */
  function PlayedStep(t: Tables, songId: Option<int>): Step<PlayedReply> {
    var found := if songId.Some? then FindSong(t.songs, songId.value) else None;
    match found
    case None => Step(t, PlayedSongNotFound, None)
    case Some(song) =>
      Step(t.(songs := SetPlayed(t.songs, song.id)), PlayedOk, Some(Rooms.Broadcast(song.partyId, Rooms.SongPlayed(song.id))))
  }

  /** Marking played sets `played` on that one song and touches nothing
      else, leaves the party's queue without it, and doing it twice is the
      same as doing it once. An unknown song gets 404 and no change. */
  lemma PlayedMarksOnlyThatSong(t: Tables, songId: int)
    requires DistinctIds(t.songs)
    ensures var st := PlayedStep(t, Some(songId));
      && (songId !in SongIds(t.songs) ==> st == Step(t, PlayedSongNotFound, None))
      && (songId in SongIds(t.songs) ==>
            var song := FindSong(t.songs, songId).value;
            && st.reply == PlayedOk
            && (forall x :: x in st.tables.songs <==>
                  x == song.(played := true) || (x in t.songs && x.id != songId))
            && st.tables.votes == t.votes && st.tables.parties == t.parties
            && song.(played := true) !in GetQueue(st.tables.songs, song.partyId)
            && st.broadcast == Some(Rooms.Broadcast(song.partyId, Rooms.SongPlayed(songId)))
            && PlayedStep(st.tables, Some(songId)).tables == st.tables)
  {
    var st := PlayedStep(t, Some(songId));
    if songId in SongIds(t.songs) {
      var song := FindSong(t.songs, songId).value;
      SetPlayedRows(t.songs, song);
      PlayedNotQueued(st.tables.songs, song.(played := true));
      var again := SetPlayed(st.tables.songs, songId);
      forall i | 0 <= i < |again|
        ensures again[i] == st.tables.songs[i]
      {
      }
    }
  }

  /** A played song is in no party's queue. */
  lemma PlayedNotQueued(songs: seq<Song>, x: Song)
    requires x.played
    ensures x !in GetQueue(songs, x.partyId)
  {
    QueueIsPendingSongsInOrder(songs, x.partyId);
  }

  lemma PlayedKeepsConsistent(t: Tables, songId: Option<int>)
    requires Consistent(t)
    ensures Consistent(PlayedStep(t, songId).tables)
  {
    var st := PlayedStep(t, songId);
    if st.reply.PlayedOk? {
      var song := FindSong(t.songs, songId.value).value;
      SetPlayedRows(t.songs, song);
      var t' := st.tables;
      forall s | s in t'.songs
        ensures Tally(t'.votes, s.id) <= s.votes <= Tally(t'.votes, s.id) + 1
      {
      }
      forall x | x in t'.songs
        ensures 1 <= x.id < t'.nextSongId
      {
      }
      assert PendingUrisUnique(t'.songs);
    }
  }

  /** The handler of `POST /played`. */
  method PostPlayed(db: Db, songId: Option<int>) returns (reply: PlayedReply, broadcast: Option<Rooms.Broadcast>)
    requires db.Valid()
    modifies db
    ensures db.Valid()
    ensures Step(db.State(), reply, broadcast) == PlayedStep(old(db.State()), songId)
  {
    PlayedKeepsConsistent(db.State(), songId);
    var found := if songId.Some? then FindSong(db.songs, songId.value) else None;
    if found.None? {
      return PlayedSongNotFound, None;
    }
    var song := found.value;
    db.songs := SetPlayed(db.songs, song.id);
    reply, broadcast := PlayedOk, Some(Rooms.Broadcast(song.partyId, Rooms.SongPlayed(song.id)));
  }

  // ------------------------------------------------------------- remove

  /** `DELETE /:songId`: the requester is the host when the song's party's
      `hostId` equals the body's `hostId` (both absent counts as equal). */
  function RemoveStep(t: Tables, songId: int, hostId: Option<string>): Step<RemoveReply> {
    match FindSong(t.songs, songId)
    case None => Step(t, RemoveSongNotFound, None)
    case Some(song) =>
      var party := FindPartyById(t.parties, song.partyId);
      var isHost := if party.Some? then hostId == Some(party.value.hostId) else hostId.None?;
      if !isHost then Step(t, NotHost, None)
      else
        var t' := t.(votes := DeleteSongVotes(t.votes, songId), songs := Where(t.songs, IdIsNot(songId)));
        Step(t', RemovedOk, Some(Rooms.Broadcast(song.partyId, Rooms.SongRemoved(songId))))
  }

  /** Anyone but the host gets 403 and nothing is deleted; the host's request
      deletes the song and every vote row that references it and nothing
      else. */
  lemma RemoveIsHostOnly(t: Tables, songId: int, hostId: Option<string>, party: Party)
    requires songId in SongIds(t.songs)
    requires FindPartyById(t.parties, FindSong(t.songs, songId).value.partyId) == Some(party)
    ensures var st := RemoveStep(t, songId, hostId);
      && (hostId != Some(party.hostId) ==> st == Step(t, NotHost, None) && st.reply.Status() == 403)
      && (hostId == Some(party.hostId) ==>
            && st.reply == RemovedOk
            && (forall x :: x in st.tables.songs <==> x in t.songs && x.id != songId)
            && (forall v :: v in st.tables.votes <==> v in t.votes && v.songId != songId)
            && st.tables.parties == t.parties
            && st.broadcast == Some(Rooms.Broadcast(party.id, Rooms.SongRemoved(songId))))
  {
  }

  /** Removing a song that does not exist gets 404 and changes nothing. */
  lemma RemoveUnknownSong(t: Tables, songId: int, hostId: Option<string>)
    requires songId !in SongIds(t.songs)
    ensures RemoveStep(t, songId, hostId) == Step(t, RemoveSongNotFound, None)
    ensures RemoveSongNotFound.Status() == 404
  {
  }

  /** What the ownership guard alone does for a song whose party row does
      not exist: the song is removed exactly when the request carries no
      hostId, since `undefined === undefined`. The foreign key on
      `songs.party_id` keeps such a song out of a consistent database
      (`SongPartyExists`), so there the host check always applies. */
  lemma RemoveWithoutPartyRow(t: Tables, songId: int, hostId: Option<string>)
    requires songId in SongIds(t.songs)
    requires forall p :: p in t.parties ==> p.id != FindSong(t.songs, songId).value.partyId
    ensures RemoveStep(t, songId, hostId).reply == RemovedOk <==> hostId.None?
  {
  }

  lemma RemoveKeepsConsistent(t: Tables, songId: int, hostId: Option<string>)
    requires Consistent(t)
    ensures Consistent(RemoveStep(t, songId, hostId).tables)
  {
    var st := RemoveStep(t, songId, hostId);
    if st.reply.RemovedOk? {
      var t' := st.tables;
      WhereKeepsDistinct(t.songs, IdIsNot(songId));
      forall v | v in t'.votes
        ensures v.songId in SongIds(t'.songs)
      {
        var s :| s in t.songs && s.id == v.songId;
        assert s in t'.songs;
      }
      forall s | s in t'.songs
        ensures Tally(t'.votes, s.id) <= s.votes <= Tally(t'.votes, s.id) + 1
      {
        assert VotesFor(t'.votes, s.id) == VotesFor(t.votes, s.id);
      }
    }
  }

  /** The handler of `DELETE /:songId`. */
  method DeleteSong(db: Db, songId: int, hostId: Option<string>) returns (reply: RemoveReply, broadcast: Option<Rooms.Broadcast>)
    requires db.Valid()
    modifies db
    ensures db.Valid()
    ensures Step(db.State(), reply, broadcast) == RemoveStep(old(db.State()), songId, hostId)
  {
    RemoveKeepsConsistent(db.State(), songId, hostId);
    var found := FindSong(db.songs, songId);
    if found.None? {
      return RemoveSongNotFound, None;
    }
    var song := found.value;
    var party := FindPartyById(db.parties, song.partyId);
    var isHost := if party.Some? then hostId == Some(party.value.hostId) else hostId.None?;
    if !isHost {
      return NotHost, None;
    }
    db.votes := DeleteSongVotes(db.votes, songId);
    db.songs := Where(db.songs, IdIsNot(songId));
    reply, broadcast := RemovedOk, Some(Rooms.Broadcast(song.partyId, Rooms.SongRemoved(songId)));
  }

  // ------------------------------------------------------- consequences

  /** Because every song's `votes` is at least its number of vote rows, no
      song ever has negative votes and the `Math.max(0, ...)` of a downvote
      never takes effect. */
  lemma VotesNeverNegative(t: Tables, s: Song, session: string)
    requires Consistent(t) && s in t.songs
    ensures s.votes >= 0
    ensures HasVote(t.votes, s.id, session) ==> Max(0, s.votes - 1) == s.votes - 1
  {
    if HasVote(t.votes, s.id, session) {
      var w :| w in t.votes && w.songId == s.id && w.sessionId == session;
      assert w in VotesFor(t.votes, s.id);
    }
  }
}
