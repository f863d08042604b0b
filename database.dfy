/** The three SQLite tables (`parties`, `songs`, `votes`), the queries and
    updates the routes run on them, and the invariants the routes keep: the
    UNIQUE constraints of the schema plus the bookkeeping facts that the
    route handlers maintain between a song's `votes` column and its rows in
    `votes`. */
module Database {
  import opened Wrappers

  /** A row of `parties`. `createdAt` is the insertion time in seconds. */
  datatype Party = Party(
    id: int,
    code: string,
    hostId: string,
    spotifyAccessToken: Option<string>,
    spotifyRefreshToken: Option<string>,
    spotifyTokenExpiry: Option<int>,
    createdAt: int)

  /** A row of `songs`: a queue entry. `queuedAt` is the insertion time in
      seconds, so two songs queued in the same second tie. */
  datatype Song = Song(
    id: int,
    partyId: int,
    spotifyUri: string,
    title: string,
    artist: string,
    albumArt: Option<string>,
    votes: int,
    played: bool,
    queuedAt: int)

  /** A row of `votes`: one session's vote for one song. */
  datatype Vote = Vote(id: int, songId: int, sessionId: string)

  /** The whole database. `songs` and `parties` are kept in insertion order,
      which the model uses wherever SQLite does not fix an order (the first
      match of `findFirst`, ties in `ORDER BY`). The `next...Id` counters are the
      AUTOINCREMENT sequences: an id is never handed out twice. */
  datatype Tables = Tables(
    parties: seq<Party>,
    songs: seq<Song>,
    votes: set<Vote>,
    nextPartyId: int,
    nextSongId: int,
    nextVoteId: int)

  /** The freshly created database file. */
  const EmptyTables := Tables([], [], {}, 1, 1, 1)

  // ---------------------------------------------------------------- songs

  /** The `where` conditions the routes put on the songs table. */
  datatype SongWhere =
    | IdIs(id: int)
    | IdIsNot(id: int)
    | PartyIs(partyId: int)
    | PartyIsNot(partyId: int)
    | PendingIn(partyId: int)
    | PendingWithUri(partyId: int, uri: string)

  predicate Matches(s: Song, w: SongWhere) {
    match w
    case IdIs(id) => s.id == id
    case IdIsNot(id) => s.id != id
    case PartyIs(p) => s.partyId == p
    case PartyIsNot(p) => s.partyId != p
    case PendingIn(p) => s.partyId == p && !s.played
    case PendingWithUri(p, uri) => s.partyId == p && s.spotifyUri == uri && !s.played
  }

  /** No two rows share an id (the primary key). */
  ghost predicate DistinctIds(songs: seq<Song>) {
    forall i, j :: 0 <= i < j < |songs| ==> songs[i].id != songs[j].id
  }

  function SongIds(songs: seq<Song>): set<int> {
    set s | s in songs :: s.id
  }

  lemma DistinctCons(h: Song, t: seq<Song>)
    requires DistinctIds(t)
    requires forall s :: s in t ==> s.id != h.id
    ensures DistinctIds([h] + t)
  {
    var r := [h] + t;
    forall i, j | 0 <= i < j < |r|
      ensures r[i].id != r[j].id
    {
      assert r[j] == t[j - 1];
      if i > 0 {
        assert r[i] == t[i - 1];
      }
    }
  }

  /** The rows matching `w`, in table order (`findMany({ where })`). */
  function Where(songs: seq<Song>, w: SongWhere): (r: seq<Song>)
    ensures forall x :: x in r <==> x in songs && Matches(x, w)
  {
    if songs == [] then []
    else
      assert songs == [songs[0]] + songs[1..];
      (if Matches(songs[0], w) then [songs[0]] else []) + Where(songs[1..], w)
  }

  /** A selected row occurs as often as in the table, and a row that does
      not match not at all. */
  lemma {:induction false} WhereCounts(songs: seq<Song>, w: SongWhere, x: Song)
    ensures multiset(Where(songs, w))[x] == if Matches(x, w) then multiset(songs)[x] else 0
  {
    if songs != [] {
      var head := if Matches(songs[0], w) then [songs[0]] else [];
      var rest := Where(songs[1..], w);
      WhereCounts(songs[1..], w, x);
      assert Where(songs, w) == head + rest;
      assert songs == [songs[0]] + songs[1..];
    }
  }

  /** Deleting or selecting rows keeps the primary key unique. */
  lemma {:induction false} WhereKeepsDistinct(songs: seq<Song>, w: SongWhere)
    requires DistinctIds(songs)
    ensures DistinctIds(Where(songs, w))
  {
    if songs != [] {
      var rest := Where(songs[1..], w);
      assert DistinctIds(songs[1..]);
      WhereKeepsDistinct(songs[1..], w);
      if Matches(songs[0], w) {
        forall s | s in rest
          ensures s.id != songs[0].id
        {
          var j :| 0 <= j < |songs[1..]| && songs[1..][j] == s;
          assert songs[j + 1] == s;
        }
        DistinctCons(songs[0], rest);
      }
    }
  }

  /** The first row of a result, if any (`findFirst`). */
  function First(rows: seq<Song>): (r: Option<Song>)
    ensures r.Some? <==> rows != []
    ensures r.Some? ==> r.value in rows
  {
    if rows == [] then None else Some(rows[0])
  }

  /** `findFirst({ where: eq(songs.id, id) })`. */
  function FindSong(songs: seq<Song>, id: int): (r: Option<Song>)
    ensures r.Some? ==> r.value in songs && r.value.id == id
    ensures r.None? <==> id !in SongIds(songs)
  {
    First(Where(songs, IdIs(id)))
  }

  /** With distinct ids, a row is found by its own id. */
  lemma FindSongFindsRow(songs: seq<Song>, s: Song)
    requires DistinctIds(songs) && s in songs
    ensures FindSong(songs, s.id) == Some(s)
  {
    var r := FindSong(songs, s.id).value;
    var i :| 0 <= i < |songs| && songs[i] == s;
    var j :| 0 <= j < |songs| && songs[j] == r;
    assert i == j;
  }

  /** `update songs set votes = n where id = ?`. */
  function SetVotes(songs: seq<Song>, id: int, n: int): (r: seq<Song>)
    ensures |r| == |songs|
    ensures forall i :: 0 <= i < |r| ==>
      && (songs[i].id != id ==> r[i] == songs[i])
      && (songs[i].id == id ==> r[i].votes == n && r[i].(votes := songs[i].votes) == songs[i])
  {
    seq(|songs|, i requires 0 <= i < |songs| =>
      if songs[i].id == id then songs[i].(votes := n) else songs[i])
  }

  /** `update songs set played = true where id = ?`. */
  function SetPlayed(songs: seq<Song>, id: int): (r: seq<Song>)
    ensures |r| == |songs|
    ensures forall i :: 0 <= i < |r| ==>
      && (songs[i].id != id ==> r[i] == songs[i])
      && (songs[i].id == id ==> r[i].played && r[i].(played := songs[i].played) == songs[i])
  {
    seq(|songs|, i requires 0 <= i < |songs| =>
      if songs[i].id == id then songs[i].(played := true) else songs[i])
  }

  /** With the primary key unique, `update ... set votes` changes exactly the
      one row with that id and keeps every other row and every id. */
  lemma SetVotesRows(songs: seq<Song>, song: Song, n: int)
    requires DistinctIds(songs) && song in songs
    ensures forall x :: x in SetVotes(songs, song.id, n) <==>
      x == song.(votes := n) || (x in songs && x.id != song.id)
    ensures DistinctIds(SetVotes(songs, song.id, n))
    ensures SongIds(SetVotes(songs, song.id, n)) == SongIds(songs)
  {
    var r := SetVotes(songs, song.id, n);
    var k :| 0 <= k < |songs| && songs[k] == song;
    assert r[k] == song.(votes := n);
    forall x | x in r
      ensures x == song.(votes := n) || (x in songs && x.id != song.id)
    {
      var i :| 0 <= i < |r| && r[i] == x;
      if songs[i].id == song.id {
        assert i == k;
      }
    }
    forall x | x in songs && x.id != song.id
      ensures x in r
    {
      var i :| 0 <= i < |songs| && songs[i] == x;
      assert r[i] == x;
    }
    forall i, j | 0 <= i < j < |r|
      ensures r[i].id != r[j].id
    {
      assert r[i].id == songs[i].id && r[j].id == songs[j].id;
    }
    assert song.(votes := n).id == song.id;
  }

  /** Likewise for `update ... set played = true`. */
  lemma SetPlayedRows(songs: seq<Song>, song: Song)
    requires DistinctIds(songs) && song in songs
    ensures forall x :: x in SetPlayed(songs, song.id) <==>
      x == song.(played := true) || (x in songs && x.id != song.id)
    ensures DistinctIds(SetPlayed(songs, song.id))
    ensures SongIds(SetPlayed(songs, song.id)) == SongIds(songs)
  {
    var r := SetPlayed(songs, song.id);
    var k :| 0 <= k < |songs| && songs[k] == song;
    assert r[k] == song.(played := true);
    forall x | x in r
      ensures x == song.(played := true) || (x in songs && x.id != song.id)
    {
      var i :| 0 <= i < |r| && r[i] == x;
      if songs[i].id == song.id {
        assert i == k;
      }
    }
    forall x | x in songs && x.id != song.id
      ensures x in r
    {
      var i :| 0 <= i < |songs| && songs[i] == x;
      assert r[i] == x;
    }
    forall i, j | 0 <= i < j < |r|
      ensures r[i].id != r[j].id
    {
      assert r[i].id == songs[i].id && r[j].id == songs[j].id;
    }
    assert song.(played := true).id == song.id;
  }

  /** Setting a song's `votes` and then setting it back to what it was
      restores the table. */
  lemma SetVotesRestores(songs: seq<Song>, song: Song, n: int)
    requires DistinctIds(songs) && song in songs
    ensures SetVotes(SetVotes(songs, song.id, n), song.id, song.votes) == songs
  {
    var k :| 0 <= k < |songs| && songs[k] == song;
    var back := SetVotes(SetVotes(songs, song.id, n), song.id, song.votes);
    forall i | 0 <= i < |songs|
      ensures back[i] == songs[i]
    {
      if i != k {
        assert songs[i].id != song.id by {
          if i < k {
            assert songs[i].id != songs[k].id;
          } else {
            assert songs[k].id != songs[i].id;
          }
        }
      }
    }
  }

  /** Changing one song's `votes` keeps a URI pending at most once per
      party: the id, party, URI and `played` of every row stay. */
  lemma SetVotesKeepsPending(songs: seq<Song>, song: Song, n: int)
    requires DistinctIds(songs) && song in songs && PendingUrisUnique(songs)
    ensures PendingUrisUnique(SetVotes(songs, song.id, n))
  {
    SetVotesRows(songs, song, n);
    var r := SetVotes(songs, song.id, n);
    forall a, b | a in r && b in r && a.id != b.id && a.partyId == b.partyId && !a.played && !b.played
      ensures a.spotifyUri != b.spotifyUri
    {
      var a0 := if a.id == song.id then song else a;
      var b0 := if b.id == song.id then song else b;
      assert a0 in songs && b0 in songs;
    }
  }

  /** When one song's vote rows grow or shrink by `delta` and no other
      song's change, moving its `votes` by the same `delta` keeps every
      song's `votes` in step with its rows. */
  lemma TallyMatchesAfterSetVotes(songs: seq<Song>, votes: set<Vote>, votes': set<Vote>, song: Song, delta: int)
    requires DistinctIds(songs) && song in songs && TallyMatches(songs, votes)
    requires forall id :: Tally(votes', id) == Tally(votes, id) + (if id == song.id then delta else 0)
    ensures TallyMatches(SetVotes(songs, song.id, song.votes + delta), votes')
  {
    var n := song.votes + delta;
    SetVotesRows(songs, song, n);
    forall s | s in SetVotes(songs, song.id, n)
      ensures Tally(votes', s.id) <= s.votes <= Tally(votes', s.id) + 1
    {
      if s.id != song.id {
        assert s in songs;
      }
    }
  }

  /** Appending a row with a fresh id keeps the primary key unique. */
  lemma AppendKeepsDistinct(songs: seq<Song>, song: Song)
    requires DistinctIds(songs)
    requires forall s :: s in songs ==> s.id != song.id
    ensures DistinctIds(songs + [song])
    ensures SongIds(songs + [song]) == SongIds(songs) + {song.id}
  {
    var r := songs + [song];
    forall i, j | 0 <= i < j < |r|
      ensures r[i].id != r[j].id
    {
      assert r[i] == songs[i];
      if j < |songs| {
        assert r[j] == songs[j];
      } else {
        assert songs[i] in songs;
      }
    }
    assert r[|songs|] == song;
  }

  // ---------------------------------------------------------------- votes

  /** The vote rows of one song. */
  function VotesFor(votes: set<Vote>, songId: int): (r: set<Vote>)
    ensures r <= votes
  {
    set v | v in votes && v.songId == songId
  }

  /** The number of vote rows a song has. */
  function Tally(votes: set<Vote>, songId: int): nat {
    |VotesFor(votes, songId)|
  }

  /** `findFirst` on the votes table by (song, session). */
  predicate HasVote(votes: set<Vote>, songId: int, sessionId: string) {
    exists v :: v in votes && v.songId == songId && v.sessionId == sessionId
  }

  /** `delete from votes where song_id = ? and session_id = ?`: afterwards
      the session has no vote on the song, and no other row is gone. */
  function DeleteVote(votes: set<Vote>, songId: int, sessionId: string): (r: set<Vote>)
    ensures r <= votes && !HasVote(r, songId, sessionId)
    ensures forall v :: v in votes && (v.songId != songId || v.sessionId != sessionId) ==> v in r
  {
    set v | v in votes && !(v.songId == songId && v.sessionId == sessionId)
  }

  /** `delete from votes where song_id = ?`: afterwards the song has no
      vote row, and no row of another song is gone. */
  function DeleteSongVotes(votes: set<Vote>, songId: int): (r: set<Vote>)
    ensures r <= votes && VotesFor(r, songId) == {}
    ensures forall v :: v in votes && v.songId != songId ==> v in r
  {
    set v | v in votes && v.songId != songId
  }

  /** Deleting a song's votes leaves it with none and every other song with
      the votes it had. */
  lemma TallyAfterDeleteSong(votes: set<Vote>, deleted: int, songId: int)
    ensures VotesFor(DeleteSongVotes(votes, deleted), songId) ==
      if songId == deleted then {} else VotesFor(votes, songId)
    ensures Tally(DeleteSongVotes(votes, deleted), songId) ==
      if songId == deleted then 0 else Tally(votes, songId)
  {
    if songId != deleted {
      assert VotesFor(DeleteSongVotes(votes, deleted), songId) == VotesFor(votes, songId);
    }
  }

  /** Retracting a vote keeps both keys of `votes`. */
  lemma DeleteVoteKeepsKeys(votes: set<Vote>, songId: int, sessionId: string)
    requires VoteKeys(votes)
    ensures VoteKeys(DeleteVote(votes, songId, sessionId))
  {
  }

  /** Inserting a fresh vote row adds one to its song's tally only. */
  lemma TallyAfterInsert(votes: set<Vote>, row: Vote, songId: int)
    requires row !in votes
    ensures Tally(votes + {row}, songId) == Tally(votes, songId) + (if row.songId == songId then 1 else 0)
  {
    if row.songId == songId {
      assert VotesFor(votes + {row}, songId) == VotesFor(votes, songId) + {row};
    } else {
      assert VotesFor(votes + {row}, songId) == VotesFor(votes, songId);
    }
  }

  /** Inserting a row whose id is above every existing one, for a (song,
      session) pair with no row yet, keeps both keys of `votes`. */
  lemma InsertVoteKeepsKeys(votes: set<Vote>, row: Vote)
    requires VoteKeys(votes) && !HasVote(votes, row.songId, row.sessionId)
    requires forall v :: v in votes ==> v.id < row.id
    ensures VoteKeys(votes + {row})
  {
    forall a, b | a in votes + {row} && b in votes + {row} && (a.id == b.id || (a.songId == b.songId && a.sessionId == b.sessionId))
      ensures a == b
    {
      if a != row {
        assert a in votes;
      }
      if b != row {
        assert b in votes;
      }
    }
  }

  /** With UNIQUE(song_id, session_id), retracting an existing vote takes
      exactly one off its song's tally and leaves the others alone. */
  lemma TallyAfterDelete(votes: set<Vote>, voted: int, sessionId: string, songId: int)
    requires VoteKeys(votes) && HasVote(votes, voted, sessionId)
    ensures Tally(DeleteVote(votes, voted, sessionId), songId) == Tally(votes, songId) - (if voted == songId then 1 else 0)
  {
    var w :| w in votes && w.songId == voted && w.sessionId == sessionId;
    if voted == songId {
      assert VotesFor(DeleteVote(votes, voted, sessionId), songId) == VotesFor(votes, songId) - {w};
      assert w in VotesFor(votes, songId);
    } else {
      assert VotesFor(DeleteVote(votes, voted, sessionId), songId) == VotesFor(votes, songId);
    }
  }

  /** An upvote's two writes, the new row and `votes + 1`, keep the songs'
      votes in step with their rows. */
  lemma TallyMatchesAfterUpvote(songs: seq<Song>, votes: set<Vote>, song: Song, row: Vote)
    requires DistinctIds(songs) && song in songs && TallyMatches(songs, votes)
    requires row !in votes && row.songId == song.id
    ensures TallyMatches(SetVotes(songs, song.id, song.votes + 1), votes + {row})
  {
    forall id
      ensures Tally(votes + {row}, id) == Tally(votes, id) + (if id == song.id then 1 else 0)
    {
      TallyAfterInsert(votes, row, id);
    }
    TallyMatchesAfterSetVotes(songs, votes, votes + {row}, song, 1);
  }

  /** A downvote's two writes, deleting the session's row and `votes - 1`,
      keep the songs' votes in step with their rows. */
  lemma TallyMatchesAfterDownvote(songs: seq<Song>, votes: set<Vote>, song: Song, sessionId: string)
    requires DistinctIds(songs) && song in songs && TallyMatches(songs, votes)
    requires VoteKeys(votes) && HasVote(votes, song.id, sessionId)
    ensures TallyMatches(SetVotes(songs, song.id, song.votes - 1), DeleteVote(votes, song.id, sessionId))
  {
    var votes' := DeleteVote(votes, song.id, sessionId);
    forall id
      ensures Tally(votes', id) == Tally(votes, id) + (if id == song.id then -1 else 0)
    {
      TallyAfterDelete(votes, song.id, sessionId, id);
    }
    TallyMatchesAfterSetVotes(songs, votes, votes', song, -1);
  }

  // -------------------------------------------------------------- parties

  /** `findFirst({ where: eq(parties.code, code) })`. */
  function FindPartyByCode(parties: seq<Party>, code: string): (r: Option<Party>)
    ensures r.Some? ==> r.value in parties && r.value.code == code
    ensures r.None? <==> forall p :: p in parties ==> p.code != code
  {
    if parties == [] then None
    else if parties[0].code == code then Some(parties[0])
    else
      assert parties == [parties[0]] + parties[1..];
      FindPartyByCode(parties[1..], code)
  }

  function PartyIds(parties: seq<Party>): set<int> {
    set p | p in parties :: p.id
  }

  /** `findFirst({ where: eq(parties.id, id) })`. */
  function FindPartyById(parties: seq<Party>, id: int): (r: Option<Party>)
    ensures r.Some? ==> r.value in parties && r.value.id == id
    ensures r.None? <==> forall p :: p in parties ==> p.id != id
    ensures r.None? <==> id !in PartyIds(parties)
  {
    if parties == [] then None
    else if parties[0].id == id then Some(parties[0])
    else
      assert parties == [parties[0]] + parties[1..];
      FindPartyById(parties[1..], id)
  }

  /** `delete from parties where id = ?`. */
  function DeleteParty(parties: seq<Party>, id: int): (r: seq<Party>)
    ensures forall p :: p in r <==> p in parties && p.id != id
    ensures |r| <= |parties|
  {
    if parties == [] then []
    else
      assert parties == [parties[0]] + parties[1..];
      (if parties[0].id != id then [parties[0]] else []) + DeleteParty(parties[1..], id)
  }

  // ----------------------------------------------------------- invariants

  /** UNIQUE on `parties.code`, and the primary key `parties.id`. */
  ghost predicate PartyKeys(parties: seq<Party>) {
    forall i, j :: 0 <= i < j < |parties| ==>
      parties[i].id != parties[j].id && parties[i].code != parties[j].code
  }

  /** UNIQUE(song_id, session_id) on `votes`, and its primary key. */
  ghost predicate VoteKeys(votes: set<Vote>) {
    forall a, b :: a in votes && b in votes && (a.id == b.id || (a.songId == b.songId && a.sessionId == b.sessionId)) ==> a == b
  }

  /** The add route refuses a URI already pending in the party. */
  ghost predicate PendingUrisUnique(songs: seq<Song>) {
    forall a, b ::
      (a in songs && b in songs && a.id != b.id && a.partyId == b.partyId && !a.played && !b.played)
      ==> a.spotifyUri != b.spotifyUri
  }

  /** A song's `votes` counts its vote rows, plus the creation vote of a song
      added without a session id, which has no row. */
  ghost predicate TallyMatches(songs: seq<Song>, votes: set<Vote>) {
    forall s :: s in songs ==> Tally(votes, s.id) <= s.votes <= Tally(votes, s.id) + 1
  }

  /** `songs.party_id REFERENCES parties(id)`. better-sqlite3 builds SQLite
      with foreign keys enforced, so an insert that breaks this fails. */
  ghost predicate SongsHaveParties(songs: seq<Song>, parties: seq<Party>) {
    forall s :: s in songs ==> s.partyId in PartyIds(parties)
  }

  ghost predicate Consistent(t: Tables) {
    && 1 <= t.nextPartyId && 1 <= t.nextSongId && 1 <= t.nextVoteId
    && PartyKeys(t.parties)
    && (forall p :: p in t.parties ==> 1 <= p.id < t.nextPartyId)
    && DistinctIds(t.songs)
    && (forall s :: s in t.songs ==> 1 <= s.id < t.nextSongId)
    && SongsHaveParties(t.songs, t.parties)
    && VoteKeys(t.votes)
    && (forall v :: v in t.votes ==> 1 <= v.id < t.nextVoteId && v.songId in SongIds(t.songs))
    && PendingUrisUnique(t.songs)
    && TallyMatches(t.songs, t.votes)
  }

  lemma PartyKeysCons(h: Party, rest: seq<Party>)
    requires PartyKeys(rest)
    requires forall q :: q in rest ==> q.id != h.id && q.code != h.code
    ensures PartyKeys([h] + rest)
  {
    var r := [h] + rest;
    forall i, j | 0 <= i < j < |r|
      ensures r[i].id != r[j].id && r[i].code != r[j].code
    {
      assert r[j] == rest[j - 1];
      if i > 0 {
        assert r[i] == rest[i - 1];
      }
    }
  }

  /** Inserting a party whose id and code are both new keeps both keys
      unique. */
  lemma AppendPartyKeepsKeys(parties: seq<Party>, p: Party)
    requires PartyKeys(parties)
    requires forall q :: q in parties ==> q.id != p.id && q.code != p.code
    ensures PartyKeys(parties + [p])
  {
    var r := parties + [p];
    forall i, j | 0 <= i < j < |r|
      ensures r[i].id != r[j].id && r[i].code != r[j].code
    {
      assert r[i] == parties[i];
      if j < |parties| {
        assert r[j] == parties[j];
      } else {
        assert parties[i] in parties;
      }
    }
  }

  lemma {:induction false} DeletePartyKeepsKeys(parties: seq<Party>, id: int)
    requires PartyKeys(parties)
    ensures PartyKeys(DeleteParty(parties, id))
  {
    if parties != [] {
      var rest := parties[1..];
      assert PartyKeys(rest) by {
        forall i, j | 0 <= i < j < |rest|
          ensures rest[i].id != rest[j].id && rest[i].code != rest[j].code
        {
          assert rest[i] == parties[i + 1] && rest[j] == parties[j + 1];
        }
      }
      DeletePartyKeepsKeys(rest, id);
      if parties[0].id != id {
        forall q | q in DeleteParty(rest, id)
          ensures q.id != parties[0].id && q.code != parties[0].code
        {
          var k :| 0 <= k < |rest| && rest[k] == q;
          assert parties[k + 1] == q;
        }
        PartyKeysCons(parties[0], DeleteParty(rest, id));
      }
    }
  }

  /** Under the primary key, a song id names one row. */
  lemma SameIdSameRow(songs: seq<Song>, a: Song, b: Song)
    requires DistinctIds(songs) && a in songs && b in songs
    ensures a.id == b.id ==> a == b
  {
    var i :| 0 <= i < |songs| && songs[i] == a;
    var j :| 0 <= j < |songs| && songs[j] == b;
    assert a.id == b.id ==> !(i < j) && !(j < i);
  }

  /** Under UNIQUE(code), a code names one party. */
  lemma SameCodeSameParty(parties: seq<Party>, a: Party, b: Party)
    requires PartyKeys(parties) && a in parties && b in parties
    ensures a.code == b.code ==> a == b
  {
    var i :| 0 <= i < |parties| && parties[i] == a;
    var j :| 0 <= j < |parties| && parties[j] == b;
    assert a.code == b.code ==> !(i < j) && !(j < i);
  }

  /** Under the foreign key, every song's party row can be found. */
  lemma SongPartyExists(t: Tables, s: Song)
    requires Consistent(t) && s in t.songs
    ensures FindPartyById(t.parties, s.partyId).Some?
  {
  }

  lemma EmptyIsConsistent()
    ensures Consistent(EmptyTables)
  {
  }

  /** The database connection: the three tables and their id sequences. */
  class Db {
    var parties: seq<Party>
    var songs: seq<Song>
    var votes: set<Vote>
    var nextPartyId: int
    var nextSongId: int
    var nextVoteId: int

    function State(): Tables
      reads this
    {
      Tables(parties, songs, votes, nextPartyId, nextSongId, nextVoteId)
    }

    ghost predicate Valid()
      reads this
    {
      Consistent(State())
    }

    /** Opening a new database file: the schema with no rows. */
    constructor ()
      ensures State() == EmptyTables && Valid()
    {
      parties, songs, votes := [], [], {};
      nextPartyId, nextSongId, nextVoteId := 1, 1, 1;
    }
  }
}
