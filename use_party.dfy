/** The client's party state: the reducer that applies server messages to
    `{party, queue, nowPlaying}` and the optimistic update of a vote. */
module UseParty {
  import opened Wrappers

  datatype Direction = Up | Down

  /** A queued song as the client holds it; `userVote` is this user's vote
      (`undefined` and `null` are both `None`). */
  datatype ClientSong = ClientSong(
    id: string,
    spotifyId: string,
    title: string,
    artist: string,
    albumArt: Option<string>,
    uri: string,
    votes: int,
    userVote: Option<Direction>)

  datatype ClientParty = ClientParty(id: string, code: string, name: string, hostId: string)

  datatype PartyState = PartyState(party: Option<ClientParty>, queue: seq<ClientSong>, nowPlaying: Option<ClientSong>)

  /** The hook's two pieces of state: the party state and the error text. */
  datatype HookState = HookState(state: PartyState, error: Option<string>)

  const InitialState := HookState(PartyState(None, [], None), None)

  /** The messages the reducer distinguishes by `type`; fields the sender may
      leave out are `Option`s. */
  datatype Incoming =
    | PartyStateMessage(party: Option<ClientParty>, queue: Option<seq<ClientSong>>, nowPlaying: Option<ClientSong>)
    | QueueUpdateMessage(queue: Option<seq<ClientSong>>)
    | SongAddedMessage(song: ClientSong)
    | VoteUpdateMessage(songId: string, votes: int, userVote: Option<Direction>)
    | NowPlayingMessage(playing: Option<ClientSong>)
    | ErrorMessage(message: string)
    | OtherMessage(kind: string)

  // ----------------------------------------------------------- reducer

  /** `queue.filter(s => s.id !== id)`. */
  function Without(queue: seq<ClientSong>, id: string): (r: seq<ClientSong>)
    ensures forall x :: x in r <==> x in queue && x.id != id
    ensures |r| <= |queue|
  {
    if queue == [] then []
    else
      assert queue == [queue[0]] + queue[1..];
      (if queue[0].id != id then [queue[0]] else []) + Without(queue[1..], id)
  }

  /** `queue.map(...)` for a `vote:update`: the songs with that id take the
      message's votes and userVote. */
  function ApplyVoteUpdate(queue: seq<ClientSong>, songId: string, votes: int, userVote: Option<Direction>): seq<ClientSong> {
    seq(|queue|, i requires 0 <= i < |queue| =>
      if queue[i].id == songId then queue[i].(votes := votes, userVote := userVote) else queue[i])
  }

  /** `handleMessage`. */
  function HandleMessage(h: HookState, msg: Incoming): HookState {
    var s := h.state;
    match msg
    case PartyStateMessage(party, queue, nowPlaying) =>
      h.(state := PartyState(party, if queue.Some? then queue.value else [], nowPlaying))
    case QueueUpdateMessage(queue) =>
      h.(state := s.(queue := if queue.Some? then queue.value else s.queue))
    case SongAddedMessage(song) =>
      h.(state := s.(queue := s.queue + [song]))
    case VoteUpdateMessage(songId, votes, userVote) =>
      h.(state := s.(queue := ApplyVoteUpdate(s.queue, songId, votes, userVote)))
    case NowPlayingMessage(playing) =>
      h.(state := s.(nowPlaying := playing, queue := if playing.Some? then Without(s.queue, playing.value.id) else s.queue))
    case ErrorMessage(message) =>
      h.(error := Some(message))
    case OtherMessage(_) =>
      h
  }

  /** `party:state` replaces the whole state, a missing queue becoming [];
      `queue:update` replaces the queue, keeping it when none is sent; the
      error state is left alone by both. */
  lemma StateMessagesReplace(h: HookState, party: Option<ClientParty>, queue: Option<seq<ClientSong>>, nowPlaying: Option<ClientSong>)
    ensures HandleMessage(h, PartyStateMessage(party, None, nowPlaying)).state == PartyState(party, [], nowPlaying)
    ensures queue.Some? ==> HandleMessage(h, PartyStateMessage(party, queue, nowPlaying)).state == PartyState(party, queue.value, nowPlaying)
    ensures HandleMessage(h, QueueUpdateMessage(None)) == h
    ensures queue.Some? ==> HandleMessage(h, QueueUpdateMessage(queue)).state == h.state.(queue := queue.value)
    ensures HandleMessage(h, PartyStateMessage(party, queue, nowPlaying)).error == h.error
    ensures HandleMessage(h, QueueUpdateMessage(queue)).error == h.error
  {
  }

  /** `song:added` appends at the end and keeps the rest of the queue. */
  lemma SongAddedAppends(h: HookState, song: ClientSong)
    ensures var q := HandleMessage(h, SongAddedMessage(song)).state.queue;
      && |q| == |h.state.queue| + 1 && q[|q| - 1] == song && q[..|q| - 1] == h.state.queue
    ensures HandleMessage(h, SongAddedMessage(song)).state.party == h.state.party
    ensures HandleMessage(h, SongAddedMessage(song)).state.nowPlaying == h.state.nowPlaying
  {
    var q := HandleMessage(h, SongAddedMessage(song)).state.queue;
    assert q[..|q| - 1] == h.state.queue;
  }

  /** The filter works entry by entry, so the kept songs stay in their
      order: filtering a concatenation concatenates the filtered parts. */
  lemma {:induction false} WithoutAppend(a: seq<ClientSong>, b: seq<ClientSong>, id: string)
    ensures Without(a + b, id) == Without(a, id) + Without(b, id)
  {
    if a == [] {
      assert a + b == b;
    } else {
      assert (a + b)[1..] == a[1..] + b;
      WithoutAppend(a[1..], b, id);
    }
  }

  /** Every song with another id stays as often as it was there, and none
      with that id does. */
  lemma {:induction false} WithoutCounts(queue: seq<ClientSong>, id: string, x: ClientSong)
    ensures multiset(Without(queue, id))[x] == if x.id == id then 0 else multiset(queue)[x]
  {
    if queue != [] {
      assert queue == [queue[0]] + queue[1..];
      WithoutCounts(queue[1..], id, x);
    }
  }

  /** A single entry is kept exactly when its id differs. */
  lemma WithoutSingle(x: ClientSong, id: string)
    ensures Without([x], id) == if x.id == id then [] else [x]
  {
    assert [x][1..] == [];
  }

  /** `vote:update` overwrites votes and userVote of the songs with that id
      and of no other song, keeping the queue's order and length. */
  lemma VoteUpdateOverwritesMatching(h: HookState, songId: string, votes: int, userVote: Option<Direction>)
    ensures var q := HandleMessage(h, VoteUpdateMessage(songId, votes, userVote)).state.queue;
      var old_q := h.state.queue;
      && |q| == |old_q|
      && (forall i :: 0 <= i < |q| && old_q[i].id == songId ==>
            q[i].votes == votes && q[i].userVote == userVote
            && q[i].(votes := old_q[i].votes, userVote := old_q[i].userVote) == old_q[i])
      && (forall i :: 0 <= i < |q| && old_q[i].id != songId ==> q[i] == old_q[i])
  {
  }

  /** `now-playing:update` with a song makes it the current song and drops
      every queue entry with its id; `null` only clears the current song. */
  lemma NowPlayingDequeues(h: HookState, song: ClientSong)
    ensures var s := HandleMessage(h, NowPlayingMessage(Some(song))).state;
      && s.nowPlaying == Some(song)
      && (forall x :: x in s.queue <==> x in h.state.queue && x.id != song.id)
      && (forall x :: x in s.queue ==> x.id != song.id)
      && s.party == h.state.party
    ensures HandleMessage(h, NowPlayingMessage(None)).state == h.state.(nowPlaying := None)
  {
  }

  /** The other entries stay as often as before. */
  lemma NowPlayingKeepsCounts(h: HookState, song: ClientSong, x: ClientSong)
    ensures var q := HandleMessage(h, NowPlayingMessage(Some(song))).state.queue;
      multiset(q)[x] == if x.id == song.id then 0 else multiset(h.state.queue)[x]
  {
    assert HandleMessage(h, NowPlayingMessage(Some(song))).state.queue == Without(h.state.queue, song.id);
    WithoutCounts(h.state.queue, song.id, x);
  }

  /** The other entries stay in their order: split the old queue anywhere,
      and the new one is the two parts filtered, one after the other. */
  lemma NowPlayingKeepsOrder(h: HookState, song: ClientSong, k: nat)
    requires k <= |h.state.queue|
    ensures var q := HandleMessage(h, NowPlayingMessage(Some(song))).state.queue;
      q == Without(h.state.queue[..k], song.id) + Without(h.state.queue[k..], song.id)
  {
    var q := h.state.queue;
    assert HandleMessage(h, NowPlayingMessage(Some(song))).state.queue == Without(q, song.id);
    assert q == q[..k] + q[k..];
    WithoutAppend(q[..k], q[k..], song.id);
  }

  /** `error` only sets the error text; an unknown type changes nothing. */
  lemma ErrorAndUnknownMessages(h: HookState, message: string, kind: string)
    ensures HandleMessage(h, ErrorMessage(message)) == h.(error := Some(message))
    ensures HandleMessage(h, OtherMessage(kind)) == h
  {
  }

  // ------------------------------------------------------ optimistic vote

  /** The vote count a user's vote contributes. */
  function Weight(v: Option<Direction>): int {
    match v
    case None => 0
    case Some(Up) => 1
    case Some(Down) => -1
  }

  function Opposite(d: Direction): Direction {
    if d == Up then Down else Up
  }

  /** The change in votes and the new userVote when the user clicks
      `direction` on a song they voted `current` on. */
  function VoteChange(current: Option<Direction>, direction: Direction): (int, Option<Direction>) {
    if current == Some(direction) then (if direction == Up then -1 else 1, None)
    else if current.Some? then (if direction == Up then 2 else -2, Some(direction))
    else (if direction == Up then 1 else -1, Some(direction))
  }

  /** The three cases of the rule: a new vote counts once, the same vote
      again retracts it, the other vote flips it; the change is always the
      difference in weight, so `votes - Weight(userVote)` is unchanged. */
  lemma VoteChangeCases(current: Option<Direction>, direction: Direction)
    ensures var (delta, next) := VoteChange(current, direction);
      && (current.None? ==> next == Some(direction) && delta == Weight(Some(direction)))
      && (current == Some(direction) ==> next.None? && delta == -Weight(current))
      && (current == Some(Opposite(direction)) ==> next == Some(direction) && delta == 2 * Weight(Some(direction)))
      && delta == Weight(next) - Weight(current)
  {
  }

  /** The optimistic update for one song. */
  function VoteOn(song: ClientSong, songId: string, direction: Direction): ClientSong {
    if song.id != songId then song
    else
      var (delta, next) := VoteChange(song.userVote, direction);
      song.(votes := song.votes + delta, userVote := next)
  }

  /** `vote(songId, direction)`: the optimistic state update. Sending the
      vote over the socket is not part of the model. */
  function Vote(s: PartyState, songId: string, direction: Direction): PartyState {
    s.(queue := seq(|s.queue|, i requires 0 <= i < |s.queue| => VoteOn(s.queue[i], songId, direction)))
  }

  /** Voting keeps `votes - Weight(userVote)` of every song, changes only
      votes and userVote and only on songs with that id, and leaves the party
      and the current song as they were. */
  lemma VoteKeepsBaseline(s: PartyState, songId: string, direction: Direction)
    ensures var s' := Vote(s, songId, direction);
      && |s'.queue| == |s.queue| && s'.party == s.party && s'.nowPlaying == s.nowPlaying
      && (forall i :: 0 <= i < |s.queue| ==>
            s'.queue[i].votes - Weight(s'.queue[i].userVote) == s.queue[i].votes - Weight(s.queue[i].userVote)
            && s'.queue[i].(votes := s.queue[i].votes, userVote := s.queue[i].userVote) == s.queue[i])
      && (forall i :: 0 <= i < |s.queue| && s.queue[i].id != songId ==> s'.queue[i] == s.queue[i])
      && (forall i :: 0 <= i < |s.queue| && s.queue[i].id == songId ==> s'.queue[i].userVote != s.queue[i].userVote)
  {
    var s' := Vote(s, songId, direction);
    forall i | 0 <= i < |s.queue|
      ensures s'.queue[i].votes - Weight(s'.queue[i].userVote) == s.queue[i].votes - Weight(s.queue[i].userVote)
    {
      VoteChangeCases(s.queue[i].userVote, direction);
    }
  }

  /** Clicking the same direction twice returns to the starting state,
      unless the song started with the opposite vote; then the two clicks
      flip and then retract, leaving no vote and the count one step away. */
  lemma VoteTwice(s: PartyState, songId: string, direction: Direction)
    requires forall i :: 0 <= i < |s.queue| && s.queue[i].id == songId ==> s.queue[i].userVote != Some(Opposite(direction))
    ensures Vote(Vote(s, songId, direction), songId, direction) == s
  {
    var twice := Vote(Vote(s, songId, direction), songId, direction);
    forall i | 0 <= i < |s.queue|
      ensures twice.queue[i] == s.queue[i]
    {
      var song := s.queue[i];
      if song.id == songId {
        assert song.userVote.None? || song.userVote == Some(direction) by {
          assert song.userVote != Some(Opposite(direction));
          if song.userVote.Some? {
            assert song.userVote.value == Up || song.userVote.value == Down;
          }
        }
      }
    }
    assert twice.queue == s.queue;
  }
}
