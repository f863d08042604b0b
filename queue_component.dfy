/** The queue panel: the empty-queue notice, or the header count and one card
    per song, sorted by votes with the highest first and ranked from 1. */
module QueueComponent {
  import opened Ordering
  import opened UseParty

  /** `b.votes - a.votes` as a rank: more votes first, nothing else compared. */
  function VotesRank(s: ClientSong): Rank {
    Rank(s.votes, 0)
  }

  datatype Card = Card(song: ClientSong, rank: nat)

  /** What the panel shows. */
  datatype View = EmptyQueue | UpNext(count: nat, cards: seq<Card>)

  /** `[...songs].sort(...)`: a sorted copy; the caller's list is a value and
      is not touched. */
  function SortedSongs(songs: seq<ClientSong>): seq<ClientSong> {
    SortByRank(songs, VotesRank)
  }

  /** `sortedSongs.map((song, index) => <SongCard rank={index + 1} />)`. */
  function Cards(sorted: seq<ClientSong>): (r: seq<Card>)
    ensures |r| == |sorted|
  {
    seq(|sorted|, i requires 0 <= i < |sorted| => Card(sorted[i], i + 1))
  }

  function Render(songs: seq<ClientSong>): View {
    if |songs| == 0 then EmptyQueue
    else UpNext(|songs|, Cards(SortedSongs(songs)))
  }

  /** The songs in display order. */
  function Shown(cards: seq<Card>): seq<ClientSong> {
    seq(|cards|, i requires 0 <= i < |cards| => cards[i].song)
  }

  /** The notice is shown exactly for an empty list; otherwise the header
      counts every song and the cards are ranked 1, 2, ... in order. */
  lemma RenderShape(songs: seq<ClientSong>)
    ensures Render(songs) == EmptyQueue <==> songs == []
    ensures Render(songs).UpNext? ==>
      && Render(songs).count == |songs|
      && |Render(songs).cards| == |songs|
      && forall i :: 0 <= i < |Render(songs).cards| ==> Render(songs).cards[i].rank == i + 1
  {
  }

  /** The cards show every song as often as the list holds it, by votes
      descending, and songs with equal votes in their order in the list. */
  lemma CardsAreStableSortByVotes(songs: seq<ClientSong>, votes: int)
    requires songs != []
    ensures var shown := Shown(Render(songs).cards);
      && multiset(shown) == multiset(songs)
      && (forall i, j :: 0 <= i < j < |shown| ==> shown[i].votes >= shown[j].votes)
      && WithRank(shown, VotesRank, Rank(votes, 0)) == WithRank(songs, VotesRank, Rank(votes, 0))
  {
    var sorted := SortedSongs(songs);
    var shown := Shown(Render(songs).cards);
    assert shown == sorted;
    forall i, j | 0 <= i < j < |shown|
      ensures shown[i].votes >= shown[j].votes
    {
      assert !Outranks(VotesRank(sorted[j]), VotesRank(sorted[i]));
    }
    SortIsStable(songs, VotesRank, Rank(votes, 0));
  }
}
