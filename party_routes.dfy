/** The party routes: creating a party under a fresh random code, joining
    and looking up a party by code, and deleting a party with everything
    queued in it. */
module PartyRoutes {
  import opened Wrappers
  import opened Database
  import Rooms
  import QueueRoutes

  // ------------------------------------------------------------ codes

  /** Position `i` of the code alphabet: the upper-case letters and digits
      without the look-alikes I, O, 0 and 1, that is A–H, J–N, P–Z, 2–9. */
  function AlphabetChar(i: Draw): (c: char)
    ensures CodeChar(c)
  {
    if i < 8 then ('A' as int + i) as char
    else if i < 13 then ('A' as int + i + 1) as char
    else if i < 24 then ('A' as int + i + 2) as char
    else ('2' as int + i - 24) as char
  }

  /** The 32 code characters, in the order of the generator's string. */
  const Alphabet: string := seq(32, i requires 0 <= i < 32 => AlphabetChar(i))

  const CodeLength: nat := 6

  /** One draw of `Math.floor(Math.random() * chars.length)`. */
  type Draw = i: int | 0 <= i < 32

  /** A character of the alphabet, by ranges. */
  predicate CodeChar(c: char) {
    ('A' <= c <= 'Z' && c != 'I' && c != 'O') || ('2' <= c <= '9')
  }

  /** The alphabet is the generator's `chars` string. */
  lemma AlphabetIsTheGeneratorString()
    ensures Alphabet == "ABCDEFGHJKLMNPQRSTUVWXYZ23456789"
  {
  }

  /** The alphabet has 32 characters, none of them a look-alike, and its
      characters are exactly those of `CodeChar`. */
  lemma AlphabetHasNoLookalikes(c: char)
    ensures |Alphabet| == 32
    ensures forall i :: 0 <= i < |Alphabet| ==>
      Alphabet[i] != 'I' && Alphabet[i] != 'O' && Alphabet[i] != '0' && Alphabet[i] != '1'
    ensures c in Alphabet <==> CodeChar(c)
  {
    if CodeChar(c) {
      assert Alphabet[IndexIn(c)] == c;
    }
  }

  /** The code spelled by draws `start` to `start + 5` of a random stream. */
  function CodeAt(draw: nat -> Draw, start: nat): string {
    seq(CodeLength, i requires 0 <= i < CodeLength => Alphabet[draw(start + i)])
  }

  /** A code the generator can produce: six characters of the alphabet. */
  predicate WellFormedCode(code: string) {
    |code| == CodeLength && forall i :: 0 <= i < |code| ==> CodeChar(code[i])
  }

  /** Every draw stream spells a well-formed code. */
  lemma DrawsSpellWellFormedCode(draw: nat -> Draw, start: nat)
    ensures WellFormedCode(CodeAt(draw, start))
  {
    var code := CodeAt(draw, start);
    forall i | 0 <= i < |code|
      ensures CodeChar(code[i])
    {
      assert code[i] == AlphabetChar(draw(start + i));
    }
  }

  /** The draws that spell `code` from position `start` on. */
  function DrawsFor(code: string, start: nat): nat -> Draw {
    n => DrawAt(code, start, n)
  }

  /** Draw `n` of the stream `DrawsFor(code, start)`. */
  function DrawAt(code: string, start: nat, n: nat): Draw {
    if start <= n < start + |code| then IndexIn(code[n - start]) else 0
  }

  /** Every well-formed code is spelled by some draw stream. */
  lemma WellFormedCodeIsDrawn(code: string, start: nat)
    requires WellFormedCode(code)
    ensures CodeAt(DrawsFor(code, start), start) == code
  {
    var d := DrawsFor(code, start);
    var spelled := CodeAt(d, start);
    forall i | 0 <= i < CodeLength
      ensures spelled[i] == code[i]
    {
      DrawsForApply(code, start, start + i);
      CodeAtSpells(d, start, i);
    }
  }

  lemma DrawsForApply(code: string, start: nat, n: nat)
    ensures DrawsFor(code, start)(n) == DrawAt(code, start, n)
  {
  }

  lemma CodeAtSpells(draw: nat -> Draw, start: nat, i: nat)
    requires i < CodeLength
    ensures CodeAt(draw, start)[i] == AlphabetChar(draw(start + i))
  {
  }

  /** The position of an alphabet character. */
  function IndexIn(c: char): (r: Draw)
    ensures CodeChar(c) ==> AlphabetChar(r) == c
  {
    if 'A' <= c <= 'H' then c as int - 'A' as int
    else if 'J' <= c <= 'N' then c as int - 'A' as int - 1
    else if 'P' <= c <= 'Z' then c as int - 'A' as int - 2
    else if '2' <= c <= '9' then c as int - '2' as int + 24
    else 0
  }

  /** `generatePartyCode`: six draws, one character each. */
  method GeneratePartyCode(draw: nat -> Draw, start: nat) returns (code: string)
    ensures code == CodeAt(draw, start)
    ensures WellFormedCode(code)
  {
    code := "";
    for i := 0 to CodeLength
      invariant code == CodeAt(draw, start)[..i]
    {
      code := code + [Alphabet[draw(start + i)]];
    }
    assert code == CodeAt(draw, start)[..CodeLength];
    DrawsSpellWellFormedCode(draw, start);
  }

  // ----------------------------------------------------------- create

  /** The code of attempt `k`: attempts use consecutive groups of six draws. */
  function AttemptCode(draw: nat -> Draw, k: nat): string {
    CodeAt(draw, CodeLength * k)
  }

  predicate CodeTaken(parties: seq<Party>, code: string) {
    FindPartyByCode(parties, code).Some?
  }

  /** Whether attempt `k` draws a code some party already has. */
  function Taken(parties: seq<Party>, draw: nat -> Draw): nat -> bool {
    (k: nat) => CodeTaken(parties, AttemptCode(draw, k))
  }

  /** Every attempt from `lo` up to, not including, `hi` is taken. */
  predicate AllTaken(taken: nat -> bool, lo: nat, hi: nat) {
    forall j :: lo <= j < hi ==> taken(j)
  }

  lemma AllTakenCons(taken: nat -> bool, lo: nat, hi: nat)
    requires lo < hi
    ensures AllTaken(taken, lo, hi) <==> taken(lo) && AllTaken(taken, lo + 1, hi)
  {
  }

  /** Attempt `k` is taken exactly when its code is some party's code. */
  lemma TakenApply(parties: seq<Party>, draw: nat -> Draw, k: nat)
    ensures Taken(parties, draw)(k) == CodeTaken(parties, AttemptCode(draw, k))
  {
  }

  lemma AllTakenSnoc(taken: nat -> bool, lo: nat, hi: nat)
    requires lo <= hi
    ensures AllTaken(taken, lo, hi + 1) <==> AllTaken(taken, lo, hi) && taken(hi)
  {
  }

  /** The first of attempts `k` to `k + remaining` that is not taken. */
  function FirstFreeFrom(taken: nat -> bool, k: nat, remaining: nat): (r: Option<nat>)
    decreases remaining
  {
    if !taken(k) then Some(k)
    else if remaining == 0 then None
    else FirstFreeFrom(taken, k + 1, remaining - 1)
  }

  /** `FirstFreeFrom` finds the earliest free attempt in its range, and finds
      none exactly when every attempt in the range is taken. */
  lemma {:induction false} FirstFreeIsEarliest(taken: nat -> bool, k: nat, remaining: nat)
    ensures var r := FirstFreeFrom(taken, k, remaining);
      && (r.Some? ==> k <= r.value <= k + remaining && !taken(r.value) && AllTaken(taken, k, r.value))
      && (r.None? <==> AllTaken(taken, k, k + remaining + 1))
    decreases remaining
  {
    AllTakenCons(taken, k, k + remaining + 1);
    if taken(k) && remaining > 0 {
      FirstFreeIsEarliest(taken, k + 1, remaining - 1);
      var r := FirstFreeFrom(taken, k + 1, remaining - 1);
      if r.Some? {
        AllTakenCons(taken, k, r.value);
      }
    }
  }

  /** An attempt that is free after only taken ones is the one found. */
  lemma FirstFreeIsOnly(taken: nat -> bool, fuel: nat, a: nat)
    requires a <= fuel && AllTaken(taken, 0, a) && !taken(a)
    ensures FirstFreeFrom(taken, 0, fuel) == Some(a)
  {
    FirstFreeIsEarliest(taken, 0, fuel);
    var r := FirstFreeFrom(taken, 0, fuel);
    assert !AllTaken(taken, 0, fuel + 1);
    assert !(r.value < a) && !(a < r.value);
  }

  datatype CreateReply = Created(party: Party) | HostIdRequired | Exhausted
  {
    function Status(): int {
      match this
      case Created(_) => 200
      case HostIdRequired => 400
      case Exhausted => 503
    }
  }

  /** `POST /create`, retrying at most `fuel` times after the first code. */
  function CreateStep(t: Tables, hostId: Option<string>, draw: nat -> Draw, fuel: nat, now: int): QueueRoutes.Step<CreateReply> {
    if !TruthyString(hostId) then QueueRoutes.Step(t, HostIdRequired, None)
    else
      match FirstFreeFrom(Taken(t.parties, draw), 0, fuel)
      case None => QueueRoutes.Step(t, Exhausted, None)
      case Some(k) =>
        var party := Party(t.nextPartyId, AttemptCode(draw, k), hostId.value, None, None, None, now);
        QueueRoutes.Step(t.(parties := t.parties + [party], nextPartyId := t.nextPartyId + 1), Created(party), None)
  }

  /** A missing or empty hostId gets 400; otherwise the party is created
      under the first generated code no party has, with no Spotify tokens,
      as a new last row with a new id. */
  lemma CreateUsesFirstFreeCode(t: Tables, hostId: Option<string>, draw: nat -> Draw, fuel: nat, now: int)
    requires Consistent(t)
    ensures var st := CreateStep(t, hostId, draw, fuel, now);
      && (!TruthyString(hostId) ==> st.tables == t && st.reply.Status() == 400)
      && (st.reply.Created? ==>
            var p := st.reply.party;
            && TruthyString(hostId) && p.hostId == hostId.value
            && WellFormedCode(p.code)
            && (forall q :: q in t.parties ==> q.code != p.code && q.id != p.id)
            && (exists k :: 0 <= k <= fuel && p.code == AttemptCode(draw, k)
                  && AllTaken(Taken(t.parties, draw), 0, k))
            && p.spotifyAccessToken.None? && p.spotifyRefreshToken.None? && p.spotifyTokenExpiry.None?
            && st.tables.parties == t.parties + [p]
            && st.tables.songs == t.songs && st.tables.votes == t.votes)
      && (TruthyString(hostId) && !CodeTaken(t.parties, AttemptCode(draw, 0)) ==>
            st.reply.Created? && st.reply.party.code == AttemptCode(draw, 0))
      && (st.reply.Exhausted? <==>
            TruthyString(hostId) && AllTaken(Taken(t.parties, draw), 0, fuel + 1))
  {
    FirstFreeIsEarliest(Taken(t.parties, draw), 0, fuel);
    var st := CreateStep(t, hostId, draw, fuel, now);
    if st.reply.Created? {
      var k := FirstFreeFrom(Taken(t.parties, draw), 0, fuel).value;
      DrawsSpellWellFormedCode(draw, CodeLength * k);
    }
  }

  lemma CreateKeepsConsistent(t: Tables, hostId: Option<string>, draw: nat -> Draw, fuel: nat, now: int)
    requires Consistent(t)
    ensures Consistent(CreateStep(t, hostId, draw, fuel, now).tables)
  {
    var st := CreateStep(t, hostId, draw, fuel, now);
    if st.reply.Created? {
      CreateUsesFirstFreeCode(t, hostId, draw, fuel, now);
      AppendPartyKeepsKeys(t.parties, st.reply.party);
    }
  }

  /** The retry loop of `POST /create`: draws codes until one is unused, at
      most `fuel` times after the first. */
  method FindFreeCode(parties: seq<Party>, draw: nat -> Draw, fuel: nat) returns (code: Option<string>)
    ensures var k := FirstFreeFrom(Taken(parties, draw), 0, fuel);
      code == if k.Some? then Some(AttemptCode(draw, k.value)) else None
    ensures code.Some? ==> WellFormedCode(code.value) && !CodeTaken(parties, code.value)
  {
    ghost var taken := Taken(parties, draw);
    var attempt := 0;
    var candidate := GeneratePartyCode(draw, 0);
    var existing := FindPartyByCode(parties, candidate);
    while existing.Some? && attempt < fuel
      invariant 0 <= attempt <= fuel
      invariant candidate == AttemptCode(draw, attempt)
      invariant existing == FindPartyByCode(parties, candidate)
      invariant AllTaken(taken, 0, attempt)
      decreases fuel - attempt
    {
      TakenApply(parties, draw, attempt);
      AllTakenSnoc(taken, 0, attempt);
      attempt := attempt + 1;
      candidate := GeneratePartyCode(draw, CodeLength * attempt);
      existing := FindPartyByCode(parties, candidate);
    }
    TakenApply(parties, draw, attempt);
    FirstFreeIsEarliest(taken, 0, fuel);
    if existing.Some? {
      AllTakenSnoc(taken, 0, fuel);
      return None;
    }
    FirstFreeIsOnly(taken, fuel, attempt);
    code := Some(candidate);
  }

  /** The handler of `POST /create`. The source retries until it finds a
      free code; here the retries are bounded by `fuel`. */
  method Create(db: Db, hostId: Option<string>, draw: nat -> Draw, fuel: nat, now: int) returns (reply: CreateReply)
    requires db.Valid()
    modifies db
    ensures db.Valid()
    ensures QueueRoutes.Step(db.State(), reply, None) == CreateStep(old(db.State()), hostId, draw, fuel, now)
  {
    CreateKeepsConsistent(db.State(), hostId, draw, fuel, now);
    if !TruthyString(hostId) {
      return HostIdRequired;
    }
    var code := FindFreeCode(db.parties, draw, fuel);
    if code.None? {
      return Exhausted;
    }
    var party := Party(db.nextPartyId, code.value, hostId.value, None, None, None, now);
    db.parties := db.parties + [party];
    db.nextPartyId := db.nextPartyId + 1;
    reply := Created(party);
  }

  // ------------------------------------------------------ join, details

  /** `String.prototype.toUpperCase` on ASCII letters. */
  function UpperChar(c: char): char {
    if 'a' <= c <= 'z' then (c as int - 32) as char else c
  }

  function ToUpper(s: string): (r: string)
    ensures |r| == |s|
  {
    seq(|s|, i requires 0 <= i < |s| => UpperChar(s[i]))
  }

  /** Upper-casing is idempotent and leaves generated codes as they are. */
  lemma ToUpperFacts(s: string)
    ensures ToUpper(ToUpper(s)) == ToUpper(s)
    ensures WellFormedCode(s) ==> ToUpper(s) == s
  {
    if WellFormedCode(s) {
      forall i | 0 <= i < |s|
        ensures ToUpper(s)[i] == s[i]
      {
        assert CodeChar(s[i]);
      }
    }
  }

  datatype JoinReply = JoinCodeRequired | JoinNotFound | JoinedParty(id: int, code: string)
  {
    function Status(): int {
      match this
      case JoinCodeRequired => 400
      case JoinNotFound => 404
      case JoinedParty(_, _) => 200
    }
  }

  /** `POST /join`: the code is matched after upper-casing it. */
  function Join(t: Tables, code: Option<string>): JoinReply {
    if !TruthyString(code) then JoinCodeRequired
    else
      match FindPartyByCode(t.parties, ToUpper(code.value))
      case None => JoinNotFound
      case Some(p) => JoinedParty(p.id, p.code)
  }

  /** A non-empty code joins the party whose code is its upper-case form,
      and gets 404 exactly when there is none; spelling the code in any
      case gives the same reply. */
  lemma JoinMatchesUpperCaseCode(t: Tables, code: string, p: Party)
    requires Consistent(t)
    requires code != ""
    ensures Join(t, Some(code)) == Join(t, Some(ToUpper(code)))
    ensures Join(t, Some(code)).JoinNotFound? <==> forall q :: q in t.parties ==> q.code != ToUpper(code)
    ensures p in t.parties && p.code == ToUpper(code) ==> Join(t, Some(code)) == JoinedParty(p.id, p.code)
    ensures Join(t, None) == JoinCodeRequired && Join(t, Some("")) == JoinCodeRequired
  {
    ToUpperFacts(code);
    if p in t.parties && p.code == ToUpper(code) {
      SameCodeSameParty(t.parties, FindPartyByCode(t.parties, ToUpper(code)).value, p);
    }
  }

  /** What `GET /:code` returns: the party without its Spotify tokens. */
  datatype PartyView = PartyView(id: int, code: string, hostId: string, hasSpotify: bool, createdAt: int)

  datatype DetailsReply = DetailsNotFound | Details(view: PartyView)

  function PartyDetails(t: Tables, code: string): DetailsReply {
    match FindPartyByCode(t.parties, ToUpper(code))
    case None => DetailsNotFound
    case Some(p) => Details(PartyView(p.id, p.code, p.hostId, TruthyString(p.spotifyAccessToken), p.createdAt))
  }

  /** The details are those of the party with the upper-cased code, and
      `hasSpotify` holds exactly when it has a non-empty access token. */
  lemma DetailsDescribeParty(t: Tables, code: string)
    ensures PartyDetails(t, code).DetailsNotFound? <==> forall q :: q in t.parties ==> q.code != ToUpper(code)
    ensures PartyDetails(t, code).Details? ==>
      exists p :: p in t.parties && p.code == ToUpper(code)
        && PartyDetails(t, code).view == PartyView(p.id, p.code, p.hostId, p.spotifyAccessToken.Some? && p.spotifyAccessToken.value != "", p.createdAt)
  {
    var found := FindPartyByCode(t.parties, ToUpper(code));
    if found.Some? {
      var p := found.value;
      assert p in t.parties && p.code == ToUpper(code);
    }
  }

  /** A party that was just created can be joined, and looked up, by its
      code in any letter case. */
  lemma CreatedPartyIsJoinable(t: Tables, hostId: Option<string>, draw: nat -> Draw, fuel: nat, now: int, code: string)
    requires Consistent(t)
    requires CreateStep(t, hostId, draw, fuel, now).reply.Created?
    requires ToUpper(code) == CreateStep(t, hostId, draw, fuel, now).reply.party.code
    ensures var st := CreateStep(t, hostId, draw, fuel, now);
      && Join(st.tables, Some(code)) == JoinedParty(st.reply.party.id, st.reply.party.code)
      && PartyDetails(st.tables, code).Details?
      && PartyDetails(st.tables, code).view.id == st.reply.party.id
      && !PartyDetails(st.tables, code).view.hasSpotify
  {
    var st := CreateStep(t, hostId, draw, fuel, now);
    var p := st.reply.party;
    CreateUsesFirstFreeCode(t, hostId, draw, fuel, now);
    CreateKeepsConsistent(t, hostId, draw, fuel, now);
    assert p in st.tables.parties;
    assert code != "" by {
      assert |ToUpper(code)| == CodeLength;
    }
    JoinMatchesUpperCaseCode(st.tables, code, p);
    DetailsDescribeParty(st.tables, code);
  }

  // ------------------------------------------------------------ delete

  datatype DeleteReply = PartyDeletedOk | DeletePartyNotFound | DeleteNotHost
  {
    function Status(): int {
      match this
      case PartyDeletedOk => 200
      case DeletePartyNotFound => 404
      case DeleteNotHost => 403
    }
  }

  /** The vote rows that reference none of `songs`: no listed song keeps a
      vote, and every other song keeps all of its votes. */
  function VotesWithout(votes: set<Vote>, songs: seq<Song>): (r: set<Vote>)
    ensures r <= votes
    ensures forall s :: s in songs ==> VotesFor(r, s.id) == {}
    ensures forall v :: v in votes && v.songId !in SongIds(songs) ==> v in r
  {
    set v | v in votes && v.songId !in SongIds(songs)
  }

  /** `DELETE /:code`: the votes of every song of the party, then its songs,
      then the party itself; the party's clients are told `party_deleted`. */
  function DeleteStep(t: Tables, code: string, hostId: Option<string>): QueueRoutes.Step<DeleteReply> {
    match FindPartyByCode(t.parties, ToUpper(code))
    case None => QueueRoutes.Step(t, DeletePartyNotFound, None)
    case Some(party) =>
      if hostId != Some(party.hostId) then QueueRoutes.Step(t, DeleteNotHost, None)
      else
        var t' := t.(
          votes := VotesWithout(t.votes, Where(t.songs, PartyIs(party.id))),
          songs := Where(t.songs, PartyIsNot(party.id)),
          parties := DeleteParty(t.parties, party.id));
        QueueRoutes.Step(t', PartyDeletedOk, Some(Rooms.Broadcast(party.id, Rooms.PartyDeleted)))
  }

  /** An unknown code gets 404 and anyone but the host 403, with nothing
      deleted; the host's request leaves no trace of the party: not the
      party, not a song queued in it, not a vote on such a song, while every
      other party, song and vote stays. */
  lemma DeleteRemovesEverything(t: Tables, code: string, hostId: Option<string>)
    ensures var st := DeleteStep(t, code, hostId);
      && ((forall q :: q in t.parties ==> q.code != ToUpper(code)) ==> st == QueueRoutes.Step(t, DeletePartyNotFound, None))
      && (forall q :: q in t.parties && q.code == ToUpper(code) && hostId != Some(q.hostId) && PartyKeys(t.parties) ==>
            st == QueueRoutes.Step(t, DeleteNotHost, None))
      && (st.reply == PartyDeletedOk ==>
            var party := FindPartyByCode(t.parties, ToUpper(code)).value;
            && party in t.parties && party.code == ToUpper(code) && hostId == Some(party.hostId)
            && (forall q :: q in st.tables.parties <==> q in t.parties && q.id != party.id)
            && (forall s :: s in st.tables.songs <==> s in t.songs && s.partyId != party.id)
            && (forall v :: v in st.tables.votes <==>
                  v in t.votes && forall s :: s in t.songs && s.id == v.songId ==> s.partyId != party.id)
            && st.broadcast == Some(Rooms.Broadcast(party.id, Rooms.PartyDeleted)))
  {
    var st := DeleteStep(t, code, hostId);
    forall q | q in t.parties && q.code == ToUpper(code) && hostId != Some(q.hostId) && PartyKeys(t.parties)
      ensures st == QueueRoutes.Step(t, DeleteNotHost, None)
    {
      SameCodeSameParty(t.parties, FindPartyByCode(t.parties, ToUpper(code)).value, q);
    }
    if st.reply == PartyDeletedOk {
      var party := FindPartyByCode(t.parties, ToUpper(code)).value;
      var partySongs := Where(t.songs, PartyIs(party.id));
      forall v
        ensures v in st.tables.votes <==>
          v in t.votes && forall s :: s in t.songs && s.id == v.songId ==> s.partyId != party.id
      {
        if v in t.votes && v.songId in SongIds(partySongs) {
          var s :| s in partySongs && s.id == v.songId;
          assert s in t.songs;
        }
      }
    }
  }

  lemma DeleteKeepsConsistent(t: Tables, code: string, hostId: Option<string>)
    requires Consistent(t)
    ensures Consistent(DeleteStep(t, code, hostId).tables)
  {
    var st := DeleteStep(t, code, hostId);
    if st.reply == PartyDeletedOk {
      var party := FindPartyByCode(t.parties, ToUpper(code)).value;
      var t' := st.tables;
      DeletePartyKeepsKeys(t.parties, party.id);
      WhereKeepsDistinct(t.songs, PartyIsNot(party.id));
      forall v | v in t'.votes
        ensures v.songId in SongIds(t'.songs)
      {
        var s :| s in t.songs && s.id == v.songId;
        assert s.partyId == party.id ==> s in Where(t.songs, PartyIs(party.id));
        assert s in t'.songs;
      }
      forall s | s in t'.songs
        ensures Tally(t'.votes, s.id) <= s.votes <= Tally(t'.votes, s.id) + 1
      {
        forall s2 | s2 in Where(t.songs, PartyIs(party.id))
          ensures s2.id != s.id
        {
          SameIdSameRow(t.songs, s, s2);
        }
        assert VotesFor(t'.votes, s.id) == VotesFor(t.votes, s.id);
      }
    }
  }

  /** Deleting the votes of one more song extends the deletion. */
  lemma VotesWithoutGrow(votes: set<Vote>, songs: seq<Song>, i: nat)
    requires i < |songs|
    ensures VotesWithout(votes, songs[..i + 1]) == DeleteSongVotes(VotesWithout(votes, songs[..i]), songs[i].id)
  {
    assert songs[..i + 1] == songs[..i] + [songs[i]];
    assert SongIds(songs[..i + 1]) == SongIds(songs[..i]) + {songs[i].id};
  }

  /** The loop of `DELETE /:code` that deletes the vote rows of each song
      of the party, one song at a time. */
  method DeleteVotesOf(db: Db, songs: seq<Song>)
    modifies db
    ensures db.State() == old(db.State()).(votes := VotesWithout(old(db.votes), songs))
  {
    ghost var votes0 := db.votes;
    for i := 0 to |songs|
      invariant db.State() == old(db.State()).(votes := VotesWithout(votes0, songs[..i]))
    {
      VotesWithoutGrow(votes0, songs, i);
      db.votes := DeleteSongVotes(db.votes, songs[i].id);
    }
    assert songs[..|songs|] == songs;
  }

  /** The handler of `DELETE /:code`. */
  method RemoveParty(db: Db, code: string, hostId: Option<string>) returns (reply: DeleteReply, broadcast: Option<Rooms.Broadcast>)
    requires db.Valid()
    modifies db
    ensures db.Valid()
    ensures QueueRoutes.Step(db.State(), reply, broadcast) == DeleteStep(old(db.State()), code, hostId)
  {
    DeleteKeepsConsistent(db.State(), code, hostId);
    var found := FindPartyByCode(db.parties, ToUpper(code));
    if found.None? {
      return DeletePartyNotFound, None;
    }
    var party := found.value;
    if hostId != Some(party.hostId) {
      return DeleteNotHost, None;
    }
    var partySongs := Where(db.songs, PartyIs(party.id));
    DeleteVotesOf(db, partySongs);
    db.songs := Where(db.songs, PartyIsNot(party.id));
    db.parties := DeleteParty(db.parties, party.id);
    reply, broadcast := PartyDeletedOk, Some(Rooms.Broadcast(party.id, Rooms.PartyDeleted));
  }
}
