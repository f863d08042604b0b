/** The WebSocket party rooms: which socket belongs to which party and
    session (`clients`), the sockets of each party (`partyClients`, each a JS
    `Set`, modelled as a duplicate-free sequence in insertion order), the
    `join` and `ping` messages, the close handler, and the fan-out of a
    message to a party's open sockets. A socket's `readyState === OPEN` is the
    predicate `isOpen`, supplied by the transport. */
module Rooms {
  import opened Wrappers
  import Database

  /** A connection, compared by identity. */
  type Socket = nat

  /** What the server records for a socket that joined. */
  datatype Client = Client(partyId: int, sessionId: string)

  /** The messages the server sends, one constructor per `type` tag. */
  datatype ServerMessage =
    | Joined(partyId: int)
    | UserJoined(sessionId: string, count: nat)
    | UserLeft(sessionId: string, count: nat)
    | Pong
    | ErrorMessage(message: string)
    | QueueUpdate(song: Database.Song)
    | VoteUpdate(song: Database.Song)
    | SongPlayed(songId: int)
    | SongRemoved(songId: int)
    | PartyDeleted

  /** A route's call `broadcastToParty(partyId, message)`. */
  datatype Broadcast = Broadcast(partyId: int, message: ServerMessage)

  /** One `ws.send(...)` to one socket. */
  datatype Send = Send(to: Socket, message: ServerMessage)

  /** An inbound message after `JSON.parse`, by its `type` tag. */
  datatype Inbound =
    | Join(partyId: Option<int>, sessionId: Option<string>)
    | Ping
    | Other(kind: string)

  /** The two module-level maps. */
  datatype Registry = Registry(clients: map<Socket, Client>, partyClients: map<int, seq<Socket>>)

  /** The new state of the maps and the messages sent while getting there. */
  datatype Outcome = Outcome(registry: Registry, sends: seq<Send>)

  const EmptyRegistry := Registry(map[], map[])

  ghost predicate NoDuplicates(s: seq<Socket>) {
    forall i, j :: 0 <= i < j < |s| ==> s[i] != s[j]
  }

  /** Every party set is non-empty and a set; every registered socket is in
      the set of the party it last joined. (The converse does not hold: see
      `RejoinLeavesStaleMembership`.) */
  ghost predicate Consistent(r: Registry) {
    && (forall p :: p in r.partyClients ==> r.partyClients[p] != [] && NoDuplicates(r.partyClients[p]))
    && (forall ws :: ws in r.clients ==>
          r.clients[ws].partyId in r.partyClients && ws in r.partyClients[r.clients[ws].partyId])
  }

  lemma EmptyIsConsistent()
    ensures Consistent(EmptyRegistry)
  {
  }

  /** The sockets of a party, none if the party has no set. */
  function Members(r: Registry, partyId: int): seq<Socket> {
    if partyId in r.partyClients then r.partyClients[partyId] else []
  }

  /** `Set.prototype.add`: appends unless already present. */
  function AddMember(s: seq<Socket>, ws: Socket): (r: seq<Socket>)
    ensures forall x :: x in r <==> x in s || x == ws
    ensures NoDuplicates(s) ==> NoDuplicates(r)
  {
    if ws in s then s else s + [ws]
  }

  /** `Set.prototype.delete`. */
  function RemoveMember(s: seq<Socket>, ws: Socket): (r: seq<Socket>)
    ensures forall x :: x in r <==> x in s && x != ws
  {
    if s == [] then []
    else
      assert s == [s[0]] + s[1..];
      (if s[0] == ws then [] else [s[0]]) + RemoveMember(s[1..], ws)
  }

  lemma {:induction false} RemoveMemberKeepsSet(s: seq<Socket>, ws: Socket)
    requires NoDuplicates(s)
    ensures NoDuplicates(RemoveMember(s, ws))
  {
    if s != [] {
      var rest := RemoveMember(s[1..], ws);
      assert NoDuplicates(s[1..]);
      RemoveMemberKeepsSet(s[1..], ws);
      if s[0] != ws {
        var r := [s[0]] + rest;
        forall y | y in s[1..]
          ensures y != s[0]
        {
          var k :| 0 <= k < |s[1..]| && s[1..][k] == y;
          assert s[k + 1] == y;
        }
        forall i, j | 0 <= i < j < |r|
          ensures r[i] != r[j]
        {
          assert r[j] == rest[j - 1];
          if i > 0 {
            assert r[i] == rest[i - 1];
          } else {
            assert rest[j - 1] in rest;
          }
        }
      }
    }
  }

  /** The members that are OPEN and are not `exclude`, in set order. */
  function Recipients(members: seq<Socket>, exclude: Option<Socket>, isOpen: Socket -> bool): (r: seq<Socket>)
  {
    if members == [] then []
    else
      var last := members[|members| - 1];
      Recipients(members[..|members| - 1], exclude, isOpen)
        + (if Some(last) != exclude && isOpen(last) then [last] else [])
  }

  /** The recipients are the open, not excluded members, and a set's
      members are each sent to once. */
  lemma {:induction false} RecipientsExactly(members: seq<Socket>, exclude: Option<Socket>, isOpen: Socket -> bool)
    ensures forall x :: x in Recipients(members, exclude, isOpen) <==>
      x in members && Some(x) != exclude && isOpen(x)
    ensures NoDuplicates(members) ==> NoDuplicates(Recipients(members, exclude, isOpen))
  {
    if members != [] {
      var init := members[..|members| - 1];
      var last := members[|members| - 1];
      RecipientsExactly(init, exclude, isOpen);
      assert members == init + [last];
      if NoDuplicates(members) {
        assert NoDuplicates(init) by {
          forall i, j | 0 <= i < j < |init|
            ensures init[i] != init[j]
          {
            assert init[i] == members[i] && init[j] == members[j];
          }
        }
        assert last !in init by {
          forall i | 0 <= i < |init|
            ensures init[i] != last
          {
            assert init[i] == members[i];
          }
        }
        var front := Recipients(init, exclude, isOpen);
        var r := Recipients(members, exclude, isOpen);
        if Some(last) != exclude && isOpen(last) {
          assert r == front + [last];
          forall i, j | 0 <= i < j < |r|
            ensures r[i] != r[j]
          {
            if j < |front| {
              assert r[i] == front[i] && r[j] == front[j];
            } else {
              assert r[i] == front[i] && front[i] in front;
            }
          }
        }
      }
    }
  }

  /** Recipients keep the set's insertion order: the recipients of a
      concatenation are those of each part, in turn. */
  lemma {:induction false} RecipientsAppend(a: seq<Socket>, b: seq<Socket>, exclude: Option<Socket>, isOpen: Socket -> bool)
    ensures Recipients(a + b, exclude, isOpen) == Recipients(a, exclude, isOpen) + Recipients(b, exclude, isOpen)
  {
    if b == [] {
      assert a + b == a;
    } else {
      var init := b[..|b| - 1];
      assert (a + b)[..|a + b| - 1] == a + init;
      RecipientsAppend(a, init, exclude, isOpen);
    }
  }

  /** One `send` per recipient, in order. */
  function Deliver(to: seq<Socket>, message: ServerMessage): (r: seq<Send>)
    ensures |r| == |to|
  {
    seq(|to|, i requires 0 <= i < |to| => Send(to[i], message))
  }

  /** What `broadcastToParty(partyId, message, exclude)` sends. */
  function Fanout(r: Registry, partyId: int, message: ServerMessage,
                  exclude: Option<Socket>, isOpen: Socket -> bool): seq<Send>
  {
    if partyId !in r.partyClients then []
    else Deliver(Recipients(r.partyClients[partyId], exclude, isOpen), message)
  }

  /** `getPartyUserCount`: the size of the party's set, 0 without one. */
  function UserCount(r: Registry, partyId: int): nat {
    |Members(r, partyId)|
  }

  /** `clients.set(ws, ...)` and adding `ws` to the party's set, creating
      the set on the party's first join. */
  function Register(r: Registry, ws: Socket, p: int, sessionId: string): Registry {
    Registry(r.clients[ws := Client(p, sessionId)], r.partyClients[p := AddMember(Members(r, p), ws)])
  }

  /** `handleMessage` for one parsed message from `ws`. */
  function HandleMessage(r: Registry, ws: Socket, msg: Inbound, isOpen: Socket -> bool): Outcome {
    match msg
    case Join(partyId, sessionId) =>
      if !TruthyNumber(partyId) || !TruthyString(sessionId) then
        Outcome(r, [Send(ws, ErrorMessage("partyId and sessionId required"))])
      else
        var p := partyId.value;
        var joined := Register(r, ws, p, sessionId.value);
        Outcome(joined,
          [Send(ws, Joined(p))]
          + Fanout(joined, p, UserJoined(sessionId.value, UserCount(joined, p)), Some(ws), isOpen))
    case Ping =>
      Outcome(r, [Send(ws, Pong)])
    case Other(_) =>
      Outcome(r, [])
  }

  /** The maps after the close handler's removal of `ws`. */
  function Unregister(r: Registry, ws: Socket): Registry
    requires ws in r.clients
  {
    var p := r.clients[ws].partyId;
    var partyClients :=
      if p !in r.partyClients then r.partyClients
      else
        var rest := RemoveMember(r.partyClients[p], ws);
        if rest == [] then r.partyClients - {p} else r.partyClients[p := rest];
    Registry(r.clients - {ws}, partyClients)
  }

  /** The `close` handler of `ws`. */
  function Close(r: Registry, ws: Socket, isOpen: Socket -> bool): Outcome {
    if ws !in r.clients then Outcome(r, [])
    else
      var c := r.clients[ws];
      var left := Unregister(r, ws);
      Outcome(left, Fanout(left, c.partyId, UserLeft(c.sessionId, UserCount(left, c.partyId)), None, isOpen))
  }

  // ------------------------------------------------------------ properties

  /** A broadcast reaches exactly the party's OPEN sockets other than
      `exclude`, each once, and nothing when the party has no set. */
  lemma FanoutExactly(r: Registry, partyId: int, message: ServerMessage,
                      exclude: Option<Socket>, isOpen: Socket -> bool, x: Socket)
    ensures Send(x, message) in Fanout(r, partyId, message, exclude, isOpen) <==>
      x in Members(r, partyId) && Some(x) != exclude && isOpen(x)
    ensures forall s :: s in Fanout(r, partyId, message, exclude, isOpen) ==> s.message == message
    ensures partyId !in r.partyClients ==> Fanout(r, partyId, message, exclude, isOpen) == []
    ensures NoDuplicates(Members(r, partyId)) ==>
      var out := Fanout(r, partyId, message, exclude, isOpen);
      forall i, j :: 0 <= i < j < |out| ==> out[i] != out[j]
  {
    if partyId in r.partyClients {
      var to := Recipients(r.partyClients[partyId], exclude, isOpen);
      RecipientsExactly(r.partyClients[partyId], exclude, isOpen);
      var out := Deliver(to, message);
      assert forall i :: 0 <= i < |out| ==> out[i] == Send(to[i], message);
      if Send(x, message) in out {
        var i :| 0 <= i < |out| && out[i] == Send(x, message);
        assert to[i] == x;
      }
      if x in to {
        var i :| 0 <= i < |to| && to[i] == x;
        assert out[i] == Send(x, message);
      }
    }
  }

  /** A join missing `partyId` or `sessionId` answers that socket alone with
      an error and leaves both maps as they were. */
  lemma JoinWithoutIdsRejected(r: Registry, ws: Socket, partyId: Option<int>, sessionId: Option<string>,
                               isOpen: Socket -> bool)
    requires !TruthyNumber(partyId) || !TruthyString(sessionId)
    ensures HandleMessage(r, ws, Join(partyId, sessionId), isOpen)
         == Outcome(r, [Send(ws, ErrorMessage("partyId and sessionId required"))])
  {
  }

  /** After a join the socket is recorded under its party and session and is
      added to the party's set, whose earlier members stay; the count grows
      by one unless the socket was already there. The join is confirmed to
      it, and every other OPEN member hears `user_joined` with the set's new
      size. */
  lemma JoinRegisters(r: Registry, ws: Socket, p: int, session: string, isOpen: Socket -> bool)
    requires p != 0 && session != ""
    ensures var o := HandleMessage(r, ws, Join(Some(p), Some(session)), isOpen);
      && o.registry.clients == r.clients[ws := Client(p, session)]
      && p in o.registry.partyClients && ws in o.registry.partyClients[p]
      && (forall x :: x in Members(o.registry, p) <==> x in Members(r, p) || x == ws)
      && UserCount(o.registry, p) == UserCount(r, p) + (if ws in Members(r, p) then 0 else 1)
      && (forall q :: q != p ==> Members(o.registry, q) == Members(r, q))
      && o.sends[0] == Send(ws, Joined(p))
      && (forall x :: Send(x, UserJoined(session, UserCount(o.registry, p))) in o.sends[1..] <==>
            x in Members(o.registry, p) && x != ws && isOpen(x))
      && (forall s :: s in o.sends[1..] ==> s.to != ws)
  {
    var o := HandleMessage(r, ws, Join(Some(p), Some(session)), isOpen);
    var m := UserJoined(session, UserCount(o.registry, p));
    assert o.sends[1..] == Fanout(o.registry, p, m, Some(ws), isOpen);
    forall x {
      FanoutExactly(o.registry, p, m, Some(ws), isOpen, x);
    }
    forall s | s in o.sends[1..]
      ensures s.to != ws
    {
      FanoutExactly(o.registry, p, m, Some(ws), isOpen, s.to);
    }
  }

  lemma JoinKeepsConsistent(r: Registry, ws: Socket, msg: Inbound, isOpen: Socket -> bool)
    requires Consistent(r)
    ensures Consistent(HandleMessage(r, ws, msg, isOpen).registry)
  {
    if msg.Join? && TruthyNumber(msg.partyId) && TruthyString(msg.sessionId) {
      RegisterKeepsConsistent(r, ws, msg.partyId.value, msg.sessionId.value);
    }
  }

  /** Recording a join keeps the maps in agreement: the party's set gains
      the socket (and stays a set), every other socket keeps its party. */
  lemma RegisterKeepsConsistent(r: Registry, ws: Socket, p: int, sessionId: string)
    requires Consistent(r)
    ensures Consistent(Register(r, ws, p, sessionId))
  {
    var j := Register(r, ws, p, sessionId);
    forall q | q in j.partyClients
      ensures j.partyClients[q] != [] && NoDuplicates(j.partyClients[q])
    {
      if q == p {
        assert ws in j.partyClients[q];
      }
    }
    forall w | w in j.clients
      ensures j.clients[w].partyId in j.partyClients && w in j.partyClients[j.clients[w].partyId]
    {
      if w != ws {
        var q := r.clients[w].partyId;
        if q == p {
          assert w in Members(r, p);
        }
      }
    }
  }

  /** Ping is answered with pong to the sender only; the maps do not change. */
  lemma PingAnswersSender(r: Registry, ws: Socket, isOpen: Socket -> bool)
    ensures HandleMessage(r, ws, Ping, isOpen) == Outcome(r, [Send(ws, Pong)])
  {
  }

  /** Closing a socket that never joined changes nothing and sends nothing. */
  lemma CloseUnknownIsNoop(r: Registry, ws: Socket, isOpen: Socket -> bool)
    requires ws !in r.clients
    ensures Close(r, ws, isOpen) == Outcome(r, [])
  {
  }

  /** Closing removes the socket from `clients` and from the set of the party
      it joined last, drops that set when it empties, and tells the party's
      remaining OPEN sockets the new count. */
  lemma CloseUnregisters(r: Registry, ws: Socket, isOpen: Socket -> bool)
    requires Consistent(r) && ws in r.clients
    ensures var o := Close(r, ws, isOpen);
      var c := r.clients[ws];
      && o.registry.clients == r.clients - {ws}
      && ws !in Members(o.registry, c.partyId)
      && (forall x :: x in Members(o.registry, c.partyId) <==> x in Members(r, c.partyId) && x != ws)
      && (forall q :: q != c.partyId ==> Members(o.registry, q) == Members(r, q))
      && (forall x :: Send(x, UserLeft(c.sessionId, UserCount(o.registry, c.partyId))) in o.sends <==>
            x in Members(o.registry, c.partyId) && isOpen(x))
  {
    var o := Close(r, ws, isOpen);
    var c := r.clients[ws];
    var m := UserLeft(c.sessionId, UserCount(o.registry, c.partyId));
    forall x {
      FanoutExactly(o.registry, c.partyId, m, None, isOpen, x);
    }
  }

  lemma CloseKeepsConsistent(r: Registry, ws: Socket, isOpen: Socket -> bool)
    requires Consistent(r)
    ensures Consistent(Close(r, ws, isOpen).registry)
  {
    if ws in r.clients {
      var p := r.clients[ws].partyId;
      var left := Close(r, ws, isOpen).registry;
      RemoveMemberKeepsSet(r.partyClients[p], ws);
      forall w | w in left.clients
        ensures left.clients[w].partyId in left.partyClients && w in left.partyClients[left.clients[w].partyId]
      {
        var q := r.clients[w].partyId;
        if q == p {
          assert w in RemoveMember(r.partyClients[p], ws);
        }
      }
    }
  }

  /** The count reported to a party is the number of distinct sockets in its
      set, and it is 0 exactly when the party has no set. */
  lemma UserCountIsSetSize(r: Registry, partyId: int)
    requires Consistent(r)
    ensures UserCount(r, partyId) == |Elements(Members(r, partyId))|
    ensures UserCount(r, partyId) == 0 <==> partyId !in r.partyClients
  {
    DistinctCardinality(Members(r, partyId));
  }

  /** The sockets of a sequence, as a set. */
  function Elements(s: seq<Socket>): set<Socket> {
    set x | x in s
  }

  lemma {:induction false} DistinctCardinality(s: seq<Socket>)
    requires NoDuplicates(s)
    ensures |Elements(s)| == |s|
  {
    if s != [] {
      var init := s[..|s| - 1];
      var last := s[|s| - 1];
      assert NoDuplicates(init) by {
        forall i, j | 0 <= i < j < |init|
          ensures init[i] != init[j]
        {
          assert init[i] == s[i] && init[j] == s[j];
        }
      }
      DistinctCardinality(init);
      assert last !in Elements(init) by {
        forall y | y in init
          ensures y != last
        {
          var k :| 0 <= k < |init| && init[k] == y;
          assert s[k] == y;
        }
      }
      assert Elements(s) == Elements(init) + {last} by {
        assert s == init + [last];
      }
      assert |Elements(init) + {last}| == |Elements(init)| + 1;
    }
  }

  /** A socket that joins a second party stays in the first party's set while
      `clients` records only the second: it keeps receiving the first party's
      broadcasts whenever it is OPEN. */
  lemma RejoinLeavesStaleMembership(r: Registry, ws: Socket, p1: int, p2: int, session: string,
                                    isOpen: Socket -> bool, m: ServerMessage)
    requires p1 != 0 && p2 != 0 && p1 != p2 && session != ""
    ensures var first := HandleMessage(r, ws, Join(Some(p1), Some(session)), isOpen).registry;
      var second := HandleMessage(first, ws, Join(Some(p2), Some(session)), isOpen).registry;
      && second.clients[ws] == Client(p2, session)
      && ws in Members(second, p1)
      && (isOpen(ws) ==> Send(ws, m) in Fanout(second, p1, m, None, isOpen))
  {
    var first := HandleMessage(r, ws, Join(Some(p1), Some(session)), isOpen).registry;
    var second := HandleMessage(first, ws, Join(Some(p2), Some(session)), isOpen).registry;
    FanoutExactly(second, p1, m, None, isOpen, ws);
  }

  // ------------------------------------------------------------- the server

  /** The module-level maps of the WebSocket server and the handlers that
      mutate them in place. */
  class RoomServer {
    var clients: map<Socket, Client>
    var partyClients: map<int, seq<Socket>>

    function State(): Registry
      reads this
    {
      Registry(clients, partyClients)
    }

    ghost predicate Valid()
      reads this
    {
      Consistent(State())
    }

    constructor ()
      ensures State() == EmptyRegistry && Valid()
    {
      clients, partyClients := map[], map[];
    }

    /** `broadcastToParty`: walks the party's set and sends to each OPEN
        socket that is not `exclude`. */
    method BroadcastToParty(partyId: int, message: ServerMessage, exclude: Option<Socket>,
                            isOpen: Socket -> bool) returns (sends: seq<Send>)
      ensures sends == Fanout(State(), partyId, message, exclude, isOpen)
    {
      if partyId !in partyClients {
        return [];
      }
      var party := partyClients[partyId];
      var to: seq<Socket> := [];
      sends := [];
      for i := 0 to |party|
        invariant to == Recipients(party[..i], exclude, isOpen)
        invariant sends == Deliver(to, message)
      {
        assert party[..i + 1][..i] == party[..i];
        var client := party[i];
        if Some(client) != exclude && isOpen(client) {
          to := to + [client];
          sends := sends + [Send(client, message)];
        }
      }
      assert party[..|party|] == party;
    }

    /** The `message` event of `ws`, after parsing. */
    method OnMessage(ws: Socket, msg: Inbound, isOpen: Socket -> bool) returns (sends: seq<Send>)
      requires Valid()
      modifies this
      ensures Valid()
      ensures Outcome(State(), sends) == HandleMessage(old(State()), ws, msg, isOpen)
    {
      match msg
      case Join(partyId, sessionId) =>
        sends := OnJoin(ws, partyId, sessionId, isOpen);
      case Ping =>
        sends := [Send(ws, Pong)];
      case Other(_) =>
        sends := [];
    }

    /** The `join` case: record the client, add the socket to the party's
        set, confirm, and announce the new count to the others. */
    method OnJoin(ws: Socket, partyId: Option<int>, sessionId: Option<string>, isOpen: Socket -> bool)
      returns (sends: seq<Send>)
      requires Valid()
      modifies this
      ensures Valid()
      ensures Outcome(State(), sends) == HandleMessage(old(State()), ws, Join(partyId, sessionId), isOpen)
    {
      JoinKeepsConsistent(State(), ws, Join(partyId, sessionId), isOpen);
      if !TruthyNumber(partyId) || !TruthyString(sessionId) {
        return [Send(ws, ErrorMessage("partyId and sessionId required"))];
      }
      var p := partyId.value;
      ghost var before := State();
      clients := clients[ws := Client(p, sessionId.value)];
      var partySet := if p in partyClients then partyClients[p] else [];
      partyClients := partyClients[p := AddMember(partySet, ws)];
      assert partySet == Members(before, p);
      var others := BroadcastToParty(p, UserJoined(sessionId.value, |partyClients[p]|), Some(ws), isOpen);
      sends := [Send(ws, Joined(p))] + others;
    }

    /** The `close` event of `ws`. */
    method OnClose(ws: Socket, isOpen: Socket -> bool) returns (sends: seq<Send>)
      requires Valid()
      modifies this
      ensures Valid()
      ensures Outcome(State(), sends) == Close(old(State()), ws, isOpen)
    {
      CloseKeepsConsistent(State(), ws, isOpen);
      if ws !in clients {
        return [];
      }
      var client := clients[ws];
      if client.partyId in partyClients {
        var partySet := RemoveMember(partyClients[client.partyId], ws);
        if partySet == [] {
          partyClients := partyClients - {client.partyId};
        } else {
          partyClients := partyClients[client.partyId := partySet];
        }
      }
      clients := clients - {ws};
      var count := if client.partyId in partyClients then |partyClients[client.partyId]| else 0;
      sends := BroadcastToParty(client.partyId, UserLeft(client.sessionId, count), None, isOpen);
    }
  }
}
