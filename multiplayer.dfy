/** The first server, Program.cs (`MultiplayerServer`): a static lobby
    dictionary, a static set of connected sockets, a per-connection receive
    loop that dispatches on the frame's text, and its own nested `Lobby`
    class without a timer. This server adds the creator to the lobby it
    creates, answers every `join:` and lists every lobby. */
module Multiplayer {
  import opened Core

  const NotFound: string := "Лобби не найдено"
  const Full: string := "Лобби заполнено"
  const Joined: string := "Вы успешно присоединились к лобби"

  /** The nested `MultiplayerServer.Lobby`: two slots, a name and an id. */
  class Lobby {
    var client1: Option<Peer>
    var client2: Option<Peer>
    const name: string
    const id: LobbyId

    function Row(): Row
      reads this
    {
      Core.Row(id, name, Slots(client1, client2))
    }

    constructor (name: string, id: LobbyId)
      ensures Row() == Core.Row(id, name, Empty)
    {
      this.name := name;
      this.id := id;
      client1, client2 := None, None;
    }

    function Connected(): (n: nat)
      reads this
      ensures n <= 2
      ensures n == 0 <==> client1.None? && client2.None?
      ensures n == 2 <==> client1.Some? && client2.Some?
    {
      Row().slots.Connected()
    }

    method AddClient(client: Peer) returns (ok: bool)
      modifies this`client1, this`client2
      ensures ok <==> old(Connected()) < 2
      ensures ok ==> Connected() == old(Connected()) + 1
      ensures !ok ==> client1 == old(client1) && client2 == old(client2)
      ensures Row() == old(Row()).(slots := old(Row()).slots.Add(client))
    {
      if client1 == None {
        client1 := Some(client);
        return true;
      } else if client2 == None {
        client2 := Some(client);
        return true;
      }
      return false;
    }

    method RemoveClient(client: Peer) returns (ok: bool)
      modifies this`client1, this`client2
      ensures ok <==> old(ContainsClient(client))
      ensures !ok ==> client1 == old(client1) && client2 == old(client2)
      ensures Row() == old(Row()).(slots := old(Row()).slots.Remove(client))
    {
      if Some(client) == client1 {
        client1 := None;
        return true;
      } else if Some(client) == client2 {
        client2 := None;
        return true;
      }
      return false;
    }

    predicate ContainsClient(client: Peer)
      reads this
      ensures ContainsClient(client) <==> client1 == Some(client) || client2 == Some(client)
    {
      Row().slots.Contains(client)
    }

    function GetOtherClient(client: Peer): (r: Option<Peer>)
      reads this
      ensures client1 == Some(client) ==> r == client2
      ensures client1 != Some(client) && client2 == Some(client) ==> r == client1
      ensures !ContainsClient(client) ==> r == None
    {
      Row().slots.Other(client)
    }
  }

  // ---------------------------------------------------------------------------
  // The server's state as a value, and what one frame does to it

  /** `lobbies` in dictionary order and the keys of `clients`. */
  datatype State = State(rows: seq<Row>, clients: seq<Peer>)

  /** The `get_lobbies` reply: every lobby, in dictionary order. */
  function ListAll(rows: seq<Row>): (r: seq<Entry>)
    ensures |r| == |rows|
    ensures forall i :: 0 <= i < |rows| ==> r[i] == EntryOf(rows[i])
  {
    if rows == [] then [] else [EntryOf(rows[0])] + ListAll(rows[1..])
  }

  /** `RemoveClientFromLobbies(p)`: `RemoveClient` succeeds exactly on a lobby
      that contains `p`, so the first such lobby loses `p` and no other changes. */
  function RemoveFromFirst(rows: seq<Row>, p: Peer): (r: seq<Row>)
    ensures |r| == |rows|
    ensures forall i :: 0 <= i < |rows| ==> r[i].id == rows[i].id && r[i].name == rows[i].name
    ensures FirstContaining(rows, p).None? ==> r == rows
    ensures FirstContaining(rows, p).Some? ==>
      var k := FirstContaining(rows, p).value;
      && r[k].slots == rows[k].slots.Remove(p)
      && r[k].slots.Connected() + 1 == rows[k].slots.Connected()
      && (forall i :: 0 <= i < |rows| && i != k ==> r[i] == rows[i])
  {
    match FirstContaining(rows, p)
    case None => rows
    case Some(k) => rows[k := rows[k].(slots := rows[k].slots.Remove(p))]
  }

  /** The lobby a `join:` frame names, if the argument parses and is a key. */
  function JoinTarget(rows: seq<Row>, message: string, parseId: string -> Option<LobbyId>): Option<nat>
    requires StartsWith(message, "join:")
  {
    match parseId(Argument("join:", message))
    case None => None
    case Some(id) => Lookup(rows, id)
  }

  /** The `join:` branch: a reply to the joiner, and the joiner seated on success. */
  function JoinStep(st: State, socket: Peer, message: string, parseId: string -> Option<LobbyId>): (State, seq<Send>)
    requires StartsWith(message, "join:")
  {
    match JoinTarget(st.rows, message, parseId)
    case None => (st, [Send(socket, Text(NotFound))])
    case Some(k) => Seat(st, socket, k)
  }

  /** `AddClient` on the lobby found for `join:`, and the reply. */
  function Seat(st: State, socket: Peer, k: nat): (State, seq<Send>)
    requires k < |st.rows|
  {
    if st.rows[k].slots.HasRoom() then
      (st.(rows := st.rows[k := st.rows[k].(slots := st.rows[k].slots.Add(socket))]),
       [Send(socket, Text(Joined))])
    else (st, [Send(socket, Text(Full))])
  }

  /** One pass of the receive loop in `HandleConnection`: the new state and
      the frames sent, for a text frame `message` from `socket`. */
  function Dispatch(st: State, socket: Peer, message: string, open: set<Peer>,
                    parseId: string -> Option<LobbyId>, freshId: LobbyId): (State, seq<Send>)
  {
    if StartsWith(message, "join:") then JoinStep(st, socket, message, parseId)
    else if message == "get_lobbies" then
      (st, [Send(socket, Listing(ListAll(st.rows)))])
    else if StartsWith(message, "create_lobby:") then
      var row := Row(freshId, Argument("create_lobby:", message), Empty.Add(socket));
      (st.(rows := st.rows + [row]), [Send(socket, Created(freshId))])
    else
      (st, RelaySends(st.rows, socket, Text(message), open))
  }

  /** The cleanup after the receive loop: `clients.TryRemove` and
      `RemoveClientFromLobbies`. */
  function Leave(st: State, socket: Peer): State
  {
    State(RemoveFromFirst(st.rows, socket), Without(st.clients, socket))
  }

  /** One pass of the receive loop in `HandleConnection` on frame `f`. The
      loop runs only while `socket` is open, so a text frame is handled with
      `socket` open. A Close frame is not told apart: its zero bytes decode
      to the empty text, which goes through the dispatch like any other
      frame while `socket` itself is already closing. */
  function Step(st: State, socket: Peer, f: Frame, open: set<Peer>,
                parseId: string -> Option<LobbyId>, freshId: LobbyId): (State, seq<Send>)
  {
    match f
    case Message(m) => Dispatch(st, socket, m, open + {socket}, parseId, freshId)
    case Close => Dispatch(st, socket, "", open - {socket}, parseId, freshId)
  }

  /** The receive loop: every frame in turn, up to and including a Close
      frame, after which `socket` is no longer open and the loop ends.
      `freshIds[i]` is the Guid a `create_lobby:` in frame i would draw. */
  function Loop(st: State, socket: Peer, frames: seq<Frame>, open: set<Peer>,
                parseId: string -> Option<LobbyId>, freshIds: seq<LobbyId>): (State, seq<Send>)
    requires |freshIds| == |frames|
    decreases |frames|
  {
    if frames == [] then (st, [])
    else
      var (st1, out1) := Step(st, socket, frames[0], open, parseId, freshIds[0]);
      if frames[0].Close? then (st1, out1)
      else
        var (st2, out2) := Loop(st1, socket, frames[1..], open, parseId, freshIds[1..]);
        (st2, out1 + out2)
  }

  /** A whole connection: the receive loop, then the cleanup. */
  function Session(st: State, socket: Peer, frames: seq<Frame>, open: set<Peer>,
                   parseId: string -> Option<LobbyId>, freshIds: seq<LobbyId>): (State, seq<Send>)
    requires |freshIds| == |frames|
  {
    var (st', out) := Loop(st, socket, frames, open, parseId, freshIds);
    (Leave(st', socket), out)
  }

  /** One pass of the receive loop at frame `i`: what is left of the loop
      after it is the loop from the state it made, or nothing after a Close. */
  lemma LoopStep(before: State, socket: Peer, frames: seq<Frame>, open: set<Peer>,
                 parseId: string -> Option<LobbyId>, freshIds: seq<LobbyId>,
                 i: nat, sent: seq<Send>, total: (State, seq<Send>))
    requires |freshIds| == |frames| && i < |frames|
    requires var rest := Loop(before, socket, frames[i..], open, parseId, freshIds[i..]);
      total.0 == rest.0 && total.1 == sent + rest.1
    ensures var t := Step(before, socket, frames[i], open, parseId, freshIds[i]);
      && (frames[i].Close? ==> t.0 == total.0 && sent + t.1 == total.1)
      && (!frames[i].Close? ==>
            var rest := Loop(t.0, socket, frames[i + 1..], open, parseId, freshIds[i + 1..]);
            total.0 == rest.0 && total.1 == (sent + t.1) + rest.1)
  {
    assert frames[i..][0] == frames[i] && freshIds[i..][0] == freshIds[i];
    assert frames[i..][1..] == frames[i + 1..] && freshIds[i..][1..] == freshIds[i + 1..];
    var t := Step(before, socket, frames[i], open, parseId, freshIds[i]);
    if !frames[i].Close? {
      AppendAssoc(sent, t.1, Loop(t.0, socket, frames[i + 1..], open, parseId, freshIds[i + 1..]).1);
    }
  }

  // ---------------------------------------------------------------------------
  // What the dispatcher promises

  /** `create_lobby:<name>` appends a lobby named `<name>` holding only its
      creator (`Connected == 1`) and replies `created:<id>` to the creator. */
  lemma CreateLobbyAddsCreator(st: State, socket: Peer, message: string, open: set<Peer>,
                               parseId: string -> Option<LobbyId>, freshId: LobbyId)
    requires StartsWith(message, "create_lobby:")
    ensures var (st', out) := Dispatch(st, socket, message, open, parseId, freshId);
      && st'.rows == st.rows + [Row(freshId, Argument("create_lobby:", message), Slots(Some(socket), None))]
      && st'.rows[|st.rows|].slots.Connected() == 1
      && st'.clients == st.clients
      && out == [Send(socket, Created(freshId))]
  {
    assert message[0] == 'c';
    assert !StartsWith(message, "join:") by { assert "join:"[0] != 'c'; }
    assert message != "get_lobbies" by { assert "get_lobbies"[0] != 'c'; }
  }

  /** A fresh Guid keeps the keys unique. */
  lemma CreateKeepsKeysUnique(st: State, socket: Peer, message: string, open: set<Peer>,
                              parseId: string -> Option<LobbyId>, freshId: LobbyId)
    requires DistinctIds(st.rows)
    requires forall i :: 0 <= i < |st.rows| ==> st.rows[i].id != freshId
    ensures DistinctIds(Dispatch(st, socket, message, open, parseId, freshId).0.rows)
  {
  }

  /** `join:` replies exactly one of three things, and only the success
      reply changes the state: the joiner then sits in the lobby. */
  lemma {:induction false} JoinOutcomes(st: State, socket: Peer, message: string, open: set<Peer>,
                                        parseId: string -> Option<LobbyId>, freshId: LobbyId)
    requires StartsWith(message, "join:")
    ensures var (st', out) := Dispatch(st, socket, message, open, parseId, freshId);
      var k := JoinTarget(st.rows, message, parseId);
      && (out == [Send(socket, Text(NotFound))] <==> k.None?)
      && (out == [Send(socket, Text(Full))] <==> k.Some? && st.rows[k.value].slots.Connected() == 2)
      && (out == [Send(socket, Text(Joined))] <==> k.Some? && st.rows[k.value].slots.Connected() < 2)
      && (out != [Send(socket, Text(Joined))] ==> st' == st)
      && (out == [Send(socket, Text(Joined))] ==>
            && st'.rows == st.rows[k.value := st.rows[k.value].(slots := st.rows[k.value].slots.Add(socket))]
            && |st'.rows| == |st.rows|
            && st'.clients == st.clients
            && st'.rows[k.value].slots.Contains(socket)
            && st'.rows[k.value].slots.Connected() == st.rows[k.value].slots.Connected() + 1
            && (forall i :: 0 <= i < |st.rows| && i != k.value ==> st'.rows[i] == st.rows[i]))
  {
    assert NotFound != Full && NotFound != Joined && Full != Joined by {
      assert NotFound[6] != Full[6] && NotFound[0] != Joined[0] && Full[0] != Joined[0];
    }
  }

  /** `get_lobbies` lists every lobby, in order, and changes nothing. */
  lemma GetLobbiesListsAll(st: State, socket: Peer, open: set<Peer>,
                           parseId: string -> Option<LobbyId>, freshId: LobbyId)
    ensures var (st', out) := Dispatch(st, socket, "get_lobbies", open, parseId, freshId);
      && st' == st
      && out == [Send(socket, Listing(ListAll(st.rows)))]
      && |out[0].payload.entries| == |st.rows|
  {
    assert !StartsWith("get_lobbies", "join:") by { assert "get_lobbies"[0] != 'j'; }
  }

  /** Any other frame is relayed: at most one send, to the other occupant of
      the first lobby containing the sender, never back to the sender unless
      the sender holds both slots of that lobby; no lobby changes. */
  lemma {:induction false} RelayDelivery(st: State, socket: Peer, message: string, open: set<Peer>,
                                         parseId: string -> Option<LobbyId>, freshId: LobbyId)
    requires !StartsWith(message, "join:") && message != "get_lobbies" && !StartsWith(message, "create_lobby:")
    ensures var (st', out) := Dispatch(st, socket, message, open, parseId, freshId);
      && st' == st
      && out == RelaySends(st.rows, socket, Text(message), open)
      && |out| <= 1
      && (out != [] ==>
            var k := FirstContaining(st.rows, socket).value;
            && FirstContaining(st.rows, socket).Some?
            && out[0].payload == Text(message)
            && st.rows[k].slots.Other(socket) == Some(out[0].to)
            && out[0].to in open
            && (out[0].to == socket ==> st.rows[k].slots == Slots(Some(socket), Some(socket))))
  {
    var out := RelaySends(st.rows, socket, Text(message), open);
    if out != [] {
      var t := RelayTarget(st.rows, socket, open);
      assert out[0] == Send(t.value.1, Text(message));
    }
  }

  /** A Close frame reads as the empty text and is relayed like one: no
      lobby changes, and what goes out goes to the open other occupant of
      the first lobby holding `socket`, never back to the closing `socket`. */
  lemma CloseRelaysEmptyText(st: State, socket: Peer, open: set<Peer>,
                             parseId: string -> Option<LobbyId>, freshId: LobbyId)
    ensures var (st', out) := Step(st, socket, Close, open, parseId, freshId);
      && st' == st
      && out == RelaySends(st.rows, socket, Text(""), open - {socket})
      && (forall s :: s in out ==> s.to != socket && s.to in open)
  {
    var out := RelaySends(st.rows, socket, Text(""), open - {socket});
    if out != [] {
      assert out == [out[0]];
      assert out[0].to == RelayTarget(st.rows, socket, open - {socket}).value.1;
    }
  }

  /** A peer that is in no lobby twice never has its own frame echoed back. */
  lemma RelayNeverEchoes(rows: seq<Row>, sender: Peer, payload: Payload, open: set<Peer>)
    requires forall i :: 0 <= i < |rows| ==> rows[i].slots != Slots(Some(sender), Some(sender))
    ensures forall s :: s in RelaySends(rows, sender, payload, open) ==> s.to != sender
  {
  }

  /** Self-join: a creator who sends `join:` with its own lobby's id sits in
      both slots, and its relayed frames come back to itself. */
  lemma SelfJoinEchoes(parseId: string -> Option<LobbyId>)
    requires parseId("7") == Some(7)
    ensures var st0 := State([], [1]);
      var (st1, _) := Dispatch(st0, 1, "create_lobby:Foo", {1}, parseId, 7);
      var (st2, _) := Dispatch(st1, 1, "join:7", {1}, parseId, 8);
      var (_, out) := Dispatch(st2, 1, "move", {1}, parseId, 9);
      out == [Send(1, Text("move"))]
  {
    var st1 := State([Row(7, "Foo", Slots(Some(1), None))], [1]);
    SelfJoinCreate(parseId);
    SelfJoinSeat(parseId);
    var st2 := State([Row(7, "Foo", Slots(Some(1), Some(1)))], [1]);
    assert !StartsWith("move", "join:") by { assert "move"[0] != 'j'; }
    assert !StartsWith("move", "create_lobby:");
    assert RelaySends(st2.rows, 1, Text("move"), {1}) == [Send(1, Text("move"))];
  }

  lemma SelfJoinCreate(parseId: string -> Option<LobbyId>)
    ensures Dispatch(State([], [1]), 1, "create_lobby:Foo", {1}, parseId, 7).0
      == State([Row(7, "Foo", Slots(Some(1), None))], [1])
  {
    ArgumentOfCommand("create_lobby:", "Foo");
    assert "create_lobby:" + "Foo" == "create_lobby:Foo";
    CreateLobbyAddsCreator(State([], [1]), 1, "create_lobby:Foo", {1}, parseId, 7);
  }

  lemma SelfJoinSeat(parseId: string -> Option<LobbyId>)
    requires parseId("7") == Some(7)
    ensures Dispatch(State([Row(7, "Foo", Slots(Some(1), None))], [1]), 1, "join:7", {1}, parseId, 8).0
      == State([Row(7, "Foo", Slots(Some(1), Some(1)))], [1])
  {
    ArgumentOfCommand("join:", "7");
    assert "join:" + "7" == "join:7";
    assert JoinTarget([Row(7, "Foo", Slots(Some(1), None))], "join:7", parseId) == Some(0);
  }

  /** When the receive loop ends the peer is gone from `clients` and has
      left at most one lobby, the first one holding it. */
  lemma LeaveRemovesOnce(st: State, socket: Peer)
    ensures socket !in Leave(st, socket).clients
    ensures forall q :: q in st.clients && q != socket ==> q in Leave(st, socket).clients
    ensures |Leave(st, socket).rows| == |st.rows|
    ensures forall i :: 0 <= i < |st.rows| && Leave(st, socket).rows[i] != st.rows[i] ==>
      FirstContaining(st.rows, socket) == Some(i)
  {
  }

  // ---------------------------------------------------------------------------
  // The server object

  class MultiplayerServer {
    /** The keys of the `clients` dictionary, without repetition. */
    var clients: seq<Peer>
    /** The `lobbies` dictionary, and its keys in insertion order. */
    var lobbies: map<LobbyId, Lobby>
    var order: seq<LobbyId>
    /** Every frame sent so far. */
    var log: seq<Send>

    ghost predicate Valid()
      reads this`clients, this`lobbies, this`order
    {
      && (forall i, j :: 0 <= i < j < |order| ==> order[i] != order[j])
      && (forall id :: id in lobbies <==> id in order)
      && (forall id :: id in lobbies ==> lobbies[id].id == id)
      && (forall i, j :: 0 <= i < j < |clients| ==> clients[i] != clients[j])
    }

    /** The dictionary's lobbies in enumeration order. */
    function Rows(): (rows: seq<Row>)
      requires Valid()
      reads this`clients, this`lobbies, this`order, lobbies.Values
      ensures |rows| == |order|
    {
      var m, ks := lobbies, order;
      seq(|ks|, i requires 0 <= i < |ks| reads m.Values => m[ks[i]].Row())
    }

    ghost function Abs(): State
      requires Valid()
      reads this`clients, this`lobbies, this`order, lobbies.Values
    {
      State(Rows(), clients)
    }

    constructor ()
      ensures Valid() && Abs() == State([], []) && log == []
    {
      clients, lobbies, order, log := [], map[], [], [];
    }

    /** `clients[socket] = true` when a WebSocket is accepted. */
    method Accept(socket: Peer)
      requires Valid()
      modifies this`clients
      ensures Valid()
      ensures socket in clients
      ensures clients == if socket in old(clients) then old(clients) else old(clients) + [socket]
    {
      if socket !in clients {
        clients := clients + [socket];
      }
    }

    method Send(to: Peer, payload: Payload)
      modifies this`log
      ensures log == old(log) + [Core.Send(to, payload)]
    {
      log := log + [Core.Send(to, payload)];
    }

    method BroadcastToLobby(sender: Peer, message: string, open: set<Peer>)
      requires Valid()
      modifies this`log
      ensures log == old(log) + RelaySends(Rows(), sender, Text(message), open)
    {
      ghost var rows := Rows();
      var i := 0;
      while i < |order|
        invariant 0 <= i <= |order|
        invariant forall j :: 0 <= j < i ==> !rows[j].slots.Contains(sender)
        invariant log == old(log)
      {
        var lobby := lobbies[order[i]];
        assert lobby.Row() == rows[i];
        if lobby.ContainsClient(sender) {
          assert FirstContaining(rows, sender) == Some(i);
          var receiver := lobby.GetOtherClient(sender);
          assert receiver == rows[i].slots.Other(sender);
          if receiver.Some? && receiver.value in open {
            assert RelayTarget(rows, sender, open) == Some((i, receiver.value));
            log := log + [Core.Send(receiver.value, Text(message))];
          } else {
            assert RelayTarget(rows, sender, open).None?;
          }
          assert Rows() == rows;
          return;
        }
        i := i + 1;
      }
    }

    method RemoveClientFromLobbies(client: Peer)
      requires Valid()
      modifies lobbies.Values
      ensures Valid()
      ensures Rows() == RemoveFromFirst(old(Rows()), client)
    {
      ghost var rows := Rows();
      var i := 0;
      while i < |order|
        invariant 0 <= i <= |order|
        invariant forall j :: 0 <= j < i ==> !rows[j].slots.Contains(client)
        invariant Valid() && Rows() == rows
      {
        var removed := RemoveAt(lobbies[order[i]], i, client);
        if removed {
          assert FirstContaining(rows, client) == Some(i);
          return;
        }
        i := i + 1;
      }
    }

    /** `lobby.RemoveClient(client)` on the `k`-th lobby. */
    method RemoveAt(lobby: Lobby, ghost k: nat, client: Peer) returns (removed: bool)
      requires Valid()
      requires k < |order| && lobby == lobbies[order[k]]
      modifies lobby
      ensures Valid()
      ensures removed <==> old(Rows())[k].slots.Contains(client)
      ensures Rows() == old(Rows())[k := old(Rows())[k].(slots := old(Rows())[k].slots.Remove(client))]
    {
      ghost var rows := Rows();
      assert lobby.Row() == rows[k];
      removed := lobby.RemoveClient(client);
      assert forall j :: 0 <= j < |order| && j != k ==> lobbies[order[j]] != lobby;
      assert Rows() == rows[k := rows[k].(slots := rows[k].slots.Remove(client))];
    }

    /** The body of the receive loop for one text frame. */
    method HandleFrame(socket: Peer, message: string, open: set<Peer>,
                       parseId: string -> Option<LobbyId>, freshId: LobbyId)
      requires Valid()
      requires freshId !in lobbies
      modifies this, lobbies.Values
      ensures Valid()
      ensures lobbies.Keys == old(lobbies.Keys) || lobbies.Keys == old(lobbies.Keys) + {freshId}
      ensures forall id :: id in old(lobbies) ==> id in lobbies && lobbies[id] == old(lobbies[id])
      ensures freshId in lobbies && freshId !in old(lobbies) ==> fresh(lobbies[freshId])
      ensures var (st', out) := Dispatch(old(Abs()), socket, message, open, parseId, freshId);
        Abs() == st' && log == old(log) + out
    {
      if StartsWith(message, "join:") {
        Join(socket, message, parseId);
      } else if message == "get_lobbies" {
        ghost var st := Abs();
        Send(socket, Listing(ListAll(Rows())));
        assert Abs() == st;
      } else if StartsWith(message, "create_lobby:") {
        CreateLobby(socket, message, freshId);
      } else {
        ghost var st := Abs();
        BroadcastToLobby(socket, message, open);
        assert Abs() == st;
      }
    }

    /** The `join:` branch of the receive loop. */
    method Join(socket: Peer, message: string, parseId: string -> Option<LobbyId>)
      requires Valid()
      requires StartsWith(message, "join:")
      modifies this`log, lobbies.Values
      ensures Valid()
      ensures var (st', out) := JoinStep(old(Abs()), socket, message, parseId);
        Abs() == st' && log == old(log) + out
    {
      ghost var st := Abs();
      var guidString := Argument("join:", message);
      var parsed := parseId(guidString);
      if parsed.Some? && parsed.value in lobbies {
        ghost var k :| 0 <= k < |order| && order[k] == parsed.value;
        LookupUnique(st.rows, parsed.value, k);
        assert JoinTarget(st.rows, message, parseId) == Some(k);
        SeatIn(socket, lobbies[parsed.value], k);
      } else {
        assert JoinTarget(st.rows, message, parseId).None?;
        Send(socket, Text(NotFound));
        assert Rows() == st.rows;
      }
    }

    method SeatIn(socket: Peer, lobby: Lobby, ghost k: nat)
      requires Valid()
      requires k < |order| && lobby == lobbies[order[k]]
      modifies this`log, lobby
      ensures Valid()
      ensures var (st', out) := Seat(old(Abs()), socket, k);
        Abs() == st' && log == old(log) + out
    {
      ghost var st := Abs();
      assert lobby.Row() == st.rows[k];
      var added := lobby.AddClient(socket);
      ghost var rows' := Rows();
      if added {
        assert forall j :: 0 <= j < |order| && j != k ==> lobbies[order[j]] != lobby;
        assert rows' == st.rows[k := st.rows[k].(slots := st.rows[k].slots.Add(socket))];
        Send(socket, Text(Joined));
      } else {
        assert rows' == st.rows;
        Send(socket, Text(Full));
      }
      assert Rows() == rows';
    }

    /** The `create_lobby:` branch of the receive loop. */
    method CreateLobby(socket: Peer, message: string, freshId: LobbyId)
      requires Valid()
      requires StartsWith(message, "create_lobby:")
      requires freshId !in lobbies
      modifies this
      ensures Valid()
      ensures lobbies.Keys == old(lobbies.Keys) + {freshId}
      ensures forall id :: id in old(lobbies) ==> lobbies[id] == old(lobbies[id])
      ensures fresh(lobbies[freshId])
      ensures Abs() == old(Abs()).(rows := old(Rows()) + [Core.Row(freshId, Argument("create_lobby:", message), Empty.Add(socket))])
      ensures log == old(log) + [Core.Send(socket, Created(freshId))]
    {
      var lobbyName := Argument("create_lobby:", message);
      var lobby := new Lobby(lobbyName, freshId);
      var _ := lobby.AddClient(socket);
      Register(lobby);
      Send(socket, Created(freshId));
    }

    /** `lobbies.Add(lobby.Id, lobby)` for a lobby not yet in the dictionary. */
    method Register(lobby: Lobby)
      requires Valid()
      requires lobby.id !in lobbies && lobby !in lobbies.Values
      modifies this`lobbies, this`order
      ensures Valid()
      ensures lobbies == old(lobbies)[lobby.id := lobby]
      ensures Abs() == old(Abs()).(rows := old(Rows()) + [lobby.Row()])
    {
      ghost var st, m, o := Abs(), lobbies, order;
      assert forall i :: 0 <= i < |o| ==> o[i] in m && o[i] != lobby.id;
      lobbies := lobbies[lobby.id := lobby];
      order := order + [lobby.id];
      forall i | 0 <= i < |order|
        ensures Rows()[i] == (st.rows + [lobby.Row()])[i]
      {
        if i < |o| {
          assert lobbies[order[i]] == m[o[i]];
        }
      }
    }

    /** After the receive loop: `clients.TryRemove(socket)` and
        `RemoveClientFromLobbies(socket)`. */
    method EndConnection(socket: Peer)
      requires Valid()
      modifies this`clients, lobbies.Values
      ensures Valid()
      ensures Abs() == Leave(old(Abs()), socket)
    {
      ghost var rows := Rows();
      WithoutKeepsDistinct(clients, socket);
      clients := Without(clients, socket);
      assert Rows() == rows;
      RemoveClientFromLobbies(socket);
    }

    /** One pass of the receive loop in `HandleConnection` on frame `f`;
        `done` after a Close frame, when `socket` is no longer open. */
    method ReceiveNext(socket: Peer, f: Frame, open: set<Peer>,
                       parseId: string -> Option<LobbyId>, freshId: LobbyId) returns (done: bool)
      requires Valid()
      requires freshId !in lobbies
      modifies this, lobbies.Values
      ensures Valid()
      ensures lobbies.Keys == old(lobbies.Keys) || lobbies.Keys == old(lobbies.Keys) + {freshId}
      ensures forall l :: l in lobbies.Values ==> l in old(lobbies.Values) || fresh(l)
      ensures var (st', out) := Step(old(Abs()), socket, f, open, parseId, freshId);
        Abs() == st' && log == old(log) + out && done == f.Close?
    {
      var message := if f.Close? then "" else f.text;
      var live := if f.Close? then open - {socket} else open + {socket};
      HandleFrame(socket, message, live, parseId, freshId);
      done := f.Close?;
    }

    /** `HandleConnection`: the receive loop over the frames the socket
        delivers while it is open, then the cleanup. */
    method HandleConnection(socket: Peer, frames: seq<Frame>, open: set<Peer>,
                            parseId: string -> Option<LobbyId>, freshIds: seq<LobbyId>)
      requires Valid()
      requires |freshIds| == |frames|
      requires forall i, j :: 0 <= i < j < |freshIds| ==> freshIds[i] != freshIds[j]
      requires forall i :: 0 <= i < |freshIds| ==> freshIds[i] !in lobbies
      modifies this, lobbies.Values
      ensures Valid()
      ensures socket !in clients
      ensures var (st', out) := Session(old(Abs()), socket, frames, open, parseId, freshIds);
        Abs() == st' && log == old(log) + out
    {
      ghost var total := Loop(old(Abs()), socket, frames, open, parseId, freshIds);
      assert frames[0..] == frames && freshIds[0..] == freshIds;
      ghost var sent: seq<Send> := [];
      var i := 0;
      var done := false;
      while i < |frames| && !done
        invariant 0 <= i <= |frames|
        invariant Valid()
        invariant forall j :: i <= j < |freshIds| ==> freshIds[j] !in lobbies
        invariant forall l :: l in lobbies.Values ==> l in old(lobbies.Values) || fresh(l)
        invariant log == old(log) + sent
        invariant done ==> Abs() == total.0 && sent == total.1
        invariant !done ==>
          var rest := Loop(Abs(), socket, frames[i..], open, parseId, freshIds[i..]);
          total.0 == rest.0 && total.1 == sent + rest.1
        decreases |frames| - i
      {
        ghost var before := Abs();
        done := ReceiveNext(socket, frames[i], open, parseId, freshIds[i]);
        ghost var out := Step(before, socket, frames[i], open, parseId, freshIds[i]).1;
        LoopStep(before, socket, frames, open, parseId, freshIds, i, sent, total);
        AppendAssoc(old(log), sent, out);
        sent := sent + out;
        i := i + 1;
      }
      if !done {
        assert frames[i..] == [] && freshIds[i..] == [];
      }
      EndConnection(socket);
    }
  }
}
