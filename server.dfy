/** The second server, Server.cs (`CheckerServer.Server`): a lobby dictionary
    of timer-bearing lobbies, the set of sockets that receive lobby-list
    pushes, `HandleResponse`'s dispatch on the frame's text, the relay with
    its turn-timer and eviction rules, and the Close branch of the
    per-connection loop. This server does not seat the creator, lists only
    lobbies with room, and answers `join:` with lobby-list pushes. */
module CheckerServer {
  import opened Core
  import opened CheckerLobby

  /** The text a relay of which evicts both peers, and that a Close frame sends. */
  const Notice: string := "Противник отключился."

  /** What the relay reads of a deserialized `Action`. */
  datatype ActionFlags = ActionFlags(isCapture: bool, hasCaptureMoves: bool)

  /** `HandleResponse`'s result: the text the loop sends back, or an
      exception that escapes to the handler's `catch` and ends the connection. */
  datatype Reply = Reply(payload: Payload) | Fault

  /** `lobbies` in dictionary order, and the keys of `clients`. */
  datatype ServerState = ServerState(lobbies: seq<LobbyState>, clients: seq<Peer>)

  ghost predicate TimersValid(ls: seq<LobbyState>)
  {
    forall i :: 0 <= i < |ls| ==> ls[i].timer.Valid()
  }

  /** The rows the lookups work on. */
  function RowsOf(ls: seq<LobbyState>): (rows: seq<Row>)
    ensures |rows| == |ls|
    ensures forall i :: 0 <= i < |ls| ==> rows[i] == ls[i].row
  {
    seq(|ls|, i requires 0 <= i < |ls| => ls[i].row)
  }

  // ---------------------------------------------------------------------------
  // The pure parts: the listing and the turn-timer decision

  /** The `Where(Connected < 2).Select(...)` listing of `get_lobbies` and
      `LobbyNotify`. */
  function Joinable(rows: seq<Row>): (r: seq<Entry>)
    ensures |r| <= |rows|
    ensures forall i :: 0 <= i < |r| ==> r[i].connected < 2
  {
    if rows == [] then []
    else (if rows[0].slots.Connected() < 2 then [EntryOf(rows[0])] else []) + Joinable(rows[1..])
  }

  /** The listing keeps dictionary order: it is a filter. */
  lemma {:induction false} JoinableAppend(a: seq<Row>, b: seq<Row>)
    ensures Joinable(a + b) == Joinable(a) + Joinable(b)
  {
    if a == [] {
      assert a + b == b;
    } else {
      assert (a + b)[1..] == a[1..] + b;
      JoinableAppend(a[1..], b);
    }
  }

  /** An entry is listed exactly when it is the entry of a lobby with room. */
  lemma {:induction false} JoinableExactly(rows: seq<Row>, e: Entry)
    ensures e in Joinable(rows) <==>
      exists i :: 0 <= i < |rows| && rows[i].slots.Connected() < 2 && EntryOf(rows[i]) == e
  {
    if rows != [] {
      JoinableExactly(rows[1..], e);
      if e in Joinable(rows[1..]) {
        var i :| 0 <= i < |rows[1..]| && rows[1..][i].slots.Connected() < 2 && EntryOf(rows[1..][i]) == e;
        assert rows[i + 1] == rows[1..][i];
      }
      if exists i :: 0 <= i < |rows| && rows[i].slots.Connected() < 2 && EntryOf(rows[i]) == e {
        var i :| 0 <= i < |rows| && rows[i].slots.Connected() < 2 && EntryOf(rows[i]) == e;
        if i > 0 {
          assert rows[1..][i - 1] == rows[i];
        }
      }
    }
  }

  /** The nested `if (!iscapture) ... else if (!HasCaptureMoves) ...`: the
      turn passes unless the mover captured and can capture again. */
  function ResetsTimer(a: ActionFlags): (b: bool)
    ensures b <==> !a.isCapture || !a.hasCaptureMoves
  {
    if !a.isCapture then true
    else if !a.hasCaptureMoves then true
    else false
  }

  /** The lobby-list push of `LobbyNotify` to the keys of `clients`, in
      order; a send to a socket that is not open throws a caught
      `WebSocketException` and delivers nothing. */
  function NotifySends(cs: seq<Peer>, listing: seq<Entry>, open: set<Peer>): (out: seq<Send>)
    ensures |out| <= |cs|
    ensures forall i :: 0 <= i < |out| ==>
      out[i].to in cs && out[i].to in open && out[i].payload == Listing(listing)
    ensures forall c :: c in cs && c in open ==> Send(c, Listing(listing)) in out
  {
    if cs == [] then []
    else
      var init := cs[..|cs| - 1];
      var last := cs[|cs| - 1];
      assert cs == init + [last];
      NotifySends(init, listing, open) + (if last in open then [Send(last, Listing(listing))] else [])
  }

  /** With duplicate-free keys, as `clients`' are, each open key gets the
      listing exactly once: the pushes are as many as the open keys. */
  lemma {:induction false} NotifyOncePerOpenKey(cs: seq<Peer>, listing: seq<Entry>, open: set<Peer>)
    requires Distinct(cs)
    ensures |NotifySends(cs, listing, open)| == |OpenKeys(cs, open)|
  {
    if cs != [] {
      var init := cs[..|cs| - 1];
      OpenKeysStep(cs, open);
      NotifyOncePerOpenKey(init, listing, open);
    }
  }

  /** One more key pushes at most one more listing, at the end. */
  lemma NotifySendsSnoc(cs: seq<Peer>, c: Peer, listing: seq<Entry>, open: set<Peer>)
    ensures NotifySends(cs + [c], listing, open)
      == NotifySends(cs, listing, open) + (if c in open then [Send(c, Listing(listing))] else [])
  {
    assert (cs + [c])[..|cs|] == cs;
  }

  predicate Distinct(cs: seq<Peer>)
  {
    forall i, j :: 0 <= i < j < |cs| ==> cs[i] != cs[j]
  }

  /** The keys of `cs` whose socket is open. */
  ghost function OpenKeys(cs: seq<Peer>, open: set<Peer>): set<Peer>
  {
    set c | c in cs && c in open
  }

  /** Dropping the last of duplicate-free keys drops at most that one open key. */
  lemma OpenKeysStep(cs: seq<Peer>, open: set<Peer>)
    requires |cs| > 0
    ensures var init := cs[..|cs| - 1];
      Distinct(cs) ==>
        && Distinct(init)
        && |OpenKeys(cs, open)| == |OpenKeys(init, open)| + (if cs[|cs| - 1] in open then 1 else 0)
  {
    var init, last := cs[..|cs| - 1], cs[|cs| - 1];
    assert cs == init + [last];
    if Distinct(cs) {
      forall i, j | 0 <= i < j < |init| ensures init[i] != init[j] {
        assert init[i] == cs[i] && init[j] == cs[j];
      }
      assert last !in init;
      if last in open {
        assert OpenKeys(cs, open) == OpenKeys(init, open) + {last};
      } else {
        assert OpenKeys(cs, open) == OpenKeys(init, open);
      }
    }
  }

  function Notify(st: ServerState, open: set<Peer>): seq<Send>
  {
    NotifySends(st.clients, Joinable(RowsOf(st.lobbies)), open)
  }

  // ---------------------------------------------------------------------------
  // BroadcastToLobby, HandleResponse and the Close branch, as values

  /** What `BroadcastToLobby` did: the lobbies after it, the frames it sent,
      and whether an exception escaped it. */
  datatype Relayed = Relayed(lobbies: seq<LobbyState>, sent: seq<Send>, fault: bool)

  /** `BroadcastToLobby(sender, message)`. The frame goes to the other
      occupant of the first lobby containing the sender when that occupant is
      open; only then is it inspected. An `action` frame is cut after seven
      characters and deserialized (`parseAction` covers `Trim` and
      `JsonSerializer`, `None` for a throw or a null result); a frame too
      short for `Substring(7)` or that does not deserialize throws. The notice
      evicts the sender, then the receiver. */
  function Relay(ls: seq<LobbyState>, sender: Peer, message: string, open: set<Peer>,
                 parseAction: string -> Option<ActionFlags>): (r: Relayed)
    requires TimersValid(ls)
    ensures |r.lobbies| == |ls| && TimersValid(r.lobbies)
    ensures forall i :: 0 <= i < |ls| ==>
      r.lobbies[i].row.id == ls[i].row.id && r.lobbies[i].row.name == ls[i].row.name
    ensures |r.sent| >= 1 <==> RelayTarget(RowsOf(ls), sender, open).Some?
    ensures r.fault ==> StartsWith(message, "action") && |r.sent| == 1
  {
    match RelayTarget(RowsOf(ls), sender, open)
    case None => Relayed(ls, [], false)
    case Some((k, receiver)) => AfterDelivery(ls, k, sender, receiver, message, open, parseAction)
  }

  /** `BroadcastToLobby` once `message` reached the open `receiver` of lobby `k`. */
  function AfterDelivery(ls: seq<LobbyState>, k: nat, sender: Peer, receiver: Peer, message: string,
                         open: set<Peer>, parseAction: string -> Option<ActionFlags>): (r: Relayed)
    requires TimersValid(ls) && k < |ls|
    ensures |r.lobbies| == |ls| && TimersValid(r.lobbies)
    ensures forall i :: 0 <= i < |ls| ==>
      r.lobbies[i].row.id == ls[i].row.id && r.lobbies[i].row.name == ls[i].row.name
    ensures |r.sent| >= 1 && r.sent[0] == Send(receiver, Text(message))
    ensures r.fault ==> StartsWith(message, "action") && |r.sent| == 1
  {
    var delivered := [Send(receiver, Text(message))];
    if StartsWith(message, "action") then
      if |message| < 7 then Relayed(ls, delivered, true)
      else
        match parseAction(message[7..])
        case None => Relayed(ls, delivered, true)
        case Some(a) =>
          if ResetsTimer(a) then
            var (l', swaps) := SwapSides(ls[k], open);
            Relayed(ls[k := l'], delivered + swaps, false)
          else Relayed(ls, delivered, false)
    else if message == Notice then
      Relayed(ls[k := RemoveFrom(RemoveFrom(ls[k], sender), receiver)], delivered, false)
    else Relayed(ls, delivered, false)
  }

  /** What one `HandleResponse` call did. */
  datatype Outcome = Outcome(state: ServerState, sent: seq<Send>, reply: Reply)

  /** The lobby a `join:` frame names, if its argument parses and is a key. */
  function JoinTarget(ls: seq<LobbyState>, message: string, parseId: string -> Option<LobbyId>): Option<nat>
    requires StartsWith(message, "join:")
  {
    match parseId(Argument("join:", message))
    case None => None
    case Some(id) => Lookup(RowsOf(ls), id)
  }

  /** The `start` pair sent when a join fills a lobby whose other occupant is
      open: to that occupant, then to the joiner. */
  function StartSends(slots: Slots, socket: Peer, open: set<Peer>): seq<Send>
  {
    match slots.Other(socket)
    case Some(r) => if r in open then [Send(r, Text("start")), Send(socket, Text("start"))] else []
    case None => []
  }

  /** The `join:` branch of `HandleResponse`. */
  function JoinResponse(st: ServerState, socket: Peer, message: string, open: set<Peer>,
                        parseId: string -> Option<LobbyId>): Outcome
    requires StartsWith(message, "join:")
  {
    match JoinTarget(st.lobbies, message, parseId)
    case None => Outcome(st, Notify(st, open), Reply(Text("")))
    case Some(k) => SeatAt(st, socket, k, open)
  }

  /** `AddClient` on the lobby found for `join:`, the `start` pair, the
      removal from `clients`, and the push. */
  function SeatAt(st: ServerState, socket: Peer, k: nat, open: set<Peer>): Outcome
    requires k < |st.lobbies|
  {
    var (st', starts) := Seated(st, socket, k, open);
    Outcome(st', starts + Notify(st', open), Reply(Text("")))
  }

  /** `AddClient` on lobby `k`; on success the `start` pair and
      `clients.TryRemove(socket)`. */
  function Seated(st: ServerState, socket: Peer, k: nat, open: set<Peer>): (ServerState, seq<Send>)
    requires k < |st.lobbies|
  {
    if st.lobbies[k].row.slots.HasRoom() then
      var l' := AddTo(st.lobbies[k], socket);
      (ServerState(st.lobbies[k := l'], Without(st.clients, socket)), StartSends(l'.row.slots, socket, open))
    else (st, [])
  }

  /** A new lobby as `new Lobby(name)` makes it: empty, timer never started. */
  function NewLobby(id: LobbyId, name: string): LobbyState
  {
    LobbyState(Row(id, name, Empty), Idle, [])
  }

  /** `HandleResponse(message, socket)`; `freshId` is the Guid a new lobby
      would draw. The reply is never `close`, and no lobby is ever dropped
      or renamed. */
  function Respond(st: ServerState, socket: Peer, message: string, open: set<Peer>,
                   parseId: string -> Option<LobbyId>, parseAction: string -> Option<ActionFlags>,
                   freshId: LobbyId): (o: Outcome)
    requires TimersValid(st.lobbies)
    ensures TimersValid(o.state.lobbies)
    ensures o.reply != Reply(Text("close"))
    ensures o.reply.Reply? && o.reply.payload.Text? ==> o.reply.payload.text == ""
    ensures |st.lobbies| <= |o.state.lobbies| <= |st.lobbies| + 1
    ensures forall i :: 0 <= i < |st.lobbies| ==>
      o.state.lobbies[i].row.id == st.lobbies[i].row.id && o.state.lobbies[i].row.name == st.lobbies[i].row.name
    ensures |o.state.lobbies| == |st.lobbies| + 1 ==> o.state.lobbies[|st.lobbies|].row.id == freshId
    ensures o.reply.Fault? ==> |o.state.lobbies| == |st.lobbies|
  {
    if StartsWith(message, "join:") then JoinResponse(st, socket, message, open, parseId)
    else if message == "get_lobbies" then
      Outcome(st, [], Reply(Listing(Joinable(RowsOf(st.lobbies)))))
    else if StartsWith(message, "create_lobby:") then CreateResponse(st, socket, message, open, freshId)
    else RelayResponse(st, socket, message, open, parseAction)
  }

  /** The `create_lobby:` branch of `HandleResponse`. */
  function CreateResponse(st: ServerState, socket: Peer, message: string, open: set<Peer>, freshId: LobbyId): Outcome
    requires StartsWith(message, "create_lobby:")
  {
    var st' := st.(lobbies := st.lobbies + [NewLobby(freshId, Argument("create_lobby:", message))]);
    Outcome(st', Notify(st', open), Reply(Created(freshId)))
  }

  /** The relay branch of `HandleResponse`. */
  function RelayResponse(st: ServerState, socket: Peer, message: string, open: set<Peer>,
                         parseAction: string -> Option<ActionFlags>): Outcome
    requires TimersValid(st.lobbies)
  {
    var r := Relay(st.lobbies, socket, message, open, parseAction);
    Outcome(st.(lobbies := r.lobbies), r.sent, if r.fault then Fault else Reply(Text("")))
  }

  /** The Close branch of `HandleWebSocketAsync`: the notice is relayed, then
      the first lobby still containing the socket loses it if its other
      occupant is open. */
  function CloseBranch(st: ServerState, ws: Peer, open: set<Peer>,
                       parseAction: string -> Option<ActionFlags>): (c: (ServerState, seq<Send>))
    requires TimersValid(st.lobbies)
    ensures c.0.clients == st.clients && |c.0.lobbies| == |st.lobbies|
    ensures forall i :: 0 <= i < |st.lobbies| ==>
      c.0.lobbies[i].row.id == st.lobbies[i].row.id && c.0.lobbies[i].row.name == st.lobbies[i].row.name
  {
    var r := Relay(st.lobbies, ws, Notice, open, parseAction);
    (st.(lobbies := Evicted(r.lobbies, ws, open)), r.sent)
  }

  /** The `foreach` of the Close branch: the first lobby containing `ws`
      drops it when its other occupant is non-null and open, which is the
      same search `BroadcastToLobby` makes. */
  function Evicted(ls: seq<LobbyState>, ws: Peer, open: set<Peer>): (r: seq<LobbyState>)
    ensures |r| == |ls|
    ensures forall i :: 0 <= i < |ls| ==>
      r[i].row.id == ls[i].row.id && r[i].row.name == ls[i].row.name && r[i].timer == ls[i].timer
  {
    match RelayTarget(RowsOf(ls), ws, open)
    case None => ls
    case Some((k, _)) => ls[k := RemoveFrom(ls[k], ws)]
  }

  /** The `foreach` changes nothing without an open other occupant, and
      otherwise only the first lobby holding `ws`, which loses `ws`. */
  lemma EvictedChanges(ls: seq<LobbyState>, ws: Peer, open: set<Peer>)
    ensures RelayTarget(RowsOf(ls), ws, open).None? ==> Evicted(ls, ws, open) == ls
    ensures forall i :: 0 <= i < |ls| && Evicted(ls, ws, open)[i] != ls[i] ==>
      FirstContaining(RowsOf(ls), ws) == Some(i) && Evicted(ls, ws, open)[i] == RemoveFrom(ls[i], ws)
  {
  }

  /** `clients[webSocket] = true` on accept. */
  function Accepted(st: ServerState, ws: Peer): (st': ServerState)
    ensures st'.lobbies == st.lobbies && ws in st'.clients
    ensures forall q :: q in st'.clients <==> q in st.clients || q == ws
  {
    if ws in st.clients then st else st.(clients := st.clients + [ws])
  }

  /** One pass of the receive loop of `HandleWebSocketAsync` on frame `f`:
      the state after it, the frames sent, and whether the loop goes on. A
      Close frame runs the Close branch and ends the loop; a text frame is
      answered with `HandleResponse`'s reply, unless that threw, which ends
      the handler. The loop runs only while `ws` is open, so a text frame is
      handled with `ws` open; once the Close frame has been received, `ws`
      is no longer open. No lobby is dropped or renamed. */
  function Turn(st: ServerState, ws: Peer, f: Frame, open: set<Peer>,
                parseId: string -> Option<LobbyId>, parseAction: string -> Option<ActionFlags>,
                freshId: LobbyId): (r: (ServerState, seq<Send>, bool))
    requires TimersValid(st.lobbies)
    ensures TimersValid(r.0.lobbies)
    ensures |st.lobbies| <= |r.0.lobbies| <= |st.lobbies| + 1
    ensures forall i :: 0 <= i < |st.lobbies| ==>
      r.0.lobbies[i].row.id == st.lobbies[i].row.id && r.0.lobbies[i].row.name == st.lobbies[i].row.name
    ensures |r.0.lobbies| == |st.lobbies| + 1 ==> r.0.lobbies[|st.lobbies|].row.id == freshId
    ensures f.Close? ==> !r.2
  {
    match f
    case Close =>
      var (st', out) := CloseBranch(st, ws, open - {ws}, parseAction);
      (st', out, false)
    case Message(m) =>
      var o := Respond(st, ws, m, open + {ws}, parseId, parseAction, freshId);
      match o.reply
      case Fault => (o.state, o.sent, false)
      case Reply(p) => (o.state, o.sent + [Send(ws, p)], true)
  }

  /** The receive loop over the frames `ws` delivers; `freshIds[i]` is the
      Guid frame i would draw. Lobbies are only ever added, each with one of
      those Guids. */
  function Run(st: ServerState, ws: Peer, frames: seq<Frame>, open: set<Peer>,
               parseId: string -> Option<LobbyId>, parseAction: string -> Option<ActionFlags>,
               freshIds: seq<LobbyId>): (r: (ServerState, seq<Send>))
    requires |freshIds| == |frames| && TimersValid(st.lobbies)
    ensures |st.lobbies| <= |r.0.lobbies|
    ensures forall i :: 0 <= i < |st.lobbies| ==>
      r.0.lobbies[i].row.id == st.lobbies[i].row.id && r.0.lobbies[i].row.name == st.lobbies[i].row.name
    ensures forall i :: |st.lobbies| <= i < |r.0.lobbies| ==> r.0.lobbies[i].row.id in freshIds
    decreases |frames|
  {
    if frames == [] then (st, [])
    else
      var (st1, out1, more) := Turn(st, ws, frames[0], open, parseId, parseAction, freshIds[0]);
      if !more then (st1, out1)
      else
        var (st2, out2) := Run(st1, ws, frames[1..], open, parseId, parseAction, freshIds[1..]);
        assert forall i :: |st1.lobbies| <= i < |st2.lobbies| ==> st2.lobbies[i].row.id in freshIds by {
          forall i | |st1.lobbies| <= i < |st2.lobbies| ensures st2.lobbies[i].row.id in freshIds {
            assert st2.lobbies[i].row.id in freshIds[1..];
          }
        }
        (st2, out1 + out2)
  }

  /** A whole connection: accept, then the receive loop. */
  function Connection(st: ServerState, ws: Peer, frames: seq<Frame>, open: set<Peer>,
                      parseId: string -> Option<LobbyId>, parseAction: string -> Option<ActionFlags>,
                      freshIds: seq<LobbyId>): (ServerState, seq<Send>)
    requires |freshIds| == |frames| && TimersValid(st.lobbies)
  {
    Run(Accepted(st, ws), ws, frames, open, parseId, parseAction, freshIds)
  }

  // ---------------------------------------------------------------------------
  // What the relay promises

  /** Without an open receiver nothing is sent, nothing changes and nothing
      is inspected: the timer and the eviction rules act only after delivery. */
  lemma RelayWithoutReceiver(ls: seq<LobbyState>, sender: Peer, message: string, open: set<Peer>,
                             parseAction: string -> Option<ActionFlags>)
    requires TimersValid(ls)
    requires RelayTarget(RowsOf(ls), sender, open).None?
    ensures Relay(ls, sender, message, open, parseAction) == Relayed(ls, [], false)
  {
  }

  /** Any other frame is the plain relay: it goes to the open other
      occupant of the first lobby holding the sender, if there is one, and
      nothing else is sent and no lobby changes. */
  lemma PlainRelay(ls: seq<LobbyState>, sender: Peer, message: string, open: set<Peer>,
                   parseAction: string -> Option<ActionFlags>)
    requires TimersValid(ls)
    requires !StartsWith(message, "action") && message != Notice
    ensures Relay(ls, sender, message, open, parseAction)
      == Relayed(ls, RelaySends(RowsOf(ls), sender, Text(message), open), false)
  {
  }

  /** A delivered `action` frame that deserializes passes the turn, with
      `swap` to the open occupants and a timer restart, exactly when
      `!IsCapture || !HasCaptureMoves`; a capture with further captures
      available changes nothing. */
  lemma {:induction false} ActionTimerRule(ls: seq<LobbyState>, sender: Peer, message: string, open: set<Peer>,
                                           parseAction: string -> Option<ActionFlags>, k: nat, receiver: Peer,
                                           a: ActionFlags)
    requires TimersValid(ls)
    requires RelayTarget(RowsOf(ls), sender, open) == Some((k, receiver))
    requires StartsWith(message, "action") && |message| >= 7 && parseAction(message[7..]) == Some(a)
    ensures var r := Relay(ls, sender, message, open, parseAction);
      && !r.fault
      && r.sent[0] == Send(receiver, Text(message))
      && (!a.isCapture || !a.hasCaptureMoves ==>
            && r.lobbies == ls[k := ls[k].(timer := ls[k].timer.Restart())]
            && r.sent == [Send(receiver, Text(message))] + SwapSends(ls[k].row.slots, open))
      && (a.isCapture && a.hasCaptureMoves ==>
            r.lobbies == ls && r.sent == [Send(receiver, Text(message))])
  {
    assert ResetsTimer(a) <==> !a.isCapture || !a.hasCaptureMoves;
  }

  /** A delivered `action` frame too short for `Substring(7)` or that does
      not deserialize throws after delivery, and changes no lobby. */
  lemma ActionFault(ls: seq<LobbyState>, sender: Peer, message: string, open: set<Peer>,
                    parseAction: string -> Option<ActionFlags>, k: nat, receiver: Peer)
    requires TimersValid(ls)
    requires RelayTarget(RowsOf(ls), sender, open) == Some((k, receiver))
    requires StartsWith(message, "action") && (|message| < 7 || parseAction(message[7..]).None?)
    ensures Relay(ls, sender, message, open, parseAction) == Relayed(ls, [Send(receiver, Text(message))], true)
  {
  }

  /** A delivered notice empties the lobby: both peers leave it, the
      disconnect event is raised for the sender and then the receiver, and
      no other lobby changes. */
  lemma {:induction false} NoticeEvictsBoth(ls: seq<LobbyState>, sender: Peer, open: set<Peer>,
                                            parseAction: string -> Option<ActionFlags>, k: nat, receiver: Peer)
    requires TimersValid(ls)
    requires RelayTarget(RowsOf(ls), sender, open) == Some((k, receiver))
    ensures var r := Relay(ls, sender, Notice, open, parseAction);
      && !r.fault
      && r.sent == [Send(receiver, Text(Notice))]
      && |r.lobbies| == |ls|
      && r.lobbies[k].row.slots == Empty
      && r.lobbies[k].departed == ls[k].departed + [sender, receiver]
      && r.lobbies[k].timer == ls[k].timer
      && (forall i :: 0 <= i < |ls| && i != k ==> r.lobbies[i] == ls[i])
  {
    assert !StartsWith(Notice, "action") by { assert Notice[0] != 'a'; }
    var s := ls[k].row.slots;
    assert s.Contains(sender) && s.Other(sender) == Some(receiver);
    var l1 := RemoveFrom(ls[k], sender);
    assert l1.row.slots.Contains(receiver);
  }

  /** `Lobby_ClientDisconnected` broadcasts the notice for the peer just
      removed. While the notice is being handled, a peer that sits in no
      other lobby is not found by that broadcast, after either eviction, so
      the handler sends nothing and changes nothing. */
  lemma {:induction false} DisconnectHandlerIsQuiet(ls: seq<LobbyState>, sender: Peer, open: set<Peer>,
                                                    parseAction: string -> Option<ActionFlags>, k: nat, receiver: Peer)
    requires TimersValid(ls)
    requires RelayTarget(RowsOf(ls), sender, open) == Some((k, receiver))
    requires forall j :: 0 <= j < |ls| && j != k ==> !ls[j].row.slots.Contains(sender) && !ls[j].row.slots.Contains(receiver)
    ensures var ls1 := ls[k := RemoveFrom(ls[k], sender)];
      TimersValid(ls1) && Relay(ls1, sender, Notice, open, parseAction) == Relayed(ls1, [], false)
    ensures var ls2 := ls[k := RemoveFrom(RemoveFrom(ls[k], sender), receiver)];
      TimersValid(ls2) && Relay(ls2, receiver, Notice, open, parseAction) == Relayed(ls2, [], false)
  {
    var s := ls[k].row.slots;
    assert s.Contains(sender) && s.Other(sender) == Some(receiver);
    var ls1 := ls[k := RemoveFrom(ls[k], sender)];
    assert ls1[k].row.slots.Other(sender).None?;
    assert forall j :: 0 <= j < |ls1| && j != k ==> !RowsOf(ls1)[j].slots.Contains(sender);
    assert RelayTarget(RowsOf(ls1), sender, open).None?;
    var ls2 := ls[k := RemoveFrom(RemoveFrom(ls[k], sender), receiver)];
    assert ls2[k].row.slots == Empty;
    assert forall j :: 0 <= j < |ls2| ==> !RowsOf(ls2)[j].slots.Contains(receiver);
    assert RelayTarget(RowsOf(ls2), receiver, open).None?;
  }

  /** The Close branch's `foreach` changes nothing for a socket that sits in
      at most one lobby: when the notice reached the other occupant it
      evicted both already, and otherwise the same search finds no open
      other occupant either. */
  lemma {:induction false} CloseEvictionIsRedundant(st: ServerState, ws: Peer, open: set<Peer>,
                                                    parseAction: string -> Option<ActionFlags>)
    requires TimersValid(st.lobbies)
    requires forall i, j :: 0 <= i < |st.lobbies| && 0 <= j < |st.lobbies| && i != j ==>
      !(st.lobbies[i].row.slots.Contains(ws) && st.lobbies[j].row.slots.Contains(ws))
    ensures CloseBranch(st, ws, open, parseAction).0.lobbies == Relay(st.lobbies, ws, Notice, open, parseAction).lobbies
  {
    var ls := st.lobbies;
    var r := Relay(ls, ws, Notice, open, parseAction);
    match RelayTarget(RowsOf(ls), ws, open)
    case None =>
      RelayWithoutReceiver(ls, ws, Notice, open, parseAction);
      assert Evicted(r.lobbies, ws, open) == r.lobbies;
    case Some((k, x)) =>
      NoticeEvictsBoth(ls, ws, open, parseAction, k, x);
      assert forall j :: 0 <= j < |r.lobbies| ==> !RowsOf(r.lobbies)[j].slots.Contains(ws);
      assert FirstContaining(RowsOf(r.lobbies), ws).None?;
      assert Evicted(r.lobbies, ws, open) == r.lobbies;
  }

  /** A Close frame never sends to the closing socket: after `ReceiveAsync`
      returned the Close, that socket is no longer open. */
  lemma CloseSkipsClosingSocket(st: ServerState, ws: Peer, open: set<Peer>,
                                parseId: string -> Option<LobbyId>,
                                parseAction: string -> Option<ActionFlags>, freshId: LobbyId)
    requires TimersValid(st.lobbies)
    ensures var r := Turn(st, ws, Close, open, parseId, parseAction, freshId);
      forall s :: s in r.1 ==> s.to != ws && s.to in open
  {
    var closing := open - {ws};
    match RelayTarget(RowsOf(st.lobbies), ws, closing)
    case None =>
      RelayWithoutReceiver(st.lobbies, ws, Notice, closing, parseAction);
    case Some((k, x)) =>
      NoticeEvictsBoth(st.lobbies, ws, closing, parseAction, k, x);
  }

  /** A socket that holds both slots of the first lobby holding it (it
      joined that lobby twice) changes nothing and sends nothing when it
      closes: the other occupant both searches find is the closing socket
      itself. */
  lemma {:induction false} SelfJoinedCloseIsSilent(st: ServerState, ws: Peer, open: set<Peer>,
                                                   parseId: string -> Option<LobbyId>,
                                                   parseAction: string -> Option<ActionFlags>,
                                                   freshId: LobbyId, k: nat)
    requires TimersValid(st.lobbies)
    requires FirstContaining(RowsOf(st.lobbies), ws) == Some(k)
    requires st.lobbies[k].row.slots == Slots(Some(ws), Some(ws))
    ensures Turn(st, ws, Close, open, parseId, parseAction, freshId) == (st, [], false)
  {
    assert RelayTarget(RowsOf(st.lobbies), ws, open - {ws}).None?;
    RelayWithoutReceiver(st.lobbies, ws, Notice, open - {ws}, parseAction);
  }

  /** A text frame is handled while its own socket is open: a `join:` that
      seats the joiner opposite itself sends it `start` twice. */
  lemma SelfJoinStartsTwice(st: ServerState, ws: Peer, m: string, open: set<Peer>,
                            parseId: string -> Option<LobbyId>,
                            parseAction: string -> Option<ActionFlags>, freshId: LobbyId, k: nat)
    requires TimersValid(st.lobbies)
    requires StartsWith(m, "join:") && k < |st.lobbies| && JoinTarget(st.lobbies, m, parseId) == Some(k)
    requires st.lobbies[k].row.slots == Slots(Some(ws), None)
    ensures var r := Turn(st, ws, Message(m), open, parseId, parseAction, freshId);
      |r.1| >= 2 && r.1[..2] == [Send(ws, Text("start")), Send(ws, Text("start"))]
  {
    JoinRule(st, ws, m, open + {ws}, parseId, parseAction, freshId);
  }

  // ---------------------------------------------------------------------------
  // What HandleResponse promises

  /** `get_lobbies` replies the lobbies with room, in order, and changes nothing. */
  lemma GetLobbiesListsJoinable(st: ServerState, socket: Peer, open: set<Peer>,
                                parseId: string -> Option<LobbyId>, parseAction: string -> Option<ActionFlags>,
                                freshId: LobbyId)
    requires TimersValid(st.lobbies)
    ensures Respond(st, socket, "get_lobbies", open, parseId, parseAction, freshId)
      == Outcome(st, [], Reply(Listing(Joinable(RowsOf(st.lobbies)))))
  {
    assert !StartsWith("get_lobbies", "join:") by { assert "get_lobbies"[0] != 'j'; }
  }

  /** `create_lobby:<name>` appends an empty lobby named `<name>` (the
      creator is not seated), pushes the listing, and replies `created:<id>`. */
  lemma {:induction false} CreateLobbyLeavesItEmpty(st: ServerState, socket: Peer, message: string, open: set<Peer>,
                                                    parseId: string -> Option<LobbyId>,
                                                    parseAction: string -> Option<ActionFlags>, freshId: LobbyId)
    requires TimersValid(st.lobbies)
    requires StartsWith(message, "create_lobby:")
    ensures var o := Respond(st, socket, message, open, parseId, parseAction, freshId);
      && o.state.lobbies == st.lobbies + [NewLobby(freshId, Argument("create_lobby:", message))]
      && o.state.lobbies[|st.lobbies|].row.slots.Connected() == 0
      && o.state.clients == st.clients
      && o.sent == Notify(o.state, open)
      && o.reply == Reply(Created(freshId))
  {
    assert !StartsWith(message, "join:") by { assert message[0] == 'c' && "join:"[0] != 'c'; }
    assert message != "get_lobbies" by { assert message[0] == 'c' && "get_lobbies"[0] != 'c'; }
  }

  /** `join:`: an unparsable, unknown or full id changes nothing; a join
      seats the joiner, takes it off the push list, and sends `start` to
      the other occupant and then the joiner when the other occupant is
      open. The listing is pushed in every case and the reply is empty. */
  lemma JoinRule(st: ServerState, socket: Peer, message: string, open: set<Peer>,
                                    parseId: string -> Option<LobbyId>,
                                    parseAction: string -> Option<ActionFlags>, freshId: LobbyId)
    requires TimersValid(st.lobbies)
    requires StartsWith(message, "join:")
    ensures var o := Respond(st, socket, message, open, parseId, parseAction, freshId);
      var k := JoinTarget(st.lobbies, message, parseId);
      && o.reply == Reply(Text(""))
      && (k.None? || !st.lobbies[k.value].row.slots.HasRoom() ==>
            o.state == st && o.sent == Notify(st, open))
      && (k.Some? && st.lobbies[k.value].row.slots.HasRoom() ==>
            var l := o.state.lobbies[k.value];
            && |o.state.lobbies| == |st.lobbies|
            && l == AddTo(st.lobbies[k.value], socket)
            && l.row.slots.Contains(socket)
            && l.row.slots.Connected() == st.lobbies[k.value].row.slots.Connected() + 1
            && (forall i :: 0 <= i < |st.lobbies| && i != k.value ==> o.state.lobbies[i] == st.lobbies[i])
            && socket !in o.state.clients
            && o.state.clients == Without(st.clients, socket)
            && o.sent == StartSends(l.row.slots, socket, open) + Notify(o.state, open)
            && (l.row.slots.Other(socket).Some? && l.row.slots.Other(socket).value in open ==>
                  o.sent[..2] == [Send(l.row.slots.Other(socket).value, Text("start")), Send(socket, Text("start"))])
            && (l.row.slots.Other(socket).None? || l.row.slots.Other(socket).value !in open ==>
                  o.sent == Notify(o.state, open)))
  {
  }

  // ---------------------------------------------------------------------------
  // The server object

  /** One pass of the receive loop at frame `i`: what is left of the run
      after it is the run of the state it made, or nothing when it ended
      the loop. */
  lemma RunStep(before: ServerState, ws: Peer, frames: seq<Frame>, open: set<Peer>,
                parseId: string -> Option<LobbyId>, parseAction: string -> Option<ActionFlags>,
                freshIds: seq<LobbyId>, i: nat, sent: seq<Send>, total: (ServerState, seq<Send>))
    requires |freshIds| == |frames| && i < |frames| && TimersValid(before.lobbies)
    requires var rest := Run(before, ws, frames[i..], open, parseId, parseAction, freshIds[i..]);
      total.0 == rest.0 && total.1 == sent + rest.1
    ensures var t := Turn(before, ws, frames[i], open, parseId, parseAction, freshIds[i]);
      && (!t.2 ==> t.0 == total.0 && sent + t.1 == total.1)
      && (t.2 ==>
            var rest := Run(t.0, ws, frames[i + 1..], open, parseId, parseAction, freshIds[i + 1..]);
            total.0 == rest.0 && total.1 == (sent + t.1) + rest.1)
  {
    assert frames[i..][0] == frames[i] && freshIds[i..][0] == freshIds[i];
    assert frames[i..][1..] == frames[i + 1..] && freshIds[i..][1..] == freshIds[i + 1..];
    var t := Turn(before, ws, frames[i], open, parseId, parseAction, freshIds[i]);
    if t.2 {
      AppendAssoc(sent, t.1, Run(t.0, ws, frames[i + 1..], open, parseId, parseAction, freshIds[i + 1..]).1);
    }
  }

  class Server {
    /** The keys of the `clients` dictionary, in insertion order. */
    var clients: seq<Peer>
    var lobbies: map<LobbyId, Lobby>
    /** The keys of `lobbies` in enumeration order. */
    var order: seq<LobbyId>
    /** Every frame sent so far. */
    var log: seq<Send>

    ghost predicate Keyed()
      reads this`lobbies, this`order
    {
      forall id :: id in lobbies <==> id in order
    }

    ghost predicate Valid()
      reads this`clients, this`lobbies, this`order, lobbies.Values
    {
      && Keyed()
      && (forall i, j :: 0 <= i < j < |order| ==> order[i] != order[j])
      && (forall id :: id in lobbies ==> lobbies[id].id == id && lobbies[id].Valid())
      && (forall i, j :: 0 <= i < j < |clients| ==> clients[i] != clients[j])
    }

    /** The dictionary's lobbies in enumeration order. */
    function States(): (ls: seq<LobbyState>)
      requires Keyed()
      reads this`lobbies, this`order, lobbies.Values
      ensures |ls| == |order|
      ensures forall i :: 0 <= i < |order| ==> ls[i] == lobbies[order[i]].State()
    {
      var m, ks := lobbies, order;
      seq(|ks|, i requires 0 <= i < |ks| reads m.Values => m[ks[i]].State())
    }

    ghost function Abs(): (st: ServerState)
      requires Valid()
      reads this`clients, this`lobbies, this`order, lobbies.Values
      ensures TimersValid(st.lobbies)
    {
      ServerState(States(), clients)
    }

    constructor ()
      ensures Valid() && Abs() == ServerState([], []) && log == []
    {
      clients, lobbies, order, log := [], map[], [], [];
    }

    /** `clients[webSocket] = true` when a WebSocket is accepted. */
    method Accept(ws: Peer)
      requires Valid()
      modifies this`clients
      ensures Valid()
      ensures Abs() == Accepted(old(Abs()), ws)
    {
      if ws !in clients {
        clients := clients + [ws];
      }
    }

    method Send(to: Peer, payload: Payload)
      modifies this`log
      ensures log == old(log) + [Core.Send(to, payload)]
    {
      log := log + [Core.Send(to, payload)];
    }

    /** The frames `sends`, sent one after another. */
    method Emit(sends: seq<Send>)
      modifies this`log
      ensures log == old(log) + sends
    {
      log := log + sends;
    }

    /** `LobbyNotify`: the listing of the lobbies with room, pushed to every
        key of `clients` in turn. */
    method LobbyNotify(open: set<Peer>)
      requires Valid()
      modifies this`log
      ensures Valid() && Abs() == old(Abs())
      ensures log == old(log) + Notify(Abs(), open)
    {
      var listing := Joinable(RowsOf(States()));
      Push(clients, listing, open);
    }

    /** The `foreach` over the keys of `clients`: the listing goes to each
        key in turn, and a send to a socket that is not open is caught. */
    method Push(cs: seq<Peer>, listing: seq<Entry>, open: set<Peer>)
      modifies this`log
      ensures log == old(log) + NotifySends(cs, listing, open)
    {
      var i := 0;
      while i < |cs|
        invariant 0 <= i <= |cs|
        invariant log == old(log) + NotifySends(cs[..i], listing, open)
      {
        var client := cs[i];
        assert cs[..i + 1] == cs[..i] + [client];
        NotifySendsSnoc(cs[..i], client, listing, open);
        if client in open {
          Send(client, Listing(listing));
        }
        i := i + 1;
      }
      assert cs[..|cs|] == cs;
    }

    /** `BroadcastToLobby(sender, message)`: the `foreach ... break` search
        for the first lobby containing the sender, then the delivery. */
    method BroadcastToLobby(sender: Peer, message: string, open: set<Peer>,
                            parseAction: string -> Option<ActionFlags>) returns (fault: bool)
      requires Valid()
      modifies this`log, lobbies.Values
      ensures Valid()
      ensures var r := Relay(old(States()), sender, message, open, parseAction);
        States() == r.lobbies && log == old(log) + r.sent && fault == r.fault
    {
      ghost var rows := RowsOf(States());
      var i := 0;
      while i < |order|
        invariant 0 <= i <= |order|
        invariant forall j :: 0 <= j < i ==> !rows[j].slots.Contains(sender)
      {
        var lobby := lobbies[order[i]];
        assert lobby.Row() == rows[i];
        if lobby.ContainsClient(sender) {
          assert FirstContaining(rows, sender) == Some(i);
          var receiver := lobby.GetOtherClient(sender);
          if receiver.Some? && receiver.value in open {
            assert RelayTarget(rows, sender, open) == Some((i, receiver.value));
            fault := Deliver(lobby, i, sender, receiver.value, message, open, parseAction);
          } else {
            assert RelayTarget(rows, sender, open).None?;
            fault := false;
          }
          return;
        }
        i := i + 1;
      }
      assert RelayTarget(rows, sender, open).None?;
      fault := false;
    }

    /** The body of `BroadcastToLobby` once the open `receiver` of lobby `k`
        is found: the send, then the `action` and notice rules. */
    method Deliver(lobby: Lobby, ghost k: nat, sender: Peer, receiver: Peer, message: string,
                   open: set<Peer>, parseAction: string -> Option<ActionFlags>) returns (fault: bool)
      requires Valid()
      requires k < |order| && lobby == lobbies[order[k]]
      requires RelayTarget(RowsOf(States()), sender, open) == Some((k, receiver))
      modifies this`log, lobby
      ensures Valid()
      ensures var r := AfterDelivery(old(States()), k, sender, receiver, message, open, parseAction);
        States() == r.lobbies && log == old(log) + r.sent && fault == r.fault
    {
      if StartsWith(message, "action") {
        fault := DeliverAction(lobby, k, sender, receiver, message, open, parseAction);
      } else {
        DeliverText(lobby, k, sender, receiver, message, open, parseAction);
        fault := false;
      }
    }

    /** Delivery of any other frame: the send, then the eviction of both
        peers when it is the disconnect notice. */
    method DeliverText(lobby: Lobby, ghost k: nat, sender: Peer, receiver: Peer, message: string,
                       ghost open: set<Peer>, ghost parseAction: string -> Option<ActionFlags>)
      requires Valid()
      requires k < |order| && lobby == lobbies[order[k]]
      requires !StartsWith(message, "action")
      modifies this`log, lobby
      ensures Valid()
      ensures var r := AfterDelivery(old(States()), k, sender, receiver, message, open, parseAction);
        States() == r.lobbies && log == old(log) + r.sent && !r.fault
    {
      ghost var ls := States();
      Send(receiver, Text(message));
      assert States() == ls;
      if message == Notice {
        EvictBoth(lobby, k, sender, receiver);
      }
    }

    /** Delivery of an `action` frame: the send, `Substring(7)`,
        deserialization, and `NotifySwapSides` unless the move was a capture
        with more to come. */
    method DeliverAction(lobby: Lobby, ghost k: nat, ghost sender: Peer, receiver: Peer, message: string,
                         open: set<Peer>, parseAction: string -> Option<ActionFlags>) returns (fault: bool)
      requires Valid()
      requires k < |order| && lobby == lobbies[order[k]]
      requires StartsWith(message, "action")
      modifies this`log, lobby
      ensures Valid()
      ensures var r := AfterDelivery(old(States()), k, sender, receiver, message, open, parseAction);
        States() == r.lobbies && log == old(log) + r.sent && fault == r.fault
    {
      ghost var ls := States();
      Send(receiver, Text(message));
      assert States() == ls;
      if |message| < 7 {
        return true;
      }
      var action := parseAction(message[7..]);
      if action.None? {
        return true;
      }
      if ResetsTimer(action.value) {
        PassTurn(lobby, k, open);
        AppendAssoc(old(log), [Core.Send(receiver, Text(message))], SwapSends(ls[k].row.slots, open));
      }
      fault := false;
    }

    /** `lobby.NotifySwapSides()` on lobby `k`, its frames appended to the log. */
    method PassTurn(lobby: Lobby, ghost k: nat, open: set<Peer>)
      requires Valid()
      requires k < |order| && lobby == lobbies[order[k]]
      modifies this`log, lobby
      ensures Valid()
      ensures var sw := SwapSides(old(States())[k], open);
        States() == old(States())[k := sw.0] && log == old(log) + sw.1
    {
      var swaps := SwapIn(lobby, k, open);
      Emit(swaps);
    }

    /** `lobby.NotifySwapSides()` itself: lobby `k` restarts its timer. */
    method SwapIn(lobby: Lobby, ghost k: nat, open: set<Peer>) returns (swaps: seq<Core.Send>)
      requires Valid()
      requires k < |order| && lobby == lobbies[order[k]]
      modifies lobby
      ensures Valid()
      ensures (States(), swaps) == (old(States())[k := SwapSides(old(States())[k], open).0], SwapSides(old(States())[k], open).1)
    {
      ghost var ls := States();
      assert lobby.State() == ls[k];
      assert forall j :: 0 <= j < |order| && j != k ==> lobbies[order[j]] != lobby;
      swaps := lobby.NotifySwapSides(open);
      forall id | id in lobbies
        ensures lobbies[id].Valid()
      {
        if lobbies[id] != lobby {
          assert lobbies[id].Timers() == old(lobbies[id].Timers());
        }
      }
      assert States() == ls[k := lobby.State()];
    }

    /** `lobby.RemoveClient(sender); lobby.RemoveClient(receiver);` on lobby `k`. */
    method EvictBoth(lobby: Lobby, ghost k: nat, sender: Peer, receiver: Peer)
      requires Valid()
      requires k < |order| && lobby == lobbies[order[k]]
      modifies lobby
      ensures Valid()
      ensures States() == old(States())[k := RemoveFrom(RemoveFrom(old(States())[k], sender), receiver)]
    {
      ghost var ls := States();
      DropClient(lobby, k, sender);
      DropClient(lobby, k, receiver);
      UpdateTwice(ls, k, RemoveFrom(ls[k], sender), RemoveFrom(RemoveFrom(ls[k], sender), receiver));
    }

    /** `HandleResponse(message, socket)`. */
    method HandleResponse(message: string, socket: Peer, open: set<Peer>,
                          parseId: string -> Option<LobbyId>, parseAction: string -> Option<ActionFlags>,
                          freshId: LobbyId) returns (reply: Reply)
      requires Valid()
      requires freshId !in lobbies
      modifies this, lobbies.Values
      ensures Valid()
      ensures lobbies.Keys <= old(lobbies.Keys) + {freshId}
      ensures forall l :: l in lobbies.Values ==> l in old(lobbies.Values) || fresh(l)
      ensures var o := Respond(old(Abs()), socket, message, open, parseId, parseAction, freshId);
        Abs() == o.state && log == old(log) + o.sent && reply == o.reply
    {
      if StartsWith(message, "join:") {
        JoinLobby(socket, message, open, parseId);
        reply := Reply(Text(""));
      } else if message == "get_lobbies" {
        reply := Reply(Listing(Joinable(RowsOf(States()))));
      } else if StartsWith(message, "create_lobby:") {
        reply := CreateLobby(socket, message, open, freshId);
      } else {
        reply := RelayFrame(socket, message, open, parseAction);
      }
    }

    /** The relay branch of `HandleResponse`: an exception from
        `BroadcastToLobby` escapes it, otherwise the reply is empty. */
    method RelayFrame(socket: Peer, message: string, open: set<Peer>,
                      parseAction: string -> Option<ActionFlags>) returns (reply: Reply)
      requires Valid()
      modifies this`log, lobbies.Values
      ensures Valid()
      ensures var o := RelayResponse(old(Abs()), socket, message, open, parseAction);
        Abs() == o.state && log == old(log) + o.sent && reply == o.reply
    {
      var fault := BroadcastToLobby(socket, message, open, parseAction);
      reply := if fault then Fault else Reply(Text(""));
    }

    /** The `join:` branch of `HandleResponse`. */
    method JoinLobby(socket: Peer, message: string, open: set<Peer>, parseId: string -> Option<LobbyId>)
      requires Valid()
      requires StartsWith(message, "join:")
      modifies this`log, this`clients, lobbies.Values
      ensures Valid()
      ensures var o := JoinResponse(old(Abs()), socket, message, open, parseId);
        Abs() == o.state && log == old(log) + o.sent
    {
      ghost var st := Abs();
      ghost var rows := RowsOf(st.lobbies);
      assert forall i :: 0 <= i < |rows| ==> rows[i].id == order[i];
      var guidString := Argument("join:", message);
      var lobbyId := parseId(guidString);
      if lobbyId.Some? && lobbyId.value in lobbies {
        ghost var k :| 0 <= k < |order| && order[k] == lobbyId.value;
        LookupUnique(rows, lobbyId.value, k);
        SeatJoiner(socket, lobbies[lobbyId.value], k, open);
      } else {
        assert JoinTarget(st.lobbies, message, parseId).None?;
        LobbyNotify(open);
      }
    }

    /** `AddClient` on the lobby found, then the `start` pair, the removal
        from `clients` and the push. */
    method SeatJoiner(socket: Peer, lobby: Lobby, ghost k: nat, open: set<Peer>)
      requires Valid()
      requires k < |order| && lobby == lobbies[order[k]]
      modifies this`log, this`clients, lobby
      ensures Valid()
      ensures var o := SeatAt(old(Abs()), socket, k, open);
        Abs() == o.state && log == old(log) + o.sent
    {
      ghost var (st', starts) := Seated(Abs(), socket, k, open);
      Seat(socket, lobby, k, open);
      LobbyNotify(open);
      AppendAssoc(old(log), starts, Notify(st', open));
    }

    /** `AddClient`, and on success the `start` pair and `clients.TryRemove`. */
    method Seat(socket: Peer, lobby: Lobby, ghost k: nat, open: set<Peer>)
      requires Valid()
      requires k < |order| && lobby == lobbies[order[k]]
      modifies this`log, this`clients, lobby
      ensures Valid()
      ensures var (st', starts) := Seated(old(Abs()), socket, k, open);
        Abs() == st' && log == old(log) + starts
    {
      ghost var st := Abs();
      var added := Occupy(socket, lobby, k);
      if added {
        assert lobby.Occupancy() == AddTo(st.lobbies[k], socket).row.slots;
        Welcome(socket, lobby, open);
      }
    }

    /** `lobby.AddClient(socket)` on lobby `k`. */
    method Occupy(socket: Peer, lobby: Lobby, ghost k: nat) returns (added: bool)
      requires Valid()
      requires k < |order| && lobby == lobbies[order[k]]
      modifies lobby`client1, lobby`client2
      ensures Valid()
      ensures added <==> old(States())[k].row.slots.HasRoom()
      ensures States() == old(States())[k := AddTo(old(States())[k], socket)]
      ensures lobby.State() == States()[k]
    {
      ghost var ls := States();
      assert lobby.State() == ls[k];
      assert forall j :: 0 <= j < |order| && j != k ==> lobbies[order[j]] != lobby;
      added := lobby.AddClient(socket);
      assert States() == ls[k := lobby.State()];
    }

    /** What follows a successful `AddClient`: the `start` pair and the
        removal of the joiner from `clients`; no lobby changes. */
    method Welcome(socket: Peer, lobby: Lobby, open: set<Peer>)
      requires Valid()
      modifies this`log, this`clients
      ensures Valid()
      ensures States() == old(States())
      ensures clients == Without(old(clients), socket)
      ensures log == old(log) + StartSends(lobby.Occupancy(), socket, open)
    {
      var receiver := lobby.GetOtherClient(socket);
      SendStarts(socket, receiver, lobby.Occupancy(), open);
      Dismiss(socket);
    }

    /** The `start` pair: to the other occupant, then to the joiner, only when
        there is another occupant and its socket is open. */
    method SendStarts(socket: Peer, receiver: Option<Peer>, ghost slots: Slots, open: set<Peer>)
      requires slots.Other(socket) == receiver
      modifies this`log
      ensures log == old(log) + StartSends(slots, socket, open)
    {
      if receiver.Some? && receiver.value in open {
        Send(receiver.value, Text("start"));
        Send(socket, Text("start"));
      }
    }

    /** `clients.TryRemove(socket, out _)`. */
    method Dismiss(socket: Peer)
      requires Valid()
      modifies this`clients
      ensures Valid()
      ensures clients == Without(old(clients), socket)
    {
      WithoutKeepsDistinct(clients, socket);
      clients := Without(clients, socket);
    }

    /** The `create_lobby:` branch of `HandleResponse`. */
    method CreateLobby(socket: Peer, message: string, open: set<Peer>, freshId: LobbyId) returns (reply: Reply)
      requires Valid()
      requires StartsWith(message, "create_lobby:")
      requires freshId !in lobbies
      modifies this
      ensures Valid()
      ensures lobbies.Keys == old(lobbies.Keys) + {freshId}
      ensures forall l :: l in lobbies.Values ==> l in old(lobbies.Values) || fresh(l)
      ensures var o := CreateResponse(old(Abs()), socket, message, open, freshId);
        Abs() == o.state && log == old(log) + o.sent && reply == o.reply
    {
      var lobbyName := Argument("create_lobby:", message);
      AddLobby(lobbyName, freshId);
      LobbyNotify(open);
      reply := Reply(Created(freshId));
    }

    /** `new Lobby(name)` and `lobbies.Add(lobby.Id, lobby)`. */
    method AddLobby(name: string, freshId: LobbyId)
      requires Valid()
      requires freshId !in lobbies
      modifies this`lobbies, this`order
      ensures Valid()
      ensures lobbies.Keys == old(lobbies.Keys) + {freshId}
      ensures forall l :: l in lobbies.Values ==> l in old(lobbies.Values) || fresh(l)
      ensures Abs() == old(Abs()).(lobbies := old(States()) + [NewLobby(freshId, name)])
    {
      var lobby := new Lobby(name, freshId);
      Register(lobby);
    }

    /** `lobbies.Add(lobby.Id, lobby)` for a lobby not yet in the dictionary. */
    method Register(lobby: Lobby)
      requires Valid() && lobby.Valid()
      requires lobby.id !in lobbies && lobby !in lobbies.Values
      modifies this`lobbies, this`order
      ensures Valid()
      ensures lobbies == old(lobbies)[lobby.id := lobby]
      ensures Abs() == old(Abs()).(lobbies := old(States()) + [lobby.State()])
    {
      ghost var st, m, o := Abs(), lobbies, order;
      assert forall i :: 0 <= i < |o| ==> o[i] in m && o[i] != lobby.id;
      lobbies := lobbies[lobby.id := lobby];
      order := order + [lobby.id];
      forall id | id in lobbies
        ensures lobbies[id].id == id && lobbies[id].Valid()
      {
        if id != lobby.id {
          assert lobbies[id] == m[id];
        }
      }
      forall i | 0 <= i < |order|
        ensures States()[i] == (st.lobbies + [lobby.State()])[i]
      {
        if i < |o| {
          assert lobbies[order[i]] == m[o[i]];
        }
      }
    }

    /** The Close branch of `HandleWebSocketAsync`: the notice through
        `BroadcastToLobby`, then the `foreach` over the lobbies. */
    method CloseConnection(ws: Peer, open: set<Peer>, parseAction: string -> Option<ActionFlags>)
      requires Valid()
      modifies this`log, lobbies.Values
      ensures Valid()
      ensures var c := CloseBranch(old(Abs()), ws, open, parseAction);
        Abs() == c.0 && log == old(log) + c.1
    {
      var _ := BroadcastToLobby(ws, Notice, open, parseAction);
      EvictOnClose(ws, open);
    }

    /** The `foreach ... break` of the Close branch: the first lobby
        containing `ws` drops it when its other occupant is open. */
    method EvictOnClose(ws: Peer, open: set<Peer>)
      requires Valid()
      modifies lobbies.Values
      ensures Valid()
      ensures States() == Evicted(old(States()), ws, open)
    {
      ghost var rows := RowsOf(States());
      var i := 0;
      while i < |order| && !lobbies[order[i]].ContainsClient(ws)
        invariant 0 <= i <= |order|
        invariant forall j :: 0 <= j < i ==> !rows[j].slots.Contains(ws)
      {
        assert lobbies[order[i]].Row() == rows[i];
        i := i + 1;
      }
      if i == |order| {
        assert RelayTarget(rows, ws, open).None?;
        return;
      }
      var lobby := lobbies[order[i]];
      assert lobby.Row() == rows[i];
      assert rows[i].slots.Contains(ws);
      FirstContainingAt(rows, ws, i);
      var receiver := lobby.GetOtherClient(ws);
      if receiver.Some? && receiver.value in open {
        assert RelayTarget(rows, ws, open) == Some((i, receiver.value));
        DropClient(lobby, i, ws);
      } else {
        assert RelayTarget(rows, ws, open).None?;
      }
    }

    /** `lobby.RemoveClient(ws)` on lobby `k`. */
    method DropClient(lobby: Lobby, ghost k: nat, ws: Peer)
      requires Valid()
      requires k < |order| && lobby == lobbies[order[k]]
      modifies lobby
      ensures Valid()
      ensures States() == old(States())[k := RemoveFrom(old(States())[k], ws)]
    {
      ghost var ls := States();
      assert lobby.State() == ls[k];
      assert forall j :: 0 <= j < |order| && j != k ==> lobbies[order[j]] != lobby;
      var _ := lobby.RemoveClient(ws);
      assert States() == ls[k := lobby.State()];
    }

    /** `HandleWebSocketAsync` for the socket `ws`, which delivers `frames`;
        `freshIds[i]` is the Guid a `create_lobby:` in frame i draws, and no
        two of them, nor any of them and an existing key, coincide. */
    method HandleWebSocket(ws: Peer, frames: seq<Frame>, open: set<Peer>,
                           parseId: string -> Option<LobbyId>, parseAction: string -> Option<ActionFlags>,
                           freshIds: seq<LobbyId>)
      requires Valid()
      requires |freshIds| == |frames|
      requires forall i, j :: 0 <= i < j < |freshIds| ==> freshIds[i] != freshIds[j]
      requires forall i :: 0 <= i < |freshIds| ==> freshIds[i] !in lobbies
      modifies this, lobbies.Values
      ensures Valid()
      ensures var c := Connection(old(Abs()), ws, frames, open, parseId, parseAction, freshIds);
        Abs() == c.0 && log == old(log) + c.1
    {
      ghost var total := Connection(old(Abs()), ws, frames, open, parseId, parseAction, freshIds);
      Accept(ws);
      assert frames[0..] == frames && freshIds[0..] == freshIds;
      ghost var sent: seq<Send> := [];
      var i := 0;
      var done := false;
      while i < |frames| && !done
        invariant 0 <= i <= |frames|
        invariant Valid()
        invariant forall j :: i <= j < |freshIds| ==> freshIds[j] !in lobbies
        invariant forall l :: l in lobbies.Values ==> l in old(lobbies.Values) || fresh(l)
        invariant log == old(log) + sent
        invariant done ==> Abs() == total.0 && sent == total.1
        invariant !done ==>
          var rest := Run(Abs(), ws, frames[i..], open, parseId, parseAction, freshIds[i..]);
          total.0 == rest.0 && total.1 == sent + rest.1
        decreases |frames| - i
      {
        ghost var before := Abs();
        done := Receive(ws, frames[i], open, parseId, parseAction, freshIds[i]);
        ghost var out := Turn(before, ws, frames[i], open, parseId, parseAction, freshIds[i]).1;
        RunStep(before, ws, frames, open, parseId, parseAction, freshIds, i, sent, total);
        AppendAssoc(old(log), sent, out);
        sent := sent + out;
        i := i + 1;
      }
    }

    /** One pass of the receive loop on frame `f`; `done` when the handler
        leaves the loop. */
    method Receive(ws: Peer, f: Frame, open: set<Peer>,
                   parseId: string -> Option<LobbyId>, parseAction: string -> Option<ActionFlags>,
                   freshId: LobbyId) returns (done: bool)
      requires Valid()
      requires freshId !in lobbies
      modifies this, lobbies.Values
      ensures Valid()
      ensures lobbies.Keys <= old(lobbies.Keys) + {freshId}
      ensures forall l :: l in lobbies.Values ==> l in old(lobbies.Values) || fresh(l)
      ensures var t := Turn(old(Abs()), ws, f, open, parseId, parseAction, freshId);
        Abs() == t.0 && log == old(log) + t.1 && done == !t.2
    {
      match f
      case Close =>
        CloseConnection(ws, open - {ws}, parseAction);
        done := true;
      case Message(m) =>
        done := Answer(ws, m, open + {ws}, parseId, parseAction, freshId);
    }

    /** A text frame: `HandleResponse`, then its reply sent back to `ws`
        unless it threw. */
    method Answer(ws: Peer, m: string, open: set<Peer>,
                  parseId: string -> Option<LobbyId>, parseAction: string -> Option<ActionFlags>,
                  freshId: LobbyId) returns (done: bool)
      requires Valid()
      requires freshId !in lobbies
      modifies this, lobbies.Values
      ensures Valid()
      ensures lobbies.Keys <= old(lobbies.Keys) + {freshId}
      ensures forall l :: l in lobbies.Values ==> l in old(lobbies.Values) || fresh(l)
      ensures var o := Respond(old(Abs()), ws, m, open, parseId, parseAction, freshId);
        Abs() == o.state && done == o.reply.Fault?
        && log == old(log) + (if done then o.sent else o.sent + [Core.Send(ws, o.reply.payload)])
    {
      var reply := HandleResponse(m, ws, open, parseId, parseAction, freshId);
      ghost var mid := log;
      if reply.Fault? {
        done := true;
      } else {
        Send(ws, reply.payload);
        AppendAssoc(old(log), mid[|old(log)|..], [Core.Send(ws, reply.payload)]);
        done := false;
      }
    }
  }
}
