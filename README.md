# Checkers matchmaking and relay servers, modelled in Dafny

The repository has two WebSocket servers for two-player checkers.

- **Program.cs** (`MultiplayerServer`) is the first one. It keeps a static dictionary of two-slot lobbies and a static set of connected sockets. It runs one receive loop per connection, which dispatches on the frame's text:
  - `join:<id>` seats the sender and answers with one of three messages;
  - `get_lobbies` answers with every lobby;
  - `create_lobby:<name>` creates a lobby with its creator seated and answers `created:<id>`;
  - any other frame is relayed to the other occupant of the sender's lobby.

  When the loop ends, the socket leaves the set and its first lobby.
- **Server.cs** (`CheckerServer.Server`) is the second. It works with the timer-bearing lobby of Lobby.cs and dispatches through `HandleResponse`:
  - `join:` seats the joiner, sends `start` to both players, takes the joiner off the push list and pushes the lobby listing to every socket on that list;
  - `get_lobbies` lists only the lobbies with room;
  - `create_lobby:` adds an empty lobby and pushes the listing.

  It sends `HandleResponse`'s result back after every frame. The relay has two extra rules:
  - an `action` frame starts the lobby's 60-second swap timer again, unless the move was a capture with more captures to come;
  - the "opponent disconnected" notice evicts both players.

  On a Close frame the closing socket relays that notice. Then, in the first lobby holding the socket, the socket is removed if its other occupant is non-null and open. When the notice reached that occupant, it has already evicted both players, so this removal adds nothing for a socket in one lobby. When there is no open partner, the closing socket stays seated.

The model has four modules:

| module | file | what it holds |
|---|---|---|
| `Core` | `core.dfy` | Peers, lobby ids and the frames a server sends. The two peer slots of a lobby as a value (`Slots`). The `Split(':')[1]` argument of a command. The "first lobby containing the sender" searches that every `foreach ... break` loop makes. |
| `CheckerLobby` | `lobby.dfy` | The Lobby.cs class over fields `client1`, `client2`, `timer`, `loops` and `departed`. Its cancellation tokens are modelled as a token history (`Timer`); the live `Task.Run` loops are a sequence of `Loop`s waiting on or past their `Task.Delay`. |
| `Multiplayer` | `multiplayer.dfy` | Program.cs. First as values: `Dispatch` handles one frame's text, `Step` one received frame, `Loop` the receive loop and `Session` a whole connection. Then the imperative class `MultiplayerServer`, whose methods are proved equal to those functions. |
| `CheckerServer` | `server.dfy` | Server.cs, the same way. The values are `Respond` for `HandleResponse`, `Relay` for `BroadcastToLobby`, `CloseBranch`, `Turn` for one loop pass, and `Run`/`Connection` for a whole connection. The class `Server` holds `lobbies` as a map plus its enumeration order, `clients` as a duplicate-free sequence, and the send log. |

Modelling conventions:
- Every `SendAsync` that reaches its recipient is appended to a log `seq<Send>`.
- A socket's `State == Open` is the membership of a parameter `open: set<Peer>`. A send to a socket that is not open throws a `WebSocketException` that is caught, so it delivers nothing.
- The receive loop runs only while its socket is open, so a text frame is handled with the socket added to `open`. Once `ReceiveAsync` has returned a Close frame, the socket's state is `CloseReceived`, so the Close handling runs with the socket taken out of `open`.
- In Program.cs a Close frame is not told apart from text: its zero bytes decode to the empty text, which is dispatched (and so relayed), and then the loop ends.
- `Guid.NewGuid()` results are supplied by the caller, as `freshId`, or as `freshIds[i]` for frame `i`.
- `Guid.TryParse` is a parameter `parseId`. `Trim` plus `JsonSerializer.Deserialize<Action>` is a parameter `parseAction`; `None` stands for a throw or a null result.
- An exception that escapes `HandleResponse` is the `Fault` reply. That covers `Substring(7)` on the bare word `action`, and an `action` payload that does not deserialize. Such an exception ends the connection's handler in `HandleWebSocketAsync`'s `catch`.

Where the description of the system and the code disagree, the model follows the code:
- In Server.cs the creator of a lobby is not seated in it, because Server.cs:164 is commented out.
- Lobbies are never removed from either dictionary.
- The swap timer never stops: an empty lobby's timer keeps firing and sends nothing.
- In Server.cs a closed socket is never removed from `clients`.
- `start` is sent only when the other occupant's socket is open.
- A relayed notice ends the lobby for both players.

## Model

| member | source | states |
|---|---|---|
| Core.Slots.Connected | Lobby.cs:17-26 | `Connected` is at most 2; it is 0 exactly when both slots are null and 2 exactly when both are set |
| Core.Slots.HasRoom | Lobby.cs:36-49 | `AddClient` can succeed exactly when `Connected < 2` |
| Core.Slots.Other | Lobby.cs:73-78 | `GetOtherClient`: `client2` for the peer in `client1`, `client1` for the peer in `client2` only, null for a non-member |
| Core.Slots.Contains | Lobby.cs:68-71 | no contract of its own: `ContainsClient`'s either-slot test, whose meaning `Core.ConnectedCountsOccupants`, `Core.OtherCompletesOccupants`, `Core.Slots.Remove` and `Core.FirstContaining` state |
| Core.Slots.Add | Lobby.cs:36-49 | fills `client1` if empty, else `client2` with `client1` kept; with room the count rises by one and the peer is a member; a full lobby is unchanged |
| Core.Slots.Remove | Lobby.cs:51-66 | nulls `client1` if it holds the peer, else `client2` if that does; a member's removal lowers the count by one; a non-member changes nothing |
| Core.ConnectedCountsOccupants | Lobby.cs:17-26 | `Connected` equals the size of the multiset of occupants |
| Core.OtherCompletesOccupants | Lobby.cs:73-78 | a member together with `GetOtherClient`'s result is the whole lobby |
| Core.AddAddsExactly | Lobby.cs:36-49 | a successful `AddClient(c)` adds exactly one `c` to the occupants |
| Core.RemoveTakesExactly | Lobby.cs:51-66 | a successful `RemoveClient(c)` takes exactly one `c` out of the occupants |
| Core.FirstContaining | Server.cs:187-191 | the index where `foreach ... if (ContainsClient) ... break` stops: a lobby holding the peer with no earlier one holding it; none exactly when no lobby holds it |
| Core.Lookup | Server.cs:111 | `TryGetValue`: an index whose key is the id; none exactly when no lobby has that key |
| Core.EntryOf | Program.cs:80-85 | no contract of its own: the (name, `Connected`, id) projection of the listings; `Multiplayer.ListAll` and `CheckerServer.JoinableExactly` state what the listings hold |
| Core.LookupUnique | Server.cs:111 | with unique keys the lookup finds the lobby keyed by the id |
| Core.RelayTarget | Server.cs:187-192 | the delivery target: the first lobby containing the sender and its other occupant, which is a non-null member and open; none exactly when there is no such lobby, the other slot is null, or that socket is not open; the target is the sender itself only when the sender holds both slots |
| Core.RelaySends | Program.cs:126-149 | `BroadcastToLobby` sends at most one frame, exactly when there is a target, and it is the payload to the target |
| Core.Without | Program.cs:121 | `clients.TryRemove(p)`: the keys left are exactly the old ones other than `p` |
| Core.WithoutKeepsDistinct | Server.cs:131 | `TryRemove` keeps the keys duplicate-free, removes one key when `p` was present and nothing otherwise |
| Core.StartsWith | Server.cs:108 | no contract of its own: the prefix tests of both dispatchers, compared ordinally (see Left out); `Core.Argument` and the dispatch lemmas `Multiplayer.JoinOutcomes` and `CheckerServer.JoinRule` use it |
| Core.Split | Program.cs:60 | `Split(':')` yields at least one piece, no piece holds the separator, and joining the pieces gives back the text |
| Core.SplitAtFirst | Program.cs:60 | a separator-free head comes off `Split` as its first piece |
| Core.SplitHead | Program.cs:97 | the first piece of `Split` is the longest separator-free prefix |
| Core.Argument | Server.cs:110 | for a frame starting with `join:` or `create_lobby:`, `Split(':')[1]` exists and is the text after the prefix up to the next `:` or the end |
| Core.ArgumentOfCommand | Server.cs:162 | the argument of `create_lobby:` followed by a `:`-free name is that name |
| CheckerLobby.Timer.Restart | Lobby.cs:82-83 | `Cancel()` the current token, then a new current token that is uncancelled and is the only uncancelled one; no cancellation is undone |
| CheckerLobby.Started | Lobby.cs:80-103 | `StartTimer`: the token restart plus one new loop waiting on the new token; every older loop's token is now cancelled, so at most one loop can fire |
| CheckerLobby.DelayEnds | Lobby.cs:89-101 | a loop whose `Task.Delay` ends on a cancelled token leaves through the `TaskCanceledException`; otherwise its continuation is due; the token history is untouched and the invariant kept |
| CheckerLobby.Resumed | Lobby.cs:92-95 | a continuation that keeps its own token: it swaps exactly when that token is uncancelled; swapping restarts the timer, which cancels its own token; the loop that ran ends, and a swap adds exactly one new loop on the new token; the invariant is kept |
| CheckerLobby.ResumedAsWritten | Lobby.cs:89-96 | the continuation as written: it always swaps and restarts the timer, and the fired loop goes on, waiting on the new token beside the new loop that waits on the same token |
| CheckerLobby.AsWrittenSwapsTwice | Lobby.cs:85-102 | as written, the loop that fired keeps running beside the new one, which breaks the one-live-token invariant; at the second timeout both loops are due on token 1, and the second is still due after the first cancelled that token, so it fires as well |
| CheckerLobby.OneSwapPerTimeout | Lobby.cs:85-102 | with each loop keeping its own token, once one due loop fires, any other due loop is still there and does not fire |
| CheckerLobby.SwapSends | Lobby.cs:105-117 | `swap` goes to `client1`, then `client2`, each only when non-null and open, and to no one else; exactly one frame per such slot |
| CheckerLobby.RemoveFrom | Lobby.cs:51-66 | `RemoveClient` as a value: the slot update, with `ClientDisconnected` raised with the peer exactly on success; name, id and timer unchanged |
| CheckerLobby.AddTo | Lobby.cs:36-49 | no contract of its own: `AddClient` on the lobby's state; `Core.Slots.Add` and `Core.AddAddsExactly` state its slots, `CheckerServer.Server.Occupy` and `CheckerServer.JoinRule` its use |
| CheckerLobby.SwapSides | Lobby.cs:105-119 | no contract of its own: `NotifySwapSides` on the lobby's state, that is the frames of `CheckerLobby.SwapSends` and the restart of `CheckerLobby.Timer.Restart`; `CheckerServer.ActionTimerRule` states it in the relay |
| CheckerLobby.Lobby.constructor | Lobby.cs:31-34 | a new lobby has its name and id, two null slots, no token and no loop |
| CheckerLobby.Lobby.Connected | Lobby.cs:17-26 | the count of non-null slots, between 0 and 2 |
| CheckerLobby.Lobby.AddClient | Lobby.cs:36-49 | fills `client1`, else `client2`, returning true exactly when there was room; on success the count rises by one; otherwise no slot changes |
| CheckerLobby.Lobby.RemoveClient | Lobby.cs:51-66 | returns true exactly for a member and nulls exactly its slot; the event is logged once with the peer on success and never on failure; name and id are constants |
| CheckerLobby.Lobby.ContainsClient | Lobby.cs:68-71 | holds exactly when the peer is in a slot |
| CheckerLobby.Lobby.GetOtherClient | Lobby.cs:73-78 | the opposite slot for a member, null for a non-member |
| CheckerLobby.Lobby.StartTimer | Lobby.cs:80-103 | the previous token is cancelled and exactly one fresh, uncancelled token is current; a loop on it is started |
| CheckerLobby.Lobby.ResetTimer | Lobby.cs:121-124 | the same new token state as `StartTimer` |
| CheckerLobby.Lobby.NotifySwapSides | Lobby.cs:105-119 | the `swap` frames of `SwapSends`, then the timer restart |
| CheckerLobby.Lobby.DelayEnded | Lobby.cs:91 | the loop's delay ends as `DelayEnds` says |
| CheckerLobby.Lobby.Resume | Lobby.cs:92-95 | the continuation as `Resumed` says; when it fires, the lobby's state and frames are those of `NotifySwapSides`, otherwise nothing changes and nothing is sent |
| Multiplayer.Lobby.constructor | Program.cs:186-189 | a new lobby has its name and id and two null slots |
| Multiplayer.Lobby.Connected | Program.cs:175-184 | the count of non-null slots, between 0 and 2 |
| Multiplayer.Lobby.AddClient | Program.cs:191-204 | true exactly when `Connected < 2`; the slots become `Add`'s; a failure changes nothing |
| Multiplayer.Lobby.RemoveClient | Program.cs:206-219 | true exactly for a member; the slots become `Remove`'s; a failure changes nothing |
| Multiplayer.Lobby.ContainsClient | Program.cs:221-224 | holds exactly when the peer is in a slot |
| Multiplayer.Lobby.GetOtherClient | Program.cs:226-231 | the opposite slot for a member, null for a non-member |
| Multiplayer.ListAll | Program.cs:80-85 | one entry per lobby, in dictionary order, with its name, `Connected` and id |
| Multiplayer.RemoveFromFirst | Program.cs:151-161 | only the first lobby containing the peer loses it, with the count down by one; no other lobby changes; nothing changes when no lobby holds it |
| Multiplayer.JoinTarget | Program.cs:60-61 | no contract of its own: `Guid.TryParse` of `Split(':')[1]`, then `TryGetValue`; `Core.Argument` and `Core.Lookup` state its parts, `Multiplayer.JoinOutcomes` its outcomes |
| Multiplayer.Seat | Program.cs:63-71 | no contract of its own: `AddClient` and its reply; `Multiplayer.JoinOutcomes` states the full and joined outcomes |
| Multiplayer.JoinStep | Program.cs:58-77 | no contract of its own: the `join:` branch; `Multiplayer.JoinOutcomes` states its three replies and their states |
| Multiplayer.Dispatch | Program.cs:58-111 | no contract of its own: the dispatch on a frame's text; `Multiplayer.JoinOutcomes`, `Multiplayer.GetLobbiesListsAll`, `Multiplayer.CreateLobbyAddsCreator`, `Multiplayer.CreateKeepsKeysUnique` and `Multiplayer.RelayDelivery` state each of its four branches |
| Multiplayer.Step | Program.cs:50-111 | no contract of its own: one received frame, a text frame dispatched with its socket open, a Close as the empty text with its socket closing; `Multiplayer.CloseRelaysEmptyText` states the Close case |
| Multiplayer.Loop | Program.cs:50-118 | no contract of its own: the frames in turn, up to and including the first Close; `Multiplayer.MultiplayerServer.HandleConnection` is proved equal to it followed by `Leave` |
| Multiplayer.Leave | Program.cs:120-122 | no contract of its own: `clients.TryRemove` and `RemoveClientFromLobbies`; `Multiplayer.LeaveRemovesOnce` states its effect |
| Multiplayer.Session | Program.cs:47-124 | no contract of its own: `Loop`, then `Leave`; `Multiplayer.MultiplayerServer.HandleConnection` is proved equal to it |
| Multiplayer.CreateLobbyAddsCreator | Program.cs:95-101 | `create_lobby:<name>` appends a lobby named `<name>` whose `client1` is the sender (`Connected == 1`), and replies `created:<id>` to the sender only |
| Multiplayer.CreateKeepsKeysUnique | Program.cs:100 | a fresh Guid keeps the dictionary's keys unique |
| Multiplayer.JoinOutcomes | Program.cs:58-77 | `join:` replies exactly one of not-found (unparsable or absent id), full (count 2, lobby unchanged) and joined (the lobby's slots become `Add`'s, so the sender sits in it with the count up by one; its id, name and other occupant, the other lobbies and `clients` are unchanged) |
| Multiplayer.GetLobbiesListsAll | Program.cs:78-88 | `get_lobbies` replies the listing of every lobby to the sender and changes nothing |
| Multiplayer.RelayDelivery | Program.cs:107-111 | any other frame changes nothing and sends exactly `RelaySends`: one copy when there is a target, none otherwise, to the open other occupant of the first lobby containing the sender; it returns to the sender only when the sender holds both slots |
| Multiplayer.CloseRelaysEmptyText | Program.cs:50-111 | a Close frame reads as the empty text and is relayed: no lobby changes, and the one possible frame goes to the open other occupant, never back to the closing socket |
| Multiplayer.RelayNeverEchoes | Program.cs:126-149 | a sender that holds both slots of no lobby never receives its own frame |
| Multiplayer.SelfJoinEchoes | Program.cs:58-67 | a creator that joins its own lobby holds both slots, and its next relayed frame comes back to it |
| Multiplayer.LeaveRemovesOnce | Program.cs:120-122 | after the loop the peer is gone from `clients`, every other key stays, and at most one lobby changed: the first one that held the peer |
| Multiplayer.MultiplayerServer.constructor | Program.cs:16-19 | empty dictionary, empty socket set, nothing sent |
| Multiplayer.MultiplayerServer.Accept | Program.cs:33-37 | `clients[socket] = true`: the socket is a key, with no duplicates |
| Multiplayer.MultiplayerServer.Send | Program.cs:163-168 | `SendMessage` appends the frame to the log |
| Multiplayer.MultiplayerServer.BroadcastToLobby | Program.cs:126-149 | the loop leaves every lobby unchanged and logs exactly `RelaySends` |
| Multiplayer.MultiplayerServer.RemoveClientFromLobbies | Program.cs:151-161 | the loop with `break` yields exactly `RemoveFromFirst` |
| Multiplayer.MultiplayerServer.RemoveAt | Program.cs:155 | `RemoveClient` on one lobby succeeds exactly when it holds the peer, and changes only that lobby |
| Multiplayer.MultiplayerServer.HandleFrame | Program.cs:58-111 | one pass of the dispatch leaves the state and log that `Dispatch` gives; existing lobbies stay and at most the fresh one is added |
| Multiplayer.MultiplayerServer.Join | Program.cs:58-77 | the `join:` branch matches `JoinStep` |
| Multiplayer.MultiplayerServer.SeatIn | Program.cs:63-71 | `AddClient` and its reply match `Seat` |
| Multiplayer.MultiplayerServer.CreateLobby | Program.cs:95-101 | a fresh lobby, holding only the creator, is appended; `created:<id>` goes to the creator |
| Multiplayer.MultiplayerServer.Register | Program.cs:100 | `lobbies.Add` appends the lobby at the end of the dictionary order |
| Multiplayer.MultiplayerServer.EndConnection | Program.cs:120-122 | the cleanup matches `Leave` |
| Multiplayer.MultiplayerServer.ReceiveNext | Program.cs:52-111 | one loop pass leaves the state and log of `Step`: a text frame dispatched with its socket open, a Close frame as the empty text with its socket closing; it ends the loop exactly after a Close |
| Multiplayer.MultiplayerServer.HandleConnection | Program.cs:47-124 | the whole connection leaves the state and log of `Session`: the frames up to and including the first Close, then the cleanup; the socket is no longer in `clients` |
| CheckerServer.Joinable | Server.cs:230-238 | the `Where(Connected < 2)` listing: no entry has two occupants and it is no longer than the dictionary |
| CheckerServer.JoinableAppend | Server.cs:147-155 | the listing is a filter in dictionary order: the listing of two parts is the two listings in turn |
| CheckerServer.JoinableExactly | Server.cs:230-238 | an entry is listed exactly when it is the entry of a lobby with `Connected < 2` |
| CheckerServer.ResetsTimer | Server.cs:202-211 | the nested `if`: the turn passes exactly when `!IsCapture \|\| !HasCaptureMoves` |
| CheckerServer.NotifySends | Server.cs:241-253 | `LobbyNotify`'s loop: every open key of `clients` gets the listing, and only keys that are open get anything |
| CheckerServer.NotifyOncePerOpenKey | Server.cs:241-253 | with duplicate-free keys, as `clients`' are, the pushes are exactly as many as the open keys, so each open key gets the listing exactly once |
| CheckerServer.Notify | Server.cs:228-254 | no contract of its own: `NotifySends` of the `Joinable` listing over the keys of `clients`; `CheckerServer.NotifySends`, `CheckerServer.NotifyOncePerOpenKey` and `CheckerServer.JoinableExactly` state its meaning |
| CheckerServer.Relay | Server.cs:184-227 | `BroadcastToLobby` sends something exactly when there is a target; it only escapes with an exception for an `action` frame after its one delivery; no lobby is dropped or renamed and every timer stays valid |
| CheckerServer.PlainRelay | Server.cs:189-198 | a frame that is neither `action` nor the notice goes exactly to the open other occupant of the first lobby holding the sender, if any; nothing else is sent, no lobby changes and nothing throws |
| CheckerServer.AfterDelivery | Server.cs:196-217 | after delivery, the frame to the receiver comes first; a fault happens only for `action` |
| CheckerServer.JoinTarget | Server.cs:110-111 | no contract of its own: `Guid.TryParse` of `Split(':')[1]`, then `TryGetValue`; `Core.Argument` and `Core.Lookup` state its parts, `CheckerServer.JoinRule` its outcomes |
| CheckerServer.StartSends | Server.cs:116-130 | no contract of its own: the `start` pair, to the other occupant and then the joiner, when the other occupant is non-null and open; `CheckerServer.JoinRule` and `CheckerServer.SelfJoinStartsTwice` state it |
| CheckerServer.Seated | Server.cs:113-133 | no contract of its own: `AddClient`, and on success the `start` pair and `TryRemove`; `CheckerServer.JoinRule` states both outcomes |
| CheckerServer.SeatAt | Server.cs:113-143 | no contract of its own: `Seated`, then the push; `CheckerServer.JoinRule` states it |
| CheckerServer.JoinResponse | Server.cs:108-144 | no contract of its own: the `join:` branch of `HandleResponse`; `CheckerServer.JoinRule` states every outcome |
| CheckerServer.NewLobby | Lobby.cs:31-34 | no contract of its own: `new Lobby(name)`, empty with no timer started; `CheckerServer.CreateLobbyLeavesItEmpty` states it holds no one |
| CheckerServer.CreateResponse | Server.cs:160-169 | no contract of its own: the `create_lobby:` branch; `CheckerServer.CreateLobbyLeavesItEmpty` states the appended lobby, the push and the reply |
| CheckerServer.RelayResponse | Server.cs:170-176 | no contract of its own: the relay branch of `HandleResponse`; `CheckerServer.PlainRelay`, `CheckerServer.ActionTimerRule`, `CheckerServer.ActionFault`, `CheckerServer.NoticeEvictsBoth` and `CheckerServer.RelayWithoutReceiver` state `Relay` |
| CheckerServer.Respond | Server.cs:106-177 | `HandleResponse` never replies `close`, and its text replies are all empty; lobbies are only added: at most one, keyed by the fresh Guid, and never on a fault; none is dropped or renamed |
| CheckerServer.CloseBranch | Server.cs:67-82 | the Close branch keeps `clients` and every lobby's id and name |
| CheckerServer.Evicted | Server.cs:71-82 | the `foreach` keeps the number of lobbies and every timer, id and name |
| CheckerServer.EvictedChanges | Server.cs:71-82 | with no open other occupant nothing changes; otherwise only the first lobby containing the socket changes, and it loses the socket as `RemoveClient` does |
| CheckerServer.Accepted | Server.cs:58 | `clients[webSocket] = true`: the keys become the old ones plus the socket |
| CheckerServer.Turn | Server.cs:63-98 | one pass, with the socket open for a text frame and closing for a Close frame: a Close frame always ends the loop; at most one lobby is added, keyed by the fresh Guid; none is dropped or renamed |
| CheckerServer.Run | Server.cs:63-98 | the whole loop only adds lobbies, each keyed by one of the supplied Guids, and keeps the old lobbies' ids and names |
| CheckerServer.Connection | Server.cs:51-104 | no contract of its own: accept, then `Run`; `CheckerServer.Accepted` and `CheckerServer.Run` state its parts, and `CheckerServer.Server.HandleWebSocket` is proved equal to it |
| CheckerServer.RelayWithoutReceiver | Server.cs:189-192 | with no open receiver nothing is sent, inspected or changed |
| CheckerServer.ActionTimerRule | Server.cs:199-212 | a delivered, well-formed `action` restarts that lobby's timer and sends `swap` to its open occupants exactly when `!IsCapture \|\| !HasCaptureMoves`; a capture with more captures to come changes nothing |
| CheckerServer.ActionFault | Server.cs:201 | a delivered `action` too short for `Substring(7)`, or one that does not deserialize, throws after its delivery and changes no lobby |
| CheckerServer.NoticeEvictsBoth | Server.cs:213-217 | a delivered notice empties that lobby; the event is raised for the sender and then the receiver; the timer and the other lobbies are unchanged |
| CheckerServer.DisconnectHandlerIsQuiet | Server.cs:179-182 | the broadcast `Lobby_ClientDisconnected` makes after either eviction finds no target and is a no-op, for peers that sit in no other lobby |
| CheckerServer.CloseSkipsClosingSocket | Server.cs:67-82 | a Close frame sends nothing to the closing socket, only to sockets that are open |
| CheckerServer.SelfJoinedCloseIsSilent | Server.cs:67-82 | a socket holding both slots of its first lobby changes nothing and sends nothing when it closes, since the other occupant found is the socket itself |
| CheckerServer.SelfJoinStartsTwice | Server.cs:113-123 | a text frame is handled with its socket open: a `join:` that seats the joiner opposite itself sends it `start` twice |
| CheckerServer.CloseEvictionIsRedundant | Server.cs:70-82 | for a socket in at most one lobby, the Close branch's `foreach` changes nothing beyond what the relayed notice already did |
| CheckerServer.GetLobbiesListsJoinable | Server.cs:145-159 | `get_lobbies` replies exactly the lobbies with room, sends nothing else and changes nothing |
| CheckerServer.CreateLobbyLeavesItEmpty | Server.cs:160-169 | `create_lobby:<name>` appends an empty lobby named `<name>`, leaves `clients` alone, pushes the listing and replies `created:<id>` |
| CheckerServer.JoinRule | Server.cs:108-144 | an unparsable, unknown or full id changes nothing; a join seats the joiner, changes no other lobby, and leaves in `clients` exactly the old keys other than the joiner; `start` goes to the other occupant and then the joiner exactly when that occupant is open; the push follows in every case and the reply is empty |
| CheckerServer.Server.constructor | Server.cs:11-12 | empty dictionary, empty socket set, nothing sent |
| CheckerServer.Server.Accept | Server.cs:58 | the socket set becomes `Accepted`'s |
| CheckerServer.Server.Send | Server.cs:96-97 | a send appends the frame to the log |
| CheckerServer.Server.LobbyNotify | Server.cs:228-254 | logs exactly `Notify`: the listing of the lobbies with room, once to every open key of `clients` |
| CheckerServer.Server.Push | Server.cs:241-253 | the `foreach` over the keys logs exactly `NotifySends` |
| CheckerServer.Server.BroadcastToLobby | Server.cs:184-227 | the loop with `break` leaves the lobbies, log and fault of `Relay` |
| CheckerServer.Server.Deliver | Server.cs:194-218 | the delivery and its rules leave the result of `AfterDelivery` |
| CheckerServer.Server.DeliverText | Server.cs:213-217 | a non-`action` delivery never throws; a notice evicts both peers |
| CheckerServer.Server.DeliverAction | Server.cs:199-212 | an `action` delivery as `AfterDelivery` states it, fault included |
| CheckerServer.Server.PassTurn | Server.cs:202-211 | `NotifySwapSides` on that lobby: its timer restarts, its `swap` frames are logged, no other lobby changes |
| CheckerServer.Server.SwapIn | Server.cs:204 | the lobby's state and frames become `SwapSides`'s and no other lobby changes |
| CheckerServer.Server.EvictBoth | Server.cs:215-216 | the two `RemoveClient` calls, the sender's first, on that lobby only |
| CheckerServer.Server.HandleResponse | Server.cs:106-177 | the state, log and reply of `Respond`; keys only gain the fresh Guid |
| CheckerServer.Server.RelayFrame | Server.cs:170-176 | the relay branch matches `RelayResponse`: an empty reply, or a fault that escapes |
| CheckerServer.Server.JoinLobby | Server.cs:108-144 | the `join:` branch matches `JoinResponse` |
| CheckerServer.Server.SeatJoiner | Server.cs:113-143 | a found lobby: the seating, then the push, as `SeatAt` |
| CheckerServer.Server.Seat | Server.cs:113-133 | `AddClient`, then on success the `start` pair and `TryRemove`, as `Seated` |
| CheckerServer.Server.Occupy | Server.cs:113 | `AddClient` succeeds exactly when the lobby has room, and changes only that lobby |
| CheckerServer.Server.Welcome | Server.cs:116-131 | the `start` pair for the lobby's slots, then `clients.TryRemove`, with lobbies unchanged |
| CheckerServer.Server.SendStarts | Server.cs:116-130 | `start` to the other occupant, then the joiner, only when the other occupant is non-null and open |
| CheckerServer.Server.Dismiss | Server.cs:131 | `TryRemove`: the keys become `Without`'s and stay duplicate-free |
| CheckerServer.Server.CreateLobby | Server.cs:160-169 | the `create_lobby:` branch matches `CreateResponse`; keys gain exactly the fresh Guid |
| CheckerServer.Server.AddLobby | Server.cs:162-166 | `new Lobby(name)` and `lobbies.Add`: a fresh, empty lobby appended at the end of the order |
| CheckerServer.Server.Register | Server.cs:166 | `lobbies.Add` appends the lobby at the end of the dictionary order |
| CheckerServer.Server.CloseConnection | Server.cs:67-82 | the notice broadcast and the `foreach` leave the state and log of `CloseBranch` |
| CheckerServer.Server.EvictOnClose | Server.cs:71-82 | the `foreach ... break` leaves the lobbies of `Evicted` |
| CheckerServer.Server.DropClient | Server.cs:78 | `RemoveClient` on one lobby changes only that lobby, as `RemoveFrom` |
| CheckerServer.Server.HandleWebSocket | Server.cs:51-104 | the whole handler leaves the state and log of `Connection` over the delivered frames |
| CheckerServer.Server.Receive | Server.cs:65-97 | one pass leaves `Turn`'s state and log, a text frame handled with the socket open and a Close with the socket closing, and ends the loop exactly when `Turn` says so |
| CheckerServer.Server.Answer | Server.cs:87-97 | `HandleResponse`'s reply goes back to the sender unless it threw, which ends the handler |

## Left out

- The HTTP listener, the accept loops and the 400 path are left out: they are I/O. So are the WebSocket receive, send and close primitives and their buffers.
- The `while (State == Open)` condition is folded into the finite sequence of frames the socket delivers.
- UTF-8 encoding and JSON serialization are left out. The listing is a sequence of (name, connected, id) records. The `action` payload keeps only the two Action.cs flags `IsCapture` and `HasCaptureMoves`; the other Action.cs fields are never read.
- `Task.Delay(60000)`'s wall-clock time is not modelled. The ends of a delay and the continuations are steps (`DelayEnded`, `Resume`) that an environment may take in any order. The model does not state when a timer fires, only which loops may fire.
- `Task.Run`'s token argument is left out. If the token is already cancelled, the loop does not start; the model instead starts it, and its delay ends on the cancelled token, with the same effect.
- CheckerLobby.Lobby.Resume: the class models the loop as keeping the token it was started with, which is the corrected behaviour. The behaviour as written is `ResumedAsWritten`; see Findings.
- Concurrency is left out: the sends of the unawaited `NotifySwapSides` call in `BroadcastToLobby` are logged at the call. Interleaving between connections and timer loops is not modelled either, and neither is the thread-safety of `ConcurrentDictionary`.
- The `async void` re-entrancy of `Lobby_ClientDisconnected` is not run inside `RemoveClient`. The event is logged in `departed`, and `DisconnectHandlerIsQuiet` shows the broadcast it would make is a no-op for peers in a single lobby.
- `Guid.NewGuid` and the Guid text format are left out. Ids are caller-supplied fresh values, and `Guid.TryParse` is a parameter.
- Logging is left out.
- The `catch (WebSocketException)` of a send to a socket that is not open is modelled as "no send". Any other exception caught in the handlers is modelled only as the `Fault` that ends the Server.cs handler.
- Program.cs's `catch (WebSocketException)` around the receive is left out; the loop ends when the frames run out.
- The keys of the `clients` `ConcurrentDictionary` are a sequence in insertion order. The source enumerates them in an unspecified (hash) order, and `TryRemove` takes keys out. So the contracts of `Notify`, `CheckerServer.Server.LobbyNotify` and `CheckerServer.JoinRule` fix which sockets get the listing and how often, but not the order of the pushes across sockets; and `Without` is not promised to keep any order.
- The values of the lobby `Dictionary` are enumerated in insertion order. That is what the model's order sequence holds, and it stays true because no lobby is ever removed.
- Core.StartsWith: the source calls the culture-sensitive `string.StartsWith(string)` overload, which skips ignorable code points such as a leading soft hyphen. The model compares ordinally, character by character, because culture data is outside the model. So a `join:` prefixed by an ignorable code point is a join in the source but a relayed frame in the model.
- Server.cs never removes a closed socket from `clients`. The model keeps it there, and later pushes to it deliver nothing because it is not open.
- The `response == "close"` branch of `HandleWebSocketAsync` is not modelled as a branch. `Respond` proves its condition never holds.

## Findings

| source | as written | input that shows it | evidently intended | confidence | as-written member | corrected member |
|---|---|---|---|---|---|---|
| Lobby.cs:85-102 | The timer loop reads the field `_timerCts` in its loop condition and in the check before `NotifySwapSides`. After firing it does not end: it awaits a new `Task.Delay` on the token its own `NotifySwapSides` just installed, beside the loop that `StartTimer` started for that token. | A lobby whose timer fires once (no moves for 60 s) and then times out again. At the second timeout two loops wait on token 1. When both delays end before the first continuation's `ResetTimer` runs, the check passes for both and the players get two `swap` rounds. | Each loop keeps the token it was started with, and a loop that fired ends. Then one timeout yields at most one swap. | not executed | CheckerLobby.AsWrittenSwapsTwice | CheckerLobby.OneSwapPerTimeout |
