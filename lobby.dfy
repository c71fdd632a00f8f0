/** The timer-bearing lobby of Lobby.cs: two peer slots, the current
    cancellation token of the swap timer, and the `ClientDisconnected` event. */
module CheckerLobby {
  import opened Core

  /** The swap timer's cancellation tokens. `issued` tokens have been made so
      far (token k is the k-th `new CancellationTokenSource()`), `current` is
      the one held in `_timerCts`, and `cancelled` are those `Cancel()` was
      called on. */
  datatype Timer = Timer(current: Option<nat>, issued: nat, cancelled: set<nat>) {

    /** Every token ever issued, except the current one, is cancelled;
        the current one is not. */
    ghost predicate Valid()
    {
      && (forall k :: k in cancelled ==> k < issued)
      && (current.Some? ==> current.value < issued && current.value !in cancelled)
      && (forall k :: 0 <= k < issued && Some(k) != current ==> k in cancelled)
    }

    /** `StartTimer`: `_timerCts?.Cancel(); _timerCts = new CancellationTokenSource();` */
    function Restart(): (t: Timer)
      requires Valid()
      ensures t.Valid()
      ensures current.Some? ==> current.value in t.cancelled
      ensures t.current.Some? && t.current.value !in t.cancelled
      ensures t.current == Some(issued) && t.issued == issued + 1
      ensures forall k :: 0 <= k < t.issued && k !in t.cancelled ==> t.current == Some(k)
      ensures cancelled <= t.cancelled
    {
      Timer(Some(issued), issued + 1, if current.Some? then cancelled + {current.value} else cancelled)
    }
  }

  /** One `Task.Run` loop of `StartTimer`: awaiting `Task.Delay` with
      `token`, or past that delay with its continuation due. */
  datatype Loop = Waiting(token: nat) | Due(token: nat)

  /** The swap timer of a lobby: the token history and the live loops. */
  datatype Ticker = Ticker(timer: Timer, loops: seq<Loop>) {

    /** Every loop holds an issued token, and at most one loop holds one
        that is not cancelled (which is then the current token), so one
        timeout wakes at most one loop. */
    ghost predicate Valid()
    {
      && timer.Valid()
      && (forall i :: 0 <= i < |loops| ==> loops[i].token < timer.issued)
      && (forall i, j :: 0 <= i < |loops| && 0 <= j < |loops| && i != j && loops[i].token !in timer.cancelled ==>
            loops[j].token in timer.cancelled)
    }
  }

  /** `StartTimer`: the current token is cancelled, a new one installed, and
      a new loop starts its first `Task.Delay` with it. */
  function Started(t: Ticker): (r: Ticker)
    requires t.timer.Valid()
    ensures r.timer == t.timer.Restart() && |r.loops| == |t.loops| + 1
    ensures t.Valid() ==> r.Valid()
    ensures r.loops == t.loops + [Waiting(t.timer.issued)] && r.timer.current == Some(t.timer.issued)
    ensures t.Valid() ==> forall i :: 0 <= i < |t.loops| ==> t.loops[i].token in r.timer.cancelled
  {
    Ticker(t.timer.Restart(), t.loops + [Waiting(t.timer.issued)])
  }

  /** Loop `i`'s `Task.Delay` ends: cancelled, it throws the
      `TaskCanceledException` that ends the loop; otherwise the loop's
      continuation is due. */
  function DelayEnds(t: Ticker, i: nat): (r: Ticker)
    requires i < |t.loops| && t.loops[i].Waiting?
    ensures r.timer == t.timer
    ensures t.Valid() ==> r.Valid()
    ensures t.loops[i].token in t.timer.cancelled ==> r.loops == t.loops[..i] + t.loops[i + 1..]
    ensures t.loops[i].token !in t.timer.cancelled ==> r.loops == t.loops[i := Due(t.loops[i].token)]
  {
    if t.loops[i].token in t.timer.cancelled then t.(loops := t.loops[..i] + t.loops[i + 1..])
    else t.(loops := t.loops[i := Due(t.loops[i].token)])
  }

  /** The continuation of loop `i`, as the loop would be written to keep the
      token it was started with: a cancelled token ends it; otherwise it
      calls `NotifySwapSides`, whose `StartTimer` cancels that token and
      starts the next loop, and the loop ends at its next check. */
  function Resumed(t: Ticker, i: nat): (r: (Ticker, bool))
    requires i < |t.loops| && t.loops[i].Due? && t.timer.Valid()
    ensures r.1 <==> t.loops[i].token !in t.timer.cancelled
    ensures r.1 ==> r.0.timer == t.timer.Restart()
    ensures r.1 && t.Valid() ==> t.loops[i].token in r.0.timer.cancelled
    ensures !r.1 ==> r.0.timer == t.timer
    ensures r.0.loops == t.loops[..i] + t.loops[i + 1..] + (if r.1 then [Waiting(t.timer.issued)] else [])
    ensures t.Valid() ==> r.0.Valid()
  {
    if t.loops[i].token in t.timer.cancelled then (t.(loops := t.loops[..i] + t.loops[i + 1..]), false)
    else
      var s := Started(t);
      (s.(loops := s.loops[..i] + s.loops[i + 1..]), true)
  }

  /** The continuation of loop `i` as Lobby.cs writes it: the check and the
      loop condition read the field `_timerCts`, whose token is never
      cancelled, so the loop always calls `NotifySwapSides` and then goes on
      with a `Task.Delay` on the token that call installed. */
  function ResumedAsWritten(t: Ticker, i: nat): (r: (Ticker, bool))
    requires i < |t.loops| && t.loops[i].Due? && t.timer.Valid()
    ensures r.1 && r.0.timer == t.timer.Restart()
    ensures |r.0.loops| == |t.loops| + 1
    ensures r.0.loops == t.loops[i := Waiting(t.timer.issued)] + [Waiting(t.timer.issued)]
  {
    var s := Started(t);
    (s.(loops := s.loops[i := Waiting(t.timer.issued)]), true)
  }

  /** As written, the second timeout of a lobby swaps twice: the loop that
      fired on the first timeout keeps running beside the one its
      `NotifySwapSides` started, both wait on token 1, and when both delays
      end before the first continuation cancels it, the second continuation
      fires on the cancelled token too. */
  lemma AsWrittenSwapsTwice()
    ensures var t0 := Started(Ticker(Idle, []));
      var t2 := ResumedAsWritten(DelayEnds(t0, 0), 0).0;
      var t3 := DelayEnds(DelayEnds(t2, 0), 1);
      var t4 := ResumedAsWritten(t3, 0).0;
      && !t2.Valid()
      && t3.loops == [Due(1), Due(1)]
      && t4.loops[1] == Due(1) && 1 in t4.timer.cancelled
  {
    var t0 := Started(Ticker(Idle, []));
    assert t0 == Ticker(Timer(Some(0), 1, {}), [Waiting(0)]);
    var t1 := DelayEnds(t0, 0);
    assert t1.loops == [Due(0)];
    var t2 := ResumedAsWritten(t1, 0).0;
    assert t2 == Ticker(Timer(Some(1), 2, {0}), [Waiting(1), Waiting(1)]);
    var t3 := DelayEnds(DelayEnds(t2, 0), 1);
    assert t3.loops == [Due(1), Due(1)];
    var t4 := ResumedAsWritten(t3, 0).0;
    assert t4.timer.cancelled == {0, 1};
  }

  /** With each loop keeping its own token, a loop that fired ends, and
      of two due loops at most one fires: one timeout, one swap. */
  lemma {:induction false} OneSwapPerTimeout(t: Ticker, i: nat, j: nat)
    requires t.Valid()
    requires i < |t.loops| && j < |t.loops| && i != j && t.loops[i].Due? && t.loops[j].Due?
    requires Resumed(t, i).1
    ensures var r := Resumed(t, i).0;
      var j' := if j < i then j else j - 1;
      j' < |r.loops| && r.loops[j'] == t.loops[j] && !Resumed(r, j').1
  {
    var s := Started(t);
    var r := Resumed(t, i).0;
    var j' := if j < i then j else j - 1;
    assert r.loops[j'] == s.loops[j];
    assert t.loops[j].token in t.timer.cancelled;
  }

  /** A lobby before any timer was started. */
  const Idle: Timer := Timer(None, 0, {})

  /** The whole state of one Lobby.cs object, as a value. `departed` lists
      the peers `ClientDisconnected` was raised with, oldest first. */
  datatype LobbyState = LobbyState(row: Row, timer: Timer, departed: seq<Peer>)

  /** The `swap` frames `NotifySwapSides` sends: to `client1`, then to
      `client2`, each only when the slot is non-null and its socket open. */
  function SwapSends(s: Slots, open: set<Peer>): (sent: seq<Send>)
    ensures |sent| <= s.Connected()
    ensures |sent| == (if s.client1.Some? && s.client1.value in open then 1 else 0)
                    + (if s.client2.Some? && s.client2.value in open then 1 else 0)
    ensures forall i :: 0 <= i < |sent| ==>
      sent[i].payload == Text("swap") && sent[i].to in open && s.Contains(sent[i].to)
    ensures s.client1.Some? && s.client1.value in open ==> sent != [] && sent[0].to == s.client1.value
    ensures s.client2.Some? && s.client2.value in open ==> sent != [] && sent[|sent| - 1].to == s.client2.value
    ensures (s.client1.None? || s.client1.value !in open) && (s.client2.None? || s.client2.value !in open) ==> sent == []
  {
    (if s.client1.Some? && s.client1.value in open then [Send(s.client1.value, Text("swap"))] else [])
    + (if s.client2.Some? && s.client2.value in open then [Send(s.client2.value, Text("swap"))] else [])
  }

  /** The state after `AddClient(c)`. */
  function AddTo(l: LobbyState, c: Peer): LobbyState
  {
    l.(row := l.row.(slots := l.row.slots.Add(c)))
  }

  /** The state after `RemoveClient(c)`: the event fires only on success. */
  function RemoveFrom(l: LobbyState, c: Peer): (r: LobbyState)
    ensures r.row.id == l.row.id && r.row.name == l.row.name && r.timer == l.timer
    ensures r.row.slots == l.row.slots.Remove(c)
    ensures l.row.slots.Contains(c) ==> r.departed == l.departed + [c]
    ensures !l.row.slots.Contains(c) ==> r == l
  {
    if l.row.slots.Contains(c) then
      l.(row := l.row.(slots := l.row.slots.Remove(c)), departed := l.departed + [c])
    else l
  }

  /** The state and frames after `NotifySwapSides()`. */
  function SwapSides(l: LobbyState, open: set<Peer>): (LobbyState, seq<Send>)
    requires l.timer.Valid()
  {
    (l.(timer := l.timer.Restart()), SwapSends(l.row.slots, open))
  }

  class Lobby {
    var client1: Option<Peer>
    var client2: Option<Peer>
    /** The cancellation-token history behind `_timerCts`. */
    var timer: Timer
    /** The `Task.Run` loops `StartTimer` has started that are still live. */
    var loops: seq<Loop>
    /** The peers `ClientDisconnected` has been raised with. */
    var departed: seq<Peer>
    const name: string
    const id: LobbyId

    ghost predicate Valid()
      reads this`timer, this`loops
    {
      Timers().Valid()
    }

    function Timers(): Ticker
      reads this`timer, this`loops
    {
      Ticker(timer, loops)
    }

    function Occupancy(): Slots
      reads this
    {
      Slots(client1, client2)
    }

    function Row(): Row
      reads this
    {
      Core.Row(id, name, Occupancy())
    }

    function State(): LobbyState
      reads this
    {
      LobbyState(Row(), timer, departed)
    }

    /** `new Lobby(name)`; the Guid is supplied by the caller. */
    constructor (name: string, id: LobbyId)
      ensures Valid()
      ensures State() == LobbyState(Core.Row(id, name, Empty), Idle, []) && loops == []
    {
      this.name := name;
      this.id := id;
      client1, client2 := None, None;
      timer := Idle;
      loops := [];
      departed := [];
    }

    /** The `Connected` property. */
    function Connected(): (n: nat)
      reads this
      ensures n <= 2
      ensures n == 0 <==> client1.None? && client2.None?
      ensures n == 2 <==> client1.Some? && client2.Some?
    {
      Occupancy().Connected()
    }

    method AddClient(client: Peer) returns (ok: bool)
      modifies this`client1, this`client2
      ensures ok <==> old(Connected()) < 2
      ensures ok ==> Connected() == old(Connected()) + 1 && ContainsClient(client)
      ensures old(client1).None? ==> client1 == Some(client) && client2 == old(client2)
      ensures old(client1).Some? && old(client2).None? ==> client1 == old(client1) && client2 == Some(client)
      ensures !ok ==> client1 == old(client1) && client2 == old(client2)
      ensures Occupancy() == old(Occupancy()).Add(client)
    {
      if client1 == None {
        client1 := Some(client);
        return true;
      } else if client2 == None {
        client2 := Some(client);
        return true;
      }
      return false;
    }

    method RemoveClient(client: Peer) returns (ok: bool)
      modifies this`client1, this`client2, this`departed
      ensures ok <==> old(ContainsClient(client))
      ensures old(client1) == Some(client) ==> client1 == None && client2 == old(client2)
      ensures old(client1) != Some(client) && old(client2) == Some(client) ==> client1 == old(client1) && client2 == None
      ensures !ok ==> client1 == old(client1) && client2 == old(client2)
      ensures departed == if ok then old(departed) + [client] else old(departed)
      ensures State() == RemoveFrom(old(State()), client)
    {
      if Some(client) == client1 {
        client1 := None;
        departed := departed + [client];
        return true;
      } else if Some(client) == client2 {
        client2 := None;
        departed := departed + [client];
        return true;
      }
      return false;
    }

    predicate ContainsClient(client: Peer)
      reads this
      ensures ContainsClient(client) <==> client1 == Some(client) || client2 == Some(client)
    {
      Occupancy().Contains(client)
    }

    function GetOtherClient(client: Peer): (r: Option<Peer>)
      reads this
      ensures client1 == Some(client) ==> r == client2
      ensures client1 != Some(client) && client2 == Some(client) ==> r == client1
      ensures !ContainsClient(client) ==> r == None
    {
      Occupancy().Other(client)
    }

    method StartTimer()
      requires Valid()
      modifies this`timer, this`loops
      ensures Valid()
      ensures old(timer).current.Some? ==> old(timer).current.value in timer.cancelled
      ensures timer.current == Some(old(timer).issued) && timer.current.value !in timer.cancelled
      ensures forall k :: 0 <= k < timer.issued && k !in timer.cancelled ==> timer.current == Some(k)
      ensures timer == old(timer).Restart()
      ensures Timers() == Started(old(Timers()))
    {
      var t := timer;
      if t.current.Some? {
        t := t.(cancelled := t.cancelled + {t.current.value});
      }
      timer := t.(current := Some(t.issued), issued := t.issued + 1);
      loops := loops + [Waiting(t.issued)];
    }

    method ResetTimer()
      requires Valid()
      modifies this`timer, this`loops
      ensures Valid()
      ensures Timers() == Started(old(Timers()))
    {
      StartTimer();
    }

    method NotifySwapSides(open: set<Peer>) returns (sent: seq<Send>)
      requires Valid()
      modifies this`timer, this`loops
      ensures Valid()
      ensures sent == SwapSends(Occupancy(), open)
      ensures Timers() == Started(old(Timers()))
      ensures (State(), sent) == SwapSides(old(State()), open)
    {
      sent := [];
      if client1.Some? && client1.value in open {
        sent := sent + [Send(client1.value, Text("swap"))];
      }
      if client2.Some? && client2.value in open {
        sent := sent + [Send(client2.value, Text("swap"))];
      }
      ResetTimer();
    }

    /** Loop `i`'s 60-second `Task.Delay` ends. */
    method DelayEnded(i: nat)
      requires Valid() && i < |loops| && loops[i].Waiting?
      modifies this`loops
      ensures Valid()
      ensures Timers() == DelayEnds(old(Timers()), i)
    {
      if loops[i].token in timer.cancelled {
        loops := loops[..i] + loops[i + 1..];
      } else {
        loops := loops[i := Due(loops[i].token)];
      }
    }

    /** The continuation of loop `i`, for a loop that keeps the token it was
        started with: `NotifySwapSides` unless that token is cancelled, and
        the loop ends either way. */
    method Resume(i: nat, open: set<Peer>) returns (fired: bool, sent: seq<Send>)
      requires Valid() && i < |loops| && loops[i].Due?
      modifies this`timer, this`loops
      ensures Valid()
      ensures (Timers(), fired) == Resumed(old(Timers()), i)
      ensures fired ==> (State(), sent) == SwapSides(old(State()), open)
      ensures !fired ==> State() == old(State()) && sent == []
    {
      if loops[i].token in timer.cancelled {
        loops := loops[..i] + loops[i + 1..];
        return false, [];
      }
      sent := NotifySwapSides(open);
      loops := loops[..i] + loops[i + 1..];
      fired := true;
    }
  }
}
