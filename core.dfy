/** Values shared by both servers: peers, lobby ids, what goes out on a socket,
    the two peer slots of a lobby, the textual command helpers and the
    "first lobby that ..." lookups that every `foreach ... break` loop does. */
module Core {

  datatype Option<T> = None | Some(value: T)

  /** A connected WebSocket, compared by reference identity. */
  type Peer = nat

  /** A lobby's Guid. */
  type LobbyId = nat

  /** One row of the lobby listing (`LobbyName`, `Connected`, `LobbyId`). */
  datatype Entry = Entry(name: string, connected: nat, id: LobbyId)

  /** What a server writes on a socket: a text frame, the JSON lobby listing,
      or the `created:<id>` reply. */
  datatype Payload = Text(text: string) | Listing(entries: seq<Entry>) | Created(id: LobbyId)

  /** One `SendAsync` call that reached its recipient. */
  datatype Send = Send(to: Peer, payload: Payload)

  /** A frame as `ReceiveAsync` delivers it: text, or the peer's Close. */
  datatype Frame = Message(text: string) | Close

  function OptionBag(o: Option<Peer>): multiset<Peer>
  {
    if o.Some? then multiset{o.value} else multiset{}
  }

  /** The two nullable peer slots `client1` and `client2` of a lobby. */
  datatype Slots = Slots(client1: Option<Peer>, client2: Option<Peer>) {

    /** Everybody sitting in the lobby, counted once per slot. */
    function Occupants(): multiset<Peer>
    {
      OptionBag(client1) + OptionBag(client2)
    }

    /** The `Connected` property: the number of non-null slots. */
    function Connected(): (n: nat)
      ensures n <= 2
      ensures n == 0 <==> client1.None? && client2.None?
      ensures n == 2 <==> client1.Some? && client2.Some?
    {
      (if client1.Some? then 1 else 0) + (if client2.Some? then 1 else 0)
    }

    /** Whether `AddClient` can succeed. */
    predicate HasRoom()
      ensures HasRoom() <==> Connected() < 2
    {
      client1.None? || client2.None?
    }

    /** `ContainsClient`. */
    predicate Contains(c: Peer)
    {
      client1 == Some(c) || client2 == Some(c)
    }

    /** `GetOtherClient`: the slot opposite the one holding `c`, or null. */
    function Other(c: Peer): (r: Option<Peer>)
      ensures client1 == Some(c) ==> r == client2
      ensures client1 != Some(c) && client2 == Some(c) ==> r == client1
      ensures !Contains(c) ==> r == None
    {
      if client1 == Some(c) then client2
      else if client2 == Some(c) then client1
      else None
    }

    /** The slots after `AddClient(c)`. */
    function Add(c: Peer): (r: Slots)
      ensures HasRoom() ==> r.Connected() == Connected() + 1 && r.Contains(c)
      ensures client1.None? ==> r.client1 == Some(c) && r.client2 == client2
      ensures client1.Some? ==> r.client1 == client1
      ensures !HasRoom() ==> r == this
    {
      if client1.None? then Slots(Some(c), client2)
      else if client2.None? then Slots(client1, Some(c))
      else this
    }

    /** The slots after `RemoveClient(c)`. */
    function Remove(c: Peer): (r: Slots)
      ensures Contains(c) ==> r.Connected() + 1 == Connected()
      ensures client1 == Some(c) ==> r.client1 == None && r.client2 == client2
      ensures client1 != Some(c) ==> r.client1 == client1
      ensures client1 != Some(c) && client2 == Some(c) ==> r.client2 == None
      ensures !Contains(c) ==> r == this
    {
      if client1 == Some(c) then Slots(None, client2)
      else if client2 == Some(c) then Slots(client1, None)
      else this
    }
  }

  /** `Connected` counts the occupants. */
  lemma ConnectedCountsOccupants(s: Slots)
    ensures s.Connected() == |s.Occupants()|
  {
  }

  /** A member plus the one `GetOtherClient` returns are the whole lobby. */
  lemma OtherCompletesOccupants(s: Slots, c: Peer)
    requires s.Contains(c)
    ensures s.Occupants() == multiset{c} + OptionBag(s.Other(c))
  {
  }

  /** A successful `AddClient(c)` adds exactly `c`. */
  lemma AddAddsExactly(s: Slots, c: Peer)
    requires s.HasRoom()
    ensures s.Add(c).Occupants() == s.Occupants() + multiset{c}
  {
  }

  /** A successful `RemoveClient(c)` takes away exactly one `c`. */
  lemma RemoveTakesExactly(s: Slots, c: Peer)
    requires s.Contains(c)
    ensures s.Remove(c).Occupants() == s.Occupants() - multiset{c}
  {
  }

  const Empty: Slots := Slots(None, None)

  /** What a server's lobby dictionary knows of one lobby: key, name, slots. */
  datatype Row = Row(id: LobbyId, name: string, slots: Slots)

  /** The projection the listings make of a lobby. */
  function EntryOf(r: Row): Entry
  {
    Entry(r.name, r.slots.Connected(), r.id)
  }

  /** Guid keys are unique in a dictionary. */
  ghost predicate DistinctIds(rows: seq<Row>)
  {
    forall i, j :: 0 <= i < |rows| && 0 <= j < |rows| && i != j ==> rows[i].id != rows[j].id
  }

  /** Index of the first lobby, in dictionary order, whose slots hold `p`:
      where a `foreach (var lobby in lobbies.Values) if (lobby.ContainsClient(p)) ... break;`
      loop stops. */
  function FirstContaining(rows: seq<Row>, p: Peer): (k: Option<nat>)
    ensures k.Some? ==> k.value < |rows| && rows[k.value].slots.Contains(p)
    ensures k.Some? ==> forall j :: 0 <= j < k.value ==> !rows[j].slots.Contains(p)
    ensures k.None? <==> forall j :: 0 <= j < |rows| ==> !rows[j].slots.Contains(p)
  {
    if rows == [] then None
    else if rows[0].slots.Contains(p) then Some(0)
    else
      var tail := rows[1..];
      assert forall j :: 0 < j < |rows| ==> rows[j] == tail[j - 1];
      match FirstContaining(tail, p)
      case None => None
      case Some(k) => Some(k + 1)
  }

  /** A row holding `p` with none before it is the one `FirstContaining` finds. */
  lemma FirstContainingAt(rows: seq<Row>, p: Peer, i: nat)
    requires i < |rows| && rows[i].slots.Contains(p)
    requires forall j :: 0 <= j < i ==> !rows[j].slots.Contains(p)
    ensures FirstContaining(rows, p) == Some(i)
  {
  }

  /** `lobbies.TryGetValue(id, out lobby)`: the index of the lobby keyed `id`. */
  function Lookup(rows: seq<Row>, id: LobbyId): (k: Option<nat>)
    ensures k.Some? ==> k.value < |rows| && rows[k.value].id == id
    ensures k.None? <==> forall j :: 0 <= j < |rows| ==> rows[j].id != id
  {
    if rows == [] then None
    else if rows[0].id == id then Some(0)
    else
      match Lookup(rows[1..], id)
      case None => None
      case Some(k) => Some(k + 1)
  }

  /** With unique keys the lobby found is the lobby keyed `id`, whichever it is. */
  lemma LookupUnique(rows: seq<Row>, id: LobbyId, j: nat)
    requires DistinctIds(rows)
    requires j < |rows| && rows[j].id == id
    ensures Lookup(rows, id) == Some(j)
  {
  }

  /** Where `BroadcastToLobby(sender, ...)` delivers: the lobby index and the
      receiver, when the first lobby containing `sender` has a non-null,
      open other occupant; otherwise nowhere. */
  function RelayTarget(rows: seq<Row>, sender: Peer, open: set<Peer>): (t: Option<(nat, Peer)>)
    ensures t.Some? ==> FirstContaining(rows, sender) == Some(t.value.0)
    ensures t.Some? ==> rows[t.value.0].slots.Other(sender) == Some(t.value.1)
    ensures t.Some? ==> rows[t.value.0].slots.Contains(t.value.1) && t.value.1 in open
    ensures t.Some? && t.value.1 == sender ==> rows[t.value.0].slots == Slots(Some(sender), Some(sender))
    ensures t.None? <==>
      FirstContaining(rows, sender).None? ||
      rows[FirstContaining(rows, sender).value].slots.Other(sender).None? ||
      rows[FirstContaining(rows, sender).value].slots.Other(sender).value !in open
  {
    match FirstContaining(rows, sender)
    case None => None
    case Some(k) =>
      match rows[k].slots.Other(sender)
      case Some(r) => if r in open then Some((k, r)) else None
      case None => None
  }

  /** The frames `BroadcastToLobby(sender, payload)` sends: at most one. */
  function RelaySends(rows: seq<Row>, sender: Peer, payload: Payload, open: set<Peer>): (out: seq<Send>)
    ensures |out| <= 1
    ensures out != [] <==> RelayTarget(rows, sender, open).Some?
    ensures out != [] ==> out[0] == Send(RelayTarget(rows, sender, open).value.1, payload)
  {
    match RelayTarget(rows, sender, open)
    case None => []
    case Some((_, r)) => [Send(r, payload)]
  }

  /** The keys of a `ConcurrentDictionary<WebSocket, bool>` after `TryRemove(p)`. */
  function Without(s: seq<Peer>, p: Peer): (r: seq<Peer>)
    ensures forall q :: q in r <==> q in s && q != p
    ensures |r| <= |s|
  {
    if s == [] then [] else (if s[0] == p then [] else [s[0]]) + Without(s[1..], p)
  }

  /** Two updates of one position: the second wins. */
  lemma UpdateTwice<T>(s: seq<T>, k: nat, a: T, b: T)
    requires k < |s|
    ensures s[k := a][k := b] == s[k := b]
  {
  }

  /** Regrouping appended frames. */
  lemma AppendAssoc<T>(a: seq<T>, b: seq<T>, c: seq<T>)
    ensures a + b + c == a + (b + c)
  {
  }

  /** `TryRemove` keeps the keys duplicate-free, and drops exactly `p`. */
  lemma {:induction false} WithoutKeepsDistinct(s: seq<Peer>, p: Peer)
    requires forall i, j :: 0 <= i < j < |s| ==> s[i] != s[j]
    ensures forall i, j :: 0 <= i < j < |Without(s, p)| ==> Without(s, p)[i] != Without(s, p)[j]
    ensures p in s ==> |Without(s, p)| + 1 == |s|
    ensures p !in s ==> Without(s, p) == s
  {
    if s != [] {
      WithoutKeepsDistinct(s[1..], p);
      assert s[0] !in s[1..];
    }
  }

  // ---------------------------------------------------------------------------
  // The textual command grammar

  /** `string.StartsWith`, compared ordinally, character by character. The
      `StartsWith(string)` overload the servers call compares with the
      current culture, which also skips ignorable code points; that is
      not modelled. */
  predicate StartsWith(s: string, prefix: string)
  {
    |prefix| <= |s| && s[..|prefix|] == prefix
  }

  /** `string.Split(sep)`: the pieces between separators, empty ones included. */
  function Split(s: string, sep: char): (parts: seq<string>)
    ensures |parts| >= 1
    ensures forall i :: 0 <= i < |parts| ==> sep !in parts[i]
    ensures Join(parts, sep) == s
  {
    if s == [] then [[]]
    else
      var rest := Split(s[1..], sep);
      if s[0] == sep then
        assert Join([[]] + rest, sep) == [sep] + Join(rest, sep);
        [[]] + rest
      else
        JoinCons([s[0]] + rest[0], rest[1..], sep);
        JoinCons(rest[0], rest[1..], sep);
        assert rest == [rest[0]] + rest[1..];
        [[s[0]] + rest[0]] + rest[1..]
  }

  /** The inverse of `Split`: the pieces glued back with `sep`. */
  function Join(parts: seq<string>, sep: char): string
    requires |parts| >= 1
  {
    if |parts| == 1 then parts[0] else parts[0] + [sep] + Join(parts[1..], sep)
  }

  lemma JoinCons(head: string, tail: seq<string>, sep: char)
    ensures Join([head] + tail, sep) == head + (if tail == [] then [] else [sep] + Join(tail, sep))
  {
    assert ([head] + tail)[1..] == tail;
  }

  /** Splitting at the first separator: a separator-free head comes off whole. */
  lemma {:induction false} SplitAtFirst(a: string, b: string, sep: char)
    requires sep !in a
    ensures Split(a + [sep] + b, sep) == [a] + Split(b, sep)
  {
    if a == [] {
      assert a + [sep] + b == [sep] + b;
      assert ([sep] + b)[1..] == b;
    } else {
      var s := a + [sep] + b;
      assert s[1..] == a[1..] + [sep] + b;
      SplitAtFirst(a[1..], b, sep);
      assert [a[0]] + a[1..] == a;
    }
  }

  /** The head of a split is the longest separator-free prefix. */
  lemma {:induction false} SplitHead(s: string, sep: char)
    ensures StartsWith(s, Split(s, sep)[0])
    ensures |Split(s, sep)[0]| == |s| || s[|Split(s, sep)[0]|] == sep
  {
    if s != [] && s[0] != sep {
      SplitHead(s[1..], sep);
    }
  }

  /** A command prefix such as `join:`: ends with the only `:` it holds. */
  predicate IsCommandPrefix(prefix: string)
  {
    |prefix| >= 1 && prefix[|prefix| - 1] == ':' && ':' !in prefix[..|prefix| - 1]
  }

  /** `message.Split(':')[1]` for a message that starts with a command prefix:
      the text after the prefix up to the next `:` or the end. The index 1
      always exists because the prefix itself ends in `:`. */
  function Argument(prefix: string, message: string): (arg: string)
    requires IsCommandPrefix(prefix) && StartsWith(message, prefix)
    ensures |Split(message, ':')| >= 2 && arg == Split(message, ':')[1]
    ensures ':' !in arg
    ensures StartsWith(message[|prefix|..], arg)
    ensures |prefix| + |arg| == |message| || message[|prefix| + |arg|] == ':'
  {
    var head := prefix[..|prefix| - 1];
    var rest := message[|prefix|..];
    assert message == head + [':'] + rest by {
      assert prefix == head + [':'];
      assert message == message[..|prefix|] + rest;
    }
    SplitAtFirst(head, rest, ':');
    SplitHead(rest, ':');
    Split(message, ':')[1]
  }

  /** The argument of `prefix + arg`, for a `:`-free `arg`, is `arg` itself. */
  lemma {:induction false} ArgumentOfCommand(prefix: string, arg: string)
    requires IsCommandPrefix(prefix) && ':' !in arg
    ensures StartsWith(prefix + arg, prefix)
    ensures Argument(prefix, prefix + arg) == arg
  {
    var m := prefix + arg;
    assert m[..|prefix|] == prefix;
    assert m[|prefix|..] == arg;
    var a := Argument(prefix, m);
    assert StartsWith(arg, a);
  }
}
