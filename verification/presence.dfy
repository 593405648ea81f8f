/** The presence registry of the socket server (backend/src/config/socket.ts):
    `userSocketMap` maps a user id to the id of the socket it connected with
    last, every connection and every disconnection broadcasts the map's keys
    as `getOnlineUsers`, and `getReceiverSocketId` reads the map. */
module Presence {
  import opened Wrappers
  import opened OrderedMaps
  import opened MessageModel

  type SocketId = string

  /** What the server emitted: a broadcast to every client, or a message
      delivered to one socket's room. */
  datatype Emission =
    | OnlineUsers(users: seq<string>)
    | NewMessage(to: SocketId, message: Message)

  /** The registry in key-insertion order, the user id each open socket
      carried in its handshake (`None` when the query had no `userId`), and
      everything emitted so far. */
  datatype Server = Server(registry: OrderedMap<string, SocketId>, open: map<SocketId, Option<string>>, log: seq<Emission>)

  const Initial := Server([], map[], [])

  /** The property key `delete userSocketMap[userId]` uses: an absent
      `userId` is converted to the string "undefined". */
  function KeyOf(userId: Option<string>): (k: string)
    ensures userId.Some? ==> k == userId.value
  {
    match userId
    case Some(u) => u
    case None => "undefined"
  }

  /** The one key a plain object does not store: assigning to `__proto__`
      calls the setter inherited from `Object.prototype`, which ignores a
      value that is not an object, so no own property appears. */
  const ProtoKey := "__proto__"

  /** Whether `if (userId) userSocketMap[userId] = socket.id` creates an entry. */
  predicate Registers(userId: Option<string>) {
    Truthy(userId) && userId.value != ProtoKey
  }

  /** What the registry promises: each user at most once, every entry names a
      socket that is still open and that connected with that user id, and
      `__proto__` is never a key. */
  ghost predicate Inv(s: Server) {
    OrderedMaps.Wf(s.registry) && EntriesOpen(s.registry, s.open) && NoProtoKey(s.registry)
  }

  /** Every entry names an open socket that connected with the entry's user id. */
  ghost predicate EntriesOpen(m: OrderedMap<string, SocketId>, open: map<SocketId, Option<string>>) {
    forall i :: 0 <= i < |m| ==> m[i].1 in open && open[m[i].1] == Some(m[i].0)
  }

  ghost predicate NoProtoKey(m: OrderedMap<string, SocketId>) {
    forall i :: 0 <= i < |m| ==> m[i].0 != ProtoKey
  }

  /** The `connection` handler for a fresh socket id: record the user's
      socket when the user id is truthy, then broadcast the keys. */
  function Connect(s: Server, socket: SocketId, userId: Option<string>): (s': Server)
    requires socket !in s.open
    ensures s'.open == s.open[socket := userId]
    ensures Registers(userId) ==> Get(s'.registry, userId.value) == Some(socket)
    ensures Registers(userId) ==> forall u :: u != userId.value ==> Get(s'.registry, u) == Get(s.registry, u)
    // A missing or empty id, and `__proto__`, leave the registry as it was.
    ensures !Registers(userId) ==> s'.registry == s.registry
    ensures s'.log == s.log + [OnlineUsers(Keys(s'.registry))]
  {
    var registry := if Registers(userId) then Put(s.registry, userId.value, socket) else s.registry;
    PutGetAll(s.registry, KeyOf(userId), socket);
    Server(registry, s.open[socket := userId], s.log + [OnlineUsers(Keys(registry))])
  }

  /** The `disconnect` handler of `socket`: delete the entry under the user
      id captured at connection, whatever socket it now names, then
      broadcast the keys. A socket that is not open has no handler. */
  function Disconnect(s: Server, socket: SocketId): (s': Server)
    ensures socket !in s.open ==> s' == s
    ensures socket in s.open ==> s'.open == s.open - {socket}
    ensures socket in s.open ==> Get(s'.registry, KeyOf(s.open[socket])).None?
    ensures socket in s.open ==> forall u :: u != KeyOf(s.open[socket]) ==> Get(s'.registry, u) == Get(s.registry, u)
    ensures socket in s.open ==> s'.log == s.log + [OnlineUsers(Keys(s'.registry))]
  {
    if socket !in s.open then s
    else
      var key := KeyOf(s.open[socket]);
      var registry := Remove(s.registry, key);
      RemoveGetAll(s.registry, key);
      Server(registry, s.open - {socket}, s.log + [OnlineUsers(Keys(registry))])
  }

  lemma PutGetAll(m: OrderedMap<string, SocketId>, k: string, v: SocketId)
    ensures forall u :: Get(Put(m, k, v), u) == if u == k then Some(v) else Get(m, u)
  {
    forall u ensures Get(Put(m, k, v), u) == if u == k then Some(v) else Get(m, u) {
      PutGet(m, k, v, u);
    }
  }

  lemma RemoveGetAll(m: OrderedMap<string, SocketId>, k: string)
    ensures forall u :: Get(Remove(m, k), u) == if u == k then None else Get(m, u)
  {
    forall u ensures Get(Remove(m, k), u) == if u == k then None else Get(m, u) {
      RemoveGet(m, k, u);
    }
  }

  /** `getReceiverSocketId(userId)`: the socket stored for the user, if any. */
  function ReceiverSocket(s: Server, userId: string): (r: Option<SocketId>)
    ensures r.Some? <==> userId in Keys(s.registry)
    ensures r.Some? ==> (userId, r.value) in s.registry
    ensures Inv(s) && r.Some? ==> r.value in s.open && s.open[r.value] == Some(userId)
  {
    var r := Get(s.registry, userId);
    if r.Some? then GetSome(s.registry, userId); r else r
  }

  /** Where a present key sits. */
  function Position(m: OrderedMap<string, SocketId>, k: string): (g: nat)
    requires k in Keys(m)
    ensures g < |m| && m[g].0 == k
    ensures Get(m, k) == Some(m[g].1)
  {
    if m[0].0 == k then 0
    else
      assert k in Keys(m[1..]) by { assert Keys(m) == [m[0].0] + Keys(m[1..]); }
      1 + Position(m[1..], k)
  }

  /** In a map without repeated keys, the entry at a position is the one found. */
  lemma {:induction false} GetIsPosition(m: OrderedMap<string, SocketId>, g: nat)
    requires g < |m| && OrderedMaps.Wf(m)
    ensures Position(m, m[g].0) == g
  {
    if g > 0 {
      assert m[0].0 != m[g].0;
      assert m[1..][g - 1] == m[g];
      GetIsPosition(m[1..], g - 1);
    }
  }

  /** Both handlers keep the registry's invariant. */
  lemma ConnectKeepsInv(s: Server, socket: SocketId, userId: Option<string>)
    requires Inv(s) && socket !in s.open
    ensures Inv(Connect(s, socket, userId))
  {
    if Registers(userId) {
      PutWf(s.registry, userId.value, socket);
      ConnectKeepsEntries(s, socket, userId.value);
      PutKeepsNoProto(s.registry, userId.value, socket);
    }
  }

  lemma ConnectKeepsEntries(s: Server, socket: SocketId, user: string)
    requires Inv(s) && socket !in s.open
    ensures EntriesOpen(Put(s.registry, user, socket), s.open[socket := Some(user)])
  {
    var m := Put(s.registry, user, socket);
    PutWf(s.registry, user, socket);
    forall i | 0 <= i < |m|
      ensures m[i].1 in s.open[socket := Some(user)] && s.open[socket := Some(user)][m[i].1] == Some(m[i].0)
    {
      ConnectEntry(s, socket, user, i);
    }
  }

  /** One entry of the registry after `user` connects with `socket`. */
  lemma ConnectEntry(s: Server, socket: SocketId, user: string, i: nat)
    requires Inv(s) && socket !in s.open
    requires OrderedMaps.Wf(Put(s.registry, user, socket)) && i < |Put(s.registry, user, socket)|
    ensures var (k, v) := Put(s.registry, user, socket)[i];
      v in s.open[socket := Some(user)] && s.open[socket := Some(user)][v] == Some(k)
  {
    var m := Put(s.registry, user, socket);
    var (k, v) := m[i];
    GetIsPosition(m, i);
    PutGet(s.registry, user, socket, k);
    if k != user {
      var g := Position(s.registry, k);
      assert s.registry[g].1 == v;
    }
  }

  lemma PutKeepsNoProto(m: OrderedMap<string, SocketId>, k: string, v: SocketId)
    requires NoProtoKey(m) && k != ProtoKey
    ensures NoProtoKey(Put(m, k, v))
  {
    PutEntries(m, k, v);
    forall i | 0 <= i < |Put(m, k, v)|
      ensures Put(m, k, v)[i].0 != ProtoKey
    {
      assert Put(m, k, v)[i] in Put(m, k, v);
    }
  }

  lemma DisconnectKeepsInv(s: Server, socket: SocketId)
    requires Inv(s)
    ensures Inv(Disconnect(s, socket))
  {
    if socket in s.open {
      var key := KeyOf(s.open[socket]);
      RemoveWf(s.registry, key);
      DisconnectKeepsEntries(s, socket);
      RemoveKeepsNoProto(s.registry, key);
    }
  }

  lemma DisconnectKeepsEntries(s: Server, socket: SocketId)
    requires Inv(s) && socket in s.open
    ensures EntriesOpen(Remove(s.registry, KeyOf(s.open[socket])), s.open - {socket})
  {
    var key := KeyOf(s.open[socket]);
    var m := Remove(s.registry, key);
    RemoveWf(s.registry, key);
    forall i | 0 <= i < |m|
      ensures m[i].1 in s.open - {socket} && (s.open - {socket})[m[i].1] == Some(m[i].0)
    {
      var (k, v) := m[i];
      GetIsPosition(m, i);
      RemoveGet(s.registry, key, k);
      assert k != key;
      var g := Position(s.registry, k);
      assert s.registry[g].1 == v;
      assert v != socket;
    }
  }

  lemma RemoveKeepsNoProto(m: OrderedMap<string, SocketId>, k: string)
    requires NoProtoKey(m)
    ensures NoProtoKey(Remove(m, k))
  {
    RemoveKeys(m, k);
    forall i | 0 <= i < |Remove(m, k)|
      ensures Remove(m, k)[i].0 != ProtoKey
    {
      assert Keys(Remove(m, k))[i] in Keys(m);
    }
  }

  /** The broadcast lists every online user once: a user that opens many
      sockets is still one key. */
  lemma BroadcastHasNoDuplicates(s: Server)
    requires Inv(s)
    ensures forall i, j :: 0 <= i < j < |Keys(s.registry)| ==> Keys(s.registry)[i] != Keys(s.registry)[j]
  {
  }

  /** A stale disconnect erases a live user: after a user connects twice,
      closing the first socket removes the user although the second one is
      still open and still registered for that user. */
  lemma StaleDisconnect(s: Server, first: SocketId, second: SocketId, user: string)
    requires first !in s.open && second !in s.open && first != second && Registers(Some(user))
    ensures var s2 := Connect(Connect(s, first, Some(user)), second, Some(user));
      && ReceiverSocket(s2, user) == Some(second)
      && var s3 := Disconnect(s2, first);
         && second in s3.open && s3.open[second] == Some(user)
         && ReceiverSocket(s3, user).None?
  {
  }

  /** A client that connects as `__proto__` is never online: the assignment
      creates no entry, so no broadcast lists it. */
  lemma ProtoUserNeverListed(s: Server, socket: SocketId)
    requires Inv(s) && socket !in s.open
    ensures var s' := Connect(s, socket, Some(ProtoKey));
      && ProtoKey !in Keys(s'.registry)
      && s'.log == s.log + [OnlineUsers(Keys(s.registry))]
  {
  }

  /** A disconnect of the socket a user registered last takes the user offline. */
  lemma LastSocketLeaves(s: Server, socket: SocketId, user: string)
    requires socket !in s.open && user != ""
    ensures ReceiverSocket(Disconnect(Connect(s, socket, Some(user)), socket), user).None?
  {
  }
}
