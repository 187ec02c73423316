/** The real-time presence, rate-limit and dispatch core of the chat server
    (server/socket.js).

    The server keeps three in-memory maps: which socket a user is currently
    connected on, when that user's handshake was admitted, and the user's
    fixed-window send counter.  Node runs each handler to completion between
    `await`s, so every handler is one sequential transition of those maps.
    The clock is the parameter `now` (milliseconds), the message store is a
    ghost log of created messages, the channel store's answer is an input
    `Option<Channel>`, and every `emit`/`disconnect` the server performs is
    returned as an ordered list of emissions.

    The module has two layers: pure transition functions over a `Registry`
    value, about which the lemmas are proved, and the class `SocketServer`
    whose methods update the three maps in place and are proved to perform
    exactly those transitions. */
module Socket {
  import opened Wrappers

  type UserId = string
  type ChannelId = string

  /** Socket.IO gives every connection a fresh, non-empty id, so a map lookup
      that finds an entry is always a truthy one. */
  type SocketId = s: string | s != "" witness "0"

  /** Accepted messages per user and window. */
  const MessageRateLimit: int := 30
  /** Length of one rate window; a window resets only after strictly more than this. */
  const RateWindowMs: int := 60000
  /** Idle threshold of the stale sweep; only strictly older entries are evicted. */
  const StaleAfterMs: int := 3600000

  /** The `{count, timestamp}` object kept per user in `messageCounters`. */
  datatype Counter = Counter(count: int, timestamp: int)

  /** A message as handed to the message store (its populated display fields
      are not modelled). */
  datatype Message = Message(
    sender: UserId,
    recipient: Option<UserId>,
    content: string,
    messageType: string,
    fileUrl: Option<string>,
    timestamp: Option<int>)

  /** The payload of a `send-channel-message` event. */
  datatype ChannelMessage = ChannelMessage(
    channelId: ChannelId,
    sender: UserId,
    content: string,
    messageType: string,
    fileUrl: Option<string>)

  /** A channel as the channel store returns it: its members, in order, and its admin. */
  datatype Channel = Channel(id: ChannelId, members: seq<UserId>, admin: UserId)

  /** What the server sends to a socket. */
  datatype Event =
    | RateLimitExceeded                                  // "error": rate limit exceeded
    | HandlerError(context: string)                      // "error" raised by the error handler
    | ReceiveMessage(message: Message)                   // "receiveMessage"
    | ReceiveChannelMessage(message: Message, channelId: ChannelId)  // "recieve-channel-message"
    | SessionExpired                                     // "session-expired"
    | NewChannelAdded(channel: Channel)                  // "new-channel-added"
    | Pong                                               // "pong"
    | ForcedDisconnect                                   // server-side `disconnect(true)`

  type Emission = (SocketId, Event)

  /** The three maps of the server. */
  datatype Registry = Registry(
    userSocketMap: map<UserId, SocketId>,
    connectionTimestamps: map<UserId, int>,
    messageCounters: map<UserId, Counter>)

  /** No two users are mapped to the same socket. */
  ghost predicate Injective(m: map<UserId, SocketId>) {
    forall u, v :: u in m && v in m && u != v ==> m[u] != m[v]
  }

  /** Every stored send counter is within 1..MessageRateLimit. */
  ghost predicate CountersInRange(c: map<UserId, Counter>) {
    forall u :: u in c ==> 1 <= c[u].count <= MessageRateLimit
  }

  ghost predicate ValidRegistry(r: Registry) {
    Injective(r.userSocketMap) && CountersInRange(r.messageCounters)
  }

  /** The users whose current socket is `socket`. */
  function Owners(m: map<UserId, SocketId>, socket: SocketId): set<UserId> {
    set u | u in m && m[u] == socket
  }

  // ---------------------------------------------------------------------------
  // Rate limiter (checkRateLimit)
  // ---------------------------------------------------------------------------

  datatype RateDecision = RateDecision(allowed: bool, counters: map<UserId, Counter>)

  /** One call of the fixed-window limiter for `user` at time `now`. */
  function RateLimit(counters: map<UserId, Counter>, user: UserId, now: int): (r: RateDecision)
    // no counter yet, or a window more than a minute old: a fresh window with count 1
    ensures (user !in counters || now - counters[user].timestamp > RateWindowMs) ==>
              r.allowed && r.counters == counters[user := Counter(1, now)]
    // inside the window the call is accepted exactly while the budget is not spent
    ensures user in counters && now - counters[user].timestamp <= RateWindowMs ==>
              (r.allowed <==> counters[user].count < MessageRateLimit)
    // an accepted call inside the window counts one more and keeps the window start
    ensures r.allowed && user in counters && now - counters[user].timestamp <= RateWindowMs ==>
              r.counters == counters[user := Counter(counters[user].count + 1, counters[user].timestamp)]
    // a refused call changes nothing: in particular it is not counted
    ensures !r.allowed ==> r.counters == counters
    ensures CountersInRange(counters) ==> CountersInRange(r.counters)
  {
    var c := if user in counters then counters[user] else Counter(0, now);
    if now - c.timestamp > RateWindowMs then
      RateDecision(true, counters[user := Counter(1, now)])
    else if c.count >= MessageRateLimit then
      RateDecision(false, counters)
    else
      RateDecision(true, counters[user := Counter(c.count + 1, c.timestamp)])
  }

  /** The answers of successive calls for one user at the times `times`. */
  function RunLimiter(counters: map<UserId, Counter>, user: UserId, times: seq<int>): (answers: seq<bool>)
    ensures |answers| == |times|
    decreases |times|
  {
    if times == [] then []
    else
      var d := RateLimit(counters, user, times[0]);
      [d.allowed] + RunLimiter(d.counters, user, times[1..])
  }

  /** Within one window, a user whose counter stands at `c` is granted exactly
      the next `MessageRateLimit - c` calls and refused every later one. */
  lemma {:induction false} WindowBudget(counters: map<UserId, Counter>, user: UserId, times: seq<int>)
    requires user in counters
    requires forall i :: 0 <= i < |times| ==> times[i] - counters[user].timestamp <= RateWindowMs
    ensures forall i :: 0 <= i < |times| ==>
              RunLimiter(counters, user, times)[i] == (counters[user].count + i < MessageRateLimit)
    decreases |times|
  {
    if times != [] {
      var d := RateLimit(counters, user, times[0]);
      var c := counters[user].count;
      assert user in d.counters && d.counters[user].timestamp == counters[user].timestamp;
      assert d.counters[user].count == if c < MessageRateLimit then c + 1 else c;
      WindowBudget(d.counters, user, times[1..]);
      var answers := RunLimiter(counters, user, times);
      forall i | 0 <= i < |times|
        ensures answers[i] == (c + i < MessageRateLimit)
      {
        if i > 0 {
          assert answers[i] == RunLimiter(d.counters, user, times[1..])[i - 1];
        }
      }
    }
  }

  /** A user without a counter who calls 31 times within one minute of the
      first call is granted the first 30 calls and refused the 31st. */
  lemma ThirtyFirstCallRefused(counters: map<UserId, Counter>, user: UserId, times: seq<int>)
    requires user !in counters
    requires |times| == MessageRateLimit + 1
    requires forall i :: 0 <= i < |times| ==> times[i] - times[0] <= RateWindowMs
    ensures forall i :: 0 <= i < MessageRateLimit ==> RunLimiter(counters, user, times)[i]
    ensures !RunLimiter(counters, user, times)[MessageRateLimit]
  {
    var d := RateLimit(counters, user, times[0]);
    WindowBudget(d.counters, user, times[1..]);
    var answers := RunLimiter(counters, user, times);
    assert forall i :: 1 <= i < |times| ==> answers[i] == RunLimiter(d.counters, user, times[1..])[i - 1];
  }

  // ---------------------------------------------------------------------------
  // Admission middleware, connection handler, disconnect, stale sweep
  // ---------------------------------------------------------------------------

  /** The admission middleware: a handshake without a truthy userId is refused
      (None); an admitted one stamps `connectionTimestamps[userId] := now`. */
  function Admitted(r: Registry, query: Option<string>, now: int): (a: Option<Registry>)
    ensures a.None? <==> !Truthy(query)
    ensures a.Some? ==> a.value.userSocketMap == r.userSocketMap && a.value.messageCounters == r.messageCounters
    ensures a.Some? ==> a.value.connectionTimestamps.Keys == r.connectionTimestamps.Keys + {query.value}
    ensures a.Some? ==> a.value.connectionTimestamps[query.value] == now
    ensures a.Some? ==> forall u :: u in r.connectionTimestamps && u != query.value ==>
              a.value.connectionTimestamps[u] == r.connectionTimestamps[u]
  {
    if !Truthy(query) then None
    else Some(r.(connectionTimestamps := r.connectionTimestamps[query.value := now]))
  }

  datatype Transition = Transition(registry: Registry, out: seq<Emission>)

  /** The connection handler: the user is remapped to the new socket, and the
      previously mapped socket, if any and different, is told `session-expired`
      (it is not closed). */
  function Connected(r: Registry, query: Option<string>, socket: SocketId): (t: Transition)
    ensures !Truthy(query) ==> t == Transition(r, [])
    ensures Truthy(query) ==> query.value in t.registry.userSocketMap && t.registry.userSocketMap[query.value] == socket
    ensures t.registry.userSocketMap.Keys == r.userSocketMap.Keys + (if Truthy(query) then {query.value} else {})
    ensures forall u :: u in r.userSocketMap && !(Truthy(query) && u == query.value) ==>
              t.registry.userSocketMap[u] == r.userSocketMap[u]
    ensures t.registry.connectionTimestamps == r.connectionTimestamps
    ensures t.registry.messageCounters == r.messageCounters
    ensures t.out != [] <==>
              Truthy(query) && query.value in r.userSocketMap && r.userSocketMap[query.value] != socket
    ensures t.out != [] ==> t.out == [(r.userSocketMap[query.value], SessionExpired)]
  {
    if !Truthy(query) then Transition(r, [])
    else
      var userId := query.value;
      var notices := if userId in r.userSocketMap && r.userSocketMap[userId] != socket
                     then [(r.userSocketMap[userId], SessionExpired)] else [];
      Transition(r.(userSocketMap := r.userSocketMap[userId := socket]), notices)
  }

  /** Connecting on a socket that no other user holds keeps one socket per user
      and one user per socket. */
  lemma ConnectKeepsRegistryValid(r: Registry, query: Option<string>, socket: SocketId)
    requires ValidRegistry(r)
    requires Truthy(query) ==> Owners(r.userSocketMap, socket) <= {query.value}
    ensures ValidRegistry(Connected(r, query, socket).registry)
  {
    if Truthy(query) {
      var m := Connected(r, query, socket).registry.userSocketMap;
      forall u, v | u in m && v in m && u != v
        ensures m[u] != m[v]
      {
        if u != query.value && v != query.value {
        } else if u == query.value {
          assert v !in Owners(r.userSocketMap, socket);
        } else {
          assert u !in Owners(r.userSocketMap, socket);
        }
      }
    }
  }

  /** The disconnect handler: the user whose current socket is the
      disconnecting one, if there is one, leaves all three maps. */
  function Disconnected(r: Registry, socket: SocketId): (d: Registry)
    ensures d.userSocketMap.Keys == r.userSocketMap.Keys - Owners(r.userSocketMap, socket)
    ensures d.connectionTimestamps.Keys == r.connectionTimestamps.Keys - Owners(r.userSocketMap, socket)
    ensures d.messageCounters.Keys == r.messageCounters.Keys - Owners(r.userSocketMap, socket)
    ensures socket !in d.userSocketMap.Values
  {
    var gone := Owners(r.userSocketMap, socket);
    Registry(r.userSocketMap - gone, r.connectionTimestamps - gone, r.messageCounters - gone)
  }

  /** Disconnecting a user's current socket removes exactly that user. */
  lemma DisconnectCurrentSocket(r: Registry, user: UserId)
    requires ValidRegistry(r) && user in r.userSocketMap
    ensures Disconnected(r, r.userSocketMap[user]) ==
              Registry(r.userSocketMap - {user}, r.connectionTimestamps - {user}, r.messageCounters - {user})
  {
    assert Owners(r.userSocketMap, r.userSocketMap[user]) == {user};
  }

  /** Disconnecting a socket that no user currently holds changes nothing. */
  lemma DisconnectUnknownSocket(r: Registry, socket: SocketId)
    requires socket !in r.userSocketMap.Values
    ensures Disconnected(r, socket) == r
  {
    var gone := Owners(r.userSocketMap, socket);
    assert forall u :: u in r.userSocketMap ==> r.userSocketMap[u] in r.userSocketMap.Values;
    assert gone == {};
    assert r.userSocketMap - gone == r.userSocketMap;
    assert r.connectionTimestamps - gone == r.connectionTimestamps;
    assert r.messageCounters - gone == r.messageCounters;
  }

  /** After a takeover, the superseded socket's disconnect is a no-op: the user
      stays mapped to the new socket. */
  lemma SupersededDisconnectIsNoop(r: Registry, user: UserId, newSocket: SocketId)
    requires ValidRegistry(r) && user != "" && user in r.userSocketMap
    requires r.userSocketMap[user] != newSocket
    requires Owners(r.userSocketMap, newSocket) <= {user}
    ensures var after := Connected(r, Some(user), newSocket).registry;
            Disconnected(after, r.userSocketMap[user]) == after
  {
    var previous := r.userSocketMap[user];
    var after := Connected(r, Some(user), newSocket).registry;
    forall u | u in after.userSocketMap ensures after.userSocketMap[u] != previous {
      if u != user {
        assert r.userSocketMap[u] != r.userSocketMap[user];
      }
    }
    DisconnectUnknownSocket(after, previous);
  }

  /** The users whose admission stamp is more than an hour old at `now`. */
  function Stale(stamps: map<UserId, int>, now: int): (s: set<UserId>)
    ensures s <= stamps.Keys
    ensures forall u :: u in stamps ==> (u in s <==> now - stamps[u] > StaleAfterMs)
  {
    set u | u in stamps && now - stamps[u] > StaleAfterMs
  }

  /** The periodic sweep: stale users leave all three maps; everyone else stays. */
  function Swept(r: Registry, now: int): (s: Registry)
    ensures forall u :: u in r.connectionTimestamps ==>
              (u in s.connectionTimestamps <==> now - r.connectionTimestamps[u] <= StaleAfterMs)
    ensures forall u :: u in s.connectionTimestamps ==> now - s.connectionTimestamps[u] <= StaleAfterMs
    ensures forall u :: u in r.userSocketMap && u !in Stale(r.connectionTimestamps, now) ==>
              u in s.userSocketMap && s.userSocketMap[u] == r.userSocketMap[u]
    ensures forall u :: u in r.messageCounters && u !in Stale(r.connectionTimestamps, now) ==>
              u in s.messageCounters && s.messageCounters[u] == r.messageCounters[u]
    ensures forall u :: u in s.connectionTimestamps ==>
              u in r.connectionTimestamps && s.connectionTimestamps[u] == r.connectionTimestamps[u]
    ensures s.userSocketMap.Keys <= r.userSocketMap.Keys && s.messageCounters.Keys <= r.messageCounters.Keys
    ensures s.userSocketMap.Keys !! Stale(r.connectionTimestamps, now)
    ensures s.messageCounters.Keys !! Stale(r.connectionTimestamps, now)
  {
    var stale := Stale(r.connectionTimestamps, now);
    Registry(r.userSocketMap - stale, r.connectionTimestamps - stale, r.messageCounters - stale)
  }

  /** The sockets the sweep force-disconnects: those of stale users. */
  function ClosedSockets(r: Registry, now: int): set<SocketId> {
    set u | u in Stale(r.connectionTimestamps, now) && u in r.userSocketMap :: r.userSocketMap[u]
  }

  /** A second sweep at the same instant finds nothing more to evict. */
  lemma {:induction false} SweepIdempotent(r: Registry, now: int)
    ensures Swept(Swept(r, now), now) == Swept(r, now)
    ensures ClosedSockets(Swept(r, now), now) == {}
  {
    var s := Swept(r, now);
    assert Stale(s.connectionTimestamps, now) == {};
    assert s.userSocketMap - {} == s.userSocketMap;
    assert s.connectionTimestamps - {} == s.connectionTimestamps;
    assert s.messageCounters - {} == s.messageCounters;
  }

  /** The sweep keeps the registry invariant. */
  lemma SweepKeepsRegistryValid(r: Registry, now: int)
    requires ValidRegistry(r)
    ensures ValidRegistry(Swept(r, now))
  {
  }

  /** The outcome of the sweep as written: the maps it leaves, and whether the
      callback stopped on a thrown error. */
  datatype SweepRun = SweepRun(registry: Registry, aborted: bool)

  /** The sweep as the code is written, visiting the users in `order` (the
      insertion order of `connectionTimestamps`). With the Socket.IO 4 API,
      `io.to(socketId)` has no `disconnect` method, so the call throws at the
      first stale user that still has a socket: that user's three deletes do
      not run and no later user is visited. */
  function SweptAsWritten(r: Registry, now: int, order: seq<UserId>): (run: SweepRun)
    ensures forall u :: u in r.userSocketMap && u in Stale(r.connectionTimestamps, now) ==>
              u in run.registry.userSocketMap && u in run.registry.connectionTimestamps
    ensures !run.aborted ==>
              forall k :: 0 <= k < |order| ==>
                !(order[k] in r.userSocketMap && order[k] in Stale(r.connectionTimestamps, now))
    decreases |order|
  {
    if order == [] then SweepRun(r, false)
    else
      var u := order[0];
      if u in r.connectionTimestamps && now - r.connectionTimestamps[u] > StaleAfterMs then
        if u in r.userSocketMap then SweepRun(r, true)
        else
          var r' := Registry(r.userSocketMap - {u}, r.connectionTimestamps - {u}, r.messageCounters - {u});
          SweptAsWritten(r', now, order[1..])
      else SweptAsWritten(r, now, order[1..])
  }

  /** Whether `order` lists a stale user who still has a socket: the users at
      which the sweep as written throws. */
  predicate VisitsStaleHolder(r: Registry, now: int, order: seq<UserId>) {
    exists k :: 0 <= k < |order| && order[k] in r.userSocketMap && order[k] in Stale(r.connectionTimestamps, now)
  }

  /** The sweep as written stops exactly when it meets a stale user who still
      has a socket. */
  lemma {:induction false} SweptAsWrittenAborts(r: Registry, now: int, order: seq<UserId>)
    ensures SweptAsWritten(r, now, order).aborted <==> VisitsStaleHolder(r, now, order)
    decreases |order|
  {
    if order != [] {
      var u := order[0];
      if u in r.connectionTimestamps && now - r.connectionTimestamps[u] > StaleAfterMs {
        if u in r.userSocketMap {
          assert order[0] in r.userSocketMap && order[0] in Stale(r.connectionTimestamps, now);
        } else {
          var r' := Registry(r.userSocketMap - {u}, r.connectionTimestamps - {u}, r.messageCounters - {u});
          SweptAsWrittenAborts(r', now, order[1..]);
          if VisitsStaleHolder(r, now, order) {
            var k :| 0 <= k < |order| && order[k] in r.userSocketMap && order[k] in Stale(r.connectionTimestamps, now);
            assert k != 0 && order[1..][k - 1] == order[k];
            assert order[1..][k - 1] in r'.userSocketMap && order[1..][k - 1] in Stale(r'.connectionTimestamps, now);
          }
          if VisitsStaleHolder(r', now, order[1..]) {
            var k :| 0 <= k < |order[1..]| && order[1..][k] in r'.userSocketMap && order[1..][k] in Stale(r'.connectionTimestamps, now);
            assert order[k + 1] in r.userSocketMap && order[k + 1] in Stale(r.connectionTimestamps, now);
          }
        }
      } else {
        SweptAsWrittenAborts(r, now, order[1..]);
        if VisitsStaleHolder(r, now, order) {
          var k :| 0 <= k < |order| && order[k] in r.userSocketMap && order[k] in Stale(r.connectionTimestamps, now);
          assert k != 0 && order[1..][k - 1] == order[k];
        }
        if VisitsStaleHolder(r, now, order[1..]) {
          var k :| 0 <= k < |order[1..]| && order[1..][k] in r.userSocketMap && order[1..][k] in Stale(r.connectionTimestamps, now);
          assert order[k + 1] == order[1..][k];
        }
      }
    }
  }

  /** A completed run of the sweep as written has removed exactly the stale
      users it visited from the three maps. */
  lemma {:induction false} SweptAsWrittenRemoves(r: Registry, now: int, order: seq<UserId>)
    ensures var run := SweptAsWritten(r, now, order);
            var gone := set u | u in order && u in Stale(r.connectionTimestamps, now);
            !run.aborted ==>
              run.registry == Registry(r.userSocketMap - gone, r.connectionTimestamps - gone, r.messageCounters - gone)
    decreases |order|
  {
    var gone := set u | u in order && u in Stale(r.connectionTimestamps, now);
    if order == [] {
      assert gone == {};
      assert r.userSocketMap - gone == r.userSocketMap;
      assert r.connectionTimestamps - gone == r.connectionTimestamps;
      assert r.messageCounters - gone == r.messageCounters;
    } else {
      var u := order[0];
      if u in r.connectionTimestamps && now - r.connectionTimestamps[u] > StaleAfterMs {
        if u !in r.userSocketMap {
          var r' := Registry(r.userSocketMap - {u}, r.connectionTimestamps - {u}, r.messageCounters - {u});
          SweptAsWrittenRemoves(r', now, order[1..]);
          var gone' := set v | v in order[1..] && v in Stale(r'.connectionTimestamps, now);
          assert gone == gone' + {u};
          assert r'.userSocketMap - gone' == r.userSocketMap - gone;
          assert r'.connectionTimestamps - gone' == r.connectionTimestamps - gone;
          assert r'.messageCounters - gone' == r.messageCounters - gone;
        }
      } else {
        SweptAsWrittenRemoves(r, now, order[1..]);
        var gone' := set v | v in order[1..] && v in Stale(r.connectionTimestamps, now);
        assert gone == gone';
      }
    }
  }

  /** When `order` lists every stamped user, a run of the sweep as written
      that does not throw leaves the same maps as the intended sweep. */
  lemma SweptAsWrittenCompletes(r: Registry, now: int, order: seq<UserId>)
    requires forall u :: u in r.connectionTimestamps ==> u in order
    ensures !SweptAsWritten(r, now, order).aborted ==> SweptAsWritten(r, now, order).registry == Swept(r, now)
  {
    SweptAsWrittenRemoves(r, now, order);
    var gone := set u | u in order && u in Stale(r.connectionTimestamps, now);
    assert gone == Stale(r.connectionTimestamps, now);
  }

  /** A user stamped at 0 and still on socket "s1" is stale an hour and a
      millisecond later. The intended sweep evicts them; the sweep as written
      stops on that user and leaves the registry as it was. */
  lemma SweptAsWrittenKeepsStaleUser()
    ensures var r := Registry(map["a" := "s1"], map["a" := 0], map[]);
            var now := StaleAfterMs + 1;
            && SweptAsWritten(r, now, ["a"]) == SweepRun(r, true)
            && "a" !in Swept(r, now).userSocketMap
            && "a" !in Swept(r, now).connectionTimestamps
  {
    var r := Registry(map["a" := "s1"], map["a" := 0], map[]);
    assert "a" in Stale(r.connectionTimestamps, StaleAfterMs + 1);
  }

  // ---------------------------------------------------------------------------
  // Fan-out and dispatch (sendMessage, sendChannelMessage, addChannelNotify)
  // ---------------------------------------------------------------------------

  /** One emission of `ev` per listed user that has a socket, in list order. */
  function FanOut(users: seq<UserId>, sockets: map<UserId, SocketId>, ev: Event): (out: seq<Emission>)
    ensures |out| <= |users|
    ensures forall k :: 0 <= k < |out| ==> out[k].1 == ev && out[k].0 in sockets.Values
    decreases |users|
  {
    if users == [] then []
    else
      var last := users[|users| - 1];
      FanOut(users[..|users| - 1], sockets, ev) + (if last in sockets then [(sockets[last], ev)] else [])
  }

  /** A socket receives the fan-out exactly when some listed user is on it. */
  lemma {:induction false} FanOutReaches(users: seq<UserId>, sockets: map<UserId, SocketId>, ev: Event, s: SocketId)
    ensures (s, ev) in FanOut(users, sockets, ev) <==> exists u :: u in users && u in sockets && sockets[u] == s
    decreases |users|
  {
    if users != [] {
      var init, last := users[..|users| - 1], users[|users| - 1];
      assert users == init + [last];
      FanOutReaches(init, sockets, ev, s);
      if exists u :: u in users && u in sockets && sockets[u] == s {
        var u :| u in users && u in sockets && sockets[u] == s;
        if u != last {
          assert u in init;
        }
      }
    }
  }

  /** When every listed user is online, each of them gets one emission. */
  lemma {:induction false} FanOutAllPresent(users: seq<UserId>, sockets: map<UserId, SocketId>, ev: Event)
    requires forall u :: u in users ==> u in sockets
    ensures |FanOut(users, sockets, ev)| == |users|
    ensures forall k :: 0 <= k < |users| ==> FanOut(users, sockets, ev)[k] == (sockets[users[k]], ev)
    decreases |users|
  {
    if users != [] {
      var init := users[..|users| - 1];
      FanOutAllPresent(init, sockets, ev);
    }
  }

  /** How many emissions go to socket `s`. */
  function DeliveriesTo(out: seq<Emission>, s: SocketId): nat
    decreases |out|
  {
    if out == [] then 0
    else DeliveriesTo(out[..|out| - 1], s) + (if out[|out| - 1].0 == s then 1 else 0)
  }

  lemma DeliveriesToAppendOne(out: seq<Emission>, e: Emission, s: SocketId)
    ensures DeliveriesTo(out + [e], s) == DeliveriesTo(out, s) + (if e.0 == s then 1 else 0)
  {
    assert (out + [e])[..|out|] == out;
  }

  /** With one socket per user, an online user's socket receives one emission
      per occurrence of that user in the list. */
  lemma {:induction false} FanOutDeliveriesTo(users: seq<UserId>, sockets: map<UserId, SocketId>, ev: Event, user: UserId)
    requires Injective(sockets) && user in sockets
    ensures DeliveriesTo(FanOut(users, sockets, ev), sockets[user]) == multiset(users)[user]
    decreases |users|
  {
    if users != [] {
      var init, last := users[..|users| - 1], users[|users| - 1];
      assert users == init + [last];
      FanOutDeliveriesTo(init, sockets, ev, user);
      var prefix := FanOut(init, sockets, ev);
      if last in sockets {
        DeliveriesToAppendOne(prefix, (sockets[last], ev), sockets[user]);
      } else {
        assert FanOut(users, sockets, ev) == prefix;
      }
    }
  }

  /** The deliveries of a direct message: the recipient's socket if present,
      then the sender's socket if present. */
  function DirectDeliveries(sockets: map<UserId, SocketId>, m: Message): (out: seq<Emission>)
    ensures |out| == (if m.recipient.Some? && m.recipient.value in sockets then 1 else 0)
                   + (if m.sender in sockets then 1 else 0)
    ensures forall e :: e in out <==>
              e.1 == ReceiveMessage(m) &&
              ((m.recipient.Some? && m.recipient.value in sockets && e.0 == sockets[m.recipient.value]) ||
               (m.sender in sockets && e.0 == sockets[m.sender]))
  {
    var ev := ReceiveMessage(m);
    (if m.recipient.Some? && m.recipient.value in sockets then [(sockets[m.recipient.value], ev)] else [])
    + (if m.sender in sockets then [(sockets[m.sender], ev)] else [])
  }

  /** The deliveries of a channel message: one per online member, in member
      order, then one more to the admin if online (no de-duplication). */
  function ChannelDeliveries(sockets: map<UserId, SocketId>, channel: Channel, m: Message): (out: seq<Emission>)
    ensures |out| <= |channel.members| + 1
    ensures forall k :: 0 <= k < |out| ==>
              out[k].1 == ReceiveChannelMessage(m, channel.id) && out[k].0 in sockets.Values
  {
    var ev := ReceiveChannelMessage(m, channel.id);
    FanOut(channel.members, sockets, ev) + (if channel.admin in sockets then [(sockets[channel.admin], ev)] else [])
  }

  /** An online user's socket receives one copy per membership plus one if the
      user is the admin. */
  lemma ChannelDeliveriesTo(sockets: map<UserId, SocketId>, channel: Channel, m: Message, user: UserId)
    requires Injective(sockets) && user in sockets
    ensures DeliveriesTo(ChannelDeliveries(sockets, channel, m), sockets[user]) ==
              multiset(channel.members)[user] + (if channel.admin == user then 1 else 0)
  {
    var ev := ReceiveChannelMessage(m, channel.id);
    var members := FanOut(channel.members, sockets, ev);
    FanOutDeliveriesTo(channel.members, sockets, ev, user);
    if channel.admin in sockets {
      DeliveriesToAppendOne(members, (sockets[channel.admin], ev), sockets[user]);
    } else {
      assert ChannelDeliveries(sockets, channel, m) == members;
    }
  }

  /** An online admin who is also listed once as a member gets the message twice. */
  lemma AdminMemberReceivesTwice(sockets: map<UserId, SocketId>, channel: Channel, m: Message)
    requires Injective(sockets) && channel.admin in sockets
    requires multiset(channel.members)[channel.admin] == 1
    ensures DeliveriesTo(ChannelDeliveries(sockets, channel, m), sockets[channel.admin]) == 2
  {
    ChannelDeliveriesTo(sockets, channel, m, channel.admin);
  }

  /** With every member and the admin online, there is one delivery per member
      plus one for the admin. */
  lemma ChannelFanOutComplete(sockets: map<UserId, SocketId>, channel: Channel, m: Message)
    requires forall u :: u in channel.members ==> u in sockets
    requires channel.admin in sockets
    ensures |ChannelDeliveries(sockets, channel, m)| == |channel.members| + 1
  {
    FanOutAllPresent(channel.members, sockets, ReceiveChannelMessage(m, channel.id));
  }

  datatype Dispatch = Dispatch(registry: Registry, created: seq<Message>, out: seq<Emission>)

  /** sendMessage: rate-limit the sender, store the message, deliver it to the
      recipient's and the sender's sockets. */
  function DirectSend(r: Registry, m: Message, socket: SocketId, now: int): (d: Dispatch)
    ensures d.registry == r.(messageCounters := RateLimit(r.messageCounters, m.sender, now).counters)
    ensures !RateLimit(r.messageCounters, m.sender, now).allowed ==>
              d.registry == r && d.created == [] && d.out == [(socket, RateLimitExceeded)]
    ensures RateLimit(r.messageCounters, m.sender, now).allowed ==>
              d.created == [m] && d.out == DirectDeliveries(r.userSocketMap, m)
  {
    var limit := RateLimit(r.messageCounters, m.sender, now);
    var r' := r.(messageCounters := limit.counters);
    if !limit.allowed then Dispatch(r', [], [(socket, RateLimitExceeded)])
    else Dispatch(r', [m], DirectDeliveries(r.userSocketMap, m))
  }

  /** The message sendChannelMessage stores: no recipient, stamped `now`. */
  function StoredChannelMessage(cm: ChannelMessage, now: int): (m: Message)
    ensures m.recipient.None? && m.timestamp == Some(now)
    ensures m.sender == cm.sender && m.content == cm.content
    ensures m.messageType == cm.messageType && m.fileUrl == cm.fileUrl
  {
    Message(cm.sender, None, cm.content, cm.messageType, cm.fileUrl, Some(now))
  }

  /** sendChannelMessage: rate-limit the sender, store the message (before the
      channel is looked up), then fan out or report the missing channel. */
  function ChannelSend(r: Registry, cm: ChannelMessage, socket: SocketId, now: int, channel: Option<Channel>): (d: Dispatch)
    ensures d.registry == r.(messageCounters := RateLimit(r.messageCounters, cm.sender, now).counters)
    ensures !RateLimit(r.messageCounters, cm.sender, now).allowed ==>
              d.registry == r && d.created == [] && d.out == [(socket, RateLimitExceeded)]
    ensures RateLimit(r.messageCounters, cm.sender, now).allowed ==>
              d.created == [StoredChannelMessage(cm, now)]
    ensures RateLimit(r.messageCounters, cm.sender, now).allowed && channel.None? ==>
              d.out == [(socket, HandlerError("sendChannelMessage"))]
    ensures RateLimit(r.messageCounters, cm.sender, now).allowed && channel.Some? ==>
              d.out == ChannelDeliveries(r.userSocketMap, channel.value, StoredChannelMessage(cm, now))
  {
    var limit := RateLimit(r.messageCounters, cm.sender, now);
    var r' := r.(messageCounters := limit.counters);
    if !limit.allowed then Dispatch(r', [], [(socket, RateLimitExceeded)])
    else
      var m := StoredChannelMessage(cm, now);
      match channel
      case None => Dispatch(r', [m], [(socket, HandlerError("sendChannelMessage"))])
      case Some(ch) => Dispatch(r', [m], ChannelDeliveries(r.userSocketMap, ch, m))
  }

  /** addChannelNotify: every online member of a new channel is told about it. */
  function ChannelNotify(sockets: map<UserId, SocketId>, channel: Option<Channel>): (out: seq<Emission>)
    ensures channel.None? ==> out == []
    ensures channel.Some? ==> forall k :: 0 <= k < |out| ==> out[k].1 == NewChannelAdded(channel.value)
  {
    match channel
    case None => []
    case Some(ch) => FanOut(ch.members, sockets, NewChannelAdded(ch))
  }

  /** A new channel reaches exactly the sockets of its online members (its
      admin only as a member). */
  lemma ChannelNotifyReaches(sockets: map<UserId, SocketId>, channel: Channel, s: SocketId)
    ensures (s, NewChannelAdded(channel)) in ChannelNotify(sockets, Some(channel)) <==>
              exists u :: u in channel.members && u in sockets && sockets[u] == s
  {
    FanOutReaches(channel.members, sockets, NewChannelAdded(channel), s);
  }

  /** The takeover scenario: a user connected on one socket connects on a
      second one; only the first is told `session-expired`, the user is now on
      the second, and the first socket's later disconnect removes nobody. */
  lemma TakeoverScenario(r: Registry, user: UserId, first: SocketId, second: SocketId)
    requires ValidRegistry(r) && user != "" && first != second
    requires Owners(r.userSocketMap, first) <= {user} && Owners(r.userSocketMap, second) <= {user}
    ensures var t1 := Connected(r, Some(user), first);
            var t2 := Connected(t1.registry, Some(user), second);
            && t2.out == [(first, SessionExpired)]
            && t2.registry.userSocketMap[user] == second
            && Disconnected(t2.registry, first) == t2.registry
  {
    var t1 := Connected(r, Some(user), first);
    ConnectKeepsRegistryValid(r, Some(user), first);
    assert Owners(t1.registry.userSocketMap, second) <= {user};
    SupersededDisconnectIsNoop(t1.registry, user, second);
  }

  lemma RemoveOneMore<V>(m: map<UserId, V>, removed: set<UserId>, u: UserId)
    ensures (m - removed) - {u} == m - (removed + {u})
  {
  }

  /** The sweep's progress: the users already visited are those not `pending`,
      and `reg` is the starting registry without the stale ones among them. */
  ghost predicate SweepProgress(r0: Registry, now: int, pending: set<UserId>, removed: set<UserId>, reg: Registry) {
    && pending <= r0.connectionTimestamps.Keys
    && removed == Stale(r0.connectionTimestamps, now) - pending
    && reg == Registry(r0.userSocketMap - removed, r0.connectionTimestamps - removed, r0.messageCounters - removed)
  }

  /** Visiting one pending user: a stale one leaves the three maps, any other
      stays; a pending user still has its starting entries. */
  lemma SweepStep(r0: Registry, now: int, pending: set<UserId>, removed: set<UserId>, reg: Registry, u: UserId)
    requires SweepProgress(r0, now, pending, removed, reg) && u in pending
    ensures u !in removed && u in reg.connectionTimestamps
    ensures reg.connectionTimestamps[u] == r0.connectionTimestamps[u]
    ensures u in reg.userSocketMap <==> u in r0.userSocketMap
    ensures u in reg.userSocketMap ==> reg.userSocketMap[u] == r0.userSocketMap[u]
    ensures now - r0.connectionTimestamps[u] > StaleAfterMs ==>
              SweepProgress(r0, now, pending - {u}, removed + {u},
                            Registry(reg.userSocketMap - {u}, reg.connectionTimestamps - {u}, reg.messageCounters - {u}))
    ensures now - r0.connectionTimestamps[u] <= StaleAfterMs ==>
              SweepProgress(r0, now, pending - {u}, removed, reg)
  {
    if now - r0.connectionTimestamps[u] > StaleAfterMs {
      RemoveOneMore(r0.userSocketMap, removed, u);
      RemoveOneMore(r0.connectionTimestamps, removed, u);
      RemoveOneMore(r0.messageCounters, removed, u);
    }
  }

  /** `out` force-disconnects, once each, the sockets that the users in
      `removed` held in `sockets`; `evicted` names the user behind each entry. */
  ghost predicate EvictionLog(sockets: map<UserId, SocketId>, removed: set<UserId>,
                              evicted: seq<UserId>, out: seq<Emission>)
  {
    && |evicted| == |out|
    && (forall k :: 0 <= k < |out| ==>
          evicted[k] in removed && evicted[k] in sockets && out[k] == (sockets[evicted[k]], ForcedDisconnect))
    && (forall u :: u in removed && u in sockets ==> u in evicted)
    && (forall j, k :: 0 <= j < k < |out| ==> evicted[j] != evicted[k])
  }

  /** Evicting one more user extends the log by that user's socket, if any. */
  lemma EvictionLogGrows(sockets: map<UserId, SocketId>, removed: set<UserId>,
                         evicted: seq<UserId>, out: seq<Emission>, u: UserId)
    requires EvictionLog(sockets, removed, evicted, out) && u !in removed
    ensures u in sockets ==>
              EvictionLog(sockets, removed + {u}, evicted + [u], out + [(sockets[u], ForcedDisconnect)])
    ensures u !in sockets ==> EvictionLog(sockets, removed + {u}, evicted, out)
  {
  }

  lemma EvictionLogSockets(sockets: map<UserId, SocketId>, removed: set<UserId>,
                           evicted: seq<UserId>, out: seq<Emission>)
    requires Injective(sockets) && EvictionLog(sockets, removed, evicted, out)
    ensures forall k :: 0 <= k < |out| ==> out[k].1 == ForcedDisconnect
    ensures (set k | 0 <= k < |out| :: out[k].0) == set u | u in removed && u in sockets :: sockets[u]
    ensures forall j, k :: 0 <= j < k < |out| ==> out[j].0 != out[k].0
  {
    var closed := set u | u in removed && u in sockets :: sockets[u];
    var sent := set k | 0 <= k < |out| :: out[k].0;
    forall s | s in closed
      ensures s in sent
    {
      var u :| u in removed && u in sockets && sockets[u] == s;
      var k :| 0 <= k < |evicted| && evicted[k] == u;
      assert out[k].0 == s;
    }
  }

  /** When no user is pending, the sweep has produced Swept and closed, once
      each, exactly the sockets of the stale users. */
  lemma SweepDone(r0: Registry, now: int, removed: set<UserId>, reg: Registry,
                  evicted: seq<UserId>, out: seq<Emission>)
    requires ValidRegistry(r0) && SweepProgress(r0, now, {}, removed, reg)
    requires EvictionLog(r0.userSocketMap, removed, evicted, out)
    ensures reg == Swept(r0, now) && ValidRegistry(reg)
    ensures forall k :: 0 <= k < |out| ==> out[k].1 == ForcedDisconnect
    ensures (set k | 0 <= k < |out| :: out[k].0) == ClosedSockets(r0, now)
    ensures forall j, k :: 0 <= j < k < |out| ==> out[j].0 != out[k].0
  {
    assert removed == Stale(r0.connectionTimestamps, now);
    assert reg == Swept(r0, now) && ValidRegistry(reg) by {
      SweepKeepsRegistryValid(r0, now);
    }
    assert ClosedSockets(r0, now) == set u | u in removed && u in r0.userSocketMap :: r0.userSocketMap[u];
    EvictionLogSockets(r0.userSocketMap, removed, evicted, out);
  }

  // ---------------------------------------------------------------------------
  // The server state, updated in place
  // ---------------------------------------------------------------------------

  class SocketServer {
    var userSocketMap: map<UserId, SocketId>
    var connectionTimestamps: map<UserId, int>
    var messageCounters: map<UserId, Counter>
    /** Every message handed to the message store, in order. */
    ghost var created: seq<Message>

    function State(): Registry
      reads this
    {
      Registry(userSocketMap, connectionTimestamps, messageCounters)
    }

    ghost predicate Valid()
      reads this
    {
      ValidRegistry(State())
    }

    constructor ()
      ensures Valid()
      ensures State() == Registry(map[], map[], map[]) && created == []
    {
      userSocketMap, connectionTimestamps, messageCounters := map[], map[], map[];
      created := [];
    }

    /** checkRateLimit */
    method CheckRateLimit(userId: UserId, now: int) returns (allowed: bool)
      requires Valid()
      modifies this`messageCounters
      ensures Valid()
      ensures RateDecision(allowed, messageCounters) == RateLimit(old(messageCounters), userId, now)
    {
      var userCounter := if userId in messageCounters then messageCounters[userId] else Counter(0, now);
      if now - userCounter.timestamp > RateWindowMs {
        userCounter := Counter(1, now);
      } else if userCounter.count >= MessageRateLimit {
        return false;
      } else {
        userCounter := userCounter.(count := userCounter.count + 1);
      }
      messageCounters := messageCounters[userId := userCounter];
      return true;
    }

    /** The admission middleware (`io.use`). */
    method Admit(query: Option<string>, now: int) returns (admitted: bool)
      requires Valid()
      modifies this`connectionTimestamps
      ensures Valid()
      ensures admitted == Truthy(query)
      ensures admitted ==> Some(State()) == Admitted(old(State()), query, now)
      ensures !admitted ==> State() == old(State())
    {
      if !Truthy(query) {
        return false;
      }
      connectionTimestamps := connectionTimestamps[query.value := now];
      return true;
    }

    /** The `connection` handler (session takeover). */
    method Connect(query: Option<string>, socket: SocketId) returns (out: seq<Emission>)
      requires Valid()
      requires Truthy(query) ==> Owners(userSocketMap, socket) <= {query.value}
      modifies this`userSocketMap
      ensures Valid()
      ensures Transition(State(), out) == Connected(old(State()), query, socket)
    {
      ConnectKeepsRegistryValid(State(), query, socket);
      out := [];
      if Truthy(query) {
        var userId := query.value;
        if userId in userSocketMap && userSocketMap[userId] != socket {
          out := [(userSocketMap[userId], SessionExpired)];
        }
        userSocketMap := userSocketMap[userId := socket];
      }
    }

    /** The `disconnect` handler. */
    method Disconnect(socket: SocketId)
      requires Valid()
      modifies this`userSocketMap, this`connectionTimestamps, this`messageCounters
      ensures Valid()
      ensures State() == Disconnected(old(State()), socket)
    {
      if userId :| userId in userSocketMap && userSocketMap[userId] == socket {
        assert Owners(userSocketMap, socket) == {userId};
        userSocketMap := userSocketMap - {userId};
        connectionTimestamps := connectionTimestamps - {userId};
        messageCounters := messageCounters - {userId};
      } else {
        assert Owners(userSocketMap, socket) == {};
        assert userSocketMap - {} == userSocketMap;
        assert connectionTimestamps - {} == connectionTimestamps;
        assert messageCounters - {} == messageCounters;
      }
    }

    /** One run of the periodic stale sweep. The JavaScript visits users in
        insertion order; here the order of the forced disconnects is left open. */
    method Sweep(now: int) returns (out: seq<Emission>)
      requires Valid()
      modifies this`userSocketMap, this`connectionTimestamps, this`messageCounters
      ensures Valid()
      ensures State() == Swept(old(State()), now)
      ensures forall k :: 0 <= k < |out| ==> out[k].1 == ForcedDisconnect
      ensures (set k | 0 <= k < |out| :: out[k].0) == ClosedSockets(old(State()), now)
      ensures forall j, k :: 0 <= j < k < |out| ==> out[j].0 != out[k].0
    {
      ghost var r0 := State();
      var pending := connectionTimestamps.Keys;
      ghost var removed: set<UserId> := {};
      ghost var evicted: seq<UserId> := [];
      out := [];
      while pending != {}
        invariant SweepProgress(r0, now, pending, removed, State())
        invariant EvictionLog(r0.userSocketMap, removed, evicted, out)
        decreases pending
      {
        var userId :| userId in pending;
        SweepStep(r0, now, pending, removed, State(), userId);
        pending := pending - {userId};
        if now - connectionTimestamps[userId] > StaleAfterMs {
          EvictionLogGrows(r0.userSocketMap, removed, evicted, out, userId);
          if userId in userSocketMap {
            out := out + [(userSocketMap[userId], ForcedDisconnect)];
            evicted := evicted + [userId];
          }
          userSocketMap := userSocketMap - {userId};
          connectionTimestamps := connectionTimestamps - {userId};
          messageCounters := messageCounters - {userId};
          removed := removed + {userId};
        }
      }
      SweepDone(r0, now, removed, State(), evicted, out);
    }

    /** Emit `ev` to the socket of every listed user that is online, in list order. */
    method FanOutTo(users: seq<UserId>, ev: Event) returns (out: seq<Emission>)
      ensures out == FanOut(users, userSocketMap, ev)
    {
      out := [];
      for i := 0 to |users|
        invariant out == FanOut(users[..i], userSocketMap, ev)
      {
        assert users[..i + 1][..i] == users[..i];
        var socketId := if users[i] in userSocketMap then Some(userSocketMap[users[i]]) else None;
        if socketId.Some? {
          out := out + [(socketId.value, ev)];
        }
      }
      assert users[..|users|] == users;
    }

    /** sendMessage */
    method SendMessage(m: Message, socket: SocketId, now: int) returns (out: seq<Emission>)
      requires Valid()
      modifies this`messageCounters, this`created
      ensures Valid()
      ensures var d := DirectSend(old(State()), m, socket, now);
              State() == d.registry && created == old(created) + d.created && out == d.out
    {
      var allowed := CheckRateLimit(m.sender, now);
      if !allowed {
        return [(socket, RateLimitExceeded)];
      }
      var recipientSocketId := if m.recipient.Some? && m.recipient.value in userSocketMap
                               then Some(userSocketMap[m.recipient.value]) else None;
      var senderSocketId := if m.sender in userSocketMap then Some(userSocketMap[m.sender]) else None;
      created := created + [m];
      var ev := ReceiveMessage(m);
      out := [];
      if recipientSocketId.Some? {
        out := out + [(recipientSocketId.value, ev)];
      }
      if senderSocketId.Some? {
        out := out + [(senderSocketId.value, ev)];
      }
    }

    /** sendChannelMessage; `channel` is what the channel store returns for
        `cm.channelId` after the new message was appended to it. */
    method SendChannelMessage(cm: ChannelMessage, socket: SocketId, now: int, channel: Option<Channel>)
      returns (out: seq<Emission>)
      requires Valid()
      requires channel.Some? ==> channel.value.id == cm.channelId
      modifies this`messageCounters, this`created
      ensures Valid()
      ensures var d := ChannelSend(old(State()), cm, socket, now, channel);
              State() == d.registry && created == old(created) + d.created && out == d.out
    {
      var allowed := CheckRateLimit(cm.sender, now);
      if !allowed {
        return [(socket, RateLimitExceeded)];
      }
      var m := StoredChannelMessage(cm, now);
      created := created + [m];
      if channel.None? {
        return [(socket, HandlerError("sendChannelMessage"))];
      }
      var ch := channel.value;
      var ev := ReceiveChannelMessage(m, ch.id);
      out := FanOutTo(ch.members, ev);
      if ch.admin in userSocketMap {
        out := out + [(userSocketMap[ch.admin], ev)];
      }
    }

    /** addChannelNotify */
    method AddChannelNotify(channel: Option<Channel>) returns (out: seq<Emission>)
      ensures out == ChannelNotify(userSocketMap, channel)
    {
      if channel.None? {
        return [];
      }
      out := FanOutTo(channel.value.members, NewChannelAdded(channel.value));
    }

    /** The `ping` handler: answers the caller and refreshes nothing. */
    method Ping(socket: SocketId) returns (out: seq<Emission>)
      ensures out == [(socket, Pong)]
    {
      out := [(socket, Pong)];
    }
  }
}
