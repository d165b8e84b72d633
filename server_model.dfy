/** The development server's network simulator (class Server in server/Server.js)
    as a state machine on values: the connection type, the two listeners, the
    registry of open sockets, the per-socket state of each accepted connection
    and the log of calls made on listeners, sockets and timers. */
module ServerModel {
  import opened Wrappers

  /** An accepted external socket, by identity. */
  type SocketId = nat

  /** The names `setConnectionType` is called with. */
  datatype Mode = Perfect | Slow | LieFi | Offline

  /** One row of the `connectionProperties` table: the rate of both relay
      directions in bits per second, and the wait in milliseconds before the
      internal connection is opened. */
  datatype Profile = Profile(bps: nat, delay: nat)

  /** The `connectionProperties` table; `offline` has no row. */
  function ConnectionProperties(m: Mode): (p: Option<Profile>)
    ensures p.None? <==> m == Offline
    ensures p.Some? ==> p.value.bps > 0
    ensures p.Some? ==> (p.value.delay == 0 <==> m == Perfect)
  {
    match m
    case Perfect => Some(Profile(100000000, 0))
    case Slow => Some(Profile(4000, 3000))
    case LieFi => Some(Profile(1, 10000))
    case Offline => None
  }

  /** Each simulated condition is worse than the previous one: less bandwidth
      and a longer connection-setup delay. */
  lemma ProfilesDegrade()
    ensures ConnectionProperties(Perfect).value.bps > ConnectionProperties(Slow).value.bps
              > ConnectionProperties(LieFi).value.bps
    ensures ConnectionProperties(Perfect).value.delay < ConnectionProperties(Slow).value.delay
              < ConnectionProperties(LieFi).value.delay
  {
  }

  /** One end of a relay: the accepted socket, or the internal socket opened on its behalf. */
  datatype Endpoint = External(id: SocketId) | Internal(id: SocketId)

  /** A call made by the server on a listener, a socket or the timer API. */
  datatype Effect =
    | ListenExternal                                  // the exposed listener starts listening on the port
    | CloseExternal                                   // the exposed listener is closed
    | ClearStalePath                                  // a leftover app socket path is removed
    | BindApp                                         // the app server listens on its socket path
    | Destroy(id: SocketId)                           // an accepted socket is destroyed
    | ScheduleConnect(id: SocketId, delay: nat)       // the internal connection is scheduled after `delay` ms
    | ConnectApp(id: SocketId)                        // an internal socket is opened for `id`
    | Pipe(from: Endpoint, to: Endpoint, bps: nat)    // a pipe throttled to `bps` joins two ends
  {
    /** The effect concerns one accepted socket. */
    predicate OnSocket() {
      Destroy? || ScheduleConnect? || ConnectApp? || Pipe?
    }

    function Socket(): SocketId
      requires OnSocket()
    {
      if Pipe? then from.id else id
    }
  }

  /** What the closure of one accepted socket holds: the profile captured at
      accept time, the `closed` flag, whether the delayed `makeConnection` is
      still pending, and whether the internal socket was opened. */
  datatype Conn = Conn(profile: Profile, closed: bool, waiting: bool, connected: bool)

  datatype State = State(
    connectionType: Option<Mode>,   // None is the initial empty type
    serverUp: bool,
    appServerUp: bool,
    connections: seq<SocketId>,     // the registry, in acceptance order
    sockets: map<SocketId, Conn>,   // every socket ever accepted
    effects: seq<Effect>)           // every call made so far, in order

  /** Number of occurrences of `e` in `es`. */
  function Count(es: seq<Effect>, e: Effect): (n: nat)
    ensures n <= |es|
    ensures n == 0 <==> e !in es
  {
    if es == [] then 0 else (if es[0] == e then 1 else 0) + Count(es[1..], e)
  }

  lemma {:induction false} CountAppend(a: seq<Effect>, b: seq<Effect>, e: Effect)
    ensures Count(a + b, e) == Count(a, e) + Count(b, e)
  {
    if a == [] {
      assert a + b == b;
    } else {
      assert (a + b)[1..] == a[1..] + b;
      CountAppend(a[1..], b, e);
    }
  }

  predicate NoDuplicates(s: seq<SocketId>) {
    forall i, j :: 0 <= i < j < |s| ==> s[i] != s[j]
  }

  /** The external listener is up exactly while a mode other than offline is
      active; the app listener is up with it and, once up, has been bound
      exactly once. */
  predicate ListenersValid(s: State) {
    && (s.serverUp <==> s.connectionType.Some? && s.connectionType.value != Offline)
    && (s.serverUp ==> s.appServerUp)
    && Count(s.effects, BindApp) == (if s.appServerUp then 1 else 0)
  }

  /** The registry holds every accepted socket that has not emitted `close`,
      each once, and nothing else. */
  ghost predicate RegistryValid(s: State) {
    && NoDuplicates(s.connections)
    && (forall id :: id in s.connections <==> id in s.sockets && !s.sockets[id].closed)
  }

  /** A socket never both waits for its delay and has its internal socket; it
      has one exactly when one was opened for it; every call about a socket is
      about an accepted one, and every pipe is a relay direction of one socket,
      throttled to that socket's profile. */
  ghost predicate RelaysValid(s: State) {
    && (forall id :: id in s.sockets ==> !(s.sockets[id].waiting && s.sockets[id].connected))
    && (forall id :: id in s.sockets ==> (s.sockets[id].connected <==> ConnectApp(id) in s.effects))
    && (forall e :: e in s.effects && e.OnSocket() ==> e.Socket() in s.sockets)
    && (forall e :: e in s.effects && e.Pipe? ==>
          e.from.id == e.to.id && e.from.id in s.sockets && e.bps == s.sockets[e.from.id].profile.bps)
  }

  ghost predicate Valid(s: State) {
    ListenersValid(s) && RegistryValid(s) && RelaysValid(s)
  }

  /** The state the constructor leaves: no type, both listeners down, no sockets. */
  function Init(): (s: State)
    ensures Valid(s)
    ensures s.connectionType.None? && !s.serverUp && !s.appServerUp
    ensures s.connections == [] && s.sockets == map[] && s.effects == []
  {
    State(None, false, false, [], map[], [])
  }

  /** The calls made after `s` up to `r`. */
  function Added(s: State, r: State): seq<Effect>
    requires |s.effects| <= |r.effects|
  {
    r.effects[|s.effects|..]
  }

  /** Calls that open no internal socket and no pipe, bind nothing, and concern
      only accepted sockets keep the relay invariant and the bind count. */
  lemma NeutralEffectsKeepValid(s: State, extra: seq<Effect>)
    requires RelaysValid(s)
    requires forall e :: e in extra ==>
      !e.ConnectApp? && !e.Pipe? && e != BindApp && (e.OnSocket() ==> e.Socket() in s.sockets)
    ensures RelaysValid(s.(effects := s.effects + extra))
    ensures Count(s.effects + extra, BindApp) == Count(s.effects, BindApp)
  {
    NeutralEffectsKeepRelays(s, extra);
    CountAppend(s.effects, extra, BindApp);
    assert BindApp !in extra;
  }

  lemma NeutralEffectsKeepRelays(s: State, extra: seq<Effect>)
    requires RelaysValid(s)
    requires forall e :: e in extra ==>
      !e.ConnectApp? && !e.Pipe? && (e.OnSocket() ==> e.Socket() in s.sockets)
    ensures RelaysValid(s.(effects := s.effects + extra))
  {
    var r := s.(effects := s.effects + extra);
    forall e | e in r.effects && e.OnSocket() ensures e.Socket() in r.sockets {
      if e !in extra {
        assert e in s.effects;
      }
    }
  }

  /** The relay invariant speaks only of the sockets and the call log. */
  lemma RelaysValidFrame(a: State, b: State)
    requires RelaysValid(a) && a.sockets == b.sockets && a.effects == b.effects
    ensures RelaysValid(b)
  {
  }

  /** `_destroyConnections`: one destroy per registered socket, in registry order. */
  function DestroyAll(ids: seq<SocketId>): (r: seq<Effect>)
    ensures |r| == |ids|
    ensures forall i :: 0 <= i < |ids| ==> r[i] == Destroy(ids[i])
  {
    if ids == [] then [] else DestroyAll(ids[..|ids| - 1]) + [Destroy(ids[|ids| - 1])]
  }

  /** The calls `_listen` makes: the exposed listener always, the stale path
      removal and the app server bind only when the app server is still down. */
  function ListenEffects(appServerUp: bool): seq<Effect> {
    [ListenExternal] + (if appServerUp then [] else [ClearStalePath, BindApp])
  }

  /** `_listen`. */
  function Listen(s: State): (r: State)
    ensures r.serverUp && r.appServerUp
    ensures r.effects == s.effects + ListenEffects(s.appServerUp)
    ensures r.connectionType == s.connectionType && r.connections == s.connections && r.sockets == s.sockets
  {
    var up := s.(serverUp := true, effects := s.effects + [ListenExternal]);
    if up.appServerUp then up
    else up.(appServerUp := true, effects := up.effects + [ClearStalePath, BindApp])
  }

  lemma ListenEffectsCounts(appServerUp: bool)
    ensures Count(ListenEffects(appServerUp), ListenExternal) == 1
    ensures Count(ListenEffects(appServerUp), CloseExternal) == 0
    ensures Count(ListenEffects(appServerUp), BindApp) == if appServerUp then 0 else 1
  {
    var t := if appServerUp then [] else [ClearStalePath, BindApp];
    assert ListenEffects(appServerUp) == [ListenExternal] + t;
    CountAppend([ListenExternal], t, ListenExternal);
    CountAppend([ListenExternal], t, CloseExternal);
    CountAppend([ListenExternal], t, BindApp);
    if !appServerUp {
      CountAppend([ClearStalePath], [BindApp], BindApp);
    }
  }

  /** `setConnectionType`: the same type again changes nothing; any other type
      is recorded and every registered socket is destroyed (the registry itself
      shrinks only as their `close` events arrive); then for offline the
      exposed listener is closed if it was up, and for any other mode it is
      started if it was down. */
  function SetConnectionType(s: State, m: Mode): (r: State)
    requires ListenersValid(s)
    ensures s.connectionType == Some(m) ==> r == s
    ensures s.connectionType != Some(m) ==>
      && r.connectionType == Some(m)
      && r.connections == s.connections && r.sockets == s.sockets
    ensures m == Offline ==> !r.serverUp && r.appServerUp == s.appServerUp
    ensures m == Offline && s.connectionType != Some(m) ==>
      r.effects == s.effects + DestroyAll(s.connections) + (if s.serverUp then [CloseExternal] else [])
    ensures m != Offline ==> r.serverUp && r.appServerUp
    ensures m != Offline && s.connectionType != Some(m) ==>
      r.effects == s.effects + DestroyAll(s.connections) + (if s.serverUp then [] else ListenEffects(s.appServerUp))
  {
    if s.connectionType == Some(m) then s
    else
      var t := s.(connectionType := Some(m), effects := s.effects + DestroyAll(s.connections));
      if m == Offline then
        if !t.serverUp then t else t.(serverUp := false, effects := t.effects + [CloseExternal])
      else if !t.serverUp then Listen(t)
      else t
  }

  /** The calls a mode switch makes after destroying the registered sockets. */
  function SwitchTail(s: State, m: Mode): seq<Effect> {
    if m == Offline then (if s.serverUp then [CloseExternal] else [])
    else (if s.serverUp then [] else ListenEffects(s.appServerUp))
  }

  lemma SwitchEffects(s: State, m: Mode)
    requires ListenersValid(s) && s.connectionType != Some(m)
    ensures SetConnectionType(s, m).effects == s.effects + (DestroyAll(s.connections) + SwitchTail(s, m))
  {
    assert s.effects + DestroyAll(s.connections) + SwitchTail(s, m)
        == s.effects + (DestroyAll(s.connections) + SwitchTail(s, m));
  }

  lemma SwitchKeepsRelays(s: State, m: Mode)
    requires ListenersValid(s) && RelaysValid(s)
    requires forall id :: id in s.connections ==> id in s.sockets
    ensures RelaysValid(SetConnectionType(s, m))
  {
    if s.connectionType != Some(m) {
      var d := DestroyAll(s.connections);
      var tail := SwitchTail(s, m);
      SwitchEffects(s, m);
      DestroyAllNeutral(s.connections, s.sockets);
      assert forall e :: e in tail ==> !e.OnSocket();
      NeutralEffectsKeepRelays(s, d + tail);
      RelaysValidFrame(s.(effects := s.effects + (d + tail)), SetConnectionType(s, m));
    }
  }

  /** Destroying registered sockets opens nothing and concerns only accepted sockets. */
  lemma DestroyAllNeutral(ids: seq<SocketId>, sockets: map<SocketId, Conn>)
    requires forall id :: id in ids ==> id in sockets
    ensures forall e :: e in DestroyAll(ids) ==> e.Destroy? && e.id in sockets
  {
    var d := DestroyAll(ids);
    forall e | e in d ensures e.Destroy? && e.id in sockets {
      var i :| 0 <= i < |d| && d[i] == e;
      assert ids[i] in ids;
    }
  }

  /** The listener invariant carries over a step that appends `added`, when
      `added` binds the app server exactly if the step brought it up. */
  lemma ListenersAfter(s: State, r: State, added: seq<Effect>)
    requires ListenersValid(s)
    requires r.effects == s.effects + added
    requires s.appServerUp ==> r.appServerUp
    requires Count(added, BindApp) == (if r.appServerUp && !s.appServerUp then 1 else 0)
    requires r.serverUp <==> r.connectionType.Some? && r.connectionType.value != Offline
    requires r.serverUp ==> r.appServerUp
    ensures ListenersValid(r)
  {
    CountAppend(s.effects, added, BindApp);
  }

  lemma SwitchKeepsListeners(s: State, m: Mode)
    requires ListenersValid(s)
    ensures ListenersValid(SetConnectionType(s, m))
  {
    var r := SetConnectionType(s, m);
    if s.connectionType != Some(m) {
      var d := DestroyAll(s.connections);
      var tail := SwitchTail(s, m);
      SwitchEffects(s, m);
      DestroysOnly(d, tail, BindApp);
      ListenEffectsCounts(s.appServerUp);
      ListenersAfter(s, r, d + tail);
    }
  }

  lemma SetConnectionTypeKeepsValid(s: State, m: Mode)
    requires Valid(s)
    ensures Valid(SetConnectionType(s, m))
  {
    SwitchKeepsListeners(s, m);
    SwitchKeepsRelays(s, m);
  }

  /** What a mode switch does to the listeners, as counts of calls: the
      exposed listener is closed once when going offline while it is up and
      started once when leaving offline (or the initial state) while it is
      down; the app server is bound only on the first start; every registered
      socket is destroyed first. */
  lemma {:induction false} SetConnectionTypeListenerCalls(s: State, m: Mode)
    requires ListenersValid(s)
    ensures var r := SetConnectionType(s, m);
      && s.effects <= r.effects
      && Count(Added(s, r), CloseExternal) == (if m == Offline && s.serverUp then 1 else 0)
      && Count(Added(s, r), ListenExternal) == (if m != Offline && !s.serverUp then 1 else 0)
      && Count(Added(s, r), BindApp) == (if m != Offline && !s.appServerUp then 1 else 0)
      && (s.connectionType != Some(m) ==> Added(s, r)[..|s.connections|] == DestroyAll(s.connections))
  {
    var r := SetConnectionType(s, m);
    if s.connectionType == Some(m) {
      assert Added(s, r) == [];
    } else {
      var d := DestroyAll(s.connections);
      var tail := SwitchTail(s, m);
      SwitchEffects(s, m);
      assert Added(s, r) == d + tail;
      assert (d + tail)[..|s.connections|] == d;
      SwitchCounts(s, m);
    }
  }

  lemma SwitchCounts(s: State, m: Mode)
    requires ListenersValid(s)
    ensures var added := DestroyAll(s.connections) + SwitchTail(s, m);
      && Count(added, CloseExternal) == (if m == Offline && s.serverUp then 1 else 0)
      && Count(added, ListenExternal) == (if m != Offline && !s.serverUp then 1 else 0)
      && Count(added, BindApp) == (if m != Offline && !s.appServerUp then 1 else 0)
  {
    var d := DestroyAll(s.connections);
    var tail := SwitchTail(s, m);
    DestroysOnly(d, tail, CloseExternal);
    DestroysOnly(d, tail, ListenExternal);
    DestroysOnly(d, tail, BindApp);
    ListenEffectsCounts(s.appServerUp);
  }

  lemma DestroysOnly(d: seq<Effect>, tail: seq<Effect>, e: Effect)
    requires forall x :: x in d ==> x.Destroy?
    requires !e.Destroy?
    ensures Count(d + tail, e) == Count(tail, e)
  {
    CountAppend(d, tail, e);
  }

  /** The two relay directions `makeConnection` wires for socket `id`, preceded
      by the opening of its internal socket; both run at the same rate. */
  function Relay(id: SocketId, bps: nat): seq<Effect> {
    [ConnectApp(id), Pipe(External(id), Internal(id), bps), Pipe(Internal(id), External(id), bps)]
  }

  /** `makeConnection` for socket `id`: nothing once the socket has closed. */
  function MakeConnection(s: State, id: SocketId): (r: State)
    requires id in s.sockets
    ensures s.sockets[id].closed ==> r == s
    ensures !s.sockets[id].closed ==>
      && r.sockets == s.sockets[id := s.sockets[id].(connected := true)]
      && r.effects == s.effects + Relay(id, s.sockets[id].profile.bps)
      && r.connections == s.connections && r.connectionType == s.connectionType
      && r.serverUp == s.serverUp && r.appServerUp == s.appServerUp
  {
    var c := s.sockets[id];
    if c.closed then s
    else s.(sockets := s.sockets[id := c.(connected := true)], effects := s.effects + Relay(id, c.profile.bps))
  }

  /** `_onServerConnection`: the socket is appended to the registry with the
      profile of the current type; with no delay its relay is wired at once,
      otherwise a timer is set for the profile's delay. */
  function OnServerConnection(s: State, id: SocketId): (r: State)
    requires Valid(s) && s.serverUp && id !in s.sockets
    ensures r.connections == s.connections + [id]
    ensures r.sockets.Keys == s.sockets.Keys + {id}
    ensures forall x :: x in s.sockets ==> r.sockets[x] == s.sockets[x]
    ensures r.sockets[id].profile == ConnectionProperties(s.connectionType.value).value
    ensures !r.sockets[id].closed
    ensures r.sockets[id].profile.delay == 0 ==>
      && r.sockets[id].connected && !r.sockets[id].waiting
      && r.effects == s.effects + Relay(id, r.sockets[id].profile.bps)
    ensures r.sockets[id].profile.delay != 0 ==>
      && !r.sockets[id].connected && r.sockets[id].waiting
      && r.effects == s.effects + [ScheduleConnect(id, r.sockets[id].profile.delay)]
    ensures r.connectionType == s.connectionType && r.serverUp == s.serverUp && r.appServerUp == s.appServerUp
  {
    var profile := ConnectionProperties(s.connectionType.value).value;
    var t := s.(connections := s.connections + [id], sockets := s.sockets[id := Conn(profile, false, false, false)]);
    if profile.delay != 0 then
      t.(sockets := t.sockets[id := t.sockets[id].(waiting := true)],
         effects := t.effects + [ScheduleConnect(id, profile.delay)])
    else
      MakeConnection(t, id)
  }

  /** A socket's relay wired when it has none keeps the invariant. */
  lemma MakeConnectionKeepsValid(s: State, id: SocketId)
    requires RelaysValid(s) && id in s.sockets && !s.sockets[id].waiting && !s.sockets[id].connected
    ensures RelaysValid(MakeConnection(s, id))
    ensures Count(MakeConnection(s, id).effects, BindApp) == Count(s.effects, BindApp)
  {
    var c := s.sockets[id];
    if !c.closed {
      var extra := Relay(id, c.profile.bps);
      CountAppend(s.effects, extra, BindApp);
      assert BindApp !in extra;
      RelayKeepsOpened(s, id);
      RelayKeepsPipes(s, id);
    }
  }

  lemma RelayKeepsOpened(s: State, id: SocketId)
    requires RelaysValid(s) && id in s.sockets && !s.sockets[id].closed && !s.sockets[id].waiting
    ensures var r := MakeConnection(s, id);
      forall x :: x in r.sockets ==> (r.sockets[x].connected <==> ConnectApp(x) in r.effects)
  {
    var r := MakeConnection(s, id);
    var extra := Relay(id, s.sockets[id].profile.bps);
    assert ConnectApp(id) in r.effects;
    forall x | x in r.sockets
      ensures r.sockets[x].connected <==> ConnectApp(x) in r.effects
    {
      if x != id {
        assert ConnectApp(x) !in extra;
      }
    }
  }

  lemma RelayKeepsPipes(s: State, id: SocketId)
    requires RelaysValid(s) && id in s.sockets && !s.sockets[id].closed
    ensures var r := MakeConnection(s, id);
      && (forall e :: e in r.effects && e.OnSocket() ==> e.Socket() in r.sockets)
      && (forall e :: e in r.effects && e.Pipe? ==>
            e.from.id == e.to.id && e.from.id in r.sockets && e.bps == r.sockets[e.from.id].profile.bps)
  {
    var r := MakeConnection(s, id);
    var extra := Relay(id, s.sockets[id].profile.bps);
    forall e | e in r.effects && e.Pipe?
      ensures e.from.id == e.to.id && e.from.id in r.sockets && e.bps == r.sockets[e.from.id].profile.bps
    {
      if e in extra {
        assert e.from.id == id;
      } else {
        assert e in s.effects;
      }
    }
  }

  /** A newly accepted socket has never been the subject of a call. */
  lemma FreshSocketUntouched(s: State, id: SocketId)
    requires RelaysValid(s) && id !in s.sockets
    ensures ConnectApp(id) !in s.effects
  {
    if ConnectApp(id) in s.effects {
      assert ConnectApp(id).OnSocket();
    }
  }

  lemma OnServerConnectionKeepsValid(s: State, id: SocketId)
    requires Valid(s) && s.serverUp && id !in s.sockets
    ensures Valid(OnServerConnection(s, id))
  {
    var profile := ConnectionProperties(s.connectionType.value).value;
    var t := s.(connections := s.connections + [id], sockets := s.sockets[id := Conn(profile, false, false, false)]);
    RegisterKeepsValid(s, id, profile);
    if profile.delay != 0 {
      WaitKeepsValid(t, id, profile.delay);
    } else {
      MakeConnectionKeepsValid(t, id);
    }
  }

  /** Registering a new socket, not yet connected, keeps the invariant. */
  lemma RegisterKeepsValid(s: State, id: SocketId, profile: Profile)
    requires Valid(s) && id !in s.sockets
    ensures Valid(s.(connections := s.connections + [id], sockets := s.sockets[id := Conn(profile, false, false, false)]))
  {
    var t := s.(connections := s.connections + [id], sockets := s.sockets[id := Conn(profile, false, false, false)]);
    FreshSocketUntouched(s, id);
    assert RegistryValid(t) by {
      assert id !in s.connections;
    }
    assert RelaysValid(t) by {
      forall x | x in t.sockets
        ensures t.sockets[x].connected <==> ConnectApp(x) in t.effects
      {
        if x != id {
          assert t.sockets[x] == s.sockets[x];
        }
      }
    }
  }

  /** Setting the delay timer of a socket with no internal connection keeps
      the invariant. */
  lemma WaitKeepsValid(t: State, id: SocketId, delay: nat)
    requires Valid(t) && id in t.sockets && !t.sockets[id].connected
    ensures Valid(t.(sockets := t.sockets[id := t.sockets[id].(waiting := true)],
                     effects := t.effects + [ScheduleConnect(id, delay)]))
  {
    var w := t.(sockets := t.sockets[id := t.sockets[id].(waiting := true)]);
    assert RelaysValid(w) by {
      assert forall x :: x in w.sockets && x != id ==> w.sockets[x] == t.sockets[x];
    }
    assert RegistryValid(w) by {
      assert forall x :: x in w.sockets && x != id ==> w.sockets[x] == t.sockets[x];
    }
    NeutralEffectsKeepValid(w, [ScheduleConnect(id, delay)]);
  }

  /** The timer set by `_onServerConnection` expires: `makeConnection` runs
      with the profile captured at accept time, and does nothing if the socket
      closed in the meantime. */
  function OnDelayElapsed(s: State, id: SocketId): (r: State)
    requires Valid(s) && id in s.sockets && s.sockets[id].waiting
    ensures r.sockets.Keys == s.sockets.Keys
    ensures forall x :: x in s.sockets && x != id ==> r.sockets[x] == s.sockets[x]
    ensures !r.sockets[id].waiting && r.sockets[id].profile == s.sockets[id].profile
    ensures r.sockets[id].closed == s.sockets[id].closed
    ensures s.sockets[id].closed ==> !r.sockets[id].connected && r.effects == s.effects
    ensures !s.sockets[id].closed ==>
      r.sockets[id].connected && r.effects == s.effects + Relay(id, s.sockets[id].profile.bps)
    ensures r.connections == s.connections && r.connectionType == s.connectionType
    ensures r.serverUp == s.serverUp && r.appServerUp == s.appServerUp
  {
    MakeConnection(s.(sockets := s.sockets[id := s.sockets[id].(waiting := false)]), id)
  }

  lemma OnDelayElapsedKeepsValid(s: State, id: SocketId)
    requires Valid(s) && id in s.sockets && s.sockets[id].waiting
    ensures Valid(OnDelayElapsed(s, id))
  {
    var t := s.(sockets := s.sockets[id := s.sockets[id].(waiting := false)]);
    assert forall x :: x in t.sockets && x != id ==> t.sockets[x] == s.sockets[x];
    assert RegistryValid(t);
    assert RelaysValid(t);
    MakeConnectionKeepsValid(t, id);
  }

  /** `Array.prototype.indexOf` on the registry: -1 when absent. */
  function IndexOf(s: seq<SocketId>, x: SocketId): (i: int)
    ensures -1 <= i < |s|
    ensures i == -1 <==> x !in s
    ensures 0 <= i ==> s[i] == x && x !in s[..i]
  {
    if s == [] then -1
    else if s[0] == x then 0
    else
      var j := IndexOf(s[1..], x);
      if j == -1 then -1
      else
        assert s[..j + 1] == [s[0]] + s[1..][..j];
        j + 1
  }

  /** `Array.prototype.splice(start, 1)`: a negative start counts from the
      end, a start past the end removes nothing. */
  function SpliceOne(s: seq<SocketId>, start: int): (r: seq<SocketId>)
    ensures |r| == if -|s| <= start < |s| then |s| - 1 else if start < -|s| && s != [] then |s| - 1 else |s|
    ensures SpliceStart(|s|, start) < |s| ==>
      && (forall i :: 0 <= i < SpliceStart(|s|, start) ==> r[i] == s[i])
      && (forall i :: SpliceStart(|s|, start) <= i < |r| ==> r[i] == s[i + 1])
    ensures SpliceStart(|s|, start) >= |s| ==> r == s
  {
    var k := SpliceStart(|s|, start);
    if k < |s| then s[..k] + s[k + 1..] else s
  }

  /** The position `splice` starts at in an array of length `len`: a negative
      start counts from the end and is clamped at the front. */
  function SpliceStart(len: nat, start: int): (k: nat)
    ensures start < 0 ==> k == if len + start < 0 then 0 else len + start
    ensures start >= 0 ==> k == start
  {
    if start < 0 then (if len + start < 0 then 0 else len + start) else start
  }

  /** `s` with every occurrence of `x` dropped, the rest in order. */
  function Without(s: seq<SocketId>, x: SocketId): (r: seq<SocketId>)
    ensures forall y :: y in r <==> y in s && y != x
    ensures |r| <= |s|
  {
    if s == [] then [] else (if s[0] == x then [] else [s[0]]) + Without(s[1..], x)
  }

  /** Removing a registered socket by `splice(indexOf(socket), 1)` drops exactly
      that one entry and keeps the others in order, provided it is registered
      once. */
  lemma {:induction false} SpliceIndexOfIsWithout(s: seq<SocketId>, x: SocketId)
    requires NoDuplicates(s) && x in s
    ensures SpliceOne(s, IndexOf(s, x)) == Without(s, x)
    ensures |Without(s, x)| == |s| - 1
  {
    if s[0] == x {
      assert x !in s[1..];
      WithoutAbsent(s[1..], x);
      assert s[..0] + s[1..] == s[1..];
    } else {
      assert NoDuplicates(s[1..]);
      SpliceIndexOfIsWithout(s[1..], x);
      var j := IndexOf(s[1..], x);
      assert IndexOf(s, x) == j + 1;
      SpliceCons(s, j);
    }
  }

  lemma SpliceCons(s: seq<SocketId>, j: int)
    requires 0 <= j < |s| - 1
    ensures SpliceOne(s, j + 1) == [s[0]] + SpliceOne(s[1..], j)
  {
    assert s[..j + 1] + s[j + 2..] == [s[0]] + (s[1..][..j] + s[1..][j + 1..]);
  }

  lemma {:induction false} WithoutAbsent(s: seq<SocketId>, x: SocketId)
    requires x !in s
    ensures Without(s, x) == s
  {
    if s != [] {
      WithoutAbsent(s[1..], x);
    }
  }

  /** Why registration once matters: `splice(indexOf(socket), 1)` on a socket
      that is not registered removes the last entry instead. */
  lemma SpliceUnregisteredDropsLast(s: seq<SocketId>, x: SocketId)
    requires x !in s && s != []
    ensures SpliceOne(s, IndexOf(s, x)) == s[..|s| - 1]
  {
  }

  lemma {:induction false} NoDuplicatesWithout(s: seq<SocketId>, x: SocketId)
    requires NoDuplicates(s)
    ensures NoDuplicates(Without(s, x))
  {
    if s != [] {
      assert NoDuplicates(s[1..]);
      NoDuplicatesWithout(s[1..], x);
      var w := Without(s[1..], x);
      if s[0] != x {
        assert s[0] !in s[1..];
        assert forall j :: 0 <= j < |w| ==> ([s[0]] + w)[j + 1] == w[j];
      }
    }
  }

  /** The socket's `close` handler: its `closed` flag is set and it is removed
      from the registry; nothing else changes. */
  function OnClose(s: State, id: SocketId): (r: State)
    requires Valid(s) && id in s.sockets && !s.sockets[id].closed
    ensures r.connections == Without(s.connections, id)
    ensures |r.connections| == |s.connections| - 1 && id !in r.connections
    ensures r.sockets == s.sockets[id := s.sockets[id].(closed := true)]
    ensures r.effects == s.effects && r.connectionType == s.connectionType
    ensures r.serverUp == s.serverUp && r.appServerUp == s.appServerUp
  {
    SpliceIndexOfIsWithout(s.connections, id);
    s.(sockets := s.sockets[id := s.sockets[id].(closed := true)],
       connections := SpliceOne(s.connections, IndexOf(s.connections, id)))
  }

  lemma OnCloseKeepsValid(s: State, id: SocketId)
    requires Valid(s) && id in s.sockets && !s.sockets[id].closed
    ensures Valid(OnClose(s, id))
  {
    NoDuplicatesWithout(s.connections, id);
  }

  /** The events that drive the server: a mode switch from the operator, a
      connection on the exposed listener, a socket's `close` event, and the
      expiry of a connection's delay timer. */
  datatype Event = SetType(mode: Mode) | Connection(id: SocketId) | Closed(id: SocketId) | DelayElapsed(id: SocketId)

  /** When the environment can deliver an event: connections arrive only while
      the exposed listener is up and are new sockets; a socket closes once; a
      timer expires only while it is pending. */
  predicate Enabled(s: State, e: Event) {
    match e
    case SetType(_) => true
    case Connection(id) => s.serverUp && id !in s.sockets
    case Closed(id) => id in s.sockets && !s.sockets[id].closed
    case DelayElapsed(id) => id in s.sockets && s.sockets[id].waiting
  }

  /** What every step keeps: the call log only grows, accepted sockets keep
      their profile, closed sockets stay closed and a closed socket never gets
      an internal connection, and the app server stays up. */
  ghost predicate Keeps(s: State, r: State) {
    && s.effects <= r.effects
    && (s.appServerUp ==> r.appServerUp)
    && (forall id :: id in s.sockets ==> id in r.sockets && r.sockets[id].profile == s.sockets[id].profile)
    && (forall id :: id in s.sockets && s.sockets[id].closed ==>
          r.sockets[id].closed && r.sockets[id].connected == s.sockets[id].connected)
  }

  lemma SetConnectionTypeKeeps(s: State, m: Mode)
    requires ListenersValid(s)
    ensures Keeps(s, SetConnectionType(s, m))
  {
    if s.connectionType != Some(m) {
      SwitchEffects(s, m);
    }
  }

  lemma OnServerConnectionKeeps(s: State, id: SocketId)
    requires Valid(s) && s.serverUp && id !in s.sockets
    ensures Keeps(s, OnServerConnection(s, id))
  {
  }

  lemma OnCloseKeeps(s: State, id: SocketId)
    requires Valid(s) && id in s.sockets && !s.sockets[id].closed
    ensures Keeps(s, OnClose(s, id))
  {
  }

  lemma OnDelayElapsedKeeps(s: State, id: SocketId)
    requires Valid(s) && id in s.sockets && s.sockets[id].waiting
    ensures Keeps(s, OnDelayElapsed(s, id))
  {
  }

  function Step(s: State, e: Event): (r: State)
    requires Valid(s) && Enabled(s, e)
    ensures Valid(r) && Keeps(s, r)
  {
    match e
    case SetType(m) =>
      SetConnectionTypeKeepsValid(s, m); SetConnectionTypeKeeps(s, m); SetConnectionType(s, m)
    case Connection(id) =>
      OnServerConnectionKeepsValid(s, id); OnServerConnectionKeeps(s, id); OnServerConnection(s, id)
    case Closed(id) =>
      OnCloseKeepsValid(s, id); OnCloseKeeps(s, id); OnClose(s, id)
    case DelayElapsed(id) =>
      OnDelayElapsedKeepsValid(s, id); OnDelayElapsedKeeps(s, id); OnDelayElapsed(s, id)
  }

  /** The environment delivers every event of `es` in turn. */
  predicate Admissible(s: State, es: seq<Event>)
    requires Valid(s)
    decreases |es|
  {
    es == [] || (Enabled(s, es[0]) && Admissible(Step(s, es[0]), es[1..]))
  }

  function Run(s: State, es: seq<Event>): (r: State)
    requires Valid(s) && Admissible(s, es)
    ensures Valid(r)
    decreases |es|
  {
    if es == [] then s else Run(Step(s, es[0]), es[1..])
  }

  /** Whatever happens, the app server is bound at most once over the life of
      the server, and once up it stays up. */
  lemma {:induction false} AppServerBoundOnce(s: State, es: seq<Event>)
    requires Valid(s) && Admissible(s, es)
    ensures Count(Run(s, es).effects, BindApp) <= 1
    ensures s.appServerUp ==> Run(s, es).appServerUp && Count(Run(s, es).effects, BindApp) == Count(s.effects, BindApp)
    decreases |es|
  {
    if es != [] {
      AppServerBoundOnce(Step(s, es[0]), es[1..]);
    }
  }

  /** A socket that closed before its internal connection was opened never
      gets one, whatever happens afterwards. */
  lemma {:induction false} NoConnectAfterClose(s: State, es: seq<Event>, id: SocketId)
    requires Valid(s) && Admissible(s, es)
    requires id in s.sockets && s.sockets[id].closed && !s.sockets[id].connected
    ensures id in Run(s, es).sockets && !Run(s, es).sockets[id].connected
    ensures ConnectApp(id) !in Run(s, es).effects
    decreases |es|
  {
    if es != [] {
      NoConnectAfterClose(Step(s, es[0]), es[1..], id);
    }
  }

  /** A socket keeps the profile captured when it was accepted, whatever mode
      switches follow, and every pipe opened for it runs at that profile's rate. */
  lemma {:induction false} ProfileCapturedAtAccept(s: State, es: seq<Event>, id: SocketId)
    requires Valid(s) && Admissible(s, es) && id in s.sockets
    ensures id in Run(s, es).sockets && Run(s, es).sockets[id].profile == s.sockets[id].profile
    ensures forall e :: e in Run(s, es).effects && e.Pipe? && e.from.id == id ==> e.bps == s.sockets[id].profile.bps
    decreases |es|
  {
    if es != [] {
      ProfileCapturedAtAccept(Step(s, es[0]), es[1..], id);
    }
  }

  /** From any reachable state, going offline and then to `perfect` leaves the
      exposed listener up, so new connections are accepted again, and the app
      server bound exactly once: by this switch if it was never up, and never
      a second time otherwise. */
  lemma OfflineThenPerfect(s: State)
    requires Valid(s)
    ensures var r := Step(Step(s, SetType(Offline)), SetType(Perfect));
      r.serverUp && Count(r.effects, BindApp) == 1
  {
  }
}
