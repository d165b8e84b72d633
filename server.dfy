/** Class Server of server/Server.js with the fields its handlers update in
    place. Each handler is proved to leave the object in the state the
    corresponding function of ServerModel computes from the old state. */
module Server {
  import opened Wrappers
  import opened ServerModel

  class Server {
    const port: int
    var connectionType: Option<Mode>
    var serverUp: bool
    var appServerUp: bool
    var connections: seq<SocketId>
    /** The closure state of each accepted socket. */
    var sockets: map<SocketId, Conn>
    /** The calls made on the listeners, the sockets and the timer API. */
    var effects: seq<Effect>

    ghost function Model(): State
      reads this
    {
      State(connectionType, serverUp, appServerUp, connections, sockets, effects)
    }

    ghost predicate Valid()
      reads this
    {
      ServerModel.Valid(Model())
    }

    constructor (port: int)
      ensures Valid() && Model() == Init() && this.port == port
    {
      this.port := port;
      serverUp := false;
      appServerUp := false;
      connectionType := None;
      connections := [];
      sockets := map[];
      effects := [];
    }

    method SetConnectionType(m: Mode)
      requires Valid()
      modifies this
      ensures Valid() && Model() == ServerModel.SetConnectionType(old(Model()), m)
    {
      ghost var s0 := Model();
      if connectionType != Some(m) {
        connectionType := Some(m);
        DestroyConnections();
        assert Model() == s0.(connectionType := Some(m), effects := s0.effects + DestroyAll(s0.connections));
        if m == Offline {
          if serverUp {
            effects := effects + [CloseExternal];
            serverUp := false;
          }
        } else if !serverUp {
          Listen();
        }
      }
      SetConnectionTypeKeepsValid(s0, m);
    }

    /** `_listen`: start the exposed listener and, the first time only, remove
        a stale socket path and bind the app server. */
    method Listen()
      modifies this
      ensures Model() == ServerModel.Listen(old(Model()))
    {
      serverUp := true;
      effects := effects + [ListenExternal];
      if !appServerUp {
        effects := effects + [ClearStalePath];
        effects := effects + [BindApp];
        appServerUp := true;
      }
    }

    /** `_destroyConnections`: destroy every registered socket, in order. */
    method DestroyConnections()
      modifies this`effects
      ensures effects == old(effects) + DestroyAll(connections)
    {
      for i := 0 to |connections|
        invariant effects == old(effects) + DestroyAll(connections[..i])
      {
        assert connections[..i + 1][..i] == connections[..i];
        effects := effects + [Destroy(connections[i])];
      }
      assert connections[..|connections|] == connections;
    }

    /** `_onServerConnection`, for a new socket `id` arriving on the exposed
        listener. */
    method OnServerConnection(id: SocketId)
      requires Valid() && serverUp && id !in sockets
      modifies this
      ensures Valid() && Model() == ServerModel.OnServerConnection(old(Model()), id)
    {
      OnServerConnectionKeepsValid(Model(), id);
      var connection := ConnectionProperties(connectionType.value).value;
      connections := connections + [id];
      sockets := sockets[id := Conn(connection, false, false, false)];
      if connection.delay != 0 {
        sockets := sockets[id := sockets[id].(waiting := true)];
        effects := effects + [ScheduleConnect(id, connection.delay)];
        return;
      }
      MakeConnection(id);
    }

    /** `makeConnection`: unless the socket has closed, open its internal
        socket and pipe both directions at the captured rate. */
    method MakeConnection(id: SocketId)
      requires id in sockets
      modifies this
      ensures Model() == ServerModel.MakeConnection(old(Model()), id)
    {
      if sockets[id].closed {
        return;
      }
      var bps := sockets[id].profile.bps;
      effects := effects + [ConnectApp(id)];
      effects := effects + [Pipe(External(id), Internal(id), bps)];
      effects := effects + [Pipe(Internal(id), External(id), bps)];
      sockets := sockets[id := sockets[id].(connected := true)];
    }

    /** The delay timer of socket `id` expires. */
    method OnDelayElapsed(id: SocketId)
      requires Valid() && id in sockets && sockets[id].waiting
      modifies this
      ensures Valid() && Model() == ServerModel.OnDelayElapsed(old(Model()), id)
    {
      OnDelayElapsedKeepsValid(Model(), id);
      sockets := sockets[id := sockets[id].(waiting := false)];
      MakeConnection(id);
    }

    /** The `close` handler of socket `id`. */
    method OnClose(id: SocketId)
      requires Valid() && id in sockets && !sockets[id].closed
      modifies this
      ensures Valid() && Model() == ServerModel.OnClose(old(Model()), id)
    {
      OnCloseKeepsValid(Model(), id);
      sockets := sockets[id := sockets[id].(closed := true)];
      connections := SpliceOne(connections, IndexOf(connections, id));
    }
  }

  /** The first stage of the client below: a new server switched to `slow`
      starts both listeners. */
  method NewSlow() returns (s: Server)
    ensures fresh(s) && s.Valid()
    ensures s.connectionType == Some(Slow) && s.serverUp && s.appServerUp
    ensures s.connections == [] && s.sockets == map[]
    ensures s.effects == [ListenExternal, ClearStalePath, BindApp]
  {
    s := new Server(8888);
    s.SetConnectionType(Slow);
    assert s.effects == [] + DestroyAll([]) + ListenEffects(false);
  }

  /** The second stage of the client below: switching to `slow` again changes
      nothing, and socket 7 is accepted and waits for its delay. */
  method StartSlow() returns (s: Server)
    ensures fresh(s) && s.Valid()
    ensures s.connectionType == Some(Slow) && s.serverUp && s.connections == [7]
    ensures s.sockets.Keys == {7} && s.sockets[7] == Conn(Profile(4000, 3000), false, true, false)
    ensures s.effects == [ListenExternal, ClearStalePath, BindApp, ScheduleConnect(7, 3000)]
  {
    s := NewSlow();
    s.SetConnectionType(Slow);
    s.OnServerConnection(7);
  }

  /** The third stage of the client below: the mode switches to `perfect`,
      which destroys socket 7; its `close` event arrives and then its delay
      timer expires, which opens nothing. */
  method SlowSocketClosedEarly() returns (s: Server)
    ensures fresh(s) && s.Valid()
    ensures s.connectionType == Some(Perfect) && s.serverUp && s.connections == []
    ensures s.sockets.Keys == {7} && !s.sockets[7].connected
    ensures s.effects == [ListenExternal, ClearStalePath, BindApp, ScheduleConnect(7, 3000), Destroy(7)]
  {
    s := StartSlow();
    s.SetConnectionType(Perfect);
    assert s.effects == [ListenExternal, ClearStalePath, BindApp, ScheduleConnect(7, 3000), Destroy(7)];
    s.OnClose(7);
    s.OnDelayElapsed(7);
  }

  /** A client: switching to `slow` twice binds the app server once; a socket
      accepted under `slow` waits for its delay; switching to `perfect`
      destroys it, and once its `close` event has arrived the expiring timer
      opens nothing; a socket accepted under `perfect` is relayed at once. */
  method SlowThenPerfect() returns (binds: nat, late: bool, rates: seq<nat>)
    ensures binds == 1
    ensures !late
    ensures rates == [100000000, 100000000]
  {
    var s := SlowSocketClosedEarly();
    late := s.sockets[7].connected;
    var before := s.effects;
    s.OnServerConnection(8);
    assert s.effects == before + Relay(8, 100000000);
    binds := Count(s.effects, BindApp);
    rates := [s.effects[6].bps, s.effects[7].bps];
  }
}
