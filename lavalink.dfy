/** The objects of the client: `LavalinkPlayer` (LavalinkPlayer.cs), one per guild,
    and `LavalinkManager` (LavalinkManager.cs), which owns the node's socket and
    the registry of players keyed by guild id. Every method is proved to follow the
    functions of the Players and ManagerRules modules. Discord's voice channels,
    the HTTP client and the lock are not part of this model. */
module SharpLink {
  import opened Base
  import opened Json
  import Tracks
  import opened Messages
  import Players
  import opened ManagerRules
  import opened Sockets

  /** The states of the given players, by guild. */
  ghost function StatesOf(m: map<ulong, LavalinkPlayer>): (r: map<ulong, Players.PlayerState>)
    reads m.Values
    ensures r.Keys == m.Keys && forall g :: g in m ==> r[g] == m[g].State()
  {
    map g | g in m :: m[g].State()
  }

  class LavalinkPlayer {
    const manager: LavalinkManager
    /** `initialVoiceChannel.GuildId`. */
    const guildId: ulong
    var playing: bool
    var currentPosition: int64
    var currentTrack: Option<Tracks.Track>
    var sessionId: string

    function State(): Players.PlayerState
      reads this
    {
      Players.PlayerState(playing, currentPosition, currentTrack, sessionId)
    }

    /** The sends go through the manager's socket, which must exist. */
    predicate CanSend()
      reads this, manager
    {
      manager.webSocket != null
    }

    constructor(manager: LavalinkManager, guildId: ulong)
      ensures this.manager == manager && this.guildId == guildId
      ensures State() == Players.Initial
    {
      this.manager := manager;
      this.guildId := guildId;
      playing := false;
      currentPosition := 0;
      currentTrack := None;
      sessionId := "";
    }

    /** Sends one message through the manager's socket. */
    method Send(m: ControlMsg)
      requires CanSend() && manager.webSocket.hasSocket
      modifies manager.webSocket
      ensures manager.webSocket.sent == old(manager.webSocket.sent) + [m]
      ensures manager.webSocket.hasSocket && manager.webSocket.connected == old(manager.webSocket.connected)
      ensures manager.webSocket.closed == old(manager.webSocket.closed)
    {
      manager.webSocket.SendAsync(m);
    }

    /** `PlayAsync(track)`. */
    method PlayAsync(track: Tracks.Track)
      requires CanSend() && manager.webSocket.hasSocket
      modifies this, manager.webSocket
      ensures State() == Players.Play(guildId, old(State()), track).state
      ensures manager.webSocket.sent == old(manager.webSocket.sent) + Players.Play(guildId, old(State()), track).sent
      ensures manager.webSocket.hasSocket && manager.webSocket.connected == old(manager.webSocket.connected)
      ensures manager.webSocket.closed == old(manager.webSocket.closed)
    {
      currentTrack := Some(track);
      Send(ControlMsg.Play(guildId, track.trackId));
      playing := true;
    }

    /** `PauseAsync()`. */
    method PauseAsync() returns (r: Result<(), Players.PlayerError>)
      requires !playing || (CanSend() && manager.webSocket.hasSocket)
      modifies this, manager.webSocket
      ensures var e := Players.Pause(guildId, old(State()));
        && (r.Success? <==> e.Success?)
        && (e.Failure? ==> r.error == e.error && State() == old(State()))
        && (e.Success? ==> State() == e.value.state)
      ensures CanSend() ==>
        var e := Players.Pause(guildId, old(State()));
        && manager.webSocket.sent == old(manager.webSocket.sent) + (if e.Success? then e.value.sent else [])
        && manager.webSocket.hasSocket == old(manager.webSocket.hasSocket)
        && manager.webSocket.connected == old(manager.webSocket.connected)
        && manager.webSocket.closed == old(manager.webSocket.closed)
    {
      if !playing {
        return Failure(Players.InvalidOperation);
      }
      Send(ControlMsg.Pause(guildId, true));
      playing := false;
      r := Success(());
    }

    /** `ResumeAsync()`. */
    method ResumeAsync() returns (r: Result<(), Players.PlayerError>)
      requires playing || (CanSend() && manager.webSocket.hasSocket)
      modifies this, manager.webSocket
      ensures var e := Players.Resume(guildId, old(State()));
        && (r.Success? <==> e.Success?)
        && (e.Failure? ==> r.error == e.error && State() == old(State()))
        && (e.Success? ==> State() == e.value.state)
      ensures CanSend() ==>
        var e := Players.Resume(guildId, old(State()));
        && manager.webSocket.sent == old(manager.webSocket.sent) + (if e.Success? then e.value.sent else [])
        && manager.webSocket.hasSocket == old(manager.webSocket.hasSocket)
        && manager.webSocket.connected == old(manager.webSocket.connected)
        && manager.webSocket.closed == old(manager.webSocket.closed)
    {
      if playing {
        return Failure(Players.InvalidOperation);
      }
      Send(ControlMsg.Pause(guildId, false));
      playing := true;
      r := Success(());
    }

    /** `StopAsync()`. */
    method StopAsync()
      requires CanSend() && manager.webSocket.hasSocket
      modifies this, manager.webSocket
      ensures State() == Players.Stop(guildId, old(State())).state
      ensures manager.webSocket.sent == old(manager.webSocket.sent) + Players.Stop(guildId, old(State())).sent
      ensures manager.webSocket.hasSocket && manager.webSocket.connected == old(manager.webSocket.connected)
      ensures manager.webSocket.closed == old(manager.webSocket.closed)
    {
      Send(ControlMsg.Stop(guildId));
      playing := false;
    }

    /** `SeekAsync(position)`. */
    method SeekAsync(position: int32)
      requires CanSend() && manager.webSocket.hasSocket
      modifies manager.webSocket
      ensures State() == Players.Seek(guildId, old(State()), position).state
      ensures manager.webSocket.sent == old(manager.webSocket.sent) + Players.Seek(guildId, old(State()), position).sent
      ensures manager.webSocket.hasSocket && manager.webSocket.connected == old(manager.webSocket.connected)
      ensures manager.webSocket.closed == old(manager.webSocket.closed)
    {
      Send(ControlMsg.Seek(guildId, position));
    }

    /** `SetVolumeAsync(volume)`. */
    method SetVolumeAsync(volume: uint32) returns (r: Result<(), Players.PlayerError>)
      requires volume > Players.MaxVolume || (CanSend() && manager.webSocket.hasSocket)
      modifies manager.webSocket
      ensures var e := Players.SetVolume(guildId, old(State()), volume);
        && (r.Success? <==> e.Success?)
        && (e.Failure? ==> r.error == e.error)
        && (e.Success? ==> State() == e.value.state)
      ensures CanSend() ==>
        var e := Players.SetVolume(guildId, old(State()), volume);
        && manager.webSocket.sent == old(manager.webSocket.sent) + (if e.Success? then e.value.sent else [])
        && manager.webSocket.hasSocket == old(manager.webSocket.hasSocket)
        && manager.webSocket.connected == old(manager.webSocket.connected)
        && manager.webSocket.closed == old(manager.webSocket.closed)
    {
      if volume > Players.MaxVolume {
        return Failure(Players.VolumeOutOfRange);
      }
      Send(ControlMsg.Volume(guildId, volume));
      r := Success(());
    }

    /** `DisconnectAsync()`: the destroy message, the manager's `RemovePlayerAsync`,
        then `Playing = false`. */
    method DisconnectAsync()
      requires CanSend() && manager.webSocket.hasSocket
      modifies this, manager, manager.webSocket
      ensures State() == Players.Disconnect(guildId, old(State())).state
      ensures manager.webSocket == old(manager.webSocket)
      ensures manager.webSocket.sent == old(manager.webSocket.sent) + Players.Disconnect(guildId, old(State())).sent
      ensures manager.webSocket.hasSocket && manager.webSocket.connected == old(manager.webSocket.connected)
      ensures manager.webSocket.closed == old(manager.webSocket.closed)
      ensures manager.players == old(manager.players) - {guildId}
      ensures manager.Backoff() == old(manager.Backoff()) && manager.cancelled == old(manager.cancelled)
    {
      UpdateSessionAsync(SessionChange.Disconnect(guildId));
      manager.RemovePlayerAsync(guildId);
      playing := false;
    }

    /** `FireEvent(eventType, eventData)`: a player update whose data is no integer
        raises the cast's exception and changes nothing. */
    method FireEvent(e: Event, data: Option<Json>) returns (r: Result<(), Fault>)
      modifies this
      ensures var next := Players.FireEvent(old(State()), e, data);
        && (r.Success? <==> next.Success?)
        && (next.Failure? ==> r.error == next.error && State() == old(State()))
        && (next.Success? ==> State() == next.value)
    {
      match e {
        case PlayerUpdate =>
          var position := ToLong(data);
          if position.Failure? {
            return Failure(position.error);
          }
          currentPosition := position.value;
        case TrackEnd =>
          currentTrack := None;
          playing := true;
        case TrackException =>
          currentTrack := None;
          playing := false;
        case TrackStuck =>
          currentTrack := None;
          playing := false;
        case _ =>
      }
      r := Success(());
    }

    /** `SetSessionId(voiceSessionId)`. */
    method SetSessionId(voiceSessionId: string)
      modifies this
      ensures State() == old(State()).(sessionId := voiceSessionId)
    {
      sessionId := voiceSessionId;
    }

    /** `UpdateSessionAsync(change, changeData)`. */
    method UpdateSessionAsync(change: SessionChange)
      requires CanSend() && manager.webSocket.hasSocket
      modifies manager.webSocket
      ensures manager.webSocket.sent == old(manager.webSocket.sent) + Players.UpdateSession(State(), change)
      ensures manager.webSocket.hasSocket && manager.webSocket.connected == old(manager.webSocket.connected)
      ensures manager.webSocket.closed == old(manager.webSocket.closed)
    {
      match change
      case Connect(server) =>
        Send(VoiceUpdate(server.guildId, sessionId, server.token, server.endpoint));
      case Disconnect(g) =>
        Send(Destroy(g));
      case _ =>
    }
  }

  class LavalinkManager {
    var webSocket: LavalinkWebSocket?
    var players: map<ulong, LavalinkPlayer>
    /** `Tries`. */
    var tries: nat
    var connectionWait: nat
    /** `config.MaxNumberOfTries`. */
    const maxNumberOfTries: int32
    /** `lavalinkCancellation.IsCancellationRequested`. */
    var cancelled: bool

    /** Each registered player belongs to this manager and is filed under its guild. */
    predicate Valid()
      reads this
    {
      forall g :: g in players ==> players[g].guildId == g && players[g].manager == this
    }

    /** The registry's player states. */
    function States(): map<ulong, Players.PlayerState>
      reads this, players.Values
    {
      map g | g in players :: players[g].State()
    }

    function Backoff(): ManagerRules.Backoff
      reads this
    {
      ManagerRules.Backoff(tries, connectionWait)
    }

    /** Sending is possible. */
    predicate Sending()
      reads this, webSocket
    {
      webSocket != null && webSocket.hasSocket
    }

    /** The control messages handed to the node socket so far; none while there is
        no socket. */
    function Outbox(): seq<ControlMsg>
      reads this, webSocket
    {
      if webSocket == null then [] else webSocket.sent
    }

    constructor(maxNumberOfTries: int32)
      ensures this.maxNumberOfTries == maxNumberOfTries
      ensures webSocket == null && players == map[] && Backoff() == InitialBackoff && !cancelled
      ensures Valid()
    {
      this.maxNumberOfTries := maxNumberOfTries;
      webSocket := null;
      players := map[];
      tries := 0;
      connectionWait := 3000;
      cancelled := false;
    }

    /** `StartAsync()`: a socket for the configured node and a fresh cancellation. */
    method StartAsync(host: string, port: ushort)
      modifies this
      ensures fresh(webSocket) && webSocket.hostUri == HostUri(host, port)
      ensures !webSocket.IsConnected() && webSocket.sent == []
      ensures !cancelled && players == old(players) && Backoff() == old(Backoff())
    {
      webSocket := new LavalinkWebSocket(host, port);
      cancelled := false;
    }

    /** `JoinAsync(voiceChannel)` for the channel's guild. */
    method JoinAsync(guildId: ulong) returns (r: Result<LavalinkPlayer, ManagerError>)
      requires Valid()
      modifies this
      ensures Valid()
      ensures guildId in old(players) ==> r == Failure(AlreadyConnected) && players == old(players)
      ensures guildId !in old(players) ==>
        && r.Success? && fresh(r.value)
        && players == old(players)[guildId := r.value]
        && r.value.State() == Players.Initial
      ensures webSocket == old(webSocket) && Backoff() == old(Backoff()) && cancelled == old(cancelled)
    {
      if guildId in players {
        return Failure(AlreadyConnected);
      }
      var player := new LavalinkPlayer(this, guildId);
      players := players[guildId := player];
      r := Success(player);
    }

    /** `GetPlayer(guildId)`: null exactly when the guild has no player. */
    function GetPlayer(guildId: ulong): (r: Option<LavalinkPlayer>)
      reads this
      ensures r.None? <==> guildId !in players
      ensures r.Some? ==> guildId in players && r.value == players[guildId]
    {
      if guildId in players then Some(players[guildId]) else None
    }

    /** `LeaveAsync(guildId)`: the player's `DisconnectAsync`. */
    method LeaveAsync(guildId: ulong) returns (r: Result<(), ManagerError>)
      requires Valid() && (Sending() || guildId !in players)
      modifies this, webSocket, set h | h in players && h == guildId :: players[h]
      ensures Valid() && webSocket == old(webSocket)
      ensures webSocket != null ==>
        webSocket.hasSocket == old(webSocket.hasSocket) && webSocket.connected == old(webSocket.connected) && webSocket.closed == old(webSocket.closed)
      ensures Backoff() == old(Backoff()) && cancelled == old(cancelled)
      ensures forall h :: h in players ==> h in old(players) && players[h].State() == old(players[h].State())
      ensures guildId !in old(players) ==>
        r == Failure(NotConnected) && players == old(players) && Outbox() == old(Outbox())
      ensures guildId in old(players) ==>
        && r.Success?
        && players == old(players) - {guildId}
        && webSocket.sent == old(webSocket.sent) + [Destroy(guildId)]
        && old(players)[guildId].State() == old(players[guildId].State()).(playing := false)
    {
      if guildId !in players {
        return Failure(NotConnected);
      }
      DisconnectPlayer(guildId, players);
      r := Success(());
    }

    /** `RemovePlayerAsync(guildId)`. */
    method RemovePlayerAsync(guildId: ulong)
      modifies this
      ensures players == old(players) - {guildId}
      ensures webSocket == old(webSocket) && Backoff() == old(Backoff()) && cancelled == old(cancelled)
    {
      if guildId in players {
        players := players - {guildId};
      }
    }

    /** The `OnClosed` handler: every player is dropped, without a message. */
    method OnClosed()
      modifies this
      ensures players == map[] && Valid()
      ensures webSocket == old(webSocket) && Backoff() == old(Backoff()) && cancelled == old(cancelled)
    {
      players := map[];
    }

    /** The `Disconnected` handler of a single client, given the order in which the
        dictionary enumerates its keys: every player disconnected (its state as
        before, no longer playing) and removed, with one `Destroy` per guild in
        that order. With no player the loop finds nothing to do and needs no
        socket. */
    method DisconnectedSweep(order: seq<ulong>)
      requires Valid() && (Sending() || players == map[])
      requires forall g :: g in order <==> g in players
      requires forall i, j :: 0 <= i < j < |order| ==> order[i] != order[j]
      modifies this, webSocket, players.Values
      ensures players == map[] && Valid() && webSocket == old(webSocket)
      ensures webSocket != null ==>
        webSocket.hasSocket == old(webSocket.hasSocket) && webSocket.connected == old(webSocket.connected) && webSocket.closed == old(webSocket.closed)
      ensures Backoff() == old(Backoff()) && cancelled == old(cancelled)
      ensures Outbox() == old(Outbox()) + Destroys(order)
      ensures SweptStates(StatesOf(old(players)), old(StatesOf(players)), order)
    {
      if order != [] {
        assert order[0] in players;
        DisconnectEach(order);
      } else {
        assert players == map[];
        assert Outbox() + Destroys(order) == Outbox();
      }
    }

    /** The loop of `DisconnectedSweep` over a non-empty registry, which has a
        socket to send the `Destroy` messages on. */
    method DisconnectEach(order: seq<ulong>)
      requires Valid() && Sending()
      requires forall g :: g in order <==> g in players
      requires forall i, j :: 0 <= i < j < |order| ==> order[i] != order[j]
      modifies this, webSocket, players.Values
      ensures players == map[] && Valid() && webSocket == old(webSocket)
      ensures Sending() && webSocket.connected == old(webSocket.connected) && webSocket.closed == old(webSocket.closed)
      ensures Backoff() == old(Backoff()) && cancelled == old(cancelled)
      ensures webSocket.sent == old(webSocket.sent) + Destroys(order)
      ensures SweptStates(StatesOf(old(players)), old(StatesOf(players)), order)
    {
      ghost var before := players;
      ghost var states0 := StatesOf(before);
      assert forall h :: h in before ==> before[h].guildId == h;
      assert Without(before, order[..0]) == before;
      var k := 0;
      while k < |order|
        invariant 0 <= k <= |order| && Valid() && Sending() && webSocket == old(webSocket)
        invariant Backoff() == old(Backoff()) && cancelled == old(cancelled)
        invariant webSocket.connected == old(webSocket.connected) && webSocket.closed == old(webSocket.closed)
        invariant players == Without(before, order[..k])
        invariant webSocket.sent == old(webSocket.sent) + Destroys(order[..k])
        invariant SweptStates(StatesOf(before), states0, order[..k])
      {
        var g := order[k];
        VisitNext(order, k);
        assert before[g] in before.Values;
        DisconnectNext(g, order[..k], order[..k], before, states0, old(webSocket.sent));
        k := k + 1;
      }
      assert order[..k] == order;
      // `players.Clear()` finds the registry empty: each `DisconnectAsync` removed
      // its own guild.
      assert players == map[];
    }

    /** One more player disconnected by a sweep that started from the registry
        `before`: `done` are the guilds swept so far, `destroyed` those a `Destroy`
        was sent for. */
    method DisconnectNext(g: ulong, ghost done: seq<ulong>, ghost destroyed: seq<ulong>,
                          ghost before: map<ulong, LavalinkPlayer>,
                          ghost states0: map<ulong, Players.PlayerState>, ghost sent0: seq<ControlMsg>)
      requires Valid() && Sending() && g in before && g !in done
      requires forall h :: h in before ==> before[h].guildId == h
      requires players == Without(before, done)
      requires webSocket.sent == sent0 + Destroys(destroyed)
      requires SweptStates(StatesOf(before), states0, done)
      modifies this, webSocket, before[g]
      ensures Valid() && Sending() && webSocket == old(webSocket)
      ensures webSocket.connected == old(webSocket.connected) && webSocket.closed == old(webSocket.closed)
      ensures Backoff() == old(Backoff()) && cancelled == old(cancelled)
      ensures players == Without(before, done + [g])
      ensures webSocket.sent == sent0 + Destroys(destroyed + [g])
      ensures SweptStates(StatesOf(before), states0, done + [g])
    {
      WithoutOneMore(before, done, g);
      DestroysAppend(destroyed, g);
      assert sent0 + Destroys(destroyed + [g]) == webSocket.sent + [Destroy(g)];
      SweptStatesStep(StatesOf(before), states0, done, g);
      DisconnectPlayer(g, before);
    }

    /** `players[guildId].DisconnectAsync()`, seen from the registry: no other
        guild's player changes, whether still registered or not (`others`). */
    method DisconnectPlayer(guildId: ulong, ghost others: map<ulong, LavalinkPlayer>)
      requires Valid() && Sending() && guildId in players
      requires forall h :: h in others ==> others[h].guildId == h
      requires guildId in others ==> others[guildId] == players[guildId]
      modifies this, webSocket, players[guildId]
      ensures forall h :: h in others && h != guildId ==> others[h].State() == old(others[h].State())
      ensures guildId in others ==>
        StatesOf(others) == old(StatesOf(others))[guildId := old(StatesOf(others))[guildId].(playing := false)]
      ensures Valid() && Sending() && webSocket == old(webSocket)
      ensures webSocket.connected == old(webSocket.connected) && webSocket.closed == old(webSocket.closed)
      ensures players == old(players) - {guildId}
      ensures webSocket.sent == old(webSocket.sent) + [Destroy(guildId)]
      ensures old(players)[guildId].State() == old(players[guildId].State()).(playing := false)
      ensures Backoff() == old(Backoff()) && cancelled == old(cancelled)
    {
      players[guildId].DisconnectAsync();
    }

    /** The `ShardDisconnected` handler, given the shard's guilds in order: each
        registered guild of the shard disconnected (its state as before, no longer
        playing) and removed, once, in the shard's order; the other players
        unchanged. When none of the shard's guilds has a player, the loop finds
        nothing to do and needs no socket. */
    method ShardSweep(guilds: seq<ulong>)
      requires Valid() && (Sending() || forall g :: g in guilds ==> g !in players)
      modifies this, webSocket, set h | h in players && h in guilds :: players[h]
      ensures Valid() && webSocket == old(webSocket)
      ensures webSocket != null ==>
        webSocket.hasSocket == old(webSocket.hasSocket) && webSocket.connected == old(webSocket.connected) && webSocket.closed == old(webSocket.closed)
      ensures Backoff() == old(Backoff()) && cancelled == old(cancelled)
      ensures players == Without(old(players), guilds)
      ensures Outbox() == old(Outbox()) + Destroys(Swept(guilds, old(players).Keys))
      ensures SweptStates(StatesOf(old(players)), old(StatesOf(players)), guilds)
    {
      if Sending() {
        SweepShard(guilds);
      } else {
        NoneSwept(guilds, players.Keys);
        assert players == Without(players, guilds);
        assert Outbox() + Destroys([]) == Outbox();
      }
    }

    /** The loop of `ShardSweep` when a socket is there to send on. */
    method SweepShard(guilds: seq<ulong>)
      requires Valid() && Sending()
      modifies this, webSocket, set h | h in players && h in guilds :: players[h]
      ensures Valid() && webSocket == old(webSocket)
      ensures Sending() && webSocket.connected == old(webSocket.connected) && webSocket.closed == old(webSocket.closed)
      ensures Backoff() == old(Backoff()) && cancelled == old(cancelled)
      ensures players == Without(old(players), guilds)
      ensures webSocket.sent == old(webSocket.sent) + Destroys(Swept(guilds, old(players).Keys))
      ensures SweptStates(StatesOf(old(players)), old(StatesOf(players)), guilds)
    {
      ghost var before := players;
      ghost var states0 := StatesOf(before);
      assert forall h :: h in before ==> before[h].guildId == h;
      assert Without(before, guilds[..0]) == before;
      var k := 0;
      while k < |guilds|
        invariant 0 <= k <= |guilds| && Valid() && Sending() && webSocket == old(webSocket)
        invariant Backoff() == old(Backoff()) && cancelled == old(cancelled)
        invariant webSocket.connected == old(webSocket.connected) && webSocket.closed == old(webSocket.closed)
        invariant players == Without(before, guilds[..k])
        invariant webSocket.sent == old(webSocket.sent) + Destroys(Swept(guilds[..k], before.Keys))
        invariant SweptStates(StatesOf(before), states0, guilds[..k])
      {
        SweepGuild(guilds, k, before, states0, old(webSocket.sent));
        k := k + 1;
      }
      assert guilds[..k] == guilds;
    }

    /** One guild of the shard sweep: disconnected and removed when registered. */
    method SweepGuild(guilds: seq<ulong>, k: nat, ghost before: map<ulong, LavalinkPlayer>,
                      ghost states0: map<ulong, Players.PlayerState>, ghost sent0: seq<ControlMsg>)
      requires Valid() && Sending() && k < |guilds|
      requires forall h :: h in before ==> before[h].guildId == h
      requires players == Without(before, guilds[..k])
      requires webSocket.sent == sent0 + Destroys(Swept(guilds[..k], before.Keys))
      requires SweptStates(StatesOf(before), states0, guilds[..k])
      modifies this, webSocket, set h | h in players && h == guilds[k] :: players[h]
      ensures Valid() && Sending() && webSocket == old(webSocket)
      ensures webSocket.connected == old(webSocket.connected) && webSocket.closed == old(webSocket.closed)
      ensures Backoff() == old(Backoff()) && cancelled == old(cancelled)
      ensures players == Without(before, guilds[..k + 1])
      ensures webSocket.sent == sent0 + Destroys(Swept(guilds[..k + 1], before.Keys))
      ensures SweptStates(StatesOf(before), states0, guilds[..k + 1])
    {
      var g := guilds[k];
      SweptStep(guilds, k, before.Keys);
      VisitNext(guilds, k);
      SweptStatesStep(StatesOf(before), states0, guilds[..k], g);
      WithoutOneMore(before, guilds[..k], g);
      if g in players {
        assert before[g] == players[g];
        DisconnectNext(g, guilds[..k], Swept(guilds[..k], before.Keys), before, states0, sent0);
        // `players.Remove(guild.Id)` finds nothing left to remove: `DisconnectAsync`
        // removed the guild already.
        assert g !in players;
      }
    }

    /** The `VoiceServerUpdated` handler: the guild's player sends a voice update;
        a guild without a player is a missing key. */
    method VoiceServerUpdated(server: VoiceServer) returns (r: Result<(), ManagerError>)
      requires Valid() && (Sending() || server.guildId !in players)
      modifies webSocket
      ensures webSocket != null ==>
        webSocket.hasSocket == old(webSocket.hasSocket) && webSocket.connected == old(webSocket.connected) && webSocket.closed == old(webSocket.closed)
      ensures server.guildId !in players ==>
        r == Failure(KeyNotFound) && Outbox() == old(Outbox())
      ensures server.guildId in players ==>
        r.Success? && webSocket.sent == old(webSocket.sent) + Players.UpdateSession(States()[server.guildId], SessionChange.Connect(server))
    {
      if server.guildId !in players {
        return Failure(KeyNotFound);
      }
      players[server.guildId].UpdateSessionAsync(SessionChange.Connect(server));
      r := Success(());
    }

    /** The `UserVoiceStateUpdated` handler, with the leave branch logging the old
        channel's guild (see `VoiceStateActionAsWritten` for the handler as written).
        An old or new channel is given by its guild id. */
    method UserVoiceStateUpdated(isSelf: bool, oldGuild: Option<ulong>, newGuild: Option<ulong>, voiceSessionId: string)
      returns (r: Result<(), ManagerError>)
      requires Valid()
      requires Sending() || !VoiceStateAction(isSelf, oldGuild, newGuild, voiceSessionId, players.Keys).Teardown?
      modifies this, webSocket, set h | h in players && (Some(h) == oldGuild || Some(h) == newGuild) :: players[h]
      ensures Valid() && webSocket == old(webSocket)
      ensures webSocket != null ==>
        webSocket.hasSocket == old(webSocket.hasSocket) && webSocket.connected == old(webSocket.connected) && webSocket.closed == old(webSocket.closed)
      ensures Backoff() == old(Backoff()) && cancelled == old(cancelled)
      ensures match VoiceStateAction(isSelf, oldGuild, newGuild, voiceSessionId, old(players).Keys)
        case NoAction =>
          && r.Success? && players == old(players) && Outbox() == old(Outbox())
          && forall h :: h in players ==> players[h].State() == old(players[h].State())
        case Raise(e) =>
          && r == Failure(e) && players == old(players) && Outbox() == old(Outbox())
          && forall h :: h in players ==> players[h].State() == old(players[h].State())
        case SetSession(g, id) =>
          && r.Success? && players == old(players) && Outbox() == old(Outbox())
          && players[g].State() == old(players[g].State()).(sessionId := id)
          && forall h :: h in players && h != g ==> players[h].State() == old(players[h].State())
        case Teardown(g) =>
          && r.Success? && players == old(players) - {g}
          && webSocket.sent == old(webSocket.sent) + [Destroy(g)]
          && old(players)[g].State() == old(players[g].State()).(sessionId := "")
          && forall h :: h in players ==> players[h].State() == old(players[h].State())
    {
      VoiceStateTransitions(isSelf, oldGuild, newGuild, voiceSessionId, players.Keys);
      var action := VoiceStateAction(isSelf, oldGuild, newGuild, voiceSessionId, players.Keys);
      match action
      case NoAction =>
        r := Success(());
      case Raise(e) =>
        r := Failure(e);
      case SetSession(g, id) =>
        players[g].SetSessionId(id);
        r := Success(());
      case Teardown(g) =>
        var player := players[g];
        player.SetSessionId("");
        player.UpdateSessionAsync(SessionChange.Disconnect(g));
        players := players - {g};
        r := Success(());
    }

    /** The `OnReceive` handler for one parsed message. */
    method OnReceive(message: map<string, Json>) returns (notified: Option<Notification>, fault: Option<Fault>)
      requires Valid()
      modifies players.Values
      ensures States() == Dispatch(message, old(States())).players
      ensures notified == Dispatch(message, old(States())).notified
      ensures fault == Dispatch(message, old(States())).fault
    {
      var op := ToText(Tracks.Member(JObject(message), "op"));
      if op.Failure? {
        return None, Some(op.error);
      }
      if op.value == Some("playerUpdate") {
        notified, fault := OnPlayerUpdate(message);
      } else if op.value == Some("event") {
        notified, fault := OnEvent(message);
      } else {
        notified, fault := None, None;
      }
    }

    /** `case "playerUpdate"`. */
    method OnPlayerUpdate(message: map<string, Json>) returns (notified: Option<Notification>, fault: Option<Fault>)
      requires Valid()
      modifies players.Values
      ensures States() == ManagerRules.OnPlayerUpdate(message, old(States())).players
      ensures notified == ManagerRules.OnPlayerUpdate(message, old(States())).notified
      ensures fault == ManagerRules.OnPlayerUpdate(message, old(States())).fault
    {
      var msg := JObject(message);
      var g := ToULong(Tracks.Member(msg, "guildId"));
      if g.Failure? {
        return None, Some(g.error);
      }
      if g.value !in players {
        return None, None;
      }
      var currentTrack := players[g.value].currentTrack;
      var position := Index(Tracks.Member(msg, "state"), "position");
      if position.Failure? {
        return None, Some(position.error);
      }
      var fired := FireAt(g.value, PlayerUpdate, position.value);
      if fired.Failure? {
        return None, Some(fired.error);
      }
      return Some(PlayerUpdated(g.value, currentTrack, ToLong(position.value).value)), None;
    }

    /** `case "event"`: the player changes first, then the payload is cast. */
    method OnEvent(message: map<string, Json>) returns (notified: Option<Notification>, fault: Option<Fault>)
      requires Valid()
      modifies players.Values
      ensures States() == ManagerRules.OnEvent(message, old(States())).players
      ensures notified == ManagerRules.OnEvent(message, old(States())).notified
      ensures fault == ManagerRules.OnEvent(message, old(States())).fault
    {
      var msg := JObject(message);
      var g := ToULong(Tracks.Member(msg, "guildId"));
      if g.Failure? {
        return None, Some(g.error);
      }
      if g.value !in players {
        return None, None;
      }
      var currentTrack := players[g.value].currentTrack;
      var kind := ToText(Tracks.Member(msg, "type"));
      if kind.Failure? {
        return None, Some(kind.error);
      }
      if kind.value == Some("TrackEndEvent") {
        var reason := Tracks.Member(msg, "reason");
        var _ := FireAt(g.value, TrackEnd, reason);
        var text := ToText(reason);
        if text.Failure? {
          return None, Some(text.error);
        }
        return Some(TrackEnded(g.value, currentTrack, text.value)), None;
      } else if kind.value == Some("TrackExceptionEvent") {
        var error := Tracks.Member(msg, "error");
        var _ := FireAt(g.value, TrackException, error);
        var text := ToText(error);
        if text.Failure? {
          return None, Some(text.error);
        }
        return Some(TrackFailed(g.value, currentTrack, text.value)), None;
      } else if kind.value == Some("TrackStuckEvent") {
        var threshold := Tracks.Member(msg, "thresholdMs");
        var _ := FireAt(g.value, TrackStuck, threshold);
        var ms := ToLong(threshold);
        if ms.Failure? {
          return None, Some(ms.error);
        }
        return Some(TrackStuckFor(g.value, currentTrack, ms.value)), None;
      }
      return None, None;
    }

    /** `player.FireEvent` for a registered guild, seen from the registry: only
        that guild's state changes. */
    method FireAt(g: ulong, e: Event, data: Option<Json>) returns (r: Result<(), Fault>)
      requires Valid() && g in players
      modifies players[g]
      ensures var next := Players.FireEvent(old(States())[g], e, data);
        && (r.Success? <==> next.Success?)
        && (next.Failure? ==> r.error == next.error && States() == old(States()))
        && (next.Success? ==> States() == old(States())[g := next.value])
    {
      var player := players[g];
      r := player.FireEvent(e, data);
      assert forall h :: h in players && h != g ==> players[h] != player;
      assert States() == old(States())[g := player.State()];
    }

    /** One pass of the reconnect loop of `ConnectWebSocket`: whether it stops
        before trying, and otherwise one `Connect()`, which returns only once its
        session is over: a handshake the node accepts or not and, when accepted,
        the session on the node's frames, whose close frame (if it ends on one)
        clears the registry through `OnClosed`; then the `finally` bookkeeping,
        which sees `IsConnected()` as the session left it. A session whose frames
        run out stands for a dropped connection: the receive throws and
        `Connected` stays set. */
    method ReconnectStep(accepted: bool, session: seq<Frame>) returns (stopped: bool, messages: seq<seq<byte>>)
      requires Valid() && webSocket != null && ValidFrames(session)
      modifies this, webSocket
      ensures Valid() && webSocket == old(webSocket) && cancelled == old(cancelled)
      ensures webSocket.sent == old(webSocket.sent)
      ensures stopped <==> old(webSocket.IsConnected()) || cancelled || Exhausted(old(tries), maxNumberOfTries)
      ensures stopped ==>
        && messages == [] && players == old(players) && Backoff() == old(Backoff())
        && webSocket.IsConnected() == old(webSocket.IsConnected())
      ensures !stopped ==>
        && (webSocket.IsConnected() <==>
              (accepted && SessionOf(session).close.None?) || (!accepted && old(webSocket.connected)))
        && Backoff() == AfterAttempt(old(Backoff()), webSocket.IsConnected())
        && messages == (if accepted then SessionOf(session).messages else [])
        && players == (if accepted && SessionOf(session).close.Some? then map[] else old(players))
    {
      if webSocket.IsConnected() || cancelled || Exhausted(tries, maxNumberOfTries) {
        return true, [];
      }
      var closes := |webSocket.closed|;
      messages := webSocket.Connect(accepted, session);
      if |webSocket.closed| > closes {
        OnClosed();
      }
      if !webSocket.IsConnected() {
        connectionWait := connectionWait + 1000;
        tries := tries + 1;
      } else {
        tries := 0;
      }
      stopped := false;
    }

    /** A node that accepts the handshake and then closes the session: with
        `MaxNumberOfTries` 1 that one session counts as the failed try, the wait
        grows by a second, and the next pass gives up. */
    static method NodeClosedSessionExhausts() returns (tries: nat, wait: nat, stoppedNext: bool)
      ensures tries == 1 && wait == 4000 && stoppedNext
    {
      var manager := new LavalinkManager(1);
      manager.StartAsync("localhost", 80);
      var stopped, messages := manager.ReconnectStep(true, [Close(None, "")]);
      SessionClose([Close(None, "")]);
      tries, wait := manager.tries, manager.connectionWait;
      stoppedNext, messages := manager.ReconnectStep(true, []);
    }

    /** The voice update the node receives carries the session id the player
        stored: with the bot joining a channel first, the id of that voice-state
        update; straight after `JoinAsync`, the empty id a new player starts with.
        The node connection may be opened before the join (`connectFirst`) or only
        after the voice-state update, just before the voice server arrives. */
    static method VoiceUpdateCarriesSession(server: VoiceServer, voiceSessionId: string, joinedChannel: bool,
                                            connectFirst: bool)
      returns (sent: seq<ControlMsg>)
      ensures sent == [VoiceUpdate(server.guildId, if joinedChannel then voiceSessionId else "",
                                   server.token, server.endpoint)]
    {
      var manager := new LavalinkManager(0);
      if connectFirst {
        manager.StartAsync("localhost", 80);
        var messages := manager.webSocket.Connect(true, []);
      }
      var joined := manager.JoinAsync(server.guildId);
      if joinedChannel {
        var updated := manager.UserVoiceStateUpdated(true, None, Some(server.guildId), voiceSessionId);
      }
      if !connectFirst {
        manager.StartAsync("localhost", 80);
        var messages := manager.webSocket.Connect(true, []);
      }
      var updated := manager.VoiceServerUpdated(server);
      sent := manager.webSocket.sent;
    }

    /** `StopAsync()`: cancels the reconnect loop, or throws when `StartAsync` has
        not created the cancellation source yet; closing the socket is network I/O. */
    method StopAsync() returns (r: Result<(), ManagerError>)
      modifies this
      ensures old(webSocket) == null ==> r == Failure(ManagerError.NullReference) && cancelled == old(cancelled)
      ensures old(webSocket) != null ==> r.Success? && cancelled
      ensures webSocket == old(webSocket) && players == old(players) && Backoff() == old(Backoff())
    {
      if webSocket == null {
        return Failure(ManagerError.NullReference);
      }
      cancelled := true;
      r := Success(());
    }
  }
}
