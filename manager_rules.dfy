/** The decisions `LavalinkManager` (LavalinkManager.cs) makes, as functions of
    its state: the reconnect bookkeeping of `ConnectWebSocket`, the dispatch of
    the node's messages in `OnReceive`, the handling of the bot's own voice state,
    and which guilds the disconnect sweeps close. The `LavalinkManager` class of
    the SharpLink module is proved to follow them. */
module ManagerRules {
  import opened Base
  import opened Json
  import Tracks
  import opened Messages
  import opened Players

  // ---------------------------------------------------------------------------
  // Reconnecting: `Tries` and `connectionWait`.

  /** `Tries` and `connectionWait` (milliseconds). */
  datatype Backoff = Backoff(tries: nat, wait: nat)

  /** `Tries` starts at 0 and `connectionWait` at 3000. */
  const InitialBackoff := Backoff(0, 3000)

  /** The loop gives up once `Tries` reaches `MaxNumberOfTries`; 0 means never. */
  predicate Exhausted(tries: nat, maxTries: int32)
  {
    tries >= maxTries && maxTries != 0
  }

  /** The `finally` block: a failed attempt waits a second longer and counts; a
      successful one resets the count. */
  function AfterAttempt(b: Backoff, connected: bool): Backoff
  {
    if connected then b.(tries := 0) else Backoff(b.tries + 1, b.wait + 1000)
  }

  /** n failed attempts in a row. */
  function AfterFailures(b: Backoff, n: nat): Backoff
  {
    if n == 0 then b else AfterAttempt(AfterFailures(b, n - 1), false)
  }

  /** After n failures in a row the count has grown by n and the wait by n seconds. */
  lemma {:induction false} FailuresAccumulate(b: Backoff, n: nat)
    ensures AfterFailures(b, n) == Backoff(b.tries + n, b.wait + 1000 * n)
  {
    if n > 0 {
      FailuresAccumulate(b, n - 1);
    }
  }

  /** From a fresh start the loop gives up after exactly `MaxNumberOfTries`
      failures, never when that is 0, and before the first try when it is
      negative. */
  lemma GivesUpAfterMax(maxTries: int32, n: nat)
    ensures Exhausted(AfterFailures(InitialBackoff, n).tries, maxTries) <==> maxTries != 0 && n >= maxTries
    ensures AfterFailures(InitialBackoff, n).wait == 3000 + 1000 * n
  {
    FailuresAccumulate(InitialBackoff, n);
  }

  /** A success resets the count whatever it was and keeps the wait; the wait
      never shrinks. */
  lemma SuccessResets(b: Backoff, connected: bool)
    ensures AfterAttempt(b, true) == Backoff(0, b.wait)
    ensures AfterAttempt(b, connected).wait >= b.wait
    ensures !Exhausted(AfterAttempt(b, true).tries, 1)
  {
  }

  // ---------------------------------------------------------------------------
  // Dispatching the node's messages.

  /** The players' states after a message, the notification raised, and the
      exception that ended the handler, if any. */
  datatype DispatchOutcome = DispatchOutcome(
    players: map<ulong, PlayerState>,
    notified: Option<Notification>,
    fault: Option<Fault>)

  function Unchanged(players: map<ulong, PlayerState>): DispatchOutcome
  {
    DispatchOutcome(players, None, None)
  }

  function Faulted(players: map<ulong, PlayerState>, f: Fault): DispatchOutcome
  {
    DispatchOutcome(players, None, Some(f))
  }

  /** The players after an event, and the notification or the exception its
      payload cast raised. */
  function Notify(players: map<ulong, PlayerState>, n: Result<Notification, Fault>): DispatchOutcome
  {
    match n
    case Success(notice) => DispatchOutcome(players, Some(notice), None)
    case Failure(f) => DispatchOutcome(players, None, Some(f))
  }

  /** The handler for `webSocket.OnReceive`; `message` is the parsed `JObject`. */
  function Dispatch(message: map<string, Json>, players: map<ulong, PlayerState>): DispatchOutcome
  {
    var op := ToText(Tracks.Member(JObject(message), "op"));
    if op.Failure? then Faulted(players, op.error)
    else if op.value == Some("playerUpdate") then OnPlayerUpdate(message, players)
    else if op.value == Some("event") then OnEvent(message, players)
    else Unchanged(players)   // "stats" and unknown ops leave every player alone
  }

  /** `case "playerUpdate"`. */
  function OnPlayerUpdate(message: map<string, Json>, players: map<ulong, PlayerState>): DispatchOutcome
  {
    var msg := JObject(message);
    var g := ToULong(Tracks.Member(msg, "guildId"));
    if g.Failure? then Faulted(players, g.error)
    else if g.value !in players then Unchanged(players)
    else
      var before := players[g.value];
      var position := Index(Tracks.Member(msg, "state"), "position");
      if position.Failure? then Faulted(players, position.error)
      else
        match FireEvent(before, PlayerUpdate, position.value)
        case Failure(f) => Faulted(players, f)
        case Success(after) =>
          Notify(players[g.value := after], Success(PlayerUpdated(g.value, before.track, after.position)))
  }

  /** `case "event"`: the player changes first, then the notification's payload
      is cast, so a bad payload raises after the change. */
  function OnEvent(message: map<string, Json>, players: map<ulong, PlayerState>): DispatchOutcome
  {
    var msg := JObject(message);
    var g := ToULong(Tracks.Member(msg, "guildId"));
    if g.Failure? then Faulted(players, g.error)
    else if g.value !in players then Unchanged(players)
    else
      var before := players[g.value];
      var kind := ToText(Tracks.Member(msg, "type"));
      if kind.Failure? then Faulted(players, kind.error)
      else if kind.value == Some("TrackEndEvent") then
        var reason := Tracks.Member(msg, "reason");
        Notify(players[g.value := FireEvent(before, TrackEnd, reason).value],
               (var r :- ToText(reason); Success(TrackEnded(g.value, before.track, r))))
      else if kind.value == Some("TrackExceptionEvent") then
        var error := Tracks.Member(msg, "error");
        Notify(players[g.value := FireEvent(before, TrackException, error).value],
               (var e :- ToText(error); Success(TrackFailed(g.value, before.track, e))))
      else if kind.value == Some("TrackStuckEvent") then
        var threshold := Tracks.Member(msg, "thresholdMs");
        Notify(players[g.value := FireEvent(before, TrackStuck, threshold).value],
               (var t :- ToLong(threshold); Success(TrackStuckFor(g.value, before.track, t))))
      else Unchanged(players)
  }

  /** The guild a message addresses, when its `guildId` casts. */
  function Addressed(message: map<string, Json>): Result<ulong, Fault>
  {
    ToULong(Tracks.Member(JObject(message), "guildId"))
  }

  /** Dispatch never adds or drops a player, and changes at most the one its
      message addresses. */
  lemma DispatchTouchesAddressedOnly(message: map<string, Json>, players: map<ulong, PlayerState>)
    ensures Dispatch(message, players).players.Keys == players.Keys
    ensures forall g :: g in players && Dispatch(message, players).players[g] != players[g] ==>
              Addressed(message) == Success(g)
  {
  }

  /** A message for a guild with no player changes nothing and raises no notification. */
  lemma UnregisteredGuildIgnored(message: map<string, Json>, players: map<ulong, PlayerState>)
    requires Addressed(message).Success? && Addressed(message).value !in players
    ensures Dispatch(message, players).players == players
    ensures Dispatch(message, players).notified.None?
  {
  }

  /** An op other than `playerUpdate` and `event`, or an event of an unknown type
      for a guild id that casts, changes nothing and raises nothing. */
  lemma UnknownMessagesIgnored(message: map<string, Json>, players: map<ulong, PlayerState>)
    requires var op := ToText(Tracks.Member(JObject(message), "op"));
      || (op.Success? && op.value != Some("playerUpdate") && op.value != Some("event"))
      || (&& op == Success(Some("event"))
          && Addressed(message).Success?
          && ToText(Tracks.Member(JObject(message), "type")).Success?
          && ToText(Tracks.Member(JObject(message), "type")).value
             !in {Some("TrackEndEvent"), Some("TrackExceptionEvent"), Some("TrackStuckEvent")})
    ensures Dispatch(message, players) == Unchanged(players)
  {
  }

  /** A notification names a registered player and carries the track that player
      had before the event, while the track events themselves clear it. */
  lemma NotificationCarriesPriorTrack(message: map<string, Json>, players: map<ulong, PlayerState>)
    requires Dispatch(message, players).notified.Some?
    ensures var n := Dispatch(message, players).notified.value;
      && n.guildId in players
      && n.track == players[n.guildId].track
      && (!n.PlayerUpdated? ==> Dispatch(message, players).players[n.guildId].track.None?)
  {
    var op := ToText(Tracks.Member(JObject(message), "op"));
    if op.value == Some("playerUpdate") {
      PlayerUpdateCarriesPriorTrack(message, players);
    } else {
      EventCarriesPriorTrack(message, players);
    }
  }

  lemma PlayerUpdateCarriesPriorTrack(message: map<string, Json>, players: map<ulong, PlayerState>)
    requires OnPlayerUpdate(message, players).notified.Some?
    ensures var n := OnPlayerUpdate(message, players).notified.value;
      n.PlayerUpdated? && n.guildId in players && n.track == players[n.guildId].track
  {
  }

  lemma EventCarriesPriorTrack(message: map<string, Json>, players: map<ulong, PlayerState>)
    requires OnEvent(message, players).notified.Some?
    ensures var n := OnEvent(message, players).notified.value;
      && n.guildId in players && n.track == players[n.guildId].track
      && OnEvent(message, players).players[n.guildId].track.None?
  {
  }

  // ---------------------------------------------------------------------------
  // The bot's own voice state.

  /** The exceptions the manager's operations raise. */
  datatype ManagerError =
    | AlreadyConnected   // `JoinAsync` for a guild with a player
    | NotConnected       // `LeaveAsync` for a guild without one
    | KeyNotFound        // `players[guildId]` for a missing key
    | NullReference      // a member of a null voice channel

  /** What a voice-state update makes the manager do. */
  datatype VoiceAction =
    | NoAction
    | SetSession(guildId: ulong, sessionId: string)   // joined a channel
    | Teardown(guildId: ulong)                         // left: clear session, destroy, drop
    | Raise(error: ManagerError)

  /** The `UserVoiceStateUpdated` handler as written: the log line of the leave
      branch reads the guild of the new channel, which is null in that branch. */
  function VoiceStateActionAsWritten(isSelf: bool, oldGuild: Option<ulong>, newGuild: Option<ulong>,
                                     sessionId: string, registered: set<ulong>): VoiceAction
  {
    if !isSelf then NoAction
    else if oldGuild.None? && newGuild.Some? then
      if newGuild.value in registered then SetSession(newGuild.value, sessionId) else Raise(KeyNotFound)
    else if oldGuild.Some? && newGuild.None? then Raise(ManagerError.NullReference)
    else NoAction
  }

  /** The handler with the leave branch logging the old channel's guild, as the
      lookup below it does. */
  function VoiceStateAction(isSelf: bool, oldGuild: Option<ulong>, newGuild: Option<ulong>,
                            sessionId: string, registered: set<ulong>): VoiceAction
  {
    if !isSelf then NoAction
    else if oldGuild.None? && newGuild.Some? then
      if newGuild.value in registered then SetSession(newGuild.value, sessionId) else Raise(KeyNotFound)
    else if oldGuild.Some? && newGuild.None? then
      if oldGuild.value in registered then Teardown(oldGuild.value) else Raise(KeyNotFound)
    else NoAction
  }

  /** As written, leaving a channel always raises, so no guild is ever torn down
      by the voice-state handler: for example the bot leaving guild 1's channel
      with a player for guild 1. */
  lemma LeaveNeverTearsDownAsWritten(isSelf: bool, oldGuild: Option<ulong>, newGuild: Option<ulong>,
                                     sessionId: string, registered: set<ulong>)
    ensures !VoiceStateActionAsWritten(isSelf, oldGuild, newGuild, sessionId, registered).Teardown?
    ensures VoiceStateActionAsWritten(true, Some(1), None, sessionId, {1}) == Raise(ManagerError.NullReference)
  {
  }

  /** Corrected, leaving the channel of a registered guild tears that guild down,
      and only the bot's own transitions between no channel and a channel act at all. */
  lemma VoiceStateTransitions(isSelf: bool, oldGuild: Option<ulong>, newGuild: Option<ulong>,
                              sessionId: string, registered: set<ulong>)
    ensures var a := VoiceStateAction(isSelf, oldGuild, newGuild, sessionId, registered);
      && (a.Teardown? <==> isSelf && newGuild.None? && oldGuild.Some? && oldGuild.value in registered)
      && (a.Teardown? ==> a.guildId == oldGuild.value)
      && (a.SetSession? <==> isSelf && oldGuild.None? && newGuild.Some? && newGuild.value in registered)
      && (a.SetSession? ==> a == SetSession(newGuild.value, sessionId))
      && (a.NoAction? <==> !isSelf || oldGuild.None? == newGuild.None?)
    ensures !(isSelf && oldGuild.Some? && newGuild.None?) ==>
      VoiceStateAction(isSelf, oldGuild, newGuild, sessionId, registered)
      == VoiceStateActionAsWritten(isSelf, oldGuild, newGuild, sessionId, registered)
  {
  }

  // ---------------------------------------------------------------------------
  // The disconnect sweeps.

  /** The guilds a shard sweep disconnects, in the order of the shard's guild list:
      each registered guild once, at its first mention. */
  function Swept(guilds: seq<ulong>, registered: set<ulong>): (r: seq<ulong>)
  {
    if guilds == [] then []
    else
      var before := guilds[..|guilds| - 1];
      var g := guilds[|guilds| - 1];
      Swept(before, registered) + (if g in registered && g !in before then [g] else [])
  }

  /** The destroy messages for some guilds, in order. */
  function Destroys(guilds: seq<ulong>): (r: seq<ControlMsg>)
    ensures |r| == |guilds| && forall i :: 0 <= i < |guilds| ==> r[i] == Destroy(guilds[i])
  {
    seq(|guilds|, i requires 0 <= i < |guilds| => Destroy(guilds[i]))
  }

  /** One more guild of the shard's list. */
  lemma SweptStep(guilds: seq<ulong>, k: nat, registered: set<ulong>)
    requires k < |guilds|
    ensures Swept(guilds[..k + 1], registered)
      == Swept(guilds[..k], registered) + (if guilds[k] in registered && guilds[k] !in guilds[..k] then [guilds[k]] else [])
  {
    assert guilds[..k + 1][..k] == guilds[..k];
  }

  /** A list of which no guild is registered sweeps nothing. */
  lemma NoneSwept(guilds: seq<ulong>, registered: set<ulong>)
    requires forall g :: g in guilds ==> g !in registered
    ensures Swept(guilds, registered) == []
  {
    SweptGuilds(guilds, registered);
    var r := Swept(guilds, registered);
    assert forall i :: 0 <= i < |r| ==> r[i] in r;
  }

  lemma DestroysAppend(guilds: seq<ulong>, g: ulong)
    ensures Destroys(guilds + [g]) == Destroys(guilds) + [Destroy(g)]
  {
  }

  /** A registry without some guilds. */
  function Without<V>(m: map<ulong, V>, guilds: seq<ulong>): (r: map<ulong, V>)
    ensures forall g :: g in r <==> g in m && g !in guilds
    ensures forall g :: g in r ==> r[g] == m[g]
  {
    map g | g in m && g !in guilds :: m[g]
  }

  /** One more guild left out. */
  lemma WithoutOneMore<V>(m: map<ulong, V>, guilds: seq<ulong>, g: ulong)
    ensures Without(m, guilds + [g]) == Without(m, guilds) - {g}
  {
  }

  /** The guilds a sweep has visited after one more step, and that the next guild of
      a list without repeats is not among those before it. */
  lemma VisitNext(guilds: seq<ulong>, k: nat)
    requires k < |guilds|
    ensures guilds[..k + 1] == guilds[..k] + [guilds[k]]
    ensures (forall i, j :: 0 <= i < j < |guilds| ==> guilds[i] != guilds[j]) ==> guilds[k] !in guilds[..k]
  {
  }

  /** The player states part-way through a sweep, by guild: those of the guilds
      already swept are the states at the start with `playing` cleared (what
      `DisconnectAsync` does to a player), the others are as at the start. */
  predicate SweptStates(now: map<ulong, PlayerState>, start: map<ulong, PlayerState>, swept: seq<ulong>)
  {
    && now.Keys == start.Keys
    && forall g :: g in now ==> now[g] == (if g in swept then start[g].(playing := false) else start[g])
  }

  /** Sweeping one more guild: a registered one not swept before is cleared, and
      any other guild changes nothing. */
  lemma SweptStatesStep(now: map<ulong, PlayerState>, start: map<ulong, PlayerState>, swept: seq<ulong>, g: ulong)
    requires SweptStates(now, start, swept)
    ensures g in now && g !in swept ==>
      SweptStates(now[g := now[g].(playing := false)], start, swept + [g])
    ensures g !in now || g in swept ==> SweptStates(now, start, swept + [g])
  {
  }

  /** A shard sweep disconnects exactly the shard's registered guilds, each once. */
  lemma {:induction false} SweptGuilds(guilds: seq<ulong>, registered: set<ulong>)
    ensures forall g :: g in Swept(guilds, registered) <==> g in registered && g in guilds
    ensures forall i, j :: 0 <= i < j < |Swept(guilds, registered)| ==>
              Swept(guilds, registered)[i] != Swept(guilds, registered)[j]
  {
    if guilds != [] {
      var before := guilds[..|guilds| - 1];
      SweptGuilds(before, registered);
      assert guilds == before + [guilds[|guilds| - 1]];
    }
  }
}
