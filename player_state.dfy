/** The state of a `LavalinkPlayer` (LavalinkPlayer.cs) and what each of its
    operations does to it, as functions of the state before: the new state, the
    control messages sent on the node's socket, or the exception raised. The
    `Player` class of the Lavalink module is proved to follow these functions. */
module Players {
  import opened Base
  import opened Json
  import Tracks
  import opened Messages

  /** `Playing`, `CurrentPosition`, `currentTrack` (null is `None`) and `sessionId`. */
  datatype PlayerState = PlayerState(playing: bool, position: int64, track: Option<Tracks.Track>, sessionId: string)

  /** A new player: not playing, at position 0, no track, empty session id. */
  const Initial := PlayerState(false, 0, None, "")

  /** The exceptions a player operation raises. */
  datatype PlayerError =
    | InvalidOperation     // pausing a paused player, resuming a playing one
    | VolumeOutOfRange     // a volume above 150

  /** The state after an operation, and the messages it sent, in order. */
  datatype Effect = Effect(state: PlayerState, sent: seq<ControlMsg>)

  const MaxVolume: uint32 := 150

  /** `PlayAsync(track)`. */
  function Play(guildId: ulong, s: PlayerState, track: Tracks.Track): Effect
  {
    Effect(s.(track := Some(track), playing := true), [ControlMsg.Play(guildId, track.trackId)])
  }

  /** `PauseAsync()`. */
  function Pause(guildId: ulong, s: PlayerState): Result<Effect, PlayerError>
  {
    if !s.playing then Failure(InvalidOperation)
    else Success(Effect(s.(playing := false), [ControlMsg.Pause(guildId, true)]))
  }

  /** `ResumeAsync()`. */
  function Resume(guildId: ulong, s: PlayerState): Result<Effect, PlayerError>
  {
    if s.playing then Failure(InvalidOperation)
    else Success(Effect(s.(playing := true), [ControlMsg.Pause(guildId, false)]))
  }

  /** `StopAsync()`: the track is kept. */
  function Stop(guildId: ulong, s: PlayerState): Effect
  {
    Effect(s.(playing := false), [ControlMsg.Stop(guildId)])
  }

  /** `SeekAsync(position)`: nothing changes here; the node reports the new
      position later with a player update. */
  function Seek(guildId: ulong, s: PlayerState, position: int32): Effect
  {
    Effect(s, [ControlMsg.Seek(guildId, position)])
  }

  /** `SetVolumeAsync(volume)`. */
  function SetVolume(guildId: ulong, s: PlayerState, volume: uint32): Result<Effect, PlayerError>
  {
    if volume > MaxVolume then Failure(VolumeOutOfRange)
    else Success(Effect(s, [ControlMsg.Volume(guildId, volume)]))
  }

  /** What `DisconnectAsync` does to the player itself; the manager drops the guild
      from its registry. The track is kept. */
  function Disconnect(guildId: ulong, s: PlayerState): Effect
  {
    Effect(s.(playing := false), [Destroy(guildId)])
  }

  /** `UpdateSessionAsync(change, changeData)`: sends, and changes no state. */
  function UpdateSession(s: PlayerState, change: SessionChange): seq<ControlMsg>
  {
    match change
    case Connect(server) => [VoiceUpdate(server.guildId, s.sessionId, server.token, server.endpoint)]
    case Disconnect(guildId) => [Destroy(guildId)]
    case _ => []
  }

  /** `FireEvent(eventType, eventData)`; a player update casts its data with `(long)`. */
  function FireEvent(s: PlayerState, e: Event, data: Option<Json>): Result<PlayerState, Fault>
  {
    match e
    case PlayerUpdate =>
      var position :- ToLong(data);
      Success(s.(position := position))
    case TrackEnd => Success(s.(track := None, playing := true))
    case TrackException => Success(s.(track := None, playing := false))
    case TrackStuck => Success(s.(track := None, playing := false))
    case _ => Success(s)
  }

  // ---------------------------------------------------------------------------
  // Properties of the operations.

  /** In every state exactly one of pause and resume is allowed: the one that
      flips `Playing`. */
  lemma PauseOrResume(guildId: ulong, s: PlayerState)
    ensures Pause(guildId, s).Success? <==> s.playing
    ensures Resume(guildId, s).Success? <==> !s.playing
    ensures Pause(guildId, s).Success? ==> Pause(guildId, s).value.state.playing == false
    ensures Resume(guildId, s).Success? ==> Resume(guildId, s).value.state.playing == true
  {
  }

  /** Pausing a playing player and resuming it gives the state back, with one
      `pause(true)` and one `pause(false)` on the wire. */
  lemma PauseThenResume(guildId: ulong, s: PlayerState)
    requires s.playing
    ensures var p := Pause(guildId, s);
      && p.Success?
      && Resume(guildId, p.value.state).Success?
      && Resume(guildId, p.value.state).value.state == s
      && p.value.sent + Resume(guildId, p.value.state).value.sent
         == [ControlMsg.Pause(guildId, true), ControlMsg.Pause(guildId, false)]
  {
  }

  /** Resuming a paused player and pausing it again gives the state back. */
  lemma ResumeThenPause(guildId: ulong, s: PlayerState)
    requires !s.playing
    ensures var r := Resume(guildId, s);
      && r.Success?
      && Pause(guildId, r.value.state).Success?
      && Pause(guildId, r.value.state).value.state == s
  {
  }

  /** Every accepted command sends exactly one message, about the player's own
      guild; a rejected one raises before sending. */
  lemma CommandsSendOneMessage(guildId: ulong, s: PlayerState, track: Tracks.Track, position: int32, volume: uint32)
    ensures forall e :: (e in [Success(Play(guildId, s, track)), Pause(guildId, s), Resume(guildId, s),
                                Success(Stop(guildId, s)), Success(Seek(guildId, s, position)),
                                SetVolume(guildId, s, volume), Success(Disconnect(guildId, s))]
                         && e.Success?) ==> |e.value.sent| == 1 && e.value.sent[0].guildId == guildId
  {
  }

  /** The volume is accepted exactly up to 150, and setting it changes no state. */
  lemma VolumeBound(guildId: ulong, s: PlayerState, volume: uint32)
    ensures SetVolume(guildId, s, volume).Success? <==> volume <= 150
    ensures SetVolume(guildId, s, volume).Success? ==> SetVolume(guildId, s, volume).value.state == s
  {
  }

  /** Playing records the track and sends its id; stopping afterwards keeps it. */
  lemma PlayThenStopKeepsTrack(guildId: ulong, s: PlayerState, track: Tracks.Track)
    ensures var stopped := Stop(guildId, Play(guildId, s, track).state).state;
      stopped.track == Some(track) && !stopped.playing
    ensures Play(guildId, s, track).sent == [ControlMsg.Play(guildId, track.trackId)]
  {
  }

  /** No event touches the session id, and only a player update moves the position. */
  lemma EventsKeepSession(s: PlayerState, e: Event, data: Option<Json>)
    requires FireEvent(s, e, data).Success?
    ensures FireEvent(s, e, data).value.sessionId == s.sessionId
    ensures e != PlayerUpdate ==> FireEvent(s, e, data).value.position == s.position
    ensures e == PlayerUpdate ==> FireEvent(s, e, data).value == s.(position := ToLong(data).value)
  {
  }

  /** The events that end a track clear it; the end of a track leaves the player
      marked as playing, the other two as stopped. */
  lemma TrackEventsClearTrack(s: PlayerState, e: Event, data: Option<Json>)
    requires e in {TrackEnd, TrackException, TrackStuck}
    ensures FireEvent(s, e, data).Success?
    ensures FireEvent(s, e, data).value.track.None?
    ensures FireEvent(s, e, data).value.playing <==> e == TrackEnd
  {
  }

  /** Because a track end leaves `Playing` true, a player whose track ended can be
      paused but not resumed, although nothing is playing. */
  lemma AfterTrackEnd(guildId: ulong, s: PlayerState, data: Option<Json>)
    ensures var ended := FireEvent(s, TrackEnd, data).value;
      ended.track.None? && Pause(guildId, ended).Success? && Resume(guildId, ended) == Failure(InvalidOperation)
  {
  }
}
