/** What the client and the Lavalink node exchange, before JSON text: the control
    messages the client sends (built as `JObject`s in LavalinkPlayer.cs and
    LavalinkManager.cs), the player events of SharpLink/Enums/Event.cs, the
    session changes of SharpLink/Enums/SessionChange.cs, and the notifications the
    manager raises for its subscribers. Guild ids travel as decimal text. */
module Messages {
  import opened Base
  import opened Json
  import Decimal
  import Tracks

  /** `Event`: what `FireEvent` is told. */
  datatype Event = PlayerUpdate | TrackEnd | TrackException | TrackStuck | ConnectionLost | ConnectionResumed

  /** `SocketVoiceServer`, as far as the client reads it. */
  datatype VoiceServer = VoiceServer(guildId: ulong, token: string, endpoint: string)

  /** `SessionChange` with the `changeData` its callers pass: the voice server for
      `Connect`, the guild id for `Disconnect`, nothing otherwise. */
  datatype SessionChange =
    | Connect(server: VoiceServer)
    | Disconnect(guildId: ulong)
    | ConnectionLost
    | MoveNode

  /** A control message for the node; `track` is the track id, which may be null. */
  datatype ControlMsg =
    | Play(guildId: ulong, track: Option<string>)
    | Pause(guildId: ulong, pause: bool)
    | Stop(guildId: ulong)
    | Seek(guildId: ulong, position: int32)
    | Volume(guildId: ulong, volume: uint32)
    | VoiceUpdate(guildId: ulong, sessionId: string, token: string, endpoint: string)
    | Destroy(guildId: ulong)

  /** The manager's public events, with the player named by its guild. */
  datatype Notification =
    | PlayerUpdated(guildId: ulong, track: Option<Tracks.Track>, position: int64)
    | TrackEnded(guildId: ulong, track: Option<Tracks.Track>, reason: Option<string>)
    | TrackFailed(guildId: ulong, track: Option<Tracks.Track>, error: Option<string>)
    | TrackStuckFor(guildId: ulong, track: Option<Tracks.Track>, thresholdMs: int64)

  /** `$"{guildId}"`. */
  function GuildText(g: ulong): Json
  {
    JString(Decimal.DecimalText(g))
  }

  /** The `JObject` each sender builds. */
  function ToJson(m: ControlMsg): (o: map<string, Json>)
    ensures "op" in o && "guildId" in o && o["guildId"] == GuildText(m.guildId)
  {
    match m
    case Play(g, track) =>
      map["op" := JString("play"), "guildId" := GuildText(g),
          "track" := match track case Some(t) => JString(t) case None => JNull]
    case Pause(g, pause) => map["op" := JString("pause"), "guildId" := GuildText(g), "pause" := JBool(pause)]
    case Stop(g) => map["op" := JString("stop"), "guildId" := GuildText(g)]
    case Seek(g, position) => map["op" := JString("seek"), "guildId" := GuildText(g), "position" := JNumber(position)]
    case Volume(g, volume) => map["op" := JString("volume"), "guildId" := GuildText(g), "volume" := JNumber(volume)]
    case VoiceUpdate(g, sessionId, token, endpoint) =>
      map["op" := JString("voiceUpdate"), "guildId" := GuildText(g), "sessionId" := JString(sessionId),
          "event" := JObject(map["token" := JString(token), "guild_id" := GuildText(g),
                                 "endpoint" := JString(endpoint)])]
    case Destroy(g) => map["op" := JString("destroy"), "guildId" := GuildText(g)]
  }

  /** The string at `o[key]`, if there is one. */
  function TextField(o: map<string, Json>, key: string): Option<string>
  {
    if key in o && o[key].JString? then Some(o[key].s) else None
  }

  /** A reading of a control message as the node receives it. */
  function FromJson(o: map<string, Json>): Option<ControlMsg>
  {
    var op :- TextField(o, "op");
    var gText :- TextField(o, "guildId");
    var g :- Decimal.ParseDecimal(gText);
    if g >= 0x1_0000_0000_0000_0000 then None
    else if op == "play" && "track" in o then
      (match o["track"]
       case JString(t) => Some(Play(g, Some(t)))
       case JNull => Some(Play(g, None))
       case _ => None)
    else if op == "pause" && "pause" in o && o["pause"].JBool? then Some(Pause(g, o["pause"].b))
    else if op == "stop" then Some(Stop(g))
    else if op == "seek" && "position" in o && o["position"].JNumber?
         && -0x8000_0000 <= o["position"].n < 0x8000_0000 then Some(Seek(g, o["position"].n))
    else if op == "volume" && "volume" in o && o["volume"].JNumber?
         && 0 <= o["volume"].n < 0x1_0000_0000 then Some(Volume(g, o["volume"].n))
    else if op == "voiceUpdate" && "event" in o && o["event"].JObject? then
      var sessionId :- TextField(o, "sessionId");
      var token :- TextField(o["event"].fields, "token");
      var endpoint :- TextField(o["event"].fields, "endpoint");
      Some(VoiceUpdate(g, sessionId, token, endpoint))
    else if op == "destroy" then Some(Destroy(g))
    else None
  }

  /** Every control message reads back as itself: no two messages look alike on
      the wire, and each names its guild by the id it was built with. */
  lemma FromJsonToJson(m: ControlMsg)
    ensures FromJson(ToJson(m)) == Some(m)
  {
    var o := ToJson(m);
    assert TextField(o, "guildId") == Some(Decimal.DecimalText(m.guildId));
    Decimal.ParseDecimalText(m.guildId);
    match m
    case VoiceUpdate(g, sessionId, token, endpoint) =>
      assert TextField(o, "op") == Some("voiceUpdate");
      assert TextField(o["event"].fields, "token") == Some(token);
    case Play(_, _) => assert TextField(o, "op") == Some("play");
    case Pause(_, _) => assert TextField(o, "op") == Some("pause");
    case Stop(_) => assert TextField(o, "op") == Some("stop");
    case Seek(_, _) => assert TextField(o, "op") == Some("seek");
    case Volume(_, _) => assert TextField(o, "op") == Some("volume");
    case Destroy(_) => assert TextField(o, "op") == Some("destroy");
  }

  /** The node's `(ulong) message["guildId"]` of a sent message is its guild. */
  lemma GuildIdReadBack(m: ControlMsg)
    ensures ToULong(Tracks.Member(JObject(ToJson(m)), "guildId")) == Success(m.guildId)
  {
    GuildIdTextCasts(m.guildId);
  }
}
