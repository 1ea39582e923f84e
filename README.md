# SharpLink, modelled in Dafny

SharpLink is a Discord.Net client for a Lavalink audio node. A bot holds one
`LavalinkManager`. The manager keeps a WebSocket control channel to the node
open, retrying with a growing wait, and keeps a registry of one
`LavalinkPlayer` per guild. It routes the node's dispatch messages
(`playerUpdate`, `event`) to the players, and follows the bot's own voice
state to start and tear down voice sessions. It also resolves tracks, either
through the node's `loadtracks` REST lookup or by decoding a base64 track
identifier locally.

This project models that core and proves properties of it. It has these parts:

- `base.dfy`: `Option`/`Result` and the .NET integer widths as subset types.
- `decimal.dfy`: decimal text.
- `util.dfy`: the byte swaps of `Util.cs`.
- `json.dfy`: a small JSON datatype with the Newtonsoft casts the client uses.
- `track.dfy`: both `LavalinkTrack` constructors.
- `track_codec.dfy`: the `GetTrackFromId` decoder. An imperative cursor walk is proved equal to a functional decoder over suffixes. The file also has an encoder that follows the layout comment, with round-trip and completeness proofs.
- `playlist_info.dfy`, `load_tracks.dfy` and `track_requests.dfy`: the `loadtracks` reply (`PlaylistInfo`, `LoadTracksResponse`, `RequestLoadTracksAsync`, `GetTrackAsync` and `GetTracksAsync`).
- `messages.dfy`: the control messages the client sends, with their JSON form.
- `player_state.dfy`: the player's state machine as functions.
- `manager_rules.dfy`: the manager's rules as functions:
  - the reconnect backoff;
  - dispatch of inbound messages;
  - the voice-state handler;
  - the shard sweep.
- `socket.dfy`: the WebSocket receive loop over a fixed 128 KiB buffer, as a class with arrays, and the host URI.
- `lavalink.dfy`: the `LavalinkPlayer` and `LavalinkManager` classes. Their state lives in fields. What is "sent" is the socket's outbox; the manager's `Outbox()` is empty while it has no socket. Each method is proved against the functions above.

The network, Discord, base64, UTF-8 and the JSON parser are outside the model:

- Frames received, attempts accepted and voice-state transitions are method parameters.
- Base64 and UTF-8 decoding are function parameters (`fromBase64`, `utf8`).
- JSON values are the `Json` datatype.

Some behaviours of the code are easy to misread. The model follows the code in each of them:

- `TrackEnd` clears the track but leaves `Playing` true (`LavalinkPlayer.cs:162`). A player whose track ended can still be paused, and cannot be resumed.
- A close frame does not set `end` in the receive loop (`LavalinkWebSocket.cs:72-77`). It raises `OnClosed` and clears `Connected`. The loop then receives again on the closed socket, which throws, so the receive call and the session of `ConnectWebSocketAsync` end there.
- A voice-server update for a guild without a player raises `KeyNotFound` (`LavalinkManager.cs:69`), because the dictionary is indexed directly. The same holds for the lookup of the joined guild (`LavalinkManager.cs:82`).
- A decode that runs out of bytes is reported in two ways. A read that starts past the end is "TrackId failed to parse". A read that starts inside the buffer with too few bytes after it is "TrackId is not valid", because `BitConverter` throws a plain `ArgumentException` there (`ShortInputs` shows both).
- The manager's configuration performs no validation. `MaxNumberOfTries` is read (`LavalinkManager.cs:180`) but not declared in `LavalinkManagerConfig.cs`, so the model takes it as a constructor argument of any `int32`.

## Model

| member | source | states |
|---|---|---|
| Util.SwapEndianess16 | Util.cs:7-12 | the result is the value with its two bytes exchanged: `v / 256 + (v % 256) * 256`, for every `ushort` |
| Util.SwapEndianess64 | Util.cs:14-19 | byte `i` of the result is byte `7 - i` of the value, for every `ulong` |
| Util.SwapEndianess16Involutive | Util.cs:7-12 | swapping twice gives the value back |
| Util.SwapEndianess64Involutive | Util.cs:14-19 | swapping twice gives the value back |
| Util.SwapOfRead16 | Util.cs:7-12 | a little-endian `ToUInt16` of two bytes, swapped, is their big-endian reading |
| Util.SwapOfRead64 | Util.cs:14-19 | a little-endian `ToUInt64` of eight bytes, swapped, is their big-endian reading |
| Util.FromBytesLEOfGetBytes | Util.cs:9-11 | `ToUInt16`/`ToUInt64` of `GetBytes(v)` reads `v` back |
| Util.FromBytesBEOfGetBytes | LavalinkManager.cs:450 | writing `n` big-endian bytes of `v < 256^n` and reading them gives `v` |
| Util.GetBytesOfFromBytesBE | LavalinkManager.cs:450 | reading `n` big-endian bytes and writing the value gives the bytes |
| Decimal.DecimalText | LavalinkPlayer.cs:76 | `$"{guildId}"` is a non-empty run of decimal digits with no leading zero |
| Decimal.ParseDecimalText | LavalinkPlayer.cs:76 | the decimal text of a guild id parses back to the id |
| Decimal.DecimalTextInjective | LavalinkWebSocket.cs:29 | distinct numbers have distinct decimal texts |
| Json.Index | LavalinkManager.cs:248 | `token[key]` of a null token raises `NullReference`; it succeeds exactly on an object, and gives the member or null |
| Json.ToText | LavalinkTrack.cs:20 | `(string)` gives null for a missing or null token and the text for a string, and raises otherwise |
| Json.ToBool | LavalinkTrack.cs:22 | `(bool)` succeeds exactly on a JSON boolean, and gives that boolean |
| Json.ToULong | LavalinkManager.cs:241 | `(ulong)` succeeds exactly on an integer in `0 .. 2^64-1`, and gives that integer |
| Json.ToLong | LavalinkPlayer.cs:155 | `(long)` succeeds exactly on an integer in the `int64` range, and gives that integer |
| Json.ToInt32 | SharpLink/Rest/PlaylistInfo.cs:18 | `(int)` succeeds exactly on an integer in the `int32` range, and gives that integer |
| Json.GuildIdTextCasts | LavalinkManager.cs:241 | a guild id sent as decimal text casts back to the same `ulong` |
| Tracks.FromJson | LavalinkTrack.cs:18-28 | the JSON constructor succeeds exactly when every cast succeeds, and copies `track` and the `info` fields; `Length` is unbounded iff `isStream`, otherwise `length` milliseconds |
| Tracks.FromFields | LavalinkTrack.cs:32-43 | the decoder's constructor copies its arguments; `Length` is always the given milliseconds, because `IsStream` is read before it is assigned; `IsSeekable` stays false |
| Rest.NewPlaylistInfo | SharpLink/Rest/PlaylistInfo.cs:10-20 | a null `info` keeps the defaults `""` and `-1`; otherwise `Name` and `SelectedTrack` come from the casts of `name` and `selectedTrack`, and a failed cast raises |
| Rest.PlaylistInfoOf | SharpLink/Rest/PlaylistInfo.cs:13-20 | an object with a name and a selected track yields exactly those |
| LoadTracks.ParseLoadType | SharpLink/LoadTracksResponse.cs:49-85 | a `loadType` text names a load type exactly when it is that type's Lavalink name |
| LoadTracks.TracksOf | SharpLink/LoadTracksResponse.cs:34-37 | one track per element, in order, when every element reads; otherwise the fault of the first element that does not |
| LoadTracks.BuildTrackList | SharpLink/LoadTracksResponse.cs:43-47 | the `foreach` loop computes `TracksOf` |
| LoadTracks.TracksFromMeaning | SharpLink/LoadTracksResponse.cs:43-47 | reading the elements from an index on, as the loop does, gives `TracksOf` of that suffix |
| LoadTracks.NewLoadTracksResponse | SharpLink/LoadTracksResponse.cs:27-87 | the constructor computes `ResponseOf`, the switch on the reply's shape |
| LoadTracks.ArrayReplyAssignsNothing | SharpLink/LoadTracksResponse.cs:30-38 | a bare array leaves every field null (the list is built and dropped), and raises only when a track does |
| LoadTracks.OtherReplyAssignsNothing | SharpLink/LoadTracksResponse.cs:39 | a reply that is neither an array nor an object with `tracks` leaves every field null |
| LoadTracks.ObjectReply | SharpLink/LoadTracksResponse.cs:39-85 | for each known `loadType`: `LoadType` is set; `Tracks` is the built list exactly for track, playlist and search results; `PlaylistInfo` is set exactly for a playlist, from `playlistInfo` |
| LoadTracks.UnknownLoadType | SharpLink/LoadTracksResponse.cs:49-85 | an unknown `loadType` leaves every field null |
| TrackRequests.RequestLoadTracks | LavalinkManager.cs:408-416 | an array is returned as is, an object's `tracks` is returned when it is an array, and anything else gives null |
| TrackRequests.GetTrack | LavalinkManager.cs:424-435 | null for a null or empty array, otherwise the track read from the first element |
| TrackRequests.GetTracks | LavalinkManager.cs:538-551 | null for a null array, otherwise every element read in order, or the first fault |
| TrackRequests.GetTrackIsFirst | LavalinkManager.cs:424-435 | `GetTrackAsync` is the first of `GetTracksAsync`'s tracks, or null if there are none |
| TrackRequests.RequestAgreesWithResponse | LavalinkManager.cs:408-416 | when `LoadTracksResponse` yields tracks, the request's array holds exactly those tracks |
| TrackCodec.Caught | LavalinkManager.cs:521-529 | an out-of-range exception becomes "failed to parse", every other one "not valid" |
| TrackCodec.ToUInt16Agrees | LavalinkManager.cs:476 | `SwapEndianess(ToUInt16(bytes, offset))` fails exactly when the functional read fails, with the same message, and otherwise reads the big-endian value and leaves the bytes after it |
| TrackCodec.ToUInt64Agrees | LavalinkManager.cs:484 | the same for the 8-byte reads |
| TrackCodec.ReadTextAt | LavalinkManager.cs:476-478 | a length-prefixed text at the cursor, read as `ReadText` reads it from the suffix |
| TrackCodec.SkipTextAt | LavalinkManager.cs:513-514 | the container skip moves the cursor as `SkipText` does, with no range check of its own |
| TrackCodec.ReadBoolAt | LavalinkManager.cs:491-492 | `ToBoolean` at the cursor is "byte != 0", as `ReadFlag` reads it |
| TrackCodec.ReadULongAt | LavalinkManager.cs:484-485 | the 8-byte big-endian integer at the cursor, as `ReadU64` reads it |
| TrackCodec.ReadInfo | LavalinkManager.cs:472-489 | from offset 5: title, author, length and identifier, as `DecodeInfo` reads them |
| TrackCodec.ReadHead | LavalinkManager.cs:472-503 | then the stream flag, the url-present flag and a url only when that flag is set, as `DecodeHead` reads them |
| TrackCodec.TryDecode | LavalinkManager.cs:469-520 | the `try` block: bad base64 raises `FormatException`; otherwise it agrees with `FromId` once its exception is caught |
| TrackCodec.GetTrackFromId | LavalinkManager.cs:443-531 | the whole method computes `FromId`: the decoded track or one of the two `ArgumentException` messages |
| TrackCodec.DecodeEncode | LavalinkManager.cs:447-519 | decoding an encoding laid out as the comment says gives back title, author, length, identifier, stream flag, url (null when absent) and position, with `trackId` verbatim |
| TrackCodec.DecodeEncodeBody | LavalinkManager.cs:472-474 | the same behind any 5 header bytes and before any trailing bytes |
| TrackCodec.DecodeFieldsOfBody | LavalinkManager.cs:476-519 | the walk from offset 5 decodes an encoded body and leaves the bytes after it |
| TrackCodec.DecodedIsEncoding | LavalinkManager.cs:476-519 | every successful decode is of an encoding: the bytes read are exactly the encoding of some fields, and the track is built from them |
| TrackCodec.DecodeExtends | LavalinkManager.cs:517 | bytes after the position are never read: appending bytes changes nothing |
| TrackCodec.HeaderNotRead | LavalinkManager.cs:472-474 | the first 5 bytes are never read |
| TrackCodec.TruncatedFails | LavalinkManager.cs:476-517 | every proper prefix of an encoding fails to decode |
| TrackCodec.EmptyFails | LavalinkManager.cs:476 | nothing after the header is "failed to parse" |
| TrackCodec.ShortInputs | LavalinkManager.cs:469-529 | a read starting at the end is "failed to parse", and one with one byte is "not valid" |
| TrackCodec.ReadTextIsText | LavalinkManager.cs:451 | a text that reads is a 2-byte big-endian length, then that many bytes |
| TrackCodec.InfoIsEncoding | LavalinkManager.cs:476-489 | title, author, length and identifier that read are an encoding of them |
| TrackCodec.HeadIsEncoding | LavalinkManager.cs:476-503 | the same, through the two flags and the url |
| TrackCodec.TailIsEncoding | LavalinkManager.cs:506-517 | source name, an optional container type and the position that read are an encoding of them |
| Messages.ToJson | LavalinkPlayer.cs:69-222 | every control message's `JObject` has an `op` and a `guildId` that is the guild's decimal text |
| Messages.FromJsonToJson | LavalinkPlayer.cs:73-79 | every control message's JSON object reads back as the same message |
| Messages.GuildIdReadBack | LavalinkPlayer.cs:76 | the `guildId` text of every control message casts back to its guild |
| Players.PauseOrResume | LavalinkPlayer.cs:69-99 | in every state exactly one of pause and resume is allowed, and it flips `Playing` |
| Players.PauseThenResume | LavalinkPlayer.cs:69-99 | pause then resume restores the state and sends `pause(true)` then `pause(false)` |
| Players.ResumeThenPause | LavalinkPlayer.cs:69-99 | resume then pause restores the state, for a player that never played too |
| Players.CommandsSendOneMessage | LavalinkPlayer.cs:58-147 | every command that succeeds sends exactly one message, for its own guild |
| Players.VolumeBound | LavalinkPlayer.cs:134-147 | the volume is accepted iff it is at most 150, and changes no state |
| Players.PlayThenStopKeepsTrack | LavalinkPlayer.cs:58-110 | `play` sends the track id; stop after play keeps the track and stops playing |
| Players.EventsKeepSession | LavalinkPlayer.cs:149-180 | no event changes the session id; only a player update moves the position, to the cast payload |
| Players.TrackEventsClearTrack | LavalinkPlayer.cs:159-178 | the three track events clear the track; `Playing` is true afterwards exactly for a track end |
| Players.AfterTrackEnd | LavalinkPlayer.cs:159-164 | after a track end a player has no track, yet can be paused and not resumed |
| ManagerRules.FailuresAccumulate | LavalinkManager.cs:196-203 | `n` failed attempts add `n` to `Tries` and `1000 n` ms to `connectionWait` |
| ManagerRules.GivesUpAfterMax | LavalinkManager.cs:176-203 | from the start, for every `int32` maximum, the loop gives up after `n` failures iff `MaxNumberOfTries` is not 0 and `n >= MaxNumberOfTries` (so at once when it is negative); the wait is then `3000 + 1000 n` |
| ManagerRules.SuccessResets | LavalinkManager.cs:204-207 | a success resets `Tries` to 0 and keeps `connectionWait`; the wait never shrinks |
| ManagerRules.DispatchTouchesAddressedOnly | LavalinkManager.cs:232-325 | dispatch never adds or drops a player, and changes only the player of the message's `guildId` |
| ManagerRules.UnregisteredGuildIgnored | LavalinkManager.cs:241-304 | a message for an unregistered guild changes nothing and notifies nobody |
| ManagerRules.UnknownMessagesIgnored | LavalinkManager.cs:296-321 | `stats`, unknown ops and unknown event types change no player |
| ManagerRules.NotificationCarriesPriorTrack | LavalinkManager.cs:245-291 | every notification names a registered player and carries the track it had before `FireEvent`; after a track event that player has no track |
| ManagerRules.LeaveNeverTearsDownAsWritten | LavalinkManager.cs:85-99 | as written, leaving a voice channel never tears the player down: the log line raises a null reference first |
| ManagerRules.VoiceStateTransitions | LavalinkManager.cs:72-101 | corrected handler: a join sets the session id of a registered guild, and a leave tears down a registered guild; both iff; otherwise it agrees with the handler as written |
| ManagerRules.SweptGuilds | LavalinkManager.cs:109-114 | the shard sweep disconnects exactly the shard's registered guilds, each once |
| ManagerRules.Without | LavalinkManager.cs:113 | a registry without some guilds keeps exactly the others, with their players |
| ManagerRules.Destroys | LavalinkPlayer.cs:217-222 | one `destroy` per guild, in order |
| ManagerRules.SweptStatesStep | LavalinkPlayer.cs:44-51 | disconnecting one more registered guild keeps the sweep's account: swept guilds hold their old state with `Playing` false, the others their old state |
| ManagerRules.WithoutOneMore | LavalinkManager.cs:113 | removing one more guild from a registry without some guilds is the registry without all of them |
| Sockets.ReceiveMessageMeaning | LavalinkWebSocket.cs:59-92 | a receive call ends at the first close frame, whose status it reports (the receive after it throws); at the first data frame that ends a message; or, raising, at the first data frame that no longer fits. A message is every payload in order, then zeros to 131072 bytes. Data frames that end no message leave it waiting |
| Sockets.SessionOf | LavalinkWebSocket.cs:44-50 | the receives of one session: every message is a whole 131072-byte buffer, at most one message per frame, and a session that ends on a close ends on a close frame |
| Sockets.SessionClose | LavalinkWebSocket.cs:44-50 | a session ends on a close frame only if the node sent one; a session of data frames only never does; one that starts with a close frame has no message and ends on it |
| Sockets.ReceiveFrom | LavalinkWebSocket.cs:68-88 | the same, from any frame on, given the payloads copied so far |
| Sockets.HostUriParts | LavalinkWebSocket.cs:29 | the URI is `ws://`, the host, `:` and the port, and for one host tells the ports apart |
| Sockets.HostUri | LavalinkWebSocket.cs:29 | the text `ws://host:port`, with the port in decimal (its properties are `HostUriParts`) |
| Sockets.LavalinkWebSocket.constructor | LavalinkWebSocket.cs:25-30 | the host URI is `ws://host:port`; no socket, not connected |
| Sockets.LavalinkWebSocket.IsConnected | LavalinkWebSocket.cs:94-97 | true exactly when a socket exists and `Connected` is set |
| Sockets.LavalinkWebSocket.SendAsync | LavalinkWebSocket.cs:99-103 | sending appends the message to the outbox and changes nothing else |
| Sockets.LavalinkWebSocket.Connect | LavalinkWebSocket.cs:32-51 | a new socket exists; a refused handshake leaves `Connected` and receives nothing; an accepted one runs the session: the messages are `SessionOf`'s, `OnClosed` is raised for its close frame if any, and `Connected` stays true exactly when no close frame came |
| Sockets.LavalinkWebSocket.ReceiveAsync | LavalinkWebSocket.cs:59-92 | computes `ReceiveMessage` on arrays; a close frame that ends the call raises `OnClosed` once and clears `Connected`; nothing else changes |
| Sockets.LavalinkWebSocket.ReceiveFrame | LavalinkWebSocket.cs:70-88 | one pass of the loop: a close frame is recorded; a data frame is copied at the offset, and the pass ends the call on end of message or overflow |
| Sockets.LavalinkWebSocket.TakeData | LavalinkWebSocket.cs:70-82 | the frame fills the temporary buffer; all 8192 bytes are copied at the offset unless that passes the end; a fresh temporary buffer follows |
| Sockets.LavalinkWebSocket.Fill | LavalinkWebSocket.cs:63-70 | a receive into a zeroed 8192-byte buffer: the frame's bytes, then zeros |
| Sockets.LavalinkWebSocket.CopyTo | LavalinkWebSocket.cs:80 | `Array.CopyTo`: the whole source at the offset, the rest unchanged |
| SharpLink.LavalinkPlayer.constructor | LavalinkPlayer.cs:13-31 | a new player is not playing, at position 0, with no track and an empty session id |
| SharpLink.LavalinkPlayer.PlayAsync | LavalinkPlayer.cs:58-63 | state and sent message as `Players.Play`: the track is set, `play` is sent, `Playing` becomes true |
| SharpLink.LavalinkPlayer.PauseAsync | LavalinkPlayer.cs:69-81 | raises `InvalidOperation` when not playing, without touching the socket (so with or without one); otherwise as `Players.Pause`; the socket's state is unchanged |
| SharpLink.LavalinkPlayer.ResumeAsync | LavalinkPlayer.cs:87-99 | raises `InvalidOperation` when playing, without touching the socket (so with or without one); otherwise as `Players.Resume`; the socket's state is unchanged |
| SharpLink.LavalinkPlayer.StopAsync | LavalinkPlayer.cs:105-110 | as `Players.Stop` |
| SharpLink.LavalinkPlayer.SeekAsync | LavalinkPlayer.cs:117-127 | as `Players.Seek`: one `seek`, no field changes |
| SharpLink.LavalinkPlayer.SetVolumeAsync | LavalinkPlayer.cs:134-147 | raises `VolumeOutOfRange` above 150, without touching the socket (so with or without one); otherwise as `Players.SetVolume`; the socket's state is unchanged |
| SharpLink.LavalinkPlayer.DisconnectAsync | LavalinkPlayer.cs:44-51 | sends `destroy` for its guild, the manager drops the guild, `Playing` becomes false, the track is kept |
| SharpLink.LavalinkPlayer.FireEvent | LavalinkPlayer.cs:149-180 | the new state is `Players.FireEvent`'s; a failed position cast raises and leaves the state |
| SharpLink.LavalinkPlayer.SetSessionId | LavalinkPlayer.cs:182-185 | only the session id changes |
| SharpLink.LavalinkPlayer.UpdateSessionAsync | LavalinkPlayer.cs:192-225 | sends `Players.UpdateSession`'s messages and changes no state |
| SharpLink.LavalinkManager.constructor | LavalinkManager.cs:18-24 | no socket, empty registry, `Tries` 0 and `connectionWait` 3000 |
| SharpLink.LavalinkManager.StartAsync | LavalinkManager.cs:219-230 | a fresh, unconnected socket for `ws://host:port`, with a fresh cancellation |
| SharpLink.LavalinkManager.JoinAsync | LavalinkManager.cs:359-374 | raises and changes nothing for a registered guild; otherwise adds exactly that guild, with a new player |
| SharpLink.LavalinkManager.GetPlayer | LavalinkManager.cs:381-384 | null iff the guild is not registered, otherwise its player |
| SharpLink.LavalinkManager.LeaveAsync | LavalinkManager.cs:390-396 | raises `NotConnected` and changes nothing iff the guild is not registered, with or without a socket; otherwise its player sends `destroy`, stops playing and leaves the registry; every other player, the backoff and the cancellation are unchanged; the socket, when there is one, keeps `hasSocket`, `Connected` and its record of close frames |
| SharpLink.LavalinkManager.RemovePlayerAsync | LavalinkManager.cs:161-169 | removes the guild if present and otherwise changes nothing |
| SharpLink.LavalinkManager.OnClosed | LavalinkManager.cs:327-335 | the registry is empty |
| SharpLink.LavalinkManager.DisconnectedSweep | LavalinkManager.cs:119-130 | every player is disconnected: one `destroy` each in enumeration order, each player's state as before but not playing, the registry empty, backoff and cancellation unchanged; a socket is needed only when there are players; the socket, when there is one, keeps `hasSocket`, `Connected` and its record of close frames |
| SharpLink.LavalinkManager.DisconnectEach | LavalinkManager.cs:123-128 | the loop over a registry that has a socket: one `destroy` per guild in enumeration order, each player no longer playing, the registry empty at the end, the socket still usable |
| SharpLink.LavalinkManager.DisconnectNext | LavalinkManager.cs:123-126 | one more player of a sweep: the registry loses that guild, the outbox gains its `destroy`, and only that player's `Playing` changes |
| SharpLink.LavalinkManager.DisconnectPlayer | LavalinkPlayer.cs:44-51 | one player's disconnect, seen from the registry: its guild leaves, its `destroy` is sent, it stops playing, and no other player changes |
| SharpLink.LavalinkManager.ShardSweep | LavalinkManager.cs:105-117 | exactly the shard's registered guilds leave the registry, each sends one `destroy` in shard order and stops playing; every other player, the backoff and the cancellation are unchanged; a socket is needed only when one of the shard's guilds has a player; the socket, when there is one, keeps `hasSocket`, `Connected` and its record of close frames |
| SharpLink.LavalinkManager.SweepShard | LavalinkManager.cs:109-114 | the loop over the shard's guilds when a socket is there: the registry without the shard's guilds, one `destroy` per registered guild in shard order, the socket still usable |
| ManagerRules.NoneSwept | LavalinkManager.cs:109-114 | a shard none of whose guilds has a player disconnects nothing |
| SharpLink.LavalinkManager.SweepGuild | LavalinkManager.cs:109-114 | one guild of the shard sweep: a registered guild is disconnected and removed, an unregistered one changes nothing |
| SharpLink.LavalinkManager.VoiceServerUpdated | LavalinkManager.cs:66-70 | a guild without a player raises `KeyNotFound` and sends nothing, with or without a socket; otherwise its player sends the voice update; the socket, when there is one, keeps `hasSocket`, `Connected` and its record of close frames |
| SharpLink.LavalinkManager.UserVoiceStateUpdated | LavalinkManager.cs:72-101 | does what the corrected `VoiceStateAction` says: set the session id, or clear it, send `destroy` and drop the guild, or raise `KeyNotFound` for an unregistered guild; only the teardown sends, so only it needs a socket; no other player, nor the backoff or cancellation, changes; the socket, when there is one, keeps `hasSocket`, `Connected` and its record of close frames |
| SharpLink.LavalinkManager.OnReceive | LavalinkManager.cs:232-325 | the players' new states, the notification and the fault are `Dispatch`'s |
| SharpLink.LavalinkManager.OnPlayerUpdate | LavalinkManager.cs:237-253 | as `ManagerRules.OnPlayerUpdate` |
| SharpLink.LavalinkManager.OnEvent | LavalinkManager.cs:255-307 | as `ManagerRules.OnEvent` |
| SharpLink.LavalinkManager.FireAt | LavalinkManager.cs:248 | one player's `FireEvent`, seen from the registry: only that guild's state changes |
| SharpLink.LavalinkManager.ReconnectStep | LavalinkManager.cs:176-210 | one pass of the reconnect loop: it stops, changing nothing, iff connected, cancelled or exhausted; otherwise `Connect()` runs the whole session, a close frame clears the registry, and `Tries`/`connectionWait` follow `AfterAttempt` on `IsConnected()` as the session left it, so a session the node closed counts as a failure |
| SharpLink.LavalinkManager.NodeClosedSessionExhausts | LavalinkManager.cs:180-203 | with `MaxNumberOfTries` 1, a session the node accepts and then closes leaves `Tries` 1 and `connectionWait` 4000, and the next pass gives up |
| SharpLink.LavalinkManager.VoiceUpdateCarriesSession | LavalinkPlayer.cs:182-213 | after `JoinAsync`, an optional voice-state update of the bot joining the guild's channel, and `VoiceServerUpdated`, the only message sent is the voice update, and its session id is the one that update stored, or `""` without it; this holds whether the node connection opens before the join or only just before the voice server arrives |
| SharpLink.LavalinkManager.StopAsync | LavalinkManager.cs:345-352 | before `StartAsync` it raises a null reference and cancels nothing; afterwards cancellation is requested; the socket, registry and backoff are unchanged |

## Findings

| source | as written | input that shows it | evidently intended | confidence | as-written member | corrected member |
|---|---|---|---|---|---|---|
| LavalinkManager.cs:87 | the "Disconnected" log line reads `newVoiceState.VoiceChannel.Guild.Id` in the branch where `newVoiceState.VoiceChannel` is null, so the handler raises a null reference before it clears the session, sends `destroy` or drops the guild | the bot's own user leaves a voice channel of a registered guild: old channel in guild 1, no new channel, registry `{1}` | log the old channel's guild, as the lookup at :91 does, so the teardown runs | not executed | ManagerRules.LeaveNeverTearsDownAsWritten | ManagerRules.VoiceStateTransitions |

`SharpLink.LavalinkManager.UserVoiceStateUpdated` uses the corrected `VoiceStateAction`.
`VoiceStateActionAsWritten` is kept beside it as the handler as written.

## Left out

- The network and Discord are left out:
  - `ClientWebSocket` connect, send and close;
  - the `HttpClient` GET;
  - voice-channel `ConnectAsync`/`DisconnectAsync`;
  - the `Authorization`, `Num-Shards` and `User-Id` headers.
  These are foreign I/O. Received frames and attempt outcomes are parameters, and what is sent is an outbox.
- Base64, UTF-8 and JSON parsing and printing are library calls, so they are left out. Base64 and UTF-8 decoding are parameters, and JSON is a datatype.
- Json.ToText, Json.ToBool, Json.ToULong, Json.ToLong and Json.ToInt32: the Newtonsoft casts are simplified:
  - numbers are integers or unsigned decimal text, so whitespace, signs, floats and booleans that Newtonsoft converts are refused;
  - `(bool)` accepts only booleans;
  - `(string)` accepts only text or null, while Newtonsoft also gives the text of a number or boolean.
- `stats` dispatch and the `Stats/` classes are left out. They are field-by-field casts, and stats messages change no player.
- Logging and `Log` events are left out, and so are the configuration classes.
- The earlier revisions under `SharpLink/` are not part of this model. The model follows the top-level files.
- Concurrency is left out: `playerLock`, `Task.Run`, `Task.Delay` and the async event fan-out. The model is sequential. In particular, the sweeps re-enter the non-reentrant lock through `RemovePlayerAsync`, which is not modelled.
- SharpLink.LavalinkManager.OnClosed: the handler also calls `ConnectWebSocket()` again (`LavalinkManager.cs:332`), which starts a second reconnect loop on another task. That restart is not modelled; only the registry being cleared is.
- SharpLink.LavalinkManager.SweepGuild: `players.Remove(guild.Id)` (`LavalinkManager.cs:113`) always finds the guild already removed by `DisconnectAsync`. The model states that as an assertion instead of performing an assignment that changes nothing.
- SharpLink.LavalinkManager.DisconnectEach: likewise `players.Clear()` (`LavalinkManager.cs:128`) finds the registry already empty, and is an assertion in the model.
- SharpLink.LavalinkManager.DisconnectedSweep: the `foreach` runs over a dictionary that `DisconnectAsync` shrinks. On .NET Framework, and on .NET Core before 3.0, that enumeration throws; from .NET Core 3.0 on, `Remove` does not invalidate it. The model iterates over a snapshot of the keys in a given order.
- SharpLink.LavalinkManager.ShardSweep and SharpLink.LavalinkManager.DisconnectedSweep: the dictionary's enumeration order and the shard's guild order are parameters.
- ManagerRules.FailuresAccumulate: `Tries` and `connectionWait` are unbounded here. The `int` overflow after 2^31 attempts is not modelled.
- SharpLink.LavalinkManager.ReconnectStep: one pass of the loop; the loop itself and the wait are not modelled. A handshake that throws is `accepted == false`. A session whose frames run out stands for a connection that drops without a close frame: the receive throws and `Connected` stays set, as in the source.
- SharpLink.LavalinkManager.ReconnectStep and Sockets.LavalinkWebSocket.Connect: the session's messages are returned as buffers. Their `JObject.Parse` and the `OnReceive` dispatch are modelled separately, by `SharpLink.LavalinkManager.OnReceive` on a parsed message.
- SharpLink.LavalinkManager.StopAsync: the socket's `Disconnect` (`CloseAsync`) is network I/O and is left out. The node's close reply then reaches the pending receive as a close frame. Its effects (`OnClosed`, the registry cleared, `Connected` cleared) are modelled as a session that ends on a close frame, in `Connect` and `ReconnectStep`.
- SharpLink.LavalinkManager.StopAsync: the missing `lavalinkCancellation` before `StartAsync` is modelled by the missing socket, since `StartAsync` creates both (`LavalinkManager.cs:219-230`).
- Tracks.FromJson: `TimeSpan.FromMilliseconds` of a huge length (beyond about 9.2e14 ms) throws in .NET. Lengths are unbounded milliseconds here.
- Tracks.FromFields: the same `TimeSpan.FromMilliseconds` overflow (`LavalinkTrack.cs:38`) is not modelled. The model returns a track for every length.
- TrackCodec.GetTrackFromId: for a length beyond about 9.2e14 ms the source's constructor throws `OverflowException`, which the generic catch turns into "TrackId is not valid". The model decodes such a track successfully, and `TrackCodec.DecodeEncode` gives such a length back.
- Sockets.HostUri: `Uri` normalisation of the host is not modelled; the URI is the text. `new Uri(...)` (`LavalinkWebSocket.cs:29`) throws `UriFormatException` for a malformed host, and the model accepts every host.
- Sockets.SessionOf: the string decode of the message buffer (`Encoding.UTF8.GetString`, `JObject.Parse`) is left out. A reassembled message is the whole 131072-byte buffer. In the source, a message that `JObject.Parse` rejects throws and ends the receive loop (`LavalinkWebSocket.cs:46-49`), while `SessionOf` goes on to the next message.
- Sends without a socket are excluded by precondition (`Sending()`, `hasSocket`). In the source they dereference a null `webSocket`. Only the paths that send need a socket. On the player, the checks that throw first need none (`PauseAsync`, `ResumeAsync`, `SetVolumeAsync`). On the manager, these paths need none: `LeaveAsync` and `VoiceServerUpdated` for a guild without a player, `UserVoiceStateUpdated` unless it tears a player down, and the two sweeps when they find no player. Send failures are not modelled.
- SharpLink.LavalinkManager.OnPlayerUpdate and SharpLink.LavalinkManager.OnEvent: the notification payload is cast as though a subscriber were attached, so a bad payload raises. With no subscriber, `?.` skips the cast.
- SharpLink.LavalinkManager.StartAsync: the `CurrentUser == null` check is left out. The current user is Discord state.
- `SessionChange.Connect` and `Disconnect` carry their `changeData` (the voice server, the guild id). In the source that argument is an untyped `object`.
- The track identifier's size and flags word and version byte are read by nobody. The model proves they are ignored (`HeaderNotRead`).
- A null track passed to `PlayAsync` is not modelled. A null `trackId` is: it is `None`, and `play` sends JSON null for it.
