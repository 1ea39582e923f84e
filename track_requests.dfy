/** The manager's REST helpers (LavalinkManager.cs): `RequestLoadTracksAsync`
    picks the track array out of a `loadtracks` reply, `GetTrackAsync` reads its
    first element and `GetTracksAsync` all of them. The HTTP request and the
    parsing of the reply text are left out: the reply arrives as a `Json` value. */
module TrackRequests {
  import opened Base
  import opened Json
  import Tracks
  import LoadTracks

  /** The `switch (json)` of `RequestLoadTracksAsync`: an array is returned as is,
      an object's `tracks` member cast with `as JArray`, anything else is null. */
  function RequestLoadTracks(json: Json): (r: Option<seq<Json>>)
    ensures json.JArray? ==> r == Some(json.items)
    ensures json.JObject? ==>
      (r.Some? <==> "tracks" in json.fields && json.fields["tracks"].JArray?)
    ensures json.JObject? && r.Some? ==> r.value == json.fields["tracks"].items
    ensures !json.JArray? && !json.JObject? ==> r.None?
  {
    match json
    case JArray(items) => Some(items)
    case JObject(fields) =>
      if "tracks" in fields && fields["tracks"].JArray? then Some(fields["tracks"].items) else None
    case _ => None
  }

  /** `GetTrackAsync`: null for no array or an empty one, else the first element read. */
  function GetTrack(json: Json): (r: Result<Option<Tracks.Track>, Fault>)
    ensures r.Success? && r.value.None? <==> RequestLoadTracks(json).None? || RequestLoadTracks(json).value == []
    ensures r.Success? && r.value.Some? ==> Tracks.FromJson(RequestLoadTracks(json).value[0]) == Success(r.value.value)
  {
    match RequestLoadTracks(json)
    case None => Success(None)
    case Some(items) =>
      if items == [] then Success(None)
      else
        var track :- Tracks.FromJson(items[0]);
        Success(Some(track))
  }

  /** `GetTracksAsync`: null for no array, else every element read, in order. */
  method GetTracks(json: Json) returns (r: Result<Option<seq<Tracks.Track>>, Fault>)
    ensures RequestLoadTracks(json).None? ==> r == Success(None)
    ensures RequestLoadTracks(json).Some? ==>
      var all := LoadTracks.TracksOf(RequestLoadTracks(json).value);
      && (r.Success? <==> all.Success?)
      && (r.Success? ==> r.value == Some(all.value))
      && (r.Failure? ==> r.error == all.error)
  {
    var items := RequestLoadTracks(json);
    if items.None? {
      return Success(None);
    }
    var tracks := LoadTracks.BuildTrackList(items.value);
    if tracks.Failure? {
      return Failure(tracks.error);
    }
    r := Success(Some(tracks.value));
  }

  /** When the whole list can be read, the single-track request returns its head. */
  lemma GetTrackIsFirst(json: Json)
    requires RequestLoadTracks(json).Some?
    requires LoadTracks.TracksOf(RequestLoadTracks(json).value).Success?
    ensures var all := LoadTracks.TracksOf(RequestLoadTracks(json).value).value;
      GetTrack(json) == Success(if all == [] then None else Some(all[0]))
  {
  }

  /** The request helpers and the response constructor read the same array of a
      Lavalink 3 reply: whenever the response holds tracks, they are the ones
      `GetTracksAsync` reads. */
  lemma RequestAgreesWithResponse(json: Json)
    requires LoadTracks.ResponseOf(json).Success? && LoadTracks.ResponseOf(json).value.tracks.Some?
    ensures RequestLoadTracks(json).Some?
    ensures LoadTracks.TracksOf(RequestLoadTracks(json).value) == Success(LoadTracks.ResponseOf(json).value.tracks.value)
  {
    var fields := json.fields;
    var items := fields["tracks"].items;
    var tracks := LoadTracks.TracksOf(items).value;
    var loadType := ToText(Tracks.Member(json, "loadType")).value;
    assert LoadTracks.ResponseOf(json)
        == LoadTracks.Assign(LoadTracks.ParseLoadType(loadType), tracks, Tracks.Member(json, "playlistInfo"));
  }
}
