/** `LoadTracksResponse` (SharpLink/LoadTracksResponse.cs) and `LoadType`
    (SharpLink/Enums/LoadType.cs): the reply of Lavalink's `loadtracks` endpoint.
    Lavalink 2 answers with a bare array of tracks, Lavalink 3 with an object
    holding `tracks`, `loadType` and, for playlists, `playlistInfo`. All three
    fields of the response start as null and the constructor fills them only for
    an object reply with a known `loadType`. */
module LoadTracks {
  import opened Base
  import opened Json
  import Tracks
  import Rest

  datatype LoadType = TrackLoaded | PlaylistLoaded | SearchResult | NoMatches | LoadFailed

  /** The `loadType` text Lavalink sends for each kind of reply. */
  function LoadTypeName(t: LoadType): string
  {
    match t
    case TrackLoaded => "TRACK_LOADED"
    case PlaylistLoaded => "PLAYLIST_LOADED"
    case SearchResult => "SEARCH_RESULT"
    case NoMatches => "NO_MATCHES"
    case LoadFailed => "LOAD_FAILED"
  }

  /** The `switch (loadType)`: a null or unknown text matches no case. */
  function ParseLoadType(name: Option<string>): (t: Option<LoadType>)
    ensures forall k :: t == Some(k) <==> name == Some(LoadTypeName(k))
  {
    match name
    case Some("TRACK_LOADED") => Some(TrackLoaded)
    case Some("PLAYLIST_LOADED") => Some(PlaylistLoaded)
    case Some("SEARCH_RESULT") => Some(SearchResult)
    case Some("NO_MATCHES") => Some(NoMatches)
    case Some("LOAD_FAILED") => Some(LoadFailed)
    case _ => None
  }

  /** The three public fields; `None` is null. */
  datatype LoadTracksResponse = LoadTracksResponse(
    loadType: Option<LoadType>,
    tracks: Option<seq<Tracks.Track>>,
    playlistInfo: Option<Rest.PlaylistInfo>)

  /** The response before the constructor assigns anything. */
  const Unassigned := LoadTracksResponse(None, None, None)

  /** `new LavalinkTrack(jsonTrack)` for each element in order; the first element
      that cannot be read raises, and no list comes out. */
  function TracksOf(items: seq<Json>): (r: Result<seq<Tracks.Track>, Fault>)
    ensures r.Success? <==> forall i :: 0 <= i < |items| ==> Tracks.FromJson(items[i]).Success?
    ensures r.Success? ==>
      |r.value| == |items| && forall i :: 0 <= i < |items| ==> Tracks.FromJson(items[i]) == Success(r.value[i])
    ensures r.Failure? ==>
      exists i :: 0 <= i < |items| && Tracks.FromJson(items[i]) == Failure(r.error)
                  && forall j :: 0 <= j < i ==> Tracks.FromJson(items[j]).Success?
  {
    if items == [] then Success([])
    else
      var first := Tracks.FromJson(items[0]);
      if first.Failure? then Failure(first.error)
      else
        var others := TracksOf(items[1..]);
        assert forall j :: 1 <= j < |items| ==> items[1..][j - 1] == items[j];
        if others.Failure? then Failure(others.error)
        else Success([first.value] + others.value)
  }

  /** A list of tracks and the result of reading what follows it. */
  function Prepend(tracks: seq<Tracks.Track>, r: Result<seq<Tracks.Track>, Fault>): Result<seq<Tracks.Track>, Fault>
  {
    match r
    case Success(more) => Success(tracks + more)
    case Failure(e) => Failure(e)
  }

  /** The `foreach` loop that fills a `List<LavalinkTrack>`, as the constructor and
      `GetTracksAsync` both run it. */
  method BuildTrackList(items: seq<Json>) returns (r: Result<seq<Tracks.Track>, Fault>)
    ensures r == TracksOf(items)
  {
    var tracks: seq<Tracks.Track> := [];
    var i := 0;
    PrependNothing(TracksFrom(items, 0));
    while i < |items|
      invariant 0 <= i <= |items|
      invariant TracksFrom(items, 0) == Prepend(tracks, TracksFrom(items, i))
    {
      var track := Tracks.FromJson(items[i]);
      if track.Failure? {
        TracksFromMeaning(items, 0);
        return Failure(track.error);
      }
      PrependTwice(tracks, [track.value], TracksFrom(items, i + 1));
      tracks := tracks + [track.value];
      i := i + 1;
    }
    assert tracks + [] == tracks;
    TracksFromMeaning(items, 0);
    r := Success(tracks);
  }

  /** The elements from index `start` on, read as `TracksOf` reads them; the loop
      above walks this index. */
  function TracksFrom(items: seq<Json>, start: nat): Result<seq<Tracks.Track>, Fault>
    requires start <= |items|
    decreases |items| - start
  {
    if start == |items| then Success([])
    else
      var first := Tracks.FromJson(items[start]);
      if first.Failure? then Failure(first.error)
      else Prepend([first.value], TracksFrom(items, start + 1))
  }

  /** Reading by index agrees with reading the suffix. */
  lemma {:induction false} TracksFromMeaning(items: seq<Json>, start: nat)
    requires start <= |items|
    ensures TracksFrom(items, start) == TracksOf(items[start..])
    decreases |items| - start
  {
    if start < |items| {
      assert items[start..][0] == items[start];
      assert items[start..][1..] == items[start + 1..];
      TracksFromMeaning(items, start + 1);
    }
  }

  lemma PrependNothing(r: Result<seq<Tracks.Track>, Fault>)
    ensures Prepend([], r) == r
  {
    if r.Success? {
      assert [] + r.value == r.value;
    }
  }

  lemma PrependTwice(a: seq<Tracks.Track>, b: seq<Tracks.Track>, r: Result<seq<Tracks.Track>, Fault>)
    ensures Prepend(a, Prepend(b, r)) == Prepend(a + b, r)
  {
    if r.Success? {
      assert a + (b + r.value) == (a + b) + r.value;
    }
  }

  /** The constructor: what it assigns, or the exception it raises. */
  function ResponseOf(response: Json): Result<LoadTracksResponse, Fault>
  {
    match response
    case JArray(items) =>
      // Lavalink 2: the list is built and then dropped.
      var _ :- TracksOf(items);
      Success(Unassigned)
    case JObject(fields) =>
      if "tracks" !in fields then Success(Unassigned)
      else
        var loadType :- ToText(Tracks.Member(response, "loadType"));
        (match fields["tracks"]
         case JArray(items) =>
           var tracks :- TracksOf(items);
           Assign(ParseLoadType(loadType), tracks, Tracks.Member(response, "playlistInfo"))
         case _ => Failure(NullReference))   // `as JArray` gave null, and the loop dereferences it
    case _ => Success(Unassigned)
  }

  /** The `switch`: which fields a known load type assigns. */
  function Assign(loadType: Option<LoadType>, tracks: seq<Tracks.Track>, playlistInfo: Option<Json>)
    : Result<LoadTracksResponse, Fault>
  {
    match loadType
    case Some(TrackLoaded) => Success(LoadTracksResponse(Some(TrackLoaded), Some(tracks), None))
    case Some(PlaylistLoaded) =>
      var info :- Rest.NewPlaylistInfo(playlistInfo);
      Success(LoadTracksResponse(Some(PlaylistLoaded), Some(tracks), Some(info)))
    case Some(SearchResult) => Success(LoadTracksResponse(Some(SearchResult), Some(tracks), None))
    case Some(NoMatches) => Success(LoadTracksResponse(Some(NoMatches), None, None))
    case Some(LoadFailed) => Success(LoadTracksResponse(Some(LoadFailed), None, None))
    case None => Success(Unassigned)
  }

  /** `new LoadTracksResponse(response)`. */
  method NewLoadTracksResponse(response: Json) returns (r: Result<LoadTracksResponse, Fault>)
    ensures r == ResponseOf(response)
  {
    if response.JArray? {
      var tracks := BuildTrackList(response.items);
      if tracks.Failure? {
        return Failure(tracks.error);
      }
      return Success(Unassigned);
    }
    if !response.JObject? || "tracks" !in response.fields {
      return Success(Unassigned);
    }
    var loadType := ToText(Tracks.Member(response, "loadType"));
    if loadType.Failure? {
      return Failure(loadType.error);
    }
    var tracksArray := response.fields["tracks"];
    if !tracksArray.JArray? {
      return Failure(NullReference);
    }
    var tracks := BuildTrackList(tracksArray.items);
    if tracks.Failure? {
      return Failure(tracks.error);
    }
    r := Assign(ParseLoadType(loadType.value), tracks.value, Tracks.Member(response, "playlistInfo"));
  }

  /** A Lavalink 2 reply assigns nothing: the tracks are read, so a bad one still
      raises, but the list is never stored. */
  lemma ArrayReplyAssignsNothing(items: seq<Json>)
    ensures ResponseOf(JArray(items)).Success? <==> TracksOf(items).Success?
    ensures ResponseOf(JArray(items)).Success? ==> ResponseOf(JArray(items)).value == Unassigned
  {
  }

  /** A reply that is neither an array nor an object with `tracks` assigns nothing. */
  lemma OtherReplyAssignsNothing(response: Json)
    requires !response.JArray?
    requires !(response.JObject? && "tracks" in response.fields)
    ensures ResponseOf(response) == Success(Unassigned)
  {
  }

  /** A Lavalink 3 reply: the tracks are the array's elements read in order; a
      single track and a search result carry them without playlist information,
      a playlist carries both, and no-matches and load-failed carry only the type. */
  lemma ObjectReply(fields: map<string, Json>, items: seq<Json>, t: LoadType)
    requires fields.Keys >= {"tracks", "loadType"} && fields["tracks"] == JArray(items)
    requires fields["loadType"] == JString(LoadTypeName(t))
    requires TracksOf(items).Success?
    ensures var r := ResponseOf(JObject(fields));
      && (t != PlaylistLoaded ==> r.Success?)
      && (r.Success? ==> r.value.loadType == Some(t))
      && (r.Success? ==> (r.value.tracks.Some? <==> t in {TrackLoaded, PlaylistLoaded, SearchResult}))
      && (r.Success? && r.value.tracks.Some? ==> r.value.tracks.value == TracksOf(items).value)
      && (r.Success? ==> (r.value.playlistInfo.Some? <==> t == PlaylistLoaded))
      && (t == PlaylistLoaded ==>
            (r.Success? <==> Rest.NewPlaylistInfo(Tracks.Member(JObject(fields), "playlistInfo")).Success?))
      && (t == PlaylistLoaded && r.Success? ==>
            r.value.playlistInfo == Some(Rest.NewPlaylistInfo(Tracks.Member(JObject(fields), "playlistInfo")).value))
  {
    assert Tracks.Member(JObject(fields), "loadType") == Some(JString(LoadTypeName(t)));
    assert ParseLoadType(Some(LoadTypeName(t))) == Some(t);
  }

  /** An unknown or missing `loadType` matches no case: the tracks are still read,
      and nothing is assigned. */
  lemma UnknownLoadType(fields: map<string, Json>, items: seq<Json>)
    requires "tracks" in fields && fields["tracks"] == JArray(items)
    requires ToText(Tracks.Member(JObject(fields), "loadType")).Success?
    requires ParseLoadType(ToText(Tracks.Member(JObject(fields), "loadType")).value).None?
    ensures ResponseOf(JObject(fields)).Success? <==> TracksOf(items).Success?
    ensures ResponseOf(JObject(fields)).Success? ==> ResponseOf(JObject(fields)).value == Unassigned
  {
  }
}
