/** `PlaylistInfo` (SharpLink/Rest/PlaylistInfo.cs): the name of a loaded playlist
    and the index of its selected track, read from the `playlistInfo` object of a
    load-tracks reply. The fields start at their defaults, `""` and -1, and are
    overwritten only when the object is there. */
module Rest {
  import opened Base
  import opened Json
  import Tracks

  /** `Name` is nullable: `(string) info["name"]` of a missing or null name is null. */
  datatype PlaylistInfo = PlaylistInfo(name: Option<string>, selectedTrack: int32)

  /** The field initialisers. */
  const DefaultName: string := ""
  const DefaultSelectedTrack: int32 := -1

  /** `new PlaylistInfo(info)`; `None` is a null token. */
  function NewPlaylistInfo(info: Option<Json>): (r: Result<PlaylistInfo, Fault>)
    ensures info.None? ==> r == Success(PlaylistInfo(Some(DefaultName), DefaultSelectedTrack))
    ensures info.Some? ==>
      (r.Success? <==>
        && info.value.JObject?
        && ToText(Tracks.Member(info.value, "name")).Success?
        && ToInt32(Tracks.Member(info.value, "selectedTrack")).Success?)
    ensures info.Some? && r.Success? ==>
      && ToText(Tracks.Member(info.value, "name")) == Success(r.value.name)
      && ToInt32(Tracks.Member(info.value, "selectedTrack")) == Success(r.value.selectedTrack)
  {
    match info
    case None => Success(PlaylistInfo(Some(DefaultName), DefaultSelectedTrack))
    case Some(j) =>
      if !j.JObject? then Failure(InvalidToken)   // indexing a value that is not an object
      else
        var name :- ToText(Tracks.Member(j, "name"));
        var selectedTrack :- ToInt32(Tracks.Member(j, "selectedTrack"));
        Success(PlaylistInfo(name, selectedTrack))
  }

  /** A `playlistInfo` object as Lavalink writes it reads back as its name and index. */
  lemma PlaylistInfoOf(name: string, selectedTrack: int32)
    ensures NewPlaylistInfo(Some(JObject(map["name" := JString(name), "selectedTrack" := JNumber(selectedTrack)])))
         == Success(PlaylistInfo(Some(name), selectedTrack))
  {
    var fields := map["name" := JString(name), "selectedTrack" := JNumber(selectedTrack)];
    assert Tracks.Member(JObject(fields), "name") == Some(JString(name));
    assert Tracks.Member(JObject(fields), "selectedTrack") == Some(JNumber(selectedTrack));
  }
}
