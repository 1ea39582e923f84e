/** `LavalinkTrack` (LavalinkTrack.cs): an immutable record, built either from a
    track object of a REST reply or from the fields decoded out of a track
    identifier. All its fields are `readonly`, so a datatype value models it. */
module Tracks {
  import opened Base
  import opened Json

  /** A `TimeSpan`: whole milliseconds, or `TimeSpan.MaxValue` for a live stream. */
  datatype Duration = Millis(ms: nat) | Unbounded

  /** The text fields are nullable in the source; `None` is .NET null. */
  datatype Track = Track(
    trackId: Option<string>,
    identifier: Option<string>,
    isSeekable: bool,
    author: Option<string>,
    length: Duration,
    isStream: bool,
    position: ulong,
    title: Option<string>,
    url: Option<string>)

  /** The token at `jsonTrack[key]`, or null. */
  function Member(j: Json, key: string): Option<Json>
  {
    if j.JObject? && key in j.fields then Some(j.fields[key]) else None
  }

  /** The token at `jsonTrack["info"][key]`, or null. */
  function InfoMember(j: Json, key: string): Option<Json>
  {
    match Member(j, "info")
    case Some(info) => Member(info, key)
    case None => None
  }

  /** The shape the JSON constructor needs: an object whose `info` is an object. */
  predicate HasInfo(j: Json)
  {
    j.JObject? && "info" in j.fields && j.fields["info"].JObject?
  }

  /** `new LavalinkTrack(jsonTrack)`: copies `track` and the `info` fields; the length
      is `TimeSpan.MaxValue` exactly for a stream, whose `length` is then never read. */
  function FromJson(j: Json): (r: Result<Track, Fault>)
    ensures r.Success? <==>
      && HasInfo(j)
      && ToText(Member(j, "track")).Success?
      && ToText(InfoMember(j, "identifier")).Success?
      && ToBool(InfoMember(j, "isSeekable")).Success?
      && ToText(InfoMember(j, "author")).Success?
      && ToBool(InfoMember(j, "isStream")).Success?
      && (ToBool(InfoMember(j, "isStream")).value == false ==> ToULong(InfoMember(j, "length")).Success?)
      && ToULong(InfoMember(j, "position")).Success?
      && ToText(InfoMember(j, "title")).Success?
      && ToText(InfoMember(j, "uri")).Success?
    ensures r.Success? ==>
      && ToText(Member(j, "track")) == Success(r.value.trackId)
      && ToText(InfoMember(j, "identifier")) == Success(r.value.identifier)
      && ToBool(InfoMember(j, "isSeekable")) == Success(r.value.isSeekable)
      && ToText(InfoMember(j, "author")) == Success(r.value.author)
      && ToBool(InfoMember(j, "isStream")) == Success(r.value.isStream)
      && ToULong(InfoMember(j, "position")) == Success(r.value.position)
      && ToText(InfoMember(j, "title")) == Success(r.value.title)
      && ToText(InfoMember(j, "uri")) == Success(r.value.url)
    ensures r.Success? ==> (r.value.length == Unbounded <==> r.value.isStream)
    ensures r.Success? && !r.value.isStream ==> r.value.length == Millis(ToULong(InfoMember(j, "length")).value)
  {
    if !j.JObject? then Failure(InvalidToken)
    else
      var trackId :- ToText(Member(j, "track"));
      match Member(j, "info")
      case None => Failure(NullReference)
      case Some(info) =>
        if !info.JObject? then Failure(InvalidToken)
        else
          var identifier :- ToText(Member(info, "identifier"));
          var isSeekable :- ToBool(Member(info, "isSeekable"));
          var author :- ToText(Member(info, "author"));
          var isStream :- ToBool(Member(info, "isStream"));
          var length :- if isStream then Success(Unbounded) else LengthOf(info);
          var position :- ToULong(Member(info, "position"));
          var title :- ToText(Member(info, "title"));
          var url :- ToText(Member(info, "uri"));
          Success(Track(trackId, identifier, isSeekable, author, length, isStream, position, title, url))
  }

  /** `TimeSpan.FromMilliseconds((ulong) info["length"])`, for an `info` object. */
  function LengthOf(info: Json): Result<Duration, Fault>
  {
    var ms :- ToULong(Member(info, "length"));
    Success(Millis(ms))
  }

  /** `new LavalinkTrack(trackId, title, author, length, identifier, isStream, url, position)`,
      the constructor the identifier decoder uses. It computes `Length` from `IsStream`
      before assigning `IsStream`, so it reads the field's default `false`: the length
      is always the given milliseconds, even for a stream. `IsSeekable` is never
      assigned and keeps its default `false`. */
  function FromFields(trackId: string, title: string, author: string, length: ulong,
                      identifier: string, isStream: bool, url: Option<string>, position: ulong): (t: Track)
    ensures t.length == Millis(length)
    ensures !t.isSeekable
    ensures t.trackId == Some(trackId) && t.title == Some(title) && t.author == Some(author)
    ensures t.identifier == Some(identifier) && t.isStream == isStream
    ensures t.url == url && t.position == position
  {
    var isStreamBeforeAssignment := false;
    Track(
      trackId := Some(trackId),
      identifier := Some(identifier),
      isSeekable := false,
      author := Some(author),
      length := if isStreamBeforeAssignment then Unbounded else Millis(length),
      isStream := isStream,
      position := position,
      title := Some(title),
      url := url)
  }
}
