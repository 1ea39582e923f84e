/** The track identifier (LavalinkManager.cs, `GetTrackFromId`): a base64 string
    whose bytes are a Lavaplayer track message. All integers in the message are
    big-endian; a text is a 2-byte length followed by that many UTF-8 bytes.

      4 bytes   size (low 30 bits) and flags (high 2 bits)   - never read
      1 byte    message version                              - never read
      text      title
      text      author
      8 bytes   length in milliseconds
      text      identifier
      1 byte    stream flag
      1 byte    url-present flag
      text      url, only when the url flag is set
      text      source name
      text      container type, only for the sources "local" and "http" - skipped
      8 bytes   position in milliseconds

    The decoder reads the message with the little-endian `BitConverter` calls of
    the host and swaps each integer back to big-endian (Util.cs). What can go
    wrong is reported by exceptions: an `ArgumentOutOfRangeException` becomes
    "TrackId failed to parse", every other exception "TrackId is not valid".

    The module holds the library calls the decoder makes (`ToUInt16`, `ToUInt64`,
    `ToBoolean`, `GetString`), the decoder itself as a method (`TryDecode`,
    `GetTrackFromId`), an independent big-endian reading of the format (`Decode`),
    and the encoder that the format describes (`Encode`). The lemmas prove that the
    method agrees with `Decode`, that `Decode` inverts the encoder, that it accepts
    exactly the encodings followed by any bytes, and that the header and the
    trailing bytes are never examined. */
module TrackCodec {
  import opened Base
  import Util
  import Tracks

  /** The two messages of the `ArgumentException` the decoder throws. */
  datatype DecodeError =
    | FailedToParse   // "TrackId failed to parse"
    | NotValid        // "TrackId is not valid"

  /** The exceptions raised inside the decoder's `try` block. */
  datatype Exception =
    | ArgumentOutOfRange   // an index or count outside the array
    | Argument             // `BitConverter`: the index is inside but too few bytes follow it
    | Format               // `Convert.FromBase64String` of text that is not base64

  /** The two `catch` clauses. */
  function Caught(e: Exception): (d: DecodeError)
    ensures d == FailedToParse <==> e == ArgumentOutOfRange
  {
    match e
    case ArgumentOutOfRange => FailedToParse
    case _ => NotValid
  }

  // ---------------------------------------------------------------------------
  // The .NET calls the decoder makes, on a little-endian host.

  /** `BitConverter.ToUInt16(value, startIndex)`. */
  function ToUInt16(value: seq<byte>, startIndex: nat): Result<ushort, Exception>
  {
    if startIndex >= |value| then Failure(ArgumentOutOfRange)
    else if startIndex > |value| - 2 then Failure(Argument)
    else
      var s := value[startIndex..startIndex + 2];
      Util.SwapOfRead16(s);
      Success(Util.FromBytesLE(s))
  }

  /** `BitConverter.ToUInt64(value, startIndex)`. */
  function ToUInt64(value: seq<byte>, startIndex: nat): Result<ulong, Exception>
  {
    if startIndex >= |value| then Failure(ArgumentOutOfRange)
    else if startIndex > |value| - 8 then Failure(Argument)
    else
      var s := value[startIndex..startIndex + 8];
      Util.SwapOfRead64(s);
      Success(Util.FromBytesLE(s))
  }

  /** `BitConverter.ToBoolean(value, startIndex)`: any byte but zero is true. */
  function ToBoolean(value: seq<byte>, startIndex: nat): Result<bool, Exception>
  {
    if startIndex >= |value| then Failure(ArgumentOutOfRange) else Success(value[startIndex] != 0)
  }

  /** `Encoding.UTF8.GetString(bytes, index, count)`; the decoding itself is `utf8`. */
  function GetString(utf8: seq<byte> -> string, bytes: seq<byte>, index: nat, count: nat): Result<string, Exception>
  {
    if index + count > |bytes| then Failure(ArgumentOutOfRange) else Success(utf8(bytes[index..index + count]))
  }

  // ---------------------------------------------------------------------------
  // The format read big-endian, each field from the front of the bytes not yet read.

  /** A value read from the front of some bytes, and the bytes after it. */
  datatype Read<T> = Read(value: T, rest: seq<byte>)

  /** A 2-byte big-endian integer. */
  function ReadU16(s: seq<byte>): Result<Read<nat>, DecodeError>
  {
    if |s| == 0 then Failure(FailedToParse)
    else if |s| < 2 then Failure(NotValid)
    else Success(Read(Util.FromBytesBE(s[..2]), s[2..]))
  }

  /** An 8-byte big-endian integer. */
  function ReadU64(s: seq<byte>): Result<Read<ulong>, DecodeError>
  {
    if |s| == 0 then Failure(FailedToParse)
    else if |s| < 8 then Failure(NotValid)
    else
      Util.FromBytesBEBound(s[..8]);
      assert Util.Pow256(8) == 0x1_0000_0000_0000_0000;
      var v: ulong := Util.FromBytesBE(s[..8]);
      Success(Read(v, s[8..]))
  }

  /** A 1-byte flag: any byte but zero is set. */
  function ReadFlag(s: seq<byte>): Result<Read<bool>, DecodeError>
  {
    if |s| == 0 then Failure(FailedToParse) else Success(Read(s[0] != 0, s[1..]))
  }

  /** A text: its length, then that many bytes. */
  function ReadText(s: seq<byte>): Result<Read<seq<byte>>, DecodeError>
  {
    var size :- ReadU16(s);
    if |size.rest| < size.value then Failure(FailedToParse)
    else Success(Read(size.rest[..size.value], size.rest[size.value..]))
  }

  /** Steps over a text without checking that its bytes are there; a step past
      the end leaves nothing to read, as a step to the end does. */
  function SkipText(s: seq<byte>): Result<seq<byte>, DecodeError>
  {
    var size :- ReadU16(s);
    Success(if |size.rest| < size.value then [] else size.rest[size.value..])
  }

  /** The url text, read only when its flag is set. */
  function ReadUrl(s: seq<byte>, present: bool): Result<Read<Option<seq<byte>>>, DecodeError>
  {
    if present then
      var url :- ReadText(s);
      Success(Read(Some(url.value), url.rest))
    else Success(Read(None, s))
  }

  /** The sources whose tracks carry a container type. */
  predicate HasContainer(sourceName: string)
  {
    sourceName == "local" || sourceName == "http"
  }

  function MapText(t: Option<seq<byte>>, utf8: seq<byte> -> string): Option<string>
  {
    match t
    case None => None
    case Some(bytes) => Some(utf8(bytes))
  }

  /** The four fields before the flags, and where reading goes on. */
  datatype Info<T, P> = Info(title: T, author: T, length: ulong, identifier: T, at: P)

  /** The fields up to the url, and where reading goes on. */
  datatype Head<T, P> = Head(
    title: T, author: T, length: ulong, identifier: T, stream: bool, url: Option<T>, at: P)

  /** Title, author, length and identifier. */
  function DecodeInfo(s: seq<byte>): Result<Info<seq<byte>, seq<byte>>, DecodeError>
  {
    var title :- ReadText(s);
    var author :- ReadText(title.rest);
    var length :- ReadU64(author.rest);
    var identifier :- ReadText(length.rest);
    Success(Info(title.value, author.value, length.value, identifier.value, identifier.rest))
  }

  /** The four fields, the two flags, and the url when its flag is set. */
  function DecodeHead(s: seq<byte>): Result<Head<seq<byte>, seq<byte>>, DecodeError>
  {
    var info :- DecodeInfo(s);
    var stream :- ReadFlag(info.at);
    var urlPresent :- ReadFlag(stream.rest);
    var url :- ReadUrl(urlPresent.rest, urlPresent.value);
    Success(Head(info.title, info.author, info.length, info.identifier, stream.value, url.value, url.rest))
  }

  /** The source name, the container type for the sources that have one, and
      the position. */
  function DecodeTail(s: seq<byte>, utf8: seq<byte> -> string): Result<Read<ulong>, DecodeError>
  {
    var sourceName :- ReadText(s);
    var afterContainer :- if HasContainer(utf8(sourceName.value)) then SkipText(sourceName.rest)
                          else Success(sourceName.rest);
    ReadU64(afterContainer)
  }

  /** A decoded track and the bytes after its message. */
  datatype Decoded = Decoded(track: Tracks.Track, rest: seq<byte>)

  /** The fields of a message, each read after the previous one. */
  function DecodeFields(trackId: string, s: seq<byte>, utf8: seq<byte> -> string): Result<Decoded, DecodeError>
  {
    var head :- DecodeHead(s);
    var position :- DecodeTail(head.at, utf8);
    Success(Decoded(
      Tracks.FromFields(trackId, utf8(head.title), utf8(head.author), head.length, utf8(head.identifier),
                        head.stream, MapText(head.url, utf8), position.value),
      position.rest))
  }

  lemma FromAppend(b: seq<byte>, o: nat, q: seq<byte>)
    requires o <= |b|
    ensures From(b + q, o) == From(b, o) + q
  {
    assert (b + q)[o..] == b[o..] + q;
  }

  /** The bytes from offset o on; nothing when o is at or past the end. */
  function From(b: seq<byte>, o: nat): (s: seq<byte>)
    ensures |s| == if o <= |b| then |b| - o else 0
  {
    if o <= |b| then b[o..] else []
  }

  /** The message read from offset 5: the size, flags and version before it are never read. */
  function Decode(trackId: string, b: seq<byte>, utf8: seq<byte> -> string): Result<Decoded, DecodeError>
  {
    DecodeFields(trackId, From(b, 5), utf8)
  }

  /** What `GetTrackFromId` returns or throws, read through `Decode`. */
  function FromId(trackId: string, fromBase64: string -> Option<seq<byte>>, utf8: seq<byte> -> string)
    : Result<Tracks.Track, DecodeError>
  {
    match fromBase64(trackId)
    case None => Failure(NotValid)
    case Some(b) =>
      match Decode(trackId, b, utf8)
      case Success(d) => Success(d.track)
      case Failure(e) => Failure(e)
  }

  // ---------------------------------------------------------------------------
  // The decoder as written: one `offset` into the byte array, advanced field by field.

  /** A value the decoder has read, and its `offset` after it. */
  datatype Cursor<T> = Cursor(value: T, next: nat)

  /** The outcome once the two `catch` clauses have run. */
  function Handled<T>(r: Result<T, Exception>): Result<T, DecodeError>
  {
    match r
    case Success(v) => Success(v)
    case Failure(e) => Failure(Caught(e))
  }

  /** A read of the decoder, seen as a read of the bytes from its offset on. */
  function Seen<T>(b: seq<byte>, r: Result<Cursor<T>, Exception>): Result<Read<T>, DecodeError>
  {
    match r
    case Success(c) => Success(Read(c.value, From(b, c.next)))
    case Failure(e) => Failure(Caught(e))
  }

  /** An offset the decoder has reached, seen as the bytes from it on. */
  function OffsetSeen(b: seq<byte>, r: Result<nat, Exception>): Result<seq<byte>, DecodeError>
  {
    match r
    case Success(o) => Success(From(b, o))
    case Failure(e) => Failure(Caught(e))
  }

  /** A text read with its bytes decoded. */
  function TextOf(r: Result<Read<seq<byte>>, DecodeError>, utf8: seq<byte> -> string): Result<Read<string>, DecodeError>
  {
    match r
    case Success(t) => Success(Read(utf8(t.value), t.rest))
    case Failure(e) => Failure(e)
  }

  function InfoSeen(b: seq<byte>, r: Result<Info<string, nat>, Exception>): Result<Info<string, seq<byte>>, DecodeError>
  {
    match r
    case Success(i) => Success(Info(i.title, i.author, i.length, i.identifier, From(b, i.at)))
    case Failure(e) => Failure(Caught(e))
  }

  function InfoOf(r: Result<Info<seq<byte>, seq<byte>>, DecodeError>, utf8: seq<byte> -> string)
    : Result<Info<string, seq<byte>>, DecodeError>
  {
    match r
    case Success(i) => Success(Info(utf8(i.title), utf8(i.author), i.length, utf8(i.identifier), i.at))
    case Failure(e) => Failure(e)
  }

  function HeadSeen(b: seq<byte>, r: Result<Head<string, nat>, Exception>): Result<Head<string, seq<byte>>, DecodeError>
  {
    match r
    case Success(h) => Success(Head(h.title, h.author, h.length, h.identifier, h.stream, h.url, From(b, h.at)))
    case Failure(e) => Failure(Caught(e))
  }

  function HeadOf(r: Result<Head<seq<byte>, seq<byte>>, DecodeError>, utf8: seq<byte> -> string)
    : Result<Head<string, seq<byte>>, DecodeError>
  {
    match r
    case Success(h) =>
      Success(Head(utf8(h.title), utf8(h.author), h.length, utf8(h.identifier), h.stream, MapText(h.url, utf8), h.at))
    case Failure(e) => Failure(e)
  }

  /** The little-endian read swapped back is the big-endian read, and the two
      fail at the same offsets with matching messages. */
  lemma ToUInt16Agrees(b: seq<byte>, o: nat)
    ensures ToUInt16(b, o).Failure? <==> ReadU16(From(b, o)).Failure?
    ensures ToUInt16(b, o).Failure? ==> Caught(ToUInt16(b, o).error) == ReadU16(From(b, o)).error
    ensures ToUInt16(b, o).Success? ==>
      ReadU16(From(b, o)).value == Read(Util.SwapEndianess16(ToUInt16(b, o).value), From(b, o + 2))
  {
    if o + 2 <= |b| {
      Util.SwapOfRead16(b[o..o + 2]);
      assert From(b, o)[..2] == b[o..o + 2];
      assert From(b, o)[2..] == From(b, o + 2);
    }
  }

  lemma ToUInt64Agrees(b: seq<byte>, o: nat)
    ensures ToUInt64(b, o).Failure? <==> ReadU64(From(b, o)).Failure?
    ensures ToUInt64(b, o).Failure? ==> Caught(ToUInt64(b, o).error) == ReadU64(From(b, o)).error
    ensures ToUInt64(b, o).Success? ==>
      ReadU64(From(b, o)).value == Read(Util.SwapEndianess64(ToUInt64(b, o).value), From(b, o + 8))
  {
    if o + 8 <= |b| {
      Util.SwapOfRead64(b[o..o + 8]);
      assert From(b, o)[..8] == b[o..o + 8];
      assert From(b, o)[8..] == From(b, o + 8);
    }
  }

  /** The three statements that read one text: its swapped 2-byte size, its
      bytes, and the step of `offset` past both. */
  method ReadTextAt(utf8: seq<byte> -> string, trackBytes: seq<byte>, offset: nat)
    returns (r: Result<Cursor<string>, Exception>)
    ensures Seen(trackBytes, r) == TextOf(ReadText(From(trackBytes, offset)), utf8)
  {
    ToUInt16Agrees(trackBytes, offset);
    var sizeRead :- ToUInt16(trackBytes, offset);
    var size := Util.SwapEndianess16(sizeRead);
    var text :- GetString(utf8, trackBytes, offset + 2, size);
    assert From(trackBytes, offset + 2)[..size] == trackBytes[offset + 2..offset + 2 + size];
    assert From(trackBytes, offset + 2)[size..] == From(trackBytes, offset + 2 + size);
    return Success(Cursor(text, offset + 2 + size));
  }

  /** The container type is skipped: only its swapped size is read, and `offset`
      steps past it without checking that its bytes are there. */
  method SkipTextAt(trackBytes: seq<byte>, offset: nat) returns (r: Result<nat, Exception>)
    ensures OffsetSeen(trackBytes, r) == SkipText(From(trackBytes, offset))
  {
    ToUInt16Agrees(trackBytes, offset);
    var sizeRead :- ToUInt16(trackBytes, offset);
    var size := Util.SwapEndianess16(sizeRead);
    if offset + 2 + size <= |trackBytes| {
      assert From(trackBytes, offset + 2)[size..] == From(trackBytes, offset + 2 + size);
    }
    return Success(offset + 2 + size);
  }

  /** `BitConverter.ToBoolean` of the stream and url flags, then one step of `offset`. */
  method ReadBoolAt(trackBytes: seq<byte>, offset: nat) returns (r: Result<Cursor<bool>, Exception>)
    ensures Seen(trackBytes, r) == ReadFlag(From(trackBytes, offset))
  {
    var flag :- ToBoolean(trackBytes, offset);
    assert From(trackBytes, offset)[1..] == From(trackBytes, offset + 1);
    return Success(Cursor(flag, offset + 1));
  }

  /** The swapped 8-byte read of the length and of the position, then eight steps of `offset`. */
  method ReadULongAt(trackBytes: seq<byte>, offset: nat) returns (r: Result<Cursor<ulong>, Exception>)
    ensures Seen(trackBytes, r) == ReadU64(From(trackBytes, offset))
  {
    ToUInt64Agrees(trackBytes, offset);
    var read :- ToUInt64(trackBytes, offset);
    return Success(Cursor(Util.SwapEndianess64(read), offset + 8));
  }

  /** The statements of the `try` block from offset 5 through the identifier. */
  method ReadInfo(utf8: seq<byte> -> string, trackBytes: seq<byte>) returns (r: Result<Info<string, nat>, Exception>)
    ensures InfoSeen(trackBytes, r) == InfoOf(DecodeInfo(From(trackBytes, 5)), utf8)
  {
    var offset: nat := 5;

    var title :- ReadTextAt(utf8, trackBytes, offset);
    offset := title.next;

    var author :- ReadTextAt(utf8, trackBytes, offset);
    offset := author.next;

    var length :- ReadULongAt(trackBytes, offset);
    offset := length.next;

    var identifier :- ReadTextAt(utf8, trackBytes, offset);
    offset := identifier.next;

    return Success(Info(title.value, author.value, length.value, identifier.value, offset));
  }

  /** The statements of the `try` block up to the url: the four fields, then the
      two flags and the url when its flag is set. */
  method ReadHead(utf8: seq<byte> -> string, trackBytes: seq<byte>) returns (r: Result<Head<string, nat>, Exception>)
    ensures HeadSeen(trackBytes, r) == HeadOf(DecodeHead(From(trackBytes, 5)), utf8)
  {
    var info :- ReadInfo(utf8, trackBytes);
    var offset := info.at;

    var stream :- ReadBoolAt(trackBytes, offset);
    offset := stream.next;

    var urlPresent :- ReadBoolAt(trackBytes, offset);
    offset := urlPresent.next;

    var url: Option<string> := None;
    if urlPresent.value {
      var urlText :- ReadTextAt(utf8, trackBytes, offset);
      url := Some(urlText.value);
      offset := urlText.next;
    }

    return Success(Head(info.title, info.author, info.length, info.identifier, stream.value, url, offset));
  }

  /** The body of the `try` block: the track, or the exception that escapes it. */
  method TryDecode(trackId: string, fromBase64: string -> Option<seq<byte>>, utf8: seq<byte> -> string)
    returns (r: Result<Tracks.Track, Exception>)
    ensures fromBase64(trackId).None? ==> r == Failure(Format)
    ensures Handled(r) == FromId(trackId, fromBase64, utf8)
  {
    var decoded := fromBase64(trackId);
    if decoded.None? {
      return Failure(Format);
    }
    var trackBytes := decoded.value;

    var head :- ReadHead(utf8, trackBytes);
    var offset := head.at;

    var sourceName :- ReadTextAt(utf8, trackBytes, offset);
    offset := sourceName.next;

    if sourceName.value == "local" || sourceName.value == "http" {
      offset :- SkipTextAt(trackBytes, offset);
    }

    var position :- ReadULongAt(trackBytes, offset);

    return Success(Tracks.FromFields(trackId, head.title, head.author, head.length, head.identifier,
                                     head.stream, head.url, position.value));
  }

  /** `GetTrackFromId`: the two `catch` clauses around `TryDecode`. */
  method GetTrackFromId(trackId: string, fromBase64: string -> Option<seq<byte>>, utf8: seq<byte> -> string)
    returns (r: Result<Tracks.Track, DecodeError>)
    ensures r == FromId(trackId, fromBase64, utf8)
  {
    var outcome := TryDecode(trackId, fromBase64, utf8);
    match outcome
    case Success(track) =>
      r := Success(track);
    case Failure(e) =>
      r := Failure(Caught(e));
  }

  // ---------------------------------------------------------------------------
  // The encoder the format describes, and what Decode proves about it.

  /** The contents of one track message, as the encoder is given them. */
  datatype TrackFields = TrackFields(
    flags: nat,
    version: byte,
    title: seq<byte>,
    author: seq<byte>,
    length: ulong,
    identifier: seq<byte>,
    streamByte: byte,
    urlByte: byte,
    url: seq<byte>,
    sourceName: seq<byte>,
    containerType: seq<byte>,
    position: ulong)

  /** Two flag bits, and every text short enough for its 2-byte length. */
  predicate Encodable(f: TrackFields)
  {
    && f.flags < 4
    && |f.title| < 0x1_0000 && |f.author| < 0x1_0000 && |f.identifier| < 0x1_0000
    && |f.url| < 0x1_0000 && |f.sourceName| < 0x1_0000 && |f.containerType| < 0x1_0000
  }

  /** A text: 2-byte big-endian length, then the bytes. */
  function TextBytes(t: seq<byte>): (s: seq<byte>)
    ensures |s| == 2 + |t|
  {
    Util.GetBytesBE(|t|, 2) + t
  }

  /** Title, author, length and identifier. */
  function EncodeInfo(f: TrackFields): seq<byte>
  {
    TextBytes(f.title) + (TextBytes(f.author) + (Util.GetBytesBE(f.length, 8) + TextBytes(f.identifier)))
  }

  /** The two flag bytes, and the url when its flag is set. */
  function EncodeFlags(f: TrackFields): seq<byte>
  {
    [f.streamByte] + ([f.urlByte] + (if f.urlByte != 0 then TextBytes(f.url) else []))
  }

  /** Source name, the container type for the sources that have one, and position. */
  function EncodeTail(f: TrackFields, utf8: seq<byte> -> string): seq<byte>
  {
    TextBytes(f.sourceName)
    + ((if HasContainer(utf8(f.sourceName)) then TextBytes(f.containerType) else []) + Util.GetBytesBE(f.position, 8))
  }

  /** Everything after the 5-byte header. */
  function EncodeBody(f: TrackFields, utf8: seq<byte> -> string): seq<byte>
  {
    EncodeInfo(f) + (EncodeFlags(f) + EncodeTail(f, utf8))
  }

  /** The whole message: size and flags in one 4-byte word (the size counts the
      bytes after that word), the version byte, then the fields. */
  function Encode(f: TrackFields, utf8: seq<byte> -> string): seq<byte>
  {
    var body := EncodeBody(f, utf8);
    Util.GetBytesBE(f.flags * 0x4000_0000 + 1 + |body|, 4) + [f.version] + body
  }

  /** The track the decoder builds from a message. */
  function TrackOf(trackId: string, f: TrackFields, utf8: seq<byte> -> string): Tracks.Track
  {
    Tracks.FromFields(trackId, utf8(f.title), utf8(f.author), f.length, utf8(f.identifier),
                      f.streamByte != 0, if f.urlByte != 0 then Some(utf8(f.url)) else None, f.position)
  }

  lemma ReadTextOf(t: seq<byte>, rest: seq<byte>)
    requires |t| < 0x1_0000
    ensures ReadText(TextBytes(t) + rest) == Success(Read(t, rest))
    ensures SkipText(TextBytes(t) + rest) == Success(rest)
  {
    var s := TextBytes(t) + rest;
    assert s[..2] == Util.GetBytesBE(|t|, 2);
    assert Util.Pow256(2) == 0x1_0000;
    Util.FromBytesBEOfGetBytes(|t|, 2);
    assert s[2..][..|t|] == t;
    assert s[2..][|t|..] == rest;
  }

  lemma ReadU64Of(v: ulong, rest: seq<byte>)
    ensures ReadU64(Util.GetBytesBE(v, 8) + rest) == Success(Read(v, rest))
  {
    var s := Util.GetBytesBE(v, 8) + rest;
    assert s[..8] == Util.GetBytesBE(v, 8);
    assert Util.Pow256(8) == 0x1_0000_0000_0000_0000;
    Util.FromBytesBEOfGetBytes(v, 8);
    assert s[8..] == rest;
  }

  lemma ReadFlagOf(x: byte, rest: seq<byte>)
    ensures ReadFlag([x] + rest) == Success(Read(x != 0, rest))
  {
    assert ([x] + rest)[1..] == rest;
  }

  lemma DecodeInfoOf(f: TrackFields, rest: seq<byte>)
    requires Encodable(f)
    ensures DecodeInfo(EncodeInfo(f) + rest) == Success(Info(f.title, f.author, f.length, f.identifier, rest))
  {
    var r3 := TextBytes(f.identifier) + rest;
    var r2 := Util.GetBytesBE(f.length, 8) + r3;
    var r1 := TextBytes(f.author) + r2;
    assert EncodeInfo(f) + rest == TextBytes(f.title) + r1;
    ReadTextOf(f.title, r1);
    ReadTextOf(f.author, r2);
    ReadU64Of(f.length, r3);
    ReadTextOf(f.identifier, rest);
  }

  lemma DecodeHeadOf(f: TrackFields, rest: seq<byte>)
    requires Encodable(f)
    ensures DecodeHead(EncodeInfo(f) + EncodeFlags(f) + rest)
         == Success(Head(f.title, f.author, f.length, f.identifier, f.streamByte != 0,
                         if f.urlByte != 0 then Some(f.url) else None, rest))
  {
    var urlPart := if f.urlByte != 0 then TextBytes(f.url) else [];
    var r1 := [f.urlByte] + (urlPart + rest);
    assert EncodeInfo(f) + EncodeFlags(f) + rest == EncodeInfo(f) + ([f.streamByte] + r1);
    DecodeInfoOf(f, [f.streamByte] + r1);
    ReadFlagOf(f.streamByte, r1);
    ReadFlagOf(f.urlByte, urlPart + rest);
    if f.urlByte != 0 {
      ReadTextOf(f.url, rest);
      assert ReadUrl(urlPart + rest, true) == Success(Read(Some(f.url), rest));
    } else {
      assert urlPart + rest == rest;
    }
  }

  lemma DecodeTailOf(f: TrackFields, utf8: seq<byte> -> string, rest: seq<byte>)
    requires Encodable(f)
    ensures DecodeTail(EncodeTail(f, utf8) + rest, utf8) == Success(Read(f.position, rest))
  {
    var containerPart := if HasContainer(utf8(f.sourceName)) then TextBytes(f.containerType) else [];
    var r2 := Util.GetBytesBE(f.position, 8) + rest;
    assert EncodeTail(f, utf8) + rest == TextBytes(f.sourceName) + (containerPart + r2);
    ReadTextOf(f.sourceName, containerPart + r2);
    if HasContainer(utf8(f.sourceName)) {
      ReadTextOf(f.containerType, r2);
    } else {
      assert containerPart + r2 == r2;
    }
    ReadU64Of(f.position, rest);
  }

  /** Decoding inverts encoding: the fields come back, and reading stops right
      after them, whatever follows. */
  lemma DecodeFieldsOfBody(trackId: string, f: TrackFields, utf8: seq<byte> -> string, rest: seq<byte>)
    requires Encodable(f)
    ensures DecodeFields(trackId, EncodeBody(f, utf8) + rest, utf8) == Success(Decoded(TrackOf(trackId, f, utf8), rest))
  {
    assert EncodeBody(f, utf8) + rest == EncodeInfo(f) + EncodeFlags(f) + (EncodeTail(f, utf8) + rest);
    DecodeHeadOf(f, EncodeTail(f, utf8) + rest);
    DecodeTailOf(f, utf8, rest);
  }

  /** Whatever the five header bytes hold, a message decodes to its fields. */
  lemma DecodeEncodeBody(trackId: string, f: TrackFields, header: seq<byte>, utf8: seq<byte> -> string,
                         rest: seq<byte>)
    requires Encodable(f) && |header| == 5
    ensures Decode(trackId, header + EncodeBody(f, utf8) + rest, utf8) == Success(Decoded(TrackOf(trackId, f, utf8), rest))
  {
    assert From(header + EncodeBody(f, utf8) + rest, 5) == EncodeBody(f, utf8) + rest;
    DecodeFieldsOfBody(trackId, f, utf8, rest);
  }

  /** An encoded message decodes to its fields with nothing left over. */
  lemma DecodeEncode(trackId: string, f: TrackFields, utf8: seq<byte> -> string)
    requires Encodable(f)
    ensures Decode(trackId, Encode(f, utf8), utf8) == Success(Decoded(TrackOf(trackId, f, utf8), []))
  {
    var body := EncodeBody(f, utf8);
    var header := Util.GetBytesBE(f.flags * 0x4000_0000 + 1 + |body|, 4) + [f.version];
    assert Encode(f, utf8) == header + body + [];
    DecodeEncodeBody(trackId, f, header, utf8, []);
  }

  // Every message that decodes is an encoding: the reads undone one by one.

  lemma ReadTextIsText(s: seq<byte>)
    requires ReadText(s).Success?
    ensures |ReadText(s).value.value| < 0x1_0000
    ensures s == TextBytes(ReadText(s).value.value) + ReadText(s).value.rest
  {
    var n := Util.FromBytesBE(s[..2]);
    Util.GetBytesOfFromBytesBE(s[..2]);
    Util.FromBytesBEBound(s[..2]);
    assert Util.Pow256(2) == 0x1_0000;
    assert s == s[..2] + (s[2..][..n] + s[2..][n..]);
  }

  /** A skip that leaves something to read stepped over a whole text. */
  lemma SkipTextIsText(s: seq<byte>) returns (skipped: seq<byte>)
    requires SkipText(s).Success? && SkipText(s).value != []
    ensures |skipped| < 0x1_0000
    ensures s == TextBytes(skipped) + SkipText(s).value
  {
    var n := Util.FromBytesBE(s[..2]);
    Util.GetBytesOfFromBytesBE(s[..2]);
    Util.FromBytesBEBound(s[..2]);
    assert Util.Pow256(2) == 0x1_0000;
    skipped := s[2..][..n];
    assert s == s[..2] + (s[2..][..n] + s[2..][n..]);
  }

  lemma ReadU64IsInteger(s: seq<byte>)
    requires ReadU64(s).Success?
    ensures s == Util.GetBytesBE(ReadU64(s).value.value, 8) + ReadU64(s).value.rest
  {
    Util.GetBytesOfFromBytesBE(s[..8]);
    assert s == s[..8] + s[8..];
  }

  lemma ReadFlagIsByte(s: seq<byte>)
    requires ReadFlag(s).Success?
    ensures s == [s[0]] + ReadFlag(s).value.rest && ReadFlag(s).value.value == (s[0] != 0)
  {
    assert s == [s[0]] + s[1..];
  }

  /** The four fields before the flags that decode are the encoding of those fields. */
  lemma InfoIsEncoding(s: seq<byte>) returns (f: TrackFields)
    requires DecodeInfo(s).Success?
    ensures |f.title| < 0x1_0000 && |f.author| < 0x1_0000 && |f.identifier| < 0x1_0000
    ensures s == EncodeInfo(f) + DecodeInfo(s).value.at
    ensures DecodeInfo(s).value == Info(f.title, f.author, f.length, f.identifier, DecodeInfo(s).value.at)
  {
    var title := ReadText(s).value;
    var author := ReadText(title.rest).value;
    var length := ReadU64(author.rest).value;
    var identifier := ReadText(length.rest).value;
    f := TrackFields(0, 0, title.value, author.value, length.value, identifier.value, 0, 0, [], [], [], 0);
    assert |f.title| < 0x1_0000 && s == TextBytes(f.title) + title.rest by {
      ReadTextIsText(s);
    }
    assert |f.author| < 0x1_0000 && title.rest == TextBytes(f.author) + author.rest by {
      ReadTextIsText(title.rest);
    }
    assert author.rest == Util.GetBytesBE(f.length, 8) + length.rest by {
      ReadU64IsInteger(author.rest);
    }
    assert |f.identifier| < 0x1_0000 && length.rest == TextBytes(f.identifier) + identifier.rest by {
      ReadTextIsText(length.rest);
    }
    Concat4(TextBytes(f.title), TextBytes(f.author), Util.GetBytesBE(f.length, 8), TextBytes(f.identifier),
            identifier.rest);
  }

  lemma Concat4(a: seq<byte>, b: seq<byte>, c: seq<byte>, d: seq<byte>, r: seq<byte>)
    ensures (a + (b + (c + d))) + r == a + (b + (c + (d + r)))
  {
  }

  /** The fields up to the url that decode are the encoding of those fields. */
  lemma HeadIsEncoding(s: seq<byte>) returns (f: TrackFields)
    requires DecodeHead(s).Success?
    ensures |f.title| < 0x1_0000 && |f.author| < 0x1_0000 && |f.identifier| < 0x1_0000 && |f.url| < 0x1_0000
    ensures s == EncodeInfo(f) + EncodeFlags(f) + DecodeHead(s).value.at
    ensures DecodeHead(s).value == Head(f.title, f.author, f.length, f.identifier, f.streamByte != 0,
                                        if f.urlByte != 0 then Some(f.url) else None, DecodeHead(s).value.at)
  {
    var info := DecodeInfo(s).value;
    var i := InfoIsEncoding(s);
    var streamByte, urlByte, urlBytes := FlagsIsEncoding(info.at);
    f := i.(streamByte := streamByte, urlByte := urlByte, url := urlBytes);
    assert EncodeInfo(f) == EncodeInfo(i);
  }

  /** The two flags and the url that decode are their encoding. */
  lemma FlagsIsEncoding(t: seq<byte>) returns (streamByte: byte, urlByte: byte, url: seq<byte>)
    requires ReadFlag(t).Success? && ReadFlag(ReadFlag(t).value.rest).Success?
    requires ReadUrl(ReadFlag(ReadFlag(t).value.rest).value.rest, ReadFlag(ReadFlag(t).value.rest).value.value).Success?
    ensures var stream := ReadFlag(t).value;
      var urlPresent := ReadFlag(stream.rest).value;
      var read := ReadUrl(urlPresent.rest, urlPresent.value).value;
      && |url| < 0x1_0000
      && stream.value == (streamByte != 0)
      && read.value == (if urlByte != 0 then Some(url) else None)
      && t == [streamByte] + ([urlByte] + (if urlByte != 0 then TextBytes(url) else [])) + read.rest
  {
    var stream := ReadFlag(t).value;
    var urlPresent := ReadFlag(stream.rest).value;
    var read := ReadUrl(urlPresent.rest, urlPresent.value).value;
    ReadFlagIsByte(t);
    ReadFlagIsByte(stream.rest);
    streamByte, urlByte := t[0], stream.rest[0];
    url := if urlPresent.value then ReadText(urlPresent.rest).value.value else [];
    var urlPart := if urlByte != 0 then TextBytes(url) else [];
    assert |url| < 0x1_0000 && urlPresent.rest == urlPart + read.rest by {
      if urlPresent.value {
        ReadTextIsText(urlPresent.rest);
      }
    }
    Concat3([streamByte], [urlByte], urlPart, read.rest);
  }

  /** The source name, container type and position that decode are their encoding. */
  lemma TailIsEncoding(s: seq<byte>, utf8: seq<byte> -> string) returns (sourceName: seq<byte>, container: seq<byte>)
    requires DecodeTail(s, utf8).Success?
    ensures |sourceName| < 0x1_0000 && |container| < 0x1_0000
    ensures s == TextBytes(sourceName)
               + ((if HasContainer(utf8(sourceName)) then TextBytes(container) else [])
                  + Util.GetBytesBE(DecodeTail(s, utf8).value.value, 8))
               + DecodeTail(s, utf8).value.rest
  {
    var name := ReadText(s).value;
    ReadTextIsText(s);
    sourceName := name.value;
    container := [];
    var afterContainer := name.rest;
    if HasContainer(utf8(sourceName)) {
      afterContainer := SkipText(name.rest).value;
      assert afterContainer != [];
      container := SkipTextIsText(name.rest);
    }
    var position := ReadU64(afterContainer).value;
    var containerPart := if HasContainer(utf8(sourceName)) then TextBytes(container) else [];
    assert name.rest == containerPart + afterContainer;
    assert afterContainer == Util.GetBytesBE(position.value, 8) + position.rest by {
      ReadU64IsInteger(afterContainer);
    }
    Concat3(TextBytes(sourceName), containerPart, Util.GetBytesBE(position.value, 8), position.rest);
  }

  lemma Concat3(a: seq<byte>, b: seq<byte>, c: seq<byte>, r: seq<byte>)
    ensures (a + (b + c)) + r == a + (b + (c + r))
  {
  }

  /** Every message body that decodes is the encoding of the fields it decodes to,
      followed by the bytes left over: `Decode` accepts nothing but encodings. */
  lemma DecodedIsEncoding(trackId: string, s: seq<byte>, utf8: seq<byte> -> string) returns (f: TrackFields)
    requires DecodeFields(trackId, s, utf8).Success?
    ensures Encodable(f)
    ensures s == EncodeBody(f, utf8) + DecodeFields(trackId, s, utf8).value.rest
    ensures DecodeFields(trackId, s, utf8).value.track == TrackOf(trackId, f, utf8)
  {
    var head := DecodeHead(s).value;
    var tail := DecodeTail(head.at, utf8).value;
    var h := HeadIsEncoding(s);
    var sourceName, container := TailIsEncoding(head.at, utf8);
    f := TrackFields(0, 0, h.title, h.author, h.length, h.identifier, h.streamByte, h.urlByte, h.url,
                     sourceName, container, tail.value);
    BodyJoins(s, h, f, head.at, tail.rest, utf8);
    assert DecodeFields(trackId, s, utf8) == Success(Decoded(TrackOf(trackId, f, utf8), tail.rest)) by {
      assert MapText(head.url, utf8) == if f.urlByte != 0 then Some(utf8(f.url)) else None;
    }
  }

  lemma BodyJoins(s: seq<byte>, h: TrackFields, f: TrackFields, at: seq<byte>, rest: seq<byte>,
                  utf8: seq<byte> -> string)
    requires f == h.(sourceName := f.sourceName, containerType := f.containerType, position := f.position,
                     flags := f.flags, version := f.version)
    requires s == EncodeInfo(h) + EncodeFlags(h) + at
    requires at == EncodeTail(f, utf8) + rest
    ensures s == EncodeBody(f, utf8) + rest
  {
    assert EncodeInfo(f) == EncodeInfo(h) && EncodeFlags(f) == EncodeFlags(h);
  }

  // Bytes after a message are never read.

  lemma ReadU16Extends(s: seq<byte>, q: seq<byte>)
    requires ReadU16(s).Success?
    ensures ReadU16(s + q) == Success(Read(ReadU16(s).value.value, ReadU16(s).value.rest + q))
  {
    assert (s + q)[..2] == s[..2];
    assert (s + q)[2..] == s[2..] + q;
  }

  lemma ReadU64Extends(s: seq<byte>, q: seq<byte>)
    requires ReadU64(s).Success?
    ensures ReadU64(s + q) == Success(Read(ReadU64(s).value.value, ReadU64(s).value.rest + q))
  {
    assert (s + q)[..8] == s[..8];
    assert (s + q)[8..] == s[8..] + q;
  }

  lemma ReadFlagExtends(s: seq<byte>, q: seq<byte>)
    requires ReadFlag(s).Success?
    ensures ReadFlag(s + q) == Success(Read(ReadFlag(s).value.value, ReadFlag(s).value.rest + q))
  {
    assert (s + q)[1..] == s[1..] + q;
  }

  lemma ReadTextExtends(s: seq<byte>, q: seq<byte>)
    requires ReadText(s).Success?
    ensures ReadText(s + q) == Success(Read(ReadText(s).value.value, ReadText(s).value.rest + q))
  {
    ReadU16Extends(s, q);
    var size := ReadU16(s).value;
    assert (size.rest + q)[..size.value] == size.rest[..size.value];
    assert (size.rest + q)[size.value..] == size.rest[size.value..] + q;
  }

  /** A skip whose text is all there, followed by something to read. */
  lemma SkipTextExtends(s: seq<byte>, q: seq<byte>)
    requires SkipText(s).Success? && SkipText(s).value != []
    ensures SkipText(s + q) == Success(SkipText(s).value + q)
  {
    ReadU16Extends(s, q);
    var size := ReadU16(s).value;
    assert (size.rest + q)[size.value..] == size.rest[size.value..] + q;
  }

  lemma DecodeInfoExtends(s: seq<byte>, q: seq<byte>)
    requires DecodeInfo(s).Success?
    ensures DecodeInfo(s + q) == Success(DecodeInfo(s).value.(at := DecodeInfo(s).value.at + q))
  {
    var title := ReadText(s).value;
    ReadTextExtends(s, q);
    var author := ReadText(title.rest).value;
    ReadTextExtends(title.rest, q);
    var length := ReadU64(author.rest).value;
    ReadU64Extends(author.rest, q);
    ReadTextExtends(length.rest, q);
  }

  lemma DecodeHeadExtends(s: seq<byte>, q: seq<byte>)
    requires DecodeHead(s).Success?
    ensures DecodeHead(s + q) == Success(DecodeHead(s).value.(at := DecodeHead(s).value.at + q))
  {
    var info := DecodeInfo(s).value;
    DecodeInfoExtends(s, q);
    var stream := ReadFlag(info.at).value;
    ReadFlagExtends(info.at, q);
    var urlPresent := ReadFlag(stream.rest).value;
    ReadFlagExtends(stream.rest, q);
    if urlPresent.value {
      ReadTextExtends(urlPresent.rest, q);
    }
  }

  lemma DecodeTailExtends(s: seq<byte>, utf8: seq<byte> -> string, q: seq<byte>)
    requires DecodeTail(s, utf8).Success?
    ensures DecodeTail(s + q, utf8) == Success(Read(DecodeTail(s, utf8).value.value, DecodeTail(s, utf8).value.rest + q))
  {
    var sourceName := ReadText(s).value;
    ReadTextExtends(s, q);
    if HasContainer(utf8(sourceName.value)) {
      var afterContainer := SkipText(sourceName.rest).value;
      assert afterContainer != [];
      SkipTextExtends(sourceName.rest, q);
      ReadU64Extends(afterContainer, q);
    } else {
      ReadU64Extends(sourceName.rest, q);
    }
  }

  lemma DecodeFieldsExtends(trackId: string, s: seq<byte>, utf8: seq<byte> -> string, q: seq<byte>)
    requires DecodeFields(trackId, s, utf8).Success?
    ensures DecodeFields(trackId, s + q, utf8)
         == Success(Decoded(DecodeFields(trackId, s, utf8).value.track, DecodeFields(trackId, s, utf8).value.rest + q))
  {
    var head := DecodeHead(s).value;
    DecodeHeadExtends(s, q);
    DecodeTailExtends(head.at, utf8, q);
  }

  /** Nothing to read: the title length is out of range. */
  lemma EmptyFails(trackId: string, utf8: seq<byte> -> string)
    ensures DecodeFields(trackId, [], utf8) == Failure(FailedToParse)
  {
    assert ReadText([]) == Failure(FailedToParse);
  }

  /** Appending bytes to a track message changes neither the track nor where
      reading stops: the decoder never looks past the position field. */
  lemma DecodeExtends(trackId: string, b: seq<byte>, utf8: seq<byte> -> string, q: seq<byte>)
    requires Decode(trackId, b, utf8).Success?
    ensures Decode(trackId, b + q, utf8)
         == Success(Decoded(Decode(trackId, b, utf8).value.track, Decode(trackId, b, utf8).value.rest + q))
  {
    var s := From(b, 5);
    assert |b| > 5 by {
      EmptyFails(trackId, utf8);
    }
    FromAppend(b, 5, q);
    DecodeFieldsExtends(trackId, s, utf8, q);
  }

  /** The size, flags and version bytes are never examined: two inputs that
      differ only there decode alike. */
  lemma HeaderNotRead(trackId: string, h1: seq<byte>, h2: seq<byte>, s: seq<byte>, utf8: seq<byte> -> string)
    requires |h1| == 5 && |h2| == 5
    ensures Decode(trackId, h1 + s, utf8) == Decode(trackId, h2 + s, utf8)
  {
    assert From(h1 + s, 5) == s;
    assert From(h2 + s, 5) == s;
  }

  /** No proper prefix of an encoded message decodes. */
  lemma TruncatedFails(trackId: string, f: TrackFields, utf8: seq<byte> -> string, k: nat)
    requires Encodable(f) && k < |Encode(f, utf8)|
    ensures Decode(trackId, Encode(f, utf8)[..k], utf8).Failure?
  {
    var m := Encode(f, utf8);
    assert m[..k] + m[k..] == m;
    if Decode(trackId, m[..k], utf8).Success? {
      DecodeExtends(trackId, m[..k], utf8, m[k..]);
      DecodeEncode(trackId, f, utf8);
      assert false;
    }
  }

  /** The two messages on the shortest inputs: with no byte at offset 5 the title
      length read is out of range; with one byte there it is cut short. */
  lemma ShortInputs(trackId: string, utf8: seq<byte> -> string)
    ensures Decode(trackId, [0, 0, 0, 0, 0], utf8) == Failure(FailedToParse)
    ensures Decode(trackId, [0, 0, 0, 0, 0, 0], utf8) == Failure(NotValid)
  {
    assert From([0, 0, 0, 0, 0], 5) == [];
    assert From([0, 0, 0, 0, 0, 0], 5) == [0];
  }
}
