/** The JSON values the client receives, and the Newtonsoft.Json operations it
    applies to them: `token[key]` and the explicit casts `(string)`, `(bool)`,
    `(ulong)`, `(long)` and `(int)`. Parsing and printing JSON text are library
    calls and are not modelled; a message arrives here already as a `Json` value.

    The casts are modelled on the cases the client meets: a number cast accepts a
    JSON integer, or a JSON string of unsigned decimal digits (as Lavalink sends
    guild ids), inside the target range; a boolean cast accepts a JSON boolean; a
    text cast accepts a JSON string and turns a missing field or JSON null into
    .NET null. Everything else raises, as the library's conversions do for the
    shapes that cannot be converted. */
module Json {
  import opened Base
  import Decimal

  datatype Json =
    | JNull
    | JBool(b: bool)
    | JNumber(n: int)
    | JString(s: string)
    | JArray(items: seq<Json>)
    | JObject(fields: map<string, Json>)

  /** The exceptions the client can meet while reading a JSON value. */
  datatype Fault =
    | NullReference   // indexing a token that is .NET null (a missing field)
    | InvalidToken    // indexing an array or a primitive value by name
    | InvalidCast     // a cast the value cannot be converted by

  /** `token[key]`: `None` is .NET null, for a missing field. */
  function Index(token: Option<Json>, key: string): (r: Result<Option<Json>, Fault>)
    ensures token.None? ==> r == Failure(NullReference)
    ensures r.Success? <==> token.Some? && token.value.JObject?
    ensures r.Success? ==> (r.value.Some? <==> key in token.value.fields)
    ensures r.Success? && r.value.Some? ==> r.value.value == token.value.fields[key]
  {
    match token
    case None => Failure(NullReference)
    case Some(JObject(fields)) => Success(if key in fields then Some(fields[key]) else None)
    case Some(_) => Failure(InvalidToken)
  }

  /** A field of an object that is known not to be null. */
  function Field(obj: Json, key: string): Result<Option<Json>, Fault>
  {
    Index(Some(obj), key)
  }

  /** `(string) token`. */
  function ToText(token: Option<Json>): (r: Result<Option<string>, Fault>)
    ensures r == Success(None) <==> token.None? || token == Some(JNull)
    ensures forall s :: r == Success(Some(s)) <==> token == Some(JString(s))
  {
    match token
    case None => Success(None)
    case Some(JNull) => Success(None)
    case Some(JString(s)) => Success(Some(s))
    case Some(_) => Failure(InvalidCast)
  }

  /** `(bool) token`. */
  function ToBool(token: Option<Json>): (r: Result<bool, Fault>)
    ensures forall b :: r == Success(b) <==> token == Some(JBool(b))
  {
    match token
    case Some(JBool(b)) => Success(b)
    case _ => Failure(InvalidCast)
  }

  /** The integer a numeric cast reads from a token, before its range check. */
  function IntegerOf(token: Option<Json>): Option<int>
  {
    match token
    case Some(JNumber(n)) => Some(n)
    case Some(JString(s)) =>
      (match Decimal.ParseDecimal(s)
       case Some(v) => Some(v as int)
       case None => None)
    case _ => None
  }

  /** `(ulong) token`. */
  function ToULong(token: Option<Json>): (r: Result<ulong, Fault>)
    ensures r.Success? <==> IntegerOf(token).Some? && 0 <= IntegerOf(token).value < 0x1_0000_0000_0000_0000
    ensures r.Success? ==> r.value == IntegerOf(token).value
  {
    var n := IntegerOf(token);
    if n.Some? && 0 <= n.value < 0x1_0000_0000_0000_0000 then Success(n.value) else Failure(InvalidCast)
  }

  /** `(long) token`. */
  function ToLong(token: Option<Json>): (r: Result<int64, Fault>)
    ensures r.Success? <==> IntegerOf(token).Some? && -0x8000_0000_0000_0000 <= IntegerOf(token).value < 0x8000_0000_0000_0000
    ensures r.Success? ==> r.value == IntegerOf(token).value
  {
    var n := IntegerOf(token);
    if n.Some? && -0x8000_0000_0000_0000 <= n.value < 0x8000_0000_0000_0000 then Success(n.value) else Failure(InvalidCast)
  }

  /** `(int) token`. */
  function ToInt32(token: Option<Json>): (r: Result<int32, Fault>)
    ensures r.Success? <==> IntegerOf(token).Some? && -0x8000_0000 <= IntegerOf(token).value < 0x8000_0000
    ensures r.Success? ==> r.value == IntegerOf(token).value
  {
    var n := IntegerOf(token);
    if n.Some? && -0x8000_0000 <= n.value < 0x8000_0000 then Success(n.value) else Failure(InvalidCast)
  }

  /** A guild id written as decimal text, as the client and Lavalink exchange it,
      casts back to the same id. */
  lemma GuildIdTextCasts(g: ulong)
    ensures ToULong(Some(JString(Decimal.DecimalText(g)))) == Success(g)
  {
    Decimal.ParseDecimalText(g);
  }
}
