/** The JSON values Gson hands back, and the two Gson accessors execRequest
    applies to the members of an error envelope (getAsInt, getAsString).
    An accessor that Gson would answer with an exception yields None. */
module Json {
  import opened Wrappers

  datatype JsonValue =
    | JNull
    | JBool(b: bool)
    | JNumber(n: int)        // an integral JSON number, written canonically
    | JString(s: string)
    | JArray(items: seq<JsonValue>)
    | JObject(members: map<string, JsonValue>)

  const Int32Modulus: int := 0x1_0000_0000

  predicate IsInt32(x: int)
  {
    -0x8000_0000 <= x < 0x8000_0000
  }

  /** The low 32 bits of `n` read as a two's-complement Java int: what
      Number.intValue gives for an integral value of any size. */
  function ToInt32(n: int): (r: int)
    ensures IsInt32(r)
    ensures (r - n) % Int32Modulus == 0
    ensures IsInt32(n) ==> r == n
  {
    var low := n % Int32Modulus;
    if low < 0x8000_0000 then low else low - Int32Modulus
  }

  /** JsonElement.getAsInt for numbers and single-element arrays. Strings
      that Integer.parseInt would accept are not modelled (None). */
  function AsInt(v: JsonValue): (r: Option<int>)
    ensures r.Some? ==> IsInt32(r.value)
    ensures v.JNumber? ==> r == Some(ToInt32(v.n))
  {
    match v
    case JNumber(n) => Some(ToInt32(n))
    case JArray(items) => if |items| == 1 then AsInt(items[0]) else None
    case _ => None
  }

  function DigitChar(d: nat): char
    requires d < 10
  {
    "0123456789"[d]
  }

  /** Decimal text of a natural number, most significant digit first. */
  function NatText(n: nat): (r: string)
    ensures |r| > 0
    ensures forall i :: 0 <= i < |r| ==> '0' <= r[i] <= '9'
    ensures r[0] == '0' ==> n == 0
  {
    if n < 10 then [DigitChar(n)] else NatText(n / 10) + [DigitChar(n % 10)]
  }

  /** Decimal text of an integer, with a leading '-' when negative. */
  function IntText(n: int): (r: string)
    ensures |r| > 0
    ensures (r[0] == '-') <==> n < 0
  {
    if n < 0 then "-" + NatText(-n) else NatText(n)
  }

  /** JsonElement.getAsString: strings as they are, numbers and booleans
      as text, a one-element array as its element; None where Gson throws
      (null, objects, other arrays). */
  function AsString(v: JsonValue): (r: Option<string>)
    ensures v.JString? ==> r == Some(v.s)
    ensures v.JNull? || v.JObject? ==> r.None?
  {
    match v
    case JString(s) => Some(s)
    case JNumber(n) => Some(IntText(n))
    case JBool(b) => Some(if b then "true" else "false")
    case JArray(items) => if |items| == 1 then AsString(items[0]) else None
    case _ => None
  }
}
