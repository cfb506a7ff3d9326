/** The transport codec between capability values and JSON. */
module DataValueCodec {
  import opened Wrappers

  const I64_MAX := 0x7FFF_FFFF_FFFF_FFFF

  type i64 = n: int | -0x8000_0000_0000_0000 <= n <= 0x7FFF_FFFF_FFFF_FFFF
  type u64 = n: int | 0 <= n <= 0xFFFF_FFFF_FFFF_FFFF

  /** A 64-bit float by its bit pattern, so that signed zeros and payloads are told apart. */
  type f64 = n: int | 0 <= n <= 0xFFFF_FFFF_FFFF_FFFF

  predicate IsFinite(f: f64) {
    f / 0x10_0000_0000_0000 % 0x800 != 0x7FF
  }

  /** A sign bit, eleven exponent bits and 52 fraction bits; an exponent of all ones is infinity or not a number. */
  lemma FiniteByExponent(sign: int, exponent: int, fraction: int)
    requires 0 <= sign <= 1 && 0 <= exponent < 2048 && 0 <= fraction < 4_503_599_627_370_496
    ensures var f := (sign * 2048 + exponent) * 4_503_599_627_370_496 + fraction;
            0 <= f <= 0xFFFF_FFFF_FFFF_FFFF && (IsFinite(f) <==> exponent != 2047)
  {
    var f := (sign * 2048 + exponent) * 4_503_599_627_370_496 + fraction;
    assert f / 0x10_0000_0000_0000 == sign * 2048 + exponent;
  }

  type finite = f: f64 | IsFinite(f) witness 0

  datatype DataValue =
    | Null
    | Boolean(flag: bool)
    | Integer(integer: i64)
    | Number(float: f64)
    | Text(text: string)
    | List(items: seq<DataValue>)
    | Record(fields: seq<DataField>)

  /** One field of a record; the fields of a record stand in key order. */
  datatype DataField = DataField(key: string, value: DataValue)

  type negative = n: i64 | n < 0 witness -1

  datatype JsonNumber = PosInt(positive: u64) | NegInt(neg: negative) | Float(float: finite)

  datatype Json =
    | JNull
    | JBool(flag: bool)
    | JNumber(number: JsonNumber)
    | JString(text: string)
    | JArray(items: seq<Json>)
    | JObject(fields: seq<JsonField>)

  datatype JsonField = JsonField(key: string, value: Json)

  function Encode(v: DataValue): Json {
    match v
    case Null => JNull
    case Boolean(b) => JBool(b)
    case Integer(n) => JNumber(if n < 0 then NegInt(n) else PosInt(n))
    case Number(f) => if IsFinite(f) then JNumber(Float(f)) else JNull
    case Text(s) => JString(s)
    case List(vs) => JArray(EncodeAll(vs))
    case Record(fs) => JObject(EncodeFields(fs))
  }

  function EncodeAll(vs: seq<DataValue>): seq<Json> {
    if vs == [] then [] else [Encode(vs[0])] + EncodeAll(vs[1..])
  }

  function EncodeFields(fs: seq<DataField>): seq<JsonField> {
    if fs == [] then [] else [JsonField(fs[0].key, Encode(fs[0].value))] + EncodeFields(fs[1..])
  }

  /** The integer that does not fit is reported. */
  function Decode(j: Json): Result<DataValue, u64> {
    match j
    case JNull => Ok(Null)
    case JBool(b) => Ok(Boolean(b))
    case JNumber(PosInt(n)) => if n <= I64_MAX then Ok(Integer(n)) else Err(n)
    case JNumber(NegInt(n)) => Ok(Integer(n))
    case JNumber(Float(f)) => Ok(Number(f))
    case JString(s) => Ok(Text(s))
    case JArray(js) =>
      (match DecodeAll(js) case Ok(vs) => Ok(List(vs)) case Err(n) => Err(n))
    case JObject(fs) =>
      (match DecodeFields(fs) case Ok(gs) => Ok(Record(gs)) case Err(n) => Err(n))
  }

  function DecodeAll(js: seq<Json>): Result<seq<DataValue>, u64> {
    if js == [] then Ok([])
    else match Decode(js[0])
      case Err(n) => Err(n)
      case Ok(v) => match DecodeAll(js[1..]) case Ok(vs) => Ok([v] + vs) case Err(n) => Err(n)
  }

  function DecodeFields(fs: seq<JsonField>): Result<seq<DataField>, u64> {
    if fs == [] then Ok([])
    else match Decode(fs[0].value)
      case Err(n) => Err(n)
      case Ok(v) => match DecodeFields(fs[1..])
        case Ok(gs) => Ok([DataField(fs[0].key, v)] + gs)
        case Err(n) => Err(n)
  }

  // ---- What the codec loses, stated apart from it ----

  predicate AllFinite(v: DataValue) {
    match v
    case Number(f) => IsFinite(f)
    case List(vs) => forall i :: 0 <= i < |vs| ==> AllFinite(vs[i])
    case Record(fs) => forall i :: 0 <= i < |fs| ==> AllFinite(fs[i].value)
    case _ => true
  }

  /** The value with every infinity and NaN replaced by null. */
  function Scrubbed(v: DataValue): DataValue {
    match v
    case Number(f) => if IsFinite(f) then v else Null
    case List(vs) => List(ScrubbedAll(vs))
    case Record(fs) => Record(ScrubbedFields(fs))
    case _ => v
  }

  function ScrubbedAll(vs: seq<DataValue>): (r: seq<DataValue>)
    ensures |r| == |vs| && forall i :: 0 <= i < |vs| ==> r[i] == Scrubbed(vs[i])
  {
    if vs == [] then [] else [Scrubbed(vs[0])] + ScrubbedAll(vs[1..])
  }

  function ScrubbedFields(fs: seq<DataField>): (r: seq<DataField>)
    ensures |r| == |fs| && forall i :: 0 <= i < |fs| ==> r[i] == DataField(fs[i].key, Scrubbed(fs[i].value))
  {
    if fs == [] then [] else [DataField(fs[0].key, Scrubbed(fs[0].value))] + ScrubbedFields(fs[1..])
  }

  /** Integers above the signed range, in reading order. */
  function Oversized(j: Json): seq<u64> {
    match j
    case JNumber(PosInt(n)) => if n <= I64_MAX then [] else [n]
    case JArray(js) => OversizedIn(js)
    case JObject(fs) => OversizedFields(fs)
    case _ => []
  }

  function OversizedIn(js: seq<Json>): seq<u64> {
    if js == [] then [] else Oversized(js[0]) + OversizedIn(js[1..])
  }

  function OversizedFields(fs: seq<JsonField>): seq<u64> {
    if fs == [] then [] else Oversized(fs[0].value) + OversizedFields(fs[1..])
  }

  // ---- Round trips ----

  /** Encoding then decoding returns the value, up to numbers JSON cannot carry. */
  lemma {:induction false} DecodeEncode(v: DataValue)
    ensures Decode(Encode(v)) == Ok(Scrubbed(v))
    decreases v, 1
  {
    match v
    case List(vs) => DecodeEncodeAll(vs);
    case Record(fs) => DecodeEncodeFields(fs);
    case _ =>
  }

  lemma {:induction false} DecodeEncodeAll(vs: seq<DataValue>)
    ensures DecodeAll(EncodeAll(vs)) == Ok(ScrubbedAll(vs))
    decreases vs, 0
  {
    if vs != [] {
      DecodeEncode(vs[0]);
      DecodeEncodeAll(vs[1..]);
      assert EncodeAll(vs)[1..] == EncodeAll(vs[1..]);
    }
  }

  lemma {:induction false} DecodeEncodeFields(fs: seq<DataField>)
    ensures DecodeFields(EncodeFields(fs)) == Ok(ScrubbedFields(fs))
    decreases fs, 0
  {
    if fs != [] {
      DecodeEncode(fs[0].value);
      DecodeEncodeFields(fs[1..]);
      assert EncodeFields(fs)[1..] == EncodeFields(fs[1..]);
    }
  }

  lemma {:induction false} ScrubbedIsSame(v: DataValue)
    ensures Scrubbed(v) == v <==> AllFinite(v)
  {
    match v
    case List(vs) =>
      forall i | 0 <= i < |vs| ensures Scrubbed(vs[i]) == vs[i] <==> AllFinite(vs[i]) {
        ScrubbedIsSame(vs[i]);
      }
      assert Scrubbed(v) == v ==> forall i :: 0 <= i < |vs| ==> Scrubbed(v).items[i] == vs[i];
    case Record(fs) =>
      forall i | 0 <= i < |fs| ensures Scrubbed(fs[i].value) == fs[i].value <==> AllFinite(fs[i].value) {
        ScrubbedIsSame(fs[i].value);
      }
      assert Scrubbed(v) == v ==> forall i :: 0 <= i < |fs| ==> Scrubbed(v).fields[i].value == fs[i].value;
    case _ =>
  }

  /** A value survives the trip through JSON exactly when all its numbers are finite. */
  lemma ValueRoundTrip(v: DataValue)
    ensures Decode(Encode(v)) == Ok(v) <==> AllFinite(v)
  {
    DecodeEncode(v);
    ScrubbedIsSame(v);
  }

  /**
    Decoding fails exactly when some integer is above the signed range, reporting the first one met;
    what does decode encodes back to the same JSON and holds finite numbers only.
  */
  lemma {:induction false} EncodeDecode(j: Json)
    ensures match Decode(j)
            case Ok(v) => Oversized(j) == [] && Encode(v) == j && AllFinite(v)
            case Err(n) => Oversized(j) != [] && Oversized(j)[0] == n
    decreases j, 1
  {
    match j
    case JArray(js) => EncodeDecodeAll(js);
    case JObject(fs) => EncodeDecodeFields(fs);
    case _ =>
  }

  lemma {:induction false} EncodeDecodeAll(js: seq<Json>)
    ensures match DecodeAll(js)
            case Ok(vs) => OversizedIn(js) == [] && EncodeAll(vs) == js && forall i :: 0 <= i < |vs| ==>
                AllFinite(vs[i])
            case Err(n) => OversizedIn(js) != [] && OversizedIn(js)[0] == n
    decreases js, 0
  {
    if js != [] {
      EncodeDecode(js[0]);
      EncodeDecodeAll(js[1..]);
      if DecodeAll(js).Ok? {
        assert DecodeAll(js).value[1..] == DecodeAll(js[1..]).value;
      }
    }
  }

  lemma {:induction false} EncodeDecodeFields(fs: seq<JsonField>)
    ensures match DecodeFields(fs)
            case Ok(gs) =>
              OversizedFields(fs) == [] && EncodeFields(gs) == fs && forall i :: 0 <= i < |gs| ==>
                  AllFinite(gs[i].value)
            case Err(n) => OversizedFields(fs) != [] && OversizedFields(fs)[0] == n
    decreases fs, 0
  {
    if fs != [] {
      EncodeDecode(fs[0].value);
      EncodeDecodeFields(fs[1..]);
      if DecodeFields(fs).Ok? {
        assert DecodeFields(fs).value[1..] == DecodeFields(fs[1..]).value;
      }
    }
  }
}
