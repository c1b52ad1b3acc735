/**
 * The logical column types used by the HBase table schema and the byte
 * encoding of their values.  HBase's `Bytes` utility is not part of this
 * model; it is stood in for by a type-directed, injective encoding with the
 * same widths: a big-endian 32-bit INT, a big-endian 64-bit BIGINT, a DOUBLE
 * as its 64-bit IEEE 754 bit pattern, a BOOLEAN as one byte and a STRING as
 * its UTF-8 bytes.  Reading follows `Bytes.toInt`, `toLong` and `toDouble`,
 * which take the leading bytes of a longer array, and `Bytes.toBoolean`,
 * which wants exactly one byte.
 */
module Types {
  import opened Wrappers

  type Byte = x: int | 0 <= x < 256
  type Bytes = seq<Byte>

  newtype int32 = x: int | -0x8000_0000 <= x < 0x8000_0000
  newtype int64 = x: int | -0x8000_0000_0000_0000 <= x < 0x8000_0000_0000_0000
  newtype uint64 = x: int | 0 <= x < 0x1_0000_0000_0000_0000

  /** The logical types of the columns the codec supports. */
  datatype LogicalType = IntType | BigIntType | DoubleType | BooleanType | StringType

  /** A non-null column value. */
  datatype Value =
    | IntValue(i: int32)
    | BigIntValue(l: int64)
      // A DOUBLE is kept as its IEEE 754 bit pattern and never interpreted numerically.
    | DoubleValue(bits: uint64)
    | BooleanValue(b: bool)
      // Flink keeps a STRING as its UTF-8 bytes.
    | StringValue(utf8: Bytes)

  function TypeOf(v: Value): LogicalType
  {
    match v
    case IntValue(_) => IntType
    case BigIntValue(_) => BigIntType
    case DoubleValue(_) => DoubleType
    case BooleanValue(_) => BooleanType
    case StringValue(_) => StringType
  }

  /**
   * Raised when stored bytes do not have the width their fixed-width type
   * needs, or when a row key is read from a result with no cells.
   */
  datatype DecodeError =
    | MalformedValue(expectedLength: nat, actualLength: nat)
    | MissingRowKey

  /** The byte width of a fixed-width type; None for the variable-width STRING. */
  function FixedWidth(t: LogicalType): (w: Option<nat>)
    ensures w.Some? <==> t != StringType
    ensures w.Some? ==> w.value > 0
  {
    match t
    case IntType => Some(4)
    case BigIntType => Some(8)
    case DoubleType => Some(8)
    case BooleanType => Some(1)
    case StringType => None
  }

  /** `n` stored bytes can be read as a value of type `t`. */
  predicate Readable(t: LogicalType, n: nat)
  {
    match t
    case StringType => true
    case BooleanType => n == 1
    case _ => n >= FixedWidth(t).value
  }

  function Pow256(w: nat): (p: nat)
    ensures p > 0
  {
    if w == 0 then 1 else 256 * Pow256(w - 1)
  }

  /** `n` written as exactly `w` bytes, most significant first. */
  function BigEndian(n: nat, w: nat): (b: Bytes)
    requires n < Pow256(w)
    ensures |b| == w
  {
    if w == 0 then []
    else
      assert n / 256 < Pow256(w - 1) by {
        DivBound(n, Pow256(w - 1));
      }
      BigEndian(n / 256, w - 1) + [n % 256]
  }

  lemma DivBound(n: nat, p: nat)
    requires n < 256 * p
    ensures n / 256 < p
  {
  }

  /** The number whose big-endian bytes are `b`. */
  function FromBigEndian(b: Bytes): (n: nat)
    ensures n < Pow256(|b|)
  {
    if b == [] then 0
    else
      var hi := FromBigEndian(b[..|b| - 1]);
      assert hi * 256 + b[|b| - 1] < Pow256(|b|) by {
        assert hi <= Pow256(|b| - 1) - 1;
        assert hi * 256 <= (Pow256(|b| - 1) - 1) * 256;
      }
      hi * 256 + b[|b| - 1]
  }

  lemma {:induction false} FromBigEndianInverse(n: nat, w: nat)
    requires n < Pow256(w)
    ensures FromBigEndian(BigEndian(n, w)) == n
  {
    if w > 0 {
      var b := BigEndian(n, w);
      assert b[..w - 1] == BigEndian(n / 256, w - 1);
      FromBigEndianInverse(n / 256, w - 1);
    }
  }

  /** Two's complement: a signed value below `modulus / 2` in magnitude as an unsigned one. */
  function ToUnsigned(x: int, modulus: nat): (u: nat)
    requires modulus > 0 && -(modulus / 2) <= x < modulus / 2
    ensures u < modulus
  {
    if x < 0 then x + modulus else x
  }

  /** The signed value whose two's complement modulo `modulus` is `u`. */
  function FromUnsigned(u: nat, modulus: nat): (x: int)
    requires modulus % 2 == 0 && u < modulus
    ensures -(modulus / 2) <= x < modulus / 2
    ensures modulus > 0 && -(modulus / 2) <= x < modulus / 2 ==> ToUnsigned(x, modulus) == u
  {
    if u >= modulus / 2 then u - modulus else u
  }

  lemma Pow256Facts()
    ensures Pow256(4) == 0x1_0000_0000
    ensures Pow256(8) == 0x1_0000_0000_0000_0000
  {
    assert Pow256(1) == 0x100;
    assert Pow256(2) == 0x1_0000;
    assert Pow256(3) == 0x100_0000;
    assert Pow256(4) == 0x1_0000_0000;
    assert Pow256(5) == 0x100_0000_0000;
    assert Pow256(6) == 0x1_0000_0000_0000;
    assert Pow256(7) == 0x100_0000_0000_0000;
  }

  /** The bytes a non-null value is stored as. */
  function Encode(v: Value): (b: Bytes)
    ensures TypeOf(v) != StringType ==> |b| == FixedWidth(TypeOf(v)).value
    ensures v.StringValue? ==> b == v.utf8
  {
    Pow256Facts();
    match v
    case IntValue(i) => BigEndian(ToUnsigned(i as int, 0x1_0000_0000), 4)
    case BigIntValue(l) => BigEndian(ToUnsigned(l as int, 0x1_0000_0000_0000_0000), 8)
    case DoubleValue(bits) => BigEndian(bits as nat, 8)
    case BooleanValue(x) => [if x then 0xFF else 0]
    case StringValue(s) => s
  }

  /** The value of type `t` stored as `b`. */
  function Decode(t: LogicalType, b: Bytes): (r: Result<Value, DecodeError>)
    ensures r.Err? <==> !Readable(t, |b|)
    ensures r.Err? ==> r.error == MalformedValue(FixedWidth(t).value, |b|)
    ensures r.Ok? ==> TypeOf(r.value) == t
  {
    Pow256Facts();
    match FixedWidth(t)
    case Some(w) =>
      if !Readable(t, |b|) then Err(MalformedValue(w, |b|))
      else (
        match t
        case IntType => Ok(IntValue(FromUnsigned(FromBigEndian(b[..w]), 0x1_0000_0000) as int32))
        case BigIntType => Ok(BigIntValue(FromUnsigned(FromBigEndian(b[..w]), 0x1_0000_0000_0000_0000) as int64))
        case DoubleType => Ok(DoubleValue(FromBigEndian(b[..w]) as uint64))
        case BooleanType => Ok(BooleanValue(b[0] != 0))
      )
    case None => Ok(StringValue(b))
  }

  /** INT, BIGINT and DOUBLE read only their leading bytes: trailing bytes change nothing. */
  lemma DecodeReadsPrefix(t: LogicalType, b: Bytes, extra: Bytes)
    requires t == IntType || t == BigIntType || t == DoubleType
    requires |b| == FixedWidth(t).value
    ensures Decode(t, b + extra) == Decode(t, b)
  {
    assert (b + extra)[..|b|] == b;
    assert b[..|b|] == b;
  }

  /** Decoding what a value was encoded as gives the value back. */
  lemma DecodeEncode(v: Value)
    ensures Decode(TypeOf(v), Encode(v)) == Ok(v)
  {
    Pow256Facts();
    assert Encode(v)[..|Encode(v)|] == Encode(v);
    match v
    case IntValue(i) =>
      FromBigEndianInverse(ToUnsigned(i as int, 0x1_0000_0000), 4);
    case BigIntValue(l) =>
      FromBigEndianInverse(ToUnsigned(l as int, 0x1_0000_0000_0000_0000), 8);
    case DoubleValue(bits) =>
      FromBigEndianInverse(bits as nat, 8);
    case BooleanValue(_) =>
    case StringValue(_) =>
  }

  /** Two values of one type never share an encoding. */
  lemma EncodeInjective(v: Value, w: Value)
    requires TypeOf(v) == TypeOf(w)
    requires Encode(v) == Encode(w)
    ensures v == w
  {
    DecodeEncode(v);
    DecodeEncode(w);
  }
}
