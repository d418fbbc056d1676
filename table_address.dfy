/**
 * The sentinel-encoded address stored in address columns of a processed
 * profile: either a valid 64-bit address, the "base" cell written as -1, or
 * some other negative value kept verbatim as an error marker.
 *
 * Serialization and deserialization are hand-written in the source: the
 * serializer picks one of three integer writers, and the visitor dispatches
 * unsigned widths to `FromPositive` and signed widths to `FromNegative`.
 */
module TableAddresses {
  import opened Integers
  import opened Wrappers

  datatype TableAddress = Address(address: uint64) | Base | Error(code: int64)

  /** The error type of the visitor: the message a rejected input is reported with. */
  type DecodeError = string

  /** What the visitor says it expects; serde builds the error for an input
      the visitor has no method for from this message. */
  const EXPECTING: DecodeError := "A valid 64-bit integer, or -1"

  /** Any unsigned value, already widened to 64 bits, is a valid address. */
  function FromPositive(value: uint64): (r: TableAddress)
    ensures r.Address? && r.address == value
  {
    Address(value)
  }

  /** A signed value is the base marker when it is -1 and an error marker otherwise.
      The sign of a value other than -1 is not checked. */
  function FromNegative(value: int64): (r: TableAddress)
    ensures !r.Address?
    ensures r.Base? <==> value == -1
    ensures r.Error? ==> r.code == value
  {
    if value == -1 then Base else Error(value)
  }

  // The six visitor entry points, one per integer width a deserializer may hand over.

  function VisitU8(value: uint8): (r: Result<TableAddress, DecodeError>)
    ensures r.Ok? && r.value.Address? && r.value.address as int == value as int
  {
    Ok(FromPositive(value as uint64))
  }

  function VisitU32(value: uint32): (r: Result<TableAddress, DecodeError>)
    ensures r.Ok? && r.value.Address? && r.value.address as int == value as int
  {
    Ok(FromPositive(value as uint64))
  }

  function VisitU64(value: uint64): (r: Result<TableAddress, DecodeError>)
    ensures r.Ok? && r.value.Address? && r.value.address == value
  {
    Ok(FromPositive(value))
  }

  function VisitI8(value: int8): (r: Result<TableAddress, DecodeError>)
    ensures r.Ok? && !r.value.Address?
    ensures r.value.Base? <==> value == -1
    ensures r.value.Error? ==> r.value.code as int == value as int
  {
    Ok(FromNegative(value as int64))
  }

  function VisitI32(value: int32): (r: Result<TableAddress, DecodeError>)
    ensures r.Ok? && !r.value.Address?
    ensures r.value.Base? <==> value == -1
    ensures r.value.Error? ==> r.value.code as int == value as int
  {
    Ok(FromNegative(value as int64))
  }

  function VisitI64(value: int64): (r: Result<TableAddress, DecodeError>)
    ensures r.Ok? && !r.value.Address?
    ensures r.value.Base? <==> value == -1
    ensures r.value.Error? ==> r.value.code == value
  {
    Ok(FromNegative(value))
  }

  /** Which visitor method a deserializer calls, with the value it passes. */
  datatype VisitedInt =
    | VisitedU8(u8: uint8)
    | VisitedU32(u32: uint32)
    | VisitedU64(u64: uint64)
    | VisitedI8(i8: int8)
    | VisitedI32(i32: int32)
    | VisitedI64(i64: int64)
  {
    predicate IsUnsigned() {
      VisitedU8? || VisitedU32? || VisitedU64?
    }

    /** The mathematical integer carried, whatever its width. */
    function Value(): (n: int) {
      match this
      case VisitedU8(v) => v as int
      case VisitedU32(v) => v as int
      case VisitedU64(v) => v as int
      case VisitedI8(v) => v as int
      case VisitedI32(v) => v as int
      case VisitedI64(v) => v as int
    }
  }

  /** The visitor as a whole: unsigned widths decode to an address holding the
      same integer; signed widths decode to Base exactly for -1 and to Error
      holding the same integer otherwise. No input is rejected. */
  function Visit(v: VisitedInt): (r: Result<TableAddress, DecodeError>)
    ensures r.Ok?
    ensures r.value.Address? <==> v.IsUnsigned()
    ensures r.value.Address? ==> r.value.address as int == v.Value()
    ensures r.value.Base? <==> !v.IsUnsigned() && v.Value() == -1
    ensures r.value.Error? ==> r.value.code as int == v.Value()
  {
    match v
    case VisitedU8(x) => VisitU8(x)
    case VisitedU32(x) => VisitU32(x)
    case VisitedU64(x) => VisitU64(x)
    case VisitedI8(x) => VisitI8(x)
    case VisitedI32(x) => VisitI32(x)
    case VisitedI64(x) => VisitI64(x)
  }

  /** Which serializer method the hand-written serialization calls, with its argument. */
  datatype SerializedInt =
    | SerializedU64(u64: uint64)
    | SerializedI8(i8: int8)
    | SerializedI64(i64: int64)
  {
    /** The integer written to the output. */
    function Value(): (n: int) {
      match this
      case SerializedU64(v) => v as int
      case SerializedI8(v) => v as int
      case SerializedI64(v) => v as int
    }
  }

  /** Address(u) is written as the unsigned u, Base as exactly -1, Error(i) as i unchanged. */
  function Serialize(a: TableAddress): (s: SerializedInt)
    ensures a.Address? ==> s.SerializedU64? && s.Value() == a.address as int
    ensures a.Base? ==> s.SerializedI8? && s.Value() == -1
    ensures a.Error? ==> s.SerializedI64? && s.Value() == a.code as int
  {
    match a
    case Address(u) => SerializedU64(u)
    case Base => SerializedI8(-1)
    case Error(i) => SerializedI64(i)
  }

  /** The integers a JSON number may carry into this column: anything an i64 or a u64 holds. */
  predicate InWireRange(n: int) {
    -TWO_TO_THE_63 <= n < TWO_TO_THE_64
  }

  /** How a JSON deserializer routes an integer to the visitor when asked for a
      u64: a non-negative number goes to visit_u64, a negative one to visit_i64.
      This belongs to the JSON library, which is not part of this model. */
  function JsonDispatch(n: int): (v: VisitedInt)
    requires InWireRange(n)
    ensures v.Value() == n
    ensures v.IsUnsigned() <==> n >= 0
  {
    if n >= 0 then VisitedU64(n as uint64) else VisitedI64(n as int64)
  }

  /** Decoding one JSON integer. Within the i64/u64 range non-negative values
      are addresses, -1 is Base, and every other negative value is an Error
      holding that value. Any other integer reaches serde's default
      `visit_f64`, which rejects it with the visitor's `expecting` message. */
  function Deserialize(n: int): (r: Result<TableAddress, DecodeError>)
    ensures r.Ok? <==> InWireRange(n)
    ensures r.Err? ==> r.error == EXPECTING
    ensures r.Ok? && n >= 0 ==> r.value.Address? && r.value.address as int == n
    ensures r.Ok? && n == -1 ==> r.value.Base?
    ensures r.Ok? && n < -1 ==> r.value.Error? && r.value.code as int == n
  {
    if InWireRange(n) then Visit(JsonDispatch(n)) else Err(EXPECTING)
  }

  /** The addresses a JSON deserializer can produce: every Error it builds holds
      a negative value other than -1. */
  predicate Decodable(a: TableAddress) {
    a.Error? ==> a.code < 0 && a.code != -1
  }

  /** Writing an address and reading the integer back gives the same address,
      for every address decoding can produce. */
  lemma RoundTrip(a: TableAddress)
    requires Decodable(a)
    ensures InWireRange(Serialize(a).Value())
    ensures Deserialize(Serialize(a).Value()) == Ok(a)
  {
    var n := Serialize(a).Value();
    match a
    case Address(u) =>
      assert Deserialize(n).value.address == u;
    case Base =>
    case Error(i) =>
      assert Deserialize(n).value.code == i;
  }

  /** The round trip fails for every other address: the precondition above is exact. */
  lemma RoundTripOnlyIfDecodable(a: TableAddress)
    requires Deserialize(Serialize(a).Value()) == Ok(a)
    ensures Decodable(a)
  {
  }

  /** Decoding produces only decodable addresses, and writing the decoded
      address back out yields the very integer that was read. */
  lemma WireRoundTrip(n: int)
    requires InWireRange(n)
    ensures Decodable(Deserialize(n).value)
    ensures Serialize(Deserialize(n).value).Value() == n
  {
  }

  /** An Error built directly from a non-negative value, or from -1, does not survive. */
  lemma NonDecodableErrors()
    ensures Deserialize(Serialize(Error(5)).Value()) == Ok(Address(5))
    ensures Deserialize(Serialize(Error(-1)).Value()) == Ok(Base)
    ensures Deserialize(TWO_TO_THE_64) == Err(EXPECTING)
    ensures Deserialize(-TWO_TO_THE_63 - 1) == Err(EXPECTING)
  {
    assert Deserialize(5).value.address == 5;
  }

  /** Concrete cases: the extremes of the address space, the base marker and two
      other negative sentinels survive; Base and Error(-7) are written as -1 and -7. */
  lemma CodecExamples()
    ensures Deserialize(Serialize(Address(0)).Value()) == Ok(Address(0))
    ensures Deserialize(Serialize(Address(0x8000_0000_0000_0000)).Value()) == Ok(Address(0x8000_0000_0000_0000))
    ensures Deserialize(Serialize(Address(0xFFFF_FFFF_FFFF_FFFF)).Value()) == Ok(Address(0xFFFF_FFFF_FFFF_FFFF))
    ensures Deserialize(Serialize(Base).Value()) == Ok(Base)
    ensures Deserialize(Serialize(Error(-2)).Value()) == Ok(Error(-2))
    ensures Deserialize(Serialize(Error(-9999)).Value()) == Ok(Error(-9999))
    ensures Serialize(Base).Value() == -1
    ensures Serialize(Error(-7)).Value() == -7
  {
    RoundTrip(Address(0));
    RoundTrip(Address(0x8000_0000_0000_0000));
    RoundTrip(Address(0xFFFF_FFFF_FFFF_FFFF));
    RoundTrip(Base);
    RoundTrip(Error(-2));
    RoundTrip(Error(-9999));
  }
}
