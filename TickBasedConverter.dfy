/**
 * The tick-based converter: a DateTime or a TimeSpan goes on the wire as its
 * signed 64-bit tick count and nothing else
 * (ABSoftware.ABSave/Converters/TickBasedConverter.cs).
 */
module TickConverter {
  import opened Wire

  /** The mode `Initialize` selects for the converter's target type. */
  datatype TicksType = DateTime | TimeSpan

  /** A boxed DateTime or TimeSpan, reduced to its tick count. */
  datatype TickValue = DateTimeValue(ticks: int) | TimeSpanValue(ticks: int)

  datatype TickError =
    | InvalidCast(mode: TicksType, value: TickValue)   // unboxing the wrong struct
    | EndOfInput(at: nat)
    | UnexpectedToken(at: nat)
    | TicksOutOfRange(ticks: int)                    // `new DateTime(ticks)` rejects it

  const MinInt64: int := -0x8000_0000_0000_0000
  const MaxInt64: int := 0x7FFF_FFFF_FFFF_FFFF
  /** `DateTime.MaxValue.Ticks`: the tick count of 9999-12-31 23:59:59.9999999. */
  const MaxDateTimeTicks: int := 3_155_378_975_999_999_999

  predicate InInt64(n: int) {
    MinInt64 <= n <= MaxInt64
  }

  /** The values .NET can hold: a DateTime's ticks lie in [0, MaxValue.Ticks], a TimeSpan's in the 64-bit range. */
  predicate ValidTickValue(v: TickValue) {
    match v
    case DateTimeValue(t) => 0 <= t <= MaxDateTimeTicks
    case TimeSpanValue(t) => InInt64(t)
  }

  /** `Initialize`: DateTime mode exactly for the DateTime type, TimeSpan mode for anything else. */
  function ModeFor(t: RType): (m: TicksType)
    ensures m == DateTime <==> t == DateTimeType
    ensures m == TimeSpan <==> t != DateTimeType
  {
    if t == DateTimeType then DateTime else TimeSpan
  }

  /** Whether a boxed value unboxes to the struct the mode's switch arm casts to. */
  predicate MatchesMode(mode: TicksType, v: TickValue) {
    (mode == DateTime && v.DateTimeValue?) || (mode == TimeSpan && v.TimeSpanValue?)
  }

  /** `ExactTypes`: the types this converter is registered for. */
  function ExactTypes(): seq<RType> {
    [DateTimeType, TimeSpanType]
  }

  /** `AlsoConvertsNonExact`: no family of subtypes is matched. */
  const AlsoConvertsNonExact: bool := false

  /** Whether the converter registry picks this converter for a type. */
  predicate ConvertsType(t: RType) {
    t in ExactTypes() || AlsoConvertsNonExact
  }

  lemma ConvertsExactlyTickTypes(t: RType)
    ensures ConvertsType(t) <==> t == DateTimeType || t == TimeSpanType
  {
  }

  /** What `Serialize` writes: the tick count as one 64-bit value, or a cast failure. */
  function SerializeTicks(mode: TicksType, v: TickValue): (r: Result)
    ensures r.Written? <==> MatchesMode(mode, v)
    ensures r.Written? ==> r.tokens == [Int64(v.ticks)]
  {
    if MatchesMode(mode, v) then Written([Int64(v.ticks)]) else CastFailed(InvalidCast(mode, v))
  }

  datatype Result = Written(tokens: seq<Token>) | CastFailed(error: TickError)

  datatype ReadResult = ReadValue(value: TickValue, rest: seq<Token>) | ReadFailed(error: TickError)

  /** What `Deserialize` reads from `input` (starting at `position`): one 64-bit value made into the mode's type. */
  function DeserializeTicks(mode: TicksType, input: seq<Token>, position: nat): (r: ReadResult)
    ensures r.ReadValue? ==> |input| > 0 && r.rest == input[1..] && input[0] == Int64(r.value.ticks)
    ensures r.ReadValue? ==> MatchesMode(mode, r.value) && ValidTickValue(r.value)
  {
    if |input| == 0 then ReadFailed(EndOfInput(position))
    else if !input[0].Int64? || !InInt64(input[0].v) then ReadFailed(UnexpectedToken(position))
    else
      match mode
      case DateTime =>
        if 0 <= input[0].v <= MaxDateTimeTicks then ReadValue(DateTimeValue(input[0].v), input[1..])
        else ReadFailed(TicksOutOfRange(input[0].v))
      case TimeSpan => ReadValue(TimeSpanValue(input[0].v), input[1..])
  }

  /** Reading back what was written gives the same value and leaves the rest of the input. */
  lemma TicksRoundTrip(mode: TicksType, v: TickValue, rest: seq<Token>, position: nat)
    requires MatchesMode(mode, v) && ValidTickValue(v)
    ensures DeserializeTicks(mode, SerializeTicks(mode, v).tokens + rest, position) == ReadValue(v, rest)
  {
    assert (SerializeTicks(mode, v).tokens + rest)[1..] == rest;
  }

  /** The converter instance: its only state is the mode chosen by `Initialize`. */
  class TickBasedConverter {
    var mode: TicksType

    /** The field starts at the enum's first member, as .NET zero-initialises it. */
    constructor ()
      ensures mode == DateTime
    {
      mode := DateTime;
    }

    method Initialize(targetType: RType)
      modifies this
      ensures mode == ModeFor(targetType)
    {
      mode := if targetType == DateTimeType then DateTime else TimeSpan;
    }

    /** Appends the value's tick count to the serializer's output. */
    method Serialize(obj: TickValue, output: seq<Token>) returns (newOutput: seq<Token>, error: Option<TickError>)
      ensures SerializeTicks(mode, obj).Written? ==> error == None && newOutput == output + SerializeTicks(mode, obj).tokens
      ensures SerializeTicks(mode, obj).CastFailed? ==> error == Some(SerializeTicks(mode, obj).error) && newOutput == output
    {
      match mode {
        case DateTime =>
          if !obj.DateTimeValue? {
            return output, Some(InvalidCast(mode, obj));
          }
          newOutput := output + [Int64(obj.ticks)];
        case TimeSpan =>
          if !obj.TimeSpanValue? {
            return output, Some(InvalidCast(mode, obj));
          }
          newOutput := output + [Int64(obj.ticks)];
      }
      error := None;
    }

    /** Reads one 64-bit value and builds the mode's type from it. */
    method Deserialize(input: seq<Token>, position: nat) returns (r: ReadResult)
      ensures r == DeserializeTicks(mode, input, position)
    {
      if |input| == 0 {
        return ReadFailed(EndOfInput(position));
      }
      if !input[0].Int64? || !InInt64(input[0].v) {
        return ReadFailed(UnexpectedToken(position));
      }
      var ticks := input[0].v;
      match mode {
        case DateTime =>
          if ticks < 0 || ticks > MaxDateTimeTicks {
            return ReadFailed(TicksOutOfRange(ticks));
          }
          r := ReadValue(DateTimeValue(ticks), input[1..]);
        case TimeSpan =>
          r := ReadValue(TimeSpanValue(ticks), input[1..]);
      }
    }
  }
}
