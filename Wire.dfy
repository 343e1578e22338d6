/**
 * The vocabulary every part of the model shares: runtime types, object
 * graphs, and the append-only output of the serializers as a sequence of
 * abstract tokens.
 *
 * The bit and byte primitives of ABSave (BitWriter, BitTarget, ABSaveWriter,
 * compressed integers, strings, fixed-width numbers) are not part of this
 * model: each primitive write is one token, and each primitive read consumes
 * one token of the matching kind.
 */
module Wire {

  datatype Option<T> = None | Some(value: T)

  /**
   * A runtime type. A named type carries its assembly, the full name of its
   * generic definition, whether it is a value type and its generic arguments;
   * `Param(i)` is the i-th open parameter of a generic definition.
   */
  datatype RType =
    | Named(assembly: string, name: string, isValue: bool, args: seq<RType>)
    | Param(position: nat)

  predicate IsValueType(t: RType) {
    t.Named? && t.isValue
  }

  predicate IsGenericType(t: RType) {
    t.Named? && |t.args| > 0
  }

  const CoreLib: string := "System.Private.CoreLib"
  const NullableName: string := "System.Nullable`1"

  const ObjectType: RType := Named(CoreLib, "System.Object", false, [])
  const ValueTypeType: RType := Named(CoreLib, "System.ValueType", false, [])
  const DateTimeType: RType := Named(CoreLib, "System.DateTime", true, [])
  const TimeSpanType: RType := Named(CoreLib, "System.TimeSpan", true, [])
  const Int32Type: RType := Named(CoreLib, "System.Int32", true, [])

  /** `Nullable<T>` for a given `T`. */
  function NullableOf(t: RType): RType {
    Named(CoreLib, NullableName, true, [t])
  }

  /** `type.IsGenericType && type.GetGenericTypeDefinition() == typeof(Nullable<>)` */
  predicate IsNullableType(t: RType) {
    t.Named? && t.assembly == CoreLib && t.name == NullableName && |t.args| == 1
  }

  /** A type with no open parameter anywhere in it, as every object's runtime type is. */
  predicate IsClosed(t: RType)
    decreases t
  {
    t.Named? && forall i :: 0 <= i < |t.args| ==> IsClosed(t.args[i])
  }

  /**
   * An object graph as the serializers see it: null, or an instance of its
   * runtime type with one primitive datum (a converter's payload) and the
   * values its member accessors return, in member order.
   */
  datatype Obj =
    | Null
    | Inst(actual: RType, datum: int, fields: seq<Obj>)

  /**
   * One primitive write on the output.
   *  - Bit: one header bit; AlignToByte: the header is flushed to the next byte
   *    boundary (`MoveToNextByte`, `BitTarget.Apply`);
   *  - Compressed: a variable-length unsigned integer;
   *  - Str: a length-prefixed string;
   *  - Byte: one raw byte; LEInt(n, w): `n` little-endian in `w` bytes;
   *    Int32: four raw bytes; Int64: eight raw bytes;
   *  - AssemblyRef: what the assembly converter writes for an assembly;
   *  - Payload: what a type converter or the object converter writes for a value.
   */
  datatype Token =
    | Bit(on: bool)
    | AlignToByte
    | Compressed(n: nat)
    | Str(s: string)
    | Byte(b: nat)
    | LEInt(n: nat, width: nat)
    | Int32(n: nat)
    | Int64(v: int)
    | AssemblyRef(assemblyName: string)
    | Payload(source: PayloadSource, obj: Obj)

  /** Who writes an item's body: the converter with that identity, or the object converter (member by member). */
  datatype PayloadSource = ByConverter(converter: nat) | ByObjectConverter

  /** How a base type tells its subtypes apart on the wire. */
  datatype InheritanceMode = Index | Key | IndexOrKey

  /**
   * A `SaveInheritance` attribute: its mode, the version range it applies to
   * and the positional slot of each subtype registered for index mode.
   */
  datatype InheritanceAttr = InheritanceAttr(
    mode: InheritanceMode, fromVer: nat, toVer: nat, indexCache: map<RType, nat>)

  const IntMax: nat := 0x7FFF_FFFF
  const UIntMax: nat := 0xFFFF_FFFF

  function Pow256(w: nat): (r: nat)
    ensures r >= 1
  {
    if w == 0 then 1 else 256 * Pow256(w - 1)
  }

  /**
   * The number of bytes needed to store `n` (0 needs none): the width the
   * type-cache keys are written in.
   */
  function ByteWidth(n: nat): (w: nat)
    ensures n < Pow256(w)
    ensures w > 0 ==> Pow256(w - 1) <= n
    decreases n
  {
    if n == 0 then 0 else 1 + ByteWidth(n / 256)
  }
}
