/**
 * The one-byte attribute in front of an item (ABSoftware.ABSave/ABSaveItemConverter.cs):
 * 1 for null, 2 for an item of the declared type, 3 for an item of another
 * type; value-type declarations carry no attribute, except `Nullable<T>` on
 * the writing side.
 *
 * The item's body is written and read by a type converter or by the object
 * converter, neither of which is part of this model: a body is one `Payload`
 * token naming who wrote it.
 */
module ItemConverter {
  import opened Wire
  import opened TypeCodec
  import TypeCodecIntended

  const NullAttribute: nat := 1
  const MatchingTypeAttribute: nat := 2
  const DifferentTypeAttribute: nat := 3

  /** The settings that choose who writes an item's body, and the converter registry's answer for a type. */
  datatype ConverterSettings = ConverterSettings(autoCheckTypeConverters: bool, findConverter: RType -> Option<nat>)

  /** `SerializeWithoutAttribute` / `DeserializeWithoutAttribute`: a matching type converter if the settings look for one, else the object converter. */
  function PayloadSourceFor(settings: ConverterSettings, actual: RType): PayloadSource {
    if settings.autoCheckTypeConverters && settings.findConverter(actual).Some? then ByConverter(settings.findConverter(actual).value)
    else ByObjectConverter
  }

  datatype ItemError = NullReference   // `obj.GetType()` on a null item

  // ---------------------------------------------------------------- writing, as written

  /** `SerializeAttribute`: the attribute bytes written, and whether the item was null. */
  function WriteAttribute(s: WState, obj: Obj, actual: RType, specified: RType): (bool, WState) {
    if obj.Null? then (true, Emit(s, [Byte(NullAttribute)]))
    else if IsValueType(specified) then
      (false, if IsNullableType(specified) then Emit(s, [Byte(MatchingTypeAttribute)]) else s)
    else if specified == actual then (false, Emit(s, [Byte(MatchingTypeAttribute)]))
    else (false, Emit(s, [Byte(DifferentTypeAttribute)]))
  }

  /** `SerializeWithAttribute`: the attribute, then the body unless the item was null. */
  function WriteWithAttribute(settings: ConverterSettings, s: WState, obj: Obj, actual: RType, specified: RType): WState {
    var (isNull, s1) := WriteAttribute(s, obj, actual, specified);
    if isNull then s1 else Emit(s1, [Payload(PayloadSourceFor(settings, actual), obj)])
  }

  /**
   * What `SerializeWithAttribute` appends in each case: a null item is its
   * null attribute alone; a value-type declaration has no attribute unless
   * it is `Nullable<T>`; a reference declaration has 2 exactly when the
   * actual type is the declared one, else 3, and never a type.
   */
  lemma WithAttributeLayout(settings: ConverterSettings, s: WState, obj: Obj, actual: RType, specified: RType)
    ensures var body := Payload(PayloadSourceFor(settings, actual), obj);
      var r := WriteWithAttribute(settings, s, obj, actual, specified);
      && r.cachedTypes == s.cachedTypes
      && (obj.Null? ==> r.output == s.output + [Byte(NullAttribute)])
      && (obj.Inst? && IsValueType(specified) && !IsNullableType(specified) ==> r.output == s.output + [body])
      && (obj.Inst? && IsNullableType(specified) && specified.isValue ==> r.output == s.output + [Byte(MatchingTypeAttribute), body])
      && (obj.Inst? && !IsValueType(specified) ==>
            && r.output == s.output + [Byte(if specified == actual then MatchingTypeAttribute else DifferentTypeAttribute), body]
            && (r.output[|s.output|] == Byte(MatchingTypeAttribute) <==> specified == actual))
  {
  }

  /** `SerializeTypeBeforeItem`: nothing for a value type, 2 for the declared type, 3 and the closed type otherwise. */
  function WriteTypeBeforeItem(cache: bool, s: WState, specified: RType, actual: RType): WState
    requires IsClosed(actual)
  {
    if IsValueType(specified) then s
    else if actual != specified then WriteClosedType(cache, Emit(s, [Byte(DifferentTypeAttribute)]), actual)
    else Emit(s, [Byte(MatchingTypeAttribute)])
  }

  /** Without caching, the different-type attribute is followed by exactly the closed form of the actual type. */
  lemma TypeBeforeItemLayout(s: WState, specified: RType, actual: RType)
    requires IsClosed(actual)
    ensures IsValueType(specified) ==> WriteTypeBeforeItem(false, s, specified, actual) == s
    ensures !IsValueType(specified) && actual == specified ==>
      WriteTypeBeforeItem(false, s, specified, actual) == Emit(s, [Byte(MatchingTypeAttribute)])
    ensures !IsValueType(specified) && actual != specified ==>
      WriteTypeBeforeItem(false, s, specified, actual) == Emit(s, [Byte(DifferentTypeAttribute)] + ClosedTokens(actual))
  {
    if !IsValueType(specified) && actual != specified {
      UncachedClosedWriteIsClosedTokens(Emit(s, [Byte(DifferentTypeAttribute)]), actual);
      assert s.output + [Byte(DifferentTypeAttribute)] + ClosedTokens(actual) == s.output + ([Byte(DifferentTypeAttribute)] + ClosedTokens(actual));
    }
  }

  method SerializeAttribute(obj: Obj, actual: RType, specified: RType, writer: TypeWriter) returns (isNull: bool)
    modifies writer
    ensures (isNull, writer.View()) == WriteAttribute(old(writer.View()), obj, actual, specified)
  {
    if obj.Null? {
      writer.WriteByte(NullAttribute);
      return true;
    }
    if IsValueType(specified) {
      if IsNullableType(specified) {
        writer.WriteByte(MatchingTypeAttribute);
      }
    } else if specified == actual {
      writer.WriteByte(MatchingTypeAttribute);
    } else {
      writer.WriteByte(DifferentTypeAttribute);
    }
    return false;
  }

  method SerializeWithoutAttribute(settings: ConverterSettings, obj: Obj, actual: RType, writer: TypeWriter)
    modifies writer
    ensures writer.View() == Emit(old(writer.View()), [Payload(PayloadSourceFor(settings, actual), obj)])
  {
    var source: PayloadSource;
    if settings.autoCheckTypeConverters && settings.findConverter(actual).Some? {
      source := ByConverter(settings.findConverter(actual).value);
    } else {
      source := ByObjectConverter;
    }
    writer.output := writer.output + [Payload(source, obj)];
  }

  method SerializeWithAttribute(settings: ConverterSettings, obj: Obj, actual: RType, specified: RType, writer: TypeWriter)
    modifies writer
    ensures writer.View() == WriteWithAttribute(settings, old(writer.View()), obj, actual, specified)
  {
    var isNull := SerializeAttribute(obj, actual, specified, writer);
    if isNull {
      return;
    }
    SerializeWithoutAttribute(settings, obj, actual, writer);
  }

  /** The overload that takes the actual type from the item itself, which fails on a null item. */
  method SerializeWithAttributeOfItem(settings: ConverterSettings, obj: Obj, specified: RType, writer: TypeWriter)
    returns (error: Option<ItemError>)
    modifies writer
    ensures obj.Null? ==> error == Some(NullReference) && writer.View() == old(writer.View())
    ensures obj.Inst? ==> error == None && writer.View() == WriteWithAttribute(settings, old(writer.View()), obj, obj.actual, specified)
  {
    if obj.Null? {
      return Some(NullReference);
    }
    SerializeWithAttribute(settings, obj, obj.actual, specified, writer);
    return None;
  }

  method SerializeTypeBeforeItem(writer: TypeWriter, specified: RType, actual: RType)
    requires IsClosed(actual)
    modifies writer
    ensures writer.View() == WriteTypeBeforeItem(writer.cacheTypesAndAssemblies, old(writer.View()), specified, actual)
  {
    if !IsValueType(specified) {
      if actual != specified {
        writer.WriteByte(DifferentTypeAttribute);
        writer.SerializeClosedType(actual);
      } else {
        writer.WriteByte(MatchingTypeAttribute);
      }
    }
  }

  // ---------------------------------------------------------------- reading, as written

  /** `DeserializeAttribute`: the actual type the attribute announces, none for null. */
  function ReadAttribute(cache: bool, univ: Universe, s: RState, specified: RType): (r: Read<Option<RType>>)
    ensures r.Ok? ==> |r.state.rest| <= |s.rest|
  {
    if IsValueType(specified) then
      Ok(Some(if IsNullableType(specified) then specified.args[0] else specified), s)
    else match ReadByte(s)
      case Fail(e) => Fail(e)
      case Ok(tag, s1) =>
        if tag == NullAttribute then Ok(None, s1)
        else if tag == MatchingTypeAttribute then Ok(Some(specified), s1)
        else if tag == DifferentTypeAttribute then
          match ReadClosedType(cache, univ, s1)
          case Fail(e) => Fail(e)
          case Ok(t, s2) => Ok(Some(t), s2)
        else Fail(InvalidDocument(s1.position))
  }

  /** `DeserializeWithoutAttribute`: the body written by the converter chosen for the actual type. */
  function ReadBody(settings: ConverterSettings, s: RState, actual: RType): (r: Read<Obj>)
    ensures r.Ok? ==> |s.rest| > 0 && s.rest[0] == Payload(PayloadSourceFor(settings, actual), r.value) && r.state == Advance(s)
  {
    if |s.rest| == 0 then Fail(EndOfInput(s.position))
    else if s.rest[0].Payload? && s.rest[0].source == PayloadSourceFor(settings, actual) then Ok(s.rest[0].obj, Advance(s))
    else Fail(UnexpectedToken(s.position))
  }

  /** `DeserializeWithAttribute`: null when the attribute says so, else the body of the announced type. */
  function ReadWithAttribute(settings: ConverterSettings, cache: bool, univ: Universe, s: RState, specified: RType): Read<Obj> {
    match ReadAttribute(cache, univ, s, specified)
    case Fail(e) => Fail(e)
    case Ok(actual, s1) =>
      if actual.None? then Ok(Null, s1) else ReadBody(settings, s1, actual.value)
  }

  /** A value-type declaration consumes no byte: `Nullable<T>` gives `T`, any other value type itself. */
  lemma ValueTypeAttributeReadsNothing(cache: bool, univ: Universe, s: RState, specified: RType)
    requires IsValueType(specified)
    ensures IsNullableType(specified) ==> ReadAttribute(cache, univ, s, specified) == Ok(Some(specified.args[0]), s)
    ensures !IsNullableType(specified) ==> ReadAttribute(cache, univ, s, specified) == Ok(Some(specified), s)
  {
  }

  /**
   * A reference declaration reads one tag byte: 1 is null, 2 the declared
   * type, 3 a closed type read next; any other byte is an invalid document
   * at the position after the tag.
   */
  lemma ReferenceAttributeTags(cache: bool, univ: Universe, s: RState, specified: RType, tag: nat, after: seq<Token>)
    requires !IsValueType(specified) && s.rest == [Byte(tag)] + after
    ensures var s1 := Advance(s);
      && (tag == NullAttribute ==> ReadAttribute(cache, univ, s, specified) == Ok(None, s1))
      && (tag == MatchingTypeAttribute ==> ReadAttribute(cache, univ, s, specified) == Ok(Some(specified), s1))
      && (tag == DifferentTypeAttribute && ReadClosedType(cache, univ, s1).Ok? ==>
            ReadAttribute(cache, univ, s, specified) == Ok(Some(ReadClosedType(cache, univ, s1).value), ReadClosedType(cache, univ, s1).state))
      && (tag !in {NullAttribute, MatchingTypeAttribute, DifferentTypeAttribute} ==>
            ReadAttribute(cache, univ, s, specified) == Fail(InvalidDocument(s.position + 1)))
  {
  }

  /** When the attribute says null, no body is read. */
  lemma NullAttributeReadsNoBody(settings: ConverterSettings, cache: bool, univ: Universe, s: RState, specified: RType)
    requires ReadAttribute(cache, univ, s, specified).Ok? && ReadAttribute(cache, univ, s, specified).value.None?
    ensures ReadWithAttribute(settings, cache, univ, s, specified) == Ok(Null, ReadAttribute(cache, univ, s, specified).state)
  {
  }

  /**
   * A non-null `Nullable<T>` item is written with the matching attribute,
   * but the reader takes the declaration for a value type, reads no
   * attribute and then finds that byte where the body should be.
   */
  lemma NullableAttributeNotRead(settings: ConverterSettings, cache: bool, univ: Universe, w: WState, s: RState, inner: RType, obj: Obj)
    requires obj.Inst? && obj.actual == inner
    requires s.rest == Written(w, WriteWithAttribute(settings, w, obj, inner, NullableOf(inner)))
    ensures ReadWithAttribute(settings, cache, univ, s, NullableOf(inner)).Fail?
  {
    assert s.rest == [Byte(MatchingTypeAttribute), Payload(PayloadSourceFor(settings, inner), obj)];
  }

  /**
   * An item of another type than a reference declaration is written as the
   * different-type attribute followed directly by its body, but the reader
   * expects the actual type after that attribute and finds the body.
   */
  lemma DifferentTypeWrittenWithoutType(settings: ConverterSettings, cache: bool, univ: Universe, w: WState, s: RState,
                                        specified: RType, obj: Obj)
    requires obj.Inst? && !IsValueType(specified) && obj.actual != specified
    requires s.rest == Written(w, WriteWithAttribute(settings, w, obj, obj.actual, specified))
    ensures ReadWithAttribute(settings, cache, univ, s, specified).Fail?
  {
    var s1 := Advance(s);
    assert s.rest == [Byte(DifferentTypeAttribute), Payload(PayloadSourceFor(settings, obj.actual), obj)];
    assert s1.rest[0].Payload?;
    assert ReadKeyBeforeType(cache, s1).Fail? || ReadMainPart(univ, ReadKeyBeforeType(cache, s1).state).Fail?;
  }

  // ---------------------------------------------------------------- the attribute protocol as intended

  /**
   * The writer as intended: `Nullable<T>` keeps its attribute (1 or 2), and
   * the different-type attribute is followed by the actual type in the
   * closed form, as `SerializeTypeBeforeItem` lays it out.
   */
  function EncodeWithAttribute(settings: ConverterSettings, cache: bool, types: seq<RType>, obj: Obj, specified: RType): (r: TypeCodecIntended.Enc)
    requires obj.Inst? ==> IsClosed(obj.actual)
    ensures types <= r.types
  {
    if obj.Null? then TypeCodecIntended.Enc([Byte(NullAttribute)], types)
    else
      var body := [Payload(PayloadSourceFor(settings, obj.actual), obj)];
      if IsValueType(specified) then
        TypeCodecIntended.Enc((if IsNullableType(specified) then [Byte(MatchingTypeAttribute)] else []) + body, types)
      else if specified == obj.actual then TypeCodecIntended.Enc([Byte(MatchingTypeAttribute)] + body, types)
      else
        var e := TypeCodecIntended.EncodeType(cache, types, obj.actual, true);
        TypeCodecIntended.Enc([Byte(DifferentTypeAttribute)] + e.tokens + body, e.types)
  }

  /** The reader as intended: `Nullable<T>` reads its attribute; 3 is followed by a type read with the intended closed reader. */
  function DecodeAttribute(cache: bool, univ: Universe, s: RState, specified: RType): (r: Read<Option<RType>>)
  {
    if IsValueType(specified) && !IsNullableType(specified) then Ok(Some(specified), s)
    else match ReadByte(s)
      case Fail(e) => Fail(e)
      case Ok(tag, s1) =>
        if tag == NullAttribute then Ok(None, s1)
        else if tag == MatchingTypeAttribute then Ok(Some(if IsNullableType(specified) && specified.isValue then specified.args[0] else specified), s1)
        else if tag == DifferentTypeAttribute && !IsValueType(specified) then
          match TypeCodecIntended.DecodeType(cache, univ, s1, true)
          case Fail(e) => Fail(e)
          case Ok(t, s2) => Ok(Some(t), s2)
        else Fail(InvalidDocument(s1.position))
  }

  function DecodeWithAttribute(settings: ConverterSettings, cache: bool, univ: Universe, s: RState, specified: RType): Read<Obj> {
    match DecodeAttribute(cache, univ, s, specified)
    case Fail(e) => Fail(e)
    case Ok(actual, s1) =>
      if actual.None? then Ok(Null, s1) else ReadBody(settings, s1, actual.value)
  }

  /**
   * The items a declaration can hold: a plain value type holds non-null
   * items of exactly that type, `Nullable<T>` null or a boxed `T`, and a
   * reference declaration any item whose type the reader can rebuild.
   */
  ghost predicate Fits(univ: Universe, obj: Obj, specified: RType) {
    && (obj.Inst? ==> IsClosed(obj.actual))
    && (IsValueType(specified) && !IsNullableType(specified) ==> obj.Inst? && obj.actual == specified)
    && (IsValueType(specified) && IsNullableType(specified) ==> obj.Inst? ==> obj.actual == specified.args[0])
    && (!IsValueType(specified) && obj.Inst? && obj.actual != specified ==> TypeCodecIntended.Decodable(univ, obj.actual, true))
  }

  /** Reading back an item written with its attribute gives the same item, the rest of the input and the writer's type table. */
  lemma AttributeRoundTrip(settings: ConverterSettings, cache: bool, univ: Universe, obj: Obj, specified: RType,
                           s: RState, rest: seq<Token>)
    requires Fits(univ, obj, specified)
    requires s.rest == EncodeWithAttribute(settings, cache, s.cachedTypes, obj, specified).tokens + rest
    ensures DecodeWithAttribute(settings, cache, univ, s, specified).Ok?
    ensures DecodeWithAttribute(settings, cache, univ, s, specified).value == obj
    ensures DecodeWithAttribute(settings, cache, univ, s, specified).state.rest == rest
    ensures DecodeWithAttribute(settings, cache, univ, s, specified).state.cachedTypes
         == EncodeWithAttribute(settings, cache, s.cachedTypes, obj, specified).types
  {
    if obj.Inst? {
      var body := [Payload(PayloadSourceFor(settings, obj.actual), obj)];
      if !IsValueType(specified) && specified != obj.actual {
        var e := TypeCodecIntended.EncodeType(cache, s.cachedTypes, obj.actual, true);
        var s1 := Advance(s);
        assert s1.rest == e.tokens + (body + rest);
        TypeCodecIntended.RoundTrip(cache, univ, obj.actual, true, s1, body + rest);
      } else if IsValueType(specified) && !IsNullableType(specified) {
        assert s.rest == body + rest;
      } else {
        assert Advance(s).rest == body + rest;
      }
    }
  }

  /** With caching off, the intended closed form is the closed form the writer already produces. */
  lemma {:induction false} IntendedClosedLayoutUnchanged(types: seq<RType>, t: RType)
    requires IsClosed(t)
    ensures TypeCodecIntended.EncodeType(false, types, t, true).tokens == ClosedTokens(t)
    decreases t, 1
  {
    IntendedClosedArgsLayoutUnchanged(types, t, 0);
  }

  lemma {:induction false} IntendedClosedArgsLayoutUnchanged(types: seq<RType>, owner: RType, i: nat)
    requires IsClosed(owner) && i <= |owner.args|
    ensures TypeCodecIntended.EncodeArgs(false, types, owner, i, true).tokens == ClosedArgTokens(owner, i)
    decreases owner, 0, |owner.args| - i
  {
    if i < |owner.args| {
      IntendedClosedLayoutUnchanged(types, owner.args[i]);
      IntendedClosedArgsLayoutUnchanged(types, owner, i + 1);
    }
  }

  /**
   * The intended different-type layout is the one `SerializeTypeBeforeItem`
   * writes, followed by the body.
   */
  lemma IntendedDifferentTypeIsTypeBeforeItem(settings: ConverterSettings, w: WState, obj: Obj, specified: RType)
    requires obj.Inst? && IsClosed(obj.actual) && !IsValueType(specified) && obj.actual != specified
    ensures EncodeWithAttribute(settings, false, [], obj, specified).tokens
         == Written(w, WriteTypeBeforeItem(false, w, specified, obj.actual)) + [Payload(PayloadSourceFor(settings, obj.actual), obj)]
  {
    IntendedClosedLayoutUnchanged([], obj.actual);
    TypeBeforeItemLayout(w, specified, obj.actual);
  }

  // ---------------------------------------------------------------- reading methods

  method DeserializeAttribute(reader: TypeReader, specified: RType) returns (r: Outcome<Option<RType>>)
    modifies reader
    ensures Reflects(r, ReadAttribute(reader.cacheTypesAndAssemblies, reader.universe, old(reader.View()), specified), reader.View())
  {
    if IsValueType(specified) {
      if IsNullableType(specified) {
        return Value(Some(specified.args[0]));
      }
      return Value(Some(specified));
    }
    var tag := reader.ReadByteToken();
    if tag.Error? {
      return Error(tag.error);
    }
    if tag.value == NullAttribute {
      return Value(None);
    } else if tag.value == MatchingTypeAttribute {
      return Value(Some(specified));
    } else if tag.value == DifferentTypeAttribute {
      var t := reader.DeserializeClosedType();
      if t.Error? {
        return Error(t.error);
      }
      return Value(Some(t.value));
    }
    return Error(InvalidDocument(reader.position));
  }

  method DeserializeWithoutAttribute(settings: ConverterSettings, reader: TypeReader, actual: RType) returns (r: Outcome<Obj>)
    modifies reader
    ensures Reflects(r, ReadBody(settings, old(reader.View()), actual), reader.View())
  {
    if |reader.rest| == 0 {
      return Error(EndOfInput(reader.position));
    }
    var token := reader.rest[0];
    if !token.Payload? || token.source != PayloadSourceFor(settings, actual) {
      return Error(UnexpectedToken(reader.position));
    }
    reader.rest := reader.rest[1..];
    reader.position := reader.position + 1;
    return Value(token.obj);
  }

  method DeserializeWithAttribute(settings: ConverterSettings, reader: TypeReader, specified: RType) returns (r: Outcome<Obj>)
    modifies reader
    ensures Reflects(r, ReadWithAttribute(settings, reader.cacheTypesAndAssemblies, reader.universe, old(reader.View()), specified), reader.View())
  {
    var actual := DeserializeAttribute(reader, specified);
    if actual.Error? {
      return Error(actual.error);
    }
    if actual.value.None? {
      return Value(Null);
    }
    r := DeserializeWithoutAttribute(settings, reader, actual.value.value);
  }
}
