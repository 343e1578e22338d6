/**
 * The type-descriptor codec as written
 * (ABSoftware.ABSave/Converters/TypeTypeConverter.cs): an optional cache key,
 * then the assembly and the generic definition's name, then the generic
 * arguments, either with a 0/1 marker byte each (the open form) or without
 * markers (the closed form).
 *
 * The writer's and the reader's tables are the `CachedTypes` collections of
 * ABSaveWriter and ABSaveReader; `CachedAssemblies` appears only through its
 * count. The assembly itself is written and read by AssemblyTypeConverter,
 * which is not part of this model: the model keeps the count fixed across
 * that call, as it is when the assembly was already cached.
 */
module TypeCodec {
  import opened Wire

  // ---------------------------------------------------------------- writer

  /** The writer's session state as the type converter sees it. */
  datatype WState = WState(output: seq<Token>, cachedTypes: map<RType, nat>, cachedAssemblies: nat)

  function Emit(s: WState, tokens: seq<Token>): WState {
    s.(output := s.output + tokens)
  }

  /** `r` is `s` with more output, more cached types and every old key kept. */
  predicate Extends(s: WState, r: WState) {
    && s.output <= r.output
    && s.cachedTypes.Keys <= r.cachedTypes.Keys
    && (forall k :: k in s.cachedTypes ==> r.cachedTypes[k] == s.cachedTypes[k])
    && r.cachedAssemblies == s.cachedAssemblies
  }

  lemma ExtendsTransitive(a: WState, b: WState, c: WState)
    requires Extends(a, b) && Extends(b, c)
    ensures Extends(a, c)
  {
    assert c.output[..|a.output|] == b.output[..|a.output|];
  }

  /**
   * `SerializeKeyBeforeType`: a cached type's key as four raw bytes (a hit);
   * the maximum key when the table holds `int.MaxValue` entries; otherwise
   * the type is cached under the number of cached ASSEMBLIES, written in
   * that number's minimal width.
   */
  function KeyBeforeType(s: WState, t: RType): (bool, WState) {
    if t in s.cachedTypes then (true, Emit(s, [Int32(s.cachedTypes[t])]))
    else if |s.cachedTypes| == IntMax then (false, Emit(s, [Int32(UIntMax)]))
    else
      var size := s.cachedAssemblies;
      (false, WState(s.output + [LEInt(size, ByteWidth(size))], s.cachedTypes[t := size], s.cachedAssemblies))
  }

  /** `SerializeTypeMainPart`: the assembly, then the generic definition's full name. */
  function MainPart(s: WState, t: RType): WState
    requires t.Named?
  {
    Emit(s, [AssemblyRef(t.assembly), Str(t.name)])
  }

  /** `SerializeType`: the open form. */
  function WriteType(cache: bool, s: WState, t: RType): (r: WState)
    requires t.Named?
    ensures Extends(s, r)
    ensures !cache || |s.cachedTypes| == IntMax ==> r.cachedTypes == s.cachedTypes
    decreases t, 1
  {
    var (hit, s1) := if cache then KeyBeforeType(s, t) else (false, s);
    if hit then s1
    else
      var s2 := MainPart(s1, t);
      var r := WriteOpenArgs(cache, s2, t, 0);
      ExtendsTransitive(s, s2, r);
      r
  }

  /** `SerializeGenericPart` from argument `i` on: 1 for an open parameter, else 0 and the argument's open form. */
  function WriteOpenArgs(cache: bool, s: WState, owner: RType, i: nat): (r: WState)
    requires owner.Named? && i <= |owner.args|
    ensures Extends(s, r)
    ensures !cache || |s.cachedTypes| == IntMax ==> r.cachedTypes == s.cachedTypes
    decreases owner, 0, |owner.args| - i
  {
    if i == |owner.args| then s
    else
      var arg := owner.args[i];
      var s1 := if arg.Param? then Emit(s, [Byte(1)]) else WriteType(cache, Emit(s, [Byte(0)]), arg);
      var r := WriteOpenArgs(cache, s1, owner, i + 1);
      ExtendsTransitive(s, s1, r);
      r
  }

  /** `SerializeClosedType`: the closed form, for a type with no open parameter. */
  function WriteClosedType(cache: bool, s: WState, t: RType): (r: WState)
    requires IsClosed(t)
    ensures Extends(s, r)
    decreases t, 1
  {
    var (hit, s1) := if cache then KeyBeforeType(s, t) else (false, s);
    if hit then s1
    else
      var s2 := MainPart(s1, t);
      var r := WriteClosedArgs(cache, s2, t, 0);
      ExtendsTransitive(s, s2, r);
      r
  }

  /** `SerializeClosedGenericPart` from argument `i` on: each argument's closed form, no markers. */
  function WriteClosedArgs(cache: bool, s: WState, owner: RType, i: nat): (r: WState)
    requires IsClosed(owner) && i <= |owner.args|
    ensures Extends(s, r)
    decreases owner, 0, |owner.args| - i
  {
    if i == |owner.args| then s
    else
      var s1 := WriteClosedType(cache, s, owner.args[i]);
      var r := WriteClosedArgs(cache, s1, owner, i + 1);
      ExtendsTransitive(s, s1, r);
      r
  }

  /** The tokens a write appended. */
  function Written(s: WState, r: WState): seq<Token>
    requires s.output <= r.output
  {
    r.output[|s.output|..]
  }

  /** With caching on, an already-cached type is written as its 32-bit key and nothing else. */
  lemma CachedTypeWritesOnlyKey(s: WState, t: RType)
    requires t.Named? && t in s.cachedTypes
    ensures WriteType(true, s, t) == Emit(s, [Int32(s.cachedTypes[t])])
    ensures IsClosed(t) ==> WriteClosedType(true, s, t) == Emit(s, [Int32(s.cachedTypes[t])])
  {
  }

  /**
   * With caching on, a new type (table not full) is cached under the number
   * of cached assemblies, and its encoding starts with that number in its
   * minimal width, the assembly and the name.
   */
  lemma NewTypeKeyedByAssemblyCount(s: WState, t: RType)
    requires t.Named? && t !in s.cachedTypes && |s.cachedTypes| != IntMax
    ensures var r := WriteType(true, s, t);
      && |Written(s, r)| >= 3
      && Written(s, r)[..3] == [LEInt(s.cachedAssemblies, ByteWidth(s.cachedAssemblies)), AssemblyRef(t.assembly), Str(t.name)]
      && t in r.cachedTypes && r.cachedTypes[t] == s.cachedAssemblies
  {
    var key := LEInt(s.cachedAssemblies, ByteWidth(s.cachedAssemblies));
    var s1 := KeyBeforeType(s, t).1;
    assert s1.output == s.output + [key];
    MissStartsWith(s, t, key);
  }

  /** When the table already holds `int.MaxValue` types, a new type is written with the maximum key and nothing is cached. */
  lemma FullTableWritesMaxKey(s: WState, t: RType)
    requires t.Named? && t !in s.cachedTypes && |s.cachedTypes| == IntMax
    ensures var r := WriteType(true, s, t);
      && |Written(s, r)| >= 3
      && Written(s, r)[..3] == [Int32(UIntMax), AssemblyRef(t.assembly), Str(t.name)]
      && r.cachedTypes == s.cachedTypes
  {
    var s1 := KeyBeforeType(s, t).1;
    assert s1 == Emit(s, [Int32(UIntMax)]);
    MissStartsWith(s, t, Int32(UIntMax));
  }

  /** A cache miss that emits `key` is followed by the main part; the write starts with those three tokens. */
  lemma MissStartsWith(s: WState, t: RType, key: Token)
    requires t.Named? && !KeyBeforeType(s, t).0 && KeyBeforeType(s, t).1.output == s.output + [key]
    ensures var r := WriteType(true, s, t);
      && |Written(s, r)| >= 3
      && Written(s, r)[..3] == [key, AssemblyRef(t.assembly), Str(t.name)]
  {
    var s2 := MainPart(KeyBeforeType(s, t).1, t);
    var r := WriteOpenArgs(true, s2, t, 0);
    assert r == WriteType(true, s, t);
    assert s2.output == s.output + [key, AssemblyRef(t.assembly), Str(t.name)];
    assert r.output[..|s2.output|] == s2.output;
    assert Written(s, r)[..3] == r.output[|s.output|..|s2.output|];
  }

  /** The open form's tokens when caching is off: main part, then one marker per argument and each non-parameter's own form. */
  function OpenTokens(t: RType): (r: seq<Token>)
    requires t.Named?
    ensures |r| >= 2 && r[0] == AssemblyRef(t.assembly) && r[1] == Str(t.name)
    decreases t, 1
  {
    [AssemblyRef(t.assembly), Str(t.name)] + OpenArgTokens(t, 0)
  }

  function OpenArgTokens(owner: RType, i: nat): seq<Token>
    requires owner.Named? && i <= |owner.args|
    decreases owner, 0, |owner.args| - i
  {
    if i == |owner.args| then []
    else
      var arg := owner.args[i];
      (if arg.Param? then [Byte(1)] else [Byte(0)] + OpenTokens(arg)) + OpenArgTokens(owner, i + 1)
  }

  /** The closed form's tokens when caching is off: the main parts of the type and all its arguments, in pre-order, with no markers. */
  function ClosedTokens(t: RType): (r: seq<Token>)
    requires IsClosed(t)
    decreases t, 1
  {
    [AssemblyRef(t.assembly), Str(t.name)] + ClosedArgTokens(t, 0)
  }

  function ClosedArgTokens(owner: RType, i: nat): seq<Token>
    requires IsClosed(owner) && i <= |owner.args|
    decreases owner, 0, |owner.args| - i
  {
    if i == |owner.args| then [] else ClosedTokens(owner.args[i]) + ClosedArgTokens(owner, i + 1)
  }

  /** With caching off the writer appends exactly the open form's tokens, whatever its state. */
  lemma {:induction false} UncachedWriteIsOpenTokens(s: WState, t: RType)
    requires t.Named?
    ensures WriteType(false, s, t) == Emit(s, OpenTokens(t))
    decreases t, 1
  {
    UncachedArgsAreOpenArgTokens(MainPart(s, t), t, 0);
    assert s.output + [AssemblyRef(t.assembly), Str(t.name)] + OpenArgTokens(t, 0) == s.output + OpenTokens(t);
  }

  lemma {:induction false} UncachedArgsAreOpenArgTokens(s: WState, owner: RType, i: nat)
    requires owner.Named? && i <= |owner.args|
    ensures WriteOpenArgs(false, s, owner, i) == Emit(s, OpenArgTokens(owner, i))
    decreases owner, 0, |owner.args| - i, 1
  {
    if i < |owner.args| {
      var arg := owner.args[i];
      if arg.Param? {
        UncachedArgsAreOpenArgTokens(Emit(s, [Byte(1)]), owner, i + 1);
        assert s.output + [Byte(1)] + OpenArgTokens(owner, i + 1) == s.output + OpenArgTokens(owner, i);
      } else {
        UncachedNamedArgIsOpenArgTokens(s, owner, i);
      }
    }
  }

  /** `UncachedArgsAreOpenArgTokens` for a named argument: its 0 marker, its open form, then the rest. */
  lemma {:induction false} UncachedNamedArgIsOpenArgTokens(s: WState, owner: RType, i: nat)
    requires owner.Named? && i < |owner.args| && owner.args[i].Named?
    ensures WriteOpenArgs(false, s, owner, i) == Emit(s, OpenArgTokens(owner, i))
    decreases owner, 0, |owner.args| - i, 0
  {
    var arg := owner.args[i];
    var chunk := [Byte(0)] + OpenTokens(arg);
    calc {
      WriteOpenArgs(false, s, owner, i);
      { WriteNamedArgStep(s, owner, i); }
      WriteOpenArgs(false, WriteType(false, Emit(s, [Byte(0)]), arg), owner, i + 1);
      { UncachedWriteIsOpenTokens(Emit(s, [Byte(0)]), arg); EmitTwice(s, [Byte(0)], OpenTokens(arg)); }
      WriteOpenArgs(false, Emit(s, chunk), owner, i + 1);
      { UncachedArgsAreOpenArgTokens(Emit(s, chunk), owner, i + 1); }
      Emit(Emit(s, chunk), OpenArgTokens(owner, i + 1));
      { EmitTwice(s, chunk, OpenArgTokens(owner, i + 1)); NamedArgTokens(owner, i); }
      Emit(s, OpenArgTokens(owner, i));
    }
  }

  /** Two emissions are one emission of both token runs. */
  lemma EmitTwice(s: WState, a: seq<Token>, b: seq<Token>)
    ensures Emit(Emit(s, a), b) == Emit(s, a + b)
  {
    assert s.output + a + b == s.output + (a + b);
  }

  /** One step of the uncached argument writer over a named argument. */
  lemma WriteNamedArgStep(s: WState, owner: RType, i: nat)
    requires owner.Named? && i < |owner.args| && owner.args[i].Named?
    ensures WriteOpenArgs(false, s, owner, i)
         == WriteOpenArgs(false, WriteType(false, Emit(s, [Byte(0)]), owner.args[i]), owner, i + 1)
  {
  }

  /** The open form of the arguments from a named argument on. */
  lemma NamedArgTokens(owner: RType, i: nat)
    requires owner.Named? && i < |owner.args| && owner.args[i].Named?
    ensures OpenArgTokens(owner, i) == [Byte(0)] + OpenTokens(owner.args[i]) + OpenArgTokens(owner, i + 1)
  {
  }

  /** With caching off the closed writer appends exactly the closed form's tokens. */
  lemma {:induction false} UncachedClosedWriteIsClosedTokens(s: WState, t: RType)
    requires IsClosed(t)
    ensures WriteClosedType(false, s, t) == Emit(s, ClosedTokens(t))
    decreases t, 1
  {
    UncachedClosedArgsAreClosedArgTokens(MainPart(s, t), t, 0);
    assert s.output + [AssemblyRef(t.assembly), Str(t.name)] + ClosedArgTokens(t, 0) == s.output + ClosedTokens(t);
  }

  lemma {:induction false} UncachedClosedArgsAreClosedArgTokens(s: WState, owner: RType, i: nat)
    requires IsClosed(owner) && i <= |owner.args|
    ensures WriteClosedArgs(false, s, owner, i) == Emit(s, ClosedArgTokens(owner, i))
    decreases owner, 0, |owner.args| - i
  {
    if i < |owner.args| {
      var arg := owner.args[i];
      UncachedClosedWriteIsClosedTokens(s, arg);
      UncachedClosedArgsAreClosedArgTokens(Emit(s, ClosedTokens(arg)), owner, i + 1);
      assert s.output + ClosedTokens(arg) + ClosedArgTokens(owner, i + 1) == s.output + ClosedArgTokens(owner, i);
    }
  }

  // ---------------------------------------------------------------- reader

  /** What `assembly.GetType(name)` finds: whether the definition is a value type and how many parameters it has. */
  datatype TypeDef = TypeDef(isValue: bool, arity: nat)

  /** The types the loaded assemblies define, by assembly and full name. */
  type Universe = map<(string, string), TypeDef>

  /** The reader's session state: the unread tokens, how many were read, and its tables. */
  datatype RState = RState(rest: seq<Token>, position: nat, cachedTypes: seq<RType>, cachedAssemblies: nat)

  datatype ReadError =
    | EndOfInput(at: nat)
    | UnexpectedToken(at: nat)
    | TypeNotFound(assembly: string, name: string)   // `GetType` gave null and the next member access throws
    | InvalidDocument(at: nat)                        // an attribute byte other than 1, 2 or 3

  datatype Read<T> = Ok(value: T, state: RState) | Fail(error: ReadError)

  function Advance(s: RState): (r: RState)
    requires |s.rest| > 0
    ensures |r.rest| == |s.rest| - 1
  {
    s.(rest := s.rest[1..], position := s.position + 1)
  }

  function ReadByte(s: RState): (r: Read<nat>)
    ensures r.Ok? ==> |s.rest| > 0 && s.rest[0] == Byte(r.value) && r.state == Advance(s)
  {
    if |s.rest| == 0 then Fail(EndOfInput(s.position))
    else if s.rest[0].Byte? then Ok(s.rest[0].b, Advance(s))
    else Fail(UnexpectedToken(s.position))
  }

  /** `ReadLittleEndianInt32(width)`: a little-endian value of that width, which four raw bytes also are. */
  function ReadLittleEndianInt32(s: RState, width: nat): (r: Read<nat>)
    ensures r.Ok? ==> |s.rest| > 0 && r.state == Advance(s)
    ensures r.Ok? ==> s.rest[0] == LEInt(r.value, width) || (width == 4 && s.rest[0] == Int32(r.value))
  {
    if |s.rest| == 0 then Fail(EndOfInput(s.position))
    else match s.rest[0]
      case LEInt(n, w) => if w == width then Ok(n, Advance(s)) else Fail(UnexpectedToken(s.position))
      case Int32(n) => if width == 4 then Ok(n, Advance(s)) else Fail(UnexpectedToken(s.position))
      case _ => Fail(UnexpectedToken(s.position))
  }

  /**
   * `DeserializeKeyBeforeType`: with caching on, a key in the width of the
   * assembly count; a key below the table's size is a hit. Every other
   * outcome reports key 0.
   */
  function ReadKeyBeforeType(cache: bool, s: RState): (r: Read<(Option<RType>, nat)>)
    ensures !cache ==> r == Ok((None, 0), s)
    ensures r.Ok? && cache ==> |s.rest| > 0 && r.state == Advance(s)
    ensures r.Ok? && cache ==>
      && ReadLittleEndianInt32(s, ByteWidth(s.cachedAssemblies)).Ok?
      && var key := ReadLittleEndianInt32(s, ByteWidth(s.cachedAssemblies)).value;
         (r.value.0.Some? <==> key < |s.cachedTypes|) && (r.value.0.Some? ==> r.value.0.value == s.cachedTypes[key])
    ensures r.Ok? && r.value.0.None? ==> r.value.1 == 0
  {
    if !cache then Ok((None, 0), s)
    else match ReadLittleEndianInt32(s, ByteWidth(s.cachedAssemblies))
      case Fail(e) => Fail(e)
      case Ok(key, s1) =>
        if key < |s1.cachedTypes| then Ok((Some(s1.cachedTypes[key]), key), s1)
        else Ok((None, 0), s1)
  }

  /** The open parameters of a generic definition with `n` of them. */
  function Params(n: nat): (r: seq<RType>)
    ensures |r| == n && forall i :: 0 <= i < n ==> r[i] == Param(i)
  {
    seq(n, i requires 0 <= i < n => Param(i))
  }

  /** `DeserializeTypeMainPart`: an assembly and a name, looked up among the assembly's types. */
  function ReadMainPart(univ: Universe, s: RState): (r: Read<RType>)
    ensures r.Ok? ==> |s.rest| >= 2 && r.state == Advance(Advance(s)) && r.state.cachedTypes == s.cachedTypes
    ensures r.Ok? ==> && r.value.Named? && s.rest[0] == AssemblyRef(r.value.assembly) && s.rest[1] == Str(r.value.name)
                      && (r.value.assembly, r.value.name) in univ
                      && var def := univ[(r.value.assembly, r.value.name)];
                         r.value == Named(r.value.assembly, r.value.name, def.isValue, Params(def.arity))
  {
    if |s.rest| == 0 then Fail(EndOfInput(s.position))
    else if !s.rest[0].AssemblyRef? then Fail(UnexpectedToken(s.position))
    else
      var s1 := Advance(s);
      if |s1.rest| == 0 then Fail(EndOfInput(s1.position))
      else if !s1.rest[0].Str? then Fail(UnexpectedToken(s1.position))
      else
        var assembly := s.rest[0].assemblyName;
        var name := s1.rest[0].s;
        if (assembly, name) !in univ then Fail(TypeNotFound(assembly, name))
        else
          var def := univ[(assembly, name)];
          Ok(Named(assembly, name, def.isValue, Params(def.arity)), Advance(s1))
  }

  /** `DeserializeType`: the open form; a decoded type is appended to the table unless the key is the maximum. */
  function ReadType(cache: bool, univ: Universe, s: RState): (r: Read<RType>)
    ensures r.Ok? ==> |r.state.rest| < |s.rest|
    ensures r.Ok? ==> s.cachedTypes <= r.state.cachedTypes && r.value in r.state.cachedTypes
    decreases |s.rest|, 1, 0
  {
    match ReadKeyBeforeType(cache, s)
    case Fail(e) => Fail(e)
    case Ok((cached, key), s1) =>
      if cached.Some? then Ok(cached.value, s1)
      else match ReadMainPart(univ, s1)
        case Fail(e) => Fail(e)
        case Ok(main, s2) =>
          match ReadGenericPart(cache, univ, main, s2)
          case Fail(e) => Fail(e)
          case Ok(t, s3) =>
            if key != UIntMax then Ok(t, s3.(cachedTypes := s3.cachedTypes + [t])) else Ok(t, s3)
  }

  /** `DeserializeGenericPart`: a generic definition's parameters replaced as the markers say; anything else unchanged. */
  function ReadGenericPart(cache: bool, univ: Universe, main: RType, s: RState): (r: Read<RType>)
    requires main.Named?
    ensures r.Ok? ==> |r.state.rest| <= |s.rest| && s.cachedTypes <= r.state.cachedTypes
    ensures |main.args| == 0 ==> r == Ok(main, s)
    ensures r.Ok? ==> r.value.Named? && r.value.assembly == main.assembly && r.value.name == main.name
                      && r.value.isValue == main.isValue && |r.value.args| == |main.args|
    decreases |s.rest|, 0, |main.args| + 1
  {
    if |main.args| == 0 then Ok(main, s)
    else match ReadOpenArgs(cache, univ, s, main.args, 0)
      case Fail(e) => Fail(e)
      case Ok(ps, s1) => Ok(main.(args := ps), s1)
  }

  /**
   * The loop of `DeserializeGenericPart` from parameter `i` on: a 0 marker
   * replaces the parameter with a decoded type, any other marker keeps it.
   */
  function ReadOpenArgs(cache: bool, univ: Universe, s: RState, params: seq<RType>, i: nat): (r: Read<seq<RType>>)
    requires i <= |params|
    ensures r.Ok? ==> |r.state.rest| <= |s.rest| && s.cachedTypes <= r.state.cachedTypes
    ensures r.Ok? ==> |r.value| == |params| && r.value[..i] == params[..i]
    decreases |s.rest|, 0, |params| - i
  {
    if i == |params| then Ok(params, s)
    else match ReadByte(s)
      case Fail(e) => Fail(e)
      case Ok(marker, s1) =>
        if marker == 0 then
          match ReadType(cache, univ, s1)
          case Fail(e) => Fail(e)
          case Ok(t, s2) =>
            var r := ReadOpenArgs(cache, univ, s2, params[i := t], i + 1);
            if r.Ok? then UpdatedPrefix(params, i, t, r.value); r else r
        else ReadOpenArgs(cache, univ, s1, params, i + 1)
  }

  /** One step of the argument reader over a 0 marker and a type. */
  lemma ReadNamedArgStep(cache: bool, univ: Universe, s: RState, params: seq<RType>, i: nat, t: RType, s1: RState, s2: RState)
    requires i < |params| && ReadByte(s) == Ok(0, s1)
    requires ReadType(cache, univ, s1).Ok? && ReadType(cache, univ, s1).value == t && ReadType(cache, univ, s1).state == s2
    ensures ReadOpenArgs(cache, univ, s, params, i) == ReadOpenArgs(cache, univ, s2, params[i := t], i + 1)
  {
  }

  /** One step of the argument reader over a marker other than 0. */
  lemma ReadParamArgStep(cache: bool, univ: Universe, s: RState, params: seq<RType>, i: nat)
    requires i < |params| && ReadByte(s).Ok? && ReadByte(s).value != 0
    ensures ReadOpenArgs(cache, univ, s, params, i) == ReadOpenArgs(cache, univ, ReadByte(s).state, params, i + 1)
  {
  }

  /** A sequence that agrees with `params[i := t]` up to `i` agrees with `params` below `i`. */
  lemma UpdatedPrefix(params: seq<RType>, i: nat, t: RType, v: seq<RType>)
    requires i < |params| <= |v| && v[..i + 1] == params[i := t][..i + 1]
    ensures v[..i] == params[..i]
  {
    assert v[..i] == v[..i + 1][..i];
    assert params[..i] == params[i := t][..i + 1][..i];
  }

  /** `DeserializeClosedType`: as the open form, but the arguments are read by `DeserializeClosedGenericPart`. */
  function ReadClosedType(cache: bool, univ: Universe, s: RState): (r: Read<RType>)
    ensures r.Ok? ==> |r.state.rest| < |s.rest|
    ensures r.Ok? ==> s.cachedTypes <= r.state.cachedTypes && r.value in r.state.cachedTypes
  {
    match ReadKeyBeforeType(cache, s)
    case Fail(e) => Fail(e)
    case Ok((cached, key), s1) =>
      if cached.Some? then Ok(cached.value, s1)
      else match ReadMainPart(univ, s1)
        case Fail(e) => Fail(e)
        case Ok(main, s2) =>
          match ReadClosedGenericPart(cache, univ, main, s2)
          case Fail(e) => Fail(e)
          case Ok(t, s3) =>
            if key != UIntMax then Ok(t, s3.(cachedTypes := s3.cachedTypes + [t])) else Ok(t, s3)
  }

  /** `DeserializeClosedGenericPart`: every parameter replaced by a type read with the OPEN reader. */
  function ReadClosedGenericPart(cache: bool, univ: Universe, main: RType, s: RState): (r: Read<RType>)
    requires main.Named?
    ensures r.Ok? ==> |r.state.rest| <= |s.rest| && s.cachedTypes <= r.state.cachedTypes
    ensures |main.args| == 0 ==> r == Ok(main, s)
    ensures r.Ok? ==> r.value.Named? && r.value.assembly == main.assembly && r.value.name == main.name
                      && r.value.isValue == main.isValue && |r.value.args| == |main.args|
    ensures r.Ok? && |main.args| > 0 ==> forall j :: 0 <= j < |r.value.args| ==> r.value.args[j] in r.state.cachedTypes
  {
    if |main.args| == 0 then Ok(main, s)
    else match ReadClosedArgs(cache, univ, s, main.args, 0)
      case Fail(e) => Fail(e)
      case Ok(ps, s1) => Ok(main.(args := ps), s1)
  }

  /**
   * The loop of `DeserializeClosedGenericPart` from parameter `i` on: every
   * later parameter is replaced by a type the open reader decoded, and so
   * is in the table afterwards.
   */
  function ReadClosedArgs(cache: bool, univ: Universe, s: RState, params: seq<RType>, i: nat): (r: Read<seq<RType>>)
    requires i <= |params|
    ensures r.Ok? ==> |r.state.rest| <= |s.rest| && s.cachedTypes <= r.state.cachedTypes
    ensures r.Ok? ==> |r.value| == |params| && r.value[..i] == params[..i]
    ensures r.Ok? ==> forall j :: i <= j < |params| ==> r.value[j] in r.state.cachedTypes
    decreases |params| - i
  {
    if i == |params| then Ok(params, s)
    else match ReadType(cache, univ, s)
      case Fail(e) => Fail(e)
      case Ok(t, s1) =>
        var r := ReadClosedArgs(cache, univ, s1, params[i := t], i + 1);
        if r.Ok? then ReplacedArgKept(params, i, t, s1.cachedTypes, r.value, r.state.cachedTypes); r else r
  }

  /** The argument read at `i` survives the rest of the loop and stays in the grown table. */
  lemma ReplacedArgKept(params: seq<RType>, i: nat, t: RType, table: seq<RType>, v: seq<RType>, table': seq<RType>)
    requires i < |params| <= |v| && v[..i + 1] == params[i := t][..i + 1]
    requires t in table && table <= table'
    ensures v[..i] == params[..i] && v[i] in table'
  {
    UpdatedPrefix(params, i, t, v);
    assert v[i] == v[..i + 1][i] == t;
    var k :| 0 <= k < |table| && table[k] == t;
    assert table'[k] == t;
  }

  /** With caching off, the reader reads no key and still appends every type it decodes to its table. */
  lemma UncachedReaderStillCaches(univ: Universe, s: RState)
    requires ReadType(false, univ, s).Ok?
    ensures var r := ReadType(false, univ, s);
      |r.state.cachedTypes| > |s.cachedTypes| && r.state.cachedTypes[|r.state.cachedTypes| - 1] == r.value
  {
  }

  /**
   * A well-formed open type: every definition is known to the reader's
   * assemblies, and each argument is either the definition's own parameter
   * at that position or a well-formed named type.
   */
  ghost predicate WellFormed(univ: Universe, t: RType)
    decreases t
  {
    && t.Named?
    && (t.assembly, t.name) in univ
    && univ[(t.assembly, t.name)] == TypeDef(t.isValue, |t.args|)
    && forall i :: 0 <= i < |t.args| ==> t.args[i] == Param(i) || WellFormed(univ, t.args[i])
  }

  /** With caching off, reading back the open form gives the same type and leaves the rest of the input. */
  lemma {:induction false} UncachedOpenRoundTrip(univ: Universe, t: RType, s: RState, rest: seq<Token>)
    requires WellFormed(univ, t) && s.rest == OpenTokens(t) + rest
    ensures ReadType(false, univ, s).Ok?
    ensures ReadType(false, univ, s).value == t && ReadType(false, univ, s).state.rest == rest
    decreases t, 1
  {
    var def := univ[(t.assembly, t.name)];
    var main := Named(t.assembly, t.name, def.isValue, Params(def.arity));
    var m := ReadMainPart(univ, s);
    assert s.rest[0] == AssemblyRef(t.assembly) && s.rest[1] == Str(t.name);
    assert m.Ok? && m.value == main;
    assert m.state.rest == OpenArgTokens(t, 0) + rest;
    if |t.args| > 0 {
      UncachedOpenArgsRoundTrip(univ, t, main.args, 0, m.state, rest);
      assert t == main.(args := t.args);
    } else {
      assert t == main;
    }
  }

  lemma {:induction false} UncachedOpenArgsRoundTrip(univ: Universe, owner: RType, params: seq<RType>, i: nat, s: RState, rest: seq<Token>)
    requires WellFormed(univ, owner) && i <= |owner.args| && |params| == |owner.args|
    requires params[..i] == owner.args[..i]
    requires forall j :: i <= j < |params| ==> params[j] == Param(j)
    requires s.rest == OpenArgTokens(owner, i) + rest
    ensures ReadOpenArgs(false, univ, s, params, i).Ok?
    ensures ReadOpenArgs(false, univ, s, params, i).value == owner.args
    ensures ReadOpenArgs(false, univ, s, params, i).state.rest == rest
    decreases owner, 0, |owner.args| - i, 1
  {
    if i == |owner.args| {
      assert params == params[..i] == owner.args[..i] == owner.args;
    } else if owner.args[i].Param? {
      UncachedParamArgRoundTrip(univ, owner, params, i, s, rest);
    } else {
      UncachedNamedArgRoundTrip(univ, owner, params, i, s, rest);
    }
  }

  /** `UncachedOpenArgsRoundTrip` for an argument that is the definition's own parameter (marker 1). */
  lemma {:induction false} UncachedParamArgRoundTrip(univ: Universe, owner: RType, params: seq<RType>, i: nat, s: RState, rest: seq<Token>)
    requires WellFormed(univ, owner) && i < |owner.args| && |params| == |owner.args| && owner.args[i].Param?
    requires params[..i] == owner.args[..i]
    requires forall j :: i <= j < |params| ==> params[j] == Param(j)
    requires s.rest == OpenArgTokens(owner, i) + rest
    ensures ReadOpenArgs(false, univ, s, params, i).Ok?
    ensures ReadOpenArgs(false, univ, s, params, i).value == owner.args
    ensures ReadOpenArgs(false, univ, s, params, i).state.rest == rest
    decreases owner, 0, |owner.args| - i, 0
  {
    ParamArgLayout(owner, params, i, rest);
    var s1 := ParamArgSkipped(univ, s, params, i, OpenArgTokens(owner, i + 1) + rest);
    UncachedOpenArgsRoundTrip(univ, owner, params, i + 1, s1, rest);
  }

  /** A parameter argument is the marker 1 alone, and the parameter already stands at `i`. */
  lemma ParamArgLayout(owner: RType, params: seq<RType>, i: nat, rest: seq<Token>)
    requires owner.Named? && i < |owner.args| == |params| && owner.args[i] == Param(i)
    requires params[..i] == owner.args[..i] && params[i] == Param(i)
    ensures OpenArgTokens(owner, i) + rest == [Byte(1)] + (OpenArgTokens(owner, i + 1) + rest)
    ensures params[..i + 1] == owner.args[..i + 1]
  {
    assert params[..i + 1] == params[..i] + [params[i]];
    assert owner.args[..i + 1] == owner.args[..i] + [owner.args[i]];
  }

  /** The argument reader passes over a marker 1, keeping the parameter. */
  lemma ParamArgSkipped(univ: Universe, s: RState, params: seq<RType>, i: nat, later: seq<Token>) returns (s1: RState)
    requires i < |params| && s.rest == [Byte(1)] + later
    ensures ReadOpenArgs(false, univ, s, params, i) == ReadOpenArgs(false, univ, s1, params, i + 1) && s1.rest == later
  {
    s1 := ReadMarker(s, 1, later);
    ReadParamArgStep(false, univ, s, params, i);
  }

  /** `UncachedOpenArgsRoundTrip` for a named argument behind its 0 marker. */
  lemma {:induction false} UncachedNamedArgRoundTrip(univ: Universe, owner: RType, params: seq<RType>, i: nat, s: RState, rest: seq<Token>)
    requires WellFormed(univ, owner) && i < |owner.args| && |params| == |owner.args| && owner.args[i].Named?
    requires params[..i] == owner.args[..i]
    requires forall j :: i <= j < |params| ==> params[j] == Param(j)
    requires s.rest == OpenArgTokens(owner, i) + rest
    ensures ReadOpenArgs(false, univ, s, params, i).Ok?
    ensures ReadOpenArgs(false, univ, s, params, i).value == owner.args
    ensures ReadOpenArgs(false, univ, s, params, i).state.rest == rest
    decreases owner, 0, |owner.args| - i, 0, 1
  {
    NamedArgLayout(univ, owner, i, rest);
    var s2 := NamedArgRead(univ, owner.args[i], s, params, i, OpenArgTokens(owner, i + 1) + rest);
    var params' := NextParams(owner, params, i);
    UncachedOpenArgsRoundTrip(univ, owner, params', i + 1, s2, rest);
  }

  /** A named argument is the marker 0 and the argument's own open form, and it is well formed. */
  lemma NamedArgLayout(univ: Universe, owner: RType, i: nat, rest: seq<Token>)
    requires WellFormed(univ, owner) && i < |owner.args| && owner.args[i].Named?
    ensures WellFormed(univ, owner.args[i])
    ensures OpenArgTokens(owner, i) + rest == [Byte(0)] + (OpenTokens(owner.args[i]) + (OpenArgTokens(owner, i + 1) + rest))
  {
    NamedArgTokens(owner, i);
  }

  /** The argument reader passes over a marker 0 and reads a well-formed type back, storing it at `i`. */
  lemma NamedArgRead(univ: Universe, arg: RType, s: RState, params: seq<RType>, i: nat, later: seq<Token>) returns (s2: RState)
    requires i < |params| && WellFormed(univ, arg)
    requires s.rest == [Byte(0)] + (OpenTokens(arg) + later)
    ensures ReadOpenArgs(false, univ, s, params, i) == ReadOpenArgs(false, univ, s2, params[i := arg], i + 1) && s2.rest == later
    decreases arg, 3
  {
    var s1;
    s1, s2 := NamedArgReadsType(univ, arg, s, later);
    ReadNamedArgStep(false, univ, s, params, i, arg, s1, s2);
  }

  /** The parameters after a named argument is read at `i`: the prefix grows by it and the later ones stay open. */
  lemma NextParams(owner: RType, params: seq<RType>, i: nat) returns (params': seq<RType>)
    requires owner.Named? && i < |owner.args| == |params| && params[..i] == owner.args[..i]
    requires forall j :: i <= j < |params| ==> params[j] == Param(j)
    ensures params' == params[i := owner.args[i]] && |params'| == |owner.args|
    ensures params'[..i + 1] == owner.args[..i + 1]
    ensures forall j :: i + 1 <= j < |params'| ==> params'[j] == Param(j)
  {
    params' := params[i := owner.args[i]];
    assert params'[..i + 1] == params[..i] + [owner.args[i]];
    assert owner.args[..i + 1] == owner.args[..i] + [owner.args[i]];
  }

  /** The reader gets past a 0 marker and reads a well-formed type back from its open form. */
  lemma NamedArgReadsType(univ: Universe, arg: RType, s: RState, later: seq<Token>)
    returns (s1: RState, s2: RState)
    requires WellFormed(univ, arg)
    requires s.rest == [Byte(0)] + (OpenTokens(arg) + later)
    ensures ReadByte(s) == Ok(0, s1)
    ensures ReadType(false, univ, s1).Ok? && ReadType(false, univ, s1).value == arg && ReadType(false, univ, s1).state == s2
    ensures s2.rest == later
    decreases arg, 2
  {
    s1 := ReadMarker(s, 0, OpenTokens(arg) + later);
    UncachedOpenRoundTrip(univ, arg, s1, later);
    s2 := ReadType(false, univ, s1).state;
  }

  /** Reading a marker byte in front of `tail` leaves `tail`. */
  lemma ReadMarker(s: RState, b: nat, tail: seq<Token>) returns (s1: RState)
    requires s.rest == [Byte(b)] + tail
    ensures ReadByte(s) == Ok(b, s1) && s1.rest == tail && s1.cachedTypes == s.cachedTypes
  {
    s1 := Advance(s);
    assert s1.rest == s.rest[1..] == tail;
  }

  /**
   * Two different new types whose keys are taken while the writer holds the
   * same number of assemblies (as when both come from assemblies it has
   * already cached) get the same key, whatever is written in between; from
   * then on both are written as that same four-byte key and cannot be told
   * apart.
   */
  lemma DistinctTypesShareKey(s: WState, a: RType, b: RType, mid: WState, later: WState)
    requires a.Named? && b.Named? && a != b
    requires a !in s.cachedTypes && |s.cachedTypes| < IntMax
    requires Extends(KeyBeforeType(s, a).1, mid)
    requires b !in mid.cachedTypes && |mid.cachedTypes| < IntMax
    requires Extends(KeyBeforeType(mid, b).1, later)
    ensures a in later.cachedTypes && b in later.cachedTypes
    ensures later.cachedTypes[a] == later.cachedTypes[b] == s.cachedAssemblies
    ensures Written(later, WriteType(true, later, a)) == Written(later, WriteType(true, later, b)) == [Int32(s.cachedAssemblies)]
  {
    var k := s.cachedAssemblies;
    assert KeyBeforeType(s, a).1.cachedTypes[a] == k;
    assert mid.cachedTypes[a] == k && mid.cachedAssemblies == k;
    assert KeyBeforeType(mid, b).1.cachedTypes == mid.cachedTypes[b := k];
    CachedTypeWritesOnlyKey(later, a);
    CachedTypeWritesOnlyKey(later, b);
  }

  /** The plainest instance: two one-after-the-other writes of different non-generic types into an empty table. */
  lemma FirstTwoTypesShareKey(s: WState, a: RType, b: RType)
    requires a.Named? && b.Named? && a != b && |a.args| == 0 && |b.args| == 0
    requires s.cachedTypes == map[]
    ensures var s1 := WriteType(true, WriteType(true, s, a), b);
      && a in s1.cachedTypes && b in s1.cachedTypes
      && s1.cachedTypes[a] == s1.cachedTypes[b] == s.cachedAssemblies
  {
    var s0 := WriteType(true, s, a);
    var sk := KeyBeforeType(s, a).1;
    assert WriteOpenArgs(true, MainPart(sk, a), a, 0) == MainPart(sk, a);
    assert s0 == MainPart(sk, a);
    assert |s0.cachedTypes| == 1 && b !in s0.cachedTypes;
    var sk' := KeyBeforeType(s0, b).1;
    assert WriteOpenArgs(true, MainPart(sk', b), b, 0) == MainPart(sk', b);
    DistinctTypesShareKey(s, a, b, s0, WriteType(true, s0, b));
  }

  /**
   * A closed type nested two deep (`L<L<X>>`) written without caching cannot
   * be read back by the closed reader: the inner `L<X>` is read by the open
   * reader, which expects a marker byte where the closed form has the
   * assembly of `X`.
   */
  lemma NestedClosedTypeUnreadable(univ: Universe, l: RType, x: RType, s: RState)
    requires l.Named? && x.Named? && |l.args| == 0 && |x.args| == 0
    requires univ == map[(l.assembly, l.name) := TypeDef(l.isValue, 1), (x.assembly, x.name) := TypeDef(x.isValue, 0)]
    requires (l.assembly, l.name) != (x.assembly, x.name)
    requires s.rest == ClosedTokens(l.(args := [l.(args := [x])]))
    ensures IsClosed(l.(args := [l.(args := [x])]))
    ensures ReadClosedType(false, univ, s).Fail?
  {
    var inner := l.(args := [x]);
    var outer := l.(args := [inner]);
    assert IsClosed(inner) by { assert inner.args[0] == x; }
    assert IsClosed(outer) by { assert outer.args[0] == inner; }
    assert ClosedArgTokens(x, 0) == [];
    assert ClosedTokens(x) == [AssemblyRef(x.assembly), Str(x.name)];
    assert ClosedArgTokens(inner, 1) == [];
    assert ClosedArgTokens(inner, 0) == ClosedTokens(x);
    assert ClosedTokens(inner) == [AssemblyRef(l.assembly), Str(l.name), AssemblyRef(x.assembly), Str(x.name)];
    assert ClosedArgTokens(outer, 1) == [];
    assert ClosedArgTokens(outer, 0) == ClosedTokens(inner);
    assert s.rest == [AssemblyRef(l.assembly), Str(l.name), AssemblyRef(l.assembly), Str(l.name), AssemblyRef(x.assembly), Str(x.name)];
    var mainL := Named(l.assembly, l.name, l.isValue, Params(1));
    var s2 := Advance(Advance(s));
    assert ReadMainPart(univ, s) == Ok(mainL, s2);
    var s4 := Advance(Advance(s2));
    assert ReadMainPart(univ, s2) == Ok(mainL, s4);
    assert s4.rest[0] == AssemblyRef(x.assembly);
    assert ReadByte(s4).Fail?;
    assert ReadOpenArgs(false, univ, s4, mainL.args, 0).Fail?;
    assert ReadType(false, univ, s2).Fail?;
    assert ReadClosedArgs(false, univ, s2, mainL.args, 0).Fail?;
  }

  // ---------------------------------------------------------------- classes

  /** The type converter's view of an ABSaveWriter. */
  class TypeWriter {
    var output: seq<Token>
    var cachedTypes: map<RType, nat>
    var cachedAssemblies: nat
    const cacheTypesAndAssemblies: bool

    function View(): WState
      reads this
    {
      WState(output, cachedTypes, cachedAssemblies)
    }

    constructor (cacheTypesAndAssemblies: bool, cachedAssemblies: nat)
      ensures View() == WState([], map[], cachedAssemblies)
      ensures this.cacheTypesAndAssemblies == cacheTypesAndAssemblies
    {
      output := [];
      cachedTypes := map[];
      this.cachedAssemblies := cachedAssemblies;
      this.cacheTypesAndAssemblies := cacheTypesAndAssemblies;
    }

    method WriteByte(b: nat)
      modifies this
      ensures View() == Emit(old(View()), [Byte(b)])
    {
      output := output + [Byte(b)];
    }

    method SerializeType(t: RType)
      requires t.Named?
      modifies this
      ensures View() == WriteType(cacheTypesAndAssemblies, old(View()), t)
      decreases t, 2
    {
      if cacheTypesAndAssemblies {
        var hit := SerializeKeyBeforeType(t);
        if hit {
          return;
        }
      }
      SerializeTypeMainPart(t);
      SerializeGenericPart(t);
    }

    method SerializeClosedType(t: RType)
      requires IsClosed(t)
      modifies this
      ensures View() == WriteClosedType(cacheTypesAndAssemblies, old(View()), t)
      decreases t, 2
    {
      if cacheTypesAndAssemblies {
        var hit := SerializeKeyBeforeType(t);
        if hit {
          return;
        }
      }
      SerializeTypeMainPart(t);
      SerializeClosedGenericPart(t);
    }

    method SerializeTypeMainPart(t: RType)
      requires t.Named?
      modifies this
      ensures View() == MainPart(old(View()), t)
    {
      output := output + [AssemblyRef(t.assembly)];
      output := output + [Str(t.name)];
    }

    method SerializeGenericPart(t: RType)
      requires t.Named?
      modifies this
      ensures View() == WriteOpenArgs(cacheTypesAndAssemblies, old(View()), t, 0)
      decreases t, 1
    {
      if |t.args| > 0 {
        var generics := t.args;
        var i := 0;
        while i < |generics|
          invariant 0 <= i <= |generics|
          invariant WriteOpenArgs(cacheTypesAndAssemblies, old(View()), t, 0) == WriteOpenArgs(cacheTypesAndAssemblies, View(), t, i)
        {
          if generics[i].Param? {
            WriteByte(1);
          } else {
            WriteByte(0);
            SerializeType(generics[i]);
          }
          i := i + 1;
        }
      }
    }

    method SerializeClosedGenericPart(t: RType)
      requires IsClosed(t)
      modifies this
      ensures View() == WriteClosedArgs(cacheTypesAndAssemblies, old(View()), t, 0)
      decreases t, 1
    {
      if |t.args| > 0 {
        var generics := t.args;
        var i := 0;
        while i < |generics|
          invariant 0 <= i <= |generics|
          invariant WriteClosedArgs(cacheTypesAndAssemblies, old(View()), t, 0) == WriteClosedArgs(cacheTypesAndAssemblies, View(), t, i)
        {
          SerializeClosedType(generics[i]);
          i := i + 1;
        }
      }
    }

    method SerializeKeyBeforeType(t: RType) returns (hit: bool)
      modifies this
      ensures (hit, View()) == KeyBeforeType(old(View()), t)
    {
      if t in cachedTypes {
        output := output + [Int32(cachedTypes[t])];
        return true;
      } else if |cachedTypes| == IntMax {
        output := output + [Int32(UIntMax)];
      } else {
        var size := cachedAssemblies;
        cachedTypes := cachedTypes[t := size];
        output := output + [LEInt(size, ByteWidth(size))];
      }
      return false;
    }
  }

  /** A reader operation's result without the reader's state. */
  datatype Outcome<T> = Value(value: T) | Error(error: ReadError)

  /** `o` is what the specification `spec` returns, and `now` the state it leaves. */
  predicate Reflects<T(==)>(o: Outcome<T>, spec: Read<T>, now: RState) {
    && (spec.Ok? ==> o == Value(spec.value) && now == spec.state)
    && (spec.Fail? ==> o == Error(spec.error))
  }

  /** The type converter's view of an ABSaveReader. */
  class TypeReader {
    var rest: seq<Token>
    var position: nat
    var cachedTypes: seq<RType>
    var cachedAssemblies: nat
    const cacheTypesAndAssemblies: bool
    const universe: Universe

    function View(): RState
      reads this
    {
      RState(rest, position, cachedTypes, cachedAssemblies)
    }

    constructor (input: seq<Token>, cacheTypesAndAssemblies: bool, cachedAssemblies: nat, universe: Universe)
      ensures View() == RState(input, 0, [], cachedAssemblies)
      ensures this.cacheTypesAndAssemblies == cacheTypesAndAssemblies && this.universe == universe
    {
      rest := input;
      position := 0;
      cachedTypes := [];
      this.cachedAssemblies := cachedAssemblies;
      this.cacheTypesAndAssemblies := cacheTypesAndAssemblies;
      this.universe := universe;
    }

    method ReadByteToken() returns (r: Outcome<nat>)
      modifies this
      ensures Reflects(r, ReadByte(old(View())), View())
    {
      if |rest| == 0 {
        return Error(EndOfInput(position));
      }
      if !rest[0].Byte? {
        return Error(UnexpectedToken(position));
      }
      r := Value(rest[0].b);
      rest := rest[1..];
      position := position + 1;
    }

    method DeserializeType() returns (r: Outcome<RType>)
      modifies this
      ensures Reflects(r, ReadType(cacheTypesAndAssemblies, universe, old(View())), View())
      decreases |rest|, 2
    {
      var cached := DeserializeKeyBeforeType();
      if cached.Error? {
        return Error(cached.error);
      }
      var (cachedType, key) := cached.value;
      if cachedType.Some? {
        return Value(cachedType.value);
      }
      var mainPart := DeserializeTypeMainPart();
      if mainPart.Error? {
        return Error(mainPart.error);
      }
      var withGenerics := DeserializeGenericPart(mainPart.value);
      if withGenerics.Error? {
        return withGenerics;
      }
      if key != UIntMax {
        cachedTypes := cachedTypes + [withGenerics.value];
      }
      return withGenerics;
    }

    method DeserializeClosedType() returns (r: Outcome<RType>)
      modifies this
      ensures Reflects(r, ReadClosedType(cacheTypesAndAssemblies, universe, old(View())), View())
    {
      var cached := DeserializeKeyBeforeType();
      if cached.Error? {
        return Error(cached.error);
      }
      var (cachedType, key) := cached.value;
      if cachedType.Some? {
        return Value(cachedType.value);
      }
      var mainPart := DeserializeTypeMainPart();
      if mainPart.Error? {
        return Error(mainPart.error);
      }
      var withGenerics := DeserializeClosedGenericPart(mainPart.value);
      if withGenerics.Error? {
        return withGenerics;
      }
      if key != UIntMax {
        cachedTypes := cachedTypes + [withGenerics.value];
      }
      return withGenerics;
    }

    method DeserializeTypeMainPart() returns (r: Outcome<RType>)
      modifies this
      ensures Reflects(r, ReadMainPart(universe, old(View())), View())
    {
      if |rest| == 0 {
        return Error(EndOfInput(position));
      }
      if !rest[0].AssemblyRef? {
        return Error(UnexpectedToken(position));
      }
      var assembly := rest[0].assemblyName;
      rest := rest[1..];
      position := position + 1;
      if |rest| == 0 {
        return Error(EndOfInput(position));
      }
      if !rest[0].Str? {
        return Error(UnexpectedToken(position));
      }
      var typeName := rest[0].s;
      rest := rest[1..];
      position := position + 1;
      if (assembly, typeName) !in universe {
        return Error(TypeNotFound(assembly, typeName));
      }
      var def := universe[(assembly, typeName)];
      return Value(Named(assembly, typeName, def.isValue, Params(def.arity)));
    }

    method DeserializeGenericPart(mainPart: RType) returns (r: Outcome<RType>)
      requires mainPart.Named?
      modifies this
      ensures Reflects(r, ReadGenericPart(cacheTypesAndAssemblies, universe, mainPart, old(View())), View())
      decreases |rest|, 1
    {
      if |mainPart.args| == 0 {
        return Value(mainPart);
      }
      var n := |mainPart.args|;
      var parameters := new RType[n](i requires 0 <= i < n => mainPart.args[i]);
      assert parameters[..] == mainPart.args;
      ghost var start := View();
      for i := 0 to n
        invariant |rest| <= |start.rest|
        invariant ReadOpenArgs(cacheTypesAndAssemblies, universe, start, mainPart.args, 0)
               == ReadOpenArgs(cacheTypesAndAssemblies, universe, View(), parameters[..], i)
      {
        var marker := ReadByteToken();
        if marker.Error? {
          return Error(marker.error);
        }
        if marker.value == 0 {
          var t := DeserializeType();
          if t.Error? {
            return Error(t.error);
          }
          parameters[i] := t.value;
        }
      }
      return Value(mainPart.(args := parameters[..]));
    }

    method DeserializeClosedGenericPart(mainPart: RType) returns (r: Outcome<RType>)
      requires mainPart.Named?
      modifies this
      ensures Reflects(r, ReadClosedGenericPart(cacheTypesAndAssemblies, universe, mainPart, old(View())), View())
    {
      if |mainPart.args| == 0 {
        return Value(mainPart);
      }
      var n := |mainPart.args|;
      var parameters := new RType[n](i requires 0 <= i < n => mainPart.args[i]);
      assert parameters[..] == mainPart.args;
      ghost var start := View();
      for i := 0 to n
        invariant ReadClosedArgs(cacheTypesAndAssemblies, universe, start, mainPart.args, 0)
               == ReadClosedArgs(cacheTypesAndAssemblies, universe, View(), parameters[..], i)
      {
        var t := DeserializeType();
        if t.Error? {
          return Error(t.error);
        }
        parameters[i] := t.value;
      }
      return Value(mainPart.(args := parameters[..]));
    }

    method DeserializeKeyBeforeType() returns (r: Outcome<(Option<RType>, nat)>)
      modifies this
      ensures Reflects(r, ReadKeyBeforeType(cacheTypesAndAssemblies, old(View())), View())
    {
      if cacheTypesAndAssemblies {
        var width := ByteWidth(cachedAssemblies);
        if |rest| == 0 {
          return Error(EndOfInput(position));
        }
        var key: nat;
        match rest[0] {
          case LEInt(n, w) =>
            if w != width {
              return Error(UnexpectedToken(position));
            }
            key := n;
          case Int32(n) =>
            if width != 4 {
              return Error(UnexpectedToken(position));
            }
            key := n;
          case _ =>
            return Error(UnexpectedToken(position));
        }
        rest := rest[1..];
        position := position + 1;
        if key < |cachedTypes| {
          return Value((Some(cachedTypes[key]), key));
        }
      }
      return Value((None, 0));
    }
  }
}
