/**
 * The type-descriptor codec with the key and nesting defects listed under
 * Findings in the README corrected, keeping the wire layout of
 * ABSoftware.ABSave/Converters/TypeTypeConverter.cs otherwise:
 *  - A type's key is its position in the session's type table, so distinct
 *    types never share a key; a new type's key is the table's size.
 *  - Both sides write and read every key in the minimal width of the table's
 *    size, and both append a new type after its arguments.
 *  - The closed reader reads nested arguments with the closed reader.
 * The `int.MaxValue` cap on the table is not part of this codec.
 */
module TypeCodecIntended {
  import opened Wire
  import opened TypeCodec

  /** The first position of `t` in the table: the key it is written as. */
  function IndexOf(types: seq<RType>, t: RType): (i: nat)
    requires t in types
    ensures i < |types| && types[i] == t
    ensures forall j :: 0 <= j < i ==> types[j] != t
  {
    if types[0] == t then 0 else 1 + IndexOf(types[1..], t)
  }

  /** An encoding: the tokens written and the writer's type table afterwards. */
  datatype Enc = Enc(tokens: seq<Token>, types: seq<RType>)

  /** A type in the open form (markers) or, for a closed type, the closed form (no markers). */
  function EncodeType(cache: bool, types: seq<RType>, t: RType, closed: bool): (r: Enc)
    requires t.Named? && (closed ==> IsClosed(t))
    ensures types <= r.types
    ensures !cache ==> r.types == types
    decreases t, 1
  {
    if cache && t in types then Enc([LEInt(IndexOf(types, t), ByteWidth(|types|))], types)
    else
      var key := if cache then [LEInt(|types|, ByteWidth(|types|))] else [];
      var body := EncodeArgs(cache, types, t, 0, closed);
      Enc(key + [AssemblyRef(t.assembly), Str(t.name)] + body.tokens, if cache then body.types + [t] else body.types)
  }

  /** The generic arguments of `owner` from `i` on. */
  function EncodeArgs(cache: bool, types: seq<RType>, owner: RType, i: nat, closed: bool): (r: Enc)
    requires owner.Named? && (closed ==> IsClosed(owner)) && i <= |owner.args|
    ensures types <= r.types
    ensures !cache ==> r.types == types
    decreases owner, 0, |owner.args| - i
  {
    if i == |owner.args| then Enc([], types)
    else
      var arg := owner.args[i];
      assert closed ==> IsClosed(arg);
      var head :=
        if closed then EncodeType(cache, types, arg, true)
        else if arg.Param? then Enc([Byte(1)], types)
        else var e := EncodeType(cache, types, arg, false); Enc([Byte(0)] + e.tokens, e.types);
      var tail := EncodeArgs(cache, head.types, owner, i + 1, closed);
      Enc(head.tokens + tail.tokens, tail.types)
  }

  /** A key, in the minimal width of the reader's table size. */
  function ReadKey(s: RState): (r: Read<nat>)
    ensures r.Ok? ==> |s.rest| > 0 && s.rest[0] == LEInt(r.value, ByteWidth(|s.cachedTypes|)) && r.state == Advance(s)
  {
    if |s.rest| == 0 then Fail(EndOfInput(s.position))
    else match s.rest[0]
      case LEInt(n, w) => if w == ByteWidth(|s.cachedTypes|) then Ok(n, Advance(s)) else Fail(UnexpectedToken(s.position))
      case _ => Fail(UnexpectedToken(s.position))
  }

  /** Reads a type in the open or the closed form; a key below the table's size is a cached type. */
  function DecodeType(cache: bool, univ: Universe, s: RState, closed: bool): (r: Read<RType>)
    ensures r.Ok? ==> |r.state.rest| < |s.rest|
    ensures r.Ok? ==> s.cachedTypes <= r.state.cachedTypes
    decreases |s.rest|, 1, 0
  {
    var key := if cache then ReadKey(s) else Ok(0, s);
    match key
    case Fail(e) => Fail(e)
    case Ok(k, s1) =>
      if cache && k < |s1.cachedTypes| then Ok(s1.cachedTypes[k], s1)
      else match ReadMainPart(univ, s1)
        case Fail(e) => Fail(e)
        case Ok(main, s2) =>
          var body :=
            if |main.args| == 0 then Ok(main, s2)
            else match DecodeArgs(cache, univ, s2, main.args, 0, closed)
              case Fail(e) => Fail(e)
              case Ok(ps, s3) => Ok(main.(args := ps), s3);
          match body
          case Fail(e) => Fail(e)
          case Ok(t, s3) => Ok(t, if cache then s3.(cachedTypes := s3.cachedTypes + [t]) else s3)
  }

  /** The arguments from `i` on: each closed argument in the closed form, each open one behind its marker. */
  function DecodeArgs(cache: bool, univ: Universe, s: RState, params: seq<RType>, i: nat, closed: bool): (r: Read<seq<RType>>)
    requires i <= |params|
    ensures r.Ok? ==> |r.state.rest| <= |s.rest| && s.cachedTypes <= r.state.cachedTypes
    decreases |s.rest|, 2, |params| - i
  {
    if i == |params| then Ok(params, s)
    else if closed then
      match DecodeType(cache, univ, s, true)
      case Fail(e) => Fail(e)
      case Ok(t, s1) => DecodeArgs(cache, univ, s1, params[i := t], i + 1, closed)
    else match ReadByte(s)
      case Fail(e) => Fail(e)
      case Ok(marker, s1) =>
        if marker == 0 then
          match DecodeType(cache, univ, s1, false)
          case Fail(e) => Fail(e)
          case Ok(t, s2) => DecodeArgs(cache, univ, s2, params[i := t], i + 1, closed)
        else DecodeArgs(cache, univ, s1, params, i + 1, closed)
  }

  /**
   * A type the reader can rebuild: every definition is known, and each
   * argument is a well-formed named type or, in the open form, the
   * definition's own parameter at that position.
   */
  ghost predicate Decodable(univ: Universe, t: RType, closed: bool)
    decreases t
  {
    && t.Named?
    && (t.assembly, t.name) in univ
    && univ[(t.assembly, t.name)] == TypeDef(t.isValue, |t.args|)
    && forall i :: 0 <= i < |t.args| ==> (!closed && t.args[i] == Param(i)) || Decodable(univ, t.args[i], closed)
  }

  /**
   * Reading back what was written gives the same type, leaves the rest of
   * the input, and leaves the reader's table equal to the writer's, with
   * caching on or off and in either form.
   */
  lemma {:induction false} RoundTrip(cache: bool, univ: Universe, t: RType, closed: bool, s: RState, rest: seq<Token>)
    requires Decodable(univ, t, closed) && (closed ==> IsClosed(t))
    requires s.rest == EncodeType(cache, s.cachedTypes, t, closed).tokens + rest
    ensures DecodeType(cache, univ, s, closed).Ok?
    ensures DecodeType(cache, univ, s, closed).value == t
    ensures DecodeType(cache, univ, s, closed).state.rest == rest
    ensures DecodeType(cache, univ, s, closed).state.cachedTypes == EncodeType(cache, s.cachedTypes, t, closed).types
    decreases t, 1
  {
    var types := s.cachedTypes;
    if cache && t in types {
      assert s.rest[0] == LEInt(IndexOf(types, t), ByteWidth(|types|));
    } else {
      MissRoundTrip(cache, univ, t, closed, s, rest);
    }
  }

  /** The round trip of a type that is not in the table (or with caching off). */
  lemma {:induction false} MissRoundTrip(cache: bool, univ: Universe, t: RType, closed: bool, s: RState, rest: seq<Token>)
    requires Decodable(univ, t, closed) && (closed ==> IsClosed(t))
    requires !(cache && t in s.cachedTypes)
    requires s.rest == EncodeType(cache, s.cachedTypes, t, closed).tokens + rest
    ensures DecodeType(cache, univ, s, closed).Ok?
    ensures DecodeType(cache, univ, s, closed).value == t
    ensures DecodeType(cache, univ, s, closed).state.rest == rest
    ensures DecodeType(cache, univ, s, closed).state.cachedTypes == EncodeType(cache, s.cachedTypes, t, closed).types
    decreases t, 0
  {
    var types := s.cachedTypes;
    var key: seq<Token> := if cache then [LEInt(|types|, ByteWidth(|types|))] else [];
    var body := EncodeArgs(cache, types, t, 0, closed);
    var s1 := if cache then Advance(s) else s;
    var s2 := Advance(Advance(s1));
    var def := univ[(t.assembly, t.name)];
    var main := Named(t.assembly, t.name, def.isValue, Params(def.arity));
    assert s2.rest == body.tokens + rest && s2.cachedTypes == types && ReadMainPart(univ, s1) == Ok(main, s2) by {
      assert s.rest == key + ([AssemblyRef(t.assembly), Str(t.name)] + (body.tokens + rest));
      assert s1.rest == [AssemblyRef(t.assembly), Str(t.name)] + (body.tokens + rest);
    }
    assert (if cache then ReadKey(s) else Ok(0, s)) == Ok(if cache then |types| else 0, s1);
    if |t.args| > 0 {
      ArgsRoundTrip(cache, univ, t, 0, closed, main.args, s2, rest);
      assert t == main.(args := t.args);
      DecodeNewType(cache, univ, s, closed, if cache then |types| else 0, s1, main, s2);
    } else {
      assert t == main;
      DecodeNewType(cache, univ, s, closed, if cache then |types| else 0, s1, main, s2);
    }
  }

  /** How `DecodeType` rebuilds a type that is not in the table, from its main part and its arguments. */
  lemma DecodeNewType(cache: bool, univ: Universe, s: RState, closed: bool, k: nat, s1: RState, main: RType, s2: RState)
    requires (if cache then ReadKey(s) else Ok(0, s)) == Ok(k, s1)
    requires !(cache && k < |s1.cachedTypes|)
    requires ReadMainPart(univ, s1) == Ok(main, s2)
    ensures |main.args| == 0 ==>
      DecodeType(cache, univ, s, closed) == Ok(main, if cache then s2.(cachedTypes := s2.cachedTypes + [main]) else s2)
    ensures |main.args| > 0 && DecodeArgs(cache, univ, s2, main.args, 0, closed).Ok? ==>
      var d := DecodeArgs(cache, univ, s2, main.args, 0, closed);
      var t := main.(args := d.value);
      DecodeType(cache, univ, s, closed) == Ok(t, if cache then d.state.(cachedTypes := d.state.cachedTypes + [t]) else d.state)
  {
  }

  /**
   * Reading back the arguments from position `i` on gives the type's own
   * arguments, leaves the rest of the input, and leaves the reader's table
   * equal to the writer's.
   */
  lemma {:induction false} ArgsRoundTrip(cache: bool, univ: Universe, owner: RType, i: nat, closed: bool,
                                         params: seq<RType>, s: RState, rest: seq<Token>)
    requires Decodable(univ, owner, closed) && (closed ==> IsClosed(owner)) && i <= |owner.args|
    requires |params| == |owner.args| && params[..i] == owner.args[..i]
    requires forall j :: i <= j < |params| ==> params[j] == Param(j)
    requires s.rest == EncodeArgs(cache, s.cachedTypes, owner, i, closed).tokens + rest
    ensures DecodeArgs(cache, univ, s, params, i, closed).Ok?
    ensures DecodeArgs(cache, univ, s, params, i, closed).value == owner.args
    ensures DecodeArgs(cache, univ, s, params, i, closed).state.rest == rest
    ensures DecodeArgs(cache, univ, s, params, i, closed).state.cachedTypes == EncodeArgs(cache, s.cachedTypes, owner, i, closed).types
    decreases owner, 0, |owner.args| - i, 1
  {
    if i == |owner.args| {
      assert params == params[..i] == owner.args[..i] == owner.args;
    } else if closed {
      ClosedArgRoundTrip(cache, univ, owner, i, params, s, rest);
    } else if owner.args[i].Param? {
      ParamArgRoundTrip(cache, univ, owner, i, params, s, rest);
    } else {
      OpenArgRoundTrip(cache, univ, owner, i, params, s, rest);
    }
  }

  /** `ArgsRoundTrip` for an argument in the closed form. */
  lemma {:induction false} ClosedArgRoundTrip(cache: bool, univ: Universe, owner: RType, i: nat,
                                              params: seq<RType>, s: RState, rest: seq<Token>)
    requires Decodable(univ, owner, true) && IsClosed(owner) && i < |owner.args|
    requires |params| == |owner.args| && params[..i] == owner.args[..i]
    requires forall j :: i <= j < |params| ==> params[j] == Param(j)
    requires s.rest == EncodeArgs(cache, s.cachedTypes, owner, i, true).tokens + rest
    ensures DecodeArgs(cache, univ, s, params, i, true).Ok?
    ensures DecodeArgs(cache, univ, s, params, i, true).value == owner.args
    ensures DecodeArgs(cache, univ, s, params, i, true).state.rest == rest
    ensures DecodeArgs(cache, univ, s, params, i, true).state.cachedTypes == EncodeArgs(cache, s.cachedTypes, owner, i, true).types
    decreases owner, 0, |owner.args| - i, 0
  {
    var arg := owner.args[i];
    var e := EncodeType(cache, s.cachedTypes, arg, true);
    var tail := EncodeArgs(cache, e.types, owner, i + 1, true);
    assert s.rest == e.tokens + (tail.tokens + rest);
    RoundTrip(cache, univ, arg, true, s, tail.tokens + rest);
    var s1 := DecodeType(cache, univ, s, true).state;
    NextParams(owner, params, i, arg);
    ArgsRoundTrip(cache, univ, owner, i + 1, true, params[i := arg], s1, rest);
  }

  /** `ArgsRoundTrip` for an argument that is the definition's own parameter. */
  lemma {:induction false} ParamArgRoundTrip(cache: bool, univ: Universe, owner: RType, i: nat,
                                             params: seq<RType>, s: RState, rest: seq<Token>)
    requires Decodable(univ, owner, false) && i < |owner.args| && owner.args[i].Param?
    requires |params| == |owner.args| && params[..i] == owner.args[..i]
    requires forall j :: i <= j < |params| ==> params[j] == Param(j)
    requires s.rest == EncodeArgs(cache, s.cachedTypes, owner, i, false).tokens + rest
    ensures DecodeArgs(cache, univ, s, params, i, false).Ok?
    ensures DecodeArgs(cache, univ, s, params, i, false).value == owner.args
    ensures DecodeArgs(cache, univ, s, params, i, false).state.rest == rest
    ensures DecodeArgs(cache, univ, s, params, i, false).state.cachedTypes == EncodeArgs(cache, s.cachedTypes, owner, i, false).types
    decreases owner, 0, |owner.args| - i, 0
  {
    var arg := owner.args[i];
    var tail := EncodeArgs(cache, s.cachedTypes, owner, i + 1, false);
    assert s.rest == [Byte(1)] + (tail.tokens + rest);
    var s1 := Advance(s);
    assert arg == Param(i) && params[i] == arg;
    NextParams(owner, params, i, arg);
    assert params[i := arg] == params;
    ArgsRoundTrip(cache, univ, owner, i + 1, false, params, s1, rest);
  }

  /** `ArgsRoundTrip` for a named argument in the open form, behind its 0 marker. */
  lemma {:induction false} OpenArgRoundTrip(cache: bool, univ: Universe, owner: RType, i: nat,
                                            params: seq<RType>, s: RState, rest: seq<Token>)
    requires Decodable(univ, owner, false) && i < |owner.args| && owner.args[i].Named?
    requires |params| == |owner.args| && params[..i] == owner.args[..i]
    requires forall j :: i <= j < |params| ==> params[j] == Param(j)
    requires s.rest == EncodeArgs(cache, s.cachedTypes, owner, i, false).tokens + rest
    ensures DecodeArgs(cache, univ, s, params, i, false).Ok?
    ensures DecodeArgs(cache, univ, s, params, i, false).value == owner.args
    ensures DecodeArgs(cache, univ, s, params, i, false).state.rest == rest
    ensures DecodeArgs(cache, univ, s, params, i, false).state.cachedTypes == EncodeArgs(cache, s.cachedTypes, owner, i, false).types
    decreases owner, 0, |owner.args| - i, 0
  {
    var arg := owner.args[i];
    var e := EncodeType(cache, s.cachedTypes, arg, false);
    var tail := EncodeArgs(cache, e.types, owner, i + 1, false);
    assert s.rest == [Byte(0)] + (e.tokens + (tail.tokens + rest));
    var s1 := Advance(s);
    RoundTrip(cache, univ, arg, false, s1, tail.tokens + rest);
    var s2 := DecodeType(cache, univ, s1, false).state;
    NextParams(owner, params, i, arg);
    ArgsRoundTrip(cache, univ, owner, i + 1, false, params[i := arg], s2, rest);
  }

  /** Replacing parameter `i` with the type's own argument extends the agreeing prefix by one. */
  lemma NextParams(owner: RType, params: seq<RType>, i: nat, arg: RType)
    requires owner.Named? && i < |owner.args| == |params| && params[..i] == owner.args[..i] && arg == owner.args[i]
    ensures params[i := arg][..i + 1] == owner.args[..i + 1]
  {
    assert params[i := arg][..i + 1] == params[..i] + [arg];
    assert owner.args[..i + 1] == owner.args[..i] + [arg];
  }

  /** Distinct types in a table are written as distinct keys. */
  lemma DistinctTypesDistinctKeys(types: seq<RType>, a: RType, b: RType)
    requires a in types && b in types && a != b
    ensures IndexOf(types, a) != IndexOf(types, b)
  {
  }
}
