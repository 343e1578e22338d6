/**
 * The older generation's central writer
 * (ABSoftware.ABSave/Serialization/ABSaveSerializer.cs): session setup and
 * reset, the null byte or bit, the presence bit at nullable sites, the
 * per-item header with the version number, the inheritance dispatch, and
 * object members in array order.
 *
 * The version caches are looked up as the file writes it (`AsWritten`,
 * where a hit leads into the "write and add" branch) or as evidently
 * intended (`Corrected`, where a miss does); the lemmas below show what
 * each does.
 */
module LegacySerialization {
  import opened Wire

  /** The map items the writer dispatches on. */
  datatype MapItem =
    | ConverterContext(converter: nat, itemType: RType, isValueItemType: bool, highestVersion: nat)
    | ObjectMapItem(itemType: RType, isValueItemType: bool, highestVersion: nat)
    | RuntimeMapItem(inner: MapItem)

  datatype MapItemInfo = MapItemInfo(item: MapItem, isNullable: bool)

  /** An object member: the field its accessor reads and the member's map info. */
  datatype Member = Member(field: nat, mapInfo: MapItemInfo)

  datatype ConverterVersionInfo = ConverterVersionInfo(inheritance: Option<InheritanceAttr>, usesHeader: bool)
  datatype ObjectVersionInfo = ObjectVersionInfo(inheritance: Option<InheritanceAttr>, members: seq<Member>)

  datatype VersionLookup = AsWritten | Corrected

  /**
   * What the map and the other helpers provide: `ConverterVersionInfo.CreateFromContext`,
   * `MapGenerator.GetVersionOrAddNull`, `GetRuntimeMapItem` and `KeyInheritanceHandler.GetOrAddTypeKeyFromCache`.
   */
  datatype Collaborators = Collaborators(
    createFromContext: (nat, MapItem) -> ConverterVersionInfo,
    getVersionOrAddNull: (nat, MapItem) -> ObjectVersionInfo,
    getRuntimeMapItem: RType -> MapItemInfo,
    typeKey: (RType, RType, InheritanceAttr) -> string)

  datatype Env = Env(lookup: VersionLookup, collab: Collaborators)

  datatype SerializeError =
    | UnwritableStream
    | UnsupportedSubType(baseType: RType, actualType: RType)
    /** `Dictionary.Add` on a key already present. */
    | DuplicateKey
    /** A member read on the version info a failed `TryGetValue` leaves behind. */
    | NullVersionInfo

  /** The serializer's state: what has been written, the four session caches, the target versions and the endianness flag. */
  datatype Session = Session(
    output: seq<Token>,
    objectVersions: map<MapItem, ObjectVersionInfo>,
    converterVersions: map<MapItem, ConverterVersionInfo>,
    savedAssemblies: map<string, int>,
    savedTypes: map<RType, int>,
    targetVersions: Option<map<RType, nat>>,
    shouldReverseEndian: bool)

  datatype Outcome<T> = Done(value: T, session: Session) | Threw(error: SerializeError, session: Session)

  function SessionOf<T>(r: Outcome<T>): Session {
    match r
    case Done(_, s) => s
    case Threw(_, s) => s
  }

  function Emit(s: Session, tokens: seq<Token>): Session {
    s.(output := s.output + tokens)
  }

  /** `Reset`: the four session caches emptied, nothing else touched. */
  function Reset(s: Session): (r: Session)
    ensures r.objectVersions == map[] && r.converterVersions == map[] && r.savedAssemblies == map[] && r.savedTypes == map[]
    ensures r.output == s.output && r.targetVersions == s.targetVersions && r.shouldReverseEndian == s.shouldReverseEndian
  {
    s.(objectVersions := map[], converterVersions := map[], savedAssemblies := map[], savedTypes := map[])
  }

  /**
   * How a session may change while items are written: output is only
   * appended, a cached version info is never replaced, and nothing else
   * changes.
   */
  ghost predicate Succeeds(s: Session, r: Session) {
    && s.output <= r.output
    && (forall k :: k in s.converterVersions ==> k in r.converterVersions && r.converterVersions[k] == s.converterVersions[k])
    && (forall k :: k in s.objectVersions ==> k in r.objectVersions && r.objectVersions[k] == s.objectVersions[k])
    && r.savedAssemblies == s.savedAssemblies && r.savedTypes == s.savedTypes
    && r.targetVersions == s.targetVersions && r.shouldReverseEndian == s.shouldReverseEndian
  }

  lemma SucceedsTransitive(a: Session, b: Session, c: Session)
    requires Succeeds(a, b) && Succeeds(b, c)
    ensures Succeeds(a, c)
  {
    assert c.output[..|a.output|] == b.output[..|a.output|];
  }

  /** A member accessor's getter: the field it reads, or null for a field the object does not have. */
  function Getter(obj: Obj, m: Member): (r: Obj)
    requires obj.Inst?
    ensures r.Null? || r < obj
  {
    if m.field < |obj.fields| then obj.fields[m.field] else Null
  }

  /** `WriteHeaderNullAndInheritance`: nothing for a value item type; otherwise an on bit and whether the actual type is the item's. */
  function WriteHeaderNullAndInheritance(s: Session, actualType: RType, item: MapItem): (bool, Session)
    requires !item.RuntimeMapItem?
  {
    if item.isValueItemType then (true, s)
    else
      var sameType := item.itemType == actualType;
      (sameType, Emit(s, [Bit(true), Bit(sameType)]))
  }

  /** The version `WriteNewVersionInfo` writes: the item type's target version if there is one, else the highest. */
  function TargetVersion(s: Session, item: MapItem): nat
    requires !item.RuntimeMapItem?
  {
    if s.targetVersions.Some? && item.itemType in s.targetVersions.value then s.targetVersions.value[item.itemType]
    else item.highestVersion
  }

  function WriteNewVersionInfo(s: Session, item: MapItem): (nat, Session)
    requires !item.RuntimeMapItem?
  {
    var v := TargetVersion(s, item);
    (v, Emit(s, [Compressed(v)]))
  }

  /**
   * The version step of `SerializeConverterItem`. As written, a cache hit
   * writes a new version and then fails to add the duplicate key, and a
   * miss leaves no version info to read. Corrected, a hit reuses the cached
   * info and a miss writes the version and caches the new info.
   */
  function ConverterVersion(env: Env, s: Session, ctx: MapItem): (r: Outcome<ConverterVersionInfo>)
    requires ctx.ConverterContext?
    ensures Succeeds(s, SessionOf(r))
  {
    match env.lookup
    case AsWritten =>
      if ctx in s.converterVersions then Threw(DuplicateKey, WriteNewVersionInfo(s, ctx).1)
      else Threw(NullVersionInfo, s)
    case Corrected =>
      if ctx in s.converterVersions then Done(s.converterVersions[ctx], s)
      else
        var (version, s1) := WriteNewVersionInfo(s, ctx);
        var info := env.collab.createFromContext(version, ctx);
        Done(info, s1.(converterVersions := s1.converterVersions[ctx := info]))
  }

  /** The version step of `SerializeObjectItem`, on the object version cache. */
  function ObjectVersion(env: Env, s: Session, item: MapItem): (r: Outcome<ObjectVersionInfo>)
    requires item.ObjectMapItem?
    ensures Succeeds(s, SessionOf(r))
  {
    match env.lookup
    case AsWritten =>
      if item in s.objectVersions then Threw(DuplicateKey, WriteNewVersionInfo(s, item).1)
      else Threw(NullVersionInfo, s)
    case Corrected =>
      if item in s.objectVersions then Done(s.objectVersions[item], s)
      else
        var (version, s1) := WriteNewVersionInfo(s, item);
        var info := env.collab.getVersionOrAddNull(version, item);
        Done(info, s1.(objectVersions := s1.objectVersions[item := info]))
  }

  /** `TryWriteListInheritance`: the actual type's slot when the index cache has one. */
  function TryWriteListInheritance(attr: InheritanceAttr, actualType: RType, s: Session): (bool, Session) {
    if actualType in attr.indexCache then (true, Emit(s, [Compressed(attr.indexCache[actualType])]))
    else (false, s)
  }

  /** `WriteKeyInheritance`: the subtype's string key. */
  function WriteKeyInheritance(env: Env, attr: InheritanceAttr, baseType: RType, actualType: RType, s: Session): Session {
    Emit(s, [Str(env.collab.typeKey(baseType, actualType, attr))])
  }

  /** Ranks that order the mutually recursive writers: a skipped header sits below the inheritance dispatch, which sits below a written header. */
  function HeaderRank(skipHeader: bool): nat {
    if skipHeader then 1 else 3
  }

  function NullRank(obj: Obj): nat {
    if obj.Null? then 0 else 1
  }

  /** `SerializeItem(obj, item)`: the byte 0 for null, else the item behind a fresh header. */
  function SerializeItem(env: Env, obj: Obj, info: MapItemInfo, s: Session): (r: Outcome<()>)
    ensures Succeeds(s, SessionOf(r))
    decreases NullRank(obj), obj, 4, 2
  {
    if obj.Null? then Done((), Emit(s, [Byte(0)]))
    else SerializePossibleNullableItem(env, obj, info, s)
  }

  /** `SerializeItem(obj, item, ref header)`: an off bit and the header applied for null. */
  function SerializeItemInHeader(env: Env, obj: Obj, info: MapItemInfo, s: Session): (r: Outcome<()>)
    ensures Succeeds(s, SessionOf(r))
    decreases NullRank(obj), obj, 4, 2
  {
    if obj.Null? then Done((), Emit(s, [Bit(false), AlignToByte]))
    else SerializePossibleNullableItem(env, obj, info, s)
  }

  function SerializeExactNonNullItem(env: Env, obj: Obj, info: MapItemInfo, s: Session): (r: Outcome<()>)
    requires obj.Inst?
    ensures Succeeds(s, SessionOf(r))
    decreases 1, obj, 4, 2
  {
    SerializeItemNoSetup(env, obj, info, true, s)
  }

  /** `SerializePossibleNullableItem`: at a nullable site an on bit, which then stands for the header. */
  function SerializePossibleNullableItem(env: Env, obj: Obj, info: MapItemInfo, s: Session): (r: Outcome<()>)
    requires obj.Inst?
    ensures Succeeds(s, SessionOf(r))
    decreases 1, obj, 4, 1
  {
    var s1 := if info.isNullable then Emit(s, [Bit(true)]) else s;
    var r := SerializeItemNoSetup(env, obj, info, info.isNullable, s1);
    SucceedsTransitive(s, s1, SessionOf(r));
    r
  }

  /** `SerializeItemNoSetup`: dispatch on the kind of map item; a runtime item stands for its inner item. */
  function SerializeItemNoSetup(env: Env, obj: Obj, info: MapItemInfo, skipHeader: bool, s: Session): (r: Outcome<()>)
    requires obj.Inst?
    ensures Succeeds(s, SessionOf(r))
    decreases 1, obj, HeaderRank(skipHeader), 3, info.item
  {
    match info.item
    case ConverterContext(_, _, _, _) => SerializeConverterItem(env, obj, info.item, skipHeader, s)
    case ObjectMapItem(_, _, _) => SerializeObjectItem(env, obj, info.item, skipHeader, s)
    case RuntimeMapItem(inner) => SerializeItemNoSetup(env, obj, MapItemInfo(inner, info.isNullable), skipHeader, s)
  }

  /**
   * `SerializeConverterItem`: the header bits unless skipped, the version
   * step, then the inheritance dispatch for a differing actual type, or the
   * header applied (unless the converter uses it) and the payload.
   */
  function SerializeConverterItem(env: Env, obj: Obj, ctx: MapItem, skipHeader: bool, s: Session): (r: Outcome<()>)
    requires obj.Inst? && ctx.ConverterContext?
    ensures Succeeds(s, SessionOf(r))
    decreases 1, obj, HeaderRank(skipHeader), 2, ctx
  {
    var header := WriteHeaderNullAndInheritance(s, obj.actual, ctx);
    var sameType := if skipHeader then true else header.0;
    var s1 := if skipHeader then s else header.1;
    match ConverterVersion(env, s1, ctx)
    case Threw(e, s2) => SucceedsTransitive(s, s1, s2); Threw(e, s2)
    case Done(info, s2) =>
      SucceedsTransitive(s, s1, s2);
      if info.inheritance.Some? && !sameType then
        var r := SerializeActualType(env, obj, info.inheritance.value, ctx.itemType, obj.actual, s2);
        SucceedsTransitive(s, s2, SessionOf(r));
        r
      else
        var s3 := if !info.usesHeader then Emit(s2, [AlignToByte]) else s2;
        var s4 := Emit(s3, [Payload(ByConverter(ctx.converter), obj)]);
        SucceedsTransitive(s, s2, s3);
        SucceedsTransitive(s, s3, s4);
        Done((), s4)
  }

  /** `SerializeObjectItem`: as for a converter, then the members instead of a payload. */
  function SerializeObjectItem(env: Env, obj: Obj, item: MapItem, skipHeader: bool, s: Session): (r: Outcome<()>)
    requires obj.Inst? && item.ObjectMapItem?
    ensures Succeeds(s, SessionOf(r))
    decreases 1, obj, HeaderRank(skipHeader), 2, item
  {
    var header := WriteHeaderNullAndInheritance(s, obj.actual, item);
    var sameType := if skipHeader then true else header.0;
    var s1 := if skipHeader then s else header.1;
    match ObjectVersion(env, s1, item)
    case Threw(e, s2) => SucceedsTransitive(s, s1, s2); Threw(e, s2)
    case Done(info, s2) =>
      SucceedsTransitive(s, s1, s2);
      var r := if info.inheritance.Some? && !sameType then SerializeActualType(env, obj, info.inheritance.value, item.itemType, obj.actual, s2)
               else SerializeFromMembers(env, obj, info.members, 0, s2);
      SucceedsTransitive(s, s2, SessionOf(r));
      r
  }

  /** `SerializeFromMembers` from index `i` on: each member's value through `SerializeItem`, in array order. */
  function SerializeFromMembers(env: Env, obj: Obj, members: seq<Member>, i: nat, s: Session): (r: Outcome<()>)
    requires obj.Inst? && i <= |members|
    ensures Succeeds(s, SessionOf(r))
    decreases 1, obj, 0, |members| - i
  {
    if i == |members| then Done((), s)
    else
      match SerializeItem(env, Getter(obj, members[i]), members[i].mapInfo, s)
      case Threw(e, s1) => Threw(e, s1)
      case Done(_, s1) =>
        var r := SerializeFromMembers(env, obj, members, i + 1, s1);
        SucceedsTransitive(s, s1, SessionOf(r));
        r
  }

  /**
   * `SerializeActualType`: the subtype discriminator for the mode (in
   * IndexOrKey the on bit follows the slot), then the item through the
   * actual type's runtime map item with the header skipped.
   */
  function SerializeActualType(env: Env, obj: Obj, attr: InheritanceAttr, baseType: RType, actualType: RType, s: Session): (r: Outcome<()>)
    requires obj.Inst?
    ensures Succeeds(s, SessionOf(r))
    decreases 1, obj, 2
  {
    var listed := TryWriteListInheritance(attr, actualType, s);
    var dispatched: Outcome<()> :=
      match attr.mode
      case Index =>
        if listed.0 then Done((), listed.1) else Threw(UnsupportedSubType(baseType, actualType), s)
      case Key => Done((), WriteKeyInheritance(env, attr, baseType, actualType, s))
      case IndexOrKey =>
        if listed.0 then Done((), Emit(listed.1, [Bit(true)]))
        else Done((), WriteKeyInheritance(env, attr, baseType, actualType, Emit(s, [Bit(false)])));
    assert Succeeds(s, SessionOf(dispatched)) by {
      if attr.mode == IndexOrKey && listed.0 {
        SucceedsTransitive(s, listed.1, Emit(listed.1, [Bit(true)]));
      } else if attr.mode == IndexOrKey {
        SucceedsTransitive(s, Emit(s, [Bit(false)]), SessionOf(dispatched));
      }
    }
    match dispatched
    case Threw(e, s1) => Threw(e, s1)
    case Done(_, s1) =>
      var r := SerializeItemNoSetup(env, obj, env.collab.getRuntimeMapItem(actualType), true, s1);
      SucceedsTransitive(s, s1, SessionOf(r));
      r
  }

  // ---------------------------------------------------------------- properties

  /** A null item without a header is the single byte 0; with a header, an off bit and the header applied. */
  lemma NullItemLayout(env: Env, info: MapItemInfo, s: Session)
    ensures SerializeItem(env, Null, info, s) == Done((), Emit(s, [Byte(0)]))
    ensures SerializeItemInHeader(env, Null, info, s) == Done((), Emit(s, [Bit(false), AlignToByte]))
  {
  }

  /**
   * A non-null item in either overload: at a nullable site an on bit, and
   * the item then skips its own header; elsewhere nothing in front.
   */
  lemma PresenceBit(env: Env, obj: Obj, info: MapItemInfo, s: Session)
    requires obj.Inst?
    ensures info.isNullable ==>
      && SerializeItem(env, obj, info, s) == SerializeItemNoSetup(env, obj, info, true, Emit(s, [Bit(true)]))
      && SerializeItemInHeader(env, obj, info, s) == SerializeItemNoSetup(env, obj, info, true, Emit(s, [Bit(true)]))
    ensures !info.isNullable ==>
      && SerializeItem(env, obj, info, s) == SerializeItemNoSetup(env, obj, info, false, s)
      && SerializeItemInHeader(env, obj, info, s) == SerializeItemNoSetup(env, obj, info, false, s)
  {
  }

  /**
   * The ordinary converter path with the corrected version cache: the
   * version step always succeeds, and without an inheritance dispatch the
   * header is applied unless the converter uses it, then the payload follows.
   */
  lemma OrdinaryConverterItemLayout(env: Env, obj: Obj, ctx: MapItem, skipHeader: bool, s: Session)
    requires obj.Inst? && ctx.ConverterContext? && env.lookup == Corrected
    ensures var header := WriteHeaderNullAndInheritance(s, obj.actual, ctx);
      var s1 := if skipHeader then s else header.1;
      var v := ConverterVersion(env, s1, ctx);
      && v.Done?
      && (v.value.inheritance.None? || skipHeader || header.0 ==>
            SerializeConverterItem(env, obj, ctx, skipHeader, s)
            == Done((), Emit(SessionOf(v), (if !v.value.usesHeader then [AlignToByte] else []) + [Payload(ByConverter(ctx.converter), obj)])))
  {
  }

  /** The header bits: none for a value item type (same type assumed); otherwise an on bit then `declared == actual`, which is returned. */
  lemma HeaderNullAndInheritanceBits(s: Session, actualType: RType, item: MapItem)
    requires !item.RuntimeMapItem?
    ensures item.isValueItemType ==> WriteHeaderNullAndInheritance(s, actualType, item) == (true, s)
    ensures !item.isValueItemType ==>
      WriteHeaderNullAndInheritance(s, actualType, item) == (item.itemType == actualType, Emit(s, [Bit(true), Bit(item.itemType == actualType)]))
  {
  }

  /** The version written is the item type's target version when there is one, else the item's highest version. */
  lemma NewVersionChoice(s: Session, item: MapItem)
    requires !item.RuntimeMapItem?
    ensures WriteNewVersionInfo(s, item).1.output == s.output + [Compressed(WriteNewVersionInfo(s, item).0)]
    ensures s.targetVersions.Some? && item.itemType in s.targetVersions.value ==>
      WriteNewVersionInfo(s, item).0 == s.targetVersions.value[item.itemType]
    ensures s.targetVersions.None? || item.itemType !in s.targetVersions.value ==>
      WriteNewVersionInfo(s, item).0 == item.highestVersion
  {
  }

  /** Index mode with no slot for the actual type fails before writing anything. */
  lemma IndexModeUnknownSubtypeThrows(env: Env, obj: Obj, attr: InheritanceAttr, baseType: RType, actualType: RType, s: Session)
    requires obj.Inst? && attr.mode == Index && actualType !in attr.indexCache
    ensures SerializeActualType(env, obj, attr, baseType, actualType, s) == Threw(UnsupportedSubType(baseType, actualType), s)
  {
  }

  /**
   * The IndexOrKey discriminator: the slot and then an on bit when the
   * index cache has the actual type, else an off bit and the string key;
   * either way followed by the actual type with its header skipped.
   */
  lemma IndexOrKeyLayout(env: Env, obj: Obj, attr: InheritanceAttr, baseType: RType, actualType: RType, s: Session)
    requires obj.Inst? && attr.mode == IndexOrKey
    ensures var rest := env.collab.getRuntimeMapItem(actualType);
      && (actualType in attr.indexCache ==>
            SerializeActualType(env, obj, attr, baseType, actualType, s)
            == SerializeItemNoSetup(env, obj, rest, true, Emit(s, [Compressed(attr.indexCache[actualType]), Bit(true)])))
      && (actualType !in attr.indexCache ==>
            SerializeActualType(env, obj, attr, baseType, actualType, s)
            == SerializeItemNoSetup(env, obj, rest, true, Emit(s, [Bit(false), Str(env.collab.typeKey(baseType, actualType, attr))])))
  {
    var rest := env.collab.getRuntimeMapItem(actualType);
    if actualType in attr.indexCache {
      assert Emit(Emit(s, [Compressed(attr.indexCache[actualType])]), [Bit(true)])
          == Emit(s, [Compressed(attr.indexCache[actualType]), Bit(true)]);
    } else {
      assert WriteKeyInheritance(env, attr, baseType, actualType, Emit(s, [Bit(false)]))
          == Emit(s, [Bit(false), Str(env.collab.typeKey(baseType, actualType, attr))]);
    }
  }

  /** Serialising the members `a + b` is serialising `a`, then `b` from where `a` left off; an exception in `a` ends it. */
  lemma {:induction false} MembersInArrayOrder(env: Env, obj: Obj, a: seq<Member>, b: seq<Member>, i: nat, s: Session)
    requires obj.Inst? && i <= |a|
    ensures SerializeFromMembers(env, obj, a + b, i, s) ==
      match SerializeFromMembers(env, obj, a, i, s)
      case Threw(e, s1) => Threw(e, s1)
      case Done(_, s1) => SerializeFromMembers(env, obj, b, 0, s1)
    decreases |a| - i
  {
    if i == |a| {
      MembersShift(env, obj, a, b, 0, s);
    } else {
      assert (a + b)[i] == a[i];
      match SerializeItem(env, Getter(obj, a[i]), a[i].mapInfo, s)
      case Threw(e, s1) =>
      case Done(_, s1) => MembersInArrayOrder(env, obj, a, b, i + 1, s1);
    }
  }

  /** The members after a prefix `a` are the members of `b`. */
  lemma {:induction false} MembersShift(env: Env, obj: Obj, a: seq<Member>, b: seq<Member>, j: nat, s: Session)
    requires obj.Inst? && j <= |b|
    ensures SerializeFromMembers(env, obj, a + b, |a| + j, s) == SerializeFromMembers(env, obj, b, j, s)
    decreases |b| - j
  {
    if j < |b| {
      assert (a + b)[|a| + j] == b[j];
      match SerializeItem(env, Getter(obj, b[j]), b[j].mapInfo, s)
      case Threw(e, s1) =>
      case Done(_, s1) => MembersShift(env, obj, a, b, j + 1, s1);
    }
  }

  /** The session's version caches are empty. */
  ghost predicate NoVersionsCached(s: Session) {
    s.converterVersions == map[] && s.objectVersions == map[]
  }

  /**
   * As written, the version caches never fill: from a reset session every
   * non-null item, whatever its map item, ends in an exception on the
   * missing version info, and the caches stay empty.
   */
  lemma {:induction false} AsWrittenNonNullItemAlwaysThrows(env: Env, obj: Obj, info: MapItemInfo, skipHeader: bool, s: Session)
    requires env.lookup == AsWritten && obj.Inst? && NoVersionsCached(s)
    ensures var r := SerializeItemNoSetup(env, obj, info, skipHeader, s);
      r == Threw(NullVersionInfo, SessionOf(r)) && NoVersionsCached(SessionOf(r))
    decreases info.item
  {
    match info.item
    case ConverterContext(_, _, _, _) =>
    case ObjectMapItem(_, _, _) =>
    case RuntimeMapItem(inner) =>
      AsWrittenNonNullItemAlwaysThrows(env, obj, MapItemInfo(inner, info.isNullable), skipHeader, s);
  }

  /** As written, a cache hit writes a second version number and then fails adding the duplicate key. */
  lemma AsWrittenHitWritesVersionAgain(env: Env, s: Session, ctx: MapItem)
    requires env.lookup == AsWritten && ctx.ConverterContext? && ctx in s.converterVersions
    ensures ConverterVersion(env, s, ctx) == Threw(DuplicateKey, Emit(s, [Compressed(TargetVersion(s, ctx))]))
  {
  }

  /**
   * Corrected, the version is written once per item per session: the first
   * step writes exactly the version number and caches the info built for
   * it, and every later step writes nothing and returns that info.
   */
  lemma CorrectedVersionWrittenOnce(env: Env, s: Session, ctx: MapItem)
    requires env.lookup == Corrected && ctx.ConverterContext?
    ensures ctx !in s.converterVersions ==>
      var v := TargetVersion(s, ctx);
      && ConverterVersion(env, s, ctx).Done?
      && ConverterVersion(env, s, ctx).value == env.collab.createFromContext(v, ctx)
      && SessionOf(ConverterVersion(env, s, ctx)).output == s.output + [Compressed(v)]
    ensures var s1 := SessionOf(ConverterVersion(env, s, ctx));
      ConverterVersion(env, s1, ctx) == Done(s1.converterVersions[ctx], s1)
  {
  }

  /** The same for object items and their version cache. */
  lemma CorrectedObjectVersionWrittenOnce(env: Env, s: Session, item: MapItem)
    requires env.lookup == Corrected && item.ObjectMapItem?
    ensures item !in s.objectVersions ==>
      var v := TargetVersion(s, item);
      && ObjectVersion(env, s, item).Done?
      && ObjectVersion(env, s, item).value == env.collab.getVersionOrAddNull(v, item)
      && SessionOf(ObjectVersion(env, s, item)).output == s.output + [Compressed(v)]
    ensures var s1 := SessionOf(ObjectVersion(env, s, item));
      ObjectVersion(env, s1, item) == Done(s1.objectVersions[item], s1)
  {
  }

  /**
   * Corrected, once a converter's version is cached, writing another of its
   * items anywhere later in the session writes no version number: the item
   * starts with its header bits and goes straight on.
   */
  lemma CorrectedLaterItemsWriteNoVersion(env: Env, obj: Obj, ctx: MapItem, s: Session, later: Session)
    requires env.lookup == Corrected && obj.Inst? && ctx.ConverterContext?
    requires ctx in s.converterVersions && Succeeds(s, later)
    ensures ConverterVersion(env, later, ctx) == Done(s.converterVersions[ctx], later)
  {
  }
}

/** The serializer object, proved against the functions of `LegacySerialization`. */
module LegacyWriting {
  import opened Wire
  import opened LegacySerialization
  import Spec = LegacySerialization

  /** The method's result and the object's state are what the specification gives. */
  predicate Reflects<T(==)>(value: T, error: Option<SerializeError>, spec: Outcome<T>, now: Session) {
    && now == SessionOf(spec)
    && (spec.Done? ==> error.None? && value == spec.value)
    && (spec.Threw? ==> error == Some(spec.error))
  }

  class ABSaveSerializer {
    var output: seq<Token>
    var objectVersions: map<MapItem, ObjectVersionInfo>
    var converterVersions: map<MapItem, ConverterVersionInfo>
    var savedAssemblies: map<string, int>
    var savedTypes: map<RType, int>
    var targetVersions: Option<map<RType, nat>>
    var shouldReverseEndian: bool
    const env: Env

    function View(): Session
      reads this
    {
      Session(output, objectVersions, converterVersions, savedAssemblies, savedTypes, targetVersions, shouldReverseEndian)
    }

    constructor (env: Env)
      ensures View() == Session([], map[], map[], map[], map[], None, false) && this.env == env
    {
      output := [];
      objectVersions := map[];
      converterVersions := map[];
      savedAssemblies := map[];
      savedTypes := map[];
      targetVersions := None;
      shouldReverseEndian := false;
      this.env := env;
    }

    /**
     * `Initialize`: an unwritable stream is refused before any state is
     * touched; otherwise the new stream (nothing written yet), the target
     * versions, the endianness flag and a reset session.
     */
    method Initialize(canWrite: bool, useLittleEndian: bool, hostIsLittleEndian: bool, targetVersions: Option<map<RType, nat>>)
      returns (error: Option<SerializeError>)
      modifies this
      ensures !canWrite ==> error == Some(UnwritableStream) && View() == old(View())
      ensures canWrite ==>
        && error.None?
        && View() == Spec.Reset(Session([], old(objectVersions), old(converterVersions), old(savedAssemblies), old(savedTypes),
                                        targetVersions, useLittleEndian != hostIsLittleEndian))
    {
      if !canWrite {
        return Some(UnwritableStream);
      }
      output := [];
      this.targetVersions := targetVersions;
      shouldReverseEndian := useLittleEndian != hostIsLittleEndian;
      Reset();
      return None;
    }

    method Reset()
      modifies this
      ensures View() == Spec.Reset(old(View()))
    {
      savedAssemblies := map[];
      savedTypes := map[];
      objectVersions := map[];
      converterVersions := map[];
    }

    method SerializeItem(obj: Obj, info: MapItemInfo) returns (error: Option<SerializeError>)
      modifies this
      ensures Reflects((), error, Spec.SerializeItem(env, obj, info, old(View())), View())
      decreases NullRank(obj), obj, 4, 2
    {
      if obj.Null? {
        output := output + [Byte(0)];
        return None;
      }
      error := SerializePossibleNullableItem(obj, info);
    }

    method SerializeItemInHeader(obj: Obj, info: MapItemInfo) returns (error: Option<SerializeError>)
      modifies this
      ensures Reflects((), error, Spec.SerializeItemInHeader(env, obj, info, old(View())), View())
      decreases NullRank(obj), obj, 4, 2
    {
      if obj.Null? {
        output := output + [Bit(false)];
        output := output + [AlignToByte];
        return None;
      }
      error := SerializePossibleNullableItem(obj, info);
    }

    method SerializeExactNonNullItem(obj: Obj, info: MapItemInfo) returns (error: Option<SerializeError>)
      requires obj.Inst?
      modifies this
      ensures Reflects((), error, Spec.SerializeExactNonNullItem(env, obj, info, old(View())), View())
      decreases 1, obj, 4, 2
    {
      error := SerializeItemNoSetup(obj, info, true);
    }

    method SerializePossibleNullableItem(obj: Obj, info: MapItemInfo) returns (error: Option<SerializeError>)
      requires obj.Inst?
      modifies this
      ensures Reflects((), error, Spec.SerializePossibleNullableItem(env, obj, info, old(View())), View())
      decreases 1, obj, 4, 1
    {
      if info.isNullable {
        output := output + [Bit(true)];
      }
      error := SerializeItemNoSetup(obj, info, info.isNullable);
    }

    method SerializeItemNoSetup(obj: Obj, info: MapItemInfo, skipHeader: bool) returns (error: Option<SerializeError>)
      requires obj.Inst?
      modifies this
      ensures Reflects((), error, Spec.SerializeItemNoSetup(env, obj, info, skipHeader, old(View())), View())
      decreases 1, obj, HeaderRank(skipHeader), 3, info.item
    {
      match info.item {
        case ConverterContext(_, _, _, _) =>
          error := SerializeConverterItem(obj, info.item, skipHeader);
        case ObjectMapItem(_, _, _) =>
          error := SerializeObjectItem(obj, info.item, skipHeader);
        case RuntimeMapItem(inner) =>
          error := SerializeItemNoSetup(obj, MapItemInfo(inner, info.isNullable), skipHeader);
      }
    }

    method SerializeConverterItem(obj: Obj, ctx: MapItem, skipHeader: bool) returns (error: Option<SerializeError>)
      requires obj.Inst? && ctx.ConverterContext?
      modifies this
      ensures Reflects((), error, Spec.SerializeConverterItem(env, obj, ctx, skipHeader, old(View())), View())
      decreases 1, obj, HeaderRank(skipHeader), 2, ctx
    {
      var actualType := obj.actual;
      var sameType := true;
      if !skipHeader {
        sameType := WriteHeaderNullAndInheritance(actualType, ctx);
      }
      var info: ConverterVersionInfo;
      match env.lookup {
        case AsWritten =>
          if ctx in converterVersions {
            var version := WriteNewVersionInfo(ctx);
            return Some(DuplicateKey);
          }
          return Some(NullVersionInfo);
        case Corrected =>
          if ctx in converterVersions {
            info := converterVersions[ctx];
          } else {
            var version := WriteNewVersionInfo(ctx);
            info := env.collab.createFromContext(version, ctx);
            converterVersions := converterVersions[ctx := info];
          }
      }
      if info.inheritance.Some? && !sameType {
        error := SerializeActualType(obj, info.inheritance.value, ctx.itemType, actualType);
        return;
      }
      if !info.usesHeader {
        output := output + [AlignToByte];
      }
      output := output + [Payload(ByConverter(ctx.converter), obj)];
      return None;
    }

    method SerializeObjectItem(obj: Obj, item: MapItem, skipHeader: bool) returns (error: Option<SerializeError>)
      requires obj.Inst? && item.ObjectMapItem?
      modifies this
      ensures Reflects((), error, Spec.SerializeObjectItem(env, obj, item, skipHeader, old(View())), View())
      decreases 1, obj, HeaderRank(skipHeader), 2, item
    {
      var actualType := obj.actual;
      var sameType := true;
      if !skipHeader {
        sameType := WriteHeaderNullAndInheritance(actualType, item);
      }
      var info: ObjectVersionInfo;
      match env.lookup {
        case AsWritten =>
          if item in objectVersions {
            var version := WriteNewVersionInfo(item);
            return Some(DuplicateKey);
          }
          return Some(NullVersionInfo);
        case Corrected =>
          if item in objectVersions {
            info := objectVersions[item];
          } else {
            var version := WriteNewVersionInfo(item);
            info := env.collab.getVersionOrAddNull(version, item);
            objectVersions := objectVersions[item := info];
          }
      }
      if info.inheritance.Some? && !sameType {
        error := SerializeActualType(obj, info.inheritance.value, item.itemType, actualType);
        return;
      }
      error := SerializeFromMembers(obj, info.members);
    }

    /** `SerializeFromMembers`: the index loop over the members, stopping at the first exception. */
    method SerializeFromMembers(obj: Obj, members: seq<Member>) returns (error: Option<SerializeError>)
      requires obj.Inst?
      modifies this
      ensures Reflects((), error, Spec.SerializeFromMembers(env, obj, members, 0, old(View())), View())
      decreases 1, obj, 0, |members|
    {
      ghost var start := View();
      var i := 0;
      while i < |members|
        invariant 0 <= i <= |members|
        invariant Spec.SerializeFromMembers(env, obj, members, 0, start) == Spec.SerializeFromMembers(env, obj, members, i, View())
        decreases |members| - i
      {
        error := SerializeItem(Getter(obj, members[i]), members[i].mapInfo);
        if error.Some? {
          return;
        }
        i := i + 1;
      }
      return None;
    }

    method WriteHeaderNullAndInheritance(actualType: RType, item: MapItem) returns (sameType: bool)
      requires !item.RuntimeMapItem?
      modifies this
      ensures (sameType, View()) == Spec.WriteHeaderNullAndInheritance(old(View()), actualType, item)
    {
      if item.isValueItemType {
        return true;
      }
      output := output + [Bit(true)];
      sameType := item.itemType == actualType;
      output := output + [Bit(sameType)];
      assert output == old(output) + [Bit(true), Bit(sameType)];
    }

    method WriteNewVersionInfo(item: MapItem) returns (targetVersion: nat)
      requires !item.RuntimeMapItem?
      modifies this
      ensures (targetVersion, View()) == Spec.WriteNewVersionInfo(old(View()), item)
    {
      if targetVersions.Some? && item.itemType in targetVersions.value {
        targetVersion := targetVersions.value[item.itemType];
      } else {
        targetVersion := item.highestVersion;
      }
      output := output + [Compressed(targetVersion)];
    }

    method SerializeActualType(obj: Obj, attr: InheritanceAttr, baseType: RType, actualType: RType) returns (error: Option<SerializeError>)
      requires obj.Inst?
      modifies this
      ensures Reflects((), error, Spec.SerializeActualType(env, obj, attr, baseType, actualType, old(View())), View())
      decreases 1, obj, 2
    {
      match attr.mode {
        case Index =>
          var listed := TryWriteListInheritance(attr, actualType);
          if !listed {
            return Some(UnsupportedSubType(baseType, actualType));
          }
        case Key =>
          WriteKeyInheritance(attr, baseType, actualType);
        case IndexOrKey =>
          var listed := TryWriteListInheritance(attr, actualType);
          if listed {
            output := output + [Bit(true)];
          } else {
            output := output + [Bit(false)];
            WriteKeyInheritance(attr, baseType, actualType);
          }
      }
      error := SerializeItemNoSetup(obj, env.collab.getRuntimeMapItem(actualType), true);
    }

    method TryWriteListInheritance(attr: InheritanceAttr, actualType: RType) returns (listed: bool)
      modifies this
      ensures (listed, View()) == Spec.TryWriteListInheritance(attr, actualType, old(View()))
    {
      if actualType in attr.indexCache {
        output := output + [Compressed(attr.indexCache[actualType])];
        return true;
      }
      return false;
    }

    method WriteKeyInheritance(attr: InheritanceAttr, baseType: RType, actualType: RType)
      modifies this
      ensures View() == Spec.WriteKeyInheritance(env, attr, baseType, actualType, old(View()))
    {
      var key := env.collab.typeKey(baseType, actualType, attr);
      output := output + [Str(key)];
    }
  }
}
