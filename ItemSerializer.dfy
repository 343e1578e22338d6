/**
 * The per-item header writer of the newer generation
 * (ABCo.ABSave/Serialization/Writing/Core/ItemSerializer.cs): presence bit,
 * non-null and same-type bits, the version number once per converter per
 * session, then either the inheritance dispatch to the actual type's
 * converter or the converter's own payload.
 *
 * The header's bits and the payload are appended to one token sequence;
 * the session's per-converter cache (`CachedConverterDetails`) is a map
 * held by the session object.
 */
module ItemSerialization {
  import opened Wire

  /** A converter as the header writer sees it. */
  datatype Converter = Converter(id: nat, itemType: RType, isValueItemType: bool, highestVersion: nat)

  /** The version info cached per converter: the version, the inheritance attribute for it, and whether the converter uses the header bits itself. */
  datatype VersionInfo = VersionInfo(version: nat, inheritance: Option<InheritanceAttr>, usesHeader: bool)

  datatype MapItemInfo = MapItemInfo(converter: Converter, isNullable: bool)

  /** `CachedConverterDetails`: no version info yet and no key cache number (-1) until set. */
  datatype CachedDetails = CachedDetails(currentInfo: Option<VersionInfo>, keyInheritanceCachedValue: int)

  const NewDetails: CachedDetails := CachedDetails(None, -1)

  datatype Settings = Settings(includeVersioning: bool, targetVersions: Option<map<RType, nat>>)

  /**
   * What the session and the map provide and this file does not define:
   * `CreateNewCache`, `GetRuntimeMapItem` and `KeyInheritanceHandler.GetOrAddTypeKeyFromCache`.
   */
  datatype Collaborators = Collaborators(
    createNewCache: (Converter, nat) -> VersionInfo,
    getRuntimeMapItem: RType -> MapItemInfo,
    typeKey: (RType, RType, InheritanceAttr) -> string)

  datatype SerializeError = UnsupportedSubType(baseType: RType, actualType: RType)

  /** The session: output so far, the per-converter details and the next key cache number. */
  datatype Session = Session(output: seq<Token>, details: map<Converter, CachedDetails>, keyCacheCount: nat)

  datatype Outcome<T> = Done(value: T, session: Session) | Threw(error: SerializeError, session: Session)

  function Emit(s: Session, tokens: seq<Token>): Session {
    s.(output := s.output + tokens)
  }

  /** `GetCachedDetails`: the converter's details, fresh ones the first time. */
  function DetailsOf(s: Session, c: Converter): CachedDetails {
    if c in s.details then s.details[c] else NewDetails
  }

  /**
   * How a session may change: output is only appended, version info once
   * set for a converter is never changed, and key cache numbers only grow.
   */
  ghost predicate Succeeds(s: Session, r: Session) {
    && s.output <= r.output
    && s.keyCacheCount <= r.keyCacheCount
    && forall c :: c in s.details && s.details[c].currentInfo.Some? ==>
         c in r.details && r.details[c].currentInfo == s.details[c].currentInfo
  }

  lemma SucceedsTransitive(a: Session, b: Session, c: Session)
    requires Succeeds(a, b) && Succeeds(b, c)
    ensures Succeeds(a, c)
  {
    assert c.output[..|a.output|] == b.output[..|a.output|];
  }

  function SessionOf<T>(r: Outcome<T>): Session {
    match r
    case Done(_, s) => s
    case Threw(_, s) => s
  }

  /** `WriteHeaderNullAndInheritance`: an on bit (not null), then whether the actual type is the converter's. */
  function WriteHeaderNullAndInheritance(s: Session, actualType: RType, c: Converter): (bool, Session) {
    var sameType := c.itemType == actualType;
    (sameType, Emit(s, [Bit(true), Bit(sameType)]))
  }

  /** The version `WriteNewVersionInfo` writes: the override for the item type if there is one, else the highest. */
  function TargetVersion(settings: Settings, c: Converter): nat {
    if settings.targetVersions.Some? && c.itemType in settings.targetVersions.value then settings.targetVersions.value[c.itemType]
    else c.highestVersion
  }

  function WriteNewVersionInfo(settings: Settings, s: Session, c: Converter): (nat, Session) {
    var v := TargetVersion(settings, c);
    (v, Emit(s, [Compressed(v)]))
  }

  /** `HandleVersionNumber`: writes and caches the version the first time, and reports whether it wrote. */
  function HandleVersionNumber(settings: Settings, collab: Collaborators, s: Session, c: Converter): (r: (bool, Session))
    ensures Succeeds(s, r.1) && r.1.keyCacheCount == s.keyCacheCount
    ensures DetailsOf(r.1, c).currentInfo.Some?
    ensures DetailsOf(r.1, c).keyInheritanceCachedValue == DetailsOf(s, c).keyInheritanceCachedValue
  {
    if DetailsOf(s, c).currentInfo.Some? then (false, s)
    else
      var (version, s1) := if settings.includeVersioning then WriteNewVersionInfo(settings, s, c) else (0, s);
      var info := collab.createNewCache(c, version);
      (settings.includeVersioning, s1.(details := s1.details[c := DetailsOf(s1, c).(currentInfo := Some(info))]))
  }

  /** `TryWriteListInheritance`: the actual type's slot, behind an on bit if asked, when the index cache has one. */
  function TryWriteListInheritance(attr: InheritanceAttr, actualType: RType, writeOnIfSuccessful: bool, s: Session): (bool, Session) {
    if actualType in attr.indexCache then
      var pos := attr.indexCache[actualType];
      (true, Emit(s, if writeOnIfSuccessful then [Bit(true), Compressed(pos)] else [Compressed(pos)]))
    else (false, s)
  }

  /** `AddNewKeyCacheNumber`: the converter gets the session's next key cache number. */
  function AddNewKeyCacheNumber(s: Session, c: Converter): Session {
    s.(details := s.details[c := DetailsOf(s, c).(keyInheritanceCachedValue := s.keyCacheCount)],
       keyCacheCount := s.keyCacheCount + 1)
  }

  /** The `(uint)` cast of a 32-bit cache number. */
  function AsUInt(n: int): nat {
    n % 0x1_0000_0000
  }

  /** `WriteKeyInheritance`: the cache number behind an on bit, or an off bit, the string key and a new cache number. */
  function WriteKeyInheritance(collab: Collaborators, attr: InheritanceAttr, cacheNum: int, c: Converter, actualConverter: Converter, s: Session): (r: Session)
    ensures Succeeds(s, r)
  {
    if cacheNum != -1 then Emit(s, [Bit(true), Compressed(AsUInt(cacheNum))])
    else
      var key := collab.typeKey(c.itemType, actualConverter.itemType, attr);
      AddNewKeyCacheNumber(Emit(s, [Bit(false), Str(key)]), c)
  }

  /** `SerializeActualType`: the subtype discriminator for the mode, then the item through the actual type's converter with the header skipped. */
  function SerializeActualType(settings: Settings, collab: Collaborators, attr: InheritanceAttr, cacheNum: int, obj: Obj,
                               actualType: RType, c: Converter, s: Session): (r: Outcome<()>)
    requires obj.Inst?
    ensures Succeeds(s, SessionOf(r))
    decreases 0, 5
  {
    var actual := collab.getRuntimeMapItem(actualType);
    var listed := TryWriteListInheritance(attr, actualType, attr.mode == IndexOrKey, s);
    var dispatched: Outcome<()> :=
      match attr.mode
      case Index =>
        if listed.0 then Done((), listed.1) else Threw(UnsupportedSubType(c.itemType, actualType), s)
      case Key => Done((), WriteKeyInheritance(collab, attr, cacheNum, c, actual.converter, s))
      case IndexOrKey =>
        if listed.0 then Done((), listed.1)
        else Done((), WriteKeyInheritance(collab, attr, cacheNum, c, actual.converter, Emit(s, [Bit(false)])));
    match dispatched
    case Threw(e, s1) => Threw(e, s1)
    case Done(_, s1) =>
      var r := SerializeItemNoSetup(settings, collab, obj, actual, true, s1);
      SucceedsTransitive(s, s1, SessionOf(r));
      r
  }

  /**
   * `SerializeConverterHeader`: the header bits unless skipped or a value
   * type, the version if not yet written, then either the inheritance
   * dispatch (no version info returned, so no payload follows) or the
   * version info, after aligning to the next byte when no header bit was
   * applied and the converter does not use the header.
   */
  function SerializeConverterHeader(settings: Settings, collab: Collaborators, obj: Obj, c: Converter, actualType: RType,
                                    skipHeader: bool, s: Session): (r: Outcome<Option<VersionInfo>>)
    requires obj.Inst?
    ensures Succeeds(s, SessionOf(r))
    decreases if skipHeader then 0 else 1, 2
  {
    var writesHeader := !c.isValueItemType && !skipHeader;
    var header := WriteHeaderNullAndInheritance(s, actualType, c);
    var sameType := if writesHeader then header.0 else true;
    var s1 := if writesHeader then header.1 else s;
    var (versionApplied, s2) := HandleVersionNumber(settings, collab, s1, c);
    var appliedHeader := !writesHeader || versionApplied;
    var cache := DetailsOf(s2, c);
    var info := cache.currentInfo.value;
    if info.inheritance.Some? && !sameType then
      match SerializeActualType(settings, collab, info.inheritance.value, cache.keyInheritanceCachedValue, obj, actualType, c, s2)
      case Threw(e, s3) => SucceedsTransitive(s, s2, s3); Threw(e, s3)
      case Done(_, s3) => SucceedsTransitive(s, s2, s3); Done(None, s3)
    else
      var s3 := if !info.usesHeader && !appliedHeader then Emit(s2, [AlignToByte]) else s2;
      SucceedsTransitive(s, s2, s3);
      Done(Some(info), s3)
  }

  /** `SerializeConverter`: the header, then the converter's payload unless the inheritance dispatch already wrote the item. */
  function SerializeConverter(settings: Settings, collab: Collaborators, obj: Obj, c: Converter, skipHeader: bool, s: Session): (r: Outcome<()>)
    requires obj.Inst?
    ensures Succeeds(s, SessionOf(r))
    decreases if skipHeader then 0 else 1, 3
  {
    match SerializeConverterHeader(settings, collab, obj, c, obj.actual, skipHeader, s)
    case Threw(e, s1) => Threw(e, s1)
    case Done(info, s1) =>
      if info.None? then Done((), s1)
      else
        SucceedsTransitive(s, s1, Emit(s1, [Payload(ByConverter(c.id), obj)]));
        Done((), Emit(s1, [Payload(ByConverter(c.id), obj)]))
  }

  function SerializeItemNoSetup(settings: Settings, collab: Collaborators, obj: Obj, info: MapItemInfo, skipHeader: bool, s: Session): (r: Outcome<()>)
    requires obj.Inst?
    ensures Succeeds(s, SessionOf(r))
    decreases if skipHeader then 0 else 1, 4
  {
    SerializeConverter(settings, collab, obj, info.converter, skipHeader, s)
  }

  /** `SerializeItem`: an off bit for null; otherwise an on bit at a nullable site, which then stands for the header. */
  function SerializeItem(settings: Settings, collab: Collaborators, obj: Obj, info: MapItemInfo, s: Session): (r: Outcome<()>)
    ensures Succeeds(s, SessionOf(r))
  {
    if obj.Null? then Done((), Emit(s, [Bit(false)]))
    else
      var s1 := if info.isNullable then Emit(s, [Bit(true)]) else s;
      var r := SerializeItemNoSetup(settings, collab, obj, info, info.isNullable, s1);
      SucceedsTransitive(s, s1, SessionOf(r));
      r
  }

  function SerializeExactNonNullItem(settings: Settings, collab: Collaborators, obj: Obj, info: MapItemInfo, s: Session): (r: Outcome<()>)
    requires obj.Inst?
    ensures Succeeds(s, SessionOf(r))
  {
    SerializeItemNoSetup(settings, collab, obj, info, true, s)
  }

  // ---------------------------------------------------------------- properties

  /** A null item is exactly one off bit, and nothing else changes. */
  lemma NullWritesOneOffBit(settings: Settings, collab: Collaborators, info: MapItemInfo, s: Session)
    ensures SerializeItem(settings, collab, Null, info, s) == Done((), Emit(s, [Bit(false)]))
  {
  }

  /**
   * A non-null item at a nullable site is an on bit followed by the item
   * with its header skipped; at any other site no presence bit is written
   * and the header is not skipped.
   */
  lemma PresenceBit(settings: Settings, collab: Collaborators, obj: Obj, info: MapItemInfo, s: Session)
    requires obj.Inst?
    ensures info.isNullable ==>
      SerializeItem(settings, collab, obj, info, s) == SerializeItemNoSetup(settings, collab, obj, info, true, Emit(s, [Bit(true)]))
    ensures !info.isNullable ==>
      SerializeItem(settings, collab, obj, info, s) == SerializeItemNoSetup(settings, collab, obj, info, false, s)
  {
  }

  /**
   * The header's first tokens: for a non-value converter whose header is not
   * skipped, an on bit and then whether the actual type is the converter's;
   * otherwise no header bit at all.
   */
  lemma HeaderBits(settings: Settings, collab: Collaborators, obj: Obj, c: Converter, actualType: RType, skipHeader: bool, s: Session)
    requires obj.Inst?
    ensures var r := SessionOf(SerializeConverterHeader(settings, collab, obj, c, actualType, skipHeader, s));
      && (!c.isValueItemType && !skipHeader ==>
            |r.output| >= |s.output| + 2 && r.output[|s.output|..|s.output| + 2] == [Bit(true), Bit(c.itemType == actualType)])
      && (c.isValueItemType || skipHeader ==>
            SerializeConverterHeader(settings, collab, obj, c, actualType, skipHeader, s).Done?)
  {
    var h := WriteHeaderNullAndInheritance(s, actualType, c);
    var r := SessionOf(SerializeConverterHeader(settings, collab, obj, c, actualType, skipHeader, s));
    if !c.isValueItemType && !skipHeader {
      assert Succeeds(h.1, r);
      assert r.output[..|h.1.output|] == h.1.output;
    }
  }

  /** Once a converter's version info is cached, handling its version again writes nothing and reports no header applied. */
  lemma VersionHandledOnce(settings: Settings, collab: Collaborators, s: Session, c: Converter)
    ensures var s1 := HandleVersionNumber(settings, collab, s, c).1;
      HandleVersionNumber(settings, collab, s1, c) == (false, s1)
    ensures DetailsOf(s, c).currentInfo.Some? ==> HandleVersionNumber(settings, collab, s, c) == (false, s)
  {
  }

  /**
   * The first time: with versioning off nothing is written and version 0 is
   * cached; with versioning on the target version is written and cached.
   * The result says whether a version was written.
   */
  lemma FirstVersionHandling(settings: Settings, collab: Collaborators, s: Session, c: Converter)
    requires DetailsOf(s, c).currentInfo.None?
    ensures var (applied, s1) := HandleVersionNumber(settings, collab, s, c);
      && applied == settings.includeVersioning
      && (!settings.includeVersioning ==>
            s1.output == s.output && DetailsOf(s1, c).currentInfo == Some(collab.createNewCache(c, 0)))
      && (settings.includeVersioning ==>
            && s1.output == s.output + [Compressed(TargetVersion(settings, c))]
            && DetailsOf(s1, c).currentInfo == Some(collab.createNewCache(c, TargetVersion(settings, c))))
  {
  }

  /**
   * The ordinary path, without an inheritance dispatch: after the header
   * bits and the version step, the writer moves to the next byte when the
   * converter does not use the header and neither the header bits nor a
   * written version applied it; then comes the converter's payload.
   */
  lemma OrdinaryItemLayout(settings: Settings, collab: Collaborators, obj: Obj, c: Converter, skipHeader: bool, s: Session)
    requires obj.Inst?
    ensures var writes := !c.isValueItemType && !skipHeader;
      var s1 := if writes then Emit(s, [Bit(true), Bit(c.itemType == obj.actual)]) else s;
      var version := HandleVersionNumber(settings, collab, s1, c);
      var info := DetailsOf(version.1, c).currentInfo.value;
      info.inheritance.None? || !writes || c.itemType == obj.actual ==>
        SerializeConverter(settings, collab, obj, c, skipHeader, s)
        == Done((), Emit(version.1, (if !info.usesHeader && writes && !version.0 then [AlignToByte] else [])
                                    + [Payload(ByConverter(c.id), obj)]))
  {
  }

  /** The version written is the item type's override when the settings have one, else the converter's highest version. */
  lemma TargetVersionChoice(settings: Settings, c: Converter)
    ensures settings.targetVersions.Some? && c.itemType in settings.targetVersions.value ==>
      TargetVersion(settings, c) == settings.targetVersions.value[c.itemType]
    ensures settings.targetVersions.None? || c.itemType !in settings.targetVersions.value ==>
      TargetVersion(settings, c) == c.highestVersion
  {
  }

  /**
   * When the cached version info has an inheritance attribute and the actual
   * type differs, the header returns no version info (so the base converter
   * writes no payload) and the rest is the inheritance dispatch.
   */
  lemma InheritanceDispatch(settings: Settings, collab: Collaborators, obj: Obj, c: Converter, skipHeader: bool, s: Session)
    requires obj.Inst? && !c.isValueItemType && !skipHeader && c.itemType != obj.actual
    ensures var s1 := Emit(s, [Bit(true), Bit(false)]);
      var s2 := HandleVersionNumber(settings, collab, s1, c).1;
      var cache := DetailsOf(s2, c);
      cache.currentInfo.value.inheritance.Some? ==>
        && SerializeConverter(settings, collab, obj, c, skipHeader, s)
           == SerializeActualType(settings, collab, cache.currentInfo.value.inheritance.value, cache.keyInheritanceCachedValue,
                                  obj, obj.actual, c, s2)
        && SerializeConverterHeader(settings, collab, obj, c, obj.actual, skipHeader, s).Done? ==>
             SerializeConverterHeader(settings, collab, obj, c, obj.actual, skipHeader, s).value.None?
  {
  }

  /**
   * After the discriminator, the item is written through the actual type's
   * runtime map item with the header skipped, in every mode: Index writes
   * the slot; Key takes the key path; IndexOrKey writes an on bit and the
   * slot, or else an off bit followed by the key path.
   */
  lemma ActualTypeWrittenWithHeaderSkipped(settings: Settings, collab: Collaborators, attr: InheritanceAttr, cacheNum: int,
                                           obj: Obj, actualType: RType, c: Converter, s: Session)
    requires obj.Inst?
    ensures var actual := collab.getRuntimeMapItem(actualType);
      var written := SerializeActualType(settings, collab, attr, cacheNum, obj, actualType, c, s);
      && (attr.mode == Key ==>
            written == SerializeItemNoSetup(settings, collab, obj, actual, true,
                                            WriteKeyInheritance(collab, attr, cacheNum, c, actual.converter, s)))
      && (attr.mode == Index && actualType in attr.indexCache ==>
            written == SerializeItemNoSetup(settings, collab, obj, actual, true, Emit(s, [Compressed(attr.indexCache[actualType])])))
      && (attr.mode == IndexOrKey && actualType in attr.indexCache ==>
            written == SerializeItemNoSetup(settings, collab, obj, actual, true,
                                            Emit(s, [Bit(true), Compressed(attr.indexCache[actualType])])))
      && (attr.mode == IndexOrKey && actualType !in attr.indexCache ==>
            written == SerializeItemNoSetup(settings, collab, obj, actual, true,
                                            WriteKeyInheritance(collab, attr, cacheNum, c, actual.converter, Emit(s, [Bit(false)]))))
  {
  }

  /** Index mode fails for an actual type with no slot, before writing anything. */
  lemma IndexModeUnknownSubtypeThrows(settings: Settings, collab: Collaborators, attr: InheritanceAttr, cacheNum: int,
                                      obj: Obj, actualType: RType, c: Converter, s: Session)
    requires obj.Inst? && attr.mode == Index && actualType !in attr.indexCache
    ensures SerializeActualType(settings, collab, attr, cacheNum, obj, actualType, c, s) == Threw(UnsupportedSubType(c.itemType, actualType), s)
  {
  }

  /**
   * The discriminator in front of the actual type: Index writes the slot;
   * IndexOrKey writes an on bit and the slot when there is one, else an off
   * bit and then the key path.
   */
  lemma ListInheritanceLayout(collab: Collaborators, attr: InheritanceAttr, cacheNum: int, actualType: RType, c: Converter, s: Session)
    ensures actualType in attr.indexCache ==>
      && TryWriteListInheritance(attr, actualType, false, s) == (true, Emit(s, [Compressed(attr.indexCache[actualType])]))
      && TryWriteListInheritance(attr, actualType, true, s) == (true, Emit(s, [Bit(true), Compressed(attr.indexCache[actualType])]))
    ensures actualType !in attr.indexCache ==>
      TryWriteListInheritance(attr, actualType, true, s) == (false, s)
  {
  }

  /**
   * The key path: a known cache number is an on bit and the number; without
   * one, an off bit, the string key, and the converter gets the next number.
   */
  lemma KeyInheritanceLayout(collab: Collaborators, attr: InheritanceAttr, cacheNum: int, c: Converter, actualConverter: Converter, s: Session)
    ensures 0 <= cacheNum < 0x8000_0000 ==>
      WriteKeyInheritance(collab, attr, cacheNum, c, actualConverter, s) == Emit(s, [Bit(true), Compressed(cacheNum)])
    ensures cacheNum == -1 ==>
      var r := WriteKeyInheritance(collab, attr, cacheNum, c, actualConverter, s);
      && r.output == s.output + [Bit(false), Str(collab.typeKey(c.itemType, actualConverter.itemType, attr))]
      && DetailsOf(r, c).keyInheritanceCachedValue == s.keyCacheCount
      && r.keyCacheCount == s.keyCacheCount + 1
  {
  }

  /**
   * The key cache number belongs to the base converter, not to the subtype:
   * once one subtype has been written by key, any other subtype of the same
   * base is written as that same number.
   */
  lemma KeyCacheNumberSharedBySubtypes(collab: Collaborators, attr: InheritanceAttr, c: Converter, first: Converter, second: Converter, s: Session)
    requires first.itemType != second.itemType && s.keyCacheCount < 0x8000_0000
    ensures var s1 := WriteKeyInheritance(collab, attr, -1, c, first, s);
      var n := DetailsOf(s1, c).keyInheritanceCachedValue;
      && n == s.keyCacheCount
      && WriteKeyInheritance(collab, attr, n, c, second, s1).output
         == WriteKeyInheritance(collab, attr, n, c, first, s1).output
         == s1.output + [Bit(true), Compressed(s.keyCacheCount)]
  {
  }

  // ---------------------------------------------------------------- key cache numbers as intended

  /** Key cache numbers as intended: one per (base converter, subtype) pair. */
  datatype KeySession = KeySession(output: seq<Token>, numbers: map<(Converter, RType), nat>, keyCacheCount: nat)

  /** Every number in use is below the counter and belongs to one pair only. */
  ghost predicate KeyNumbersDistinct(k: KeySession) {
    && (forall p :: p in k.numbers ==> k.numbers[p] < k.keyCacheCount)
    && (forall p, q :: p in k.numbers && q in k.numbers && p != q ==> k.numbers[p] != k.numbers[q])
  }

  function WriteKeyInheritanceIntended(collab: Collaborators, attr: InheritanceAttr, c: Converter, actualConverter: Converter, k: KeySession): (r: KeySession)
    ensures (c, actualConverter.itemType) in r.numbers
    ensures k.numbers.Keys <= r.numbers.Keys
  {
    var pair := (c, actualConverter.itemType);
    if pair in k.numbers then k.(output := k.output + [Bit(true), Compressed(k.numbers[pair])])
    else
      var key := collab.typeKey(c.itemType, actualConverter.itemType, attr);
      KeySession(k.output + [Bit(false), Str(key)], k.numbers[pair := k.keyCacheCount], k.keyCacheCount + 1)
  }

  /**
   * Writing by key keeps the numbers distinct, so a number written for one
   * subtype of a base is never written for another, and each later write of
   * a subtype repeats its own number.
   */
  lemma IntendedKeyNumbersStayDistinct(collab: Collaborators, attr: InheritanceAttr, c: Converter, actualConverter: Converter, k: KeySession)
    requires KeyNumbersDistinct(k)
    ensures KeyNumbersDistinct(WriteKeyInheritanceIntended(collab, attr, c, actualConverter, k))
    ensures var pair := (c, actualConverter.itemType);
      var r := WriteKeyInheritanceIntended(collab, attr, c, actualConverter, k);
      && (pair in k.numbers ==>
            r.output == k.output + [Bit(true), Compressed(k.numbers[pair])] && r.numbers == k.numbers)
      && (pair !in k.numbers ==>
            && r.output == k.output + [Bit(false), Str(collab.typeKey(c.itemType, actualConverter.itemType, attr))]
            && r.numbers == k.numbers[pair := k.keyCacheCount] && r.keyCacheCount == k.keyCacheCount + 1)
  {
    var pair := (c, actualConverter.itemType);
    var r := WriteKeyInheritanceIntended(collab, attr, c, actualConverter, k);
    if pair !in k.numbers {
      forall p, q | p in r.numbers && q in r.numbers && p != q
        ensures r.numbers[p] != r.numbers[q]
      {
        if p != pair && q != pair {
          assert r.numbers[p] == k.numbers[p] && r.numbers[q] == k.numbers[q];
        }
      }
    }
  }
}

/** The header writer's session object, proved against the functions of `ItemSerialization`. */
module ItemWriting {
  import opened Wire
  import opened ItemSerialization
  import Spec = ItemSerialization

  // ---------------------------------------------------------------- the header writer object

  /** `o` and `now` are what the specification `spec` gives: the same result, or the same exception, and the same session. */
  predicate Reflects<T(==)>(value: T, error: Option<SerializeError>, spec: Outcome<T>, now: Session) {
    && now == SessionOf(spec)
    && (spec.Done? ==> error.None? && value == spec.value)
    && (spec.Threw? ==> error == Some(spec.error))
  }

  /** The session state carried by the header's `BitWriter`. */
  class ItemSerializer {
    var output: seq<Token>
    var details: map<Converter, CachedDetails>
    var keyCacheCount: nat
    const settings: Settings
    const collab: Collaborators

    function View(): Session
      reads this
    {
      Session(output, details, keyCacheCount)
    }

    constructor (settings: Settings, collab: Collaborators)
      ensures View() == Session([], map[], 0) && this.settings == settings && this.collab == collab
    {
      output := [];
      details := map[];
      keyCacheCount := 0;
      this.settings := settings;
      this.collab := collab;
    }

    method SerializeItem(obj: Obj, info: MapItemInfo) returns (error: Option<SerializeError>)
      modifies this
      ensures Reflects((), error, Spec.SerializeItem(settings, collab, obj, info, old(View())), View())
    {
      if obj.Null? {
        output := output + [Bit(false)];
        return None;
      }
      if info.isNullable {
        output := output + [Bit(true)];
      }
      error := SerializeItemNoSetup(obj, info, info.isNullable);
    }

    method SerializeExactNonNullItem(obj: Obj, info: MapItemInfo) returns (error: Option<SerializeError>)
      requires obj.Inst?
      modifies this
      ensures Reflects((), error, Spec.SerializeExactNonNullItem(settings, collab, obj, info, old(View())), View())
    {
      error := SerializeItemNoSetup(obj, info, true);
    }

    method SerializeItemNoSetup(obj: Obj, info: MapItemInfo, skipHeader: bool) returns (error: Option<SerializeError>)
      requires obj.Inst?
      modifies this
      ensures Reflects((), error, Spec.SerializeItemNoSetup(settings, collab, obj, info, skipHeader, old(View())), View())
      decreases if skipHeader then 0 else 1, 4
    {
      error := SerializeConverter(obj, info.converter, skipHeader);
    }

    method SerializeConverter(obj: Obj, c: Converter, skipHeader: bool) returns (error: Option<SerializeError>)
      requires obj.Inst?
      modifies this
      ensures Reflects((), error, Spec.SerializeConverter(settings, collab, obj, c, skipHeader, old(View())), View())
      decreases if skipHeader then 0 else 1, 3
    {
      var actualType := obj.actual;
      var currentInfo;
      currentInfo, error := SerializeConverterHeader(obj, c, actualType, skipHeader);
      if error.Some? || currentInfo.None? {
        return;
      }
      output := output + [Payload(ByConverter(c.id), obj)];
    }

    method SerializeConverterHeader(obj: Obj, c: Converter, actualType: RType, skipHeader: bool)
      returns (info: Option<VersionInfo>, error: Option<SerializeError>)
      requires obj.Inst?
      modifies this
      ensures Reflects(info, error, Spec.SerializeConverterHeader(settings, collab, obj, c, actualType, skipHeader, old(View())), View())
      decreases if skipHeader then 0 else 1, 2
    {
      var appliedHeader := true;
      var sameType := true;
      if !c.isValueItemType && !skipHeader {
        sameType := WriteHeaderNullAndInheritance(actualType, c);
        appliedHeader := false;
      }
      var versionApplied := HandleVersionNumber(c);
      if versionApplied {
        appliedHeader := true;
      }
      var cache := DetailsOf(View(), c);
      var current := cache.currentInfo.value;
      if current.inheritance.Some? && !sameType {
        error := SerializeActualType(current.inheritance.value, cache.keyInheritanceCachedValue, obj, actualType, c);
        return None, error;
      }
      if !current.usesHeader && !appliedHeader {
        output := output + [AlignToByte];
      }
      return Some(current), None;
    }

    method WriteHeaderNullAndInheritance(actualType: RType, c: Converter) returns (sameType: bool)
      modifies this
      ensures (sameType, View()) == Spec.WriteHeaderNullAndInheritance(old(View()), actualType, c)
    {
      output := output + [Bit(true)];
      sameType := c.itemType == actualType;
      output := output + [Bit(sameType)];
      assert output == old(output) + [Bit(true), Bit(sameType)];
    }

    method HandleVersionNumber(c: Converter) returns (applied: bool)
      modifies this
      ensures (applied, View()) == Spec.HandleVersionNumber(settings, collab, old(View()), c)
    {
      if DetailsOf(View(), c).currentInfo.Some? {
        return false;
      }
      var version := 0;
      if settings.includeVersioning {
        version := WriteNewVersionInfo(c);
      }
      var info := collab.createNewCache(c, version);
      details := details[c := DetailsOf(View(), c).(currentInfo := Some(info))];
      return settings.includeVersioning;
    }

    method WriteNewVersionInfo(c: Converter) returns (targetVersion: nat)
      modifies this
      ensures (targetVersion, View()) == Spec.WriteNewVersionInfo(settings, old(View()), c)
    {
      if settings.targetVersions.Some? && c.itemType in settings.targetVersions.value {
        targetVersion := settings.targetVersions.value[c.itemType];
      } else {
        targetVersion := c.highestVersion;
      }
      output := output + [Compressed(targetVersion)];
    }

    method SerializeActualType(attr: InheritanceAttr, cacheNum: int, obj: Obj, actualType: RType, c: Converter)
      returns (error: Option<SerializeError>)
      requires obj.Inst?
      modifies this
      ensures Reflects((), error, Spec.SerializeActualType(settings, collab, attr, cacheNum, obj, actualType, c, old(View())), View())
      decreases 0, 5
    {
      var actual := collab.getRuntimeMapItem(actualType);
      match attr.mode {
        case Index =>
          var listed := TryWriteListInheritance(attr, actualType, false);
          if !listed {
            return Some(UnsupportedSubType(c.itemType, actualType));
          }
        case Key =>
          WriteKeyInheritance(attr, cacheNum, c, actual.converter);
        case IndexOrKey =>
          var listed := TryWriteListInheritance(attr, actualType, true);
          if !listed {
            output := output + [Bit(false)];
            WriteKeyInheritance(attr, cacheNum, c, actual.converter);
          }
      }
      error := SerializeItemNoSetup(obj, actual, true);
    }

    method TryWriteListInheritance(attr: InheritanceAttr, actualType: RType, writeOnIfSuccessful: bool) returns (listed: bool)
      modifies this
      ensures (listed, View()) == Spec.TryWriteListInheritance(attr, actualType, writeOnIfSuccessful, old(View()))
    {
      if actualType in attr.indexCache {
        var pos := attr.indexCache[actualType];
        if writeOnIfSuccessful {
          output := output + [Bit(true)];
        }
        output := output + [Compressed(pos)];
        assert output == old(output) + (if writeOnIfSuccessful then [Bit(true), Compressed(pos)] else [Compressed(pos)]);
        return true;
      }
      return false;
    }

    method WriteKeyInheritance(attr: InheritanceAttr, cacheNum: int, c: Converter, actualConverter: Converter)
      modifies this
      ensures View() == Spec.WriteKeyInheritance(collab, attr, cacheNum, c, actualConverter, old(View()))
    {
      if cacheNum != -1 {
        output := output + [Bit(true)];
        output := output + [Compressed(AsUInt(cacheNum))];
      } else {
        output := output + [Bit(false)];
        var key := collab.typeKey(c.itemType, actualConverter.itemType, attr);
        output := output + [Str(key)];
        AddNewKeyCacheNumber(c);
      }
    }

    method AddNewKeyCacheNumber(c: Converter)
      modifies this
      ensures View() == Spec.AddNewKeyCacheNumber(old(View()), c)
    {
      details := details[c := DetailsOf(View(), c).(keyInheritanceCachedValue := keyCacheCount)];
      keyCacheCount := keyCacheCount + 1;
    }
  }
}
