/**
 * The map generator: the table from runtime type to map item, with its
 * "allocating" placeholder, the nullable-stripping rule, the dangerous-type
 * check, the runtime-item wrapping and the version-range lookup
 * (ABSoftware.ABSave/Mapping/Generation/MapGenerator.cs).
 *
 * The table is modelled sequentially: the lock and the yield-and-retry spin
 * become a `Busy` outcome that the caller would retry.
 */
module MapGeneration {
  import opened Wire

  /** What a map item is: a converter's item, an object's item, or a runtime wrapper around another item. */
  datatype ItemKind = ConverterItem(converter: nat) | ObjectItem | RuntimeItem(inner: MapItem)

  class MapItem {
    const kind: ItemKind
    var itemType: RType
    var isValueItemType: bool
    var isGenerating: bool

    /** Only the kind is fixed at construction; `ApplyItemProperties` fills in the rest. */
    constructor (kind: ItemKind)
      ensures this.kind == kind
    {
      this.kind := kind;
      itemType := ObjectType;
      isValueItemType := false;
      isGenerating := false;
    }
  }

  /** A table entry: the null placeholder of a type being allocated, or its item. */
  datatype Entry = Allocating | Ready(item: MapItem)

  /** What `GetExistingOrAddNull` finds: an item, the caller's claim on a new type, or a placeholder to wait on. */
  datatype Existing = Found(item: MapItem) | Claimed | Retry

  /** A map item together with the nullability of the place that asked for it. */
  datatype MapItemInfo = MapItemInfo(item: MapItem, isNullable: bool)

  datatype MapError = DangerousType(t: RType)

  datatype MapOutcome = Mapped(info: MapItemInfo) | Busy | Failed(error: MapError)

  /**
   * `TryExpandNullable`: `Nullable<T>` becomes `T` with the flag set; any
   * other type is returned as it is with the flag clear.
   */
  function TryExpandNullable(t: RType): (r: (RType, bool))
    ensures r.1 <==> IsNullableType(t)
    ensures r.1 ==> r.0 == t.args[0]
    ensures !r.1 ==> r.0 == t
  {
    if IsNullableType(t) then (t.args[0], true) else (t, false)
  }

  /** Exactly one level is stripped: `Nullable<Nullable<T>>` gives `Nullable<T>`. */
  lemma ExpandNullableStripsOneLevel(t: RType)
    ensures TryExpandNullable(NullableOf(t)) == (t, true)
    ensures TryExpandNullable(NullableOf(NullableOf(t))) == (NullableOf(t), true)
  {
  }

  /**
   * `EnsureTypeSafety`: `object` and `ValueType` are refused unless the
   * settings bypass the check.
   */
  function TypeSafetyError(bypassDangerousTypeChecking: bool, t: RType): (r: Option<MapError>)
    ensures r.Some? <==> !bypassDangerousTypeChecking && (t == ObjectType || t == ValueTypeType)
    ensures r.Some? ==> r.value == DangerousType(t)
  {
    if !bypassDangerousTypeChecking && (t == ObjectType || t == ValueTypeType) then Some(DangerousType(t))
    else None
  }

  predicate InVersionRange(a: InheritanceAttr, version: nat) {
    a.fromVer <= version <= a.toVer
  }

  /**
   * `FindInheritanceAttributeForVersion`: the first attribute whose range
   * holds the version; none when there are no attributes or none matches.
   */
  method FindInheritanceAttributeForVersion(attributes: Option<seq<InheritanceAttr>>, version: nat)
    returns (r: Option<InheritanceAttr>)
    ensures attributes.None? ==> r.None?
    ensures r.None? && attributes.Some? ==>
      forall j :: 0 <= j < |attributes.value| ==> !InVersionRange(attributes.value[j], version)
    ensures r.Some? ==>
      && attributes.Some? && InVersionRange(r.value, version)
      && exists i :: 0 <= i < |attributes.value| && attributes.value[i] == r.value &&
           forall j :: 0 <= j < i ==> !InVersionRange(attributes.value[j], version)
  {
    if attributes.None? {
      return None;
    }
    var attrs := attributes.value;
    var i := 0;
    while i < |attrs|
      invariant 0 <= i <= |attrs|
      invariant forall j :: 0 <= j < i ==> !InVersionRange(attrs[j], version)
    {
      var current := attrs[i];
      if current.fromVer <= version && current.toVer >= version {
        return Some(current);
      }
      i := i + 1;
    }
    return None;
  }

  /** The items the table holds. */
  function TableItems(table: map<RType, Entry>): set<MapItem> {
    set t | t in table && table[t].Ready? :: table[t].item
  }

  /**
   * How the table may change (everywhere but `GetExistingRuntimeOrAddNull`):
   * no type is removed, a published item is never replaced except by a
   * runtime wrapper around it, and a runtime wrapper is never replaced.
   */
  ghost predicate Succeeds(before: map<RType, Entry>, after: map<RType, Entry>) {
    && before.Keys <= after.Keys
    && forall t :: t in before && before[t].Ready? ==>
         && after[t].Ready?
         && (after[t] == before[t] || (!before[t].item.kind.RuntimeItem? && after[t].item.kind == RuntimeItem(before[t].item)))
  }

  class MapGenerator {
    var allTypes: map<RType, Entry>
    const bypassDangerousTypeChecking: bool
    /** The converter registry's choice for a type (`TryGenerateConverter`), if any converter matches. */
    const converterFor: RType -> Option<nat>

    /** Every published item is stored under its own type. */
    ghost predicate Valid()
      reads this, TableItems(allTypes)
    {
      forall t :: t in allTypes && allTypes[t].Ready? ==>
        allTypes[t].item.itemType == t && allTypes[t].item.isValueItemType == IsValueType(t)
    }

    constructor (bypassDangerousTypeChecking: bool, converterFor: RType -> Option<nat>)
      ensures Valid() && allTypes == map[]
      ensures this.bypassDangerousTypeChecking == bypassDangerousTypeChecking && this.converterFor == converterFor
    {
      allTypes := map[];
      this.bypassDangerousTypeChecking := bypassDangerousTypeChecking;
      this.converterFor := converterFor;
    }

    /**
     * A finished item is returned unchanged; an absent type gets the
     * placeholder and the caller the duty to generate it; a placeholder
     * means another generation is in progress, and nothing changes.
     */
    method GetExistingOrAddNull(t: RType) returns (r: Existing)
      modifies this
      ensures t in old(allTypes) && old(allTypes)[t].Ready? ==> r == Found(old(allTypes)[t].item) && allTypes == old(allTypes)
      ensures t in old(allTypes) && old(allTypes)[t].Allocating? ==> r == Retry && allTypes == old(allTypes)
      ensures t !in old(allTypes) ==> r == Claimed && allTypes == old(allTypes)[t := Allocating]
      ensures Succeeds(old(allTypes), allTypes)
    {
      if t in allTypes {
        match allTypes[t] {
          case Allocating => return Retry;
          case Ready(item) => return Found(item);
        }
      }
      allTypes := allTypes[t := Allocating];
      return Claimed;
    }

    /**
     * As written, this never hands back an existing item: a placeholder
     * means retry, and anything else, a finished item included, is
     * overwritten with the placeholder.
     */
    method GetExistingRuntimeOrAddNull(t: RType) returns (r: Existing)
      modifies this
      ensures t in old(allTypes) && old(allTypes)[t].Allocating? ==> r == Retry && allTypes == old(allTypes)
      ensures !(t in old(allTypes) && old(allTypes)[t].Allocating?) ==> r == Claimed && allTypes == old(allTypes)[t := Allocating]
    {
      if t in allTypes && allTypes[t].Allocating? {
        return Retry;
      }
      allTypes := allTypes[t := Allocating];
      return Claimed;
    }

    /** `ApplyItemProperties`: the item takes the type, its value-type flag, and is marked as generating. */
    static method ApplyItemProperties(item: MapItem, t: RType)
      modifies item
      ensures item.itemType == t && item.isValueItemType == IsValueType(t) && item.isGenerating
    {
      item.itemType := t;
      item.isValueItemType := t.Named? && t.isValue;
      item.isGenerating := true;
    }

    /** `ApplyItem`: the claimed type's placeholder is replaced by the new item. */
    method ApplyItem(item: MapItem, t: RType)
      requires Valid() && item !in TableItems(allTypes)
      requires t in allTypes && allTypes[t].Allocating?
      modifies this, item
      ensures Valid()
      ensures allTypes == old(allTypes)[t := Ready(item)]
      ensures item.itemType == t && item.isValueItemType == IsValueType(t) && item.isGenerating
      ensures Succeeds(old(allTypes), allTypes)
    {
      ApplyItemProperties(item, t);
      allTypes := allTypes[t := Ready(item)];
    }

    /**
     * `GenerateMap` for a type this caller has claimed: the safety check
     * first, then a converter item if a converter matches, else an object
     * item; the item is published and its generating flag cleared. A
     * refused type keeps its placeholder.
     */
    method GenerateMap(t: RType, isNullable: bool) returns (r: MapOutcome)
      requires Valid() && t in allTypes && allTypes[t].Allocating?
      modifies this
      ensures Valid() && Succeeds(old(allTypes), allTypes)
      ensures TypeSafetyError(bypassDangerousTypeChecking, t).Some? ==>
        r == Failed(TypeSafetyError(bypassDangerousTypeChecking, t).value) && allTypes == old(allTypes)
      ensures TypeSafetyError(bypassDangerousTypeChecking, t).None? ==>
        && r.Mapped? && fresh(r.info.item) && r.info.isNullable == isNullable
        && r.info.item.kind == (if converterFor(t).Some? then ConverterItem(converterFor(t).value) else ObjectItem)
        && r.info.item.itemType == t && !r.info.item.isGenerating
        && allTypes == old(allTypes)[t := Ready(r.info.item)]
    {
      var unsafe := TypeSafetyError(bypassDangerousTypeChecking, t);
      if unsafe.Some? {
        return Failed(unsafe.value);
      }
      var item: MapItem;
      var converter := converterFor(t);
      if converter.Some? {
        item := new MapItem(ConverterItem(converter.value));
      } else {
        item := new MapItem(ObjectItem);
      }
      // The generators, which are not part of this model, are taken to publish their item this way.
      ApplyItem(item, t);
      item.isGenerating := false;
      return Mapped(MapItemInfo(item, isNullable));
    }

    /**
     * `GetMap`: the nullable wrapper is stripped and remembered; an existing
     * item is returned with that flag, an absent type is generated.
     */
    method GetMap(t: RType) returns (r: MapOutcome)
      requires Valid()
      modifies this
      ensures Valid() && Succeeds(old(allTypes), allTypes)
      ensures var (s, nullable) := TryExpandNullable(t);
        && (s in old(allTypes) && old(allTypes)[s].Ready? ==>
              r == Mapped(MapItemInfo(old(allTypes)[s].item, nullable)) && allTypes == old(allTypes))
        && (s in old(allTypes) && old(allTypes)[s].Allocating? ==> r == Busy && allTypes == old(allTypes))
        && (s !in old(allTypes) && TypeSafetyError(bypassDangerousTypeChecking, s).Some? ==>
              r.Failed? && allTypes == old(allTypes)[s := Allocating])
        && (s !in old(allTypes) && TypeSafetyError(bypassDangerousTypeChecking, s).None? ==>
              r.Mapped? && fresh(r.info.item) && allTypes == old(allTypes)[s := Ready(r.info.item)])
        && (r.Mapped? ==> r.info.isNullable == nullable && r.info.item.itemType == s)
    {
      var (s, nullable) := TryExpandNullable(t);
      var existing := GetExistingOrAddNull(s);
      match existing {
        case Found(item) => return Mapped(MapItemInfo(item, nullable));
        case Retry => return Busy;
        case Claimed => r := GenerateMap(s, nullable);
      }
    }

    /**
     * `GetRuntimeMap`: an existing runtime item is returned as it is;
     * otherwise the existing or newly generated item is wrapped in a new
     * runtime item, which replaces it in the table and is returned with its
     * generating flag cleared.
     */
    method GetRuntimeMap(t: RType) returns (r: MapOutcome)
      requires Valid()
      modifies this
      ensures Valid() && Succeeds(old(allTypes), allTypes)
      ensures var (s, nullable) := TryExpandNullable(t);
        && (s in old(allTypes) && old(allTypes)[s].Ready? && old(allTypes)[s].item.kind.RuntimeItem? ==>
              r == Mapped(MapItemInfo(old(allTypes)[s].item, nullable)) && allTypes == old(allTypes))
        && (s in old(allTypes) && old(allTypes)[s].Ready? && !old(allTypes)[s].item.kind.RuntimeItem? ==>
              && r.Mapped? && fresh(r.info.item) && r.info.item.kind == RuntimeItem(old(allTypes)[s].item)
              && allTypes == old(allTypes)[s := Ready(r.info.item)])
        && (s in old(allTypes) && old(allTypes)[s].Allocating? ==> r == Busy && allTypes == old(allTypes))
        && (s !in old(allTypes) && TypeSafetyError(bypassDangerousTypeChecking, s).Some? ==>
              r.Failed? && allTypes == old(allTypes)[s := Allocating])
        && (s !in old(allTypes) && TypeSafetyError(bypassDangerousTypeChecking, s).None? ==>
              && r.Mapped? && fresh(r.info.item) && r.info.item.kind.RuntimeItem?
              && allTypes == old(allTypes)[s := Ready(r.info.item)])
        && (r.Mapped? ==> r.info.isNullable == nullable && r.info.item.itemType == s && !(r.info.item.isGenerating && fresh(r.info.item)))
    {
      var (s, nullable) := TryExpandNullable(t);
      var existing := GetExistingOrAddNull(s);
      var inner: MapItem;
      match existing {
        case Retry => return Busy;
        case Found(item) =>
          if item.kind.RuntimeItem? {
            return Mapped(MapItemInfo(item, nullable));
          }
          inner := item;
        case Claimed =>
          var generated := GenerateMap(s, nullable);
          if !generated.Mapped? {
            return generated;
          }
          inner := generated.info.item;
      }
      r := WrapInRuntimeItem(s, inner, nullable);
    }

    /** The end of `GetRuntimeMap`: a new runtime item around the published item replaces it in the table. */
    method WrapInRuntimeItem(s: RType, inner: MapItem, nullable: bool) returns (r: MapOutcome)
      requires Valid() && s in allTypes && allTypes[s] == Ready(inner) && !inner.kind.RuntimeItem?
      modifies this
      ensures Valid() && Succeeds(old(allTypes), allTypes)
      ensures r.Mapped? && fresh(r.info.item) && r.info.item.kind == RuntimeItem(inner)
      ensures allTypes == old(allTypes)[s := Ready(r.info.item)]
      ensures r.info.isNullable == nullable && r.info.item.itemType == s && !r.info.item.isGenerating
    {
      var runtime := new MapItem(RuntimeItem(inner));
      ApplyItemProperties(runtime, s);
      allTypes := allTypes[s := Ready(runtime)];
      runtime.isGenerating := false;
      return Mapped(MapItemInfo(runtime, nullable));
    }
  }
}
