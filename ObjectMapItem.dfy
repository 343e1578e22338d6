/**
 * The hand-built object map: a fixed number of member slots filled in order,
 * plus a name index (ABSoftware.ABSave/Mapping/ObjectMapItem.cs).
 */
module ObjectMap {
  import opened Wire

  /** A member accessor delegate, identified only by which one it is. */
  type Delegate = nat

  /** The part of a member's map item that `AddItem` writes. */
  class MemberMapItem {
    var name: string
    var useReflection: bool
    var getter: Option<Delegate>
    var setter: Option<Delegate>
    var fieldType: Option<RType>

    constructor ()
      ensures useReflection && getter == None && setter == None && fieldType == None
    {
      name := "";
      useReflection := true;
      getter := None;
      setter := None;
      fieldType := None;
    }
  }

  datatype AddError = TooManyItems | DuplicateName(name: string)

  class ObjectMapItem {
    var itemsAdded: nat
    var numberOfItems: nat
    var items: array<MemberMapItem?>
    var hashedItems: map<string, MemberMapItem>

    ghost predicate Valid()
      reads this
    {
      items.Length == numberOfItems && itemsAdded <= numberOfItems
    }

    /** The members added so far, in the order they were added. */
    ghost function Added(): seq<MemberMapItem?>
      reads this, items
      requires Valid()
    {
      items[..itemsAdded]
    }

    /**
     * The constructor as the source declares it, with a signed count: a
     * negative count makes the array allocation throw, and no map exists.
     */
    static method Create(numberOfItems: int) returns (r: Option<ObjectMapItem>)
      ensures numberOfItems < 0 <==> r.None?
      ensures r.Some? ==> && fresh(r.value) && fresh(r.value.items) && r.value.Valid()
                          && r.value.numberOfItems == numberOfItems && r.value.itemsAdded == 0
                          && r.value.hashedItems == map[]
                          && forall i :: 0 <= i < r.value.items.Length ==> r.value.items[i] == null
    {
      if numberOfItems < 0 {
        return None;
      }
      var m := new ObjectMapItem(numberOfItems);
      r := Some(m);
    }

    /** The allocation itself, for a count that is not negative. */
    constructor (numberOfItems: nat)
      ensures Valid()
      ensures this.numberOfItems == numberOfItems && items.Length == numberOfItems
      ensures itemsAdded == 0 && Added() == [] && hashedItems == map[]
      ensures fresh(items)
      ensures forall i :: 0 <= i < items.Length ==> items[i] == null
    {
      this.numberOfItems := numberOfItems;
      items := new MemberMapItem?[numberOfItems](_ => null);
      hashedItems := map[];
      itemsAdded := 0;
    }

    /**
     * Names `mapItem`, stores it in the next free slot and indexes it by name.
     * A full map fails before touching anything; a duplicate name fails in
     * the dictionary insertion, after the slot was filled and counted.
     */
    method AddItem(name: string, mapItem: MemberMapItem) returns (result: ObjectMapItem, error: Option<AddError>)
      requires Valid()
      modifies this, items, mapItem
      ensures Valid() && items == old(items) && numberOfItems == old(numberOfItems)
      ensures result == this
      ensures old(itemsAdded) == numberOfItems ==>
        error == Some(TooManyItems) && itemsAdded == old(itemsAdded) && items[..] == old(items[..])
        && hashedItems == old(hashedItems) && mapItem.name == old(mapItem.name)
      ensures old(itemsAdded) < numberOfItems ==>
        && mapItem.name == name
        && itemsAdded == old(itemsAdded) + 1
        && items[..] == old(items[..])[old(itemsAdded) := mapItem]
        && Added() == old(Added()) + [mapItem]
        && (name in old(hashedItems) ==> error == Some(DuplicateName(name)) && hashedItems == old(hashedItems))
        && (name !in old(hashedItems) ==> error == None && hashedItems == old(hashedItems)[name := mapItem])
      ensures mapItem.useReflection == old(mapItem.useReflection) && mapItem.getter == old(mapItem.getter)
      ensures mapItem.setter == old(mapItem.setter) && mapItem.fieldType == old(mapItem.fieldType)
    {
      result := this;
      if itemsAdded == numberOfItems {
        return result, Some(TooManyItems);
      }
      mapItem.name := name;
      items[itemsAdded] := mapItem;
      itemsAdded := itemsAdded + 1;
      if name in hashedItems {
        return result, Some(DuplicateName(name));
      }
      hashedItems := hashedItems[name := mapItem];
      error := None;
    }

    /**
     * The typed overload: the member gets explicit accessors and a field
     * type instead of reflection, then is added as above.
     */
    method AddTypedItem(name: string, getter: Delegate, setter: Delegate, itemType: RType, mapItem: MemberMapItem)
      returns (result: ObjectMapItem, error: Option<AddError>)
      requires Valid()
      modifies this, items, mapItem
      ensures Valid() && items == old(items) && numberOfItems == old(numberOfItems)
      ensures result == this
      ensures !mapItem.useReflection && mapItem.getter == Some(getter) && mapItem.setter == Some(setter)
      ensures mapItem.fieldType == Some(itemType)
      ensures old(itemsAdded) == numberOfItems ==>
        error == Some(TooManyItems) && itemsAdded == old(itemsAdded) && items[..] == old(items[..])
        && hashedItems == old(hashedItems)
      ensures old(itemsAdded) < numberOfItems ==>
        && mapItem.name == name
        && itemsAdded == old(itemsAdded) + 1
        && Added() == old(Added()) + [mapItem]
        && (name in old(hashedItems) ==> error == Some(DuplicateName(name)) && hashedItems == old(hashedItems))
        && (name !in old(hashedItems) ==> error == None && hashedItems == old(hashedItems)[name := mapItem])
    {
      mapItem.useReflection := false;
      mapItem.getter := Some(getter);
      mapItem.setter := Some(setter);
      mapItem.fieldType := Some(itemType);
      result, error := AddItem(name, mapItem);
    }
  }
}
