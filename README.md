# ABSave serialisation core in Dafny

ABSave is a compact binary serialiser for .NET object graphs. This project models its core in Dafny:

- **Per-item header writers.**
  - The newer `ItemSerializer` and the older `ABSaveSerializer`.
  - Each writes the presence bit and the non-null / same-type bits.
  - Each writes a converter's version number the first time that converter appears in a session.
  - Each then either dispatches to the actual type's converter (the inheritance modes Index, Key and IndexOrKey) or writes the item.
- **The map generator's type table.** A runtime type maps to nothing, to an "allocating" placeholder, or to a map item. The model also covers stripping `Nullable<T>`, the dangerous-type check and the runtime-item wrapping.
- **The type-descriptor codec.** It writes an optional cache key, then the assembly and the name, then the generic arguments (open form with 0/1 markers, closed form without).
- **The one-byte null/type attribute in front of an item.** Tag 1 means null, 2 the declared type, 3 another type.
- **The hand-built object map** (`ObjectMapItem`).
- **The tick-based DateTime/TimeSpan converter.**

## How the model is built

**Output.** A stream or bit writer is a sequence of `Wire.Token`s. Each token is one primitive write: a header bit, a move to the next byte, a compressed integer, a string, a byte, an integer of a given width, an assembly reference, or a converter's payload. A reader consumes one token per primitive read and fails on a token of another kind. Bit packing and byte layout are not modelled.

**Types and objects.**
- A runtime type is `Wire.RType`: a named type with its assembly, its full name, its value-type flag and its generic arguments, or an open generic parameter.
- An object is `Wire.Obj`: null, or an instance with its actual type and its fields.

**Files that update state** (the header writers, the map generator, the type converter's writer and reader, and the object map) are classes with `modifies` clauses:
- Each method's `ensures` ties the new state to a function of the old state (`View() == Spec(old(View()), …)`).
- The lemmas about those functions carry the properties.

**Pure decisions** are functions, for example nullable stripping, type safety and the attribute choice.

**Naming.** A class method and the function that specifies it have the same name. For example, `ItemWriting.ItemSerializer.WriteHeaderNullAndInheritance` is proved equal to `ItemSerialization.WriteHeaderNullAndInheritance`. Both are named after the source method they model.

Where the code has a defect, the model follows the code. A separate corrected definition is then proved to have the intended property (see "## Findings"). One consequence of the code that the model keeps as written:
- MapGenerator.cs:20-22 installs the "allocating" placeholder for a type, and :30 throws on a dangerous type.
- Nothing removes that placeholder, so a later request for that type waits instead of retrying the generation.

## Model

| member | source | states |
|---|---|---|
| TickConverter.ModeFor | ABSoftware.ABSave/Converters/TickBasedConverter.cs:42-43 | DateTime mode exactly for `DateTime`, TimeSpan mode for every other type |
| TickConverter.ConvertsExactlyTickTypes | ABSoftware.ABSave/Converters/TickBasedConverter.cs:51-56 | the converter is chosen for a type iff it is `DateTime` or `TimeSpan` (exact types only, no subtypes) |
| TickConverter.SerializeTicks | ABSoftware.ABSave/Converters/TickBasedConverter.cs:15-28 | a value of the mode's type is written as exactly its 64-bit tick count; a value of the other type fails the cast |
| TickConverter.DeserializeTicks | ABSoftware.ABSave/Converters/TickBasedConverter.cs:30-40 | a read consumes exactly one 64-bit token and yields a valid value of the mode's type |
| TickConverter.TicksRoundTrip | ABSoftware.ABSave/Converters/TickBasedConverter.cs:28-40 | reading back what was written gives the same value and leaves the rest of the input |
| TickConverter.TickBasedConverter.Initialize | ABSoftware.ABSave/Converters/TickBasedConverter.cs:42-43 | the converter's mode becomes the one chosen for the target type |
| TickConverter.TickBasedConverter.Serialize | ABSoftware.ABSave/Converters/TickBasedConverter.cs:15-28 | appends the tick token, or reports the cast failure and appends nothing |
| TickConverter.TickBasedConverter.Deserialize | ABSoftware.ABSave/Converters/TickBasedConverter.cs:30-40 | returns what the tick reader specifies |
| ObjectMap.MemberMapItem.constructor | ABSoftware.ABSave/Mapping/ObjectMapItem.cs:36-41 | a member map item starts with reflection on and without the accessors and field type that the typed `AddItem` sets |
| ObjectMap.ObjectMapItem.Create | ABSoftware.ABSave/Mapping/ObjectMapItem.cs:18-23 | a negative count fails (the array allocation throws) and gives no map. Otherwise the object map has the given number of empty slots, nothing added and an empty name index |
| ObjectMap.ObjectMapItem.AddItem | ABSoftware.ABSave/Mapping/ObjectMapItem.cs:25-34 | a full map fails before any change. Otherwise the member is named, stored in the next slot and counted. It is then indexed by name, or the insertion fails on a duplicate name after the slot was filled. The map itself is returned |
| ObjectMap.ObjectMapItem.AddTypedItem | ABSoftware.ABSave/Mapping/ObjectMapItem.cs:36-43 | the member gets the given getter, setter and field type with reflection off, and is then added as above |
| MapGeneration.MapItem.constructor | ABSoftware.ABSave/Mapping/Generation/MapGenerator.cs:65 | a new item has the given kind |
| MapGeneration.TryExpandNullable | ABSoftware.ABSave/Mapping/Generation/MapGenerator.cs:174-183 | the flag is set iff the type is `Nullable<T>`; then the result is `T`, otherwise the type unchanged |
| MapGeneration.ExpandNullableStripsOneLevel | ABSoftware.ABSave/Mapping/Generation/MapGenerator.cs:174-183 | exactly one `Nullable<>` level is stripped, also from `Nullable<Nullable<T>>` |
| MapGeneration.TypeSafetyError | ABSoftware.ABSave/Mapping/Generation/MapGenerator.cs:165-172 | a dangerous-type error iff the check is not bypassed and the type is `object` or `ValueType` |
| MapGeneration.FindInheritanceAttributeForVersion | ABSoftware.ABSave/Mapping/Generation/MapGenerator.cs:185-197 | the first attribute whose range holds the version; none when there are no attributes or none matches |
| MapGeneration.MapGenerator.constructor | ABSoftware.ABSave/Mapping/Generation/MapGenerator.cs:15-16 | an empty type table |
| MapGeneration.MapGenerator.GetExistingOrAddNull | ABSoftware.ABSave/Mapping/Generation/MapGenerator.cs:99-123 | a finished item is returned and the table is unchanged; a placeholder means retry with no change; an absent type gets the placeholder and is claimed |
| MapGeneration.MapGenerator.GetExistingRuntimeOrAddNull | ABSoftware.ABSave/Mapping/Generation/MapGenerator.cs:125-147 | a placeholder means retry; anything else, a finished item included, is overwritten by the placeholder and claimed |
| MapGeneration.MapGenerator.ApplyItemProperties | ABSoftware.ABSave/Mapping/Generation/MapGenerator.cs:158-163 | the item takes the type and its value-type flag, and is marked generating |
| MapGeneration.MapGenerator.ApplyItem | ABSoftware.ABSave/Mapping/Generation/MapGenerator.cs:150-156 | the claimed placeholder is replaced by the item, with its properties applied, and the table invariant is kept |
| MapGeneration.MapGenerator.GenerateMap | ABSoftware.ABSave/Mapping/Generation/MapGenerator.cs:28-45 | the safety check comes first, and a refused type leaves the table unchanged. Otherwise a converter item is built if a converter matches, else an object item. It is published under the type with its generating flag cleared and the requested nullability |
| MapGeneration.MapGenerator.GetMap | ABSoftware.ABSave/Mapping/Generation/MapGenerator.cs:18-26 | the nullable wrapper is stripped and its flag carried into the result, for an existing item and for a generated one; a placeholder gives Busy |
| MapGeneration.MapGenerator.WrapInRuntimeItem | ABSoftware.ABSave/Mapping/Generation/MapGenerator.cs:57-71 | a new runtime item around the inner item, with the type's properties and not generating, replaces the table entry and is returned with the nullable flag; the table invariant is kept |
| MapGeneration.MapGenerator.GetRuntimeMap | ABSoftware.ABSave/Mapping/Generation/MapGenerator.cs:47-72 | an existing runtime item is returned unchanged. Otherwise the existing or generated item is wrapped in a new runtime item, which replaces it in the table and is returned not generating |
| TypeCodec.WriteType | ABSoftware.ABSave/Converters/TypeTypeConverter.cs:20-25 | the output and the writer's table only grow and keep every key; with caching off or a full table the table is unchanged |
| TypeCodec.WriteOpenArgs | ABSoftware.ABSave/Converters/TypeTypeConverter.cs:40-55 | same frame property for the marker-and-argument loop |
| TypeCodec.WriteClosedType | ABSoftware.ABSave/Converters/TypeTypeConverter.cs:27-32 | the closed writer only extends the output and the table |
| TypeCodec.WriteClosedArgs | ABSoftware.ABSave/Converters/TypeTypeConverter.cs:57-65 | same for the closed argument loop |
| TypeCodec.CachedTypeWritesOnlyKey | ABSoftware.ABSave/Converters/TypeTypeConverter.cs:128-136 | with caching on, a cached type (open or closed) is written as its 32-bit key and nothing else |
| TypeCodec.NewTypeKeyedByAssemblyCount | ABSoftware.ABSave/Converters/TypeTypeConverter.cs:137-146 | with caching on, a new type is cached under the assembly count, and its encoding starts with that number in its minimal width, then the assembly and the name |
| TypeCodec.FullTableWritesMaxKey | ABSoftware.ABSave/Converters/TypeTypeConverter.cs:137-138 | a full table writes the maximum key and caches nothing |
| TypeCodec.OpenTokens | ABSoftware.ABSave/Converters/TypeTypeConverter.cs:34-38 | the open form always starts with the assembly and the definition's name |
| TypeCodec.UncachedWriteIsOpenTokens | ABSoftware.ABSave/Converters/TypeTypeConverter.cs:20-55 | with caching off, the writer appends exactly the open form, whatever its state |
| TypeCodec.UncachedArgsAreOpenArgTokens | ABSoftware.ABSave/Converters/TypeTypeConverter.cs:40-55 | with caching off, the argument loop appends a 1 for a parameter, else a 0 and the argument's open form |
| TypeCodec.UncachedClosedWriteIsClosedTokens | ABSoftware.ABSave/Converters/TypeTypeConverter.cs:27-32 | with caching off, the closed writer appends exactly the closed form: main parts in pre-order, no markers |
| TypeCodec.UncachedClosedArgsAreClosedArgTokens | ABSoftware.ABSave/Converters/TypeTypeConverter.cs:57-65 | with caching off, the closed argument loop appends each argument's closed form |
| TypeCodec.ReadByte | ABSoftware.ABSave/Converters/TypeTypeConverter.cs:106 | a byte read consumes exactly one byte token |
| TypeCodec.ReadLittleEndianInt32 | ABSoftware.ABSave/Converters/TypeTypeConverter.cs:153 | a key read consumes one integer token of the requested width, which four raw bytes also match |
| TypeCodec.ReadKeyBeforeType | ABSoftware.ABSave/Converters/TypeTypeConverter.cs:149-159 | with caching off, nothing is read and the key is 0. With caching on, one key is read in the width of the assembly count, and a key below the table size is a hit on that entry. Every miss reports key 0 |
| TypeCodec.Params | ABSoftware.ABSave/Converters/TypeTypeConverter.cs:103 | a definition with n parameters has the open parameters 0..n-1 |
| TypeCodec.ReadMainPart | ABSoftware.ABSave/Converters/TypeTypeConverter.cs:91-97 | an assembly and a name are consumed and looked up among that assembly's types; the result has that assembly and name |
| TypeCodec.ReadType | ABSoftware.ABSave/Converters/TypeTypeConverter.cs:67-77 | input is consumed, the table only grows, and the decoded type is in the table afterwards |
| TypeCodec.ReadGenericPart | ABSoftware.ABSave/Converters/TypeTypeConverter.cs:99-112 | a non-generic main part is returned as it is; a generic one keeps its assembly and name |
| TypeCodec.ReadOpenArgs | ABSoftware.ABSave/Converters/TypeTypeConverter.cs:105-107 | the loop keeps the parameters already handled and the argument count |
| TypeCodec.ReadClosedType | ABSoftware.ABSave/Converters/TypeTypeConverter.cs:79-89 | a successful closed read consumes input, only grows the reader's table, and the decoded type is in the table afterwards |
| TypeCodec.ReadClosedGenericPart | ABSoftware.ABSave/Converters/TypeTypeConverter.cs:114-126 | a non-generic main part is returned as it is. A generic one keeps its assembly, name, value-type flag and argument count, and every argument is a type from the reader's table |
| TypeCodec.ReadClosedArgs | ABSoftware.ABSave/Converters/TypeTypeConverter.cs:120-121 | the parameters before `i` are kept; every later one is replaced by a type the open reader decoded, which is in the (only grown) table afterwards; the count is kept |
| TypeCodec.UncachedReaderStillCaches | ABSoftware.ABSave/Converters/TypeTypeConverter.cs:67-77 | with caching off, the reader still appends every decoded type to its table, since the key is reset to 0 |
| TypeCodec.UncachedOpenRoundTrip | ABSoftware.ABSave/Converters/TypeTypeConverter.cs:20-25 | with caching off, reading back the open form of a well-formed type gives the same type and leaves the rest of the input |
| TypeCodec.UncachedOpenArgsRoundTrip | ABSoftware.ABSave/Converters/TypeTypeConverter.cs:40-55 | the same for the generic arguments from any position |
| TypeCodec.DistinctTypesShareKey | ABSoftware.ABSave/Converters/TypeTypeConverter.cs:141-143 | two different new types whose keys are taken at the same assembly count are cached under the same key, whatever is written in between, and are then written identically |
| TypeCodec.FirstTwoTypesShareKey | ABSoftware.ABSave/Converters/TypeTypeConverter.cs:141-143 | the first two different non-generic types written into an empty table both get the assembly count as their key |
| TypeCodec.NestedClosedTypeUnreadable | ABSoftware.ABSave/Converters/TypeTypeConverter.cs:121 | the closed form of `L<L<X>>` cannot be read back by the closed reader |
| TypeCodec.TypeWriter.constructor | ABSoftware.ABSave/Converters/TypeTypeConverter.cs:20 | a writer with no output and an empty type table |
| TypeCodec.TypeWriter.WriteByte | ABSoftware.ABSave/Converters/TypeTypeConverter.cs:47 | appends one byte |
| TypeCodec.TypeWriter.SerializeType | ABSoftware.ABSave/Converters/TypeTypeConverter.cs:20-25 | the writer's new state is the open writer's result |
| TypeCodec.TypeWriter.SerializeClosedType | ABSoftware.ABSave/Converters/TypeTypeConverter.cs:27-32 | the writer's new state is the closed writer's result |
| TypeCodec.TypeWriter.SerializeTypeMainPart | ABSoftware.ABSave/Converters/TypeTypeConverter.cs:34-38 | appends the assembly and the definition's name |
| TypeCodec.TypeWriter.SerializeGenericPart | ABSoftware.ABSave/Converters/TypeTypeConverter.cs:40-55 | the loop's result is the argument writer's |
| TypeCodec.TypeWriter.SerializeClosedGenericPart | ABSoftware.ABSave/Converters/TypeTypeConverter.cs:57-65 | the loop's result is the closed argument writer's |
| TypeCodec.TypeWriter.SerializeKeyBeforeType | ABSoftware.ABSave/Converters/TypeTypeConverter.cs:128-147 | hit flag and new state as the key step specifies |
| TypeCodec.TypeReader.constructor | ABSoftware.ABSave/Converters/TypeTypeConverter.cs:67 | a reader at the start of its input with an empty table |
| TypeCodec.TypeReader.ReadByteToken | ABSoftware.ABSave/Converters/TypeTypeConverter.cs:106 | result and new state as the byte reader specifies |
| TypeCodec.TypeReader.DeserializeType | ABSoftware.ABSave/Converters/TypeTypeConverter.cs:67-77 | result and new state as the open reader specifies |
| TypeCodec.TypeReader.DeserializeClosedType | ABSoftware.ABSave/Converters/TypeTypeConverter.cs:79-89 | result and new state as the closed reader specifies |
| TypeCodec.TypeReader.DeserializeTypeMainPart | ABSoftware.ABSave/Converters/TypeTypeConverter.cs:91-97 | result and new state as the main-part reader specifies |
| TypeCodec.TypeReader.DeserializeGenericPart | ABSoftware.ABSave/Converters/TypeTypeConverter.cs:99-112 | the in-place loop over the parameter array gives the generic-part reader's result |
| TypeCodec.TypeReader.DeserializeClosedGenericPart | ABSoftware.ABSave/Converters/TypeTypeConverter.cs:114-126 | the in-place loop gives the closed generic-part reader's result |
| TypeCodec.TypeReader.DeserializeKeyBeforeType | ABSoftware.ABSave/Converters/TypeTypeConverter.cs:149-159 | result and new state as the key reader specifies |
| TypeCodecIntended.IndexOf | ABSoftware.ABSave/Converters/TypeTypeConverter.cs:130 | a type's key is its first position in the table |
| TypeCodecIntended.EncodeType | ABSoftware.ABSave/Converters/TypeTypeConverter.cs:20-32 | the corrected writer only grows the table, and leaves it unchanged with caching off |
| TypeCodecIntended.EncodeArgs | ABSoftware.ABSave/Converters/TypeTypeConverter.cs:40-65 | the same for the corrected argument writer |
| TypeCodecIntended.ReadKey | ABSoftware.ABSave/Converters/TypeTypeConverter.cs:153 | the corrected key is read in the width of the reader's own table size |
| TypeCodecIntended.DecodeType | ABSoftware.ABSave/Converters/TypeTypeConverter.cs:67-89 | the corrected reader consumes input and only grows the table |
| TypeCodecIntended.DecodeArgs | ABSoftware.ABSave/Converters/TypeTypeConverter.cs:99-126 | the same for its argument loop |
| TypeCodecIntended.RoundTrip | ABSoftware.ABSave/Converters/TypeTypeConverter.cs:20-159 | for every decodable type, open or closed form, caching on or off: reading back what was written gives the type and the rest of the input, and leaves the reader's table equal to the writer's |
| TypeCodecIntended.ArgsRoundTrip | ABSoftware.ABSave/Converters/TypeTypeConverter.cs:40-65 | the same for the arguments from any position |
| TypeCodecIntended.DistinctTypesDistinctKeys | ABSoftware.ABSave/Converters/TypeTypeConverter.cs:141-142 | distinct types in a table are written as distinct keys |
| ItemConverter.WithAttributeLayout | ABSoftware.ABSave/ABSaveItemConverter.cs:19-23 | null is its null tag alone. A value-type declaration has no tag unless it is `Nullable<T>` (tag 2). A reference declaration has tag 2 iff the actual type is the declared one, else 3, never followed by a type; then the body |
| ItemConverter.TypeBeforeItemLayout | ABSoftware.ABSave/ABSaveItemConverter.cs:92-105 | nothing for a value type, 2 for the declared type, otherwise 3 followed by exactly the actual type's closed form |
| ItemConverter.SerializeAttribute | ABSoftware.ABSave/ABSaveItemConverter.cs:49-68 | tag written and null flag as the attribute step specifies |
| ItemConverter.SerializeWithoutAttribute | ABSoftware.ABSave/ABSaveItemConverter.cs:25-31 | one body, by a matching type converter if the settings look for one, else by the object converter |
| ItemConverter.SerializeWithAttribute | ABSoftware.ABSave/ABSaveItemConverter.cs:19-23 | the attribute, then the body unless the item was null |
| ItemConverter.SerializeWithAttributeOfItem | ABSoftware.ABSave/ABSaveItemConverter.cs:17 | the actual type is taken from the item; a null item fails before anything is written |
| ItemConverter.SerializeTypeBeforeItem | ABSoftware.ABSave/ABSaveItemConverter.cs:92-105 | new writer state as the type-before-item step specifies |
| ItemConverter.ReadAttribute | ABSoftware.ABSave/ABSaveItemConverter.cs:73-90 | reading an attribute never grows the input |
| ItemConverter.ReadBody | ABSoftware.ABSave/ABSaveItemConverter.cs:41-47 | a body is one payload written by the converter chosen for the actual type |
| ItemConverter.ValueTypeAttributeReadsNothing | ABSoftware.ABSave/ABSaveItemConverter.cs:75-81 | a value-type declaration reads nothing: `Nullable<T>` gives `T`, any other value type itself |
| ItemConverter.ReferenceAttributeTags | ABSoftware.ABSave/ABSaveItemConverter.cs:83-89 | one tag byte: 1 null, 2 the declared type, 3 a closed type read next, anything else an invalid document at the position after the tag |
| ItemConverter.NullAttributeReadsNoBody | ABSoftware.ABSave/ABSaveItemConverter.cs:33-39 | a null attribute gives null, and no body is read |
| ItemConverter.NullableAttributeNotRead | ABSoftware.ABSave/ABSaveItemConverter.cs:57-78 | a non-null `Nullable<T>` item as written cannot be read back |
| ItemConverter.DifferentTypeWrittenWithoutType | ABSoftware.ABSave/ABSaveItemConverter.cs:64-87 | an item of another type than its reference declaration, as written, cannot be read back |
| ItemConverter.EncodeWithAttribute | ABSoftware.ABSave/ABSaveItemConverter.cs:49-68 | the corrected writer only grows the type table |
| ItemConverter.AttributeRoundTrip | ABSoftware.ABSave/ABSaveItemConverter.cs:33-39 | for every item its declaration can hold: the corrected reader gives back the item and the rest of the input, with the writer's type table |
| ItemConverter.IntendedClosedLayoutUnchanged | ABSoftware.ABSave/Converters/TypeTypeConverter.cs:27-32 | with caching off, the corrected closed form equals the closed form the writer already produces |
| ItemConverter.IntendedClosedArgsLayoutUnchanged | ABSoftware.ABSave/Converters/TypeTypeConverter.cs:57-65 | the same for the closed arguments |
| ItemConverter.IntendedDifferentTypeIsTypeBeforeItem | ABSoftware.ABSave/ABSaveItemConverter.cs:92-105 | the corrected different-type layout is what `SerializeTypeBeforeItem` writes, then the body |
| ItemConverter.DeserializeAttribute | ABSoftware.ABSave/ABSaveItemConverter.cs:73-90 | result and reader state as the attribute reader specifies |
| ItemConverter.DeserializeWithoutAttribute | ABSoftware.ABSave/ABSaveItemConverter.cs:41-47 | result and reader state as the body reader specifies |
| ItemConverter.DeserializeWithAttribute | ABSoftware.ABSave/ABSaveItemConverter.cs:33-39 | result and reader state as the attribute-then-body reader specifies |
| ItemSerialization.HandleVersionNumber | ABCo.ABSave/Serialization/Writing/Core/ItemSerializer.cs:95-105 | afterwards the converter has version info, its key cache number is unchanged, and no cached info elsewhere changes |
| ItemSerialization.WriteKeyInheritance | ABCo.ABSave/Serialization/Writing/Core/ItemSerializer.cs:161-179 | the key path only appends output and never replaces version info |
| ItemSerialization.SerializeActualType | ABCo.ABSave/Serialization/Writing/Core/ItemSerializer.cs:120-147 | the inheritance dispatch only appends output and keeps every cached version info, on success and on an exception |
| ItemSerialization.SerializeConverterHeader | ABCo.ABSave/Serialization/Writing/Core/ItemSerializer.cs:50-79 | the same for the whole header |
| ItemSerialization.SerializeConverter | ABCo.ABSave/Serialization/Writing/Core/ItemSerializer.cs:39-48 | the same for the header and the payload |
| ItemSerialization.SerializeItemNoSetup | ABCo.ABSave/Serialization/Writing/Core/ItemSerializer.cs:31-37 | the same |
| ItemSerialization.SerializeItem | ABCo.ABSave/Serialization/Writing/Core/ItemSerializer.cs:16-26 | the same, for null and non-null items |
| ItemSerialization.SerializeExactNonNullItem | ABCo.ABSave/Serialization/Writing/Core/ItemSerializer.cs:28-29 | the same |
| ItemSerialization.NullWritesOneOffBit | ABCo.ABSave/Serialization/Writing/Core/ItemSerializer.cs:19-20 | a null item is exactly one off bit, and nothing else changes |
| ItemSerialization.PresenceBit | ABCo.ABSave/Serialization/Writing/Core/ItemSerializer.cs:23-24 | at a nullable site an on bit, then the item with its header skipped; elsewhere no presence bit and the header not skipped |
| ItemSerialization.HeaderBits | ABCo.ABSave/Serialization/Writing/Core/ItemSerializer.cs:57-61 | for a non-value converter with the header not skipped, an on bit then `declared == actual`; a value converter or skipped header writes no header bit and cannot fail there |
| ItemSerialization.VersionHandledOnce | ABCo.ABSave/Serialization/Writing/Core/ItemSerializer.cs:97-98 | once a converter's version info is cached, handling its version writes nothing and reports no header applied (idempotent) |
| ItemSerialization.FirstVersionHandling | ABCo.ABSave/Serialization/Writing/Core/ItemSerializer.cs:100-104 | the first time: versioning off writes nothing and caches version 0; versioning on writes and caches the target version; the result is whether versioning is on |
| ItemSerialization.TargetVersionChoice | ABCo.ABSave/Serialization/Writing/Core/ItemSerializer.cs:107-117 | the target version is the item type's override when present, else the converter's highest version |
| ItemSerialization.OrdinaryItemLayout | ABCo.ABSave/Serialization/Writing/Core/ItemSerializer.cs:39-79 | without an inheritance dispatch, the header bits and the version step are followed by a move to the next byte exactly when the converter does not use the header and neither the header bits nor a written version applied it, and then by the converter's payload |
| ItemSerialization.InheritanceDispatch | ABCo.ABSave/Serialization/Writing/Core/ItemSerializer.cs:67-72 | when version info has an inheritance attribute and the actual type differs, the result is the inheritance dispatch and the header returns no info, so no payload is written |
| ItemSerialization.ActualTypeWrittenWithHeaderSkipped | ABCo.ABSave/Serialization/Writing/Core/ItemSerializer.cs:120-146 | in every mode the item then goes through the actual type's map item with its header skipped. Index writes the slot first; Key takes the key path; IndexOrKey writes an on bit and the slot, or else an off bit and the key path |
| ItemSerialization.IndexModeUnknownSubtypeThrows | ABCo.ABSave/Serialization/Writing/Core/ItemSerializer.cs:126-128 | Index mode with no slot for the actual type throws `UnsupportedSubType`, with nothing written |
| ItemSerialization.ListInheritanceLayout | ABCo.ABSave/Serialization/Writing/Core/ItemSerializer.cs:149-159 | a listed subtype is its compressed slot, behind an on bit when asked (IndexOrKey); an unlisted one writes nothing |
| ItemSerialization.KeyInheritanceLayout | ABCo.ABSave/Serialization/Writing/Core/ItemSerializer.cs:161-179 | a cache number is an on bit and the number. Without one it is an off bit and the string key, and the converter gets the next cache number |
| ItemSerialization.KeyCacheNumberSharedBySubtypes | ABCo.ABSave/Serialization/Writing/Core/ItemSerializer.cs:70 | after one subtype is written by key, a different subtype of the same base is written as the same cache number |
| ItemSerialization.WriteKeyInheritanceIntended | ABCo.ABSave/Serialization/Writing/Core/ItemSerializer.cs:161-179 | the corrected key path gives the (base, subtype) pair a number and keeps all earlier ones |
| ItemSerialization.IntendedKeyNumbersStayDistinct | ABCo.ABSave/Serialization/Writing/Core/ItemSerializer.cs:164-177 | corrected, cache numbers stay distinct per (base, subtype). A known pair writes an on bit and its own number, with nothing else changed; a new pair writes an off bit and its string key, and gets the next number |
| ItemWriting.ItemSerializer.constructor | ABCo.ABSave/Serialization/Writing/Core/ItemSerializer.cs:52 | a session with no output, no cached details and key cache counter 0 |
| ItemWriting.ItemSerializer.SerializeItem | ABCo.ABSave/Serialization/Writing/Core/ItemSerializer.cs:16-26 | exception and new session as the item writer specifies |
| ItemWriting.ItemSerializer.SerializeExactNonNullItem | ABCo.ABSave/Serialization/Writing/Core/ItemSerializer.cs:28-29 | the same, with the header skipped |
| ItemWriting.ItemSerializer.SerializeItemNoSetup | ABCo.ABSave/Serialization/Writing/Core/ItemSerializer.cs:31-37 | the same |
| ItemWriting.ItemSerializer.SerializeConverter | ABCo.ABSave/Serialization/Writing/Core/ItemSerializer.cs:39-48 | the same |
| ItemWriting.ItemSerializer.SerializeConverterHeader | ABCo.ABSave/Serialization/Writing/Core/ItemSerializer.cs:50-79 | version info returned, exception and new session as the header writer specifies |
| ItemWriting.ItemSerializer.WriteHeaderNullAndInheritance | ABCo.ABSave/Serialization/Writing/Core/ItemSerializer.cs:82-89 | appends the on bit and the same-type bit, and returns the latter |
| ItemWriting.ItemSerializer.HandleVersionNumber | ABCo.ABSave/Serialization/Writing/Core/ItemSerializer.cs:95-105 | updates the converter's cached details in place as the version step specifies |
| ItemWriting.ItemSerializer.WriteNewVersionInfo | ABCo.ABSave/Serialization/Writing/Core/ItemSerializer.cs:107-117 | appends and returns the target version |
| ItemWriting.ItemSerializer.SerializeActualType | ABCo.ABSave/Serialization/Writing/Core/ItemSerializer.cs:120-147 | exception and new session as the inheritance dispatch specifies |
| ItemWriting.ItemSerializer.TryWriteListInheritance | ABCo.ABSave/Serialization/Writing/Core/ItemSerializer.cs:149-159 | appends the slot as specified and returns whether there was one |
| ItemWriting.ItemSerializer.WriteKeyInheritance | ABCo.ABSave/Serialization/Writing/Core/ItemSerializer.cs:161-179 | new session as the key path specifies |
| ItemWriting.ItemSerializer.AddNewKeyCacheNumber | ABCo.ABSave/Serialization/Writing/Core/ItemSerializer.cs:177 | the converter gets the session's next key cache number, and the counter advances |
| LegacySerialization.Reset | ABSoftware.ABSave/Serialization/ABSaveSerializer.cs:59-65 | all four session caches empty, output and settings untouched |
| LegacySerialization.Getter | ABSoftware.ABSave/Serialization/ABSaveSerializer.cs:195 | a member's value is one of the object's own fields, or null |
| LegacySerialization.ConverterVersion | ABSoftware.ABSave/Serialization/ABSaveSerializer.cs:144-149 | the converter version step (as written or corrected) only appends output and never replaces a cached version info |
| LegacySerialization.ObjectVersion | ABSoftware.ABSave/Serialization/ABSaveSerializer.cs:175-180 | the same for the object version step |
| LegacySerialization.SerializeItem | ABSoftware.ABSave/Serialization/ABSaveSerializer.cs:74-84 | writing an item only appends output, keeps every cached version info and touches no other session state |
| LegacySerialization.SerializeItemInHeader | ABSoftware.ABSave/Serialization/ABSaveSerializer.cs:86-95 | the same for the overload with a header |
| LegacySerialization.SerializeExactNonNullItem | ABSoftware.ABSave/Serialization/ABSaveSerializer.cs:97-104 | the same |
| LegacySerialization.SerializePossibleNullableItem | ABSoftware.ABSave/Serialization/ABSaveSerializer.cs:106-111 | the same |
| LegacySerialization.SerializeItemNoSetup | ABSoftware.ABSave/Serialization/ABSaveSerializer.cs:113-132 | the same, through a runtime item's inner item |
| LegacySerialization.SerializeConverterItem | ABSoftware.ABSave/Serialization/ABSaveSerializer.cs:134-163 | the same for a converter item |
| LegacySerialization.SerializeObjectItem | ABSoftware.ABSave/Serialization/ABSaveSerializer.cs:165-190 | the same for an object item |
| LegacySerialization.SerializeFromMembers | ABSoftware.ABSave/Serialization/ABSaveSerializer.cs:192-196 | the same for the member loop |
| LegacySerialization.SerializeActualType | ABSoftware.ABSave/Serialization/ABSaveSerializer.cs:223-250 | the same for the inheritance dispatch |
| LegacySerialization.PresenceBit | ABSoftware.ABSave/Serialization/ABSaveSerializer.cs:86-111 | a non-null item, in either overload, is an on bit followed by the item with its header skipped at a nullable site; elsewhere there is no presence bit and the header is not skipped |
| LegacySerialization.NullItemLayout | ABSoftware.ABSave/Serialization/ABSaveSerializer.cs:74-92 | a null item is the single byte 0, or with a header an off bit and the header applied |
| LegacySerialization.OrdinaryConverterItemLayout | ABSoftware.ABSave/Serialization/ABSaveSerializer.cs:134-163 | with the corrected version cache the version step succeeds; without an inheritance dispatch the header is applied unless the converter uses it, and the converter's payload follows |
| LegacySerialization.HeaderNullAndInheritanceBits | ABSoftware.ABSave/Serialization/ABSaveSerializer.cs:199-208 | a value item type writes nothing and reports the same type; otherwise an on bit, then `declared == actual`, which is returned |
| LegacySerialization.NewVersionChoice | ABSoftware.ABSave/Serialization/ABSaveSerializer.cs:210-220 | the version written and returned is the item type's target version when present, else the highest version |
| LegacySerialization.IndexModeUnknownSubtypeThrows | ABSoftware.ABSave/Serialization/ABSaveSerializer.cs:227-229 | Index mode with no slot throws `UnsupportedSubType` with nothing written |
| LegacySerialization.IndexOrKeyLayout | ABSoftware.ABSave/Serialization/ABSaveSerializer.cs:236-249 | IndexOrKey writes the slot and then an on bit when listed, else an off bit then the string key; then the actual type with its header skipped |
| LegacySerialization.MembersInArrayOrder | ABSoftware.ABSave/Serialization/ABSaveSerializer.cs:192-196 | serialising members `a + b` is serialising `a`, then `b` from where `a` left off; an exception in `a` ends it |
| LegacySerialization.MembersShift | ABSoftware.ABSave/Serialization/ABSaveSerializer.cs:194 | the loop's later members are serialised exactly as those members on their own |
| LegacySerialization.AsWrittenNonNullItemAlwaysThrows | ABSoftware.ABSave/Serialization/ABSaveSerializer.cs:144-152 | as written, with empty version caches every non-null item throws on the missing version info and the caches stay empty |
| LegacySerialization.AsWrittenHitWritesVersionAgain | ABSoftware.ABSave/Serialization/ABSaveSerializer.cs:144-148 | as written, a cache hit writes the version again and then fails on the duplicate key |
| LegacySerialization.CorrectedVersionWrittenOnce | ABSoftware.ABSave/Serialization/ABSaveSerializer.cs:144-149 | corrected, the first step writes exactly the target version and caches the info for it, and the next step writes nothing and returns that info |
| LegacySerialization.CorrectedObjectVersionWrittenOnce | ABSoftware.ABSave/Serialization/ABSaveSerializer.cs:175-180 | the same for object items |
| LegacySerialization.CorrectedLaterItemsWriteNoVersion | ABSoftware.ABSave/Serialization/ABSaveSerializer.cs:144-149 | corrected, once a converter's version is cached, every later session state writes no version for it |
| LegacyWriting.ABSaveSerializer.constructor | ABSoftware.ABSave/Serialization/ABSaveSerializer.cs:29-39 | empty caches, no output, no target versions |
| LegacyWriting.ABSaveSerializer.Initialize | ABSoftware.ABSave/Serialization/ABSaveSerializer.cs:43-57 | an unwritable stream is refused before any state changes. Otherwise the session has a fresh output, the target versions, `ShouldReverseEndian = UseLittleEndian != host little-endian`, and is reset |
| LegacyWriting.ABSaveSerializer.Reset | ABSoftware.ABSave/Serialization/ABSaveSerializer.cs:59-65 | the four caches are cleared in place |
| LegacyWriting.ABSaveSerializer.SerializeItem | ABSoftware.ABSave/Serialization/ABSaveSerializer.cs:74-84 | exception and new session as the item writer specifies |
| LegacyWriting.ABSaveSerializer.SerializeItemInHeader | ABSoftware.ABSave/Serialization/ABSaveSerializer.cs:86-95 | the same for the header overload |
| LegacyWriting.ABSaveSerializer.SerializeExactNonNullItem | ABSoftware.ABSave/Serialization/ABSaveSerializer.cs:97-104 | the same with the header skipped |
| LegacyWriting.ABSaveSerializer.SerializePossibleNullableItem | ABSoftware.ABSave/Serialization/ABSaveSerializer.cs:106-111 | the same |
| LegacyWriting.ABSaveSerializer.SerializeItemNoSetup | ABSoftware.ABSave/Serialization/ABSaveSerializer.cs:113-132 | the same |
| LegacyWriting.ABSaveSerializer.SerializeConverterItem | ABSoftware.ABSave/Serialization/ABSaveSerializer.cs:134-163 | the same, with the version cache updated in place |
| LegacyWriting.ABSaveSerializer.SerializeObjectItem | ABSoftware.ABSave/Serialization/ABSaveSerializer.cs:165-190 | the same |
| LegacyWriting.ABSaveSerializer.SerializeFromMembers | ABSoftware.ABSave/Serialization/ABSaveSerializer.cs:192-196 | the index loop gives the member writer's result, stopping at the first exception |
| LegacyWriting.ABSaveSerializer.WriteHeaderNullAndInheritance | ABSoftware.ABSave/Serialization/ABSaveSerializer.cs:199-208 | header bits and result as specified |
| LegacyWriting.ABSaveSerializer.WriteNewVersionInfo | ABSoftware.ABSave/Serialization/ABSaveSerializer.cs:210-220 | appends and returns the target version |
| LegacyWriting.ABSaveSerializer.SerializeActualType | ABSoftware.ABSave/Serialization/ABSaveSerializer.cs:223-250 | exception and new session as the inheritance dispatch specifies |
| LegacyWriting.ABSaveSerializer.TryWriteListInheritance | ABSoftware.ABSave/Serialization/ABSaveSerializer.cs:252-261 | appends the slot when listed and returns whether it was |
| LegacyWriting.ABSaveSerializer.WriteKeyInheritance | ABSoftware.ABSave/Serialization/ABSaveSerializer.cs:263-267 | appends the string key |

## Left out

**Not modelled: I/O and encoding.**
- Streams, `BitWriter`/`BitTarget` bit packing, byte order and the encodings of compressed integers and strings are not modelled. Each primitive write is one token.
- `ShouldReverseEndian` is computed by `Initialize`; its use by the primitive writers (`WriteByte`, `WriteCompressed`, `WriteString`, in the other part of the partial `ABSaveSerializer` class) is not modelled.

**Not modelled: concurrency.**
- The locks around the type table are not modelled. The yield-and-retry spin in `GetExistingOrAddNull` is one attempt that returns `Busy`/`Retry`.
- `WaitUntilNotGenerating` (ItemSerializer.cs:34, ABSaveSerializer.cs:116) is not modelled.
- The second runtime-item check under the lock in `GetRuntimeMap` (MapGenerator.cs:60-62) cannot differ from the first check in a sequential model. It is omitted.

**Code this model does not include; what stands in for it.**
- Converter payloads (`converter.Serialize`, `ABSaveObjectConverter`) are one `Payload` token naming the writer.
- `AssemblyTypeConverter` is not part of this model. An assembly is one `AssemblyRef` token, and `CachedAssemblies` appears only as a count. The type codec's writes and reads leave that count unchanged, although the assembly converter (TypeTypeConverter.cs:36 and :93) may add the assembly to it. The model is exact while every assembly written is already cached.
- TypeCodec.DistinctTypesShareKey: the collision is stated for two keys taken at the same assembly count, which is what happens when both types' assemblies are already cached. A new assembly in between would raise the count and give the second type a different key.
- `GetRequiredNoOfBytesToStoreNumber` is not part of this model. `Wire.ByteWidth` (the minimal number of bytes, 0 for 0) stands for it.
- `KeyInheritanceHandler.GetOrAddTypeKeyFromCache`, `CreateNewCache`, `ConverterVersionInfo.CreateFromContext`, `MapGenerator.GetVersionOrAddNull` and `GetRuntimeMapItem` are parameters of the model (pure functions). Their own caches are not modelled.
- `TryGenerateConverter` and `GenerateNewObject` are not part of this model. Which converter, if any, a type gets is a parameter. Both generators are taken to create a new item of their kind and to publish it in the type table through `ApplyItem`, since the code shown never stores the item itself.
- MapGeneration.MapGenerator.GenerateMap: the `allTypes == old(allTypes)[t := Ready(item)]` clause rests on that assumption. MapGenerator.cs:28-45 itself only clears `IsGenerating` and returns the item.
- `ABSaveMapItem` is not part of this model. A member map item is taken to start with `UseReflection` on and no accessors.

**Definitions not shown in the source, and the assumptions made about them.**
- `CachedConverterDetails` is not part of this model. It is taken to be a reference type, so the update through `ref cache.CurrentInfo` persists in the session.
- `AddNewKeyCacheNumber` is not part of this model. It is taken to give the converter the session's next number.
- `ConverterVersionInfo`/`ObjectVersionInfo` are not part of this model. They are taken to be reference types, so the info a failed `TryGetValue` leaves is null and reading it throws (`NullVersionInfo`).

**Legacy serializer.**
- The `SerializeRoot`, `WriteType` and `WriteClosedType` wrappers and the `SerializeActualType(obj, type)` overload (ABSaveSerializer.cs:69-72, 269-292) are not modelled. They are one-line delegations.
- `ConverterUsesHeader` (ABSaveSerializer.cs:294-295) is not modelled: it is an unchecked cast.
- The two `SerializeExactNonNullItem` overloads write the same tokens and are one member.
- The "Unrecognized map item" throw (ABSaveSerializer.cs:129-130) cannot happen: the model's three kinds of map item are exhaustive.
- The header-less `SerializeItem` is modelled with `BitTarget` as a fresh header that has no token of its own. Whether the object path's header bits are ever flushed is not modelled.

**Limits of the model's domain and types.**
- The `int.MaxValue` cap on the writer's type table is in the as-written codec but not in the corrected one (`TypeCodecIntended`).
- The type codec encodes named types only. A bare generic parameter at top level (`requires t.Named?`) is not a type `SerializeType` is given.
- `LegacySerialization.Getter`: a member accessor reads one of the object's fields; a field the object lacks reads as null.
- LegacySerialization.Getter: a member's value is a strictly smaller part of the object, so object graphs are finite trees. On a cyclic graph the member loop (ABSaveSerializer.cs:192-196) recurses without end; that non-termination is not modelled.
- `ItemSerialization.KeyInheritanceLayout` states the on-bit case for cache numbers in the 32-bit signed range only. `AsUInt` models the `(uint)` cast for the others.
- `ItemSerialization.KeyCacheNumberSharedBySubtypes` requires the key cache counter to be below 2^31, the range of the 32-bit field.

**Floating point and dates.**
- Tick values beyond their .NET range are excluded by `ValidTickValue`.
- `DateTime` kind bits are not modelled.

## Findings

| source | as written | input that shows it | evidently intended | confidence | as-written member | corrected member |
|---|---|---|---|---|---|---|
| ABSoftware.ABSave/Serialization/ABSaveSerializer.cs:144-149 | `if (_converterVersions.TryGetValue(...))` enters the "write new version and add" branch on a hit (the same at :175-180 for objects). A miss leaves a null info that is read next | any non-null item after `Initialize`: the caches are empty, so the item throws. A hit, were one possible, would write the version again and throw on `Add` | `!TryGetValue`: write the version once per item per session and cache it | not executed; relies on the version infos being reference types | LegacySerialization.AsWrittenNonNullItemAlwaysThrows | LegacySerialization.CorrectedVersionWrittenOnce |
| ABSoftware.ABSave/Converters/TypeTypeConverter.cs:141-143 | a new type is cached under `CachedAssemblies.Count` | with caching on and every assembly already cached, two different types written one after the other both get the assembly count as their key. The second occurrence of either is written as the same key | a new type's key is its position in the table, so distinct types have distinct keys (`TypeCodecIntended.DistinctTypesDistinctKeys`) and every type written is read back | not executed | TypeCodec.DistinctTypesShareKey | TypeCodecIntended.RoundTrip |
| ABSoftware.ABSave/Converters/TypeTypeConverter.cs:121 | the closed generic reader reads each argument with the open `DeserializeType` | the closed form of `List<List<int>>` with caching off: the inner argument is read as an open type, which expects a marker byte where the closed form has an assembly | closed arguments are read with `DeserializeClosedType` | not executed | TypeCodec.NestedClosedTypeUnreadable | TypeCodecIntended.RoundTrip |
| ABCo.ABSave/Serialization/Writing/Core/ItemSerializer.cs:70 | the key cache number passed is the base converter's single `KeyInheritanceCachedValue` | a Key-mode base with subtypes A and B: after A is written by key, B is written as A's cache number | one cache number per (base, subtype) pair | not executed; relies on `AddNewKeyCacheNumber` storing the number on the base converter's details | ItemSerialization.KeyCacheNumberSharedBySubtypes | ItemSerialization.IntendedKeyNumbersStayDistinct |
| ABSoftware.ABSave/ABSaveItemConverter.cs:57-62 | the writer writes the matching-type attribute for a non-null `Nullable<T>` | a non-null `int?` item: the reader treats the value type as having no attribute (:75-78) and finds the tag byte where the body should be | writer and reader agree: `Nullable<T>` carries a null/matching attribute on both sides | not executed | ItemConverter.NullableAttributeNotRead | ItemConverter.AttributeRoundTrip |
| ABSoftware.ABSave/ABSaveItemConverter.cs:19-23 | `SerializeWithAttribute` writes the different-type attribute (:65) and then the body, without the actual type | an instance of a subclass under a reference declaration: the reader (:87) reads a closed type where the body is | the different-type attribute is followed by the actual type's closed form, as `SerializeTypeBeforeItem` (:92-105) writes it | not executed | ItemConverter.DifferentTypeWrittenWithoutType | ItemConverter.AttributeRoundTrip |
