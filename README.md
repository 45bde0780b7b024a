# ink storage: layout metadata, pull-or-initialize, upgradable wrapper

This project models three parts of the ink smart-contract storage system and
proves properties about them.

- **Storage layout metadata.** A contract's storage layout is a tree. Its
  leaves are cells: a 32-bit storage key plus the type stored there. Its
  inner nodes are structs, whose fields may be named or unnamed, enums, which
  have a dispatch key and a variant table, and hashing layouts, which have an
  offset, a strategy and an inner layout.
  - `into_portable` rewrites the tree against a type registry. Every type
    descriptor becomes a numeric handle. The registry numbers types in the
    order they are first met and never registers a type twice.
  - The portable tree serializes to a JSON document. Keys and byte strings are
    written as lower-case hex with a `0x` prefix. Enum variants are keyed by
    their discriminant in decimal.
  - The modules are `Render` (key and byte rendering), `Layout` (the tree and
    the enum variant table), `Portable` (the registry and `into_portable`),
    `LayoutJson` (serialization) and `LayoutScenarios` (the library's layout
    tests, each stated as a lemma about the exact document produced).
- **Pull-or-initialize.** A root value is loaded from one storage key. A type
  with an on-call initializer falls back to `Default` followed by `initialize`
  when the entry is missing or does not decode. Any other type aborts with one
  of two messages. The compile-time choice between these two paths is an
  explicit optional initializer here. The store is a map from keys to
  entries. An entry either holds a value or holds bytes that fail to decode.
  Module: `PullOrInit`, over `Store`.
- **The upgradable wrapper.** `Upgradable<T, Status>` wraps one inner value.
  Every spread, packed, allocation and layout operation delegates to the inner
  value with the same cursor or key, with one exception. A `NotInitialized`
  wrapper's spread pull first reads the slot under the cursor and allocates a
  default when that slot is empty.
  - The contract store is a `Storage` class and the key cursor is a `KeyPtr`
    class, both in module `Store`. Persistence methods update them in place.
  - The inner type is a struct of packed leaf fields. Spread persistence puts
    field `i` in slot `root + i`, wrapping at 2^32. This is the loop-based
    module `Spread`.
  - The wrapper itself is module `Upgradable`. Its `NotInitialized` spread
    pull follows the corrected presence check described under "## Findings".
    The check as written is modelled beside it.

## Model

| member | source | states |
|---|---|---|
| Render.RenderKey | crates/metadata/src/layout/tests.rs:19-23 | a rendered key is 10 characters: `0x` and eight lower-case hex digits |
| Render.RenderKeyShape | crates/metadata/src/layout/tests.rs:19-23 | a rendered key is `0x` plus 8 lower-case hex digits whose value is the key |
| Render.RenderKeyInjective | crates/metadata/src/layout/tests.rs:19-23 | distinct keys render to distinct strings |
| Render.RenderedKeyOne | crates/metadata/src/layout/tests.rs:19-23 | key 1 renders as `0x00000001` |
| Render.RenderedKey345 | crates/metadata/src/layout/tests.rs:46 | key 345 renders as `0x00000159` |
| Render.RenderedKey234 | crates/metadata/src/layout/tests.rs:89 | key 234 renders as `0x000000ea` |
| Render.RenderedKey123 | crates/metadata/src/layout/tests.rs:132 | key 123 renders as `0x0000007b` |
| Render.RenderedKey456 | crates/metadata/src/layout/tests.rs:201 | key 456 renders as `0x000001c8` |
| Render.RenderedKey567 | crates/metadata/src/layout/tests.rs:286 | key 567 renders as `0x00000237` |
| Render.KeyBytesValue | crates/metadata/src/layout/tests.rs:19-23 | the four big-endian bytes of a key have the key as their value |
| Render.HexValueOfBytesHex | crates/metadata/src/layout/tests.rs:19-23 | the hex digits of a byte string denote the byte string's big-endian value |
| Render.BytesHexAppend | crates/metadata/src/layout/tests.rs:286-291 | the hex rendering of a concatenation is the concatenation of the renderings |
| Render.RenderBytes | crates/metadata/src/layout/tests.rs:286-291 | a byte string renders as `""` exactly when it is empty; otherwise as `0x` plus two lower-case hex digits per byte |
| Render.RenderBytesRoundTrip | crates/metadata/src/layout/tests.rs:286-291 | parsing a rendered byte string gives back the bytes |
| Render.DecimalRoundTrip | crates/metadata/src/layout/tests.rs:133-142 | the decimal name of a discriminant reads back as that discriminant |
| Render.DecimalInjective | crates/metadata/src/layout/tests.rs:133-142 | distinct discriminants have distinct decimal names |
| Layout.InsertVariant | crates/metadata/src/layout/tests.rs:111-121 | inserting a variant keeps the table sorted; the new discriminant maps to the new body and every other lookup is unchanged |
| Layout.NewEnum | crates/metadata/src/layout/tests.rs:150-190 | an enum built from pairs dispatches on the given key and its table is ordered by discriminant, each discriminant once |
| Layout.NewEnumTable | crates/metadata/src/layout/tests.rs:150-190 | an enum built from (discriminant, struct) pairs keeps its dispatch key, and its table maps each discriminant to the last body given for it |
| Layout.CollectSortedPairs | crates/metadata/src/layout/tests.rs:111-121 | pairs already in ascending discriminant order form the table as given |
| Layout.InsertAbove | crates/metadata/src/layout/tests.rs:150-190 | a variant above every present discriminant is appended at the end |
| Layout.LookupBelowFirst | crates/metadata/src/layout/tests.rs:111-121 | a sorted table has no entry below its first discriminant |
| Portable.NewRegistry | crates/metadata/src/layout/tests.rs:35-37 | a new registry holds no type descriptor |
| Portable.Register | crates/metadata/src/layout/tests.rs:35-37 | registering returns a handle that resolves to the type; a known type keeps its handle and leaves the registry alone; a new one is appended |
| Portable.RegisterTwice | crates/metadata/src/layout/tests.rs:35-37 | registering the same type again yields the same handle and registry |
| Portable.DistinctHandles | crates/metadata/src/layout/tests.rs:35-37 | different types get different handles |
| Portable.AppendNewConcat | crates/metadata/src/layout/tests.rs:35-37 | registering two type lists one after the other is registering their concatenation |
| Portable.IntoPortable | crates/metadata/src/layout/tests.rs:35-37 | the registry grows by the tree's cell types in first-met order; the tree keeps its shape, keys and names, so a tree whose enum tables are sorted stays so; every handle resolves to the cell's original type |
| Portable.HandlesAreCanonical | crates/metadata/src/layout/tests.rs:33-65 | each cell's handle is its type's first index in the final registry, so two cells share a handle exactly when they share a type |
| Portable.FreshRegistryOrder | crates/metadata/src/layout/tests.rs:33-65 | from an empty registry the handles are distinct and the first cell's type gets handle 0 |
| Portable.ResolvesConcat | crates/metadata/src/layout/tests.rs:33-65 | handles resolved against one registry resolve when concatenated |
| Portable.ResolvesGrow | crates/metadata/src/layout/tests.rs:33-65 | handles keep resolving as the registry grows |
| LayoutJson.StrategyJson | crates/metadata/src/layout/tests.rs:286-291 | a strategy is an object with exactly the members `hasher`, `prefix` and `postfix`; a byte string is written as the empty string exactly when it is empty |
| LayoutJson.LayoutToJson | crates/metadata/src/layout/tests.rs:33-66 | every layout is an object with exactly one member, and that member's name (`cell`, `struct`, `enum` or `hash`) is the layout's kind |
| LayoutJson.StrategyRoundTrip | crates/metadata/src/layout/tests.rs:286-291 | a hashing strategy's JSON (hasher name, prefix, postfix) parses back to the strategy |
| LayoutJson.VariantsJsonKeys | crates/metadata/src/layout/tests.rs:130-145 | the variants object has exactly the decimal discriminants as member names |
| LayoutJson.VariantsJsonMembers | crates/metadata/src/layout/tests.rs:130-145 | in a sorted table each variant's member is that variant's JSON |
| LayoutJson.EnumJson | crates/metadata/src/layout/tests.rs:123-148 | an enum's JSON carries the rendered dispatch key and each variant under its decimal name, `{"fields": []}` for a fieldless variant |
| LayoutScenarios.NamedFieldsStructLayout | crates/metadata/src/layout/tests.rs:25-31 | the named-field struct's cells hold an `i32` and then an `i64` |
| LayoutScenarios.TupleStructLayout | crates/metadata/src/layout/tests.rs:68-74 | the tuple struct's cells hold an `i32` and then an `i64` |
| LayoutScenarios.ClikeEnumLayout | crates/metadata/src/layout/tests.rs:111-121 | the C-like enum dispatches on the given key and its table is three empty bodies for discriminants 0, 1 and 2 |
| LayoutScenarios.MixedEnumLayout | crates/metadata/src/layout/tests.rs:150-190 | the mixed enum dispatches on the given key; its table holds discriminants 0, 1 and 2 in order, an empty body, then two bodies with `i32` and `i64` cells |
| LayoutScenarios.UnboundedHashingLayout | crates/metadata/src/layout/tests.rs:257-269 | the hashing layout sits at the given offset and its element is one cell of `(i32, bool)` |
| LayoutScenarios.NamedFieldsWork | crates/metadata/src/layout/tests.rs:25-66 | the named-field struct at 345 registers `[i32, i64]` and serializes to the expected document with key `0x00000159` and handles 0 and 1 |
| LayoutScenarios.TupleStructWork | crates/metadata/src/layout/tests.rs:68-109 | the tuple struct at 234 serializes with `null` names, key `0x000000ea` and handles 0 and 1 |
| LayoutScenarios.TwoFieldsStructWork | crates/metadata/src/layout/tests.rs:25-109 | any two-field struct of `i32` and `i64` cells registers both types and serializes with handles 0 and 1 |
| LayoutScenarios.TwoFieldsPortable | crates/metadata/src/layout/tests.rs:33-65 | compacting the two fields from an empty registry gives handles 0 and 1 and registry `[i32, i64]` |
| LayoutScenarios.TwoFieldsPortableAgain | crates/metadata/src/layout/tests.rs:193-255 | compacting the same two fields against a registry that already holds them reuses handles 0 and 1 and leaves the registry alone |
| LayoutScenarios.ClikeEnumWork | crates/metadata/src/layout/tests.rs:111-148 | the C-like enum at 123 registers nothing and serializes with dispatch key `0x0000007b` and three empty variants |
| LayoutScenarios.MixedEnumWork | crates/metadata/src/layout/tests.rs:150-255 | the mixed enum at 456 registers `[i32, i64]` once and serializes both field-carrying variants with handles 0 and 1 |
| LayoutScenarios.UnboundedLayoutWorks | crates/metadata/src/layout/tests.rs:257-296 | the hashing layout at 567 serializes with offset `0x00000237`, hasher `Blake2x256`, the rendered prefix and an empty postfix |
| LayoutScenarios.RenderedHashmapPrefix | crates/metadata/src/layout/tests.rs:257-296 | the prefix bytes render as `0x696e6b2073746f7261676520686173686d6170` |
| LayoutScenarios.HashmapPrefixIsAscii | crates/metadata/src/layout/tests.rs:263 | the prefix bytes are the ASCII codes of `ink storage hashmap` |
| LayoutScenarios.ThreeVariantsJson | crates/metadata/src/layout/tests.rs:130-145 | three variants numbered 0, 1 and 2 serialize to an object with members `"0"`, `"1"` and `"2"` |
| LayoutScenarios.ThreeVariantsPortable | crates/metadata/src/layout/tests.rs:150-190 | compacting a three-variant table threads the registry through the variants in order |
| Store.ReadEntry | crates/storage/src/pull_or_init.rs:37-44 | a read is absent exactly when no entry exists, a decode error exactly when the entry is corrupt, and otherwise gives the stored value |
| Store.Advance | examples/proxy/upgradeable_flipper/upgradable.rs:42-52 | advancing a key by fewer than 2^32 slots adds the count, wrapping once at 2^32 |
| Store.AdvanceAdd | examples/proxy/upgradeable_flipper/upgradable.rs:42-52 | advancing twice is advancing by the sum |
| Store.AdvanceDistinct | examples/proxy/upgradeable_flipper/upgradable.rs:42-52 | fewer than 2^32 consecutive slots are pairwise distinct keys |
| Store.Storage.Get | examples/proxy/upgradeable_flipper/upgradable.rs:60-62 | reading returns the store's read of the key and changes nothing |
| Store.Storage.Set | examples/proxy/upgradeable_flipper/upgradable.rs:84-86 | writing changes exactly the one key |
| Store.Storage.Clear | examples/proxy/upgradeable_flipper/upgradable.rs:88-90 | clearing removes exactly the one key |
| Store.KeyPtr.Key | examples/proxy/upgradeable_flipper/upgradable.rs:60 | gives the key the cursor currently points at, without moving it |
| Store.KeyPtr.NextFor | examples/proxy/upgradeable_flipper/upgradable.rs:42-44 | hands out the current key and moves the cursor past the field |
| PullOrInit.PullOrInitWith | crates/storage/src/pull_or_init.rs:34-47 | a stored value is returned; a missing or undecodable entry gives `initialize` applied to the default |
| PullOrInit.PullOrInitFallback | crates/storage/src/pull_or_init.rs:49-61 | a value exactly when one is stored; "storage entry was empty" exactly when nothing is stored; "could not properly decode storage entry" exactly when the entry is corrupt |
| PullOrInit.PullOrInitDispatch | crates/storage/src/pull_or_init.rs:63-73 | a type with an initializer takes the initializing path; any other type takes the fallback |
| PullOrInit.DecodeFailureIsAbsence | crates/storage/src/pull_or_init.rs:38-43 | with an initializer, a corrupt entry behaves exactly like a missing one |
| PullOrInit.StoredValueWins | crates/storage/src/pull_or_init.rs:44 | with an initializer, a stored value is returned whatever the initializer does |
| PullOrInit.OnlyFallbackAborts | crates/storage/src/pull_or_init.rs:34-61 | the load aborts exactly when the type has no initializer and no decodable value is stored |
| PullOrInit.PathsAgreeOnStoredValue | crates/storage/src/pull_or_init.rs:34-60 | both paths return the same stored value |
| PullOrInit.ReadsOnlyItsKey | crates/storage/src/pull_or_init.rs:36-58 | the result depends only on the entry at the key |
| PullOrInit.InitWorks | crates/storage/src/pull_or_init.rs:89-94 | nothing stored at 111: the initializer gives 123 |
| PullOrInit.PullOrInitWorks | crates/storage/src/pull_or_init.rs:96-104 | 456 stored at 111: 456 is returned |
| PullOrInit.PullOrInitFails | crates/storage/src/pull_or_init.rs:106-112 | a plain integer with nothing stored aborts with "storage entry was empty" |
| PullOrInit.PullWorks | crates/storage/src/pull_or_init.rs:114-120 | a plain integer 321 stored at 111 is returned |
| Spread.ReadLeaves | examples/proxy/upgradeable_flipper/upgradable.rs:60-62 | reading `n` leaves is absent exactly when the slot is empty, and succeeds exactly when the slot holds at least `n` leaves, giving the first `n` |
| Spread.PullPackedRoot | examples/proxy/upgradeable_flipper/upgradable.rs:80-82 | a packed load succeeds exactly when the read does, and aborts with the empty-entry or decode-failure message exactly in those cases |
| Spread.PullFields | examples/proxy/upgradeable_flipper/upgradable.rs:42-44 | a spread pull of `n` fields succeeds exactly when each slot `root + i` loads as one leaf, and then leaf `i` is that load; when it aborts, it aborts with the message of the first field whose load fails |
| Spread.PushFields | examples/proxy/upgradeable_flipper/upgradable.rs:46-48 | a spread push keeps every key already present and fills the slot of every field |
| Spread.ClearFields | examples/proxy/upgradeable_flipper/upgradable.rs:50-52 | a spread clear adds no key and leaves the slot of every field empty |
| Spread.PushFieldsContents | examples/proxy/upgradeable_flipper/upgradable.rs:46-48 | a spread push stores field `i` alone in slot `root + i` and leaves every other key untouched |
| Spread.ClearFieldsContents | examples/proxy/upgradeable_flipper/upgradable.rs:50-52 | a spread clear empties exactly the value's slots |
| Spread.PullAfterPush | examples/proxy/upgradeable_flipper/upgradable.rs:42-48 | pulling what was pushed at the same root gives the value back |
| Spread.PullPrefix | examples/proxy/upgradeable_flipper/upgradable.rs:42-44 | if the slots hold the fields one by one, pulling the first `m` fields gives the first `m` values |
| Spread.PullAfterClear | examples/proxy/upgradeable_flipper/upgradable.rs:42-52 | pulling after a clear aborts with "storage entry was empty" |
| Spread.PanicPersists | examples/proxy/upgradeable_flipper/upgradable.rs:42-44 | once a pull of the first `m` fields aborts, pulling more fields aborts with the same message |
| Spread.PullSpreadInner | examples/proxy/upgradeable_flipper/upgradable.rs:42-44 | the loop returns the spread pull of the store at the cursor and, on success, moves the cursor past the value |
| Spread.PushSpreadInner | examples/proxy/upgradeable_flipper/upgradable.rs:46-48 | the loop leaves the store equal to the spread push and moves the cursor past the value |
| Spread.ClearSpreadInner | examples/proxy/upgradeable_flipper/upgradable.rs:50-52 | the loop leaves the store equal to the spread clear and moves the cursor past the value |
| Spread.AllocateSpreadInner | examples/proxy/upgradeable_flipper/upgradable.rs:107-117 | allocation gives the default fields and moves the cursor past them |
| Spread.FieldLayouts | examples/proxy/upgradeable_flipper/upgradable.rs:170-177 | field `i`'s layout is a cell at slot `root + i` with the field's name and type |
| Spread.LayoutInner | examples/proxy/upgradeable_flipper/upgradable.rs:174-176 | the loop builds the inner struct layout and moves the cursor past it |
| Spread.LayoutLocatesFields | examples/proxy/upgradeable_flipper/upgradable.rs:170-177 | the cell the layout names for field `i` is the slot where a spread push stores that field |
| Upgradable.PushUsesFootprintSlots | examples/proxy/upgradeable_flipper/upgradable.rs:38-72 | under either status, a spread push of a value whose field count is `FOOTPRINT` writes field `i` alone to slot `root + i`; these `FOOTPRINT` slots are pairwise distinct and no other key changes |
| Upgradable.ClearUsesFootprintSlots | examples/proxy/upgradeable_flipper/upgradable.rs:38-76 | under either status and whatever the deep clean-up flag says, the footprint is the same and a spread clear empties exactly the `FOOTPRINT` slots from the root; no other key changes |
| Upgradable.WrapperSpreadRoundTrip | examples/proxy/upgradeable_flipper/upgradable.rs:38-68 | a valid wrapper's value pushed spread at a root is pulled back unchanged, by the `Initialized` pull and by the corrected `NotInitialized` pull |
| Upgradable.PushThenPull | examples/proxy/upgradeable_flipper/upgradable.rs:38-53 | pushing a valid wrapper at a root and pulling one back from the same root gives the same inner value and type; both calls move the cursor to `root + FOOTPRINT` |
| Upgradable.PullNotInitialized | examples/proxy/upgradeable_flipper/upgradable.rs:59-68 | an empty slot gives the defaults; an undecodable slot aborts with the decode-failure message; otherwise the inner spread pull |
| Upgradable.PullNotInitializedChecked | examples/proxy/upgradeable_flipper/upgradable.rs:59-68 | the corrected pull: an empty first slot gives the defaults, an undecodable first field aborts with the decode-failure message, otherwise the inner spread pull |
| Upgradable.NotInitializedPullAfterPushFails | examples/proxy/upgradeable_flipper/upgradable.rs:59-68 | as written, a value of two or more fields pushed spread cannot be pulled back: the pull aborts |
| Upgradable.TwoFieldCounterexample | examples/proxy/upgradeable_flipper/upgradable.rs:59-68 | two `u32` fields pushed at key 5 into an empty store abort the pull at key 5 |
| Upgradable.CheckedPullAfterPush | examples/proxy/upgradeable_flipper/upgradable.rs:59-68 | the corrected pull gives back any pushed value |
| Upgradable.CheckedPullAfterClear | examples/proxy/upgradeable_flipper/upgradable.rs:59-68 | after a clear the corrected pull allocates the defaults again |
| Upgradable.SingleFieldAgrees | examples/proxy/upgradeable_flipper/upgradable.rs:59-68 | for a single-field value the code as written and the corrected pull agree |
| Upgradable.SingleFieldRoundTrip | examples/proxy/upgradeable_flipper/upgradable.rs:59-68 | a single-field value pushed spread is pulled back unchanged by the code as written |
| Upgradable.PackedRoundTrip | examples/proxy/upgradeable_flipper/upgradable.rs:80-86 | a value pushed packed at a key is pulled back unchanged from it |
| Upgradable.Upgradable.constructor | examples/proxy/upgradeable_flipper/upgradable.rs:30-35 | the wrapper holds the given inner value |
| Upgradable.Upgradable.Default | examples/proxy/upgradeable_flipper/upgradable.rs:159-163 | a fresh wrapper around the inner default |
| Upgradable.Upgradable.AssignThroughDerefMut | examples/proxy/upgradeable_flipper/upgradable.rs:139-157 | writing through the mutable reference replaces the inner value |
| Upgradable.Upgradable.PullSpreadInitialized | examples/proxy/upgradeable_flipper/upgradable.rs:42-44 | a fresh valid `Initialized` wrapper holding the inner spread pull, exactly when that pull succeeds; same abort message otherwise; on success the cursor moves by `FOOTPRINT` |
| Upgradable.Upgradable.PullSpreadNotInitialized | examples/proxy/upgradeable_flipper/upgradable.rs:59-68 | a fresh valid `NotInitialized` wrapper holding the corrected pull, exactly when it succeeds; same abort message otherwise; on success the cursor moves by `FOOTPRINT` |
| Upgradable.Upgradable.PushSpread | examples/proxy/upgradeable_flipper/upgradable.rs:46-72 | for a wrapper whose inner value has `FOOTPRINT` fields, the store becomes the spread push of that value at the cursor and the cursor moves by `FOOTPRINT` |
| Upgradable.Upgradable.ClearSpread | examples/proxy/upgradeable_flipper/upgradable.rs:50-76 | for a wrapper whose inner value has `FOOTPRINT` fields, the store becomes the spread clear of `FOOTPRINT` slots at the cursor and the cursor moves by `FOOTPRINT` |
| Upgradable.Upgradable.AllocateSpread | examples/proxy/upgradeable_flipper/upgradable.rs:107-117 | a fresh valid wrapper around the inner default; the cursor moves by `FOOTPRINT` |
| Upgradable.Upgradable.Deref | examples/proxy/upgradeable_flipper/upgradable.rs:131-137 | reading through the reference gives the inner value, which has `FOOTPRINT` fields |
| Upgradable.Upgradable.PullPacked | examples/proxy/upgradeable_flipper/upgradable.rs:80-96 | the inner value becomes the packed load at the key, exactly when it succeeds; same abort message otherwise |
| Upgradable.Upgradable.PushPacked | examples/proxy/upgradeable_flipper/upgradable.rs:84-100 | the inner value is stored at the key; no other key changes |
| Upgradable.Upgradable.ClearPacked | examples/proxy/upgradeable_flipper/upgradable.rs:88-104 | the key is removed; no other key changes |
| Upgradable.Upgradable.AllocatePacked | examples/proxy/upgradeable_flipper/upgradable.rs:119-129 | the inner value is unchanged |
| Upgradable.Upgradable.LayoutOf | examples/proxy/upgradeable_flipper/upgradable.rs:170-177 | the wrapper's layout is the inner layout at the cursor; the cursor moves by `FOOTPRINT` |

## Left out

- Array layouts, and the cell kinds no test builds, are not modelled.
- Nested type registration is not modelled. scale_info would also register the
  component types of a type such as `(i32, bool)`. Here a type descriptor is
  registered as one opaque value.
- JSON member order is not modelled. Objects are maps, and two documents with
  the same members are equal. The library's tests also compare that way.
- SCALE encoding is not modelled. A stored entry is a list of leaves or
  corrupt bytes. Decoding `n` leaves from an entry succeeds exactly when it
  holds at least `n`, and takes the first `n`.
- The inner type of the wrapper is modelled as a struct of packed leaf
  fields, each taking one slot. Nested spread types inside it, such as
  mappings or lazy cells, are not modelled.
- Store.KeyPtr.NextFor: the key cursor (`KeyPtr` in ink_primitives) is not
  part of this model's sources. It is modelled as an eager 32-bit cursor:
  `Store.KeyPtr.Key` is the key of the next field not yet handed out, and
  `next_for` hands out that key and then advances by the field's footprint,
  wrapping at 2^32. `Upgradable.Upgradable.PullSpreadNotInitialized` reads
  `Key()` before the inner pull, so here it reads the inner value's first
  slot. If the real cursor is lazy, so that `key()` returns the key last
  handed out, that read would look at the slot of the field before the
  wrapper instead; that reading is not modelled.
- Upgradable.Upgradable.PullPacked: the packed operations of the inner type
  are not part of this model's sources. They are modelled as the packed
  persistence of a whole value at one key: `PullPacked` loads and decodes the
  entry at the key, `PushPacked` writes the value there, and `ClearPacked`
  removes it. In ink the packed impls of plain leaf types may instead do no
  storage I/O of their own, leaving it to the enclosing container; that
  reading is not modelled.
- Upgradable.Upgradable.AllocatePacked: a packed leaf has nothing to allocate,
  so this is modelled as leaving the inner value as it is.
- Upgradable.WrapperRequiresDeepCleanUp: the flag is carried through
  unchanged, but it has no effect in this model. The inner fields are packed
  leaves, and a spread clear removes exactly the footprint's slots whatever
  the flag says (`Upgradable.ClearUsesFootprintSlots`). A deep clean-up of
  nested storage is not modelled.
- The status marker is a phantom type that selects an implementation at
  compile time. The two statuses share one class here. The one operation
  where they differ is two methods, `PullSpreadInitialized` and
  `PullSpreadNotInitialized`.
- Hashers are names only. No hash is computed.
- The derive macros for the storage traits and the Ethereum compatibility
  crate are not part of this model.
- The on-call initializer's in-place `initialize(&mut self)` is modelled as a
  function from the default value to the initialized value.
- Contract storage is the store object passed to each call. The environment,
  its execution context and its error codes are not modelled.
- Store.Advance: the count is unbounded here. A footprint of 2^32 or more,
  which a `u64` footprint could express, wraps onto earlier slots. The lemmas
  that need distinct slots require at most 2^32 fields.

## Findings

| source | as written | input that shows it | evidently intended | confidence | as-written member | corrected member |
|---|---|---|---|---|---|---|
| examples/proxy/upgradeable_flipper/upgradable.rs:59-68 | the `NotInitialized` spread pull decodes the whole inner value `T` from the single slot under the cursor to decide whether it was ever stored | an inner struct of two `u32` fields, pushed spread at key 5 into an empty store: slot 5 holds only the first field, so decoding a whole `T` from it fails and the pull aborts with "could not properly decode storage entry" | test only whether the first slot is present (read it as the first field), allocate when it is empty, and otherwise pull spread | medium, not executed | Upgradable.NotInitializedPullAfterPushFails, Upgradable.TwoFieldCounterexample | Upgradable.PullNotInitializedChecked, Upgradable.CheckedPullAfterPush |

The example's own inner value is a single `bool`, which occupies one slot. For
that inner value the code as written and the corrected pull agree
(Upgradable.SingleFieldAgrees).
