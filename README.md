# A Dafny model of the `structured` serializer engine

`structured` describes binary records declaratively. Every field has a
*serializer*. It packs the field's values to bytes and unpacks bytes back to
values. Serializers are joined with `+` into one record serializer. Joining
either folds two `struct` formats into one, or builds a flat
`CompoundSerializer`. That serializer shares out the value tuple by
`num_values` and accumulates byte offsets.

The repository holds the current engine and the files of its earlier
generations. Each generation is modelled in its own modules.

## The current engine (`structured/serializers/`, `structured/hint_types/arrays.py`)

| module | file | what it models |
|---|---|---|
| `Outcomes`, `Values` | outcomes.dfy, values.dfy | Python's exceptions as an `Error` datatype, `Result`/`Option`. The values that flow through serializers. Python's forgiving slices. |
| `ByteOrders` | byte_orders.dfy | The `ByteOrder` and `ByteOrderMode` enums. |
| `PyStruct` | pystruct.dfy | The part of Python's `struct` module the engine relies on. A format string is a sequence of `(count, char)` items. Unsigned and signed integers are encoded little- or big-endian; the other kinds have their standard widths. |
| `Structs` | structs.dfy | `fold_overlaps`, `split_byte_order`, `StructSerializer` (`+`, `*`, `@`, `with_byte_order`, `==`, pack/unpack) and the action bookkeeping of `StructActionSerializer`. |
| `Codecs` | codecs.dfy | The behaviour of any serializer: its `num_values`, and `pack`, `unpack` and `unpack_from` as functions of the partial object. |
| `Compounds` | compound.dfy | `CompoundSerializer` and `_SpecializedCompoundSerializer`: value sharing, byte concatenation, offset accumulation. This includes the loop methods and the classes whose `size` (and `origin.size`) they write. |
| `Api` | api.dfy | Serializer kinds as values, Python's `+` protocol between them, `_add_impl` flattening, finality, preprocessing. |
| `Semantics` | semantics.dfy | What `+` of two structs means: it behaves exactly like the compound of its operands. |
| `Arrays`, `StructArrays`, `HintArrays` | arrays.dfy, struct_arrays.dfy, hint_arrays.dfy | `ArraySerializer` and its header. `StaticStructArraySerializer` and `DynamicStructArraySerializer`. `Header[...]` and `array[...]`. |
| `Strings` | strings.dfy | Fixed-length, length-prefixed, terminated and .NET strings, and the text wrapper. |
| `Unions` | unions.dfy | `AUnion`, `LookbackDecider`, `LookaheadDecider`, with the lookahead's rewind on a (bytes, cursor) stream. |
| `Conditionals`, `Tuples` | conditional.dfy, tuples.dfy | `ConditionalSerializer`, `SkipSerializer`, `TupleSerializer`. |

A serializer's `size` attribute is the number of bytes its last call
consumed or produced. Functions return it with their result
(`Packed(data, size)`, `Unpacked(values, size)`). Where the source keeps it
as state written by a loop, a class keeps it as a field:
`CompoundSerializer`, `ArraySerializer`, `DynamicStructArraySerializer`,
unions, tuples.

Callables are parameters of the model: unpack actions, deciders,
conditions, encoders and decoders.

## The earlier generations

Three earlier versions are in the repository as well. Each is modelled on the
same `PyStruct`, `Structs`, `Codecs` and `Compounds` modules as the current
engine. Where an earlier file does what a later one does, the model reuses the
later definition and proves that the two agree.

| module | file | what it models |
|---|---|---|
| `Records` | records.dfy | The `Structured` base class of the first two generations (structured.py, structured/structured.py). It pairs instance attributes positionally with the values of the class's struct (`_set`, `_get`, `pack`, `unpack`, `unpack_from`). |
| `FirstStructured` | first_structured.dfy | structured.py: `counted`, member collection in `compute_format`, and the `groupby` fold of repeated formats. |
| `EarlyStructured` | early_structured.dfy | structured/structured.py: its `fold_overlaps`, `compute_format` by reduction, `merge_formats`, `extract_byte_order` and `StructuredMeta.__new__` for derived classes. |
| `EarlySerializers` | early_serializers.dfy | structured/serializers.py: the end-anchored `fold_overlaps`, `StructSerializer`, `StructActionSerializer` and `CompoundSerializer` with its `_add_impl`, and `with_byte_order`. |
| `EarlyBaseTypes` | early_base_types.dfy | structured/base_types.py: `struct_cache` and the `CompoundSerializer` that hands each child a slice of the values and writes into a buffer with `pack_into`. |
| `EarlyStrings`, `EarlyBlob` | early_strings.dfy, early_blob.dfy | structured/complex_types/strings.py and blob.py: `char`, `unicode` and `blob` creation, and the static, dynamic, terminated and .NET string serializers. |
| `EarlyHeaders` | early_headers.dfy | structured/complex_types/array_headers.py: the four header classes, `Header[...]`, length and data-size bookkeeping on a header object. |
| `EarlyArrays` | early_arrays.dfy | structured/complex_types/arrays.py: `array[...]`, and the structured, static format and dynamic format array serializers. |

## Model

| member | source | states |
|---|---|---|
| Values.Elements | structured/serializers/arrays.py:112-113 | Iterating a value gives the items of a list or tuple, the bytes of a `bytes`, the characters of a `str`. Any other value is a TypeError. |
| ByteOrders.FromChar | structured/base_types.py:78-96 | `ByteOrder(c)` gives the member whose marker is `c`, and a ValueError for any other character. |
| ByteOrders.FromMarker | structured/base_types.py:78-96 | Every explicit byte order is recovered from its marker character. |
| PyStruct.FormatAppend | structured/serializers/structs.py:44-54 | `calcsize` and the value count of a concatenation of formats are the sums over its parts. |
| PyStruct.UnsignedRoundTrip | structured/serializers/structs.py:92-115 | An in-range unsigned integer decodes back from its encoding, in either byte order. |
| PyStruct.SignedRoundTrip | structured/serializers/structs.py:92-115 | A signed field is stored as its two's complement and reads back unchanged. |
| PyStruct.Pack | structured/serializers/structs.py:92-115 | `struct.pack`: any number of values other than `num_values` is a `struct.error`; the bytes are `calcsize` long. |
| PyStruct.PascalLayout | structured.py:207-211 | A `pascal[n]` field (`'{n}p'`) holds the string's first `n - 1` bytes, zero-padded, behind a length byte that counts the bytes kept and stops at 255. |
| PyStruct.Unpack | structured/serializers/structs.py:92-115 | `struct.unpack` succeeds exactly on a buffer of `calcsize` bytes and gives `num_values` values. |
| PyStruct.UnpackFrom | structured/serializers/structs.py:132-135 | `struct.unpack_from` needs `calcsize` bytes after the offset, and reads exactly those. |
| PyStruct.PackUnpackRoundTrip | structured/serializers/structs.py:92-135 | Unpacking what `struct.pack` produced gives back the values, for every value the struct module returns unchanged. |
| PyStruct.OneAsShort | tests/test_serializers.py:13-21 | The value 1 as `'h'` is the bytes `01 00` little-endian and `00 01` big-endian. |
| Structs.FoldOverlapsAsWritten | structured/serializers/structs.py:59-80 | As written: formats that do not overlap are concatenated. Overlapping ones keep only the merged item, and everything after `format2`'s first item is lost. |
| Structs.FoldOverlaps | structured/serializers/structs.py:62-80 | Formats that do not overlap are concatenated. Otherwise the last item of `format1` and the first of `format2` merge into one item whose count is the sum of theirs (a missing count is 1), and the rest of `format2` follows. |
| Structs.FoldOverlapsDropsTail | structured/serializers/structs.py:59 | `'b' + 'bh'` folds to `'2b'` as written: one value is lost. The corrected fold gives `'2bh'`. |
| Structs.FoldOverlapsAgreeOnSingleItem | structured/serializers/structs.py:59-80 | The two folds agree whenever `format2` has at most one item, as in `'4sI' + 'I'` giving `'4s2I'`. |
| Structs.FoldOverlapsCalcSize | structured/serializers/structs.py:71-80 | Folding keeps `calcsize`: the folded format is as long as the two formats together. |
| Structs.FoldOverlapsLayout | structured/serializers/structs.py:71-80 | Without string combining, the folded format has exactly the fields of the two formats one after the other. |
| Structs.FoldOverlapsNumValues | structured/serializers/structs.py:71-80 | Without string combining, folding keeps the number of values. |
| Structs.MergedFields | structured/serializers/structs.py:76-79 | A merged non-string item stands for the fields of both items it replaces. |
| Structs.SplitByteOrder | structured/serializers/structs.py:83-89 | A leading byte-order character is split off. Any other format comes back unchanged with `DEFAULT`. |
| Structs.SplitWithMarker | structured/serializers/structs.py:83-89 | Splitting undoes prefixing a marker, for every byte order. |
| Structs.StructAdd | structured/serializers/structs.py:156-170 | `+` of two structs is a ValueError exactly when their byte orders differ. Otherwise it is one struct in that order over the two formats folded by the corrected `fold_overlaps` (Structs.FoldOverlaps), which lays out both formats' fields. |
| Structs.MulImpl | structured/serializers/structs.py:172-198 | `*` and `@`: a factor that is not an int is a TypeError. A factor of at most 0 is a ValueError. 1 gives the serializer itself. The byte order is kept. |
| Structs.MulLayout | structured/serializers/structs.py:187-198 | With the corrected `fold_overlaps` (Structs.FoldOverlaps), `s * n` lays out `n` copies of `s`'s fields, so it packs `n` times the values into `n` times the bytes. |
| Structs.MulDropsAsWritten | structured/serializers/structs.py:187-198 | As written, `'bhb' * 2` is `'bh2b'`: four values where two copies have six. |
| Structs.StringMatmul | structured/serializers/structs.py:180-185 | `'{c}s' @ n` is the single string field `'{c*n}s'`. |
| Structs.StringMul | structured/serializers/structs.py:172-178 | `'{c}s' * n` is `n` separate string fields. |
| Structs.StructWithByteOrder | structured/serializers/structs.py:120-125 | `with_byte_order` keeps the fields and takes the new order. When the order is unchanged it returns the same serializer. |
| Structs.StructEqIff | structured/serializers/structs.py:200-204 | For valid formats, equal `format` and `num_values` means equal byte order and equal items. |
| Structs.StructPack | structured/serializers/structs.py:92-115 | A successful pack produces `size` bytes, and sets `size`. |
| Structs.StructUnpack | structured/serializers/structs.py:127-130 | The buffer is cut to `size` before unpacking, so only a short buffer is an error. The result has `num_values` values. |
| Structs.StructUnpackFrom | structured/serializers/structs.py:132-135 | Reading at an offset succeeds when `size` bytes follow it, and is unpacking the suffix. |
| Structs.StructRoundTripRest | structured/serializers/structs.py:127-130 | A struct reads back its canonical values from what it packed, whatever follows the packed bytes. |
| Structs.MakeAction | structured/serializers/structs.py:217-236 | The actions are padded with `noop_action` up to `num_values`. The given actions come first, and a longer tuple is kept. |
| Structs.ApplyActions | structured/serializers/structs.py:238-242 | `zip(actions, values)`: the shorter length; each value has its own action applied. |
| Structs.ActionUnpack | structured/serializers/structs.py:238-242 | An action serializer unpacks whenever its struct does, and applies one action per value. |
| Structs.ActionUnpackFrom | structured/serializers/structs.py:243-250 | Reading at an offset is unpacking the suffix from it. |
| Structs.ActionAddUnchecked | structured/serializers/structs.py:273-284 | The code's byte-order handling: the left byte order is used for both halves, unchecked. Over the corrected `fold_overlaps` (Structs.FoldOverlaps), the fields are the left's then the right's, and the actions are the left's then the right's. |
| Structs.ActionAdd | structured/serializers/structs.py:161-165 | With the byte-order check of `StructSerializer.__add__`: mixed orders are a ValueError. |
| Structs.ActionRaddUnchecked | structured/serializers/structs.py:286-297 | The code's byte-order handling, unchecked. Over the corrected `fold_overlaps` (Structs.FoldOverlaps), a struct on the left contributes its fields and one `noop_action` per value, in the struct's byte order. |
| Structs.ActionRadd | structured/serializers/structs.py:286-297 | `__radd__` with the byte-order check: mixed orders are a ValueError. |
| Structs.ActionAddIgnoresByteOrder | structured/serializers/structs.py:273-284 | As written, `'<h'` with actions plus `'>h'` packs the right-hand value little-endian; the checked join refuses it. |
| Structs.ActionRaddIgnoresByteOrder | structured/serializers/structs.py:286-297 | As written, `'>h'` plus `'<h'` with actions packs the right-hand value big-endian; the checked join refuses it. |
| Structs.ActionAddWellFormed | structured/serializers/structs.py:273-284 | Over the corrected `fold_overlaps` (Structs.FoldOverlaps), joining two action serializers keeps one action per value, the left operand's first. |
| Structs.ActionAddStructWellFormed | structured/serializers/structs.py:273-284 | Over the corrected `fold_overlaps` (Structs.FoldOverlaps), an action serializer plus a plain struct gets one `noop_action` per value of the struct. |
| Structs.ActionRaddWellFormed | structured/serializers/structs.py:286-297 | Over the corrected `fold_overlaps` (Structs.FoldOverlaps), a plain struct plus an action serializer puts one `noop_action` per struct value in front of the actions. |
| Structs.StructPlusActionExample | tests/test_serializers.py:36-38 | `'b' + StructActionSerializer('b')` is an action serializer for `'2b'` whose two actions are `noop_action`. |
| Structs.ActionMul | structured/serializers/structs.py:299-302 | `*` of an action serializer: TypeError for a non-int, ValueError for at most 0, else the actions repeated `n` times. |
| Structs.ActionMulWellFormed | structured/serializers/structs.py:299-302 | Over the corrected `fold_overlaps` (Structs.FoldOverlaps), repetition keeps one action per value. |
| Structs.ActionMatmul | structured/serializers/structs.py:180-198 | `@` is not overridden: for `n >= 2` every action of the result is `noop_action`. |
| Structs.ActionWithByteOrder | structured/serializers/structs.py:257-262 | `with_byte_order` keeps the actions and re-orders the struct. |
| Semantics.StructAddPacksLikeCompound | structured/serializers/structs.py:156-170 | With the corrected `fold_overlaps` (Structs.FoldOverlaps), `a + b` of two structs in one byte order packs exactly what the compound of `a` and `b` packs, for every value tuple. |
| Semantics.StructAddUnpacksLikeCompound | structured/serializers/structs.py:156-170 | The same, with the corrected fold, for `unpack`, on every buffer, including which buffers are too short. |
| Semantics.StructAddUnpacksFromLikeCompound | structured/serializers/structs.py:156-170 | The same, with the corrected fold, for `unpack_from`, at every offset. |
| Semantics.ApplyNoops | structured/serializers/structs.py:37-41 | A run of `noop_action`s hands the values back unchanged. |
| Compounds.ThenPackAssoc | structured/serializers/api.py:282-286 | Concatenating packed results is associative, which is why `_add_impl` may flatten. |
| Compounds.CompoundPackAppend | structured/serializers/api.py:266-286 | A compound of `a + b` packs like `a`'s children, then `b`'s, `b` starting at value `num_values(a)`. |
| Compounds.CompoundUnpackAppend | structured/serializers/api.py:301-313 | A compound of `a + b` unpacks like `a`'s children, then `b`'s from where `a` stopped. |
| Compounds.CompoundPackIgnoresExtraValues | structured/serializers/api.py:266-279 | Values beyond `num_values` are never handed to a child. |
| Compounds.CompoundOffsetConsistent | structured/serializers/api.py:301-317 | When each child's `unpack_from` agrees with its `unpack` of the tail, so does the compound's: offsets add up to the tails it would slice. |
| Compounds.CompoundPackPair | structured/serializers/api.py:266-286 | The compound of two serializers packs the first's values then the second's, and the sizes add. |
| Compounds.CompoundUnpackPair | structured/serializers/api.py:301-313 | The compound of two serializers unpacks the second after the bytes the first consumed. |
| Compounds.CompoundUnpackFromPair | structured/serializers/api.py:315-317 | The same at an offset: the second reads at the offset plus the first's size. |
| Compounds.PackChildren | structured/serializers/api.py:266-286 | The loop of `_iter_packers`: it computes the compound's packing. Child `k` gets the next `num_values` values, and `size` is the sum. |
| Compounds.UnpackChildren | structured/serializers/api.py:301-313 | The loop of `_iter_unpackers`: each child reads `buffer[size:]`, the values accumulate, and `size` is the total. |
| Compounds.UnpackChildrenFrom | structured/serializers/api.py:315-317 | The same loop with each child reading at `offset + size`. |
| Compounds.CompoundSerializer.Pack | structured/serializers/api.py:282-286 | `size` is written once every child has packed, and is left alone on an error. |
| Compounds.CompoundSerializer.Unpack | structured/serializers/api.py:311-313 | The compound's unpacking; `size` is set to the bytes consumed only after the loop. |
| Compounds.CompoundSerializer.UnpackFrom | structured/serializers/api.py:315-317 | The compound's `unpack_from`, with `size` set after the loop. |
| Compounds.SpecializedCompoundSerializer.Pack | structured/serializers/api.py:384-397 | The children get the partial object. The total size is written to the specialized serializer and to `origin.size`. |
| Compounds.SpecializedCompoundSerializer.Unpack | structured/serializers/api.py:398-405 | The same for `unpack`: both `size` fields end as the total consumed. |
| Compounds.SpecializedCompoundSerializer.UnpackFrom | structured/serializers/api.py:398-405 | The same for `unpack_from`. |
| Api.SumNumValuesAppend | structured/serializers/api.py:238 | The value count of two child lists together is the sum of theirs. |
| Api.GetFinal | structured/serializers/api.py:167-171 | A compound's final serializer is its first final child: every child before it is not final. It is none when no child is final; a struct is never final. |
| Api.FirstFinal | structured/serializers/api.py:249-252 | The first final child: it is final and no child before it is. None when no child is final. |
| Api.NewCompound | structured/serializers/api.py:235-247 | The constructor is a TypeError exactly when a child is itself a compound. Its `num_values` is the sum of its children's. |
| Api.Preprocess | structured/serializers/api.py:254-264 | A compound specializes itself only when some child overrides `prepack`/`preunpack`; a specialized one returns itself, so a second call returns what the first did. |
| Api.AddSimple | structured/serializers/api.py:173-189 | `x + y` of two non-compounds: `NullSerializer` on either side gives the other. A compound result has exactly the children `[x, y]`. |
| Api.AddImpl | structured/serializers/api.py:342-352 | `_add_impl` keeps the child list flat. |
| Api.AddImplInPlace | structured/serializers/api.py:342-352 | The in-place loop over `serializers[-1]` computes `_add_impl`. |
| Api.AddImplCompound | structured/serializers/api.py:329-364 | `+` involving a compound yields a flat compound. |
| Api.Add | structured/serializers/api.py:173-189 | Python's `+` protocol over all serializer kinds keeps serializers well formed. A non-serializer right operand is a TypeError. |
| Api.NullLeftIdentity | structured/serializers/api.py:221-227 | `null + s == s` for every serializer. |
| Api.NullRightIdentity | structured/serializers/api.py:226-227 | `s + null == s`, except that an empty compound has no last child to add to. |
| Api.JoinStepBuilt | structured/serializers/api.py:344-351 | One step of `_add_impl` keeps a built list built, and is only possible when the last child is not final. |
| Api.AddImplBuilt | structured/serializers/api.py:342-352 | `_add_impl` keeps a built list built (only the last child final, no null child). |
| Api.AddBuilt | structured/serializers/api.py:173-189 | Every serializer `+` builds from built serializers is built. |
| Api.FinalIsLast | structured/serializers/api.py:179-181 | Adding any non-null serializer after a final one fails with TypeError. |
| Api.AddImplNumValues | structured/serializers/api.py:342-352 | With struct joins over the corrected `fold_overlaps` (Structs.FoldOverlaps), `_add_impl` never changes the total number of values. |
| Api.AddSimpleNumValues | structured/serializers/api.py:173-189 | With struct joins over the corrected fold, `x + y` of two non-compounds has the sum of their value counts. |
| Api.AddNumValues | structured/serializers/api.py:329-364 | With struct joins over the corrected fold, `x + y` always has `num_values(x) + num_values(y)` values. |
| Arrays.HeaderPack | structured/serializers/arrays.py:115-116 | The header packs to exactly its size; a null header packs nothing. |
| Arrays.HeaderUnpack | structured/serializers/arrays.py:138-139 | The header reads its values when the buffer holds its size, and fails otherwise. |
| Arrays.HeaderPackValues | structured/serializers/arrays.py:55-76 | A fixed-length array refuses any other length with ValueError. Otherwise the header values are `(data_size,)`, `()`, `(count, data_size)` or `(count,)`. |
| Arrays.IntOf | structured/serializers/arrays.py:143-145 | A header value must be an int (or a bool) to count the items. |
| Arrays.HeaderUnpackValues | structured/serializers/arrays.py:78-92 | Header values decode to `(count, data_size)`: the static length for a static array, and -1 for an absent size. |
| Arrays.HeaderValuesRoundTrip | structured/serializers/arrays.py:55-92 | The header values packed for a count and a data size decode back to them; an absent size reads as -1. |
| Arrays.ArrayPack | structured/serializers/arrays.py:108-118 | With no values it is an IndexError. A successful pack is at least the header size long. |
| Arrays.CheckedList | structured/serializers/arrays.py:94-98 | `_check_data_size` fails iff the declared size is not -1 and differs from the bytes the items took. The result is one list, with size = header + items. |
| Arrays.ArrayUnpack | structured/serializers/arrays.py:137-148 | The one value is the item list, and at least the header was consumed. A buffer shorter than the header is an error. |
| Arrays.ArrayUnpackFrom | structured/serializers/arrays.py:150-161 | The same at an offset. |
| Arrays.ArrayPackLayout | structured/serializers/arrays.py:108-118 | A successful pack writes the header holding the count and the items' byte count, then the items' bytes. `size` counts both. |
| Arrays.ArrayPackWrongLength | structured/serializers/arrays.py:58-64 | A fixed-length array refuses a list of any other length with ValueError. |
| Arrays.ItemsRoundTrip | structured/serializers/arrays.py:112-114 | Items packed one after another read back one after another, whatever surrounds them. |
| Arrays.ArrayRoundTrip | structured/serializers/arrays.py:108-148 | An array of round-tripping items, whose header fits its length and can hold its count and data size, unpacks to the same list from what it packed, whatever follows. |
| Arrays.ArrayOffsetConsistent | structured/serializers/arrays.py:150-161 | `unpack_from` at an offset is `unpack` of the suffix, when the items' own reads agree. |
| Arrays.ArraySerializer.Pack | structured/serializers/arrays.py:108-118 | Before `prepack` it is an AttributeError. It computes the array's packing, and `size` is written only on success. |
| Arrays.ArraySerializer.Unpack | structured/serializers/arrays.py:137-148 | The loop reads `count` items at successive offsets and checks the data size. `size` ends as the total consumed. |
| Arrays.ArraySerializer.UnpackFrom | structured/serializers/arrays.py:150-161 | The same with the items read at `offset + size`. |
| StructArrays.NewStaticStructArray | structured/serializers/arrays.py:182-188 | `item * count`: a count below 1 is a ValueError. |
| StructArrays.StaticWithByteOrder | structured/serializers/arrays.py:193-194 | The same count over the item in the new byte order. |
| StructArrays.StaticPack | structured/serializers/arrays.py:196-204 | A list whose length is not `count` is a ValueError; the bytes are the struct's size. |
| StructArrays.StaticUnpack | structured/serializers/arrays.py:216-217 | The struct's values as one list, read when the buffer holds the struct's size. |
| StructArrays.StaticRoundTrip | structured/serializers/arrays.py:196-217 | A list of `count` representable items reads back as itself, whatever follows. |
| StructArrays.StaticOffsetConsistent | structured/serializers/arrays.py:219-220 | Reading at an offset is reading the suffix. |
| StructArrays.DynamicLayout | structured/serializers/arrays.py:247-257 | The packer is the count field alone for no items, else `count + item * n`, a ValueError when their byte orders differ. |
| StructArrays.DynamicPack | structured/serializers/arrays.py:259-261 | An empty value tuple is an IndexError. A successful pack writes the count, then the items. |
| StructArrays.FactorOf | structured/serializers/arrays.py:273-279 | `item_serializer * count` takes an int or a bool; anything else is not a factor. |
| StructArrays.DynamicUnpack | structured/serializers/arrays.py:273-279 | The count field, then that many items; a count of 0 reads as the empty list. It follows the corrected halves of the arrays.py:238 and 273-279 Findings. |
| StructArrays.DynamicPackLayout | structured/serializers/arrays.py:247-261 | A non-empty list packs as the count field holding its length, then the items packed by `item * n`. |
| StructArrays.DynamicPackEmpty | structured/serializers/arrays.py:247-261 | The empty list packs as the count field holding 0. |
| StructArrays.DynamicRoundTrip | structured/serializers/arrays.py:247-279 | Every representable list, the empty one included, reads back as itself, whatever follows. |
| StructArrays.DynamicOffsetConsistent | structured/serializers/arrays.py:281-287 | Reading at an offset is reading the suffix. |
| StructArrays.EmptyDynamicArrayAsWritten | structured/serializers/arrays.py:273-279 | As written, the empty list packs, but what it packs does not unpack: `item_serializer * 0` raises ValueError. |
| StructArrays.DynamicInCompoundAsWritten | structured/serializers/arrays.py:238 | As written (`num_values = 0`), inside a compound the array is handed no values, so packing fails with IndexError. |
| StructArrays.DynamicInCompound | structured/serializers/arrays.py:238 | With `num_values = 1` the array packs the first value, and the next serializer packs what follows. |
| StructArrays.DynamicFormatExample | tests/test_arrays.py:191-198 | `[1, 2, 3]` as uint32 count and int8 items packs through the struct `'I3b'`. |
| StructArrays.DynamicStructArraySerializer.Pack | structured/serializers/arrays.py:247-261 | The dynamic array's packing; `size` is the packer's size, recorded even when the struct then fails. |
| StructArrays.DynamicStructArraySerializer.Unpack | structured/serializers/arrays.py:273-279 | The dynamic array's unpacking, with `size` = count width + item bytes. It follows the corrected halves of the arrays.py:238 and 273-279 Findings. |
| StructArrays.DynamicStructArraySerializer.UnpackFrom | structured/serializers/arrays.py:281-287 | The same at an offset. It follows the corrected halves of the arrays.py:238 and 273-279 Findings. |
| HintArrays.SizeSerializer | structured/hint_types/arrays.py:22-25 | A size type is one unsigned field of its width, in the default byte order. |
| HintArrays.CountOf | structured/hint_types/arrays.py:63-74 | The length is a size type (its serializer) or an int at least 0. A negative int is a ValueError, and anything else a TypeError. |
| HintArrays.DataSizeOf | structured/hint_types/arrays.py:76-81 | The size check is None or a size type; anything else is a TypeError. |
| HintArrays.HeaderCreate | structured/hint_types/arrays.py:55-84 | An open type variable gives an alias. Otherwise the length is checked before the size check, and the header holds both results. |
| HintArrays.HeaderSubscript | structured/hint_types/arrays.py:39-84 | One argument is the length alone, two are the length and the size check, and any other count is a TypeError. Every header built has a non-negative length and one-value unsigned fields. |
| HintArrays.GeneralArray | structured/hint_types/arrays.py:117-135 | A static count gives the header `data_size` or `Null` with `static_length = count`. A dynamic count gives `count` or `count + data_size` with `static_length = -1`. |
| HintArrays.ArrayOf | structured/hint_types/arrays.py:91-135 | `array[...]` needs two arguments and a `Header`, and an item with a serializer. Otherwise it is a TypeError; an open type variable gives an alias. |
| HintArrays.StructItemSpecialised | structured/hint_types/arrays.py:105-116 | A single-value struct item gives `item * count` for a static count (0 refused with ValueError), and a dynamic struct array otherwise, whatever the size check. |
| HintArrays.GeneralHeaderFits | structured/hint_types/arrays.py:117-135 | Every general array built has the header shape `ArraySerializer` expects, and carries the data size iff the header has a size check. |
| HintArrays.DynamicStructExample | tests/test_arrays.py:191-198 | `array[Header[uint32], int8]` is a dynamic struct array, which packs three items through `'I3b'`. |
| HintArrays.HeaderErrors | structured/hint_types/arrays.py:39-81 | A negative length, a length that is neither an int nor a size type, a bad size check, and three arguments are each refused. |
| Strings.FieldLayout | structured/serializers/strings.py:31-33 | `'{n}s'` is one string field of `n` bytes, with one value. |
| Strings.StaticCharField | structured/serializers/strings.py:31-33 | `static_char_serializer(n)` is the single field `'{n}s'`; a count below 1 is a ValueError. |
| Strings.FieldPack | structured/serializers/strings.py:31-33 | A `'{n}s'` field packs `bytes` cut or zero-padded to `n`. |
| Strings.FieldUnpack | structured/serializers/strings.py:31-33 | A `'{n}s'` field reads the first `n` bytes. |
| Strings.ReadCount | structured/serializers/strings.py:99-103 | Reading the count fails exactly on a buffer shorter than the count field, and gives the unsigned integer in its bytes. |
| Strings.ReadCountFrom | structured/serializers/strings.py:109-113 | The same at an offset: reading the suffix. |
| Strings.Prefixed | structured/serializers/strings.py:53-69 | The struct has the prefix's fields, then one `count`-byte string field, in the prefix's byte order. |
| Strings.PrefixedAsWrittenEmpty | structured/serializers/strings.py:59-66 | As written, `_single_char @ 0` refuses the empty string with ValueError. |
| Strings.PrefixedAsWrittenByteOrder | structured/serializers/strings.py:59-66 | As written, a count field with an explicit byte order cannot pack any non-empty string: `+` refuses to mix orders. |
| Strings.PrefixedAgrees | structured/serializers/strings.py:53-69 | Wherever the source's struct exists, it has the fields and byte order of the corrected one. |
| Strings.DynamicCharWithByteOrder | structured/serializers/strings.py:50-52 | The same count field in the new byte order. |
| Strings.DynamicCharPack | structured/serializers/strings.py:70-74 | With no values it is an IndexError. |
| Strings.DynamicCharPackLayout | structured/serializers/strings.py:53-74 | Corrected `pack`: `len(raw)` in the count field, then `raw`; a string too long for the count is a `struct.error`. |
| Strings.DynamicCharRoundTrip | structured/serializers/strings.py:70-108 | Corrected `pack`: what it wrote reads back, whatever follows. Both calls leave `size` = prefix width + length. |
| Strings.DynamicCharReads | structured/serializers/strings.py:99-108 | `unpack` returns the `count` bytes after the prefix, with that size. |
| Strings.DynamicCharRoundTripFrom | structured/serializers/strings.py:109-122 | Corrected `pack` and `unpack_from`: at any offset, what `pack` wrote reads back. |
| Strings.EmptyStringUnpackFrom | structured/serializers/strings.py:115-120 | As written, `b'\x00'` read at offset 0 is refused, and the corrected read gives `b''`. |
| Strings.NewTerminated | structured/serializers/strings.py:141-146 | A terminator is accepted iff it is one byte; otherwise it is a ValueError. |
| Strings.TerminatedData | structured/serializers/strings.py:147-156 | The terminator is appended unless the string already ends with it: the result always ends with it. |
| Strings.TerminatedPackWith | structured/serializers/strings.py:157-160 | With no values it is an IndexError; `bytes` pack as their terminated data. |
| Strings.TerminatedPackLayout | structured/serializers/strings.py:147-160 | `pack` writes exactly the terminated data, and `size` is its length; as written the terminator is always added. |
| Strings.FindTerminator | structured/serializers/strings.py:174-182 | The first index at or after `i` holding the terminator, or none. |
| Strings.ScanTerminator | structured/serializers/strings.py:176-180 | The while-scan from `offset` finds the first terminator, or runs off the end. |
| Strings.TerminatedUnpackFrom | structured/serializers/strings.py:174-183 | A ValueError iff no terminator follows the offset. Otherwise the bytes before the first terminator, with `size` the bytes consumed. |
| Strings.TerminatedUnpack | structured/serializers/strings.py:171-173 | `unpack` is `unpack_from` at offset 0. |
| Strings.Unterminated | structured/serializers/strings.py:174-183 | The string read back is the terminated data without its terminator. |
| Strings.TerminatedRoundTrip | structured/serializers/strings.py:147-183 | Corrected `pack` and `unpack_from`: a packed string reads back without its terminator, whatever surrounds it, consuming exactly what `pack` wrote. |
| Strings.DoubledTerminator | structured/serializers/strings.py:150 | As written, `b'ab\x00'` packs to four bytes, and reading stops after three. |
| Strings.AbsoluteEnd | structured/serializers/strings.py:181 | As written, a string read at offset 1 reports `size` one larger than what it consumed. |
| Strings.DecodeLength | structured/serializers/strings.py:254-259 | `_decode_length` refuses a length above 0x7FFF with ValueError. |
| Strings.NetMarkerRoundTrip | structured/serializers/strings.py:220-259 | `_decode_length` inverts the marker for 128..0x7FFF, and the marker's low byte has its top bit set. |
| Strings.DecodeLengthNeverRefuses | structured/serializers/strings.py:260-270 | No two-byte marker decodes above 0x7FFF, so `unpack` never meets that ValueError. |
| Strings.NetLength | structured/serializers/strings.py:220-235 | A length above 0x7FFF is a ValueError. Below 128 it is a 1-byte prefix; otherwise the 2-byte marker. |
| Strings.NetPack | structured/serializers/strings.py:236-239 | With no values it is an IndexError. |
| Strings.NetPackAsWritten | structured/serializers/strings.py:220-239 | `pack` as written, building `short_len + _single_char @ count`; with no values it is an IndexError. |
| Strings.NetEmptyAsWritten | structured/serializers/strings.py:226-227 | As written `pack(b'')` is a ValueError (`_single_char @ 0`), while the corrected `pack` writes the one count byte 0. |
| Strings.NetPackAgrees | structured/serializers/strings.py:220-239 | Every non-empty string packs the same as written and corrected. |
| Strings.NetCountFromSuffix | structured/serializers/strings.py:271-285 | Reading the prefix at an offset is reading the suffix. |
| Strings.NetPackLayout | structured/serializers/strings.py:220-239 | Below 128 bytes the length is one byte; up to 0x7FFF it is the two-byte marker, low byte first; longer strings are refused. The corrected `pack` (see Findings), which also packs `b''`. |
| Strings.NetPackShort | tests/test_strings.py:62-77 | A string below 128 bytes packs as its length byte, then the bytes. For `b''` this follows the corrected `pack`. |
| Strings.NetPackLong | tests/test_strings.py:96-107 | A longer string packs as the little-endian marker, then the bytes. |
| Strings.NetCountOfPrefix | structured/serializers/strings.py:260-270 | Reading the prefix `pack` wrote gives back its width and the length. |
| Strings.NetRoundTrip | structured/serializers/strings.py:236-270 | A packed string reads back unchanged, whatever follows, and `size` = prefix width + length. The corrected `pack` (see Findings), which also packs `b''`. |
| Strings.NetRoundTripFrom | structured/serializers/strings.py:271-285 | The same at an offset. The corrected `pack` (see Findings), which also packs `b''`. |
| Strings.RStripNul | structured/serializers/strings.py:337-339 | `rstrip('\0')` removes exactly the trailing NULs. |
| Strings.RStripNulPadding | structured/serializers/strings.py:337-339 | Any number of trailing NULs is stripped back to the text. |
| Strings.Decoded | structured/serializers/strings.py:337-344 | The text is the decoded, NUL-stripped bytes the inner codec read; `size` is the inner codec's. |
| Strings.UnicodeStaticRoundTrip | structured/serializers/strings.py:326-339 | Text in a fixed-length field reads back unchanged when the decoder turns the zero padding into NULs. |
| Unions.ValidateSerializer | structured/serializers/unions.py:55-62 | A hint without a serializer is a TypeError; one with `num_values != 1` a ValueError. |
| Unions.ValidateMap | structured/serializers/unions.py:50-53 | The result map validates iff every entry does, and the first failing entry gives the error. |
| Unions.NewUnion | structured/serializers/unions.py:40-54 | The default is validated first; a falsy default means none. Every result serializer has one value. |
| Unions.Lookup | structured/serializers/unions.py:71-87 | `result_map[key]`: none iff no entry has that key. |
| Unions.LookupFinds | structured/serializers/unions.py:71-87 | In a dict, each key finds its own entry. |
| Unions.GetSerializer | structured/serializers/unions.py:71-87 | Without a default, an unmapped result is a ValueError; with one, `result_map.get(key, default)`. |
| Unions.GetSerializerSingle | structured/serializers/unions.py:35 | Whatever a union selects packs and unpacks exactly one value. |
| Unions.FalsyDefault | structured/serializers/unions.py:47 | A falsy default is no default: an unmapped result is refused. |
| Unions.NewLookahead | structured/serializers/unions.py:167-183 | A read-ahead hint without a serializer is a TypeError. |
| Unions.FirstValue | structured/serializers/unions.py:203-209 | The probe's first result, an error when it read nothing. |
| Unions.LookbackRoundTrip | structured/serializers/unions.py:121-152 | The decider picks from the object both ways, so a lookback union reads back what it wrote when the chosen serializer does. |
| Unions.LookaheadRoundTrip | structured/serializers/unions.py:184-216 | When the probe on the packed bytes selects the serializer the write decider chose, the union reads back what it wrote; `size` has no probe bytes. |
| Unions.ReadWith | structured/serializers/unions.py:153-158 | A stream read is `unpack_from` at the cursor, and moves the cursor by the size consumed. |
| Unions.SeekBack | structured/serializers/unions.py:217-223 | `seek(-n, SEEK_CUR)` moves the cursor back by `n`. |
| Unions.LookaheadReadRewinds | structured/serializers/unions.py:217-223 | Reading a lookahead union from a stream is reading it at the cursor: the probe's bytes are given back before the real read. |
| Unions.UnionSerializer.PartialObject | structured/serializers/unions.py:63-70 | Reading the partial object before `prepack` is an AttributeError. |
| Unions.UnionSerializer.Pack | structured/serializers/unions.py:125-130 | The union's packing through the chosen serializer; `size` is that serializer's. |
| Unions.UnionSerializer.Unpack | structured/serializers/unions.py:141-146 | The union's unpacking; `size` is the chosen serializer's. Before `preunpack`, a lookback union is an AttributeError. A lookahead union first runs its probe without the object: the probe's error, then `get_serializer`'s ValueError, come before the AttributeError. |
| Unions.UnionSerializer.UnpackFrom | structured/serializers/unions.py:147-152 | The same at an offset, with the same order of errors. |
| Unions.UnionSerializer.UnpackRead | structured/serializers/unions.py:217-223 | The stream read; the lookahead decider rewinds after its probe. Before `preunpack` the errors come in the same order, and the stream is left where it was. |
| Conditionals.SkipCodec | structured/serializers/conditional.py:70-95 | The skip serializer has as many values as its defaults. |
| Conditionals.SkipIgnoresInput | structured/serializers/conditional.py:77-95 | Whatever the values or the buffer, it writes nothing, has size 0 and reads back its defaults. |
| Conditionals.NewConditional | structured/serializers/conditional.py:47-53 | A ValueError iff the number of defaults differs from `num_values`. |
| Conditionals.Select | structured/serializers/conditional.py:43-46 | `prepack`/`preunpack` give the wrapped serializer when the condition holds, the skip serializer otherwise. |
| Conditionals.ConditionalWithByteOrder | structured/serializers/conditional.py:58-61 | The re-ordered serializer with the same condition and defaults. |
| Conditionals.ConditionalCodec | structured/serializers/conditional.py:63-67 | The conditional field inside a compound, corrected: each operation on the object goes to the serializer selected for it, prepacked with that object. It has the wrapped serializer's value count. |
| Conditionals.ConditionalCodecSelects | structured/serializers/conditional.py:63-67 | With a true condition every operation is the wrapped serializer's; with a false one nothing is written and the defaults are read, on every buffer. |
| Conditionals.ConditionalCodecAsWritten | structured/serializers/api.py:388-389 | As written the selected serializer is used without its own `prepack`; it keeps the wrapped serializer's value count. |
| Conditionals.ConditionalNotPrepacked | structured/serializers/conditional.py:63-64 | As written, a true condition over a wrapped serializer that keeps the partial object (an array, a union, a tuple) is an AttributeError on every operation; every other case behaves as the corrected field. |
| Conditionals.ConditionalRoundTrip | structured/serializers/conditional.py:63-95 | A true condition round-trips as the wrapped serializer does. A false one writes nothing, and round-trips exactly the defaults. This is about the corrected field (see Findings). |
| Conditionals.SkippedFieldPack | tests/test_conditional.py:28-53 | A skipped field in a record packs exactly what the fields around it pack, so a v2 record with v1's version packs v1's bytes. |
| Conditionals.SkippedFieldUnpack | tests/test_conditional.py:28-53 | A skipped field reads back its defaults between the fields around it, consuming no bytes. |
| Tuples.TuplePack | structured/serializers/tuples.py:43-45 | `pack(t)` is the inner `pack(*t)`. Anything other than one iterable argument is a TypeError. |
| Tuples.Grouped | structured/serializers/tuples.py:58-64 | The inner serializer's values come back as one tuple, with its size. |
| Tuples.TupleCodec | structured/serializers/tuples.py:26-37 | A tuple serializer always stands for one value. |
| Tuples.TupleOf | structured/serializers/tuples.py:29-30 | A tuple over the children stands for one value. Its inner codec is the children's compound, which is what the fold gives when it succeeds (see the Left-out line). |
| Tuples.TupleFold | structured/serializers/tuples.py:28-29 | `sum(serializers, NullSerializer())`: when the fold succeeds, the result is a serializer `+` accepts. |
| Tuples.TupleFoldNumValues | structured/serializers/tuples.py:28-29 | With struct joins over the corrected fold, a successful fold stands for as many values as the children together. |
| Tuples.TupleFoldBuilt | structured/serializers/tuples.py:28-29 | Folding serializers `+` can build gives one `+` can build. |
| Tuples.TupleFoldFinalStops | structured/serializers/api.py:179-181 | Once the children so far fold to a final serializer, any further child except `NullSerializer` makes the construction fail. |
| Tuples.TupleFoldTwoStructs | structured/serializers/structs.py:156-170 | Two struct children fold if and only if they share a byte order. Mixed orders are a ValueError, and equal orders give the joined struct. |
| Tuples.TupleRoundTrip | structured/serializers/tuples.py:43-60 | A tuple round-trips when its inner serializer round-trips its items, with the inner serializer's size. |
| Tuples.ListPacksLikeTuple | structured/serializers/tuples.py:43-45 | Any iterable packs as its elements: a list packs like the tuple of its items. |
| Tuples.TupleUnpackFromDelegates | structured/serializers/tuples.py:61-64 | `unpack_from` reads where the inner serializer reads, and consumes as much. |
| Tuples.Int8Int16Example | tests/test_tuples.py:9-17 | A little-endian `tuple[int8, int16]` with `(1, 2)` packs like the struct `'<bh'` (3 bytes, no padding) and reads back the same tuple. |
| Tuples.TupleSerializer.constructor | structured/serializers/tuples.py:28-30 | A new tuple serializer has the children's compound inside and no partial object. |
| Tuples.TupleSerializer.Pack | structured/serializers/tuples.py:39-45 | Before `prepack` it is an AttributeError. It is the tuple's packing, with `size` the inner serializer's. |
| Tuples.TupleSerializer.Unpack | structured/serializers/tuples.py:54-60 | The tuple's unpacking, with `size` the inner serializer's. |
| Tuples.TupleSerializer.UnpackFrom | structured/serializers/tuples.py:61-64 | The same at an offset. |
| Records.AssignedFields | structured.py:283-290 | `_set` assigns the zipped names and keeps every other attribute; with distinct names the i-th name holds the i-th value. |
| Records.Lookup | structured.py:292-296 | `_get` is an AttributeError when an attribute was never assigned; otherwise one value per attribute. |
| Records.LookupSpec | structured.py:292-296 | `_get` succeeds exactly when every attribute is assigned, and then gives each attribute's value in order. |
| Records.SetThenGet | structured/structured.py:383-396 | Setting one value per distinct attribute, then getting them, gives the values back, whatever was assigned before. |
| Records.Structured.constructor | structured.py:277-281 | A new instance has the class's struct and attribute names; without slots its attributes start with the class-level values, with slots with none. |
| Records.Structured.Set | structured.py:283-290 | The attributes become the old ones updated by the zipped names and values. |
| Records.Structured.Get | structured.py:292-296 | The values read are those of `_get` on the current attributes. |
| Records.Structured.Unpack | structured.py:298-304 | A buffer `struct.unpack` refuses leaves the attributes unchanged; otherwise its values are assigned. |
| Records.Structured.UnpackFrom | structured.py:306-314 | The same with the struct read at the offset. |
| Records.Structured.Pack | structured.py:316-318 | An unassigned attribute is an AttributeError; otherwise the attributes' values through the struct, `calcsize` bytes long. |
| Records.PackUnpackRoundTrip | structured/structured.py:398-418 | What one instance packs, unpacked into any instance of the class, gives that instance the same attribute values, for values the struct reads back. |
| FirstStructured.Counted | structured.py:128-137 | `base[count]`: a non-int count is a TypeError, a count of at most 0 a ValueError, otherwise the item `'{count}{base}'`. |
| FirstStructured.CountedPad | structured.py:140-144 | `pad[2]` is `'2x'`: two bytes and no value. `pad[0]` is a ValueError and a non-int count a TypeError. |
| FirstStructured.Visibility | structured.py:111 | A name starting with `_` is private. An empty name has no first character, an error. |
| FirstStructured.MemberPart | structured.py:103-114 | A ClassVar adds nothing. A format type adds its format and, unless it is a pad, its name. Another type is a TypeError on a public member and skipped on a private one. |
| FirstStructured.CollectResult | structured.py:101-114 | Collection fails exactly on a public member of another type; otherwise the attributes are the non-pad format members in order, one value each. |
| FirstStructured.AttrNamesDistinct | structured.py:103-108 | Distinct member names give distinct attribute names, all of them member names. |
| FirstStructured.Runs | structured.py:120 | `groupby`: non-empty maximal runs of equal formats, no two neighbours equal. |
| FirstStructured.RunsUngroup | structured.py:120 | Ungrouping the runs gives back the formats. |
| FirstStructured.Prefix | structured.py:119 | `f'{count}{fmt}'` writes the run length in front of the format, in front of any count it already has. |
| FirstStructured.StringRunCollapses | structured.py:115-121 | As written, two `char[5]` fields fold to `'5s'`: one value for two attributes. The corrected fold keeps two values. |
| FirstStructured.PadRunConcatenatesCounts | structured.py:115-121 | As written, two `pad[2]` fields fold to `'22x'`: 22 pad bytes where the corrected fold has 4. |
| FirstStructured.FoldRun | structured.py:115-121 | A run folded so that it keeps its fields: it lays out exactly the run's repeated items. |
| FirstStructured.GroupFoldLayout | structured.py:115-121 | The corrected fold lays out exactly the declared fields, so its size and value count are theirs. |
| FirstStructured.GroupFoldAgrees | structured.py:115-121 | The comprehension equals the corrected fold when every run is of plain uncounted primitives. It is shorter as soon as a string or counted pad repeats. |
| FirstStructured.FirstLayoutValid | structured.py:85-121 | With runs folded by the corrected run fold (FirstStructured.GroupFoldLayout), a class the first generation accepts has one value per attribute and distinct attributes, in the given byte order. |
| FirstStructured.CollectMembers | structured.py:101-114 | The member loop computes the collection: the first refused member is the error. |
| FirstStructured.ComputeFormat | structured.py:85-121 | `compute_format`: the collected formats folded by the corrected run fold (FirstStructured.GroupFoldLayout), with the attributes and the byte order. |
| EarlyStructured.FirstCounted | structured/structured.py:91-93 | The index of the first counted item: every item before it is uncounted. |
| EarlyStructured.MidFoldAsWritten | structured/structured.py:76-103 | As written: an empty side gives the other side, and formats that do not overlap are concatenated. |
| EarlyStructured.MidFoldAgrees | structured/structured.py:89-102 | When the first count of `format1` is on its last item, or it has none, the fold is the end-anchored fold of structured/serializers.py. |
| EarlyStructured.MidFoldDrops | structured/structured.py:91 | When an earlier item carries the first count, the fold loses every item from that one up to the overlap. |
| EarlyStructured.MidFoldExamples | structured/structured.py:76-103 | `'h10q' + 'qhi'` gives `'h11qhi'` as documented, but `'2xb' + 'b'` gives `'3b'`, where `'2x2b'` is meant. |
| EarlyStructured.PadFoldSizes | structured/structured.py:91 | `'3b'` is three bytes and three values; `'2x2b'` is four bytes and two values. |
| EarlyStructured.PadBeforeRepeatedField | structured/structured.py:137-138 | `pad[2]` then two `int8` fields fold, as written, to `'3b'`: three values for two attributes. The end-anchored fold gives `'2x2b'`. |
| EarlyStructured.FoldAllLayout | structured/structured.py:137-138 | The reduction with the corrected fold keeps every declared field, in order. |
| EarlyStructured.ComputeFormat | structured/structured.py:105-141 | `compute_format`: the collected formats reduced by the corrected, end-anchored fold (EarlySerializers.EarlyFold). |
| EarlyStructured.EarlyFoldValid | structured/structured.py:76-103 | Folding two valid formats gives a valid format. |
| EarlyStructured.MidLayoutValid | structured/structured.py:105-141 | With the corrected fold (EarlySerializers.EarlyFold), every class `compute_format` accepts, with distinct member names, gets a valid layout whose attributes are its non-pad members. |
| EarlyStructured.ExtractByteOrder | structured/structured.py:359-374 | The empty format has the default order; a leading marker is split off again for every order. |
| EarlyStructured.MergeFormats | structured/structured.py:317-357 | STRICT mode with differing byte orders is a ValueError, exactly. Otherwise the formats without markers are folded by the corrected fold (EarlySerializers.EarlyFold), in the derived class's order. |
| EarlyStructured.NewClass | structured/structured.py:255-299 | A class without a `Structured` base has its own layout, computed with the corrected fold; a refused member is the class's error. |
| EarlyStructured.NewClassDerived | structured/structured.py:270-287 | Deriving: STRICT mode refuses a different byte order, a repeated attribute is a SyntaxError, and otherwise the base's fields come before the class's own, as do its attributes, and with the corrected fold the layout is valid. |
| EarlySerializers.EarlyFold | structured/serializers.py:63-89 | The end-anchored fold: an empty side gives the other; overlapping last and first items merge, with the count before the last char plus one. |
| EarlySerializers.EarlyFoldAgrees | structured/serializers.py:63-89 | When `format2` does not start with a counted item, this fold is the current engine's corrected fold. |
| EarlySerializers.EarlyFoldCalcSize | structured/serializers.py:63-89 | Folding keeps `calcsize`, strings combined or not. |
| EarlySerializers.EarlyFoldLayout | structured/serializers.py:63-89 | Without string combining, the folded format has exactly the fields of the two formats one after the other. |
| EarlySerializers.EarlyFoldExamples | structured/serializers.py:63-89 | `'4sI' + 'I'` gives `'4s2I'`; `'h' + '2h'` stays `'h2h'`. |
| EarlySerializers.StructAdd | structured/serializers.py:303-314 | Two structs join into one struct in the left byte order: the folded formats and the summed `num_values`. |
| EarlySerializers.ActionAdd | structured/serializers.py:364-376 | An action serializer plus a struct: the left's actions, then the right's or one `noop_action` per value of a plain struct. |
| EarlySerializers.ActionRadd | structured/serializers.py:378-389 | A struct plus an action serializer: one `noop_action` per value of the struct, then the actions, in the struct's byte order. |
| EarlySerializers.StructMulAsWritten | structured/serializers.py:316-325 | As written, `*` folds the copies with strings combined, keeping `num_values * n`. |
| EarlySerializers.StructMul | structured/serializers.py:316-325 | The corrected `*`: TypeError for a non-int, ValueError for at most 0, the struct for 1, else `n` copies of the struct's fields, strings kept apart. |
| EarlySerializers.StructMulConsistent | structured/serializers.py:316-325 | The corrected `*` keeps a struct's value count consistent with its format, and its size is `n` times the struct's. |
| EarlySerializers.StringMulMismatch | structured/serializers.py:316-325 | As written, `StructSerializer('s') * 2` is `'2s'` with `num_values` 2, so packing two values is a `struct.error`. The corrected `'ss'` packs them. |
| EarlySerializers.ActionMul | structured/serializers.py:391-402 | `*` of an action serializer: the same errors, the plain fold, and the actions repeated `n` times. |
| EarlySerializers.WithByteOrder | structured/serializers.py:275-280 | A struct keeps its fields and takes the new order, and is returned itself when the order is unchanged. Action serializers and compounds keep their shape. |
| EarlySerializers.WithByteOrderSettles | structured/serializers.py:475-479 | After `with_byte_order(bo)` every struct in the tree is in `bo`, and doing it again changes nothing. |
| EarlySerializers.AddInto | structured/serializers.py:491-502 | The in-place loop of `_add_impl` computes it. |
| EarlySerializers.JoinShape | structured/serializers.py:496-501 | Two non-compounds join into a non-compound or into exactly the pair of them. |
| EarlySerializers.PlusFlat | structured/serializers.py:481-512 | `+` with a flat compound on either side gives a flat compound. |
| EarlySerializers.StructPlusCompoundNests | structured/serializers.py:303-314 | As written, `'b' + CompoundSerializer((h, x))` is a compound whose second child is the compound itself. Joining through `__radd__` gives the flat `(bh, x)`. |
| EarlySerializers.StructPlusCompoundBehaves | structured/serializers.py:184-189 | The nested compound packs and unpacks exactly as the flat one. |
| EarlySerializers.NullIdentity | structured/serializers.py:219-226 | The null serializer is an identity on both sides of any flat serializer, as written and corrected. |
| EarlySerializers.NullAfterNested | structured/serializers.py:491-502 | Behind a nested compound, the null serializer is appended, not absorbed. |
| EarlySerializers.StructCodec | structured/serializers.py:282-283 | A struct serializer takes `num_values` values; `unpack` cuts the buffer to `size`. |
| EarlySerializers.ActionCodec | structured/serializers.py:328-336 | An action serializer takes `num_values` values and zips the struct's values with its actions. |
| EarlySerializers.SemNumValues | structured/serializers.py:410-413 | Every serializer takes as many values as its `num_values` says. |
| EarlySerializers.StructAddPacksLikeCompound | structured/serializers.py:303-314 | Two consistent structs in one byte order: their sum packs exactly what the compound of the two packs. |
| EarlySerializers.StructAddUnpacksLikeCompound | structured/serializers.py:303-314 | The same for `unpack`, on every buffer. |
| EarlySerializers.StructAddUnpacksFromLikeCompound | structured/serializers.py:303-314 | The same for `unpack_from`, at every offset. |
| EarlySerializers.NestedPacksLikeFlat | structured/serializers.py:415-422 | A compound nested as the last child packs like its children spliced in. |
| EarlySerializers.NestedUnpacksLikeFlat | structured/serializers.py:448-455 | ... and unpacks like them. |
| EarlySerializers.TakeFirst | structured/serializers.py:415-422 | A compound handed more values than it takes packs only its own. |
| EarlySerializers.EarlyCompoundSerializer.constructor | structured/serializers.py:410-413 | The children's behaviours, the summed `num_values`, and `size` 0. |
| EarlySerializers.EarlyCompoundSerializer.Pack | structured/serializers.py:415-422 | The compound's packing. |
| EarlySerializers.EarlyCompoundSerializer.Unpack | structured/serializers.py:448-455 | The compound's unpacking; `size` becomes the bytes consumed, and is left alone on an error. |
| EarlySerializers.EarlyCompoundSerializer.UnpackFrom | structured/serializers.py:457-464 | The same at an offset. |
| EarlyBaseTypes.StructCache | structured/base_types.py:277-286 | `struct_cache` gives the struct in the order and format asked for; it is an action serializer, with the actions, exactly when some action is not `noop_action`. |
| EarlyBaseTypes.StructCacheSound | structured/base_types.py:277-286 | Both choices unpack to the struct's values with every action applied, so the plain struct is chosen only where it changes nothing. |
| EarlyBaseTypes.OverwriteAt | structured/base_types.py:233-238 | After `pack_into`, the bytes from `pos` are the data and every other byte is unchanged. |
| EarlyBaseTypes.OverwriteBefore | structured/base_types.py:233-238 | Writing the second part and then the first in front of it is writing the two together. |
| EarlyBaseTypes.UnpackFromAgrees | structured/base_types.py:260-268 | `unpack_from(buffer, off)` reads what `unpack(buffer[off:])` reads, with the same `size`, when the custom children do. |
| EarlyBaseTypes.PlainStructReadsBack | structured/base_types.py:181-186 | A plain struct reads back every tuple of values it represents exactly. |
| EarlyBaseTypes.SlicedRoundTrip | structured/base_types.py:227-259 | What the compound packs it unpacks back, consuming exactly what it wrote, when the slices cut the values into consecutive pieces each child reads back. |
| EarlyBaseTypes.SlicedRoundTripAt | structured/base_types.py:260-268 | The same bytes anywhere in a larger buffer are read back by `unpack_from` at their offset. |
| EarlyBaseTypes.WriteParts | structured/base_types.py:233-238 | The loop of `pack_into`: each child writes after the earlier ones; one that does not fit fails. |
| EarlyBaseTypes.SlicedCompoundSerializer.constructor | structured/base_types.py:215-217 | The children and the action table, with `size` 0. |
| EarlyBaseTypes.SlicedCompoundSerializer.Pack | structured/base_types.py:227-232 | Each child packs its slice of the values, and the bytes are concatenated. |
| EarlyBaseTypes.SlicedCompoundSerializer.PackInto | structured/base_types.py:233-238 | It succeeds iff every child packs and the bytes fit; the buffer is then overwritten at the offset and `size` is their length. A failure leaves `size`. |
| EarlyBaseTypes.SlicedCompoundSerializer.Unpack | structured/base_types.py:244-259 | The children read one after another; `size` becomes the bytes consumed, and is left alone on an error. |
| EarlyBaseTypes.SlicedCompoundSerializer.UnpackFrom | structured/base_types.py:260-268 | The same at an offset. |
| EarlyStrings.CharCreate | structured/complex_types/strings.py:80-99 | `char[...]`: an int must be positive, a terminator a single byte, a `uint*` or NET chooses its kind; anything else is refused. |
| EarlyStrings.UnicodeCreate | structured/complex_types/strings.py:165-196 | `unicode[...]`: the encoding is checked first; an int count becomes `_static_char[count]`; other counts choose as `char` does. |
| EarlyStrings.ZeroLength | structured/complex_types/strings.py:80-99 | A zero length is refused by `char` and taken by `unicode`. |
| EarlyStrings.StructCacheCall | structured/base_types.py:277-286 | `struct_cache` with a keyword other than `format` or `actions` is a TypeError. |
| EarlyStrings.ByteOrderKeywordRefused | structured/complex_types/strings.py:238-242 | As written, `_dynamic_char` and `_net_char` cannot be built in any byte order (`byte_order=` is refused), while the count struct meant is a well-formed length field. |
| EarlyStrings.NewDynamic | structured/complex_types/strings.py:238-242 | `_dynamic_char` with the count struct it means to build: one unsigned field of the type's width, in the given order. |
| EarlyStrings.ReadBack | structured/complex_types/strings.py:338-354 | A packed string reads back as itself; a terminated string without a trailing terminator. |
| EarlyStrings.KindRoundTrip | structured/complex_types/strings.py:202-511 | Every kind of string packs every string it holds and reads it back, before anything and after anything; the .NET kind writes its two-byte marker least significant byte first whatever the byte order. |
| EarlyStrings.StaticRoundTrip | structured/complex_types/strings.py:202-228 | A string of exactly `n` bytes round-trips through `'{n}s'`. |
| EarlyStrings.DynamicRoundTrip | structured/complex_types/strings.py:244-314 | A string the count field can count round-trips. |
| EarlyStrings.NetRoundTrip | structured/complex_types/strings.py:433-498 | A string of at most 0x7FFF bytes round-trips through the .NET prefix. |
| EarlyStrings.TerminatedRoundTrip | structured/complex_types/strings.py:347-385 | Corrected `_st_data`: a terminator-free string reads back without the terminator pack added. |
| EarlyStrings.UnicodeRoundTrip | structured/complex_types/strings.py:513-559 | For every kind, the dynamic and .NET ones as corrected: text whose encoding the kind holds, and which the decoder gives back, reads back unchanged when it does not end in a NUL. |
| EarlyStrings.DynamicUnpackAsWrittenRefuses | structured/complex_types/strings.py:291-299 | As written, `unpack` reads the count with `struct.unpack` of the whole buffer, so it refuses every packed string except `b''` alone. Reading the count from the front gives the string back. |
| EarlyStrings.NetUnpackAsWrittenRefuses | structured/complex_types/strings.py:473-482 | The same for the .NET string: only `b''` with nothing after it reads back as written. |
| EarlyStrings.BigEndianMarkerMisread | structured/complex_types/strings.py:444-445 | A length of 128 in big-endian order is written `01 80`: its first byte is below 128, so the one-byte probe of `unpack` takes it for a short length; little-endian writes `80 01`. |
| EarlyStrings.EarlyDoubledTerminator | structured/complex_types/strings.py:347-349 | As written `b'ab\x00'` packs to four bytes; the terminated kind of the model packs three. |
| EarlyStrings.ScanUnpackFrom | structured/complex_types/strings.py:375-385 | The scan loop computes the terminated string's `unpack_from`. |
| EarlyBlob.BlobCreate | structured/complex_types/blob.py:26-44 | `blob[...]`: a `uint*` gives the prefixed blob, an int is handed to `char`, anything else is a TypeError; the result is static or prefixed. |
| EarlyBlob.BlobRoundTrip | structured/complex_types/blob.py:48-145 | Every blob type reads back any byte string it can count, whatever surrounds it. |
| EarlyBlob.BlobCapacity | structured/complex_types/blob.py:48-145 | A one-byte prefix holds at most 255 bytes, a two-byte one 65535. |
| EarlyHeaders.HeaderCreate | structured/complex_types/array_headers.py:209-245 | `Header._create`: a size check must be a `uint*`, and a length an int or a `uint*`; an int length must be positive. |
| EarlyHeaders.HeaderSubscript | structured/complex_types/array_headers.py:192-205 | `Header[key]`: one or two arguments; any other number is a TypeError. |
| EarlyHeaders.HeaderLayout | structured/complex_types/array_headers.py:40-181 | The header struct packs one unsigned value per attribute into the header's size. |
| EarlyHeaders.HeaderBytesPacks | structured/complex_types/array_headers.py:40-181 | The header packs the attributes its class names, in order; one never assigned is an AttributeError. |
| EarlyHeaders.LoopCount | structured/complex_types/array_headers.py:48-51 | The length: the class's `_count` for a static header, the assigned attribute otherwise. |
| EarlyHeaders.ValidateDataSize | structured/complex_types/array_headers.py:34-37 | The checked headers refuse exactly a byte count other than the stored one; the others accept anything. |
| EarlyHeaders.CountAssigned | structured/complex_types/array_headers.py:53-59 | `count = n`: a static header refuses any other length with ValueError and stores nothing; a dynamic header assigns it. |
| EarlyHeaders.CountKeeps | structured/complex_types/array_headers.py:53-59 | Setting the length leaves every other attribute alone. |
| EarlyHeaders.HeaderRoundTrip | structured/complex_types/array_headers.py:40-181 | A fitting length and data size pack and read back; any header object that reads them has that length and accepts that data size and no other. |
| EarlyHeaders.ArrayHeader.constructor | structured/complex_types/array_headers.py:31-32 | `header(count, data_size)` as written: only `DynamicHeader` and `StaticCheckedHeader` assign an attribute. |
| EarlyHeaders.ArrayHeader.Initialized | structured/complex_types/array_headers.py:82-84 | The initialiser as intended, as `DynamicHeader`'s does for its count: every packed attribute assigned. |
| EarlyHeaders.ArrayHeader.SetCount | structured/complex_types/array_headers.py:53-59 | `header.count = n` as `CountAssigned` says. |
| EarlyHeaders.ArrayHeader.SetDataSize | structured/complex_types/array_headers.py:94-113 | `header.data_size = n` assigns the attribute for every kind. |
| EarlyHeaders.ArrayHeader.Unpack | structured/complex_types/array_headers.py:40-181 | The header struct reads the front of the buffer and its values are assigned; a failed read changes nothing. |
| EarlyHeaders.ArrayHeader.UnpackFrom | structured/complex_types/array_headers.py:40-181 | The same at an offset. |
| EarlyArrays.ArrayCreate | structured/complex_types/arrays.py:132-169 | `array._create`: a concrete header class is needed; format items take no size check; a static length multiplies the item struct, a dynamic one reads the header's count type; a `Structured` item takes any header. |
| EarlyArrays.ArrayOf | structured/complex_types/arrays.py:116-128 | No argument or more than two before the element is a TypeError; one is the header class, two are handed to `Header[...]` first. |
| EarlyArrays.ShorthandRefused | structured/complex_types/arrays.py:98-100 | As written, the documented `array[2, uint16]` is a TypeError. |
| EarlyArrays.ShorthandIntended | structured/complex_types/arrays.py:98-100 | Read as documented, `array[2, uint16]` is the static array of two `uint16`. |
| EarlyArrays.CheckedArray | structured/complex_types/arrays.py:291-303 | The first value must be a list of exactly the array's length. |
| EarlyArrays.FormatArrayRoundTrip | structured/complex_types/arrays.py:305-349 | A static array of an item struct that does not start with a string packs `count` items and reads them back as one list, whatever follows. |
| EarlyArrays.MulAgrees | structured/serializers.py:316-325 | For an item struct that does not start with a string, `*` as written is the corrected `*`. |
| EarlyArrays.ArrayStruct | structured/complex_types/arrays.py:394-412 | `_arr_st` for `n` items: the count field plus `obj * n`; `obj * 0` is refused. |
| EarlyArrays.DynamicFormatUnpack | structured/complex_types/arrays.py:444-452 | As written: the length, then `obj * count` over the rest; a length of 0 reaches `obj * 0`. |
| EarlyArrays.DynamicFormatWrite | structured/complex_types/arrays.py:414-420 | `pack` as intended: an empty list packs as its length 0 alone. |
| EarlyArrays.DynamicFormatRead | structured/complex_types/arrays.py:444-452 | `unpack` as intended: a length of 0 is the empty list, and `size` is what was read. |
| EarlyArrays.DynamicFormatRoundTrip | structured/complex_types/arrays.py:414-452 | Every list the corrected serializer can count, the empty one included, reads back as itself, whatever follows. |
| EarlyArrays.DynamicPackAgrees | structured/complex_types/arrays.py:414-420 | A non-empty list of an item struct without a leading string packs the same as written and corrected. |
| EarlyArrays.DynamicUnpackAgrees | structured/complex_types/arrays.py:444-452 | ... and reads the same from any buffer whose length is not 0. |
| EarlyArrays.DynamicFormatOffsetConsistent | structured/complex_types/arrays.py:454-463 | Reading at an offset is reading from the offset on, as written. |
| EarlyArrays.DynamicFormatReadOffsetConsistent | structured/complex_types/arrays.py:454-463 | The same for the corrected read. |
| EarlyArrays.EmptyDynamicFormatArray | structured/complex_types/arrays.py:394-412 | As written, the empty list cannot be packed and a length of 0 cannot be read; the corrected serializer packs it as its length alone. |
| EarlyArrays.StaleSizeInCompound | structured/complex_types/arrays.py:444-452 | In a compound, the array as written hands the next serializer the buffer from its stale `size`, not from where its items end. |
| EarlyArrays.StaleSizeExample | structured/complex_types/arrays.py:444-452 | A `uint8`-counted array of `uint8` then a `uint8`, read from `01 07 09` by a fresh serializer: the last field reads `01` again and the record reports 1 byte. |
| EarlyArrays.StaleSizeCorrected | structured/complex_types/arrays.py:444-452 | The corrected serializer reads `09` there and the record reports 3 bytes. |
| EarlyArrays.DynamicFormatArraySerializer.constructor | structured/complex_types/arrays.py:377-387 | The count type, its byte order, the item struct, and `size` 0. |
| EarlyArrays.DynamicFormatArraySerializer.ArrSt | structured/complex_types/arrays.py:394-412 | `_arr_st`: its result, and `size` set to the joined struct's size once it is built. |
| EarlyArrays.DynamicFormatArraySerializer.Pack | structured/complex_types/arrays.py:414-420 | The array's packing as written; `size` as `_arr_st` leaves it. |
| EarlyArrays.DynamicFormatArraySerializer.PackInto | structured/complex_types/arrays.py:422-434 | A failed pack or a buffer too short writes nothing; otherwise the bytes are written at the offset. |
| EarlyArrays.StructuredPackRun | structured/complex_types/arrays.py:190-227 | `pack` through `pack_write`: the length assigned, the header written, then the items, and a size-checked header written again once the data size is known. |
| EarlyArrays.PackWritesHeader | structured/complex_types/arrays.py:207-227 | `pack` keeps the items' length in the header object and writes in front of the items the header its final attributes describe. |
| EarlyArrays.StructuredPacks | structured/complex_types/arrays.py:207-227 | `pack` of fitting items writes the header for their length and byte count, then the items. |
| EarlyArrays.StructuredPackIntoRun | structured/complex_types/arrays.py:196-205 | `pack_into`: the length assigned, the items written after the header's place, the data size assigned, and the header written last. |
| EarlyArrays.PackIntoWritesHeader | structured/complex_types/arrays.py:196-205 | `pack_into` keeps the length and writes at the offset the header its final attributes describe, with the items' byte count as data size. |
| EarlyArrays.PackIntoRoundTrip | structured/complex_types/arrays.py:196-205 | With fitting items and room in the buffer, `pack_into` succeeds from any header state and writes the header then the items at the offset. |
| EarlyArrays.Checked | structured/complex_types/arrays.py:237-240 | The items read go through the header's data-size check; `size` is the bytes consumed either way. |
| EarlyArrays.UnpackRunOutcome | structured/complex_types/arrays.py:229-240 | A failed header read leaves the header and `size` alone; a successful unpack is one list, at least the header long, whose data size the header accepts. |
| EarlyArrays.StructuredRoundTrip | structured/complex_types/arrays.py:190-240 | `pack` then `unpack` gives the items back, whatever follows and whatever state the reading header is in, for round-tripping items that fit the header. |
| EarlyArrays.PackIntoReadsBack | structured/complex_types/arrays.py:196-253 | What `pack_into` wrote, `unpack_from` at the same offset reads back. |
| EarlyArrays.StructuredOffsetConsistent | structured/complex_types/arrays.py:242-253 | `unpack_from` at an offset is `unpack` of the tail: the same outcome, header state and `size`. |
| EarlyArrays.FirstPassNeedsDataSize | structured/complex_types/arrays.py:211-215 | As written, a `DynamicCheckedHeader` array cannot `pack` from its initial state: the first header write reads a data size nothing assigned. |
| EarlyArrays.InitializedRoundTrip | structured/complex_types/arrays.py:207-240 | From the state the initialiser intends, `pack` of fitting items succeeds and reads back. |
| EarlyArrays.StructuredArraySerializer.constructor | structured/complex_types/arrays.py:181-184 | The header object, the item serializer, and `size` unset. |
| EarlyArrays.StructuredArraySerializer.Pack | structured/complex_types/arrays.py:190-194 | The outcome of `pack`, the header's new attributes and `size` are those of the pack run. |
| EarlyArrays.StructuredArraySerializer.PackAll | structured/complex_types/arrays.py:218-220 | The item loop computes the items' packing. |
| EarlyArrays.StructuredArraySerializer.PackInto | structured/complex_types/arrays.py:196-205 | The outcome, the buffer, the header's attributes and `size` are those of the `pack_into` run. |
| EarlyArrays.StructuredArraySerializer.WriteAll | structured/complex_types/arrays.py:201-203 | The item loop of `pack_into` computes the items' writes. |
| EarlyArrays.StructuredArraySerializer.ReadItems | structured/complex_types/arrays.py:234-237 | The loop reads `n` items one after another, `size` counting the bytes consumed. |
| EarlyArrays.StructuredArraySerializer.ReadItemsFrom | structured/complex_types/arrays.py:247-250 | The same at an offset. |
| EarlyArrays.StructuredArraySerializer.Unpack | structured/complex_types/arrays.py:229-240 | The outcome of `unpack`, the header's new attributes and `size` are those of the unpack run. |
| EarlyArrays.StructuredArraySerializer.UnpackFrom | structured/complex_types/arrays.py:242-253 | The same for `unpack_from`. |

## Left out

- In the current engine, `pack_into`, `pack_write` and `unpack_read` over writable buffers and file objects are I/O and are left out, except the lookahead union's rewind, which is modelled on a (bytes, cursor) stream. In the earlier generation, `pack_into` and `pack_write` are modelled on a byte sequence standing for the buffer or the file's contents: EarlyArrays.DynamicFormatArraySerializer.PackInto, EarlyArrays.StructuredArraySerializer.PackInto and WriteAll, EarlyArrays.StructuredPackRun (the passes of `pack_write`, its seek back to the header an overwrite) and EarlyBaseTypes.SlicedCompoundSerializer.PackInto. The early `unpack_read` chunk loops are left out.
- The struct module's native sizes and alignment, used by the DEFAULT byte order `''` as well as by `'@'`, are those of the C compiler: natively `'bh'` is 4 bytes (a pad byte before the `h`), here 3. The model lays every format out without padding, which is exact under `'<'`, `'>'`, `'!'` and `'='`; native `'l'`/`'L'` widths are not modelled. The host's native byte order is not modelled either: the DEFAULT order, `'='` and `'@'` are taken as little-endian. Floats are foreign C code; a float is carried as its bit pattern.
- PyStruct.FormatAppend: `calcsize` of a concatenation is the sum of the parts' only without alignment padding, i.e. under an explicit `'<'`, `'>'`, `'!'` or `'='`; in the default order Python may add padding between the parts.
- Structs.FoldOverlapsCalcSize: the folded format keeps `calcsize` only up to native alignment padding, exactly so under an explicit standard byte order.
- Semantics.StructAddPacksLikeCompound: the joined struct packs like the compound only without native alignment padding; in the default order `'b' + 'h'` packs 4 bytes where the compound packs 3.
- Semantics.StructAddUnpacksLikeCompound: as above, exact only under an explicit standard byte order.
- Semantics.StructAddUnpacksFromLikeCompound: as above, exact only under an explicit standard byte order.
- EarlySerializers.StructAddPacksLikeCompound: the same alignment caveat for the earlier generation's struct join.
- EarlySerializers.StructAddUnpacksLikeCompound: the same alignment caveat.
- EarlySerializers.StructAddUnpacksFromLikeCompound: the same alignment caveat.
- EarlySerializers.EarlyFoldCalcSize: the same alignment caveat.
- Text encoders and decoders (`str.encode`, `bytes.decode`, `EncoderDecoder`) are foreign code and are parameters of the model.
- Unpack actions, deciders and conditions are total functions given as parameters. Their own exceptions are not modelled.
- The generator laziness of `CompoundSerializer.unpack` is not modelled: the eager model computes `size` after all children have run.
- Finality of `ConditionalSerializer`, `TupleSerializer` and `UnicodeSerializer` (which delegate `get_final`) is not modelled: a `Codec` carries no finality. Finality is modelled on the serializer kinds of `Api`.
- `with_byte_order` of compounds, arrays, unions and tuples is not modelled: a `Codec` carries no byte order. It is modelled for structs, action structs, static struct arrays, dynamic strings and conditionals.
- `size` is shared, last-call state. Thread-safety of reading it is a concurrency concern and is left out.
- Python's `1 == True` key equality in union result maps is not modelled: `Value` keys compare structurally.
- The type-hint transform registry, `__class_getitem__` caching and generics are reflection machinery, and are left out. `StructuredMeta.__new__` of structured/structured.py is modelled on its inputs (the class's members, the base's struct and attributes, the byte-order mode) by EarlyStructured.NewClass and EarlyStructured.NewClassDerived, and the first generation's by FirstStructured.ComputeFormat; the `slots` handling enters only as Records.Structured.constructor's `slots` flag, and the creation of the Python class object is not modelled.
- Compounds.CompoundSerializer: it is used without an object (`NoneValue`), which `CompoundSerializer` does only when no child overrides `prepack`/`preunpack`; the specialized class carries the object.
- Unions.NewUnion: tests/test_unions.py:13-34 expects `prepack` to raise ValueError for an unmapped result, but the code's `prepack` only stores the object; the model follows the code, where the error comes from the operation that asks `get_serializer`.
- Strings.UnicodePack: the object is handed to the inner codec through `PackWith`, but the inner serializer's own `prepack` is not called, as in `UnicodeSerializer`. The AttributeError an array or union inner serializer would then raise is not modelled.
- Strings.NetPackLayout: about the corrected `pack`; as written the empty string is refused (see Findings and Strings.NetEmptyAsWritten).
- Strings.NetPackShort: for `b''` about the corrected `pack`; as written that case is a ValueError.
- Strings.NetRoundTrip: about the corrected `pack`; as written `b''` never packs, so it has no round trip.
- Strings.NetRoundTripFrom: the same.
- Strings.DynamicCharPackLayout: about the corrected `Prefixed`; as written `pack(b'')` is a ValueError (Strings.PrefixedAsWrittenEmpty), and a count field with an explicit byte order refuses every non-empty string (Strings.PrefixedAsWrittenByteOrder).
- Strings.DynamicCharRoundTrip: about the corrected `Prefixed`, as for Strings.DynamicCharPackLayout.
- Strings.DynamicCharRoundTripFrom: about the corrected `Prefixed` and the corrected `unpack_from`; as written a zero count is refused (Strings.EmptyStringUnpackFrom).
- Strings.TerminatedRoundTrip: about the corrected `pack` (Strings.TerminatedData) and `unpack_from` (Strings.TerminatedUnpackFrom); as written a string ending in the terminator packs it twice (Strings.DoubledTerminator) and `size` at an offset is too large (Strings.AbsoluteEnd).
- EarlyStrings.TerminatedRoundTrip: about the corrected `_st_data`; as written a string ending in the terminator packs it twice (EarlyStrings.EarlyDoubledTerminator).
- EarlyStrings.UnicodeRoundTrip: for the dynamic and .NET kinds about the corrected constructors, since as written neither can be built (EarlyStrings.ByteOrderKeywordRefused); and the .NET kind's marker is written least significant byte first in every byte order, as for EarlyStrings.KindRoundTrip.
- Tuples.TupleOf: its inner codec is the compound of the children. The construction errors of `sum(serializers, NullSerializer())`, the ValueError for mixed byte orders and the TypeError for a final child that is not last, are modelled on `Api` serializers by Tuples.TupleFold and its lemmas. For struct children the joined struct the fold gives behaves like the compound only up to alignment padding (Semantics.StructAddPacksLikeCompound).
- Tuples.TupleSerializer.constructor: as for Tuples.TupleOf.
- Conditionals.ConditionalRoundTrip: about the corrected field, which prepacks the selected serializer; as written a wrapped array, union or tuple raises AttributeError (Conditionals.ConditionalNotPrepacked).
- StructArrays.DynamicUnpack: about the corrected serializer; as written a count of 0 is a ValueError (StructArrays.EmptyDynamicArrayAsWritten).
- StructArrays.DynamicStructArraySerializer.Unpack: the corrected unpacking, as for StructArrays.DynamicUnpack.
- StructArrays.DynamicStructArraySerializer.UnpackFrom: the same at an offset.
- StructArrays.DynamicStructArraySerializer.Pack: the array is modelled on its own with `num_values` 1; as written (`num_values = 0`) a compound hands it no values (StructArrays.DynamicInCompoundAsWritten).
- Unions.LookaheadRoundTrip: the probe is run without the object (`NoneValue`), as the source runs it without `preunpack`; a probe serializer that reads its partial object (an array, a union) is not modelled as raising AttributeError.
- Unions.UnionUnpack: as for Unions.LookaheadRoundTrip, the probe is run without the object (`NoneValue`), as the source runs it without `preunpack`; a probe serializer that reads its partial object (an array, a union) is not modelled as raising AttributeError.
- Unions.UnionUnpackFrom: as for Unions.LookaheadRoundTrip, the probe is run without the object (`NoneValue`), as the source runs it without `preunpack`; a probe serializer that reads its partial object (an array, a union) is not modelled as raising AttributeError.
- Unions.LookaheadUnpackRead: as for Unions.LookaheadRoundTrip, the probe is run without the object (`NoneValue`), as the source runs it without `preunpack`; a probe serializer that reads its partial object (an array, a union) is not modelled as raising AttributeError.
- Unions.UnionSerializer.Unpack: as for Unions.LookaheadRoundTrip, the probe is run without the object (`NoneValue`), as the source runs it without `preunpack`; a probe serializer that reads its partial object (an array, a union) is not modelled as raising AttributeError.
- Unions.UnionSerializer.UnpackFrom: as for Unions.LookaheadRoundTrip, the probe is run without the object (`NoneValue`), as the source runs it without `preunpack`; a probe serializer that reads its partial object (an array, a union) is not modelled as raising AttributeError.
- Unions.UnionSerializer.UnpackRead: as for Unions.LookaheadRoundTrip, the probe is run without the object (`NoneValue`), as the source runs it without `preunpack`; a probe serializer that reads its partial object (an array, a union) is not modelled as raising AttributeError.
- Structs.StructAdd: built on the corrected fold; as written `fold_overlaps` drops the right format after its first item (Structs.FoldOverlapsDropsTail: `'b' + 'bh'` is `'2b'`, two values), and the struct `+` inherits that.
- Structs.MulLayout: built on the corrected fold; as written `'bhb' * 2` is `'bh2b'` (Structs.MulDropsAsWritten), so a multi-item format does not repeat.
- Structs.ActionAddUnchecked: the byte-order handling is as written, the fold is the corrected one; as written `fold_overlaps` drops the right format after its first item (Structs.FoldOverlapsDropsTail: `'b' + 'bh'` is `'2b'`, two values).
- Structs.ActionRaddUnchecked: as for Structs.ActionAddUnchecked.
- Structs.ActionAddWellFormed: holds over the corrected fold; as written `fold_overlaps` drops the right format after its first item (Structs.FoldOverlapsDropsTail: `'b' + 'bh'` is `'2b'`, two values), so `'b' + 'bh'` with actions has two values and three actions.
- Structs.ActionAddStructWellFormed: as for Structs.ActionAddWellFormed.
- Structs.ActionRaddWellFormed: as for Structs.ActionAddWellFormed.
- Structs.ActionMulWellFormed: holds over the corrected fold; as written `'bhb' * 2` packs four values against six actions (Structs.MulDropsAsWritten).
- Semantics.StructAddPacksLikeCompound: also rests on the corrected fold; as written `fold_overlaps` drops the right format after its first item (Structs.FoldOverlapsDropsTail: `'b' + 'bh'` is `'2b'`, two values), and then the joined struct packs fewer values than the compound.
- Semantics.StructAddUnpacksLikeCompound: also rests on the corrected fold, as for Semantics.StructAddPacksLikeCompound.
- Semantics.StructAddUnpacksFromLikeCompound: also rests on the corrected fold, as for Semantics.StructAddPacksLikeCompound.
- Api.AddImplNumValues: the struct joins inside use the corrected fold; as written `fold_overlaps` drops the right format after its first item (Structs.FoldOverlapsDropsTail: `'b' + 'bh'` is `'2b'`, two values), so as written a join with a multi-item right struct loses values.
- Api.AddSimpleNumValues: as for Api.AddImplNumValues.
- Api.AddNumValues: as for Api.AddImplNumValues.
- Tuples.TupleFoldNumValues: as for Api.AddImplNumValues: a fold over struct children with several items loses values as written.
- FirstStructured.FirstLayoutValid: holds for the corrected run fold; as written two `char[5]` fields give `'5s'`, one value (FirstStructured.StringRunCollapses), and two `pad[2]` give `'22x'` (FirstStructured.PadRunConcatenatesCounts).
- FirstStructured.ComputeFormat: folds with the corrected run fold, as for FirstStructured.FirstLayoutValid.
- EarlyStructured.ComputeFormat: reduces with the corrected, end-anchored fold; as written (structured/structured.py:91) the fold takes the first count of `format1`, so `pad[2]` then two `int8` fields give `'3b'` (EarlyStructured.MidFoldDrops, EarlyStructured.PadBeforeRepeatedField).
- EarlyStructured.MidLayoutValid: as for EarlyStructured.ComputeFormat: as written `pad[2]` then two `int8` fields give three values for two attributes.
- EarlyStructured.MergeFormats: as for EarlyStructured.ComputeFormat.
- EarlyStructured.NewClass: its layout comes from the corrected fold, as for EarlyStructured.ComputeFormat.
- EarlyStructured.NewClassDerived: as for EarlyStructured.NewClass.
- EarlySerializers.StructMul: the corrected `*`, copies kept apart; as written `'s' * 2` is `'2s'` with two values (EarlySerializers.StringMulMismatch).
- EarlyStrings.KindRoundTrip: the .NET kind writes its marker least significant byte first in every byte order; as written the marker is packed in the serializer's byte order, and a big-endian length of 128 or more is misread (EarlyStrings.BigEndianMarkerMisread).
- Records.Structured.constructor: the class-level values are a parameter: the model does not compute them from the class body and its bases.
- HintArrays.StructItemSpecialised: an item that is a `StructActionSerializer` passes the source's `isinstance(..., StructSerializer)` test too and takes the same branch; the model treats it as a plain struct item and does not carry its unpack actions into the array.
- PyStruct.PackUnit: a Python `bool` packed into an integer field is refused, where Python accepts it as 0 or 1.

## Findings

| source | as written | input that shows it | evidently intended | confidence | as-written member | corrected member |
|---|---|---|---|---|---|---|
| structured/serializers/structs.py:59 | the start pattern ends in a lazy `(.*?)`, so the epilogue is always empty and `format2` after its first item is dropped; struct `+`, `*`, `@` and the action joins inherit it | `fold_overlaps('b', 'bh')` gives `'2b'`; `'bhb' * 2` gives `'bh2b'` | `'2bh'`; `'bhb' * 2` with six values | high, not executed | Structs.FoldOverlapsDropsTail | Structs.FoldOverlaps |
| structured/serializers/structs.py:273-284 | `StructActionSerializer + StructSerializer` formats both halves in the left byte order, without the check `StructSerializer.__add__` makes | `'<h'` with actions plus `'>h'` packs the right value little-endian | ValueError for mixed byte orders | medium, not executed | Structs.ActionAddIgnoresByteOrder | Structs.ActionAdd |
| structured/serializers/structs.py:286-297 | `StructSerializer + StructActionSerializer` (`__radd__`) formats both halves in the left struct's byte order, again without a byte-order check | `'>h'` plus `'<h'` with actions packs the right value big-endian | ValueError for mixed byte orders | medium, not executed | Structs.ActionRaddIgnoresByteOrder | Structs.ActionRadd |
| structured/serializers/arrays.py:238 | `DynamicStructArraySerializer.num_values = 0` | the array inside a compound is handed no values: packing `[1, 2]` fails with IndexError | `num_values = 1` | high, not executed | StructArrays.DynamicInCompoundAsWritten | StructArrays.DynamicInCompound |
| structured/serializers/arrays.py:273-279 | `unpack` multiplies the item serializer by the count read, and `* 0` raises ValueError | `pack([])` writes a zero count that `unpack` refuses | the empty list reads back | high, not executed | StructArrays.EmptyDynamicArrayAsWritten | StructArrays.DynamicRoundTrip |
| structured/serializers/strings.py:59-66 | `self.st + _single_char @ count`: `@ 0` refuses the empty string, and `+` refuses a count field with an explicit byte order | packing `b''`; packing `b'a'` with a big-endian count | one `'{count}s'` field in the prefix's byte order | high, not executed | Strings.PrefixedAsWrittenEmpty | Strings.Prefixed |
| structured/serializers/strings.py:115-120 | `unpack_from` reads the string with `_single_char @ count`, refused for a zero count | `b'\x00'` at offset 0 with a uint8 count | `b''` | high, not executed | Strings.EmptyStringUnpackFrom | Strings.DynamicCharRoundTripFrom |
| structured/serializers/strings.py:150 | `raw_data[-1] != self.terminator` compares an int with a one-byte `bytes`, so it is never equal and the terminator is always appended | `b'ab\x00'` packs as `b'ab\x00\x00'`, which reads back as `b'ab'` after 3 bytes | append only when missing | high, not executed | Strings.DoubledTerminator | Strings.TerminatedData |
| structured/serializers/strings.py:181 | `self.size = end + 1` with `end` an absolute index | a string read at offset 1 from `07 61 00` reports size 3 | size 2, the bytes consumed | high, not executed | Strings.AbsoluteEnd | Strings.TerminatedUnpackFrom |
| structured/serializers/strings.py:226-227 | `short_len + _single_char @ count`: `@ 0` has no struct, so the .NET string cannot pack `b''` | `pack(b'')` raises ValueError | the one count byte `00` | high, not executed | Strings.NetEmptyAsWritten | Strings.NetRoundTrip |
| structured/serializers/conditional.py:63-64 | `prepack`/`preunpack` return the selected serializer without calling its own `prepack`, and the compound uses it as returned (api.py:388-389) | a condition over `array[...]` or a union that is true for the object: the array reads an unset partial object, AttributeError | the selected serializer prepacked with the object | medium, not executed | Conditionals.ConditionalNotPrepacked | Conditionals.ConditionalCodecSelects |
| structured/complex_types/strings.py:347-349 | `_st_data` compares `data[-1]`, an int, with the one-byte terminator, so the terminator is always appended | `b'ab\x00'` packs to four bytes | append only when missing | high, not executed | EarlyStrings.EarlyDoubledTerminator | EarlyStrings.KindRoundTrip |
| structured/structured.py:91 | `fold_overlaps` takes the FIRST count in `format1` (`(.*?)(\d+)\D`), not the count of its last item | `'2xb' + 'b'` gives `'3b'`; a `pad[2]` then two `int8` fields unpack three values | `'2x2b'` | high, not executed | EarlyStructured.MidFoldDrops | EarlySerializers.EarlyFold |
| structured.py:115-121 | a run of equal string or counted formats is kept as one copy, and other runs prefix the run length to a format that already has a count | two `char[5]` fields give `'5s'`; two `pad[2]` give `'22x'` | one field per declared member | high, not executed | FirstStructured.StringRunCollapses | FirstStructured.GroupFoldLayout |
| structured/serializers.py:316-325 | `*` folds the copies with strings combined but keeps `num_values * n` | `StructSerializer('s') * 2` is `'2s'` with two values, and packing two values fails | `'ss'`, one value per copy | high, not executed | EarlySerializers.StringMulMismatch | EarlySerializers.StructMulConsistent |
| structured/serializers.py:303-314 | `StructSerializer + CompoundSerializer` wraps the compound as one child | `'b' + (h, x)` nests; the flat result is `(bh, x)` | the flat compound of `__radd__` | medium, not executed | EarlySerializers.StructPlusCompoundNests | EarlySerializers.PlusFlat |
| structured/complex_types/strings.py:238-242 | `_dynamic_char` (and `_net_char`, 424-431) calls `struct_cache` with a `byte_order=` keyword it refuses | building any dynamic or .NET string serializer is a TypeError | the count struct in the given byte order | high, not executed | EarlyStrings.ByteOrderKeywordRefused | EarlyStrings.NewDynamic |
| structured/complex_types/strings.py:291-299 | `unpack` reads the count with `struct.unpack` of the whole buffer, which must be exactly the count's size (also 473-482) | a packed `b'a'` does not read back | read the count from the front | high, not executed | EarlyStrings.DynamicUnpackAsWrittenRefuses | EarlyStrings.DynamicRoundTrip |
| structured/complex_types/strings.py:473-482 | the .NET `unpack` reads the length byte with `struct.unpack` of the whole buffer | a packed `b'a'` does not read back | read the length from the front | high, not executed | EarlyStrings.NetUnpackAsWrittenRefuses | EarlyStrings.NetRoundTrip |
| structured/complex_types/arrays.py:98-100 | the documented shorthand `array[2, uint16]` hands `2` where a header class is expected | `array[2, uint16]` raises TypeError | the static array of two `uint16` | medium, not executed | EarlyArrays.ShorthandRefused | EarlyArrays.ShorthandIntended |
| structured/complex_types/arrays.py:394-412 | `_arr_st` builds `obj * count`, refused for a count of 0 | packing `[]`; reading a zero length | the length alone | high, not executed | EarlyArrays.EmptyDynamicFormatArray | EarlyArrays.DynamicFormatRoundTrip |
| structured/complex_types/arrays.py:444-452 | `unpack` does not set `size`, so a compound resumes after the stale `size` of an earlier call | `01 07 09` read as (array of `uint8`, `uint8`) by a fresh serializer: the last field is `01` again | `size` set to the bytes read | high, not executed | EarlyArrays.StaleSizeExample | EarlyArrays.StaleSizeCorrected |
| structured/complex_types/arrays.py:211-215 | with a `DynamicCheckedHeader` the first header write packs `data_size`, which `HeaderBase.__init__` (array_headers.py:31-32) never assigned | `pack` of any list from a fresh header raises AttributeError | `data_size` assigned before the first write, as `StaticCheckedHeader.__init__` does | medium, not executed | EarlyArrays.FirstPassNeedsDataSize | EarlyArrays.InitializedRoundTrip |
| structured/complex_types/strings.py:437-445 | the .NET length is packed with `'H{count}s'` in the serializer's byte order, while both unpackers first read one byte to tell a short length from a marker | with the intended constructor and a big-endian order, a 128-byte string packs `01 80`, whose first byte reads as a length of 1 | the marker least significant byte first in every order | medium, not executed | EarlyStrings.BigEndianMarkerMisread | EarlyStrings.KindRoundTrip |
