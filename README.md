# struct2csv in Dafny

This project models the core of struct2csv, a Go library that turns nested values into CSV.
The library walks a value tree: structs, maps, slices, arrays, pointers and scalars. Every
non-zero scalar leaf is stored in a sparse record under the path that leads to it, for example
`/B2/0/B21`.

Paths are registered in a shared mapping. The first time a path is seen, a header converter
gives it a key: either the next number of an auto-increment counter, or the path itself. Each
record stores its leaves under the integer of their key.

Rows are then assembled. There is a sorted header, and each non-empty record becomes one cell
per header key. The cells are read through a consuming `Get`, so each stored leaf is read once.

The modules follow the Go files:

- `PathBuilding` (pathbuilder.go): a class over a text buffer. A Dafny reference stands for
  every Go copy that shares the same `*strings.Builder`.
- `HeaderConv` (headconv.go): one class for both `HeaderConverter` implementations.
  - `Policy` says which implementation it is.
  - `Mint` is the pure meaning of one `ConvertHeader` call.
- `Keys` (key.go) contains:
  - `KeyType`;
  - the record store `KeyValue`, specified by `StoreSet` and `StoreGet`;
  - the registry `KVs`, with its record slots, its mapping and its two cached sorted headers.
- `FlattenSpec` (flatten.go, as pure functions):
  - `Flat`, `Fields` and `Elems` list the writes a walk makes and the first error it meets;
  - `Replay` folds `SetStep` (`set`) over those writes, from the registry, the counter and the
    current record.
- `Struct2Csv` (struct2csv.go and the methods of flatten.go):
  - option loading, `isObjectArray` and `toString`;
  - the `StructConverter` class, whose imperative `Flatten*`, `DoFlatten` and `Convert` methods
    are proved against `Flat`, `Replay`, `Slots`, `Single` and `ConvertModel`.
- `CsvWriting` (csv_writer.go): `toRecord`, the record loop of `WriteCSV`, `reset`, and the
  pairing in `WriteMapping`.
  - Their specifications are `Cells`, `AfterRead`, `Rows` and `AfterRows`.
  - The CSV encoding itself is not modelled: the rows are what the library would hand to the CSV
    writer.
- `ConvertExample` (struct2csv_test.go): the repository's two-record test. Converting it with an
  auto-increment converter and the default options gives exactly the expected sorted header.
- Support modules:
  - `Wrappers`: `Option`;
  - `Decimal`: 64-bit integers, `strconv.Itoa` and its inverse;
  - `StringOrder`: Go's string order, an insertion sort, and the unique sorted listing of a set;
  - `Values`: the value tree, `reflect.Kind`, and the zero-value rule.

What Go models with machine integers, the model writes out:

- `uint64` counters wrap modulo 2^64.
- `int(v)` of a `uint64` is two's complement.

Where the Go code panics, the model puts a `requires` on the caller:

- a negative `make` size;
- a negative `Grow` size;
- an index out of range;
- `Len` of a value without a length, or `Index` into a non-empty map, channel or pointer to an
  array (these have a length but no index);
- a missing mapping entry in `WriteMapping`.

## Model

| member | source | states |
|---|---|---|
| PathBuilding.PathBuilder.constructor | pathbuilder.go:17-24 | a new builder is empty. Its capacity is `growSize`, or 64 when that is 0 |
| PathBuilding.PathBuilder.AppendString | pathbuilder.go:27-31 | the buffer becomes old contents + "/" + token, and the same handle is returned |
| PathBuilding.PathBuilder.Clone | pathbuilder.go:34-46 | a fresh builder with the same contents, including the empty case. The original is left unchanged |
| PathBuilding.PathBuilder.String | pathbuilder.go:49-53 | returns the contents and leaves the buffer empty |
| PathBuilding.AppendAll | pathbuilder.go:27-31 | appending t1..tn one by one adds "/"+t1+…+"/"+tn |
| PathBuilding.CloneIsIndependent | pathbuilder.go:34-46 | after a clone, appends to the original and to the copy do not affect each other |
| PathBuilding.SharedHandles | pathbuilder.go:27-53 | an append through one handle is seen through another. A second `String` returns "" |
| HeaderConv.HeaderConverter.NewAutoIncrement | headconv.go:7-9 | a fresh auto-increment converter has counter 0 |
| HeaderConv.HeaderConverter.NewOriginalString | headconv.go:20-22 | builds the original-string converter |
| HeaderConv.HeaderConverter.Reset | struct2csv.go:14-18 | declared by the interface with no implementation in the modelled files: it may leave any counter, and promises nothing |
| HeaderConv.HeaderConverter.ConvertHeader | headconv.go:11-26 | the key returned and the new counter are those of `Mint` for the policy and the old counter |
| HeaderConv.FirstAutoKeyIsOne | headconv.go:7-15 | the first auto-increment key is ID 1, whose text is "1" |
| HeaderConv.AutoIncrementCounts | headconv.go:11-15 | the key is old max + 1 (with wrap-around) and is stored as max. The path plays no part, and the same path asked twice gets different keys |
| HeaderConv.SuccessiveKeysStepByOne | headconv.go:11-15 | two successive auto-increment keys differ by exactly one until the wrap |
| HeaderConv.OriginalStringIsPath | headconv.go:24-26 | the original-string key's text is the path itself, and the counter is untouched |
| Keys.KeyType.String | key.go:162-164 | the header text: an identifier's decimal under Go's `int` conversion (read back by `AutoIDStringParses`), or a string key's path (key.go:176-178) |
| Keys.KeyType.Int | key.go:166-168 | the record integer: an identifier is its own integer, and a string key's is the digest of its path (key.go:180-189) |
| Keys.NewKeyAuto | key.go:157-160 | newKeyAuto(m) is m+1, except that 2^64-1 wraps to 0 |
| Keys.NewKeyString | key.go:172-178 | a string key's text is the string |
| Keys.AutoIDEncodingInjective | key.go:162-168 | `Int` of an ID is the ID itself, and distinct IDs have distinct texts |
| Keys.AutoIDStringParses | key.go:162-164 | an ID's text reads back as `int(id)`, and as the ID itself below 2^63 |
| Keys.SetThenGetOnce | key.go:135-149 | after `Set`, `Get` returns the leaf once, and the next `Get` misses |
| Keys.GetAddsNothing | key.go:142-149 | `Get` adds no entry, and a miss changes nothing. It hits exactly on a present, unread entry |
| Keys.LenCountsSetKeys | key.go:135-153 | `Set` grows `Len` only for a new integer, and `Get` never shrinks it |
| Keys.KeyValue.Len | key.go:151-153 | the number of integers stored in the record, read or not |
| Keys.KeyValue.constructor | key.go:131-133 | a new record is empty |
| Keys.KeyValue.Set | key.go:135-140 | the record becomes `StoreSet`: the entry at `k.Int()` holds the value, unread |
| Keys.KeyValue.Get | key.go:142-149 | the result and the new record are `StoreGet`: a hit clears the entry's valid flag |
| Keys.KVs.constructor | key.go:29-43 | exactly `size` fresh empty records, an empty mapping and empty caches |
| Keys.KVs.Reset | key.go:45-51 | empties the mapping and both caches. The records are left as they are |
| Keys.KVs.GetKVElem | key.go:60-62 | returns record `index`, which must be in range |
| Keys.KVs.AppendElem | key.go:64-66 | the record list grows by the new record at the end. The registry stays valid exactly when the record is new and shares the digest |
| Keys.KVs.GetSortMappingValues | key.go:72-83 | the mapping's values, one per path, sorted by text |
| Keys.KVs.GetUnEncodedSortHeader | key.go:85-95 | with an empty cache: the mapping's paths, sorted, and now cached. Otherwise the cache unchanged, however the mapping has grown |
| Keys.KVs.GetEncodedSortHeader | key.go:97-107 | with an empty cache: the sorted texts of the mapping's values, and now cached. Otherwise the cache unchanged |
| Keys.ValueTexts | key.go:102-105 | the texts of the mapping's values, taken in the map's iteration order and then sorted, are the encoded header |
| Keys.EncodedHeader | key.go:97-107 | the encoded header is sorted |
| Keys.EncodedFromAnyListing | key.go:102-105 | whatever order the map's iteration takes, the sorted texts are the same |
| Keys.SortedValuesMatchEncoded | key.go:72-107 | the values sorted by text, read as texts, are exactly the encoded header, position for position |
| Keys.UnEncodedHeaderListsEachKeyOnce | key.go:85-95 | the unencoded header is sorted, has no duplicates, and has exactly the mapping's paths, so its length is the mapping's size |
| FlattenSpec.SetReusesOrMints | flatten.go:254-262 | `set` reuses the path's key or mints one, records it, and stores the leaf under its integer. Nothing else in the mapping or the record changes |
| FlattenSpec.ReplayGrowsMapping | flatten.go:254-262 | after a run of writes, the mapping's paths are the old ones plus the paths written, and old paths keep their keys |
| FlattenSpec.ReplayKeepsAutoNumbered | flatten.go:254-262 | without a wrap, auto-increment keys stay one-to-one with paths, in 1..max, and max grows by at most the number of writes |
| FlattenSpec.ReplayKeepsSelfKeyed | flatten.go:254-262 | with the original-string converter, every path stays keyed by itself and the counter does not move |
| FlattenSpec.FlatPathsExtend | flatten.go:26-66 | every path a walk writes extends the starting path |
| FlattenSpec.FieldsPathsExtend | flatten.go:68-131 | every path the struct or map loop writes from field i on extends `prefix/name` of some non-zero field at or after i |
| FlattenSpec.ElemsPathsExtend | flatten.go:85-100 | every path the slice loop writes from index i on extends `prefix/j`, where j is the original index of some non-zero element at or after i: skipped elements shift no index |
| FlattenSpec.FlatWritesNoZero | flatten.go:35-37 | no walk ever stores a zero leaf, so records are sparse |
| FlattenSpec.FieldsWriteNoZero | flatten.go:68-131 | the struct and map loops never store a zero leaf |
| FlattenSpec.ElemsWriteNoZero | flatten.go:85-100 | the slice loop never stores a zero leaf |
| FlattenSpec.ZeroAndPointerWalks | flatten.go:35-61 | a zero value writes nothing and is no error. A pointer to a struct is walked as that struct under the same path. Any other pointer is walked as its target |
| FlattenSpec.SkippedElementKeepsIndices | flatten.go:86-97 | an example: `[0, 5]` under `/B1` writes only `/B1/1` |
| FlattenSpec.ZeroIsKnown | flatten.go:35-37 | a zero value holds no value of an unknown kind, so skipping zero values never hides an error |
| FlattenSpec.FailsExactlyOnUnknownKind | flatten.go:26-66 | a walk fails if and only if a value of an unknown kind occurs somewhere in the value |
| FlattenSpec.FieldsFailExactlyOnUnknownKind | flatten.go:68-131 | the struct and map loops from field i on fail if and only if a field at or after i holds a value of an unknown kind |
| FlattenSpec.ElemsFailExactlyOnUnknownKind | flatten.go:85-100 | the slice loop from index i on fails if and only if an element at or after i holds a value of an unknown kind |
| FlattenSpec.FieldsWithoutError | flatten.go:68-131 | without an error, every field went through, and the writes are those of the non-zero fields, each under `prefix/name`, in order |
| FlattenSpec.FieldsStopAtFirstError | flatten.go:77-79 | with an error, there is a first non-zero field j that failed with that error. Every earlier field went through, and the writes are theirs followed by j's own, so no later field is visited |
| FlattenSpec.ElemsWithoutError | flatten.go:85-100 | without an error, every element went through, and the writes are those of the non-zero elements, each under `prefix/i`, in order |
| FlattenSpec.ElemsStopAtFirstError | flatten.go:94-96 | with an error, there is a first non-zero element j that failed with that error. Every earlier element went through, and the writes are theirs followed by j's own |
| FlattenSpec.ErrorStopsWalk | flatten.go:117-129 | an example: in a struct whose middle field is a channel, the first field keeps its write and the third is not visited |
| Struct2Csv.Apply | struct2csv.go:35-70 | one option sets its own field and leaves the others. `WithOptions` sets them all |
| Struct2Csv.ApplyAll | struct2csv.go:26-33 | the options run first to last: the last one runs on what the others made |
| Struct2Csv.LoadOptions | struct2csv.go:26-33 | the options are the defaults with every setting applied, first to last |
| Struct2Csv.LaterOptionWins | struct2csv.go:35-70 | a later option overrides its own field and keeps the others. `WithOptions` replaces all fields |
| Struct2Csv.NoOptionsGiveDefaults | struct2csv.go:72-79 | the defaults are (50, true, 100, 18000) |
| Struct2Csv.IsObjectArray | struct2csv.go:174-190 | true exactly for a non-empty slice whose first element is a map, a pointer or a struct |
| Struct2Csv.ToString | struct2csv.go:204-235 | a string prints as itself, a bool as `true` or `false`, and a float through the float format |
| Struct2Csv.ToStringReadsBack | struct2csv.go:204-231 | signed integers print as decimals that read back as the same number. Unsigned ones read back through `int(v)` |
| Struct2Csv.ToStringSeparatesInts | struct2csv.go:206-215 | distinct integers print differently |
| Struct2Csv.EmptyInputConvertsToNothing | struct2csv.go:107-123 | in object-array mode, an input of length 0 converts without error and changes nothing. This includes an empty or nil channel and a pointer to an empty array |
| Struct2Csv.StructConverter.constructor | struct2csv.go:93-97 | the converter holds `resultCap` fresh empty records, an empty mapping and empty caches |
| Struct2Csv.StructConverter.Set | flatten.go:254-262 | mapping, counter and record change as `SetStep` says |
| Struct2Csv.StructConverter.Flatten | flatten.go:26-66 | the error is `Flat`'s, and the state is `Replay` of `Flat`'s writes. The key builder is consumed by a leaf |
| Struct2Csv.StructConverter.FlattenMap | flatten.go:68-83 | error and state as `Fields` over the entries, in iteration order, with `Replay` |
| Struct2Csv.StructConverter.FlattenSlice | flatten.go:85-100 | error and state as `Elems` over the elements, with `Replay` |
| Struct2Csv.StructConverter.FlattenStruct | flatten.go:102-131 | error and state as `Fields` over the struct, or over the struct a pointer points to, with `Replay` |
| Struct2Csv.StructConverter.FlattenField | flatten.go:118-128 | a zero field is skipped and changes nothing. Any other is walked under `prefix/Name`: the error is `Flat`'s and the state is `Replay` of its writes |
| Struct2Csv.StructConverter.DoFlatten | flatten.go:12-24 | index -1 writes into a fresh record. Any other index writes into slot `index`, and no other slot changes. The record is returned exactly when there is no error |
| Struct2Csv.StructConverter.Convert | struct2csv.go:103-167 | mapping, counter, records and error are `ConvertModel` of the state after `Reset`: slot per element in object-array mode, and the per-kind dispatch otherwise. The result is null on error |
| Struct2Csv.StructConverter.Dispatch | struct2csv.go:118-166 | the outcome is `ConvertModel` of the starting state: the slice iterator in object-array mode, otherwise the per-kind dispatch |
| Struct2Csv.StructConverter.DispatchKind | struct2csv.go:125-166 | a non-empty map, a struct or a pointer to a struct gives one record. An object array goes through the slice iterator. Another non-empty slice gives one record. Nil and empty inputs change nothing. Any other kind fails with its kind named |
| Struct2Csv.StructConverter.SliceIterator | struct2csv.go:107-116 | element i goes into slot i, the iteration stops at the first error, and the record list is not extended |
| Struct2Csv.StructConverter.SliceStep | struct2csv.go:108-113 | element i walks into slot i. The error is `Flat`'s, and the slots step as `Slots` does, ending there on an error |
| Struct2Csv.StructConverter.FlattenAndAppend | struct2csv.go:128-133 | a fresh record, appended exactly when flattening succeeds |
| Struct2Csv.NewStructConverter | struct2csv.go:88-100 | fails if and only if the header converter is nil. Otherwise holds the loaded options and a fresh registry of `resultCap` empty records |
| CsvWriting.RecordShape | csv_writer.go:67-76 | `toRecord` gives one cell per header key. Reads keep the record's keys |
| CsvWriting.RecordCells | csv_writer.go:68-74 | cell i is the rendered unread leaf under header key i, or "" on a miss (header integers distinct) |
| CsvWriting.RecordReadsAll | csv_writer.go:67-76 | after `toRecord`, every header key misses |
| CsvWriting.SecondRecordIsEmpty | csv_writer.go:67-76 | a second `toRecord` of the same record gives `|header|` empty cells |
| CsvWriting.RowsShape | csv_writer.go:48-56 | one row per non-empty record and none for an empty one. Every row has one cell per header key |
| CsvWriting.CSVWriter.constructor | csv_writer.go:17-22 | a new writer has an empty cache |
| CsvWriting.CSVWriter.Reset | csv_writer.go:62-65 | the cache is truncated to empty |
| CsvWriting.CSVWriter.ToRecord | csv_writer.go:67-76 | the cache gains `Cells` of the record, which is returned, and the record is left as `AfterRead` |
| CsvWriting.CSVWriter.WriteRows | csv_writer.go:48-56 | the rows are `Rows` of the records, the records end as `AfterRows`, and the cache ends empty |
| CsvWriting.CSVWriter.WriteRow | csv_writer.go:50-56 | a record with data gives one row of `Cells`, is left as `AfterRead`, and the cache is truncated. An empty record gives no row and is left alone |
| CsvWriting.CSVWriter.WriteCSV | csv_writer.go:37-60 | row 0 is the encoded header, or the cache when it is set. The keys are the mapping values sorted by text, and with a fresh cache their texts are the header. The other rows are read under those keys |
| CsvWriting.WriteMapping | csv_writer.go:25-34 | two rows of equal length: the sorted paths, or the cached header, and under each path its key's text |
| CsvWriting.MappingRowOfSelfKeyed | csv_writer.go:29-31 | with original-string keys, the mapping row repeats the header |
| ConvertExample.TestWalks | struct2csv_test.go:39-81 | the walks of the two test records, write by write |
| ConvertExample.TestDataOutcome | struct2csv_test.go:39-93 | the test input converts without error, and its paths are exactly the eight expected ones |
| ConvertExample.ExpectedHeader | struct2csv_test.go:84-93 | the sorted listing of those paths is the expected list |
| ConvertExample.TestDataConverts | struct2csv_test.go:39-93 | in object-array mode the test input is walkable, and it converts without error to exactly the eight expected paths |
| ConvertExample.ConvertTestDataMapping | struct2csv_test.go:22-104 | converting the test input with the default options leaves exactly the eight expected paths in the mapping and the header caches empty |
| ConvertExample.ConvertTestData | struct2csv_test.go:22-108 | a converter built with no options converts the test input, and `GetUnEncodedSortHeader` returns the expected header |

## Left out

- Protocol-buffer traversal (`flattenProtoStruct` and the rest, `protoMessage`). Its meaning
  depends on the protobuf reflection library, which is not part of this model.
- Go reflection is replaced by the `Val` datatype:
  - interface unwrapping;
  - `CanInterface` (a struct whose fields cannot be read is walked like any other);
  - `reflect.IsZero`'s corner cases;
  - non-string map keys.

  Map entries are a sequence, and its order stands for the map's iteration order, which Go
  leaves unspecified.
- `KeyString.Int`: an MD5 digest over the string's bytes. It is a function parameter (`Digest`)
  about which nothing is assumed.
- Floats: a float leaf is opaque bits, and `FormatFloat` is a parameter of `ToString`.
- The `fmt.Sprintf` default of `toString`: a bool renders as `true`/`false`, and no other
  leaf type reaches it.
- `encoding/csv` output, `Flush`, `Error` and the write errors of `WriteCSV` and
  `WriteMapping`. The rows are returned instead of written.
- Capacity hints: the row size, the map pre-size and the builder's growth size. Only the sign
  matters (a negative one panics), and the number of records is `resultCap`.
- `HeaderConv.HeaderConverter.Reset`: the `HeaderConverter` interface declares `Reset`
  (struct2csv.go:17), but neither implementation in headconv.go defines it. The model leaves
  the counter arbitrary after `Reset`. `Convert` returns that counter as a ghost value, and its
  contract is stated in terms of it.
- `Convert` resets the header converter (struct2csv.go:104) but not the registry. A second
  `Convert` on the same converter therefore keeps the mapping and the records of the first,
  while the counter starts from wherever `Reset` leaves it. The model states this: `kvs` is
  kept, and the counter is arbitrary.
- `StructConverter.Clear`, `KVs.Clear`, `KVs.GetMapping` and `KVs.SetEncodedSortHeader`: they
  only set or read fields, and nothing in the modelled core depends on them.
- A non-empty string as input in object-array mode, whose bytes Go would index. It is excluded
  by `Walkable`.
- Channels: a non-nil channel is `Chan(buffered)`. Only its count of buffered values is kept,
  and flattening one is an unknown kind. In object-array mode a channel holding values would
  make Go panic on `Index`, and it is excluded by `Walkable`. An empty or nil channel is
  walked as having no elements.
- Struct2Csv.StructConverter.Convert: requires a non-negative `strBuilderCap` for every input.
  Go panics on a negative one only when a path builder is created, so an input with nothing to
  flatten is over-required. `Dispatch`, `DispatchKind`, `SliceIterator`, `SliceStep`,
  `FlattenAndAppend`, `DoFlatten`, the `Flatten*` methods and `FlattenField` carry the same
  requirement.
- The `unsafe` slice-header truncations in `KVs.Reset` and `reset` are modelled as assigning the
  empty sequence. The backing array, which a caller could still hold through an earlier result,
  is not modelled.
- Concurrency: none exists in the core.
