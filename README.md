# Processed-profile reader: a verified model

This project models the core of a reader for Firefox "processed profiles",
the columnar JSON format the Firefox profiler writes. The reader has four parts:

- **Sentinel addresses** (`TableAddresses`, `table_address.dfy`). An address
  column holds a 64-bit unsigned address, the "base" marker written as -1, or
  another negative value that is kept as an error marker. Serialization picks
  one of three integer writers. Deserialization is a visitor: unsigned widths
  go to `from_positive` and signed widths go to `from_negative`.
- **Table iteration** (`ProfileTableIterator`, `profile_table_iterator.dfy`).
  A table offers `length` and `lookup(ix)`. `TableIterator` is a cursor whose
  `next` returns `lookup(cur_ix)` and advances until `cur_ix` reaches `length`.
  The trait becomes the `TableLookup` datatype. The cursor becomes a class with
  a mutable `curIx`.
- **Typed tables** (`ProcessedProfile`, `processed_profile.dfy`). These are the
  stack, samples, frame and native-symbol tables, each a set of parallel
  columns with a declared length. A lookup builds the row at one index; a
  missing optional column gives `None`. `Thread` and `Profile` are containers.
- **Sample transposition** (`Transposed`, `transposed.dfy`). This walks threads
  in order and each thread's samples in row order. Each sample is resolved in
  one hop: stack index → stack table's `frame` column → frame row → native
  symbol row. A flat record is pushed when the sample has a stack and its frame
  has a native symbol. The imperative method `TransposeSamples` is proved equal
  to the pure function `Transpose`, and the properties are proved about
  `Transpose`.

Integer widths are newtypes (`Integers`). `Option`/`Result` are in `Wrappers`.

Three behaviours of the code are worth knowing before reading the model:

- A sample without a stack gives no record. It is not kept with only its time.
- A sample whose frame has no native symbol gives no record. It is not kept
  with an empty symbol payload.
- An index that is negative, or past the end of the column it reads, panics.
  An `i64` index cast with `as usize` and then used to index counts as this
  too. There is no "unresolved" result: the model makes these conditions
  preconditions (`ProfileResolves`, `InBounds`).

## Model

| member | source | states |
|---|---|---|
| TableAddresses.FromPositive | src/fx_processed_profile/table_address.rs:23-28 | an unsigned value, widened to 64 bits, is always an `Address` holding that same value |
| TableAddresses.FromNegative | src/fx_processed_profile/table_address.rs:30-40 | a signed value never becomes an `Address`; it is `Base` exactly when it is -1, otherwise `Error` holding the value; the sign is not checked |
| TableAddresses.VisitU8 | src/fx_processed_profile/table_address.rs:65-70 | a u8 decodes, without error, to `Address` of the same integer |
| TableAddresses.VisitU32 | src/fx_processed_profile/table_address.rs:72-77 | a u32 decodes, without error, to `Address` of the same integer |
| TableAddresses.VisitU64 | src/fx_processed_profile/table_address.rs:79-84 | a u64 decodes, without error, to `Address` of the same integer |
| TableAddresses.VisitI8 | src/fx_processed_profile/table_address.rs:86-91 | an i8 decodes without error; it gives `Base` iff it is -1, otherwise `Error` holding the same integer; never `Address` |
| TableAddresses.VisitI32 | src/fx_processed_profile/table_address.rs:93-98 | an i32 decodes without error; it gives `Base` iff it is -1, otherwise `Error` holding the same integer; never `Address` |
| TableAddresses.VisitI64 | src/fx_processed_profile/table_address.rs:100-105 | an i64 decodes without error; it gives `Base` iff it is -1, otherwise `Error` holding the value; never `Address` |
| TableAddresses.Visit | src/fx_processed_profile/table_address.rs:65-105 | none of the six integer methods the visitor defines rejects its input; the result is an `Address` iff the width is unsigned, `Base` iff it is signed and -1, and the integer is carried unchanged |
| TableAddresses.Serialize | src/fx_processed_profile/table_address.rs:43-54 | `Address(u)` is written with the u64 writer as u, `Base` with the i8 writer as exactly -1, `Error(i)` with the i64 writer as i |
| TableAddresses.JsonDispatch | src/fx_processed_profile/table_address.rs:108-115 | asked for a u64, a JSON number n ≥ 0 reaches the unsigned visitor and n < 0 the signed one, carrying n |
| TableAddresses.Deserialize | src/fx_processed_profile/table_address.rs:56-115 | an integer decodes exactly when it lies in the i64 or u64 range: there n ≥ 0 gives `Address(n)`, -1 gives `Base`, n < -1 gives `Error(n)`; any other integer is rejected with the visitor's `expecting` message |
| TableAddresses.RoundTrip | src/fx_processed_profile/table_address.rs:43-115 | writing then reading gives the same address back, for every `Address`, for `Base`, and for `Error(v)` with v < 0 and v ≠ -1 |
| TableAddresses.RoundTripOnlyIfDecodable | src/fx_processed_profile/table_address.rs:43-115 | the converse: an address that survives the round trip satisfies the precondition above |
| TableAddresses.WireRoundTrip | src/fx_processed_profile/table_address.rs:43-115 | reading an integer and writing the result back gives that integer, and what is read always survives the round trip |
| TableAddresses.NonDecodableErrors | src/fx_processed_profile/table_address.rs:30-115 | `Error(5)` comes back as `Address(5)` and `Error(-1)` as `Base`, because the sign is not checked; the integers 2^64 and -2^63-1, outside the i64/u64 range, are rejected with the `expecting` message |
| TableAddresses.CodecExamples | src/fx_processed_profile/table_address.rs:43-115 | concrete round trips: address 0, 2^63 and 2^64-1, `Base`, `Error(-2)`, `Error(-9999)`; `Base` is written as -1 |
| ProfileTableIterator.LookupThroughOption | src/profile_table_iterator.rs:7-12 | the result is `Some` iff the argument is, and then holds the same value |
| ProfileTableIterator.TableLookup.Rows | src/profile_table_iterator.rs:13-17 | the rows of a table are `length` items, the k-th being `lookup(k)` |
| ProfileTableIterator.TableIterator.From | src/profile_table_iterator.rs:25-29 | a new iterator starts at index 0 over the given table, with every row still to return |
| ProfileTableIterator.TableIterator.Next | src/profile_table_iterator.rs:34-42 | returns `None` exactly when the cursor is at or past `length`, and then leaves it there; otherwise returns `lookup(cur_ix)` and advances the cursor by one; keeps `cur_ix ≤ length` |
| ProfileTableIterator.Drain | src/profile_table_iterator.rs:31-43 | running an iterator to exhaustion yields exactly the rows it had left, in order, and leaves the cursor at `length` |
| ProfileTableIterator.IterateFresh | src/profile_table_iterator.rs:25-43 | a fresh iterator run to exhaustion yields `length` items, the k-th being `lookup(k)` |
| ProcessedProfile.NullableCell | src/fx_processed_profile/mod.rs:144-145 | an absent column gives `None`; a present one gives its (possibly empty) cell |
| ProcessedProfile.OptionalCell | src/fx_processed_profile/mod.rs:148-151 | the result is present iff the column is, and then holds the column's cell |
| ProcessedProfile.StackTable.Lookup | src/fx_processed_profile/mod.rs:78-85 | the row is (`frame[ix]`, `category[ix]`, `prefix[ix]`); it needs ix inside every column |
| ProcessedProfile.StackTable.AsLookup | src/fx_processed_profile/mod.rs:74-85 | the table's lookup view has the declared length and gives `Lookup(ix)` at every index below it |
| ProcessedProfile.StackTable.Iter | src/fx_processed_profile/mod.rs:86-91 | a fresh iterator at 0 over the table's lookup view, with every row of the table, in index order, still to return |
| ProcessedProfile.StackTable.LookupDetermines | src/fx_processed_profile/mod.rs:78-85 | two valid tables of the same length whose rows all agree are equal: the lookup loses no column |
| ProcessedProfile.SamplesTable.Lookup | src/fx_processed_profile/mod.rs:142-153 | each absent optional column gives `None`; a present nullable column gives its cell; weight and thread id give `Some` of the cell; stack and time come from position ix; the weight type is the table's |
| ProcessedProfile.SamplesTable.AsLookup | src/fx_processed_profile/mod.rs:138-153 | the table's lookup view has the declared length and gives `Lookup(ix)` at every index below it |
| ProcessedProfile.SamplesTable.Iter | src/fx_processed_profile/mod.rs:154-159 | a fresh iterator at 0 over the table's lookup view, with every row of the table, in index order, still to return |
| ProcessedProfile.SamplesTable.RowsShareWeightType | src/fx_processed_profile/mod.rs:146-149 | every row of the table carries the table-level weight type |
| ProcessedProfile.AbsentAndEmptyColumnsLookAlike | src/fx_processed_profile/mod.rs:144-145 | the rows cannot tell an absent responsiveness column from a present all-empty one, though the tables differ |
| ProcessedProfile.FrameTable.Lookup | src/fx_processed_profile/mod.rs:250-263 | the row copies each of the ten columns at ix |
| ProcessedProfile.FrameTable.AsLookup | src/fx_processed_profile/mod.rs:246-263 | the table's lookup view has the declared length and gives `Lookup(ix)` at every index below it |
| ProcessedProfile.FrameTable.Iter | src/fx_processed_profile/mod.rs:264-269 | a fresh iterator at 0 over the table's lookup view, with every row of the table, in index order, still to return |
| ProcessedProfile.FrameTable.LookupDetermines | src/fx_processed_profile/mod.rs:250-263 | two valid frame tables of the same length whose rows all agree are equal: the lookup copies every column and nothing else |
| ProcessedProfile.NativeSymbolTable.Lookup | src/fx_processed_profile/mod.rs:305-312 | the row is (`libIndex[ix]`, `address[ix]`, `name[ix]`, `functionSize[ix]`) |
| ProcessedProfile.NativeSymbolTable.AsLookup | src/fx_processed_profile/mod.rs:301-312 | the table's lookup view has the declared length and gives `Lookup(ix)` at every index below it |
| ProcessedProfile.NativeSymbolTable.Iter | src/fx_processed_profile/mod.rs:313-318 | a fresh iterator at 0 over the table's lookup view, with every row of the table, in index order, still to return |
| ProcessedProfile.NativeSymbolTable.LookupDetermines | src/fx_processed_profile/mod.rs:305-312 | two valid symbol tables of the same length whose rows all agree are equal |
| Transposed.SampleRecord | src/transposed.rs:52-83 | a sample gives a record iff it has a stack and that stack's frame has a native symbol; the record holds the stack index, the sample time, the frame's implementation and the symbol row of the same thread |
| Transposed.ThreadRecords | src/transposed.rs:51-84 | the first n samples of a thread give at most n records |
| Transposed.ProfileRecords | src/transposed.rs:36-86 | the first m threads give at most as many records as they have samples |
| Transposed.TransposeSamples | src/transposed.rs:31-88 | the accumulator loop over threads returns exactly `Transpose(profile)` |
| Transposed.PushThreadSamples | src/transposed.rs:36-86 | iterating one thread's samples and pushing appends exactly that thread's records to the accumulator |
| Transposed.ThreadRecordsLength | src/transposed.rs:51-84 | a thread's first n samples give at most n records, and exactly n iff every one of them emits |
| Transposed.ThreadsAllEmitMeans | src/transposed.rs:51-84 | every thread's samples all emitting, thread by thread, is the same as every sample of the profile emitting |
| Transposed.ProfileRecordsLength | src/transposed.rs:36-86 | the records of the first m threads number at most their samples, with equality iff all their samples emit |
| Transposed.TransposeLength | src/transposed.rs:51-84 | the output has at most one record per sample, and exactly one per sample iff every sample has a stack whose frame has a native symbol |
| Transposed.ThreadOriginsBound | src/transposed.rs:51-84 | every emitting position found in a thread's first n rows names that thread and a row below n |
| Transposed.ThreadOriginsSound | src/transposed.rs:51-84 | a thread's records are, one for one, what its emitting rows produce |
| Transposed.ThreadOriginsOrdered | src/transposed.rs:51-84 | a thread's records come in strictly increasing row order |
| Transposed.ThreadOriginsComplete | src/transposed.rs:51-84 | no emitting row of a thread is missing from its records |
| Transposed.ProfileOriginsBound | src/transposed.rs:36-86 | every emitting position of the first m threads names one of them |
| Transposed.ProfileOriginsSound | src/transposed.rs:36-86 | the records of the first m threads are, one for one, what their emitting samples produce |
| Transposed.ProfileOriginsOrdered | src/transposed.rs:36-86 | the records of the first m threads come in thread order, then row order |
| Transposed.ProfileOriginsComplete | src/transposed.rs:36-86 | no emitting sample of the first m threads is missing |
| Transposed.TransposeExplained | src/transposed.rs:31-88 | each output record comes from exactly one emitting sample, each emitting sample gives exactly one record, ordered by thread and then by row |
| Transposed.TransposeThreadOrder | src/transposed.rs:36-70 | records appear in non-decreasing thread order |
| Transposed.TransposedRecordsAreResolutions | src/transposed.rs:54-67 | every output record names a thread of the profile, and that thread has a sample row whose one-hop resolution is the record |
| Transposed.ThreadResolvesReadOnlyInputs | src/transposed.rs:49-61 | whether a thread resolves depends only on its samples, its stack table's frame column, its frame table and its native symbols |
| Transposed.ThreadRecordsReadOnlyInputs | src/transposed.rs:49-70 | a thread's records depend only on those four inputs |
| Transposed.ProfileResolvesReadOnlyInputs | src/transposed.rs:36-61 | two profiles agreeing thread by thread on those inputs resolve alike |
| Transposed.ProfileRecordsCongruent | src/transposed.rs:36-86 | profiles whose threads give the same records give the same output |
| Transposed.OnlyResolutionInputsMatter | src/transposed.rs:31-88 | the output depends only on those four inputs of each thread, not on prefixes, categories, string tables or libraries |
| Transposed.PrefixNeverRead | src/transposed.rs:54-56 | replacing the prefix column of any thread's stack table leaves the output unchanged: the frame is found in one hop |
| Transposed.TransposeExample | src/transposed.rs:51-84 | in a three-sample thread, the stack-less sample and the sample whose frame has no native symbol are dropped; the third gives stack index 1, its time, implementation 5 and the symbol row |

## Left out

- The serde-derived JSON decoding of the whole profile is not modelled, because it is generated by library macros. This covers the `stringArray`/`stringTable` alias, the untagged `Tid` dispatch and `ProcessType`'s catch-all variant. `Tid` is modelled only as a datatype.
- The JSON library's routing of a number to a visitor method is outside this code. `JsonDispatch` models it for one case: asked for a u64, a non-negative number goes to `visit_u64` and a negative one to `visit_i64`. Serde's default `visit_u16`/`visit_i16` forwarders are not modelled.
- TableAddresses.Deserialize: a non-integer JSON number (one with a fraction or an exponent) is not modelled. The JSON library hands it to `visit_f64`, which the visitor does not define, so serde's default rejects it with the `expecting` message. The model's input is an integer, and integers outside the i64/u64 range get that same rejection.
- Floating-point times (`Milliseconds`) are modelled as an opaque 64-bit pattern. They are only ever copied, never computed on.
- These thread fields are not modelled: `processType`, `processStartupTime`, `processShutdownTime`, `registerTime`, `unregisterTime`, `eTLD+1`, `processName`, `isJsTracer`, `funcTable`, `isPrivateBrowsing` and `userContextId`. The profile's `pages` value is not modelled either. `Thread` keeps `name`, `isMainThread`, `pid`, `tid` and `stringTable`, which no lookup or transposition reads either.
- Tables that are declared but have no lookup are not modelled: `FuncTable`, the allocation tables, `ResourceTable`, `SamplesLikeTableShape` and `StartEndRange`.
- `src/lib.rs` (symbol acquisition over the network) and `src/main.rs` (command line, file reading, async runtime) are I/O and are not part of this model.
- `ThreadTables` holds borrowed references to a thread's tables. Each record carries the thread's position in the profile instead, and `TransposedRecordsAreResolutions` states what those tables give for it. Lifetimes are not modelled.
- `lookup` and `transpose_samples` take their inputs by shared reference. The model works on immutable values, so "the table / profile is not modified" holds by construction and has no lemma of its own.
- `usize` is taken as 64 bits. Table lengths (`u32`/`u64`) convert to it without loss. Any `i64` index cast with `as usize` is required to be non-negative; the wrap-around of a negative index is not modelled, since indexing with it panics anyway.
- Panics are not modelled as outcomes. The transposition requires `ProfileResolves`, the exact condition under which the code does not panic, so a bad reference has no "unresolved" result. Each table lookup requires `InBounds(ix)`, meaning ix lies inside every column it reads.
- ProcessedProfile.StackTable.Iter, ProcessedProfile.SamplesTable.Iter, ProcessedProfile.FrameTable.Iter and ProcessedProfile.NativeSymbolTable.Iter require `Iterable()`, every row below the length being in bounds, although `iter()` itself checks nothing and only a later `next()` can panic. The iterator's view of a table is defined only on rows that can be looked up, so a table with a short column cannot be iterated in the model even up to its first bad row.
- The code never checks that columns match the declared length. `Valid()` states that invariant, but no operation requires it.
