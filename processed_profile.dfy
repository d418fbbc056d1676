/**
 * The typed tables of a processed profile. Every table is a set of parallel
 * columns plus a declared length; a lookup assembles the row at one index
 * by reading every column there.
 *
 * The code never checks that the columns have the declared length. The
 * model keeps that check apart: `InBounds(ix)` is what one lookup needs
 * not to panic, `Iterable()` is what iterating up to the declared length
 * needs, and `Valid()` is the stronger invariant that every column has
 * exactly the declared length.
 */
module ProcessedProfile {
  import opened Integers
  import opened Wrappers
  import opened TableAddresses
  import opened ProfileTableIterator

  type IndexIntoStackTable = int64
  type IndexIntoFrameTable = int64
  type IndexIntoStringTable = int64
  type IndexIntoFuncTable = int64
  type IndexIntoLibs = int64
  type IndexIntoNativeSymbolTable = int64
  type IndexIntoCategoryList = int64
  type IndexIntoSubcategoryListForCategory = int64
  type InnerWindowID = int64
  type Weight = int64
  type Pid = string

  /** A time in milliseconds. The source holds an f64 that is only ever copied;
      the model keeps its 64-bit pattern and never interprets it. */
  datatype Milliseconds = Milliseconds(bits: uint64)

  /** A thread identifier: a string in merged profiles, otherwise an integer. */
  datatype Tid = String(text: string) | Integer(number: uint32)

  datatype WeightType = Samples | TracingMs | Bytes

  /** The cell of a column-optional, row-nullable column: absent when the
      column is absent or the cell is empty. */
  function NullableCell<T>(column: Option<seq<Option<T>>>, ix: nat): (r: Option<T>)
    requires column.Some? ==> ix < |column.value|
    ensures column.None? ==> r.None?
    ensures column.Some? ==> r == column.value[ix]
  {
    match column
    case None => None
    case Some(cells) => cells[ix]
  }

  /** The cell of a column-optional column whose cells are all present. */
  function OptionalCell<T>(column: Option<seq<T>>, ix: nat): (r: Option<T>)
    requires column.Some? ==> ix < |column.value|
    ensures r.Some? <==> column.Some?
    ensures column.Some? ==> r.value == column.value[ix]
  {
    match column
    case None => None
    case Some(cells) => Some(cells[ix])
  }

  /** An optional column holds at least n cells, or is absent. */
  predicate CoversOption<T>(column: Option<seq<T>>, n: nat) {
    column.Some? ==> n <= |column.value|
  }

  /** An optional column holds exactly n cells, or is absent. */
  predicate FitsOption<T>(column: Option<seq<T>>, n: nat) {
    column.Some? ==> |column.value| == n
  }

  // ---------------------------------------------------------------- stacks

  datatype StackTableEntry = StackTableEntry(
    frame: IndexIntoFrameTable,
    category: IndexIntoCategoryList,
    prefix: Option<IndexIntoStackTable>)

  datatype StackTable = StackTable(
    frame: seq<IndexIntoFrameTable>,
    category: seq<IndexIntoCategoryList>,
    prefix: seq<Option<IndexIntoStackTable>>,
    length: uint64)
  {
    function Length(): (n: nat) {
      length as nat
    }

    predicate InBounds(ix: nat) {
      ix < |frame| && ix < |category| && ix < |prefix|
    }

    predicate Iterable() {
      Length() <= |frame| && Length() <= |category| && Length() <= |prefix|
    }

    predicate Valid() {
      |frame| == Length() && |category| == Length() && |prefix| == Length()
    }

    function Lookup(ix: nat): (e: StackTableEntry)
      requires InBounds(ix)
      ensures e.frame == frame[ix] && e.category == category[ix] && e.prefix == prefix[ix]
    {
      StackTableEntry(frame[ix], category[ix], prefix[ix])
    }

    function AsLookup(): (t: TableLookup<StackTableEntry>)
      requires Iterable()
      ensures t.Valid() && t.length == Length()
      ensures forall ix: nat :: ix < Length() ==> t.lookup(ix) == Lookup(ix)
    {
      TableLookup(Length(), (ix: nat) requires Iterable() && ix < Length() => Lookup(ix))
    }

    method Iter() returns (it: TableIterator<StackTableEntry>)
      requires Iterable()
      ensures fresh(it) && it.Valid() && it.table == AsLookup() && it.curIx == 0
      ensures it.Remaining() == AsLookup().Rows()
    {
      it := new TableIterator.From(AsLookup());
    }

    /** The row view loses nothing: two valid tables of the same length whose
        rows all agree are the same table. */
    lemma {:induction false} LookupDetermines(other: StackTable)
      requires Valid() && other.Valid() && length == other.length
      requires forall ix: nat :: ix < Length() ==> Lookup(ix) == other.Lookup(ix)
      ensures this == other
    {
      forall ix | 0 <= ix < Length()
        ensures frame[ix] == other.frame[ix] && category[ix] == other.category[ix]
        ensures prefix[ix] == other.prefix[ix]
      {
        assert Lookup(ix) == other.Lookup(ix);
      }
    }
  }

  // --------------------------------------------------------------- samples

  datatype SampleTableEntry = SampleTableEntry(
    responsiveness: Option<Milliseconds>,
    eventDelay: Option<Milliseconds>,
    stack: Option<IndexIntoStackTable>,
    time: Milliseconds,
    weight: Option<Weight>,
    weightType: WeightType,
    threadCPUDelta: Option<int32>,
    threadId: Option<Tid>)

  datatype SamplesTable = SamplesTable(
    responsiveness: Option<seq<Option<Milliseconds>>>,
    eventDelay: Option<seq<Option<Milliseconds>>>,
    stack: seq<Option<IndexIntoStackTable>>,
    time: seq<Milliseconds>,
    weight: Option<seq<Weight>>,
    weightType: WeightType,
    threadCPUDelta: Option<seq<Option<int32>>>,
    threadId: Option<seq<Tid>>,
    length: uint32)
  {
    function Length(): (n: nat) {
      length as nat
    }

    predicate InBounds(ix: nat) {
      && ix < |stack| && ix < |time|
      && CoversOption(responsiveness, ix + 1) && CoversOption(eventDelay, ix + 1)
      && CoversOption(weight, ix + 1) && CoversOption(threadCPUDelta, ix + 1)
      && CoversOption(threadId, ix + 1)
    }

    predicate Iterable() {
      && Length() <= |stack| && Length() <= |time|
      && CoversOption(responsiveness, Length()) && CoversOption(eventDelay, Length())
      && CoversOption(weight, Length()) && CoversOption(threadCPUDelta, Length())
      && CoversOption(threadId, Length())
    }

    predicate Valid() {
      && |stack| == Length() && |time| == Length()
      && FitsOption(responsiveness, Length()) && FitsOption(eventDelay, Length())
      && FitsOption(weight, Length()) && FitsOption(threadCPUDelta, Length())
      && FitsOption(threadId, Length())
    }

    /** The row at ix: an absent optional column gives None, a present one gives
        its cell; stack and time come from position ix, and the table-level
        weight type is copied into the row. */
    function Lookup(ix: nat): (e: SampleTableEntry)
      requires InBounds(ix)
      ensures e.stack == stack[ix] && e.time == time[ix] && e.weightType == weightType
      ensures responsiveness.None? ==> e.responsiveness.None?
      ensures responsiveness.Some? ==> e.responsiveness == responsiveness.value[ix]
      ensures eventDelay.None? ==> e.eventDelay.None?
      ensures eventDelay.Some? ==> e.eventDelay == eventDelay.value[ix]
      ensures weight.None? <==> e.weight.None?
      ensures weight.Some? ==> e.weight == Some(weight.value[ix])
      ensures threadCPUDelta.None? ==> e.threadCPUDelta.None?
      ensures threadCPUDelta.Some? ==> e.threadCPUDelta == threadCPUDelta.value[ix]
      ensures threadId.None? <==> e.threadId.None?
      ensures threadId.Some? ==> e.threadId == Some(threadId.value[ix])
    {
      SampleTableEntry(
        NullableCell(responsiveness, ix),
        NullableCell(eventDelay, ix),
        stack[ix],
        time[ix],
        OptionalCell(weight, ix),
        weightType,
        NullableCell(threadCPUDelta, ix),
        OptionalCell(threadId, ix))
    }

    function AsLookup(): (t: TableLookup<SampleTableEntry>)
      requires Iterable()
      ensures t.Valid() && t.length == Length()
      ensures forall ix: nat :: ix < Length() ==> t.lookup(ix) == Lookup(ix)
    {
      TableLookup(Length(), (ix: nat) requires Iterable() && ix < Length() => Lookup(ix))
    }

    method Iter() returns (it: TableIterator<SampleTableEntry>)
      requires Iterable()
      ensures fresh(it) && it.Valid() && it.table == AsLookup() && it.curIx == 0
      ensures it.Remaining() == AsLookup().Rows()
    {
      it := new TableIterator.From(AsLookup());
    }

    /** Every row of a table carries the table's weight type. */
    lemma {:induction false} RowsShareWeightType()
      requires Iterable()
      ensures forall k :: 0 <= k < Length() ==> AsLookup().Rows()[k].weightType == weightType
    {
      var rows := AsLookup().Rows();
      forall k | 0 <= k < Length() ensures rows[k].weightType == weightType {
        assert rows[k] == Lookup(k);
      }
    }
  }

  /** The samples row view cannot tell an absent responsiveness column from a
      present column whose cells are all empty: the two tables differ but every
      row agrees. */
  lemma AbsentAndEmptyColumnsLookAlike(t: SamplesTable)
    requires t.Valid() && t.responsiveness.None?
    ensures var u := t.(responsiveness := Some(seq(t.Length(), _ => None)));
      && u.Valid() && u != t
      && forall ix: nat :: ix < t.Length() ==> u.Lookup(ix) == t.Lookup(ix)
  {
    var u := t.(responsiveness := Some(seq(t.Length(), _ => None)));
    forall ix: nat | ix < t.Length() ensures u.Lookup(ix) == t.Lookup(ix) {
      assert u.Lookup(ix).responsiveness == None;
    }
  }

  // ---------------------------------------------------------------- frames

  datatype FrameTableEntry = FrameTableEntry(
    address: TableAddress,
    inlineDepth: int32,
    category: Option<IndexIntoCategoryList>,
    subcategory: Option<IndexIntoSubcategoryListForCategory>,
    func: Option<IndexIntoFuncTable>,
    nativeSymbol: Option<IndexIntoNativeSymbolTable>,
    innerWindowID: Option<InnerWindowID>,
    implementation: Option<IndexIntoStringTable>,
    line: Option<uint32>,
    column: Option<uint32>)

  datatype FrameTable = FrameTable(
    address: seq<TableAddress>,
    inlineDepth: seq<int32>,
    category: seq<Option<IndexIntoCategoryList>>,
    subcategory: seq<Option<IndexIntoSubcategoryListForCategory>>,
    func: seq<Option<IndexIntoFuncTable>>,
    nativeSymbol: seq<Option<IndexIntoNativeSymbolTable>>,
    innerWindowID: seq<Option<InnerWindowID>>,
    implementation: seq<Option<IndexIntoStringTable>>,
    line: seq<Option<uint32>>,
    column: seq<Option<uint32>>,
    length: uint32)
  {
    function Length(): (n: nat) {
      length as nat
    }

    predicate InBounds(ix: nat) {
      && ix < |address| && ix < |inlineDepth| && ix < |category| && ix < |subcategory|
      && ix < |func| && ix < |nativeSymbol| && ix < |innerWindowID|
      && ix < |implementation| && ix < |line| && ix < |column|
    }

    predicate Iterable() {
      && Length() <= |address| && Length() <= |inlineDepth| && Length() <= |category|
      && Length() <= |subcategory| && Length() <= |func| && Length() <= |nativeSymbol|
      && Length() <= |innerWindowID| && Length() <= |implementation|
      && Length() <= |line| && Length() <= |column|
    }

    predicate Valid() {
      && |address| == Length() && |inlineDepth| == Length() && |category| == Length()
      && |subcategory| == Length() && |func| == Length() && |nativeSymbol| == Length()
      && |innerWindowID| == Length() && |implementation| == Length()
      && |line| == Length() && |column| == Length()
    }

    /** The row at ix copies each of the ten columns at ix. */
    function Lookup(ix: nat): (e: FrameTableEntry)
      requires InBounds(ix)
      ensures e.address == address[ix] && e.inlineDepth == inlineDepth[ix]
      ensures e.category == category[ix] && e.subcategory == subcategory[ix]
      ensures e.func == func[ix] && e.nativeSymbol == nativeSymbol[ix]
      ensures e.innerWindowID == innerWindowID[ix] && e.implementation == implementation[ix]
      ensures e.line == line[ix] && e.column == column[ix]
    {
      FrameTableEntry(address[ix], inlineDepth[ix], category[ix], subcategory[ix], func[ix],
                      nativeSymbol[ix], innerWindowID[ix], implementation[ix], line[ix], column[ix])
    }

    function AsLookup(): (t: TableLookup<FrameTableEntry>)
      requires Iterable()
      ensures t.Valid() && t.length == Length()
      ensures forall ix: nat :: ix < Length() ==> t.lookup(ix) == Lookup(ix)
    {
      TableLookup(Length(), (ix: nat) requires Iterable() && ix < Length() => Lookup(ix))
    }

    method Iter() returns (it: TableIterator<FrameTableEntry>)
      requires Iterable()
      ensures fresh(it) && it.Valid() && it.table == AsLookup() && it.curIx == 0
      ensures it.Remaining() == AsLookup().Rows()
    {
      it := new TableIterator.From(AsLookup());
    }

    /** The row view loses nothing: two valid tables of the same length whose
        rows all agree are the same table. */
    lemma {:induction false} LookupDetermines(other: FrameTable)
      requires Valid() && other.Valid() && length == other.length
      requires forall ix: nat :: ix < Length() ==> Lookup(ix) == other.Lookup(ix)
      ensures this == other
    {
      forall ix | 0 <= ix < Length()
        ensures address[ix] == other.address[ix] && inlineDepth[ix] == other.inlineDepth[ix]
        ensures category[ix] == other.category[ix] && subcategory[ix] == other.subcategory[ix]
        ensures func[ix] == other.func[ix] && nativeSymbol[ix] == other.nativeSymbol[ix]
        ensures innerWindowID[ix] == other.innerWindowID[ix]
        ensures implementation[ix] == other.implementation[ix]
        ensures line[ix] == other.line[ix] && column[ix] == other.column[ix]
      {
        assert Lookup(ix) == other.Lookup(ix);
      }
    }
  }

  // -------------------------------------------------------- native symbols

  datatype NativeSymbolTableEntry = NativeSymbolTableEntry(
    libIndex: IndexIntoLibs,
    address: uint64,
    name: IndexIntoStringTable,
    functionSize: Option<uint8>)

  datatype NativeSymbolTable = NativeSymbolTable(
    libIndex: seq<IndexIntoLibs>,
    address: seq<uint64>,
    name: seq<IndexIntoStringTable>,
    functionSize: seq<Option<uint8>>,
    length: uint32)
  {
    function Length(): (n: nat) {
      length as nat
    }

    predicate InBounds(ix: nat) {
      ix < |libIndex| && ix < |address| && ix < |name| && ix < |functionSize|
    }

    predicate Iterable() {
      Length() <= |libIndex| && Length() <= |address| && Length() <= |name| && Length() <= |functionSize|
    }

    predicate Valid() {
      |libIndex| == Length() && |address| == Length() && |name| == Length() && |functionSize| == Length()
    }

    function Lookup(ix: nat): (e: NativeSymbolTableEntry)
      requires InBounds(ix)
      ensures e.libIndex == libIndex[ix] && e.address == address[ix]
      ensures e.name == name[ix] && e.functionSize == functionSize[ix]
    {
      NativeSymbolTableEntry(libIndex[ix], address[ix], name[ix], functionSize[ix])
    }

    function AsLookup(): (t: TableLookup<NativeSymbolTableEntry>)
      requires Iterable()
      ensures t.Valid() && t.length == Length()
      ensures forall ix: nat :: ix < Length() ==> t.lookup(ix) == Lookup(ix)
    {
      TableLookup(Length(), (ix: nat) requires Iterable() && ix < Length() => Lookup(ix))
    }

    method Iter() returns (it: TableIterator<NativeSymbolTableEntry>)
      requires Iterable()
      ensures fresh(it) && it.Valid() && it.table == AsLookup() && it.curIx == 0
      ensures it.Remaining() == AsLookup().Rows()
    {
      it := new TableIterator.From(AsLookup());
    }

    /** The row view loses nothing: two valid tables of the same length whose
        rows all agree are the same table. */
    lemma {:induction false} LookupDetermines(other: NativeSymbolTable)
      requires Valid() && other.Valid() && length == other.length
      requires forall ix: nat :: ix < Length() ==> Lookup(ix) == other.Lookup(ix)
      ensures this == other
    {
      forall ix | 0 <= ix < Length()
        ensures libIndex[ix] == other.libIndex[ix] && address[ix] == other.address[ix]
        ensures name[ix] == other.name[ix] && functionSize[ix] == other.functionSize[ix]
      {
        assert Lookup(ix) == other.Lookup(ix);
      }
    }
  }

  // ------------------------------------------------------------ containers

  /** One profiled thread: its identity and the tables that resolution reads. */
  datatype Thread = Thread(
    name: string,
    isMainThread: bool,
    pid: Pid,
    tid: Tid,
    samples: SamplesTable,
    stackTable: StackTable,
    frameTable: FrameTable,
    stringTable: seq<string>,
    nativeSymbols: NativeSymbolTable)

  /** The identity of one loaded library. */
  datatype Lib = Lib(
    arch: Option<string>,
    name: string,
    path: string,
    debugName: string,
    debugPath: string,
    breakpadId: string,
    codeId: Option<string>)

  datatype Profile = Profile(libs: seq<Lib>, threads: seq<Thread>)
}
