/**
 * Sample transposition: walk the threads of a profile in order and, within
 * each thread, its samples in row order; for each sample follow one hop,
 * sample stack -> stack table frame column -> frame row -> native symbol row,
 * and emit a flat record when both the stack and the native symbol exist.
 *
 * Samples without a stack and frames without a native symbol produce no
 * record. The stack's prefix chain is never followed. An index that is
 * negative or past the end of its column panics in the source; here that is
 * excluded by the precondition `ProfileResolves`.
 */
module Transposed {
  import opened Integers
  import opened Wrappers
  import opened ProfileTableIterator
  import opened ProcessedProfile
  import opened TableAddresses

  /** A flattened sample. The source also carries references to the thread's
      tables; the model carries the thread's position in the profile instead. */
  datatype TransposedSample = TransposedSample(
    stackFrame: IndexIntoStackTable,
    symbolTableEntry: NativeSymbolTableEntry,
    sampleTime: Milliseconds,
    stringTableIndex: Option<IndexIntoStringTable>,
    threadIndex: nat)

  // ------------------------------------------------ when resolution is safe

  /** Frame index f of thread t can be looked up, and so can its native symbol if it has one. */
  predicate FrameResolves(t: Thread, f: IndexIntoFrameTable) {
    0 <= f && t.frameTable.InBounds(f as nat) &&
    match t.frameTable.nativeSymbol[f]
    case None => true
    case Some(n) => 0 <= n && t.nativeSymbols.InBounds(n as nat)
  }

  /** Resolving sample row s of thread t indexes only inside the columns it reads. */
  predicate Resolves(t: Thread, s: SampleTableEntry) {
    match s.stack
    case None => true
    case Some(i) => 0 <= i && (i as int) < |t.stackTable.frame| && FrameResolves(t, t.stackTable.frame[i])
  }

  /** Resolving row ix of the samples of t does not panic. */
  predicate RowResolves(t: Thread, ix: nat)
    requires t.samples.Iterable() && ix < t.samples.Length()
  {
    Resolves(t, t.samples.Lookup(ix))
  }

  /** Iterating the samples of t and resolving each of them does not panic. */
  predicate ThreadResolves(t: Thread) {
    t.samples.Iterable() &&
    forall ix: nat :: ix < t.samples.Length() ==> RowResolves(t, ix)
  }

  predicate ProfileResolves(p: Profile) {
    forall ti :: 0 <= ti < |p.threads| ==> ThreadResolves(p.threads[ti])
  }

  // ---------------------------------------------------------- specification

  function OptionToSeq<T>(o: Option<T>): (s: seq<T>)
    ensures |s| <= 1
    ensures |s| == 1 <==> o.Some?
    ensures |s| == 1 ==> s[0] == o.value
  {
    match o
    case None => []
    case Some(v) => [v]
  }

  /** The frame row a sample's stack points at, in one hop. */
  function FrameOf(t: Thread, s: SampleTableEntry): (frame: FrameTableEntry)
    requires Resolves(t, s) && s.stack.Some?
  {
    t.frameTable.Lookup(t.stackTable.frame[s.stack.value] as nat)
  }

  /** The record sample s of thread number ti contributes, if any. A record
      exists exactly when the sample has a stack and that stack's frame has a
      native symbol; it then holds the stack index (not the frame index), the
      sample's time, the frame's implementation and the native-symbol row of
      the same thread. */
  function SampleRecord(t: Thread, ti: nat, s: SampleTableEntry): (r: Option<TransposedSample>)
    requires Resolves(t, s)
    ensures r.Some? <==> s.stack.Some? && FrameOf(t, s).nativeSymbol.Some?
    ensures r.Some? ==>
      && r.value.stackFrame == s.stack.value
      && r.value.sampleTime == s.time
      && r.value.stringTableIndex == FrameOf(t, s).implementation
      && r.value.symbolTableEntry == t.nativeSymbols.Lookup(FrameOf(t, s).nativeSymbol.value as nat)
      && r.value.threadIndex == ti
  {
    match s.stack
    case None => None
    case Some(i) =>
      var frame := t.frameTable.Lookup(t.stackTable.frame[i] as nat);
      match frame.nativeSymbol
      case None => None
      case Some(n) => Some(TransposedSample(i, t.nativeSymbols.Lookup(n as nat), s.time, frame.implementation, ti))
  }

  /** The record of row ix of the samples of thread t, number ti. */
  function RecordAt(t: Thread, ti: nat, ix: nat): (r: Option<TransposedSample>)
    requires ThreadResolves(t) && ix < t.samples.Length()
  {
    assert RowResolves(t, ix);
    SampleRecord(t, ti, t.samples.Lookup(ix))
  }

  /** The records of the first n samples of thread t, number ti, in row order. */
  function ThreadRecords(t: Thread, ti: nat, n: nat): (rs: seq<TransposedSample>)
    requires ThreadResolves(t) && n <= t.samples.Length()
    ensures |rs| <= n
  {
    if n == 0 then [] else ThreadRecords(t, ti, n - 1) + OptionToSeq(RecordAt(t, ti, n - 1))
  }

  /** The records of all samples of the first m threads, in thread order. */
  function ProfileRecords(p: Profile, m: nat): (rs: seq<TransposedSample>)
    requires ProfileResolves(p) && m <= |p.threads|
    ensures |rs| <= SampleCount(p, m)
  {
    if m == 0 then []
    else ProfileRecords(p, m - 1) + ThreadOutput(p, m - 1)
  }

  /** The records of every sample of thread ti. */
  function ThreadOutput(p: Profile, ti: nat): (rs: seq<TransposedSample>)
    requires ProfileResolves(p) && ti < |p.threads|
  {
    ThreadRecords(p.threads[ti], ti, p.threads[ti].samples.Length())
  }

  /** The number of samples in the first m threads. */
  function SampleCount(p: Profile, m: nat): (n: nat)
    requires m <= |p.threads|
  {
    if m == 0 then 0 else SampleCount(p, m - 1) + p.threads[m - 1].samples.Length()
  }

  function Transpose(p: Profile): (rs: seq<TransposedSample>)
    requires ProfileResolves(p)
  {
    ProfileRecords(p, |p.threads|)
  }

  // ----------------------------------------------------------- the pipeline

  /** The imperative transposition: an accumulator grown by pushes inside a
      loop over threads, which runs the per-thread step below on each. */
  method TransposeSamples(profile: Profile) returns (acc: seq<TransposedSample>)
    requires ProfileResolves(profile)
    ensures acc == Transpose(profile)
  {
    acc := [];
    var ti := 0;
    while ti < |profile.threads|
      invariant ti <= |profile.threads|
      invariant acc == ProfileRecords(profile, ti)
    {
      acc := PushThreadSamples(profile.threads[ti], ti, acc);
      ti := ti + 1;
    }
  }

  /** The body run for each thread: iterate its samples in row order and push
      the record of every sample that resolves to a native symbol. */
  method PushThreadSamples(thread: Thread, ti: nat, acc0: seq<TransposedSample>)
    returns (acc: seq<TransposedSample>)
    requires ThreadResolves(thread)
    ensures acc == acc0 + ThreadRecords(thread, ti, thread.samples.Length())
  {
    var stackTable := thread.stackTable;
    var frameTable := thread.frameTable;
    var symbolTable := thread.nativeSymbols;
    var sampleTable := thread.samples;
    acc := acc0;

    var samples := sampleTable.Iter();
    while true
      invariant samples.Valid() && samples.table == sampleTable.AsLookup()
      invariant acc == acc0 + ThreadRecords(thread, ti, samples.curIx)
      decreases sampleTable.Length() - samples.curIx
    {
      ghost var k := samples.curIx;
      var next := samples.Next();
      if next.None? {
        break;
      }
      var s := next.value;
      assert s == sampleTable.Lookup(k) && RowResolves(thread, k);
      ghost var record := RecordAt(thread, ti, k);
      match s.stack {
        case Some(i) =>
          var stackTableEntry := stackTable.frame[i];
          var frameTableEntry := frameTable.Lookup(stackTableEntry as nat);
          var stringTableIndex := frameTableEntry.implementation;
          match frameTableEntry.nativeSymbol {
            case Some(ix) =>
              var nste := symbolTable.Lookup(ix as nat);
              acc := acc + [TransposedSample(i, nste, s.time, stringTableIndex, ti)];
              assert record == Some(TransposedSample(i, nste, s.time, stringTableIndex, ti));
            case None =>
              assert record == None;
          }
        case None =>
          assert record == None;
      }
      assert acc == acc0 + ThreadRecords(thread, ti, k) + OptionToSeq(record);
      ThreadRecordsExtend(thread, ti, k, acc0, acc);
    }
  }

  /** One more row: the records of the first k + 1 rows extend those of the
      first k by the record of row k, if any. */
  lemma ThreadRecordsExtend(t: Thread, ti: nat, k: nat, acc0: seq<TransposedSample>, acc: seq<TransposedSample>)
    requires ThreadResolves(t) && k < t.samples.Length()
    requires acc == acc0 + ThreadRecords(t, ti, k) + OptionToSeq(RecordAt(t, ti, k))
    ensures acc == acc0 + ThreadRecords(t, ti, k + 1)
  {
    assert ThreadRecords(t, ti, k + 1) == ThreadRecords(t, ti, k) + OptionToSeq(RecordAt(t, ti, k));
  }

  // ------------------------------------------------- properties of the spec

  /** The first n samples of thread t, number ti, all give a record. */
  ghost predicate ThreadAllEmit(t: Thread, ti: nat, n: nat)
    requires ThreadResolves(t) && n <= t.samples.Length()
  {
    forall ix: nat :: ix < n ==> RecordAt(t, ti, ix).Some?
  }

  /** Every sample of the first m threads gives a record. */
  ghost predicate AllSamplesEmit(p: Profile, m: nat)
    requires ProfileResolves(p) && m <= |p.threads|
  {
    forall ti: nat, ix: nat :: ti < m && ix < p.threads[ti].samples.Length() ==> RecordAt(p.threads[ti], ti, ix).Some?
  }

  /** A thread's samples give one record each exactly when every one of them emits;
      otherwise they give fewer records than samples. */
  lemma {:induction false} ThreadRecordsLength(t: Thread, ti: nat, n: nat)
    requires ThreadResolves(t) && n <= t.samples.Length()
    ensures |ThreadRecords(t, ti, n)| <= n
    ensures |ThreadRecords(t, ti, n)| == n <==> ThreadAllEmit(t, ti, n)
  {
    if n > 0 {
      ThreadRecordsLength(t, ti, n - 1);
      if ThreadAllEmit(t, ti, n) {
        assert ThreadAllEmit(t, ti, n - 1);
      }
    }
  }

  /** The same condition as AllSamplesEmit, stated thread by thread. */
  ghost predicate ThreadsAllEmit(p: Profile, m: nat)
    requires ProfileResolves(p) && m <= |p.threads|
  {
    m == 0 || (ThreadsAllEmit(p, m - 1) && ThreadAllEmit(p.threads[m - 1], m - 1, p.threads[m - 1].samples.Length()))
  }

  lemma {:induction false} ThreadsAllEmitMeans(p: Profile, m: nat)
    requires ProfileResolves(p) && m <= |p.threads|
    ensures ThreadsAllEmit(p, m) <==> AllSamplesEmit(p, m)
  {
    if m > 0 {
      ThreadsAllEmitMeans(p, m - 1);
      var L := p.threads[m - 1].samples.Length();
      if ThreadsAllEmit(p, m) {
        forall ti: nat, ix: nat | ti < m && ix < p.threads[ti].samples.Length()
          ensures RecordAt(p.threads[ti], ti, ix).Some?
        {
          if ti == m - 1 {
            assert p.threads[ti] == p.threads[m - 1];
          }
        }
      }
      if AllSamplesEmit(p, m) {
        var t, ti := p.threads[m - 1], m - 1;
        assert ThreadAllEmit(t, ti, L) by {
          forall ix: nat | ix < L ensures RecordAt(t, ti, ix).Some? {
            assert ti < m;
          }
        }
      }
    }
  }

  lemma {:induction false} ProfileRecordsLength(p: Profile, m: nat)
    requires ProfileResolves(p) && m <= |p.threads|
    ensures |ProfileRecords(p, m)| <= SampleCount(p, m)
    ensures |ProfileRecords(p, m)| == SampleCount(p, m) <==> ThreadsAllEmit(p, m)
  {
    if m > 0 {
      var t := p.threads[m - 1];
      ProfileRecordsLength(p, m - 1);
      ThreadRecordsLength(t, m - 1, t.samples.Length());
    }
  }

  /** Each sample adds at most one record; the output has one record per sample
      exactly when every sample has a stack whose frame has a native symbol. */
  lemma TransposeLength(p: Profile)
    requires ProfileResolves(p)
    ensures |Transpose(p)| <= SampleCount(p, |p.threads|)
    ensures |Transpose(p)| == SampleCount(p, |p.threads|) <==> AllSamplesEmit(p, |p.threads|)
  {
    ProfileRecordsLength(p, |p.threads|);
    ThreadsAllEmitMeans(p, |p.threads|);
  }

  /** A sample position: a thread of the profile and a row of its samples table. */
  datatype Origin = Origin(thread: nat, sample: nat)

  ghost predicate IsOrigin(p: Profile, o: Origin) {
    o.thread < |p.threads| && o.sample < p.threads[o.thread].samples.Length()
  }

  /** Threads in profile order first, then samples in row order. */
  ghost predicate Precedes(a: Origin, b: Origin) {
    a.thread < b.thread || (a.thread == b.thread && a.sample < b.sample)
  }

  ghost predicate OnThread(os: seq<Origin>, t: nat) {
    forall o :: o in os ==> o.thread == t
  }

  ghost predicate OnThreadsBelow(os: seq<Origin>, t: nat) {
    forall o :: o in os ==> o.thread < t
  }

  ghost predicate RowsIncrease(os: seq<Origin>) {
    forall a, b :: 0 <= a < b < |os| ==> os[a].sample < os[b].sample
  }

  ghost predicate InPrecedenceOrder(os: seq<Origin>) {
    forall a, b :: 0 <= a < b < |os| ==> Precedes(os[a], os[b])
  }

  /** Origins os explain records rs one for one: the k-th record is what the
      sample at the k-th origin emits. */
  ghost predicate Explains(p: Profile, os: seq<Origin>, rs: seq<TransposedSample>)
    requires ProfileResolves(p)
  {
    |os| == |rs| && forall k :: 0 <= k < |os| ==> IsOrigin(p, os[k]) && Emit(p, os[k]) == Some(rs[k])
  }

  lemma ConcatExplains(p: Profile, os1: seq<Origin>, rs1: seq<TransposedSample>, os2: seq<Origin>, rs2: seq<TransposedSample>)
    requires ProfileResolves(p) && Explains(p, os1, rs1) && Explains(p, os2, rs2)
    ensures Explains(p, os1 + os2, rs1 + rs2)
  {
    forall k | 0 <= k < |os1 + os2| ensures IsOrigin(p, (os1 + os2)[k]) && Emit(p, (os1 + os2)[k]) == Some((rs1 + rs2)[k]) {
      if k < |os1| {
        assert (os1 + os2)[k] == os1[k] && (rs1 + rs2)[k] == rs1[k];
      } else {
        assert (os1 + os2)[k] == os2[k - |os1|] && (rs1 + rs2)[k] == rs2[k - |os1|];
      }
    }
  }

  /** The record, if any, of the sample at position o, taken on its own. */
  ghost function Emit(p: Profile, o: Origin): Option<TransposedSample>
    requires ProfileResolves(p) && IsOrigin(p, o)
  {
    RecordAt(p.threads[o.thread], o.thread, o.sample)
  }

  /** The positions of the emitting samples among the first n rows of thread ti. */
  ghost function ThreadOrigins(p: Profile, ti: nat, n: nat): seq<Origin>
    requires ProfileResolves(p) && ti < |p.threads| && n <= p.threads[ti].samples.Length()
  {
    if n == 0 then []
    else ThreadOrigins(p, ti, n - 1) + (if RecordAt(p.threads[ti], ti, n - 1).Some? then [Origin(ti, n - 1)] else [])
  }

  /** The positions of the emitting samples of the first m threads. */
  ghost function ProfileOrigins(p: Profile, m: nat): seq<Origin>
    requires ProfileResolves(p) && m <= |p.threads|
  {
    if m == 0 then []
    else ProfileOrigins(p, m - 1) + ThreadOrigins(p, m - 1, p.threads[m - 1].samples.Length())
  }

  /** Every origin of thread ti names that thread and one of its first n rows. */
  lemma {:induction false} ThreadOriginsBound(p: Profile, ti: nat, n: nat)
    requires ProfileResolves(p) && ti < |p.threads| && n <= p.threads[ti].samples.Length()
    ensures OnThread(ThreadOrigins(p, ti, n), ti)
    ensures forall o :: o in ThreadOrigins(p, ti, n) ==> o.sample < n
  {
    if n > 0 {
      ThreadOriginsBound(p, ti, n - 1);
    }
  }

  /** The origins of thread ti explain its records one for one. */
  lemma {:induction false} ThreadOriginsSound(p: Profile, ti: nat, n: nat)
    requires ProfileResolves(p) && ti < |p.threads| && n <= p.threads[ti].samples.Length()
    ensures Explains(p, ThreadOrigins(p, ti, n), ThreadRecords(p.threads[ti], ti, n))
  {
    if n > 0 {
      ThreadOriginsSound(p, ti, n - 1);
      var o := Origin(ti, n - 1);
      var r := RecordAt(p.threads[ti], ti, n - 1);
      assert Explains(p, if r.Some? then [o] else [], OptionToSeq(r));
      ConcatExplains(p, ThreadOrigins(p, ti, n - 1), ThreadRecords(p.threads[ti], ti, n - 1),
        if r.Some? then [o] else [], OptionToSeq(r));
    }
  }

  /** The origins of thread ti are in strictly increasing row order. */
  lemma {:induction false} ThreadOriginsOrdered(p: Profile, ti: nat, n: nat)
    requires ProfileResolves(p) && ti < |p.threads| && n <= p.threads[ti].samples.Length()
    ensures RowsIncrease(ThreadOrigins(p, ti, n))
  {
    if n > 0 {
      ThreadOriginsOrdered(p, ti, n - 1);
      ThreadOriginsBound(p, ti, n - 1);
      var os := ThreadOrigins(p, ti, n - 1);
      var os' := ThreadOrigins(p, ti, n);
      assert os' == os + (if RecordAt(p.threads[ti], ti, n - 1).Some? then [Origin(ti, n - 1)] else []);
      forall a, b | 0 <= a < b < |os'| ensures os'[a].sample < os'[b].sample {
        assert os'[a] == os[a] && os[a] in os;
        if b < |os| {
          assert os'[b] == os[b];
          assert os[a].sample < os[b].sample;
        } else {
          assert os'[b] == Origin(ti, n - 1);
          assert os[a].sample < n - 1;
        }
      }
    }
  }

  /** No emitting row among the first n of thread ti is missing from its origins. */
  lemma {:induction false} ThreadOriginsComplete(p: Profile, ti: nat, n: nat)
    requires ProfileResolves(p) && ti < |p.threads| && n <= p.threads[ti].samples.Length()
    ensures forall ix: nat :: ix < n && RecordAt(p.threads[ti], ti, ix).Some? ==> Origin(ti, ix) in ThreadOrigins(p, ti, n)
  {
    if n > 0 {
      ThreadOriginsComplete(p, ti, n - 1);
    }
  }

  /** Every origin of the first m threads names one of them. */
  lemma {:induction false} ProfileOriginsBound(p: Profile, m: nat)
    requires ProfileResolves(p) && m <= |p.threads|
    ensures OnThreadsBelow(ProfileOrigins(p, m), m)
  {
    if m > 0 {
      ProfileOriginsBound(p, m - 1);
      ThreadOriginsBound(p, m - 1, p.threads[m - 1].samples.Length());
    }
  }

  /** The origins of the first m threads explain their records one for one. */
  lemma {:induction false} ProfileOriginsSound(p: Profile, m: nat)
    requires ProfileResolves(p) && m <= |p.threads|
    ensures Explains(p, ProfileOrigins(p, m), ProfileRecords(p, m))
  {
    if m > 0 {
      var L := p.threads[m - 1].samples.Length();
      ProfileOriginsSound(p, m - 1);
      ThreadOriginsSound(p, m - 1, L);
      ConcatExplains(p, ProfileOrigins(p, m - 1), ProfileRecords(p, m - 1),
        ThreadOrigins(p, m - 1, L), ThreadRecords(p.threads[m - 1], m - 1, L));
    }
  }

  /** The origins of the first m threads are in strictly increasing
      thread-then-row order. */
  lemma {:induction false} ProfileOriginsOrdered(p: Profile, m: nat)
    requires ProfileResolves(p) && m <= |p.threads|
    ensures InPrecedenceOrder(ProfileOrigins(p, m))
  {
    if m > 0 {
      var L := p.threads[m - 1].samples.Length();
      var os1, os2 := ProfileOrigins(p, m - 1), ThreadOrigins(p, m - 1, L);
      assert ProfileOrigins(p, m) == os1 + os2;
      ProfileOriginsOrdered(p, m - 1);
      ProfileOriginsBound(p, m - 1);
      ThreadOriginsBound(p, m - 1, L);
      ThreadOriginsOrdered(p, m - 1, L);
      ConcatInOrder(os1, os2, m - 1);
    }
  }

  /** Origins of earlier threads in precedence order, followed by rows of
      thread t in increasing order, are in precedence order. */
  lemma ConcatInOrder(os1: seq<Origin>, os2: seq<Origin>, t: nat)
    requires InPrecedenceOrder(os1) && RowsIncrease(os2)
    requires OnThreadsBelow(os1, t) && OnThread(os2, t)
    ensures InPrecedenceOrder(os1 + os2)
  {
    forall a, b | 0 <= a < b < |os1 + os2| ensures Precedes((os1 + os2)[a], (os1 + os2)[b]) {
      if b < |os1| {
        assert (os1 + os2)[a] == os1[a] && (os1 + os2)[b] == os1[b];
      } else if a < |os1| {
        assert (os1 + os2)[a] == os1[a] && os1[a] in os1;
        assert (os1 + os2)[b] == os2[b - |os1|] && os2[b - |os1|] in os2;
      } else {
        assert (os1 + os2)[a] == os2[a - |os1|] && os2[a - |os1|] in os2;
        assert (os1 + os2)[b] == os2[b - |os1|] && os2[b - |os1|] in os2;
      }
    }
  }

  /** No emitting sample of the first m threads is missing from their origins. */
  lemma {:induction false} ProfileOriginsComplete(p: Profile, m: nat)
    requires ProfileResolves(p) && m <= |p.threads|
    ensures forall o :: IsOrigin(p, o) && o.thread < m && Emit(p, o).Some? ==> o in ProfileOrigins(p, m)
  {
    if m > 0 {
      var L := p.threads[m - 1].samples.Length();
      ProfileOriginsComplete(p, m - 1);
      ThreadOriginsComplete(p, m - 1, L);
      var os1, os2 := ProfileOrigins(p, m - 1), ThreadOrigins(p, m - 1, L);
      forall o | IsOrigin(p, o) && o.thread < m && Emit(p, o).Some? ensures o in os1 + os2 {
        if o.thread == m - 1 {
          assert o == Origin(m - 1, o.sample) && o in os2;
        } else {
          assert o in os1;
        }
      }
    }
  }

  /** The whole profile: every record comes from one emitting sample, every
      emitting sample gives one record, and the order is threads in profile
      order, then samples in row order. */
  lemma TransposeExplained(p: Profile)
    requires ProfileResolves(p)
    ensures var os, rs := ProfileOrigins(p, |p.threads|), Transpose(p);
      && |os| == |rs|
      && (forall k :: 0 <= k < |os| ==> IsOrigin(p, os[k]) && Emit(p, os[k]) == Some(rs[k]))
      && (forall a, b :: 0 <= a < b < |os| ==> Precedes(os[a], os[b]))
      && (forall o :: IsOrigin(p, o) && Emit(p, o).Some? ==> o in os)
  {
    ProfileOriginsSound(p, |p.threads|);
    ProfileOriginsOrdered(p, |p.threads|);
    ProfileOriginsComplete(p, |p.threads|);
  }

  /** Records appear in thread order. */
  lemma TransposeThreadOrder(p: Profile)
    requires ProfileResolves(p)
    ensures forall a, b :: 0 <= a < b < |Transpose(p)| ==> Transpose(p)[a].threadIndex <= Transpose(p)[b].threadIndex
  {
    TransposeExplained(p);
    var os := ProfileOrigins(p, |p.threads|);
    forall a, b | 0 <= a < b < |Transpose(p)|
      ensures Transpose(p)[a].threadIndex <= Transpose(p)[b].threadIndex
    {
      assert RowResolves(p.threads[os[a].thread], os[a].sample);
      assert RowResolves(p.threads[os[b].thread], os[b].sample);
      assert Precedes(os[a], os[b]);
    }
  }

  /** Record r was built from sample row ix of thread t: that sample's stack is
      r's stack index, its frame (one hop through the stack table's frame
      column) has a native symbol whose row of the same thread is r's symbol
      entry, and r carries the sample's time and the frame's implementation. */
  ghost predicate BuiltFrom(t: Thread, r: TransposedSample, ix: nat)
    requires ThreadResolves(t) && ix < t.samples.Length()
  {
    assert RowResolves(t, ix);
    var s := t.samples.Lookup(ix);
    && s.stack == Some(r.stackFrame)
    && s.time == r.sampleTime
    && FrameOf(t, s).nativeSymbol.Some?
    && r.stringTableIndex == FrameOf(t, s).implementation
    && r.symbolTableEntry == t.nativeSymbols.Lookup(FrameOf(t, s).nativeSymbol.value as nat)
  }

  /** Every output record is the one-hop resolution of a sample of the thread it names. */
  lemma TransposedRecordsAreResolutions(p: Profile, k: nat)
    requires ProfileResolves(p) && k < |Transpose(p)|
    ensures Transpose(p)[k].threadIndex < |p.threads|
    ensures var t := p.threads[Transpose(p)[k].threadIndex];
      exists ix: nat :: ix < t.samples.Length() && BuiltFrom(t, Transpose(p)[k], ix)
  {
    TransposeExplained(p);
    var o := ProfileOrigins(p, |p.threads|)[k];
    assert RowResolves(p.threads[o.thread], o.sample);
    assert BuiltFrom(p.threads[o.thread], Transpose(p)[k], o.sample);
  }

  /** What resolution of thread t reads: its samples, the frame column of its
      stack table, its frame table and its native symbols. */
  predicate SameResolutionInputs(t: Thread, u: Thread) {
    && t.samples == u.samples
    && t.stackTable.frame == u.stackTable.frame
    && t.frameTable == u.frameTable
    && t.nativeSymbols == u.nativeSymbols
  }

  lemma ThreadResolvesReadOnlyInputs(t: Thread, u: Thread)
    requires ThreadResolves(t) && SameResolutionInputs(t, u)
    ensures ThreadResolves(u)
  {
    forall ix: nat | ix < u.samples.Length() ensures RowResolves(u, ix) {
      assert RowResolves(t, ix);
    }
  }

  lemma {:induction false} ThreadRecordsReadOnlyInputs(t: Thread, u: Thread, ti: nat, n: nat)
    requires ThreadResolves(t) && SameResolutionInputs(t, u) && n <= t.samples.Length()
    ensures ThreadResolves(u) && ThreadRecords(u, ti, n) == ThreadRecords(t, ti, n)
  {
    ThreadResolvesReadOnlyInputs(t, u);
    if n > 0 {
      ThreadRecordsReadOnlyInputs(t, u, ti, n - 1);
      assert RowResolves(t, n - 1);
      assert RecordAt(u, ti, n - 1) == RecordAt(t, ti, n - 1);
    }
  }

  lemma ProfileResolvesReadOnlyInputs(p: Profile, q: Profile)
    requires ProfileResolves(p) && |p.threads| == |q.threads|
    requires forall ti :: 0 <= ti < |p.threads| ==> SameResolutionInputs(p.threads[ti], q.threads[ti])
    ensures ProfileResolves(q)
  {
    forall ti | 0 <= ti < |q.threads| ensures ThreadResolves(q.threads[ti]) {
      ThreadResolvesReadOnlyInputs(p.threads[ti], q.threads[ti]);
    }
  }

  /** Profiles whose threads each give the same records give the same output. */
  lemma {:induction false} ProfileRecordsCongruent(p: Profile, q: Profile, m: nat)
    requires ProfileResolves(p) && ProfileResolves(q) && m <= |p.threads| && m <= |q.threads|
    requires forall ti :: 0 <= ti < m ==> ThreadOutput(q, ti) == ThreadOutput(p, ti)
    ensures ProfileRecords(q, m) == ProfileRecords(p, m)
  {
    if m > 0 {
      ProfileRecordsCongruent(p, q, m - 1);
    }
  }

  /** Transposition only reads the samples, the stack table's frame column, the
      frame table and the native symbols: any two profiles that agree on those
      give the same output, whatever their prefixes, categories, string tables
      or libraries. */
  lemma OnlyResolutionInputsMatter(p: Profile, q: Profile)
    requires ProfileResolves(p) && |p.threads| == |q.threads|
    requires forall ti :: 0 <= ti < |p.threads| ==> SameResolutionInputs(p.threads[ti], q.threads[ti])
    ensures ProfileResolves(q) && Transpose(q) == Transpose(p)
  {
    ProfileResolvesReadOnlyInputs(p, q);
    forall ti | 0 <= ti < |p.threads| ensures ThreadOutput(q, ti) == ThreadOutput(p, ti) {
      ThreadRecordsReadOnlyInputs(p.threads[ti], q.threads[ti], ti, p.threads[ti].samples.Length());
    }
    ProfileRecordsCongruent(p, q, |p.threads|);
  }

  /** The frame is found in a single hop: replacing the prefix column of one
      thread's stack table does not change the output. */
  lemma PrefixNeverRead(p: Profile, ti: nat, prefix: seq<Option<IndexIntoStackTable>>)
    requires ProfileResolves(p) && ti < |p.threads|
    ensures var t := p.threads[ti];
      var q := p.(threads := p.threads[ti := t.(stackTable := t.stackTable.(prefix := prefix))]);
      ProfileResolves(q) && Transpose(q) == Transpose(p)
  {
    var t := p.threads[ti];
    var q := p.(threads := p.threads[ti := t.(stackTable := t.stackTable.(prefix := prefix))]);
    OnlyResolutionInputsMatter(p, q);
  }

  // ---------------------------------------------------------------- example

  /** One thread with three samples: row 0 has no stack; row 1's stack points
      at frame 0, which has no native symbol; row 2's stack points at frame 1,
      whose native symbol is row 0 (library 1, address 0x1A0007, name 8). */
  function ExampleThread(): Thread {
    var samples := SamplesTable(None, None, [None, Some(0), Some(1)],
      [Milliseconds(10), Milliseconds(20), Milliseconds(30)], None, Samples, None, None, 3);
    var stacks := StackTable([0, 1], [0, 0], [None, Some(0)], 2);
    var frames := FrameTable([Base, Address(0x1A0007)], [0, 0], [None, None], [None, None],
      [None, None], [None, Some(0)], [None, None], [None, Some(5)], [None, None], [None, None], 2);
    var symbols := NativeSymbolTable([1], [0x1A0007], [8], [None], 1);
    Thread("GeckoMain", true, "1234", Integer(1234), samples, stacks, frames, [], symbols)
  }

  /** Only row 2 gives a record: it carries stack index 1 (not frame index 1),
      the sample's time, the frame's implementation and the symbol row. */
  lemma TransposeExample()
    ensures ProfileResolves(Profile([], [ExampleThread()]))
    ensures Transpose(Profile([], [ExampleThread()]))
      == [TransposedSample(1, NativeSymbolTableEntry(1, 0x1A0007, 8, None), Milliseconds(30), Some(5), 0)]
  {
    var t := ExampleThread();
    forall ix: nat | ix < t.samples.Length() ensures RowResolves(t, ix) {
      assert ix == 0 || ix == 1 || ix == 2;
    }
    assert RecordAt(t, 0, 0) == None;
    assert RecordAt(t, 0, 1) == None;
    assert RecordAt(t, 0, 2) == Some(TransposedSample(1, NativeSymbolTableEntry(1, 0x1A0007, 8, None), Milliseconds(30), Some(5), 0));
    assert ThreadRecords(t, 0, 2) == [];
  }
}
