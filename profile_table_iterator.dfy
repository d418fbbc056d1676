/**
 * The row-lookup capability shared by every columnar table, and the cursor
 * that walks a table from row 0 to its declared length.
 */
module ProfileTableIterator {
  import opened Wrappers

  /** Re-wraps an optional value; the result is present exactly when the argument is. */
  function LookupThroughOption<T>(op: Option<T>): (r: Option<T>)
    ensures r.Some? <==> op.Some?
    ensures r.Some? ==> r.value == op.value
  {
    match op
    case Some(v) => Some(v)
    case None => None
  }

  /**
   * What a table offers to its iterator: a row count and a lookup that
   * assembles the row at an index. The lookup need only be defined below
   * the row count, which is what Valid() says.
   */
  datatype TableLookup<E> = TableLookup(length: nat, lookup: nat --> E)
  {
    ghost predicate Valid() {
      forall ix: nat :: ix < length ==> lookup.requires(ix)
    }

    /** The first n rows, in index order. */
    ghost function RowsUpTo(n: nat): (rows: seq<E>)
      requires Valid() && n <= length
      ensures |rows| == n
      ensures forall k :: 0 <= k < n ==> rows[k] == lookup(k)
    {
      if n == 0 then [] else RowsUpTo(n - 1) + [lookup(n - 1)]
    }

    /** Every row of the table, in index order. */
    ghost function Rows(): (rows: seq<E>)
      requires Valid()
      ensures |rows| == length
      ensures forall k :: 0 <= k < length ==> rows[k] == lookup(k)
    {
      RowsUpTo(length)
    }
  }

  /** A forward-only cursor over one table. */
  class TableIterator<E> {
    var curIx: nat
    const table: TableLookup<E>

    ghost predicate Valid()
      reads this
    {
      table.Valid() && curIx <= table.length
    }

    /** The rows this iterator has yet to return. */
    ghost function Remaining(): seq<E>
      reads this
      requires Valid()
    {
      table.Rows()[curIx..]
    }

    /** A fresh iterator starts at row 0, so it has every row still to return. */
    constructor From(table: TableLookup<E>)
      requires table.Valid()
      ensures Valid() && this.table == table && curIx == 0
      ensures Remaining() == table.Rows()
    {
      this.table := table;
      curIx := 0;
    }

    /** Returns the row under the cursor and advances by one, or returns None,
        leaving the cursor where it is, once the cursor has reached the length. */
    method Next() returns (item: Option<E>)
      requires Valid()
      modifies this`curIx
      ensures Valid()
      ensures item.None? <==> old(curIx) >= table.length
      ensures item.None? ==> curIx == old(curIx) && Remaining() == []
      ensures item.Some? ==> item.value == table.lookup(old(curIx)) && curIx == old(curIx) + 1
      ensures item.Some? ==> old(Remaining()) == [item.value] + Remaining()
    {
      if curIx >= table.length {
        item := None;
      } else {
        var lu := table.lookup(curIx);
        curIx := curIx + 1;
        item := Some(lu);
      }
    }
  }

  /** Consumes an iterator to exhaustion, as a `for` loop over it does,
      collecting the rows it returns. */
  method Drain<E>(it: TableIterator<E>) returns (items: seq<E>)
    requires it.Valid()
    modifies it
    ensures it.Valid() && it.curIx == it.table.length
    ensures items == old(it.Remaining())
  {
    items := [];
    while true
      invariant it.Valid() && old(it.curIx) <= it.curIx
      invariant items == it.table.Rows()[old(it.curIx)..it.curIx]
      decreases it.table.length - it.curIx
    {
      var item := it.Next();
      if item.None? {
        break;
      }
      items := items + [item.value];
    }
  }

  /** Iterating a freshly created iterator yields exactly `length` rows, the
      k-th of which is the lookup of row k. */
  method IterateFresh<E>(table: TableLookup<E>) returns (items: seq<E>)
    requires table.Valid()
    ensures |items| == table.length
    ensures forall k :: 0 <= k < table.length ==> items[k] == table.lookup(k)
  {
    var it := new TableIterator.From(table);
    items := Drain(it);
  }
}
