/** A table whose every query is keyed by broker order id, and its reading by sequence number. */
module Tables {
  datatype Keyed<+T> = Keyed(order: string, row: T)

  /** One order's rows, as they were inserted. */
  function Of<T>(rows: seq<Keyed<T>>, order: string): seq<T> {
    if rows == [] then []
    else
      var last := rows[|rows| - 1];
      Of(rows[..|rows| - 1], order) + (if last.order == order then [last.row] else [])
  }

  lemma OfAppend<T>(rows: seq<Keyed<T>>, k: Keyed<T>, order: string)
    ensures k.order == order ==> Of(rows + [k], order) == Of(rows, order) + [k.row]
    ensures k.order != order ==> Of(rows + [k], order) == Of(rows, order)
  {
    assert (rows + [k])[..|rows|] == rows;
  }

  /** A longer table only extends each order's rows. */
  lemma {:induction false} OfPrefix<T>(rows: seq<Keyed<T>>, n: nat, order: string)
    requires n <= |rows|
    ensures Of(rows[..n], order) <= Of(rows, order)
    decreases |rows|
  {
    if n == |rows| {
      assert rows[..n] == rows;
    } else {
      assert rows[..|rows| - 1][..n] == rows[..n];
      OfPrefix(rows[..|rows| - 1], n, order);
    }
  }

  // -------------------------------------------------------------- by sequence number

  /** `x` behind the last row whose number is not above its own. */
  function Insert<T>(s: seq<T>, x: T, number: T -> int): (r: seq<T>)
    ensures |r| == |s| + 1
    decreases |s|
  {
    if s == [] || number(s[|s| - 1]) <= number(x) then s + [x]
    else Insert(s[..|s| - 1], x, number) + [s[|s| - 1]]
  }

  /** The rows by ascending number, equal numbers as inserted. */
  function Ordered<T>(s: seq<T>, number: T -> int): (r: seq<T>)
    ensures |r| == |s|
    decreases |s|
  {
    if s == [] then [] else Insert(Ordered(s[..|s| - 1], number), s[|s| - 1], number)
  }

  ghost predicate Ascending<T(!new)>(s: seq<T>, number: T -> int) {
    forall i, j :: 0 <= i < j < |s| ==> number(s[i]) <= number(s[j])
  }

  lemma {:induction false} InsertHolds<T>(s: seq<T>, x: T, number: T -> int, y: T)
    ensures y in Insert(s, x, number) <==> y in s || y == x
    decreases |s|
  {
    if s != [] && !(number(s[|s| - 1]) <= number(x)) {
      InsertHolds(s[..|s| - 1], x, number, y);
      assert s == s[..|s| - 1] + [s[|s| - 1]];
    }
  }

  lemma {:induction false} InsertAscends<T(!new)>(s: seq<T>, x: T, number: T -> int)
    requires Ascending(s, number)
    ensures Ascending(Insert(s, x, number), number)
    decreases |s|
  {
    if s != [] && !(number(s[|s| - 1]) <= number(x)) {
      var init, last := s[..|s| - 1], s[|s| - 1];
      InsertAscends(init, x, number);
      forall y | y in Insert(init, x, number) ensures number(y) <= number(last) { InsertHolds(init, x, number, y); }
    }
  }

  /** The reading is ascending and holds just the stored rows. */
  lemma {:induction false} OrderedSorts<T(!new)>(s: seq<T>, number: T -> int)
    ensures Ascending(Ordered(s, number), number)
    ensures forall y :: y in Ordered(s, number) <==> y in s
    decreases |s|
  {
    if s != [] {
      var init, last := s[..|s| - 1], s[|s| - 1];
      OrderedSorts(init, number);
      InsertAscends(Ordered(init, number), last, number);
      assert s == init + [last];
      forall y ensures y in Ordered(s, number) <==> y in s { InsertHolds(Ordered(init, number), last, number, y); }
    }
  }

  /** Rows inserted in ascending order are read as inserted. */
  lemma {:induction false} OrderedStays<T(!new)>(s: seq<T>, number: T -> int)
    requires Ascending(s, number)
    ensures Ordered(s, number) == s
    decreases |s|
  {
    if s != [] { OrderedStays(s[..|s| - 1], number); }
  }

  function RowNumber<T>(number: T -> int): Keyed<T> -> int { (k: Keyed<T>) => number(k.row) }

  function OrderedTable<T>(rows: seq<Keyed<T>>, number: T -> int): seq<Keyed<T>> {
    Ordered(rows, RowNumber(number))
  }

  lemma {:induction false} OfHolds<T>(rows: seq<Keyed<T>>, order: string, y: T)
    requires y in Of(rows, order)
    ensures Keyed(order, y) in rows
    decreases |rows|
  {
    if rows[|rows| - 1] != Keyed(order, y) { OfHolds(rows[..|rows| - 1], order, y); }
  }

  lemma InsertBefore<T>(s: seq<T>, last: T, x: T, number: T -> int)
    requires number(x) < number(last)
    ensures Insert(s + [last], x, number) == Insert(s, x, number) + [last]
  {
    assert (s + [last])[..|s|] == s;
  }

  lemma OrderedOne<T>(s: seq<T>, x: T, number: T -> int)
    ensures Ordered(s + [x], number) == Insert(Ordered(s, number), x, number)
  {
    assert (s + [x])[..|s|] == s;
  }

  /** An order's own rows end no later than the table. */
  lemma OwnEndsBefore<T(!new)>(rows: seq<Keyed<T>>, number: T -> int, order: string)
    requires Ascending(rows, RowNumber(number)) && Of(rows, order) != []
    ensures rows != [] && number(Of(rows, order)[|Of(rows, order)| - 1]) <= number(rows[|rows| - 1].row)
  {
    var own := Of(rows, order);
    OfHolds(rows, order, own[|own| - 1]);
    var i :| 0 <= i < |rows| && rows[i] == Keyed(order, own[|own| - 1]);
    assert RowNumber(number)(rows[i]) <= RowNumber(number)(rows[|rows| - 1]);
  }

  lemma {:induction false} OfInsert<T(!new)>(rows: seq<Keyed<T>>, k: Keyed<T>, number: T -> int, order: string)
    requires Ascending(rows, RowNumber(number))
    ensures Of(Insert(rows, k, RowNumber(number)), order) ==
            if k.order == order then Insert(Of(rows, order), k.row, number) else Of(rows, order)
    decreases |rows|
  {
    var key := RowNumber(number);
    if rows == [] || key(rows[|rows| - 1]) <= key(k) {
      OfAppend(rows, k, order);
      if Of(rows, order) != [] { OwnEndsBefore(rows, number, order); }
    } else {
      var init, last := rows[..|rows| - 1], rows[|rows| - 1];
      OfInsert(init, k, number, order);
      OfInsertBefore(init, last, k, number, order);
      assert rows == init + [last];
    }
  }

  /** A row that goes before the last one goes among the rows before it. */
  lemma OfInsertBefore<T(!new)>(init: seq<Keyed<T>>, last: Keyed<T>, k: Keyed<T>, number: T -> int, order: string)
    requires number(k.row) < number(last.row)
    requires Of(Insert(init, k, RowNumber(number)), order) ==
             if k.order == order then Insert(Of(init, order), k.row, number) else Of(init, order)
    ensures Of(Insert(init + [last], k, RowNumber(number)), order) ==
            if k.order == order then Insert(Of(init + [last], order), k.row, number) else Of(init + [last], order)
  {
    InsertBefore(init, last, k, RowNumber(number));
    OfAppend(Insert(init, k, RowNumber(number)), last, order);
    OfAppend(init, last, order);
    if last.order == order && k.order == order { InsertBefore(Of(init, order), last.row, k.row, number); }
  }

  lemma OfOrderedOne<T(!new)>(init: seq<Keyed<T>>, last: Keyed<T>, number: T -> int, order: string)
    requires Of(OrderedTable(init, number), order) == Ordered(Of(init, order), number)
    ensures Of(OrderedTable(init + [last], number), order) == Ordered(Of(init + [last], order), number)
  {
    var sorted := Ordered(init, RowNumber(number));
    OrderedSorts(init, RowNumber(number));
    OrderedOne(init, last, RowNumber(number));
    OfInsert(sorted, last, number, order);
    OfAppend(init, last, order);
    if last.order == order { OrderedOne(Of(init, order), last.row, number); }
  }

  /** Sorting the table is sorting each order's rows. */
  lemma {:induction false} OfOrdered<T(!new)>(rows: seq<Keyed<T>>, number: T -> int, order: string)
    ensures Of(OrderedTable(rows, number), order) == Ordered(Of(rows, order), number)
    decreases |rows|
  {
    if rows != [] {
      var init := rows[..|rows| - 1];
      OfOrdered(init, number, order);
      OfOrderedOne(init, rows[|rows| - 1], number, order);
      assert rows == init + [rows[|rows| - 1]];
    }
  }
}
