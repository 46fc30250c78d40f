/** The admin order report: orders grouped by order number with their values
    added, then ordered by status rank and newest first. */
module Report {
  import opened Base
  import opened Entities
  import opened Pricing
  import opened Orders

  /** One report row: the first order with the number supplies the customer
      name, date and status; every order with the number adds its items and value. */
  datatype Row = Row(orderId: int, name: string, items: seq<OrderLine>, value: int, date: int, status: string)

  /** NEW before IN-PROGRESS before COMPLETED before any other status. */
  function StatusRank(status: string): nat {
    if status == "NEW" then 1
    else if status == "IN-PROGRESS" then 2
    else if status == "COMPLETED" then 3
    else 4
  }

  /** Every order's customer has a user record, so every name lookup succeeds. */
  predicate NamesKnown(users: map<string, User>, orders: seq<Order>) {
    forall j :: 0 <= j < |orders| ==> orders[j].userEmail in users
  }

  predicate HasRow(rows: seq<Row>, orderId: int) {
    exists i :: 0 <= i < |rows| && rows[i].orderId == orderId
  }

  predicate RowIdsDistinct(rows: seq<Row>) {
    forall i, j :: 0 <= i < j < |rows| ==> rows[i].orderId != rows[j].orderId
  }

  /** Σ of the item values of all orders numbered `orderId`. */
  function GroupValue(orders: seq<Order>, orderId: int): int {
    if |orders| == 0 then 0
    else
      var o := orders[|orders| - 1];
      GroupValue(orders[..|orders| - 1], orderId) + (if o.orderId == orderId then ItemsValue(o.items) else 0)
  }

  /** The items of all orders numbered `orderId`, in storage order. */
  function GroupItems(orders: seq<Order>, orderId: int): seq<OrderLine> {
    if |orders| == 0 then []
    else
      var o := orders[|orders| - 1];
      GroupItems(orders[..|orders| - 1], orderId) + (if o.orderId == orderId then o.items else [])
  }

  /** The row takes its name, date and status from the first order with its number. */
  predicate FromFirstOrder(users: map<string, User>, orders: seq<Order>, row: Row) {
    && FindOrder(orders, row.orderId) < |orders|
    && var o := orders[FindOrder(orders, row.orderId)];
    && o.userEmail in users
    && row.name == users[o.userEmail].name
    && row.date == o.timestamp
    && row.status == o.status
  }

  /** Index of the row for `orderId`, or |rows| when there is none yet. */
  function FindRow(rows: seq<Row>, orderId: int): (i: nat)
    ensures i <= |rows|
    ensures forall j :: 0 <= j < i ==> rows[j].orderId != orderId
    ensures i < |rows| ==> rows[i].orderId == orderId
  {
    if |rows| == 0 then 0
    else if rows[0].orderId == orderId then 0
    else 1 + FindRow(rows[1..], orderId)
  }

  /** `row` with the items and value of one more order of its number added. */
  function Merged(row: Row, o: Order): Row {
    row.(items := row.items + o.items, value := row.value + ItemsValue(o.items))
  }

  /** The row an order opens for its number: named after `customer`. */
  function Opened(customer: User, o: Order): Row {
    Row(o.orderId, customer.name, o.items, ItemsValue(o.items), o.timestamp, o.status)
  }

  /** The grouping pass, one order at a time in storage order. */
  function GroupRows(users: map<string, User>, orders: seq<Order>): seq<Row>
    requires NamesKnown(users, orders)
  {
    if |orders| == 0 then []
    else
      var rows := GroupRows(users, orders[..|orders| - 1]);
      var o := orders[|orders| - 1];
      var i := FindRow(rows, o.orderId);
      if i < |rows| then rows[i := Merged(rows[i], o)]
      else rows + [Opened(users[o.userEmail], o)]
  }

  // ---------------------------------------------------------------------------
  // Grouping
  // ---------------------------------------------------------------------------

  lemma FindOrderExtend(orders: seq<Order>, o: Order, orderId: int)
    ensures IdTaken(orders, orderId) ==> FindOrder(orders + [o], orderId) == FindOrder(orders, orderId)
    ensures !IdTaken(orders, orderId) && o.orderId == orderId ==> FindOrder(orders + [o], orderId) == |orders|
  {
    var all := orders + [o];
    var k := FindOrder(all, orderId);
    var i := FindOrder(orders, orderId);
    if IdTaken(orders, orderId) {
      assert all[i] == orders[i];
      assert k <= i;
      assert all[k] == orders[k];
    } else if o.orderId == orderId {
      assert all[|orders|] == o;
      assert k <= |orders|;
    }
  }

  lemma {:induction false} GroupOfAbsent(orders: seq<Order>, orderId: int)
    requires !IdTaken(orders, orderId)
    ensures GroupValue(orders, orderId) == 0
    ensures GroupItems(orders, orderId) == []
    decreases |orders|
  {
    if |orders| > 0 {
      var prev := orders[..|orders| - 1];
      assert !IdTaken(prev, orderId) by {
        forall j | 0 <= j < |prev| ensures prev[j].orderId != orderId {
          assert prev[j] == orders[j];
        }
      }
      GroupOfAbsent(prev, orderId);
    }
  }

  /** What the grouping promises of `rows`: one row per order number present,
      each holding the sum of the values and the items of all orders with that
      number, with name, date and status taken from the first of them. */
  ghost predicate Summarises(users: map<string, User>, orders: seq<Order>, rows: seq<Row>) {
    && RowIdsDistinct(rows)
    && (forall id :: HasRow(rows, id) <==> IdTaken(orders, id))
    && RowsCorrect(users, orders, rows)
  }

  /** Each row holds its number's summed value and items and its first order's details. */
  predicate RowsCorrect(users: map<string, User>, orders: seq<Order>, rows: seq<Row>) {
    forall i :: 0 <= i < |rows| ==>
      rows[i].value == GroupValue(orders, rows[i].orderId)
      && rows[i].items == GroupItems(orders, rows[i].orderId)
      && FromFirstOrder(users, orders, rows[i])
  }

  lemma TakenAfterAppend(prev: seq<Order>, o: Order)
    ensures forall id :: IdTaken(prev + [o], id) <==> IdTaken(prev, id) || o.orderId == id
    ensures forall id :: IdTaken(prev, id) ==> FindOrder(prev + [o], id) == FindOrder(prev, id)
  {
    var orders := prev + [o];
    forall id ensures IdTaken(orders, id) <==> IdTaken(prev, id) || o.orderId == id {
      if IdTaken(orders, id) && o.orderId != id {
        var j :| 0 <= j < |orders| && orders[j].orderId == id;
        assert prev[j] == orders[j];
      }
      if IdTaken(prev, id) {
        var j :| 0 <= j < |prev| && prev[j].orderId == id;
        assert orders[j] == prev[j];
      }
      if o.orderId == id {
        assert orders[|prev|] == o;
      }
    }
    forall id | IdTaken(prev, id) ensures FindOrder(orders, id) == FindOrder(prev, id) {
      FindOrderExtend(prev, o, id);
    }
  }

  /** Replacing a row by one with the same number keeps the set of numbers. */
  lemma ReplaceRowIds(rows: seq<Row>, i: nat, r: Row)
    requires i < |rows| && r.orderId == rows[i].orderId
    requires RowIdsDistinct(rows)
    ensures RowIdsDistinct(rows[i := r])
    ensures forall id :: HasRow(rows[i := r], id) <==> HasRow(rows, id)
  {
    var out := rows[i := r];
    forall id ensures HasRow(out, id) <==> HasRow(rows, id) {
      if HasRow(out, id) {
        var k :| 0 <= k < |out| && out[k].orderId == id;
        assert rows[k].orderId == id;
      }
      if HasRow(rows, id) {
        var k :| 0 <= k < |rows| && rows[k].orderId == id;
        assert out[k].orderId == id;
      }
    }
  }

  /** Appending a row with a new number adds that number and keeps them distinct. */
  lemma AppendRowIds(rows: seq<Row>, r: Row)
    requires RowIdsDistinct(rows) && !HasRow(rows, r.orderId)
    ensures RowIdsDistinct(rows + [r])
    ensures forall id :: HasRow(rows + [r], id) <==> HasRow(rows, id) || r.orderId == id
  {
    var out := rows + [r];
    forall id ensures HasRow(out, id) <==> HasRow(rows, id) || r.orderId == id {
      if HasRow(out, id) {
        var k :| 0 <= k < |out| && out[k].orderId == id;
        if k < |rows| { assert rows[k].orderId == id; }
      }
      if HasRow(rows, id) {
        var k :| 0 <= k < |rows| && rows[k].orderId == id;
        assert out[k].orderId == id;
      }
      if r.orderId == id {
        assert out[|rows|].orderId == id;
      }
    }
    forall a, b | 0 <= a < b < |out| ensures out[a].orderId != out[b].orderId {
      if b == |rows| {
        assert out[a] == rows[a];
        assert HasRow(rows, rows[a].orderId);
      }
    }
  }

  /** One more order adds its value and items to its own number only. */
  lemma GroupAppend(prev: seq<Order>, o: Order, orderId: int)
    ensures GroupValue(prev + [o], orderId)
         == GroupValue(prev, orderId) + (if o.orderId == orderId then ItemsValue(o.items) else 0)
    ensures GroupItems(prev + [o], orderId)
         == GroupItems(prev, orderId) + (if o.orderId == orderId then o.items else [])
  {
    assert (prev + [o])[..|prev|] == prev;
  }

  /** A later order does not change which order is the first with a number. */
  lemma FromFirstAppend(users: map<string, User>, prev: seq<Order>, o: Order, row: Row)
    requires FromFirstOrder(users, prev, row)
    ensures FromFirstOrder(users, prev + [o], row)
  {
    var f := FindOrder(prev, row.orderId);
    assert IdTaken(prev, row.orderId) by { assert prev[f].orderId == row.orderId; }
    FindOrderExtend(prev, o, row.orderId);
    assert (prev + [o])[f] == prev[f];
  }

  /** Folding an order into the row of its number keeps every row correct. */
  lemma MergeKeepsRowsCorrect(users: map<string, User>, prev: seq<Order>, o: Order, rows: seq<Row>, i: nat)
    requires RowsCorrect(users, prev, rows) && RowIdsDistinct(rows)
    requires i < |rows| && rows[i].orderId == o.orderId
    ensures RowsCorrect(users, prev + [o], rows[i := Merged(rows[i], o)])
  {
    var out := rows[i := Merged(rows[i], o)];
    forall k | 0 <= k < |out|
      ensures out[k].value == GroupValue(prev + [o], out[k].orderId)
      ensures out[k].items == GroupItems(prev + [o], out[k].orderId)
      ensures FromFirstOrder(users, prev + [o], out[k])
    {
      GroupAppend(prev, o, rows[k].orderId);
      FromFirstAppend(users, prev, o, rows[k]);
    }
  }

  /** Appending the row an order with a new number opens keeps every row correct. */
  lemma OpenKeepsRowsCorrect(users: map<string, User>, prev: seq<Order>, o: Order, rows: seq<Row>)
    requires RowsCorrect(users, prev, rows)
    requires o.userEmail in users
    requires !HasRow(rows, o.orderId) && !IdTaken(prev, o.orderId)
    ensures RowsCorrect(users, prev + [o], rows + [Opened(users[o.userEmail], o)])
  {
    var orders := prev + [o];
    var out := rows + [Opened(users[o.userEmail], o)];
    forall k | 0 <= k < |rows|
      ensures out[k].value == GroupValue(orders, out[k].orderId)
      ensures out[k].items == GroupItems(orders, out[k].orderId)
      ensures FromFirstOrder(users, orders, out[k])
    {
      assert out[k] == rows[k];
      GroupAppend(prev, o, rows[k].orderId);
      FromFirstAppend(users, prev, o, rows[k]);
    }
    GroupOfAbsent(prev, o.orderId);
    GroupAppend(prev, o, o.orderId);
    FindOrderExtend(prev, o, o.orderId);
    assert orders[|prev|] == o;
  }

  /** An order whose number already has a row folds into that row. */
  lemma GroupStepMerge(users: map<string, User>, prev: seq<Order>, o: Order)
    requires NamesKnown(users, prev + [o])
    requires NamesKnown(users, prev)
    requires Summarises(users, prev, GroupRows(users, prev))
    requires FindRow(GroupRows(users, prev), o.orderId) < |GroupRows(users, prev)|
    ensures Summarises(users, prev + [o], GroupRows(users, prev + [o]))
  {
    var orders := prev + [o];
    assert orders[..|orders| - 1] == prev;
    var rows := GroupRows(users, prev);
    var i := FindRow(rows, o.orderId);
    assert GroupRows(users, orders) == rows[i := Merged(rows[i], o)];
    MergeKeepsRowsCorrect(users, prev, o, rows, i);
    ReplaceRowIds(rows, i, Merged(rows[i], o));
    TakenAfterAppend(prev, o);
    assert IdTaken(prev, o.orderId) by { assert HasRow(rows, o.orderId); }
  }

  /** An order with a number not seen before opens a new row at the end. */
  lemma GroupStepOpen(users: map<string, User>, prev: seq<Order>, o: Order)
    requires NamesKnown(users, prev + [o])
    requires NamesKnown(users, prev)
    requires Summarises(users, prev, GroupRows(users, prev))
    requires FindRow(GroupRows(users, prev), o.orderId) == |GroupRows(users, prev)|
    ensures Summarises(users, prev + [o], GroupRows(users, prev + [o]))
  {
    var orders := prev + [o];
    assert orders[..|orders| - 1] == prev;
    assert orders[|prev|] == o;
    var rows := GroupRows(users, prev);
    var r := Opened(users[o.userEmail], o);
    assert GroupRows(users, orders) == rows + [r];
    assert !HasRow(rows, o.orderId);
    OpenKeepsRowsCorrect(users, prev, o, rows);
    AppendRowIds(rows, r);
    TakenAfterAppend(prev, o);
  }

  /** The grouping pass summarises the orders: see Summarises. */
  lemma {:induction false} GroupRowsSummarise(users: map<string, User>, orders: seq<Order>)
    requires NamesKnown(users, orders)
    ensures Summarises(users, orders, GroupRows(users, orders))
    decreases |orders|
  {
    if |orders| > 0 {
      var prev := orders[..|orders| - 1];
      var o := orders[|orders| - 1];
      assert orders == prev + [o];
      GroupRowsSummarise(users, prev);
      if FindRow(GroupRows(users, prev), o.orderId) < |GroupRows(users, prev)| {
        GroupStepMerge(users, prev, o);
      } else {
        GroupStepOpen(users, prev, o);
      }
    }
  }

  /** Rows appear in the order their numbers first occur among the orders,
      as a dictionary keeps its keys in insertion order. */
  predicate InFirstOrder(orders: seq<Order>, rows: seq<Row>) {
    forall a, b :: 0 <= a < b < |rows| ==> FindOrder(orders, rows[a].orderId) < FindOrder(orders, rows[b].orderId)
  }

  /** A number already taken keeps its first position, which lies before the appended order. */
  lemma FirstOfTaken(prev: seq<Order>, o: Order, orderId: int)
    requires IdTaken(prev, orderId)
    ensures FindOrder(prev + [o], orderId) == FindOrder(prev, orderId) < |prev|
  {
    FindOrderExtend(prev, o, orderId);
  }

  lemma MergeKeepsFirstOrder(prev: seq<Order>, o: Order, rows: seq<Row>, i: nat)
    requires InFirstOrder(prev, rows) && i < |rows|
    requires forall k :: 0 <= k < |rows| ==> IdTaken(prev, rows[k].orderId)
    ensures InFirstOrder(prev + [o], rows[i := Merged(rows[i], o)])
  {
    var out := rows[i := Merged(rows[i], o)];
    forall a, b | 0 <= a < b < |out|
      ensures FindOrder(prev + [o], out[a].orderId) < FindOrder(prev + [o], out[b].orderId)
    {
      assert out[a].orderId == rows[a].orderId && out[b].orderId == rows[b].orderId;
      FirstOfTaken(prev, o, rows[a].orderId);
      FirstOfTaken(prev, o, rows[b].orderId);
    }
  }

  lemma OpenKeepsFirstOrder(prev: seq<Order>, o: Order, rows: seq<Row>, r: Row)
    requires InFirstOrder(prev, rows)
    requires forall k :: 0 <= k < |rows| ==> IdTaken(prev, rows[k].orderId)
    requires r.orderId == o.orderId && !IdTaken(prev, o.orderId)
    ensures InFirstOrder(prev + [o], rows + [r])
  {
    var out := rows + [r];
    FindOrderExtend(prev, o, o.orderId);
    forall a, b | 0 <= a < b < |out|
      ensures FindOrder(prev + [o], out[a].orderId) < FindOrder(prev + [o], out[b].orderId)
    {
      assert out[a] == rows[a];
      FirstOfTaken(prev, o, rows[a].orderId);
      if b < |rows| {
        assert out[b] == rows[b];
        FirstOfTaken(prev, o, rows[b].orderId);
      } else {
        assert out[b] == r;
      }
    }
  }

  lemma GroupStepKeepsFirstOrder(users: map<string, User>, prev: seq<Order>, o: Order)
    requires NamesKnown(users, prev + [o])
    requires NamesKnown(users, prev)
    requires Summarises(users, prev, GroupRows(users, prev))
    requires InFirstOrder(prev, GroupRows(users, prev))
    ensures InFirstOrder(prev + [o], GroupRows(users, prev + [o]))
  {
    var orders := prev + [o];
    assert orders[..|orders| - 1] == prev;
    var rows := GroupRows(users, prev);
    var i := FindRow(rows, o.orderId);
    forall k | 0 <= k < |rows| ensures IdTaken(prev, rows[k].orderId) {
      assert HasRow(rows, rows[k].orderId);
    }
    if i < |rows| {
      assert GroupRows(users, orders) == rows[i := Merged(rows[i], o)];
      MergeKeepsFirstOrder(prev, o, rows, i);
    } else {
      assert orders[|prev|] == o;
      var r := Opened(users[o.userEmail], o);
      assert GroupRows(users, orders) == rows + [r];
      assert !HasRow(rows, o.orderId);
      OpenKeepsFirstOrder(prev, o, rows, r);
    }
  }

  /** The grouping pass lists the rows in the order their numbers first occur. */
  lemma {:induction false} GroupRowsInFirstOrder(users: map<string, User>, orders: seq<Order>)
    requires NamesKnown(users, orders)
    ensures InFirstOrder(orders, GroupRows(users, orders))
    decreases |orders|
  {
    if |orders| > 0 {
      var prev := orders[..|orders| - 1];
      var o := orders[|orders| - 1];
      assert orders == prev + [o];
      GroupRowsInFirstOrder(users, prev);
      GroupRowsSummarise(users, prev);
      GroupStepKeepsFirstOrder(users, prev, o);
    }
  }

  // ---------------------------------------------------------------------------
  // Ordering
  // ---------------------------------------------------------------------------

  /** `a` may come before `b`: a lower status rank, or the same rank and a date no older. */
  predicate RowBefore(a: Row, b: Row) {
    StatusRank(a.status) < StatusRank(b.status)
    || (StatusRank(a.status) == StatusRank(b.status) && a.date >= b.date)
  }

  predicate SortedRows(rows: seq<Row>) {
    forall i, j :: 0 <= i < j < |rows| ==> RowBefore(rows[i], rows[j])
  }

  /** `[r]` when `r` has the key (rank, date), otherwise nothing. */
  function KeyPart(r: Row, rank: nat, date: int): seq<Row> {
    if StatusRank(r.status) == rank && r.date == date then [r] else []
  }

  /** The rows of `rows` whose sort key is (rank, date), in their order. */
  function WithKey(rows: seq<Row>, rank: nat, date: int): seq<Row> {
    if |rows| == 0 then [] else KeyPart(rows[0], rank, date) + WithKey(rows[1..], rank, date)
  }

  lemma WithKeyCons(r: Row, rows: seq<Row>, rank: nat, date: int)
    ensures WithKey([r] + rows, rank, date) == KeyPart(r, rank, date) + WithKey(rows, rank, date)
  {
    assert ([r] + rows)[1..] == rows;
  }

  /** `x` placed after the rows whose key is strictly smaller than its own. */
  function Insert(x: Row, rows: seq<Row>): (r: seq<Row>)
    ensures multiset(r) == multiset(rows) + multiset{x}
  {
    if |rows| == 0 then [x]
    else if RowBefore(x, rows[0]) then [x] + rows
    else
      assert rows == [rows[0]] + rows[1..];
      [rows[0]] + Insert(x, rows[1..])
  }

  /** A stable sort of the rows by (status rank, newest date first). */
  function SortRows(rows: seq<Row>): (r: seq<Row>)
    ensures multiset(r) == multiset(rows)
  {
    if |rows| == 0 then []
    else
      assert rows == [rows[0]] + rows[1..];
      Insert(rows[0], SortRows(rows[1..]))
  }

  lemma RowBeforeTotal(a: Row, b: Row)
    ensures RowBefore(a, b) || RowBefore(b, a)
  {
  }

  lemma RowBeforeTransitive(a: Row, b: Row, c: Row)
    requires RowBefore(a, b) && RowBefore(b, c)
    ensures RowBefore(a, c)
  {
  }

  /** A row that may precede the head of sorted rows may precede all of them. */
  lemma ConsKeepsSorted(x: Row, rows: seq<Row>)
    requires SortedRows(rows)
    requires |rows| > 0 ==> RowBefore(x, rows[0])
    ensures SortedRows([x] + rows)
  {
    var r := [x] + rows;
    forall i, j | 0 <= i < j < |r| ensures RowBefore(r[i], r[j]) {
      if i == 0 {
        assert r[j] == rows[j - 1];
        if j > 1 { RowBeforeTransitive(x, rows[0], rows[j - 1]); }
      } else {
        assert r[i] == rows[i - 1] && r[j] == rows[j - 1];
      }
    }
  }

  lemma TailSorted(rows: seq<Row>)
    requires SortedRows(rows) && |rows| > 0
    ensures SortedRows(rows[1..])
  {
    var tail := rows[1..];
    forall i, j | 0 <= i < j < |tail| ensures RowBefore(tail[i], tail[j]) {
      assert tail[i] == rows[i + 1] && tail[j] == rows[j + 1];
    }
  }

  lemma {:induction false} InsertKeepsSorted(x: Row, rows: seq<Row>)
    requires SortedRows(rows)
    ensures SortedRows(Insert(x, rows))
    decreases |rows|
  {
    if |rows| == 0 || RowBefore(x, rows[0]) {
      ConsKeepsSorted(x, rows);
    } else {
      var tail := rows[1..];
      TailSorted(rows);
      InsertKeepsSorted(x, tail);
      var ins := Insert(x, tail);
      RowBeforeTotal(x, rows[0]);
      assert |ins| > 0 ==> RowBefore(rows[0], ins[0]) by {
        if |ins| > 0 && ins[0] != x {
          assert ins[0] in multiset(ins);
          assert ins[0] in multiset(tail);
          var m :| 0 <= m < |tail| && tail[m] == ins[0];
          assert tail[m] == rows[m + 1];
        }
      }
      ConsKeepsSorted(rows[0], ins);
    }
  }

  lemma {:induction false} SortRowsSorted(rows: seq<Row>)
    ensures SortedRows(SortRows(rows))
    decreases |rows|
  {
    if |rows| > 0 {
      SortRowsSorted(rows[1..]);
      InsertKeepsSorted(rows[0], SortRows(rows[1..]));
    }
  }

  lemma {:induction false} WithKeyInsert(x: Row, rows: seq<Row>, rank: nat, date: int)
    ensures WithKey(Insert(x, rows), rank, date) == KeyPart(x, rank, date) + WithKey(rows, rank, date)
    decreases |rows|
  {
    if |rows| == 0 || RowBefore(x, rows[0]) {
      assert Insert(x, rows) == [x] + rows;
      WithKeyCons(x, rows, rank, date);
    } else {
      var head, tail := rows[0], rows[1..];
      assert Insert(x, rows) == [head] + Insert(x, tail);
      assert WithKey(rows, rank, date) == KeyPart(head, rank, date) + WithKey(tail, rank, date);
      WithKeyInsert(x, tail, rank, date);
      WithKeyCons(head, Insert(x, tail), rank, date);
    }
  }

  /** Rows with equal keys leave the sort in the order they entered it. */
  lemma {:induction false} SortRowsStable(rows: seq<Row>, rank: nat, date: int)
    ensures WithKey(SortRows(rows), rank, date) == WithKey(rows, rank, date)
    decreases |rows|
  {
    if |rows| > 0 {
      SortRowsStable(rows[1..], rank, date);
      WithKeyInsert(rows[0], SortRows(rows[1..]), rank, date);
    }
  }

  lemma {:induction false} WithKeyIn(rows: seq<Row>, rank: nat, date: int)
    ensures forall x :: x in WithKey(rows, rank, date) ==> x in rows
    decreases |rows|
  {
    if |rows| > 0 {
      WithKeyIn(rows[1..], rank, date);
      assert forall x :: x in rows[1..] ==> x in rows;
    }
  }

  lemma TailInFirstOrder(orders: seq<Order>, rows: seq<Row>)
    requires InFirstOrder(orders, rows) && |rows| > 0
    ensures InFirstOrder(orders, rows[1..])
    ensures forall y :: y in rows[1..] ==> FindOrder(orders, rows[0].orderId) < FindOrder(orders, y.orderId)
  {
    var tail := rows[1..];
    forall a, b | 0 <= a < b < |tail|
      ensures FindOrder(orders, tail[a].orderId) < FindOrder(orders, tail[b].orderId)
    {
      assert tail[a] == rows[a + 1] && tail[b] == rows[b + 1];
    }
    forall y | y in tail ensures FindOrder(orders, rows[0].orderId) < FindOrder(orders, y.orderId) {
      var m :| 0 <= m < |tail| && tail[m] == y;
      assert tail[m] == rows[m + 1];
    }
  }

  lemma ConsInFirstOrder(orders: seq<Order>, x: Row, rest: seq<Row>)
    requires InFirstOrder(orders, rest)
    requires forall y :: y in rest ==> FindOrder(orders, x.orderId) < FindOrder(orders, y.orderId)
    ensures InFirstOrder(orders, [x] + rest)
  {
    var w := [x] + rest;
    forall a, b | 0 <= a < b < |w|
      ensures FindOrder(orders, w[a].orderId) < FindOrder(orders, w[b].orderId)
    {
      assert w[b] == rest[b - 1];
      if a > 0 {
        assert w[a] == rest[a - 1];
      }
    }
  }

  /** Keeping only the rows of one key keeps first-occurrence order. */
  lemma {:induction false} WithKeyInFirstOrder(orders: seq<Order>, rows: seq<Row>, rank: nat, date: int)
    requires InFirstOrder(orders, rows)
    ensures InFirstOrder(orders, WithKey(rows, rank, date))
    decreases |rows|
  {
    if |rows| > 0 {
      var tail := rows[1..];
      TailInFirstOrder(orders, rows);
      WithKeyInFirstOrder(orders, tail, rank, date);
      WithKeyIn(tail, rank, date);
      if |KeyPart(rows[0], rank, date)| == 1 {
        ConsInFirstOrder(orders, rows[0], WithKey(tail, rank, date));
      }
    }
  }

  /** The report: a missing customer record fails the whole request;
      otherwise the grouped rows, sorted by status rank and then newest first. */
  function DetailedReport(store: Store): (r: Result<seq<Row>>)
    ensures r.Err? <==> !NamesKnown(store.users, store.orders)
    ensures r.Err? ==> r.error == UserNotFound
    ensures r.Ok? ==> SortedRows(r.value)
    ensures r.Ok? ==> multiset(r.value) == multiset(GroupRows(store.users, store.orders))
  {
    if NamesKnown(store.users, store.orders) then
      var rows := SortRows(GroupRows(store.users, store.orders));
      SortRowsSorted(GroupRows(store.users, store.orders));
      Ok(rows)
    else Err(UserNotFound)
  }

  /** Reordering rows keeps each row correct and keeps the set of numbers. */
  lemma PermutedRows(users: map<string, User>, orders: seq<Order>, g: seq<Row>, rows: seq<Row>)
    requires multiset(rows) == multiset(g)
    requires RowsCorrect(users, orders, g)
    ensures RowsCorrect(users, orders, rows)
    ensures forall id :: HasRow(g, id) ==> HasRow(rows, id)
  {
    forall i | 0 <= i < |rows|
      ensures rows[i].value == GroupValue(orders, rows[i].orderId)
      ensures rows[i].items == GroupItems(orders, rows[i].orderId)
      ensures FromFirstOrder(users, orders, rows[i])
    {
      assert rows[i] in multiset(g);
      var k :| 0 <= k < |g| && g[k] == rows[i];
    }
    forall id | HasRow(g, id) ensures HasRow(rows, id) {
      var k :| 0 <= k < |g| && g[k].orderId == id;
      assert g[k] in multiset(rows);
      var m :| 0 <= m < |rows| && rows[m] == g[k];
    }
  }

  /** Every report row carries the summed value and items of its order
      number and the first such order's name, date and status, and every
      stored order number has a row. */
  lemma DetailedReportRows(store: Store)
    requires NamesKnown(store.users, store.orders)
    ensures var rows := DetailedReport(store).value;
      && RowsCorrect(store.users, store.orders, rows)
      && (forall j :: 0 <= j < |store.orders| ==> HasRow(rows, store.orders[j].orderId))
  {
    var g := GroupRows(store.users, store.orders);
    var rows := DetailedReport(store).value;
    GroupRowsSummarise(store.users, store.orders);
    PermutedRows(store.users, store.orders, g, rows);
    forall j | 0 <= j < |store.orders| ensures HasRow(rows, store.orders[j].orderId) {
      assert IdTaken(store.orders, store.orders[j].orderId);
    }
  }

  /** Report rows with the same (status rank, date) key appear in the order
      their numbers first occur among the stored orders. */
  lemma DetailedReportTies(store: Store, rank: nat, date: int)
    requires NamesKnown(store.users, store.orders)
    ensures InFirstOrder(store.orders, WithKey(DetailedReport(store).value, rank, date))
  {
    var g := GroupRows(store.users, store.orders);
    SortRowsStable(g, rank, date);
    GroupRowsInFirstOrder(store.users, store.orders);
    WithKeyInFirstOrder(store.orders, g, rank, date);
  }
}
