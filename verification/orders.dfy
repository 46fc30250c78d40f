/** Order numbering and the admin's order operations: status update and delete. */
module Orders {
  import opened Base
  import opened Entities

  /** The number a checkout gives its order: one more than the number of stored orders. */
  function NextOrderId(orders: seq<Order>): int {
    |orders| + 1
  }

  predicate IdTaken(orders: seq<Order>, orderId: int) {
    exists j :: 0 <= j < |orders| && orders[j].orderId == orderId
  }

  /** Orders numbered 1, 2, 3, ... in storage order, as checkouts alone leave them. */
  predicate DenseIds(orders: seq<Order>) {
    forall j :: 0 <= j < |orders| ==> orders[j].orderId == j + 1
  }

  /** Index of the first stored order with number `orderId`, or |orders| when none has it. */
  function FindOrder(orders: seq<Order>, orderId: int): (i: nat)
    ensures i <= |orders|
    ensures forall j :: 0 <= j < i ==> orders[j].orderId != orderId
    ensures i < |orders| ==> orders[i].orderId == orderId
  {
    if |orders| == 0 then 0
    else if orders[0].orderId == orderId then 0
    else 1 + FindOrder(orders[1..], orderId)
  }

  /** Setting an order's status. A zero order number or an empty status is
      refused; otherwise the first order with that number takes the new status,
      whatever it had before, and an unknown number changes nothing. */
  function UpdateOrderStatus(orders: seq<Order>, orderId: int, status: string): (r: Result<seq<Order>>)
    ensures r.Err? <==> orderId == 0 || status == ""
    ensures r.Err? ==> r.error == MissingOrderIdOrStatus
    ensures r.Ok? ==> |r.value| == |orders|
    ensures r.Ok? ==>
      forall j :: 0 <= j < |orders| && j != FindOrder(orders, orderId) ==> r.value[j] == orders[j]
    ensures r.Ok? && FindOrder(orders, orderId) < |orders| ==>
      r.value[FindOrder(orders, orderId)] == orders[FindOrder(orders, orderId)].(status := status)
  {
    if orderId == 0 || status == "" then Err(MissingOrderIdOrStatus)
    else
      var i := FindOrder(orders, orderId);
      if i < |orders| then Ok(orders[i := orders[i].(status := status)]) else Ok(orders)
  }

  /** Deleting the first order with number `orderId`; an unknown number is refused. */
  function DeleteOrder(orders: seq<Order>, orderId: int): (r: Result<seq<Order>>)
    ensures r.Err? <==> !IdTaken(orders, orderId)
    ensures r.Err? ==> r.error == OrderNotFound
    ensures r.Ok? ==>
      var i := FindOrder(orders, orderId);
      && |r.value| == |orders| - 1
      && (forall j :: 0 <= j < i ==> r.value[j] == orders[j])
      && (forall j :: i <= j < |r.value| ==> r.value[j] == orders[j + 1])
  {
    var i := FindOrder(orders, orderId);
    if i < |orders| then Ok(orders[..i] + orders[i + 1..]) else Err(OrderNotFound)
  }

  /** After a status update, the order the number names reads back the new status. */
  lemma UpdateOrderStatusReadsBack(orders: seq<Order>, orderId: int, status: string)
    requires orderId != 0 && status != ""
    requires IdTaken(orders, orderId)
    ensures var r := UpdateOrderStatus(orders, orderId, status).value;
      FindOrder(r, orderId) == FindOrder(orders, orderId)
      && r[FindOrder(r, orderId)].status == status
  {
    var r := UpdateOrderStatus(orders, orderId, status).value;
    var i := FindOrder(orders, orderId);
    assert r[i].orderId == orderId;
    assert FindOrder(r, orderId) <= i;
    var k := FindOrder(r, orderId);
    assert r[k] == orders[k] || k == i;
  }

  /** Status updates never renumber orders. */
  lemma UpdateOrderStatusKeepsIdsDense(orders: seq<Order>, orderId: int, status: string)
    requires DenseIds(orders)
    ensures UpdateOrderStatus(orders, orderId, status).Ok? ==>
      DenseIds(UpdateOrderStatus(orders, orderId, status).value)
  {
    var r := UpdateOrderStatus(orders, orderId, status);
    if r.Ok? {
      var i := FindOrder(orders, orderId);
      forall j | 0 <= j < |orders| ensures r.value[j].orderId == j + 1 {
        if j != i { assert r.value[j] == orders[j]; }
      }
    }
  }

  /** While orders are numbered 1..n in storage order, the next number is new. */
  lemma DenseIdsGiveFreshNumber(orders: seq<Order>)
    requires DenseIds(orders)
    ensures !IdTaken(orders, NextOrderId(orders))
  {
  }

  /** Deleting any order but the newest and then checking out reissues the
      newest order's number: the count-plus-one rule gives a number that is
      still taken. */
  lemma DeleteThenAllocateReissues(orders: seq<Order>, orderId: int)
    requires DenseIds(orders)
    requires 1 <= orderId < |orders|
    ensures DeleteOrder(orders, orderId).Ok?
    ensures IdTaken(DeleteOrder(orders, orderId).value, NextOrderId(DeleteOrder(orders, orderId).value))
  {
    assert orders[orderId - 1].orderId == orderId;
    var r := DeleteOrder(orders, orderId).value;
    assert r[|r| - 1] == orders[|orders| - 1];
  }
}
