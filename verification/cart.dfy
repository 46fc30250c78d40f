/** The cart engine: merge-on-add, first-match quantity update, and removal
    by line id, as pure functions from a cart to the cart written back. */
module Cart {
  import opened Base
  import opened Entities

  /** What the add operation merges on. `option2` is an ordered list, so the
      same selections in another order are a different choice. */
  datatype Choice = Choice(menuId: string, option1: Option<string>, option2: seq<string>)

  function ChoiceOf(line: CartLine): Choice {
    Choice(line.menuId, line.option1, line.option2)
  }

  predicate HasChoice(cart: seq<CartLine>, choice: Choice) {
    exists j :: 0 <= j < |cart| && ChoiceOf(cart[j]) == choice
  }

  predicate HasItemId(cart: seq<CartLine>, itemId: string) {
    exists j :: 0 <= j < |cart| && cart[j].itemId == itemId
  }

  /** At most one line per choice: the invariant the merge rule keeps. */
  predicate ChoicesUnique(cart: seq<CartLine>) {
    forall i, j :: 0 <= i < j < |cart| ==> ChoiceOf(cart[i]) != ChoiceOf(cart[j])
  }

  /** No two lines share a line id. */
  predicate ItemIdsUnique(cart: seq<CartLine>) {
    forall i, j :: 0 <= i < j < |cart| ==> cart[i].itemId != cart[j].itemId
  }

  predicate WellFormed(cart: seq<CartLine>) {
    ChoicesUnique(cart) && ItemIdsUnique(cart)
  }

  /** Index of the first line carrying `choice`, or |cart| when none does. */
  function FindChoice(cart: seq<CartLine>, choice: Choice): (i: nat)
    ensures i <= |cart|
    ensures forall j :: 0 <= j < i ==> ChoiceOf(cart[j]) != choice
    ensures i < |cart| ==> ChoiceOf(cart[i]) == choice
  {
    if |cart| == 0 then 0
    else if ChoiceOf(cart[0]) == choice then 0
    else 1 + FindChoice(cart[1..], choice)
  }

  /** Index of the first line for `menuId`, whatever its options, or |cart| when none is. */
  function FindMenu(cart: seq<CartLine>, menuId: string): (i: nat)
    ensures i <= |cart|
    ensures forall j :: 0 <= j < i ==> cart[j].menuId != menuId
    ensures i < |cart| ==> cart[i].menuId == menuId
  {
    if |cart| == 0 then 0
    else if cart[0].menuId == menuId then 0
    else 1 + FindMenu(cart[1..], menuId)
  }

  /** Adding `quantity` of `choice`: the first line with the same choice grows
      by `quantity`; without one, a new line with id `freshId` goes at the end.
      `freshId` stands for the random identifier the handler draws with `uuid4()`. */
  function AddToCart(cart: seq<CartLine>, freshId: string, choice: Choice, quantity: int): (r: seq<CartLine>)
    ensures HasChoice(cart, choice) ==>
      |r| == |cart| &&
      var i := FindChoice(cart, choice);
      r[i] == cart[i].(quantity := cart[i].quantity + quantity) &&
      forall j :: 0 <= j < |cart| && j != i ==> r[j] == cart[j]
    ensures !HasChoice(cart, choice) ==>
      |r| == |cart| + 1 && r[..|cart|] == cart &&
      r[|cart|] == CartLine(freshId, choice.menuId, quantity, choice.option1, choice.option2)
  {
    var i := FindChoice(cart, choice);
    if i < |cart| then cart[i := cart[i].(quantity := cart[i].quantity + quantity)]
    else cart + [CartLine(freshId, choice.menuId, quantity, choice.option1, choice.option2)]
  }

  /** Setting the quantity for `menuId`: only the first line for that menu
      entry changes, whatever its options; no such line leaves the cart as it is. */
  function UpdateQuantity(cart: seq<CartLine>, menuId: string, quantity: int): (r: seq<CartLine>)
    ensures |r| == |cart|
    ensures forall j :: 0 <= j < |cart| && j != FindMenu(cart, menuId) ==> r[j] == cart[j]
    ensures FindMenu(cart, menuId) < |cart| ==>
      r[FindMenu(cart, menuId)] == cart[FindMenu(cart, menuId)].(quantity := quantity)
    ensures (forall j :: 0 <= j < |cart| ==> cart[j].menuId != menuId) ==> r == cart
  {
    var i := FindMenu(cart, menuId);
    if i < |cart| then cart[i := cart[i].(quantity := quantity)] else cart
  }

  /** Pulling every line whose line id is `itemId`. */
  function RemoveItem(cart: seq<CartLine>, itemId: string): (r: seq<CartLine>)
    ensures |r| <= |cart|
    ensures forall j :: 0 <= j < |r| ==> r[j].itemId != itemId
    ensures forall line :: line in r <==> line in cart && line.itemId != itemId
    ensures !HasItemId(cart, itemId) ==> r == cart
  {
    if |cart| == 0 then []
    else if cart[0].itemId == itemId then RemoveItem(cart[1..], itemId)
    else [cart[0]] + RemoveItem(cart[1..], itemId)
  }

  // ---------------------------------------------------------------------------
  // Adding
  // ---------------------------------------------------------------------------

  /** Adding never creates a second line for a choice, and keeps line ids
      distinct when the generated id is new to the cart. */
  lemma AddToCartKeepsWellFormed(cart: seq<CartLine>, freshId: string, choice: Choice, quantity: int)
    requires WellFormed(cart)
    requires !HasItemId(cart, freshId)
    ensures WellFormed(AddToCart(cart, freshId, choice, quantity))
  {
    var r := AddToCart(cart, freshId, choice, quantity);
    if HasChoice(cart, choice) {
      var k := FindChoice(cart, choice);
      forall j | 0 <= j < |r|
        ensures ChoiceOf(r[j]) == ChoiceOf(cart[j]) && r[j].itemId == cart[j].itemId
      {
        if j != k { assert r[j] == cart[j]; }
      }
    } else {
      forall i, j | 0 <= i < j < |r|
        ensures ChoiceOf(r[i]) != ChoiceOf(r[j]) && r[i].itemId != r[j].itemId
      {
        assert r[i] == cart[i];
        if j < |cart| {
          assert r[j] == cart[j];
        } else {
          assert ChoiceOf(r[j]) == choice && r[j].itemId == freshId;
        }
      }
    }
  }

  /** Adding the same choice twice is adding the summed quantity once: the
      second add merges into the line the first one produced. */
  lemma AddTwiceMerges(cart: seq<CartLine>, id1: string, id2: string, choice: Choice, q1: int, q2: int)
    ensures AddToCart(AddToCart(cart, id1, choice, q1), id2, choice, q2)
         == AddToCart(cart, id1, choice, q1 + q2)
  {
    var r1 := AddToCart(cart, id1, choice, q1);
    var r2 := AddToCart(r1, id2, choice, q2);
    var r := AddToCart(cart, id1, choice, q1 + q2);
    var i := FindChoice(cart, choice);
    if HasChoice(cart, choice) {
      assert ChoiceOf(r1[i]) == choice;
      assert HasChoice(r1, choice);
      var k := FindChoice(r1, choice);
      assert k == i;
      assert |r2| == |r|;
      forall j | 0 <= j < |r| ensures r2[j] == r[j] {
        if j != i { assert r1[j] == cart[j]; }
      }
    } else {
      assert ChoiceOf(r1[|cart|]) == choice;
      assert HasChoice(r1, choice);
      var k := FindChoice(r1, choice);
      assert k == |cart|;
      assert |r2| == |r|;
      forall j | 0 <= j < |r| ensures r2[j] == r[j] {
        if j < |cart| { assert r1[j] == cart[j]; }
      }
    }
  }

  // ---------------------------------------------------------------------------
  // Setting a quantity
  // ---------------------------------------------------------------------------

  /** A quantity update changes no line's id or choice, so it keeps the cart well formed. */
  lemma UpdateQuantityKeepsWellFormed(cart: seq<CartLine>, menuId: string, quantity: int)
    requires WellFormed(cart)
    ensures WellFormed(UpdateQuantity(cart, menuId, quantity))
  {
    var r := UpdateQuantity(cart, menuId, quantity);
    var k := FindMenu(cart, menuId);
    forall j | 0 <= j < |r|
      ensures ChoiceOf(r[j]) == ChoiceOf(cart[j]) && r[j].itemId == cart[j].itemId
    {
      if j != k { assert r[j] == cart[j]; }
    }
  }

  /** Setting the quantity back to the value the first matching line had
      before restores the cart exactly. */
  lemma UpdateQuantityUndo(cart: seq<CartLine>, menuId: string, quantity: int)
    requires FindMenu(cart, menuId) < |cart|
    ensures UpdateQuantity(UpdateQuantity(cart, menuId, quantity), menuId,
                           cart[FindMenu(cart, menuId)].quantity) == cart
  {
    var i := FindMenu(cart, menuId);
    var r1 := UpdateQuantity(cart, menuId, quantity);
    var k := FindMenu(r1, menuId);
    assert r1[i].menuId == menuId;
    assert k == i;
    var r2 := UpdateQuantity(r1, menuId, cart[i].quantity);
    forall j | 0 <= j < |cart| ensures r2[j] == cart[j] {
      if j != i { assert r1[j] == cart[j]; }
    }
  }

  // ---------------------------------------------------------------------------
  // Removing
  // ---------------------------------------------------------------------------

  /** Removal works line by line, so the lines that stay keep their relative order. */
  lemma {:induction false} RemoveItemKeepsOrder(a: seq<CartLine>, b: seq<CartLine>, itemId: string)
    ensures RemoveItem(a + b, itemId) == RemoveItem(a, itemId) + RemoveItem(b, itemId)
    decreases |a|
  {
    if |a| == 0 {
      assert a + b == b;
    } else {
      assert (a + b)[1..] == a[1..] + b;
      assert (a + b)[0] == a[0];
      RemoveItemKeepsOrder(a[1..], b, itemId);
    }
  }

  /** A line clashing with no line of a well-formed cart may head it. */
  lemma ConsWellFormed(x: CartLine, rest: seq<CartLine>)
    requires WellFormed(rest)
    requires forall k :: 0 <= k < |rest| ==> ChoiceOf(x) != ChoiceOf(rest[k]) && x.itemId != rest[k].itemId
    ensures WellFormed([x] + rest)
  {
    var r := [x] + rest;
    forall i, j | 0 <= i < j < |r|
      ensures ChoiceOf(r[i]) != ChoiceOf(r[j]) && r[i].itemId != r[j].itemId
    {
      if i == 0 {
        assert r[j] == rest[j - 1];
      } else {
        assert r[i] == rest[i - 1] && r[j] == rest[j - 1];
      }
    }
  }

  lemma TailWellFormed(cart: seq<CartLine>)
    requires WellFormed(cart) && |cart| > 0
    ensures WellFormed(cart[1..])
    ensures forall k :: 1 <= k < |cart| ==> ChoiceOf(cart[0]) != ChoiceOf(cart[k]) && cart[0].itemId != cart[k].itemId
  {
    var rest := cart[1..];
    forall i, j | 0 <= i < j < |rest|
      ensures ChoiceOf(rest[i]) != ChoiceOf(rest[j]) && rest[i].itemId != rest[j].itemId
    {
      assert rest[i] == cart[i + 1] && rest[j] == cart[j + 1];
    }
  }

  /** Removing lines keeps the cart well formed. */
  lemma {:induction false} RemoveItemKeepsWellFormed(cart: seq<CartLine>, itemId: string)
    requires WellFormed(cart)
    ensures WellFormed(RemoveItem(cart, itemId))
    decreases |cart|
  {
    if |cart| > 0 {
      var rest := cart[1..];
      TailWellFormed(cart);
      RemoveItemKeepsWellFormed(rest, itemId);
      var tail := RemoveItem(rest, itemId);
      if cart[0].itemId != itemId {
        forall k | 0 <= k < |tail|
          ensures ChoiceOf(cart[0]) != ChoiceOf(tail[k]) && cart[0].itemId != tail[k].itemId
        {
          assert tail[k] in rest;
          var m :| 0 <= m < |rest| && rest[m] == tail[k];
          assert rest[m] == cart[m + 1];
        }
        ConsWellFormed(cart[0], tail);
      }
    }
  }

  /** With distinct line ids, removing a present id drops exactly one line. */
  lemma {:induction false} RemoveItemDropsOne(cart: seq<CartLine>, itemId: string)
    requires ItemIdsUnique(cart)
    requires HasItemId(cart, itemId)
    ensures |RemoveItem(cart, itemId)| == |cart| - 1
    decreases |cart|
  {
    var rest := cart[1..];
    if cart[0].itemId == itemId {
      assert !HasItemId(rest, itemId) by {
        forall j | 0 <= j < |rest| ensures rest[j].itemId != itemId {
          assert rest[j] == cart[j + 1];
        }
      }
    } else {
      var m :| 0 <= m < |cart| && cart[m].itemId == itemId;
      assert rest[m - 1] == cart[m];
      assert ItemIdsUnique(rest) by {
        forall i, j | 0 <= i < j < |rest| ensures rest[i].itemId != rest[j].itemId {
          assert rest[i] == cart[i + 1] && rest[j] == cart[j + 1];
        }
      }
      RemoveItemDropsOne(rest, itemId);
    }
  }
}
