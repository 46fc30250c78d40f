# Buono Coffee cart-to-order engine, in Dafny

This project models the transaction core of the Buono Coffee storefront, a
Flask application over MongoDB. It covers:

- the per-user **cart**: merge-on-add, first-match quantity update, and removal by line id;
- **pricing**: the subtotal, the flat 10% tax of the stored-cart path, and the voucher rule;
- **checkout**: a cart becomes an order snapshot, sold counters grow, and the cart empties;
- order numbering, and the admin's **status update** and **delete** of orders;
- the **review gate**: one review per (item, user, order), plus the rating bucket it bumps;
- the integer part of the **rating aggregate**;
- the **menu identifier allocator**;
- the admin **order report**: orders grouped by number, then sorted by status rank and newest first.

The database is an immutable `Store` value, with a catalog map, a user map, and order, review and
voucher collections. A handler that writes is a pure function from a store to a
`Step`: the store afterwards plus the reply (`Ok` or `Err` with the reason).
A read-only handler (`Reviews.CheckReview`, `Shop.ViewCart`,
`Shop.ApplyVoucherRequest`, `Report.DetailedReport`) returns a `Result`, and
the admin's status update and delete map the order collection to a `Result`
holding the new collection.
What the handlers take from outside becomes a parameter. That covers the signed-in user's e-mail, the
random line id (`freshId`) and the current time (`now`).

Modules: `Base` (Option, Result, Error), `Entities` (records and the store),
`Cart`, `Pricing`, `Ratings`, `Checkout`, `Orders`, `Reviews`, `MenuIds`,
`Report`, `Shop` (the cart handlers at store level).

Behaviour of the code worth stating up front:

- The add operation compares `option2` as an ordered Python list (`==`), so
  the same options in another order make a new line.
- The cart page and the quantity update truncate the tax to an integer. The
  voucher preview computes a floating-point tax instead, which is left out below.
- A rating outside 1..5 is still stored, and it bumps a `rating_<r>` bucket that the
  aggregate never reads (`Ratings.BumpMovesAggregate`).

## Model

| member | source | states |
|---|---|---|
| Cart.FindChoice | app.py:733-741 | the index of the first line whose (menuId, option1, option2) equals the choice, or the cart length if no line matches |
| Cart.FindMenu | app.py:285-288 | the index of the first line for a menu id, whatever its options, or the cart length if no line matches |
| Cart.AddToCart | app.py:721-744 | with a matching line, only the first match grows by the quantity and the length is kept; otherwise the old lines are kept and one new line with the fresh id is appended |
| Cart.UpdateQuantity | app.py:285-288 | only the first line for the menu id gets the new quantity; length and every other line are kept; with no line for the id the cart is unchanged |
| Cart.RemoveItem | app.py:640-645 | no remaining line has the id; a line survives iff it was there and has another id; an absent id leaves the cart unchanged |
| Cart.AddToCartKeepsWellFormed | app.py:729-744 | adding keeps one line per choice, and keeps line ids distinct when the generated id is new |
| Cart.AddTwiceMerges | app.py:733-744 | adding the same choice with q1 and then q2 gives the same cart as adding q1+q2 once |
| Cart.UpdateQuantityKeepsWellFormed | app.py:285-288 | a quantity update keeps one line per choice and distinct line ids |
| Cart.UpdateQuantityUndo | app.py:285-288 | setting the first matching line back to its old quantity restores the cart exactly |
| Cart.RemoveItemKeepsOrder | app.py:640-645 | removal distributes over concatenation, so the surviving lines keep their relative order |
| Cart.RemoveItemKeepsWellFormed | app.py:640-645 | removal keeps one line per choice and distinct line ids |
| Cart.RemoveItemDropsOne | app.py:640-645 | when line ids are distinct, removing a present id drops exactly one line |
| Pricing.Snapshot | app.py:590-594 | the cart resolved line by line against the catalog, keeping its length and order |
| Pricing.TenPercent | app.py:246 | the tax int(x * 0.10) is a tenth of x truncated toward zero, for either sign |
| Pricing.CartBreakdown | app.py:236-247 | fails iff some line's menu entry is missing; otherwise subtotal = Σ price × quantity, discount 0, tax = TenPercent(subtotal), total = subtotal − discount + tax |
| Pricing.CartSubtotal | app.py:236-243 | the accumulating loop fails iff some line is stale, and otherwise returns Σ price × quantity |
| Pricing.ItemsValueNonNegative | app.py:236-243 | with non-negative prices and quantities the sum is non-negative |
| Pricing.CartTotalBounds | app.py:245-247 | with non-negative prices and quantities, tax = subtotal / 10 and subtotal ≤ total ≤ subtotal + subtotal / 10 |
| Pricing.VoucherDiscount | app.py:675-679 | the discount is the voucher's own iff a voucher with the code exists and is flagged valid, else 0 |
| Pricing.ApplyVoucher | app.py:664-695 | fails iff a line is stale; otherwise success holds iff the code names a valid voucher with a positive discount |
| Ratings.StarSum | app.py:172-173 | the star sum lies between the review count and five times it |
| Ratings.AverageFloor | app.py:172-176 | the whole part of the average is 0 without reviews, and otherwise the floor of star sum / count, between 1 and 5 |
| Ratings.Bump | app.py:567-568 | one more review in the given star bucket; every other bucket and field is kept |
| Ratings.BumpMovesAggregate | app.py:567-568 | a 1..5 star review adds one to the count and its stars to the sum; any other star value changes neither |
| Orders.FindOrder | app.py:1749 | the index of the first stored order with the number, or the number of orders if none has it |
| Orders.UpdateOrderStatus | app.py:1484-1492 | refused iff the number is 0 or the status is empty; otherwise only the first order with the number takes the new status, and an unknown number changes nothing |
| Orders.DeleteOrder | app.py:1749-1755 | refused iff no order has the number; otherwise exactly the first such order is removed and the others keep their order |
| Orders.UpdateOrderStatusReadsBack | app.py:1490 | after an update, the first order with the number reads back the new status |
| Orders.UpdateOrderStatusKeepsIdsDense | app.py:1490 | a status update never renumbers orders |
| Orders.DenseIdsGiveFreshNumber | app.py:599 | while orders are numbered 1..n, the count-plus-one number is not taken |
| Orders.DeleteThenAllocateReissues | app.py:599 | after deleting any order but the newest, the count-plus-one number is one that an order still carries |
| Checkout.AddSold | app.py:612-615 | every catalog entry's sold counter grows by the total quantity of its cart lines, and nothing else changes |
| Checkout.ConfirmPurchase | app.py:583-629 | an unknown user or a stale line fails with nothing written; otherwise one order is appended, numbered count + 1 with status NEW, with lines frozen at catalog values and total Σ price × quantity (no tax or discount); sold counters grow and only that user's cart empties |
| Checkout.EmptyCartGivesZeroOrder | app.py:587-610 | checking out an empty cart records an order worth zero and leaves the catalog unchanged |
| Checkout.ConfirmPurchaseKeepsIdsDense | app.py:599 | while no order is deleted, checkouts keep orders numbered 1, 2, 3, … |
| Checkout.SecondCheckoutIsEmpty | app.py:599-616 | a second checkout straight after a successful one records a zero-value order with the next number |
| Reviews.CheckReview | app.py:502-518 | fails iff the user is unknown; otherwise true iff a review with that (item, user, order) exists; it returns no store |
| Reviews.BumpRating | app.py:567-568 | only the reviewed item's bucket for the given star grows by one; an unknown item leaves the catalog unchanged |
| Reviews.SubmitReview | app.py:533-570 | an unknown user or an existing review for the triple is refused with nothing changed; otherwise exactly one review is appended and only that item's rating bucket grows |
| Reviews.SubmitOnlyOnce | app.py:543-554 | after an accepted review, the check reports the triple as reviewed and a second submission is refused without any change |
| Reviews.AcceptedReviewCounts | app.py:565-568 | an accepted 1..5 star review of a catalogued item adds one to its review count and its stars to its star sum |
| MenuIds.Prefix | app.py:1033 | fails iff some category is empty; otherwise one upper-cased initial per category, in order |
| MenuIds.Suffix | app.py:1040-1043 | a number is read only from an id that starts with the prefix |
| MenuIds.SuffixOfConcat | app.py:1040 | matching the prefix against prefix + rest reads exactly the number written in rest |
| MenuIds.MaxNumber | app.py:1038-1045 | the result bounds every number present, and is 0 or one of those numbers |
| MenuIds.Numbers | app.py:1039-1040 | one parsed suffix per id, in order |
| MenuIds.NatDigits | app.py:1048 | the decimal writing of n has only digits, denotes n, and has no leading zero |
| MenuIds.Pad2 | app.py:1048 | the "{:02d}" writing of n has at least two digits, denotes n, and is padded only when n < 10 |
| MenuIds.SuffixOfPadded | app.py:1040-1048 | prefix + Pad2(n) is read back as carrying n (round trip of writing and matching) |
| MenuIds.AboveMaxIsNew | app.py:1038-1048 | an id carrying more than the largest number after the prefix is not among the existing ids |
| MenuIds.NextIdIsNew | app.py:1038-1048 | the prefix followed by the padded successor of the largest number carries that successor in at least two digits and is not among the existing ids |
| MenuIds.GenerateMenuId | app.py:1032-1051 | fails iff a category is empty; otherwise the id is exactly `NextId`: the prefix followed by max + 1 written "{:02d}" (by `NextIdIsNew` it carries max + 1 after the prefix in at least two digits), and it is not an existing id |
| MenuIds.StoredIdRaisesMax | app.py:1038-1048 | adding the next id to the ids raises the largest number after the prefix by exactly one |
| MenuIds.AllocationAdvances | app.py:1038-1048 | once the generated id is stored, the largest number for the prefix is max + 1, so the next allocation moves on |
| MenuIds.ThirdCoffeeId | app.py:1032-1051 | worked case: with "C01" and "C02" stored, the category "Coffee" is given exactly "C03" |
| Report.FindRow | app.py:1455-1456 | the index of the row already opened for an order number, or the row count if there is none |
| Report.FindOrderExtend | app.py:1445-1456 | appending an order does not move the first occurrence of a number already present; a new number is first found at the end |
| Report.GroupOfAbsent | app.py:1445-1467 | a number carried by no order has value 0 and no items |
| Report.TakenAfterAppend | app.py:1445-1456 | after appending an order, a number is taken iff it was taken before or is the new order's number |
| Report.GroupAppend | app.py:1445-1467 | one more order adds its value and items to its own order number's totals and leaves every other number's unchanged |
| Report.FromFirstAppend | app.py:1456-1464 | a later order never changes which order is the first with a number, so a row's name, date and status stay right |
| Report.MergeKeepsRowsCorrect | app.py:1465-1467 | folding an order into the row of its number keeps every row's value, items and first-order fields correct |
| Report.OpenKeepsRowsCorrect | app.py:1456-1464 | appending the row a new number opens keeps every row's value, items and first-order fields correct |
| Report.GroupStepMerge | app.py:1465-1467 | an order whose number already has a row adds its value and items to that row and keeps the grouping invariant |
| Report.GroupStepOpen | app.py:1456-1464 | an order with a new number opens a row at the end, with its own name, date and status, and keeps the grouping invariant |
| Report.GroupRowsSummarise | app.py:1445-1469 | one row per order number, each with the summed value and concatenated items of all orders with that number, and the first order's name, date and status |
| Report.MergeKeepsFirstOrder | app.py:1465-1467 | folding an order into an existing row leaves the rows in first-occurrence order |
| Report.OpenKeepsFirstOrder | app.py:1456-1464 | a new number's row goes after every earlier number's row, keeping first-occurrence order |
| Report.GroupRowsInFirstOrder | app.py:1445-1469 | the grouped rows come out in the order their numbers first occur among the orders, as the dict keeps insertion order |
| Report.Insert | app.py:1472 | insertion adds exactly the new row to the multiset of rows |
| Report.SortRows | app.py:1472 | the sort is a permutation of its input |
| Report.InsertKeepsSorted | app.py:1471-1472 | inserting into rows sorted by (status rank, newest first) keeps them sorted |
| Report.SortRowsSorted | app.py:1471-1472 | the sorted rows are ordered by status rank (NEW < IN-PROGRESS < COMPLETED < other), then newest first |
| Report.WithKeyInsert | app.py:1472 | insertion places the new row ahead of every row with the same key |
| Report.SortRowsStable | app.py:1472 | rows with equal keys leave the sort in the order they entered it, as the stable list sort does |
| Report.WithKeyInFirstOrder | app.py:1472 | keeping only the rows of one sort key keeps first-occurrence order |
| Report.DetailedReport | app.py:1440-1476 | fails iff some order's customer record is missing; otherwise the rows are sorted and are a permutation of the grouped rows |
| Report.PermutedRows | app.py:1471-1472 | reordering the rows keeps each row correct and keeps a row for every number |
| Report.DetailedReportRows | app.py:1445-1472 | every report row carries its number's summed value and items and its first order's fields, and every stored order number has a row |
| Report.DetailedReportTies | app.py:1456-1472 | report rows with the same (status rank, date) key appear in the order their numbers first occur among the stored orders |
| Shop.AddToCartRequest | app.py:714-750 | an unknown user is refused with nothing written; otherwise only that user's cart changes, to the merged or extended cart |
| Shop.UpdateQuantityRequest | app.py:283-307 | the updated cart is written even when pricing then fails; the reply fails iff a line is stale or the menu id is unknown, and otherwise carries the new cart's breakdown and price × quantity |
| Shop.RemoveItemRequest | app.py:640-647 | always replies success; an unknown user changes nothing, and otherwise only that user's cart loses the lines |
| Shop.QuantityReplyMatchesCartPage | app.py:283-307 | a successful quantity reply carries exactly the breakdown the cart page (234-247) then shows for the written cart |
| Shop.VoucherPreviewMatchesCartPage | app.py:664-695 | the voucher preview succeeds iff the cart page does and starts from the same subtotal; its discount depends only on the code, not on the cart |
| Shop.AddToCartRequestKeepsWellFormed | app.py:714-750 | adding with a line id new to the cart keeps every user's cart at one line per choice with distinct line ids |
| Shop.UpdateQuantityRequestKeepsWellFormed | app.py:283-307 | the quantity update keeps every user's cart well formed |
| Shop.RemoveItemRequestKeepsWellFormed | app.py:640-647 | removal keeps every user's cart well formed |
| Shop.ConfirmPurchaseKeepsWellFormed | app.py:583-629 | checkout keeps every user's cart well formed, since the buyer's cart is emptied |
| Shop.HandlersKeepCartsWellFormed | app.py:283-750 | add (714-750, with a new line id), quantity update (285-290), removal (640-647) and checkout (583-629) keep every user's cart at one line per choice with distinct line ids |

## Left out

- Sessions and JWT cookies are left out. The model starts from the e-mail the token decodes to. A missing or expired token (a redirect or a failure message) is not modelled.
- Password hashing, profile and role updates, and feedback storage are left out. They are field overwrites with no rule to state.
- HTML rendering, currency and date formatting, and the report's `<br>`-joined menu text are left out. A report row keeps the grouped order lines themselves.
- Image upload, its temporary file, and the PDF receipt export are external I/O.
- The average rating's floating-point value, `round(…, 1)` and the star percentages are left out. `Ratings.AverageFloor` states only the whole part and its bounds.
- Pricing.ApplyVoucher: the reply omits the voucher preview's tax and final total. Both are floating-point (`total_price * 0.10`, not truncated).
- Pricing.TenPercent: treats `x * 0.10` as exact. A double cannot hold every large subtotal exactly, so values beyond 2^53 may differ.
- The dashboard overview (month, day and yesterday turnover, profit change, customer count) is left out. It is date-window arithmetic and database aggregation.
- Concurrency is left out. Interleaved read-modify-write of carts and concurrent `count + 1` order numbering cannot be expressed in a sequential model. The sequential reissue of a number after a delete is shown by `Orders.DeleteThenAllocateReissues`.
- Failures are modelled as `Err` replies and nothing else. On a missing user or menu entry, the cart page, the quantity update, the voucher preview and the report raise an uncaught exception, which the app answers with HTTP 500. Checkout and add-to-cart catch the exception and answer `success: False`. The model gives all of these the same `Err(UserNotFound)` or `Err(StaleMenuReference)`, so it does not tell a server error from a refusal.
- Checkout writes its order, sold counters and cart in three separate steps with no rollback. The model makes the transition atomic, which is what happens when none of the writes fails.
- The menu-id allocator first pre-filters ids with the unescaped regular expression `^prefix`. MenuIds.GenerateMenuId assumes this pre-filter admits every id that starts with the prefix. That holds for letter and digit initials; an initial that is a regular-expression metacharacter is not modelled.
- Letters and digits are ASCII only. Python's Unicode `upper()` and `\d` are not modelled.
- Request fields arrive already parsed: quantity, rating and order number as integers, prices as integers. A failed `int(...)` parse is not modelled.
- A user record without a `cart` field is the empty cart. The app's `KeyError` on that path in the quantity update is not modelled.
- A menu entry lacking `nama`, `harga` or `image` is not modelled. Checkout would default those to "", 0 and "", and the cart page would raise.
- Vouchers are looked up by a present code. A request without a code field, which queries for a null code, is not modelled.
- Inserting a newly created menu item (the upload handlers) is left out. Only the id allocation those handlers call is modelled.
