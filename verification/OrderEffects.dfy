// What each operation on orders and products answers and changes, over the rows of the tables.
module OrderEffects {
  import opened Common
  import opened Orders
  import opened OrderRuns

  // ---- automatic cancellation ----

  /** Past the timeout of its status: a pending order since it was created, one with a failed payment
      since it was last updated. A timeout of zero or less is switched off. */
  predicate Overdue(t: Timeouts, status: Status, createdAt: Time, updatedAt: Time, now: Time) {
    match status
    case Pending => 0 < t.pendingMinutes && t.pendingMinutes * 60_000_000 <= now - createdAt
    case PaymentFailed => 0 < t.failedMinutes && t.failedMinutes * 60_000_000 <= now - updatedAt
    case _ => false
  }

  lemma StaleIsOverdue(t: Timeouts, o: Order, now: Time)
    ensures Stale(t, o, now) <==> Overdue(t, o.status, o.createdAt, o.updatedAt, now)
  {
  }

  function CancelledBy(before: seq<Order>, after: seq<Order>): set<OrderId>
    requires |before| == |after|
  {
    set i | 0 <= i < |before| && before[i].status != after[i].status
  }

  function Members(ids: seq<OrderId>): set<OrderId> {
    set x | x in ids
  }

  predicate Increasing(ids: seq<OrderId>) {
    forall i, j :: 0 <= i < j < |ids| ==> ids[i] < ids[j]
  }

  lemma IncreasingLast(ids: seq<OrderId>)
    requires ids != [] && Increasing(ids)
    ensures var n := |ids| - 1;
      && Increasing(ids[..n]) && ids[n] !in ids[..n]
      && Members(ids) == Members(ids[..n]) + {ids[n]}
  {
    var n := |ids| - 1;
    assert ids == ids[..n] + [ids[n]];
  }

  lemma {:induction false} IncreasingSize(ids: seq<OrderId>)
    requires Increasing(ids)
    ensures |Members(ids)| == |ids|
  {
    if ids != [] {
      IncreasingLast(ids);
      IncreasingSize(ids[..|ids| - 1]);
    } else {
      assert Members(ids) == {};
    }
  }

  lemma CancelledAreBatch(s: State, t: Timeouts, locked: set<OrderId>, now: Time)
    requires Inv(s) && CancelStaleOrders(s, t, locked, now).1 == Done
    ensures var s', ids := CancelStaleOrders(s, t, locked, now).0, StaleIds(t, s.orders, locked, now);
      |s'.orders| == |s.orders| && CancelledBy(s.orders, s'.orders) == Members(ids)
  {
    BatchEffect(s, t, locked, now);
    var s', ids := CancelStaleOrders(s, t, locked, now).0, StaleIds(t, s.orders, locked, now);
    forall x | x in Members(ids) ensures x < |s.orders| && s'.orders[x].status != s.orders[x].status {
      var k :| 0 <= k < |ids| && ids[k] == x;
    }
  }

  /** When the batch goes through, every unlocked overdue order ends cancelled, or a hundred orders
      created no later were cancelled in its place. */
  lemma OverdueAreCancelled(s: State, t: Timeouts, locked: set<OrderId>, now: Time, i: nat)
    requires Inv(s) && i < |s.orders| && i !in locked
    requires Overdue(t, s.orders[i].status, s.orders[i].createdAt, s.orders[i].updatedAt, now)
    requires CancelStaleOrders(s, t, locked, now).1 == Done
    ensures var s' := CancelStaleOrders(s, t, locked, now).0;
      && |s'.orders| == |s.orders|
      && (s'.orders[i].status == Cancelled
          || (|CancelledBy(s.orders, s'.orders)| == 100
              && forall k :: k in CancelledBy(s.orders, s'.orders) ==> s.orders[k].createdAt <= s.orders[i].createdAt))
  {
    var ids := StaleIds(t, s.orders, locked, now);
    StaleIsOverdue(t, s.orders[i], now);
    BatchEffect(s, t, locked, now);
    BatchTakesOldest(s, t, locked, now, i);
    CancelledAreBatch(s, t, locked, now);
    IncreasingSize(ids);
  }

  /** At most a hundred orders are cancelled at once; each was unlocked and overdue, and is otherwise
      as before. Every other order is untouched. */
  lemma CancelledWereOverdue(s: State, t: Timeouts, locked: set<OrderId>, now: Time, i: nat)
    requires Inv(s) && i < |s.orders|
    ensures var s', o := CancelStaleOrders(s, t, locked, now).0, s.orders[i];
      && |s'.orders| == |s.orders| && |CancelledBy(s.orders, s'.orders)| <= 100
      && (s'.orders[i] == o
          || (i !in locked && Overdue(t, o.status, o.createdAt, o.updatedAt, now)
              && s'.orders[i] == o.(status := Cancelled, updatedAt := now, closing := ByBatch)))
  {
    var (s', r) := CancelStaleOrders(s, t, locked, now);
    CancelStaleRow(s, t, locked, now, i);
    StaleIsOverdue(t, s.orders[i], now);
    if s'.orders[i] != s.orders[i] {
      OnlyOverdueAreCancelled(s, t, locked, now, i);
    }
    if r == Done {
      CancelledAreBatch(s, t, locked, now);
      IncreasingSize(StaleIds(t, s.orders, locked, now));
    } else {
      assert CancelledBy(s.orders, s'.orders) == {};
    }
  }

  lemma {:induction false} HeldNonNegative(orders: seq<Order>, p: ProductId)
    requires AllWellformed(orders)
    ensures Held(orders, p) >= 0
  {
    if orders != [] {
      var n := |orders| - 1;
      HeldNonNegative(orders[..n], p);
      assert Wellformed(orders[n]);
      QuantityNonNegative(orders[n].lines, p);
    }
  }

  /** A batch returns no more of a product than orders have taken and not returned. */
  lemma GroupedIsOutstanding(s: State, ids: seq<OrderId>, now: Time, p: ProductId)
    requires Inv(s) && Batch(s.orders, ids)
    ensures Grouped(s.orders, ids, p) <= Outstanding(s.orders, p)
  {
    OutstandingCancel(s.orders, ids, now, p);
    HeldAndLost(Cancel(s.orders, ids, now), p);
    HeldNonNegative(Cancel(s.orders, ids, now), p);
  }

  lemma {:induction false} GroupedNonNegative(orders: seq<Order>, ids: seq<OrderId>, p: ProductId)
    requires AllWellformed(orders) && forall i :: 0 <= i < |ids| ==> ids[i] < |orders|
    ensures Grouped(orders, ids, p) >= 0
  {
    if ids != [] {
      var n := |ids| - 1;
      GroupedNonNegative(orders, ids[..n], p);
      assert Wellformed(orders[ids[n]]);
      QuantityNonNegative(orders[ids[n]].lines, p);
    }
  }

  /** The batch goes through if and only if the returned stock fits its column for every product;
      if not, nothing changes. */
  lemma BatchIff(s: State, t: Timeouts, locked: set<OrderId>, now: Time)
    requires Inv(s)
    ensures var ids := StaleIds(t, s.orders, locked, now);
      var (s', r) := CancelStaleOrders(s, t, locked, now);
      && (r == Done <==> ids == [] || forall p :: p in s.products ==> s.products[p].stock + Grouped(s.orders, ids, p) <= 2_147_483_647)
      && (r != Done ==> s' == s && r == Failed(OutOfRange))
  {
    var ids := StaleIds(t, s.orders, locked, now);
    forall p | p in s.products ensures Grouped(s.orders, ids, p) >= 0 {
      GroupedNonNegative(s.orders, ids, p);
    }
  }

  lemma StaleIdsAreBatch(s: State, t: Timeouts, locked: set<OrderId>, now: Time)
    ensures Batch(s.orders, StaleIds(t, s.orders, locked, now))
  {
  }

  /** As long as no supply exceeds the range of the stock column, the batch always goes through. */
  lemma BatchNeverOverflows(s: State, t: Timeouts, locked: set<OrderId>, now: Time)
    requires Inv(s) && forall p :: p in s.supply ==> s.supply[p] <= 2_147_483_647
    ensures CancelStaleOrders(s, t, locked, now).1 == Done
  {
    var ids := StaleIds(t, s.orders, locked, now);
    BatchIff(s, t, locked, now);
    StaleIdsAreBatch(s, t, locked, now);
    forall p | p in s.products ensures s.products[p].stock + Grouped(s.orders, ids, p) <= 2_147_483_647 {
      GroupedIsOutstanding(s, ids, now, p);
    }
  }

  // ---- products ----

  /** The catalogue side of a product: everything but its stock. */
  ghost predicate SameCatalogue(before: map<ProductId, Product>, after: map<ProductId, Product>) {
    && after.Keys == before.Keys
    && forall p :: p in before ==>
         after[p].name == before[p].name && after[p].price == before[p].price && after[p].active == before[p].active
  }

  /** Orders move stock and nothing else of a product; carts and addresses move nothing. */
  lemma OrdersMoveStockOnly(s: State, op: Op)
    requires Possible(s, op) && !op.CreateProductOp? && !op.EditProductOp?
    ensures SameCatalogue(s.products, Step(s, op).0.products)
    ensures Step(s, op).0.supply == s.supply
  {
    match op
    case CreateOrderOp(user, address, items, now) => CreateMovesStock(s, user, address, items, now);
    case AdminOp(id, next, tracking, choice, now) =>
      AdminMovesStock(s, id, next, tracking, choice, now);
      AdminProducts(s, id, next, tracking, choice, now);
    case CancelStaleOp(timeouts, locked, now) => BatchMovesStock(s, timeouts, locked, now);
    case _ =>
  }

  lemma CreateMovesStock(s: State, user: UserId, address: AddressId, items: seq<ItemRequest>, now: Time)
    ensures SameCatalogue(s.products, CreateOrder(s, user, address, items, now).0.products)
    ensures CreateOrder(s, user, address, items, now).0.supply == s.supply
  {
    if Reserve(s.products, items).Reserved? {
      ReserveStock(s.products, items);
    }
  }

  /** The products after an admin update: restocked by the join if it cancels, the same otherwise. */
  lemma AdminProducts(s: State, id: OrderId, next: Status, tracking: Option<string>, choice: map<ProductId, nat>, now: Time)
    requires id < |s.orders| ==> ValidChoice(s.orders[id].lines, choice)
    ensures var (s', r) := UpdateOrderForAdmin(s, id, next, tracking, choice, now);
      && s'.supply == s.supply
      && (r == Done ==> id < |s.orders|)
      && if r == Done && next == Cancelled && s.orders[id].status != Cancelled then
           var returned := JoinedMap(s.products, s.orders[id].lines, choice);
           InRange(s.products, returned) && s'.products == Restock(s.products, returned)
         else s'.products == s.products
  {
  }

  /** An admin update returns stock when it cancels, one joined line per product, and moves none
      otherwise. */
  lemma AdminMovesStock(s: State, id: OrderId, next: Status, tracking: Option<string>, choice: map<ProductId, nat>, now: Time)
    requires id < |s.orders| ==> ValidChoice(s.orders[id].lines, choice)
    ensures var (s', r) := UpdateOrderForAdmin(s, id, next, tracking, choice, now);
      && SameCatalogue(s.products, s'.products)
      && (r == Done ==> id < |s.orders|)
      && if r == Done && next == Cancelled && s.orders[id].status != Cancelled then
           forall p :: p in s.products ==> s'.products[p].stock == s.products[p].stock + Joined(s.orders[id].lines, choice, p)
         else s'.products == s.products
  {
    var (s', r) := UpdateOrderForAdmin(s, id, next, tracking, choice, now);
    AdminProducts(s, id, next, tracking, choice, now);
    if r == Done && next == Cancelled && s.orders[id].status != Cancelled {
      RestockMovesStock(s.products, JoinedMap(s.products, s.orders[id].lines, choice));
    }
  }

  lemma RestockMovesStock(products: map<ProductId, Product>, returned: map<ProductId, int>)
    requires returned.Keys == products.Keys && InRange(products, returned)
    ensures SameCatalogue(products, Restock(products, returned))
    ensures forall p :: p in products ==> Restock(products, returned)[p].stock == products[p].stock + returned[p]
  {
  }

  lemma BatchMovesStock(s: State, t: Timeouts, locked: set<OrderId>, now: Time)
    ensures SameCatalogue(s.products, CancelStaleOrders(s, t, locked, now).0.products)
    ensures CancelStaleOrders(s, t, locked, now).0.supply == s.supply
  {
  }

  /** A new product is stored as given if its stock fits the column. */
  lemma CreateProductIff(s: State, p: ProductId, row: Product)
    requires p !in s.products
    ensures var (s', r) := CreateProduct(s, p, row);
      && (r == Done <==> row.stock <= 2_147_483_647)
      && (r == Done ==> s'.products == s.products[p := row] && s'.supply == s.supply[p := row.stock])
      && (r != Done ==> s' == s)
      && s'.orders == s.orders && s'.carts == s.carts && s'.addresses == s.addresses
  {
  }

  /** An edit sets the fields it names and keeps the others, of one product; what it adds to the
      stock, or takes from it, is added to the supply. */
  lemma EditProductIff(s: State, p: ProductId, name: Option<string>, price: Option<int>, stock: Option<int>, active: Option<bool>)
    requires Inv(s)
    ensures var (s', r) := EditProduct(s, p, name, price, stock, active);
      && (r == Done <==> p in s.products && 0 <= price.GetOr(0) && 0 <= stock.GetOr(0) <= 2_147_483_647
                         && (stock.None? ==> s.products[p].stock <= 2_147_483_647))
      && (r == Failed(ProductNotFound) <==> p !in s.products)
      && (r == Done ==>
            && p in s.products && s'.products.Keys == s.products.Keys && s'.supply.Keys == s.supply.Keys
            && s'.products[p].name == name.GetOr(s.products[p].name)
            && s'.products[p].price == price.GetOr(s.products[p].price)
            && s'.products[p].stock == stock.GetOr(s.products[p].stock)
            && s'.products[p].active == active.GetOr(s.products[p].active)
            && s'.supply[p] - s.supply[p] == s'.products[p].stock - s.products[p].stock
            && (forall q :: q in s.products && q != p ==> s'.products[q] == s.products[q] && s'.supply[q] == s.supply[q]))
      && (r != Done ==> s' == s)
      && s'.orders == s.orders
  {
  }

  // ---- why requests are refused ----

  /** The refusals of an admin update, in the order of the checks. */
  lemma AdminRefusals(s: State, id: OrderId, next: Status, tracking: Option<string>, choice: map<ProductId, nat>, now: Time)
    requires id < |s.orders| ==> ValidChoice(s.orders[id].lines, choice)
    ensures var r := UpdateOrderForAdmin(s, id, next, tracking, choice, now).1;
      && (r == Failed(OrderNotFound) <==> |s.orders| <= id)
      && (r == Failed(BadTransition) <==> id < |s.orders| && !Transition(s.orders[id].status, next))
      && (r == Failed(TrackingNotAllowed) <==>
            && id < |s.orders| && Transition(s.orders[id].status, next)
            && (tracking.Some? || s.orders[id].tracking.Some?) && next != Shipped && next != Delivered)
      && (r == Failed(TrackingRequired) <==>
            && id < |s.orders| && Transition(s.orders[id].status, next)
            && tracking.None? && s.orders[id].tracking.None? && next == Shipped)
  {
  }

  lemma SlipRefusals(s: State, user: UserId, id: OrderId, slip: string, now: Time)
    ensures var r := UpdateOrderPaymentSlip(s, user, id, slip, now).1;
      && (r == Failed(OrderNotFound) <==> |s.orders| <= id || s.orders[id].userId != user)
      && (r == Failed(SlipTooLate) <==>
            && id < |s.orders| && s.orders[id].userId == user
            && (var status := s.orders[id].status;
                status == Paid || status == Shipped || status == Delivered || status == Cancelled))
  {
  }

  /** An order is refused for its address, or for the first item that the stock left by the items
      before it does not allow, or for its amount. */
  lemma CreateRefusals(s: State, user: UserId, address: AddressId, items: seq<ItemRequest>, now: Time)
    ensures var r := CreateOrder(s, user, address, items, now).1;
      && (r == Failed(InvalidAddress) <==> address !in s.addresses || s.addresses[address] != user)
      && (r.Failed? && r.error != InvalidAddress ==>
            || (r.error == OutOfRange && 9_999_999_999 < Amount(s.products, items))
            || exists k :: 0 <= k < |items| && RefusedAt(s.products, items, k, r.error))
  {
    var reserved := Reserve(s.products, items);
    if reserved.Refused? {
      RefusalFound(s.products, items);
    } else {
      ReserveTotal(s.products, items);
    }
  }

  /** Items before the k-th can be reserved, and the k-th cannot, for this reason. */
  ghost predicate RefusedAt(products: map<ProductId, Product>, items: seq<ItemRequest>, k: nat, error: Error)
    requires k < |items|
  {
    var item := items[k];
    && Reserve(products, items[..k]).Reserved?
    && (if item.quantity <= 0 then error == InvalidQuantity
        else if item.product !in products then error == ProductNotFound
        else if !products[item.product].active then error == ProductInactive
        else error == InsufficientStock && products[item.product].stock - Demand(items[..k], item.product) < item.quantity)
  }

  lemma {:induction false} RefusalFound(products: map<ProductId, Product>, items: seq<ItemRequest>)
    requires Reserve(products, items).Refused?
    ensures exists k :: 0 <= k < |items| && RefusedAt(products, items, k, Reserve(products, items).error)
  {
    var n := |items| - 1;
    if Reserve(products, items[..n]).Refused? {
      RefusalFound(products, items[..n]);
      var k :| 0 <= k < n && RefusedAt(products, items[..n], k, Reserve(products, items).error);
      assert items[..n][..k] == items[..k];
      assert RefusedAt(products, items, k, Reserve(products, items).error);
    } else {
      ReserveStock(products, items[..n]);
      assert RefusedAt(products, items, n, Reserve(products, items).error);
    }
  }

  // ---- the admin summary ----

  /** The rows among the matching ones that have this status. */
  function WithStatus(orders: seq<Order>, matching: set<OrderId>, status: Status): set<OrderId> {
    set i | 0 <= i < |orders| && i in matching && orders[i].status == status
  }

  function Matching(orders: seq<Order>, matching: set<OrderId>): set<OrderId> {
    set i | 0 <= i < |orders| && i in matching
  }

  function Tracked(orders: seq<Order>, matching: set<OrderId>): set<OrderId> {
    set i | 0 <= i < |orders| && i in matching && orders[i].tracking.Some?
  }

  function Count(m: Summary, status: Status): nat {
    match status
    case Pending => m.pending
    case PaymentReview => m.paymentReview
    case PaymentFailed => m.paymentFailed
    case Paid => m.paid
    case Shipped => m.shipped
    case Delivered => m.delivered
    case Cancelled => m.cancelled
  }

  lemma OneMoreRow(orders: seq<Order>, matching: set<OrderId>, status: Status)
    requires orders != []
    ensures var n := |orders| - 1;
      && WithStatus(orders, matching, status)
         == WithStatus(orders[..n], matching, status) + (if n in matching && orders[n].status == status then {n} else {})
      && Matching(orders, matching) == Matching(orders[..n], matching) + (if n in matching then {n} else {})
      && Tracked(orders, matching)
         == Tracked(orders[..n], matching) + (if n in matching && orders[n].tracking.Some? then {n} else {})
  {
  }

  /** Each count of the summary is the number of matching rows it names. */
  lemma {:induction false} SummaryCounts(orders: seq<Order>, matching: set<OrderId>, status: Status)
    ensures var m := AdminSummary(orders, matching);
      && Count(m, status) == |WithStatus(orders, matching, status)|
      && m.all == |Matching(orders, matching)|
      && m.tracked == |Tracked(orders, matching)|
  {
    if orders != [] {
      var n := |orders| - 1;
      SummaryCounts(orders[..n], matching, status);
      OneMoreRow(orders, matching, status);
      OneMoreCount(orders, matching, status);
    }
  }

  lemma OneMoreCount(orders: seq<Order>, matching: set<OrderId>, status: Status)
    requires orders != []
    ensures var n := |orders| - 1;
      var m, rest := AdminSummary(orders, matching), AdminSummary(orders[..n], matching);
      && m.all == rest.all + Tick(n in matching)
      && m.tracked == rest.tracked + Tick(n in matching && orders[n].tracking.Some?)
      && Count(m, status) == Count(rest, status) + Tick(n in matching && orders[n].status == status)
  {
  }
}
