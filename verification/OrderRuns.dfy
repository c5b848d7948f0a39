// Orders and stock over whole runs: conservation, the exact loss of the admin cancellation, the
// status machine, and what never changes once an order is placed.
module OrderRuns {
  import opened Common
  import opened Orders

  // ---- what an order holds, returned and still owes ----

  /** What has been put back on the shelf for this order. */
  function Returned(o: Order, p: ProductId): int
    requires o.closing.ByAdmin? ==> ValidChoice(o.lines, o.closing.choice)
  {
    match o.closing
    case Open => 0
    case ByAdmin(choice) => Joined(o.lines, choice, p)
    case ByBatch => Quantity(o.lines, p)
  }

  ghost predicate Wellformed(o: Order) {
    && (forall i :: 0 <= i < |o.lines| ==> o.lines[i].quantity > 0)
    && o.total == LinesTotal(o.lines) <= MAX_AMOUNT
    && (o.tracking.Some? <==> SupportsTracking(o.status))
    && (o.closing.Open? <==> o.status != Cancelled)
    && (o.closing.ByAdmin? ==> ValidChoice(o.lines, o.closing.choice))
  }

  ghost predicate AllWellformed(orders: seq<Order>) {
    forall i :: 0 <= i < |orders| ==> Wellformed(orders[i])
  }

  /** Taken from the shelf and not returned, over all orders. */
  ghost function Outstanding(orders: seq<Order>, p: ProductId): int
    requires AllWellformed(orders)
  {
    if orders == [] then 0
    else
      var last := orders[|orders| - 1];
      Outstanding(orders[..|orders| - 1], p) + Quantity(last.lines, p) - Returned(last, p)
  }

  /** Quantity held by the orders that are not cancelled. */
  function Held(orders: seq<Order>, p: ProductId): int {
    if orders == [] then 0
    else
      var last := orders[|orders| - 1];
      Held(orders[..|orders| - 1], p) + if last.status != Cancelled then Quantity(last.lines, p) else 0
  }

  /** The product is on at least two lines. */
  ghost predicate Repeats(lines: seq<Line>, p: ProductId) {
    exists i, j :: 0 <= i < j < |lines| && lines[i].product == p && lines[j].product == p
  }

  // ---- the two ways of returning stock, compared ----

  lemma {:induction false} QuantityAtLeast(lines: seq<Line>, p: ProductId, i: nat)
    requires forall k :: 0 <= k < |lines| ==> lines[k].quantity > 0
    requires i < |lines| && lines[i].product == p
    ensures Quantity(lines, p) >= lines[i].quantity
    ensures Quantity(lines, p) == lines[i].quantity <==> !Repeats(lines, p)
  {
    var n := |lines| - 1;
    if i < n {
      QuantityAtLeast(lines[..n], p, i);
      if Repeats(lines[..n], p) {
        var a, b :| 0 <= a < b < n && lines[..n][a].product == p && lines[..n][b].product == p;
        assert lines[a].product == p && lines[b].product == p;
      }
    } else {
      QuantityNonNegative(lines[..n], p);
      if k :| 0 <= k < n && lines[k].product == p {
        QuantityAtLeast(lines[..n], p, k);
      } else {
        QuantityAbsent(lines[..n], p);
      }
    }
    if Repeats(lines, p) {
      var a, b :| 0 <= a < b < |lines| && lines[a].product == p && lines[b].product == p;
      assert b < n ==> lines[..n][a].product == p && lines[..n][b].product == p;
    }
  }

  lemma {:induction false} QuantityNonNegative(lines: seq<Line>, p: ProductId)
    requires forall k :: 0 <= k < |lines| ==> lines[k].quantity > 0
    ensures Quantity(lines, p) >= 0
  {
    if lines != [] {
      QuantityNonNegative(lines[..|lines| - 1], p);
    }
  }

  lemma {:induction false} QuantityAbsent(lines: seq<Line>, p: ProductId)
    requires forall i :: 0 <= i < |lines| ==> lines[i].product != p
    ensures Quantity(lines, p) == 0
  {
    if lines != [] {
      QuantityAbsent(lines[..|lines| - 1], p);
    }
  }

  /** The join of an admin cancellation returns all of a product if and only if the order lists it
      on at most one line; with several lines it returns strictly less, whichever line it picks. */
  lemma JoinReturnsOneLine(lines: seq<Line>, choice: map<ProductId, nat>, p: ProductId)
    requires ValidChoice(lines, choice) && forall k :: 0 <= k < |lines| ==> lines[k].quantity > 0
    ensures Joined(lines, choice, p) == Quantity(lines, p) <==> !Repeats(lines, p)
    ensures Joined(lines, choice, p) < Quantity(lines, p) <==> Repeats(lines, p)
  {
    if p in choice {
      QuantityAtLeast(lines, p, choice[p]);
    } else {
      QuantityAbsent(lines, p);
    }
  }

  /** On one order the grouped route returns everything the order holds, so the two routes agree
      exactly when no product is repeated. */
  lemma RoutesCompared(orders: seq<Order>, id: OrderId, choice: map<ProductId, nat>, p: ProductId)
    requires id < |orders| && Wellformed(orders[id]) && ValidChoice(orders[id].lines, choice)
    ensures Grouped(orders, [id], p) == Quantity(orders[id].lines, p)
    ensures Joined(orders[id].lines, choice, p) == Grouped(orders, [id], p) <==> !Repeats(orders[id].lines, p)
  {
    assert [id][..0] == [];
    JoinReturnsOneLine(orders[id].lines, choice, p);
  }

  // ---- sums after one row changes ----

  lemma {:induction false} OutstandingUpdate(orders: seq<Order>, id: OrderId, o: Order, p: ProductId)
    requires AllWellformed(orders) && id < |orders| && Wellformed(o)
    ensures AllWellformed(orders[id := o])
    ensures Outstanding(orders[id := o], p)
         == Outstanding(orders, p) - (Quantity(orders[id].lines, p) - Returned(orders[id], p)) + Quantity(o.lines, p) - Returned(o, p)
  {
    var n := |orders| - 1;
    if id == n {
      assert orders[id := o][..n] == orders[..n];
    } else {
      OutstandingUpdate(orders[..n], id, o, p);
      assert orders[id := o][..n] == orders[..n][id := o];
    }
  }

  lemma OutstandingAppend(orders: seq<Order>, o: Order, p: ProductId)
    requires AllWellformed(orders) && Wellformed(o)
    ensures AllWellformed(orders + [o])
    ensures Outstanding(orders + [o], p) == Outstanding(orders, p) + Quantity(o.lines, p) - Returned(o, p)
  {
  }

  function InBatch(o: Order, now: Time): Order {
    o.(status := Cancelled, updatedAt := now, closing := ByBatch)
  }

  lemma CancelOneMore(orders: seq<Order>, ids: seq<OrderId>, id: OrderId, now: Time)
    requires id < |orders| && id !in ids
    ensures Cancel(orders, ids, now)[id] == orders[id]
    ensures Cancel(orders, ids + [id], now)
         == Cancel(orders, ids, now)[id := InBatch(orders[id], now)]
  {
  }

  lemma OutstandingCancelOne(orders: seq<Order>, id: OrderId, now: Time, p: ProductId)
    requires AllWellformed(orders) && id < |orders| && orders[id].status in {Pending, PaymentFailed}
    ensures AllWellformed(orders[id := InBatch(orders[id], now)])
    ensures Outstanding(orders[id := InBatch(orders[id], now)], p) == Outstanding(orders, p) - Quantity(orders[id].lines, p)
  {
    var o := orders[id];
    assert Wellformed(o) && Wellformed(InBatch(o, now));
    OutstandingUpdate(orders, id, InBatch(o, now), p);
  }

  lemma OutstandingCancelStep(orders: seq<Order>, ids: seq<OrderId>, id: OrderId, now: Time, p: ProductId)
    requires AllWellformed(orders) && AllWellformed(Cancel(orders, ids, now))
    requires id < |orders| && id !in ids && orders[id].status in {Pending, PaymentFailed}
    ensures AllWellformed(Cancel(orders, ids + [id], now))
    ensures Outstanding(Cancel(orders, ids + [id], now), p)
         == Outstanding(Cancel(orders, ids, now), p) - Quantity(orders[id].lines, p)
  {
    CancelOneMore(orders, ids, id, now);
    OutstandingCancelOne(Cancel(orders, ids, now), id, now, p);
  }

  ghost predicate Batch(orders: seq<Order>, ids: seq<OrderId>) {
    && (forall i :: 0 <= i < |ids| ==> ids[i] < |orders| && orders[ids[i]].status in {Pending, PaymentFailed})
    && forall i, j :: 0 <= i < j < |ids| ==> ids[i] < ids[j]
  }

  lemma BatchLast(orders: seq<Order>, ids: seq<OrderId>)
    requires Batch(orders, ids) && ids != []
    ensures var n := |ids| - 1;
      && ids[..n] + [ids[n]] == ids && Batch(orders, ids[..n])
      && ids[n] !in ids[..n] && ids[n] < |orders| && orders[ids[n]].status in {Pending, PaymentFailed}
  {
  }

  /** Cancelling a batch returns the grouped sum of its lines. */
  lemma {:induction false} OutstandingCancel(orders: seq<Order>, ids: seq<OrderId>, now: Time, p: ProductId)
    requires AllWellformed(orders) && Batch(orders, ids)
    ensures AllWellformed(Cancel(orders, ids, now))
    ensures Outstanding(Cancel(orders, ids, now), p) == Outstanding(orders, p) - Grouped(orders, ids, p)
  {
    if ids == [] {
      assert Cancel(orders, ids, now) == orders;
    } else {
      var n := |ids| - 1;
      BatchLast(orders, ids);
      OutstandingCancel(orders, ids[..n], now, p);
      OutstandingCancelStep(orders, ids[..n], ids[n], now, p);
    }
  }

  // ---- the reservation loop ----

  function Demand(items: seq<ItemRequest>, p: ProductId): int {
    if items == [] then 0
    else Demand(items[..|items| - 1], p) + if items[|items| - 1].product == p then items[|items| - 1].quantity else 0
  }

  ghost predicate Sellable(products: map<ProductId, Product>, item: ItemRequest) {
    item.quantity > 0 && item.product in products && products[item.product].active
  }

  /** What the lines will cost, at the current prices. */
  function Amount(products: map<ProductId, Product>, items: seq<ItemRequest>): int {
    if items == [] then 0
    else
      var item := items[|items| - 1];
      Amount(products, items[..|items| - 1])
      + if item.product in products then item.quantity * products[item.product].price else 0
  }

  /** The loop changes nothing of a product but its stock, by the demand so far. */
  lemma {:induction false} ReserveStock(products: map<ProductId, Product>, items: seq<ItemRequest>)
    requires Reserve(products, items).Reserved?
    ensures Reserve(products, items).products.Keys == products.Keys
    ensures forall p :: p in products ==>
      var p' := Reserve(products, items).products[p];
      p' == products[p].(stock := p'.stock) && p'.stock == products[p].stock - Demand(items, p)
  {
    if items != [] {
      ReserveStock(products, items[..|items| - 1]);
    }
  }

  lemma {:induction false} ReserveLines(products: map<ProductId, Product>, items: seq<ItemRequest>)
    requires Reserve(products, items).Reserved?
    ensures var lines := Reserve(products, items).lines;
      && |lines| == |items|
      && (forall i :: 0 <= i < |items| ==>
            && Sellable(products, items[i])
            && lines[i] == Line(items[i].product, products[items[i].product].name, items[i].quantity,
                                products[items[i].product].price))
  {
    if items != [] {
      ReserveLines(products, items[..|items| - 1]);
      ReserveStock(products, items[..|items| - 1]);
    }
  }

  lemma ReserveLast(products: map<ProductId, Product>, items: seq<ItemRequest>)
    requires items != [] && Reserve(products, items).Reserved?
    ensures var before, item := Reserve(products, items[..|items| - 1]), items[|items| - 1];
      && before.Reserved? && item.product in products
      && Reserve(products, items).lines
         == before.lines + [Line(item.product, products[item.product].name, item.quantity, products[item.product].price)]
  {
    ReserveStock(products, items[..|items| - 1]);
  }

  lemma {:induction false} ReserveQuantity(products: map<ProductId, Product>, items: seq<ItemRequest>, p: ProductId)
    requires Reserve(products, items).Reserved?
    ensures Quantity(Reserve(products, items).lines, p) == Demand(items, p)
  {
    if items != [] {
      var n := |items| - 1;
      ReserveQuantity(products, items[..n], p);
      ReserveLast(products, items);
      var lines := Reserve(products, items).lines;
      assert lines[..|lines| - 1] == Reserve(products, items[..n]).lines;
    }
  }

  lemma {:induction false} ReserveTotal(products: map<ProductId, Product>, items: seq<ItemRequest>)
    requires Reserve(products, items).Reserved?
    ensures LinesTotal(Reserve(products, items).lines) == Amount(products, items) >= 0
  {
    if items != [] {
      var n := |items| - 1;
      ReserveTotal(products, items[..n]);
      ReserveLast(products, items);
      ReserveLines(products, items);
      assert Sellable(products, items[n]);
      var lines := Reserve(products, items).lines;
      assert lines[..|lines| - 1] == Reserve(products, items[..n]).lines;
    }
  }

  lemma {:induction false} DemandMonotone(items: seq<ItemRequest>, k: nat, p: ProductId)
    requires k <= |items| && forall i :: 0 <= i < |items| ==> items[i].quantity > 0
    ensures Demand(items[..k], p) <= Demand(items, p)
  {
    if k < |items| {
      var n := |items| - 1;
      DemandMonotone(items[..n], k, p);
      assert items[..n][..k] == items[..k];
    } else {
      assert items[..k] == items;
    }
  }

  lemma {:induction false} EnoughStockSuffices(products: map<ProductId, Product>, items: seq<ItemRequest>)
    requires forall i :: 0 <= i < |items| ==> Sellable(products, items[i])
    requires forall p :: p in products ==> Demand(items, p) <= products[p].stock
    ensures Reserve(products, items).Reserved?
  {
    if items != [] {
      var n := |items| - 1;
      forall p | p in products ensures Demand(items[..n], p) <= products[p].stock {
        DemandMonotone(items, n, p);
      }
      EnoughStockSuffices(products, items[..n]);
      ReserveStock(products, items[..n]);
      assert Sellable(products, items[n]);
      assert Demand(items, items[n].product) <= products[items[n].product].stock;
    }
  }

  ghost predicate Orderable(s: State, user: UserId, address: AddressId, items: seq<ItemRequest>) {
    && address in s.addresses && s.addresses[address] == user
    && (forall i :: 0 <= i < |items| ==> Sellable(s.products, items[i]))
    && (forall p :: p in s.products ==> Demand(items, p) <= s.products[p].stock)
    && Amount(s.products, items) <= MAX_AMOUNT
  }

  /** An order goes through if and only if the address is the user's, every item is sellable, no
      product's total demand over all its lines exceeds its stock, and the amount fits its column.
      Otherwise nothing changes at all: stock, orders and cart are as before. */
  lemma CreateOrderIff(s: State, user: UserId, address: AddressId, items: seq<ItemRequest>, now: Time)
    ensures CreateOrder(s, user, address, items, now).1 == Done <==> Orderable(s, user, address, items)
    ensures CreateOrder(s, user, address, items, now).1 != Done ==> CreateOrder(s, user, address, items, now).0 == s
  {
    if Reserve(s.products, items).Reserved? {
      ReserveStock(s.products, items);
      ReserveLines(s.products, items);
      ReserveTotal(s.products, items);
      forall p | p in s.products ensures Demand(items, p) <= s.products[p].stock {
        assert Reserve(s.products, items).products[p].stock >= 0;
      }
    } else if Orderable(s, user, address, items) {
      EnoughStockSuffices(s.products, items);
    }
  }

  /** What a placed order is: a pending order of exactly the requested lines at the current names
      and prices, totalling their sum, with each product's stock down by its demand and the
      user's cart empty. */
  lemma CreateOrderEffect(s: State, user: UserId, address: AddressId, items: seq<ItemRequest>, now: Time)
    requires Orderable(s, user, address, items)
    ensures var s' := CreateOrder(s, user, address, items, now).0;
      && |s'.orders| == |s.orders| + 1 && s'.orders[..|s.orders|] == s.orders
      && (var o := s'.orders[|s.orders|];
          && o.userId == user && o.status == Pending && o.tracking.None? && o.slip.None?
          && o.createdAt == now && o.updatedAt == now
          && o.total == Amount(s.products, items)
          && |o.lines| == |items|
          && forall i :: 0 <= i < |items| ==>
               o.lines[i] == Line(items[i].product, s.products[items[i].product].name, items[i].quantity,
                                  s.products[items[i].product].price))
      && s'.products.Keys == s.products.Keys
      && (forall p :: p in s.products ==>
            s'.products[p] == s.products[p].(stock := s.products[p].stock - Demand(items, p)))
      && (user in s.carts ==> s'.carts == s.carts[user := map[]]) && (user !in s.carts ==> s'.carts == s.carts)
  {
    CreateOrderIff(s, user, address, items, now);
    ReserveStock(s.products, items);
    ReserveLines(s.products, items);
    ReserveTotal(s.products, items);
  }

  lemma Placed(s: State, user: UserId, address: AddressId, items: seq<ItemRequest>, now: Time)
    requires address in s.addresses && s.addresses[address] == user
    requires Reserve(s.products, items).Reserved? && LinesTotal(Reserve(s.products, items).lines) <= MAX_AMOUNT
    ensures LinesTotal(Reserve(s.products, items).lines) >= 0
    ensures var r := Reserve(s.products, items);
      CreateOrder(s, user, address, items, now)
      == (State(r.products,
                s.orders + [Order(user, r.lines, LinesTotal(r.lines), Pending, None, None, now, now, Open)],
                if user in s.carts then s.carts[user := map[]] else s.carts,
                s.addresses, s.supply, now), Done)
  {
  }

  // ---- the invariant ----

  ghost predicate LinesKnown(products: map<ProductId, Product>, o: Order) {
    forall i :: 0 <= i < |o.lines| ==> o.lines[i].product in products
  }

  /** Every unit ever supplied is on the shelf or taken by an order and not returned. */
  ghost predicate Accounts(s: State)
    requires AllWellformed(s.orders) && s.supply.Keys == s.products.Keys
  {
    forall p :: p in s.products ==> s.products[p].stock + Outstanding(s.orders, p) == s.supply[p]
  }

  ghost predicate ByAge(orders: seq<Order>, clock: Time) {
    && (forall i, j :: 0 <= i <= j < |orders| ==> orders[i].createdAt <= orders[j].createdAt)
    && (forall i :: 0 <= i < |orders| ==> orders[i].createdAt <= clock)
  }

  ghost predicate Inv(s: State) {
    && AllWellformed(s.orders)
    && (forall i :: 0 <= i < |s.orders| ==> LinesKnown(s.products, s.orders[i]))
    && s.supply.Keys == s.products.Keys
    && Accounts(s)
    && ByAge(s.orders, s.clock)
  }

  lemma CreateOrderKeepsInv(s: State, user: UserId, address: AddressId, items: seq<ItemRequest>, now: Time)
    requires Inv(s) && s.clock <= now
    ensures Inv(CreateOrder(s, user, address, items, now).0)
  {
    CreateOrderIff(s, user, address, items, now);
    if Orderable(s, user, address, items) {
      ReserveStock(s.products, items);
      ReserveLines(s.products, items);
      var s' := CreateOrder(s, user, address, items, now).0;
      var o := s'.orders[|s.orders|];
      assert Wellformed(o);
      forall p | p in s'.products ensures s'.products[p].stock + Outstanding(s'.orders, p) == s'.supply[p] {
        ReserveQuantity(s.products, items, p);
        OutstandingAppend(s.orders, o, p);
      }
    }
  }

  /** Rewriting one row keeps the invariant if what it returns goes back on the shelf. */
  lemma ReplaceRowKeepsInv(s: State, s': State, id: OrderId, o: Order)
    requires Inv(s) && id < |s.orders| && Wellformed(o)
    requires o.lines == s.orders[id].lines && o.createdAt == s.orders[id].createdAt
    requires s'.orders == s.orders[id := o] && s'.supply == s.supply && s.clock <= s'.clock
    requires s'.products.Keys == s.products.Keys
    requires forall p :: p in s.products ==>
      s'.products[p].stock == s.products[p].stock + Returned(o, p) - Returned(s.orders[id], p)
    ensures Inv(s')
  {
    assert LinesKnown(s.products, s.orders[id]);
    forall i | 0 <= i < |s'.orders| ensures LinesKnown(s'.products, s'.orders[i]) {
      assert LinesKnown(s.products, s.orders[i]);
    }
    forall p | p in s'.products ensures s'.products[p].stock + Outstanding(s'.orders, p) == s'.supply[p] {
      OutstandingUpdate(s.orders, id, o, p);
    }
  }

  lemma AdminOrderWellformed(o: Order, next: Status, tracking: Option<string>, choice: map<ProductId, nat>, now: Time)
    requires Wellformed(o) && ValidChoice(o.lines, choice) && Transition(o.status, next)
    requires (tracking.Some? || o.tracking.Some?) <==> SupportsTracking(next)
    ensures Wellformed(AdminOrder(o, next, tracking, choice, now))
    ensures forall p :: Returned(AdminOrder(o, next, tracking, choice, now), p)
                     == Returned(o, p) + if RestoresStock(o.status, next) then Joined(o.lines, choice, p) else 0
  {
  }

  lemma AdminRow(s: State, id: OrderId, next: Status, tracking: Option<string>, choice: map<ProductId, nat>, now: Time)
    requires id < |s.orders| && ValidChoice(s.orders[id].lines, choice) && Wellformed(s.orders[id])
    requires UpdateOrderForAdmin(s, id, next, tracking, choice, now).1 == Done
    ensures var s' := UpdateOrderForAdmin(s, id, next, tracking, choice, now).0;
      && |s'.orders| == |s.orders| && s'.orders == s.orders[id := s'.orders[id]]
      && Wellformed(s'.orders[id]) && s'.orders[id].lines == s.orders[id].lines
      && s'.orders[id].createdAt == s.orders[id].createdAt
      && s'.products.Keys == s.products.Keys
      && forall p :: p in s.products ==>
           s'.products[p].stock == s.products[p].stock + Returned(s'.orders[id], p) - Returned(s.orders[id], p)
  {
    AdminOrderWellformed(s.orders[id], next, tracking, choice, now);
  }

  lemma AdminKeepsInv(s: State, id: OrderId, next: Status, tracking: Option<string>, choice: map<ProductId, nat>, now: Time)
    requires Inv(s) && s.clock <= now && (id < |s.orders| ==> ValidChoice(s.orders[id].lines, choice))
    ensures Inv(UpdateOrderForAdmin(s, id, next, tracking, choice, now).0)
  {
    var (s', r) := UpdateOrderForAdmin(s, id, next, tracking, choice, now);
    if r == Done {
      AdminRow(s, id, next, tracking, choice, now);
      ReplaceRowKeepsInv(s, s', id, s'.orders[id]);
    }
  }

  lemma SlipKeepsInv(s: State, user: UserId, id: OrderId, slip: string, now: Time)
    requires Inv(s) && s.clock <= now
    ensures Inv(UpdateOrderPaymentSlip(s, user, id, slip, now).0)
  {
    var (s', r) := UpdateOrderPaymentSlip(s, user, id, slip, now);
    if r == Done {
      assert Wellformed(s.orders[id]);
      ReplaceRowKeepsInv(s, s', id, s'.orders[id]);
    }
  }

  lemma CancelKeepsRows(products: map<ProductId, Product>, orders: seq<Order>, ids: seq<OrderId>, clock: Time, now: Time)
    requires ByAge(orders, clock) && clock <= now
    requires forall i :: 0 <= i < |orders| ==> LinesKnown(products, orders[i])
    ensures ByAge(Cancel(orders, ids, now), now)
    ensures forall i :: 0 <= i < |orders| ==> LinesKnown(products, Cancel(orders, ids, now)[i])
  {
  }

  lemma CancelStaleKeepsInv(s: State, t: Timeouts, locked: set<OrderId>, now: Time)
    requires Inv(s) && s.clock <= now
    ensures Inv(CancelStaleOrders(s, t, locked, now).0)
  {
    var (s', r) := CancelStaleOrders(s, t, locked, now);
    var ids := StaleIds(t, s.orders, locked, now);
    if ids != [] && r == Done {
      OutstandingCancel(s.orders, ids, now, 0);
      CancelKeepsRows(s.products, s.orders, ids, s.clock, now);
      assert s'.products.Keys == s.products.Keys;
      forall i | 0 <= i < |s'.orders| ensures LinesKnown(s'.products, s'.orders[i]) {
        assert LinesKnown(s.products, s'.orders[i]);
      }
      forall p | p in s'.products ensures s'.products[p].stock + Outstanding(s'.orders, p) == s'.supply[p] {
        OutstandingCancel(s.orders, ids, now, p);
      }
    }
  }

  lemma {:induction false} OutstandingOfNew(orders: seq<Order>, products: map<ProductId, Product>, p: ProductId)
    requires AllWellformed(orders) && p !in products
    requires forall i :: 0 <= i < |orders| ==> LinesKnown(products, orders[i])
    ensures Outstanding(orders, p) == 0
  {
    if orders != [] {
      var n := |orders| - 1;
      OutstandingOfNew(orders[..n], products, p);
      assert LinesKnown(products, orders[n]);
      QuantityAbsent(orders[n].lines, p);
    }
  }

  lemma StepKeepsInv(s: State, op: Op)
    requires Inv(s) && Possible(s, op)
    ensures Inv(Step(s, op).0)
  {
    match op
    case CreateOrderOp(user, address, items, now) => CreateOrderKeepsInv(s, user, address, items, now);
    case AdminOp(id, next, tracking, choice, now) => AdminKeepsInv(s, id, next, tracking, choice, now);
    case SlipOp(user, id, slip, now) => SlipKeepsInv(s, user, id, slip, now);
    case CancelStaleOp(timeouts, locked, now) => CancelStaleKeepsInv(s, timeouts, locked, now);
    case CreateProductOp(p, row) => OutstandingOfNew(s.orders, s.products, p);
    case EditProductOp(p, name, price, stock, active) =>
    case CartOp(user, cart) =>
    case AddressOp(a, owner) =>
  }

  lemma {:induction false} RunKeepsInv(s: State, ops: seq<Op>)
    requires Inv(s) && ValidRun(s, ops)
    ensures Inv(Run(s, ops))
    decreases |ops|
  {
    if ops != [] {
      StepKeepsInv(s, ops[0]);
      RunKeepsInv(Step(s, ops[0]).0, ops[1..]);
    }
  }

  // ---- conservation ----

  /** An admin cancelled an order that listed the product on several lines. */
  ghost predicate Leaks(o: Order, p: ProductId) {
    o.closing.ByAdmin? && Repeats(o.lines, p)
  }

  ghost predicate AnyLeak(orders: seq<Order>, p: ProductId) {
    exists i :: 0 <= i < |orders| && Leaks(orders[i], p)
  }

  lemma AnyLeakStep(orders: seq<Order>, p: ProductId)
    requires orders != []
    ensures AnyLeak(orders, p) <==> AnyLeak(orders[..|orders| - 1], p) || Leaks(orders[|orders| - 1], p)
  {
  }

  /** What the leaking orders failed to return: all their lines of the product but the one joined. */
  ghost function Lost(orders: seq<Order>, p: ProductId): int
    requires AllWellformed(orders)
  {
    if orders == [] then 0
    else
      var last := orders[|orders| - 1];
      Lost(orders[..|orders| - 1], p)
      + if Leaks(last, p) then Quantity(last.lines, p) - Joined(last.lines, last.closing.choice, p) else 0
  }

  lemma LostByOne(o: Order, p: ProductId)
    requires Wellformed(o)
    ensures var held := if o.status != Cancelled then Quantity(o.lines, p) else 0;
            Quantity(o.lines, p) - Returned(o, p)
            == held + if Leaks(o, p) then Quantity(o.lines, p) - Joined(o.lines, o.closing.choice, p) else 0
    ensures Leaks(o, p) ==> Quantity(o.lines, p) > Joined(o.lines, o.closing.choice, p)
  {
    if o.closing.ByAdmin? {
      JoinReturnsOneLine(o.lines, o.closing.choice, p);
    }
  }

  lemma {:induction false} HeldAndLost(orders: seq<Order>, p: ProductId)
    requires AllWellformed(orders)
    ensures Outstanding(orders, p) == Held(orders, p) + Lost(orders, p)
    ensures Lost(orders, p) >= 0
    ensures Lost(orders, p) == 0 <==> !AnyLeak(orders, p)
  {
    if orders != [] {
      HeldAndLost(orders[..|orders| - 1], p);
      LostByOne(orders[|orders| - 1], p);
      AnyLeakStep(orders, p);
    }
  }

  /** Stock conservation over every run: supply is what is on the shelf, what uncancelled orders
      hold, and exactly what the leaking orders lost; which is nothing if and only if no admin has
      cancelled an order that lists the product on several lines. */
  lemma Conservation(clock: Time, ops: seq<Op>, p: ProductId)
    requires ValidRun(Empty(clock), ops) && p in Run(Empty(clock), ops).products
    ensures var s := Run(Empty(clock), ops);
      && p in s.supply && AllWellformed(s.orders)
      && s.products[p].stock + Held(s.orders, p) + Lost(s.orders, p) == s.supply[p]
      && 0 <= s.products[p].stock && 0 <= Lost(s.orders, p)
      && (Lost(s.orders, p) == 0 <==> !AnyLeak(s.orders, p))
  {
    RunKeepsInv(Empty(clock), ops);
    HeldAndLost(Run(Empty(clock), ops).orders, p);
  }

  // ---- a run that loses stock ----

  lemma StepThenRun(s: State, op: Op, ops: seq<Op>)
    requires Possible(s, op) && ValidRun(Step(s, op).0, ops)
    ensures ValidRun(s, [op] + ops) && Run(s, [op] + ops) == Run(Step(s, op).0, ops)
  {
    assert ([op] + ops)[0] == op && ([op] + ops)[1..] == ops;
  }

  const STEAK: Product := Product("steak", 500, 2, true)
  const TWICE: seq<ItemRequest> := [ItemRequest(7, 1), ItemRequest(7, 1)]

  function Stocked(): State {
    State(map[7 := STEAK], [], map[], map[1 := 3], map[7 := 2], 0)
  }

  lemma TwiceIsReserved()
    ensures Reserve(map[7 := STEAK], TWICE)
         == Reserved(map[7 := STEAK.(stock := 0)], [Line(7, "steak", 1, 500), Line(7, "steak", 1, 500)])
  {
    assert TWICE[..1] == [TWICE[0]] && TWICE[..1][..0] == [];
    var one := map[7 := STEAK.(stock := 1)];
    assert ReserveOne(map[7 := STEAK], [], TWICE[0]) == Reserved(one, [Line(7, "steak", 1, 500)]);
    assert Reserve(map[7 := STEAK], TWICE[..1]) == Reserved(one, [Line(7, "steak", 1, 500)]);
  }

  /** The order of a run that loses stock, as placed. */
  function Doubled(): Order {
    Order(3, [Line(7, "steak", 1, 500), Line(7, "steak", 1, 500)], 1000, Pending, None, None, 0, 0, Open)
  }

  lemma DoubledSums()
    ensures LinesTotal(Doubled().lines) == 1000 && Quantity(Doubled().lines, 7) == 2
  {
    var lines := Doubled().lines;
    assert lines[..1] == [lines[0]] && lines[..1][..0] == [];
  }

  lemma DoubledIsPlaced()
    ensures CreateOrder(Stocked(), 3, 1, TWICE, 0)
         == (Stocked().(products := map[7 := STEAK.(stock := 0)], orders := [Doubled()]), Done)
  {
    TwiceIsReserved();
    DoubledSums();
    Placed(Stocked(), 3, 1, TWICE, 0);
    assert Stocked().orders + [Doubled()] == [Doubled()];
  }

  /** Two units of a product are supplied and bought on two lines of one order; an admin cancels the
      order, and one unit is back on the shelf, none is held, and one is lost. */
  lemma RepeatedLineLosesStock()
    ensures var ops := [CreateProductOp(7, STEAK), AddressOp(1, Some(3)), CreateOrderOp(3, 1, TWICE, 0),
                        AdminOp(0, Cancelled, None, map[7 := 1], 0)];
      && ValidRun(Empty(0), ops)
      && (var s := Run(Empty(0), ops);
          && 7 in s.products && s.products[7].stock == 1 && s.supply == map[7 := 2] && Held(s.orders, 7) == 0
          && |s.orders| == 1 && s.orders[0].status == Cancelled && Quantity(s.orders[0].lines, 7) == 2)
  {
    var placed := Stocked().(products := map[7 := STEAK.(stock := 0)], orders := [Doubled()]);
    var cancel := AdminOp(0, Cancelled, None, map[7 := 1], 0);
    DoubledIsPlaced();
    DoubledSums();
    DoubledIsCancelled(placed);
    var create := CreateOrderOp(3, 1, TWICE, 0);
    StepThenRun(placed, cancel, []);
    assert [cancel] + [] == [cancel];
    StepThenRun(Stocked(), create, [cancel]);
    assert [create] + [cancel] == [create, cancel];
    SetUp([create, cancel]);
    assert [CreateProductOp(7, STEAK)] + ([AddressOp(1, Some(3))] + [create, cancel])
        == [CreateProductOp(7, STEAK), AddressOp(1, Some(3)), create, cancel];
  }

  lemma SetUp(ops: seq<Op>)
    requires ValidRun(Stocked(), ops)
    ensures ValidRun(Empty(0), [CreateProductOp(7, STEAK)] + ([AddressOp(1, Some(3))] + ops))
    ensures Run(Empty(0), [CreateProductOp(7, STEAK)] + ([AddressOp(1, Some(3))] + ops)) == Run(Stocked(), ops)
  {
    var s1 := Step(Empty(0), CreateProductOp(7, STEAK)).0;
    assert Step(s1, AddressOp(1, Some(3))).0 == Stocked();
    StepThenRun(s1, AddressOp(1, Some(3)), ops);
    StepThenRun(Empty(0), CreateProductOp(7, STEAK), [AddressOp(1, Some(3))] + ops);
  }

  lemma DoubledIsCancelled(s: State)
    requires s.orders == [Doubled()] && s.products == map[7 := STEAK.(stock := 0)] && s.clock == 0
    ensures var choice := map[7 := 1];
      && ValidChoice(Doubled().lines, choice)
      && (var (s', r) := UpdateOrderForAdmin(s, 0, Cancelled, None, choice, 0);
          && r == Done && s'.supply == s.supply
          && 7 in s'.products && s'.products[7].stock == 1
          && |s'.orders| == 1 && s'.orders[0].status == Cancelled && s'.orders[0].lines == Doubled().lines
          && Held(s'.orders, 7) == 0)
  {
    var choice := map[7 := 1];
    assert ValidChoice(Doubled().lines, choice);
    var (s', r) := UpdateOrderForAdmin(s, 0, Cancelled, None, choice, 0);
    assert JoinedMap(s.products, Doubled().lines, choice) == map[7 := 1];
    assert s'.orders[..0] == [];
  }

  // ---- what an order keeps for ever ----

  function Rank(status: Status): nat {
    match status
    case Pending => 0
    case PaymentReview => 1
    case PaymentFailed => 1
    case Paid => 2
    case Shipped => 3
    case Delivered => 4
    case Cancelled => 4
  }

  /** From one state of an order to a later one. */
  ghost predicate Evolves(o: Order, o': Order) {
    && o'.userId == o.userId && o'.lines == o.lines && o'.total == o.total && o'.createdAt == o.createdAt
    && Rank(o.status) <= Rank(o'.status)
    && (o.status in {Delivered, Cancelled} ==> o'.status == o.status)
    && (!o.closing.Open? ==> o'.closing == o.closing)
    && (SupportsTracking(o.status) ==> SupportsTracking(o'.status))
  }

  lemma StepEvolves(s: State, op: Op, i: nat)
    requires Inv(s) && Possible(s, op) && i < |s.orders|
    ensures i < |Step(s, op).0.orders| && Evolves(s.orders[i], Step(s, op).0.orders[i])
  {
    match op
    case AdminOp(id, next, tracking, choice, now) =>
      if id == i {
        AdminEvolves(s, id, next, tracking, choice, now);
      }
    case SlipOp(user, id, slip, now) => SlipEvolves(s, user, id, slip, now, i);
    case CancelStaleOp(timeouts, locked, now) => CancelStaleEvolves(s, timeouts, locked, now, i);
    case CreateOrderOp(user, address, items, now) => CreateLeavesOrders(s, user, address, items, now, i);
    case CreateProductOp(p, row) => assert Step(s, op).0.orders == s.orders;
    case EditProductOp(p, name, price, stock, active) => assert Step(s, op).0.orders == s.orders;
    case CartOp(user, cart) =>
    case AddressOp(a, owner) =>
  }

  lemma CreateLeavesOrders(s: State, user: UserId, address: AddressId, items: seq<ItemRequest>, now: Time, i: nat)
    requires i < |s.orders|
    ensures var s' := CreateOrder(s, user, address, items, now).0; i < |s'.orders| && s'.orders[i] == s.orders[i]
  {
  }

  lemma SlipEvolves(s: State, user: UserId, id: OrderId, slip: string, now: Time, i: nat)
    requires Inv(s) && i < |s.orders|
    ensures var s' := UpdateOrderPaymentSlip(s, user, id, slip, now).0;
            i < |s'.orders| && Evolves(s.orders[i], s'.orders[i])
  {
  }

  lemma CancelStaleRow(s: State, t: Timeouts, locked: set<OrderId>, now: Time, i: nat)
    requires i < |s.orders|
    ensures var s' := CancelStaleOrders(s, t, locked, now).0;
      |s'.orders| == |s.orders|
      && (s'.orders[i] == s.orders[i]
          || (s.orders[i].status in {Pending, PaymentFailed} && s'.orders[i] == InBatch(s.orders[i], now)))
  {
  }

  lemma CancelStaleEvolves(s: State, t: Timeouts, locked: set<OrderId>, now: Time, i: nat)
    requires Inv(s) && i < |s.orders|
    ensures var s' := CancelStaleOrders(s, t, locked, now).0;
            i < |s'.orders| && Evolves(s.orders[i], s'.orders[i])
  {
    assert Wellformed(s.orders[i]);
    CancelStaleRow(s, t, locked, now, i);
  }

  lemma AdminOrderEvolves(o: Order, next: Status, tracking: Option<string>, choice: map<ProductId, nat>, now: Time)
    requires Wellformed(o) && Transition(o.status, next)
    ensures Evolves(o, AdminOrder(o, next, tracking, choice, now))
  {
  }

  lemma AdminEvolves(s: State, id: OrderId, next: Status, tracking: Option<string>, choice: map<ProductId, nat>, now: Time)
    requires Inv(s) && id < |s.orders| && ValidChoice(s.orders[id].lines, choice)
    ensures var s' := UpdateOrderForAdmin(s, id, next, tracking, choice, now).0;
            id < |s'.orders| && Evolves(s.orders[id], s'.orders[id])
  {
    if UpdateOrderForAdmin(s, id, next, tracking, choice, now).1 == Done {
      assert Wellformed(s.orders[id]);
      AdminOrderEvolves(s.orders[id], next, tracking, choice, now);
    }
  }

  /** Over every run an order's lines, prices, total and owner never change, its status never
      goes back, DELIVERED and CANCELLED are never left, a shipped order is never cancelled, and the
      stock of an order is returned at most once. */
  lemma {:induction false} OrdersOnlyEvolve(s: State, ops: seq<Op>, i: nat)
    requires Inv(s) && ValidRun(s, ops) && i < |s.orders|
    ensures i < |Run(s, ops).orders| && Evolves(s.orders[i], Run(s, ops).orders[i])
    decreases |ops|
  {
    if ops != [] {
      StepEvolves(s, ops[0], i);
      StepKeepsInv(s, ops[0]);
      OrdersOnlyEvolve(Step(s, ops[0]).0, ops[1..], i);
    }
  }

  /** Somewhere along the run, both ends included, the order has this status. */
  predicate Visits(s: State, ops: seq<Op>, i: nat, status: Status)
    requires ValidRun(s, ops)
    decreases |ops|
  {
    (i < |s.orders| && s.orders[i].status == status)
    || (ops != [] && Visits(Step(s, ops[0]).0, ops[1..], i, status))
  }

  /** Whoever moves an order, its status follows the transition table. */
  lemma StepFollowsTable(s: State, op: Op, i: nat)
    requires Possible(s, op) && i < |s.orders|
    ensures i < |Step(s, op).0.orders| && Transition(s.orders[i].status, Step(s, op).0.orders[i].status)
  {
    match op
    case AdminOp(id, next, tracking, choice, now) => AdminFollowsTable(s, id, next, tracking, choice, now);
    case SlipOp(user, id, slip, now) => SlipIff(s, user, id, slip, now);
    case CancelStaleOp(timeouts, locked, now) => CancelStaleRow(s, timeouts, locked, now, i);
    case CreateOrderOp(user, address, items, now) => CreateLeavesOrders(s, user, address, items, now, i);
    case CreateProductOp(p, row) => assert Step(s, op).0.orders == s.orders;
    case EditProductOp(p, name, price, stock, active) => assert Step(s, op).0.orders == s.orders;
    case CartOp(user, cart) =>
    case AddressOp(a, owner) =>
  }

  lemma AdminFollowsTable(s: State, id: OrderId, next: Status, tracking: Option<string>, choice: map<ProductId, nat>, now: Time)
    requires id < |s.orders| ==> ValidChoice(s.orders[id].lines, choice)
    ensures var s' := UpdateOrderForAdmin(s, id, next, tracking, choice, now).0;
      && |s'.orders| == |s.orders|
      && forall i :: 0 <= i < |s.orders| ==> Transition(s.orders[i].status, s'.orders[i].status)
  {
  }

  /** No order is shipped without having been paid. */
  lemma {:induction false} ShippedWasPaid(s: State, ops: seq<Op>, i: nat)
    requires Inv(s) && ValidRun(s, ops) && i < |s.orders|
    requires s.orders[i].status in {Pending, PaymentReview, PaymentFailed}
    requires i < |Run(s, ops).orders| && SupportsTracking(Run(s, ops).orders[i].status)
    ensures Visits(s, ops, i, Paid)
    decreases |ops|
  {
    if ops != [] {
      var s' := Step(s, ops[0]).0;
      StepKeepsInv(s, ops[0]);
      StepFollowsTable(s, ops[0], i);
      StepEvolves(s, ops[0], i);
      if s'.orders[i].status in {Pending, PaymentReview, PaymentFailed} {
        ShippedWasPaid(s', ops[1..], i);
      } else if s'.orders[i].status == Cancelled {
        OrdersOnlyEvolve(s', ops[1..], i);
      }
    }
  }

  /** No payment is approved without having been under review. */
  lemma {:induction false} PaidWasReviewed(s: State, ops: seq<Op>, i: nat)
    requires Inv(s) && ValidRun(s, ops) && i < |s.orders|
    requires s.orders[i].status in {Pending, PaymentFailed}
    requires i < |Run(s, ops).orders| && Run(s, ops).orders[i].status in {Paid, Shipped, Delivered}
    ensures Visits(s, ops, i, PaymentReview)
    decreases |ops|
  {
    if ops != [] {
      var s' := Step(s, ops[0]).0;
      StepKeepsInv(s, ops[0]);
      StepFollowsTable(s, ops[0], i);
      StepEvolves(s, ops[0], i);
      if s'.orders[i].status in {Pending, PaymentFailed} {
        PaidWasReviewed(s', ops[1..], i);
      } else if s'.orders[i].status == Cancelled {
        OrdersOnlyEvolve(s', ops[1..], i);
      }
    }
  }

  /** The tracking and total rules hold of every order of every reachable state. */
  lemma ReachableOrders(clock: Time, ops: seq<Op>, i: nat)
    requires ValidRun(Empty(clock), ops) && i < |Run(Empty(clock), ops).orders|
    ensures var o := Run(Empty(clock), ops).orders[i];
      && (o.tracking.Some? <==> o.status == Shipped || o.status == Delivered)
      && o.total == LinesTotal(o.lines)
  {
    RunKeepsInv(Empty(clock), ops);
    assert Wellformed(Run(Empty(clock), ops).orders[i]);
  }

  // ---- the admin summary ----

  datatype Summary = Summary(all: nat, pending: nat, paymentReview: nat, paymentFailed: nat, paid: nat,
                             shipped: nat, delivered: nat, cancelled: nat, tracked: nat)

  function Tick(b: bool): nat {
    if b then 1 else 0
  }

  /** COUNT(*) with its FILTER clauses over the rows that match the search. */
  function AdminSummary(orders: seq<Order>, matching: set<OrderId>): Summary {
    if orders == [] then Summary(0, 0, 0, 0, 0, 0, 0, 0, 0)
    else
      var n := |orders| - 1;
      var rest, o := AdminSummary(orders[..n], matching), orders[n];
      if n !in matching then rest
      else Summary(rest.all + 1,
                   rest.pending + Tick(o.status == Pending),
                   rest.paymentReview + Tick(o.status == PaymentReview),
                   rest.paymentFailed + Tick(o.status == PaymentFailed),
                   rest.paid + Tick(o.status == Paid),
                   rest.shipped + Tick(o.status == Shipped),
                   rest.delivered + Tick(o.status == Delivered),
                   rest.cancelled + Tick(o.status == Cancelled),
                   rest.tracked + Tick(o.tracking.Some?))
  }

  lemma {:induction false} SummaryAddsUp(orders: seq<Order>, matching: set<OrderId>)
    requires AllWellformed(orders)
    ensures var m := AdminSummary(orders, matching);
      && m.all == m.pending + m.paymentReview + m.paymentFailed + m.paid + m.shipped + m.delivered + m.cancelled
      && m.tracked == m.shipped + m.delivered
  {
    if orders != [] {
      assert Wellformed(orders[|orders| - 1]);
      SummaryAddsUp(orders[..|orders| - 1], matching);
    }
  }

  /** In every reachable state and for every search, the seven status counts partition the total
      and the tracked orders are the shipped and the delivered ones. */
  lemma ReachableSummary(clock: Time, ops: seq<Op>, matching: set<OrderId>)
    requires ValidRun(Empty(clock), ops)
    ensures var m := AdminSummary(Run(Empty(clock), ops).orders, matching);
      && m.all == m.pending + m.paymentReview + m.paymentFailed + m.paid + m.shipped + m.delivered + m.cancelled
      && m.tracked == m.shipped + m.delivered
  {
    RunKeepsInv(Empty(clock), ops);
    SummaryAddsUp(Run(Empty(clock), ops).orders, matching);
  }

  // ---- the batch takes the oldest ----

  /** The batch misses a stale unlocked order only when it is full, and then every order in it
      was created no later. */
  lemma {:induction false} StaleIdsComplete(t: Timeouts, orders: seq<Order>, locked: set<OrderId>, now: Time, i: nat)
    requires i < |orders| && i !in locked && Stale(t, orders[i], now)
    ensures var ids := StaleIds(t, orders, locked, now);
      i in ids || (|ids| == STALE_ORDER_BATCH_SIZE && forall k :: 0 <= k < |ids| ==> ids[k] < i)
  {
    var n := |orders| - 1;
    if i < n {
      StaleIdsComplete(t, orders[..n], locked, now, i);
      var ids := StaleIds(t, orders[..n], locked, now);
      assert StaleIds(t, orders, locked, now)[..|ids|] == ids;
    } else if |StaleIds(t, orders[..n], locked, now)| < STALE_ORDER_BATCH_SIZE {
      var ids := StaleIds(t, orders, locked, now);
      assert ids[|ids| - 1] == i;
    }
  }

  lemma BatchTakesOldest(s: State, t: Timeouts, locked: set<OrderId>, now: Time, i: nat)
    requires Inv(s) && i < |s.orders| && i !in locked && Stale(t, s.orders[i], now)
    ensures var ids := StaleIds(t, s.orders, locked, now);
      i in ids || (|ids| == STALE_ORDER_BATCH_SIZE
                   && forall k :: 0 <= k < |ids| ==> s.orders[ids[k]].createdAt <= s.orders[i].createdAt)
  {
    StaleIdsComplete(t, s.orders, locked, now, i);
  }

  /** A batch cancellation cancels exactly its batch, and returns for each product all the lines
      of all the orders in it. */
  lemma BatchEffect(s: State, t: Timeouts, locked: set<OrderId>, now: Time)
    requires Inv(s) && CancelStaleOrders(s, t, locked, now).1 == Done
    ensures var s', ids := CancelStaleOrders(s, t, locked, now).0, StaleIds(t, s.orders, locked, now);
      && |s'.orders| == |s.orders|
      && (forall i :: 0 <= i < |s.orders| ==>
            if i in ids then s'.orders[i].status == Cancelled && s.orders[i].status in {Pending, PaymentFailed}
            else s'.orders[i] == s.orders[i])
      && s'.products.Keys == s.products.Keys
      && (forall p :: p in s.products ==> s'.products[p].stock == s.products[p].stock + Grouped(s.orders, ids, p))
  {
    var ids := StaleIds(t, s.orders, locked, now);
    if ids == [] {
      forall p | p in s.products ensures Grouped(s.orders, ids, p) == 0 { }
    }
  }

  // ---- the admin's and the customer's moves ----

  const CHAIN: seq<Status> := [Pending, PaymentReview, Paid, Shipped, Delivered]

  /** An order moves one link along the chain, back and forth between review and failure, or to
      cancellation as long as it has not been shipped. */
  lemma TransitionsAre(a: Status, b: Status)
    ensures Transition(a, b) <==>
      || a == b
      || (exists k :: 0 <= k < 4 && a == CHAIN[k] && b == CHAIN[k + 1])
      || (a == PaymentReview && b == PaymentFailed) || (a == PaymentFailed && b == PaymentReview)
      || (b == Cancelled && Rank(a) <= 2)
  {
    assert CHAIN[0] == Pending && CHAIN[1] == PaymentReview && CHAIN[2] == Paid && CHAIN[3] == Shipped && CHAIN[4] == Delivered;
  }

  /** In a reachable state an admin update goes through if and only if the order exists, the
      transition is allowed, the order ends up with a tracking number exactly when the new status
      takes one, and returned stock fits its column. A new number replaces the old one. */
  lemma AdminUpdateIff(s: State, id: OrderId, next: Status, tracking: Option<string>, choice: map<ProductId, nat>, now: Time)
    requires Inv(s) && (id < |s.orders| ==> ValidChoice(s.orders[id].lines, choice))
    ensures var (s', r) := UpdateOrderForAdmin(s, id, next, tracking, choice, now);
      && (r == Done <==>
            && id < |s.orders| && Transition(s.orders[id].status, next)
            && ((tracking.Some? || s.orders[id].tracking.Some?) <==> SupportsTracking(next))
            && (next == Cancelled && s.orders[id].status != Cancelled ==>
                  InRange(s.products, JoinedMap(s.products, s.orders[id].lines, choice))))
      && (r == Done ==>
            && |s'.orders| == |s.orders|
            && s'.orders[id].status == next && s'.orders[id].updatedAt == now
            && s'.orders[id].tracking == (if tracking.Some? then tracking else s.orders[id].tracking)
            && (forall i :: 0 <= i < |s.orders| && i != id ==> s'.orders[i] == s.orders[i]))
      && (r != Done ==> s' == s)
  {
    if id < |s.orders| {
      assert Wellformed(s.orders[id]);
    }
  }

  /** A customer may hand in a slip exactly until the payment is approved; the order is then under
      review, and no stock moves. */
  lemma SlipIff(s: State, user: UserId, id: OrderId, slip: string, now: Time)
    ensures var (s', r) := UpdateOrderPaymentSlip(s, user, id, slip, now);
      && (r == Done <==> id < |s.orders| && s.orders[id].userId == user && Rank(s.orders[id].status) < 2)
      && (r == Done ==>
            && |s'.orders| == |s.orders|
            && s'.orders[id].status == PaymentReview && s'.orders[id].slip == Some(slip) && s'.orders[id].updatedAt == now
            && (forall i :: 0 <= i < |s.orders| && i != id ==> s'.orders[i] == s.orders[i]))
      && s'.products == s.products && (r != Done ==> s' == s)
  {
  }

  /** Nothing is cancelled automatically before its timeout has run out. */
  lemma OnlyOverdueAreCancelled(s: State, t: Timeouts, locked: set<OrderId>, now: Time, i: nat)
    requires i < |s.orders| && CancelStaleOrders(s, t, locked, now).0.orders[i] != s.orders[i]
    ensures i !in locked
    ensures if s.orders[i].status == Pending then t.pendingMinutes > 0 && now - s.orders[i].createdAt >= t.pendingMinutes * MINUTE
            else s.orders[i].status == PaymentFailed && t.failedMinutes > 0
                 && now - s.orders[i].updatedAt >= t.failedMinutes * MINUTE
  {
    StaleIdsUnlocked(t, s.orders, locked, now);
    var ids := StaleIds(t, s.orders, locked, now);
    assert i in ids;
    var k :| 0 <= k < |ids| && ids[k] == i;
    assert Stale(t, s.orders[ids[k]], now);
  }

  lemma {:induction false} StaleIdsUnlocked(t: Timeouts, orders: seq<Order>, locked: set<OrderId>, now: Time)
    ensures forall i :: 0 <= i < |StaleIds(t, orders, locked, now)| ==> StaleIds(t, orders, locked, now)[i] !in locked
  {
    if orders != [] {
      StaleIdsUnlocked(t, orders[..|orders| - 1], locked, now);
    }
  }
}
