// src/order/service.rs and src/shared/maintenance.rs: the tables, and the service functions as
// the statements they run. A failed transaction restores what it found at BEGIN.
module OrderStore {
  import opened Common
  import opened Orders
  import opened OrderRuns

  class Store {
    var products: map<ProductId, Product>
    var orders: seq<Order>
    var carts: map<UserId, map<ProductId, nat>>
    var addresses: map<AddressId, UserId>
    ghost var supply: map<ProductId, int>
    ghost var clock: Time

    constructor (now: Time)
      ensures Contents() == Empty(now) && Valid()
    {
      products, orders, carts, addresses, supply, clock := map[], [], map[], map[], map[], now;
    }

    ghost function Contents(): State
      reads this
    {
      State(products, orders, carts, addresses, supply, clock)
    }

    ghost predicate Valid()
      reads this
    {
      Inv(Contents())
    }

    /** src/cart/service.rs: empties the user's cart, if there is one. */
    method ClearCart(user: UserId)
      modifies this`carts
      ensures carts == if user in old(carts) then old(carts)[user := map[]] else old(carts)
    {
      if user in carts {
        carts := carts[user := map[]];
      }
    }

    /** One iteration of the loop: the checks, the stock update and the inserted line. */
    method ReserveItem(orderId: OrderId, item: ItemRequest) returns (failure: Option<Error>)
      requires orderId < |orders|
      modifies this`products, this`orders
      ensures match ReserveOne(old(products), old(orders)[orderId].lines, item)
        case Refused(error) => failure == Some(error) && unchanged(this)
        case Reserved(products', lines') =>
          failure == None && products == products'
          && orders == old(orders)[orderId := old(orders)[orderId].(lines := lines')]
    {
      if item.quantity <= 0 {
        return Some(InvalidQuantity);
      }
      if item.product !in products {
        return Some(ProductNotFound);
      }
      var product := products[item.product];
      if !product.active {
        return Some(ProductInactive);
      }
      if product.stock < item.quantity {
        return Some(InsufficientStock);
      }
      products := products[item.product := product.(stock := product.stock - item.quantity)];
      var line := Line(item.product, product.name, item.quantity, product.price);
      orders := orders[orderId := orders[orderId].(lines := orders[orderId].lines + [line])];
      return None;
    }

    /** The loop over the requested items. What it leaves after a failure is rolled back. */
    method ReserveItems(orderId: OrderId, items: seq<ItemRequest>) returns (failure: Option<Error>, totalAmount: int)
      requires orderId < |orders| && orders[orderId].lines == []
      modifies this`products, this`orders
      ensures match Reserve(old(products), items)
        case Refused(error) => failure == Some(error)
        case Reserved(products', lines') =>
          failure == None && products == products' && totalAmount == LinesTotal(lines')
          && orders == old(orders)[orderId := old(orders)[orderId].(lines := lines')]
    {
      totalAmount := 0;
      ghost var productsAtBegin, reserved := products, Reserve(products, []);
      for i := 0 to |items|
        invariant reserved == Reserve(productsAtBegin, items[..i]) && reserved.Reserved?
        invariant products == reserved.products && |reserved.lines| == i && totalAmount == LinesTotal(reserved.lines)
        invariant orders == old(orders)[orderId := old(orders)[orderId].(lines := reserved.lines)]
      {
        ReserveExtends(productsAtBegin, items, i);
        failure := ReserveItem(orderId, items[i]);
        if failure.Some? {
          return;
        }
        var line := orders[orderId].lines[i];
        totalAmount := totalAmount + line.quantity * line.price;
        LinesTotalAppend(reserved.lines, line);
        reserved := ReserveOne(reserved.products, reserved.lines, items[i]);
      }
      assert items[..|items|] == items;
      failure := None;
    }

    method CreateOrder(user: UserId, address: AddressId, items: seq<ItemRequest>, now: Time) returns (r: Result)
      requires Valid() && clock <= now
      modifies this
      ensures Valid() && (Contents(), r) == Orders.CreateOrder(old(Contents()), user, address, items, now)
    {
      CreateOrderKeepsInv(Contents(), user, address, items, now);
      if address !in addresses || addresses[address] != user {
        return Failed(InvalidAddress);
      }
      var productsAtBegin, ordersAtBegin := products, orders;
      var orderId := |orders|;
      orders := orders + [Order(user, [], 0, Pending, None, None, now, now, Open)];
      var failure, totalAmount := ReserveItems(orderId, items);
      if failure.Some? {
        products, orders := productsAtBegin, ordersAtBegin;
        return Failed(failure.value);
      }
      ReserveTotal(productsAtBegin, items);
      if totalAmount > MAX_AMOUNT {
        products, orders := productsAtBegin, ordersAtBegin;
        return Failed(OutOfRange);
      }
      orders := orders[orderId := orders[orderId].(total := totalAmount)];
      assert orders == ordersAtBegin
        + [Order(user, Reserve(productsAtBegin, items).lines, totalAmount, Pending, None, None, now, now, Open)];
      ClearCart(user);
      clock := now;
      Placed(old(Contents()), user, address, items, now);
      return Done;
    }

    /** The database's choice of one matching row per product in UPDATE ... FROM: for a product on
        several lines it may keep any of them. */
    method ChooseJoinRows(lines: seq<Line>) returns (choice: map<ProductId, nat>)
      ensures ValidChoice(lines, choice)
    {
      choice := map[];
      for i := 0 to |lines|
        invariant forall p :: p in choice ==> choice[p] < i && lines[choice[p]].product == p
        invariant forall k :: 0 <= k < i ==> lines[k].product in choice
      {
        var keepLater := *;
        if lines[i].product !in choice || keepLater {
          choice := choice[lines[i].product := i];
        }
      }
    }

    method UpdateOrderForAdmin(id: OrderId, next: Status, tracking: Option<string>, now: Time)
      returns (r: Result, choice: map<ProductId, nat>)
      requires Valid() && clock <= now
      modifies this
      ensures id < |old(orders)| ==> ValidChoice(old(orders)[id].lines, choice)
      ensures Valid() && (Contents(), r) == Orders.UpdateOrderForAdmin(old(Contents()), id, next, tracking, choice, now)
    {
      choice := map[];
      if id >= |orders| {
        return Failed(OrderNotFound), choice;
      }
      var order := orders[id];
      choice := ChooseJoinRows(order.lines);
      AdminKeepsInv(Contents(), id, next, tracking, choice, now);
      if !Transition(order.status, next) {
        return Failed(BadTransition), choice;
      }
      var finalTracking := tracking;
      if finalTracking.None? {
        finalTracking := order.tracking;
      }
      if finalTracking.Some? && !SupportsTracking(next) {
        return Failed(TrackingNotAllowed), choice;
      }
      if next == Shipped && finalTracking.None? {
        return Failed(TrackingRequired), choice;
      }
      ghost var closing := order.closing;
      if RestoresStock(order.status, next) {
        var returned := JoinedMap(products, order.lines, choice);
        if !InRange(products, returned) {
          return Failed(OutOfRange), choice;
        }
        products := Restock(products, returned);
        orders := orders[id := orders[id].(closing := ByAdmin(choice))];
      }
      orders := orders[id := orders[id].(status := next, tracking := finalTracking, updatedAt := now)];
      clock := now;
      assert orders == Orders.UpdateOrderForAdmin(old(Contents()), id, next, tracking, choice, now).0.orders;
      return Done, choice;
    }

    method UpdateOrderPaymentSlip(user: UserId, id: OrderId, slip: string, now: Time)
      returns (r: Result, previousSlip: Option<string>)
      requires Valid() && clock <= now
      modifies this
      ensures Valid() && (Contents(), r) == Orders.UpdateOrderPaymentSlip(old(Contents()), user, id, slip, now)
      ensures r == Done ==> id < |old(orders)| && previousSlip == old(orders)[id].slip
    {
      SlipKeepsInv(Contents(), user, id, slip, now);
      if id >= |orders| || orders[id].userId != user {
        return Failed(OrderNotFound), None;
      }
      var current := orders[id];
      if current.status != Pending && current.status != PaymentReview && current.status != PaymentFailed {
        return Failed(SlipTooLate), None;
      }
      orders := orders[id := current.(slip := Some(slip), status := PaymentReview, updatedAt := now)];
      clock := now;
      return Done, current.slip;
    }

    /** SELECT id ... ORDER BY created_at, id FOR UPDATE SKIP LOCKED LIMIT 100. */
    method FetchStaleOrderIds(t: Timeouts, locked: set<OrderId>, now: Time) returns (ids: seq<OrderId>)
      ensures ids == StaleIds(t, orders, locked, now)
    {
      ids := [];
      for i := 0 to |orders|
        invariant ids == StaleIds(t, orders[..i], locked, now)
      {
        assert orders[..i + 1][..i] == orders[..i];
        if |ids| < STALE_ORDER_BATCH_SIZE && i !in locked && Stale(t, orders[i], now) {
          ids := ids + [i];
        }
      }
      assert orders[..|orders|] == orders;
    }

    method CancelStaleOrders(t: Timeouts, locked: set<OrderId>, now: Time) returns (r: Result, count: nat)
      requires Valid() && clock <= now
      modifies this
      ensures Valid() && (Contents(), r) == Orders.CancelStaleOrders(old(Contents()), t, locked, now)
      ensures count == if r == Done then |StaleIds(t, old(orders), locked, now)| else 0
    {
      CancelStaleKeepsInv(Contents(), t, locked, now);
      var ids := FetchStaleOrderIds(t, locked, now);
      if ids == [] {
        return Done, 0;
      }
      var restored := GroupedMap(products, orders, ids);
      if !InRange(products, restored) {
        return Failed(OutOfRange), 0;
      }
      products := Restock(products, restored);
      orders := Cancel(orders, ids, now);
      clock := now;
      return Done, |ids|;
    }
  }

  lemma {:induction false} RefusalStays(products: map<ProductId, Product>, items: seq<ItemRequest>, k: nat)
    requires k <= |items| && Reserve(products, items[..k]).Refused?
    ensures Reserve(products, items) == Reserve(products, items[..k])
  {
    if k < |items| {
      var n := |items| - 1;
      assert items[..n][..k] == items[..k];
      RefusalStays(products, items[..n], k);
    } else {
      assert items[..k] == items;
    }
  }

  /** One more iteration of the loop, and what a refusal there means for the whole request. */
  lemma ReserveExtends(products: map<ProductId, Product>, items: seq<ItemRequest>, i: nat)
    requires i < |items| && Reserve(products, items[..i]).Reserved?
    ensures var before := Reserve(products, items[..i]);
            Reserve(products, items[..i + 1]) == ReserveOne(before.products, before.lines, items[i])
    ensures Reserve(products, items[..i + 1]).Refused? ==> Reserve(products, items) == Reserve(products, items[..i + 1])
  {
    assert items[..i + 1][..i] == items[..i];
    if Reserve(products, items[..i + 1]).Refused? {
      RefusalStays(products, items, i + 1);
    }
  }

  lemma LinesTotalAppend(lines: seq<Line>, line: Line)
    ensures LinesTotal(lines + [line]) == LinesTotal(lines) + line.quantity * line.price
  {
  }
}
