// src/order/service.rs and src/shared/maintenance.rs: orders, the stock they hold, and the ways
// it is given back, as transitions on the products, orders and carts tables.
module Orders {
  import opened Common

  type ProductId = nat
  type OrderId = nat      // the position of the row: ids are never reused and rows never deleted
  type UserId = nat
  type AddressId = nat

  const MAX_STOCK: nat := 2_147_483_647       // INT
  const MAX_AMOUNT: nat := 9_999_999_999      // DECIMAL(10, 2), in hundredths
  const STALE_ORDER_BATCH_SIZE: nat := 100

  datatype Product = Product(name: string, price: nat, stock: nat, active: bool)

  /** An order_items row: what was bought, with the name and price at that moment. */
  datatype Line = Line(product: ProductId, name: string, quantity: int, price: nat)

  datatype Status = Pending | PaymentReview | PaymentFailed | Paid | Shipped | Delivered | Cancelled

  /** How an order gave its stock back (history, not a column): not yet; by the join of an admin
      cancellation, with the line the database picked for each product; or by the grouped sum. */
  datatype Closing = Open | ByAdmin(choice: map<ProductId, nat>) | ByBatch

  datatype Order = Order(
    userId: UserId,
    lines: seq<Line>,
    total: nat,
    status: Status,
    tracking: Option<string>,
    slip: Option<string>,
    createdAt: Time,
    updatedAt: Time,
    closing: Closing
  )

  /** The tables; `supply` is the history of initial stock plus admin edits. */
  datatype State = State(
    products: map<ProductId, Product>,
    orders: seq<Order>,
    carts: map<UserId, map<ProductId, nat>>,
    addresses: map<AddressId, UserId>,
    supply: map<ProductId, int>,
    clock: Time
  )

  datatype Error =
    | InvalidAddress | InvalidQuantity | ProductNotFound | ProductInactive | InsufficientStock
    | OrderNotFound | SlipTooLate | BadTransition | TrackingNotAllowed | TrackingRequired
    | OutOfRange      // the database refuses the value and the transaction aborts

  datatype Result = Done | Failed(error: Error)

  // ---- sums over lines ----

  function Quantity(lines: seq<Line>, p: ProductId): int {
    if lines == [] then 0
    else
      var last := lines[|lines| - 1];
      Quantity(lines[..|lines| - 1], p) + if last.product == p then last.quantity else 0
  }

  function LinesTotal(lines: seq<Line>): int {
    if lines == [] then 0
    else LinesTotal(lines[..|lines| - 1]) + lines[|lines| - 1].quantity * lines[|lines| - 1].price
  }

  // ---- creating an order ----

  datatype ItemRequest = ItemRequest(product: ProductId, quantity: int)

  datatype Reservation = Reserved(products: map<ProductId, Product>, lines: seq<Line>) | Refused(error: Error)

  function ReserveOne(products: map<ProductId, Product>, lines: seq<Line>, item: ItemRequest): Reservation {
    if item.quantity <= 0 then Refused(InvalidQuantity)
    else if item.product !in products then Refused(ProductNotFound)
    else
      var p := products[item.product];
      if !p.active then Refused(ProductInactive)
      else if p.stock < item.quantity then Refused(InsufficientStock)
      else Reserved(products[item.product := p.(stock := p.stock - item.quantity)],
                    lines + [Line(item.product, p.name, item.quantity, p.price)])
  }

  /** The loop over the requested items, up to the first refusal. */
  function Reserve(products: map<ProductId, Product>, items: seq<ItemRequest>): Reservation {
    if items == [] then Reserved(products, [])
    else
      var before := Reserve(products, items[..|items| - 1]);
      if before.Refused? then before else ReserveOne(before.products, before.lines, items[|items| - 1])
  }

  function CreateOrder(s: State, user: UserId, address: AddressId, items: seq<ItemRequest>, now: Time): (State, Result) {
    if address !in s.addresses || s.addresses[address] != user then (s, Failed(InvalidAddress))
    else
      var r := Reserve(s.products, items);
      if r.Refused? then (s, Failed(r.error))
      else if !(0 <= LinesTotal(r.lines) <= MAX_AMOUNT) then (s, Failed(OutOfRange))
      else
        var order := Order(user, r.lines, LinesTotal(r.lines), Pending, None, None, now, now, Open);
        (s.(products := r.products, orders := s.orders + [order], clock := now,
            carts := if user in s.carts then s.carts[user := map[]] else s.carts), Done)
  }

  // ---- giving stock back ----

  /** One of the matching lines for each product that has any: what UPDATE ... FROM joins with. */
  predicate ValidChoice(lines: seq<Line>, choice: map<ProductId, nat>) {
    && (forall p :: p in choice ==> choice[p] < |lines| && lines[choice[p]].product == p)
    && (forall i :: 0 <= i < |lines| ==> lines[i].product in choice)
  }

  /** What the plain join of an admin cancellation returns for a product. */
  function Joined(lines: seq<Line>, choice: map<ProductId, nat>, p: ProductId): int
    requires ValidChoice(lines, choice)
  {
    if p in choice then lines[choice[p]].quantity else 0
  }

  /** What the grouped SUM over a batch of orders returns for a product. */
  function Grouped(orders: seq<Order>, ids: seq<OrderId>, p: ProductId): int
    requires forall i :: 0 <= i < |ids| ==> ids[i] < |orders|
  {
    if ids == [] then 0
    else Grouped(orders, ids[..|ids| - 1], p) + Quantity(orders[ids[|ids| - 1]].lines, p)
  }

  // ---- the order state machine ----

  predicate Transition(current: Status, next: Status) {
    current == next ||
    match current
    case Pending => next == PaymentReview || next == Cancelled
    case PaymentReview => next == Paid || next == PaymentFailed || next == Cancelled
    case PaymentFailed => next == PaymentReview || next == Cancelled
    case Paid => next == Shipped || next == Cancelled
    case Shipped => next == Delivered
    case Delivered => false
    case Cancelled => false
  }

  predicate SupportsTracking(status: Status) {
    status == Shipped || status == Delivered
  }

  predicate RestoresStock(current: Status, next: Status) {
    current != Cancelled && next == Cancelled
  }

  function Restock(products: map<ProductId, Product>, returned: map<ProductId, int>): map<ProductId, Product>
    requires returned.Keys == products.Keys && forall p :: p in products ==> products[p].stock + returned[p] >= 0
  {
    map p | p in products :: products[p].(stock := products[p].stock + returned[p])
  }

  /** INT range of the stock column. */
  predicate InRange(products: map<ProductId, Product>, returned: map<ProductId, int>)
    requires returned.Keys == products.Keys
  {
    forall p :: p in products ==> 0 <= products[p].stock + returned[p] <= MAX_STOCK
  }

  function JoinedMap(products: map<ProductId, Product>, lines: seq<Line>, choice: map<ProductId, nat>): (m: map<ProductId, int>)
    requires ValidChoice(lines, choice)
    ensures m.Keys == products.Keys
  {
    map p | p in products :: Joined(lines, choice, p)
  }

  function GroupedMap(products: map<ProductId, Product>, orders: seq<Order>, ids: seq<OrderId>): (m: map<ProductId, int>)
    requires forall i :: 0 <= i < |ids| ==> ids[i] < |orders|
    ensures m.Keys == products.Keys
  {
    map p | p in products :: Grouped(orders, ids, p)
  }

  /** The row written by a successful admin update. */
  function AdminOrder(o: Order, next: Status, tracking: Option<string>, choice: map<ProductId, nat>, now: Time): Order {
    var o' := o.(status := next, tracking := if tracking.Some? then tracking else o.tracking, updatedAt := now);
    if RestoresStock(o.status, next) then o'.(closing := ByAdmin(choice)) else o'
  }

  function UpdateOrderForAdmin(s: State, id: OrderId, next: Status, tracking: Option<string>,
                               choice: map<ProductId, nat>, now: Time): (State, Result)
    requires id < |s.orders| ==> ValidChoice(s.orders[id].lines, choice)
  {
    if id >= |s.orders| then (s, Failed(OrderNotFound))
    else
      var order := s.orders[id];
      var final := if tracking.Some? then tracking else order.tracking;
      if !Transition(order.status, next) then (s, Failed(BadTransition))
      else if final.Some? && !SupportsTracking(next) then (s, Failed(TrackingNotAllowed))
      else if next == Shipped && final.None? then (s, Failed(TrackingRequired))
      else
        var orders := s.orders[id := AdminOrder(order, next, tracking, choice, now)];
        if !RestoresStock(order.status, next) then (s.(orders := orders, clock := now), Done)
        else
          var returned := JoinedMap(s.products, order.lines, choice);
          if !InRange(s.products, returned) then (s, Failed(OutOfRange))
          else (s.(products := Restock(s.products, returned), orders := orders, clock := now), Done)
  }

  function UpdateOrderPaymentSlip(s: State, user: UserId, id: OrderId, slip: string, now: Time): (State, Result) {
    if id >= |s.orders| || s.orders[id].userId != user then (s, Failed(OrderNotFound))
    else if s.orders[id].status !in {Pending, PaymentReview, PaymentFailed} then (s, Failed(SlipTooLate))
    else
      var order' := s.orders[id].(slip := Some(slip), status := PaymentReview, updatedAt := now);
      (s.(orders := s.orders[id := order'], clock := now), Done)
  }

  // ---- automatic cancellation ----

  datatype Timeouts = Timeouts(pendingMinutes: int, failedMinutes: int)

  predicate Stale(t: Timeouts, o: Order, now: Time) {
    || (t.pendingMinutes > 0 && o.status == Pending && o.createdAt <= now - t.pendingMinutes * MINUTE)
    || (t.failedMinutes > 0 && o.status == PaymentFailed && o.updatedAt <= now - t.failedMinutes * MINUTE)
  }

  /** The first stale, unlocked orders in row order, at most one batch of them. */
  function StaleIds(t: Timeouts, orders: seq<Order>, locked: set<OrderId>, now: Time): (ids: seq<OrderId>)
    ensures |ids| <= STALE_ORDER_BATCH_SIZE
    ensures forall i :: 0 <= i < |ids| ==> ids[i] < |orders| && Stale(t, orders[ids[i]], now)
    ensures forall i, j :: 0 <= i < j < |ids| ==> ids[i] < ids[j]
  {
    if orders == [] then []
    else
      var n := |orders| - 1;
      var ids := StaleIds(t, orders[..n], locked, now);
      if |ids| < STALE_ORDER_BATCH_SIZE && n !in locked && Stale(t, orders[n], now) then ids + [n] else ids
  }

  function Cancel(orders: seq<Order>, ids: seq<OrderId>, now: Time): (orders': seq<Order>)
    ensures |orders'| == |orders|
  {
    seq(|orders|, i requires 0 <= i < |orders| =>
      if i in ids then orders[i].(status := Cancelled, updatedAt := now, closing := ByBatch) else orders[i])
  }

  function CancelStaleOrders(s: State, t: Timeouts, locked: set<OrderId>, now: Time): (State, Result) {
    var ids := StaleIds(t, s.orders, locked, now);
    var returned := GroupedMap(s.products, s.orders, ids);
    if ids == [] then (s, Done)
    else if !InRange(s.products, returned) then (s, Failed(OutOfRange))
    else (s.(products := Restock(s.products, returned), orders := Cancel(s.orders, ids, now), clock := now), Done)
  }

  // ---- admin edits of the catalogue ----

  function CreateProduct(s: State, id: ProductId, p: Product): (State, Result)
    requires id !in s.products
  {
    if p.stock > MAX_STOCK then (s, Failed(OutOfRange))
    else (s.(products := s.products[id := p], supply := s.supply[id := p.stock]), Done)
  }

  function EditProduct(s: State, id: ProductId, name: Option<string>, price: Option<int>, stock: Option<int>,
                       active: Option<bool>): (State, Result) {
    if id !in s.products then (s, Failed(ProductNotFound))
    else
      var p := s.products[id];
      var price', stock' := price.GetOr(p.price), stock.GetOr(p.stock);
      if price' < 0 || !(0 <= stock' <= MAX_STOCK) then (s, Failed(OutOfRange))
      else
        var supply := if id in s.supply then s.supply[id] else p.stock;
        (s.(products := s.products[id := Product(name.GetOr(p.name), price', stock', active.GetOr(p.active))],
            supply := s.supply[id := supply + stock' - p.stock]), Done)
  }

  // ---- runs ----

  datatype Op =
    | CreateOrderOp(user: UserId, address: AddressId, items: seq<ItemRequest>, now: Time)
    | AdminOp(id: OrderId, next: Status, tracking: Option<string>, choice: map<ProductId, nat>, now: Time)
    | SlipOp(user: UserId, id: OrderId, slip: string, now: Time)
    | CancelStaleOp(timeouts: Timeouts, locked: set<OrderId>, now: Time)
    | CreateProductOp(product: ProductId, row: Product)
    | EditProductOp(product: ProductId, name: Option<string>, price: Option<int>, stock: Option<int>, active: Option<bool>)
    | CartOp(user: UserId, cart: map<ProductId, nat>)
    | AddressOp(address: AddressId, owner: Option<UserId>)

  /** The clock does not go back, new ids are new, and the database picks joined lines among the
      matching ones. */
  predicate Possible(s: State, op: Op) {
    match op
    case CreateOrderOp(_, _, _, now) => s.clock <= now
    case AdminOp(id, _, _, choice, now) => s.clock <= now && (id < |s.orders| ==> ValidChoice(s.orders[id].lines, choice))
    case SlipOp(_, _, _, now) => s.clock <= now
    case CancelStaleOp(_, _, now) => s.clock <= now
    case CreateProductOp(p, _) => p !in s.products
    case _ => true
  }

  function Step(s: State, op: Op): (State, Result)
    requires Possible(s, op)
  {
    match op
    case CreateOrderOp(user, address, items, now) => CreateOrder(s, user, address, items, now)
    case AdminOp(id, next, tracking, choice, now) => UpdateOrderForAdmin(s, id, next, tracking, choice, now)
    case SlipOp(user, id, slip, now) => UpdateOrderPaymentSlip(s, user, id, slip, now)
    case CancelStaleOp(timeouts, locked, now) => CancelStaleOrders(s, timeouts, locked, now)
    case CreateProductOp(p, row) => CreateProduct(s, p, row)
    case EditProductOp(p, name, price, stock, active) => EditProduct(s, p, name, price, stock, active)
    case CartOp(user, cart) => (s.(carts := s.carts[user := cart]), Done)
    case AddressOp(a, owner) =>
      (s.(addresses := if owner.Some? then s.addresses[a := owner.value] else s.addresses - {a}), Done)
  }

  predicate ValidRun(s: State, ops: seq<Op>)
    decreases |ops|
  {
    ops == [] || (Possible(s, ops[0]) && ValidRun(Step(s, ops[0]).0, ops[1..]))
  }

  function Run(s: State, ops: seq<Op>): State
    requires ValidRun(s, ops)
    decreases |ops|
  {
    if ops == [] then s else Run(Step(s, ops[0]).0, ops[1..])
  }

  function Empty(clock: Time): State {
    State(map[], [], map[], map[], map[], clock)
  }
}
