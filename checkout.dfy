/** Order placement (`src/routes/checkout.js`): the shipping-form gate, the
    stock pre-check, the conditional stock decrement, and the POST /checkout
    transaction that turns a user's cart into one order with its items. */
module Checkout {
  import opened Base
  import opened Text
  import opened Schema
  import opened Cart

  // ---------------------------------------------------------------------
  // The form gate

  datatype ShippingForm = ShippingForm(
    address: string,
    city: string,
    postalCode: string,
    country: string,
    phone: string,
    paymentMethod: string)

  /** The express-validator chain on POST /checkout: trimmed lengths of at
      least 5, 2, 3, 2 and 6, and cash on delivery as the only payment method. */
  predicate ShippingValid(f: ShippingForm): (ok: bool)
    ensures ok ==> f.paymentMethod == "cod"
    ensures ok ==> |f.address| >= 5 && |f.city| >= 2 && |f.postalCode| >= 3
                   && |f.country| >= 2 && |f.phone| >= 6
    ensures (|| Blank(f.address) || Blank(f.city) || Blank(f.postalCode)
             || Blank(f.country) || Blank(f.phone)) ==> !ok
  {
    && |Trim(f.address)| >= 5
    && |Trim(f.city)| >= 2
    && |Trim(f.postalCode)| >= 3
    && |Trim(f.country)| >= 2
    && |Trim(f.phone)| >= 6
    && f.paymentMethod == "cod"
  }

  /** The order row checkout inserts: both statuses pending, the trimmed
      shipping fields (the `trim()` sanitizers rewrite the request body). */
  function PendingOrder(userId: UserId, total: Cents, f: ShippingForm): (o: Order)
    ensures o.paymentStatus == PaymentPending && o.fulfillmentStatus == FulfillmentPending
    ensures o.userId == userId && o.totalAmount == total && o.paymentMethod == f.paymentMethod
    ensures o.address == Trim(f.address) && o.city == Trim(f.city) && o.postalCode == Trim(f.postalCode)
            && o.country == Trim(f.country) && o.phone == Trim(f.phone)
    ensures ShippingValid(f) ==> |o.address| >= 5 && |o.city| >= 2 && |o.postalCode| >= 3
                                  && |o.country| >= 2 && |o.phone| >= 6
  {
    Order(userId, total, PaymentPending, FulfillmentPending, f.paymentMethod,
          Trim(f.address), Trim(f.city), Trim(f.postalCode), Trim(f.country), Trim(f.phone))
  }

  /** GET /checkout shows the form only when the computed total is positive. */
  function CheckoutPageOpens(rows: seq<CartRow>): (opens: bool)
    ensures opens <==> LineSum(rows) > 0
    ensures opens ==> rows != []
  {
    ComputeTotals(rows).total > 0
  }

  /** A non-empty cart whose lines all carry a zero price snapshot (and whose
      products all exist) is refused by the page, yet its joined rows are not
      empty, so `PlaceOrder` does not answer `EmptyCart` for it. */
  lemma ZeroPricedCartPassesEmptinessGate(lines: seq<CartLine>, products: map<ProductId, Product>)
    requires lines != []
    requires forall i :: 0 <= i < |lines| ==> lines[i].productId in products && lines[i].unitPrice == 0
    ensures var rows := CartRows(lines, products);
      rows != [] && !CheckoutPageOpens(rows)
  {
    var rows := CartRows(lines, products);
    assert forall i :: 0 <= i < |rows| ==> rows[i] == JoinLine(lines[i], products[lines[i].productId]);
    FreeRowsSumToZero(rows);
  }

  // ---------------------------------------------------------------------
  // The pre-check

  /** The first row, in cart order, whose quantity exceeds its live stock. */
  function FirstShortfall(rows: seq<CartRow>): (r: Option<nat>)
    ensures r.Some? ==> r.value < |rows| && rows[r.value].quantity > rows[r.value].stock
    ensures r.Some? ==> forall j :: 0 <= j < r.value ==> rows[j].quantity <= rows[j].stock
    ensures r.None? <==> forall j :: 0 <= j < |rows| ==> rows[j].quantity <= rows[j].stock
  {
    FirstWhere(rows, (row: CartRow) => row.quantity > row.stock)
  }

  /** Adding a product whose stock is 0 still stores quantity 1 (the add
      clamp never goes below 1); such a line is caught by the pre-check,
      which stops at it or at an earlier short line. */
  lemma OutOfStockLineIsCaught(rows: seq<CartRow>, k: nat, current: int, requested: int)
    requires k < |rows| && rows[k].stock == 0
    requires rows[k].quantity == AddedQuantity(current, requested, rows[k].stock)
    ensures rows[k].quantity == 1
    ensures FirstShortfall(rows).Some? && FirstShortfall(rows).value <= k
  {
  }

  // ---------------------------------------------------------------------
  // The inventory ledger

  /** Result of one `UPDATE products SET stock = stock - ? WHERE id = ? AND stock >= ?`. */
  datatype Reservation = Reservation(products: map<ProductId, Product>, affected: nat)

  /** The conditional decrement: it touches one row, and only when that row
      exists and holds at least `qty`; otherwise no row is affected. */
  function Reserve(products: map<ProductId, Product>, pid: ProductId, qty: int): (r: Reservation)
    ensures r.affected == 1 <==> pid in products && products[pid].stock >= qty
    ensures r.affected == 0 <==> !(pid in products && products[pid].stock >= qty)
    ensures r.affected == 0 ==> r.products == products
    ensures r.products.Keys == products.Keys
    ensures forall id :: id in products && id != pid ==> r.products[id] == products[id]
    ensures r.affected == 1 ==> r.products[pid] == products[pid].(stock := products[pid].stock - qty)
    ensures r.affected == 1 ==> r.products[pid].stock >= 0
  {
    if pid in products && products[pid].stock >= qty then
      Reservation(products[pid := products[pid].(stock := products[pid].stock - qty)], 1)
    else
      Reservation(products, 0)
  }

  datatype ReserveOutcome = AllReserved(products: map<ProductId, Product>) | Rejected(index: nat)

  /** The decrements of checkout's second loop, one per row in cart order;
      the first row whose decrement affects no row stops the run. */
  function ReserveAll(products: map<ProductId, Product>, rows: seq<CartRow>): (r: ReserveOutcome)
    ensures r.Rejected? ==> r.index < |rows|
    decreases |rows|
  {
    if rows == [] then AllReserved(products)
    else
      match ReserveAll(products, rows[..|rows| - 1])
      case Rejected(i) => Rejected(i)
      case AllReserved(q) =>
        var last := rows[|rows| - 1];
        var res := Reserve(q, last.productId, last.quantity);
        if res.affected == 0 then Rejected(|rows| - 1) else AllReserved(res.products)
  }

  /** Total quantity the rows reserve of product `id`. */
  function ReservedQuantity(rows: seq<CartRow>, id: ProductId): int
    decreases |rows|
  {
    if rows == [] then 0
    else
      var last := rows[|rows| - 1];
      ReservedQuantity(rows[..|rows| - 1], id) + (if last.productId == id then last.quantity else 0)
  }

  /** Stock is conserved: after a successful run each product's stock is its
      old stock minus what the rows reserved of it, its other columns are
      untouched, and no product appears or disappears. */
  lemma {:induction false} ReserveAllEffect(products: map<ProductId, Product>, rows: seq<CartRow>)
    requires ReserveAll(products, rows).AllReserved?
    ensures var q := ReserveAll(products, rows).products;
      && q.Keys == products.Keys
      && forall id :: id in products ==>
           q[id] == products[id].(stock := products[id].stock - ReservedQuantity(rows, id))
    decreases |rows|
  {
    if rows != [] {
      ReserveAllEffect(products, rows[..|rows| - 1]);
    }
  }

  /** Stock never goes negative: a successful run keeps every stock >= 0. */
  lemma {:induction false} ReserveAllKeepsStock(products: map<ProductId, Product>, rows: seq<CartRow>)
    requires ProductsWellFormed(products)
    requires ReserveAll(products, rows).AllReserved?
    ensures ProductsWellFormed(ReserveAll(products, rows).products)
    decreases |rows|
  {
    if rows != [] {
      ReserveAllKeepsStock(products, rows[..|rows| - 1]);
    }
  }

  /** Once a prefix of the rows is rejected, the whole run is rejected at the
      same row: later rows are never attempted. */
  lemma {:induction false} RejectionPersists(products: map<ProductId, Product>, rows: seq<CartRow>, m: nat)
    requires m <= |rows|
    requires ReserveAll(products, rows[..m]).Rejected?
    ensures ReserveAll(products, rows) == ReserveAll(products, rows[..m])
    decreases |rows| - m
  {
    if m < |rows| {
      var init := rows[..|rows| - 1];
      assert init[..m] == rows[..m];
      RejectionPersists(products, init, m);
    } else {
      assert rows[..m] == rows;
    }
  }

  lemma {:induction false} ReservedQuantityAbsent(rows: seq<CartRow>, id: ProductId)
    requires forall i :: 0 <= i < |rows| ==> rows[i].productId != id
    ensures ReservedQuantity(rows, id) == 0
    decreases |rows|
  {
    if rows != [] {
      ReservedQuantityAbsent(rows[..|rows| - 1], id);
    }
  }

  predicate DistinctRows(rows: seq<CartRow>)
  {
    forall i, j :: 0 <= i < j < |rows| ==> rows[i].productId != rows[j].productId
  }

  /** With one row per product, each product's reserved quantity is exactly
      its row's quantity. */
  lemma {:induction false} ReservedQuantityOfRow(rows: seq<CartRow>, k: nat)
    requires DistinctRows(rows) && k < |rows|
    ensures ReservedQuantity(rows, rows[k].productId) == rows[k].quantity
    decreases |rows|
  {
    var init := rows[..|rows| - 1];
    if k == |rows| - 1 {
      ReservedQuantityAbsent(init, rows[k].productId);
    } else {
      ReservedQuantityOfRow(init, k);
    }
  }

  /** When every row's quantity fits the stock it was read with and no
      product repeats, every conditional decrement succeeds. */
  lemma {:induction false} PrecheckedRowsReserve(products: map<ProductId, Product>, rows: seq<CartRow>)
    requires DistinctRows(rows)
    requires forall i :: 0 <= i < |rows| ==>
      rows[i].productId in products && rows[i].quantity <= products[rows[i].productId].stock
    ensures ReserveAll(products, rows).AllReserved?
    decreases |rows|
  {
    if rows != [] {
      var init := rows[..|rows| - 1];
      var last := rows[|rows| - 1];
      PrecheckedRowsReserve(products, init);
      ReserveAllEffect(products, init);
      ReservedQuantityAbsent(init, last.productId);
    }
  }

  /** Run sequentially, checkout never rolls back at the decrement step: for a
      well-formed cart that passes the pre-check, every decrement affects its
      row. Only a concurrent writer between the read and the decrement can
      make it fail. */
  lemma SequentialCheckoutReserves(lines: seq<CartLine>, products: map<ProductId, Product>)
    requires DistinctProducts(lines)
    requires forall i :: 0 <= i < |lines| ==> lines[i].productId in products
    requires FirstShortfall(CartRows(lines, products)).None?
    ensures ReserveAll(products, CartRows(lines, products)).AllReserved?
  {
    var rows := CartRows(lines, products);
    CartRowsDistinct(lines, products);
    PrecheckedRowsReserve(products, rows);
  }

  /** Each product's stock drops by exactly its cart line's quantity. */
  lemma CommittedStock(products: map<ProductId, Product>, rows: seq<CartRow>)
    requires DistinctRows(rows)
    requires ReserveAll(products, rows).AllReserved?
    ensures var q := ReserveAll(products, rows).products;
      && q.Keys == products.Keys
      && (forall k :: 0 <= k < |rows| && rows[k].productId in products ==>
            q[rows[k].productId].stock == products[rows[k].productId].stock - rows[k].quantity)
      && (forall id :: id in products && (forall k :: 0 <= k < |rows| ==> rows[k].productId != id) ==>
            q[id] == products[id])
  {
    ReserveAllEffect(products, rows);
    forall k | 0 <= k < |rows| {
      ReservedQuantityOfRow(rows, k);
    }
    forall id | id in products && (forall k :: 0 <= k < |rows| ==> rows[k].productId != id) {
      ReservedQuantityAbsent(rows, id);
    }
  }

  // ---------------------------------------------------------------------
  // Order items

  function ItemOf(orderId: OrderId, row: CartRow): OrderItem
  {
    OrderItem(orderId, row.productId, row.quantity, row.unitPrice, row.quantity * row.unitPrice)
  }

  /** One order item per row, in cart order. */
  function OrderItemsFor(orderId: OrderId, rows: seq<CartRow>): (items: seq<OrderItem>)
    ensures |items| == |rows|
    ensures forall i :: 0 <= i < |rows| ==> items[i] == ItemOf(orderId, rows[i])
  {
    seq(|rows|, i requires 0 <= i < |rows| => ItemOf(orderId, rows[i]))
  }

  function ItemSum(items: seq<OrderItem>): Cents
  {
    if items == [] then 0 else items[0].subtotal + ItemSum(items[1..])
  }

  lemma {:induction false} ItemSumIsLineSum(orderId: OrderId, rows: seq<CartRow>)
    requires forall i :: 0 <= i < |rows| ==> rows[i].subtotal == rows[i].quantity * rows[i].unitPrice
    ensures ItemSum(OrderItemsFor(orderId, rows)) == LineSum(rows)
  {
    if rows != [] {
      assert OrderItemsFor(orderId, rows)[1..] == OrderItemsFor(orderId, rows[1..]);
      ItemSumIsLineSum(orderId, rows[1..]);
    }
  }

  /** The order's total equals the sum of its items' subtotals, each of which
      is quantity times the snapshot price. */
  lemma OrderTotalMatchesItems(orderId: OrderId, rows: seq<CartRow>)
    requires forall i :: 0 <= i < |rows| ==> rows[i].subtotal == rows[i].quantity * rows[i].unitPrice
    ensures ComputeTotals(rows).total == ItemSum(OrderItemsFor(orderId, rows))
  {
    ItemSumIsLineSum(orderId, rows);
  }

  /** Checkout's first loop: scans the rows in cart order and stops at the
      first one whose quantity exceeds the stock it was read with. */
  method PreCheck(rows: seq<CartRow>) returns (shortfall: Option<nat>)
    ensures shortfall == FirstShortfall(rows)
  {
    var i := 0;
    while i < |rows|
      invariant 0 <= i <= |rows|
      invariant forall j :: 0 <= j < i ==> rows[j].quantity <= rows[j].stock
    {
      if rows[i].quantity > rows[i].stock {
        return Some(i);
      }
      i := i + 1;
    }
    return None;
  }

  /** Checkout's second loop: for each row in cart order, inserts its order
      item and runs the conditional decrement, stopping at the first
      decrement that affects no row. */
  method InsertItemsAndReserve(products: map<ProductId, Product>, rows: seq<CartRow>, orderId: OrderId)
    returns (outcome: ReserveOutcome, items: seq<OrderItem>)
    ensures outcome == ReserveAll(products, rows)
    ensures outcome.AllReserved? ==> items == OrderItemsFor(orderId, rows)
  {
    var stock := products;
    items := [];
    var k := 0;
    while k < |rows|
      invariant 0 <= k <= |rows|
      invariant ReserveAll(products, rows[..k]) == AllReserved(stock)
      invariant |items| == k
      invariant forall j :: 0 <= j < k ==> items[j] == ItemOf(orderId, rows[j])
    {
      var row := rows[k];
      items := items + [ItemOf(orderId, row)];
      var update := Reserve(stock, row.productId, row.quantity);
      ReserveAllStep(products, rows, k, stock);
      if update.affected == 0 {
        RejectionPersists(products, rows, k + 1);
        return Rejected(k), items;
      }
      stock := update.products;
      k := k + 1;
    }
    assert rows[..k] == rows;
    return AllReserved(stock), items;
  }

  /** One more row extends a run that has reserved every earlier row by
      that row's own reservation. */
  lemma ReserveAllStep(products: map<ProductId, Product>, rows: seq<CartRow>, k: nat,
                       stock: map<ProductId, Product>)
    requires k < |rows| && ReserveAll(products, rows[..k]) == AllReserved(stock)
    ensures var res := Reserve(stock, rows[k].productId, rows[k].quantity);
      ReserveAll(products, rows[..k + 1])
        == if res.affected == 0 then Rejected(k) else AllReserved(res.products)
  {
    assert rows[..k + 1][..k] == rows[..k];
  }

  /** Committing a placed order keeps the tables valid: the new order takes
      the next id, stock stays non-negative, and the cleared cart leaves the
      other users' lines pointing at products that still exist. */
  lemma CommitKeepsTablesValid(
    products: map<ProductId, Product>, nextProductId: ProductId,
    carts: map<UserId, seq<CartLine>>,
    orders: map<OrderId, Order>, orderItems: map<OrderId, seq<OrderItem>>, nextOrderId: OrderId,
    rows: seq<CartRow>, u: UserId, order: Order, items: seq<OrderItem>)
    requires TablesValid(products, nextProductId, carts, orders, orderItems, nextOrderId)
    requires ReserveAll(products, rows).AllReserved?
    ensures TablesValid(ReserveAll(products, rows).products, nextProductId, carts - {u},
                        orders[nextOrderId := order], orderItems[nextOrderId := items], nextOrderId + 1)
  {
    ReserveAllEffect(products, rows);
    ReserveAllKeepsStock(products, rows);
  }

  /** COMMIT of a placed order: the reserved stock, the new order and its
      items are written back, the user's cart lines are deleted, and the
      order id counter moves on. */
  method Commit(shop: Shop, userId: UserId, rows: seq<CartRow>, order: Order, items: seq<OrderItem>)
    requires shop.Valid()
    requires ReserveAll(shop.products, rows).AllReserved?
    modifies shop
    ensures shop.Valid()
    ensures shop.products == ReserveAll(old(shop.products), rows).products
    ensures shop.orders == old(shop.orders)[old(shop.nextOrderId) := order]
    ensures shop.orderItems == old(shop.orderItems)[old(shop.nextOrderId) := items]
    ensures shop.carts == old(shop.carts) - {userId}
    ensures shop.nextOrderId == old(shop.nextOrderId) + 1
    ensures shop.nextProductId == old(shop.nextProductId)
  {
    CommitKeepsTablesValid(shop.products, shop.nextProductId, shop.carts, shop.orders, shop.orderItems,
                           shop.nextOrderId, rows, userId, order, items);
    shop.products, shop.orders, shop.orderItems, shop.nextOrderId, shop.carts :=
      ReserveAll(shop.products, rows).products, shop.orders[shop.nextOrderId := order],
      shop.orderItems[shop.nextOrderId := items], shop.nextOrderId + 1, shop.carts - {userId};
  }

  // ---------------------------------------------------------------------
  // POST /checkout

  datatype CheckoutResult =
    | InvalidForm
    | EmptyCart
    | InsufficientStock(productName: string)
    | StockChanged(productName: string)
    | Placed(orderId: OrderId)

  /** POST /checkout. The transaction works on copies of the tables; a
      rollback returns before anything is written back, a commit writes all
      of them back together. */
  method PlaceOrder(shop: Shop, userId: UserId, form: ShippingForm) returns (r: CheckoutResult)
    requires shop.Valid()
    modifies shop
    ensures shop.Valid()
    ensures !r.Placed? ==> unchanged(shop)
    ensures r == InvalidForm <==> !ShippingValid(form)
    ensures var rows := old(CartRows(shop.Lines(userId), shop.products));
      && (r == EmptyCart <==> ShippingValid(form) && rows == [])
      && (r.InsufficientStock? <==> ShippingValid(form) && rows != [] && FirstShortfall(rows).Some?)
      && (r.InsufficientStock? ==> r.productName == rows[FirstShortfall(rows).value].name)
      && (r.StockChanged? <==>
            ShippingValid(form) && rows != [] && FirstShortfall(rows).None?
            && ReserveAll(old(shop.products), rows).Rejected?)
      && (r.StockChanged? ==> r.productName == rows[ReserveAll(old(shop.products), rows).index].name)
    ensures r.Placed? ==>
      var rows := old(CartRows(shop.Lines(userId), shop.products));
      && r.orderId == old(shop.nextOrderId) && r.orderId !in old(shop.orders)
      && shop.orders == old(shop.orders)[r.orderId := PendingOrder(userId, ComputeTotals(rows).total, form)]
      && shop.orderItems == old(shop.orderItems)[r.orderId := OrderItemsFor(r.orderId, rows)]
      && ReserveAll(old(shop.products), rows).AllReserved?
      && shop.products == ReserveAll(old(shop.products), rows).products
      && shop.carts == old(shop.carts) - {userId}
      && shop.nextOrderId == old(shop.nextOrderId) + 1
      && shop.nextProductId == old(shop.nextProductId)
  {
    if !ShippingValid(form) {
      return InvalidForm;
    }
    // BEGIN: read the cart joined with live product rows
    var products := shop.products;
    var rows := CartRows(shop.Lines(userId), products);
    if |rows| == 0 {
      return EmptyCart;  // ROLLBACK
    }
    var totals := ComputeTotals(rows);

    // Pre-check every row against the stock it was read with
    var shortfall := PreCheck(rows);
    if shortfall.Some? {
      return InsufficientStock(rows[shortfall.value].name);  // ROLLBACK
    }

    // INSERT the order, then its items with their stock decrements
    var orderId := shop.nextOrderId;
    var order := PendingOrder(userId, totals.total, form);
    var outcome, items := InsertItemsAndReserve(products, rows, orderId);
    if outcome.Rejected? {
      return StockChanged(rows[outcome.index].name);  // ROLLBACK
    }
    // DELETE the user's cart lines, then COMMIT
    Commit(shop, userId, rows, order, items);
    r := Placed(orderId);
  }
}
