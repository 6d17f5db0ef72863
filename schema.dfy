/** The storefront's tables: products, per-user cart lines, orders and their
    order items, held by one `Shop` object that the route handlers update. */
module Schema {
  import opened Base

  type ProductId = nat
  type UserId = nat
  type OrderId = nat

  /** Money in integer cents (the source keeps decimal prices). */
  type Cents = int

  /** A row of `products`. Never removed: deletion only clears `isActive`. */
  datatype Product = Product(
    name: string,
    description: string,
    price: Cents,
    stock: int,
    imageUrl: Option<string>,
    category: string,
    isActive: bool)

  /** A row of `cart_items` without its user: the user is the key it is filed under. */
  datatype CartLine = CartLine(productId: ProductId, quantity: int, unitPrice: Cents)

  datatype PaymentStatus = PaymentPending | Paid | PaymentFailed

  /** Checkout only ever writes `FulfillmentPending`; the other states are set elsewhere. */
  datatype FulfillmentStatus = FulfillmentPending | Shipped

  /** A row of `orders`. */
  datatype Order = Order(
    userId: UserId,
    totalAmount: Cents,
    paymentStatus: PaymentStatus,
    fulfillmentStatus: FulfillmentStatus,
    paymentMethod: string,
    address: string,
    city: string,
    postalCode: string,
    country: string,
    phone: string)

  /** A row of `order_items`. */
  datatype OrderItem = OrderItem(
    orderId: OrderId,
    productId: ProductId,
    quantity: int,
    unitPrice: Cents,
    subtotal: Cents)

  /** No product appears twice among one user's cart lines. */
  predicate DistinctProducts(lines: seq<CartLine>)
  {
    forall i, j :: 0 <= i < j < |lines| ==> lines[i].productId != lines[j].productId
  }

  /** The lines of user `u`, in insertion order (none when `u` has no entry). */
  function LinesOf(carts: map<UserId, seq<CartLine>>, u: UserId): seq<CartLine>
  {
    if u in carts then carts[u] else []
  }

  /** The cart table after user `u`'s lines are replaced by `lines`; a user
      without lines has no entry. */
  function WithLines(carts: map<UserId, seq<CartLine>>, u: UserId, lines: seq<CartLine>)
    : (r: map<UserId, seq<CartLine>>)
    ensures u in r <==> lines != []
    ensures forall v :: v != u ==> (v in r <==> v in carts)
    ensures forall v :: LinesOf(r, v) == if v == u then lines else LinesOf(carts, v)
  {
    if lines == [] then carts - {u} else carts[u := lines]
  }

  /** Rewriting a user's lines with what they already are changes nothing. */
  lemma WithSameLines(carts: map<UserId, seq<CartLine>>, u: UserId)
    requires forall v :: v in carts ==> carts[v] != []
    ensures WithLines(carts, u, LinesOf(carts, u)) == carts
  {
  }

  /** Every stored cart line refers to an existing product, has a
      non-negative quantity, and no user holds two lines for one product. */
  ghost predicate CartsWellFormed(carts: map<UserId, seq<CartLine>>, products: map<ProductId, Product>)
  {
    && (forall u :: u in carts ==> carts[u] != [] && DistinctProducts(carts[u]))
    && (forall u, i :: u in carts && 0 <= i < |carts[u]| ==>
          carts[u][i].productId in products && carts[u][i].quantity >= 0)
  }

  /** Storing a well-formed list of lines for one user keeps the cart table well formed. */
  lemma StoreLines(carts: map<UserId, seq<CartLine>>, products: map<ProductId, Product>,
                   u: UserId, lines: seq<CartLine>)
    requires CartsWellFormed(carts, products)
    requires DistinctProducts(lines)
    requires forall i :: 0 <= i < |lines| ==> lines[i].productId in products && lines[i].quantity >= 0
    ensures CartsWellFormed(WithLines(carts, u, lines), products)
  {
  }

  /** Stock and price are never negative. */
  ghost predicate ProductsWellFormed(products: map<ProductId, Product>)
  {
    forall id :: id in products ==> products[id].stock >= 0 && products[id].price >= 0
  }

  /** The table invariants: non-negative stock and prices, fresh ids above
      every stored id, well-formed carts, and an item list per order. */
  ghost predicate TablesValid(
    products: map<ProductId, Product>, nextProductId: ProductId,
    carts: map<UserId, seq<CartLine>>,
    orders: map<OrderId, Order>, orderItems: map<OrderId, seq<OrderItem>>, nextOrderId: OrderId)
  {
    && ProductsWellFormed(products)
    && (forall id :: id in products ==> id < nextProductId)
    && CartsWellFormed(carts, products)
    && (forall id :: id in orders ==> id < nextOrderId)
    && orderItems.Keys == orders.Keys
  }

  /** Rewriting an existing product with non-negative stock and price keeps
      the tables valid. */
  lemma PutProductKeepsValid(
    products: map<ProductId, Product>, nextProductId: ProductId,
    carts: map<UserId, seq<CartLine>>,
    orders: map<OrderId, Order>, orderItems: map<OrderId, seq<OrderItem>>, nextOrderId: OrderId,
    id: ProductId, p: Product)
    requires TablesValid(products, nextProductId, carts, orders, orderItems, nextOrderId)
    requires id in products
    requires p.stock >= 0 && p.price >= 0
    ensures TablesValid(products[id := p], nextProductId, carts, orders, orderItems, nextOrderId)
  {
  }

  /** Inserting a product with non-negative stock and price under the next
      id, which no stored product has, keeps the tables valid once the id
      counter moves on. */
  lemma InsertProductKeepsValid(
    products: map<ProductId, Product>, nextProductId: ProductId,
    carts: map<UserId, seq<CartLine>>,
    orders: map<OrderId, Order>, orderItems: map<OrderId, seq<OrderItem>>, nextOrderId: OrderId,
    p: Product)
    requires TablesValid(products, nextProductId, carts, orders, orderItems, nextOrderId)
    requires p.stock >= 0 && p.price >= 0
    ensures nextProductId !in products
    ensures TablesValid(products[nextProductId := p], nextProductId + 1, carts, orders, orderItems, nextOrderId)
  {
  }

  class Shop {
    var products: map<ProductId, Product>
    var nextProductId: ProductId
    var carts: map<UserId, seq<CartLine>>
    var orders: map<OrderId, Order>
    var orderItems: map<OrderId, seq<OrderItem>>
    var nextOrderId: OrderId

    ghost predicate Valid()
      reads this
    {
      TablesValid(products, nextProductId, carts, orders, orderItems, nextOrderId)
    }

    /** The lines of user `u` (`SELECT ... FROM cart_items WHERE user_id = ?`). */
    function Lines(u: UserId): seq<CartLine>
      reads this
    {
      LinesOf(carts, u)
    }

    /** Replaces user `u`'s cart lines (the net effect of an insert, update or
        delete on `cart_items`). */
    method SetLines(u: UserId, lines: seq<CartLine>)
      requires Valid() && DistinctProducts(lines)
      requires forall i :: 0 <= i < |lines| ==> lines[i].productId in products && lines[i].quantity >= 0
      modifies this
      ensures Valid()
      ensures carts == WithLines(old(carts), u, lines)
      ensures products == old(products) && nextProductId == old(nextProductId)
      ensures orders == old(orders) && orderItems == old(orderItems) && nextOrderId == old(nextOrderId)
    {
      StoreLines(carts, products, u, lines);
      carts := WithLines(carts, u, lines);
    }

    /** `INSERT INTO products ...`: the row gets the next auto-increment id. */
    method InsertProduct(p: Product) returns (id: ProductId)
      requires Valid() && p.stock >= 0 && p.price >= 0
      modifies this
      ensures Valid()
      ensures id == old(nextProductId) && id !in old(products)
      ensures products == old(products)[id := p] && nextProductId == old(nextProductId) + 1
      ensures carts == old(carts) && orders == old(orders)
      ensures orderItems == old(orderItems) && nextOrderId == old(nextOrderId)
    {
      InsertProductKeepsValid(products, nextProductId, carts, orders, orderItems, nextOrderId, p);
      id := nextProductId;
      products, nextProductId := products[id := p], nextProductId + 1;
    }

    /** `UPDATE products SET ... WHERE id = ?` on an existing row. */
    method SetProduct(id: ProductId, p: Product)
      requires Valid() && id in products && p.stock >= 0 && p.price >= 0
      modifies this
      ensures Valid()
      ensures products == old(products)[id := p] && nextProductId == old(nextProductId)
      ensures carts == old(carts) && orders == old(orders)
      ensures orderItems == old(orderItems) && nextOrderId == old(nextOrderId)
    {
      PutProductKeepsValid(products, nextProductId, carts, orders, orderItems, nextOrderId, id, p);
      products := products[id := p];
    }

    /** Empty tables; auto-increment ids start at 1. */
    constructor ()
      ensures Valid()
      ensures products == map[] && carts == map[] && orders == map[] && orderItems == map[]
      ensures nextProductId == 1 && nextOrderId == 1
    {
      products, carts, orders, orderItems := map[], map[], map[], map[];
      nextProductId, nextOrderId := 1, 1;
    }
  }
}
