/** The cart store (`src/routes/cart.js`): the per-user cart lines, the read
    that joins them with live product data, the totals shown for them, and the
    add / update / remove handlers. */
module Cart {
  import opened Base
  import opened Schema

  // ---------------------------------------------------------------------
  // One user's lines

  /** Position of the line for product `pid` (the row a `... WHERE user_id = ?
      AND product_id = ? LIMIT 1` statement touches). */
  function Find(lines: seq<CartLine>, pid: ProductId): (r: Option<nat>)
    ensures r.Some? ==> r.value < |lines| && lines[r.value].productId == pid
    ensures r.Some? ==> forall j :: 0 <= j < r.value ==> lines[j].productId != pid
    ensures r.None? <==> forall j :: 0 <= j < |lines| ==> lines[j].productId != pid
  {
    FirstWhere(lines, (l: CartLine) => l.productId == pid)
  }

  /** The scan stops at the first matching line, so a matching line with no
      match before it is the one found. */
  lemma FindIs(lines: seq<CartLine>, pid: ProductId, j: nat)
    requires j < |lines| && lines[j].productId == pid
    requires forall k :: 0 <= k < j ==> lines[k].productId != pid
    ensures Find(lines, pid) == Some(j)
  {
  }

  /** The line for product `pid`, if the user has one. */
  function Lookup(lines: seq<CartLine>, pid: ProductId): (r: Option<CartLine>)
    ensures r.Some? ==> r.value in lines && r.value.productId == pid
    ensures r.None? <==> forall j :: 0 <= j < |lines| ==> lines[j].productId != pid
  {
    match Find(lines, pid)
    case None => None
    case Some(i) => Some(lines[i])
  }

  /** Quantity already in the cart for `pid` (`existRows.length ? ... : 0`). */
  function CurrentQuantity(lines: seq<CartLine>, pid: ProductId): (q: int)
    ensures (forall j :: 0 <= j < |lines| ==> lines[j].productId != pid) ==> q == 0
    ensures DistinctProducts(lines) ==>
      forall j :: 0 <= j < |lines| && lines[j].productId == pid ==> q == lines[j].quantity
  {
    match Lookup(lines, pid)
    case None => 0
    case Some(l) => l.quantity
  }

  /** Write `line`: update the existing line for its product in place, or
      insert it after the others. */
  function Upsert(lines: seq<CartLine>, line: CartLine): (r: seq<CartLine>)
    ensures |r| == |lines| + (if Find(lines, line.productId).Some? then 0 else 1)
    ensures forall k :: 0 <= k < |lines| ==> r[k].productId == lines[k].productId
    ensures forall k :: 0 <= k < |r| ==> r[k] == line || (k < |lines| && r[k] == lines[k])
    ensures line in r
  {
    match Find(lines, line.productId)
    case None => lines + [line]
    case Some(i) => lines[i := line]
  }

  /** After an upsert the product's line is exactly the written one and every
      other product's line is what it was. */
  lemma {:induction false} UpsertLookup(lines: seq<CartLine>, line: CartLine, p: ProductId)
    ensures Lookup(Upsert(lines, line), p) == if p == line.productId then Some(line) else Lookup(lines, p)
  {
    var r := Upsert(lines, line);
    var pid := line.productId;
    match Find(lines, pid)
    case None =>
      assert r == lines + [line];
      if p == pid {
        FindIs(r, p, |lines|);
      } else {
        match Find(lines, p)
        case None =>
        case Some(j) => FindIs(r, p, j);
      }
    case Some(i) =>
      assert r == lines[i := line];
      if p == pid {
        FindIs(r, p, i);
      } else {
        match Find(lines, p)
        case None =>
        case Some(j) => FindIs(r, p, j);
      }
  }

  /** Upserting a line for an existing product with a non-negative quantity
      keeps a user's lines well formed. */
  lemma UpsertWellFormed(lines: seq<CartLine>, line: CartLine, products: map<ProductId, Product>)
    requires DistinctProducts(lines)
    requires forall i :: 0 <= i < |lines| ==> lines[i].productId in products && lines[i].quantity >= 0
    requires line.productId in products && line.quantity >= 0
    ensures var r := Upsert(lines, line);
      && DistinctProducts(r)
      && forall i :: 0 <= i < |r| ==> r[i].productId in products && r[i].quantity >= 0
  {
    UpsertDistinct(lines, line);
  }

  lemma UpsertDistinct(lines: seq<CartLine>, line: CartLine)
    requires DistinctProducts(lines)
    ensures DistinctProducts(Upsert(lines, line))
  {
    var r := Upsert(lines, line);
    forall i, j | 0 <= i < j < |r| ensures r[i].productId != r[j].productId {
      if j == |lines| {
        assert Find(lines, line.productId).None?;
      }
    }
  }

  /** Delete the line for `pid` (`DELETE ... LIMIT 1`); nothing happens when
      there is none. */
  function Remove(lines: seq<CartLine>, pid: ProductId): (r: seq<CartLine>)
    ensures Find(lines, pid).None? ==> r == lines
    ensures Find(lines, pid).Some? ==>
      var i := Find(lines, pid).value;
      && |r| == |lines| - 1
      && (forall k :: 0 <= k < i ==> r[k] == lines[k])
      && (forall k :: i <= k < |r| ==> r[k] == lines[k + 1])
  {
    match Find(lines, pid)
    case None => lines
    case Some(i) => lines[..i] + lines[i + 1..]
  }

  /** Removing takes out the product's line and no other. */
  lemma RemoveLookup(lines: seq<CartLine>, pid: ProductId, p: ProductId)
    requires DistinctProducts(lines)
    ensures Lookup(Remove(lines, pid), p) == if p == pid then None else Lookup(lines, p)
  {
    if p == pid {
      RemoveLookupSame(lines, pid);
    } else {
      RemoveLookupOther(lines, pid, p);
    }
  }

  lemma RemoveLookupSame(lines: seq<CartLine>, pid: ProductId)
    requires DistinctProducts(lines)
    ensures Lookup(Remove(lines, pid), pid) == None
  {
    var r := Remove(lines, pid);
    match Find(lines, pid)
    case None =>
    case Some(i) =>
      forall k | 0 <= k < |r| ensures r[k].productId != pid {
        if k < i {
          assert r[k] == lines[k];
        } else {
          assert r[k] == lines[k + 1];
        }
      }
  }

  lemma RemoveLookupOther(lines: seq<CartLine>, pid: ProductId, p: ProductId)
    requires p != pid
    ensures Lookup(Remove(lines, pid), p) == Lookup(lines, p)
  {
    var r := Remove(lines, pid);
    match Find(lines, pid)
    case None =>
    case Some(i) =>
      match Find(lines, p)
      case None =>
        forall k | 0 <= k < |r| ensures r[k].productId != p {
          if k < i {
            assert r[k] == lines[k];
          } else {
            assert r[k] == lines[k + 1];
          }
        }
      case Some(j) =>
        if j < i {
          FindIs(r, p, j);
        } else {
          forall k | 0 <= k < j - 1 ensures r[k].productId != p {
            if k < i {
              assert r[k] == lines[k];
            } else {
              assert r[k] == lines[k + 1];
            }
          }
          FindIs(r, p, j - 1);
        }
  }

  lemma RemoveDistinct(lines: seq<CartLine>, pid: ProductId)
    requires DistinctProducts(lines)
    ensures DistinctProducts(Remove(lines, pid))
  {
    match Find(lines, pid)
    case None =>
    case Some(i) =>
      var r := Remove(lines, pid);
      forall a, b | 0 <= a < b < |r| ensures r[a].productId != r[b].productId {
        var a' := if a < i then a else a + 1;
        var b' := if b < i then b else b + 1;
        assert r[a] == lines[a'] && r[b] == lines[b'];
      }
  }

  lemma RemoveWellFormed(lines: seq<CartLine>, pid: ProductId, products: map<ProductId, Product>)
    requires DistinctProducts(lines)
    requires forall i :: 0 <= i < |lines| ==> lines[i].productId in products && lines[i].quantity >= 0
    ensures var r := Remove(lines, pid);
      && DistinctProducts(r)
      && forall i :: 0 <= i < |r| ==> r[i].productId in products && r[i].quantity >= 0
  {
    RemoveDistinct(lines, pid);
    var r := Remove(lines, pid);
    match Find(lines, pid)
    case None =>
    case Some(j) =>
      forall i | 0 <= i < |r| ensures r[i].productId in products && r[i].quantity >= 0 {
        if i < j {
          assert r[i] == lines[i];
        } else {
          assert r[i] == lines[i + 1];
        }
      }
  }

  /** Removing twice is removing once: a second `/cart/remove` (or a
      quantity-0 update) on the same product is a no-op. */
  lemma RemoveIdempotent(lines: seq<CartLine>, pid: ProductId)
    requires DistinctProducts(lines)
    ensures Remove(Remove(lines, pid), pid) == Remove(lines, pid)
  {
    RemoveLookup(lines, pid, pid);
  }

  /** `UPDATE ... WHERE user_id = ? AND product_id = ?`: rewrites the line
      when it exists and never inserts one. */
  function SetExisting(lines: seq<CartLine>, pid: ProductId, quantity: int, price: Cents): (r: seq<CartLine>)
    ensures |r| == |lines|
  {
    if Find(lines, pid).Some? then Upsert(lines, CartLine(pid, quantity, price)) else lines
  }

  lemma SetExistingLookup(lines: seq<CartLine>, pid: ProductId, quantity: int, price: Cents, p: ProductId)
    ensures Lookup(SetExisting(lines, pid, quantity, price), p)
         == if p == pid && Lookup(lines, pid).Some? then Some(CartLine(pid, quantity, price)) else Lookup(lines, p)
  {
    if Find(lines, pid).Some? {
      UpsertLookup(lines, CartLine(pid, quantity, price), p);
    }
  }

  // ---------------------------------------------------------------------
  // Quantity rules

  /** `Math.max(1, Math.min(product.stock, currentQty + quantity))`. */
  function AddedQuantity(current: int, requested: int, stock: int): (q: int)
    ensures q >= 1
    ensures stock >= 1 ==> q <= stock
    ensures 1 <= current + requested <= stock ==> q == current + requested
    ensures stock <= 0 ==> q == 1
    ensures current + requested >= stock >= 1 ==> q == stock
  {
    var capped := if stock < current + requested then stock else current + requested;
    if capped < 1 then 1 else capped
  }

  /** `Math.min(quantity, stock)`: the requested quantity, capped by stock. */
  function UpdatedQuantity(requested: int, stock: int): (q: int)
    ensures q <= requested && q <= stock
    ensures q == requested || q == stock
  {
    if requested < stock then requested else stock
  }

  // ---------------------------------------------------------------------
  // The joined read and its totals

  /** A cart line joined with its product's live name, image and stock, and
      the SQL-computed `quantity * unit_price`. */
  datatype CartRow = CartRow(
    productId: ProductId,
    quantity: int,
    unitPrice: Cents,
    subtotal: Cents,
    name: string,
    imageUrl: Option<string>,
    stock: int)

  function JoinLine(line: CartLine, p: Product): CartRow
  {
    CartRow(line.productId, line.quantity, line.unitPrice, line.quantity * line.unitPrice,
            p.name, p.imageUrl, p.stock)
  }

  /** `cart_items ci JOIN products p ON p.id = ci.product_id WHERE ci.user_id = ?`:
      the inner join drops a line whose product row is missing. */
  function CartRows(lines: seq<CartLine>, products: map<ProductId, Product>): (rows: seq<CartRow>)
    ensures |rows| <= |lines|
    ensures forall i :: 0 <= i < |rows| ==>
      rows[i].productId in products && rows[i].stock == products[rows[i].productId].stock
      && rows[i].name == products[rows[i].productId].name
      && rows[i].subtotal == rows[i].quantity * rows[i].unitPrice
    ensures forall i :: 0 <= i < |lines| && lines[i].productId in products ==>
      JoinLine(lines[i], products[lines[i].productId]) in rows
    ensures (forall i :: 0 <= i < |lines| ==> lines[i].productId in products) ==>
      |rows| == |lines| && forall i :: 0 <= i < |rows| ==> rows[i] == JoinLine(lines[i], products[lines[i].productId])
  {
    if lines == [] then []
    else
      var rest := CartRows(lines[1..], products);
      if lines[0].productId in products then [JoinLine(lines[0], products[lines[0].productId])] + rest
      else rest
  }

  /** Distinct lines give distinct rows. */
  lemma CartRowsDistinct(lines: seq<CartLine>, products: map<ProductId, Product>)
    requires DistinctProducts(lines)
    requires forall i :: 0 <= i < |lines| ==> lines[i].productId in products
    ensures var rows := CartRows(lines, products);
      forall i, j :: 0 <= i < j < |rows| ==> rows[i].productId != rows[j].productId
  {
  }

  datatype Totals = Totals(subtotal: Cents, shipping: Cents, total: Cents)

  /** Sum of the rows' subtotals. */
  function LineSum(rows: seq<CartRow>): Cents
  {
    if rows == [] then 0 else rows[0].subtotal + LineSum(rows[1..])
  }

  /** `items.reduce((sum, it) => sum + Number(it.subtotal), acc)`. */
  function SumSubtotals(rows: seq<CartRow>, acc: Cents): (r: Cents)
    ensures r == acc + LineSum(rows)
  {
    if rows == [] then acc else SumSubtotals(rows[1..], acc + rows[0].subtotal)
  }

  /** `computeTotals`: the totals are the plain sum of the rows' subtotals,
      with no shipping. */
  function ComputeTotals(rows: seq<CartRow>): (t: Totals)
    ensures t.shipping == 0
    ensures t.subtotal == LineSum(rows) && t.total == LineSum(rows)
  {
    var subtotal := SumSubtotals(rows, 0);
    var shipping := 0;
    Totals(subtotal, shipping, subtotal + shipping)
  }

  /** Rows that all have a zero subtotal sum to zero. */
  lemma {:induction false} FreeRowsSumToZero(rows: seq<CartRow>)
    requires forall i :: 0 <= i < |rows| ==> rows[i].subtotal == 0
    ensures LineSum(rows) == 0
  {
    if rows != [] {
      FreeRowsSumToZero(rows[1..]);
    }
  }

  /** Value of the stored lines: sum of quantity times the price snapshot. */
  function CartValue(lines: seq<CartLine>): Cents
  {
    if lines == [] then 0 else lines[0].quantity * lines[0].unitPrice + CartValue(lines[1..])
  }

  /** When every line's product exists, the total shown for the joined rows
      is the value of the stored lines at their snapshot prices. */
  lemma {:induction false} TotalIsCartValue(lines: seq<CartLine>, products: map<ProductId, Product>)
    requires forall i :: 0 <= i < |lines| ==> lines[i].productId in products
    ensures ComputeTotals(CartRows(lines, products)).total == CartValue(lines)
  {
    LineSumOfRows(lines, products);
  }

  lemma {:induction false} LineSumOfRows(lines: seq<CartLine>, products: map<ProductId, Product>)
    requires forall i :: 0 <= i < |lines| ==> lines[i].productId in products
    ensures LineSum(CartRows(lines, products)) == CartValue(lines)
  {
    if lines != [] {
      LineSumOfRows(lines[1..], products);
    }
  }

  // ---------------------------------------------------------------------
  // Route handlers

  datatype CartResult =
    | InvalidInput   // the express-validator checks failed
    | Unavailable    // the product is missing (or, for add, inactive)
    | Done

  /** POST /cart/add. */
  method AddToCart(shop: Shop, userId: UserId, productId: ProductId, quantity: int) returns (r: CartResult)
    requires shop.Valid()
    modifies shop
    ensures shop.Valid()
    ensures r == InvalidInput <==> productId < 1 || quantity < 1
    ensures r == Unavailable <==>
      (productId >= 1 && quantity >= 1 && !(productId in old(shop.products) && old(shop.products)[productId].isActive))
    ensures r != Done ==> unchanged(shop)
    ensures r == Done ==>
      var p := old(shop.products)[productId];
      var lines := old(shop.Lines(userId));
      var q := AddedQuantity(CurrentQuantity(lines, productId), quantity, p.stock);
      && shop.carts == WithLines(old(shop.carts), userId, Upsert(lines, CartLine(productId, q, p.price)))
      && Lookup(shop.Lines(userId), productId) == Some(CartLine(productId, q, p.price))
    ensures shop.products == old(shop.products) && shop.nextProductId == old(shop.nextProductId)
    ensures shop.orders == old(shop.orders) && shop.orderItems == old(shop.orderItems)
    ensures shop.nextOrderId == old(shop.nextOrderId)
    ensures forall v :: v != userId ==> shop.Lines(v) == old(shop.Lines(v))
    ensures forall p :: p != productId ==> Lookup(shop.Lines(userId), p) == Lookup(old(shop.Lines(userId)), p)
  {
    if productId < 1 || quantity < 1 {
      return InvalidInput;
    }
    if productId !in shop.products || !shop.products[productId].isActive {
      return Unavailable;
    }
    var product := shop.products[productId];
    var lines := shop.Lines(userId);
    var currentQty := CurrentQuantity(lines, productId);
    var newQty := AddedQuantity(currentQty, quantity, product.stock);
    var line := CartLine(productId, newQty, product.price);
    var updated := Upsert(lines, line);
    UpsertWellFormed(lines, line, shop.products);
    shop.SetLines(userId, updated);
    forall p ensures Lookup(shop.Lines(userId), p) == if p == productId then Some(line) else Lookup(lines, p) {
      UpsertLookup(lines, line, p);
    }
    r := Done;
  }

  /** POST /cart/update. */
  method UpdateCart(shop: Shop, userId: UserId, productId: ProductId, quantity: int) returns (r: CartResult)
    requires shop.Valid()
    modifies shop
    ensures shop.Valid()
    ensures r == InvalidInput <==> productId < 1 || quantity < 0
    ensures r == Unavailable <==> productId >= 1 && quantity > 0 && productId !in old(shop.products)
    ensures r != Done ==> unchanged(shop)
    ensures r == Done && quantity == 0 ==>
      && shop.carts == WithLines(old(shop.carts), userId, Remove(old(shop.Lines(userId)), productId))
      && Lookup(shop.Lines(userId), productId) == None
    ensures r == Done && quantity > 0 ==>
      var p := old(shop.products)[productId];
      var lines := old(shop.Lines(userId));
      var q := UpdatedQuantity(quantity, p.stock);
      && shop.carts == WithLines(old(shop.carts), userId, SetExisting(lines, productId, q, p.price))
      && Lookup(shop.Lines(userId), productId)
         == if Lookup(lines, productId).Some? then Some(CartLine(productId, q, p.price)) else None
    ensures r == Done && Lookup(old(shop.Lines(userId)), productId).None? ==> shop.carts == old(shop.carts)
    ensures shop.products == old(shop.products) && shop.nextProductId == old(shop.nextProductId)
    ensures shop.orders == old(shop.orders) && shop.orderItems == old(shop.orderItems)
    ensures shop.nextOrderId == old(shop.nextOrderId)
    ensures forall v :: v != userId ==> shop.Lines(v) == old(shop.Lines(v))
    ensures forall p :: p != productId ==> Lookup(shop.Lines(userId), p) == Lookup(old(shop.Lines(userId)), p)
  {
    if productId < 1 || quantity < 0 {
      return InvalidInput;
    }
    var lines := shop.Lines(userId);
    if quantity == 0 {
      RemoveWellFormed(lines, productId, shop.products);
      WithSameLines(shop.carts, userId);
      shop.SetLines(userId, Remove(lines, productId));
      forall p ensures Lookup(shop.Lines(userId), p) == if p == productId then None else Lookup(lines, p) {
        RemoveLookup(lines, productId, p);
      }
      return Done;
    }
    if productId !in shop.products {
      return Unavailable;
    }
    var product := shop.products[productId];
    var qty := UpdatedQuantity(quantity, product.stock);
    if Find(lines, productId).Some? {
      UpsertWellFormed(lines, CartLine(productId, qty, product.price), shop.products);
    }
    WithSameLines(shop.carts, userId);
    shop.SetLines(userId, SetExisting(lines, productId, qty, product.price));
    forall p ensures Lookup(shop.Lines(userId), p)
      == if p == productId && Lookup(lines, productId).Some? then Some(CartLine(productId, qty, product.price)) else Lookup(lines, p)
    {
      SetExistingLookup(lines, productId, qty, product.price, p);
    }
    r := Done;
  }

  /** POST /cart/remove. */
  method RemoveFromCart(shop: Shop, userId: UserId, productId: ProductId) returns (r: CartResult)
    requires shop.Valid()
    modifies shop
    ensures shop.Valid()
    ensures r == InvalidInput <==> productId < 1
    ensures r != Unavailable
    ensures r == InvalidInput ==> unchanged(shop)
    ensures r == Done ==> shop.carts == WithLines(old(shop.carts), userId, Remove(old(shop.Lines(userId)), productId))
    ensures r == Done ==> Lookup(shop.Lines(userId), productId) == None
    ensures Lookup(old(shop.Lines(userId)), productId).None? ==> shop.carts == old(shop.carts)
    ensures shop.products == old(shop.products) && shop.nextProductId == old(shop.nextProductId)
    ensures shop.orders == old(shop.orders) && shop.orderItems == old(shop.orderItems)
    ensures shop.nextOrderId == old(shop.nextOrderId)
    ensures forall v :: v != userId ==> shop.Lines(v) == old(shop.Lines(v))
    ensures forall p :: p != productId ==> Lookup(shop.Lines(userId), p) == Lookup(old(shop.Lines(userId)), p)
  {
    if productId < 1 {
      return InvalidInput;
    }
    var lines := shop.Lines(userId);
    RemoveWellFormed(lines, productId, shop.products);
    WithSameLines(shop.carts, userId);
    shop.SetLines(userId, Remove(lines, productId));
    forall p ensures Lookup(shop.Lines(userId), p) == if p == productId then None else Lookup(lines, p) {
      RemoveLookup(lines, productId, p);
    }
    r := Done;
  }
}
