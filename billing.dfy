/** The point-of-sale half of fp.py: `OrderItem` cart lines, `Sale` records and
    `BillingSystem`, which keeps a cart of order items and the list of completed sales
    on top of an `InventoryManager`. */
module Billing {
  import opened Common
  import opened Inventory
  import opened Cart

  /** A calendar date, compared as a whole. */
  datatype Date = Date(year: int, month: int, day: int)

  /** A moment: its date and the time of day in microseconds since midnight. */
  datatype DateTime = DateTime(date: Date, timeOfDay: int)

  /** A completed transaction: the cart lines as they stood at checkout, the subtotal
      before discount, when it happened and the discount granted. Sales loaded from the
      sales file carry no lines. */
  datatype Sale = Sale(items: seq<Line>, totalAmount: real, dateTime: DateTime, discount: real)
  {
    /** What the customer pays: the subtotal less the discount, which lies between
        nothing and the subtotal exactly when the discount does. */
    function FinalAmount(): (r: real)
      ensures 0.0 <= r <= totalAmount <==> 0.0 <= discount <= totalAmount
    {
      totalAmount - discount
    }
  }

  /** The sales `get_daily_sales` reports for `date`, in the order they were made. */
  function DailySales(sales: seq<Sale>, date: Date): seq<Sale>
  {
    Filter(sales, (s: Sale) => s.dateTime.date == date)
  }

  /** The daily report lists exactly the sales made on that date. */
  lemma DailySalesMembership(sales: seq<Sale>, date: Date, s: Sale)
    ensures s in DailySales(sales, date) <==> s in sales && s.dateTime.date == date
  {
    FilterMembership(sales, (t: Sale) => t.dateTime.date == date, s);
  }

  /** A new sale joins the report of its own date and of no other. */
  lemma DailySalesAppend(sales: seq<Sale>, s: Sale, date: Date)
    ensures DailySales(sales + [s], date) == DailySales(sales, date) + (if s.dateTime.date == date then [s] else [])
  {
    assert (sales + [s])[..|sales|] == sales;
  }

  /** The catalog records `get_low_stock_products` reports, in catalog order. */
  function LowStock(c: seq<ProductInfo>, threshold: int): seq<ProductInfo>
  {
    Filter(c, (p: ProductInfo) => p.stockQuantity <= threshold)
  }

  /** The low-stock report lists exactly the records whose stock is at most the threshold. */
  lemma LowStockMembership(c: seq<ProductInfo>, threshold: int, p: ProductInfo)
    ensures p in LowStock(c, threshold) <==> p in c && p.stockQuantity <= threshold
  {
    FilterMembership(c, (q: ProductInfo) => q.stockQuantity <= threshold, p);
  }

  /** One cart line object: the product it refers to, the quantity, and the total
      cached when the quantity was last set. */
  class OrderItem {
    const product: Product
    var quantity: int
    var total: real

    /** A new line caches the product's current price times the quantity. */
    constructor (product: Product, quantity: int)
      ensures this.product == product && this.quantity == quantity
      ensures Current(AsLine())
    {
      this.product := product;
      this.quantity := quantity;
      this.total := product.price * quantity as real;
    }

    /** This line as a value, with the referenced product's current price. */
    function AsLine(): Line
      reads this, product
    {
      Line(product.productId, product.price, quantity, total)
    }
  }

  /** The current values of a sequence of order items. */
  function LinesOf(items: seq<OrderItem>): (r: seq<Line>)
    reads set i | i in items, set i | i in items :: i.product
    ensures |r| == |items| && forall k :: 0 <= k < |items| ==> r[k] == items[k].AsLine()
  {
    seq(|items|, k requires 0 <= k < |items| reads set i | i in items, set i | i in items :: i.product => items[k].AsLine())
  }

  /** Appending an item appends its line. */
  lemma LinesOfAppend(items: seq<OrderItem>, item: OrderItem)
    ensures LinesOf(items + [item]) == LinesOf(items) + [item.AsLine()]
  {
    assert (items + [item])[..|items|] == items;
  }

  /** Cutting the item at `i` out cuts its line out. */
  lemma LinesOfCut(items: seq<OrderItem>, i: nat)
    requires i < |items|
    ensures LinesOf(items[..i] + items[i + 1..]) == LinesOf(items)[..i] + LinesOf(items)[i + 1..]
  {
    var rest, all := items[..i] + items[i + 1..], LinesOf(items);
    forall k | 0 <= k < |rest|
      ensures LinesOf(rest)[k] == (all[..i] + all[i + 1..])[k]
    {
      var m := if k < i then k else k + 1;
      assert rest[k] == items[m];
      assert (all[..i] + all[i + 1..])[k] == all[m];
    }
  }

  class BillingSystem {
    const inventory: InventoryManager
    /** The cart: order items in the order they were first added. */
    var cart: seq<OrderItem>
    /** Every sale recorded so far, oldest first. */
    var sales: seq<Sale>

    /** The catalog is consistent, no product is on two cart lines, and every cart line
        orders at least one unit. */
    ghost predicate Valid()
      reads this, inventory, cart
    {
      && inventory.Valid()
      && (forall i, j :: 0 <= i < j < |cart| ==> cart[i].product.productId != cart[j].product.productId)
      && (forall i :: 0 <= i < |cart| ==> cart[i].quantity > 0)
    }

    /** The cart as values. */
    ghost function Lines(): seq<Line>
      reads this, cart, set i | i in cart :: i.product
    {
      LinesOf(cart)
    }

    /** The object invariant says of the cart exactly that its lines are well formed. */
    lemma ValidIffWellFormed()
      requires inventory.Valid()
      ensures Valid() <==> WellFormed(Lines())
    {
    }

    /** A billing system starts with an empty cart and the sales read from the sales file. */
    constructor (inventory: InventoryManager, loadedSales: seq<Sale>)
      requires inventory.Valid()
      ensures Valid()
      ensures this.inventory == inventory && cart == [] && sales == loadedSales
    {
      this.inventory := inventory;
      cart := [];
      sales := loadedSales;
    }

    /** `add_to_cart`: rejected, changing nothing, unless the product exists, the quantity
        is positive and the stock covers this request. An accepted request grows the
        product's line at that line's product price, or appends a new line for the
        catalog's product object. */
    method AddToCart(productId: string, quantity: int) returns (ok: bool)
      requires Valid()
      modifies this, cart
      ensures Valid() && sales == old(sales)
      ensures ok == AddAccepted(old(inventory.Catalog()), productId, quantity)
      ensures !ok ==> cart == old(cart) && Lines() == old(Lines())
      ensures ok ==> Lines() == Added(old(Lines()), productId, quantity, Lookup(old(inventory.Catalog()), productId).value.price)
      ensures ok && Find(old(Lines()), productId).None? ==>
        && |cart| == |old(cart)| + 1 && cart[..|old(cart)|] == old(cart)
        && fresh(cart[|old(cart)|]) && cart[|old(cart)|].product == inventory.products[productId]
      ensures Find(old(Lines()), productId).Some? ==> cart == old(cart)
    {
      var found := inventory.GetProduct(productId);
      ok := found.Some? && quantity > 0 && found.value.stockQuantity >= quantity;
      if ok {
        Put(found.value, quantity);
      }
    }

    /** The part of `add_to_cart` after its checks: the loop that looks for the product's
        line and grows it, or else appends a new line. */
    method Put(product: Product, quantity: int)
      requires Valid() && quantity > 0
      modifies this, cart
      ensures Valid() && sales == old(sales)
      ensures Lines() == Added(old(Lines()), product.productId, quantity, old(product.price))
      ensures Find(old(Lines()), product.productId).None? ==>
        && |cart| == |old(cart)| + 1 && cart[..|old(cart)|] == old(cart)
        && fresh(cart[|old(cart)|]) && cart[|old(cart)|].product == product
      ensures Find(old(Lines()), product.productId).Some? ==> cart == old(cart)
    {
      var i := 0;
      while i < |cart| && cart[i].product.productId != product.productId
        invariant 0 <= i <= |cart|
        invariant forall k :: 0 <= k < i ==> cart[k].product.productId != product.productId
      {
        i := i + 1;
      }
      AddedMerges(Lines(), product.productId, quantity, product.price);
      if i < |cart| {
        assert Find(Lines(), product.productId) == Some(i);
        MergeInto(i, quantity);
      } else {
        assert Find(Lines(), product.productId).None?;
        Append(product, quantity);
      }
    }

    /** The merge step of `add_to_cart`: the line at `i` grows by `quantity` and its
        total is recomputed from its own product's price. */
    method MergeInto(i: nat, quantity: int)
      requires Valid() && i < |cart| && quantity > 0
      modifies cart[i]
      ensures Valid()
      ensures Lines() == old(Lines()[i := Priced(Lines()[i], Lines()[i].quantity + quantity)])
    {
      ghost var before := Lines();
      var item := cart[i];
      assert forall k | 0 <= k < |cart| && k != i :: cart[k] != item;
      item.quantity := item.quantity + quantity;
      item.total := item.product.price * item.quantity as real;
      LinesAfterChangeAt(i);
      assert item.AsLine() == Priced(before[i], before[i].quantity + quantity);
    }

    /** When only the line object at `i` has changed, the cart view changes at `i` only. */
    twostate lemma LinesAfterChangeAt(i: nat)
      requires unchanged(this) && i < |cart|
      requires forall k | 0 <= k < |cart| && k != i :: unchanged(cart[k])
      requires forall k | 0 <= k < |cart| :: unchanged(cart[k].product)
      ensures Lines() == old(Lines())[i := cart[i].AsLine()]
    {
      forall k | 0 <= k < |cart|
        ensures Lines()[k] == old(Lines())[i := cart[i].AsLine()][k]
      {
        if k != i {
          assert cart[k].AsLine() == old(cart[k].AsLine());
        }
      }
    }

    /** The append step of `add_to_cart`: a new order item for `quantity` units of
        `product` goes last. */
    method Append(product: Product, quantity: int)
      requires Valid() && quantity > 0
      requires Find(Lines(), product.productId).None?
      modifies this
      ensures Valid() && sales == old(sales)
      ensures |cart| == |old(cart)| + 1 && cart[..|old(cart)|] == old(cart)
      ensures fresh(cart[|old(cart)|]) && cart[|old(cart)|].product == product
      ensures Lines() == old(Lines()) + [Line(product.productId, old(product.price), quantity, Price(old(product.price), quantity))]
    {
      ghost var before := Lines();
      var item := new OrderItem(product, quantity);
      LinesOfAppend(cart, item);
      assert LinesOf(cart) == before;
      cart := cart + [item];
      assert cart[..|old(cart)|] == old(cart);
      assert Lines() == before + [item.AsLine()];
      assert item.AsLine() == Line(product.productId, product.price, quantity, Price(product.price, quantity));
    }

    /** `remove_from_cart`: no line for the id means no change and false. Otherwise the
        line goes when no quantity is given or the quantity covers it, or else shrinks
        and is repriced; the other lines keep their order. */
    method RemoveFromCart(productId: string, quantity: Option<int>) returns (ok: bool)
      requires Valid()
      modifies this, cart
      ensures Valid() && sales == old(sales)
      ensures ok == Find(old(Lines()), productId).Some?
      ensures Lines() == Removed(old(Lines()), productId, quantity)
      ensures !ok ==> cart == old(cart)
      ensures ok ==> var j := Find(old(Lines()), productId).value;
        if quantity.None? || quantity.value >= old(cart[j].quantity) then cart == old(cart[..j] + cart[j + 1..])
        else cart == old(cart)
    {
      var i := 0;
      while i < |cart| && cart[i].product.productId != productId
        invariant 0 <= i <= |cart|
        invariant forall k :: 0 <= k < i ==> cart[k].product.productId != productId
      {
        i := i + 1;
      }
      if i == |cart| {
        assert Find(Lines(), productId).None?;
        return false;
      }
      assert Find(Lines(), productId) == Some(i);
      TakeFrom(i, productId, quantity);
      ok := true;
    }

    /** The part of `remove_from_cart` after it has found the line for `productId` at
        `i`: the line goes, or it shrinks and is repriced. */
    method TakeFrom(i: nat, productId: string, quantity: Option<int>)
      requires Valid() && Find(Lines(), productId) == Some(i)
      modifies this, cart
      ensures Valid() && sales == old(sales)
      ensures Lines() == Removed(old(Lines()), productId, quantity)
      ensures if quantity.None? || quantity.value >= old(cart[i].quantity) then cart == old(cart[..i] + cart[i + 1..])
        else cart == old(cart)
    {
      ghost var before := Lines();
      ghost var after := Removed(before, productId, quantity);
      if quantity.None? || quantity.value >= cart[i].quantity {
        assert after == before[..i] + before[i + 1..] by {
          assert before[i].quantity == cart[i].quantity;
        }
        Cut(i);
      } else {
        assert after == before[i := Priced(before[i], before[i].quantity - quantity.value)] by {
          assert before[i].quantity == cart[i].quantity;
        }
        Shrink(i, quantity.value);
      }
    }

    /** `cart.pop(i)`: the line at `i` leaves the cart. */
    method Cut(i: nat)
      requires Valid() && i < |cart|
      modifies this
      ensures Valid() && sales == old(sales)
      ensures cart == old(cart[..i] + cart[i + 1..])
      ensures Lines() == old(Lines()[..i] + Lines()[i + 1..])
    {
      LinesOfCut(cart, i);
      cart := cart[..i] + cart[i + 1..];
      assert forall k :: 0 <= k < |cart| ==> cart[k] == old(cart)[if k < i then k else k + 1];
    }

    /** The line at `i` gives up `quantity` units, fewer than it holds, and is repriced. */
    method Shrink(i: nat, quantity: int)
      requires Valid() && i < |cart| && quantity < cart[i].quantity
      modifies cart[i]
      ensures Valid() && sales == old(sales)
      ensures Lines() == old(Lines()[i := Priced(Lines()[i], Lines()[i].quantity - quantity)])
    {
      ghost var before := Lines();
      var item := cart[i];
      assert forall k | 0 <= k < |cart| && k != i :: cart[k] != item;
      item.quantity := item.quantity - quantity;
      item.total := item.product.price * item.quantity as real;
      LinesAfterChangeAt(i);
      assert item.AsLine() == Priced(before[i], before[i].quantity - quantity);
    }

    /** `apply_discount`: the discount for the current cart, 0 for an empty cart; the
        cart is left as it is. */
    method ApplyDiscount(discountType: string, value: real) returns (discount: real)
      ensures discount == Discount(Subtotal(Lines()), discountType, value)
    {
      if cart == [] {
        return 0.0;
      }
      discount := Discount(Subtotal(LinesOf(cart)), discountType, value);
    }

    /** `checkout`: an empty cart or a discount outside zero to the subtotal changes
        nothing and gives `None`. Otherwise one sale of the cart's lines is recorded,
        every cart product's stock drops by its line's quantity, and the cart empties. */
    method Checkout(now: DateTime, discount: real := 0.0) returns (r: Option<Sale>)
      requires Valid()
      requires forall k :: 0 <= k < |cart| ==> cart[k].product.productId in inventory.products
      modifies this, inventory.products.Values
      ensures Valid()
      ensures r.None? <==> old(cart) == [] || discount < 0.0 || discount > Subtotal(old(Lines()))
      ensures r.None? ==> cart == old(cart) && sales == old(sales) && inventory.Catalog() == old(inventory.Catalog())
      ensures r.Some? ==>
        && r.value == Sale(old(Lines()), Subtotal(old(Lines())), now, discount)
        && 0.0 <= r.value.FinalAmount() <= r.value.totalAmount
        && sales == old(sales) + [r.value]
        && cart == []
        && inventory.Catalog() == Deducted(old(inventory.Catalog()), old(Lines()))
    {
      if cart == [] {
        return None;
      }
      var items := LinesOf(cart);
      var total := Subtotal(items);
      if discount < 0.0 || discount > total {
        return None;
      }
      var sale := Sale(items, total, now, discount);
      Record(sale);
      r := Some(sale);
    }

    /** The part of `checkout` after its checks: the sale is appended, the stock of
        every product on its lines drops by the line's quantity, and the cart empties. */
    method Record(sale: Sale)
      requires inventory.Valid()
      requires forall k :: 0 <= k < |sale.items| ==> sale.items[k].productId in inventory.products
      modifies this, inventory.products.Values
      ensures Valid() && sales == old(sales) + [sale] && cart == []
      ensures inventory.Catalog() == Deducted(old(inventory.Catalog()), sale.items)
    {
      label start:
      cart, sales := [], sales + [sale];
      inventory.CatalogKept@start();
      DeductCart(sale.items);
    }

    /** Checkout's stock loop: for each cart line, the catalog product under that line's
        id loses the line's quantity. */
    method DeductCart(lines: seq<Line>)
      requires inventory.Valid()
      requires forall k :: 0 <= k < |lines| ==> lines[k].productId in inventory.products
      modifies inventory.products.Values
      ensures inventory.Valid()
      ensures inventory.Catalog() == Deducted(old(inventory.Catalog()), lines)
    {
      ghost var start := inventory.Catalog();
      var k := 0;
      while k < |lines|
        invariant 0 <= k <= |lines|
        invariant inventory.Valid()
        invariant inventory.Catalog() == Deducted(start, lines[..k])
      {
        inventory.DeductStock(lines[k].productId, lines[k].quantity);
        DeductedStep(start, lines, k);
        k := k + 1;
      }
      assert lines[..k] == lines;
    }

    /** `generate_bill`'s format check: only "txt" and "csv" bills are written; the
        result is then whether writing the file succeeded. */
    method GenerateBill(sale: Sale, written: bool, fileFormat: string := "txt") returns (ok: bool)
      ensures ok <==> (fileFormat == "txt" || fileFormat == "csv") && written
    {
      if fileFormat != "txt" && fileFormat != "csv" {
        return false;
      }
      ok := written;
    }

    /** `get_daily_sales`: the recorded sales made on `targetDate`, in order; without a
        target date, those made `today`. */
    method GetDailySales(targetDate: Option<Date>, today: Date) returns (daily: seq<Sale>)
      ensures daily == DailySales(sales, if targetDate.Some? then targetDate.value else today)
    {
      var date := if targetDate.Some? then targetDate.value else today;
      daily := [];
      var k := 0;
      while k < |sales|
        invariant 0 <= k <= |sales|
        invariant daily == DailySales(sales[..k], date)
      {
        if sales[k].dateTime.date == date {
          daily := daily + [sales[k]];
        }
        TakeOneMore(sales, k);
        k := k + 1;
      }
      assert sales[..k] == sales;
    }

    /** `get_low_stock_products`: the catalog products whose stock is at most the
        threshold, in catalog order. */
    method GetLowStockProducts(threshold: int := 5) returns (lowStock: seq<Product>)
      requires inventory.Valid()
      ensures Infos(lowStock) == LowStock(inventory.Catalog(), threshold)
      ensures forall p | p in lowStock :: p in inventory.products.Values
    {
      ghost var c := inventory.Catalog();
      lowStock := [];
      var k := 0;
      while k < |inventory.order|
        invariant 0 <= k <= |inventory.order|
        invariant Infos(lowStock) == LowStock(c[..k], threshold)
        invariant forall p | p in lowStock :: p in inventory.products.Values
      {
        var product := inventory.products[inventory.order[k]];
        if product.stockQuantity <= threshold {
          lowStock := lowStock + [product];
        }
        assert c[..k + 1][..k] == c[..k];
        k := k + 1;
      }
      assert c[..k] == c;
    }
  }

  /** A price change made through `update_product` does not reach the cart: the line for
      that product object keeps its quantity and its cached total but now reads the new
      price, so a total that was current before is stale afterwards. */
  method RepriceLeavesLineStale(b: BillingSystem, i: nat, newPrice: real, saved: bool) returns (ok: bool)
    requires b.Valid() && i < |b.cart| && Current(b.Lines()[i])
    requires b.cart[i].product.productId in b.inventory.products
    requires b.inventory.products[b.cart[i].product.productId] == b.cart[i].product
    requires newPrice > 0.0 && newPrice != b.cart[i].product.price
    modifies b.inventory.products.Values
    ensures ok == saved
    ensures b.cart[i].product.price == newPrice
    ensures !Current(b.Lines()[i])
  {
    var item := b.cart[i];
    ghost var before := item.AsLine();
    assert b.Lines()[i] == before;
    ok := b.inventory.UpdateProduct(item.product.productId, None, Some(newPrice), None, saved);
    assert item.AsLine() == before.(unitPrice := newPrice);
    StaleAfterPriceChange(before, newPrice);
    assert b.Lines()[i] == item.AsLine();
  }
}
