/** The shopping cart of fp.py seen as values: one `Line` per `OrderItem`, and what
    adding, removing, discounting and checking out do to a sequence of lines and to the
    catalog's stock. */
module Cart {
  import opened Common
  import opened Inventory

  /** One cart line: the product's id, the product's current unit price, the quantity
      ordered and the line total cached when the quantity last changed. */
  datatype Line = Line(productId: string, unitPrice: real, quantity: int, total: real)

  /** The amount `quantity` units cost at `unitPrice` each. */
  function Price(unitPrice: real, quantity: int): real
  {
    unitPrice * quantity as real
  }

  /** The line `l` with quantity `quantity` and its total recomputed from the unit price. */
  function Priced(l: Line, quantity: int): Line
  {
    l.(quantity := quantity, total := Price(l.unitPrice, quantity))
  }

  /** What the cart operations keep: no product appears on two lines, and every line
      orders at least one unit. */
  predicate WellFormed(lines: seq<Line>)
  {
    && (forall i, j :: 0 <= i < j < |lines| ==> lines[i].productId != lines[j].productId)
    && (forall i :: 0 <= i < |lines| ==> lines[i].quantity > 0)
  }

  /** The line's cached total equals unit price times quantity. */
  predicate Current(l: Line)
  {
    l.total == Price(l.unitPrice, l.quantity)
  }

  /** Every cached total is current. */
  predicate TotalsCurrent(lines: seq<Line>)
  {
    forall i :: 0 <= i < |lines| ==> Current(lines[i])
  }

  /** The position of the first line for `id`, as the cart loops find it. */
  function Find(lines: seq<Line>, id: string): (r: Option<nat>)
    ensures r.Some? ==> r.value < |lines| && lines[r.value].productId == id
    ensures r.Some? ==> forall k :: 0 <= k < r.value ==> lines[k].productId != id
    ensures r.None? ==> forall k :: 0 <= k < |lines| ==> lines[k].productId != id
  {
    if lines == [] then None
    else if lines[0].productId == id then Some(0)
    else match Find(lines[1..], id)
      case None => None
      case Some(j) => Some(j + 1)
  }

  /** The sum of the cached line totals: the `total` that discounts and checkout use.
      Lines whose totals are not negative never sum to less than zero. */
  function Subtotal(lines: seq<Line>): (s: real)
    ensures (forall i :: 0 <= i < |lines| ==> lines[i].total >= 0.0) ==> s >= 0.0
  {
    if lines == [] then 0.0 else Subtotal(lines[..|lines| - 1]) + lines[|lines| - 1].total
  }

  /** How many units of `id` the lines order in all. */
  function QuantityOf(lines: seq<Line>, id: string): int
  {
    if lines == [] then 0
    else QuantityOf(lines[..|lines| - 1], id) + (if lines[|lines| - 1].productId == id then lines[|lines| - 1].quantity else 0)
  }

  /** How many units the lines order in all. */
  function TotalQuantity(lines: seq<Line>): int
  {
    if lines == [] then 0 else TotalQuantity(lines[..|lines| - 1]) + lines[|lines| - 1].quantity
  }

  /** The stock check `add_to_cart` makes against the catalog: the product exists, the
      quantity is positive and the product's stock covers this one request. */
  predicate AddAccepted(c: seq<ProductInfo>, id: string, quantity: int)
  {
    Lookup(c, id).Some? && quantity > 0 && Lookup(c, id).value.stockQuantity >= quantity
  }

  /** An accepted `add_to_cart`: the existing line for `id` grows by `quantity` at its own
      product's price, or a new line for `quantity` units at `unitPrice` goes last. */
  function Added(lines: seq<Line>, id: string, quantity: int, unitPrice: real): seq<Line>
  {
    match Find(lines, id)
    case Some(j) => lines[j := Priced(lines[j], lines[j].quantity + quantity)]
    case None => lines + [Line(id, unitPrice, quantity, Price(unitPrice, quantity))]
  }

  /** `remove_from_cart`: the line for `id` goes when no quantity is given or the quantity
      covers the whole line; otherwise the line shrinks by the quantity and is repriced.
      Without a line for `id` nothing changes. */
  function Removed(lines: seq<Line>, id: string, quantity: Option<int>): seq<Line>
  {
    match Find(lines, id)
    case None => lines
    case Some(j) =>
      if quantity.None? || quantity.value >= lines[j].quantity then lines[..j] + lines[j + 1..]
      else lines[j := Priced(lines[j], lines[j].quantity - quantity.value)]
  }

  /** The two cases of `Added`: a merge into the line found for `id`, or a new last line. */
  lemma AddedMerges(lines: seq<Line>, id: string, quantity: int, unitPrice: real)
    ensures Find(lines, id).Some? ==>
      var j := Find(lines, id).value;
      Added(lines, id, quantity, unitPrice) == lines[j := Priced(lines[j], lines[j].quantity + quantity)]
    ensures Find(lines, id).None? ==>
      Added(lines, id, quantity, unitPrice) == lines + [Line(id, unitPrice, quantity, Price(unitPrice, quantity))]
  {
  }

  /** In a well-formed cart the line found for `id` holds all the units of `id`. */
  lemma {:induction false} QuantityOfFound(lines: seq<Line>, id: string)
    requires WellFormed(lines)
    ensures QuantityOf(lines, id) == match Find(lines, id) case None => 0 case Some(j) => lines[j].quantity
  {
    if lines != [] {
      var init := lines[..|lines| - 1];
      QuantityOfFound(init, id);
      var f, g := Find(lines, id), Find(init, id);
      if g.Some? {
        assert init[g.value] == lines[g.value];
        assert f == g;
      } else if f.Some? {
        assert f.value == |lines| - 1;
      }
    }
  }

  /** Replacing one line by a line for the same product changes the units of that
      product only, by the difference in quantity. */
  lemma {:induction false} QuantityOfUpdate(lines: seq<Line>, j: nat, l: Line, id: string)
    requires j < |lines| && l.productId == lines[j].productId
    ensures QuantityOf(lines[j := l], id) ==
      QuantityOf(lines, id) + (if l.productId == id then l.quantity - lines[j].quantity else 0)
  {
    var n := |lines| - 1;
    if j < n {
      QuantityOfUpdate(lines[..n], j, l, id);
      assert lines[j := l][..n] == lines[..n][j := l];
    } else {
      assert lines[j := l][..n] == lines[..n];
    }
  }

  /** Cutting one line out removes exactly its units. */
  lemma {:induction false} QuantityOfCut(lines: seq<Line>, j: nat, id: string)
    requires j < |lines|
    ensures QuantityOf(lines[..j] + lines[j + 1..], id) ==
      QuantityOf(lines, id) - (if lines[j].productId == id then lines[j].quantity else 0)
  {
    var n := |lines| - 1;
    if j < n {
      var cut := lines[..j] + lines[j + 1..];
      QuantityOfCut(lines[..n], j, id);
      assert cut[..n - 1] == lines[..n][..j] + lines[..n][j + 1..];
      assert cut[n - 1] == lines[n];
      assert QuantityOf(cut, id) == QuantityOf(cut[..n - 1], id) + (if lines[n].productId == id then lines[n].quantity else 0);
      assert QuantityOf(lines, id) == QuantityOf(lines[..n], id) + (if lines[n].productId == id then lines[n].quantity else 0);
    } else {
      assert lines[..j] + lines[j + 1..] == lines[..n];
    }
  }

  /** Adding to the cart only ever adds `quantity` units of `id`: the cart behaves as a bag. */
  lemma AddedQuantity(lines: seq<Line>, id: string, quantity: int, unitPrice: real, x: string)
    ensures QuantityOf(Added(lines, id, quantity, unitPrice), x) == QuantityOf(lines, x) + (if x == id then quantity else 0)
  {
    match Find(lines, id)
    case Some(j) =>
      QuantityOfUpdate(lines, j, Priced(lines[j], lines[j].quantity + quantity), x);
    case None =>
      var l := Line(id, unitPrice, quantity, Price(unitPrice, quantity));
      assert (lines + [l])[..|lines|] == lines;
  }

  /** A positive addition keeps the cart well formed: still one line per product. */
  lemma AddedWellFormed(lines: seq<Line>, id: string, quantity: int, unitPrice: real)
    requires WellFormed(lines) && quantity > 0
    ensures WellFormed(Added(lines, id, quantity, unitPrice))
  {
  }

  /** Adding reprices the line it touches, so current totals stay current. */
  lemma AddedTotalsCurrent(lines: seq<Line>, id: string, quantity: int, unitPrice: real)
    requires TotalsCurrent(lines)
    ensures TotalsCurrent(Added(lines, id, quantity, unitPrice))
  {
  }

  /** Removing takes away the requested units of `id`, or all of them when no quantity
      is given or the quantity covers the line; other products keep their units. */
  lemma RemovedQuantity(lines: seq<Line>, id: string, quantity: Option<int>, x: string)
    requires WellFormed(lines) && Find(lines, id).Some?
    ensures QuantityOf(Removed(lines, id, quantity), x) ==
      if x != id then QuantityOf(lines, x)
      else if quantity.None? || quantity.value >= QuantityOf(lines, id) then 0
      else QuantityOf(lines, id) - quantity.value
  {
    var j := Find(lines, id).value;
    QuantityOfFound(lines, id);
    assert QuantityOf(lines, id) == lines[j].quantity;
    if quantity.None? || quantity.value >= lines[j].quantity {
      RemovedWholeLine(lines, j, x);
    } else {
      var shrunk := Priced(lines[j], lines[j].quantity - quantity.value);
      assert shrunk.productId == id && shrunk.quantity == lines[j].quantity - quantity.value;
      assert Removed(lines, id, quantity) == lines[j := shrunk];
      QuantityOfUpdate(lines, j, shrunk, x);
    }
  }

  /** Cutting the line at `j` out of a well-formed cart leaves no units of its product
      and all units of the others. */
  lemma RemovedWholeLine(lines: seq<Line>, j: nat, x: string)
    requires WellFormed(lines) && j < |lines|
    ensures QuantityOf(lines[..j] + lines[j + 1..], x) ==
      if x == lines[j].productId then 0 else QuantityOf(lines, x)
  {
    QuantityOfCut(lines, j, x);
    if x == lines[j].productId {
      QuantityOfFound(lines, x);
      assert Find(lines, x) == Some(j);
    }
  }

  /** Cutting a line out of a well-formed cart leaves it well formed. */
  lemma CutWellFormed(lines: seq<Line>, j: nat)
    requires WellFormed(lines) && j < |lines|
    ensures WellFormed(lines[..j] + lines[j + 1..])
  {
    var t := lines[..j] + lines[j + 1..];
    assert forall i :: 0 <= i < |t| ==> t[i] == lines[if i < j then i else i + 1];
  }

  /** Removing keeps the cart well formed: a shrunk line keeps a positive quantity. */
  lemma RemovedWellFormed(lines: seq<Line>, id: string, quantity: Option<int>)
    requires WellFormed(lines)
    ensures WellFormed(Removed(lines, id, quantity))
  {
    match Find(lines, id)
    case None =>
    case Some(j) =>
      if quantity.None? || quantity.value >= lines[j].quantity {
        CutWellFormed(lines, j);
      }
  }

  /** Removing reprices the line it shrinks, so current totals stay current. */
  lemma RemovedTotalsCurrent(lines: seq<Line>, id: string, quantity: Option<int>)
    requires TotalsCurrent(lines)
    ensures TotalsCurrent(Removed(lines, id, quantity))
  {
    match Find(lines, id)
    case None =>
    case Some(j) =>
      var t := lines[..j] + lines[j + 1..];
      assert forall i :: 0 <= i < |t| ==> t[i] == lines[if i < j then i else i + 1];
  }

  /** Replacing one line changes the subtotal by the difference of the two totals. */
  lemma {:induction false} SubtotalUpdate(lines: seq<Line>, j: nat, l: Line)
    requires j < |lines|
    ensures Subtotal(lines[j := l]) == Subtotal(lines) - lines[j].total + l.total
  {
    var n := |lines| - 1;
    if j < n {
      SubtotalUpdate(lines[..n], j, l);
      assert lines[j := l][..n] == lines[..n][j := l];
    } else {
      assert lines[j := l][..n] == lines[..n];
    }
  }

  /** The price of `a + b` units is the price of `a` units plus the price of `b` units. */
  lemma PriceDistributes(unitPrice: real, a: int, b: int)
    ensures Price(unitPrice, a + b) == Price(unitPrice, a) + Price(unitPrice, b)
  {
  }

  /** A cached total goes stale when the product's price changes under it: the line
      still orders some units, and its total no longer equals the new price times the
      quantity. Only a change of quantity reprices a line. */
  lemma StaleAfterPriceChange(l: Line, newPrice: real)
    requires Current(l) && l.quantity != 0 && newPrice != l.unitPrice
    ensures !Current(l.(unitPrice := newPrice))
  {
    PriceDifference(newPrice, l.unitPrice, l.quantity);
  }

  /** The price difference for the same quantity at two unit prices is nonzero when
      the prices differ and the quantity is not zero. */
  lemma PriceDifference(a: real, b: real, quantity: int)
    requires a != b && quantity != 0
    ensures Price(a, quantity) != Price(b, quantity)
  {
    assert Price(a, quantity) - Price(b, quantity) == (a - b) * quantity as real;
  }

  /** Growing a line with a current total by `quantity` units raises its total by the
      price of those units. */
  lemma GrownTotal(l: Line, quantity: int)
    requires Current(l)
    ensures Priced(l, l.quantity + quantity).total == l.total + Price(l.unitPrice, quantity)
  {
    PriceDistributes(l.unitPrice, l.quantity, quantity);
  }

  /** Appending a line adds its total to the subtotal. */
  lemma SubtotalAppend(lines: seq<Line>, l: Line)
    ensures Subtotal(lines + [l]) == Subtotal(lines) + l.total
  {
    assert (lines + [l])[..|lines|] == lines;
  }

  /** Growing the line at `j`, whose total is current, by `quantity` units raises the
      subtotal by the price of those units. */
  lemma SubtotalGrow(lines: seq<Line>, j: nat, quantity: int)
    requires j < |lines| && Current(lines[j])
    ensures Subtotal(lines[j := Priced(lines[j], lines[j].quantity + quantity)]) ==
      Subtotal(lines) + Price(lines[j].unitPrice, quantity)
  {
    SubtotalUpdate(lines, j, Priced(lines[j], lines[j].quantity + quantity));
    GrownTotal(lines[j], quantity);
  }

  /** An accepted addition raises the subtotal by the price of the added units: at the
      line's own unit price when it merges into a line whose total is current, at
      `unitPrice` for a new line. */
  lemma AddedSubtotal(lines: seq<Line>, id: string, quantity: int, unitPrice: real)
    requires Find(lines, id).Some? ==> Current(lines[Find(lines, id).value])
    ensures var price := match Find(lines, id) case Some(j) => lines[j].unitPrice case None => unitPrice;
      Subtotal(Added(lines, id, quantity, unitPrice)) == Subtotal(lines) + Price(price, quantity)
  {
    match Find(lines, id)
    case Some(j) =>
      assert Added(lines, id, quantity, unitPrice) == lines[j := Priced(lines[j], lines[j].quantity + quantity)];
      SubtotalGrow(lines, j, quantity);
    case None =>
      SubtotalAppend(lines, Line(id, unitPrice, quantity, Price(unitPrice, quantity)));
  }

  /** The discount `apply_discount` computes for a cart whose subtotal is `total`: a
      percentage from 0 to 100 of the total, or a fixed amount from 0 to the total;
      any other type or an out-of-range value gives 0. */
  function Discount(total: real, discountType: string, value: real): (d: real)
    ensures d != 0.0 ==>
      || (discountType == "percentage" && 0.0 <= value <= 100.0)
      || (discountType == "fixed" && 0.0 <= value <= total && d == value)
  {
    if discountType == "percentage" then
      if value < 0.0 || value > 100.0 then 0.0 else total * (value / 100.0)
    else if discountType == "fixed" then
      if value < 0.0 || value > total then 0.0 else value
    else 0.0
  }

  /** For a cart whose subtotal is not negative, every discount lies between zero and
      the subtotal, so checkout accepts it. */
  lemma DiscountWithinTotal(total: real, discountType: string, value: real)
    requires total >= 0.0
    ensures 0.0 <= Discount(total, discountType, value) <= total
  {
    if discountType == "percentage" && 0.0 <= value <= 100.0 {
      var f := value / 100.0;
      ProductNonNegative(total, f);
      ProductNonNegative(total, 1.0 - f);
      assert total * (1.0 - f) == total - total * f;
    }
  }

  /** The product of two amounts that are not negative is not negative. */
  lemma ProductNonNegative(a: real, b: real)
    requires 0.0 <= a && 0.0 <= b
    ensures 0.0 <= a * b
  {
  }

  /** An empty cart gets no discount of either kind. */
  lemma DiscountOfEmptyCart(discountType: string, value: real)
    ensures Discount(Subtotal([]), discountType, value) == 0.0
  {
  }

  /** The catalog after checkout's stock loop: each line in turn deducts its quantity
      from the record under its product id. */
  function Deducted(c: seq<ProductInfo>, lines: seq<Line>): seq<ProductInfo>
  {
    if lines == [] then c
    else
      var l := lines[|lines| - 1];
      Deduct(Deducted(c, lines[..|lines| - 1]), l.productId, l.quantity)
  }

  /** One more line deducts its quantity from what the lines before it left. */
  lemma DeductedStep(c: seq<ProductInfo>, lines: seq<Line>, k: nat)
    requires k < |lines|
    ensures Deducted(c, lines[..k + 1]) == Deduct(Deducted(c, lines[..k]), lines[k].productId, lines[k].quantity)
  {
    assert lines[..k + 1][..k] == lines[..k];
  }

  /** Checkout's deductions leave every record in place and lower its stock by the units
      of that product the lines order in all; names, prices and ids do not change. */
  lemma {:induction false} DeductedStock(c: seq<ProductInfo>, lines: seq<Line>)
    ensures |Deducted(c, lines)| == |c|
    ensures forall i :: 0 <= i < |c| ==>
      Deducted(c, lines)[i] == c[i].(stockQuantity := c[i].stockQuantity - QuantityOf(lines, c[i].productId))
  {
    if lines != [] {
      DeductedStock(c, lines[..|lines| - 1]);
    }
  }

  /** The stock held in all records of a catalog. */
  function TotalStock(c: seq<ProductInfo>): int
  {
    if c == [] then 0 else TotalStock(c[..|c| - 1]) + c[|c| - 1].stockQuantity
  }

  /** In a catalog with distinct ids, one deduction lowers the total stock by the
      quantity when the id is present and leaves it alone otherwise. */
  lemma {:induction false} TotalStockDeduct(c: seq<ProductInfo>, id: string, quantity: int)
    requires IdsDistinct(c)
    ensures TotalStock(Deduct(c, id, quantity)) == TotalStock(c) - if Lookup(c, id).Some? then quantity else 0
  {
    if c != [] {
      var n := |c| - 1;
      assert Deduct(c, id, quantity)[..n] == Deduct(c[..n], id, quantity);
      TotalStockDeduct(c[..n], id, quantity);
      if c[n].productId != id {
        assert Lookup(c[..n], id).Some? <==> Lookup(c, id).Some? by {
          if Lookup(c, id).Some? {
            var k :| 0 <= k < |c| && c[k] == Lookup(c, id).value;
            assert c[..n][k].productId == id;
          }
          if Lookup(c[..n], id).Some? {
            var k :| 0 <= k < n && c[..n][k] == Lookup(c[..n], id).value;
            assert c[k].productId == id;
          }
        }
      }
    }
  }

  /** Checkout moves exactly the cart's units out of stock: when every line's product is
      in a catalog with distinct ids, the catalog's total stock drops by the total
      quantity of the lines. */
  lemma {:induction false} DeductedConserves(c: seq<ProductInfo>, lines: seq<Line>)
    requires IdsDistinct(c)
    requires forall k :: 0 <= k < |lines| ==> Lookup(c, lines[k].productId).Some?
    ensures TotalStock(Deducted(c, lines)) == TotalStock(c) - TotalQuantity(lines)
  {
    if lines != [] {
      var n := |lines| - 1;
      var before := Deducted(c, lines[..n]);
      DeductedConserves(c, lines[..n]);
      DeductedStock(c, lines[..n]);
      assert IdsDistinct(before);
      assert Lookup(before, lines[n].productId).Some? by {
        var k :| 0 <= k < |c| && c[k] == Lookup(c, lines[n].productId).value;
        assert before[k].productId == lines[n].productId;
      }
      TotalStockDeduct(before, lines[n].productId, lines[n].quantity);
    }
  }

  /** Stock is checked per request, not per line: two accepted requests for one unit of a
      product with one unit in stock put two units on its line, and checking out then
      leaves the product's stock at -1. */
  lemma RepeatedAddsOversell()
    ensures var c := [ProductInfo("P1", "Pen", 1.0, 1)];
      var once := Added([], "P1", 1, 1.0);
      var twice := Added(once, "P1", 1, 1.0);
      && AddAccepted(c, "P1", 1)
      && twice == [Line("P1", 1.0, 2, 2.0)]
      && Deducted(c, twice)[0].stockQuantity == -1
  {
    var c := [ProductInfo("P1", "Pen", 1.0, 1)];
    var twice := Added(Added([], "P1", 1, 1.0), "P1", 1, 1.0);
    DeductedStock(c, twice);
  }
}
