/** The product catalog of fp.py: `Product` records and `InventoryManager`, the
    insertion-ordered dictionary from product id to product that add, update, delete,
    lookup and search work on. */
module Inventory {
  import opened Common
  import opened Text

  /** The fields of one product at one moment. */
  datatype ProductInfo = ProductInfo(productId: string, name: string, price: real, stockQuantity: int)

  /** No two records of a catalog share a product id. */
  predicate IdsDistinct(c: seq<ProductInfo>)
  {
    forall i, j :: 0 <= i < j < |c| ==> c[i].productId != c[j].productId
  }

  /** The search test: the lower-cased keyword is a substring of the lower-cased name,
      or equals the lower-cased id. */
  predicate Matches(p: ProductInfo, keyword: string)
  {
    Contains(Lower(p.name), Lower(keyword)) || Lower(keyword) == Lower(p.productId)
  }

  /** The products a search for `keyword` lists, in catalog order. */
  function Search(c: seq<ProductInfo>, keyword: string): seq<ProductInfo>
  {
    Filter(c, p => Matches(p, keyword))
  }

  /** A search returns exactly the catalog records that match the keyword. */
  lemma SearchMembership(c: seq<ProductInfo>, keyword: string, p: ProductInfo)
    ensures p in Search(c, keyword) <==> p in c && Matches(p, keyword)
  {
    FilterMembership(c, q => Matches(q, keyword), p);
  }

  /** The search ignores case in the keyword: any keyword finds what its lower-case form finds. */
  lemma SearchCaseInsensitive(c: seq<ProductInfo>, keyword: string)
    ensures Search(c, keyword) == Search(c, Lower(keyword))
  {
    LowerIdempotent(keyword);
    FilterAgrees(c, q => Matches(q, keyword), q => Matches(q, Lower(keyword)));
  }

  /** An empty keyword is a substring of every name, so it lists the whole catalog. */
  lemma SearchEmptyKeyword(c: seq<ProductInfo>)
    ensures Search(c, "") == c
  {
    forall i | 0 <= i < |c|
      ensures Matches(c[i], "")
    {
      ContainsEmpty(Lower(c[i].name));
    }
    FilterKeepsAll(c, q => Matches(q, ""));
  }

  /** The catalog without the record whose id is `id`, others in their order. */
  function WithoutId(c: seq<ProductInfo>, id: string): seq<ProductInfo>
  {
    Filter(c, (p: ProductInfo) => p.productId != id)
  }

  /** In a catalog with distinct ids, dropping an id removes exactly the one record
      at its position. */
  lemma WithoutIdAt(c: seq<ProductInfo>, j: nat)
    requires IdsDistinct(c) && j < |c|
    ensures WithoutId(c, c[j].productId) == c[..j] + c[j + 1..]
  {
    var id := c[j].productId;
    FilterDropsOne(c, j, (p: ProductInfo) => p.productId != id);
  }

  /** A sequence holding the records of `c` except the one at `j`, in order, is `c`
      without that record's id. */
  lemma WithoutIdSplice(c: seq<ProductInfo>, t: seq<ProductInfo>, j: nat)
    requires IdsDistinct(c) && j < |c| && |t| == |c| - 1
    requires forall i :: 0 <= i < |t| ==> t[i] == c[if i < j then i else i + 1]
    ensures t == WithoutId(c, c[j].productId)
  {
    SpliceAt(c, t, j);
    WithoutIdAt(c, j);
  }

  /** The catalog with the record whose id is `info.productId` replaced by `info`. */
  function Replaced(c: seq<ProductInfo>, info: ProductInfo): seq<ProductInfo>
  {
    seq(|c|, i requires 0 <= i < |c| => if c[i].productId == info.productId then info else c[i])
  }

  /** The record stored under `id` in a catalog, found by scanning it in order. */
  function Lookup(c: seq<ProductInfo>, id: string): (r: Option<ProductInfo>)
    ensures r.Some? ==> r.value in c && r.value.productId == id
    ensures r.None? ==> forall i :: 0 <= i < |c| ==> c[i].productId != id
  {
    if c == [] then None
    else if c[0].productId == id then Some(c[0])
    else Lookup(c[1..], id)
  }

  /** The catalog after the record under `id` has lost `quantity` units of stock. */
  function Deduct(c: seq<ProductInfo>, id: string, quantity: int): seq<ProductInfo>
  {
    seq(|c|, i requires 0 <= i < |c| =>
      if c[i].productId == id then c[i].(stockQuantity := c[i].stockQuantity - quantity) else c[i])
  }

  /** What `update_product` makes of the product record `p`, and whether every supplied
      field passed validation. `None` leaves a field as it is. The source assigns the
      name, then checks and assigns the price, then checks and assigns the stock, and
      returns at the first failing check, so fields assigned before it stay changed. */
  function Updated(p: ProductInfo, name: Option<string>, price: Option<real>, stockQuantity: Option<int>)
    : (r: (ProductInfo, bool))
    ensures r.0.productId == p.productId
    ensures r.1 <==> (price.None? || price.value > 0.0) && (stockQuantity.None? || stockQuantity.value >= 0)
    ensures r.0.name == if name.Some? then name.value else p.name
    ensures r.0.price == if price.Some? && price.value > 0.0 then price.value else p.price
    ensures r.0.stockQuantity == if r.1 && stockQuantity.Some? then stockQuantity.value else p.stockQuantity
  {
    var named := if name.Some? then p.(name := name.value) else p;
    if price.Some? && price.value <= 0.0 then (named, false)
    else
      var priced := if price.Some? then named.(price := price.value) else named;
      if stockQuantity.Some? && stockQuantity.value < 0 then (priced, false)
      else (if stockQuantity.Some? then priced.(stockQuantity := stockQuantity.value) else priced, true)
  }

  /** A rejected update can still change the product: a new name together with a
      price of zero renames the product and reports failure. */
  lemma UpdatePartlyApplies(p: ProductInfo, name: string)
    ensures Updated(p, Some(name), Some(0.0), None) == (p.(name := name), false)
  {
  }

  /** One product object; its id never changes once created. */
  class Product {
    const productId: string
    var name: string
    var price: real
    var stockQuantity: int

    constructor (productId: string, name: string, price: real, stockQuantity: int)
      ensures Info() == ProductInfo(productId, name, price, stockQuantity)
    {
      this.productId := productId;
      this.name := name;
      this.price := price;
      this.stockQuantity := stockQuantity;
    }

    /** The field assignments of `update_product` on this product: the name if given,
        then the price if given and positive, then the stock if given and not negative;
        a failing check returns false at once and leaves the earlier assignments made. */
    method Update(name: Option<string>, price: Option<real>, stockQuantity: Option<int>)
      returns (accepted: bool)
      modifies this
      ensures (Info(), accepted) == Updated(old(Info()), name, price, stockQuantity)
    {
      if name.Some? {
        this.name := name.value;
      }
      if price.Some? {
        if price.value <= 0.0 {
          return false;
        }
        this.price := price.value;
      }
      if stockQuantity.Some? {
        if stockQuantity.value < 0 {
          return false;
        }
        this.stockQuantity := stockQuantity.value;
      }
      accepted := true;
    }

    /** The current fields of this product. */
    function Info(): ProductInfo
      reads this
    {
      ProductInfo(productId, name, price, stockQuantity)
    }
  }

  /** The current records of a sequence of product objects. */
  ghost function Infos(ps: seq<Product>): (r: seq<ProductInfo>)
    reads set p | p in ps
    ensures |r| == |ps| && forall i :: 0 <= i < |ps| ==> r[i] == ps[i].Info()
  {
    if ps == [] then [] else Infos(ps[..|ps| - 1]) + [ps[|ps| - 1].Info()]
  }

  class InventoryManager {
    /** The catalog dictionary, from product id to product. */
    var products: map<string, Product>
    /** The keys of `products` in insertion order, the order a Python dict iterates in. */
    var order: seq<string>

    /** Every key appears once in `order`, and each product sits under its own id. */
    ghost predicate Valid()
      reads this
    {
      && (forall k :: k in products <==> k in order)
      && Distinct(order)
      && (forall k | k in products :: products[k].productId == k)
    }

    /** The product objects in iteration order. */
    ghost function Entries(): (ps: seq<Product>)
      reads this
      requires Valid()
      ensures |ps| == |order| && forall i :: 0 <= i < |order| ==> ps[i] == products[order[i]]
    {
      seq(|order|, i requires 0 <= i < |order| && order[i] in products reads this => products[order[i]])
    }

    /** The catalog as the source iterates it: every product's record, in insertion order. */
    ghost function Catalog(): (c: seq<ProductInfo>)
      reads this, products.Values
      requires Valid()
      ensures |c| == |order| && forall i :: 0 <= i < |order| ==> c[i] == products[order[i]].Info()
      ensures forall i :: 0 <= i < |order| ==> c[i].productId == order[i]
    {
      Infos(Entries())
    }

    /** Looking an id up in the catalog view finds exactly the record of the product the
        dictionary holds under that id. */
    lemma LookupCatalog(id: string)
      requires Valid()
      ensures Lookup(Catalog(), id) == if id in products then Some(products[id].Info()) else None
    {
      var c := Catalog();
      if id in products {
        var j := IndexOf(order, id);
        var r := Lookup(c, id);
        assert c[j].productId == id;
        assert r.Some? && r.value.productId == id;
        var k :| 0 <= k < |c| && c[k] == r.value;
        assert order[k] == order[j];
      }
    }

    /** Loading: the catalog starts out holding the given records, in their order, each
        in a new product object. */
    constructor (loaded: seq<ProductInfo>)
      requires IdsDistinct(loaded)
      ensures Valid() && Catalog() == loaded
    {
      products := map[];
      order := [];
      new;
      var i := 0;
      while i < |loaded|
        invariant 0 <= i <= |loaded| && Valid() && Catalog() == loaded[..i]
      {
        var row := loaded[i];
        assert row.productId !in order by {
          assert forall m :: 0 <= m < i ==> Catalog()[m].productId == order[m];
        }
        TakeOneMore(loaded, i);
        label before:
        var product := new Product(row.productId, row.name, row.price, row.stockQuantity);
        CatalogKept@before();
        Insert(product);
        i := i + 1;
      }
      assert loaded[..i] == loaded;
    }

    /** `products[product.productId] = product` for an id the dictionary does not hold
        yet: the new entry goes last in iteration order. */
    method Insert(product: Product)
      requires Valid() && product.productId !in products
      modifies this
      ensures Valid()
      ensures products == old(products)[product.productId := product]
      ensures order == old(order) + [product.productId]
      ensures Catalog() == old(Catalog()) + [product.Info()]
    {
      ghost var before := Catalog();
      products := products[product.productId := product];
      order := order + [product.productId];
      assert Valid() by {
        assert forall i :: 0 <= i < |old(order)| ==> order[i] == old(order)[i];
      }
      var after := Catalog();
      forall i | 0 <= i < |after|
        ensures after[i] == (before + [product.Info()])[i]
      {
        if i < |before| {
          var key := order[i];
          assert key == old(order)[i] && key != product.productId;
          assert after[i] == products[key].Info() == before[i];
        }
      }
    }

    /** The checks `add_product` makes before inserting: a new id, a positive price and
        a stock that is not negative. */
    predicate CanAdd(productId: string, price: real, stockQuantity: int)
      reads this
    {
      productId !in products && price > 0.0 && stockQuantity >= 0
    }

    /** `add_product`: a duplicate id, a price not above zero or a negative stock is
        rejected and changes nothing; otherwise a new product is appended to the catalog
        and the call reports whether saving succeeded. */
    method AddProduct(productId: string, name: string, price: real, stockQuantity: int, saved: bool)
      returns (ok: bool)
      requires Valid()
      modifies this
      ensures Valid()
      ensures ok == (old(CanAdd(productId, price, stockQuantity)) && saved)
      ensures !old(CanAdd(productId, price, stockQuantity)) ==> products == old(products) && order == old(order)
      ensures old(CanAdd(productId, price, stockQuantity)) ==>
        && productId in products && products == old(products)[productId := products[productId]]
        && fresh(products[productId])
        && Catalog() == old(Catalog()) + [ProductInfo(productId, name, price, stockQuantity)]
    {
      if productId in products {
        return false;
      }
      if price <= 0.0 {
        return false;
      }
      if stockQuantity < 0 {
        return false;
      }
      var product := new Product(productId, name, price, stockQuantity);
      Insert(product);
      ok := saved;
    }

    /** `update_product`: an unknown id changes nothing. Otherwise the product's fields
        become those `Updated` describes (including the fields assigned before a failing
        check), no other product changes, and the call succeeds only if every supplied
        field was valid and saving succeeded. */
    method UpdateProduct(productId: string, name: Option<string>, price: Option<real>,
                         stockQuantity: Option<int>, saved: bool)
      returns (ok: bool)
      requires Valid()
      modifies products.Values
      ensures Valid()
      ensures productId !in products ==> !ok && Catalog() == old(Catalog())
      ensures productId in products ==>
        var (info, accepted) := Updated(old(products[productId].Info()), name, price, stockQuantity);
        && ok == (accepted && saved)
        && products[productId].Info() == info
        && Catalog() == Replaced(old(Catalog()), info)
    {
      if productId !in products {
        return false;
      }
      var product := products[productId];
      var accepted := product.Update(name, price, stockQuantity);
      CatalogAfterChangeOf(product);
      if !accepted {
        return false;
      }
      ok := saved;
    }

    /** When one product object of the catalog changes and nothing else does, the catalog
        view changes in that product's record only. */
    twostate lemma CatalogAfterChangeOf(product: Product)
      requires old(Valid()) && unchanged(this)
      requires product.productId in products && products[product.productId] == product
      requires forall k | k in products && k != product.productId :: unchanged(products[k])
      ensures Valid()
      ensures Catalog() == Replaced(old(Catalog()), product.Info())
    {
      var before, after := old(Catalog()), Catalog();
      forall i | 0 <= i < |after|
        ensures after[i] == Replaced(before, product.Info())[i]
      {
        var key := order[i];
        if key != product.productId {
          var other := products[key];
          assert after[i] == other.Info() && before[i] == old(other.Info());
        }
      }
    }

    /** When neither the manager nor any of its product objects has changed, neither
        has the catalog. */
    twostate lemma CatalogKept()
      requires old(Valid()) && unchanged(this)
      requires forall k | k in products :: unchanged(products[k])
      ensures Valid() && Catalog() == old(Catalog())
    {
      forall i | 0 <= i < |order|
        ensures Catalog()[i] == old(Catalog())[i]
      {
        assert products[order[i]].Info() == old(products[order[i]].Info());
      }
    }

    /** `delete_product`: an unknown id changes nothing; otherwise exactly that entry
        leaves the catalog, the others keep their order, and the call reports whether
        saving succeeded. */
    method DeleteProduct(productId: string, saved: bool) returns (ok: bool)
      requires Valid()
      modifies this
      ensures Valid()
      ensures productId !in old(products) ==> !ok && products == old(products) && order == old(order)
      ensures productId in old(products) ==>
        && ok == saved
        && products == old(products) - {productId}
        && Catalog() == WithoutId(old(Catalog()), productId)
    {
      if productId !in products {
        return false;
      }
      var j := IndexOf(order, productId);
      products := products - {productId};
      order := order[..j] + order[j + 1..];
      CatalogAfterCut(j);
      ok := saved;
    }

    /** Removing the key at position `j` from both the dictionary and its iteration
        order, touching no product, removes exactly that product's record from the
        catalog view. */
    twostate lemma CatalogAfterCut(j: nat)
      requires old(Valid()) && j < |old(order)|
      requires products == old(products) - {old(order)[j]}
      requires order == old(order)[..j] + old(order)[j + 1..]
      requires forall k | k in products :: unchanged(products[k])
      ensures Valid()
      ensures Catalog() == WithoutId(old(Catalog()), old(order)[j])
    {
      var keys, before := old(order), old(Catalog());
      CutDistinct(keys, j);
      assert Valid();
      var after := Catalog();
      forall i | 0 <= i < |after|
        ensures after[i] == before[if i < j then i else i + 1]
      {
        var m := if i < j then i else i + 1;
        var key := order[i];
        assert key == keys[m] && key in products;
        var product := products[key];
        assert product == old(products[key]);
        assert after[i] == product.Info() && before[m] == old(product.Info());
      }
      assert IdsDistinct(before);
      WithoutIdSplice(before, after, j);
    }

    /** The stock decrement checkout applies to the product stored under `productId`. */
    method DeductStock(productId: string, quantity: int)
      requires Valid() && productId in products
      modifies products.Values
      ensures Valid()
      ensures Catalog() == Deduct(old(Catalog()), productId, quantity)
    {
      var product := products[productId];
      product.stockQuantity := product.stockQuantity - quantity;
      CatalogAfterChangeOf(product);
      ghost var before := old(Catalog());
      forall i | 0 <= i < |order|
        ensures Catalog()[i] == Deduct(before, productId, quantity)[i]
      {
        if order[i] == productId {
          assert before[i] == old(product.Info());
        }
      }
    }

    /** `get_product`: the product stored under the id, or `None`; its record is what a
        lookup in the catalog view finds. */
    function GetProduct(productId: string): (r: Option<Product>)
      reads this, products.Values
      requires Valid()
      ensures r.Some? <==> productId in products
      ensures r.Some? ==> r.value == products[productId]
      ensures Lookup(Catalog(), productId) == if r.Some? then Some(r.value.Info()) else None
    {
      LookupCatalog(productId);
      if productId in products then Some(products[productId]) else None
    }

    /** `search_product`: the products that match the keyword, in catalog order. */
    method SearchProduct(keyword: string) returns (results: seq<Product>)
      requires Valid()
      ensures Infos(results) == Search(Catalog(), keyword)
      ensures forall p | p in results :: p in products.Values
    {
      ghost var c := Catalog();
      results := [];
      var i := 0;
      while i < |order|
        invariant 0 <= i <= |order|
        invariant Infos(results) == Search(c[..i], keyword)
        invariant forall p | p in results :: p in products.Values
      {
        var product := products[order[i]];
        if Matches(product.Info(), keyword) {
          results := results + [product];
        }
        assert c[..i + 1][..i] == c[..i];
        i := i + 1;
      }
      assert c[..i] == c;
    }
  }
}
