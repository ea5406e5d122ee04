# Inventory and point-of-sale core of fp.py, in Dafny

`fp.py` is a small console shop. The code modelled here has two parts:

- **`InventoryManager`** keeps the catalog, an insertion-ordered dictionary from product id to a mutable `Product`. It can add, update, delete, look up and search products.
- **`BillingSystem`** sits on top of the catalog. It keeps:
  - a cart: a list of `OrderItem` lines, each pointing at a product object and caching a line total;
  - the list of completed `Sale` records.

  It can add to the cart, remove from it, compute discounts, check out, and list daily sales and low-stock products.

The model keeps the source's imperative form:

- **Classes whose fields change in place:**
  - `Inventory.Product`;
  - `Inventory.InventoryManager`, where the dictionary is a `map` plus a key sequence that records insertion order;
  - `Billing.OrderItem`;
  - `Billing.BillingSystem`.
- **Loops, proved against specification functions on values:**
  - `Catalog()` is the catalog as a sequence of `ProductInfo` records, in iteration order.
  - `Lines()` is the cart as a sequence of `Cart.Line` values, each with the product's *current* price and the line's *cached* total.
- **Files:**
  - `inventory.dfy`: the catalog.
  - `cart.dfy`: the cart arithmetic as functions on values:
    - `Added`, `Removed`, `Discount`, `Deducted`, `Subtotal`, `QuantityOf`;
    - the lemmas about them.
  - `billing.dfy`: the billing classes and reports.
  - `text.dfy`: `str.lower()` and the substring test.
  - `common.dfy`: `Option`, `Filter` and sequence helpers.

Three behaviours of the source are modelled as written and stated as properties:

- **Stock is checked per request, not per line.** `add_to_cart` compares the stock with the quantity of this one request. Repeated requests can therefore put more units on a line than are in stock, and checkout then drives the stock negative. See `Cart.RepeatedAddsOversell`.
- **A rejected update can partly apply.** `update_product` assigns the name before it validates the price and the stock. It also assigns the price before it validates the stock. Those assignments stay made when it returns false. See `Inventory.Updated`, `Inventory.Product.Update` and `Inventory.UpdatePartlyApplies`.
- **Line totals go stale.** An order item's total is cached when it is created and recomputed only when its quantity changes, while its price is read live from the product object. See `Cart.StaleAfterPriceChange` on values and `Billing.RepriceLeavesLineStale` for a price change made through `update_product` while the product is on the cart. This is why `Billing.BillingSystem.Valid` does not include "every total is current". Checkout sums the cached totals, as the source does.

`remove_from_cart` does not validate its quantity: a negative quantity is below the line's quantity, so the line grows. `Cart.RemovedQuantity` states this case exactly as it does any other.

## Model

| member | source | states |
|---|---|---|
| `Inventory.Product.constructor` | fp.py:53-58 | a new product holds exactly the four given fields |
| `Inventory.Product.Update` | fp.py:162-173 | the product's new fields and the accepted flag are those of `Updated`: name first, then a positive price, then a non-negative stock, stopping at the first failed check with earlier assignments kept |
| `Inventory.Updated` | fp.py:162-173 | the update keeps the id; it is accepted iff every supplied price is positive and every supplied stock is non-negative; the name changes whenever one is given, the price whenever a valid one is given, and the stock only when the whole update is accepted |
| `Inventory.UpdatePartlyApplies` | fp.py:162-166 | a new name with a price of zero is rejected, yet the name has changed |
| `Inventory.InventoryManager.constructor` | fp.py:100-122 | loading rows with distinct ids gives a consistent catalog holding exactly those rows, in order |
| `Inventory.InventoryManager.Insert` | fp.py:150 | a new key maps to the product, goes last in iteration order, and the catalog grows by exactly its record |
| `Inventory.InventoryManager.AddProduct` | fp.py:137-154 | a duplicate id, a price not above zero or a negative stock changes nothing and returns false; otherwise a fresh product with exactly the given fields is appended, no other entry changes, and the result is the save outcome |
| `Inventory.InventoryManager.UpdateProduct` | fp.py:156-178 | an unknown id changes nothing and returns false; otherwise the product's record becomes `Updated` of its old record (partial changes included), no other record changes, and the result is acceptance and the save outcome |
| `Inventory.InventoryManager.DeleteProduct` | fp.py:180-189 | an unknown id changes nothing and returns false; otherwise exactly that key is removed, the remaining records keep their order and contents, and the result is the save outcome |
| `Inventory.InventoryManager.SearchProduct` | fp.py:191-197 | the loop returns catalog product objects whose records are `Search` of the catalog: in catalog order, the matching records |
| `Inventory.SearchMembership` | fp.py:191-197 | a record is in the search result iff it is in the catalog and the lower-cased keyword is a substring of its lower-cased name or equals its lower-cased id |
| `Inventory.SearchCaseInsensitive` | fp.py:194-195 | searching for a keyword and for its lower-case form gives the same result |
| `Inventory.SearchEmptyKeyword` | fp.py:194 | the empty keyword lists the whole catalog |
| `Text.ContainsIffOccurs` | fp.py:194 | the substring test holds iff the needle occurs at some position of the haystack |
| `Text.LowerIdempotent` | fp.py:194-195 | lower-casing twice is lower-casing once |
| `Inventory.Lookup` | fp.py:199-200 | a found record is in the catalog under the id; `None` means no record has the id |
| `Inventory.InventoryManager.LookupCatalog` | fp.py:199-200 | looking the id up in the catalog view finds the record of the product the dictionary holds under it, or nothing when the key is absent |
| `Inventory.InventoryManager.GetProduct` | fp.py:199-200 | `dict.get`: the stored product object if the id is a key, `None` otherwise |
| `Inventory.InventoryManager.DeductStock` | fp.py:340-341 | the stock of the product stored under the id drops by the quantity; every other field and record is unchanged |
| `Billing.OrderItem.constructor` | fp.py:72-77 | a new line refers to the product, holds the quantity, and caches price times quantity |
| `Billing.BillingSystem.constructor` | fp.py:219-223 | a billing system starts with an empty cart, the loaded sales and a consistent catalog |
| `Billing.BillingSystem.AddToCart` | fp.py:415-438 | accepted iff the product exists, the quantity is positive and the stock covers this request; a rejection changes nothing; an accepted request makes the cart `Added` of the old cart: the existing line grows, or a fresh item for the catalog's product object is appended; sales never change |
| `Billing.BillingSystem.Put` | fp.py:428-437 | the loop finds the line for the product and grows it in place, or appends a fresh line; either way the cart becomes `Added` of the old cart |
| `Billing.BillingSystem.MergeInto` | fp.py:429-432 | the line's quantity grows and its total is recomputed at its own product's current price; no other line changes |
| `Billing.BillingSystem.Append` | fp.py:436 | a fresh item for the product goes last, with the price times the quantity as its total; earlier items stay as they were |
| `Cart.Find` | fp.py:428-429 | the first line for the id, or none when no line has it |
| `Cart.AddedQuantity` | fp.py:428-437 | an addition adds exactly the requested units of that product and no units of any other |
| `Cart.AddedWellFormed` | fp.py:428-437 | a positive addition keeps one line per product, each with a positive quantity |
| `Cart.AddedTotalsCurrent` | fp.py:430-436 | an addition keeps every cached total equal to price times quantity if all were before |
| `Cart.AddedSubtotal` | fp.py:428-437 | an addition raises the subtotal by the price of the added units: for a merge into a line whose cached total is current, at that line's own price; for a new line, at its price (on a stale line the source recomputes the whole total, so the rise differs) |
| `Cart.RepeatedAddsOversell` | fp.py:423-441 | two accepted one-unit requests against one unit of stock put two units on the line, and deducting them leaves the stock at -1 |
| `Cart.StaleAfterPriceChange` | fp.py:72-77 | after the product's price changes, a line with units no longer has total equal to price times quantity |
| `Billing.RepriceLeavesLineStale` | fp.py:161-167 | a valid new price set through `update_product` on a product that is on the cart reaches that line's price but not its cached total, so a line that was current becomes stale; the update succeeds exactly when saving does |
| `Billing.BillingSystem.RemoveFromCart` | fp.py:265-278 | returns whether a line for the id exists; the cart becomes `Removed` of the old cart; the cart holds the same order-item objects as before when there is no such line or the line shrinks, and otherwise the old objects with the found one popped |
| `Billing.BillingSystem.TakeFrom` | fp.py:269-276 | the found line is removed when no quantity is given or the quantity covers it, leaving the other item objects in order, and otherwise shrinks in place and is repriced, the cart keeping the same objects |
| `Billing.BillingSystem.Cut` | fp.py:270 | `cart.pop(i)`: the item object at `i` leaves, the other objects keep their order, and so do their lines |
| `Billing.BillingSystem.Shrink` | fp.py:273-274 | the line at `i` loses the units and is repriced at its product's price; no other line changes |
| `Cart.RemovedQuantity` | fp.py:265-278 | after a removal, that product has no units when no quantity was given or the quantity covered the line, and otherwise its old units minus the quantity; other products keep their units |
| `Cart.RemovedWellFormed` | fp.py:265-278 | a removal keeps one line per product, each with a positive quantity |
| `Cart.RemovedTotalsCurrent` | fp.py:269-274 | a removal keeps every cached total current if all were before |
| `Billing.BillingSystem.ValidIffWellFormed` | fp.py:428-437 | the cart invariant that add and remove keep is exactly: distinct product ids and positive quantities |
| `Cart.Discount` | fp.py:298-321 | a nonzero discount comes only from a percentage between 0 and 100 or from a fixed value between 0 and the total, and in the fixed case it equals the value |
| `Cart.DiscountWithinTotal` | fp.py:298-321 | for a subtotal that is not negative, the discount always lies between zero and the subtotal |
| `Cart.Subtotal` | fp.py:304 | `sum(item.total for item in cart)`: lines whose cached totals are not negative sum to a total that is not negative |
| `Cart.DiscountOfEmptyCart` | fp.py:300-302 | an empty cart gets no discount |
| `Billing.BillingSystem.ApplyDiscount` | fp.py:298-321 | the result is `Discount` of the sum of the cached line totals; the cart is not modified |
| `Billing.BillingSystem.Checkout` | fp.py:323-347 | `None`, with nothing changed, iff the cart is empty or the discount is outside zero to the subtotal; otherwise one sale of the cart's lines with the subtotal, the time and the discount is appended, its final amount lies between zero and the subtotal, each product's stock drops by its line's quantity, and the cart empties |
| `Billing.Sale.FinalAmount` | fp.py:87-92 | a sale's final amount is the subtotal less the discount, and lies between nothing and the subtotal exactly when the discount does |
| `Billing.BillingSystem.Record` | fp.py:334-344 | the sale is appended, the cart's products lose their quantities, and the cart is cleared |
| `Billing.BillingSystem.DeductCart` | fp.py:338-341 | the loop deducts, line by line, each line's quantity from the catalog record under its id |
| `Cart.DeductedStock` | fp.py:338-341 | after checkout every record stays in place and its stock drops by the units of that product the cart held; nothing else changes |
| `Cart.DeductedConserves` | fp.py:338-341 | the catalog's total stock drops by exactly the cart's total quantity |
| `Billing.BillingSystem.GenerateBill` | fp.py:349-353 | the format defaults to "txt"; false for any format other than "txt" or "csv"; otherwise the outcome of writing the file |
| `Billing.BillingSystem.GetDailySales` | fp.py:397-406 | the loop returns `DailySales` of the recorded sales for the target date, or for today when no date is given |
| `Billing.DailySalesMembership` | fp.py:397-406 | a sale is listed iff it was recorded and made on that date |
| `Billing.DailySalesAppend` | fp.py:336 | a new sale joins the report of its own date, last, and no other report |
| `Billing.BillingSystem.GetLowStockProducts` | fp.py:408-413 | the loop returns catalog product objects whose records are `LowStock` of the catalog, in catalog order |
| `Billing.LowStockMembership` | fp.py:408-413 | a record is listed iff it is in the catalog and its stock is at most the threshold |

## Left out

- **File I/O.** The CSV loading and saving (`load_data`, `save_data`, `load_sales`, `save_sales`) is not modelled:
  - Loading is the constructors' arguments: rows of products with distinct ids, as a dictionary's keys are, and a list of sales.
  - Skipping malformed rows and read errors is part of reading files and is not modelled.
  - Each save outcome is a `saved` parameter of the operation that returns it.
  - Checkout ignores its save outcomes, as the source does.
- **Bill rendering.** `generate_bill` renders and writes a file. Only its format check is modelled; the outcome of the write is the parameter `written`.
- **Printing and the console.** The following only print, prompt or format, and are not modelled:
  - `format_money`, `author_note`, `view_all_products`, `view_cart`;
  - `prompt_confirm`, `main` and the three menus;
  - `how_are_you`, which holds unreachable copies of the two report methods.
- **Time.** `datetime.now()` is a parameter. Checkout takes the moment of the sale. `GetDailySales` takes today's date for a call without a target date.
- **Floating point.** Prices, totals and discounts are exact reals, so float rounding is not modelled. Neither are the special values `float()` accepts (fp.py:111, 523, 542): a NaN price fails the `price <= 0` tests (fp.py:142, 165), so the source can store it, while the model's reals have no NaN or infinity.
- **Text.** `str.lower()` is modelled for ASCII letters only.
- `Billing.BillingSystem.Checkout`: requires every cart product id to still be in the catalog.
  - This holds unless a product was deleted after it was added to the cart.
  - In that case `get_product` returns `None` and the source fails with an attribute error halfway through the stock loop: the sale is already recorded and earlier lines have already been deducted.
- **Sale items.** A recorded `Sale` holds the cart lines as values at checkout. The source shares the order item objects, so a bill printed later would show a product's later price; the model does not capture that sharing.
- `Billing.BillingSystem.AddToCart`: the source's three early returns (unknown product, quantity not positive, insufficient stock) are one condition in the model. They print different messages but have the same effect and result.
