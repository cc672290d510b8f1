# Purchase workflow of the inventory service

This project models the purchase workflow of the inventory service's `BuyServiceImpl`
in Dafny and proves properties of it.

A purchase request carries header fields (date, client id type, client id, client name)
and a list of line items. Each line item names a product id and a quantity. The workflow
has three steps:

- **Validation** (`isAValidPurchase`) walks the line items in request order and looks up
  each product in the catalog. Line items whose product is missing are skipped. A found
  product is checked against four rules, in this order: the product is enabled; the
  quantity does not exceed the stock (`inInventory`); the quantity is at least `min`; the
  quantity is at most `max`. The first broken rule of the first failing line item ends the
  scan, and its message is returned. The empty string means the purchase is valid.
- **Deduction** (`deductUnits`) looks each line item's product up again and saves it back
  with the quantity taken off its stock. Missing products are skipped again.
- **Orchestration** (`saveBuy`) runs validation. If the result is not blank, it answers
  "bad request" with the message and changes nothing. Otherwise it saves one purchase
  record and then deducts the stock.

Layout:

- `inventory.dfy` (module `Inventory`): the records `Product`, `LineItem`, `BuyRequest`
  and `Buy`, and the catalog as a `map<int, Product>` keyed by product id.
- `validation.dfy` (module `Validation`): the four rejection reasons and their messages,
  each rule stated on its own (`Violates`), the checks of one item (`CheckItem`), the
  validator as a recursive function (`Validate`), and its lemmas.
- `deduction.dfy` (module `Deduction`): the stock decrement as a function over the line
  items (`Deducted`), the total requested per product (`QuantityFor`), and their lemmas.
- `buy_service.dfy` (module `BuyServices`): the two repositories as classes holding their
  rows, and the service class. Its methods `IsAValidPurchase`, `DeductUnits` and `SaveBuy`
  follow the source's loops and are proved against the functions above.

## Model

| member | source | states |
|---|---|---|
| Validation.Message | src/main/java/com/example/inventory/service/impl/BuyServiceImpl.java:101-115 | One message per `Rejection` case (the four strings of lines 102, 106, 110 and 114). Each is non-empty and ends in a non-whitespace character, so none is blank. |
| Validation.Text | src/main/java/com/example/inventory/service/impl/BuyServiceImpl.java:95-119 | The validator's returned string is empty exactly for the Valid verdict; otherwise it is the reason's message. The full link to the blank test is `BlankIffValid`. |
| Validation.IsBlank | src/main/java/com/example/inventory/service/impl/BuyServiceImpl.java:60 | The blank test: the empty string is blank, and a non-empty blank string ends in whitespace. Tied to the verdict by `BlankIffValid`. |
| Validation.Check | src/main/java/com/example/inventory/service/impl/BuyServiceImpl.java:97-99 | A line item yields no reason exactly when its product is missing (skipped) or the found product accepts the quantity. |
| Validation.Validate | src/main/java/com/example/inventory/service/impl/BuyServiceImpl.java:93-120 | A failing verdict's reason is the reason some line item's check gives. Its full description is `ValidIff`, `FirstFailure`, `FailureAt` and `ValidateAppend`. |
| Validation.CheckItem | src/main/java/com/example/inventory/service/impl/BuyServiceImpl.java:100-116 | No reason is returned exactly when the product is enabled and `min <= quantity <= max` and `quantity <= inInventory`. A returned reason is a broken rule, and every rule earlier in the order (available, in stock, minimum, maximum) holds. So a disabled product always gets NotAvailable. |
| Validation.AcceptableIffNoRuleBroken | src/main/java/com/example/inventory/service/impl/BuyServiceImpl.java:100-116 | Passing the four checks is the same as breaking none of the four rules, each judged on its own. |
| Validation.BlankIffValid | src/main/java/com/example/inventory/service/impl/BuyServiceImpl.java:59-60 | The validator's string is blank exactly when the purchase is valid, and different verdicts give different strings. So the caller's blank test decides validity. |
| Validation.ValidIff | src/main/java/com/example/inventory/service/impl/BuyServiceImpl.java:93-120 | A purchase is valid exactly when every line item whose product exists is acceptable (enabled, within `[min, max]`, not above stock). |
| Validation.ValidateAppend | src/main/java/com/example/inventory/service/impl/BuyServiceImpl.java:96-118 | Validating `a + b` gives `a`'s failure if `a` fails, and `b`'s verdict otherwise. |
| Validation.LaterItemsIgnored | src/main/java/com/example/inventory/service/impl/BuyServiceImpl.java:96-118 | Once a prefix of the request fails, the line items after it do not affect the verdict. |
| Validation.FirstFailure | src/main/java/com/example/inventory/service/impl/BuyServiceImpl.java:96-118 | A failing verdict comes from some line item whose product exists and whose check gives that reason. Every earlier line item with an existing product is acceptable. |
| Validation.FailureAt | src/main/java/com/example/inventory/service/impl/BuyServiceImpl.java:96-118 | If the prefix before item `i` is valid and item `i` fails with reason `r`, the whole request fails with `r`. |
| Validation.ValidStep | src/main/java/com/example/inventory/service/impl/BuyServiceImpl.java:96-118 | A valid prefix extended by a passing or skipped line item stays valid. |
| Validation.SkipsUnknown | src/main/java/com/example/inventory/service/impl/BuyServiceImpl.java:97-98 | Removing a line item whose product is missing, from anywhere in the request, does not change the verdict. |
| Validation.BoundsInclusive | src/main/java/com/example/inventory/service/impl/BuyServiceImpl.java:105-116 | Quantities equal to `min`, `max` or the stock pass. `min - 1` fails with BelowMinimum, and `max + 1` fails with ExceedsMaximum. |
| Deduction.DeductOne | src/main/java/com/example/inventory/service/impl/BuyServiceImpl.java:127-131 | One line item's step: the same product ids remain, every other product is untouched, and the named product's stock drops by the quantity while its other fields (name, enabled, min, max, id) stay as they were. A missing product changes nothing. |
| Deduction.Deducted | src/main/java/com/example/inventory/service/impl/BuyServiceImpl.java:125-134 | Deduction keeps the same set of product ids. Its full description is `DeductedAt`, `DeductedAppend` and `UnnamedUnchanged`. |
| Deduction.DeductedAt | src/main/java/com/example/inventory/service/impl/BuyServiceImpl.java:125-134 | After deduction the same product ids are present. Each product's stock equals its old stock minus the total quantity the line items request of it. Every other field is unchanged. |
| Deduction.UnnamedUnchanged | src/main/java/com/example/inventory/service/impl/BuyServiceImpl.java:125-134 | A product that no line item names is left exactly as it was. |
| Deduction.DeductedAppend | src/main/java/com/example/inventory/service/impl/BuyServiceImpl.java:126-133 | Deducting `a + b` is deducting `a` and then deducting `b` from the result. |
| Deduction.SkipsUnknown | src/main/java/com/example/inventory/service/impl/BuyServiceImpl.java:127-128 | Removing a line item whose product is missing, from anywhere in the request, does not change the deducted store. |
| Deduction.DeductedWellKeyed | src/main/java/com/example/inventory/service/impl/BuyServiceImpl.java:129-131 | Deduction keeps every record stored under its own product id. |
| Deduction.ValidDistinctStaysInStock | src/main/java/com/example/inventory/service/impl/BuyServiceImpl.java:93-134 | Suppose a valid request names each product at most once. Then each named product loses exactly its quantity, and its stock stays non-negative. |
| Deduction.DuplicatesCanOverdraw | src/main/java/com/example/inventory/service/impl/BuyServiceImpl.java:105-130 | Example: stock 5 and two line items of 3 for the same product. Validation passes, and the stock ends at -1. |
| Deduction.TwoItemPurchase | src/main/java/com/example/inventory/service/impl/BuyServiceImpl.java:93-134 | Example: buying 3 of a product with stock 10 and 2 of one with stock 5 is valid. The stocks become 7 and 3. |
| Inventory.BuyOf | src/main/java/com/example/inventory/service/impl/BuyServiceImpl.java:61-71 | The saved purchase carries the request's date, client id type, client id and client name, and its line items (product id and quantity). |
| BuyServices.ProductRepository.FindById | src/main/java/com/example/inventory/service/impl/BuyServiceImpl.java:97-99 | The lookup finds a product exactly when its id is in the catalog, and returns the stored record. |
| BuyServices.ProductRepository.Save | src/main/java/com/example/inventory/service/impl/BuyServiceImpl.java:131 | The record is stored under its own id. Nothing else in the catalog changes. |
| BuyServices.BuyRepository.Save | src/main/java/com/example/inventory/service/impl/BuyServiceImpl.java:74 | Exactly one purchase record is appended. |
| BuyServices.BuyService.IsAValidPurchase | src/main/java/com/example/inventory/service/impl/BuyServiceImpl.java:93-120 | The loop with its early exits returns the validator's string for the current catalog. It has no `modifies` clause, so it changes nothing. |
| BuyServices.BuyService.DeductUnits | src/main/java/com/example/inventory/service/impl/BuyServiceImpl.java:125-134 | The loop leaves the catalog equal to the deducted store. The purchase records are untouched. |
| BuyServices.BuyService.SaveBuy | src/main/java/com/example/inventory/service/impl/BuyServiceImpl.java:55-85 | On a failing verdict: a bad-request answer carrying the reason's message, with catalog and purchase records unchanged. On a valid verdict: an OK answer, exactly one new purchase record built from the request, and the catalog deducted by the request's line items. |
| BuyServices.TwoItemSaveBuy | src/main/java/com/example/inventory/service/impl/BuyServiceImpl.java:59-79 | Example through the service: the two-item request answers OK, saves exactly one purchase whose line items are those two, and leaves stocks 7 and 3. |

## Left out

- `getBuys` (lines 30-52): a read-only projection of saved purchases into response objects; it has no logic.
- Logging and the catch-all `try`/`catch` that turns any exception into an internal-server-error answer (lines 47-50, 80-83) are not modelled. Repository calls never fail in the model, so `Response` has only the OK and bad-request cases. The partial deduction a failing save would leave behind is therefore not modelled either.
- BuyServices.BuyService.SaveBuy: the saved purchase keeps its line items as a sequence in request order. The source collects them into a `Set` (line 71), and whether duplicates collapse there depends on `BuyProduct.equals`/`hashCode`, which is not part of this model. The back-reference from each line item to its purchase (line 73) is not modelled.
- Java `int` arithmetic: quantities and stock are unbounded integers, so 32-bit wrap-around in `getInInventory() - getQuantity()` is not modelled. Negative quantities are allowed as in the source.
- The header fields' types (date, client id type) are not part of this model. They are carried as strings and only copied.
- `StringUtils.isBlank` is modelled as "every character is one of space, tab, newline, carriage return, form feed or vertical tab". Only the empty string and the four messages ever reach it.
- Null request fields and null quantities (Java unboxing failures) are not modelled.
- Concurrency: two requests can both pass validation against the same stock. The source has no locking, and the model is sequential.
- Stock staying non-negative is not claimed in general. `Deduction.DuplicatesCanOverdraw` shows why: validation checks each line item against the stock as it was before the purchase.
