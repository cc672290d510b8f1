/**
 * The buy service: validates a purchase request against the product catalog,
 * and when it is valid saves the purchase record and then takes the bought
 * quantities off the catalog's stock. The two persistence collaborators are
 * modelled as objects holding their rows.
 */
module BuyServices {
  import opened Inventory
  import opened Validation
  import opened Deduction

  /** The product catalog: records looked up and saved by id. */
  class ProductRepository {
    var products: Store

    ghost predicate Valid()
      reads this
    {
      WellKeyed(products)
    }

    constructor (initial: Store)
      requires WellKeyed(initial)
      ensures Valid() && products == initial
    {
      products := initial;
    }

    /** The record stored under the id, if any. */
    method FindById(id: int) returns (found: Option<Product>)
      ensures found.Some? <==> id in products
      ensures found.Some? ==> found.value == products[id]
    {
      if id in products {
        found := Some(products[id]);
      } else {
        found := None;
      }
    }

    /** Upsert: the record is stored under its own id, nothing else changes. */
    method Save(product: Product)
      requires Valid()
      modifies this
      ensures Valid()
      ensures products == old(products)[product.productId := product]
    {
      products := products[product.productId := product];
    }
  }

  /** The purchase records saved so far, in the order they were saved. */
  class BuyRepository {
    var buys: seq<Buy>

    constructor ()
      ensures buys == []
    {
      buys := [];
    }

    method Save(buy: Buy)
      modifies this
      ensures buys == old(buys) + [buy]
    {
      buys := buys + [buy];
    }
  }

  /** The result handed back to the caller. */
  datatype Response = Ok | BadRequest(body: string)

  class BuyService {
    const buyRepository: BuyRepository
    const productRepository: ProductRepository

    constructor (buyRepository: BuyRepository, productRepository: ProductRepository)
      ensures this.buyRepository == buyRepository && this.productRepository == productRepository
    {
      this.buyRepository := buyRepository;
      this.productRepository := productRepository;
    }

    /** Checks the line items in request order and returns the message of the first
        failure, or the empty string when the purchase is valid. Reads the catalog only. */
    method IsAValidPurchase(items: seq<LineItem>) returns (response: string)
      ensures response == Text(Validate(productRepository.products, items))
    {
      var store := productRepository.products;
      response := "";
      var i := 0;
      while i < |items|
        invariant 0 <= i <= |items|
        invariant Validate(store, items[..i]) == Valid
        invariant response == ""
      {
        var item := items[i];
        var found := productRepository.FindById(item.productId);
        if found.Some? {
          var product := found.value;
          if !product.enabled {
            response := Message(NotAvailable);
            FailureAt(store, items, i, NotAvailable);
            break;
          }
          if item.quantity > product.inInventory {
            response := Message(ExceedsInventory);
            FailureAt(store, items, i, ExceedsInventory);
            break;
          }
          if item.quantity < product.min {
            response := Message(BelowMinimum);
            FailureAt(store, items, i, BelowMinimum);
            break;
          }
          if item.quantity > product.max {
            response := Message(ExceedsMaximum);
            FailureAt(store, items, i, ExceedsMaximum);
            break;
          }
        }
        ValidStep(store, items, i);
        i := i + 1;
      }
      if response == "" {
        assert items[..i] == items;
      }
    }

    /** Takes each line item's quantity off its product's stock, one line item at a time;
        line items naming a missing product are skipped. */
    method DeductUnits(items: seq<LineItem>)
      requires productRepository.Valid()
      modifies productRepository
      ensures productRepository.Valid()
      ensures productRepository.products == Deducted(old(productRepository.products), items)
    {
      var i := 0;
      while i < |items|
        invariant 0 <= i <= |items|
        invariant productRepository.Valid()
        invariant productRepository.products == Deducted(old(productRepository.products), items[..i])
      {
        var item := items[i];
        var found := productRepository.FindById(item.productId);
        if found.Some? {
          var product := found.value;
          product := product.(inInventory := product.inInventory - item.quantity);
          productRepository.Save(product);
        }
        assert items[..i + 1][..i] == items[..i];
        i := i + 1;
      }
      assert items[..i] == items;
    }

    /** Validates the request; on failure answers with the reason and changes nothing,
        otherwise saves one purchase record and then deducts the stock. */
    method SaveBuy(request: BuyRequest) returns (response: Response)
      requires productRepository.Valid()
      modifies productRepository, buyRepository
      ensures productRepository.Valid()
      ensures Validate(old(productRepository.products), request.products) != Valid ==>
        && response == BadRequest(Text(Validate(old(productRepository.products), request.products)))
        && productRepository.products == old(productRepository.products)
        && buyRepository.buys == old(buyRepository.buys)
      ensures Validate(old(productRepository.products), request.products) == Valid ==>
        && response == Ok
        && buyRepository.buys == old(buyRepository.buys) + [BuyOf(request)]
        && productRepository.products == Deducted(old(productRepository.products), request.products)
    {
      var verdict := IsAValidPurchase(request.products);
      BlankIffValid(Validate(productRepository.products, request.products));
      if IsBlank(verdict) {
        var buy := BuyOf(request);
        buyRepository.Save(buy);
        DeductUnits(request.products);
        response := Ok;
      } else {
        response := BadRequest(verdict);
      }
    }
  }

  /** A client of the service: buying 3 of a product with stock 10 and 2 of one with stock 5
      saves exactly one purchase with those two line items and leaves stocks 7 and 3. */
  method TwoItemSaveBuy() returns (response: Response, buys: seq<Buy>, products: Store)
    ensures response == Ok
    ensures |buys| == 1 && buys[0].products == [LineItem(1, 3), LineItem(2, 2)]
    ensures products.Keys == {1, 2}
    ensures products[1].inInventory == 7 && products[2].inInventory == 3
  {
    var p1 := Product(1, "p1", true, 10, 1, 10);
    var p2 := Product(2, "p2", true, 5, 1, 5);
    var catalog := new ProductRepository(map[1 := p1, 2 := p2]);
    var log := new BuyRepository();
    var service := new BuyService(log, catalog);
    var request := BuyRequest("2024-01-01", "CC", "123", "client", [LineItem(1, 3), LineItem(2, 2)]);
    TwoItemPurchase();
    response := service.SaveBuy(request);
    buys := log.buys;
    products := catalog.products;
  }
}
