/**
 * The stock decrement that follows a successful purchase: each line item whose
 * product exists takes its quantity off that product's stock, one line item
 * after the other, each reading the stock the previous one left behind.
 */
module Deduction {
  import opened Inventory
  import Validation

  /** One line item's effect on the store; a missing product is skipped. */
  function DeductOne(store: Store, item: LineItem): (r: Store)
    ensures r.Keys == store.Keys
    ensures forall id | id in store && id != item.productId :: r[id] == store[id]
    ensures item.productId in store ==>
      r[item.productId] == store[item.productId].(inInventory := store[item.productId].inInventory - item.quantity)
  {
    if item.productId in store then
      var p := store[item.productId];
      store[item.productId := p.(inInventory := p.inInventory - item.quantity)]
    else store
  }

  /** The store after every line item, in request order, has been deducted. */
  function Deducted(store: Store, items: seq<LineItem>): (r: Store)
    ensures r.Keys == store.Keys
    decreases |items|
  {
    if items == [] then store
    else DeductOne(Deducted(store, items[..|items| - 1]), items[|items| - 1])
  }

  /** The total quantity the line items request of one product. */
  function QuantityFor(items: seq<LineItem>, id: int): int
    decreases |items|
  {
    if items == [] then 0
    else
      var last := items[|items| - 1];
      QuantityFor(items[..|items| - 1], id) + (if last.productId == id then last.quantity else 0)
  }

  /** Whether some line item names the product. */
  predicate Names(items: seq<LineItem>, id: int)
  {
    exists i | 0 <= i < |items| :: items[i].productId == id
  }

  /** After deduction every product is still there, its stock is down by the total quantity
      requested of it, and every other field is as it was. */
  lemma {:induction false} DeductedAt(store: Store, items: seq<LineItem>)
    ensures Deducted(store, items).Keys == store.Keys
    ensures forall id | id in store ::
      Deducted(store, items)[id] == store[id].(inInventory := store[id].inInventory - QuantityFor(items, id))
  {
    if items != [] {
      DeductedAt(store, items[..|items| - 1]);
    }
  }

  /** A product that no line item names is left exactly as it was. */
  lemma {:induction false} UnnamedUnchanged(store: Store, items: seq<LineItem>, id: int)
    requires id in store && !Names(items, id)
    ensures id in Deducted(store, items) && Deducted(store, items)[id] == store[id]
  {
    QuantityForUnnamed(items, id);
    DeductedAt(store, items);
  }

  lemma {:induction false} QuantityForUnnamed(items: seq<LineItem>, id: int)
    requires !Names(items, id)
    ensures QuantityFor(items, id) == 0
  {
    if items != [] {
      var init := items[..|items| - 1];
      assert !Names(init, id) by {
        forall i | 0 <= i < |init| ensures init[i].productId != id {
          assert init[i] == items[i];
        }
      }
      QuantityForUnnamed(init, id);
    }
  }

  /** When the line items name distinct products, each named product's total is its one quantity. */
  lemma {:induction false} QuantityForDistinct(items: seq<LineItem>, i: nat)
    requires i < |items|
    requires forall j, k | 0 <= j < k < |items| :: items[j].productId != items[k].productId
    ensures QuantityFor(items, items[i].productId) == items[i].quantity
  {
    var n := |items| - 1;
    var init := items[..n];
    if i == n {
      assert !Names(init, items[i].productId) by {
        forall j | 0 <= j < |init| ensures init[j].productId != items[i].productId {
          assert init[j] == items[j];
        }
      }
      QuantityForUnnamed(init, items[i].productId);
    } else {
      assert init[i] == items[i];
      QuantityForDistinct(init, i);
    }
  }

  /** Deducting a concatenation is deducting the first part, then the second. */
  lemma {:induction false} DeductedAppend(store: Store, a: seq<LineItem>, b: seq<LineItem>)
    ensures Deducted(store, a + b) == Deducted(Deducted(store, a), b)
  {
    if b == [] {
      assert a + b == a;
    } else {
      var n := |b| - 1;
      assert (a + b)[..|a + b| - 1] == a + b[..n];
      assert (a + b)[|a + b| - 1] == b[n];
      DeductedAppend(store, a, b[..n]);
    }
  }

  /** A line item naming a missing product can be dropped without changing the result. */
  lemma SkipsUnknown(store: Store, a: seq<LineItem>, x: LineItem, b: seq<LineItem>)
    requires x.productId !in store
    ensures Deducted(store, a + [x] + b) == Deducted(store, a + b)
  {
    DeductedAppend(store, a + [x], b);
    DeductedAppend(store, a, [x]);
    DeductedAppend(store, a, b);
    DeductedAt(store, a);
    assert [x][..0] == [];
  }

  /** Deduction keeps every record under its own id. */
  lemma DeductedWellKeyed(store: Store, items: seq<LineItem>)
    requires WellKeyed(store)
    ensures WellKeyed(Deducted(store, items))
  {
    DeductedAt(store, items);
  }

  /** When validation passes and no two line items name the same product, every named
      product loses exactly its quantity and keeps a non-negative stock. */
  lemma ValidDistinctStaysInStock(store: Store, items: seq<LineItem>)
    requires Validation.Validate(store, items) == Validation.Valid
    requires forall j, k | 0 <= j < k < |items| :: items[j].productId != items[k].productId
    ensures forall i | 0 <= i < |items| && items[i].productId in store ::
      items[i].productId in Deducted(store, items) &&
      Deducted(store, items)[items[i].productId].inInventory
        == store[items[i].productId].inInventory - items[i].quantity >= 0
  {
    Validation.ValidIff(store, items);
    DeductedAt(store, items);
    forall i | 0 <= i < |items| && items[i].productId in store
      ensures QuantityFor(items, items[i].productId) == items[i].quantity
    {
      QuantityForDistinct(items, i);
    }
  }

  /** Validation judges each line item against the stock as it was before the purchase, so
      two line items naming one product can together take its stock below zero. */
  lemma DuplicatesCanOverdraw()
    ensures var p := Product(1, "widget", true, 5, 1, 5);
      var store := map[1 := p];
      var items := [LineItem(1, 3), LineItem(1, 3)];
      Validation.Validate(store, items) == Validation.Valid &&
      1 in Deducted(store, items) && Deducted(store, items)[1].inInventory == -1
  {
    var p := Product(1, "widget", true, 5, 1, 5);
    var store := map[1 := p];
    var items := [LineItem(1, 3), LineItem(1, 3)];
    assert items[1..] == [LineItem(1, 3)] && items[1..][1..] == [];
    assert Validation.Validate(store, items[1..]) == Validation.Valid;
    assert items[..1] == [LineItem(1, 3)];
    assert [LineItem(1, 3)][..0] == [];
  }

  /** Two products, both bought within their bounds: stock 10 and 5 become 7 and 3. */
  lemma TwoItemPurchase()
    ensures var p1 := Product(1, "p1", true, 10, 1, 10);
      var p2 := Product(2, "p2", true, 5, 1, 5);
      var store := map[1 := p1, 2 := p2];
      var items := [LineItem(1, 3), LineItem(2, 2)];
      Validation.Validate(store, items) == Validation.Valid &&
      Deducted(store, items) == map[1 := p1.(inInventory := 7), 2 := p2.(inInventory := 3)]
  {
    var p1 := Product(1, "p1", true, 10, 1, 10);
    var p2 := Product(2, "p2", true, 5, 1, 5);
    var store := map[1 := p1, 2 := p2];
    var items := [LineItem(1, 3), LineItem(2, 2)];
    assert items[1..] == [LineItem(2, 2)] && items[1..][1..] == [];
    assert Validation.Validate(store, items[1..]) == Validation.Valid;
    assert items[..1] == [LineItem(1, 3)];
    assert [LineItem(1, 3)][..0] == [];
  }
}
