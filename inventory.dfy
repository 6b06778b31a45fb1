/** The inventory ledger: one stock counter per product variant, held by an
    in-memory service that refuses unknown variants and any adjustment that
    would take a counter below zero. */
module Inventory {
  import opened Outcomes

  /** The variant every fresh service is preloaded with, at stock 0. */
  const DefaultVariantId: int := 101
  const DefaultItemName: string := "Classic White T-Shirt"

  /** The ledger's abstract value: stock level by variant id. */
  type Ledger = map<int, int>

  ghost predicate NonNegative(stocks: Ledger)
  {
    forall v :: v in stocks ==> stocks[v] >= 0
  }

  /** adjust_stock on the abstract ledger: refused for an unknown variant
      and for a change that would make the stock negative. */
  function Adjusted(stocks: Ledger, variantId: int, quantity: int): (r: Result<Ledger>)
    ensures r.Err? <==> variantId !in stocks || stocks[variantId] + quantity < 0
    ensures r.Ok? ==> r.value.Keys == stocks.Keys
    ensures r.Ok? ==> r.value[variantId] == stocks[variantId] + quantity
    ensures r.Ok? ==> forall v :: v in stocks && v != variantId ==> r.value[v] == stocks[v]
  {
    if variantId !in stocks then Err
    else if stocks[variantId] + quantity < 0 then Err
    else Ok(stocks[variantId := stocks[variantId] + quantity])
  }

  /** add_item on the abstract ledger: refused for a variant already present;
      the initial stock is taken as given, negative or not. */
  function Added(stocks: Ledger, variantId: int, initialStock: int): (r: Result<Ledger>)
    ensures r.Err? <==> variantId in stocks
    ensures r.Ok? ==> r.value.Keys == stocks.Keys + {variantId}
    ensures r.Ok? ==> r.value[variantId] == initialStock
    ensures r.Ok? ==> forall v :: v in stocks ==> r.value[v] == stocks[v]
  {
    if variantId in stocks then Err else Ok(stocks[variantId := initialStock])
  }

  /** reset_inventory on the abstract ledger. */
  function Reset(stocks: Ledger): (r: Ledger)
    ensures r.Keys == stocks.Keys
    ensures forall v :: v in r ==> r[v] == 0
  {
    map v | v in stocks :: 0
  }

  /** An adjustment undone by the opposite adjustment restores the ledger. */
  lemma AdjustedUndone(stocks: Ledger, variantId: int, quantity: int)
    requires NonNegative(stocks)
    requires Adjusted(stocks, variantId, quantity).Ok?
    ensures Adjusted(Adjusted(stocks, variantId, quantity).value, variantId, -quantity) == Ok(stocks)
  {
    var after := Adjusted(stocks, variantId, quantity).value;
    assert after[variantId := after[variantId] - quantity] == stocks;
  }

  /** One call a client makes on the ledger. A refused call leaves the
      ledger as it was; the client carries on with the next one. */
  datatype Call =
    | AddItem(variantId: int, initialStock: int)
    | AdjustStock(variantId: int, quantity: int)
    | ResetInventory

  function Step(stocks: Ledger, call: Call): Ledger
  {
    match call
    case AddItem(v, initial) => Added(stocks, v, initial).GetOr(stocks)
    case AdjustStock(v, q) => Adjusted(stocks, v, q).GetOr(stocks)
    case ResetInventory => Reset(stocks)
  }

  function Replayed(stocks: Ledger, calls: seq<Call>): Ledger
    decreases |calls|
  {
    if calls == [] then stocks else Replayed(Step(stocks, calls[0]), calls[1..])
  }

  ghost predicate AddsNonNegative(calls: seq<Call>)
  {
    forall i :: 0 <= i < |calls| && calls[i].AddItem? ==> calls[i].initialStock >= 0
  }

  /** Starting from non-negative stocks, no sequence of calls makes a stock
      negative, provided every add_item call brings a non-negative initial
      stock (add_item itself does not check this). */
  lemma {:induction false} ReplayedKeepsNonNegative(stocks: Ledger, calls: seq<Call>)
    requires NonNegative(stocks)
    requires AddsNonNegative(calls)
    ensures NonNegative(Replayed(stocks, calls))
    decreases |calls|
  {
    if calls != [] {
      var next := Step(stocks, calls[0]);
      assert NonNegative(next);
      assert AddsNonNegative(calls[1..]) by {
        forall i | 0 <= i < |calls[1..]| && calls[1..][i].AddItem?
          ensures calls[1..][i].initialStock >= 0
        {
          assert calls[1..][i] == calls[i + 1];
        }
      }
      ReplayedKeepsNonNegative(next, calls[1..]);
    }
  }

  /** A stocked product variant; `adjust` changes its stock in place. */
  class InventoryItem {
    const variantId: int
    const name: string
    var stock: int

    constructor (variantId: int, name: string, stock: int)
      ensures this.variantId == variantId && this.name == name && this.stock == stock
    {
      this.variantId := variantId;
      this.name := name;
      this.stock := stock;
    }

    /** Increase or decrease the stock, unchecked. */
    method Adjust(quantity: int)
      modifies this
      ensures stock == old(stock) + quantity
    {
      stock := stock + quantity;
    }
  }

  /** The service: items keyed by variant id. */
  class InventoryService {
    var items: map<int, InventoryItem>

    /** Each item is stored under its own variant id (so distinct keys hold
        distinct item objects). */
    ghost predicate Valid()
      reads this
    {
      forall v :: v in items ==> items[v].variantId == v
    }

    ghost function Stocks(): Ledger
      reads this, items.Values
    {
      map v | v in items :: items[v].stock
    }

    constructor ()
      ensures Valid()
      ensures items.Keys == {DefaultVariantId}
      ensures items[DefaultVariantId].name == DefaultItemName
      ensures Stocks() == map[DefaultVariantId := 0]
    {
      var item := new InventoryItem(DefaultVariantId, DefaultItemName, 0);
      items := map[item.variantId := item];
    }

    method AddItem(variantId: int, name: string, initialStock: int) returns (r: Result<InventoryItem>)
      requires Valid()
      modifies this
      ensures Valid()
      ensures r.Ok? <==> Added(old(Stocks()), variantId, initialStock).Ok?
      ensures Stocks() == Added(old(Stocks()), variantId, initialStock).GetOr(old(Stocks()))
      ensures r.Err? ==> items == old(items)
      ensures r.Ok? ==> fresh(r.value) && items == old(items)[variantId := r.value]
      ensures r.Ok? ==> r.value.name == name && r.value.stock == initialStock
    {
      if variantId in items {
        return Err;
      }
      var item := new InventoryItem(variantId, name, initialStock);
      items := items[variantId := item];
      r := Ok(item);
      assert Stocks() == old(Stocks())[variantId := initialStock];
    }

    method AdjustStock(variantId: int, quantity: int) returns (r: Result<int>)
      requires Valid()
      modifies items.Values
      ensures Valid()
      ensures r.Ok? <==> Adjusted(old(Stocks()), variantId, quantity).Ok?
      ensures Stocks() == Adjusted(old(Stocks()), variantId, quantity).GetOr(old(Stocks()))
      ensures r.Ok? ==> variantId in Stocks() && r.value == Stocks()[variantId]
    {
      if variantId !in items {
        return Err;
      }
      var item := items[variantId];
      var newStock := item.stock + quantity;
      if newStock < 0 {
        return Err;
      }
      item.Adjust(quantity);
      r := Ok(item.stock);
      forall v | v in items && v != variantId
        ensures items[v].stock == old(items[v].stock)
      {
        assert items[v].variantId != item.variantId;
      }
      assert Stocks() == old(Stocks())[variantId := newStock];
    }

    method GetStock(variantId: int) returns (r: Result<int>)
      ensures r.Ok? <==> variantId in Stocks()
      ensures r.Ok? ==> r.value == Stocks()[variantId]
    {
      if variantId !in items {
        return Err;
      }
      r := Ok(items[variantId].stock);
    }

    method ResetInventory()
      requires Valid()
      modifies items.Values
      ensures Valid()
      ensures Stocks() == Reset(old(Stocks()))
    {
      var pending := items.Keys;
      while pending != {}
        invariant pending <= items.Keys
        invariant forall v :: v in pending ==> items[v].stock == old(items[v].stock)
        invariant forall v :: v in items && v !in pending ==> items[v].stock == 0
        decreases pending
      {
        if forall w :: w !in pending {
          assert false;  // the guard says pending has an element
        }
        var v :| v in pending;
        items[v].stock := 0;
        pending := pending - {v};
      }
      assert Stocks().Keys == Reset(old(Stocks())).Keys;
      assert forall v :: v in Stocks() ==> Stocks()[v] == 0;
    }
  }
}
