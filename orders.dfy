/** The order manager: turns a list of order lines into a stored order,
    deducting stock from the shared inventory service, and cancels orders
    by putting the stock back. */
module Orders {
  import opened Outcomes
  import opened Inventory

  /** A change an operation makes through adjust_stock. */
  datatype Adjustment = Adjustment(variantId: int, delta: int)

  /** The ledger after a run of adjust_stock calls, and whether every call
      went through. The first refused call ends the run: the error
      propagates, and the calls before it stay applied. */
  datatype Run = Run(stocks: Ledger, completed: bool)

  function Applied(stocks: Ledger, adjs: seq<Adjustment>): Run
    decreases |adjs|
  {
    if adjs == [] then Run(stocks, true)
    else
      var before := Applied(stocks, adjs[..|adjs| - 1]);
      var last := adjs[|adjs| - 1];
      if !before.completed then before
      else match Adjusted(before.stocks, last.variantId, last.delta)
        case Err => Run(before.stocks, false)
        case Ok(after) => Run(after, true)
  }

  /** The sum of the deltas a run applies to variant `v`. */
  function NetChange(adjs: seq<Adjustment>, v: int): int
    decreases |adjs|
  {
    if adjs == [] then 0
    else
      var last := adjs[|adjs| - 1];
      NetChange(adjs[..|adjs| - 1], v) + (if last.variantId == v then last.delta else 0)
  }

  ghost predicate DistinctVariants(adjs: seq<Adjustment>)
  {
    forall i, j :: 0 <= i < j < |adjs| ==> adjs[i].variantId != adjs[j].variantId
  }

  /** Each single adjustment is admissible against the starting ledger. */
  ghost predicate EachAdmissible(stocks: Ledger, adjs: seq<Adjustment>)
  {
    forall i :: 0 <= i < |adjs| ==> adjs[i].variantId in stocks && stocks[adjs[i].variantId] + adjs[i].delta >= 0
  }

  /** A run keeps the key set and never makes a non-negative ledger negative,
      whether or not it completes. */
  lemma {:induction false} AppliedKeepsNonNegative(stocks: Ledger, adjs: seq<Adjustment>)
    requires NonNegative(stocks)
    ensures Applied(stocks, adjs).stocks.Keys == stocks.Keys
    ensures NonNegative(Applied(stocks, adjs).stocks)
    decreases |adjs|
  {
    if adjs != [] {
      AppliedKeepsNonNegative(stocks, adjs[..|adjs| - 1]);
    }
  }

  /** When the variants are distinct, checking each adjustment against the
      starting ledger is enough: the run completes and moves every stock by
      exactly its net change. */
  lemma {:induction false} AppliedDistinct(stocks: Ledger, adjs: seq<Adjustment>)
    requires DistinctVariants(adjs)
    requires EachAdmissible(stocks, adjs)
    ensures Applied(stocks, adjs).completed
    ensures Applied(stocks, adjs).stocks.Keys == stocks.Keys
    ensures forall v :: v in stocks ==> Applied(stocks, adjs).stocks[v] == stocks[v] + NetChange(adjs, v)
    decreases |adjs|
  {
    if adjs != [] {
      var n := |adjs| - 1;
      var prefix := adjs[..n];
      assert DistinctVariants(prefix);
      assert EachAdmissible(stocks, prefix) by {
        forall i | 0 <= i < |prefix| ensures prefix[i] == adjs[i] { }
      }
      AppliedDistinct(stocks, prefix);
      NetChangeAbsent(prefix, adjs[n].variantId);
    }
  }

  /** A variant that no adjustment names has net change zero. */
  lemma {:induction false} NetChangeAbsent(adjs: seq<Adjustment>, v: int)
    requires forall i :: 0 <= i < |adjs| ==> adjs[i].variantId != v
    ensures NetChange(adjs, v) == 0
    decreases |adjs|
  {
    if adjs != [] {
      var n := |adjs| - 1;
      assert forall i :: 0 <= i < n ==> adjs[..n][i] == adjs[i];
      NetChangeAbsent(adjs[..n], v);
    }
  }

  /** With distinct variants, the net change of a named variant is its own delta. */
  lemma {:induction false} NetChangeOfDistinct(adjs: seq<Adjustment>, i: int)
    requires DistinctVariants(adjs)
    requires 0 <= i < |adjs|
    ensures NetChange(adjs, adjs[i].variantId) == adjs[i].delta
    decreases |adjs|
  {
    var n := |adjs| - 1;
    var prefix := adjs[..n];
    if i == n {
      assert forall j :: 0 <= j < n ==> prefix[j] == adjs[j];
      NetChangeAbsent(prefix, adjs[i].variantId);
    } else {
      assert prefix[i] == adjs[i];
      assert DistinctVariants(prefix);
      NetChangeOfDistinct(prefix, i);
    }
  }

  /** Once a call of the run is refused, the calls after it are never made. */
  lemma {:induction false} AppliedStopsAtRefusal(stocks: Ledger, adjs: seq<Adjustment>, k: int)
    requires 0 <= k <= |adjs|
    requires !Applied(stocks, adjs[..k]).completed
    ensures Applied(stocks, adjs) == Applied(stocks, adjs[..k])
    decreases |adjs|
  {
    if k < |adjs| {
      var n := |adjs| - 1;
      assert adjs[..n][..k] == adjs[..k];
      AppliedStopsAtRefusal(stocks, adjs[..n], k);
    } else {
      assert adjs[..k] == adjs;
    }
  }

  /** Two runs over the same variants with opposite deltas have opposite net changes. */
  lemma {:induction false} NetChangeOpposite(a: seq<Adjustment>, b: seq<Adjustment>, v: int)
    requires |a| == |b|
    requires forall i :: 0 <= i < |a| ==> a[i].variantId == b[i].variantId && a[i].delta == -b[i].delta
    ensures NetChange(a, v) == -NetChange(b, v)
    decreases |a|
  {
    if a != [] {
      var n := |a| - 1;
      NetChangeOpposite(a[..n], b[..n], v);
    }
  }

  /** One product line of an order; the unit price is in integer cents. */
  datatype OrderLine = OrderLine(variantId: int, qty: int, price: int)

  datatype OrderStatus = Created | Cancelled

  /** The line's subtotal: quantity times unit price, exact in cents. */
  function Subtotal(line: OrderLine): (r: int)
    ensures line.qty >= 0 && line.price >= 0 ==> r >= 0
    ensures line.qty < 0 && line.price > 0 ==> r < 0
    ensures line.qty == 0 || line.price == 0 ==> r == 0
  {
    line.qty * line.price
  }

  /** The order total: the sum of the line subtotals. With non-negative
      quantities and prices no subtotal, and so no total, is negative. */
  function Total(lines: seq<OrderLine>): (r: int)
    ensures lines == [] ==> r == 0
    ensures (forall i :: 0 <= i < |lines| ==> lines[i].qty >= 0 && lines[i].price >= 0) ==> r >= 0
    decreases |lines|
  {
    if lines == [] then 0 else Subtotal(lines[0]) + Total(lines[1..])
  }

  /** The total of a concatenation is the sum of the totals, so the total
      is the per-line sum whichever way the lines are grouped. */
  lemma {:induction false} TotalAppend(a: seq<OrderLine>, b: seq<OrderLine>)
    ensures Total(a + b) == Total(a) + Total(b)
    decreases |a|
  {
    if a != [] {
      assert (a + b)[0] == a[0];
      assert (a + b)[1..] == a[1..] + b;
      TotalAppend(a[1..], b);
      assert Total(a + b) == Subtotal(a[0]) + Total(a[1..] + b);
    } else {
      assert a + b == b;
    }
  }

  /** The validation pass: every line's variant is stocked and holds at
      least the line's quantity. Each line is checked on its own against
      the current stock, not against the sum over lines on that variant. */
  predicate Available(stocks: Ledger, lines: seq<OrderLine>)
  {
    forall i :: 0 <= i < |lines| ==> lines[i].variantId in stocks && lines[i].qty <= stocks[lines[i].variantId]
  }

  /** The deduction pass: adjust_stock(variant, -qty) for each line in order. */
  function Deductions(lines: seq<OrderLine>): seq<Adjustment>
  {
    seq(|lines|, i requires 0 <= i < |lines| => Adjustment(lines[i].variantId, -lines[i].qty))
  }

  /** Cancellation: adjust_stock(variant, qty) for each line in order. */
  function Restorations(lines: seq<OrderLine>): seq<Adjustment>
  {
    seq(|lines|, i requires 0 <= i < |lines| => Adjustment(lines[i].variantId, lines[i].qty))
  }

  /** No two lines name the same variant, so neither do the deductions. */
  ghost predicate DistinctLines(lines: seq<OrderLine>)
  {
    DistinctVariants(Deductions(lines))
  }

  /** create_order's effect on the ledger, and whether an order is stored:
      a failed validation leaves the ledger untouched; otherwise the
      deduction pass runs, and an order is stored only if it completes. */
  ghost function Placed(stocks: Ledger, lines: seq<OrderLine>): Run
  {
    if Available(stocks, lines) then Applied(stocks, Deductions(lines)) else Run(stocks, false)
  }

  /** For lines on distinct variants create_order is all-or-nothing: it
      goes through exactly when validation passes, and then each line's
      variant loses exactly the line's quantity and no other stock moves. */
  lemma PlacedDistinct(stocks: Ledger, lines: seq<OrderLine>)
    requires DistinctLines(lines)
    ensures Placed(stocks, lines).completed <==> Available(stocks, lines)
    ensures Available(stocks, lines) ==> Placed(stocks, lines).stocks.Keys == stocks.Keys
    ensures Available(stocks, lines) ==> forall i :: 0 <= i < |lines| ==>
      Placed(stocks, lines).stocks[lines[i].variantId] == stocks[lines[i].variantId] - lines[i].qty
    ensures Available(stocks, lines) ==> forall v :: v in stocks && (forall i :: 0 <= i < |lines| ==> lines[i].variantId != v) ==>
      Placed(stocks, lines).stocks[v] == stocks[v]
  {
    if Available(stocks, lines) {
      var adjs := Deductions(lines);
      assert DistinctVariants(adjs);
      assert EachAdmissible(stocks, adjs);
      AppliedDistinct(stocks, adjs);
      forall i | 0 <= i < |lines|
        ensures Placed(stocks, lines).stocks[lines[i].variantId] == stocks[lines[i].variantId] - lines[i].qty
      {
        NetChangeOfDistinct(adjs, i);
      }
      forall v | v in stocks && (forall i :: 0 <= i < |lines| ==> lines[i].variantId != v)
        ensures Placed(stocks, lines).stocks[v] == stocks[v]
      {
        NetChangeAbsent(adjs, v);
      }
    }
  }

  /** Validation checks each line alone, so two lines on one variant whose
      quantities together exceed its stock pass validation; the second
      deduction is then refused after the first has been applied, and no
      order is stored. */
  lemma DuplicateLinesPartiallyDeduct(stocks: Ledger, v: int, a: int, b: int, price: int)
    requires v in stocks
    requires a <= stocks[v] && b <= stocks[v] && stocks[v] < a + b
    ensures var lines := [OrderLine(v, a, price), OrderLine(v, b, price)];
      && Available(stocks, lines)
      && Placed(stocks, lines) == Run(stocks[v := stocks[v] - a], false)
  {
    var lines := [OrderLine(v, a, price), OrderLine(v, b, price)];
    var adjs := Deductions(lines);
    assert adjs[..1][..0] == [];
    assert Applied(stocks, adjs[..1]) == Run(stocks[v := stocks[v] - a], true);
    assert adjs[..2] == adjs;
  }

  /** A line's quantity is never checked to be positive: on a stocked
      variant a negative quantity passes validation, adds stock and gives a
      negative total for a positive price. */
  lemma NegativeQuantityAddsStock(stocks: Ledger, v: int, q: int, price: int)
    requires v in stocks && stocks[v] >= 0
    requires q < 0
    ensures var lines := [OrderLine(v, q, price)];
      && Available(stocks, lines)
      && Placed(stocks, lines) == Run(stocks[v := stocks[v] - q], true)
      && Placed(stocks, lines).stocks[v] > stocks[v]
      && Total(lines) == q * price
  {
    var lines := [OrderLine(v, q, price)];
    var adjs := Deductions(lines);
    assert adjs == [Adjustment(v, -q)];
    assert adjs[..0] == [];
    assert Adjusted(stocks, v, -q) == Ok(stocks[v := stocks[v] - q]);
    assert Applied(stocks, adjs) == Run(stocks[v := stocks[v] - q], true);
  }

  /** A completed run moves every stock by exactly its net change, however
      often a variant recurs in it. */
  lemma {:induction false} AppliedCompletedNet(stocks: Ledger, adjs: seq<Adjustment>)
    requires Applied(stocks, adjs).completed
    ensures Applied(stocks, adjs).stocks.Keys == stocks.Keys
    ensures forall v :: v in stocks ==> Applied(stocks, adjs).stocks[v] == stocks[v] + NetChange(adjs, v)
    decreases |adjs|
  {
    if adjs != [] {
      AppliedCompletedNet(stocks, adjs[..|adjs| - 1]);
    }
  }

  /** A run that only adds to stocked variants of a non-negative ledger is
      never refused. */
  lemma {:induction false} AppliedAddingCompletes(stocks: Ledger, adjs: seq<Adjustment>)
    requires NonNegative(stocks)
    requires forall i :: 0 <= i < |adjs| ==> adjs[i].variantId in stocks && adjs[i].delta >= 0
    ensures Applied(stocks, adjs).completed
    decreases |adjs|
  {
    if adjs != [] {
      var n := |adjs| - 1;
      assert forall i :: 0 <= i < n ==> adjs[..n][i] == adjs[i];
      AppliedAddingCompletes(stocks, adjs[..n]);
      AppliedKeepsNonNegative(stocks, adjs[..n]);
    }
  }

  /** Cancelling a just-created order puts back exactly the stock the order
      took, so the ledger is as before creation. This holds for lines on
      distinct variants, and for lines with non-negative quantities however
      often they repeat a variant. */
  lemma CancelRestoresPlaced(stocks: Ledger, lines: seq<OrderLine>)
    requires NonNegative(stocks)
    requires DistinctLines(lines) || forall i :: 0 <= i < |lines| ==> lines[i].qty >= 0
    requires Placed(stocks, lines).completed
    ensures Applied(Placed(stocks, lines).stocks, Restorations(lines)) == Run(stocks, true)
  {
    var deducted := Deductions(lines);
    var restored := Restorations(lines);
    assert Available(stocks, lines);
    if DistinctLines(lines) {
      assert DistinctVariants(deducted);
      assert DistinctVariants(restored) by {
        assert forall i :: 0 <= i < |lines| ==> restored[i].variantId == deducted[i].variantId;
      }
      AppliedDistinct(stocks, deducted);
      var middle := Applied(stocks, deducted).stocks;
      assert EachAdmissible(middle, restored) by {
        forall i | 0 <= i < |restored|
          ensures restored[i].variantId in middle && middle[restored[i].variantId] + restored[i].delta >= 0
        {
          NetChangeOfDistinct(deducted, i);
        }
      }
      AppliedDistinct(middle, restored);
      var after := Applied(middle, restored).stocks;
      forall v | v in stocks ensures after[v] == stocks[v] {
        NetChangeOpposite(deducted, restored, v);
      }
      assert after == stocks;
    } else {
      AppliedCompletedNet(stocks, deducted);
      AppliedKeepsNonNegative(stocks, deducted);
      var middle := Applied(stocks, deducted).stocks;
      AppliedAddingCompletes(middle, restored);
      AppliedCompletedNet(middle, restored);
      var after := Applied(middle, restored).stocks;
      forall v | v in stocks ensures after[v] == stocks[v] {
        NetChangeOpposite(deducted, restored, v);
      }
      assert after == stocks;
    }
  }

  /** Whatever the ledger and the lines, a cancellation of a just-created
      order that goes through restores the ledger exactly: the restorations
      undo the deductions variant by variant. */
  lemma CancelCompletedRestores(stocks: Ledger, lines: seq<OrderLine>)
    requires Placed(stocks, lines).completed
    requires Applied(Placed(stocks, lines).stocks, Restorations(lines)).completed
    ensures Applied(Placed(stocks, lines).stocks, Restorations(lines)).stocks == stocks
  {
    var deducted := Deductions(lines);
    var restored := Restorations(lines);
    assert Available(stocks, lines);
    AppliedCompletedNet(stocks, deducted);
    var middle := Applied(stocks, deducted).stocks;
    AppliedCompletedNet(middle, restored);
    var after := Applied(middle, restored).stocks;
    forall v | v in stocks ensures after[v] == stocks[v] {
      NetChangeOpposite(deducted, restored, v);
    }
    assert after == stocks;
  }

  /** Without either condition the round trip can fail: from stock 5, lines
      of quantity -5, 5 and 5 on one variant create an order that leaves
      stock 0, and cancelling it is refused at its first restoration,
      adjust_stock(v, -5), with nothing restored. */
  lemma NegativeLineBlocksCancel(v: int, price: int)
    ensures var stocks, lines := map[v := 5], [OrderLine(v, -5, price), OrderLine(v, 5, price), OrderLine(v, 5, price)];
      && Placed(stocks, lines) == Run(map[v := 0], true)
      && Applied(Placed(stocks, lines).stocks, Restorations(lines)) == Run(map[v := 0], false)
  {
    var stocks, lines := map[v := 5], [OrderLine(v, -5, price), OrderLine(v, 5, price), OrderLine(v, 5, price)];
    var deducted := Deductions(lines);
    assert deducted[..1][..0] == [];
    assert deducted[..2][..1] == deducted[..1];
    assert deducted[..3] == deducted;
    assert Applied(stocks, deducted[..1]) == Run(map[v := 10], true);
    assert Applied(stocks, deducted[..2]) == Run(map[v := 5], true);
    assert Placed(stocks, lines) == Run(map[v := 0], true);
    var restored := Restorations(lines);
    assert restored[..1][..0] == [];
    assert Applied(map[v := 0], restored[..1]) == Run(map[v := 0], false);
    AppliedStopsAtRefusal(map[v := 0], restored, 1);
  }

  /** Creating an order and cancelling it at once: a cancellation that goes
      through always leaves the ledger as it was; on a ledger with no
      negative stock and lines on distinct variants or with non-negative
      quantities the cancellation is sure to go through; once it has, a
      second cancellation is refused. */
  method CreateThenCancel(service: OrderService, tenantId: int, lines: seq<OrderLine>)
    returns (created: bool, cancelled: bool, cancelledAgain: bool)
    requires service.Valid()
    modifies service, service.inventory.items.Values
    ensures service.Valid()
    ensures created <==> Placed(old(service.inventory.Stocks()), lines).completed
    ensures DistinctLines(lines) ==> (created <==> Available(old(service.inventory.Stocks()), lines))
    ensures !created ==> !cancelled && service.inventory.Stocks() == Placed(old(service.inventory.Stocks()), lines).stocks
    ensures !created && DistinctLines(lines) ==> service.inventory.Stocks() == old(service.inventory.Stocks())
    ensures created && cancelled ==> service.inventory.Stocks() == old(service.inventory.Stocks())
    ensures created && !cancelled ==>
      service.inventory.Stocks() == Applied(Placed(old(service.inventory.Stocks()), lines).stocks, Restorations(lines)).stocks
    ensures (&& created
             && NonNegative(old(service.inventory.Stocks()))
             && (DistinctLines(lines) || forall i :: 0 <= i < |lines| ==> lines[i].qty >= 0))
            ==> cancelled
    ensures !cancelledAgain
  {
    ghost var before := service.inventory.Stocks();
    if DistinctLines(lines) {
      PlacedDistinct(before, lines);
    }
    var order := service.CreateOrder(tenantId, lines);
    if order.Err? {
      return false, false, false;
    }
    created := true;
    ghost var middle := service.inventory.Stocks();
    if NonNegative(before) && (DistinctLines(lines) || forall i :: 0 <= i < |lines| ==> lines[i].qty >= 0) {
      CancelRestoresPlaced(before, lines);
    }
    cancelled := service.CancelOrder(order.value.id);
    if cancelled {
      CancelCompletedRestores(before, lines);
      cancelledAgain := service.CancelOrder(order.value.id);
    } else {
      cancelledAgain := false;
    }
  }

  /** A stored order. Its lines, total and identity never change; only the
      status is updated in place. */
  class Order {
    const id: int
    const tenantId: int
    const items: seq<OrderLine>
    const totalAmount: int
    var status: OrderStatus

    constructor (id: int, tenantId: int, items: seq<OrderLine>)
      ensures this.id == id && this.tenantId == tenantId && this.items == items
      ensures totalAmount == Total(items) && status == Created
    {
      this.id := id;
      this.tenantId := tenantId;
      this.items := items;
      this.totalAmount := Total(items);
      this.status := Created;
    }
  }

  class OrderService {
    const inventory: InventoryService
    var orders: map<int, Order>
    var nextId: int

    /** The stored ids are exactly 1 .. nextId - 1, each order under its own id. */
    ghost predicate Valid()
      reads this, inventory
    {
      && inventory.Valid()
      && nextId >= 1
      && (forall id :: id in orders <==> 1 <= id < nextId)
      && (forall id :: id in orders ==> orders[id].id == id)
    }

    constructor (inventory: InventoryService)
      requires inventory.Valid()
      ensures Valid()
      ensures this.inventory == inventory && orders == map[] && nextId == 1
    {
      this.inventory := inventory;
      orders := map[];
      nextId := 1;
    }

    /** The validation pass of create_order: each line's variant must be
        known to get_stock and hold at least the line's quantity. */
    method ValidateLines(lines: seq<OrderLine>) returns (ok: bool)
      requires Valid()
      ensures ok == Available(inventory.Stocks(), lines)
    {
      var i := 0;
      while i < |lines|
        invariant 0 <= i <= |lines|
        invariant forall j :: 0 <= j < i ==>
          lines[j].variantId in inventory.Stocks() && lines[j].qty <= inventory.Stocks()[lines[j].variantId]
      {
        var stock := inventory.GetStock(lines[i].variantId);
        if stock.Err? || stock.value < lines[i].qty {
          return false;
        }
        i := i + 1;
      }
      ok := true;
    }

    /** A pass of adjust_stock calls, one per adjustment, in order; the
        first refusal ends the pass with the earlier calls applied. */
    method ApplyAdjustments(adjs: seq<Adjustment>) returns (ok: bool)
      requires Valid()
      modifies inventory.items.Values
      ensures Valid()
      ensures inventory.Stocks() == Applied(old(inventory.Stocks()), adjs).stocks
      ensures ok == Applied(old(inventory.Stocks()), adjs).completed
    {
      ghost var before := inventory.Stocks();
      var i := 0;
      while i < |adjs|
        invariant 0 <= i <= |adjs|
        invariant inventory.Valid()
        invariant Applied(before, adjs[..i]) == Run(inventory.Stocks(), true)
      {
        var adjusted := inventory.AdjustStock(adjs[i].variantId, adjs[i].delta);
        assert adjs[..i + 1][..i] == adjs[..i];
        if adjusted.Err? {
          AppliedStopsAtRefusal(before, adjs, i + 1);
          return false;
        }
        i := i + 1;
      }
      assert adjs[..|adjs|] == adjs;
      ok := true;
    }

    method CreateOrder(tenantId: int, lines: seq<OrderLine>) returns (r: Result<Order>)
      requires Valid()
      modifies this, inventory.items.Values
      ensures Valid()
      ensures inventory.Stocks() == Placed(old(inventory.Stocks()), lines).stocks
      ensures r.Ok? <==> Placed(old(inventory.Stocks()), lines).completed
      ensures !Available(old(inventory.Stocks()), lines) ==> r.Err? && inventory.Stocks() == old(inventory.Stocks())
      ensures r.Err? ==> orders == old(orders) && nextId == old(nextId)
      ensures r.Ok? ==> fresh(r.value) && orders == old(orders)[old(nextId) := r.value] && nextId == old(nextId) + 1
      ensures r.Ok? ==> && r.value.id == old(nextId) && r.value.tenantId == tenantId && r.value.items == lines
                        && r.value.totalAmount == Total(lines) && r.value.status == Created
    {
      var available := ValidateLines(lines);
      if !available {
        return Err;
      }
      var deducted := ApplyAdjustments(Deductions(lines));
      if !deducted {
        return Err;
      }
      var order := new Order(nextId, tenantId, lines);
      orders := orders[nextId := order];
      nextId := nextId + 1;
      r := Ok(order);
    }

    method GetOrder(orderId: int) returns (r: Result<Order>)
      ensures r.Ok? <==> orderId in orders
      ensures r.Ok? ==> r.value == orders[orderId]
    {
      if orderId !in orders {
        return Err;
      }
      r := Ok(orders[orderId]);
    }

    method CancelOrder(orderId: int) returns (ok: bool)
      requires Valid()
      modifies (if orderId in orders then {orders[orderId]} else {}), inventory.items.Values
      ensures Valid()
      ensures orderId !in orders ==> !ok && inventory.Stocks() == old(inventory.Stocks())
      ensures orderId in orders && old(orders[orderId].status) != Created ==>
        && !ok
        && inventory.Stocks() == old(inventory.Stocks())
        && orders[orderId].status == old(orders[orderId].status)
      ensures orderId in orders && old(orders[orderId].status) == Created ==>
        var run := Applied(old(inventory.Stocks()), Restorations(orders[orderId].items));
        && inventory.Stocks() == run.stocks
        && ok == run.completed
        && orders[orderId].status == (if ok then Cancelled else Created)
    {
      var found := GetOrder(orderId);
      if found.Err? {
        return false;
      }
      var order := found.value;
      if order.status != Created {
        return false;
      }

      var restored := ApplyAdjustments(Restorations(order.items));
      if !restored {
        return false;
      }
      order.status := Cancelled;
      ok := true;
    }
  }
}
