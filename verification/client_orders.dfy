/** What the order and dashboard pages compute from the replies they fetch:
    the status timeline of the orders page, the per-order cost and the two
    spend figures (the orders page multiplies by quantity, the dashboards
    and the cart total do not), and the dashboard counters. */
module ClientOrders {
  import opened Models
  import ClientSession

  // ---------------------------------------------------------------------
  // Status timeline
  // ---------------------------------------------------------------------

  const StatusSteps: seq<string> := ["Pending", "Shipped", "Delivered", "Cancelled"]

  /** `toLowerCase` on the letters A-Z. Every step name is ASCII, and no
      other code point lower-cases to a string equal to one of them. */
  function LowerChar(c: char): char
  {
    if 'A' <= c <= 'Z' then (c as int + 32) as char else c
  }

  function Lower(s: string): (r: string)
    ensures |r| == |s|
    ensures forall i :: 0 <= i < |s| ==> r[i] == LowerChar(s[i])
  {
    if |s| == 0 then [] else [LowerChar(s[0])] + Lower(s[1..])
  }

  /** The step names in lower case. */
  const LowerSteps: seq<string> := ["pending", "shipped", "delivered", "cancelled"]

  lemma LowerStepNames()
    ensures |LowerSteps| == |StatusSteps|
    ensures forall k :: 0 <= k < |StatusSteps| ==> Lower(StatusSteps[k]) == LowerSteps[k]
  {
    forall k | 0 <= k < |StatusSteps|
      ensures Lower(StatusSteps[k]) == LowerSteps[k]
    {
      if k == 0 { LowerStatusName(Pending); }
      else if k == 1 { LowerStatusName(Shipped); }
      else if k == 2 { LowerStatusName(Delivered); }
      else { LowerStatusName(Cancelled); }
    }
  }

  /** Each stored spelling lower-cases to the matching step name. */
  lemma LowerStatusName(st: Status)
    ensures Lower(StatusName(st)) == LowerSteps[StepOf(st)]
    ensures StatusSteps[StepOf(st)] == StatusName(st)
  {
    match st
    case Pending => LowerPending();
    case Shipped => LowerShipped();
    case Delivered => LowerDelivered();
    case Cancelled => LowerCancelled();
  }

  lemma LowerPending()
    ensures Lower("Pending") == "pending"
  {
    LowerSpelled("Pending", "pending");
  }

  lemma LowerShipped()
    ensures Lower("Shipped") == "shipped"
  {
    LowerSpelled("Shipped", "shipped");
  }

  lemma LowerDelivered()
    ensures Lower("Delivered") == "delivered"
  {
    LowerSpelled("Delivered", "delivered");
  }

  lemma LowerCancelled()
    ensures Lower("Cancelled") == "cancelled"
  {
    LowerSpelled("Cancelled", "cancelled");
  }

  /** The timeline position of a stored status. */
  function StepOf(st: Status): nat
  {
    match st
    case Pending => 0
    case Shipped => 1
    case Delivered => 2
    case Cancelled => 3
  }

  lemma LowerSpelled(s: string, t: string)
    requires |s| == |t| && forall i :: 0 <= i < |s| ==> LowerChar(s[i]) == t[i]
    ensures Lower(s) == t
  {
    assert forall i :: 0 <= i < |s| ==> Lower(s)[i] == t[i];
  }

  /** `statusSteps.findIndex(s => s.toLowerCase() === status.toLowerCase())`:
      the first step whose lower-case name is the lower-cased status. */
  function StatusIndex(status: string): (r: int)
    ensures -1 <= r < |LowerSteps|
    ensures r >= 0 ==> LowerSteps[r] == Lower(status)
    ensures r >= 0 ==> forall j :: 0 <= j < r ==> LowerSteps[j] != Lower(status)
    ensures r == -1 <==> forall j :: 0 <= j < |LowerSteps| ==> LowerSteps[j] != Lower(status)
  {
    var key := Lower(status);
    if LowerSteps[0] == key then 0
    else if LowerSteps[1] == key then 1
    else if LowerSteps[2] == key then 2
    else if LowerSteps[3] == key then 3
    else -1
  }

  predicate IsCancelled(status: string)
  {
    Lower(status) == "cancelled"
  }

  /** Step `idx` is highlighted when it is not past the current status and
      the order is not cancelled. */
  predicate StepActive(status: string, idx: nat)
  {
    idx <= StatusIndex(status) && !IsCancelled(status)
  }

  function ActiveSteps(status: string): (r: seq<bool>)
    ensures |r| == |StatusSteps|
    ensures forall i :: 0 <= i < |r| ==> (r[i] <==> StepActive(status, i))
  {
    seq(|StatusSteps|, i requires 0 <= i < |StatusSteps| => StepActive(status, i))
  }

  /** The progress bar is drawn only for an order that is not cancelled. */
  function ProgressBarShown(status: string): (r: bool)
    ensures r <==> StatusIndex(status) != StepOf(Cancelled)
  {
    !IsCancelled(status)
  }

  /** Highlighted steps always form a prefix of the timeline; a cancelled
      order highlights none, and any other known status highlights exactly
      the steps up to its own. */
  lemma ActiveStepsArePrefix(status: string)
    ensures forall i, j :: 0 <= i < j < |StatusSteps| && ActiveSteps(status)[j] ==> ActiveSteps(status)[i]
    ensures IsCancelled(status) ==> forall i :: 0 <= i < |StatusSteps| ==> !ActiveSteps(status)[i]
    ensures !IsCancelled(status) ==>
      forall i :: 0 <= i < |StatusSteps| ==> (ActiveSteps(status)[i] <==> i <= StatusIndex(status))
  {
  }

  lemma {:induction false} LowerIdempotent(s: string)
    ensures Lower(Lower(s)) == Lower(s)
  {
    if |s| > 0 {
      LowerIdempotent(s[1..]);
    }
  }

  /** The timeline reads a status without regard to letter case. */
  lemma StatusIndexIgnoresCase(status: string)
    ensures StatusIndex(Lower(status)) == StatusIndex(status)
    ensures IsCancelled(Lower(status)) <==> IsCancelled(status)
  {
    LowerIdempotent(status);
  }

  /** The stored status names index their own step, in any letter case. */
  lemma StatusNamesIndexed(st: Status, spelled: string)
    requires Lower(spelled) == Lower(StatusName(st))
    ensures StatusIndex(spelled) == StepOf(st)
  {
    LowerStatusName(st);
  }

  // ---------------------------------------------------------------------
  // Cost and spend
  // ---------------------------------------------------------------------

  /** An order as replied with its product populated: the product's price
      (absent when the product is gone) and the order's quantity. */
  datatype OrderLine = OrderLine(price: Option<int>, quantity: Option<int>)

  /** `x || 0` and `x || 1` on numbers. */
  function PriceOrZero(price: Option<int>): int
  {
    OrNumber(price, 0)
  }

  function QuantityOrOne(quantity: Option<int>): (r: int)
    ensures r != 0
    ensures quantity.Some? && quantity.value != 0 ==> r == quantity.value
  {
    OrNumber(quantity, 1)
  }

  /** The cost shown on an order card. */
  function Cost(o: OrderLine): (r: int)
    ensures o.price.None? || o.price.value == 0 ==> r == 0
    ensures o.quantity.None? || o.quantity.value in {0, 1} ==> r == PriceOrZero(o.price)
  {
    PriceOrZero(o.price) * QuantityOrOne(o.quantity)
  }

  /** An order of `q` items costs `q` times an order of one. */
  lemma CostScales(price: Option<int>, q: int)
    requires q != 0
    ensures Cost(OrderLine(price, Some(q))) == q * Cost(OrderLine(price, Some(1)))
  {
  }

  /** Reference: the sum of the costs. */
  function SumCost(orders: seq<OrderLine>): int
  {
    if |orders| == 0 then 0 else SumCost(orders[..|orders| - 1]) + Cost(orders[|orders| - 1])
  }

  /** The orders page's `forEach` accumulation. */
  method TotalSpent(orders: seq<OrderLine>) returns (total: int)
    ensures total == SumCost(orders)
  {
    total := 0;
    var i := 0;
    while i < |orders|
      invariant 0 <= i <= |orders|
      invariant total == SumCost(orders[..i])
    {
      assert orders[..i + 1][..i] == orders[..i];
      total := total + Cost(orders[i]);
      i := i + 1;
    }
    assert orders[..|orders|] == orders;
  }

  /** `reduce((sum, o) => sum + (o.product?.price || 0), 0)`: the spend of
      both dashboards and the cart page's total. Quantity plays no part. */
  function PriceSum(prices: seq<Option<int>>): int
  {
    if |prices| == 0 then 0 else PriceSum(prices[..|prices| - 1]) + PriceOrZero(prices[|prices| - 1])
  }

  function Prices(orders: seq<OrderLine>): (r: seq<Option<int>>)
    ensures |r| == |orders|
    ensures forall i :: 0 <= i < |orders| ==> r[i] == orders[i].price
  {
    seq(|orders|, i requires 0 <= i < |orders| => orders[i].price)
  }

  predicate QuantityOne(o: OrderLine)
  {
    o.quantity.None? || o.quantity.value == 0 || o.quantity.value == 1
  }

  /** When every order counts once, the two spend figures agree. */
  lemma {:induction false} SpendFiguresAgree(orders: seq<OrderLine>)
    requires forall i :: 0 <= i < |orders| ==> QuantityOne(orders[i])
    ensures SumCost(orders) == PriceSum(Prices(orders))
  {
    if |orders| > 0 {
      var init := orders[..|orders| - 1];
      assert Prices(orders)[..|orders| - 1] == Prices(init);
      SpendFiguresAgree(init);
    }
  }

  /** The orders as if each had been placed for one item. */
  function ClearQuantities(orders: seq<OrderLine>): (r: seq<OrderLine>)
    ensures |r| == |orders|
    ensures forall i :: 0 <= i < |orders| ==> r[i] == OrderLine(orders[i].price, None)
  {
    seq(|orders|, i requires 0 <= i < |orders| => OrderLine(orders[i].price, None))
  }

  /** The dashboards' spend is the orders page's total with every quantity
      taken as one. */
  lemma PriceSumIsUnitCost(orders: seq<OrderLine>)
    ensures PriceSum(Prices(orders)) == SumCost(ClearQuantities(orders))
  {
    var cleared := ClearQuantities(orders);
    assert Prices(cleared) == Prices(orders);
    SpendFiguresAgree(cleared);
  }

  /** They differ as soon as one order has a quantity above one. */
  lemma SpendFiguresDiffer()
    ensures var orders := [OrderLine(Some(100), Some(2))];
            SumCost(orders) == 200 && PriceSum(Prices(orders)) == 100
  {
    var orders := [OrderLine(Some(100), Some(2))];
    assert orders[..0] == [];
    assert Prices(orders) == [Some(100)];
    assert Prices(orders)[..0] == [];
  }

  // ---------------------------------------------------------------------
  // Dashboard counters
  // ---------------------------------------------------------------------

  /** `!storedUser || storedUser === 'undefined'` stops the dashboards
      before any request, and text that is not JSON throws in `JSON.parse`
      before the stats are fetched; a stored user gets them. */
  function FetchesStats(slot: ClientSession.UserSlot): (r: bool)
    ensures r <==> ClientSession.NavbarUser(slot).Some?
  {
    match slot
    case Missing => false
    case EmptyText => false
    case UndefinedText => false
    case Malformed => false
    case Stored(_) => true
  }

  datatype Stats = Stats(totalOrders: nat, totalSpent: int, totalCarts: nat)

  /** `orders = data || []`, `cartRes.data?.length || 0`. */
  function DashboardStats(orders: Option<seq<OrderLine>>, cart: Option<seq<Option<int>>>): (r: Stats)
    ensures r.totalOrders == (if orders.Some? then |orders.value| else 0)
    ensures r.totalCarts == (if cart.Some? then |cart.value| else 0)
    ensures orders.Some? && (forall i :: 0 <= i < |orders.value| ==> QuantityOne(orders.value[i])) ==>
      r.totalSpent == SumCost(orders.value)
    ensures orders.None? ==> r.totalSpent == 0
    ensures orders.Some? ==> r.totalSpent == SumCost(ClearQuantities(orders.value))
  {
    var os := if orders.Some? then orders.value else [];
    PriceSumIsUnitCost(os);
    assert orders.Some? && (forall i :: 0 <= i < |orders.value| ==> QuantityOne(orders.value[i])) ==>
      SumCost(os) == PriceSum(Prices(os)) by {
      if orders.Some? && (forall i :: 0 <= i < |orders.value| ==> QuantityOne(orders.value[i])) {
        SpendFiguresAgree(orders.value);
      }
    }
    Stats(|os|, PriceSum(Prices(os)), if cart.Some? then |cart.value| else 0)
  }

  /** One item of each price. */
  function UnitLines(prices: seq<Option<int>>): (r: seq<OrderLine>)
    ensures |r| == |prices|
    ensures forall i :: 0 <= i < |prices| ==> r[i] == OrderLine(prices[i], None)
  {
    seq(|prices|, i requires 0 <= i < |prices| => OrderLine(prices[i], None))
  }

  /** The cart page's figures: the stored item count and the total, which
      ignores any quantity. */
  function CartFigures(prices: seq<Option<int>>): (r: (nat, int))
    ensures r.0 == |prices|
    ensures (forall i :: 0 <= i < |prices| ==> prices[i].None?) ==> r.1 == 0
    ensures r.1 == SumCost(UnitLines(prices))
  {
    assert Prices(UnitLines(prices)) == prices;
    PriceSumIsUnitCost(UnitLines(prices));
    assert ClearQuantities(UnitLines(prices)) == UnitLines(prices);
    assert (forall i :: 0 <= i < |prices| ==> prices[i].None?) ==> PriceSum(prices) == 0 by {
      if forall i :: 0 <= i < |prices| ==> prices[i].None? {
        AllAbsentSumsToZero(prices);
      }
    }
    (|prices|, PriceSum(prices))
  }

  /** Over the same products, the cart total and the dashboards' spend are
      one figure. */
  lemma CartTotalIsDashboardSpend(orders: seq<OrderLine>, cart: Option<seq<Option<int>>>)
    ensures CartFigures(Prices(orders)).1 == DashboardStats(Some(orders), cart).totalSpent
  {
  }

  lemma {:induction false} AllAbsentSumsToZero(prices: seq<Option<int>>)
    requires forall i :: 0 <= i < |prices| ==> prices[i].None?
    ensures PriceSum(prices) == 0
  {
    if |prices| > 0 {
      AllAbsentSumsToZero(prices[..|prices| - 1]);
    }
  }
}
