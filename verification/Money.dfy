/** Amounts of money: in-place addition with carry, "multiplication" by repeated
    doubling, and the two computations of an order's total. */
module Money {
  import opened Basics

  const NANOSMOD: int := 1_000_000_000

  /** Sixty-four bits of units and thirty-two of billionths. */
  datatype Amount = Amount(units: int, nanos: int)

  function Value(a: Amount): int { a.units * NANOSMOD + a.nanos }

  /** The normal form the message format asks for. */
  predicate Normal(a: Amount) {
    -NANOSMOD < a.nanos < NANOSMOD && (a.units > 0 ==> a.nanos >= 0) && (a.units < 0 ==> a.nanos <= 0)
  }

  predicate Int32(x: int) { -0x8000_0000 <= x < 0x8000_0000 }
  predicate Int64(x: int) { -0x8000_0000_0000_0000 <= x < 0x8000_0000_0000_0000 }
  predicate Fits(a: Amount) { Int64(a.units) && Int32(a.nanos) }

  function Carried(units: int, nanos: int): Amount {
    if (units == 0 && nanos == 0) || (units > 0 && nanos >= 0) || (units < 0 && nanos <= 0) then
      Amount(units + Quotient(nanos, NANOSMOD), Remainder(nanos, NANOSMOD))
    else if units > 0 then Amount(units - 1, nanos + NANOSMOD)
    else Amount(units + 1, nanos - NANOSMOD)
  }

  function Plus(a: Amount, b: Amount): Amount {
    Carried(a.units + b.units, a.nanos + b.nanos)
  }

  /** No intermediate result of the addition leaves its integer type. */
  predicate PlusFits(a: Amount, b: Amount) {
    Int64(a.units + b.units) && Int32(a.nanos + b.nanos) && Fits(Plus(a, b))
  }

  /** Addition conserves the value, whatever the forms of its operands. */
  lemma PlusConserves(a: Amount, b: Amount)
    ensures Value(Plus(a, b)) == Value(a) + Value(b)
  {}

  /** The sum of two normal amounts is normal unless their units cancel and their
      billionths make neither zero nor a whole unit. */
  lemma PlusIsNormal(a: Amount, b: Amount)
    requires Normal(a) && Normal(b)
    ensures var u, n := a.units + b.units, a.nanos + b.nanos;
      Normal(Plus(a, b)) <==> u != 0 || n == 0 || n >= NANOSMOD
  {}

  /** Its billionths leave their type exactly when the units cancel and the
      billionths are too far below zero to take away a whole unit. */
  lemma PlusOverflows(a: Amount, b: Amount)
    requires Normal(a) && Normal(b) && Int64(a.units + b.units)
    ensures PlusFits(a, b)
      <==> Int64(Plus(a, b).units) && !(a.units + b.units == 0 && a.nanos + b.nanos < NANOSMOD - 0x8000_0000)
  {}

  lemma NotNormal()
    ensures var a := Amount(0, 600_000_000);
      Normal(a) && Plus(a, Amount(0, 0)) == Amount(1, -400_000_000) && !Normal(Plus(a, Amount(0, 0)))
    ensures var a := Amount(0, -600_000_000);
      Normal(a) && Plus(a, a).nanos == -2_200_000_000 && !PlusFits(a, a)
  {}

  /** Prices and their sums: not negative, though perhaps not normal. */
  predicate Price(a: Amount) {
    a.units >= 0 && -NANOSMOD < a.nanos < NANOSMOD && Value(a) >= 0
  }

  /** Prices are closed under addition, and their billionths never overflow. */
  lemma PricesAreClosed(a: Amount, b: Amount)
    requires Price(a) && Price(b)
    ensures Price(Plus(a, b))
    ensures Int64(a.units + b.units) && Int64(Plus(a, b).units) ==> PlusFits(a, b)
  {}

  // ------------------------------------------------------------- in place

  class Cell {
    var units: int
    var nanos: int

    ghost function View(): Amount
      reads this
    {
      Amount(units, nanos)
    }

    constructor (a: Amount)
      ensures View() == a
    {
      units, nanos := a.units, a.nanos;
    }
  }

  /** `add` may be the very cell that is added to. */
  method MoneySum(total: Cell, add: Cell)
    modifies total
    ensures total.View() == Plus(old(total.View()), old(add.View()))
    ensures Value(total.View()) == old(Value(total.View())) + old(Value(add.View()))
  {
    ghost var a, b := total.View(), add.View();
    total.units := total.units + add.units;
    total.nanos := total.nanos + add.nanos;
    if (total.units == 0 && total.nanos == 0)
       || (total.units > 0 && total.nanos >= 0)
       || (total.units < 0 && total.nanos <= 0) {
      total.units := total.units + Quotient(total.nanos, NANOSMOD);
      total.nanos := Remainder(total.nanos, NANOSMOD);
    } else if total.units > 0 {
      total.units := total.units - 1;
      total.nanos := total.nanos + NANOSMOD;
    } else {
      total.units := total.units + 1;
      total.nanos := total.nanos - NANOSMOD;
    }
    PlusConserves(a, b);
  }

  /** `n` doublings in a row. */
  function Doubled(a: Amount, n: nat): Amount
    decreases n
  {
    if n == 0 then a else Doubled(Plus(a, a), n - 1)
  }

  /** How often the loop of `MoneyMultiplySlow` runs. */
  function Passes(n: nat): nat { if n > 1 then n - 1 else 0 }

  lemma {:induction false} DoubledValue(a: Amount, n: nat)
    ensures Value(Doubled(a, n)) == Value(a) * Pow2(n)
    decreases n
  {
    hide Value, Plus;
    if n > 0 {
      PlusConserves(a, a);
      DoubledValue(Plus(a, a), n - 1);
      assert (Value(a) + Value(a)) * Pow2(n - 1) == Value(a) * (2 * Pow2(n - 1));
    }
  }

  /** Every pass adds the amount to itself. */
  method MoneyMultiplySlow(total: Cell, n: nat)
    modifies total
    ensures total.View() == Doubled(old(total.View()), Passes(n))
    ensures n == 0 ==> total.View() == old(total.View())
    ensures n >= 1 ==> Value(total.View()) == old(Value(total.View())) * Pow2(n - 1)
  {
    ghost var a := total.View();
    var k := n;
    while k > 1
      invariant Doubled(total.View(), Passes(k)) == Doubled(a, Passes(n))
    {
      MoneySum(total, total);
      k := k - 1;
    }
    DoubledValue(a, Passes(n));
    PassesAre(n);
  }

  lemma PassesAre(n: nat)
    ensures n >= 1 ==> Pow2(Passes(n)) == Pow2(n - 1)
    ensures n == 0 ==> Passes(n) == 0 && Pow2(Passes(n)) == 1
  {}

  lemma {:induction false} PowerGrows(n: nat)
    requires n >= 2
    ensures Pow2(n) > n + 1
  {
    if n > 2 {
      PowerGrows(n - 1);
    } else {
      assert Pow2(2) == 2 * Pow2(1);
    }
  }

  /** It multiplies by `n` exactly for one, two, or nothing to multiply. */
  lemma MultipliesIff(a: Amount, n: nat)
    ensures Value(Doubled(a, Passes(n))) == n * Value(a) <==> n == 1 || n == 2 || Value(a) == 0
  {
    DoubledValue(a, Passes(n));
    if n >= 3 {
      PowerGrows(n - 1);
      Cancel(Value(a), Pow2(n - 1), n);
    } else {
      assert Pow2(1) == 2 * Pow2(0) && Pow2(0) == 1;
    }
  }

  /** One unit ordered three times is charged as four. */
  lemma ThreeForFour()
    ensures Doubled(Amount(1, 0), Passes(3)) == Amount(4, 0)
    ensures Value(Doubled(Amount(1, 0), Passes(3))) == 4 * Value(Amount(1, 0))
  {
    hide Plus, Pow2;
    PlusWhole(1, 1);
    PlusWhole(2, 2);
    assert Passes(3) == 2;
    assert Doubled(Amount(1, 0), 2) == Doubled(Amount(2, 0), 1) == Doubled(Amount(4, 0), 0);
  }

  lemma PlusWhole(a: nat, b: nat)
    ensures Plus(Amount(a, 0), Amount(b, 0)) == Amount(a + b, 0)
  {
    SmallRemainder(0);
  }

  lemma Cancel(x: int, p: int, n: int)
    requires p > n
    ensures x * p == n * x <==> x == 0
  {
    assert x * p - n * x == x * (p - n);
    if x > 0 {
      assert x * (p - n) > 0;
    } else if x < 0 {
      assert x * (p - n) < 0;
    }
  }

  // ----------------------------------------------------------- order totals

  datatype Item = Item(cost: Amount, quantity: nat)

  /** The total after adding the items, one by one, to what there is. */
  function Total(start: Amount, items: seq<Item>): Amount {
    if items == [] then start
    else Plus(Total(start, items[..|items| - 1]), Doubled(items[|items| - 1].cost, Passes(items[|items| - 1].quantity)))
  }

  /** What a line adds to the total, in value: its price doubled for each unit but one. */
  function ItemValue(i: Item): int { Value(i.cost) * if i.quantity == 0 then 1 else Pow2(i.quantity - 1) }

  lemma LineValue(i: Item)
    ensures Value(Doubled(i.cost, Passes(i.quantity))) == ItemValue(i) == Value(i.cost) * Pow2(Passes(i.quantity))
  {
    hide Pow2, Value, Plus;
    DoubledValue(i.cost, Passes(i.quantity));
    PassesAre(i.quantity);
  }

  function OrderValue(items: seq<Item>): int {
    if items == [] then 0 else OrderValue(items[..|items| - 1]) + ItemValue(items[|items| - 1])
  }

  lemma {:induction false} TotalValue(start: Amount, items: seq<Item>)
    ensures Value(Total(start, items)) == Value(start) + OrderValue(items)
  {
    if items != [] {
      var last := items[|items| - 1];
      TotalValue(start, items[..|items| - 1]);
      LineValue(last);
      PlusConserves(Total(start, items[..|items| - 1]), Doubled(last.cost, Passes(last.quantity)));
    }
  }

  /** The loop both services run: adds the items to `total`. */
  method AddItems(total: Cell, items: seq<Item>)
    modifies total
    ensures total.View() == Total(old(total.View()), items)
  {
    ghost var start := total.View();
    for i := 0 to |items|
      invariant total.View() == Total(start, items[..i])
    {
      var multPrice := new Cell(items[i].cost);
      MoneyMultiplySlow(multPrice, items[i].quantity);
      MoneySum(total, multPrice);
      assert items[..i + 1][..i] == items[..i];
    }
    assert items[..|items|] == items;
  }

  /** What `PlaceOrder` charges: it starts from zero and adds the shipping cost. */
  method PlaceOrder(shipping: Amount, items: seq<Item>) returns (charged: Amount)
    ensures charged == Total(Plus(Amount(0, 0), shipping), items)
    ensures Value(charged) == Value(shipping) + OrderValue(items)
  {
    var total := new Cell(Amount(0, 0));
    var cost := new Cell(shipping);
    MoneySum(total, cost);
    AddItems(total, items);
    charged := Amount(total.units, total.nanos);
    PlusConserves(Amount(0, 0), shipping);
    TotalValue(Plus(Amount(0, 0), shipping), items);
  }

  /** What the frontend shows as paid: it starts from the shipping cost. */
  method TotalPaid(shipping: Amount, items: seq<Item>) returns (paid: Amount)
    ensures paid == Total(shipping, items)
    ensures Value(paid) == Value(shipping) + OrderValue(items)
  {
    var total := new Cell(shipping);
    AddItems(total, items);
    paid := Amount(total.units, total.nanos);
    TotalValue(shipping, items);
  }

  /** The two totals always agree in value. */
  lemma TotalsAgree(shipping: Amount, items: seq<Item>)
    ensures Value(Total(Plus(Amount(0, 0), shipping), items)) == Value(Total(shipping, items))
  {
    PlusConserves(Amount(0, 0), shipping);
    TotalValue(Plus(Amount(0, 0), shipping), items);
    TotalValue(shipping, items);
  }

  ghost predicate SameTotals(a: Amount, b: Amount) {
    forall items: seq<Item> :: Total(a, items) == Total(b, items)
  }

  /** They are the same amount for every order exactly if the shipping cost has
      units or is nothing; otherwise adding it to zero changes its form. */
  lemma TotalsAreTheSame(shipping: Amount)
    requires Normal(shipping)
    ensures SameTotals(Plus(Amount(0, 0), shipping), shipping) <==> shipping.units != 0 || shipping.nanos == 0
  {
    hide Total, Plus;
    PlusToNothing(shipping);
    SameIffEqual(Plus(Amount(0, 0), shipping), shipping);
  }

  lemma SameIffEqual(a: Amount, b: Amount)
    ensures SameTotals(a, b) <==> a == b
  {
    hide Total;
    if SameTotals(a, b) {
      var none: seq<Item> := [];
      assert Total(a, none) == Total(b, none);
      TotalOfNone(a);
      TotalOfNone(b);
    }
  }

  lemma TotalOfNone(a: Amount)
    ensures Total(a, []) == a
  {}

  lemma SmallRemainder(x: int)
    requires -NANOSMOD < x < NANOSMOD
    ensures Quotient(x, NANOSMOD) == 0 && Remainder(x, NANOSMOD) == x
  {}

  lemma PlusToNothing(a: Amount)
    requires Normal(a)
    ensures a.units != 0 || a.nanos == 0 ==> Plus(Amount(0, 0), a) == a
    ensures a.units == 0 && a.nanos > 0 ==> Plus(Amount(0, 0), a) == Amount(1, a.nanos - NANOSMOD)
    ensures a.units == 0 && a.nanos < 0 ==> Plus(Amount(0, 0), a) == Amount(1, a.nanos - NANOSMOD)
  {
    hide Quotient, Remainder;
    SmallRemainder(a.nanos);
  }

  /** A value that is no whole number of units has two forms that are prices. */
  function Floor(v: nat): Amount { Amount(v / NANOSMOD, v % NANOSMOD) }
  function Ceiling(v: nat): Amount { Amount(v / NANOSMOD + 1, v % NANOSMOD - NANOSMOD) }

  /** Added to a running value `v`, the line amount leaves its two forms apart. */
  predicate KeepsApart(v: nat, line: Amount) {
    var units, nanos := v / NANOSMOD + line.units, v % NANOSMOD + line.nanos;
    (units == 0 && nanos < NANOSMOD) || (units > 0 && nanos < 0)
  }

  predicate InBothForms(a: Amount, b: Amount, v: int) {
    v > 0 && v % NANOSMOD > 0 && ((a == Floor(v) && b == Ceiling(v)) || (a == Ceiling(v) && b == Floor(v)))
  }

  lemma CarriedForms(units: int, nanos: int)
    requires units >= 0 && -NANOSMOD < nanos < 2 * NANOSMOD && (units == 0 ==> nanos > 0)
    ensures var a, b := Carried(units, nanos), Carried(units + 1, nanos - NANOSMOD);
      if units == 0 && nanos < NANOSMOD then a == Amount(1, nanos - NANOSMOD) && b == Amount(0, nanos)
      else if units > 0 && nanos < 0 then a == Amount(units - 1, nanos + NANOSMOD) && b == Amount(units, nanos)
      else a == b
  {
    hide Quotient, Remainder;
    if nanos < NANOSMOD {
      SmallRemainder(nanos);
    } else {
      SmallRemainder(nanos - NANOSMOD);
      OneMore(nanos);
    }
  }

  lemma OneMore(x: int)
    requires NANOSMOD <= x < 2 * NANOSMOD
    ensures Quotient(x, NANOSMOD) == 1 && Remainder(x, NANOSMOD) == x - NANOSMOD
  {}

  lemma FormsOf(v: int, units: nat, nanos: int)
    requires v == units * NANOSMOD + nanos && 0 <= nanos < NANOSMOD
    ensures v / NANOSMOD == units && v % NANOSMOD == nanos
  {}

  lemma FormsStep(v: nat, line: Amount)
    requires v % NANOSMOD > 0 && Price(line)
    ensures KeepsApart(v, line) ==> InBothForms(Plus(Floor(v), line), Plus(Ceiling(v), line), v + Value(line))
    ensures !KeepsApart(v, line) ==> Plus(Floor(v), line) == Plus(Ceiling(v), line)
  {
    hide Carried;
    var units, nanos := v / NANOSMOD + line.units, v % NANOSMOD + line.nanos;
    CarriedForms(units, nanos);
    if units == 0 && nanos < NANOSMOD {
      FormsOf(v + Value(line), 0, nanos);
    } else if units > 0 && nanos < 0 {
      FormsOf(v + Value(line), units - 1, nanos + NANOSMOD);
    }
  }

  function Line(i: Item): Amount { Doubled(i.cost, Passes(i.quantity)) }

  predicate AllPrices(items: seq<Item>) {
    forall i :: 0 <= i < |items| ==> Price(items[i].cost)
  }

  /** Every line of the order, in turn, leaves the two forms of the total apart. */
  predicate StayApart(v: nat, items: seq<Item>)
    requires AllPrices(items)
  {
    items == [] ||
    (PricesCost(items[..|items| - 1]);
     StayApart(v, items[..|items| - 1]) && KeepsApart(v + OrderValue(items[..|items| - 1]), Line(items[|items| - 1])))
  }

  lemma {:induction false} FormsOfTotals(a: Amount, b: Amount, v: nat, items: seq<Item>)
    requires AllPrices(items) && InBothForms(a, b, v)
    ensures OrderValue(items) >= 0
    ensures StayApart(v, items) ==> InBothForms(Total(a, items), Total(b, items), v + OrderValue(items))
    ensures !StayApart(v, items) ==> Total(a, items) == Total(b, items)
    decreases items
  {
    hide Floor, Ceiling, Plus, Value, Doubled, Price;
    PricesCost(items);
    if items != [] {
      var init, last := items[..|items| - 1], items[|items| - 1];
      FormsOfTotals(a, b, v, init);
      LineIsPrice(last);
      if StayApart(v, init) {
        var u := v + OrderValue(init);
        FormsStep(u, Line(last));
        assert Value(Line(last)) == ItemValue(last) by { LineValue(last); }
        BothFormsSwap(Plus(Floor(u), Line(last)), Plus(Ceiling(u), Line(last)), u + Value(Line(last)));
      }
    }
  }

  lemma BothFormsSwap(a: Amount, b: Amount, v: int)
    ensures InBothForms(a, b, v) <==> InBothForms(b, a, v)
  {}

  lemma LineIsPrice(i: Item)
    requires Price(i.cost)
    ensures Price(Line(i))
  {
    DoubledIsPrice(i.cost, Passes(i.quantity));
  }

  lemma {:induction false} DoubledIsPrice(a: Amount, n: nat)
    requires Price(a)
    ensures Price(Doubled(a, n))
    decreases n
  {
    if n > 0 {
      PricesAreClosed(a, a);
      DoubledIsPrice(Plus(a, a), n - 1);
    }
  }

  /** For one order of prices the two totals are different amounts exactly if the
      shipping cost is less than a unit and every line leaves them apart. */
  lemma TotalsDifferIff(shipping: Amount, items: seq<Item>)
    requires Normal(shipping) && Price(shipping) && AllPrices(items)
    ensures Total(Plus(Amount(0, 0), shipping), items) != Total(shipping, items)
      <==> shipping.units == 0 && shipping.nanos > 0 && StayApart(shipping.nanos, items)
  {
    hide Plus, Floor, Ceiling, StayApart, Total, Price;
    PlusNothing(shipping);
    if shipping.units == 0 && shipping.nanos > 0 {
      FormsOfTotals(Plus(Amount(0, 0), shipping), shipping, shipping.nanos, items);
      FormsDiffer(Total(Plus(Amount(0, 0), shipping), items), Total(shipping, items),
                  shipping.nanos + OrderValue(items));
    }
  }

  lemma PlusNothing(a: Amount)
    requires Normal(a) && Price(a)
    ensures a.units != 0 || a.nanos == 0 ==> Plus(Amount(0, 0), a) == a
    ensures a.units == 0 && a.nanos != 0 ==> a.nanos > 0 && InBothForms(Plus(Amount(0, 0), a), a, a.nanos)
  {
    hide Plus;
    PlusToNothing(a);
    if a.units == 0 && a.nanos != 0 {
      BelowOne(a.nanos);
    }
  }

  lemma BelowOne(v: int)
    requires 0 < v < NANOSMOD
    ensures v / NANOSMOD == 0 && v % NANOSMOD == v
  {}

  lemma FormsDiffer(a: Amount, b: Amount, v: int)
    ensures InBothForms(a, b, v) ==> a != b
  {}

  /** Where every line amount is normal, they differ exactly on totals below one unit. */
  lemma {:induction false} ApartIsSmall(v: nat, items: seq<Item>)
    requires 0 < v < NANOSMOD && AllPrices(items) && forall i :: 0 <= i < |items| ==> Normal(Line(items[i]))
    ensures StayApart(v, items) <==> v + OrderValue(items) < NANOSMOD
    decreases items
  {
    hide Doubled, Price;
    if items != [] {
      var init, last := items[..|items| - 1], items[|items| - 1];
      ApartIsSmall(v, init);
      PricesCost(init);
      LineIsPrice(last);
      PriceIsNotNegative(Line(last));
      assert Normal(Line(last));
      assert Value(Line(last)) == ItemValue(last) by { LineValue(last); }
    }
  }

  lemma PriceIsNotNegative(a: Amount)
    requires Price(a)
    ensures a.units >= 0 && Value(a) >= 0 && -NANOSMOD < a.nanos < NANOSMOD
  {}

  /** Quantity times price, summed over the order. */
  function IntendedValue(items: seq<Item>): int {
    if items == [] then 0
    else IntendedValue(items[..|items| - 1]) + items[|items| - 1].quantity * Value(items[|items| - 1].cost)
  }

  predicate MultipliedRight(i: Item) {
    i.quantity == 1 || i.quantity == 2 || Value(i.cost) == 0
  }

  lemma NeverTooLittle(i: Item)
    requires Value(i.cost) >= 0
    ensures ItemValue(i) >= i.quantity * Value(i.cost)
    ensures ItemValue(i) == i.quantity * Value(i.cost) <==> MultipliedRight(i)
  {
    hide Pow2, Passes, Value;
    MultipliesIff(i.cost, i.quantity);
    LineValue(i);
    PowerAtLeast(i.quantity);
    Scale(Value(i.cost), Pow2(Passes(i.quantity)), i.quantity);
  }

  lemma PowerAtLeast(n: nat)
    ensures Pow2(Passes(n)) >= n
  {
    if n >= 3 {
      PowerGrows(n - 1);
    } else {
      assert Pow2(1) == 2 * Pow2(0) && Pow2(0) == 1;
    }
  }

  lemma Scale(v: nat, p: nat, n: nat)
    requires p >= n
    ensures v * p >= n * v
  {}

  /** Customers are never charged too little, and the right amount exactly if every
      item is ordered once or twice or is free. */
  lemma {:induction false} ChargesRightIff(items: seq<Item>)
    requires forall i :: 0 <= i < |items| ==> Value(items[i].cost) >= 0
    ensures OrderValue(items) >= IntendedValue(items)
    ensures OrderValue(items) == IntendedValue(items) <==> forall i :: 0 <= i < |items| ==> MultipliedRight(items[i])
  {
    hide MultipliedRight, ItemValue, Value;
    if items != [] {
      var init, last := items[..|items| - 1], items[|items| - 1];
      ChargesRightIff(init);
      NeverTooLittle(last);
      assert forall i :: 0 <= i < |init| ==> init[i] == items[i];
    }
  }

  // ---------------------------------------------------------------- overflow

  /** Every addition of an order's total stays within the integer types. */
  ghost predicate DoublingFits(a: Amount, n: nat)
    decreases n
  {
    n == 0 || (PlusFits(a, a) && DoublingFits(Plus(a, a), n - 1))
  }

  ghost predicate TotalFits(start: Amount, items: seq<Item>) {
    items == [] ||
    (var init, last := items[..|items| - 1], items[|items| - 1];
     TotalFits(start, init) && DoublingFits(last.cost, Passes(last.quantity))
     && PlusFits(Total(start, init), Doubled(last.cost, Passes(last.quantity))))
  }

  /** Just under the largest amount that sixty-four bits of units can hold. */
  const LIMIT: int := (0x8000_0000_0000_0000 - 2) * NANOSMOD

  lemma PlusInRange(a: Amount, b: Amount)
    requires Price(a) && Price(b) && Value(a) + Value(b) <= LIMIT
    ensures PlusFits(a, b) && Price(Plus(a, b)) && Value(Plus(a, b)) == Value(a) + Value(b)
  {
    PlusConserves(a, b);
    PricesAreClosed(a, b);
  }

  lemma {:induction false} DoublingInRange(a: Amount, n: nat)
    requires Price(a) && Value(a) * Pow2(n) <= LIMIT
    ensures DoublingFits(a, n) && Price(Doubled(a, n))
    decreases n
  {
    hide Value, Price, Plus, Pow2;
    NotNegative(a);
    if n > 0 {
      HalfOf(Value(a), n);
      PlusInRange(a, a);
      DoublingInRange(Plus(a, a), n - 1);
    }
  }

  lemma NotNegative(a: Amount)
    requires Price(a)
    ensures Value(a) >= 0
  {}

  lemma HalfOf(v: nat, n: nat)
    requires n > 0
    ensures v * Pow2(n) == (v + v) * Pow2(n - 1) >= v + v
  {
    PowerPositive(n - 1);
    var p := Pow2(n - 1);
    hide Pow2;
    assert v * (2 * p) == (v + v) * p;
    Scale(v + v, p, 1);
  }

  lemma {:induction false} PowerPositive(n: nat)
    ensures Pow2(n) >= 1
  {
    if n > 0 {
      PowerPositive(n - 1);
    }
  }

  /** Of prices, an order whose total is below the limit never overflows. */
  lemma {:induction false} ItemsFit(start: Amount, items: seq<Item>)
    requires Price(start) && AllPrices(items)
    requires Value(start) + OrderValue(items) <= LIMIT
    ensures TotalFits(start, items) && Price(Total(start, items)) && OrderValue(items) >= 0
  {
    if items != [] {
      var init, last := items[..|items| - 1], items[|items| - 1];
      PricesCost(init);
      ItemIsNotNegative(last);
      ItemsFit(start, init);
      TotalValue(start, init);
      LineValue(last);
      DoublingInRange(last.cost, Passes(last.quantity));
      PlusInRange(Total(start, init), Doubled(last.cost, Passes(last.quantity)));
    }
  }

  /** Neither service overflows on an order of prices below the limit. */
  lemma OrderFits(shipping: Amount, items: seq<Item>)
    requires Price(shipping) && AllPrices(items)
    requires Value(shipping) + OrderValue(items) <= LIMIT
    ensures PlusFits(Amount(0, 0), shipping) && TotalFits(Plus(Amount(0, 0), shipping), items)
    ensures TotalFits(shipping, items)
  {
    PricesCost(items);
    PlusInRange(Amount(0, 0), shipping);
    ItemsFit(Plus(Amount(0, 0), shipping), items);
    ItemsFit(shipping, items);
  }

  lemma {:induction false} PricesCost(items: seq<Item>)
    requires AllPrices(items)
    ensures OrderValue(items) >= 0
  {
    hide ItemValue, Value;
    if items != [] {
      PricesCost(items[..|items| - 1]);
      ItemIsNotNegative(items[|items| - 1]);
    }
  }

  lemma ItemIsNotNegative(i: Item)
    requires Price(i.cost)
    ensures ItemValue(i) >= 0
  {
    hide Pow2;
    PowerPositive(Passes(i.quantity));
    LineValue(i);
  }

  lemma {:induction false} TotalIsPrice(start: Amount, items: seq<Item>)
    requires Price(start) && AllPrices(items)
    ensures Price(Total(start, items))
  {
    hide Price, Plus;
    if items != [] {
      TotalIsPrice(start, items[..|items| - 1]);
      LineIsPrice(items[|items| - 1]);
      PricesAreClosed(Total(start, items[..|items| - 1]), Line(items[|items| - 1]));
    }
  }

  /** Conversely, an order whose additions all stay within their types comes to less
      than 2^63 units. */
  lemma FittingIsBounded(start: Amount, items: seq<Item>)
    requires Price(start) && Fits(start) && AllPrices(items) && TotalFits(start, items)
    ensures Value(start) + OrderValue(items) < 0x8000_0000_0000_0000 * NANOSMOD
  {
    TotalValue(start, items);
    TotalIsPrice(start, items);
    assert Fits(Total(start, items));
  }

  /** One unit, ordered seventy times. */
  lemma SeventyOverflow()
    ensures !TotalFits(Amount(0, 0), [Item(Amount(1, 0), 70)])
  {
    hide TotalFits, OrderValue, Doubled, Pow2;
    var one, times := Item(Amount(1, 0), 70), 69;
    OneLine(one);
    PowersUpTo(63, 6);
    PowerSplits(63, 6);
    assert 63 + 6 == times;
    if TotalFits(Amount(0, 0), [one]) {
      FittingIsBounded(Amount(0, 0), [one]);
    }
  }

  lemma OneLine(i: Item)
    ensures OrderValue([i]) == Value(i.cost) * Pow2(Passes(i.quantity))
  {
    hide Pow2;
    LineValue(i);
    assert [i][..0] == [];
  }

  lemma {:induction false} PowerSplits(m: nat, n: nat)
    ensures Pow2(m + n) == Pow2(m) * Pow2(n)
  {
    if n > 0 {
      PowerSplits(m, n - 1);
    }
  }

  lemma PowersUpTo(n: nat, m: nat)
    requires n == 63 && m == 6
    ensures Pow2(n) == 0x8000_0000_0000_0000 && Pow2(m) == 64
  {
    PowerSplits(32, 31);
    PowerSplits(16, 16);
    PowerSplits(16, 15);
    PowerSplits(8, 8);
    PowerSplits(8, 7);
    assert Pow2(8) == 256 && Pow2(7) == 128 && Pow2(6) == 64;
  }
}
