/** The handlers of the three asynchronous services, by the calls they make: that these
    are the services each is connected to, and how often each is asked. */
module Handlers {
  import opened Coroutines
  import opened ServiceSystem
  import opened SystemRuns

  /** A call to a service, which does `theirs`. */
  datatype OneCall = OneCall(service: nat, theirs: Plan)

  function To(service: nat): OneCall { OneCall(service, Reply) }

  /** Calls one after another, and the reply. */
  function Script(calls: seq<OneCall>): Plan {
    if calls == [] then Reply else Call(calls[0].service, calls[0].theirs, Script(calls[1..]))
  }

  function Repeat(calls: seq<OneCall>, n: nat): seq<OneCall> {
    if n == 0 then [] else calls + Repeat(calls, n - 1)
  }

  // ------------------------------------------------------------ the handlers

  const LIST_RECOMMENDATIONS: seq<OneCall> := [To(PRODUCTCATALOG)]

  const RECOMMEND: OneCall := OneCall(RECOMMENDATION, Script(LIST_RECOMMENDATIONS))

  /** `PlaceOrder` of the checkout service on a cart of `n` items: the cart; product and
      price of each; quote and its price; charge, shipment, emptied cart, confirmation. */
  function PlaceOrder(n: nat): seq<OneCall> {
    [To(CART)] + Repeat([To(PRODUCTCATALOG), To(CURRENCY)], n)
    + [To(SHIPPING), To(CURRENCY), To(PAYMENT), To(SHIPPING), To(CART), To(EMAIL)]
  }

  /** The handlers of the frontend; `n` is the number of products listed, or in the cart. */
  datatype Page = Home(n: nat) | Product | ViewCart(n: nat) | AddToCart | EmptyCart | Order(n: nat) | NoCalls

  function CallsOf(page: Page): seq<OneCall> {
    match page
    case Home(n) =>
      [To(CURRENCY), To(CART), To(PRODUCTCATALOG)] + Repeat([To(CURRENCY)], n) + [To(AD)]
    case Product => [To(PRODUCTCATALOG), To(CURRENCY), To(CART), To(CURRENCY), RECOMMEND, To(AD)]
    case ViewCart(n) =>
      [To(CURRENCY), To(CART), RECOMMEND, To(SHIPPING), To(CURRENCY)] + Repeat([To(PRODUCTCATALOG), To(CURRENCY)], n)
    case AddToCart => [To(PRODUCTCATALOG), To(CART)]
    case EmptyCart => [To(CART)]
    case Order(n) => [OneCall(CHECKOUT, Script(PlaceOrder(n))), RECOMMEND, To(CURRENCY)]
    case NoCalls => []
  }

  // ------------------------------------------------------ who may call whom

  predicate Allowed(s: nat, c: OneCall) {
    c.service in Dependencies(s) && PlanOk(c.service, c.theirs)
  }

  lemma {:induction false} ScriptOk(s: nat, calls: seq<OneCall>)
    requires forall c :: c in calls ==> Allowed(s, c)
    ensures PlanOk(s, Script(calls))
  {
    if calls != [] {
      assert Allowed(s, calls[0]);
      ScriptOk(s, calls[1..]);
    }
  }

  lemma {:induction false} RepeatOk(s: nat, calls: seq<OneCall>, n: nat)
    requires forall c :: c in calls ==> Allowed(s, c)
    ensures forall c :: c in Repeat(calls, n) ==> Allowed(s, c)
  {
    if n > 0 {
      RepeatOk(s, calls, n - 1);
    }
  }

  lemma PlaceOrderOk(n: nat)
    ensures forall c :: c in PlaceOrder(n) ==> Allowed(CHECKOUT, c)
  {
    RepeatOk(CHECKOUT, [To(PRODUCTCATALOG), To(CURRENCY)], n);
  }

  lemma PageOk(page: Page)
    ensures forall c :: c in CallsOf(page) ==> Allowed(FRONTEND, c)
  {
    hide Repeat, PlaceOrder;
    match page {
      case Home(n) => RepeatOk(FRONTEND, [To(CURRENCY)], n);
      case ViewCart(n) =>
        RepeatOk(FRONTEND, [To(PRODUCTCATALOG), To(CURRENCY)], n);
        ScriptOk(RECOMMENDATION, LIST_RECOMMENDATIONS);
      case Order(n) =>
        PlaceOrderOk(n);
        ScriptOk(CHECKOUT, PlaceOrder(n));
        ScriptOk(RECOMMENDATION, LIST_RECOMMENDATIONS);
      case Product => ScriptOk(RECOMMENDATION, LIST_RECOMMENDATIONS);
      case _ =>
    }
  }

  /** Every handler calls only services its own is connected to, all the way down. */
  lemma HandlersOk(page: Page, n: nat)
    ensures PlanOk(RECOMMENDATION, Script(LIST_RECOMMENDATIONS))
    ensures PlanOk(CHECKOUT, Script(PlaceOrder(n)))
    ensures PlanOk(FRONTEND, Script(CallsOf(page)))
  {
    hide CallsOf, PlaceOrder, Script;
    ScriptOk(RECOMMENDATION, LIST_RECOMMENDATIONS);
    PlaceOrderOk(n);
    ScriptOk(CHECKOUT, PlaceOrder(n));
    PageOk(page);
    ScriptOk(FRONTEND, CallsOf(page));
  }

  predicate Asks(calls: seq<OneCall>, d: nat) {
    exists c :: c in calls && c.service == d
  }

  lemma AsksAt(calls: seq<OneCall>, i: nat)
    requires i < |calls|
    ensures Asks(calls, calls[i].service)
  {
    assert calls[i] in calls;
  }

  /** Checkout is connected to exactly the services that an order that is not empty asks. */
  lemma CheckoutAsks(n: nat, d: nat)
    requires n > 0
    ensures d in Dependencies(CHECKOUT) <==> Asks(PlaceOrder(n), d)
  {
    var each := [To(PRODUCTCATALOG), To(CURRENCY)];
    var calls := PlaceOrder(n);
    PlaceOrderOk(n);
    assert Repeat(each, n) == each + Repeat(each, n - 1);
    AsksAt(calls, 0);
    AsksAt(calls, 1);
    AsksAt(calls, 2);
    AsksAt(calls, |calls| - 6);
    AsksAt(calls, |calls| - 4);
    AsksAt(calls, |calls| - 1);
  }

  /** The frontend to exactly the services that some page asks. */
  lemma FrontendAsks(d: nat)
    ensures d in Dependencies(FRONTEND) <==> exists page :: Asks(CallsOf(page), d)
  {
    hide Allowed, PlanOk, Repeat, Script, PlaceOrder, Asks;
    if page :| Asks(CallsOf(page), d) {
      PageAsks(page, d);
    }
    if d in Dependencies(FRONTEND) {
      AsksAt(CallsOf(Product), 0);
      AsksAt(CallsOf(Product), 1);
      AsksAt(CallsOf(Product), 2);
      AsksAt(CallsOf(Product), 4);
      AsksAt(CallsOf(Product), 5);
      AsksAt(CallsOf(ViewCart(0)), 3);
      AsksAt(CallsOf(Order(0)), 0);
    }
  }

  lemma PageAsks(page: Page, d: nat)
    requires Asks(CallsOf(page), d)
    ensures d in Dependencies(FRONTEND)
  {
    hide CallsOf, PlanOk;
    PageOk(page);
  }

  /** And recommendation to the one service it asks. */
  lemma RecommendationAsks(d: nat)
    ensures d in Dependencies(RECOMMENDATION) <==> Asks(LIST_RECOMMENDATIONS, d)
  {
    AsksAt(LIST_RECOMMENDATIONS, 0);
  }

  lemma {:induction false} RepeatAt(a: OneCall, b: OneCall, n: nat)
    ensures |Repeat([a, b], n)| == 2 * n
    ensures forall k :: 0 <= k < 2 * n ==> Repeat([a, b], n)[k] == if k % 2 == 0 then a else b
  {
    if n > 0 {
      RepeatAt(a, b, n - 1);
      assert forall k :: 2 <= k < 2 * n ==> Repeat([a, b], n)[k] == Repeat([a, b], n - 1)[k - 2];
    }
  }

  /** Call by call: every price is known before the charge, and the charge is made before
      anything is shipped, the cart emptied or a mail sent. */
  lemma OrderGoes(n: nat)
    ensures var calls := PlaceOrder(n);
      && |calls| == 2 * n + 7 && calls[0] == To(CART)
      && (forall k :: 0 <= k < n ==> calls[2 * k + 1] == To(PRODUCTCATALOG) && calls[2 * k + 2] == To(CURRENCY))
      && calls[2 * n + 1] == To(SHIPPING) && calls[2 * n + 2] == To(CURRENCY) && calls[2 * n + 3] == To(PAYMENT)
      && calls[2 * n + 4] == To(SHIPPING) && calls[2 * n + 5] == To(CART) && calls[2 * n + 6] == To(EMAIL)
  {
    var each := Repeat([To(PRODUCTCATALOG), To(CURRENCY)], n);
    RepeatAt(To(PRODUCTCATALOG), To(CURRENCY), n);
    forall k | 0 <= k < n
      ensures PlaceOrder(n)[2 * k + 1] == To(PRODUCTCATALOG) && PlaceOrder(n)[2 * k + 2] == To(CURRENCY)
    {
      assert PlaceOrder(n)[2 * k + 1] == each[2 * k] && PlaceOrder(n)[2 * k + 2] == each[2 * k + 1];
    }
  }

  // ---------------------------------------------------- how often each is asked

  function CallWeight(t: Tally, c: OneCall): nat { RequestPrice(t, c.service) + Weight(t, c.theirs) }

  lemma {:induction false} ScriptJoin(t: Tally, a: seq<OneCall>, b: seq<OneCall>)
    ensures Weight(t, Script(a + b)) + ReplyPrice(t) == Weight(t, Script(a)) + Weight(t, Script(b))
  {
    if a == [] {
      assert a + b == b;
    } else {
      assert (a + b)[1..] == a[1..] + b;
      ScriptJoin(t, a[1..], b);
    }
  }

  lemma {:induction false} RepeatWeighs(s: nat, calls: seq<OneCall>, n: nat)
    ensures Weight(RequestsTo(s), Script(Repeat(calls, n))) == n * Weight(RequestsTo(s), Script(calls))
    decreases n
  {
    hide Weight, Script;
    var each := Weight(RequestsTo(s), Script(calls));
    if n == 0 {
      NothingAsksNothing(s);
    } else {
      RepeatWeighs(s, calls, n - 1);
      ScriptJoin(RequestsTo(s), calls, Repeat(calls, n - 1));
      assert n * each == each + (n - 1) * each;
    }
  }

  lemma NothingAsksNothing(s: nat)
    ensures Weight(RequestsTo(s), Script([])) == 0
  {}

  lemma {:induction false} ScriptFirst(t: Tally, c: OneCall, calls: seq<OneCall>)
    ensures Weight(t, Script([c] + calls)) == CallWeight(t, c) + Weight(t, Script(calls))
  {
    assert ([c] + calls)[1..] == calls;
  }

  /** An order of `n` items asks for one charge, one mail, two shipping answers, the cart
      twice, and for each item a product and a price, with one more for the shipping. */
  lemma OrderAsks(s: nat, n: nat)
    ensures Weight(RequestsTo(s), Script(PlaceOrder(n)))
      == if s == PAYMENT || s == EMAIL then 1
         else if s == SHIPPING || s == CART then 2
         else if s == PRODUCTCATALOG then n
         else if s == CURRENCY then n + 1
         else 0
  {
    hide Script, Weight;
    var t, each := RequestsTo(s), [To(PRODUCTCATALOG), To(CURRENCY)];
    var tail := [To(SHIPPING), To(CURRENCY), To(PAYMENT), To(SHIPPING), To(CART), To(EMAIL)];
    RepeatWeighs(s, each, n);
    ScriptJoin(t, [To(CART)] + Repeat(each, n), tail);
    ScriptFirst(t, To(CART), Repeat(each, n));
    ScriptWeighs2(t, To(PRODUCTCATALOG), To(CURRENCY));
    ScriptWeighs2(t, To(SHIPPING), To(CURRENCY));
    ScriptWeighs2(t, To(PAYMENT), To(SHIPPING));
    ScriptWeighs2(t, To(CART), To(EMAIL));
    ScriptJoin(t, [To(SHIPPING), To(CURRENCY)], [To(PAYMENT), To(SHIPPING)]);
    assert tail == [To(SHIPPING), To(CURRENCY)] + [To(PAYMENT), To(SHIPPING)] + [To(CART), To(EMAIL)];
    ScriptJoin(t, [To(SHIPPING), To(CURRENCY)] + [To(PAYMENT), To(SHIPPING)], [To(CART), To(EMAIL)]);
  }

  lemma ScriptWeighs2(t: Tally, a: OneCall, b: OneCall)
    requires a.theirs == b.theirs == Reply && t.RequestsTo?
    ensures Weight(t, Script([a, b])) == RequestPrice(t, a.service) + RequestPrice(t, b.service)
    ensures Weight(t, a.theirs) == 0
  {
    assert [a, b][1..] == [b] && [b][1..] == [];
    assert Script([b]) == Call(b.service, Reply, Reply);
    assert Script([a, b]) == Call(a.service, Reply, Script([b]));
  }

  // ------------------------------------------------------------ runs of pages

  /** Calls to services that ask neither `s` nor anyone that does. */
  lemma {:induction false} NeverAsked(s: nat, calls: seq<OneCall>)
    requires forall c :: c in calls ==> CallWeight(RequestsTo(s), c) == 0
    ensures Weight(RequestsTo(s), Script(calls)) == 0
  {
    hide CallWeight;
    if calls != [] {
      assert [calls[0]] + calls[1..] == calls;
      ScriptFirst(RequestsTo(s), calls[0], calls[1..]);
      NeverAsked(s, calls[1..]);
    }
  }

  lemma {:induction false} RepeatHas(calls: seq<OneCall>, n: nat)
    ensures forall c :: c in Repeat(calls, n) ==> c in calls
  {
    if n > 0 {
      RepeatHas(calls, n - 1);
    }
  }

  /** Only an order leads to a charge and a mail, and to one of each. */
  lemma PageCharges(s: nat, page: Page)
    requires s == PAYMENT || s == EMAIL
    ensures Weight(RequestsTo(s), Script(CallsOf(page))) == if page.Order? then 1 else 0
  {
    hide Repeat, PlaceOrder, Weight, Script;
    ScriptFirst(RequestsTo(s), To(PRODUCTCATALOG), []);
    NothingAsksNothing(s);
    ScriptWeighs2(RequestsTo(s), To(PRODUCTCATALOG), To(CURRENCY));
    assert [To(PRODUCTCATALOG)] + [] == LIST_RECOMMENDATIONS;
    if page.Order? {
      var rest := [RECOMMEND, To(CURRENCY)];
      OrderAsks(s, page.n);
      NeverAsked(s, rest);
      ScriptFirst(RequestsTo(s), OneCall(CHECKOUT, Script(PlaceOrder(page.n))), rest);
      assert [OneCall(CHECKOUT, Script(PlaceOrder(page.n)))] + rest == CallsOf(page);
    } else {
      if page.Home? {
        RepeatHas([To(CURRENCY)], page.n);
      } else if page.ViewCart? {
        RepeatHas([To(PRODUCTCATALOG), To(CURRENCY)], page.n);
      }
      NeverAsked(s, CallsOf(page));
    }
  }

  /** A run whose requests are for these pages; `pages[k]` is of interest if `run[k]` is
      an arrival. */
  predicate Visits(run: seq<Action>, pages: seq<Page>) {
    |pages| == |run|
    && forall k :: 0 <= k < |run| && run[k].Arrives? ==> run[k].plan == Script(CallsOf(pages[k]))
  }

  function Orders(run: seq<Action>, pages: seq<Page>): nat
    requires |pages| == |run|
  {
    if run == [] then 0
    else (if run[0].Arrives? && pages[0].Order? then 1 else 0) + Orders(run[1..], pages[1..])
  }

  lemma {:induction false} OrdersAsk(s: nat, run: seq<Action>, pages: seq<Page>)
    requires Visits(run, pages) && (s == PAYMENT || s == EMAIL)
    ensures AskedFor(RequestsTo(s), run) == Orders(run, pages)
  {
    hide Weight, Script, CallsOf;
    if run != [] {
      OrdersAsk(s, run[1..], pages[1..]);
      PageCharges(s, pages[0]);
    }
  }

  /** In every run, in whatever order the services work and in whatever bulks they read:
      when no service can go on, the card has been charged once for each order that
      arrived, and one mail sent, whatever else was asked for. */
  lemma EveryOrderIsChargedOnce(run: seq<Action>, pages: seq<Page>)
    requires IsRun(Booted(), run) && Visits(run, pages)
    requires forall i :: !Enabled(StateAfter(Booted(), run), i)
    ensures HandledIn(RequestsTo(PAYMENT), Booted(), run) == Orders(run, pages)
    ensures HandledIn(RequestsTo(EMAIL), Booted(), run) == Orders(run, pages)
  {
    hide Enabled, HandledIn, AskedFor, Orders, Visits, Idle, Unrefused;
    EveryRequestIsAnswered(run);
    OrdersAsk(PAYMENT, run, pages);
    OrdersAsk(EMAIL, run, pages);
  }
}
