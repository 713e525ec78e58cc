/** The card validator of the payment service, against the modulus-10 ("double-add-
    double") formula of Annex B of ISO/IEC 7812-1. */
module Luhn {
  import opened Basics

  type Digit = d: nat | d < 10

  /** The decimal digits of a number, units first. */
  function DigitsOf(n: nat): (ds: seq<Digit>)
    ensures |ds| > 0
  {
    if n < 10 then [n] else [n % 10] + DigitsOf(n / 10)
  }

  function FromDigits(ds: seq<Digit>): nat {
    if ds == [] then 0 else ds[0] + 10 * FromDigits(ds[1..])
  }

  /** A doubled digit above nine counts as the sum of its two digits. */
  function Doubled(d: Digit): Digit {
    if d < 5 then 2 * d else 2 * d - 9
  }

  /** What the digit `i` places left of the check digit contributes. */
  function Weight(i: nat, d: Digit): Digit {
    if i % 2 == 1 then Doubled(d) else d
  }

  function LuhnSum(ds: seq<Digit>): nat {
    if ds == [] then 0 else LuhnSum(ds[..|ds| - 1]) + Weight(|ds| - 1, ds[|ds| - 1])
  }

  predicate Passes(n: nat) {
    LuhnSum(DigitsOf(n)) % 10 == 0
  }

  /** The two leading digits as one number. */
  function Leading(ds: seq<Digit>): nat
    requires ds != []
  {
    var first: nat := ds[|ds| - 1];
    10 * first + if |ds| > 1 then ds[|ds| - 2] else 0
  }

  // ----------------------------------------------------------- the validator

  datatype CardType = Amex | Mastercard | Visa | Invalid

  /** `get_digits` with an exact logarithm: one less than the number of digits. Below
      one there is no logarithm, and the answer may be anything. */
  method GetDigits(num: int) returns (r: int)
    ensures num > 0 ==> r == |DigitsOf(num)| - 1
  {
    if num <= 0 {
      r := *;
      return;
    }
    var n := num;
    r := 0;
    while n >= 10
      invariant n > 0 && r + |DigitsOf(n)| == |DigitsOf(num)|
    {
      n := n / 10;
      r := r + 1;
    }
  }

  function GetDigitSum(n: int): int { Quotient(n, 10) + Remainder(n, 10) }

  /** The type of a card from its number. */
  method CreditcardValidator(card: int) returns (cardType: CardType)
    ensures card <= 0 ==> cardType == Invalid
    ensures card > 0 ==>
      && (cardType == Invalid <==> !(Passes(card) && (IsAmex(card) || IsMastercard(card) || IsVisa(card))))
      && (cardType == Amex <==> Passes(card) && IsAmex(card))
      && (cardType == Mastercard <==> Passes(card) && IsMastercard(card))
      && (cardType == Visa <==> Passes(card) && IsVisa(card))
  {
    hide DigitsOf, LuhnSum, Doubled, GetDigitSum;
    ghost var ds := if card > 0 then DigitsOf(card) else [0];
    NoDigits(ds);
    var digits := GetDigits(card);
    var sum, firstDigits := 0, 0;
    digits := digits + 1;
    var creditCard := card;
    var i := 0;
    while i < digits
      invariant 0 <= i && (card > 0 ==> i <= digits == |ds| && Read(ds, i, creditCard, sum, firstDigits))
      invariant card <= 0 ==> creditCard <= 0 && firstDigits <= 0
    {
      if card > 0 {
        NextDigit(ds, i, creditCard);
      }
      if i % 2 == 1 {
        sum := sum + GetDigitSum(2 * Remainder(creditCard, 10));
      } else {
        sum := sum + Remainder(creditCard, 10);
      }
      if i == digits - 2 {
        firstDigits := Remainder(creditCard, 10);
      } else if i == digits - 1 {
        firstDigits := firstDigits + Remainder(creditCard, 10) * 10;
      }
      creditCard := Quotient(creditCard, 10);
      i := i + 1;
    }
    assert card > 0 ==> ds[..digits] == ds;
    if Remainder(sum, 10) == 0 {
      if digits == 15 && (firstDigits == 34 || firstDigits == 37) {
        cardType := Amex;
      } else if digits == 16 && (50 <= firstDigits <= 55 || 22 <= firstDigits <= 27) {
        cardType := Mastercard;
      } else if 13 <= digits <= 16 && Quotient(firstDigits, 10) == 4 {
        cardType := Visa;
      } else {
        cardType := Invalid;
      }
    } else {
      cardType := Invalid;
    }
  }

  /** The loop after `i` digits. */
  ghost predicate Read(ds: seq<Digit>, i: nat, rest: int, sum: int, first: int) {
    && i <= |ds| && sum == LuhnSum(ds[..i]) && rest >= 0
    && (i < |ds| ==> DigitsOf(rest) == ds[i..])
    && first == if 0 < i == |ds| then Leading(ds) else if 0 < i == |ds| - 1 then ds[i - 1] else 0
  }

  lemma NoDigits(ds: seq<Digit>)
    ensures LuhnSum(ds[..0]) == 0 && ds[0..] == ds
  {}

  /** One turn of the loop takes the next digit. */
  lemma NextDigit(ds: seq<Digit>, i: nat, n: nat)
    requires i < |ds| && DigitsOf(n) == ds[i..]
    ensures n % 10 == ds[i] && (i + 1 < |ds| ==> DigitsOf(n / 10) == ds[i + 1..])
    ensures LuhnSum(ds[..i + 1]) == LuhnSum(ds[..i]) + if i % 2 == 1 then GetDigitSum(2 * (n % 10)) else n % 10
    ensures Remainder(n, 10) == n % 10 && Quotient(n, 10) == n / 10
  {
    hide LuhnSum;
    FirstDigit(n);
    assert ds[i..][0] == ds[i] && ds[i..][1..] == ds[i + 1..];
    assert ds[..i + 1] == ds[..i] + [ds[i]];
    LuhnMore(ds[..i], ds[i]);
    NotNegative(n);
  }

  lemma FirstDigit(n: nat)
    ensures DigitsOf(n) != [] && DigitsOf(n)[0] == n % 10
    ensures |DigitsOf(n)| > 1 ==> DigitsOf(n)[1..] == DigitsOf(n / 10)
  {}

  lemma LuhnMore(ds: seq<Digit>, d: Digit)
    ensures LuhnSum(ds + [d]) == LuhnSum(ds) + if |ds| % 2 == 1 then GetDigitSum(2 * d) else d
  {
    hide GetDigitSum, Doubled;
    LuhnOne(ds, d);
    DoubledIs(d);
  }

  lemma LuhnOne(ds: seq<Digit>, d: Digit)
    ensures LuhnSum(ds + [d]) == LuhnSum(ds) + Weight(|ds|, d)
  {
    hide Weight;
    assert (ds + [d])[..|ds|] == ds;
  }

  lemma DoubledIs(d: Digit)
    ensures GetDigitSum(2 * d) == Doubled(d)
  {}

  lemma NotNegative(n: nat)
    ensures Remainder(n, 10) == n % 10 && Quotient(n, 10) == n / 10
  {}

  predicate IsAmex(card: nat) {
    |DigitsOf(card)| == 15 && Leading(DigitsOf(card)) in {34, 37}
  }

  predicate IsMastercard(card: nat) {
    |DigitsOf(card)| == 16 && (22 <= Leading(DigitsOf(card)) <= 27 || 50 <= Leading(DigitsOf(card)) <= 55)
  }

  predicate IsVisa(card: nat) {
    13 <= |DigitsOf(card)| <= 16 && DigitsOf(card)[|DigitsOf(card)| - 1] == 4
  }

  const DEFAULT_UUID := "1b4e28ba-2fa1-11d2-883f-0016d3cca427"

  /** The charge message; the card number is the value `strtoll` reads. */
  class ChargeRR {
    const cardNumber: int
    const year: int
    const month: int
    var transactionId: string

    predicate Accepted() {
      && cardNumber > 0 && Passes(cardNumber) && (IsVisa(cardNumber) || IsMastercard(cardNumber))
      && 12 * year + month >= 12 * 2022 + 5
    }

    constructor (cardNumber: int, year: int, month: int, transactionId: string)
      ensures this.cardNumber == cardNumber && this.year == year && this.month == month
      ensures this.transactionId == transactionId
    {
      this.cardNumber, this.year, this.month, this.transactionId := cardNumber, year, month, transactionId;
    }

    /** Only a valid Visa or MasterCard that has not expired gets a transaction. */
    method Charge()
      modifies this
      ensures transactionId == if Accepted() then DEFAULT_UUID else old(transactionId)
    {
      var cardType := CreditcardValidator(cardNumber);
      if cardType == Invalid {
        return;
      }
      if cardType != Visa && cardType != Mastercard {
        return;
      }
      var currentMonth, currentYear := 5, 2022;
      if currentYear * 12 + currentMonth > year * 12 + month {
        return;
      }
      transactionId := DEFAULT_UUID;
    }
  }

  // ---------------------------------------------------- card numbers as intervals

  function Pow10(n: nat): nat {
    if n == 0 then 1 else 10 * Pow10(n - 1)
  }

  lemma {:induction false} LengthIs(n: nat, k: nat)
    requires n > 0
    ensures |DigitsOf(n)| == k + 1 <==> Pow10(k) <= n < Pow10(k + 1)
  {
    if n < 10 {
      if k > 0 {
        AtLeastOne(k - 1);
      }
    } else if k > 0 {
      LengthIs(n / 10, k - 1);
    }
  }

  lemma {:induction false} AtLeastOne(k: nat)
    ensures Pow10(k) >= 1
  {
    if k > 0 {
      AtLeastOne(k - 1);
    }
  }

  /** The two leading digits, from below and above. */
  lemma {:induction false} LeadingIs(n: nat)
    requires n >= 10
    ensures |DigitsOf(n)| >= 2
    ensures var l, p := Leading(DigitsOf(n)), Pow10(|DigitsOf(n)| - 2); l * p <= n < (l + 1) * p
    ensures Leading(DigitsOf(n)) / 10 == DigitsOf(n)[|DigitsOf(n)| - 1]
  {
    var ds := DigitsOf(n);
    assert ds == [n % 10] + DigitsOf(n / 10);
    if n < 100 {
      assert DigitsOf(n / 10) == [n / 10] && Pow10(0) == 1;
    } else {
      LeadingIs(n / 10);
      var l, p := Leading(DigitsOf(n / 10)), Pow10(|ds| - 3);
      assert Leading(ds) == l && Pow10(|ds| - 2) == 10 * p;
      Tenfold(l, p, n);
    }
  }

  lemma Tenfold(l: nat, p: nat, n: nat)
    requires l * p <= n / 10 < (l + 1) * p
    ensures l * (10 * p) <= n < (l + 1) * (10 * p)
  {
    assert l * (10 * p) == 10 * (l * p) && (l + 1) * (10 * p) == 10 * ((l + 1) * p);
  }

  lemma Powers()
    ensures Pow10(11) == 100_000_000_000 && Pow10(12) == 1_000_000_000_000 && Pow10(13) == 10_000_000_000_000
    ensures Pow10(14) == 100_000_000_000_000 && Pow10(15) == 1_000_000_000_000_000
    ensures Pow10(16) == 10_000_000_000_000_000
  {
    assert Pow10(4) == 10_000;
    assert Pow10(8) == 100_000_000;
  }

  lemma AmexIs(n: nat)
    ensures IsAmex(n)
      <==> 340_000_000_000_000 <= n < 350_000_000_000_000 || 370_000_000_000_000 <= n < 380_000_000_000_000
  {
    hide DigitsOf, Pow10, Leading;
    Powers();
    if n >= 10 {
      LengthIs(n, 14);
      LeadingIs(n);
    } else {
      ShortIs(n);
    }
  }

  lemma MastercardIs(n: nat)
    ensures IsMastercard(n)
      <==> 2200_0000_0000_0000 <= n < 2800_0000_0000_0000 || 5000_0000_0000_0000 <= n < 5600_0000_0000_0000
  {
    hide DigitsOf, Pow10, Leading;
    Powers();
    if n >= 10 {
      LengthIs(n, 15);
      LeadingIs(n);
    } else {
      ShortIs(n);
    }
  }

  lemma VisaIs(n: nat)
    ensures IsVisa(n)
      <==> || 4_000_000_000_000 <= n < 5_000_000_000_000 || 40_000_000_000_000 <= n < 50_000_000_000_000
           || 400_000_000_000_000 <= n < 500_000_000_000_000 || 4000_0000_0000_0000 <= n < 5000_0000_0000_0000
  {
    hide DigitsOf, Pow10, Leading;
    Powers();
    if n >= 10 {
      LengthIs(n, 12);
      LengthIs(n, 13);
      LengthIs(n, 14);
      LengthIs(n, 15);
      LeadingIs(n);
    } else {
      ShortIs(n);
    }
  }

  lemma ShortIs(n: nat)
    requires n < 10
    ensures DigitsOf(n) == [n]
  {}

  /** Which cards are charged, in numbers: Visa and MasterCard by their first digits and
      length, with a right check digit, until April 2022 has passed. */
  lemma AcceptedIs(c: ChargeRR)
    requires 1 <= c.month <= 12
    ensures c.Accepted() <==>
      && c.cardNumber > 0 && Passes(c.cardNumber)
      && (|| 4_000_000_000_000 <= c.cardNumber < 5_000_000_000_000
          || 40_000_000_000_000 <= c.cardNumber < 50_000_000_000_000
          || 400_000_000_000_000 <= c.cardNumber < 500_000_000_000_000
          || 4000_0000_0000_0000 <= c.cardNumber < 5000_0000_0000_0000
          || 2200_0000_0000_0000 <= c.cardNumber < 2800_0000_0000_0000
          || 5000_0000_0000_0000 <= c.cardNumber < 5600_0000_0000_0000)
      && (c.year > 2022 || (c.year == 2022 && c.month >= 5))
  {
    hide Passes, IsVisa, IsMastercard;
    if c.cardNumber > 0 {
      VisaIs(c.cardNumber);
      MastercardIs(c.cardNumber);
    }
  }

  lemma {:induction false} PairFirst(b: Digit, a: Digit, rest: seq<Digit>)
    ensures LuhnSum([b, a] + rest) == b + Doubled(a) + LuhnSum(rest)
  {
    if rest == [] {
      LuhnOne([b], a);
      LuhnOne([], b);
      assert [] + [b] == [b] && [b] + [a] == [b, a] + rest;
    } else {
      var init, last := rest[..|rest| - 1], rest[|rest| - 1];
      PairFirst(b, a, init);
      assert [b, a] + rest == [b, a] + init + [last];
      LuhnOne([b, a] + init, last);
    }
  }

  lemma LastTwo(n: nat)
    ensures n < 10 ==> DigitsOf(n) == [n]
    ensures 10 <= n < 100 ==> n / 10 < 10 && DigitsOf(n) == [n % 10, n / 10]
    ensures n >= 100 ==> DigitsOf(n) == [n % 10, n / 10 % 10] + DigitsOf(n / 100)
  {
    if n >= 100 {
      assert n / 10 / 10 == n / 100;
      assert DigitsOf(n / 10) == [n / 10 % 10] + DigitsOf(n / 10 / 10);
      assert [n % 10] + ([n / 10 % 10] + DigitsOf(n / 100)) == [n % 10, n / 10 % 10] + DigitsOf(n / 100);
    } else if n >= 10 {
      assert DigitsOf(n / 10) == [n / 10];
    }
  }

  lemma DoubledSum(d: Digit)
    ensures Doubled(d) == 2 * d / 10 + 2 * d % 10
  {}

  /** The formula in numbers: of the last two digits the one before the last counts double,
      as the sum of the digits of its double, and the digits before them as on their own. */
  lemma SumByPairs(n: nat)
    ensures n < 10 ==> LuhnSum(DigitsOf(n)) == n
    ensures n >= 10 ==>
      var a := n / 10 % 10;
      LuhnSum(DigitsOf(n)) == n % 10 + 2 * a / 10 + 2 * a % 10 + if n < 100 then 0 else LuhnSum(DigitsOf(n / 100))
  {
    hide LuhnSum, DigitsOf, Doubled;
    LastTwo(n);
    LuhnNone();
    if n < 10 {
      LuhnOne([], n);
      assert [] + [n] == [n];
    } else {
      DoubledSum(n / 10 % 10);
      PairFirst(n % 10, n / 10 % 10, if n < 100 then [] else DigitsOf(n / 100));
      assert n < 100 ==> [n % 10, n / 10 % 10] + [] == [n % 10, n / 10];
    }
  }

  lemma LuhnNone()
    ensures LuhnSum([]) == 0
  {}

  // ------------------------------------------------------- numbers and digits

  lemma {:induction false} FromDigitsOf(n: nat)
    ensures FromDigits(DigitsOf(n)) == n
  {
    if n >= 10 {
      FromDigitsOf(n / 10);
      assert DigitsOf(n)[1..] == DigitsOf(n / 10);
    } else {
      assert DigitsOf(n)[1..] == [];
    }
  }

  /** Digits with the units first are those of their number, up to leading zeros. */
  lemma {:induction false} DigitsOfFrom(ds: seq<Digit>)
    requires ds != []
    ensures var n := FromDigits(ds);
      && |DigitsOf(n)| <= |ds| && ds[..|DigitsOf(n)|] == DigitsOf(n)
      && forall k :: |DigitsOf(n)| <= k < |ds| ==> ds[k] == 0
  {
    if |ds| == 1 {
      assert ds[1..] == [];
    } else {
      var rest := ds[1..];
      var n, m := FromDigits(ds), FromDigits(rest);
      DigitsOfFrom(rest);
      assert n % 10 == ds[0] && n / 10 == m;
      forall k | 1 <= k < |ds|
        ensures ds[k] == rest[k - 1]
      {}
      if n < 10 {
        assert m == 0 && rest[..1] == [0];
        assert rest[0] == 0;
      } else {
        assert ds[..1 + |DigitsOf(m)|] == [ds[0]] + rest[..|DigitsOf(m)|];
      }
    }
  }

  /** Leading zeros add nothing. */
  lemma {:induction false} LeadingZeros(ds: seq<Digit>, k: nat)
    requires k <= |ds| && forall j :: k <= j < |ds| ==> ds[j] == 0
    ensures LuhnSum(ds) == LuhnSum(ds[..k])
  {
    if k < |ds| {
      LeadingZeros(ds[..|ds| - 1], k);
      assert ds[..|ds| - 1][..k] == ds[..k];
    } else {
      assert ds[..k] == ds;
    }
  }

  lemma PassesDigits(ds: seq<Digit>)
    requires ds != []
    ensures Passes(FromDigits(ds)) <==> LuhnSum(ds) % 10 == 0
  {
    DigitsOfFrom(ds);
    LeadingZeros(ds, |DigitsOf(FromDigits(ds))|);
  }

  // ---------------------------------------------------------- what it detects

  lemma {:induction false} SumUpdate(ds: seq<Digit>, i: nat, d: Digit)
    requires i < |ds|
    ensures LuhnSum(ds[i := d]) + Weight(i, ds[i]) == LuhnSum(ds) + Weight(i, d)
  {
    var n := |ds| - 1;
    if i < n {
      SumUpdate(ds[..n], i, d);
      assert ds[i := d][..n] == ds[..n][i := d];
    } else {
      assert ds[i := d][..n] == ds[..n];
    }
  }

  lemma Difference(x: int, y: int, d: int)
    requires x == y + d && y % 10 == 0
    ensures x % 10 == 0 <==> d % 10 == 0
  {}

  lemma WeightsDiffer(i: nat, a: Digit, b: Digit)
    requires a != b
    ensures (Weight(i, a) - Weight(i, b)) % 10 != 0
  {}

  lemma SingleErrorInDigits(ds: seq<Digit>, i: nat, d: Digit)
    requires i < |ds| && d != ds[i] && Passes(FromDigits(ds))
    ensures !Passes(FromDigits(ds[i := d]))
  {
    hide Passes, FromDigits, LuhnSum, Weight;
    PassesDigits(ds);
    PassesDigits(ds[i := d]);
    SumUpdate(ds, i, d);
    WeightsDiffer(i, d, ds[i]);
    Difference(LuhnSum(ds[i := d]), LuhnSum(ds), Weight(i, d) - Weight(i, ds[i]));
  }

  function Swapped(ds: seq<Digit>, i: nat): seq<Digit>
    requires i + 1 < |ds|
  {
    ds[i := ds[i + 1]][i + 1 := ds[i]]
  }

  lemma SwapInDigits(ds: seq<Digit>, i: nat)
    requires i + 1 < |ds| && Passes(FromDigits(ds))
    ensures Passes(FromDigits(Swapped(ds, i))) <==> ds[i] == ds[i + 1] || ZeroNine(ds[i], ds[i + 1])
  {
    hide Passes, FromDigits, LuhnSum, Weight, ZeroNine;
    var a, b := ds[i], ds[i + 1];
    PassesDigits(ds);
    PassesDigits(Swapped(ds, i));
    SumUpdate(ds, i, b);
    SumUpdate(ds[i := b], i + 1, a);
    SwapWeights(i, a, b);
    Difference(LuhnSum(Swapped(ds, i)), LuhnSum(ds), Weight(i, b) + Weight(i + 1, a) - Weight(i, a) - Weight(i + 1, b));
  }

  predicate ZeroNine(a: Digit, b: Digit) {
    (a == 0 && b == 9) || (a == 9 && b == 0)
  }

  lemma SwapWeights(i: nat, a: Digit, b: Digit)
    ensures (Weight(i, b) + Weight(i + 1, a) - Weight(i, a) - Weight(i + 1, b)) % 10 == 0 <==> a == b || ZeroNine(a, b)
  {}

  lemma TwinErrorInDigits(ds: seq<Digit>, i: nat, d: Digit)
    requires i + 1 < |ds| && ds[i] == ds[i + 1] != d && Passes(FromDigits(ds))
    ensures Passes(FromDigits(ds[i := d][i + 1 := d])) <==> UnseenTwins(ds[i], d)
  {
    hide Passes, FromDigits, LuhnSum, Weight, UnseenTwins;
    var a := ds[i];
    PassesDigits(ds);
    PassesDigits(ds[i := d][i + 1 := d]);
    SumUpdate(ds, i, d);
    SumUpdate(ds[i := d], i + 1, d);
    TwinWeights(i, a, d);
    Difference(LuhnSum(ds[i := d][i + 1 := d]), LuhnSum(ds),
               Weight(i, d) + Weight(i + 1, d) - Weight(i, a) - Weight(i + 1, a));
  }

  predicate UnseenTwins(a: Digit, b: Digit) {
    (2 <= a <= 4 && b == a + 3) || (2 <= b <= 4 && a == b + 3)
  }

  lemma TwinWeights(i: nat, a: Digit, b: Digit)
    requires a != b
    ensures (Weight(i, b) + Weight(i + 1, b) - Weight(i, a) - Weight(i + 1, a)) % 10 == 0 <==> UnseenTwins(a, b)
  {
    hide Weight;
    TwinWeight(i, a);
    TwinWeight(i, b);
    TenApart(if b < 5 then 3 * b else 3 * b - 9, if a < 5 then 3 * a else 3 * a - 9);
  }

  lemma TwinWeight(i: nat, a: Digit)
    ensures Weight(i, a) + Weight(i + 1, a) == if a < 5 then 3 * a else 3 * a - 9
  {}

  lemma TenApart(x: int, y: int)
    requires 0 <= x <= 18 && 0 <= y <= 18
    ensures (x - y) % 10 == 0 <==> x - y in {-10, 0, 10}
  {}

  /** Changing any one digit of a card number that passes makes it fail. */
  lemma SingleErrorIsDetected(n: nat, i: nat, d: Digit)
    requires i < |DigitsOf(n)| && d != DigitsOf(n)[i] && Passes(n)
    ensures !Passes(FromDigits(DigitsOf(n)[i := d]))
  {
    hide Passes, FromDigits, LuhnSum, DigitsOf;
    FromDigitsOf(n);
    SingleErrorInDigits(DigitsOf(n), i, d);
  }

  /** Swapping two neighbours goes unnoticed exactly if they are equal or 0 and 9. */
  lemma SwapIsDetected(n: nat, i: nat)
    requires i + 1 < |DigitsOf(n)| && Passes(n)
    ensures var ds := DigitsOf(n);
      Passes(FromDigits(Swapped(ds, i))) <==> ds[i] == ds[i + 1] || ZeroNine(ds[i], ds[i + 1])
  {
    hide Passes, FromDigits, LuhnSum, DigitsOf, ZeroNine;
    FromDigitsOf(n);
    SwapInDigits(DigitsOf(n), i);
  }

  /** Replacing a pair of equal digits by another goes unnoticed exactly for 22 and
      55, 33 and 66, 44 and 77. */
  lemma TwinErrorIsDetected(n: nat, i: nat, d: Digit)
    requires i + 1 < |DigitsOf(n)| && DigitsOf(n)[i] == DigitsOf(n)[i + 1] != d && Passes(n)
    ensures Passes(FromDigits(DigitsOf(n)[i := d][i + 1 := d])) <==> UnseenTwins(DigitsOf(n)[i], d)
  {
    hide Passes, FromDigits, LuhnSum, DigitsOf, UnseenTwins;
    FromDigitsOf(n);
    TwinErrorInDigits(DigitsOf(n), i, d);
  }

  /** For every account number there is exactly one check digit. */
  lemma CheckDigit(payload: seq<Digit>, c: Digit)
    ensures Passes(FromDigits([c] + payload)) <==> c == (10 - LuhnSum([0] + payload) % 10) % 10
  {
    hide Passes, FromDigits, LuhnSum;
    PassesDigits([c] + payload);
    SumUpdate([0] + payload, 0, c);
    assert ([0] + payload)[0 := c] == [c] + payload;
    Complement(LuhnSum([0] + payload), c);
  }

  lemma Complement(x: nat, c: Digit)
    ensures (x + c) % 10 == 0 <==> c == (10 - x % 10) % 10
  {}
}
