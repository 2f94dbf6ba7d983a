// money.go: int64 minor units.
module Money {
  import opened Prelude

  const INT64_LIMIT := 0x8000_0000_0000_0000

  predicate InInt64(n: int) { -INT64_LIMIT <= n < INT64_LIMIT }

  type Int64 = n: int | InInt64(n)

  // int64 arithmetic wraps around.
  function Wrap(n: int): Int64 {
    var m := n % (2 * INT64_LIMIT);
    if m < INT64_LIMIT then m else m - 2 * INT64_LIMIT
  }

  // Go's / and %, which truncate toward zero, for a positive divisor.
  function Quo(n: int, d: int): int
    requires d > 0
  {
    if n >= 0 then n / d else -((-n) / d)
  }

  function Rem(n: int, d: int): int
    requires d > 0
  {
    if n >= 0 then n % d else -((-n) % d)
  }

  datatype Money = Money(amountMinor: Int64, currency: string)
  {
    function Add(other: Money): Option<Money> {
      if currency != other.currency then None else Some(Money(Wrap(amountMinor + other.amountMinor), currency))
    }

    function Sub(other: Money): Option<Money> {
      if currency != other.currency then None else Some(Money(Wrap(amountMinor - other.amountMinor), currency))
    }

    function Percentage(basisPoints: Int64): Money {
      var product := Wrap(amountMinor * basisPoints);
      assert InInt64(Quo(product, 10000));
      Money(Quo(product, 10000), currency)
    }

    function String(): string {
      SignedDecimal(Quo(amountMinor, 100)) + "." + (TwoDigits(Minor(amountMinor)) + " " + currency)
    }
  }

  // Amounts of different currencies are neither added nor subtracted; others are, exactly when the result
  // fits.
  lemma AddIsExactIff(m: Money, other: Money)
    ensures m.Add(other) == None <==> m.currency != other.currency
    ensures m.Sub(other) == None <==> m.currency != other.currency
    ensures m.currency == other.currency ==>
              && m.Add(other).value.currency == m.currency && m.Sub(other).value.currency == m.currency
              && (m.Add(other).value.amountMinor == m.amountMinor + other.amountMinor
                  <==> InInt64(m.amountMinor + other.amountMinor))
              && (m.Sub(other).value.amountMinor == m.amountMinor - other.amountMinor
                  <==> InInt64(m.amountMinor - other.amountMinor))
  {
    WrapShifts(m.amountMinor + other.amountMinor);
    WrapShifts(m.amountMinor - other.amountMinor);
  }

  // Sub undoes Add, also when the sum wraps around.
  lemma SubUndoesAdd(m: Money, other: Money)
    requires m.currency == other.currency
    ensures m.Add(other).value.Sub(other) == Some(m)
  {
    var sum := m.amountMinor + other.amountMinor;
    WrapShifts(sum);
    WrapShifts(Wrap(sum) - other.amountMinor);
  }

  lemma WrapShifts(n: int)
    ensures Wrap(n) == n - 2 * INT64_LIMIT * ((n - Wrap(n)) / (2 * INT64_LIMIT))
    ensures InInt64(n) ==> Wrap(n) == n
    ensures InInt64(n + 2 * INT64_LIMIT) ==> Wrap(n) == n + 2 * INT64_LIMIT
    ensures InInt64(n - 2 * INT64_LIMIT) ==> Wrap(n) == n - 2 * INT64_LIMIT
  {
  }

  // ---- percentages ----

  // A share is the exact truncated share precisely when the product fits.
  lemma PercentageExactIff(m: Money, basisPoints: Int64)
    ensures m.Percentage(basisPoints).amountMinor == Quo(m.amountMinor * basisPoints, 10000)
            <==> InInt64(m.amountMinor * basisPoints)
  {
    var n := m.amountMinor * basisPoints;
    WrapShifts(n);
    if !InInt64(n) { QuoSeparates(n, Wrap(n)); }
  }

  lemma QuoSeparates(a: int, b: int)
    requires a - b >= 20000 || b - a >= 20000
    ensures Quo(a, 10000) != Quo(b, 10000)
  {
  }

  lemma QuoRem(n: int)
    ensures n == 10000 * Quo(n, 10000) + Rem(n, 10000)
    ensures if n >= 0 then 0 <= Rem(n, 10000) <= 9999 else -9999 <= Rem(n, 10000) <= 0
    ensures Quo(-n, 10000) == -Quo(n, 10000)
    ensures Rem(n, 10000) == 0 <==> n % 10000 == 0
    ensures n % 10000 == 0 <==> (-n) % 10000 == 0
  {
  }

  function Sum(ns: seq<int>): int { if ns == [] then 0 else Sum(ns[..|ns| - 1]) + ns[|ns| - 1] }

  // The amount times each share's basis points.
  function Products(amount: int, points: seq<int>): (products: seq<int>)
    ensures |products| == |points|
  {
    seq(|points|, i requires 0 <= i < |points| => amount * points[i])
  }

  // The sum of the truncated shares, and what truncation drops, in ten-thousandths of a minor unit.
  function Kept(products: seq<int>): int {
    if products == [] then 0
    else Kept(products[..|products| - 1]) + Quo(products[|products| - 1], 10000)
  }

  function Dropped(products: seq<int>): int {
    if products == [] then 0
    else Dropped(products[..|products| - 1]) + Rem(products[|products| - 1], 10000)
  }

  predicate AllWhole(products: seq<int>) { forall i :: 0 <= i < |products| ==> products[i] % 10000 == 0 }

  predicate NonNegative(ns: seq<int>) { forall i :: 0 <= i < |ns| ==> ns[i] >= 0 }

  lemma {:induction false} KeptAndDropped(products: seq<int>)
    requires NonNegative(products)
    ensures Sum(products) == 10000 * Kept(products) + Dropped(products)
    ensures 0 <= Dropped(products) <= 9999 * |products| && Kept(products) >= 0
    ensures Dropped(products) == 0 <==> AllWhole(products)
  {
    if products != [] {
      var n := |products| - 1;
      KeptAndDropped(products[..n]);
      QuoRem(products[n]);
      assert AllWhole(products) <==> AllWhole(products[..n]) && products[n] % 10000 == 0 by {
        assert forall i :: 0 <= i < n ==> products[..n][i] == products[i];
      }
    }
  }

  lemma {:induction false} KeptOfOpposite(products: seq<int>, opposite: seq<int>)
    requires |products| == |opposite| && forall i :: 0 <= i < |products| ==> opposite[i] == -products[i]
    ensures Kept(opposite) == -Kept(products) && (AllWhole(opposite) <==> AllWhole(products))
  {
    if products != [] {
      var n := |products| - 1;
      KeptOfOpposite(products[..n], opposite[..n]);
      QuoRem(products[n]);
      assert AllWhole(products) <==> AllWhole(products[..n]) && products[n] % 10000 == 0;
      assert AllWhole(opposite) <==> AllWhole(opposite[..n]) && opposite[n] % 10000 == 0;
    }
  }

  lemma {:induction false} SumOfProducts(amount: int, points: seq<int>)
    ensures Sum(Products(amount, points)) == amount * Sum(points)
  {
    if points != [] {
      var n := |points| - 1;
      SumOfProducts(amount, points[..n]);
      assert Products(amount, points)[..n] == Products(amount, points[..n]);
      Distribute(amount, Sum(points[..n]), points[n]);
    }
  }

  lemma Distribute(a: int, b: int, c: int)
    ensures a * (b + c) == a * b + a * c
  {
  }

  lemma ProductsAreSigned(size: int, points: seq<int>)
    requires size >= 0 && NonNegative(points)
    ensures NonNegative(Products(size, points))
    ensures forall i :: 0 <= i < |points| ==> Products(-size, points)[i] == -Products(size, points)[i]
  {
    forall i | 0 <= i < |points|
      ensures Products(size, points)[i] >= 0 && Products(-size, points)[i] == -Products(size, points)[i]
    {
      var p := points[i];
      assert Products(size, points)[i] == size * p && Products(-size, points)[i] == -size * p;
      assert size * p >= 0;
    }
  }

  lemma SizeSplitFallsShort(size: nat, points: seq<int>)
    requires points != [] && Sum(points) == 10000 && NonNegative(points)
    ensures var products := Products(size, points);
            && size - (|points| - 1) <= Kept(products) <= size
            && (Kept(products) == size <==> AllWhole(products))
  {
    var products := Products(size, points);
    ProductsAreSigned(size, points);
    SumOfProducts(size, points);
    KeptAndDropped(products);
    FallsShort(size, Kept(products), Dropped(products), |points|);
  }

  lemma FallsShort(size: nat, kept: int, dropped: int, k: nat)
    requires size * 10000 == 10000 * kept + dropped && 0 <= dropped <= 9999 * k && k > 0
    ensures size - (k - 1) <= kept <= size && (kept == size <==> dropped == 0)
  {
  }

  // Splitting an amount of either sign into k shares of 10000 basis points and adding them again
  // never exceeds it in size, falls short by at most k - 1 minor units, and is exact precisely when
  // every share is.
  lemma SplitFallsShort(amount: int, points: seq<int>)
    requires points != [] && Sum(points) == 10000 && NonNegative(points)
    ensures var total := Kept(Products(amount, points));
            && (if amount >= 0 then amount - (|points| - 1) <= total <= amount
                else amount <= total <= amount + (|points| - 1))
            && (total == amount <==> AllWhole(Products(amount, points)))
  {
    if amount >= 0 {
      SizeSplitFallsShort(amount, points);
    } else {
      SizeSplitFallsShort(-amount, points);
      ProductsAreSigned(-amount, points);
      KeptOfOpposite(Products(-amount, points), Products(amount, points));
    }
  }

  // Adding up the Percentage shares of m one after another.
  function Resum(m: Money, points: seq<Int64>): Option<Money> {
    if points == [] then Some(Money(0, m.currency))
    else
      var before := Resum(m, points[..|points| - 1]);
      if before == None then None else before.value.Add(m.Percentage(points[|points| - 1]))
  }

  // Each share's product fits.
  predicate ProductsFit(amount: int, points: seq<int>) { forall i :: 0 <= i < |points| ==> InInt64(amount * points[i]) }

  // Then the code's shares are the exact ones, and no partial sum overflows.
  lemma {:induction false} ResumIsExact(m: Money, points: seq<Int64>)
    requires NonNegative(points) && Sum(points) <= 10000 && ProductsFit(m.amountMinor, points)
    ensures InInt64(Kept(Products(m.amountMinor, points)))
    ensures Resum(m, points) == Some(Money(Kept(Products(m.amountMinor, points)), m.currency))
  {
    KeptFits(m.amountMinor, points);
    if points != [] {
      var n := |points| - 1;
      SumNonNegative(points[..n]);
      FewerProductsFit(m.amountMinor, points);
      ResumIsExact(m, points[..n]);
      PercentageExactIff(m, points[n]);
      var products := Products(m.amountMinor, points);
      assert products[..n] == Products(m.amountMinor, points[..n]);
      WrapShifts(Kept(products));
    }
  }

  lemma FewerProductsFit(amount: int, points: seq<int>)
    requires points != [] && ProductsFit(amount, points)
    ensures ProductsFit(amount, points[..|points| - 1]) && InInt64(amount * points[|points| - 1])
  {
    var rest := points[..|points| - 1];
    assert forall i :: 0 <= i < |rest| ==> rest[i] == points[i];
  }

  lemma {:induction false} SumNonNegative(points: seq<int>)
    requires NonNegative(points)
    ensures 0 <= Sum(points)
  {
    if points != [] { SumNonNegative(points[..|points| - 1]); }
  }

  lemma Monotone(size: nat, p: int, q: int)
    requires p <= q
    ensures size * p <= size * q
  {
    Distribute(size, p, q - p);
  }

  lemma KeptFits(amount: int, points: seq<int>)
    requires NonNegative(points) && Sum(points) <= 10000 && InInt64(amount)
    ensures InInt64(Kept(Products(amount, points)))
  {
    var size := if amount >= 0 then amount else -amount;
    ProductsAreSigned(size, points);
    SumOfProducts(size, points);
    Monotone(size, Sum(points), 10000);
    KeptAndDropped(Products(size, points));
    KeptOfOpposite(Products(size, points), Products(-size, points));
  }

  // Re-adding the shares of all of an amount: the code's own arithmetic.
  lemma ResumFallsShort(m: Money, points: seq<Int64>)
    requires points != [] && Sum(points) == 10000 && NonNegative(points) && ProductsFit(m.amountMinor, points)
    ensures var total := Resum(m, points);
            && total.Some? && total.value.currency == m.currency
            && (if m.amountMinor >= 0 then m.amountMinor - (|points| - 1) <= total.value.amountMinor <= m.amountMinor
                else m.amountMinor <= total.value.amountMinor <= m.amountMinor + (|points| - 1))
            && (total.value == m <==> AllWhole(Products(m.amountMinor, points)))
  {
    ResumIsExact(m, points);
    SplitFallsShort(m.amountMinor, points);
  }

  // ---- printing ----

  function Digit(n: int): char
    requires 0 <= n < 10
  {
    ['0', '1', '2', '3', '4', '5', '6', '7', '8', '9'][n]
  }

  function DigitValue(c: char): int { if '0' <= c <= '9' then c as int - '0' as int else 0 }

  function Decimal(n: nat): string { if n < 10 then [Digit(n)] else Decimal(n / 10) + [Digit(n % 10)] }

  function SignedDecimal(n: int): string { if n < 0 then "-" + Decimal(-n) else Decimal(n) }

  function TwoDigits(n: nat): string
    requires n < 100
  {
    [Digit(n / 10), Digit(n % 10)]
  }

  function Value(s: string): nat {
    if s == [] then 0 else Value(s[..|s| - 1]) * 10 + Max(0, DigitValue(s[|s| - 1]))
  }

  function IndexOf(s: string, c: char): nat { if s == [] || s[0] == c then 0 else 1 + IndexOf(s[1..], c) }

  // Reads what String writes.
  function Parse(s: string): Option<(int, string)> {
    var dot := IndexOf(s, '.');
    if dot + 4 > |s| || dot == 0 then None
    else
      var minor := Value(s[dot + 1..dot + 3]);
      var amount := if s[0] == '-' then -(Value(s[1..dot]) * 100 + minor) else Value(s[..dot]) * 100 + minor;
      Some((amount, s[dot + 4..]))
  }

  lemma {:induction false} DecimalValue(n: nat)
    ensures Value(Decimal(n)) == n && Decimal(n) != [] && Decimal(n)[0] != '-'
    ensures '.' !in Decimal(n)
  {
    if n >= 10 {
      DecimalValue(n / 10);
      assert Decimal(n)[..|Decimal(n)| - 1] == Decimal(n / 10);
    } else {
      assert Decimal(n)[..0] == [];
    }
  }

  lemma {:induction false} IndexAfter(head: string, c: char, tail: string)
    requires c !in head
    ensures IndexOf(head + [c] + tail, c) == |head|
  {
    if head != [] {
      IndexAfter(head[1..], c, tail);
      assert (head + [c] + tail)[1..] == head[1..] + [c] + tail;
    }
  }

  lemma DigitReads(n: int)
    requires 0 <= n < 10
    ensures DigitValue(Digit(n)) == n
  {
  }

  lemma TwoDigitsValue(n: nat)
    requires n < 100
    ensures Value(TwoDigits(n)) == n
  {
    var tens, units := n / 10, n % 10;
    DigitReads(tens);
    DigitReads(units);
    PairValue(Digit(tens), Digit(units));
  }

  lemma PairValue(c: char, d: char)
    ensures Value([c, d]) == Max(0, DigitValue(c)) * 10 + Max(0, DigitValue(d))
  {
    assert [c, d][..1] == [c] && [c][..0] == [];
    assert Value([c]) == Max(0, DigitValue(c));
  }

  // What String preserves of the amount: between -99 and -1 the sign is lost with the zero major part.
  function Printed(amount: int): int { if -100 < amount < 0 then -amount else amount }

  lemma Slices(head: string, digits: string, currency: string)
    requires |digits| == 2
    ensures var s, dot := head + "." + (digits + " " + currency), |head|;
            && |s| >= dot + 4 && s[..dot] == head && s[dot + 1..dot + 3] == digits && s[dot + 4..] == currency
  {
  }

  lemma ParseParts(head: string, digits: string, currency: string)
    requires head != [] && '.' !in head && |digits| == 2
    ensures Parse(head + "." + (digits + " " + currency))
            == Some((if head[0] == '-' then -(Value(head[1..]) * 100 + Value(digits))
                     else Value(head) * 100 + Value(digits), currency))
  {
    var s, dot := head + "." + (digits + " " + currency), |head|;
    IndexAfter(head, '.', digits + " " + currency);
    Slices(head, digits, currency);
    assert s[1..dot] == s[..dot][1..];
    assert s[0] == s[..dot][0];
  }

  lemma SignedDecimalReads(n: int)
    ensures var s := SignedDecimal(n);
            && s != [] && '.' !in s && (s[0] == '-' <==> n < 0)
            && (if n < 0 then Value(s[1..]) == -n else Value(s) == n)
  {
    DecimalValue(if n < 0 then -n else n);
    if n < 0 { assert SignedDecimal(n)[1..] == Decimal(-n); }
  }

  function Minor(amount: int): (minor: nat)
    ensures minor < 100
  {
    if Rem(amount, 100) < 0 then -Rem(amount, 100) else Rem(amount, 100)
  }

  lemma MajorAndMinor(a: int)
    ensures Printed(a) == if Quo(a, 100) < 0 then -(-Quo(a, 100) * 100 + Minor(a)) else Quo(a, 100) * 100 + Minor(a)
    ensures Quo(a, 100) == Quo(Printed(a), 100) && Minor(a) == Minor(Printed(a))
  {
  }

  lemma ParseReads(m: Money)
    ensures Parse(m.String()) == Some((Printed(m.amountMinor), m.currency))
  {
    var a := m.amountMinor;
    MajorAndMinor(a);
    SignedDecimalReads(Quo(a, 100));
    TwoDigitsValue(Minor(a));
    ParseParts(SignedDecimal(Quo(a, 100)), TwoDigits(Minor(a)), m.currency);
  }

  // The round trip holds exactly for amounts >= 0 or <= -100.
  lemma RoundTripIff(m: Money)
    ensures Parse(m.String()) == Some((m.amountMinor, m.currency)) <==> m.amountMinor >= 0 || m.amountMinor <= -100
  {
    ParseReads(m);
  }

  // Two amounts print alike exactly when they are equal, or opposite and below one major unit.
  lemma PrintsAlikeIff(m: Money, n: Money)
    ensures m.String() == n.String() <==>
            m.currency == n.currency && Printed(m.amountMinor) == Printed(n.amountMinor)
  {
    ParseReads(m);
    ParseReads(n);
    MajorAndMinor(m.amountMinor);
    MajorAndMinor(n.amountMinor);
  }

  lemma StringExample()
    ensures Money(350000, "ETB").String() == "3500.00 ETB" && Money(-1205, "USD").String() == "-12.05 USD"
  {
    assert Decimal(35) == Decimal(3) + ['5'];
    assert Decimal(350) == Decimal(35) + ['0'];
    assert Decimal(3500) == Decimal(350) + ['0'];
    assert Decimal(12) == Decimal(1) + ['2'];
  }
}
