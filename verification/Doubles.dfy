/** The loop of a withdrawal on the numbers it really runs on: doubles, rounded to the nearest with ties to even, as
    IEEE 754 section 4.3.1 has it. All doubles that occur are whole multiples of 2^-59 dollars, the last bit of a cent;
    they are counted in that unit. */
module Doubles {
  import opened Wrappers
  import opened Withdrawal

  const P52: int := 0x10_0000_0000_0000
  const P53: int := 0x20_0000_0000_0000
  /** So many units, 2^45 dollars, that no column of the database holds as much. */
  const PLENTY: int := P52 * P52

  /** The units of a dollar. */
  const DOLLAR: int := 64 * P53

  /** The whole number nearest to x / d, the even one of two. */
  function Near(x: nat, d: nat): nat
    requires d > 0
  {
    var q, r := x / d, x % d;
    if 2 * r < d || (2 * r == d && q % 2 == 0) then q else q + 1
  }

  /** The double nearest to num / den: 53 bits are kept, the others rounded off. */
  function Round(num: nat, den: nat): nat
    requires den > 0
    decreases num - den
  {
    if num < P53 * den then Near(num, den) else 2 * Round(num, 2 * den)
  }

  /** A decimal amount of so many cents as a double. */
  function Dollars(cents: nat): nat { Round(cents * DOLLAR, 100) }

  function Plus(a: nat, b: nat): nat { Round(a + b, 1) }

  // ---- the loop ----

  function Select(amounts: seq<nat>, request: nat, i: nat, total: nat): Selection
    decreases |amounts| - i
  {
    if i >= |amounts| then Selection([], total) else
    var next := Plus(total, amounts[i]);
    if next > request then Select(amounts, request, i + 1, total)
    else if next == request then Selection([i], request)
    else
      var rest := Select(amounts, request, i + 1, next);
      Selection([i] + rest.chosen, rest.total)
  }

  /** Adding up one by one. */
  function Added(amounts: seq<nat>): nat {
    if amounts == [] then 0 else Plus(Added(amounts[..|amounts| - 1]), amounts[|amounts| - 1])
  }

  function Withdraw(amounts: seq<nat>, request: nat): Option<Selection> {
    var selection := Select(amounts, request, 0, 0);
    if request > Added(amounts) || selection.total < request || selection.chosen == [] then None
    else Some(selection)
  }

  method SelectPayments(amounts: seq<nat>, request: nat) returns (taken: Option<Selection>)
    ensures taken == Withdraw(amounts, request)
  {
    hide Plus;
    var availableTotal: nat := 0;
    for i := 0 to |amounts|
      invariant availableTotal == Added(amounts[..i])
    {
      assert amounts[..i + 1][..i] == amounts[..i];
      availableTotal := Plus(availableTotal, amounts[i]);
    }
    assert amounts[..|amounts|] == amounts;
    if request > availableTotal {
      return None;
    }
    var chosen: seq<nat> := [];
    var total: nat := 0;
    var i: nat := 0;
    while i < |amounts|
      invariant 0 <= i <= |amounts|
      invariant var rest := Select(amounts, request, i, total);
                Select(amounts, request, 0, 0) == Selection(chosen + rest.chosen, rest.total)
    {
      var nextTotal := Plus(total, amounts[i]);
      if nextTotal > request {
        i := i + 1;
        continue;
      }
      ghost var rest := Select(amounts, request, i, total).chosen;
      assert chosen + rest == (chosen + [i]) + rest[1..];
      chosen := chosen + [i];
      total := nextTotal;
      if total == request {
        assert Select(amounts, request, 0, 0) == Selection(chosen, total);
        break;
      }
      i := i + 1;
    }
    assert chosen + [] == chosen;
    if total < request || chosen == [] {
      return None;
    }
    return Some(Selection(chosen, total));
  }

  // ---- rounding ----

  /** Rounding to whole numbers is off by half at most. */
  lemma NearIsClose(x: nat, d: nat)
    requires d > 0
    ensures 2 * x - d <= 2 * (Near(x, d) * d) <= 2 * x + d
  {
    assert x == (x / d) * d + x % d;
    assert (x / d + 1) * d == (x / d) * d + d;
  }

  /** A number that keeps its 53 bits is off by 2^-53 of itself at most. */
  lemma NearIsRelativelyClose(num: nat, den: nat)
    requires den > 0 && num >= P52 * den
    ensures P53 * num - num <= P53 * (Near(num, den) * den) <= P53 * num + num
  {
    NearIsClose(num, den);
    hide Near;
  }

  lemma NearestToWhole(num: nat)
    ensures Near(num, 1) == num
  {
  }

  lemma Regrouped(h: nat, den: nat)
    ensures (2 * h) * den == h * (2 * den)
  {
  }

  /** Rounding keeps a number that is at least 2^52 within 2^-53 of itself, and smaller whole numbers as they are. */
  lemma {:induction false} RoundIsClose(num: nat, den: nat)
    requires den > 0 && (den == 1 || num >= P52 * den)
    ensures P53 * num - num <= P53 * (Round(num, den) * den) <= P53 * num + num
    decreases num - den
  {
    hide Near;
    if num >= P53 * den {
      RoundIsClose(num, 2 * den);
      Regrouped(Round(num, 2 * den), den);
    } else if num >= P52 * den {
      NearIsRelativelyClose(num, den);
    } else {
      NearestToWhole(num);
    }
  }

  lemma TimesGrows(a: int, b: int, d: nat)
    requires a <= b
    ensures a * d <= b * d
  {
  }

  lemma QuotientGrows(x: nat, y: nat, d: nat)
    requires d > 0 && x <= y
    ensures x / d <= y / d
  {
    var p, q := x / d, y / d;
    if p > q { TimesGrows(q + 1, p, d); }
  }

  lemma NearGrows(x: nat, y: nat, d: nat)
    requires d > 0 && x <= y
    ensures Near(x, d) <= Near(y, d)
  {
    QuotientGrows(x, y, d);
    if x / d == y / d { SameQuotient(x, y, d); }
  }

  lemma SameQuotient(x: nat, y: nat, d: nat)
    requires d > 0 && x <= y && x / d == y / d
    ensures x % d <= y % d
  {
    assert x == (x / d) * d + x % d && y == (y / d) * d + y % d;
  }

  lemma NearAtMost(x: nat, d: nat, n: nat)
    requires d > 0 && x <= n * d
    ensures Near(x, d) <= n
  {
    NearGrows(x, n * d, d);
    assert (n * d) / d == n && (n * d) % d == 0 by { Quotient(n, d); }
  }

  lemma Quotient(n: nat, d: nat)
    requires d > 0
    ensures (n * d) / d == n && (n * d) % d == 0
  {
    var q, r := (n * d) / d, (n * d) % d;
    assert n * d == q * d + r;
    if q < n { TimesGrows(q + 1, n, d); }
    if q > n { TimesGrows(n + 1, q, d); }
  }

  lemma {:induction false} RoundAtLeast(num: nat, den: nat)
    requires den > 0 && num >= P52 * den
    ensures Round(num, den) >= P52
    decreases num - den
  {
    if num < P53 * den {
      NearGrows(P52 * den, num, den);
      Quotient(P52, den);
    } else {
      RoundAtLeast(num, 2 * den);
    }
  }

  lemma {:induction false} RoundGrows(x: nat, y: nat, den: nat)
    requires den > 0 && x <= y
    ensures Round(x, den) <= Round(y, den)
    decreases y - den
  {
    if y < P53 * den {
      NearGrows(x, y, den);
    } else if x < P53 * den {
      NearAtMost(x, den, P53);
      RoundAtLeast(y, 2 * den);
    } else {
      RoundGrows(x, y, 2 * den);
    }
  }

  lemma PlusGrows(a: nat, b: nat, c: nat, d: nat)
    requires a <= c && b <= d
    ensures Plus(a, b) <= Plus(c, d)
  {
    RoundGrows(a + b, c + d, 1);
  }

  /** Adding a cent or more gives more, or at least plenty. */
  lemma PlusGrowsStrictly(total: nat, amount: nat)
    requires amount >= P52
    ensures total < PLENTY ==> Plus(total, amount) > total
    ensures total >= PLENTY ==> Plus(total, amount) >= PLENTY
  {
    RoundIsClose(total + amount, 1);
    if total >= PLENTY {
      PlentyIsDouble();
      RoundGrows(PLENTY, total + amount, 1);
    }
    hide Round;
  }

  lemma PlentyIsDouble()
    ensures Round(PLENTY, 1) == PLENTY
  {
    TwoToFiftyTwo();
    HalvesExactly(P52, 1, 52);
    hide TwoTo, Round;
  }

  function TwoTo(k: nat): nat { if k == 0 then 1 else 2 * TwoTo(k - 1) }

  lemma {:induction false} TwoToAdds(a: nat, b: nat)
    ensures TwoTo(a + b) == TwoTo(a) * TwoTo(b)
    decreases a
  {
    if a > 0 { TwoToAdds(a - 1, b); }
  }

  lemma TwoToFiftyTwo()
    ensures TwoTo(52) == P52 && TwoTo(5) == 32
  {
    assert TwoTo(1) == 2;
    TwoToAdds(1, 1);
    TwoToAdds(2, 2);
    TwoToAdds(4, 1);
    TwoToAdds(4, 4);
    TwoToAdds(8, 4);
    TwoToAdds(12, 1);
    TwoToAdds(13, 13);
    TwoToAdds(26, 26);
    hide TwoTo;
  }

  lemma NearExactly(n: nat, den: nat)
    requires den > 0
    ensures Near(n * den, den) == n
  {
    Quotient(n, den);
  }

  /** Numbers with at most 53 bits are kept, however many zeros follow. */
  lemma {:induction false} HalvesExactly(m: nat, den: nat, k: nat)
    requires den > 0 && m < P53
    ensures Round((m * TwoTo(k)) * den, den) == m * TwoTo(k)
    decreases k
  {
    hide Near;
    var n := m * TwoTo(k);
    NearExactly(n, den);
    if n * den >= P53 * den {
      if k == 0 {
        TimesGrows(m + 1, P53, den);
        assert false;
      } else {
        var h := m * TwoTo(k - 1);
        assert n == 2 * h by { Regrouped(m, TwoTo(k - 1)); }
        HalvesExactly(m, 2 * den, k - 1);
        Regrouped(h, den);
      }
    }
  }

  /** Different amounts of cents are different doubles, up to 2^52 cents. */
  lemma CentsApart(a: nat, b: nat)
    requires a < b <= P52
    ensures Dollars(a) < Dollars(b) && Dollars(b) >= P52 && Dollars(0) == 0
  {
    RoundAtLeast(b * DOLLAR, 100);
    if a > 0 {
      RoundIsClose(a * DOLLAR, 100);
      RoundIsClose(b * DOLLAR, 100);
      TimesGrows(a + 1, b, DOLLAR * (P53 - 1));
    }
  }

  lemma CentsGrow(a: nat, b: nat)
    requires a <= b
    ensures Dollars(a) <= Dollars(b)
  {
    RoundGrows(a * DOLLAR, b * DOLLAR, 100);
  }

  // ---- what a selection is worth ----

  /** The amounts at these positions added one by one to `total`. */
  function AddedAt(amounts: seq<nat>, positions: seq<nat>, total: nat): nat
    requires forall a :: 0 <= a < |positions| ==> positions[a] < |amounts|
    decreases |positions|
  {
    if positions == [] then total else AddedAt(amounts, positions[1..], Plus(total, amounts[positions[0]]))
  }

  /** A selection is a sub-list in list order and its total is that of the loop, at most the request. */
  lemma {:induction false} SelectionAddsUp(amounts: seq<nat>, request: nat, i: nat, total: nat)
    ensures var s := Select(amounts, request, i, total);
            SubList(s.chosen, i, |amounts|) && s.total == AddedAt(amounts, s.chosen, total)
            && (total <= request ==> s.total <= request)
    decreases |amounts| - i
  {
    if i < |amounts| {
      hide Plus;
      var next := Plus(total, amounts[i]);
      var rest := Select(amounts, request, i + 1, if next <= request then next else total);
      SelectionAddsUp(amounts, request, i + 1, if next <= request then next else total);
      if next < request {
        assert ([i] + rest.chosen)[1..] == rest.chosen;
      } else if next == request {
        assert [i][1..] == [];
      }
    }
  }

  lemma {:induction false} FirstAddUp(amounts: seq<nat>, i: nat, k: nat)
    requires i <= k <= |amounts|
    ensures AddedAt(amounts, FirstPositions(i, k), Added(amounts[..i])) == Added(amounts[..k])
    decreases k - i
  {
    if i < k {
      hide Plus;
      assert amounts[..i + 1][..i] == amounts[..i];
      assert FirstPositions(i, k)[1..] == FirstPositions(i + 1, k);
      FirstAddUp(amounts, i + 1, k);
    }
  }

  // ---- requests for the oldest payments ----

  ghost predicate Payable(amounts: seq<nat>) {
    forall i :: 0 <= i < |amounts| ==> amounts[i] >= P52
  }

  lemma {:induction false} AddedGrows(amounts: seq<nat>, i: nat, k: nat)
    requires Payable(amounts) && i < k <= |amounts|
    ensures Added(amounts[..i]) < PLENTY ==> Added(amounts[..i]) < Added(amounts[..k])
    ensures Added(amounts[..i]) >= PLENTY ==> Added(amounts[..k]) >= PLENTY
    decreases k - i
  {
    hide Plus, Round;
    assert amounts[..k][..k - 1] == amounts[..k - 1];
    PlusGrowsStrictly(Added(amounts[..k - 1]), amounts[k - 1]);
    if i < k - 1 { AddedGrows(amounts, i, k - 1); }
  }

  lemma {:induction false} SelectsFirst(amounts: seq<nat>, request: nat, k: nat, i: nat)
    requires Payable(amounts) && request < PLENTY
    requires i < k <= |amounts| && Added(amounts[..k]) == request
    ensures Select(amounts, request, i, Added(amounts[..i])) == Selection(FirstPositions(i, k), request)
    decreases k - i
  {
    hide Plus;
    assert amounts[..i + 1][..i] == amounts[..i];
    if i + 1 < k {
      AddedGrows(amounts, i + 1, k);
      SelectsFirst(amounts, request, k, i + 1);
      assert FirstPositions(i, k) == [i] + FirstPositions(i + 1, k);
    } else {
      assert FirstPositions(i, k) == [i];
    }
  }

  /** The doubles of these payments. */
  function InDollars(cents: seq<nat>): (amounts: seq<nat>)
    ensures |amounts| == |cents|
  {
    seq(|cents|, i requires 0 <= i < |cents| => Dollars(cents[i]))
  }

  lemma CentsArePayable(cents: seq<nat>)
    requires AllAtLeast(cents, 1)
    ensures Payable(InDollars(cents))
  {
    hide Round;
    forall i | 0 <= i < |cents| ensures Dollars(cents[i]) >= P52 { RoundAtLeast(cents[i] * DOLLAR, 100); }
  }

  /** Sums up to 2^50 cents. */
  const MANY_CENTS: int := 0x4_0000_0000_0000

  lemma ManyCentsAreLess(cents: nat)
    requires cents <= MANY_CENTS
    ensures Dollars(cents) < PLENTY
  {
    if cents > 0 { RoundIsClose(cents * DOLLAR, 100); }
    hide Round;
  }

  /** A request for the sum of the k oldest payments takes exactly those precisely when adding up their doubles gives
      the double of their sum. */
  lemma WithdrawsPrefixExactlyWhen(cents: seq<nat>, k: nat)
    requires AllAtLeast(cents, 1) && 0 < k <= |cents|
    requires 0 <= Sum(cents[..k]) <= MANY_CENTS
    ensures var amounts, request := InDollars(cents), Dollars(Sum(cents[..k]));
            Withdraw(amounts, request) == Some(Selection(FirstPositions(0, k), request))
            <==> Added(amounts[..k]) == request
  {
    var amounts, request := InDollars(cents), Dollars(Sum(cents[..k]));
    hide Plus, Round, Dollars;
    CentsArePayable(cents);
    ManyCentsAreLess(Sum(cents[..k]));
    assert amounts[..0] == [];
    if Added(amounts[..k]) == request {
      SelectsFirst(amounts, request, k, 0);
      assert amounts[..|amounts|] == amounts;
      if k < |amounts| { AddedGrows(amounts, k, |amounts|); }
      assert |FirstPositions(0, k)| == k;
    } else {
      SelectionAddsUp(amounts, request, 0, 0);
      FirstAddUp(amounts, 0, k);
    }
  }

  // ---- granted requests are exact ----

  /** Up to this much may be the number of payments times the cents requested: 56,000 payments for the largest amount
      that a decimal(10, 2) column holds. */
  const DRIFT_LIMIT: int := 0x2_0000_0000_0000

  function Distant(a: int, b: int): int { if a <= b then b - a else a - b }

  /** How far a double that is meant to be so many cents is off, counted in 1 / (100 * 2^53) of a unit. */
  function Drift(total: int, cents: int): int { Distant(100 * P53 * total, P53 * DOLLAR * cents) }

  lemma CentsDrift(cents: nat)
    ensures Drift(Dollars(cents), cents) <= DOLLAR * cents
  {
    if cents > 0 { RoundIsClose(cents * DOLLAR, 100); }
    hide Round;
  }

  /** A rounded number is at least half of it, counted as drift too. */
  lemma RoundedAtMostTwice(x: nat, rounded: nat)
    requires Distant(P53 * rounded, P53 * x) <= x || Distant(P53 * rounded, P53 * x) <= rounded
    ensures x <= 2 * rounded && rounded <= 2 * x
  {
  }

  /** Drifts add up. */
  lemma DriftsAdd(total: int, sum: int, amount: int, cents: int, next: int, rounding: int)
    requires Distant(P53 * next, P53 * (total + amount)) <= rounding
    ensures Drift(next, sum + cents) <= Drift(total, sum) + Drift(amount, cents) + 100 * rounding
  {
    var a, b := 100 * P53 * total - P53 * DOLLAR * sum, 100 * P53 * amount - P53 * DOLLAR * cents;
    var c := P53 * next - P53 * (total + amount);
    assert 100 * P53 * next - P53 * DOLLAR * (sum + cents) == a + b + 100 * c;
    assert Drift(total, sum) == Distant(a, 0) && Drift(amount, cents) == Distant(b, 0) && Distant(c, 0) <= rounding;
  }

  lemma CentsBounded(cents: nat)
    ensures DOLLAR * cents <= 200 * Dollars(cents) && 100 * Dollars(cents) <= 2 * (DOLLAR * cents)
  {
    CentsDrift(cents);
    hide Dollars;
    RoundedAtMostTwice(DOLLAR * cents, 100 * Dollars(cents));
  }

  lemma PlusBounded(a: nat, b: nat)
    ensures Distant(P53 * Plus(a, b), P53 * (a + b)) <= a + b <= 2 * Plus(a, b)
  {
    RoundIsClose(a + b, 1);
    hide Round;
    RoundedAtMostTwice(a + b, Plus(a, b));
  }

  /** One addition that stays within the request adds little drift. */
  lemma PlusDrifts(total: nat, sum: nat, cents: nat, request: nat)
    requires Plus(total, Dollars(cents)) <= Dollars(request)
    ensures Drift(Plus(total, Dollars(cents)), sum + cents) <= Drift(total, sum) + 12 * DOLLAR * request
  {
    hide Dollars, Plus, Drift, Distant;
    var v := Dollars(cents);
    PlusBounded(total, v);
    CentsDrift(cents);
    CentsBounded(cents);
    CentsBounded(request);
    DriftsAdd(total, sum, v, cents, Plus(total, v), total + v);
  }

  lemma {:induction false} SelectionDrifts(cents: seq<nat>, request: nat, i: nat, total: nat, sum: nat)
    requires AllAtLeast(cents, 0) && i <= |cents|
    ensures var s := Select(InDollars(cents), Dollars(request), i, total);
            SubList(s.chosen, i, |cents|) && SumAt(cents, s.chosen) >= 0
            && Drift(s.total, sum + SumAt(cents, s.chosen))
               <= Drift(total, sum) + (|cents| - i) * (12 * DOLLAR * request)
    decreases |cents| - i
  {
    hide Dollars, Plus, Drift;
    var amounts := InDollars(cents);
    var n := |cents| - i;
    SelectionAddsUp(amounts, Dollars(request), i, total);
    if i < |cents| {
      var next := Plus(total, amounts[i]);
      TakenOnce(n, 12 * DOLLAR * request);
      if next > Dollars(request) {
        SelectionDrifts(cents, request, i + 1, total, sum);
      } else {
        PlusDrifts(total, sum, cents[i], request);
        if next < Dollars(request) {
          SelectionDrifts(cents, request, i + 1, next, sum + cents[i]);
          var rest := Select(amounts, Dollars(request), i + 1, next).chosen;
          assert ([i] + rest)[1..] == rest;
        } else {
          assert [i][1..] == [];
        }
      }
    }
  }

  lemma TakenOnce(n: nat, e: nat)
    requires n > 0
    ensures n * e == (n - 1) * e + e && (n - 1) * e >= 0
  {
  }

  lemma TakesWhatIsSelected(amounts: seq<nat>, request: nat)
    ensures var taken := Withdraw(amounts, request);
            taken.Some? ==> taken.value == Select(amounts, request, 0, 0) && taken.value.chosen != []
                            && taken.value.total >= request
  {
  }

  /** A request that is granted is the exact sum of the chosen payments in cents, however the doubles were rounded. */
  lemma GrantedIsExact(cents: seq<nat>, request: nat)
    requires AllAtLeast(cents, 0) && request > 0 && |cents| * request <= DRIFT_LIMIT
    ensures var taken := Withdraw(InDollars(cents), Dollars(request));
            taken.Some? ==> SubList(taken.value.chosen, 0, |cents|)
                            && SumAt(cents, taken.value.chosen) == request && taken.value.total == Dollars(request)
  {
    hide Dollars, Plus, Select, SumAt, Drift, Withdraw, Increasing;
    var s := Select(InDollars(cents), Dollars(request), 0, 0);
    TakesWhatIsSelected(InDollars(cents), Dollars(request));
    SelectionDrifts(cents, request, 0, 0, 0);
    SelectionAddsUp(InDollars(cents), Dollars(request), 0, 0);
    CentsDrift(request);
    if s.chosen != [] && s.total == Dollars(request) {
      assert s.chosen[0] < |cents|;
      NoDrift();
      Undrifted(SumAt(cents, s.chosen), request, |cents|, s.total);
    }
  }

  lemma NoDrift()
    ensures Drift(0, 0) == 0
  {
  }

  lemma Undrifted(sum: nat, request: nat, n: nat, total: nat)
    requires n > 0 && n * request <= DRIFT_LIMIT
    requires Drift(total, request) <= DOLLAR * request && Drift(total, sum) <= n * (12 * DOLLAR * request)
    ensures sum == request
  {
    Regroup(n, 12 * DOLLAR, request);
    TimesGrows(1, n, request);
    assert Drift(total, request) + Drift(total, sum) < P53 * DOLLAR;
    var a, b, c := 100 * P53 * total, P53 * DOLLAR * sum, P53 * DOLLAR * request;
    assert Distant(b, c) <= Distant(a, b) + Distant(a, c);
    assert Distant(b, c) == P53 * DOLLAR * Distant(sum, request);
  }

  lemma Regroup(n: int, d: int, request: int)
    ensures n * (d * request) == d * (n * request)
  {
  }

  // ---- payments of one price ----

  lemma {:induction false} NoneTaken(amounts: seq<nat>, v: nat, request: nat, i: nat, total: nat)
    requires AllEqual(amounts, v) && Plus(total, v) > request
    ensures Select(amounts, request, i, total) == Selection([], total)
    decreases |amounts| - i
  {
    hide Plus;
    if i < |amounts| { NoneTaken(amounts, v, request, i + 1, total); }
  }

  /** Of equal payments the loop takes the oldest. */
  lemma {:induction false} EqualTakesFirst(amounts: seq<nat>, v: nat, request: nat, i: nat, total: nat) returns (k: nat)
    requires AllEqual(amounts, v) && i <= |amounts|
    ensures i <= k <= |amounts| && Select(amounts, request, i, total).chosen == FirstPositions(i, k)
    decreases |amounts| - i
  {
    hide Plus;
    k := i;
    assert FirstPositions(i, i) == [];
    if i < |amounts| {
      var next := Plus(total, v);
      if next > request {
        NoneTaken(amounts, v, request, i, total);
      } else if next == request {
        k := i + 1;
        assert FirstPositions(i, k) == [i];
      } else {
        k := EqualTakesFirst(amounts, v, request, i + 1, next);
        assert FirstPositions(i, k) == [i] + FirstPositions(i + 1, k);
      }
    }
  }

  lemma {:induction false} FirstSum(cents: seq<nat>, d: nat, i: nat, k: nat)
    requires AllEqual(cents, d) && i <= k <= |cents|
    ensures SumAt(cents, FirstPositions(i, k)) == d * (k - i)
    decreases k - i
  {
    if i < k {
      FirstSum(cents, d, i + 1, k);
      assert FirstPositions(i, k)[1..] == FirstPositions(i + 1, k);
      assert d * (k - i) == d * (k - (i + 1)) + d;
    }
  }

  lemma {:induction false} EqualPrefixSum(cents: seq<nat>, d: nat, k: nat)
    requires AllEqual(cents, d) && k <= |cents|
    ensures Sum(cents[..k]) == d * k
    decreases k
  {
    if k > 0 {
      EqualPrefixSum(cents, d, k - 1);
      assert cents[..k][..k - 1] == cents[..k - 1];
      assert d * k == d * (k - 1) + d;
    }
  }

  lemma OneFactorIsLess(d: nat, k: nat, n: nat, request: nat)
    requires request == d * k && 0 < k <= n && n * request <= DRIFT_LIMIT && d > 0
    ensures request <= MANY_CENTS
  {
    TimesGrows(1, n, request);
  }

  lemma Cancelled(d: nat, j: nat, k: nat)
    requires d > 0 && d * j == d * k
    ensures j == k
  {
    if j < k { TimesGrows(j + 1, k, d); }
    if j > k { TimesGrows(k + 1, j, d); }
  }

  /** When every trip costs the same, a withdrawal succeeds exactly for the multiples that are available and whose
      double is what adding up the doubles of so many trips gives. */
  lemma UniformWithdrawalExactlyWhen(cents: seq<nat>, d: nat, request: nat)
    requires d > 0 && request > 0 && AllEqual(cents, d) && |cents| * request <= DRIFT_LIMIT
    ensures Withdraw(InDollars(cents), Dollars(request)).Some?
            <==> exists k :: 0 < k <= |cents| && request == d * k && Added(InDollars(cents)[..k]) == Dollars(request)
  {
    var amounts := InDollars(cents);
    hide Dollars, Plus, Select, Added, Withdraw, Round;
    GrantedIsExact(cents, request);
    if Withdraw(amounts, Dollars(request)).Some? {
      var k := EqualTakesFirst(amounts, Dollars(d), Dollars(request), 0, 0);
      FirstSum(cents, d, 0, k);
      EqualPrefixSum(cents, d, k);
      TakesWhatIsSelected(amounts, Dollars(request));
      assert k > 0;
      OneFactorIsLess(d, k, |cents|, request);
      WithdrawsPrefixExactlyWhen(cents, k);
    }
    if k :| 0 < k <= |cents| && request == d * k && Added(amounts[..k]) == Dollars(request) {
      EqualPrefixSum(cents, d, k);
      OneFactorIsLess(d, k, |cents|, request);
      WithdrawsPrefixExactlyWhen(cents, k);
    }
  }

  // ---- when doubles do as well as cents ----

  /** Whatever some of the payments sum to, one more payment is added to it exactly. */
  ghost predicate SumsExact(cents: seq<nat>) {
    forall i, x: nat :: 0 <= i < |cents| && Reach(cents[..i], x) ==>
                            Plus(Dollars(x), Dollars(cents[i])) == Dollars(x + cents[i])
  }

  lemma {:induction false} ReachWithOneMore(cents: seq<nat>, last: nat, x: int)
    requires Reach(cents, x)
    ensures Reach(cents + [last], x) && Reach(cents + [last], x + last)
    decreases |cents|
  {
    var all := cents + [last];
    if cents == [] {
      assert all[1..] == [];
    } else {
      assert all[1..] == cents[1..] + [last];
      if Reach(cents[1..], x) { ReachWithOneMore(cents[1..], last, x); }
      if Reach(cents[1..], x - cents[0]) { ReachWithOneMore(cents[1..], last, x - cents[0]); }
    }
  }

  lemma NoCents()
    ensures Dollars(0) == 0
  {
    CentsApart(0, 1);
  }

  lemma {:induction false} AddedExactly(cents: seq<nat>, k: nat)
    requires SumsExact(cents) && k <= |cents|
    ensures Sum(cents[..k]) >= 0 && Reach(cents[..k], Sum(cents[..k]))
    ensures Added(InDollars(cents)[..k]) == Dollars(Sum(cents[..k]))
    decreases k
  {
    hide Dollars, Plus;
    if k == 0 {
      NoCents();
    } else {
      AddedExactly(cents, k - 1);
      var amounts := InDollars(cents);
      assert amounts[..k][..k - 1] == amounts[..k - 1] && cents[..k][..k - 1] == cents[..k - 1];
      assert cents[..k] == cents[..k - 1] + [cents[k - 1]];
      hide Reach;
      ReachWithOneMore(cents[..k - 1], cents[k - 1], Sum(cents[..k - 1]));
    }
  }

  lemma SameOrder(a: nat, b: nat)
    requires a <= P52 && b <= P52
    ensures Dollars(a) < Dollars(b) <==> a < b
    ensures Dollars(a) == Dollars(b) <==> a == b
  {
    hide Dollars;
    if a < b { CentsApart(a, b); }
    if b < a { CentsApart(b, a); }
  }

  lemma {:induction false} SelectsTheSame(cents: seq<nat>, request: nat, i: nat, total: nat)
    requires SumsExact(cents) && i <= |cents| && total <= request <= MANY_CENTS && Reach(cents[..i], total)
    requires forall j :: 0 <= j < |cents| ==> cents[j] <= MANY_CENTS
    ensures var s := Withdrawal.Select(cents, request, i, total);
            0 <= s.total <= request
            && Select(InDollars(cents), Dollars(request), i, Dollars(total)) == Selection(s.chosen, Dollars(s.total))
    decreases |cents| - i
  {
    hide Dollars, Plus, Reach;
    if i < |cents| {
      var next := total + cents[i];
      assert Plus(Dollars(total), Dollars(cents[i])) == Dollars(next);
      assert cents[..i + 1] == cents[..i] + [cents[i]];
      ReachWithOneMore(cents[..i], cents[i], total);
      SameOrder(next, request);
      hide SumsExact;
      SelectsTheSame(cents, request, i + 1, if next <= request then next else total);
    }
  }

  /** If every sum of the payments is exact, the loop on doubles takes just what the loop on cents takes. */
  lemma SameAsCents(cents: seq<nat>, request: nat)
    requires SumsExact(cents) && Sum(cents) <= MANY_CENTS && request <= MANY_CENTS
    ensures Withdraw(InDollars(cents), Dollars(request))
            == match Withdrawal.Withdraw(cents, request)
               case None => None
               case Some(taken) => Some(Selection(taken.chosen, if taken.total < 0 then 0 else Dollars(taken.total)))
  {
    hide Dollars, Plus;
    NoCents();
    assert cents[..0] == [] && cents[..|cents|] == cents && InDollars(cents)[..|cents|] == InDollars(cents);
    forall j | 0 <= j < |cents| ensures cents[j] <= MANY_CENTS { AtMostSum(cents, j); }
    AddedExactly(cents, |cents|);
    SelectsTheSame(cents, request, 0, 0);
    SameOrder(Sum(cents), request);
    var s := Withdrawal.Select(cents, request, 0, 0);
    SameOrder(s.total, request);
  }

  lemma AtMostSum(cents: seq<nat>, j: nat)
    requires j < |cents|
    ensures cents[j] <= Sum(cents)
  {
    PrefixSumGrows(cents, j + 1);
    PrefixSumGrows(cents[..j + 1], 0);
    assert cents[..j + 1][..j] == cents[..j] && cents[..j + 1][..0] == [] && cents[..j][..0] == [];
    PrefixSumGrows(cents[..j], 0);
  }

  // ---- sums that are not exact ----

  /** Round to 53 bits is to the nearest multiple of 2^k, where the number has 53 + k bits. */
  lemma {:induction false} RoundsToMultiple(num: nat, den: nat, k: nat)
    requires den > 0 && num < P53 * (TwoTo(k) * den) && (k > 0 ==> num >= P52 * (TwoTo(k) * den))
    ensures TwoTo(k) * den > 0 && Round(num, den) == TwoTo(k) * Near(num, TwoTo(k) * den)
    decreases k
  {
    hide Near;
    if k > 0 {
      var h := TwoTo(k - 1);
      Regrouped(h, den);
      TimesGrows(1, h, den);
      RoundsToMultiple(num, 2 * den, k - 1);
      TimesAssociates(2, h, Near(num, h * (2 * den)));
    }
  }

  lemma TimesAssociates(a: nat, b: nat, c: nat)
    ensures a * (b * c) == (a * b) * c
  {
  }

  lemma PowersUsed()
    ensures TwoTo(7) == 128 && TwoTo(8) == 256 && TwoTo(9) == 512
  {
    assert TwoTo(1) == 2;
    TwoToAdds(1, 1);
    TwoToAdds(2, 2);
    TwoToAdds(4, 2);
    TwoToAdds(6, 1);
    TwoToAdds(7, 1);
    TwoToAdds(8, 1);
    hide TwoTo;
  }

  lemma SomeDollars()
    ensures Dollars(100) == 128 * 4503599627370496 && Dollars(110) == 128 * 4953959590107546
    ensures Dollars(220) == 256 * 4953959590107546 && Dollars(320) == 256 * 7205759403792794
    ensures Dollars(530) == 512 * 5967269506265907 && Dollars(660) == 512 * 7430939385161318
  {
    PowersUsed();
    RoundsToMultiple(100 * DOLLAR, 100, 7);
    RoundsToMultiple(110 * DOLLAR, 100, 7);
    RoundsToMultiple(220 * DOLLAR, 100, 8);
    RoundsToMultiple(320 * DOLLAR, 100, 8);
    RoundsToMultiple(530 * DOLLAR, 100, 9);
    RoundsToMultiple(660 * DOLLAR, 100, 9);
    hide TwoTo, Round;
  }

  lemma PlusRounds(a: nat, b: nat, k: nat, w: nat)
    requires w == TwoTo(k) && P52 * w <= a + b < P53 * w
    ensures w > 0 && Plus(a, b) == w * Near(a + b, w)
  {
    RoundsToMultiple(a + b, 1, k);
    hide Round, Near, TwoTo;
  }

  lemma SumsOfEqualPrices()
    ensures Plus(0, 256 * 4953959590107546) == 256 * 4953959590107546
    ensures Plus(256 * 4953959590107546, 256 * 4953959590107546) == 512 * 4953959590107546
    ensures Plus(512 * 4953959590107546, 256 * 4953959590107546) == 512 * 7430939385161319
  {
    PowersUsed();
    hide Plus, TwoTo;
    PlusRounds(0, 256 * 4953959590107546, 8, 256);
    PlusRounds(256 * 4953959590107546, 256 * 4953959590107546, 9, 512);
    PlusRounds(512 * 4953959590107546, 256 * 4953959590107546, 9, 512);
  }

  lemma SumsOfOldestPayments()
    ensures Plus(0, 128 * 4503599627370496) == 128 * 4503599627370496
    ensures Plus(128 * 4503599627370496, 128 * 4953959590107546) == 256 * 4728779608739021
    ensures Plus(256 * 4728779608739021, 256 * 7205759403792794) == 512 * 5967269506265908
  {
    PowersUsed();
    hide Plus, TwoTo;
    PlusRounds(0, 128 * 4503599627370496, 7, 128);
    PlusRounds(128 * 4503599627370496, 128 * 4953959590107546, 8, 256);
    PlusRounds(256 * 4728779608739021, 256 * 7205759403792794, 9, 512);
  }

  lemma ThreeAdded(amounts: seq<nat>, v: nat)
    requires amounts == [v, v, v]
    ensures Added(amounts[..3]) == Plus(Plus(Plus(0, v), v), v)
  {
    hide Plus;
    assert amounts[..3][..2] == amounts[..2] && amounts[..2][..1] == amounts[..1] && amounts[..1][..0] == [];
    assert Added(amounts[..1]) == Plus(0, v);
    assert Added(amounts[..2]) == Plus(Plus(0, v), v);
  }

  /** Three payments of 2.20 do not make up 6.60: their doubles add up to 6.6000000000000005. */
  lemma EqualPricesMiss()
    ensures Withdraw(InDollars([220, 220, 220]), Dollars(660)) == None
    ensures Withdrawal.Withdraw([220, 220, 220], 660).Some?
  {
    hide Dollars, Plus, Added, Withdraw, Withdrawal.Withdraw, Sum;
    var cents: seq<nat> := [220, 220, 220];
    SomeDollars();
    SumsOfEqualPrices();
    ThreeAdded(InDollars(cents), Dollars(220));
    UniformWithdrawalExactlyWhen(cents, 220, 660);
    EqualPrefixSum(cents, 220, 3);
    WithdrawsPrefix(cents, 3);
  }

  lemma TwoOfThreeSelected(amounts: seq<nat>, request: nat)
    requires |amounts| == 3 && Plus(0, amounts[0]) < request && Plus(Plus(0, amounts[0]), amounts[1]) < request
    requires Plus(Plus(Plus(0, amounts[0]), amounts[1]), amounts[2]) > request
    ensures Withdraw(amounts, request) == None
  {
    hide Plus;
    var one := Plus(0, amounts[0]);
    var two := Plus(one, amounts[1]);
    assert Select(amounts, request, 3, two).total == two;
    assert Select(amounts, request, 2, two).total == two;
    assert Select(amounts, request, 1, one).total == two;
  }

  /** Nor do 1.00, 1.10 and 3.20 make up 5.30, though they are all there is. */
  lemma OldestPaymentsMiss()
    ensures Withdraw(InDollars([100, 110, 320]), Dollars(530)) == None
    ensures Withdrawal.Withdraw([100, 110, 320], 530).Some?
  {
    hide Dollars, Plus, Withdraw, Withdrawal.Withdraw;
    var cents: seq<nat> := [100, 110, 320];
    SomeDollars();
    SumsOfOldestPayments();
    TwoOfThreeSelected(InDollars(cents), Dollars(530));
    hide Sum;
    SumOfThree(100, 110, 320);
    assert cents[..3] == cents;
    WithdrawsPrefix(cents, 3);
  }

  lemma SumOfThree(a: nat, b: nat, c: nat)
    ensures Sum([a, b, c]) == a + b + c
  {
    var all := [a, b, c];
    assert all[..2] == [a, b] && [a, b][..1] == [a] && [a][..0] == [];
    assert Sum([a]) == Sum([]) + a == a;
    assert Sum([a, b]) == Sum([a]) + b;
    assert Sum(all) == Sum([a, b]) + c;
  }

  // ---- quarters of a dollar ----

  lemma {:induction false} ReachedFromQuarters(cents: seq<nat>, x: int)
    requires Reach(cents, x) && forall i :: 0 <= i < |cents| ==> cents[i] % 25 == 0
    ensures 0 <= x <= Sum(cents) && x % 25 == 0
    decreases |cents|
  {
    if cents != [] {
      SumFromHead(cents);
      if Reach(cents[1..], x) {
        ReachedFromQuarters(cents[1..], x);
      } else {
        ReachedFromQuarters(cents[1..], x - cents[0]);
      }
    }
  }

  lemma {:induction false} SumFromHead(amounts: seq<int>)
    requires amounts != []
    ensures Sum(amounts) == amounts[0] + Sum(amounts[1..])
    decreases |amounts|
  {
    var n := |amounts| - 1;
    if n > 0 {
      SumFromHead(amounts[..n]);
      assert amounts[..n][1..] == amounts[1..][..n - 1];
    }
  }

  /** Whole quarters of a dollar are doubles. */
  lemma QuarterIsDouble(cents: nat)
    requires cents % 25 == 0 && cents <= MANY_CENTS
    ensures Dollars(cents) == (cents / 25) * (32 * P52)
    ensures Round(Dollars(cents), 1) == Dollars(cents)
  {
    hide TwoTo, Round;
    QuarterUnits();
    var m := cents / 25;
    HalvesExactly(m, 100, 57);
    HalvesExactly(m, 1, 57);
    assert cents * DOLLAR == (m * (32 * P52)) * 100;
  }

  lemma QuarterUnits()
    ensures TwoTo(57) == 32 * P52
  {
    hide TwoTo;
    TwoToFiftyTwo();
    TwoToAdds(52, 5);
  }

  /** If every payment is a whole number of quarters of a dollar, every sum is exact. */
  lemma QuartersAreExact(cents: seq<nat>)
    requires Sum(cents) <= MANY_CENTS && forall i :: 0 <= i < |cents| ==> cents[i] % 25 == 0
    ensures SumsExact(cents)
  {
    hide Round, Dollars, Plus, Reach, Sum;
    forall i, x: nat | 0 <= i < |cents| && Reach(cents[..i], x)
      ensures Plus(Dollars(x), Dollars(cents[i])) == Dollars(x + cents[i])
    {
      QuartersAdd(cents, i, x);
    }
  }

  lemma QuartersAdd(cents: seq<nat>, i: nat, x: nat)
    requires Sum(cents) <= MANY_CENTS && forall i :: 0 <= i < |cents| ==> cents[i] % 25 == 0
    requires i < |cents| && Reach(cents[..i], x)
    ensures Plus(Dollars(x), Dollars(cents[i])) == Dollars(x + cents[i])
  {
    hide Round, Reach, Sum;
    assert cents[..i] + [cents[i]] == cents[..i + 1];
    ReachWithOneMore(cents[..i], cents[i], x);
    ReachedFromQuarters(cents[..i + 1], x);
    ReachedFromQuarters(cents[..i + 1], x + cents[i]);
    PrefixSumGrows(cents, i + 1);
    hide Dollars;
    QuarterIsDouble(x);
    QuarterIsDouble(cents[i]);
    QuarterIsDouble(x + cents[i]);
  }
}
