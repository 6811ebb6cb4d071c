/** Which payments a withdrawal takes, after the loop of requestPayout in
    src/modules/payments/payouts/payouts.service.ts. Amounts are cents, oldest payment first. */
module Withdrawal {
  import opened Wrappers

  /** The positions taken and their total. */
  datatype Selection = Selection(chosen: seq<nat>, total: int)

  /** The loop from position i on, with `total` already collected: take what still fits, stop at the exact amount. */
  function Select(amounts: seq<int>, request: int, i: nat, total: int): Selection
    decreases |amounts| - i
  {
    if i >= |amounts| then Selection([], total)
    else if total + amounts[i] > request then Select(amounts, request, i + 1, total)
    else if total + amounts[i] == request then Selection([i], request)
    else
      var rest := Select(amounts, request, i + 1, total + amounts[i]);
      Selection([i] + rest.chosen, rest.total)
  }

  function Sum(amounts: seq<int>): int {
    if amounts == [] then 0 else Sum(amounts[..|amounts| - 1]) + amounts[|amounts| - 1]
  }

  /** The payments taken for a withdrawal, or None when the service answers that the amount is not available. */
  function Withdraw(amounts: seq<int>, request: int): Option<Selection> {
    var selection := Select(amounts, request, 0, 0);
    if request > Sum(amounts) || selection.total < request || selection.chosen == [] then None
    else Some(selection)
  }

  method SelectPayments(amounts: seq<int>, request: int) returns (taken: Option<Selection>)
    ensures taken == Withdraw(amounts, request)
  {
    var availableTotal := 0;
    for i := 0 to |amounts|
      invariant availableTotal == Sum(amounts[..i])
    {
      assert amounts[..i + 1][..i] == amounts[..i];
      availableTotal := availableTotal + amounts[i];
    }
    assert amounts[..|amounts|] == amounts;
    if request > availableTotal {
      return None;
    }
    var chosen: seq<nat> := [];
    var total := 0;
    var i := 0;
    while i < |amounts|
      invariant 0 <= i <= |amounts|
      invariant var rest := Select(amounts, request, i, total);
                Select(amounts, request, 0, 0) == Selection(chosen + rest.chosen, rest.total)
    {
      var nextTotal := total + amounts[i];
      if nextTotal > request {
        i := i + 1;
        continue;
      }
      ghost var rest := Select(amounts, request, i, total).chosen;
      assert chosen + rest == (chosen + [i]) + rest[1..];
      chosen := chosen + [i];
      total := nextTotal;
      if total == request {
        assert Select(amounts, request, 0, 0) == Selection(chosen, total);
        break;
      }
      i := i + 1;
    }
    assert chosen + [] == chosen;
    if total < request || chosen == [] {
      return None;
    }
    return Some(Selection(chosen, total));
  }

  // ---- what a selection is worth ----

  predicate AllAtLeast(amounts: seq<int>, least: int) {
    forall i :: 0 <= i < |amounts| ==> amounts[i] >= least
  }

  predicate AllEqual(amounts: seq<int>, d: int) {
    forall i :: 0 <= i < |amounts| ==> amounts[i] == d
  }

  predicate Increasing(positions: seq<nat>) {
    forall a, b :: 0 <= a < b < |positions| ==> positions[a] < positions[b]
  }

  /** Positions from lo on, in list order. */
  predicate SubList(positions: seq<nat>, lo: nat, n: nat) {
    Increasing(positions) && forall a :: 0 <= a < |positions| ==> lo <= positions[a] < n
  }

  function SumAt(amounts: seq<int>, positions: seq<nat>): int
    requires forall a :: 0 <= a < |positions| ==> positions[a] < |amounts|
  {
    if positions == [] then 0 else amounts[positions[0]] + SumAt(amounts, positions[1..])
  }

  /** A selection is a sub-list in list order, worth its total, and never overshoots. */
  lemma {:induction false} SelectionAdds(amounts: seq<int>, request: int, i: nat, total: int)
    ensures var s := Select(amounts, request, i, total);
            SubList(s.chosen, i, |amounts|)
            && s.total == total + SumAt(amounts, s.chosen)
            && (total <= request ==> s.total <= request)
    decreases |amounts| - i
  {
    if i < |amounts| {
      var taken := total + amounts[i] <= request;
      var rest := Select(amounts, request, i + 1, if taken then total + amounts[i] else total);
      SelectionAdds(amounts, request, i + 1, if taken then total + amounts[i] else total);
      if taken && total + amounts[i] != request {
        assert ([i] + rest.chosen)[1..] == rest.chosen;
      } else if taken {
        assert [i][1..] == [];
      }
    }
  }

  /** A withdrawal takes a sub-list of the payments worth exactly the request. */
  lemma WithdrawsExactly(amounts: seq<int>, request: int)
    requires request > 0
    ensures var taken := Withdraw(amounts, request);
            taken.Some? ==> SubList(taken.value.chosen, 0, |amounts|)
                            && SumAt(amounts, taken.value.chosen) == taken.value.total == request
  {
    SelectionAdds(amounts, request, 0, 0);
  }

  /** When the loop ends short of the request, nothing it skipped would still have fitted. */
  lemma {:induction false} SkippedDoNotFit(amounts: seq<int>, request: int, i: nat, total: int, p: nat)
    requires AllAtLeast(amounts, 0)
    requires i <= p < |amounts|
    ensures var s := Select(amounts, request, i, total);
            s.total >= total && (s.total < request && p !in s.chosen ==> s.total + amounts[p] > request)
    decreases |amounts| - i
  {
    var taken := total + amounts[i] <= request;
    var next := if taken then total + amounts[i] else total;
    SelectGrows(amounts, request, i, total);
    if p > i {
      SkippedDoNotFit(amounts, request, i + 1, next, p);
    }
  }

  lemma {:induction false} SelectGrows(amounts: seq<int>, request: int, i: nat, total: int)
    requires AllAtLeast(amounts, 0)
    ensures Select(amounts, request, i, total).total >= total
    decreases |amounts| - i
  {
    if i < |amounts| {
      SelectGrows(amounts, request, i + 1, if total + amounts[i] <= request then total + amounts[i] else total);
    }
  }

  lemma RefusedMeansNoneFits(amounts: seq<int>, request: int, p: nat)
    requires AllAtLeast(amounts, 0)
    requires request > 0 && Withdraw(amounts, request) == None && request <= Sum(amounts)
    requires p < |amounts| && p !in Select(amounts, request, 0, 0).chosen
    ensures Select(amounts, request, 0, 0).total + amounts[p] > request
  {
    SelectionAdds(amounts, request, 0, 0);
    SkippedDoNotFit(amounts, request, 0, 0, p);
  }

  // ---- when a withdrawal succeeds ----

  /** What remains of the request after taking, one by one, each payment that still fits. */
  function Leftover(amounts: seq<int>, request: int): int
    decreases |amounts|
  {
    if amounts == [] then request
    else Leftover(amounts[1..], if amounts[0] <= request then request - amounts[0] else request)
  }

  lemma {:induction false} LeftoverIsShortfall(amounts: seq<int>, request: int, i: nat, total: int)
    requires AllAtLeast(amounts, 1)
    requires i <= |amounts| && total < request
    ensures Select(amounts, request, i, total).total == request - Leftover(amounts[i..], request - total)
    decreases |amounts| - i
  {
    if i < |amounts| {
      assert amounts[i..][1..] == amounts[i + 1..];
      var next := total + amounts[i];
      if next == request {
        NothingFitsInZero(amounts[i + 1..]);
      } else {
        LeftoverIsShortfall(amounts, request, i + 1, if next < request then next else total);
      }
    }
  }

  lemma {:induction false} NothingFitsInZero(amounts: seq<int>)
    requires AllAtLeast(amounts, 1)
    ensures Leftover(amounts, 0) == 0
  {
    if amounts != [] {
      NothingFitsInZero(amounts[1..]);
    }
  }

  /** A withdrawal succeeds exactly when repeated taking leaves nothing over. */
  lemma SucceedsExactlyWhen(amounts: seq<int>, request: int)
    requires AllAtLeast(amounts, 1)
    requires request > 0
    ensures Withdraw(amounts, request).Some? <==> Leftover(amounts, request) == 0
  {
    LeftoverIsShortfall(amounts, request, 0, 0);
    assert amounts[0..] == amounts;
    SelectionAdds(amounts, request, 0, 0);
    SelectionWithinSum(amounts, request, 0, 0);
    assert amounts[..0] == [];
  }

  lemma {:induction false} SelectionWithinSum(amounts: seq<int>, request: int, i: nat, total: int)
    requires AllAtLeast(amounts, 0)
    requires i <= |amounts|
    ensures Select(amounts, request, i, total).total - total <= Sum(amounts) - Sum(amounts[..i])
    decreases |amounts| - i
  {
    if i == |amounts| {
      assert amounts[..i] == amounts;
    } else {
      assert amounts[..i + 1][..i] == amounts[..i];
      PrefixSumGrows(amounts, i + 1);
      SelectionWithinSum(amounts, request, i + 1, if total + amounts[i] <= request then total + amounts[i] else total);
    }
  }

  lemma {:induction false} PrefixSumGrows(amounts: seq<int>, i: nat)
    requires AllAtLeast(amounts, 0)
    requires i <= |amounts|
    ensures Sum(amounts[..i]) <= Sum(amounts)
    decreases |amounts| - i
  {
    if i == |amounts| {
      assert amounts[..i] == amounts;
    } else {
      assert amounts[..i + 1][..i] == amounts[..i];
      PrefixSumGrows(amounts, i + 1);
    }
  }

  function FirstPositions(i: nat, k: nat): seq<nat>
    requires i <= k
  {
    seq(k - i, j requires 0 <= j => i + j)
  }

  lemma {:induction false} SelectsPrefix(amounts: seq<int>, request: int, k: nat, i: nat)
    requires AllAtLeast(amounts, 1)
    requires i < k <= |amounts| && Sum(amounts[..k]) == request
    ensures Select(amounts, request, i, Sum(amounts[..i])) == Selection(FirstPositions(i, k), request)
    decreases k - i
  {
    assert amounts[..i + 1][..i] == amounts[..i];
    assert amounts[..k][..i + 1] == amounts[..i + 1];
    PrefixSumGrows(amounts[..k], i + 1);
    if i + 1 < k {
      assert amounts[..i + 2][..i + 1] == amounts[..i + 1];
      assert amounts[..k][..i + 2] == amounts[..i + 2];
      PrefixSumGrows(amounts[..k], i + 2);
      SelectsPrefix(amounts, request, k, i + 1);
      assert FirstPositions(i, k) == [i] + FirstPositions(i + 1, k);
    } else {
      assert FirstPositions(i, k) == [i];
    }
  }

  /** A request for the sum of the k oldest payments takes exactly those. */
  lemma WithdrawsPrefix(amounts: seq<int>, k: nat)
    requires AllAtLeast(amounts, 1)
    requires 0 < k <= |amounts|
    ensures Withdraw(amounts, Sum(amounts[..k])) == Some(Selection(FirstPositions(0, k), Sum(amounts[..k])))
  {
    assert amounts[..0] == [];
    SelectsPrefix(amounts, Sum(amounts[..k]), k, 0);
    PrefixSumGrows(amounts, k);
  }

  lemma {:induction false} UniformLeftoverCounts(amounts: seq<int>, d: int, request: int) returns (m: nat)
    requires AllEqual(amounts, d)
    ensures m <= |amounts| && Leftover(amounts, request) == request - d * m
    decreases |amounts|
  {
    if amounts == [] {
      m := 0;
    } else if d <= request {
      m := UniformLeftoverCounts(amounts[1..], d, request - d);
      m := m + 1;
    } else {
      m := UniformLeftoverCounts(amounts[1..], d, request);
    }
  }

  lemma {:induction false} MultiplesLeaveNothing(amounts: seq<int>, d: int, m: nat)
    requires d > 0 && AllEqual(amounts, d) && m <= |amounts|
    ensures Leftover(amounts, d * m) == 0
    decreases |amounts|
  {
    if m == 0 {
      NothingFitsInZero(amounts);
    } else {
      assert d * m == d * (m - 1) + d && d * (m - 1) >= 0;
      MultiplesLeaveNothing(amounts[1..], d, m - 1);
    }
  }

  /** When every trip costs the same, a withdrawal succeeds exactly for the multiples that are available. */
  lemma UniformWithdrawal(amounts: seq<int>, d: int, request: int)
    requires d > 0 && request > 0 && AllEqual(amounts, d)
    ensures Withdraw(amounts, request).Some? <==> exists m :: 0 <= m <= |amounts| && request == d * m
  {
    SucceedsExactlyWhen(amounts, request);
    var m := UniformLeftoverCounts(amounts, d, request);
    if k: nat :| k <= |amounts| && request == d * k {
      MultiplesLeaveNothing(amounts, d, k);
    }
  }

  // ---- when the loop never misses ----

  /** Some of the payments sum to r. */
  predicate Reach(amounts: seq<int>, r: int) {
    if amounts == [] then r == 0 else Reach(amounts[1..], r) || Reach(amounts[1..], r - amounts[0])
  }

  /** Whatever a payment makes up together with later ones, the later ones make up without it. */
  ghost predicate Exchange(amounts: seq<int>) {
    amounts == [] ||
    (Exchange(amounts[1..])
     && forall r :: r >= 0 && Reach(amounts[1..], r + amounts[0]) ==> Reach(amounts[1..], r))
  }

  /** Positions that make up r, if there are any. */
  lemma {:induction false} ReachedAt(amounts: seq<int>, r: int) returns (positions: seq<nat>)
    requires Reach(amounts, r)
    ensures SubList(positions, 0, |amounts|) && SumAt(amounts, positions) == r
    decreases |amounts|
  {
    if amounts == [] {
      positions := [];
    } else {
      var taken := !Reach(amounts[1..], r);
      var later := ReachedAt(amounts[1..], if taken then r - amounts[0] else r);
      SumMoved(amounts, later);
      var moved := Moved(later);
      positions := if taken then [0] + moved else moved;
      assert taken ==> positions[1..] == moved;
    }
  }

  function Moved(positions: seq<nat>): seq<nat> {
    seq(|positions|, a requires 0 <= a < |positions| => positions[a] + 1)
  }

  lemma {:induction false} SumMoved(amounts: seq<int>, positions: seq<nat>)
    requires amounts != [] && forall a :: 0 <= a < |positions| ==> positions[a] < |amounts| - 1
    ensures SumAt(amounts, Moved(positions)) == SumAt(amounts[1..], positions)
    decreases |positions|
  {
    if positions != [] {
      SumMoved(amounts, positions[1..]);
      assert Moved(positions)[1..] == Moved(positions[1..]);
    }
  }

  lemma {:induction false} PositionsReach(amounts: seq<int>, positions: seq<nat>)
    requires SubList(positions, 0, |amounts|)
    ensures Reach(amounts, SumAt(amounts, positions))
    decreases |amounts|
  {
    if amounts == [] {
      assert positions == [];
    } else {
      var taken := positions != [] && positions[0] == 0;
      var rest := if taken then positions[1..] else positions;
      assert forall a :: 0 <= a < |rest| ==> 1 <= rest[a] by {
        forall a | 0 <= a < |rest| ensures 1 <= rest[a] {
          if taken { assert positions[0] < positions[a + 1]; } else { assert a == 0 || positions[0] < positions[a]; }
        }
      }
      var back := seq(|rest|, a requires 0 <= a < |rest| => rest[a] - 1);
      assert Moved(back) == rest;
      SumMoved(amounts, back);
      PositionsReach(amounts[1..], back);
    }
  }

  /** Reach is about sub-lists of the payments. */
  lemma ReachExactlyWhen(amounts: seq<int>, r: int)
    ensures Reach(amounts, r) <==>
            exists positions: seq<nat> :: SubList(positions, 0, |amounts|) && SumAt(amounts, positions) == r
  {
    if Reach(amounts, r) { var positions := ReachedAt(amounts, r); }
    if positions: seq<nat> :| SubList(positions, 0, |amounts|) && SumAt(amounts, positions) == r {
      PositionsReach(amounts, positions);
    }
  }

  lemma {:induction false} NothingNegative(amounts: seq<int>, r: int)
    requires AllAtLeast(amounts, 0) && r < 0
    ensures !Reach(amounts, r)
    decreases |amounts|
  {
    if amounts != [] {
      NothingNegative(amounts[1..], r);
      NothingNegative(amounts[1..], r - amounts[0]);
    }
  }

  /** What the loop takes is made up of payments. */
  lemma {:induction false} TakenIsReached(amounts: seq<int>, r: int)
    ensures Reach(amounts, r - Leftover(amounts, r))
    decreases |amounts|
  {
    if amounts != [] {
      TakenIsReached(amounts[1..], if amounts[0] <= r then r - amounts[0] else r);
    }
  }

  lemma {:induction false} ExchangeSuffices(amounts: seq<int>, r: int)
    requires AllAtLeast(amounts, 1) && Exchange(amounts) && r >= 0 && Reach(amounts, r)
    ensures Leftover(amounts, r) == 0
    decreases |amounts|
  {
    if amounts != [] {
      var a, rest := amounts[0], amounts[1..];
      if a <= r {
        assert Reach(rest, r) ==> Reach(rest, (r - a) + a);
        ExchangeSuffices(rest, r - a);
      } else {
        NothingNegative(rest, r - a);
        ExchangeSuffices(rest, r);
      }
    }
  }

  lemma {:induction false} ExchangeIsNeeded(amounts: seq<int>)
    requires AllAtLeast(amounts, 1)
    requires forall r :: r >= 0 && Reach(amounts, r) ==> Leftover(amounts, r) == 0
    ensures Exchange(amounts)
    decreases |amounts|
  {
    if amounts != [] {
      var a, rest := amounts[0], amounts[1..];
      forall r | r >= 0 && Reach(rest, r) ensures Leftover(rest, r) == 0 {
        assert Reach(amounts, r + a) && Leftover(amounts, r + a) == Leftover(rest, r);
      }
      ExchangeIsNeeded(rest);
      forall r | r >= 0 && Reach(rest, r + a) ensures Reach(rest, r) {
        assert Reach(amounts, r + a) && Leftover(amounts, r + a) == Leftover(rest, r);
        TakenIsReached(rest, r);
      }
    }
  }

  lemma GrantedOnlyWhatIsThere(amounts: seq<int>, request: int)
    requires AllAtLeast(amounts, 1) && request > 0 && Withdraw(amounts, request).Some?
    ensures Reach(amounts, request)
  {
    SucceedsExactlyWhen(amounts, request);
    TakenIsReached(amounts, request);
  }

  /** For these payments, the loop grants exactly the amounts that some of them make up, exactly when exchanging a
      payment for later ones is always possible. */
  lemma NeverMissesExactlyWhen(amounts: seq<int>)
    requires AllAtLeast(amounts, 1)
    ensures (forall request :: request > 0 ==> (Withdraw(amounts, request).Some? <==> Reach(amounts, request)))
            <==> Exchange(amounts)
  {
    forall request | request > 0 && Withdraw(amounts, request).Some? ensures Reach(amounts, request) {
      GrantedOnlyWhatIsThere(amounts, request);
    }
    if Exchange(amounts) {
      forall request | request > 0 && Reach(amounts, request) ensures Withdraw(amounts, request).Some? {
        ExchangeSuffices(amounts, request);
        SucceedsExactlyWhen(amounts, request);
      }
    }
    if forall request :: request > 0 && Reach(amounts, request) ==> Withdraw(amounts, request).Some? {
      forall r | r >= 0 && Reach(amounts, r) ensures Leftover(amounts, r) == 0 {
        if r == 0 { NothingFitsInZero(amounts); } else { SucceedsExactlyWhen(amounts, r); }
      }
      ExchangeIsNeeded(amounts);
    }
  }

  /** Payments of one price can always be exchanged. */
  lemma {:induction false} UniformExchange(amounts: seq<int>, d: int)
    requires d > 0 && AllEqual(amounts, d)
    ensures Exchange(amounts)
  {
    forall r | r >= 0 && Reach(amounts, r) ensures Leftover(amounts, r) == 0 {
      var m := UniformReach(amounts, d, r);
      MultiplesLeaveNothing(amounts, d, m);
    }
    ExchangeIsNeeded(amounts);
  }

  lemma {:induction false} UniformReach(amounts: seq<int>, d: int, r: int) returns (m: nat)
    requires AllEqual(amounts, d) && Reach(amounts, r)
    ensures m <= |amounts| && r == d * m
    decreases |amounts|
  {
    if amounts == [] {
      m := 0;
    } else if Reach(amounts[1..], r) {
      m := UniformReach(amounts[1..], d, r);
    } else {
      m := UniformReach(amounts[1..], d, r - d);
      m := m + 1;
    }
  }

  /** The loop can refuse an amount that other payments would make up: 500 from 300, 250 and 250. */
  lemma GreedyCanMiss()
    ensures Withdraw([300, 250, 250], 500) == None
    ensures SumAt([300, 250, 250], [1, 2]) == 500
  {
    var amounts := [300, 250, 250];
    assert Select(amounts, 500, 1, 300).total == 300 by {
      assert Select(amounts, 500, 2, 300) == Select(amounts, 500, 3, 300) == Selection([], 300);
    }
    assert Select(amounts, 500, 0, 0).total == 300;
    assert [1, 2][1..] == [2] && [2][1..] == [];
    assert SumAt(amounts, [2]) == 250;
  }

  /** In that list the 300 cannot be exchanged: the two behind it make up 200 + 300, but not 200. */
  lemma NoExchange()
    ensures Reach([300, 250, 250], 500) && !Exchange([300, 250, 250])
  {
    var all, rest := [300, 250, 250], [250, 250];
    assert all[1..] == rest && rest[1..] == [250] && [250][1..] == [];
    assert Reach([250], 250) && Reach(rest, 500);
    assert !Reach([250], 200) && !Reach([250], -50) && !Reach(rest, 200);
    assert Reach(rest, 200 + 300);
  }
}
