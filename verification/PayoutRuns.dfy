/** What becomes of one payout over whole runs: how often PayPal is asked for the money, and how it ends. */
module PayoutRuns {
  import opened Wrappers
  import opened Domain
  import Database
  import Payments
  import Payouts
  import Bookings
  import Routes
  import StopOrder
  import opened Runs
  import opened Evolution
  import opened TripInvariant

  /** Whether the step sends PayPal a batch for the payout. */
  predicate Sends(w: World, op: Op, id: Id) {
    op.ExecutePayout? && op.payout == id && op.hasEmail
    && id in w.payouts && w.payouts[id].status == PayoutPending && w.payouts[id].amount >= Payouts.MINIMUM_CENTS
  }

  predicate Fails(w: World, op: Op, id: Id) {
    op == FailPayout(id) && id in w.payouts
  }

  /** How many batches a run sends for a payout. */
  ghost function Batches(w: World, dist: Distance, ops: seq<Op>, id: Id): nat {
    if ops == [] then 0 else
    var n := |ops| - 1;
    Batches(w, dist, ops[..n], id) + if Sends(Run(w, dist, ops[..n]), ops[n], id) then 1 else 0
  }

  /** How often a run marks a payout as failed by hand. */
  ghost function Failures(w: World, dist: Distance, ops: seq<Op>, id: Id): nat {
    if ops == [] then 0 else
    var n := |ops| - 1;
    Failures(w, dist, ops[..n], id) + if Fails(Run(w, dist, ops[..n]), ops[n], id) then 1 else 0
  }

  // ---- one step ----

  /** What a step makes of a payout row. */
  ghost predicate Advances(w: World, op: Op, id: Id, after: Payout)
    requires id in w.payouts
  {
    var before := w.payouts[id];
    after.attempts == before.attempts + (if Sends(w, op, id) || op == FailPayout(id) then 1 else 0)
    && (op == FailPayout(id) ==> after.status == PayoutFailed)
    && (before.status == PayoutPaid && op != FailPayout(id) ==> after.status == PayoutPaid)
    && (before.status == PayoutFailed ==> after.status == PayoutFailed)
    && (Sends(w, op, id) ==>
          (after.status == PayoutPending <==> op.answer.BatchAnswer? && op.answer.status == Payouts.BatchOther))
  }

  lemma TripsLeavePayouts(w: World, dist: Distance, op: Op)
    ensures Trip(w, dist, op).payouts == w.payouts
  {
    hide StopOrder.Inserted, StopOrder.Removed, Bookings.BookingRefusal, Routes.RouteRefusal, Routes.WithStops,
      Routes.OwnerRefusal, Bookings.DriverRefusal, ConfirmedOn;
  }

  lemma PaymentsLeavePayouts(w: World, op: Op)
    requires op.CreatePayment? || op.CreatePaypalOrder? || op.Capture? || op.ReversePayment?
    ensures Money(w, op).payouts == w.payouts
  {
    hide Payments.OwnOnlinePayment, Payments.Refund, PaymentsOf;
  }

  /** A step that makes payouts leaves the others alone, and the new ones are untried. */
  ghost predicate AddsPayouts(w: World, after: World) {
    forall id :: (id in w.payouts ==> id in after.payouts && after.payouts[id] == w.payouts[id])
                 && (id !in w.payouts && id in after.payouts ==>
                       after.payouts[id].attempts == 0 && after.payouts[id].status == PayoutPending)
  }

  lemma RequestingAdds(w: World, op: Op)
    requires KeysBelow(w) && op.RequestPayout? && Answers(w, op)
    ensures AddsPayouts(w, Money(w, op))
  {
    hide Payouts.Linked, Payouts.AmountsOf, Payouts.TakenRows, Database.IsAgeListing;
  }

  lemma GeneratingAdds(w: World, op: Op)
    requires KeysBelow(w) && op.GeneratePayouts? && Answers(w, op)
    ensures AddsPayouts(w, Money(w, op))
  {
    Payouts.PayoutsCreated(w, w, op.rows, op.period, Payouts.DriversOf(w, op.rows));
    hide Payouts.DriversOf, Payouts.CreatePayouts, Payouts.GroupTotal;
  }

  lemma PayoutAdvances(w: World, dist: Distance, op: Op, id: Id)
    requires KeysBelow(w)
    ensures var after := Apply(w, dist, op);
            (id in w.payouts ==> id in after.payouts && Advances(w, op, id, after.payouts[id]))
            && (id !in w.payouts && id in after.payouts ==>
                  after.payouts[id].attempts == 0 && after.payouts[id].status == PayoutPending)
  {
    if IsTrip(op) {
      TripsLeavePayouts(w, dist, op);
      hide Trip;
    } else if Answers(w, op) {
      hide Trip;
      if op.RequestPayout? {
        RequestingAdds(w, op);
        hide Money;
      } else if op.GeneratePayouts? {
        GeneratingAdds(w, op);
        hide Money;
      } else if op.ExecutePayout? || op.SyncPayouts? || op.FailPayout? {
        CarryingOutAdvances(w, op);
        hide Money;
      } else {
        PaymentsLeavePayouts(w, op);
        hide Money;
      }
    }
  }

  ghost predicate AllAdvance(w: World, op: Op, after: World) {
    after.payouts.Keys == w.payouts.Keys && forall id :: id in w.payouts ==> Advances(w, op, id, after.payouts[id])
  }

  lemma CarryingOutAdvances(w: World, op: Op)
    requires op.ExecutePayout? || op.SyncPayouts? || op.FailPayout?
    ensures AllAdvance(w, op, Money(w, op))
  {
    if op.ExecutePayout? { ExecutingAdvances(w, op); } else if op.SyncPayouts? { SyncingAdvances(w, op); }
    else { FailingAdvances(w, op); }
    hide Money, AllAdvance;
  }

  /** Executing a payout changes its own row or nothing. */
  lemma ExecutedRow(w: World, op: Op)
    requires op.ExecutePayout?
    ensures var after := Payouts.ExecutePayout(w, op.payout, op.hasEmail, op.answer, op.now).0;
            if Sends(w, op, op.payout) then
              op.payout in after.payouts && after == w.(payouts := w.payouts[op.payout := after.payouts[op.payout]])
            else after == w
  {
    hide Payouts.AfterBatch;
  }

  lemma SentRow(w: World, op: Op)
    requires op.ExecutePayout? && Sends(w, op, op.payout)
    ensures Advances(w, op, op.payout,
                     Payouts.ExecutePayout(w, op.payout, op.hasEmail, op.answer, op.now).0.payouts[op.payout])
  {
  }

  lemma ExecutingAdvances(w: World, op: Op)
    requires op.ExecutePayout?
    ensures AllAdvance(w, op, Money(w, op))
  {
    var after := Payouts.ExecutePayout(w, op.payout, op.hasEmail, op.answer, op.now).0;
    assert Money(w, op) == after;
    ExecutedRow(w, op);
    if Sends(w, op, op.payout) { SentRow(w, op); }
    hide Money, Payouts.ExecutePayout;
    forall id | id in w.payouts ensures id in after.payouts && Advances(w, op, id, after.payouts[id]) {}
  }

  lemma SyncingAdvances(w: World, op: Op)
    requires op.SyncPayouts?
    ensures AllAdvance(w, op, Money(w, op))
  {
    assert Money(w, op) == Payouts.SyncPayouts(w, op.answers, op.now);
    hide Money;
  }

  lemma FailingAdvances(w: World, op: Op)
    requires op.FailPayout?
    ensures AllAdvance(w, op, Money(w, op))
  {
    assert Money(w, op) == Payouts.FailPayout(w, op.payout).0;
    hide Money;
  }

  // ---- how a payout ends ----

  /** PayPal reports the payout's batch as this status: when it is executed, or when a batch it has is asked about. */
  predicate Reported(w: World, op: Op, id: Id, status: Payouts.BatchStatus)
    requires id in w.payouts
  {
    var payout := w.payouts[id];
    payout.status == PayoutPending
    && ((op.ExecutePayout? && op.payout == id && op.hasEmail && payout.amount >= 500
         && op.answer.BatchAnswer? && op.answer.status == status)
        || (op.SyncPayouts? && payout.batch.Some? && id in op.answers
            && op.answers[id].BatchAnswer? && op.answers[id].status == status))
  }

  /** Executing the payout ends in an error of PayPal. */
  predicate RunsIntoError(w: World, op: Op, id: Id)
    requires id in w.payouts
  {
    op.ExecutePayout? && op.payout == id && op.hasEmail && w.payouts[id].status == PayoutPending
    && w.payouts[id].amount >= 500 && op.answer.BatchError?
  }

  /** What the step makes of status and time of payment. */
  ghost predicate Ends(w: World, op: Op, id: Id, after: Payout)
    requires id in w.payouts
  {
    var before := w.payouts[id];
    if Reported(w, op, id, Payouts.BatchSuccess) then after.status == PayoutPaid && after.paidAt == Some(op.now)
    else if Reported(w, op, id, Payouts.BatchFailure) || RunsIntoError(w, op, id) || op == FailPayout(id) then
      after.status == PayoutFailed && after.paidAt == before.paidAt
    else after.status == before.status && after.paidAt == before.paidAt
  }

  lemma OwnExecutionEnds(w: World, op: Op)
    requires op.ExecutePayout? && Sends(w, op, op.payout)
    ensures Ends(w, op, op.payout,
                 Payouts.ExecutePayout(w, op.payout, op.hasEmail, op.answer, op.now).0.payouts[op.payout])
  {
  }

  lemma UnsentEndsNothing(w: World, op: Op, id: Id)
    requires op.ExecutePayout? && id in w.payouts && !Sends(w, op, id)
    ensures Ends(w, op, id, w.payouts[id])
  {
  }

  lemma ExecutionEnds(w: World, op: Op, id: Id)
    requires op.ExecutePayout? && id in w.payouts
    ensures id in Money(w, op).payouts && Ends(w, op, id, Money(w, op).payouts[id])
  {
    assert Money(w, op) == Payouts.ExecutePayout(w, op.payout, op.hasEmail, op.answer, op.now).0;
    hide Money, Payouts.ExecutePayout, Ends;
    ExecutedRow(w, op);
    if Sends(w, op, id) { OwnExecutionEnds(w, op); } else { UnsentEndsNothing(w, op, id); }
  }

  lemma SyncEnds(w: World, op: Op, id: Id)
    requires op.SyncPayouts? && id in w.payouts
    ensures id in Money(w, op).payouts && Ends(w, op, id, Money(w, op).payouts[id])
  {
    assert Money(w, op) == Payouts.SyncPayouts(w, op.answers, op.now);
    hide Money;
  }

  lemma FailureEnds(w: World, op: Op, id: Id)
    requires op.FailPayout? && id in w.payouts
    ensures id in Money(w, op).payouts && Ends(w, op, id, Money(w, op).payouts[id])
  {
    assert Money(w, op) == Payouts.FailPayout(w, op.payout).0;
    hide Money;
  }

  lemma OthersEndNothing(w: World, op: Op, id: Id)
    requires id in w.payouts && !op.ExecutePayout? && !op.SyncPayouts? && !op.FailPayout?
    ensures Ends(w, op, id, w.payouts[id])
  {
  }

  /** A step of any kind turns a payout to paid exactly when PayPal reports its batch as paid, and to failed exactly
      when it reports the batch as failed, answers with an error, or somebody marks the payout as failed. */
  lemma PayoutEndsExactlyWhen(w: World, dist: Distance, op: Op, id: Id)
    requires KeysBelow(w) && id in w.payouts
    ensures var after := Apply(w, dist, op).payouts; id in after && Ends(w, op, id, after[id])
  {
    if op.ExecutePayout? {
      ExecutionEnds(w, op, id);
    } else if op.SyncPayouts? {
      SyncEnds(w, op, id);
    } else if op.FailPayout? {
      FailureEnds(w, op, id);
    } else {
      OthersEndNothing(w, op, id);
      OtherStepsKeepPayouts(w, dist, op, id);
      hide Apply;
    }
    hide Trip, Money, Ends, KeysBelow;
  }

  lemma OtherStepsKeepPayouts(w: World, dist: Distance, op: Op, id: Id)
    requires KeysBelow(w) && id in w.payouts && !op.ExecutePayout? && !op.SyncPayouts? && !op.FailPayout?
    ensures id in Apply(w, dist, op).payouts && Apply(w, dist, op).payouts[id] == w.payouts[id]
  {
    hide Trip, Money;
    if IsTrip(op) {
      TripsLeavePayouts(w, dist, op);
    } else if Answers(w, op) {
      if op.RequestPayout? {
        RequestingAdds(w, op);
      } else if op.GeneratePayouts? {
        GeneratingAdds(w, op);
      } else {
        PaymentsLeavePayouts(w, op);
      }
    }
  }

  // ---- runs ----

  /** A paid payout is still paid after a run exactly when nobody marked it as failed. */
  lemma {:induction false} PaidUntilMarkedFailed(w: World, dist: Distance, ops: seq<Op>, id: Id)
    requires KeysBelow(w) && id in w.payouts && w.payouts[id].status == PayoutPaid
    ensures var now := Run(w, dist, ops).payouts;
            id in now && (now[id].status == PayoutPaid <==> FailPayout(id) !in ops)
            && (now[id].status == PayoutPaid || now[id].status == PayoutFailed)
    decreases |ops|
  {
    if ops != [] {
      var n := |ops| - 1;
      RunEvolves(w, dist, ops[..n]);
      PaidUntilMarkedFailed(w, dist, ops[..n], id);
      PayoutAdvances(Run(w, dist, ops[..n]), dist, ops[n], id);
      assert ops == ops[..n] + [ops[n]];
      hide Apply, KeysBelow, Evolves;
    }
  }

  /** A payout counts an attempt for every batch sent and every time it was marked as failed; one that is pending was
      never marked. */
  lemma {:induction false} AttemptsCounted(dist: Distance, ops: seq<Op>, id: Id)
    ensures var w := Run(EmptyWorld, dist, ops);
            KeysBelow(w)
            && (id !in w.payouts ==> Batches(EmptyWorld, dist, ops, id) == 0 == Failures(EmptyWorld, dist, ops, id))
            && (id in w.payouts ==>
                  w.payouts[id].attempts == Batches(EmptyWorld, dist, ops, id) + Failures(EmptyWorld, dist, ops, id)
                  && (w.payouts[id].status == PayoutPending ==> Failures(EmptyWorld, dist, ops, id) == 0))
    decreases |ops|
  {
    EmptyIsSound();
    RunEvolves(EmptyWorld, dist, ops);
    hide KeysBelow, Evolves, TripsSound;
    if ops != [] {
      var n := |ops| - 1;
      AttemptsCounted(dist, ops[..n], id);
      PayoutAdvances(Run(EmptyWorld, dist, ops[..n]), dist, ops[n], id);
      RowsStay(Run(EmptyWorld, dist, ops[..n]), dist, ops[n], id);
      hide Apply;
    }
  }

  lemma RowsStay(w: World, dist: Distance, op: Op, id: Id)
    requires KeysBelow(w)
    ensures id in w.payouts ==> id in Apply(w, dist, op).payouts
    ensures id in w.payouts && Apply(w, dist, op).payouts[id].status == PayoutPending ==>
              w.payouts[id].status == PayoutPending && !Fails(w, op, id)
  {
    StepEvolves(w, dist, op);
    PayoutAdvances(w, dist, op, id);
    hide Apply, KeysBelow;
  }

  ghost predicate SentAgain(dist: Distance, ops: seq<Op>, id: Id) {
    exists j :: 0 <= j < |ops| && SendsAgain(Run(EmptyWorld, dist, ops[..j]), ops[j], id)
  }

  lemma SentAgainStep(dist: Distance, ops: seq<Op>, id: Id)
    requires ops != []
    ensures var n := |ops| - 1;
            SentAgain(dist, ops, id)
            <==> SentAgain(dist, ops[..n], id) || SendsAgain(Run(EmptyWorld, dist, ops[..n]), ops[n], id)
  {
    var n := |ops| - 1;
    hide Run, SendsAgain;
    assert forall j :: 0 <= j < n ==> ops[..n][..j] == ops[..j] && ops[..n][j] == ops[j];
    if SentAgain(dist, ops, id) {
      var j :| 0 <= j < |ops| && SendsAgain(Run(EmptyWorld, dist, ops[..j]), ops[j], id);
      if j < n { assert SendsAgain(Run(EmptyWorld, dist, ops[..n][..j]), ops[..n][j], id); }
    }
    if SentAgain(dist, ops[..n], id) {
      var j :| 0 <= j < n && SendsAgain(Run(EmptyWorld, dist, ops[..n][..j]), ops[..n][j], id);
      assert SendsAgain(Run(EmptyWorld, dist, ops[..j]), ops[j], id);
    }
  }

  /** A run sends more than one batch for a payout exactly when it executes it while it is pending although an attempt
      has already been counted. */
  lemma {:induction false} SentAgainExactlyWhen(dist: Distance, ops: seq<Op>, id: Id)
    ensures Batches(EmptyWorld, dist, ops, id) > 1 <==> SentAgain(dist, ops, id)
    decreases |ops|
  {
    if ops != [] {
      var n := |ops| - 1;
      SentAgainExactlyWhen(dist, ops[..n], id);
      AttemptsCounted(dist, ops[..n], id);
      SentAgainStep(dist, ops, id);
      hide KeysBelow, Run, Failures, SentAgain;
    }
  }

  predicate SendsAgain(w: World, op: Op, id: Id) {
    Sends(w, op, id) && w.payouts[id].attempts > 0
  }

  lemma SentIsPending(w: World, op: Op, id: Id)
    requires Sends(w, op, id)
    ensures id in w.payouts && w.payouts[id].status == PayoutPending
  {
  }

  lemma SendOutcome(w: World, dist: Distance, op: Op, id: Id)
    requires KeysBelow(w) && Sends(w, op, id)
    ensures var after := Apply(w, dist, op).payouts;
            id in after
            && (after[id].status == PayoutPending ==> op.answer.BatchAnswer? && op.answer.status == Payouts.BatchOther)
  {
    PayoutAdvances(w, dist, op, id);
    hide Apply, KeysBelow;
  }

  /** Only a batch that PayPal neither paid nor refused can be followed by another one. */
  lemma OnlyOpenAnswersAreSentAgain(dist: Distance, ops: seq<Op>, id: Id, i: nat, j: nat)
    requires i < j < |ops|
    requires Sends(Run(EmptyWorld, dist, ops[..i]), ops[i], id) && Sends(Run(EmptyWorld, dist, ops[..j]), ops[j], id)
    ensures ops[i].answer.BatchAnswer? && ops[i].answer.status == Payouts.BatchOther
  {
    hide KeysBelow, Apply, Run, Sends;
    ReachedKeys(dist, ops[..i]);
    ReachedKeys(dist, ops[..i + 1]);
    NextState(dist, ops, i);
    SendIsExecution(Run(EmptyWorld, dist, ops[..i]), ops[i], id);
    SendOutcome(Run(EmptyWorld, dist, ops[..i]), dist, ops[i], id);
    RunSplits(EmptyWorld, dist, ops[..i + 1], ops[i + 1..j]);
    assert ops[..j] == ops[..i + 1] + ops[i + 1..j];
    SentIsPending(Run(EmptyWorld, dist, ops[..j]), ops[j], id);
    OnlyPendingIsSent(Run(EmptyWorld, dist, ops[..i + 1]), dist, ops[i + 1..j], id);
  }

  lemma SendIsExecution(w: World, op: Op, id: Id)
    requires Sends(w, op, id)
    ensures op.ExecutePayout?
  {
  }

  lemma NextState(dist: Distance, ops: seq<Op>, i: nat)
    requires i < |ops|
    ensures Run(EmptyWorld, dist, ops[..i + 1]) == Apply(Run(EmptyWorld, dist, ops[..i]), dist, ops[i])
  {
    hide Apply;
    assert ops[..i + 1][..i] == ops[..i];
  }

  /** What is not pending is never pending again. */
  lemma OnlyPendingIsSent(w: World, dist: Distance, ops: seq<Op>, id: Id)
    requires KeysBelow(w) && id in w.payouts
    ensures var later := Run(w, dist, ops);
            id in later.payouts && (later.payouts[id].status == PayoutPending ==> w.payouts[id].status == PayoutPending)
  {
    RunEvolves(w, dist, ops);
    hide KeysBelow, Run;
  }
}
