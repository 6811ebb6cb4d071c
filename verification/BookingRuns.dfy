/** What becomes of one booking over whole runs: when its code counts as used, and how it ends. */
module BookingRuns {
  import opened Wrappers
  import opened Domain
  import opened JsText
  import StopOrder
  import Bookings
  import Routes
  import opened Runs
  import opened Evolution
  import opened TripInvariant

  predicate Verifies(w: World, op: Op, b: Id) {
    op.VerifyOtp? && op.b == b && Bookings.CanVerify(w, op.driver, b, op.otp)
  }

  predicate Completes(w: World, op: Op, b: Id) {
    op.CompleteBooking? && op.b == b && Bookings.CanComplete(w, op.driver, b)
  }

  predicate MarksAbsent(w: World, op: Op, b: Id) {
    op.MarkNoShow? && op.b == b && Bookings.CanMarkNoShow(w, op.driver, b, op.now)
  }

  /** Its passenger cancels the confirmed booking, or the driver of its active route cancels the route. */
  predicate Cancels(w: World, op: Op, b: Id) {
    b in w.bookings && w.bookings[b].state == Confirmada
    && ((op.CancelBooking? && op.b == b && op.passenger == w.bookings[b].passenger)
        || (op.CancelRoute? && op.r == w.bookings[b].route && Routes.OwnsActive(w, op.driver, op.r)))
  }

  /** What a step makes of a booking row. */
  ghost predicate Advances(w: World, op: Op, b: Id, after: Booking)
    requires b in w.bookings
  {
    var before := w.bookings[b];
    (after.otpUsed <==> before.otpUsed || Verifies(w, op, b))
    && after.state == if Completes(w, op, b) then Completada
                      else if MarksAbsent(w, op, b) then BookingState.NoShow
                      else if Cancels(w, op, b) then ReservaCancelada
                      else before.state
  }

  lemma VerifyingAdvances(w: World, dist: Distance, op: Op, b: Id)
    requires b in w.bookings && op.VerifyOtp?
    ensures var after := Trip(w, dist, op); b in after.bookings && Advances(w, op, b, after.bookings[b])
  {
    hide Trim;
  }

  lemma CompletingAdvances(w: World, dist: Distance, op: Op, b: Id)
    requires b in w.bookings && op.CompleteBooking?
    ensures var after := Trip(w, dist, op); b in after.bookings && Advances(w, op, b, after.bookings[b])
  {
    hide ConfirmedOn;
  }

  lemma AbsenceAdvances(w: World, dist: Distance, op: Op, b: Id)
    requires b in w.bookings && op.MarkNoShow?
    ensures var after := Trip(w, dist, op); b in after.bookings && Advances(w, op, b, after.bookings[b])
  {
    hide StopOrder.Removed, Bookings.PendingFailed, ConfirmedOn;
  }

  lemma CancellationsAdvance(w: World, dist: Distance, op: Op, b: Id)
    requires b in w.bookings && (op.CancelBooking? || op.CancelRoute?)
    ensures var after := Trip(w, dist, op); b in after.bookings && Advances(w, op, b, after.bookings[b])
  {
    hide Bookings.CancelledPayments, Routes.OpenPayments, Routes.PaymentsCancelled, Bookings.RefundDue;
  }

  lemma OtherTripsAdvance(w: World, dist: Distance, op: Op, b: Id)
    requires KeysBelow(w) && b in w.bookings && IsTrip(op)
    requires !op.VerifyOtp? && !op.CompleteBooking? && !op.MarkNoShow? && !op.CancelBooking? && !op.CancelRoute?
    ensures var after := Trip(w, dist, op); b in after.bookings && after.bookings[b] == w.bookings[b]
  {
    hide StopOrder.Inserted, Routes.WithStops, Routes.RouteRefusal, Bookings.BookingRefusal, Routes.OwnerRefusal,
      ConfirmedOn;
  }

  lemma Untouched(w: World, op: Op, b: Id)
    requires b in w.bookings && !op.VerifyOtp? && !op.CompleteBooking? && !op.MarkNoShow? && !op.CancelBooking?
             && !op.CancelRoute?
    ensures Advances(w, op, b, w.bookings[b])
  {
  }

  /** A step of any kind uses a booking's code exactly when its driver gives the right one, at any time while the
      booking is confirmed; and it ends a booking as completed, absent or cancelled exactly when the one entitled does
      so: completed after its code was used, absent from half an hour after departure on. */
  lemma BookingAdvances(w: World, dist: Distance, op: Op, b: Id)
    requires KeysBelow(w) && b in w.bookings
    ensures var after := Apply(w, dist, op); b in after.bookings && Advances(w, op, b, after.bookings[b])
  {
    if op.VerifyOtp? {
      VerifyingAdvances(w, dist, op, b);
    } else if op.CompleteBooking? {
      CompletingAdvances(w, dist, op, b);
    } else if op.MarkNoShow? {
      AbsenceAdvances(w, dist, op, b);
    } else if op.CancelBooking? || op.CancelRoute? {
      CancellationsAdvance(w, dist, op, b);
    } else {
      Untouched(w, op, b);
      if IsTrip(op) { OtherTripsAdvance(w, dist, op, b); } else if Answers(w, op) { MoneyLeavesTrips(w, op); }
    }
    hide Trip, Money, KeysBelow, Advances;
  }

  // ---- runs from the empty tables ----

  ghost predicate VerifiedDuring(dist: Distance, ops: seq<Op>, b: Id) {
    exists i :: 0 <= i < |ops| && Verifies(Run(EmptyWorld, dist, ops[..i]), ops[i], b)
  }

  ghost predicate CompletedDuring(dist: Distance, ops: seq<Op>, b: Id) {
    exists i :: 0 <= i < |ops| && Completes(Run(EmptyWorld, dist, ops[..i]), ops[i], b)
  }

  lemma VerifiedStep(dist: Distance, ops: seq<Op>, b: Id)
    requires ops != []
    ensures var n := |ops| - 1;
            VerifiedDuring(dist, ops, b)
            <==> VerifiedDuring(dist, ops[..n], b) || Verifies(Run(EmptyWorld, dist, ops[..n]), ops[n], b)
  {
    hide Run, Verifies;
    var n := |ops| - 1;
    assert forall i :: 0 <= i < n ==> ops[..n][..i] == ops[..i] && ops[..n][i] == ops[i];
    if i :| 0 <= i < |ops| && Verifies(Run(EmptyWorld, dist, ops[..i]), ops[i], b) {
      if i < n { assert Verifies(Run(EmptyWorld, dist, ops[..n][..i]), ops[..n][i], b); }
    }
    if i :| 0 <= i < n && Verifies(Run(EmptyWorld, dist, ops[..n][..i]), ops[..n][i], b) {
      assert Verifies(Run(EmptyWorld, dist, ops[..i]), ops[i], b);
    }
  }

  lemma CompletedStep(dist: Distance, ops: seq<Op>, b: Id)
    requires ops != []
    ensures var n := |ops| - 1;
            CompletedDuring(dist, ops, b)
            <==> CompletedDuring(dist, ops[..n], b) || Completes(Run(EmptyWorld, dist, ops[..n]), ops[n], b)
  {
    hide Run, Completes;
    var n := |ops| - 1;
    assert forall i :: 0 <= i < n ==> ops[..n][..i] == ops[..i] && ops[..n][i] == ops[i];
    if i :| 0 <= i < |ops| && Completes(Run(EmptyWorld, dist, ops[..i]), ops[i], b) {
      if i < n { assert Completes(Run(EmptyWorld, dist, ops[..n][..i]), ops[..n][i], b); }
    }
    if i :| 0 <= i < n && Completes(Run(EmptyWorld, dist, ops[..n][..i]), ops[..n][i], b) {
      assert Completes(Run(EmptyWorld, dist, ops[..i]), ops[i], b);
    }
  }

  lemma NoOtherBookings(w: World, dist: Distance, op: Op)
    requires IsTrip(op) && !op.CreateBooking?
    ensures Trip(w, dist, op).bookings.Keys == w.bookings.Keys
  {
    hide StopOrder.Inserted, StopOrder.Removed, Routes.WithStops, Routes.RouteRefusal, Bookings.PendingFailed,
      Bookings.CancelledPayments, Routes.PaymentsCancelled, Routes.OpenPayments, ConfirmedOn, Routes.OwnerRefusal,
      Routes.Unverified, Bookings.RefundDue;
  }

  /** New bookings are open and unverified. */
  lemma BookingsStartOpen(w: World, dist: Distance, op: Op, b: Id)
    requires KeysBelow(w) && b !in w.bookings && b in Apply(w, dist, op).bookings
    ensures var x := Apply(w, dist, op).bookings[b]; x.state == Confirmada && !x.otpUsed
  {
    if op.CreateBooking? {
      hide StopOrder.Inserted, Bookings.BookingRefusal;
    } else if IsTrip(op) {
      NoOtherBookings(w, dist, op);
      hide Trip;
    } else if Answers(w, op) {
      MoneyLeavesTrips(w, op);
      hide Trip, Money;
    }
  }

  /** In every run: a booking's code is used exactly when its driver gave it once while the booking was confirmed; and
      it is completed exactly when its driver completed it, which needs the code given before. */
  lemma {:induction false} BookingHistory(dist: Distance, ops: seq<Op>, b: Id)
    ensures var now := Run(EmptyWorld, dist, ops).bookings;
            (b in now ==> (now[b].otpUsed <==> VerifiedDuring(dist, ops, b))
                          && (now[b].state == Completada <==> CompletedDuring(dist, ops, b)))
            && (b !in now ==> !VerifiedDuring(dist, ops, b) && !CompletedDuring(dist, ops, b))
    decreases |ops|
  {
    if ops != [] {
      var n := |ops| - 1;
      var w := Run(EmptyWorld, dist, ops[..n]);
      BookingHistory(dist, ops[..n], b);
      ReachedKeys(dist, ops[..n]);
      VerifiedStep(dist, ops, b);
      CompletedStep(dist, ops, b);
      hide KeysBelow, Apply, VerifiedDuring, CompletedDuring;
      if b in w.bookings {
        BookingAdvances(w, dist, ops[n], b);
        if w.bookings[b].state != Confirmada { CompletedStays(w, dist, ops[n], b); }
      } else if b in Apply(w, dist, ops[n]).bookings {
        BookingsStartOpen(w, dist, ops[n], b);
      }
    }
  }

  lemma CompletedStays(w: World, dist: Distance, op: Op, b: Id)
    requires KeysBelow(w) && b in w.bookings && w.bookings[b].state != Confirmada
    ensures b in Apply(w, dist, op).bookings && Apply(w, dist, op).bookings[b].state == w.bookings[b].state
  {
    StepEvolves(w, dist, op);
    hide Apply, KeysBelow;
  }

  /** Nobody completes a booking before its code was given. */
  lemma VerifiedBeforeCompleted(dist: Distance, ops: seq<Op>, b: Id, j: nat)
    requires j < |ops| && Completes(Run(EmptyWorld, dist, ops[..j]), ops[j], b)
    ensures VerifiedDuring(dist, ops[..j], b)
  {
    BookingHistory(dist, ops[..j], b);
    hide Run, VerifiedDuring, CompletedDuring;
  }

  // ---- bookings of a started route ----

  ghost predicate CheckedOrClosed(booking: Booking) {
    booking.otpUsed || booking.state != Confirmada
  }

  /** What startRoute demands: every confirmed passenger of the route has their code checked. */
  ghost predicate AllChecked(w: World, r: Id) {
    forall b :: b in w.bookings && w.bookings[b].route == r ==> CheckedOrClosed(w.bookings[b])
  }

  /** The same of the bookings that were not there at an earlier time only. */
  ghost predicate NewChecked(earlier: World, w: World, r: Id) {
    forall b :: b in w.bookings && w.bookings[b].route == r && b !in earlier.bookings ==> CheckedOrClosed(w.bookings[b])
  }

  /** A route starts exactly when all are checked, but bookings are granted after that too: from then on, in any run,
      all are checked exactly when those booked since the start are. */
  lemma StartedRouteAllChecked(w: World, dist: Distance, driver: Id, r: Id, now: int, ops: seq<Op>)
    requires KeysBelow(w) && Routes.OwnsActive(w, driver, r) && w.routes[r].startedAt == None
    ensures var started := Apply(w, dist, StartRoute(driver, r, now));
            (started.routes[r].startedAt.Some? <==> AllChecked(w, r))
            && (started.routes[r].startedAt.Some? ==>
                  (AllChecked(Run(started, dist, ops), r) <==> NewChecked(w, Run(started, dist, ops), r)))
  {
    var started := Apply(w, dist, StartRoute(driver, r, now));
    assert Routes.Unverified(w.bookings, r) == {} <==> AllChecked(w, r) by {
      assert forall b :: b in Routes.Unverified(w.bookings, r) <==>
                         b in w.bookings && w.bookings[b].route == r && !CheckedOrClosed(w.bookings[b]);
    }
    assert started.bookings == w.bookings;
    StepEvolves(w, dist, StartRoute(driver, r, now));
    RunEvolves(started, dist, ops);
    hide KeysBelow, Apply, Run, RoutesEvolve, PaymentsEvolve, PayoutsEvolve, Routes.Unverified;
    var later := Run(started, dist, ops);
    if AllChecked(w, r) && NewChecked(w, later, r) {
      forall b | b in later.bookings && later.bookings[b].route == r ensures CheckedOrClosed(later.bookings[b]) {
        if b in w.bookings { assert BookingEvolves(started.bookings[b], later.bookings[b]); }
      }
    }
  }
}
