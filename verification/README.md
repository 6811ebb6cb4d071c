# WasiGo, verified model

WasiGo is a carpooling backend. This Dafny project models the parts of it that carry real state or arithmetic, and
proves what they keep over every input and every run:

- **Polyline codec and geometry** (`Polyline`, `Int32`, `Geometry`): the decoder with its 32-bit operators, an encoder
  written as its inverse, and the nearest-point search on a polyline.
- **Trips** (`StopPlan`, `StopOrder`, `Bookings`, `Routes`, `TripInvariant`, `BookingRuns`, `RouteRuns`, `Refusals`): routes,
  seats, bookings, the dense numbering of stops, and what refusals tell.
- **Money** (`Withdrawal`, `Doubles`, `Payments`, `Payouts`, `Ledger`, `LedgerRuns`, `Conservation`, `PaymentRuns`,
  `PayoutRuns`, `PaypalRuns`, `Stories`): payments, captures, refunds, withdrawals in cents and in doubles, monthly payouts
  and their batches.
- **Coverage merge** (`LcovText`, `Assoc`, `Lcov`, `LcovCounts`, `LcovRoundTrip`, `LcovFixpoint`, `LcovSummary`,
  `LcovReport`, `LcovLines`, `LcovSpelling`): the tracefile parser, merger and printer of geninfo(1), section FILES.
- **Response sanitizer** (`JsText`, `Sanitizer`, `SanitizerWalk`, `SanitizerIds`, `SanitizerAgain`, `SanitizerFresh`,
  `SanitizerFields`, `SanitizerCuts`, `SanitizerSharing`): a walk over an object graph with a set of visited objects.
- **Attempt budgets** (`Otp`, `OtpRuns`, `Lockout`): one-time codes in a store with expiry, and the login lockout.

## How it is built

The database is a class, `Database.Db`, whose tables are maps keyed by id; its value is `Domain.World`. Every service
operation comes twice: a function of the tables, and a method (its name ends in `In`) that reads and saves rows step by
step as the service does and is proved to do exactly what the function says. The contract of every service operation also
says without that function, row by row and in terms of the rows before, when it is granted, what every table holds then, and
that a refusal changes nothing. The invariants and the theorems over runs are lemmas about the functions. `Runs.Op` has one constructor per service method;
a run is any sequence of them with any arguments, clocks and PayPal replies, started from empty tables. The store of
one-time codes, the login account and the set of visited objects are classes too, treated the same way; the tracefile
parser, merger and printer are methods with loops proved equal to functions on the same text.

Times are integers: milliseconds in the tables, seconds in the code store, and any unit in the lockout. Money is integer
cents; the loop of a withdrawal is modelled a second time on doubles, as whole multiples of 2^-59 dollars. Coordinates are integers in units of 1e-5 degrees in the codec and reals in the geometry. The planner's distance
is any function into the reals.

## Model

| member | source | states |
|---|---|---|
| Polyline.ReadDelta | src/modules/common/utils/polyline.util.ts:70-83 | The inner loop, for any start index and any text, reads the groups up to the first one without the continuation bit or past the end, and ends behind it |
| Polyline.DecodePolyline | src/modules/common/utils/polyline.util.ts:63-99 | The two nested loops end on every string and return the points of the recursive definition, truncated and malformed input included |
| Polyline.PointCount | src/modules/common/utils/polyline.util.ts:70-96 | Any string of n code units gives at most (n + 1) / 2 points |
| Polyline.ReadStopsAfterGroups | src/modules/common/utils/polyline.util.ts:74-79 | Reading an encoded number that stands anywhere in a string stops exactly behind it |
| Polyline.ReadSumsGroups | src/modules/common/utils/polyline.util.ts:76-78 | Below 2^31 the 32-bit or-and-shift loop computes the number itself: groups neither overlap nor overflow |
| Polyline.ReadIs32Bit | src/modules/common/utils/polyline.util.ts:74-83 | Whatever is read, the accumulator stays a 32-bit integer |
| Polyline.ValueRoundTrip | src/modules/common/utils/polyline.util.ts:72-93 | A single encoded value is read back, at any place in any string, if and only if it fits 31 bits with sign |
| Polyline.RoundTrip | src/modules/common/utils/polyline.util.ts:63-99 | Decoding undoes encoding for a list of points if and only if every difference fits 31 bits |
| Polyline.PublishedExample | src/modules/common/utils/polyline.util.ts:63-99 | The text that Google's description of the format gives as its example decodes to the three points it gives for it |
| Polyline.DecodeAppended | src/modules/common/utils/polyline.util.ts:63-99 | A complete encoding followed by any text decodes to its points and then the text's points moved to the last of them |
| Polyline.EarthRoundTrip | src/modules/common/utils/polyline.util.ts:63-99 | All points within 90 degrees of latitude and 180 of longitude survive the round trip |
| Polyline.EarthValuesAreShort | src/modules/common/utils/polyline.util.ts:72-93 | No difference between such points takes more than six characters, so no shift exceeds 25 |
| Polyline.GroupCount | src/modules/common/utils/polyline.util.ts:74-79 | A code takes at most n characters if and only if it is below 32^n |
| Geometry.ProjectionIsNearest | src/modules/common/utils/polyline.util.ts:47-60 | No point of the segment is nearer than the clamped projection, a degenerate segment included; on a proper segment every other point is strictly farther |
| Geometry.NearestOnGround | src/modules/common/utils/polyline.util.ts:32-61 | The segment distance is attained on the segment and is a lower bound over it, in the plane the function lays through the points |
| Geometry.GroundFormula | src/modules/common/utils/polyline.util.ts:34-61 | In that plane a degree of longitude is the cosine of the mean latitude times a degree of latitude, and a fraction of the segment is that fraction of both differences |
| Geometry.DistanceToPolylineSq | src/modules/common/utils/polyline.util.ts:101-129 | Infinity exactly for no points, one haversine for one point, else the minimum over all points of all segments, attained |
| StopPlan.PlanStopInsertion | src/modules/common/utils/route-stop.util.ts:32-81 | The loop finds the first gap of least detour and returns exactly the rows from there on, each moved up by one |
| StopPlan.BestGap | src/modules/common/utils/route-stop.util.ts:46-68 | The gap costs no more than any other and less than every gap before it |
| StopPlan.PlanIsShortest | src/modules/common/utils/route-stop.util.ts:46-68 | The way through all stops is shortest with the new stop where the planner puts it, and longer with it in any earlier gap |
| StopPlan.OrderedListingUnique | src/modules/bookings/bookings.service.ts:224-231 | With unique numbers the ordered query has only one answer |
| StopOrder.InsertionRefines | src/modules/bookings/bookings.service.ts:218-259 | From numbers 1..n insertion gives 1..n+1; the listing is the old one with the new stop put in, behind the only stop or in the first best gap, so the ends of a route of two or more stops stay its ends |
| StopOrder.InsertionNumbers | src/modules/bookings/bookings.service.ts:232-256 | The same for every number that could be planned |
| StopOrder.RemovalRefines | src/modules/bookings/bookings.service.ts:919-944 | Removal takes one stop out of the listing and leaves 1..n-1 |
| StopOrder.RemovalUndoesInsertion | src/modules/bookings/bookings.service.ts:919-944 | Removing a stop right after inserting it gives back the very same table |
| StopOrder.RemovalRowByRow | src/modules/bookings/bookings.service.ts:933-943 | After every single row saved in list order no two stops of the route share a number |
| StopOrder.RemovalSavesAll | src/modules/bookings/bookings.service.ts:933-943 | Once all rows are saved the table is that of the removal |
| StopOrder.InsertionSavesAll | src/modules/bookings/bookings.service.ts:244-256 | Saving all the planned rows opens the gap |
| StopOrder.InsertionRowByRow | src/modules/bookings/bookings.service.ts:244-248 | Saving the planned rows one by one in list order keeps numbers distinct if and only if at most one row moves |
| Withdrawal.SelectPayments | src/modules/payments/payouts/payouts.service.ts:204-234 | The loop, with its early exit, takes exactly the payments that the recursive definition takes |
| Withdrawal.WithdrawsExactly | src/modules/payments/payouts/payouts.service.ts:204-234 | On success the chosen payments are a sub-list in list order and sum exactly to the request |
| Withdrawal.RefusedMeansNoneFits | src/modules/payments/payouts/payouts.service.ts:204-234 | On refusal no skipped payment fits in what is left |
| Withdrawal.NeverMissesExactlyWhen | src/modules/payments/payouts/payouts.service.ts:204-234 | In exact cents, for a list of payments, precisely the amounts that some of them make up are granted if and only if each payment can always be exchanged for later ones |
| Withdrawal.ReachExactlyWhen | src/modules/payments/payouts/payouts.service.ts:204-234 | The amounts meant are the sums of the sub-lists of the payments |
| Withdrawal.UniformExchange | src/modules/payments/payouts/payouts.service.ts:204-234 | Payments of one price can always be exchanged |
| Withdrawal.WithdrawsPrefix | src/modules/payments/payouts/payouts.service.ts:204-234 | In exact cents, a request for the sum of the k oldest payments takes exactly those |
| Withdrawal.UniformWithdrawal | src/modules/payments/payouts/payouts.service.ts:204-234 | In exact cents, when all amounts are equal it succeeds if and only if the request is one of the available multiples |
| Withdrawal.GreedyCanMiss | src/modules/payments/payouts/payouts.service.ts:204-234 | The service refuses 500 from 300, 250 and 250 although two of them make it up |
| Withdrawal.NoExchange | src/modules/payments/payouts/payouts.service.ts:204-234 | In that list the first payment cannot be exchanged |
| Doubles.SelectPayments | src/modules/payments/payouts/payouts.service.ts:204-234 | The same loop on doubles, whose sums are rounded, takes exactly the payments that the recursive definition takes |
| Doubles.RoundsToMultiple | src/modules/payments/payouts/payouts.service.ts:204-207 | The rounding of decimals and sums is that of doubles: to the nearest multiple of 2^k, ties to even, where the number has 53 + k bits |
| Doubles.GrantedIsExact | src/modules/payments/payouts/payouts.service.ts:204-234 | However the doubles were rounded, the payments chosen for a granted request sum to it exactly in cents, as long as payments times requested cents do not exceed 2^49 |
| Doubles.WithdrawsPrefixExactlyWhen | src/modules/payments/payouts/payouts.service.ts:204-234 | On doubles a request for the sum of the k oldest payments takes exactly those if and only if adding up their doubles gives the double of that sum |
| Doubles.UniformWithdrawalExactlyWhen | src/modules/payments/payouts/payouts.service.ts:204-234 | On doubles, when all amounts are equal, it succeeds if and only if the request is an available multiple and adding up so many doubles gives its double |
| Doubles.SameAsCents | src/modules/payments/payouts/payouts.service.ts:204-234 | If every sum of the payments is exact, doubles and cents take the same payments for every request |
| Doubles.QuartersAreExact | src/modules/payments/payouts/payouts.service.ts:204-234 | So they do when every payment is a whole number of quarters of a dollar |
| Doubles.EqualPricesMiss | src/modules/payments/payouts/payouts.service.ts:204-234 | Three payments of 2.20 do not make up 6.60 |
| Doubles.OldestPaymentsMiss | src/modules/payments/payouts/payouts.service.ts:204-234 | 1.00, 1.10 and 3.20 do not make up 5.30 |
| Database.Db.FindStops | src/modules/bookings/bookings.service.ts:224-231 | Returns every stop of the route once, by increasing number |
| Database.Db.FindAvailable | src/modules/payments/payouts/payouts.service.ts:194-202 | Returns every withdrawable payment of the driver once, oldest first |
| Bookings.CreateBookingIn | src/modules/bookings/bookings.service.ts:261-326 | Granted exactly for a passenger who is not blocked, owes no cash ride and has no booking on the route, with a complete pickup, on an active route with a free seat and a price; then there is one new booking row with all its fields, one seat less, and, if a pickup was asked for, one new stop at that place with the later stops one number on; a refusal changes nothing |
| Bookings.InsertStopIn | src/modules/bookings/bookings.service.ts:218-259 | Planning, saving the moved rows and adding the stop is one insertion into the table: a new stop at the place, the stops from its number on one further, all others the same |
| Bookings.RemoveStopIn | src/modules/bookings/bookings.service.ts:919-944 | Deleting a stop and closing the gap row by row leaves out that stop and lowers the later ones by one, and numbers of the route are distinct after every row |
| Bookings.CancelBookingIn | src/modules/bookings/bookings.service.ts:635-721 | Granted exactly for an own confirmed booking: it is cancelled, the seat goes back, its pending payment fails, and a paid one is reversed if the refund is due and granted or not needed, stays paid if it is not due, and fails otherwise; no other row changes, and a refusal changes nothing |
| Bookings.MarkNoShowIn | src/modules/bookings/bookings.service.ts:834-900 | Granted exactly to the driver from half an hour after departure on: the booking is absent, its pending payments have failed, its pickup stop is gone with the later stops one number lower, and the route has ended if nothing else on it is confirmed; no other row changes, and a refusal changes nothing |
| JsText.TrimTakesOff | src/modules/bookings/bookings.service.ts:200-216 | A code is compared without the white space at both of its ends, and with all the rest |
| BookingRuns.BookingAdvances | src/modules/bookings/bookings.service.ts:790-832 | A step of any kind, out of all those of the system, uses a booking's code if and only if its driver gives the right one while the booking is confirmed, and ends a confirmed booking as completed, absent or cancelled if and only if the one entitled does so |
| BookingRuns.BookingHistory | src/modules/bookings/bookings.service.ts:960-1037 | In every run a code is used if and only if its driver gave it, trimmed, while the booking was confirmed; and a booking is completed if and only if its driver completed it with the code used |
| BookingRuns.VerifiedBeforeCompleted | src/modules/bookings/bookings.service.ts:810-818 | Every completion in a run comes after the code was given |
| BookingRuns.StartedRouteAllChecked | src/modules/routes/routes.service.ts:567-620 | A route starts if and only if every confirmed passenger of it has the code checked; at the end of any run from there on, that still holds if and only if every booking granted on the route since the start is checked or closed |
| Stories.BookedAfterStart | src/modules/bookings/bookings.service.ts:129-141 | A run that books a started route, so that a confirmed passenger of it has an unchecked code |
| Refusals.BookingRefusedTruly | src/modules/bookings/bookings.service.ts:129-141 | A refused booking names a reason that is true of the request and the tables |
| Refusals.DriverRefusedTruly | src/modules/bookings/bookings.service.ts:790-1037 | So do refusals to complete a booking, to check its code or to mark its passenger absent |
| Refusals.OwnerRefusedTruly | src/modules/routes/routes.service.ts:454-718 | So do refusals of what a driver does to a route |
| Refusals.RouteRefusedTruly | src/modules/routes/routes.service.ts:171-275 | So does the refusal of a new route |
| Refusals.PaymentRefusedTruly | src/modules/payments/payments.service.ts:90-198 | So does the refusal of a payment |
| Refusals.OnlineRefusedTruly | src/modules/payments/payments.service.ts:247-436 | So do refusals to place an order and to capture it |
| Refusals.PayoutRefusedTruly | src/modules/payments/payouts/payouts.service.ts:149-545 | So do refusals to withdraw and to carry a payout out |
| RouteRuns.RouteEndsExactlyWhen | src/modules/bookings/bookings.service.ts:328-361 | A step of any kind finalizes an active route if and only if it closes its last confirmed booking, or its driver or the sweep finalizes it with nothing confirmed; only its driver cancels it |
| Routes.CreateRouteIn | src/modules/routes/routes.service.ts:171-275 | Granted exactly a quarter of an hour ahead with two places or more, a price, no block and a vehicle with the seats: a new active route with all seats free, its stops numbered from 1 in the order asked for, and nothing else |
| Routes.AddRouteStopIn | src/modules/routes/routes.service.ts:454-512 | Granted exactly for the driver's active route: one new stop at the place, the stops from its number on one further, nothing else |
| RouteRuns.ScheduledExactlyWhen | src/modules/routes/routes.service.ts:514-565 | A step of any kind changes departure or start of a route if and only if its driver reschedules it before it starts, a quarter of an hour ahead, or starts it with every confirmed passenger's code checked; nothing else of the route changes |
| RouteRuns.ScheduleIsFixed | src/modules/routes/routes.service.ts:567-620 | Once a route has started or is closed, its departure and start never change again in any run |
| Routes.CancelRouteIn | src/modules/routes/routes.service.ts:639-718 | Granted exactly for the driver's active route: route and confirmed bookings are cancelled, its pending payments fail, its paid ones are reversed, or fail if PayPal has to consent and does not; seats and all other rows stay |
| RouteRuns.CancelledSeatsExactly | src/modules/routes/routes.service.ts:671-674 | At any time after a route was cancelled its free and held seats fall short of all seats by exactly the bookings confirmed at that moment, so they add up if and only if there were none |
| RouteRuns.ClosedSeatsAreFixed | src/modules/routes/routes.service.ts:657-674 | The seats of a closed route and those who hold them never change again |
| RouteRuns.CancelledPaymentsOverRuns | src/modules/routes/routes.service.ts:671-704 | In any run from a cancelled route on it gets no payment, none of its payments is pending, and one is paid only if PayPal reported its order completed for its own money since; some run does pay it if and only if it was to be paid online and had an order when the route was cancelled |
| RouteRuns.BecomesPaidExactlyWhen | src/modules/payments/payments.service.ts:354-436 | A payment that is neither pending nor paid is paid at the end of some run if and only if it is to be paid online and has an order at PayPal |
| PaypalRuns.PaidLaterExactlyWhen | src/modules/payments/payments.service.ts:354-436 | With a PayPal that repeats no order and no completion, the same holds if and only if that order was not completed yet |
| Stories.PaidAfterCancellation | src/modules/routes/routes.service.ts:639-718 | A run that cancels a route between order and capture: the cancelled ride is paid for, and the only seat is neither free nor held |
| Routes.SweepIn | src/modules/routes/routes.service.ts:109-157 | The loop, in any order, finalizes exactly the active routes whose departure has passed and on which nothing is confirmed |
| TripInvariant.TripsAlwaysSound | src/modules/bookings/bookings.service.ts:129-141 | In every reachable state: free seats plus seated bookings equal all seats (at most, on a cancelled route); only active routes have confirmed bookings; completed bookings have their code used; stops are numbered 1..n on every route |
| TripInvariant.CreateBookingKeeps | src/modules/bookings/bookings.service.ts:261-326 | A booking, with or without a pickup stop, keeps all of that |
| TripInvariant.CancelBookingKeeps | src/modules/bookings/bookings.service.ts:649-675 | So does a cancellation |
| TripInvariant.MarkNoShowKeeps | src/modules/bookings/bookings.service.ts:834-900 | So does an absence, with its stop removed |
| TripInvariant.CancelRouteKeeps | src/modules/routes/routes.service.ts:657-704 | So does cancelling a route |
| Evolution.RunEvolves | src/modules/bookings/bookings.service.ts:649-661 | Over any run from any moment on: closed routes and bookings never change state, used codes stay used, payments keep booking, amount, currency and their payout once linked, payouts keep driver and amount, and nothing returns to pending |
| LedgerRuns.SweepFinalizesExactly | src/modules/routes/routes.service.ts:109-157 | The sweep changes a route if and only if it is active, its departure has passed and nothing is confirmed on it, and then finalizes it |
| LedgerRuns.SeatsNeverClamped | src/modules/bookings/bookings.service.ts:310-311 | In every reachable state no route is overbooked, free seats are not negative, and neither clamp changes anything: not the seat a granted booking takes, nor one that is given back |
| LedgerRuns.RequirementsMet | src/modules/routes/routes.service.ts:227-237 | Every reachable state meets what the methods above require |
| PaymentRuns.PaymentAppearsExactlyWhen | src/modules/payments/payments.service.ts:90-198 | A step of any kind adds a payment if and only if a passenger pays for an own confirmed booking without one, by its method and for a positive price, and it adds that one only |
| PaymentRuns.OrderChangesExactlyWhen | src/modules/payments/payments.service.ts:247-352 | A payment's order id changes if and only if PayPal places an order for it while it is pending, at its passenger's request |
| PaymentRuns.ReversedExactlyWhen | src/modules/payments/payments.service.ts:563-642 | A step of any kind turns a payment to reversed if and only if it was paid, it is asked back by itself, with its booking cancelled in time or with its route cancelled, and PayPal grants that or need not be asked |
| PaymentRuns.CashIsNeverPaid | src/modules/payments/payments.service.ts:90-198 | In no run does a payment in cash get an order or become paid or reversed, so that giving cash back without PayPal never happens |
| Payouts.RequestPayoutIn | src/modules/payments/payouts/payouts.service.ts:149-289 | Granted exactly for five dollars or more that the selection makes up, to a driver with a PayPal address: one new pending payout of that amount, with exactly the chosen payments pointing to it; a refusal changes nothing |
| Payouts.GroupByDriver | src/modules/payments/payouts/payouts.service.ts:389-408 | The Map collects for each driver the total and the ids of that driver's payments |
| Payouts.FirstAppearance | src/modules/payments/payouts/payouts.service.ts:389-408 | Drivers come in the order of their first payments |
| Payouts.GeneratePayoutsIn | src/modules/payments/payouts/payouts.service.ts:356-458 | Every new payout is pending, of the period and of a driver of its own with something due; every payment due, paid from the start and before the end of the period and in no payout yet, points to the new payout of its driver; nothing else changes |
| Payouts.CreatePayoutsIn | src/modules/payments/payouts/payouts.service.ts:410-429 | The transaction's loop makes one payout after the other |
| Payouts.PayoutsCreated | src/modules/payments/payouts/payouts.service.ts:410-429 | The i-th driver's payout gets the i-th new id, and older payouts stay |
| Payouts.PaymentLinked | src/modules/payments/payouts/payouts.service.ts:420-428 | Exactly the rows of the i-th driver point to it |
| Payouts.SyncPayoutsIn | src/modules/payments/payouts/payouts.service.ts:615-653 | The loop, in any order, turns a pending payout with a batch to paid, with the time, if its batch is reported paid, to failed if it is reported failed, and leaves all others |
| PayoutRuns.PayoutEndsExactlyWhen | src/modules/payments/payouts/payouts.service.ts:488-653 | A step of any kind turns a payout to paid if and only if PayPal reports its batch as paid, on execution or on a sync, and to failed if and only if it reports a failure, answers with an error, or somebody marks the payout as failed |
| PayoutRuns.PaidUntilMarkedFailed | src/modules/payments/payouts/payouts.service.ts:655-716 | In any run a paid payout is still paid if and only if nobody marked it as failed |
| PayoutRuns.AttemptsCounted | src/modules/payments/payouts/payouts.service.ts:459-613 | In every run a payout's attempts are the batches sent for it plus the times it was marked as failed, and a pending one was never marked |
| PayoutRuns.SentAgainExactlyWhen | src/modules/payments/payouts/payouts.service.ts:488-504 | A run sends more than one batch for a payout if and only if it executes it while it is pending with an attempt already counted |
| PayoutRuns.OnlyOpenAnswersAreSentAgain | src/modules/payments/payouts/payouts.service.ts:533-545 | Only a batch that PayPal reported neither paid nor failed is followed by another one |
| Stories.SentTwice | src/modules/payments/payouts/payouts.service.ts:488-504 | A run that asks PayPal twice for the money of one payout |
| Stories.PaidPayoutFails | src/modules/payments/payouts/payouts.service.ts:655-716 | A run that marks a payout as failed after PayPal paid it |
| Ledger.RequestPayoutKeeps | src/modules/payments/payouts/payouts.service.ts:194-261 | A withdrawal keeps the books |
| Ledger.RequestOutcome | src/modules/payments/payouts/payouts.service.ts:204-261 | Either nothing changes or there is one new payout for exactly the selected rows |
| Ledger.WithdrawalMovesBalance | src/modules/payments/payouts/payouts.service.ts:93-101 | A granted withdrawal lowers that driver's available balance by exactly its amount and no other driver's |
| Ledger.CreatePayoutsKeeps | src/modules/payments/payouts/payouts.service.ts:410-429 | The monthly transaction keeps the books after every single payout |
| LedgerRuns.LedgerAlwaysSound | src/modules/payments/payouts/payouts.service.ts:194-261 | In every reachable state each payout is worth exactly the payments linked to it, all of them for rides of its driver, and no booking has two payments |
| Conservation.EarningsConserved | src/modules/payments/payouts/payouts.service.ts:93-101 | In every reachable state a driver's payouts plus available balance equal the money held for the driver's rides plus the payments whose money left after they had been put into a payout |
| Conservation.ConservedExactlyWhen | src/modules/payments/payments.service.ts:592-615 | So they equal the money held if and only if no payment in a payout of the driver was reversed or has failed |
| Conservation.LiveEarnings | src/modules/payments/payouts/payouts.service.ts:655-716 | The same without failed payouts: what they strand is missing, what the others lost is too much |
| Conservation.NoneStrandedExactlyWhen | src/modules/payments/payouts/payouts.service.ts:93-101 | All the money held is withdrawable or in a payout that did not fail if and only if no failed payout of the driver holds a paid payment |
| Conservation.StrandedForever | src/modules/payments/payouts/payouts.service.ts:655-716 | A payment in a failed payout stays there and is never withdrawable again, in any run |
| Stories.RefundAfterWithdrawal | src/modules/payments/payments.service.ts:592-615 | A run that refunds a ride after its withdrawal: the payout keeps its amount though nothing is held |
| Stories.FailureStrands | src/modules/payments/payouts/payouts.service.ts:655-716 | A run that fails a payout: the money held is in no balance and no payout that could be carried out |
| LedgerRuns.EligibleAreLinked | src/modules/payments/payouts/payouts.service.ts:376-429 | Every eligible payment goes into a new payout of its driver, and every other payment is untouched |
| LedgerRuns.OnePayoutPerDriver | src/modules/payments/payouts/payouts.service.ts:389-418 | One new payout for every driver with an eligible payment, none for others |
| LedgerRuns.GeneratedTotal | src/modules/payments/payouts/payouts.service.ts:376-429 | The new payouts together are worth the eligible total |
| LedgerRuns.NothingLeftToGenerate | src/modules/payments/payouts/payouts.service.ts:376-429 | Generating the period again at any later time creates none if no payment was newly paid |
| LedgerRuns.CancelRouteSettles | src/modules/routes/routes.service.ts:671-704 | Whatever refunds succeed, each payment of the cancelled route ends as stated and payments of other routes are unchanged |
| LedgerRuns.CancelledRouteOwesNothing | src/modules/routes/routes.service.ts:671-704 | Afterwards the route has no pending or paid payment and no confirmed booking |
| PaypalRuns.CompletedCapture | src/modules/payments/payments.service.ts:393-436 | A completed capture pays the payment if and only if captured currency and cents are its own, and else fails it, whatever its status was |
| PaypalRuns.PaidExactlyWhenReceived | src/modules/payments/payments.service.ts:393-436 | A step of any kind turns a payment to paid if and only if it is such a capture of that payment |
| PaypalRuns.PaidAtMostOnce | src/modules/payments/payments.service.ts:289-325 | If PayPal never repeats an order id nor a completion, every payment enters paid at most once, and a paid or reversed one did so once |
| Stories.ReceivedTwice | src/modules/payments/payments.service.ts:354-436 | A run, with the same order completed twice, in which the money of one payment arrives twice |
| PaypalRuns.ReversedForever | src/modules/payments/payments.service.ts:592-615 | Under the same assumption a reversed payment stays reversed |
| PaypalRuns.AlwaysTracked | src/modules/payments/payments.service.ts:289-325 | Over every such run no two payments share an order, and completed orders belong to payments that are not pending |
| LcovText.JoinSplit | scripts/merge-coverage.js:53-84 | Joining what was split at a character gives the text back |
| LcovText.SplitJoin | scripts/merge-coverage.js:53-84 | Splitting what was joined gives the pieces back when none holds the character |
| LcovText.LinesRoundTrip | scripts/merge-coverage.js:31 | Splitting joined lines drops one carriage return at the end of every line but the last |
| LcovText.NumberRoundTrip | scripts/merge-coverage.js:22-25 | Printed integers, negative ones included, are parsed back |
| LcovText.LeadingNumber | scripts/merge-coverage.js:22-25 | White space before a number is skipped, a sign heeded, and what follows the digits ignored |
| LcovText.NoLeadingNumber | scripts/merge-coverage.js:22-25 | Text that begins with no number, a lone sign included, counts as 0 |
| Assoc.AddAllDoes | scripts/merge-coverage.js:18-20 | Adding a list of counts adds for every key the sum of what the list says of it |
| Assoc.AddedUp | scripts/merge-coverage.js:18-20 | Adding a list into an empty map returns that very list if no key repeats, and a shorter one otherwise |
| Assoc.PutMissingDoes | scripts/merge-coverage.js:124-128 | Keys already there keep their value, and a new one gets the first value listed |
| Assoc.SortedMap | scripts/merge-coverage.js:174-176 | Sorting the entries of a map keeps its keys and values |
| Assoc.SortKeeps | scripts/merge-coverage.js:156 | A stable sort leaves a list that is in order alone |
| Lcov.ParseLcov | scripts/merge-coverage.js:27-98 | The loop with its current record computes the records of the specification, the last one without end_of_record included; what these say of the text is in the next rows |
| LcovLines.ReportTellsLines | scripts/merge-coverage.js:27-134 | For all input files, whatever their lines look like: the merged hits of a line, function or branch are the sum of what the DA, FNDA and BRDA lines of that file say, and a function starts where the last FN line in the first record that has one says |
| LcovLines.ReportListsWhatIsNamed | scripts/merge-coverage.js:27-134 | A line, function or branch is listed for a file if and only if some line of that file names it |
| LcovLines.ReportListsFiles | scripts/merge-coverage.js:27-134 | A file is listed if and only if some line opens it |
| LcovLines.BranchLine | scripts/merge-coverage.js:77-86 | A BRDA line names the branch of its three fields; with a dash it counts nothing, with a number that number |
| LcovLines.DataLine | scripts/merge-coverage.js:53-59 | A DA line counts its second number for its first |
| LcovLines.FunctionLines | scripts/merge-coverage.js:60-76 | FN and FNDA lines speak of the function whose name is all that follows the first comma |
| Lcov.MergeRecords | scripts/merge-coverage.js:100-134 | The nested loops are the merge of the specification |
| Lcov.WriteMergedLcov | scripts/merge-coverage.js:136-207 | The text written is the printed lines joined |
| Lcov.PrintFunctions | scripts/merge-coverage.js:148-172 | The pushes of the FN and FNDA rows and their totals |
| Lcov.PrintLineCounts | scripts/merge-coverage.js:174-181 | The pushes of the DA rows and their totals |
| Lcov.PrintBranches | scripts/merge-coverage.js:183-202 | The pushes of the BRDA rows and their totals |
| LcovRoundTrip.FeedSection | scripts/merge-coverage.js:27-98 | Parsing a printed section adds exactly one record: the same file, lines, functions and definitions in printed order, and the branches under their printed numbers |
| LcovRoundTrip.KeyRoundTrip | scripts/merge-coverage.js:183-187 | A branch key in canonical decimals is parsed to its three numbers |
| LcovFixpoint.SectionAgain | scripts/merge-coverage.js:136-204 | Printing the reread record gives the same section if no two branches have the same numbers, and a shorter one otherwise |
| LcovFixpoint.LinesFixpoint | scripts/merge-coverage.js:136-204 | For every merged table, parsing, merging and printing its lines gives them back if and only if no two branches of a file have the same numbers |
| LcovReport.ReportIsFixpoint | scripts/merge-coverage.js:210-221 | For all input files, merging the written report alone writes it again, character by character, if and only if no two branches of a file have the same numbers and no file or function name ends in a carriage return |
| LcovReport.CanonicalKeysStayApart | scripts/merge-coverage.js:183-187 | If all branch fields are canonical decimals the first condition holds |
| LcovSpelling.SpellingsCollide | scripts/merge-coverage.js:77-86 | An input on which the report is no fixpoint: one branch spelled 1,0,0 and 01,0,0 |
| LcovReport.ReportCounts | scripts/merge-coverage.js:100-134 | For all input files, every merged line, branch and function count is the sum over all records of that file, and a function's line is that of its first definition |
| LcovReport.FilesInAnyOrder | scripts/merge-coverage.js:210-220 | The order of the input files changes no count |
| LcovReport.ParseAllFine | scripts/merge-coverage.js:27-98 | Whatever the files hold, parsed records have distinct keys, named functions, three-field branch keys and no line feed in a name |
| LcovSummary.SummariesHold | scripts/merge-coverage.js:169-202 | LF, LH, FNF, FNH, BRF and BRH count the DA, FN and BRDA lines of their section, and those with a positive count read from the line |
| LcovSummary.PrintedInOrder | scripts/merge-coverage.js:136-204 | Functions are printed by line and then name, their counts by name, lines and branches by their numbers, files by name |
| Sanitizer.SanitizeResponseData | src/modules/common/utils/response-sanitizer.util.ts:174-192 | The recursive method with its mutable set of visited objects computes the specification's tree and set |
| Sanitizer.SanitizePlainObject | src/modules/common/utils/response-sanitizer.util.ts:153-172 | The loop over the entries keeps, replaces or leaves out each field as specified |
| Sanitizer.ResolveField | src/modules/common/utils/response-sanitizer.util.ts:142-151 | The three handlers in order of precedence are one decision |
| Sanitizer.HandleIdField | src/modules/common/utils/response-sanitizer.util.ts:83-99 | An id is left out beside a public id or when it is a UUID, and else sanitized |
| Sanitizer.HandleRelationField | src/modules/common/utils/response-sanitizer.util.ts:108-140 | The handler takes the relation branches of the decision that the next rows spell out |
| SanitizerFields.EveryFieldShown | src/modules/common/utils/response-sanitizer.util.ts:52-172 | The record of an object shows each field as its key and value call for and no other keys: ids left out beside a public id or as UUIDs, public ids kept, a UUID under one of the thirteen mapped keys replaced by what the object beside it goes by or left out, a public id under them kept, and every other value sanitized |
| SanitizerFields.RelationShown | src/modules/common/utils/response-sanitizer.util.ts:7-140 | Under each of the thirteen keys, written out with their relations, a UUID is shown as the alias or public id of that relation, users by the alias first, or else as its own id that is no UUID |
| SanitizerFields.RatingShown | src/modules/common/utils/response-sanitizer.util.ts:7-34 | A rating shows who gave it and who got it by their own aliases |
| SanitizerFields.ValueShown | src/modules/common/utils/response-sanitizer.util.ts:178-192 | Arrays keep their length and are sanitized item by item in place, objects visited before become undefined, all other values are kept |
| SanitizerIds.UuidIs | src/modules/common/utils/public-id.util.ts:11-12 | A UUID is five groups of 8, 4, 4, 4 and 12 hexadecimal digits joined by dashes |
| SanitizerIds.PublicIdIs | src/modules/common/utils/public-id.util.ts:13 | A public id is three letters, an underscore and eight letters or digits |
| Sanitizer.SanitizeResponse | src/modules/common/utils/response-sanitizer.util.ts:174-177 | A call without a set starts from the empty one |
| SanitizerWalk.WalkableExactlyWhen | src/modules/common/utils/response-sanitizer.util.ts:174-192 | The measure on which termination rests exists for a value of a finite graph if and only if the part followed from it has no cycle of arrays alone; the rest may look like anything |
| SanitizerWalk.VisitedOnce | src/modules/common/utils/response-sanitizer.util.ts:182-191 | The result holds one object for each object newly visited |
| SanitizerWalk.VisitsExactlyTheReachable | src/modules/common/utils/response-sanitizer.util.ts:153-192 | The visited objects are the least set that has the input's objects and all that followed fields of its members hold |
| SanitizerWalk.VisitedIsReachable | src/modules/common/utils/response-sanitizer.util.ts:153-192 | A call visits exactly the objects that lie in every closed set around its input |
| SanitizerCuts.UndefinedPlaces | src/modules/common/utils/response-sanitizer.util.ts:182-191 | The undefined places of a response plus its objects are the occurrences of objects and of undefined under the input and in the kept fields of the objects reachable from it, arrays included |
| SanitizerCuts.LostOccurrences | src/modules/common/utils/response-sanitizer.util.ts:182-191 | The undefined places are those of the input, and one for each time a reachable object is held beyond the first |
| SanitizerCuts.NothingLostExactlyWhen | src/modules/common/utils/response-sanitizer.util.ts:182-191 | Nothing is lost if and only if every reachable object is held exactly once |
| SanitizerIds.ResponseIsSafeExactlyWhen | src/modules/common/utils/response-sanitizer.util.ts:52-140 | No id or mapped key of the result holds a UUID and nothing passes unsanitized, if and only if no reachable object has an object as its publicId or a mapped UUID whose external identifier is a UUID |
| SanitizerIds.CleanNamesAreEnough | src/modules/common/utils/response-sanitizer.util.ts:52-76 | That holds whenever aliases and public ids are not UUID-shaped and public ids are not objects |
| SanitizerIds.UuidAliasIsShown | src/modules/common/utils/response-sanitizer.util.ts:56-59 | An object graph whose result shows a UUID: a user whose alias is one |
| SanitizerIds.ObjectAsPublicIdIsShown | src/modules/common/utils/response-sanitizer.util.ts:101-106 | An object graph whose result passes an object with its UUID through: a publicId that is an object |
| SanitizerAgain.SanitizingAgainExactlyWhen | src/modules/common/utils/response-sanitizer.util.ts:153-192 | In any graph that shows a result as a tree, sanitizing gives the same tree if and only if every UUID shown under a mapped key is the external identifier of the record beside it |
| SanitizerAgain.SanitizingAgain | src/modules/common/utils/response-sanitizer.util.ts:153-192 | So it does when no reachable UUID is replaced by a UUID |
| SanitizerFresh.EveryResultIsShown | src/modules/common/utils/response-sanitizer.util.ts:153-192 | Every such tree can be written out as fresh arrays and objects beside any graph, in a graph that can be sanitized again |
| SanitizerFresh.SanitizingTwice | src/modules/common/utils/response-sanitizer.util.ts:153-192 | So every response can be written out beside its input and sanitized again, and stays the same exactly under that condition |
| SanitizerSharing.SecondWalkChanges | src/modules/common/utils/response-sanitizer.util.ts:182-191 | A response that a second call changes: a user whose alias is a UUID, shown twice |
| SanitizerSharing.SecondOccurrenceIsLost | src/modules/common/utils/response-sanitizer.util.ts:182-191 | A graph without undefined that holds a user twice, whose response has one undefined place |
| SanitizerIds.MappedKeys | src/modules/common/utils/response-sanitizer.util.ts:7-27 | Every mapped key ends in Id and none is exempt, so a UUID without replacement never stays |
| Otp.ValidateOtpIn | src/modules/otp/otp.service.ts:92-132 | Accepts exactly the live code and deletes it, or counts a wrong one, says how many attempts are left, and deletes the code with the last; malformed or missing codes change nothing |
| Otp.SecureCompare | src/modules/otp/otp.service.ts:134-148 | The loop that never stops early returns true if and only if the codes are equal |
| Otp.KeysApart | src/modules/otp/otp.service.ts:44-54 | No two of a user's keys coincide, nor any with a key of another user |
| OtpRuns.CodesLimited | src/modules/otp/otp.service.ts:92-132 | In every timed run, per code sent at most one acceptance and at most MAX_ATTEMPTS wrong codes; after either limit nothing is accepted until the next send |
| OtpRuns.AcceptedExactlyWhen | src/modules/otp/otp.service.ts:92-132 | A code is accepted if and only if it is the last one sent, is well formed, has not expired and was not used up, accepted or invalidated |
| OtpRuns.SendsLimited | src/modules/otp/otp.service.ts:56-90 | Without invalidation any window of 3600 seconds holds at most MAX_RESENDS sends |
| OtpRuns.SentExactlyWhen | src/modules/otp/otp.service.ts:56-90 | Without invalidation a code is sent if and only if fewer than MAX_RESENDS codes were sent in a row, each within an hour of the next and the last within the hour |
| OtpRuns.RefusedByProlongedHour | src/modules/otp/otp.service.ts:56-90 | With a limit of three and codes sent at 0, 3500 and 7000 seconds, a fourth is refused at 7100 although only one was sent in the last hour |
| OtpRuns.InvalidationStartsAgain | src/modules/otp/otp.service.ts:157-161 | After an invalidation no code is accepted and the next send is granted |
| OtpRuns.OthersUntouched | src/modules/otp/otp.service.ts:44-54 | A step of one user leaves the entries of another alone |
| Lockout.CounterStaysBelow | src/modules/auth/auth.service.ts:580-598 | The counter is below the limit after every attempt of every run |
| Lockout.RefusedExactlyWhen | src/modules/auth/auth.service.ts:239-269 | After any attempts on a fresh account the right password is refused if and only if one of them locked the account less than the block time ago, and otherwise clears counter and block |
| Lockout.LocksExactlyAtMax | src/modules/auth/auth.service.ts:580-598 | An attempt locks the account if and only if it is compared, wrong, and exactly the MAX-th wrong one since the last success or lock |
| Lockout.GuessesBounded | src/modules/auth/auth.service.ts:239-269 | In T minutes without a successful login at most MAX * (T / B + 1) wrong passwords are compared |
| Lockout.BoundIsReached | src/modules/auth/auth.service.ts:239-269 | Some run reaches that number, so the bound is exact |

## Where the code falls short of what one might expect

The model follows the code, and these are kept as they are:

- `capturePaypalOrder` does not look at the payment's status; only PayPal's own guarantees keep a payment from being paid
  twice (`PaypalRuns.PaidAtMostOnce`; without them `Stories.ReceivedTwice`). A payment of a cancelled route can so become
  paid later (`Stories.PaidAfterCancellation`), exactly if it had an order when the route was cancelled
  (`RouteRuns.CancelledPaymentsOverRuns`) that was not completed yet (`PaypalRuns.PaidLaterExactlyWhen`).
- Nothing records that a driver was paid in cash: such a payment is never paid (`PaymentRuns.CashIsNeverPaid`).
- Refunds do not look at payouts: money given back after its withdrawal stays in the payout
  (`Stories.RefundAfterWithdrawal`; `Conservation.ConservedExactlyWhen`).
- `failPayout` fails a paid or already failed payout and counts an attempt each time, and it never releases the payments
  (`Stories.PaidPayoutFails`; `PayoutRuns.PaidUntilMarkedFailed`; `Stories.FailureStrands`;
  `Conservation.NoneStrandedExactlyWhen`).
- `executePaypalPayout` may send a pending payout that already has a batch again (`Stories.SentTwice`;
  `PayoutRuns.SentAgainExactlyWhen`).
- `cancelRoute` gives no seats back, so on a cancelled route seats can be missing (`Stories.PaidAfterCancellation`;
  `RouteRuns.CancelledSeatsExactly`).
- `createBooking` accepts a route that has started, so that not every confirmed passenger of a started route is checked
  (`Stories.BookedAfterStart`; `BookingRuns.StartedRouteAllChecked`).
- A withdrawal can be refused although other payments would make it up (`Withdrawal.GreedyCanMiss`;
  `Withdrawal.NeverMissesExactlyWhen`).
- A withdrawal adds up doubles and compares them, so it can also be refused although the chosen payments make it up in
  cents (`Doubles.EqualPricesMiss`: three times 2.20 and a request of 6.60; `Doubles.OldestPaymentsMiss`: 1.00, 1.10, 3.20
  and 5.30), exactly when the doubles do not add up (`Doubles.WithdrawsPrefixExactlyWhen`;
  `Doubles.UniformWithdrawalExactlyWhen`). What it grants is exact (`Doubles.GrantedIsExact`).
- Insertion shifts saved row by row would break the unique numbering as soon as two rows move
  (`StopOrder.InsertionRowByRow`); the model saves them as one batch.
- Merging a report alone may change it when one branch is spelled in two ways (`LcovSpelling.SpellingsCollide`;
  `LcovReport.ReportIsFixpoint`).
- The sanitizer passes an object held by a publicId field through as it is (`SanitizerIds.ObjectAsPublicIdIsShown`), and
  shows a UUID that is an alias (`SanitizerIds.UuidAliasIsShown`; `SanitizerIds.ResponseIsSafeExactlyWhen`). Such a
  response can change when it is sanitized again (`SanitizerSharing.SecondWalkChanges`;
  `SanitizerAgain.SanitizingAgainExactlyWhen`).
- A shared object appears in the response once; its further occurrences become undefined
  (`SanitizerSharing.SecondOccurrenceIsLost`; `SanitizerCuts.LostOccurrences`; `SanitizerCuts.NothingLostExactlyWhen`).
- Every send of a one-time code prolongs the hour in which sends are counted (`OtpRuns.RefusedByProlongedHour`;
  `OtpRuns.SentExactlyWhen`).

## Left out

- Controllers, validators, guards, Swagger, metrics, logging, audit events and response messages.
- PayPal, maps, mail and object storage: PayPal is a nondeterministic reply (status, amount, currency or error) that is an argument of the step.
- Cryptography: codes are compared as strings, a missing secret, with which no trip code matches, is not modelled, and bcrypt's verdict on a password is an argument.
- Withdrawal.NeverMissesExactlyWhen: in exact cents; on the doubles of the service it holds when their sums are exact (`Doubles.SameAsCents`).
- Withdrawal.WithdrawsPrefix: in exact cents; on doubles it holds exactly when their sums are exact (`Doubles.WithdrawsPrefixExactlyWhen`).
- Withdrawal.UniformWithdrawal: in exact cents; on doubles it holds exactly when their sums are exact (`Doubles.UniformWithdrawalExactlyWhen`).
- Doubles.GrantedIsExact: bounded at 2^49 payments times cents, more than 56,000 payments for the largest amount its column holds; amounts that overflow a double are not modelled.
- Payouts.RequestPayoutIn: selects and adds in exact cents, as the other sums of money do; the doubles that the service adds before a column with two decimals rounds them are modelled for the selection only (`Doubles`).
- Rounding in the geometry: it is over reals with squared distances, and the cosine of the reference latitude and the haversine distance are parameters.
- SQL, foreign keys and partial transactions: each service call is one atomic step. That `cancelBooking` checks the status outside its transaction, and that payouts read payments before opening theirs, is not modelled.
- Deleting a stop through its foreign key: a booking keeps the id of a removed pickup stop.
- Public ids and their lookup, the identity resolver, driver and vehicle approval, ratings and the penalty for late cancellation; whether a passenger is blocked by rating is an argument.
- The idempotency cache of `createPayment`, failure reasons, last errors and timestamps other than departure, start, paid, expiry and block times.
- Bookings.CreateBookingIn: seats are taken one at a time with the row locked; ids are drawn from one counter instead of at random.
- Lcov.ParseLcov: counts are unbounded integers, so values above 2^53, which print in floating point, are not modelled.
- Lcov.WriteMergedLcov: the file-system calls and the command line are left out; the two string orders are any total preorders.
- Sanitizer.SanitizeResponseData: keys such as `__proto__` and getters are not modelled; dates, buffers, numbers and null are atoms.
- Otp.SendOtpIn: the drawn code is an argument; the expiry of a code and the clock of the store are the same clock.
- Lockout.AuthUser.TryLogin: accounts that are unknown, unverified or without credential are not modelled, nor are tokens.
- `admin-seed.service.ts`: its fixed rows do not obey the trip invariants; runs start from empty tables.
- Failure of a run in the middle of `removePickupStop`: numbers stay distinct, but a gap may remain until it is closed.
