/** What the limits on one-time codes amount to over whole runs with any users, codes and times. */
module OtpRuns {
  import opened Wrappers
  import opened Otp

  datatype Step = Step(op: Op, now: int)

  function Apply(limits: Limits, entries: Entries, step: Step): (Entries, Outcome) {
    match step.op
    case Send(user, drawn) => SendOtp(limits, entries, user, drawn, step.now)
    case Validate(user, code) => ValidateOtp(limits, entries, user, code, step.now)
    case Invalidate(user) => (InvalidateOtp(entries, user), Invalidated)
  }

  function Run(limits: Limits, steps: seq<Step>): Entries {
    if steps == [] then map[] else Apply(limits, Run(limits, steps[..|steps| - 1]), steps[|steps| - 1]).0
  }

  /** What the last of the steps answered. */
  function LastOutcome(limits: Limits, steps: seq<Step>): Outcome
    requires steps != []
  {
    Apply(limits, Run(limits, steps[..|steps| - 1]), steps[|steps| - 1]).1
  }

  /** Times never go back, and user ids are user ids. */
  predicate Orderly(steps: seq<Step>) {
    (forall i, j :: 0 <= i < j < |steps| ==> steps[i].now <= steps[j].now)
    && (forall i :: 0 <= i < |steps| ==> IsUserId(steps[i].op.user))
  }

  // ---- since the last code was sent ----

  /** The last code sent to a user and when, how often since then a code was accepted or a wrong one compared,
      and whether the code was invalidated. */
  datatype Tally = Tally(sent: Option<(string, int)>, accepted: nat, wrong: nat, invalidated: bool)

  /** The code can still be used, as long as it does not expire. */
  predicate Usable(limits: Limits, tally: Tally) {
    tally.sent.Some? && tally.accepted == 0 && tally.wrong < limits.maxAttempts && !tally.invalidated
  }

  function Recorded(tally: Tally, outcome: Outcome, now: int): Tally {
    match outcome
    case Sent(code) => Tally(Some((code, now)), 0, 0, false)
    case Accepted => tally.(accepted := tally.accepted + 1)
    case WrongCode(_) => tally.(wrong := tally.wrong + 1)
    case Invalidated => tally.(invalidated := true)
    case _ => tally
  }

  function SinceSend(limits: Limits, steps: seq<Step>, user: string): Tally {
    if steps == [] then Tally(None, 0, 0, false) else
    var last, before := steps[|steps| - 1], SinceSend(limits, steps[..|steps| - 1], user);
    if last.op.user == user then Recorded(before, LastOutcome(limits, steps), last.now) else before
  }

  /** The store holds a code for a user exactly while it is usable; it is the last one sent, and the attempt
      counter beside it counts the wrong codes since. */
  ghost predicate CodeFits(limits: Limits, entries: Entries, user: string, tally: Tally) {
    tally.accepted <= 1 && tally.wrong <= limits.maxAttempts
    && (OtpKey(user) in entries <==> Usable(limits, tally))
    && (OtpKey(user) in entries ==>
          AttemptsKey(user) in entries
          && entries[OtpKey(user)] == Entry(Text(tally.sent.value.0), Some(tally.sent.value.1 + limits.ttl))
          && entries[AttemptsKey(user)] == Entry(Count(tally.wrong), Some(tally.sent.value.1 + limits.ttl)))
  }

  /** Another user's step leaves a user's entries alone. */
  lemma OthersUntouched(limits: Limits, entries: Entries, step: Step, user: string)
    requires IsUserId(user) && IsUserId(step.op.user) && step.op.user != user
    ensures var after := Apply(limits, entries, step).0;
            forall key :: key == OtpKey(user) || key == AttemptsKey(user) || key == ResendKey(user) ==>
                            (key in after <==> key in entries) && (key in entries ==> after[key] == entries[key])
  {
    KeysApart(user, step.op.user);
    KeysApart(step.op.user, user);
    hide OtpKey, AttemptsKey, ResendKey;
  }

  lemma OwnStepFits(limits: Limits, entries: Entries, step: Step, tally: Tally)
    requires ValidLimits(limits) && IsUserId(step.op.user) && CodeFits(limits, entries, step.op.user, tally)
    ensures var (after, outcome) := Apply(limits, entries, step);
            CodeFits(limits, after, step.op.user, Recorded(tally, outcome, step.now))
  {
    KeysApart(step.op.user, step.op.user);
    hide OtpKey, AttemptsKey, ResendKey, SixDigits;
  }

  lemma {:induction false} CodeAlwaysFits(limits: Limits, steps: seq<Step>, user: string)
    requires ValidLimits(limits) && Orderly(steps) && IsUserId(user)
    ensures CodeFits(limits, Run(limits, steps), user, SinceSend(limits, steps, user))
    decreases |steps|
  {
    if steps != [] {
      var init, last := steps[..|steps| - 1], steps[|steps| - 1];
      CodeAlwaysFits(limits, init, user);
      var entries := Run(limits, init);
      hide Apply, OtpKey, AttemptsKey, ResendKey;
      if last.op.user == user {
        OwnStepFits(limits, entries, last, SinceSend(limits, init, user));
      } else {
        OthersUntouched(limits, entries, last, user);
      }
    }
  }

  /** Between one code sent to a user and the next, a code is accepted at most once and at most MAX wrong codes are
      compared; after either, no code is even compared. */
  lemma CodesLimited(limits: Limits, steps: seq<Step>, user: string)
    requires ValidLimits(limits) && Orderly(steps) && IsUserId(user)
    ensures var tally := SinceSend(limits, steps, user);
            tally.accepted <= 1 && tally.wrong <= limits.maxAttempts
            && (tally.accepted == 1 || tally.wrong == limits.maxAttempts ==>
                  forall code, now ::
                    var outcome := ValidateOtp(limits, Run(limits, steps), user, code, now).1;
                    outcome == BadFormat || outcome == NoCode)
  {
    CodeAlwaysFits(limits, steps, user);
    hide Run, SinceSend, OtpKey, AttemptsKey, SixDigits;
  }

  /** A code is accepted exactly when it is the last one sent, has six digits, and that one has not expired, been
      accepted, been invalidated or used up its attempts. */
  lemma AcceptedExactlyWhen(limits: Limits, steps: seq<Step>, user: string, code: string, now: int)
    requires ValidLimits(limits) && Orderly(steps) && IsUserId(user)
    ensures var tally := SinceSend(limits, steps, user);
            ValidateOtp(limits, Run(limits, steps), user, code, now).1 == Accepted <==>
              SixDigits(code) && Usable(limits, tally)
              && tally.sent.value.0 == code && now < tally.sent.value.1 + limits.ttl
  {
    CodeAlwaysFits(limits, steps, user);
    hide Run, SinceSend, OtpKey, AttemptsKey;
  }

  // ---- how many codes are sent ----

  /** The times at which a code was sent to a user. */
  function SendTimes(limits: Limits, steps: seq<Step>, user: string): seq<int> {
    if steps == [] then [] else
    var last, before := steps[|steps| - 1], SendTimes(limits, steps[..|steps| - 1], user);
    if last.op.user == user && LastOutcome(limits, steps).Sent? then before + [last.now] else before
  }

  predicate NeverInvalidated(steps: seq<Step>, user: string) {
    forall i :: 0 <= i < |steps| ==> steps[i].op != Invalidate(user)
  }

  /** Any two sends less than an hour apart, with all those between, are no more than the limit. */
  ghost predicate Spread(limits: Limits, times: seq<int>) {
    forall i, j :: 0 <= i <= j < |times| && times[j] - times[i] < RESEND_WINDOW ==> j - i + 1 <= limits.maxResends
  }

  function Stored(entries: Entries, key: string): Option<Entry> {
    if key in entries then Some(entries[key]) else None
  }

  /** The resend counter covers every send of the hour before the last one, and expires an hour after it. */
  ghost predicate Covers(limits: Limits, counter: Option<Entry>, times: seq<int>) {
    Spread(limits, times)
    && (counter.Some? <==> times != [])
    && (times != [] ==>
          var last := times[|times| - 1];
          counter.value.value.Count? && counter.value.value.count >= 1
          && counter.value.expiry == Some(last + RESEND_WINDOW)
          && forall i :: 0 <= i < |times| ==>
               times[i] <= last && (last - times[i] < RESEND_WINDOW ==> |times| - i <= counter.value.value.count))
  }

  /** One more send, counted on from the counter if it is alive and from zero if not. */
  lemma SendCovered(limits: Limits, counter: Option<Entry>, times: seq<int>, now: int, resends: int)
    requires ValidLimits(limits) && Covers(limits, counter, times)
    requires times != [] ==> times[|times| - 1] <= now
    requires resends == if counter.Some? && now < counter.value.expiry.value then counter.value.value.count else 0
    requires resends < limits.maxResends
    ensures Covers(limits, Some(Entry(Count(resends + 1), Some(now + RESEND_WINDOW))), times + [now])
  {
    var more := times + [now];
    forall i, j | 0 <= i <= j < |more| && more[j] - more[i] < RESEND_WINDOW
      ensures j - i + 1 <= limits.maxResends
    {
      if j == |times| && i < |times| {
        assert more[i] == times[i] && times[i] <= times[|times| - 1];
      } else if j < |times| {
        assert more[j] == times[j] && more[i] == times[i];
      }
    }
  }

  /** What a user's own step does to the resend counter. */
  lemma OwnStepCounts(limits: Limits, entries: Entries, step: Step)
    requires IsUserId(step.op.user) && !step.op.Invalidate?
    ensures var (after, outcome) := Apply(limits, entries, step);
            var key := ResendKey(step.op.user);
            var resends := ResendCount(entries, step.op.user, step.now);
            if outcome.Sent? then
              resends < limits.maxResends
              && Stored(after, key) == Some(Entry(Count(resends + 1), Some(step.now + RESEND_WINDOW)))
            else Stored(after, key) == Stored(entries, key)
  {
    KeysApart(step.op.user, step.op.user);
    hide OtpKey, AttemptsKey, ResendKey, SixDigits;
  }

  lemma {:induction false} SendTimesPast(limits: Limits, steps: seq<Step>, user: string, now: int)
    requires forall i :: 0 <= i < |steps| ==> steps[i].now <= now
    ensures forall i :: 0 <= i < |SendTimes(limits, steps, user)| ==> SendTimes(limits, steps, user)[i] <= now
    decreases |steps|
  {
    if steps != [] {
      SendTimesPast(limits, steps[..|steps| - 1], user, now);
    }
  }

  lemma OwnStepCovered(limits: Limits, entries: Entries, step: Step, times: seq<int>)
    requires ValidLimits(limits) && IsUserId(step.op.user) && !step.op.Invalidate?
    requires Covers(limits, Stored(entries, ResendKey(step.op.user)), times)
    requires forall i :: 0 <= i < |times| ==> times[i] <= step.now
    ensures var (after, outcome) := Apply(limits, entries, step);
            Covers(limits, Stored(after, ResendKey(step.op.user)), if outcome.Sent? then times + [step.now] else times)
  {
    hide Apply, OtpKey, AttemptsKey, ResendKey, Covers, ResendCount;
    var user := step.op.user;
    OwnStepCounts(limits, entries, step);
    if Apply(limits, entries, step).1.Sent? {
      CounterRead(limits, entries, user, times, step.now);
      SendCovered(limits, Stored(entries, ResendKey(user)), times, step.now, ResendCount(entries, user, step.now));
    }
  }

  lemma {:induction false} AlwaysCovered(limits: Limits, steps: seq<Step>, user: string)
    requires ValidLimits(limits) && Orderly(steps) && IsUserId(user) && NeverInvalidated(steps, user)
    ensures Covers(limits, Stored(Run(limits, steps), ResendKey(user)), SendTimes(limits, steps, user))
    decreases |steps|
  {
    if steps != [] {
      var init, last := steps[..|steps| - 1], steps[|steps| - 1];
      AlwaysCovered(limits, init, user);
      SendTimesPast(limits, init, user, last.now);
      var entries := Run(limits, init);
      hide Apply, OtpKey, AttemptsKey, ResendKey, Covers, ResendCount;
      if last.op.user == user {
        OwnStepCovered(limits, entries, last, SendTimes(limits, init, user));
      } else {
        OthersUntouched(limits, entries, last, user);
      }
    }
  }

  lemma CounterRead(limits: Limits, entries: Entries, user: string, times: seq<int>, now: int)
    requires Covers(limits, Stored(entries, ResendKey(user)), times)
    ensures var counter := Stored(entries, ResendKey(user));
            (counter.Some? ==> counter.value.expiry.Some? && counter.value.value.Count?)
            && ResendCount(entries, user, now)
               == if counter.Some? && now < counter.value.expiry.value then counter.value.value.count else 0
  {
    hide ResendKey;
  }

  /** Without invalidation no hour holds more than MAX sends to a user. */
  lemma SendsLimited(limits: Limits, steps: seq<Step>, user: string)
    requires ValidLimits(limits) && Orderly(steps) && IsUserId(user) && NeverInvalidated(steps, user)
    ensures var times := SendTimes(limits, steps, user);
            forall i, j ::
                0 <= i <= j < |times| && times[j] - times[i] < RESEND_WINDOW ==> j - i + 1 <= limits.maxResends
  {
    AlwaysCovered(limits, steps, user);
    hide SendTimes, Run;
  }

  // ---- when a code is sent ----

  /** How many sends, counted back from the last one, follow each other within an hour. */
  function Chain(times: seq<int>): nat {
    var n := |times|;
    if n <= 1 then n
    else if times[n - 1] - times[n - 2] < RESEND_WINDOW then Chain(times[..n - 1]) + 1
    else 1
  }

  /** The same at a later time: the chain is over an hour after its last send. */
  function ChainAt(times: seq<int>, now: int): nat {
    if times != [] && now - times[|times| - 1] < RESEND_WINDOW then Chain(times) else 0
  }

  /** The counter that such sends leave behind. */
  function ChainEntry(times: seq<int>): Option<Entry> {
    if times == [] then None else Some(Entry(Count(Chain(times)), Some(times[|times| - 1] + RESEND_WINDOW)))
  }

  lemma CountIsChain(entries: Entries, user: string, times: seq<int>, now: int)
    requires Stored(entries, ResendKey(user)) == ChainEntry(times)
    ensures ResendCount(entries, user, now) == ChainAt(times, now)
  {
    hide ResendKey, Chain;
  }

  lemma ChainGrows(times: seq<int>, now: int)
    ensures Chain(times + [now]) == ChainAt(times, now) + 1
  {
    assert (times + [now])[..|times|] == times;
  }

  lemma OwnStepChains(limits: Limits, entries: Entries, step: Step, times: seq<int>)
    requires IsUserId(step.op.user) && !step.op.Invalidate?
    requires Stored(entries, ResendKey(step.op.user)) == ChainEntry(times)
    ensures var (after, outcome) := Apply(limits, entries, step);
            Stored(after, ResendKey(step.op.user)) == ChainEntry(if outcome.Sent? then times + [step.now] else times)
  {
    OwnStepCounts(limits, entries, step);
    CountIsChain(entries, step.op.user, times, step.now);
    ChainGrows(times, step.now);
    hide Apply, ResendKey, ResendCount, Chain, ChainAt;
  }

  lemma {:induction false} CounterIsChain(limits: Limits, steps: seq<Step>, user: string)
    requires Orderly(steps) && IsUserId(user) && NeverInvalidated(steps, user)
    ensures Stored(Run(limits, steps), ResendKey(user)) == ChainEntry(SendTimes(limits, steps, user))
    decreases |steps|
  {
    if steps != [] {
      var init, last := steps[..|steps| - 1], steps[|steps| - 1];
      CounterIsChain(limits, init, user);
      var entries := Run(limits, init);
      hide Apply, OtpKey, AttemptsKey, ResendKey, ChainEntry;
      if last.op.user == user {
        OwnStepChains(limits, entries, last, SendTimes(limits, init, user));
      } else {
        OthersUntouched(limits, entries, last, user);
      }
    }
  }

  /** Without invalidation a code is sent exactly when fewer than MAX codes were sent in a row, each within an hour of
      the next and the last within the hour; every send prolongs the hour. */
  lemma SentExactlyWhen(limits: Limits, steps: seq<Step>, user: string, drawn: string, now: int)
    requires Orderly(steps) && IsUserId(user) && NeverInvalidated(steps, user)
    ensures SendOtp(limits, Run(limits, steps), user, drawn, now).1
            == if ChainAt(SendTimes(limits, steps, user), now) < limits.maxResends then Sent(drawn) else ResendLimit
  {
    CounterIsChain(limits, steps, user);
    CountIsChain(Run(limits, steps), user, SendTimes(limits, steps, user), now);
    hide Run, SendTimes, ChainAt, ResendCount;
  }

  /** After an invalidation nothing is accepted and the count of sends starts again. */
  lemma InvalidationStartsAgain(limits: Limits, steps: seq<Step>, user: string, code: string, drawn: string, now: int)
    requires IsUserId(user) && ValidLimits(limits)
    ensures var entries := Run(limits, steps + [Step(Invalidate(user), now)]);
            (forall later :: ValidateOtp(limits, entries, user, code, later).1 in {BadFormat, NoCode})
            && forall later :: SendOtp(limits, entries, user, drawn, later).1 == Sent(drawn)
  {
    var all := steps + [Step(Invalidate(user), now)];
    assert all[..|all| - 1] == steps;
    KeysApart(user, user);
    hide OtpKey, AttemptsKey, ResendKey, SixDigits;
  }

  // ---- a request refused by the prolonged hour ----

  /** How many of the times lie within the last hour. */
  function InLastHour(times: seq<int>, now: int): nat {
    if times == [] then 0 else
    InLastHour(times[..|times| - 1], now) + if now - times[|times| - 1] < RESEND_WINDOW then 1 else 0
  }

  const THREE_TIMES := [0, 3500, 7000]

  function ThreeSends(user: string): seq<Step> {
    [Step(Send(user, "000001"), 0), Step(Send(user, "000002"), 3500), Step(Send(user, "000003"), 7000)]
  }

  lemma {:induction false} SendsSoFar(limits: Limits, user: string, n: nat)
    requires limits.maxResends == 3 && IsUserId(user) && n <= 3
    ensures SendTimes(limits, ThreeSends(user)[..n], user) == THREE_TIMES[..n]
  {
    hide SendOtp, Run, Chain;
    if n > 0 {
      var init, all := ThreeSends(user)[..n - 1], ThreeSends(user)[..n];
      SendsSoFar(limits, user, n - 1);
      var last := all[n - 1];
      assert all[..n - 1] == init;
      SentExactlyWhen(limits, init, user, last.op.drawn, last.now);
      ChainOfFew(THREE_TIMES[..n - 1], last.now);
      assert THREE_TIMES[..n] == THREE_TIMES[..n - 1] + [last.now];
    }
  }

  lemma {:induction false} ChainOfFew(times: seq<int>, now: int)
    ensures Chain(times) <= |times| && ChainAt(times, now) <= |times|
  {
    if times != [] { ChainOfFew(times[..|times| - 1], now); }
  }

  /** With a limit of three and codes sent at 0, 3500 and 7000 seconds, a fourth is refused at 7100, although only one
      was sent in the hour before. */
  lemma RefusedByProlongedHour(limits: Limits, user: string, drawn: string)
    requires limits.maxResends == 3 && IsUserId(user)
    ensures SendOtp(limits, Run(limits, ThreeSends(user)), user, drawn, 7100).1 == ResendLimit
    ensures InLastHour(SendTimes(limits, ThreeSends(user), user), 7100) == 1
  {
    var steps, times := ThreeSends(user), THREE_TIMES;
    assert steps[..3] == steps && times[..3] == times;
    SendsSoFar(limits, user, 3);
    SentExactlyWhen(limits, steps, user, drawn, 7100);
    hide SendOtp, Run, SendTimes;
    assert times[..2][..1] == times[..1] && times[..1][..0] == [];
    assert Chain(times[..1]) == 1 && Chain(times[..2]) == 2 && Chain(times) == 3;
    assert InLastHour(times[..1], 7100) == 0 && InLastHour(times[..2], 7100) == 0;
  }
}
