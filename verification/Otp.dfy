/** One-time codes with limits on attempts and resends, after src/modules/otp/otp.service.ts, kept in the
    expiring key-value store of src/redis/redis.service.ts. Times are in seconds. */
module Otp {
  import opened Wrappers

  // ---- the store ----

  datatype Value = Text(text: string) | Count(count: int)

  datatype Entry = Entry(value: Value, expiry: Option<int>)

  type Entries = map<string, Entry>

  /** An entry counts as gone from its expiry on. */
  function Live(entries: Entries, key: string, now: int): Option<Value> {
    if key !in entries || (entries[key].expiry.Some? && entries[key].expiry.value <= now) then None
    else Some(entries[key].value)
  }

  /** INCR: one more, keeping the expiry; a missing key starts at 1 and never expires. */
  function Incremented(entries: Entries, key: string, now: int): Entries {
    match Live(entries, key, now)
    case Some(Count(n)) => entries[key := Entry(Count(n + 1), entries[key].expiry)]
    case _ => entries[key := Entry(Count(1), None)]
  }

  class Redis {
    var entries: Entries

    constructor ()
      ensures entries == map[]
    {
      entries := map[];
    }

    method Get(key: string, now: int) returns (value: Option<Value>)
      ensures value == Live(entries, key, now)
    {
      if key in entries {
        var entry := entries[key];
        if entry.expiry.None? || now < entry.expiry.value {
          return Some(entry.value);
        }
      }
      return None;
    }

    method Set(key: string, value: Value, now: int, ttl: int)
      modifies this
      ensures entries == old(entries)[key := Entry(value, Some(now + ttl))]
    {
      entries := entries[key := Entry(value, Some(now + ttl))];
    }

    method Incr(key: string, now: int) returns (count: int)
      modifies this
      ensures entries == Incremented(old(entries), key, now)
      ensures key in entries && entries[key].value == Count(count)
    {
      var value := Get(key, now);
      if value.Some? && value.value.Count? {
        count := value.value.count + 1;
        entries := entries[key := Entry(Count(count), entries[key].expiry)];
      } else {
        count := 1;
        entries := entries[key := Entry(Count(1), None)];
      }
    }

    method Del(keys: set<string>)
      modifies this
      ensures entries == old(entries) - keys
    {
      entries := entries - keys;
    }
  }

  // ---- keys ----

  function OtpKey(user: string): string {
    "otp:verify:" + user
  }

  function AttemptsKey(user: string): string {
    "otp:verify:attempts:" + user
  }

  function ResendKey(user: string): string {
    "otp:verify:resend:" + user
  }

  /** User ids are UUIDs; all that matters is that they have no colon. */
  predicate IsUserId(user: string) {
    ':' !in user
  }

  /** No two of a user's keys coincide, nor any with a key of another user. */
  lemma KeysApart(u: string, v: string)
    requires IsUserId(u) && IsUserId(v)
    ensures OtpKey(u) != AttemptsKey(v) && OtpKey(u) != ResendKey(v) && AttemptsKey(u) != ResendKey(v)
    ensures u != v ==> OtpKey(u) != OtpKey(v) && AttemptsKey(u) != AttemptsKey(v) && ResendKey(u) != ResendKey(v)
  {
    var k := |"otp:verify:"|;
    assert OtpKey(u)[k..] == u && OtpKey(v)[k..] == v;
    assert AttemptsKey(v)[k..][8] == ':' && ResendKey(v)[k..][6] == ':';
    assert AttemptsKey(u)[k] == 'a' && ResendKey(v)[k] == 'r';
    assert AttemptsKey(u)[k + 9..] == u && AttemptsKey(v)[k + 9..] == v;
    assert ResendKey(u)[k + 7..] == u && ResendKey(v)[k + 7..] == v;
  }

  // ---- the service ----

  /** OTP lifetime in seconds, MAX_OTP_ATTEMPTS and MAX_OTP_RESENDS, each at least 1 by
      src/config/env.schema.ts:60-62. */
  datatype Limits = Limits(ttl: int, maxAttempts: int, maxResends: int)

  predicate ValidLimits(limits: Limits) {
    limits.ttl >= 1 && limits.maxAttempts >= 1 && limits.maxResends >= 1
  }

  const RESEND_WINDOW: int := 60 * 60

  datatype Op = Send(user: string, drawn: string) | Validate(user: string, code: string) | Invalidate(user: string)

  datatype Outcome =
    | Sent(code: string) | ResendLimit | BadFormat | NoCode | WrongCode(attemptsLeft: int) | Accepted | Invalidated

  predicate SixDigits(code: string) {
    |code| == 6 && forall c :: c in code ==> '0' <= c <= '9'
  }

  function ResendCount(entries: Entries, user: string, now: int): int {
    match Live(entries, ResendKey(user), now)
    case Some(Count(n)) => n
    case _ => 0
  }

  /** `drawn` is the code that the random generator draws. */
  function SendOtp(limits: Limits, entries: Entries, user: string, drawn: string, now: int): (Entries, Outcome) {
    var resends := ResendCount(entries, user, now);
    if resends >= limits.maxResends then (entries, ResendLimit) else
    (entries[OtpKey(user) := Entry(Text(drawn), Some(now + limits.ttl))]
            [AttemptsKey(user) := Entry(Count(0), Some(now + limits.ttl))]
            [ResendKey(user) := Entry(Count(resends + 1), Some(now + RESEND_WINDOW))],
     Sent(drawn))
  }

  function ValidateOtp(limits: Limits, entries: Entries, user: string, code: string, now: int): (Entries, Outcome) {
    if !SixDigits(code) then (entries, BadFormat) else
    match Live(entries, OtpKey(user), now)
    case Some(Text(stored)) =>
      if stored == "" then (entries, NoCode)
      else if stored == code then (entries - {OtpKey(user), AttemptsKey(user)}, Accepted)
      else
        var counted := Incremented(entries, AttemptsKey(user), now);
        var attempts := counted[AttemptsKey(user)].value.count;
        (if attempts >= limits.maxAttempts then counted - {OtpKey(user), AttemptsKey(user)} else counted,
         WrongCode(limits.maxAttempts - attempts))
    case _ => (entries, NoCode)
  }

  function InvalidateOtp(entries: Entries, user: string): Entries {
    entries - {OtpKey(user), AttemptsKey(user), ResendKey(user)}
  }

  /** Every character is looked at, whatever was found before. */
  method SecureCompare(a: string, b: string) returns (same: bool)
    ensures same <==> a == b
  {
    if |a| != |b| {
      return false;
    }
    var differing := 0;
    for i := 0 to |a|
      invariant differing >= 0 && (differing == 0 <==> a[..i] == b[..i])
    {
      assert a[..i + 1] == a[..i] + [a[i]] && b[..i + 1] == b[..i] + [b[i]];
      differing := differing + if a[i] == b[i] then 0 else 1;
    }
    assert a[..|a|] == a && b[..|b|] == b;
    return differing == 0;
  }

  /** All entries but the user's three are the same. */
  ghost predicate KeptElse(before: Entries, after: Entries, user: string) {
    forall key :: key != OtpKey(user) && key != AttemptsKey(user) && key != ResendKey(user) ==>
      (key in after <==> key in before) && (key in before ==> after[key] == before[key])
  }

  method SendOtpIn(redis: Redis, limits: Limits, user: string, drawn: string, now: int) returns (outcome: Outcome)
    modifies redis
    ensures var used := ResendCount(old(redis.entries), user, now);
            (outcome == ResendLimit <==> used >= limits.maxResends)
            && (outcome == ResendLimit ==> redis.entries == old(redis.entries))
            && (outcome != ResendLimit ==>
                  outcome == Sent(drawn)
                  && OtpKey(user) in redis.entries && AttemptsKey(user) in redis.entries
                  && ResendKey(user) in redis.entries
                  && redis.entries[OtpKey(user)] == Entry(Text(drawn), Some(now + limits.ttl))
                  && redis.entries[AttemptsKey(user)] == Entry(Count(0), Some(now + limits.ttl))
                  && redis.entries[ResendKey(user)] == Entry(Count(used + 1), Some(now + RESEND_WINDOW))
                  && KeptElse(old(redis.entries), redis.entries, user))
    ensures (redis.entries, outcome) == SendOtp(limits, old(redis.entries), user, drawn, now)
  {
    var raw := redis.Get(ResendKey(user), now);
    var resends := if raw.Some? && raw.value.Count? then raw.value.count else 0;
    if resends >= limits.maxResends {
      return ResendLimit;
    }
    redis.Set(OtpKey(user), Text(drawn), now, limits.ttl);
    redis.Set(AttemptsKey(user), Count(0), now, limits.ttl);
    redis.Set(ResendKey(user), Count(resends + 1), now, RESEND_WINDOW);
    return Sent(drawn);
  }

  method ValidateOtpIn(redis: Redis, limits: Limits, user: string, code: string, now: int) returns (outcome: Outcome)
    modifies redis
    ensures var stored := Live(old(redis.entries), OtpKey(user), now);
            var kept := stored.Some? && stored.value.Text? && stored.value.text != "";
            var wrong := match Live(old(redis.entries), AttemptsKey(user), now)
                         case Some(Count(n)) => n + 1
                         case _ => 1;
            (outcome == BadFormat <==> !SixDigits(code))
            && (outcome == NoCode <==> SixDigits(code) && !kept)
            && (outcome == Accepted <==> SixDigits(code) && kept && stored.value.text == code)
            && (outcome == BadFormat || outcome == NoCode ==> redis.entries == old(redis.entries))
            && (outcome == Accepted ==> redis.entries == old(redis.entries) - {OtpKey(user), AttemptsKey(user)})
            && (SixDigits(code) && kept && stored.value.text != code ==>
                  outcome == WrongCode(limits.maxAttempts - wrong)
                  && (redis.entries.Keys - {AttemptsKey(user)} ==
                      old(redis.entries).Keys - {AttemptsKey(user)}
                      - if wrong >= limits.maxAttempts then {OtpKey(user)} else {})
                  && (AttemptsKey(user) in redis.entries <==> wrong < limits.maxAttempts)
                  && (AttemptsKey(user) in redis.entries ==> redis.entries[AttemptsKey(user)].value == Count(wrong)))
            && forall key :: key in redis.entries && key != AttemptsKey(user) ==>
                               key in old(redis.entries) && redis.entries[key] == old(redis.entries)[key]
    ensures (redis.entries, outcome) == ValidateOtp(limits, old(redis.entries), user, code, now)
  {
    if !SixDigits(code) {
      return BadFormat;
    }
    var stored := redis.Get(OtpKey(user), now);
    if stored.None? || stored.value.Count? || stored.value.text == "" {
      return NoCode;
    }
    var isValid := SecureCompare(stored.value.text, code);
    if !isValid {
      var attempts := redis.Incr(AttemptsKey(user), now);
      if attempts >= limits.maxAttempts {
        redis.Del({OtpKey(user), AttemptsKey(user)});
      }
      return WrongCode(limits.maxAttempts - attempts);
    }
    redis.Del({OtpKey(user), AttemptsKey(user)});
    return Accepted;
  }

  method InvalidateOtpIn(redis: Redis, user: string)
    modifies redis
    ensures OtpKey(user) !in redis.entries && AttemptsKey(user) !in redis.entries && ResendKey(user) !in redis.entries
    ensures KeptElse(old(redis.entries), redis.entries, user)
    ensures redis.entries == InvalidateOtp(old(redis.entries), user)
  {
    redis.Del({OtpKey(user), AttemptsKey(user), ResendKey(user)});
  }
}
