/**
 One-time passwords and the windowed counter of failed attempts.  Postgres is the source of truth;
 Redis is written beside it and may be off, failing or stale.
 */
module OtpAttempts {
  import opened Common

  datatype Purpose = Registration | PasswordReset

  datatype Attempt = Attempt(count: nat, expiresAt: int)

  datatype IncrementResult = IncrementResult(attempts: nat, locked: bool)

  const OTP_MAX_ATTEMPTS: nat := 5
  const OTP_ATTEMPTS_TTL_SECONDS: nat := 600

  // ----- One failure -----

  /** INSERT ... ON CONFLICT DO UPDATE: a missing or expired row starts a new window. */
  function Upsert(row: Option<Attempt>, now: int, ttl: nat): Attempt {
    if row.None? || row.value.expiresAt <= now then Attempt(1, now + ttl)
    else Attempt(row.value.count + 1, row.value.expiresAt)
  }

  /** The row after one failure and the answer to the caller; reaching `max` deletes the row. */
  function Increment(row: Option<Attempt>, now: int, max: nat, ttl: nat): (Option<Attempt>, IncrementResult) {
    var a := Upsert(row, now, ttl);
    if a.count >= max then (None, IncrementResult(a.count, true)) else (Some(a), IncrementResult(a.count, false))
  }

  // ----- The store -----

  /** What Redis does during one call; a read may return any value. */
  datatype RedisBehaviour = Off | FailsOnRead | FailsOnWrite | Works(raw: Option<int>)

  class AuthStateStore {
    var attempts: map<(string, Purpose), Attempt>
    var redis: map<(string, Purpose), int>

    constructor ()
      ensures attempts == map[] && redis == map[]
    {
      attempts, redis := map[], map[];
    }

    function Row(phone: string, purpose: Purpose): Option<Attempt>
      reads this
    {
      if (phone, purpose) in attempts then Some(attempts[(phone, purpose)]) else None
    }

    method IncrementOtpAttempts(phone: string, purpose: Purpose, max: nat, ttl: nat, now: int, r: RedisBehaviour)
      returns (result: IncrementResult)
      modifies this
      ensures (Row(phone, purpose), result) == Increment(old(Row(phone, purpose)), now, max, ttl)
      ensures attempts - {(phone, purpose)} == old(attempts) - {(phone, purpose)}
    {
      var key := (phone, purpose);
      match r {
        case Works(raw) => redis := redis[key := if raw.Some? then raw.value + 1 else 1];
        case _ =>
      }
      var row := if key in attempts then Some(attempts[key]) else None;
      attempts := attempts[key := Upsert(row, now, ttl)];
      var count := attempts[key].count;
      if count >= max {
        ClearOtpAttempts(phone, purpose, r);
        return IncrementResult(count, true);
      }
      return IncrementResult(count, false);
    }

    method ClearOtpAttempts(phone: string, purpose: Purpose, r: RedisBehaviour)
      modifies this
      ensures attempts == old(attempts) - {(phone, purpose)}
    {
      if r.Works? {
        redis := redis - {(phone, purpose)};
      }
      attempts := attempts - {(phone, purpose)};
    }
  }

  // ----- Every sequential history of one phone and purpose -----

  datatype Kind = Failure | Clear

  datatype Event = Event(kind: Kind, at: int)

  /** Time does not run backwards. */
  ghost predicate Timed(h: seq<Event>) {
    forall i, j :: 0 <= i < j < |h| ==> h[i].at <= h[j].at
  }

  /** The stored row after a history. */
  function Stored(h: seq<Event>, max: nat, ttl: nat): Option<Attempt> {
    if h == [] then None
    else
      var last := h[|h| - 1];
      if last.kind == Clear then None
      else Increment(Stored(h[..|h| - 1], max, ttl), last.at, max, ttl).0
  }

  /** The answer a failure at time `now` gets after a history. */
  function Answer(h: seq<Event>, now: int, max: nat, ttl: nat): IncrementResult {
    Increment(Stored(h, max, ttl), now, max, ttl).1
  }

  ghost predicate IsLive(row: Option<Attempt>, now: int) {
    row.Some? && now < row.value.expiresAt
  }

  /** The last `count` events are failures, they fall in one window of `ttl` that the first of them opened,
      and no window was open when it came. */
  ghost predicate OneWindow(h: seq<Event>, count: nat, expiresAt: int, max: nat, ttl: nat) {
    && 1 <= count <= |h|
    && (forall i :: |h| - count <= i < |h| ==> h[i].kind == Failure && (i > |h| - count ==> h[i].at < expiresAt))
    && expiresAt == h[|h| - count].at + ttl
    && !IsLive(Stored(h[..|h| - count], max, ttl), h[|h| - count].at)
  }

  /** A stored row always counts exactly the failures of its window, stays below `max`, and ends when the
      window it started with ends. */
  lemma {:induction false} StoredIsOneWindow(h: seq<Event>, max: nat, ttl: nat)
    requires max >= 1
    ensures var row := Stored(h, max, ttl);
            row.Some? ==> row.value.count < max && OneWindow(h, row.value.count, row.value.expiresAt, max, ttl)
  {
    if h != [] && h[|h| - 1].kind == Failure && Stored(h, max, ttl).Some? {
      var earlier, now := h[..|h| - 1], h[|h| - 1].at;
      StoredIsOneWindow(earlier, max, ttl);
      var before := Stored(earlier, max, ttl);
      if IsLive(before, now) {
        assert earlier[..|earlier| - before.value.count] == h[..|h| - before.value.count - 1];
      }
    }
  }

  /** The returned count is one plus the failures since the window opened; it never exceeds `max`,
      and the lock comes exactly at the max-th failure. */
  lemma AnswerCounts(h: seq<Event>, now: int, max: nat, ttl: nat)
    requires max >= 1
    ensures var row := Stored(h, max, ttl);
            var answer := Answer(h, now, max, ttl);
            && 1 <= answer.attempts <= max && (answer.locked <==> answer.attempts == max)
            && answer.attempts == (if IsLive(row, now) then 1 + row.value.count else 1)
            && (IsLive(row, now) ==> OneWindow(h, row.value.count, row.value.expiresAt, max, ttl))
  {
    StoredIsOneWindow(h, max, ttl);
  }

  /** The end of an open window is never moved by a failure inside it. */
  lemma WindowEndIsFixed(h: seq<Event>, now: int, max: nat, ttl: nat)
    requires IsLive(Stored(h, max, ttl), now)
    ensures var after := Stored(h + [Event(Failure, now)], max, ttl);
            after.Some? ==> after.value.expiresAt == Stored(h, max, ttl).value.expiresAt
  {
    assert (h + [Event(Failure, now)])[..|h|] == h;
  }

  /** A burst of failures inside one `ttl`, from a moment without an open window: the j-th of them is
      answered ((j - 1) mod max) + 1 and is locked exactly when max divides j. */
  lemma {:induction false} Burst(h: seq<Event>, burst: seq<Event>, max: nat, ttl: nat)
    requires max >= 1 && |burst| >= 1
    requires forall i :: 0 <= i < |burst| ==> burst[i].kind == Failure && burst[0].at <= burst[i].at < burst[0].at + ttl
    requires Timed(burst) && !IsLive(Stored(h, max, ttl), burst[0].at)
    ensures Answer(h + burst[..|burst| - 1], burst[|burst| - 1].at, max, ttl)
         == IncrementResult((|burst| - 1) % max + 1, |burst| % max == 0)
    ensures IsLive(Stored(h + burst, max, ttl), burst[|burst| - 1].at) <==> |burst| % max != 0
    ensures |burst| % max == 0 ==> Stored(h + burst, max, ttl).None?
    ensures |burst| % max != 0 ==>
              && Stored(h + burst, max, ttl).value.count == |burst| % max
              && Stored(h + burst, max, ttl).value.expiresAt >= burst[0].at + ttl
  {
    var n := |burst| - 1;
    var earlier, last := burst[..n], burst[n];
    assert (h + burst)[..|h + burst| - 1] == h + earlier && (h + burst)[|h + burst| - 1] == last;
    if n == 0 {
      assert h + earlier == h && 0 % max == 0;
    } else {
      Burst(h, earlier, max, ttl);
    }
    BurstStep(Stored(h + earlier, max, ttl), burst[0].at, last.at, n, max, ttl);
  }

  /** One more failure after n of them inside a burst that began at `start`. */
  lemma BurstStep(before: Option<Attempt>, start: int, now: int, n: nat, max: nat, ttl: nat)
    requires max >= 1 && start <= now < start + ttl
    requires n % max == 0 ==> !IsLive(before, now)
    requires n % max != 0 ==> before.Some? && before.value.count == n % max && before.value.expiresAt >= start + ttl
    ensures var (after, answer) := Increment(before, now, max, ttl);
            && answer == IncrementResult(n % max + 1, (n + 1) % max == 0)
            && (after.None? <==> (n + 1) % max == 0)
            && (after.Some? ==> after.value.count == (n + 1) % max && after.value.expiresAt >= start + ttl)
  {
    NextMod(n, max);
  }

  lemma NextMod(n: nat, max: nat)
    requires max >= 1
    ensures n % max < max
    ensures n % max == max - 1 ==> (n + 1) % max == 0
    ensures n % max < max - 1 ==> (n + 1) % max == n % max + 1
  {
    var q, r := n / max, n % max;
    assert n == q * max + r;
    if r == max - 1 {
      assert n + 1 == (q + 1) * max;
      MultipleMod(q + 1, max, 0);
    } else {
      assert n + 1 == q * max + (r + 1);
      MultipleMod(q, max, r + 1);
    }
  }

  lemma MultipleMod(q: nat, max: nat, r: nat)
    requires r < max
    ensures (q * max + r) % max == r
  {
    var n := q * max + r;
    var q', r' := n / max, n % max;
    assert q' * max + r' == q * max + r;
    assert (q' - q) * max == r - r';
    if q' > q {
      AtLeastOne(q' - q, max);
    } else if q' < q {
      AtLeastOne(q - q', max);
    }
  }

  lemma AtLeastOne(k: nat, max: nat)
    requires k >= 1
    ensures k * max >= max
  {
  }

  // ----- Checking a code -----

  datatype Otp = Otp(id: nat, phone: string, purpose: Purpose, codeHash: string, salt: string,
                     expiresAt: int, used: bool, createdAt: int)

  datatype Check = OtpNotFound | AlreadyUsed | Expired | TooManyAttempts | InvalidOtp | Verified(localOtpId: nat)

  function Mine(otps: seq<Otp>, phone: string, purpose: Purpose): seq<Otp> {
    if otps == [] then []
    else
      (if otps[0].phone == phone && otps[0].purpose == purpose then [otps[0]] else [])
      + Mine(otps[1..], phone, purpose)
  }

  lemma {:induction false} MineElements(otps: seq<Otp>, phone: string, purpose: Purpose)
    ensures forall o :: o in Mine(otps, phone, purpose) <==> o in otps && o.phone == phone && o.purpose == purpose
  {
    if otps != [] {
      MineElements(otps[1..], phone, purpose);
      assert otps == [otps[0]] + otps[1..];
    }
  }

  ghost predicate IsNewest(otps: seq<Otp>, phone: string, purpose: Purpose, o: Otp) {
    && o in otps && o.phone == phone && o.purpose == purpose
    && forall other :: other in otps && other.phone == phone && other.purpose == purpose ==>
      other.createdAt <= o.createdAt
  }

  lemma AddedIsNewest(otps: seq<Otp>, row: Otp)
    ensures var more := otps + [row];
            && ((forall o :: o in otps ==> o.createdAt <= row.createdAt) ==>
                IsNewest(more, row.phone, row.purpose, row))
            && ((forall o :: o in otps ==> o.createdAt < row.createdAt) ==>
                  forall o :: IsNewest(more, row.phone, row.purpose, o) <==> o == row)
            && (forall p, q, o :: p != row.phone || q != row.purpose ==>
                (IsNewest(more, p, q, o) <==> IsNewest(otps, p, q, o)))
  {
    var more := otps + [row];
    assert forall o :: o in more <==> o in otps || o == row;
    assert row in more;
  }

  /** What a newest row makes of a code that is checked against it; `locked` is the counter's answer to a wrong code. */
  function Verdict(row: Otp, code: string, hash: (string, string) -> string, now: int, locked: bool): Check {
    if row.used then AlreadyUsed
    else if row.expiresAt < now then Expired
    else if hash(code, row.salt) == row.codeHash then Verified(row.id)
    else if locked then TooManyAttempts
    else InvalidOtp
  }

  /** One check against the newest row: the counter afterwards, and the answer.  A wrong code is one failure, the right
      one clears the counter. */
  function CheckOne(row: Otp, before: Option<Attempt>, code: string, hash: (string, string) -> string, now: int)
    : (Option<Attempt>, Check)
  {
    var (after, answer) := Increment(before, now, OTP_MAX_ATTEMPTS, OTP_ATTEMPTS_TTL_SECONDS);
    var check := Verdict(row, code, hash, now, answer.locked);
    (if check.Verified? then None else if check.InvalidOtp? || check.TooManyAttempts? then after else before, check)
  }

  class ConsoleOtpSender {
    var otps: seq<Otp>
    const store: AuthStateStore

    constructor (store: AuthStateStore)
      ensures this.store == store && otps == []
    {
      this.store := store;
      otps := [];
    }

    /** The code sent last is the one that counts: if every stored code is older, the new row is the only newest one of
        its phone and purpose, unused and alive for `ttl`.  Codes of other phones and purposes are not affected. */
    method StartVerification(phone: string, purpose: Purpose, otp: string, salt: string,
                             hash: (string, string) -> string, now: int, ttl: nat, id: nat)
      modifies this`otps
      ensures otps == old(otps) + [Otp(id, phone, purpose, hash(otp, salt), salt, now + ttl, false, now)]
      ensures (forall o :: o in old(otps) ==> o.createdAt <= now) ==> IsNewest(otps, phone, purpose, otps[|otps| - 1])
      ensures (forall o :: o in old(otps) ==> o.createdAt < now) ==>
                forall o :: IsNewest(otps, phone, purpose, o) <==> o == otps[|otps| - 1]
      ensures forall p, q, o :: p != phone || q != purpose ==>
              (IsNewest(otps, p, q, o) <==> IsNewest(old(otps), p, q, o))
    {
      otps := otps + [Otp(id, phone, purpose, hash(otp, salt), salt, now + ttl, false, now)];
      AddedIsNewest(old(otps), otps[|otps| - 1]);
    }

    /** ORDER BY created_at DESC LIMIT 1. */
    method Newest(phone: string, purpose: Purpose) returns (newest: Option<Otp>)
      ensures newest.None? <==> forall o :: o in otps ==> o.phone != phone || o.purpose != purpose
      ensures newest.Some? ==> IsNewest(otps, phone, purpose, newest.value)
    {
      var rows := Mine(otps, phone, purpose);
      MineElements(otps, phone, purpose);
      newest := None;
      for i := 0 to |rows|
        invariant newest.None? <==> i == 0
        invariant newest.Some? ==>
          newest.value in rows && forall j :: 0 <= j < i ==> rows[j].createdAt <= newest.value.createdAt
      {
        if newest.None? || newest.value.createdAt < rows[i].createdAt {
          newest := Some(rows[i]);
        }
      }
      if rows != [] {
        assert rows[0] in rows;
      }
    }

    /** Only the newest code counts, only while unused and unexpired; a wrong code is one failed attempt,
        the right one clears the counter, and nothing else touches it. */
    method CheckVerification(phone: string, purpose: Purpose, code: string, hash: (string, string) -> string, now: int,
                             r: RedisBehaviour)
      returns (check: Check)
      modifies store
      ensures otps == old(otps)
      ensures check.OtpNotFound? <==> forall o :: o in otps ==> o.phone != phone || o.purpose != purpose
      ensures check.OtpNotFound? ==> store.Row(phone, purpose) == old(store.Row(phone, purpose))
      ensures !check.OtpNotFound? ==> exists o ::
                && IsNewest(otps, phone, purpose, o)
                && (store.Row(phone, purpose), check) == CheckOne(o, old(store.Row(phone, purpose)), code, hash, now)
      ensures store.attempts - {(phone, purpose)} == old(store.attempts) - {(phone, purpose)}
    {
      var newest := Newest(phone, purpose);
      if newest.None? { return OtpNotFound; }
      var row := newest.value;
      if row.used { return AlreadyUsed; }
      if row.expiresAt < now { return Expired; }
      if hash(code, row.salt) != row.codeHash {
        var result := store.IncrementOtpAttempts(phone, purpose, OTP_MAX_ATTEMPTS, OTP_ATTEMPTS_TTL_SECONDS, now, r);
        if result.locked { return TooManyAttempts; }
        return InvalidOtp;
      }
      store.ClearOtpAttempts(phone, purpose, r);
      return Verified(row.id);
    }
  }

  // ----- What a lock leaves of the code -----

  datatype Guess = Guess(code: string, at: int)

  /** The counter after guesses at one code. */
  function CounterAfter(row: Otp, before: Option<Attempt>, guesses: seq<Guess>, hash: (string, string) -> string)
    : Option<Attempt>
  {
    if guesses == [] then before
    else
      var n := |guesses| - 1;
      CheckOne(row, CounterAfter(row, before, guesses[..n], hash), guesses[n].code, hash, guesses[n].at).0
  }

  /** How many of the guesses were answered with a lock. */
  function Locks(row: Otp, before: Option<Attempt>, guesses: seq<Guess>, hash: (string, string) -> string): nat {
    if guesses == [] then 0
    else
      var n := |guesses| - 1;
      var counter := CounterAfter(row, before, guesses[..n], hash);
      Locks(row, before, guesses[..n], hash)
      + (if CheckOne(row, counter, guesses[n].code, hash, guesses[n].at).1.TooManyAttempts? then 1 else 0)
  }

  /** Wrong guesses at a code that has not expired, within one window from `start`. */
  ghost predicate WrongFrom(row: Otp, guesses: seq<Guess>, start: int, hash: (string, string) -> string) {
    forall i :: 0 <= i < |guesses| ==>
      && hash(guesses[i].code, row.salt) != row.codeHash && guesses[i].at <= row.expiresAt
      && start <= guesses[i].at < start + 600
  }

  lemma OneWrongGuess(row: Otp, before: Option<Attempt>, guess: Guess, hash: (string, string) -> string)
    requires !row.used && hash(guess.code, row.salt) != row.codeHash && guess.at <= row.expiresAt
    ensures var (after, answer) := Increment(before, guess.at, OTP_MAX_ATTEMPTS, OTP_ATTEMPTS_TTL_SECONDS);
            CheckOne(row, before, guess.code, hash, guess.at)
            == (after, if answer.locked then TooManyAttempts else InvalidOtp)
  {
  }

  lemma {:induction false} WrongGuesses(row: Otp, before: Option<Attempt>, guesses: seq<Guess>, start: int,
                                        hash: (string, string) -> string)
    requires !row.used && WrongFrom(row, guesses, start, hash) && !IsLive(before, start)
    ensures var counter := CounterAfter(row, before, guesses, hash);
            if |guesses| % OTP_MAX_ATTEMPTS == 0 then guesses == [] || counter == None
            else
              && counter.Some? && counter.value.count == |guesses| % OTP_MAX_ATTEMPTS
              && counter.value.expiresAt >= start + OTP_ATTEMPTS_TTL_SECONDS
    ensures Locks(row, before, guesses, hash) == |guesses| / OTP_MAX_ATTEMPTS
  {
    if guesses != [] {
      var n := |guesses| - 1;
      var counter := CounterAfter(row, before, guesses[..n], hash);
      WrongGuesses(row, before, guesses[..n], start, hash);
      OneWrongGuess(row, counter, guesses[n], hash);
      BurstStep(counter, start, guesses[n].at, n, OTP_MAX_ATTEMPTS, OTP_ATTEMPTS_TTL_SECONDS);
    }
  }

  /** Wrong guesses are not bounded by the attempt limit.  Of any number of them within one window every fifth is
      answered with a lock, and the code survives all of these: the right one is accepted exactly until it expires. */
  lemma LocksDoNotInvalidate(row: Otp, before: Option<Attempt>, guesses: seq<Guess>, start: int,
                             hash: (string, string) -> string, right: string, now: int)
    requires !row.used && hash(right, row.salt) == row.codeHash
    requires WrongFrom(row, guesses, start, hash) && !IsLive(before, start)
    ensures Locks(row, before, guesses, hash) == |guesses| / 5
    ensures CheckOne(row, CounterAfter(row, before, guesses, hash), right, hash, now).1 == Verified(row.id) <==>
            now <= row.expiresAt
  {
    WrongGuesses(row, before, guesses, start, hash);
  }

  /** After any guesses at all, right after a lock or not, whatever the counter says: the right code of an unused row is
      accepted exactly until the row expires. */
  lemma RightCodeAfterLock(row: Otp, before: Option<Attempt>, guesses: seq<Guess>, wrong: Guess,
                           hash: (string, string) -> string, right: string, now: int)
    requires hash(right, row.salt) == row.codeHash
    ensures var counter := CounterAfter(row, before, guesses, hash);
            var (after, answer) := CheckOne(row, counter, wrong.code, hash, wrong.at);
            answer == TooManyAttempts ==>
              (CheckOne(row, after, right, hash, now).1 == Verified(row.id) <==> now <= row.expiresAt)
  {
  }

  /** The answer to one check, case by case: only an unused row in time with the right code is verified, only a wrong
      code for such a row counts as a failure, and only a verified one clears the counter. */
  lemma CheckCases(row: Otp, before: Option<Attempt>, code: string, hash: (string, string) -> string, now: int)
    ensures var (after, check) := CheckOne(row, before, code, hash, now);
            var right := hash(code, row.salt) == row.codeHash;
            && (check == Verified(row.id) <==> !row.used && now <= row.expiresAt && right)
            && (check == AlreadyUsed <==> row.used)
            && (check == Expired <==> !row.used && row.expiresAt < now)
            && (check.InvalidOtp? || check.TooManyAttempts? <==> !row.used && now <= row.expiresAt && !right)
            && (check.Verified? ==> after == None)
            && (row.used || row.expiresAt < now ==> after == before)
  {
  }

  /** The code that was just sent is accepted until its time is over, and a used one never is. */
  lemma SentCodeIsAccepted(id: nat, phone: string, purpose: Purpose, otp: string, salt: string, sentAt: int, ttl: nat,
                           hash: (string, string) -> string, before: Option<Attempt>, now: int)
    ensures var row := Otp(id, phone, purpose, hash(otp, salt), salt, sentAt + ttl, false, sentAt);
            && (CheckOne(row, before, otp, hash, now) == (None, Verified(id)) <==> now <= sentAt + ttl)
            && CheckOne(row.(used := true), before, otp, hash, now) == (before, AlreadyUsed)
  {
  }

  /** After the counter was cleared the next failure is the first again, and any number of clears is one. */
  lemma ClearedStartsAgain(h: seq<Event>, at: int, now: int, max: nat, ttl: nat)
    requires max >= 2
    ensures Stored(h + [Event(Clear, at)], max, ttl) == None
    ensures Answer(h + [Event(Clear, at)], now, max, ttl) == IncrementResult(1, false)
    ensures Stored(h + [Event(Clear, at), Event(Failure, now)], max, ttl) == Some(Attempt(1, now + ttl))
  {
    assert (h + [Event(Clear, at)])[..|h|] == h;
    var more := h + [Event(Clear, at), Event(Failure, now)];
    assert more[..|more| - 1] == h + [Event(Clear, at)];
  }
}
