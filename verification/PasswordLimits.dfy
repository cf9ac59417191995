/** The limiter on failed share passwords (internal/transport/share_password_limiter.go). Keys
    are the digests of client and token; times are nanoseconds. */
module PasswordLimits {
  import opened Types

  /** A Go zero `lockedUntil` is `None`. Every recorded attempt has a last failure. */
  datatype Attempt = Attempt(failures: int, lastFailure: Time, lockedUntil: Option<Time>)

  type Attempts = map<string, Attempt>

  const DEFAULT_MAX_FAILURES := 5
  const DEFAULT_COOLDOWN: Time := 15 * 60 * SECOND
  const MAX_ENTRIES := 10_000

  // ---------- one key ----------

  /** An expired lock and an old failure are forgotten. */
  predicate Forgotten(a: Attempt, now: Time, cooldown: Time) {
    (a.lockedUntil.Some? && a.lockedUntil.value <= now) || now - a.lastFailure > cooldown * 3
  }

  function Tidied(e: Option<Attempt>, now: Time, cooldown: Time): Option<Attempt> {
    if e.Some? && Forgotten(e.value, now, cooldown) then None else e
  }

  predicate Admits(e: Option<Attempt>, now: Time) {
    e.None? || e.value.lockedUntil.None? || e.value.lockedUntil.value <= now
  }

  /** The entry after one more failure. */
  function Failed(e: Option<Attempt>, now: Time, maxFailures: int, cooldown: Time): Attempt {
    var failures := (if e.Some? then e.value.failures else 0) + 1;
    if failures >= maxFailures then Attempt(0, now, Some(now + cooldown))
    else Attempt(failures, now, if e.Some? then e.value.lockedUntil else None)
  }

  /** One request after the other for a key: another key's request tidies this one's entry, or
      a password is tried at `at` and, if that is allowed, its failure recorded at `done`. */
  datatype Event = Tidy(at: Time) | Try(at: Time, done: Time)

  function EndOf(ev: Event): Time { if ev.Try? then ev.done else ev.at }

  ghost predicate InOrder(events: seq<Event>) {
    && (forall ev | ev in events && ev.Try? :: ev.at <= ev.done)
    && (forall i, j | 0 <= i < j < |events| :: EndOf(events[i]) <= events[j].at)
  }

  datatype Outcome = Outcome(entry: Option<Attempt>, failures: seq<Time>)

  function After(o: Outcome, ev: Event, maxFailures: int, cooldown: Time): Outcome {
    var e := Tidied(o.entry, ev.at, cooldown);
    if ev.Tidy? || !Admits(e, ev.at) then Outcome(e, o.failures)
    else Outcome(Some(Failed(Tidied(e, ev.done, cooldown), ev.done, maxFailures, cooldown)), o.failures + [ev.done])
  }

  function Run(events: seq<Event>, maxFailures: int, cooldown: Time): Outcome {
    if events == [] then Outcome(None, [])
    else After(Run(events[..|events| - 1], maxFailures, cooldown), events[|events| - 1], maxFailures, cooldown)
  }

  /** What an entry says of the failures recorded up to `now`: without one, a whole cooldown
      has passed since the last; a lock stems from the last; a count is the number of failures
      since the last pause of a cooldown. */
  ghost predicate Explains(e: Option<Attempt>, fs: seq<Time>, now: Time, maxFailures: int, cooldown: Time) {
    var n := |fs|;
    && (forall i, j | 0 <= i < j < n :: fs[i] <= fs[j]) && (n > 0 ==> fs[n - 1] <= now)
    && match e
       case None => n > 0 ==> fs[n - 1] + cooldown <= now
       case Some(a) =>
         && n > 0 && a.lastFailure == fs[n - 1]
         && match a.lockedUntil
            case Some(u) => a.failures == 0 && u == fs[n - 1] + cooldown
            case None => 0 < a.failures < maxFailures && a.failures <= n
                         && (n > a.failures ==> fs[n - a.failures] - fs[n - a.failures - 1] >= cooldown)
  }

  /** Any `maxFailures + 1` failures in a row take at least a cooldown. */
  ghost predicate Spread(fs: seq<Time>, maxFailures: int, cooldown: Time) {
    forall i, j | 0 <= i < j < |fs| && j - i == maxFailures :: fs[j] - fs[i] >= cooldown
  }

  lemma TidyExplains(e: Option<Attempt>, fs: seq<Time>, now: Time, later: Time, maxFailures: int, cooldown: Time)
    requires cooldown > 0 && Explains(e, fs, now, maxFailures, cooldown) && now <= later
    ensures Explains(Tidied(e, later, cooldown), fs, later, maxFailures, cooldown)
  {
  }

  lemma FailExplains(e: Option<Attempt>, fs: seq<Time>, at: Time, maxFailures: int, cooldown: Time)
    requires maxFailures > 0 && cooldown > 0 && Spread(fs, maxFailures, cooldown)
    requires Explains(e, fs, at, maxFailures, cooldown) && (e.Some? ==> e.value.lockedUntil.None?)
    ensures Explains(Some(Failed(e, at, maxFailures, cooldown)), fs + [at], at, maxFailures, cooldown)
    ensures Spread(fs + [at], maxFailures, cooldown)
  {
  }

  lemma {:induction false} RunSpreads(events: seq<Event>, maxFailures: int, cooldown: Time, now: Time)
    requires maxFailures > 0 && cooldown > 0 && InOrder(events)
    requires events != [] ==> EndOf(events[|events| - 1]) <= now
    ensures var o := Run(events, maxFailures, cooldown);
            Spread(o.failures, maxFailures, cooldown)
            && Explains(Tidied(o.entry, now, cooldown), o.failures, now, maxFailures, cooldown)
    decreases |events|
  {
    if events != [] {
      var init, ev := events[..|events| - 1], events[|events| - 1];
      var o := Run(init, maxFailures, cooldown);
      RunSpreads(init, maxFailures, cooldown, ev.at);
      var e := Tidied(o.entry, ev.at, cooldown);
      assert ev in events;
      if ev.Try? && Admits(e, ev.at) {
        TidyExplains(e, o.failures, ev.at, ev.done, maxFailures, cooldown);
        var f := Failed(Tidied(e, ev.done, cooldown), ev.done, maxFailures, cooldown);
        FailExplains(Tidied(e, ev.done, cooldown), o.failures, ev.done, maxFailures, cooldown);
        TidyExplains(Some(f), o.failures + [ev.done], ev.done, now, maxFailures, cooldown);
      } else {
        TidyExplains(e, o.failures, ev.at, now, maxFailures, cooldown);
      }
    }
  }

  /** In every run of one request after the other, a window shorter than the cooldown holds at
      most `maxFailures` recorded failures. */
  lemma WindowBound(events: seq<Event>, maxFailures: int, cooldown: Time, i: nat, j: nat)
    requires maxFailures > 0 && cooldown > 0 && InOrder(events)
    requires i <= j < |Run(events, maxFailures, cooldown).failures|
    requires var fs := Run(events, maxFailures, cooldown).failures; fs[j] - fs[i] < cooldown
    ensures j - i + 1 <= maxFailures
  {
    var now := if events == [] then 0 else EndOf(events[|events| - 1]);
    RunSpreads(events, maxFailures, cooldown, now);
    var fs := Run(events, maxFailures, cooldown).failures;
    if j - i >= maxFailures { Apart(fs, i, j, maxFailures, cooldown); }
  }

  lemma Apart(fs: seq<Time>, i: nat, j: nat, maxFailures: int, cooldown: Time)
    requires maxFailures > 0 && Spread(fs, maxFailures, cooldown) && i + maxFailures <= j < |fs|
    requires forall a, b | 0 <= a < b < |fs| :: fs[a] <= fs[b]
    ensures fs[j] - fs[i] >= cooldown
  {
    var k := i + maxFailures;
    assert fs[k] - fs[i] >= cooldown;
    assert k == j || fs[k] <= fs[j];
  }

  // ---------- the other direction ----------

  /** The failures that count towards a lock, said of their times alone: a lock ends a series,
      and so does a pause of more than three cooldowns. */
  function Series(fs: seq<Time>, maxFailures: int, cooldown: Time): nat {
    if fs == [] then 0
    else
      var n := |fs| - 1;
      var before := Series(fs[..n], maxFailures, cooldown);
      if n > 0 && (before == maxFailures || fs[n] - fs[n - 1] > 3 * cooldown) then 1 else before + 1
  }

  lemma {:induction false} SeriesSize(fs: seq<Time>, maxFailures: int, cooldown: Time)
    requires maxFailures > 0 && fs != []
    ensures 0 < Series(fs, maxFailures, cooldown) <= maxFailures && Series(fs, maxFailures, cooldown) <= |fs|
    decreases |fs|
  {
    if |fs| > 1 { SeriesSize(fs[..|fs| - 1], maxFailures, cooldown); }
  }

  /** What a series is: the last failures recorded, no more than it takes, without a long pause;
      the one before them ended a series or lies more than three cooldowns before. */
  lemma {:induction false} SeriesMeans(fs: seq<Time>, maxFailures: int, cooldown: Time)
    requires maxFailures > 0 && fs != []
    ensures var k, n := Series(fs, maxFailures, cooldown), |fs|;
            && 0 < k <= maxFailures && k <= n
            && (forall i | n - k < i < n :: fs[i] - fs[i - 1] <= 3 * cooldown)
            && (k < n ==> fs[n - k] - fs[n - k - 1] > 3 * cooldown
                          || Series(fs[..n - k], maxFailures, cooldown) == maxFailures)
    decreases |fs|
  {
    SeriesSize(fs, maxFailures, cooldown);
    var n, k := |fs| - 1, Series(fs, maxFailures, cooldown);
    if k > 1 {
      var init := fs[..n];
      SeriesMeans(init, maxFailures, cooldown);
      assert Series(init, maxFailures, cooldown) == k - 1 && init[..n + 1 - k] == fs[..n + 1 - k];
      forall i | n + 1 - k < i < n + 1 ensures fs[i] - fs[i - 1] <= 3 * cooldown {
        if i < n { assert fs[i] == init[i] && fs[i - 1] == init[i - 1]; }
      }
    }
  }

  /** What the failures recorded say of an entry. */
  ghost predicate Tells(fs: seq<Time>, e: Option<Attempt>, now: Time, maxFailures: int, cooldown: Time) {
    var n, k := |fs|, Series(fs, maxFailures, cooldown);
    match e
    case None => n > 0 ==> (k == maxFailures && fs[n - 1] + cooldown <= now) || now - fs[n - 1] > 3 * cooldown
    case Some(a) =>
      && n > 0 && a.lastFailure == fs[n - 1]
      && if k == maxFailures then a.lockedUntil == Some(fs[n - 1] + cooldown)
         else a.lockedUntil.None? && a.failures == k
  }

  lemma TidyTells(fs: seq<Time>, e: Option<Attempt>, now: Time, later: Time, maxFailures: int, cooldown: Time)
    requires Tells(fs, e, now, maxFailures, cooldown) && now <= later
    ensures Tells(fs, Tidied(e, later, cooldown), later, maxFailures, cooldown)
  {
  }

  lemma FailTells(fs: seq<Time>, e: Option<Attempt>, at: Time, maxFailures: int, cooldown: Time)
    requires maxFailures > 0 && cooldown > 0 && Tells(fs, e, at, maxFailures, cooldown)
    requires e == Tidied(e, at, cooldown) && (e.Some? ==> e.value.lockedUntil.None?)
    ensures Tells(fs + [at], Some(Failed(e, at, maxFailures, cooldown)), at, maxFailures, cooldown)
  {
    assert (fs + [at])[..|fs|] == fs;
    if fs != [] { SeriesMeans(fs, maxFailures, cooldown); }
  }

  lemma {:induction false} RunTells(events: seq<Event>, maxFailures: int, cooldown: Time, now: Time)
    requires maxFailures > 0 && cooldown > 0 && InOrder(events)
    requires events != [] ==> EndOf(events[|events| - 1]) <= now
    ensures var o := Run(events, maxFailures, cooldown);
            Tells(o.failures, Tidied(o.entry, now, cooldown), now, maxFailures, cooldown)
    decreases |events|
  {
    if events != [] {
      var init, ev := events[..|events| - 1], events[|events| - 1];
      var o := Run(init, maxFailures, cooldown);
      RunTells(init, maxFailures, cooldown, ev.at);
      var e := Tidied(o.entry, ev.at, cooldown);
      assert ev in events;
      if ev.Try? && Admits(e, ev.at) {
        TidyTells(o.failures, e, ev.at, ev.done, maxFailures, cooldown);
        var tidied := Tidied(e, ev.done, cooldown);
        FailTells(o.failures, tidied, ev.done, maxFailures, cooldown);
        TidyTells(o.failures + [ev.done], Some(Failed(tidied, ev.done, maxFailures, cooldown)), ev.done, now,
                  maxFailures, cooldown);
      } else {
        TidyTells(o.failures, e, ev.at, now, maxFailures, cooldown);
      }
    }
  }

  /** After any run of one request after the other, a try is refused exactly when the last
      failure completed a series and lies less than a cooldown back. */
  lemma RefusedIff(events: seq<Event>, maxFailures: int, cooldown: Time, now: Time)
    requires maxFailures > 0 && cooldown > 0 && InOrder(events)
    requires events != [] ==> EndOf(events[|events| - 1]) <= now
    ensures var o := Run(events, maxFailures, cooldown); var fs, n := o.failures, |o.failures|;
            !Admits(Tidied(o.entry, now, cooldown), now)
            <==> n > 0 && Series(fs, maxFailures, cooldown) == maxFailures && now < fs[n - 1] + cooldown
  {
    RunTells(events, maxFailures, cooldown, now);
  }

  /** So no key is refused before it has failed so often, the last time less than a cooldown ago,
      and those failures followed each other within three cooldowns. */
  lemma RefusedOnlyAfter(events: seq<Event>, maxFailures: int, cooldown: Time, now: Time)
    requires maxFailures > 0 && cooldown > 0 && InOrder(events)
    requires events != [] ==> EndOf(events[|events| - 1]) <= now
    requires !Admits(Tidied(Run(events, maxFailures, cooldown).entry, now, cooldown), now)
    ensures var fs := Run(events, maxFailures, cooldown).failures;
            && |fs| >= maxFailures && now - fs[|fs| - 1] < cooldown
            && forall i | |fs| - maxFailures < i < |fs| :: fs[i] - fs[i - 1] <= 3 * cooldown
  {
    RefusedIff(events, maxFailures, cooldown, now);
    SeriesMeans(Run(events, maxFailures, cooldown).failures, maxFailures, cooldown);
  }

  // ---------- the map ----------

  function EntryOf(m: Attempts, key: string): Option<Attempt> {
    if key in m then Some(m[key]) else None
  }

  function Swept(m: Attempts, now: Time, cooldown: Time): Attempts {
    map key | key in m && !Forgotten(m[key], now, cooldown) :: m[key]
  }

  /** A sweep, and the oldest entry gone when it did not make room. */
  ghost predicate Cleaned(m: Attempts, now: Time, cooldown: Time, maxEntries: nat, m': Attempts, gone: Option<string>) {
    var kept := Swept(m, now, cooldown);
    if |kept| < maxEntries || kept == map[] then m' == kept && gone.None?
    else gone.Some? && gone.value in kept && m' == kept - {gone.value}
         && forall k | k in kept :: kept[gone.value].lastFailure <= kept[k].lastFailure
  }

  class PasswordLimiter {
    var attempts: Attempts
    const maxFailures: int
    const cooldown: Time
    const maxEntries: nat

    constructor (maxFailures: int, cooldown: Time)
      ensures Valid() && attempts == map[]
      ensures this.maxFailures == if maxFailures < 1 then DEFAULT_MAX_FAILURES else maxFailures
      ensures this.cooldown == if cooldown <= 0 then DEFAULT_COOLDOWN else cooldown
    {
      this.maxFailures := if maxFailures < 1 then DEFAULT_MAX_FAILURES else maxFailures;
      this.cooldown := if cooldown <= 0 then DEFAULT_COOLDOWN else cooldown;
      attempts, maxEntries := map[], MAX_ENTRIES;
    }

    /** The map never holds more than `maxEntries`. */
    ghost predicate Valid()
      reads this
    {
      maxFailures > 0 && cooldown > 0 && maxEntries > 0 && |attempts| <= maxEntries
    }

    /** `gone` is the key dropped for room, if any. */
    method CleanupLocked(now: Time) returns (ghost gone: Option<string>)
      requires Valid()
      modifies this`attempts
      ensures Valid() && |attempts| < maxEntries
      ensures Cleaned(old(attempts), now, cooldown, maxEntries, attempts, gone)
    {
      ghost var all := attempts;
      gone := None;
      var keys := attempts.Keys;
      while keys != {}
        invariant keys <= all.Keys && attempts.Keys <= all.Keys && forall k | k in attempts :: attempts[k] == all[k]
        invariant forall k | k in all && k in keys :: k in attempts
        invariant forall k | k in all && k !in keys :: k in attempts <==> !Forgotten(all[k], now, cooldown)
        decreases |keys|
      {
        var key :| key in keys;
        keys := keys - {key};
        if Forgotten(attempts[key], now, cooldown) { attempts := attempts - {key}; }
      }
      assert attempts == Swept(all, now, cooldown);
      SubMapSmaller(attempts, all);
      if |attempts| < maxEntries { return; }
      var oldest := Oldest(attempts);
      if oldest.Some? {
        RemoveOne(attempts, oldest.value);
        attempts := attempts - {oldest.value};
        gone := oldest;
      }
    }

    method Oldest(m: Attempts) returns (oldest: Option<string>)
      ensures oldest.None? <==> m == map[]
      ensures oldest.Some? ==> oldest.value in m && forall k | k in m :: m[oldest.value].lastFailure <= m[k].lastFailure
    {
      oldest := None;
      var keys := m.Keys;
      while keys != {}
        invariant keys <= m.Keys && (oldest.None? <==> keys == m.Keys)
        invariant oldest.Some? ==> oldest.value in m && oldest.value !in keys
        invariant oldest.Some? ==> forall k | k in m && k !in keys :: m[oldest.value].lastFailure <= m[k].lastFailure
        decreases |keys|
      {
        var key :| key in keys;
        keys := keys - {key};
        if oldest.None? || m[key].lastFailure < m[oldest.value].lastFailure { oldest := Some(key); }
      }
    }

    /** Unless its entry was dropped for room, a key is admitted exactly when its tidied entry
        is not locked. */
    method Allow(key: string, now: Time) returns (retryAfter: Time, ok: bool, ghost gone: Option<string>)
      requires Valid()
      modifies this`attempts
      ensures Valid() && Cleaned(old(attempts), now, cooldown, maxEntries, attempts, gone)
      ensures gone != Some(key) ==> ok == Admits(Tidied(EntryOf(old(attempts), key), now, cooldown), now)
      ensures gone != Some(key) ==> EntryOf(attempts, key) == Tidied(EntryOf(old(attempts), key), now, cooldown)
      ensures gone == Some(key) ==> ok
      ensures ok ==> retryAfter == 0
      ensures !ok ==> && retryAfter > 0 && key in old(attempts)
                      && old(attempts)[key].lockedUntil == Some(now + retryAfter)
    {
      gone := CleanupLocked(now);
      if key !in attempts { return 0, true, gone; }
      var attempt := attempts[key];
      if attempt.lockedUntil.Some? && attempt.lockedUntil.value > now {
        return attempt.lockedUntil.value - now, false, gone;
      }
      // The sweep has just dropped every expired lock: the source's deletion of one is dead code.
      if attempt.lockedUntil.Some? { assert false; }
      return 0, true, gone;
    }

    method RecordFailure(key: string, now: Time) returns (retryAfter: Time, locked: bool, ghost gone: Option<string>)
      requires Valid()
      modifies this`attempts
      ensures Valid() && key in attempts
      ensures var e := if gone == Some(key) then None else Tidied(EntryOf(old(attempts), key), now, cooldown);
              && attempts[key] == Failed(e, now, maxFailures, cooldown)
              && (locked <==> (if e.Some? then e.value.failures else 0) + 1 >= maxFailures)
      ensures retryAfter == if locked then cooldown else 0
      ensures var e := if gone == Some(key) then None else Tidied(EntryOf(old(attempts), key), now, cooldown);
              && attempts[key].lastFailure == now
              && (locked ==> attempts[key].lockedUntil == Some(now + cooldown) && attempts[key].failures == 0)
              && (!locked && (e.None? || e.value.lockedUntil.None?) ==>
                    && attempts[key].failures == (if e.Some? then e.value.failures else 0) + 1
                    && attempts[key].lockedUntil.None? && forall later :: Admits(Some(attempts[key]), later))
      ensures exists m ::
                Cleaned(old(attempts), now, cooldown, maxEntries, m, gone) && attempts == m[key := attempts[key]]
    {
      gone := CleanupLocked(now);
      ghost var m := attempts;
      var attempt := if key in attempts then attempts[key] else Attempt(0, now, None);
      attempt := attempt.(failures := attempt.failures + 1, lastFailure := now);
      retryAfter, locked := 0, attempt.failures >= maxFailures;
      if locked {
        attempt := attempt.(lockedUntil := Some(now + cooldown), failures := 0);
        retryAfter := cooldown;
      }
      AddOne(attempts, key, attempt);
      attempts := attempts[key := attempt];
      assert attempts == m[key := attempts[key]];
    }

    method Reset(key: string)
      requires Valid()
      modifies this`attempts
      ensures Valid() && attempts == old(attempts) - {key}
    {
      SubMapSmaller(attempts - {key}, attempts);
      attempts := attempts - {key};
    }
  }

  lemma SubMapSmaller(small: Attempts, big: Attempts)
    requires small.Keys <= big.Keys
    ensures |small| <= |big|
  {
    assert big.Keys == small.Keys + (big.Keys - small.Keys);
    assert |small| == |small.Keys| && |big| == |big.Keys|;
  }

  lemma RemoveOne(m: Attempts, key: string)
    requires key in m
    ensures |m - {key}| == |m| - 1
  {
  }

  lemma AddOne(m: Attempts, key: string, a: Attempt)
    ensures |m[key := a]| <= |m| + 1
  {
  }
}
