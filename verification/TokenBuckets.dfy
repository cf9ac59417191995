/** The request limiter: one token bucket per key, and the cleanup that forgets idle keys
    (internal/transport/middleware.go:285-381). Times are seconds, counts of tokens reals. */
module TokenBuckets {
  datatype Limits = Limits(rate: real, burst: real)

  datatype Bucket = Bucket(tokens: real, last: real)

  ghost predicate Sane(l: Limits) { l.rate >= 0.0 && l.burst >= 0.0 }

  function Fresh(now: real, l: Limits): Bucket { Bucket(l.burst, now) }

  /** What flows in between two moments. */
  function Inflow(from: real, to: real, l: Limits): real { (to - from) * l.rate }

  /** The tokens there are at `now`. */
  function Refill(b: Bucket, now: real, l: Limits): real {
    var t := b.tokens + Inflow(b.last, now, l);
    if t > l.burst then l.burst else t
  }

  predicate Grants(b: Bucket, now: real, l: Limits) { Refill(b, now, l) >= 1.0 }

  function After(b: Bucket, now: real, l: Limits): Bucket {
    Bucket(if Grants(b, now, l) then Refill(b, now, l) - 1.0 else Refill(b, now, l), now)
  }

  // ---------- one bucket over a run of calls ----------

  /** The call times do not go back. */
  ghost predicate Rising(from: real, times: seq<real>) {
    (times != [] ==> from <= times[0]) && forall i, j | 0 <= i < j < |times| :: times[i] <= times[j]
  }

  function Decisions(b: Bucket, times: seq<real>, l: Limits): (ds: seq<bool>)
    ensures |ds| == |times|
    decreases |times|
  {
    if times == [] then [] else [Grants(b, times[0], l)] + Decisions(After(b, times[0], l), times[1..], l)
  }

  function At(b: Bucket, times: seq<real>, l: Limits): Bucket
    decreases |times|
  {
    if times == [] then b else At(After(b, times[0], l), times[1..], l)
  }

  function Admitted(ds: seq<bool>): nat {
    if ds == [] then 0 else (if ds[0] then 1 else 0) + Admitted(ds[1..])
  }

  /** Between empty and full. */
  ghost predicate Filled(b: Bucket, l: Limits) { 0.0 <= b.tokens <= l.burst }

  lemma InflowSums(from: real, mid: real, to: real, l: Limits)
    ensures Inflow(from, mid, l) + Inflow(mid, to, l) == Inflow(from, to, l)
  {
  }

  lemma Product(x: real, y: real)
    requires x >= 0.0 && y >= 0.0
    ensures x * y >= 0.0
  {
  }

  /** Time only adds tokens. */
  lemma RefillGrows(b: Bucket, now: real, l: Limits)
    requires Sane(l) && Filled(b, l) && b.last <= now
    ensures b.tokens <= Refill(b, now, l) <= l.burst
  {
    Product(now - b.last, l.rate);
  }

  lemma AfterFilled(b: Bucket, now: real, l: Limits)
    requires Sane(l) && Filled(b, l) && b.last <= now
    ensures Filled(After(b, now, l), l)
  {
    RefillGrows(b, now, l);
  }

  /** What was granted and what is left came from what there was and what flowed in. */
  lemma {:induction false} Budget(b: Bucket, times: seq<real>, l: Limits)
    requires Sane(l) && Filled(b, l) && times != [] && Rising(b.last, times)
    ensures Filled(At(b, times, l), l)
    ensures Admitted(Decisions(b, times, l)) as real + At(b, times, l).tokens
         <= Refill(b, times[0], l) + Inflow(times[0], times[|times| - 1], l)
    decreases |times|
  {
    var first, rest, b1 := times[0], times[1..], After(b, times[0], l);
    AfterFilled(b, first, l);
    AdmittedFirst(b, times, l);
    if rest == [] {
      assert times[|times| - 1] == first;
      NoTime(b1, l);
    } else {
      var next, last := rest[0], rest[|rest| - 1];
      assert times[|times| - 1] == last && Rising(b1.last, rest);
      Budget(b1, rest, l);
      InflowSums(first, next, last, l);
    }
  }

  lemma AdmittedFirst(b: Bucket, times: seq<real>, l: Limits)
    requires times != []
    ensures Admitted(Decisions(b, times, l))
         == (if Grants(b, times[0], l) then 1 else 0) + Admitted(Decisions(After(b, times[0], l), times[1..], l))
    ensures At(b, times, l) == At(After(b, times[0], l), times[1..], l)
  {
  }

  /** At the moment of the last call nothing has flowed in. */
  lemma NoTime(b: Bucket, l: Limits)
    requires b.tokens <= l.burst
    ensures Refill(b, b.last, l) == b.tokens && Inflow(b.last, b.last, l) == 0.0
  {
  }

  lemma {:induction false} DecisionsFrom(b: Bucket, times: seq<real>, i: nat, l: Limits)
    requires i <= |times|
    ensures Decisions(b, times, l)[i..] == Decisions(At(b, times[..i], l), times[i..], l)
    decreases i
  {
    if i > 0 {
      DecisionsFrom(After(b, times[0], l), times[1..], i - 1, l);
      assert times[..i][1..] == times[1..][..i - 1] && times[1..][i - 1..] == times[i..];
    } else {
      assert times[..0] == [] && times[0..] == times;
    }
  }

  lemma {:induction false} DecisionsUpTo(b: Bucket, times: seq<real>, n: nat, l: Limits)
    requires n <= |times|
    ensures Decisions(b, times, l)[..n] == Decisions(b, times[..n], l)
    decreases n
  {
    if n > 0 {
      DecisionsUpTo(After(b, times[0], l), times[1..], n - 1, l);
      assert times[..n][1..] == times[1..][..n - 1];
    }
  }

  lemma {:induction false} AtFilled(b: Bucket, times: seq<real>, l: Limits)
    requires Sane(l) && Filled(b, l) && Rising(b.last, times)
    ensures Filled(At(b, times, l), l)
    ensures At(b, times, l).last == if times == [] then b.last else times[|times| - 1]
    decreases |times|
  {
    if times != [] {
      AfterFilled(b, times[0], l);
      AtFilled(After(b, times[0], l), times[1..], l);
    }
  }

  lemma WindowInflow(b: Bucket, times: seq<real>, i: nat, j: nat, l: Limits)
    requires Sane(l) && Filled(b, l) && Rising(b.last, times) && i <= j < |times|
    ensures Admitted(Decisions(b, times, l)[i..j + 1]) as real <= l.burst + Inflow(times[i], times[j], l)
  {
    var from, window := At(b, times[..i], l), times[i..j + 1];
    WindowDecisions(b, times, i, j, l);
    AtFilled(b, times[..i], l);
    assert window[0] == times[i] && window[|window| - 1] == times[j];
    Budget(from, window, l);
    RefillGrows(from, times[i], l);
  }

  /** The stretch from call `i` to call `j` holds at most the burst and the rate times its length. */
  ghost predicate Bounded(ds: seq<bool>, times: seq<real>, i: nat, j: nat, l: Limits)
    requires i <= j < |times| && |ds| == |times|
  {
    Admitted(ds[i..j + 1]) as real <= l.burst + (times[j] - times[i]) * l.rate
  }

  lemma BoundedInflow(ds: seq<bool>, times: seq<real>, i: nat, j: nat, l: Limits)
    requires i <= j < |times| && |ds| == |times|
    requires Admitted(ds[i..j + 1]) as real <= l.burst + Inflow(times[i], times[j], l)
    ensures Bounded(ds, times, i, j, l)
  {
  }

  /** In any stretch of calls of any run at most that much is admitted. */
  lemma WindowBound(b: Bucket, times: seq<real>, i: nat, j: nat, l: Limits)
    requires Sane(l) && Filled(b, l) && Rising(b.last, times) && i <= j < |times|
    ensures Bounded(Decisions(b, times, l), times, i, j, l)
  {
    WindowInflow(b, times, i, j, l);
    BoundedInflow(Decisions(b, times, l), times, i, j, l);
  }

  /** The decisions of a stretch are those of the bucket it starts with. */
  lemma WindowDecisions(b: Bucket, times: seq<real>, i: nat, j: nat, l: Limits)
    requires i <= j < |times|
    ensures Decisions(b, times, l)[i..j + 1] == Decisions(At(b, times[..i], l), times[i..j + 1], l)
  {
    var upTo := times[..j + 1];
    DecisionsUpTo(b, times, j + 1, l);
    DecisionsFrom(b, upTo, i, l);
    assert upTo[..i] == times[..i] && upTo[i..] == times[i..j + 1];
    assert Decisions(b, times, l)[i..j + 1] == Decisions(b, times, l)[..j + 1][i..];
  }

  // ---------- nothing is refused without need ----------

  /** What the stretch from call `i` to call `k` leaves room for at `k`. */
  ghost function Room(ds: seq<bool>, times: seq<real>, i: nat, k: nat, l: Limits): real
    requires i <= k < |times| && |ds| == |times|
  {
    l.burst + (times[k] - times[i]) * l.rate - Admitted(ds[i..k]) as real
  }

  lemma {:induction false} AdmittedSnoc(ds: seq<bool>, d: bool)
    ensures Admitted(ds + [d]) == Admitted(ds) + if d then 1 else 0
    decreases |ds|
  {
    if ds == [] {
      assert ds + [d] == [d] && [d][1..] == [];
    } else {
      assert (ds + [d])[1..] == ds[1..] + [d];
      AdmittedSnoc(ds[1..], d);
    }
  }

  lemma RoomStep(ds: seq<bool>, times: seq<real>, i: nat, k: nat, l: Limits)
    requires i <= k && k + 1 < |times| && |ds| == |times|
    ensures Room(ds, times, i, k + 1, l)
         == Room(ds, times, i, k, l) - (if ds[k] then 1.0 else 0.0) + Inflow(times[k], times[k + 1], l)
  {
    assert ds[i..k + 1] == ds[i..k] + [ds[k]];
    AdmittedSnoc(ds[i..k], ds[k]);
    InflowSums(times[i], times[k], times[k + 1], l);
  }

  /** The tokens at a call are the least room any stretch that ends there leaves. */
  lemma {:induction false} TokensAreRoom(b: Bucket, times: seq<real>, k: nat, l: Limits) returns (least: nat)
    requires Sane(l) && b.tokens == l.burst && Rising(b.last, times) && k < |times|
    ensures least <= k && TokensAt(b, times, k, l) == Room(Decisions(b, times, l), times, least, k, l)
    ensures forall i | 0 <= i <= k :: TokensAt(b, times, k, l) <= Room(Decisions(b, times, l), times, i, k, l)
    decreases k
  {
    var ds := Decisions(b, times, l);
    if k == 0 {
      RefillGrows(b, times[0], l);
      least := 0;
      assert times[..0] == [] && ds[0..0] == [];
    } else {
      least := TokensAreRoom(b, times, k - 1, l);
      NextTokens(b, times, k - 1, l);
      RoomStep(ds, times, least, k - 1, l);
      forall i | 0 <= i < k
        ensures TokensAt(b, times, k, l) <= Room(ds, times, i, k, l)
      {
        RoomStep(ds, times, i, k - 1, l);
      }
      assert ds[k..k] == [];
      if TokensAt(b, times, k, l) == l.burst { least := k; }
    }
  }

  ghost function TokensAt(b: Bucket, times: seq<real>, k: nat, l: Limits): real
    requires k < |times|
  {
    Refill(At(b, times[..k], l), times[k], l)
  }

  /** From one call to the next: what was granted goes, what flows in comes, up to the burst. */
  lemma NextTokens(b: Bucket, times: seq<real>, k: nat, l: Limits)
    requires k + 1 < |times|
    ensures Decisions(b, times, l)[k] <==> TokensAt(b, times, k, l) >= 1.0
    ensures var t := TokensAt(b, times, k, l) - (if Decisions(b, times, l)[k] then 1.0 else 0.0)
                     + Inflow(times[k], times[k + 1], l);
            TokensAt(b, times, k + 1, l) == if t > l.burst then l.burst else t
  {
    DecidedAt(b, times, k, l);
    AtSnoc(b, times[..k + 1], l);
    assert times[..k + 1][..k] == times[..k];
  }

  lemma DecidedAt(b: Bucket, times: seq<real>, k: nat, l: Limits)
    requires k < |times|
    ensures Decisions(b, times, l)[k] <==> TokensAt(b, times, k, l) >= 1.0
  {
    DecisionsFrom(b, times, k, l);
    assert Decisions(b, times, l)[k] == Decisions(b, times, l)[k..][0];
  }

  /** One more call at `k` keeps the stretch from `i` within the burst and the rate times its
      length. */
  ghost predicate OneMore(ds: seq<bool>, times: seq<real>, i: nat, k: nat, l: Limits)
    requires i <= k < |times| && |ds| == |times|
  {
    Admitted(ds[i..k]) as real + 1.0 <= l.burst + (times[k] - times[i]) * l.rate
  }

  lemma OneMoreIsRoom(ds: seq<bool>, times: seq<real>, i: nat, k: nat, l: Limits)
    requires i <= k < |times| && |ds| == |times|
    ensures OneMore(ds, times, i, k, l) <==> Room(ds, times, i, k, l) >= 1.0
  {
  }

  /** Starting full, a call is granted exactly when no stretch of calls that ends with it would
      then hold too many: nothing is refused without need. */
  lemma GrantedIff(b: Bucket, times: seq<real>, k: nat, l: Limits)
    requires Sane(l) && b.tokens == l.burst && Rising(b.last, times) && k < |times|
    ensures Decisions(b, times, l)[k] <==> forall i | 0 <= i <= k :: OneMore(Decisions(b, times, l), times, i, k, l)
  {
    var ds := Decisions(b, times, l);
    var least := TokensAreRoom(b, times, k, l);
    DecidedAt(b, times, k, l);
    OneMoreIsRoom(ds, times, least, k, l);
    if ds[k] {
      forall i | 0 <= i <= k ensures OneMore(ds, times, i, k, l) { OneMoreIsRoom(ds, times, i, k, l); }
    }
  }

  // ---------- forgetting idle keys ----------

  type Group = map<string, Bucket>

  /** A request for a key, or one round of the cleanup. */
  datatype Event = Call(key: string, now: real) | Cleanup(now: real)

  function TimeOf(e: Event): real { e.now }

  function BucketOf(g: Group, key: string, now: real, l: Limits): Bucket {
    if key in g then g[key] else Fresh(now, l)
  }

  function Called(g: Group, key: string, now: real, l: Limits): Group {
    g[key := After(BucketOf(g, key, now, l), now, l)]
  }

  /** What a cleanup leaves: the keys used within `maxAge`. */
  function Swept(g: Group, now: real, maxAge: real): Group {
    map key | key in g && now - g[key].last <= maxAge :: g[key]
  }

  /** The state after a run, with or without the cleanup taking effect. */
  function RunGroup(g: Group, events: seq<Event>, l: Limits, maxAge: real, sweep: bool): Group {
    if events == [] then g
    else
      var before, e := RunGroup(g, events[..|events| - 1], l, maxAge, sweep), events[|events| - 1];
      match e
      case Call(key, now) => Called(before, key, now, l)
      case Cleanup(now) => if sweep then Swept(before, now, maxAge) else before
  }

  ghost predicate InOrder(from: real, events: seq<Event>) {
    && (events != [] ==> from <= TimeOf(events[0]))
    && forall i, j | 0 <= i < j < |events| :: TimeOf(events[i]) <= TimeOf(events[j])
  }

  function Latest(from: real, events: seq<Event>): real {
    if events == [] then from else TimeOf(events[|events| - 1])
  }

  /** The swept group knows a part of the other, and what it has forgotten is full again. */
  ghost predicate Agree(swept: Group, whole: Group, now: real, l: Limits) {
    && (forall key | key in swept :: key in whole && swept[key] == whole[key])
    && (forall key | key in whole :: Filled(whole[key], l) && whole[key].last <= now)
    && (forall key | key in whole && key !in swept :: Refill(whole[key], now, l) == l.burst)
  }

  lemma StaysFull(b: Bucket, now: real, later: real, l: Limits)
    requires Sane(l) && Refill(b, now, l) == l.burst && now <= later
    ensures Refill(b, later, l) == l.burst
  {
  }

  lemma IdleIsFull(b: Bucket, now: real, l: Limits, maxAge: real)
    requires Sane(l) && Filled(b, l) && now - b.last > maxAge && l.rate * maxAge >= l.burst
    ensures Refill(b, now, l) == l.burst
  {
  }

  lemma AgreeLater(swept: Group, whole: Group, now: real, later: real, l: Limits)
    requires Sane(l) && Agree(swept, whole, now, l) && now <= later
    ensures Agree(swept, whole, later, l)
  {
    forall key | key in whole && key !in swept ensures Refill(whole[key], later, l) == l.burst {
      StaysFull(whole[key], now, later, l);
    }
  }

  lemma AgreeCall(swept: Group, whole: Group, key: string, now: real, l: Limits)
    requires Sane(l) && Agree(swept, whole, now, l)
    ensures Grants(BucketOf(swept, key, now, l), now, l) == Grants(BucketOf(whole, key, now, l), now, l)
    ensures Agree(Called(swept, key, now, l), Called(whole, key, now, l), now, l)
  {
    NoTime(Fresh(now, l), l);
    AfterFilled(BucketOf(whole, key, now, l), now, l);
  }

  lemma AgreeSweep(swept: Group, whole: Group, now: real, l: Limits, maxAge: real)
    requires Sane(l) && Agree(swept, whole, now, l) && l.rate * maxAge >= l.burst
    ensures Agree(Swept(swept, now, maxAge), whole, now, l)
  {
    forall key | key in whole && key !in Swept(swept, now, maxAge) ensures Refill(whole[key], now, l) == l.burst {
      if key in swept { IdleIsFull(whole[key], now, l, maxAge); }
    }
  }

  /** After a run, a call is decided the same with and without the cleanups. */
  ghost predicate SameDecision(events: seq<Event>, key: string, now: real, l: Limits, maxAge: real) {
       Grants(BucketOf(RunGroup(map[], events, l, maxAge, true), key, now, l), now, l)
    == Grants(BucketOf(RunGroup(map[], events, l, maxAge, false), key, now, l), now, l)
  }

  /** When a bucket refills within `maxAge`, cleanups at any moments change no decision. */
  lemma {:induction false} SweepsUnseen(events: seq<Event>, from: real, l: Limits, maxAge: real)
    requires Sane(l) && l.rate * maxAge >= l.burst && InOrder(from, events)
    ensures Agree(RunGroup(map[], events, l, maxAge, true), RunGroup(map[], events, l, maxAge, false),
                  Latest(from, events), l)
    ensures forall key, now | Latest(from, events) <= now :: SameDecision(events, key, now, l, maxAge)
    decreases |events|
  {
    var swept, whole := RunGroup(map[], events, l, maxAge, true), RunGroup(map[], events, l, maxAge, false);
    if events != [] {
      var init, e := events[..|events| - 1], events[|events| - 1];
      SweepsUnseen(init, from, l, maxAge);
      var swept0, whole0 := RunGroup(map[], init, l, maxAge, true), RunGroup(map[], init, l, maxAge, false);
      AgreeLater(swept0, whole0, Latest(from, init), TimeOf(e), l);
      match e
      case Call(key, now) => AgreeCall(swept0, whole0, key, now, l);
      case Cleanup(now) => AgreeSweep(swept0, whole0, now, l, maxAge);
    }
    forall key, now | Latest(from, events) <= now ensures SameDecision(events, key, now, l, maxAge) {
      AgreeLater(swept, whole, Latest(from, events), now, l);
      AgreeCall(swept, whole, key, now, l);
    }
  }

  /** Of two buckets with different contents, some run of calls tells which is which. */
  lemma {:induction false} Telling(less: Bucket, more: Bucket, l: Limits) returns (times: seq<real>)
    requires l.rate > 0.0 && l.burst >= 1.0 && less.last == more.last
    requires 0.0 <= less.tokens < more.tokens <= l.burst
    ensures Rising(less.last, times) && Decisions(less, times, l) != Decisions(more, times, l)
    decreases less.tokens.Floor
  {
    var now := less.last;
    NoTime(less, l);
    NoTime(more, l);
    if less.tokens >= 1.0 {
      var rest := Telling(After(less, now, l), After(more, now, l), l);
      times := [now] + rest;
      assert times[1..] == rest;
      assert Decisions(less, times, l)[1..] == Decisions(After(less, now, l), rest, l);
      assert Decisions(more, times, l)[1..] == Decisions(After(more, now, l), rest, l);
    } else {
      var wait := if more.tokens >= 1.0 then 0.0 else (1.0 - more.tokens) / l.rate;
      times := [now + wait];
      assert Inflow(now, now + wait, l) == if more.tokens >= 1.0 then 0.0 else 1.0 - more.tokens;
      assert Decisions(less, times, l)[0] == Grants(less, now + wait, l);
      assert Decisions(more, times, l)[0] == Grants(more, now + wait, l);
    }
  }

  /** A bucket may be brought up to date without changing what it decides. */
  lemma SameFromNow(b: Bucket, current: Bucket, times: seq<real>, l: Limits)
    requires current.tokens == b.tokens + Inflow(b.last, current.last, l)
    ensures Decisions(b, times, l) == Decisions(current, times, l)
  {
  }

  /** Calls can empty any bucket. */
  lemma {:induction false} Emptied(b: Bucket, l: Limits) returns (times: seq<real>)
    requires l.rate > 0.0 && l.burst >= 1.0 && Filled(b, l)
    ensures Rising(b.last, times) && At(b, times, l).tokens == 0.0
    ensures b.tokens >= 1.0 ==> times != [] && times[0] == b.last
    decreases b.tokens.Floor
  {
    if b.tokens == 0.0 {
      times := [];
    } else if b.tokens >= 1.0 {
      var rest := Emptied(After(b, b.last, l), l);
      times := [b.last] + rest;
      assert times[1..] == rest;
    } else {
      var wait := (1.0 - b.tokens) / l.rate;
      assert Inflow(b.last, b.last + wait, l) == 1.0 - b.tokens;
      times := [b.last + wait];
      assert times[1..] == [];
    }
  }

  // ---------- when a cleanup shows ----------

  function Calls(key: string, times: seq<real>): (es: seq<Event>)
    ensures |es| == |times| && forall i | 0 <= i < |es| :: es[i] == Call(key, times[i])
  {
    seq(|times|, i requires 0 <= i < |times| => Call(key, times[i]))
  }

  lemma {:induction false} AtSnoc(b: Bucket, times: seq<real>, l: Limits)
    requires times != []
    ensures At(b, times, l) == After(At(b, times[..|times| - 1], l), times[|times| - 1], l)
    decreases |times|
  {
    if |times| > 1 {
      AtSnoc(After(b, times[0], l), times[1..], l);
      assert times[1..][..|times| - 2] == times[..|times| - 1][1..];
    }
  }

  lemma RunSnoc(events: seq<Event>, key: string, now: real, l: Limits, maxAge: real, sweep: bool)
    ensures RunGroup(map[], events + [Call(key, now)], l, maxAge, sweep)
         == Called(RunGroup(map[], events, l, maxAge, sweep), key, now, l)
  {
    var longer := events + [Call(key, now)];
    assert longer[..|longer| - 1] == events;
  }

  lemma CallsSnoc(events: seq<Event>, key: string, times: seq<real>)
    requires times != []
    ensures var n := |times| - 1;
            events + Calls(key, times) == events + Calls(key, times[..n]) + [Call(key, times[n])]
  {
  }

  lemma CalledAgain(g: Group, key: string, b: Bucket, now: real, l: Limits)
    ensures Called(g[key := b], key, now, l) == g[key := After(b, now, l)]
  {
  }

  lemma NoCalls(events: seq<Event>, key: string, times: seq<real>)
    ensures events + Calls(key, times[..0]) == events && times[..0] == []
  {
  }

  /** A run that goes on with calls for one key works on that key's bucket alone. */
  lemma {:induction false} RunCalls(events: seq<Event>, key: string, times: seq<real>, l: Limits, maxAge: real,
                                    sweep: bool)
    requires times != []
    ensures var g := RunGroup(map[], events, l, maxAge, sweep);
            RunGroup(map[], events + Calls(key, times), l, maxAge, sweep)
            == g[key := At(BucketOf(g, key, times[0], l), times, l)]
    decreases |times|
  {
    var g := RunGroup(map[], events, l, maxAge, sweep);
    var b, n := BucketOf(g, key, times[0], l), |times| - 1;
    CallsSnoc(events, key, times);
    RunSnoc(events + Calls(key, times[..n]), key, times[n], l, maxAge, sweep);
    AtSnoc(b, times, l);
    if n == 0 {
      NoCalls(events, key, times);
    } else {
      RunCalls(events, key, times[..n], l, maxAge, sweep);
      assert times[..n][0] == times[0];
      CalledAgain(g, key, At(b, times[..n], l), times[n], l);
    }
  }

  /** So the calls that follow a run are decided by that bucket. */
  lemma NextDecision(events: seq<Event>, key: string, times: seq<real>, i: nat, l: Limits, maxAge: real, sweep: bool)
    requires i < |times|
    ensures var b := BucketOf(RunGroup(map[], events, l, maxAge, sweep), key, times[0], l);
            var g := RunGroup(map[], events + Calls(key, times[..i]), l, maxAge, sweep);
            Grants(BucketOf(g, key, times[i], l), times[i], l) == Decisions(b, times, l)[i]
  {
    var b := BucketOf(RunGroup(map[], events, l, maxAge, sweep), key, times[0], l);
    DecisionsFrom(b, times, i, l);
    assert Decisions(b, times, l)[i] == Decisions(b, times, l)[i..][0];
    if i == 0 {
      assert events + Calls(key, times[..0]) == events;
    } else {
      RunCalls(events, key, times[..i], l, maxAge, sweep);
      assert times[..i][0] == times[0];
    }
  }

  /** A full bucket is the same whenever it was filled. */
  lemma FreshWhenever(from: real, times: seq<real>, l: Limits)
    requires Sane(l) && times != [] && from <= times[0]
    ensures Decisions(Fresh(from, l), times, l) == Decisions(Fresh(times[0], l), times, l)
  {
    RefillGrows(Fresh(from, l), times[0], l);
    NoTime(Fresh(times[0], l), l);
  }

  /** After this run a call is decided differently from what it would have been without the
      cleanups. */
  ghost predicate CleanupShows(events: seq<Event>, key: string, at: real, l: Limits, maxAge: real) {
    InOrder(0.0, events) && Latest(0.0, events) <= at && !SameDecision(events, key, at, l, maxAge)
  }

  /** Cleanups can be noticed exactly when calls are granted at all and a bucket does not refill
      within `maxAge`. */
  lemma SweepSeenIff(l: Limits, maxAge: real)
    requires Sane(l) && maxAge >= 0.0
    ensures (exists events, key, at :: CleanupShows(events, key, at, l, maxAge))
            <==> l.burst >= 1.0 && l.rate * maxAge < l.burst
  {
    if l.burst >= 1.0 && l.rate * maxAge < l.burst {
      var events, at := SweepSeen(l, maxAge, "");
      assert CleanupShows(events, "", at, l, maxAge);
    }
    forall events, key, at | l.burst < 1.0 || l.rate * maxAge >= l.burst
      ensures !CleanupShows(events, key, at, l, maxAge)
    {
      if l.rate * maxAge >= l.burst && InOrder(0.0, events) { SweepsUnseen(events, 0.0, l, maxAge); }
    }
  }

  /** A bucket that does not refill within `maxAge` can be swept before it has; some later call
      is then decided differently from what it would have been without the sweep. */
  lemma SweepSeen(l: Limits, maxAge: real, key: string) returns (events: seq<Event>, at: real)
    requires Sane(l) && l.burst >= 1.0 && maxAge >= 0.0 && l.rate * maxAge < l.burst
    ensures CleanupShows(events, key, at, l, maxAge)
  {
    if l.rate > 0.0 {
      events, at := SweptTooEarly(l, maxAge, key);
    } else {
      events, at := NeverRefilled(l, maxAge, key);
    }
  }

  /** Calls at one moment bring a bucket below one token. */
  lemma {:induction false} Drained(b: Bucket, l: Limits) returns (times: seq<real>)
    requires Sane(l) && Filled(b, l)
    ensures (forall i | 0 <= i < |times| :: times[i] == b.last)
    ensures At(b, times, l).tokens < 1.0 && At(b, times, l).last == b.last
    ensures b.tokens >= 1.0 ==> times != []
    decreases b.tokens.Floor
  {
    NoTime(b, l);
    if b.tokens < 1.0 {
      times := [];
    } else {
      var rest := Drained(After(b, b.last, l), l);
      times := [b.last] + rest;
      assert times[1..] == rest;
    }
  }

  /** Without a refill a drained bucket grants nothing ever after, a new one does. */
  lemma NeverRefilled(l: Limits, maxAge: real, key: string) returns (events: seq<Event>, at: real)
    requires l.rate == 0.0 && l.burst >= 1.0 && maxAge >= 0.0
    ensures CleanupShows(events, key, at, l, maxAge)
  {
    var start := Fresh(0.0, l);
    var first := Drained(start, l);
    at := maxAge + 1.0;
    events := Calls(key, first) + [Cleanup(at)];
    CleanedUp(key, first, at, At(start, first, l), l, maxAge);
    NoTime(Fresh(at, l), l);
    assert Inflow(0.0, at, l) == 0.0;
    RisingEvents(first, at, [at], 0, key);
    assert Calls(key, [at][..0]) == [] && events + [] == events;
  }

  lemma SweptTooEarly(l: Limits, maxAge: real, key: string) returns (events: seq<Event>, at: real)
    requires l.rate > 0.0 && l.burst >= 1.0 && maxAge >= 0.0 && l.rate * maxAge < l.burst
    ensures CleanupShows(events, key, at, l, maxAge)
  {
    var start := Fresh(0.0, l);
    var first := Emptied(start, l);
    AtFilled(start, first, l);
    var empty := At(start, first, l);
    var now, times, i := Telltale(empty, l, maxAge);
    var before := Calls(key, first) + [Cleanup(now)];
    CleanedUp(key, first, now, empty, l, maxAge);
    NextDecision(before, key, times, i, l, maxAge, true);
    NextDecision(before, key, times, i, l, maxAge, false);
    FreshWhenever(now, times, l);
    events, at := before + Calls(key, times[..i]), times[i];
    RisingEvents(first, now, times, i, key);
  }

  /** A cleanup after calls for one key forgets it or changes nothing. */
  lemma CleanedUp(key: string, first: seq<real>, now: real, b: Bucket, l: Limits, maxAge: real)
    requires first != [] && b == At(Fresh(first[0], l), first, l) && now - b.last > maxAge
    ensures var events := Calls(key, first) + [Cleanup(now)];
            RunGroup(map[], events, l, maxAge, true) == map[]
            && RunGroup(map[], events, l, maxAge, false) == map[key := b]
  {
    var events := Calls(key, first) + [Cleanup(now)];
    assert events[..|events| - 1] == [] + Calls(key, first);
    RunCalls([], key, first, l, maxAge, true);
    RunCalls([], key, first, l, maxAge, false);
    assert Swept(map[key := b], now, maxAge) == map[];
  }

  lemma RisingEvents(first: seq<real>, now: real, times: seq<real>, i: nat, key: string)
    requires first != [] && Rising(0.0, first) && first[|first| - 1] <= now && Rising(now, times) && i < |times|
    ensures var events := Calls(key, first) + [Cleanup(now)] + Calls(key, times[..i]);
            InOrder(0.0, events) && Latest(0.0, events) <= times[i]
  {
  }

  /** A moment at which an empty bucket is old but not full, and calls from then on that tell
      it from a full one, the first difference being at the last of them. */
  lemma Telltale(empty: Bucket, l: Limits, maxAge: real) returns (now: real, times: seq<real>, i: nat)
    requires l.rate > 0.0 && l.burst >= 1.0 && maxAge >= 0.0 && l.rate * maxAge < l.burst && empty.tokens == 0.0
    ensures now - empty.last > maxAge && Rising(now, times) && i < |times|
    ensures Decisions(empty, times, l)[i] != Decisions(Fresh(now, l), times, l)[i]
  {
    var slack := (l.burst - l.rate * maxAge) / l.rate;
    now := empty.last + maxAge + slack / 2.0;
    assert slack * l.rate == l.burst - l.rate * maxAge;
    var r := Inflow(empty.last, now, l);
    assert r == l.rate * maxAge + (slack * l.rate) / 2.0;
    times := Telling(Bucket(r, now), Fresh(now, l), l);
    SameFromNow(empty, Bucket(r, now), times, l);
    i :| 0 <= i < |times| && Decisions(empty, times, l)[i] != Decisions(Fresh(now, l), times, l)[i];
  }

  // ---------- the classes ----------

  class RateLimiter {
    var tokens: real
    var lastTime: real
    const limits: Limits

    constructor (limits: Limits, now: real)
      ensures this.limits == limits && State() == Fresh(now, limits)
    {
      this.limits, tokens, lastTime := limits, limits.burst, now;
    }

    ghost function State(): Bucket
      reads this
    {
      Bucket(tokens, lastTime)
    }

    method Allow(now: real) returns (ok: bool)
      modifies this
      ensures ok == Grants(old(State()), now, limits) && State() == After(old(State()), now, limits)
    {
      var elapsed := now - lastTime;
      assert elapsed * limits.rate == Inflow(lastTime, now, limits);
      lastTime := now;
      tokens := tokens + elapsed * limits.rate;
      if tokens > limits.burst { tokens := limits.burst; }
      ok := tokens >= 1.0;
      if ok { tokens := tokens - 1.0; }
    }
  }

  class RateLimiterGroup {
    var limiters: map<string, RateLimiter>
    const limits: Limits

    constructor (limits: Limits)
      ensures Valid() && State() == map[] && this.limits == limits
    {
      this.limits, limiters := limits, map[];
    }

    /** Every key has its own limiter. */
    ghost predicate Valid()
      reads this, limiters.Values
    {
      && (forall k | k in limiters :: limiters[k].limits == limits)
      && (forall j, k | j in limiters && k in limiters && j != k :: limiters[j] != limiters[k])
    }

    ghost function State(): Group
      reads this, limiters.Values
    {
      map k | k in limiters :: limiters[k].State()
    }

    method Allow(key: string, now: real) returns (ok: bool)
      requires Valid()
      modifies this, limiters.Values
      ensures Valid() && fresh(limiters.Values - old(limiters.Values))
      ensures ok == Grants(BucketOf(old(State()), key, now, limits), now, limits)
      ensures State() == Called(old(State()), key, now, limits)
    {
      ghost var before := State();
      if key !in limiters {
        var created := new RateLimiter(limits, now);
        limiters := limiters[key := created];
      }
      assert limiters[key] in limiters.Values;
      assert limiters[key].State() == BucketOf(before, key, now, limits);
      ok := limiters[key].Allow(now);
      assert State() == Called(before, key, now, limits);
    }

    /** One tick of the cleanup. */
    method Sweep(now: real, maxAge: real)
      requires Valid()
      modifies this`limiters
      ensures Valid() && limiters.Values <= old(limiters.Values)
      ensures State() == Swept(old(State()), now, maxAge)
    {
      ghost var all, before := limiters, State();
      ghost var last := map k | k in all :: before[k].last;
      var keys := limiters.Keys;
      while keys != {}
        invariant keys <= all.Keys && limiters.Keys <= all.Keys && forall k | k in limiters :: limiters[k] == all[k]
        invariant limiters.Keys == Remaining(last, keys, now, maxAge)
        decreases |keys|
      {
        var key :| key in keys;
        RemainingLess(last, keys, key, now, maxAge);
        keys := keys - {key};
        if now - limiters[key].lastTime > maxAge { limiters := limiters - {key}; }
      }
      AllSwept(all, before, last, now, maxAge);
    }

    lemma AllSwept(all: map<string, RateLimiter>, before: Group, last: map<string, real>, now: real, maxAge: real)
      requires limiters.Keys <= all.Keys && forall k | k in limiters :: limiters[k] == all[k]
      requires before.Keys == all.Keys && forall k | k in all :: before[k] == all[k].State()
      requires last.Keys == all.Keys && forall k | k in all :: last[k] == before[k].last
      requires limiters.Keys == Remaining(last, {}, now, maxAge)
      ensures limiters.Values <= all.Values
      ensures State() == Swept(before, now, maxAge)
    {
    }
  }

  /** The keys left when these have still to be looked at. */
  ghost function Remaining(last: map<string, real>, keys: set<string>, now: real, maxAge: real): set<string> {
    set k | k in last && (k in keys || now - last[k] <= maxAge)
  }

  lemma RemainingLess(last: map<string, real>, keys: set<string>, key: string, now: real, maxAge: real)
    requires key in keys && key in last
    ensures Remaining(last, keys - {key}, now, maxAge)
         == Remaining(last, keys, now, maxAge) - (if now - last[key] > maxAge then {key} else {})
    ensures key in Remaining(last, keys, now, maxAge)
  {
  }
}
