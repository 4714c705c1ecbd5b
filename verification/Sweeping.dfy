/** Forgetting idle visitors is invisible: while capacity is never reached, a limiter that is swept
  * answers every request as one that keeps all its buckets for ever.
  */
module Sweeping {
  import opened TokenBucket
  import opened RateLimiter

  datatype Request = Access(key: Key, now: int) | Sweep(now: int)

  datatype Table = Table(seen: Times, buckets: map<Key, Bucket>)

  function BucketOf(r: Rate, buckets: map<Key, Bucket>, key: Key): Bucket {
    if key in buckets then buckets[key] else Full(r)
  }

  // RateLimiter.Serve and RateLimiter.Cleanup on tables, below capacity
  function Served(r: Rate, t: Table, key: Key, now: int): (bool, Table)
    requires r.interval > 0
  {
    var (ok, b) := Take(r, BucketOf(r, t.buckets, key), now);
    (ok, Table(t.seen[key := now], t.buckets[key := b]))
  }

  function Swept(window: int, t: Table, now: int): Table {
    var seen := Survivors(t.seen, now - window);
    Table(seen, map k | k in t.buckets && k in seen :: t.buckets[k])
  }

  // What RateLimiter.Serve promises, read on tables: which of several oldest visitors goes is open.
  ghost predicate Serving(r: Rate, cap: int, before: Table, key: Key, now: int, after: Table)
    requires r.interval > 0
  {
    && before.seen.Keys == before.buckets.Keys && after.seen.Keys == after.buckets.Keys
    && Touched(cap, before.seen, key, now, after.seen) && key in after.buckets
    && after.buckets[key] == Take(r, BucketOf(r, before.buckets, key), now).1
    && (forall k :: k in after.buckets && k != key ==> k in before.buckets && after.buckets[k] == before.buckets[k])
  }

  // Below capacity that is Served ...
  lemma ServeMeansServed(r: Rate, cap: int, before: Table, after: Table, key: Key, now: int)
    requires r.interval > 0 && Serving(r, cap, before, key, now, after)
    requires key in before.seen || before.seen == map[] || |before.seen| < cap
    ensures after == Served(r, before, key, now).1
  {
    assert after.buckets.Keys == before.buckets.Keys + {key};
    assert after.buckets == before.buckets[key := after.buckets[key]];
  }

  // What RateLimiter.Cleanup promises, read on tables
  ghost predicate Cleaned(window: int, before: Table, after: Table, now: int) {
    && before.seen.Keys == before.buckets.Keys && after.seen.Keys == after.buckets.Keys
    && after.seen == Survivors(before.seen, now - window)
    && (forall k :: k in after.buckets ==> k in before.buckets && after.buckets[k] == before.buckets[k])
  }

  // ... which is Swept.
  lemma CleanupMeansSwept(window: int, before: Table, after: Table, now: int)
    requires Cleaned(window, before, after, now)
    ensures after == Swept(window, before, now)
  {
    assert forall k :: k in after.buckets <==> k in before.buckets && k in after.seen;
  }

  // The answers of the limiter that is swept
  function Answers(r: Rate, window: int, t: Table, qs: seq<Request>): seq<bool>
    requires r.interval > 0
    decreases |qs|
  {
    if qs == [] then []
    else match qs[0]
      case Access(key, now) =>
        var (ok, t') := Served(r, t, key, now);
        [ok] + Answers(r, window, t', qs[1..])
      case Sweep(now) => Answers(r, window, Swept(window, t, now), qs[1..])
  }

  // The answers of the limiter that never forgets
  function PlainAnswers(r: Rate, buckets: map<Key, Bucket>, qs: seq<Request>): seq<bool>
    requires r.interval > 0
    decreases |qs|
  {
    if qs == [] then []
    else match qs[0]
      case Access(key, now) =>
        var (ok, b) := Take(r, BucketOf(r, buckets, key), now);
        [ok] + PlainAnswers(r, buckets[key := b], qs[1..])
      case Sweep(_) => PlainAnswers(r, buckets, qs[1..])
  }

  // Clock readings do not run backwards; a sweep may carry an older reading.
  ghost predicate InOrder(qs: seq<Request>, clock: int) {
    qs == [] ||
    match qs[0]
    case Access(_, now) => clock <= now && InOrder(qs[1..], now)
    case Sweep(now) => InOrder(qs[1..], if now < clock then clock else now)
  }

  ghost predicate Sound(r: Rate, b: Bucket, clock: int) {
    0.0 <= b.tokens <= r.burst as real && b.last <= clock
  }

  // The plain limiter knows all the table knows; what the table has forgotten is full again.
  ghost predicate Matches(r: Rate, t: Table, buckets: map<Key, Bucket>, clock: int)
    requires r.interval > 0
  {
    && t.seen.Keys == t.buckets.Keys
    && (forall k :: k in buckets ==> Sound(r, buckets[k], clock))
    && (forall k :: k in t.buckets ==> k in buckets && buckets[k] == t.buckets[k] && buckets[k].last <= t.seen[k])
    && (forall k :: k in buckets && k !in t.buckets ==> Refilled(r, buckets[k], clock) == r.burst as real)
  }

  lemma Share(elapsed: int, elapsed': int, interval: int)
    requires interval > 0 && elapsed <= elapsed'
    ensures elapsed as real / interval as real <= elapsed' as real / interval as real
  {
  }

  lemma StaysFull(r: Rate, b: Bucket, clock: int, now: int)
    requires r.interval > 0 && b.last <= clock <= now && Refilled(r, b, clock) == r.burst as real
    ensures Refilled(r, b, now) == r.burst as real
  {
    Share(clock - b.last, now - b.last, r.interval);
  }

  lemma Advanced(r: Rate, t: Table, buckets: map<Key, Bucket>, clock: int, now: int)
    requires r.interval > 0 && Matches(r, t, buckets, clock) && clock <= now
    ensures Matches(r, t, buckets, now)
  {
    forall k | k in buckets && k !in t.buckets ensures Refilled(r, buckets[k], now) == r.burst as real {
      StaysFull(r, buckets[k], clock, now);
    }
  }

  // An idle window is long enough to refill any bucket, since the window holds limit intervals.
  lemma IdleRefills(limit: int, window: int, b: Bucket, now: int)
    requires 0 < limit <= window
    requires Sound(RateOf(limit, window), b, now) && b.last < now - window
    ensures Refilled(RateOf(limit, window), b, now) == limit as real
  {
    var r := RateOf(limit, window);
    assert window == window / limit * limit + window % limit;
    assert window / limit >= 1;
    assert limit * r.interval <= window;
    Share(limit * r.interval, now - b.last, r.interval);
    calc {
      (limit * r.interval) as real / r.interval as real;
    ==
      limit as real * r.interval as real / r.interval as real;
    ==
      limit as real;
    }
    assert limit as real <= (now - b.last) as real / r.interval as real;
  }

  lemma SweepMatches(limit: int, window: int, t: Table, buckets: map<Key, Bucket>, clock: int, now: int)
    requires 0 < limit <= window && now <= clock
    requires Matches(RateOf(limit, window), t, buckets, clock)
    ensures Matches(RateOf(limit, window), Swept(window, t, now), buckets, clock)
  {
    var r := RateOf(limit, window);
    forall k | k in t.buckets && t.seen[k] < now - window ensures Refilled(r, buckets[k], clock) == r.burst as real {
      IdleRefills(limit, window, buckets[k], clock);
    }
  }

  lemma ServeMatches(r: Rate, t: Table, buckets: map<Key, Bucket>, key: Key, now: int)
    requires r.interval > 0 && r.burst > 0 && Matches(r, t, buckets, now)
    ensures Take(r, BucketOf(r, buckets, key), now) == Take(r, BucketOf(r, t.buckets, key), now)
    ensures Matches(r, Served(r, t, key, now).1, buckets[key := Take(r, BucketOf(r, buckets, key), now).1], now)
  {
    var b := BucketOf(r, buckets, key);
    Share(0, if now < b.last then 0 else now - b.last, r.interval);
    assert 0.0 <= Refilled(r, b, now) <= r.burst as real;
  }

  lemma {:induction false} SameAnswers(limit: int, window: int, t: Table, buckets: map<Key, Bucket>, qs: seq<Request>, clock: int)
    requires 0 < limit <= window && InOrder(qs, clock)
    requires Matches(RateOf(limit, window), t, buckets, clock)
    ensures Answers(RateOf(limit, window), window, t, qs) == PlainAnswers(RateOf(limit, window), buckets, qs)
    decreases |qs|
  {
    var r := RateOf(limit, window);
    if qs != [] {
      match qs[0]
      case Access(key, now) =>
        Advanced(r, t, buckets, clock, now);
        ServeMatches(r, t, buckets, key, now);
        SameAnswers(limit, window, Served(r, t, key, now).1, buckets[key := Take(r, BucketOf(r, buckets, key), now).1], qs[1..], now);
      case Sweep(now) =>
        var clock' := if now < clock then clock else now;
        Advanced(r, t, buckets, clock, clock');
        SweepMatches(limit, window, t, buckets, clock', now);
        SameAnswers(limit, window, Swept(window, t, now), buckets, qs[1..], clock');
    }
  }

  ghost predicate Invisible(limit: int, window: int)
    requires limit != 0
  {
    forall qs, clock | InOrder(qs, clock) ::
      Answers(RateOf(limit, window), window, Table(map[], map[]), qs) == PlainAnswers(RateOf(limit, window), map[], qs)
  }

  lemma SweepsInvisible(limit: int, window: int)
    requires 0 < limit <= window
    ensures Invisible(limit, window)
  {
    forall qs, clock | InOrder(qs, clock)
      ensures Answers(RateOf(limit, window), window, Table(map[], map[]), qs) == PlainAnswers(RateOf(limit, window), map[], qs)
    {
      SameAnswers(limit, window, Table(map[], map[]), map[], qs, clock);
    }
  }

  // n accesses by one key at one instant
  function Burst(key: Key, now: int, n: nat): seq<Request> {
    if n == 0 then [] else [Access(key, now)] + Burst(key, now, n - 1)
  }

  lemma {:induction false} InOrderEarlier(qs: seq<Request>, clock: int, clock': int)
    requires clock <= clock' && InOrder(qs, clock')
    ensures InOrder(qs, clock)
    decreases |qs|
  {
    if qs != [] && qs[0].Sweep? {
      var now := qs[0].now;
      InOrderEarlier(qs[1..], if now < clock then clock else now, if now < clock' then clock' else now);
    }
  }

  lemma {:induction false} BurstInOrder(key: Key, now: int, n: nat, rest: seq<Request>, clock: int)
    requires clock <= now && InOrder(rest, now)
    ensures InOrder(Burst(key, now, n) + rest, clock)
    decreases n
  {
    if n == 0 {
      assert Burst(key, now, n) + rest == rest;
      InOrderEarlier(rest, clock, now);
    } else {
      assert (Burst(key, now, n) + rest)[1..] == Burst(key, now, n - 1) + rest;
      BurstInOrder(key, now, n - 1, rest, now);
    }
  }

  lemma Idle(r: Rate, b: Bucket, now: int)
    requires r.interval > 0 && b.last == now && b.tokens <= r.burst as real
    ensures Refilled(r, b, now) == b.tokens
  {
    var elapsed := now - b.last;
    assert elapsed as real / r.interval as real == 0.0;
  }

  lemma TakeAtOnce(r: Rate, b: Bucket, now: int)
    requires r.interval > 0 && r.burst >= 1 && Refilled(r, b, now) >= 1.0
    ensures Take(r, b, now) == (true, Bucket(Refilled(r, b, now) - 1.0, now))
    ensures Refilled(r, Take(r, b, now).1, now) == Refilled(r, b, now) - 1.0
  {
    Idle(r, Bucket(Refilled(r, b, now) - 1.0, now), now);
  }

  lemma SameHead(b: bool, xs: seq<bool>, ys: seq<bool>)
    requires xs != ys
    ensures [b] + xs != [b] + ys
  {
    assert ([b] + xs)[1..] == xs && ([b] + ys)[1..] == ys;
  }

  // Where the plain limiter has fewer tokens left than the swept one needs, the answers part.
  lemma {:induction false} Part(r: Rate, window: int, t: Table, buckets: map<Key, Bucket>, key: Key, now: int, n: nat)
    requires r.interval > 0 && r.burst >= n
    requires 0.0 <= Refilled(r, BucketOf(r, buckets, key), now) < n as real <= Refilled(r, BucketOf(r, t.buckets, key), now)
    ensures Answers(r, window, t, Burst(key, now, n)) != PlainAnswers(r, buckets, Burst(key, now, n))
    decreases n
  {
    var qs, qs' := Burst(key, now, n), Burst(key, now, n - 1);
    assert qs[0] == Access(key, now) && qs[1..] == qs';
    var (ok, b) := Take(r, BucketOf(r, buckets, key), now);
    var (ok', b') := Take(r, BucketOf(r, t.buckets, key), now);
    var t', buckets' := Served(r, t, key, now).1, buckets[key := b];
    assert Answers(r, window, t, qs) == [ok'] + Answers(r, window, t', qs');
    assert PlainAnswers(r, buckets, qs) == [ok] + PlainAnswers(r, buckets', qs');
    assert ok';
    if !ok {
      assert Answers(r, window, t, qs)[0] != PlainAnswers(r, buckets, qs)[0];
    } else {
      TakeAtOnce(r, BucketOf(r, buckets, key), now);
      TakeAtOnce(r, BucketOf(r, t.buckets, key), now);
      Part(r, window, t', buckets', key, now, n - 1);
      SameHead(true, Answers(r, window, t', qs'), PlainAnswers(r, buckets', qs'));
    }
  }

  // From full, n accesses at time 0 drain n tokens on either side.
  lemma {:induction false} Drain(r: Rate, window: int, key: Key, t: Table, buckets: map<Key, Bucket>, n: nat, rest: seq<Request>)
    requires r.interval > 0 && r.burst >= n && r.burst > 0
    requires n == r.burst ==> t == Table(map[], map[]) && buckets == map[]
    requires n < r.burst ==> t == Table(map[key := 0], map[key := Bucket(n as real, 0)]) && buckets == t.buckets
    requires Answers(r, window, Table(map[key := 0], map[key := Bucket(0.0, 0)]), rest) !=
             PlainAnswers(r, map[key := Bucket(0.0, 0)], rest)
    ensures Answers(r, window, t, Burst(key, 0, n) + rest) != PlainAnswers(r, buckets, Burst(key, 0, n) + rest)
    decreases n
  {
    var qs := Burst(key, 0, n) + rest;
    if n == 0 {
      assert qs == rest;
    } else {
      var qs', b := Burst(key, 0, n - 1) + rest, Bucket((n - 1) as real, 0);
      assert qs[0] == Access(key, 0) && qs[1..] == qs';
      Idle(r, Bucket(n as real, 0), 0);
      TakeAtOnce(r, Bucket(n as real, 0), 0);
      var t', buckets' := Table(map[key := 0], map[key := b]), map[key := b];
      assert BucketOf(r, buckets, key) == BucketOf(r, t.buckets, key) == Bucket(n as real, 0);
      assert t.seen[key := 0] == map[key := 0] && t.buckets[key := b] == buckets[key := b] == buckets';
      assert Take(r, Bucket(n as real, 0), 0) == (true, b);
      assert Answers(r, window, t, qs) == [true] + Answers(r, window, t', qs');
      assert PlainAnswers(r, buckets, qs) == [true] + PlainAnswers(r, buckets', qs');
      Drain(r, window, key, t', buckets', n - 1, rest);
      SameHead(true, Answers(r, window, t', qs'), PlainAnswers(r, buckets', qs'));
    }
  }

  lemma OneTokenPerSecond(limit: int, window: int)
    requires window < limit && 0 < limit
    ensures RateOf(limit, window).interval == SECOND
  {
    if window >= 0 {
      SmallQuotient(window, limit);
    } else {
      NaturalQuotient(-window, limit);
    }
  }

  lemma SmallQuotient(a: int, b: int)
    requires 0 <= a < b
    ensures a / b == 0
  {
  }

  lemma NaturalQuotient(a: nat, b: int)
    requires b > 0
    ensures a / b >= 0
  {
  }

  // A negative limit never allows anything, swept or not.
  lemma {:induction false} NothingAllowed(r: Rate, window: int, t: Table, buckets: map<Key, Bucket>, qs: seq<Request>)
    requires r.interval > 0 && r.burst < 1
    ensures Answers(r, window, t, qs) == PlainAnswers(r, buckets, qs)
    decreases |qs|
  {
    if qs != [] {
      match qs[0]
      case Access(key, now) =>
        NothingAllowed(r, window, Served(r, t, key, now).1, buckets[key := Take(r, BucketOf(r, buckets, key), now).1], qs[1..]);
      case Sweep(now) => NothingAllowed(r, window, Swept(window, t, now), buckets, qs[1..]);
    }
  }

  // Outside that range of parameters there is a run on which sweeping shows.
  lemma SweepsVisible(limit: int, window: int)
    requires window < limit && 0 < limit
    ensures !Invisible(limit, window)
  {
    var r, key, now := RateOf(limit, window), Key(""), if window < 0 then 1 else window + 1;
    OneTokenPerSecond(limit, window);
    assert 0.0 <= now as real / SECOND as real < limit as real;
    var drained := map[key := Bucket(0.0, 0)];
    var again := Burst(key, now, limit);
    var rest := [Sweep(now)] + again;
    assert again + [] == again && rest[1..] == again;
    assert Swept(window, Table(map[key := 0], drained), now) == Table(map[], map[]);
    Part(r, window, Table(map[], map[]), drained, key, now, limit);
    Drain(r, window, key, Table(map[], map[]), map[], limit, rest);
    BurstInOrder(key, now, limit, [], now);
    BurstInOrder(key, 0, limit, rest, 0);
    assert r == RateOf(limit, window) && InOrder(Burst(key, 0, limit) + rest, 0);
  }

  // Sweeping never changes an answer exactly when the window has a nanosecond per token, or nothing
  // is ever allowed.
  lemma SweepsInvisibleExactly(limit: int, window: int)
    requires limit != 0
    ensures Invisible(limit, window) <==> limit < 0 || limit <= window
  {
    if limit < 0 {
      forall qs, clock | InOrder(qs, clock)
        ensures Answers(RateOf(limit, window), window, Table(map[], map[]), qs) == PlainAnswers(RateOf(limit, window), map[], qs)
      {
        NothingAllowed(RateOf(limit, window), window, Table(map[], map[]), map[], qs);
      }
    } else if limit <= window {
      SweepsInvisible(limit, window);
    } else {
      SweepsVisible(limit, window);
    }
  }
}
