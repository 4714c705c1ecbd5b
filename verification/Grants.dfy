/** What the rate limiter is for: how many requests of one visitor are let through in an interval. */
module Grants {
  import opened TokenBucket
  import opened Sweeping

  // What happens to one visitor's bucket: a request, or being forgotten by a sweep or an eviction
  datatype Visit = Request(now: int) | Forgotten

  function Visited(r: Rate, b: Bucket, v: Visit): (bool, Bucket)
    requires r.interval > 0
  {
    if v.Request? then Take(r, b, v.now) else (false, Full(r))
  }

  function Granted(r: Rate, b: Bucket, vs: seq<Visit>): nat
    requires r.interval > 0
    decreases |vs|
  {
    if vs == [] then 0
    else
      var (ok, next) := Visited(r, b, vs[0]);
      (if ok then 1 else 0) + Granted(r, next, vs[1..])
  }

  function BucketAfter(r: Rate, b: Bucket, vs: seq<Visit>): Bucket
    requires r.interval > 0
    decreases |vs|
  {
    if vs == [] then b else BucketAfter(r, Visited(r, b, vs[0]).1, vs[1..])
  }

  function Forgettings(vs: seq<Visit>): nat {
    if vs == [] then 0 else (if vs[0].Forgotten? then 1 else 0) + Forgettings(vs[1..])
  }

  // Requests carry clock readings that do not run backwards, up to the reading end.
  ghost predicate Between(vs: seq<Visit>, clock: int, end: int) {
    if vs == [] then clock <= end
    else if vs[0].Request? then clock <= vs[0].now && Between(vs[1..], vs[0].now, end)
    else Between(vs[1..], clock, end)
  }

  function Elapsed(r: Rate, clock: int, now: int): real
    requires r.interval > 0
  {
    (now - clock) as real / r.interval as real
  }

  // Neither overdrawn nor overfull; only a bucket still full can date from later.
  ghost predicate Usable(r: Rate, b: Bucket, clock: int) {
    0.0 <= b.tokens <= r.burst as real && (b.last <= clock || b.tokens == r.burst as real)
  }

  lemma Parts(r: Rate, a: int, b: int)
    requires r.interval > 0
    ensures (a + b) as real / r.interval as real == a as real / r.interval as real + b as real / r.interval as real
  {
  }

  // Waiting refills at most a token per interval.
  lemma RefillsSlowly(r: Rate, b: Bucket, clock: int, now: int)
    requires r.interval > 0 && Usable(r, b, clock) && clock <= now
    ensures Refilled(r, b, now) <= Refilled(r, b, clock) + Elapsed(r, clock, now)
    ensures 0.0 <= Refilled(r, b, now) <= r.burst as real && Elapsed(r, clock, now) >= 0.0
  {
    Share(0, now - clock, r.interval);
    if b.last <= clock {
      Share(0, clock - b.last, r.interval);
      Parts(r, clock - b.last, now - clock);
    } else {
      Share(0, if now < b.last then 0 else now - b.last, r.interval);
    }
  }

  lemma TakenIsUsable(r: Rate, b: Bucket, now: int)
    requires r.interval > 0 && Usable(r, b, now)
    ensures Usable(r, Take(r, b, now).1, now)
    ensures Refilled(r, Take(r, b, now).1, now) + (if Take(r, b, now).0 then 1.0 else 0.0) == Refilled(r, b, now)
  {
    RefillsSlowly(r, b, now, now);
    if Take(r, b, now).0 {
      Idle(r, Take(r, b, now).1, now);
    }
  }

  // n full buckets
  function Bursts(r: Rate, n: nat): real {
    if n == 0 then 0.0 else r.burst as real + Bursts(r, n - 1)
  }

  lemma {:induction false} BurstsMean(r: Rate, n: nat)
    ensures Bursts(r, n) == n as real * r.burst as real
  {
    if n > 0 {
      BurstsMean(r, n - 1);
      assert n as real * r.burst as real == r.burst as real + (n - 1) as real * r.burst as real;
    }
  }

  lemma RequestWithin(r: Rate, b: Bucket, clock: int, now: int, end: int, rest: nat, extra: real)
    requires r.interval > 0 && Usable(r, b, clock) && clock <= now
    requires rest as real <= Refilled(r, Take(r, b, now).1, now) + extra + Elapsed(r, now, end)
    ensures (if Take(r, b, now).0 then 1.0 else 0.0) + rest as real <= Refilled(r, b, clock) + extra + Elapsed(r, clock, end)
  {
    RefillsSlowly(r, b, clock, now);
    TakenIsUsable(r, b, now);
    Parts(r, now - clock, end - now);
  }

  // The tokens at hand, a full bucket for every time the visitor is forgotten, and what is refilled
  lemma {:induction false} GrantsWithin(r: Rate, b: Bucket, vs: seq<Visit>, clock: int, end: int)
    requires r.interval > 0 && Usable(r, b, clock) && Between(vs, clock, end)
    ensures Granted(r, b, vs) as real <= Refilled(r, b, clock) + Bursts(r, Forgettings(vs)) + Elapsed(r, clock, end)
    decreases |vs|
  {
    if vs == [] {
      RefillsSlowly(r, b, clock, end);
    } else if vs[0].Request? {
      var now := vs[0].now;
      RefillsSlowly(r, b, clock, now);
      TakenIsUsable(r, b, now);
      GrantsWithin(r, Take(r, b, now).1, vs[1..], now, end);
      RequestWithin(r, b, clock, now, end, Granted(r, Take(r, b, now).1, vs[1..]), Bursts(r, Forgettings(vs)));
    } else {
      RefillsSlowly(r, b, clock, clock);
      RefillsSlowly(r, Full(r), clock, clock);
      GrantsWithin(r, Full(r), vs[1..], clock, end);
    }
  }

  lemma {:induction false} StaysUsable(r: Rate, b: Bucket, vs: seq<Visit>, clock: int, end: int)
    requires r.interval > 0 && Usable(r, b, clock) && Between(vs, clock, end)
    ensures Usable(r, BucketAfter(r, b, vs), end)
    decreases |vs|
  {
    if vs != [] {
      if vs[0].Request? {
        RefillsSlowly(r, b, clock, vs[0].now);
        TakenIsUsable(r, b, vs[0].now);
        StaysUsable(r, Take(r, b, vs[0].now).1, vs[1..], vs[0].now, end);
      } else {
        StaysUsable(r, Full(r), vs[1..], clock, end);
      }
    }
  }

  lemma {:induction false} GrantedInTurn(r: Rate, b: Bucket, vs: seq<Visit>, ws: seq<Visit>)
    requires r.interval > 0
    ensures Granted(r, b, vs + ws) == Granted(r, b, vs) + Granted(r, BucketAfter(r, b, vs), ws)
    decreases |vs|
  {
    if vs == [] {
      assert vs + ws == ws;
    } else {
      assert (vs + ws)[1..] == vs[1..] + ws;
      GrantedInTurn(r, Visited(r, b, vs[0]).1, vs[1..], ws);
    }
  }

  // In any interval of any visitor's history: at most a burst, one burst more for every time it was
  // forgotten within the interval, and one request per interval of the rate.
  lemma GrantsInAnyInterval(r: Rate, earlier: seq<Visit>, vs: seq<Visit>, start: int, clock: int, end: int)
    requires r.interval > 0 && r.burst >= 0 && Between(earlier, start, clock) && Between(vs, clock, end)
    ensures (Granted(r, Full(r), earlier + vs) - Granted(r, Full(r), earlier)) as real
            <= Bursts(r, Forgettings(vs) + 1) + Elapsed(r, clock, end)
  {
    var b := BucketAfter(r, Full(r), earlier);
    GrantedInTurn(r, Full(r), earlier, vs);
    StaysUsable(r, Full(r), earlier, start, clock);
    GrantsWithin(r, b, vs, clock, end);
    RefillsSlowly(r, b, clock, clock);
  }

  // ---- The bound is reached

  function Volley(n: nat): seq<Visit> {
    if n == 0 then [] else [Request(0)] + Volley(n - 1)
  }

  function Volleys(burst: nat, forgettings: nat): seq<Visit> {
    if forgettings == 0 then Volley(burst) else Volley(burst) + [Forgotten] + Volleys(burst, forgettings - 1)
  }

  lemma {:induction false} VolleyIsGranted(r: Rate, b: Bucket, n: nat)
    requires r.interval > 0 && Usable(r, b, 0) && n as real <= Refilled(r, b, 0)
    ensures Granted(r, b, Volley(n)) == n && Forgettings(Volley(n)) == 0
    decreases n
  {
    if n > 0 {
      RefillsSlowly(r, b, 0, 0);
      TakenIsUsable(r, b, 0);
      assert Volley(n)[1..] == Volley(n - 1);
      VolleyIsGranted(r, Take(r, b, 0).1, n - 1);
    }
  }

  lemma {:induction false} ForgettingsAdd(vs: seq<Visit>, ws: seq<Visit>)
    ensures Forgettings(vs + ws) == Forgettings(vs) + Forgettings(ws)
    decreases |vs|
  {
    if vs == [] {
      assert vs + ws == ws;
    } else {
      assert (vs + ws)[1..] == vs[1..] + ws;
      ForgettingsAdd(vs[1..], ws);
    }
  }

  // Each time a visitor is forgotten can be worth a whole burst, at one and the same instant.
  lemma {:induction false} ForgettingIsWorthABurst(r: Rate, n: nat)
    requires r.interval > 0 && r.burst >= 0
    ensures Granted(r, Full(r), Volleys(r.burst, n)) == (n + 1) * r.burst && Forgettings(Volleys(r.burst, n)) == n
    decreases n
  {
    RefillsSlowly(r, Full(r), 0, 0);
    Idle(r, Full(r), 0);
    VolleyIsGranted(r, Full(r), r.burst);
    if n > 0 {
      var first, rest := Volley(r.burst), [Forgotten] + Volleys(r.burst, n - 1);
      assert Volleys(r.burst, n) == first + rest && rest[1..] == Volleys(r.burst, n - 1);
      GrantedInTurn(r, Full(r), first, rest);
      ForgettingsAdd(first, rest);
      ForgettingIsWorthABurst(r, n - 1);
    }
  }

  // ---- The whole table

  // How many of the answers to one visitor's requests are yes
  function CountFor(qs: seq<Sweeping.Request>, answers: seq<bool>, key: Key): nat
    decreases |qs|
  {
    if qs == [] then 0
    else if qs[0].Sweep? then CountFor(qs[1..], answers, key)
    else if answers == [] then 0
    else (if qs[0].key == key && answers[0] then 1 else 0) + CountFor(qs[1..], answers[1..], key)
  }

  // One visitor's part of a run in which nobody is forgotten
  function VisitsOf(qs: seq<Sweeping.Request>, key: Key): seq<Visit>
    decreases |qs|
  {
    if qs == [] then []
    else if qs[0].Access? && qs[0].key == key then [Request(qs[0].now)] + VisitsOf(qs[1..], key)
    else VisitsOf(qs[1..], key)
  }

  lemma {:induction false} CountIsGranted(r: Rate, buckets: map<Key, Bucket>, qs: seq<Sweeping.Request>, key: Key)
    requires r.interval > 0
    ensures CountFor(qs, PlainAnswers(r, buckets, qs), key) == Granted(r, BucketOf(r, buckets, key), VisitsOf(qs, key))
    ensures Forgettings(VisitsOf(qs, key)) == 0
    decreases |qs|
  {
    if qs != [] {
      match qs[0]
      case Access(k, now) =>
        var (ok, b) := Take(r, BucketOf(r, buckets, k), now);
        var rest := PlainAnswers(r, buckets[k := b], qs[1..]);
        assert ([ok] + rest)[1..] == rest;
        CountIsGranted(r, buckets[k := b], qs[1..], key);
        if k == key {
          assert ([Request(now)] + VisitsOf(qs[1..], key))[1..] == VisitsOf(qs[1..], key);
        }
      case Sweep(_) => CountIsGranted(r, buckets, qs[1..], key);
    }
  }

  // All of a run's accesses are made by the reading end.
  ghost predicate Until(qs: seq<Sweeping.Request>, end: int) {
    forall q :: q in qs && q.Access? ==> q.now <= end
  }

  lemma {:induction false} VisitsBetween(qs: seq<Sweeping.Request>, key: Key, clock: int, start: int, end: int)
    requires InOrder(qs, clock) && Until(qs, end) && start <= clock && start <= end
    ensures Between(VisitsOf(qs, key), start, end)
    decreases |qs|
  {
    if qs != [] {
      match qs[0]
      case Access(k, now) => VisitsBetween(qs[1..], key, now, if k == key then now else start, end);
      case Sweep(now) => VisitsBetween(qs[1..], key, if now < clock then clock else now, start, end);
    }
  }

  // With a nanosecond of window per token, the swept table below capacity grants one visitor at
  // most its limit at once and one request per interval, however many others there are.
  lemma TableGrants(limit: int, window: int, qs: seq<Sweeping.Request>, key: Key, clock: int, end: int)
    requires 0 < limit <= window && InOrder(qs, clock) && Until(qs, end) && clock <= end
    ensures var r := RateOf(limit, window);
            CountFor(qs, Answers(r, window, Table(map[], map[]), qs), key) as real <= limit as real + Elapsed(r, clock, end)
  {
    var r := RateOf(limit, window);
    SameAnswers(limit, window, Table(map[], map[]), map[], qs, clock);
    CountIsGranted(r, map[], qs, key);
    VisitsBetween(qs, key, clock, clock, end);
    GrantsWithin(r, Full(r), VisitsOf(qs, key), clock, end);
    RefillsSlowly(r, Full(r), clock, clock);
  }
}
