/** Runs of the whole table at any capacity: what an eviction can be worth to a visitor, and how many
  * visitors a table can serve before that happens.
  */
module Evictions {
  import opened TokenBucket
  import opened RateLimiter
  import opened Sweeping
  import opened Grants
  import Lru

  ghost predicate Stepped(r: Rate, window: int, cap: int, before: Table, q: Sweeping.Request, after: Table)
    requires r.interval > 0
  {
    match q
    case Access(key, now) => Serving(r, cap, before, key, now, after)
    case Sweep(now) => before.seen.Keys == before.buckets.Keys && after == Swept(window, before, now)
  }

  // tables[i] is the table before request i.
  ghost predicate Runs(r: Rate, window: int, cap: int, qs: seq<Sweeping.Request>, tables: seq<Table>)
    requires r.interval > 0
  {
    |tables| == |qs| + 1 && forall i :: 0 <= i < |qs| ==> Stepped(r, window, cap, tables[i], qs[i], tables[i + 1])
  }

  // The answers to the accesses of a run
  function RunAnswers(r: Rate, qs: seq<Sweeping.Request>, tables: seq<Table>): seq<bool>
    requires r.interval > 0 && |tables| == |qs| + 1
    decreases |qs|
  {
    if qs == [] then []
    else if qs[0].Sweep? then RunAnswers(r, qs[1..], tables[1..])
    else [Take(r, BucketOf(r, tables[0].buckets, qs[0].key), qs[0].now).0] + RunAnswers(r, qs[1..], tables[1..])
  }

  const EMPTY := Table(map[], map[])

  // ---- One visitor's part of a run

  function VisitOf(q: Sweeping.Request, before: Table, after: Table, key: Key): seq<Visit> {
    if q.Access? && q.key == key then [Request(q.now)]
    else if key in before.buckets && key !in after.buckets then [Forgotten]
    else []
  }

  // The visitor is forgotten exactly where it leaves the table.
  function VisitsIn(qs: seq<Sweeping.Request>, tables: seq<Table>, key: Key): seq<Visit>
    requires |tables| == |qs| + 1
    decreases |qs|
  {
    if qs == [] then []
    else VisitOf(qs[0], tables[0], tables[1], key) + VisitsIn(qs[1..], tables[1..], key)
  }

  lemma RunsRest(r: Rate, window: int, cap: int, qs: seq<Sweeping.Request>, tables: seq<Table>)
    requires r.interval > 0 && Runs(r, window, cap, qs, tables) && qs != []
    ensures Stepped(r, window, cap, tables[0], qs[0], tables[1]) && Runs(r, window, cap, qs[1..], tables[1..])
  {
  }

  // A step does to a visitor's bucket what its visit does.
  lemma VisitMeansStep(r: Rate, window: int, cap: int, before: Table, q: Sweeping.Request, after: Table, key: Key)
    requires r.interval > 0 && Stepped(r, window, cap, before, q, after)
    ensures var b, vs := BucketOf(r, before.buckets, key), VisitOf(q, before, after, key);
            && BucketAfter(r, b, vs) == BucketOf(r, after.buckets, key)
            && Granted(r, b, vs) == (if q.Access? && q.key == key && Take(r, b, q.now).0 then 1 else 0)
  {
    var b, vs := BucketOf(r, before.buckets, key), VisitOf(q, before, after, key);
    if vs != [] {
      assert vs[1..] == [];
      assert BucketAfter(r, b, vs) == Visited(r, b, vs[0]).1;
    }
  }

  lemma {:induction false} YesMeansGranted(r: Rate, window: int, cap: int, qs: seq<Sweeping.Request>, tables: seq<Table>, key: Key)
    requires r.interval > 0 && Runs(r, window, cap, qs, tables)
    ensures CountFor(qs, RunAnswers(r, qs, tables), key) ==
            Granted(r, BucketOf(r, tables[0].buckets, key), VisitsIn(qs, tables, key))
    decreases |qs|
  {
    if qs != [] {
      RunsRest(r, window, cap, qs, tables);
      YesMeansGranted(r, window, cap, qs[1..], tables[1..], key);
      VisitMeansStep(r, window, cap, tables[0], qs[0], tables[1], key);
      GrantedInTurn(r, BucketOf(r, tables[0].buckets, key), VisitOf(qs[0], tables[0], tables[1], key),
                    VisitsIn(qs[1..], tables[1..], key));
      assert qs[0].Access? ==> RunAnswers(r, qs, tables)[1..] == RunAnswers(r, qs[1..], tables[1..]);
    }
  }

  lemma {:induction false} VisitsInOrder(qs: seq<Sweeping.Request>, tables: seq<Table>, key: Key, clock: int, start: int, end: int)
    requires |tables| == |qs| + 1 && InOrder(qs, clock) && Until(qs, end) && start <= clock && start <= end
    ensures Between(VisitsIn(qs, tables, key), start, end)
    decreases |qs|
  {
    if qs != [] {
      var v, rest := VisitOf(qs[0], tables[0], tables[1], key), VisitsIn(qs[1..], tables[1..], key);
      assert v != [] ==> (v + rest)[0] == v[0] && (v + rest)[1..] == rest;
      assert v == [] ==> v + rest == rest;
      match qs[0]
      case Access(k, now) => VisitsInOrder(qs[1..], tables[1..], key, now, if k == key then now else start, end);
      case Sweep(now) => VisitsInOrder(qs[1..], tables[1..], key, if now < clock then clock else now, start, end);
    }
  }

  // ---- At any capacity

  ghost predicate AllUsable(r: Rate, t: Table, clock: int) {
    forall k :: k in t.buckets ==> Usable(r, t.buckets[k], clock)
  }

  // From any table of usable buckets: what is let through is at most a burst, one more for every time
  // that the visitor leaves the table, and what is refilled.
  lemma RunGrants(r: Rate, window: int, cap: int, qs: seq<Sweeping.Request>, tables: seq<Table>, key: Key, clock: int, end: int)
    requires r.interval > 0 && r.burst >= 0 && Runs(r, window, cap, qs, tables)
    requires AllUsable(r, tables[0], clock) && InOrder(qs, clock) && Until(qs, end) && clock <= end
    ensures CountFor(qs, RunAnswers(r, qs, tables), key) as real
            <= Bursts(r, Forgettings(VisitsIn(qs, tables, key)) + 1) + Elapsed(r, clock, end)
  {
    var b := BucketOf(r, tables[0].buckets, key);
    YesMeansGranted(r, window, cap, qs, tables, key);
    VisitsInOrder(qs, tables, key, clock, clock, end);
    GrantsWithin(r, b, VisitsIn(qs, tables, key), clock, end);
    RefillsSlowly(r, b, clock, clock);
  }

  lemma StaysUsableIn(r: Rate, window: int, cap: int, before: Table, q: Sweeping.Request, after: Table, clock: int, next: int)
    requires r.interval > 0 && r.burst >= 0 && Stepped(r, window, cap, before, q, after) && AllUsable(r, before, clock)
    requires clock <= next && (q.Access? ==> next == q.now)
    ensures AllUsable(r, after, next)
  {
    if q.Access? {
      var b := BucketOf(r, before.buckets, q.key);
      assert Usable(r, b, next);
      TakenIsUsable(r, b, next);
    }
  }

  lemma {:induction false} ReachedUsable(r: Rate, window: int, cap: int, qs: seq<Sweeping.Request>, tables: seq<Table>,
                                         start: int, clock: int)
    requires r.interval > 0 && r.burst >= 0 && Runs(r, window, cap, qs, tables)
    requires AllUsable(r, tables[0], start) && InOrder(qs, start) && Until(qs, clock) && start <= clock
    ensures AllUsable(r, tables[|qs|], clock)
    decreases |qs|
  {
    if qs != [] {
      RunsRest(r, window, cap, qs, tables);
      var next := if qs[0].Access? then qs[0].now else start;
      StaysUsableIn(r, window, cap, tables[0], qs[0], tables[1], start, next);
      if qs[0].Sweep? {
        InOrderEarlier(qs[1..], start, if qs[0].now < start then start else qs[0].now);
      }
      ReachedUsable(r, window, cap, qs[1..], tables[1..], next, clock);
    }
  }

  // In any stretch of any run from the start, at any capacity
  lemma GrantsAtAnyCapacity(r: Rate, window: int, cap: int, earlier: seq<Sweeping.Request>, qs: seq<Sweeping.Request>,
                            tables: seq<Table>, key: Key, start: int, clock: int, end: int)
    requires r.interval > 0 && r.burst >= 0 && Runs(r, window, cap, earlier + qs, tables) && tables[0] == EMPTY
    requires InOrder(earlier, start) && Until(earlier, clock) && start <= clock
    requires InOrder(qs, clock) && Until(qs, end) && clock <= end
    ensures var reached := tables[|earlier|..];
            CountFor(qs, RunAnswers(r, qs, reached), key) as real
            <= Bursts(r, Forgettings(VisitsIn(qs, reached, key)) + 1) + Elapsed(r, clock, end)
  {
    var past, reached := tables[..|earlier| + 1], tables[|earlier|..];
    RunsApart(r, window, cap, earlier, qs, tables);
    ReachedUsable(r, window, cap, earlier, past, start, clock);
    RunGrants(r, window, cap, qs, reached, key, clock, end);
  }

  lemma RunsApart(r: Rate, window: int, cap: int, xs: seq<Sweeping.Request>, ys: seq<Sweeping.Request>, tables: seq<Table>)
    requires r.interval > 0 && Runs(r, window, cap, xs + ys, tables)
    ensures Runs(r, window, cap, xs, tables[..|xs| + 1]) && Runs(r, window, cap, ys, tables[|xs|..])
  {
    forall i | 0 <= i < |xs| ensures Stepped(r, window, cap, tables[i], xs[i], tables[i + 1]) {
      assert (xs + ys)[i] == xs[i];
    }
    forall i | 0 <= i < |ys| ensures Stepped(r, window, cap, tables[|xs| + i], ys[i], tables[|xs| + i + 1]) {
      assert (xs + ys)[|xs| + i] == ys[i];
    }
  }

  // ---- How many visitors a table can serve

  function KeysOf(qs: seq<Sweeping.Request>): set<Key> {
    set q | q in qs && q.Access? :: q.key
  }

  // A table holds at least one visitor.
  function Room(cap: int): nat {
    if cap < 1 then 1 else cap
  }

  // With no more visitors than room, nobody is evicted: the run is that of the unbounded table.
  lemma {:induction false} RoomForAll(r: Rate, window: int, cap: int, qs: seq<Sweeping.Request>, tables: seq<Table>, keys: set<Key>)
    requires r.interval > 0 && Runs(r, window, cap, qs, tables) && |keys| <= Room(cap)
    requires tables[0].seen.Keys <= keys && KeysOf(qs) <= keys
    ensures RunAnswers(r, qs, tables) == Answers(r, window, tables[0], qs)
    decreases |qs|
  {
    if qs != [] {
      RunsRest(r, window, cap, qs, tables);
      assert KeysOf(qs[1..]) <= KeysOf(qs);
      match qs[0]
      case Access(key, now) =>
        assert qs[0] in qs && key in keys;
        if key !in tables[0].seen {
          Lru.Smaller(tables[0].seen.Keys, keys, key);
          assert |tables[0].seen| == |tables[0].seen.Keys|;
        }
        ServeMeansServed(r, cap, tables[0], tables[1], key, now);
        RoomForAll(r, window, cap, qs[1..], tables[1..], keys);
      case Sweep(now) => RoomForAll(r, window, cap, qs[1..], tables[1..], keys);
    }
  }

  // Whatever n visitors do, each gets at most the limit at once and one request per interval.
  ghost predicate KeepsTheRate(limit: int, window: int, cap: int, n: nat)
    requires 0 < limit
  {
    forall qs, tables, key, clock, end |
      Runs(RateOf(limit, window), window, cap, qs, tables) && tables[0] == EMPTY
      && |KeysOf(qs)| <= n && InOrder(qs, clock) && Until(qs, end) && clock <= end ::
      WithinRate(limit, window, qs, tables, key, clock, end)
  }

  ghost predicate WithinRate(limit: int, window: int, qs: seq<Sweeping.Request>, tables: seq<Table>, key: Key, clock: int, end: int)
    requires 0 < limit && |tables| == |qs| + 1
  {
    var r := RateOf(limit, window);
    CountFor(qs, RunAnswers(r, qs, tables), key) as real <= limit as real + Elapsed(r, clock, end)
  }

  lemma RoomKeepsTheRate(limit: int, window: int, cap: int, n: nat)
    requires 0 < limit <= window && n <= Room(cap)
    ensures KeepsTheRate(limit, window, cap, n)
  {
    var r := RateOf(limit, window);
    forall qs, tables, key, clock, end |
      Runs(r, window, cap, qs, tables) && tables[0] == EMPTY
      && |KeysOf(qs)| <= n && InOrder(qs, clock) && Until(qs, end) && clock <= end
      ensures WithinRate(limit, window, qs, tables, key, clock, end)
    {
      RoomForAll(r, window, cap, qs, tables, KeysOf(qs));
      TableGrants(limit, window, qs, key, clock, end);
    }
  }

  // ---- One visitor too many

  function Visitor(i: nat): Key {
    Key(seq(i, _ => 'x'))
  }

  lemma Visitors(i: nat, j: nat)
    ensures Visitor(i) == Visitor(j) <==> i == j
  {
    assert |Visitor(i).text| == i && |Visitor(j).text| == j;
  }

  // Visitors from i up to n, one access each
  function Others(i: nat, n: nat, now: int): seq<Sweeping.Request>
    decreases n - i
  {
    if i > n then [] else [Access(Visitor(i), now)] + Others(i + 1, n, now)
  }

  // One visitor uses up its limit, fills the rest of the table and one place more with others, and
  // uses up its limit again.
  function Thrash(limit: nat, cap: int, now: int): seq<Sweeping.Request> {
    Burst(Visitor(0), 0, limit) + (Others(1, Room(cap), now) + Burst(Visitor(0), now, limit))
  }

  // Where somebody leaves the table, k does if it is among the oldest.
  ghost predicate Prefers(k: Key, tables: seq<Table>) {
    forall i :: 0 <= i < |tables| - 1 && Oldest(tables[i].seen, k) && !(tables[i].seen.Keys <= tables[i + 1].seen.Keys) ==>
                  k !in tables[i + 1].seen
  }

  lemma CountFirst(r: Rate, qs: seq<Sweeping.Request>, tables: seq<Table>, key: Key)
    requires r.interval > 0 && |tables| == |qs| + 1 && qs != [] && qs[0].Access?
    ensures CountFor(qs, RunAnswers(r, qs, tables), key) ==
            (if qs[0].key == key && Take(r, BucketOf(r, tables[0].buckets, key), qs[0].now).0 then 1 else 0)
            + CountFor(qs[1..], RunAnswers(r, qs[1..], tables[1..]), key)
  {
    assert RunAnswers(r, qs, tables)[1..] == RunAnswers(r, qs[1..], tables[1..]);
  }

  // Accesses at one instant are let through while there are tokens.
  lemma {:induction false} BurstGranted(r: Rate, window: int, cap: int, key: Key, now: int, n: nat,
                                        rest: seq<Sweeping.Request>, tables: seq<Table>)
    requires r.interval > 0 && r.burst >= n && r.burst > 0 && Runs(r, window, cap, Burst(key, now, n) + rest, tables)
    requires Refilled(r, BucketOf(r, tables[0].buckets, key), now) >= n as real
    ensures |Burst(key, now, n)| == n && Runs(r, window, cap, rest, tables[n..])
    ensures var qs := Burst(key, now, n) + rest;
            CountFor(qs, RunAnswers(r, qs, tables), key) == n + CountFor(rest, RunAnswers(r, rest, tables[n..]), key)
    ensures tables[0].seen.Keys <= {key} && n > 0 ==> tables[n].seen == map[key := now]
    decreases n
  {
    var qs := Burst(key, now, n) + rest;
    if n == 0 {
      assert qs == rest && tables[0..] == tables;
    } else {
      assert qs[0] == Access(key, now) && qs[1..] == Burst(key, now, n - 1) + rest;
      RunsRest(r, window, cap, qs, tables);
      TakeAtOnce(r, BucketOf(r, tables[0].buckets, key), now);
      assert tables[0].seen.Keys <= {key} ==> tables[0].seen == map[] || key in tables[0].seen;
      assert tables[0].seen.Keys <= {key} ==> tables[1].seen == map[key := now];
      BurstGranted(r, window, cap, key, now, n - 1, rest, tables[1..]);
      assert tables[1..][n - 1..] == tables[n..];
      CountFirst(r, qs, tables, key);
    }
  }

  function FirstVisitors(n: nat): set<Key> {
    if n == 0 then {} else FirstVisitors(n - 1) + {Visitor(n - 1)}
  }

  lemma {:induction false} CountVisitors(n: nat)
    ensures |FirstVisitors(n)| == n && forall j: nat :: Visitor(j) in FirstVisitors(n) <==> j < n
  {
    if n > 0 {
      CountVisitors(n - 1);
      forall j: nat ensures Visitor(j) in FirstVisitors(n) <==> j < n {
        Visitors(j, n - 1);
      }
    }
  }

  // The first i visitors are there, the very first for longest.
  ghost predicate Filled(seen: Times, i: nat, now: int) {
    && seen.Keys == FirstVisitors(i) && Visitor(0) in seen && seen[Visitor(0)] == 0
    && forall k :: k in seen && k != Visitor(0) ==> seen[k] == now
  }

  // The access of one visitor too many evicts the first.
  lemma OneTooMany(cap: int, before: Times, now: int, after: Times)
    requires Filled(before, Room(cap), now) && now >= 0 && Touched(cap, before, Visitor(Room(cap)), now, after)
    requires now > 0 || (!(before.Keys <= after.Keys) ==> Visitor(0) !in after)
    ensures Visitor(0) !in after
  {
    CountVisitors(Room(cap));
    Visitors(0, Room(cap));
    assert |before| == |before.Keys|;
    var victim :| Oldest(before, victim) && after == (before - {victim})[Visitor(Room(cap)) := now];
    assert victim in before && victim !in after;
  }

  lemma OneMoreFits(cap: int, before: Times, i: nat, now: int, after: Times)
    requires 1 <= i < Room(cap) && Filled(before, i, now) && Touched(cap, before, Visitor(i), now, after)
    ensures Filled(after, i + 1, now)
  {
    CountVisitors(i);
    Visitors(0, i);
    assert |before| == |before.Keys|;
  }

  lemma {:induction false} OthersEvict(r: Rate, window: int, cap: int, i: nat, now: int, tables: seq<Table>)
    requires r.interval > 0 && 1 <= i <= Room(cap) && now >= 0
    requires Runs(r, window, cap, Others(i, Room(cap), now), tables) && Filled(tables[0].seen, i, now)
    requires now > 0 || Prefers(Visitor(0), tables)
    ensures Visitor(0) !in tables[|tables| - 1].buckets
    decreases Room(cap) - i
  {
    var qs, rest := Others(i, Room(cap), now), Others(i + 1, Room(cap), now);
    assert qs[0] == Access(Visitor(i), now) && qs[1..] == rest;
    RunsRest(r, window, cap, qs, tables);
    if i == Room(cap) {
      assert rest == [];
      LastEvicts(r, window, cap, now, tables);
    } else {
      OneMoreFits(cap, tables[0].seen, i, now, tables[1].seen);
      OthersEvict(r, window, cap, i + 1, now, tables[1..]);
    }
  }

  // Other visitors' accesses do not count.
  lemma {:induction false} OthersUncounted(r: Rate, i: nat, n: nat, now: int, rest: seq<Sweeping.Request>, tables: seq<Table>)
    requires r.interval > 0 && 1 <= i && |tables| == |Others(i, n, now) + rest| + 1
    ensures var qs := Others(i, n, now) + rest;
            CountFor(qs, RunAnswers(r, qs, tables), Visitor(0)) ==
            CountFor(rest, RunAnswers(r, rest, tables[|Others(i, n, now)|..]), Visitor(0))
    decreases n - i
  {
    var qs := Others(i, n, now) + rest;
    if i > n {
      assert qs == rest && tables[0..] == tables;
    } else {
      var others := Others(i + 1, n, now);
      assert qs[0] == Access(Visitor(i), now) && qs[1..] == others + rest;
      assert tables[1..][|others|..] == tables[|others| + 1..];
      Visitors(0, i);
      CountFirst(r, qs, tables, Visitor(0));
      OthersUncounted(r, i + 1, n, now, rest, tables[1..]);
    }
  }

  lemma LastEvicts(r: Rate, window: int, cap: int, now: int, tables: seq<Table>)
    requires r.interval > 0 && |tables| > 1 && now >= 0 && Filled(tables[0].seen, Room(cap), now)
    requires Stepped(r, window, cap, tables[0], Access(Visitor(Room(cap)), now), tables[1])
    requires now > 0 || Prefers(Visitor(0), tables)
    ensures Visitor(0) !in tables[1].buckets
  {
    FirstIsOldest(tables[0].seen, Room(cap), now);
    OneTooMany(cap, tables[0].seen, now, tables[1].seen);
  }

  lemma FirstIsOldest(seen: Times, i: nat, now: int)
    requires Filled(seen, i, now) && now >= 0
    ensures Oldest(seen, Visitor(0))
  {
  }

  // The first visitor gets its limit twice.
  lemma ThrashGrants(limit: int, window: int, cap: int, now: int, tables: seq<Table>)
    requires 0 < limit <= window && now >= 0
    requires Runs(RateOf(limit, window), window, cap, Thrash(limit, cap, now), tables) && tables[0] == EMPTY
    requires now > 0 || Prefers(Visitor(0), tables)
    ensures var qs := Thrash(limit, cap, now);
            CountFor(qs, RunAnswers(RateOf(limit, window), qs, tables), Visitor(0)) == 2 * limit
  {
    var r, k := RateOf(limit, window), Visitor(0);
    var again := Burst(k, now, limit);
    Share(0, 0, r.interval);
    BurstGranted(r, window, cap, k, 0, limit, Others(1, Room(cap), now) + again, tables);
    var filling := tables[limit..];
    assert FirstVisitors(0) == {} && FirstVisitors(1) == {k};
    assert Filled(filling[0].seen, 1, now);
    var others := Others(1, Room(cap), now);
    RunsApart(r, window, cap, others, again, filling);
    OthersEvict(r, window, cap, 1, now, filling[..|others| + 1]);
    OthersUncounted(r, 1, Room(cap), now, again, filling);
    FullAgain(r, window, cap, now, limit, filling[|others|..]);
  }

  lemma FullAgain(r: Rate, window: int, cap: int, now: int, limit: nat, tables: seq<Table>)
    requires r.interval > 0 && r.burst == limit > 0 && now >= 0
    requires Runs(r, window, cap, Burst(Visitor(0), now, limit), tables) && Visitor(0) !in tables[0].buckets
    ensures var again := Burst(Visitor(0), now, limit);
            CountFor(again, RunAnswers(r, again, tables), Visitor(0)) == limit
  {
    var again := Burst(Visitor(0), now, limit);
    assert again + [] == again;
    Share(0, now, r.interval);
    BurstGranted(r, window, cap, Visitor(0), now, limit, [], tables);
  }

  // ---- Such a run exists

  lemma {:induction false} SomeOldest(times: Times) returns (victim: Key)
    requires times != map[]
    ensures Oldest(times, victim)
    decreases |times|
  {
    var k :| k in times;
    var others := times - {k};
    if others == map[] {
      victim := k;
      assert forall j :: j in times && j != k ==> j in others;
    } else {
      var v := SomeOldest(others);
      victim := if times[k] <= times[v] then k else v;
      assert forall j :: j in times ==> j == k || j in others;
    }
  }

  lemma SomeStep(r: Rate, window: int, cap: int, before: Table, q: Sweeping.Request, prefer: Key) returns (after: Table)
    requires r.interval > 0 && before.seen.Keys == before.buckets.Keys
    ensures Stepped(r, window, cap, before, q, after) && after.seen.Keys == after.buckets.Keys
    ensures Prefers(prefer, [before, after])
  {
    match q
    case Sweep(now) => after := Swept(window, before, now);
    case Access(key, now) =>
      if key in before.seen || before.seen == map[] || |before.seen| < cap {
        after := Served(r, before, key, now).1;
      } else {
        var victim := SomeOldest(before.seen);
        if Oldest(before.seen, prefer) {
          victim := prefer;
        }
        var b := Take(r, BucketOf(r, before.buckets, key), now).1;
        after := Table((before.seen - {victim})[key := now], (before.buckets - {victim})[key := b]);
      }
  }

  // Every sequence of requests has a run.
  lemma {:induction false} SomeRun(r: Rate, window: int, cap: int, t: Table, qs: seq<Sweeping.Request>, prefer: Key)
    returns (tables: seq<Table>)
    requires r.interval > 0 && t.seen.Keys == t.buckets.Keys
    ensures Runs(r, window, cap, qs, tables) && tables[0] == t && Prefers(prefer, tables)
    decreases |qs|
  {
    if qs == [] {
      tables := [t];
    } else {
      var next := SomeStep(r, window, cap, t, qs[0], prefer);
      var rest := SomeRun(r, window, cap, next, qs[1..], prefer);
      tables := [t] + rest;
      assert tables[0] == [t, next][0] && tables[1] == [t, next][1];
    }
  }

  lemma {:induction false} KeysOfOthers(i: nat, n: nat, now: int)
    requires 1 <= i
    ensures KeysOf(Others(i, n, now)) <= FirstVisitors(n + 1)
    ensures forall q :: q in Others(i, n, now) ==> q.Access? && q.now == now
    decreases n - i
  {
    if i <= n {
      KeysOfOthers(i + 1, n, now);
      CountVisitors(n + 1);
    }
  }

  lemma {:induction false} KeysOfBurst(key: Key, now: int, n: nat)
    ensures KeysOf(Burst(key, now, n)) <= {key} && forall q :: q in Burst(key, now, n) ==> q.Access? && q.now == now
    decreases n
  {
    if n > 0 {
      KeysOfBurst(key, now, n - 1);
    }
  }

  lemma {:induction false} AtOneTime(qs: seq<Sweeping.Request>, now: int, clock: int)
    requires clock <= now && forall q :: q in qs ==> q.Access? && q.now == now
    ensures InOrder(qs, clock)
    decreases |qs|
  {
    if qs != [] {
      AtOneTime(qs[1..], now, now);
    }
  }

  lemma ThrashIsInOrder(limit: nat, cap: int, now: int)
    requires now >= 0
    ensures |KeysOf(Thrash(limit, cap, now))| <= Room(cap) + 1
    ensures InOrder(Thrash(limit, cap, now), 0) && Until(Thrash(limit, cap, now), now)
  {
    var rest := Others(1, Room(cap), now) + Burst(Visitor(0), now, limit);
    KeysOfOthers(1, Room(cap), now);
    KeysOfBurst(Visitor(0), now, limit);
    KeysOfBurst(Visitor(0), 0, limit);
    AtOneTime(rest, now, 0);
    BurstInOrder(Visitor(0), 0, limit, rest, 0);
    CountVisitors(Room(cap) + 1);
    assert KeysOf(Thrash(limit, cap, now)) <= {Visitor(0)} + FirstVisitors(Room(cap) + 1);
    Lru.Within(KeysOf(Thrash(limit, cap, now)), FirstVisitors(Room(cap) + 1));
  }

  // A table keeps everybody to the rate exactly as long as all of them have room in it.
  lemma CapacityDecides(limit: int, window: int, cap: int, n: nat)
    requires 0 < limit <= window
    ensures KeepsTheRate(limit, window, cap, n) <==> n <= Room(cap)
  {
    if n <= Room(cap) {
      RoomKeepsTheRate(limit, window, cap, n);
    } else {
      var r, qs := RateOf(limit, window), Thrash(limit, cap, 0);
      var tables := SomeRun(r, window, cap, EMPTY, qs, Visitor(0));
      ThrashGrants(limit, window, cap, 0, tables);
      ThrashIsInOrder(limit, cap, 0);
      Share(0, 0, r.interval);
      assert !WithinRate(limit, window, qs, tables, Visitor(0), 0, 0);
    }
  }

  // Which of several oldest visitors goes makes no difference where the first is the only one: a
  // nanosecond later it has its limit again, whatever the table does.
  lemma AlwaysEvicted(limit: int, window: int, cap: int, tables: seq<Table>)
    requires 0 < limit <= window && limit * RateOf(limit, window).interval > 1
    requires Runs(RateOf(limit, window), window, cap, Thrash(limit, cap, 1), tables) && tables[0] == EMPTY
    ensures !WithinRate(limit, window, Thrash(limit, cap, 1), tables, Visitor(0), 0, 1)
  {
    var r := RateOf(limit, window);
    ThrashGrants(limit, window, cap, 1, tables);
    var share := 1 as real / r.interval as real;
    assert share * r.interval as real == 1.0;
    assert limit as real * r.interval as real == (limit * r.interval) as real > 1.0;
    assert limit as real > share;
  }
}
