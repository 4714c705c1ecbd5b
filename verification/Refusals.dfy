/** Which accesses are let through, exactly: a condition on clock readings and earlier answers alone. */
module Refusals {
  import opened TokenBucket
  import opened Sweeping
  import opened Grants
  import opened Evictions

  predicate AccessBy(q: Sweeping.Request, key: Key) {
    q.Access? && q.key == key
  }

  // One answer for each request, no for a sweep
  function Spread(qs: seq<Sweeping.Request>, answers: seq<bool>): (oks: seq<bool>)
    ensures |oks| == |qs|
    decreases |qs|
  {
    if qs == [] then []
    else if qs[0].Sweep? || answers == [] then [false] + Spread(qs[1..], answers)
    else [answers[0]] + Spread(qs[1..], answers[1..])
  }

  lemma {:induction false} SpreadAnswers(r: Rate, qs: seq<Sweeping.Request>, tables: seq<Table>, i: nat)
    requires r.interval > 0 && |tables| == |qs| + 1 && i < |qs|
    ensures Spread(qs, RunAnswers(r, qs, tables))[i] <==>
            qs[i].Access? && Take(r, BucketOf(r, tables[i].buckets, qs[i].key), qs[i].now).0
    decreases |qs|
  {
    var answers := RunAnswers(r, qs, tables);
    if qs[0].Access? {
      assert answers[1..] == RunAnswers(r, qs[1..], tables[1..]);
    }
    if i > 0 {
      SpreadAnswers(r, qs[1..], tables[1..], i - 1);
    }
  }

  // What is let through to key from request j on, before request i
  function GrantsTo(qs: seq<Sweeping.Request>, oks: seq<bool>, key: Key, j: nat, i: nat): nat
    requires j <= i <= |qs| == |oks|
  {
    if i == j then 0 else GrantsTo(qs, oks, key, j, i - 1) + (if AccessBy(qs[i - 1], key) && oks[i - 1] then 1 else 0)
  }

  // The visitor of request j is in the table from then on until request i.
  ghost predicate Stays(tables: seq<Table>, key: Key, j: nat, i: nat) {
    i < |tables| && forall m :: j < m <= i ==> key in tables[m].buckets
  }

  ghost predicate InTime(qs: seq<Sweeping.Request>) {
    forall a, b :: 0 <= a < b < |qs| && qs[a].Access? && qs[b].Access? ==> qs[a].now <= qs[b].now
  }

  lemma {:induction false} InOrderIsInTime(qs: seq<Sweeping.Request>, clock: int)
    requires InOrder(qs, clock)
    ensures InTime(qs) && forall q :: q in qs && q.Access? ==> clock <= q.now
    decreases |qs|
  {
    if qs != [] {
      var next := if qs[0].Access? || qs[0].now >= clock then qs[0].now else clock;
      InOrderIsInTime(qs[1..], next);
      assert forall q :: q in qs ==> q == qs[0] || q in qs[1..];
    }
  }

  // The answers and tables of one run
  ghost predicate Answering(r: Rate, window: int, cap: int, qs: seq<Sweeping.Request>, tables: seq<Table>, oks: seq<bool>)
    requires r.interval > 0
  {
    && Runs(r, window, cap, qs, tables) && tables[0] == EMPTY && InTime(qs) && |oks| == |qs|
    && forall i :: 0 <= i < |qs| ==>
                     (oks[i] <==> qs[i].Access? && Take(r, BucketOf(r, tables[i].buckets, qs[i].key), qs[i].now).0)
  }

  // What could still be let through at now if the bucket had been full at request j
  function Allowance(r: Rate, qs: seq<Sweeping.Request>, oks: seq<bool>, key: Key, j: nat, i: nat, now: int): real
    requires r.interval > 0 && j <= i <= |qs| == |oks| && j < |qs|
  {
    r.burst as real + Elapsed(r, qs[j].now, now) - GrantsTo(qs, oks, key, j, i) as real
  }

  ghost predicate Since(qs: seq<Sweeping.Request>, tables: seq<Table>, key: Key, j: nat, i: nat) {
    j < i && j < |qs| && AccessBy(qs[j], key) && Stays(tables, key, j, i)
  }

  // The tokens at hand before request i are a full bucket, or the least allowance since the visitor came.
  ghost predicate Level(r: Rate, qs: seq<Sweeping.Request>, tables: seq<Table>, oks: seq<bool>, key: Key, i: nat, now: int)
    requires r.interval > 0 && i <= |qs| == |oks| && |tables| == |qs| + 1
  {
    var b := BucketOf(r, tables[i].buckets, key);
    var tokens := Refilled(r, b, now);
    && (key in tables[i].buckets ==> b.last <= now)
    && tokens <= r.burst as real
    && (forall j: nat :: Since(qs, tables, key, j, i) ==> tokens <= Allowance(r, qs, oks, key, j, i, now))
    && (tokens == r.burst as real || exists j: nat :: Since(qs, tables, key, j, i) && tokens == Allowance(r, qs, oks, key, j, i, now))
  }

  // While it is not full, a bucket gains what elapsed.
  lemma RefillsOn(r: Rate, b: Bucket, t: int, now: int)
    requires r.interval > 0 && b.last <= t <= now && Refilled(r, b, t) < r.burst as real
    ensures var more := Refilled(r, b, t) + Elapsed(r, t, now);
            Refilled(r, b, now) == if more > r.burst as real then r.burst as real else more
  {
    Parts(r, t - b.last, now - t);
  }

  // One access: what is at hand before it, less what it takes, and what elapses
  lemma AfterAccess(r: Rate, b: Bucket, t: int, now: int)
    requires r.interval > 0 && r.burst >= 1 && t <= now && (b.last <= t || b == Full(r)) && Refilled(r, b, t) <= r.burst as real
    ensures var (ok, next) := Take(r, b, t);
            var more := Refilled(r, b, t) - (if ok then 1.0 else 0.0) + Elapsed(r, t, now);
            && (ok <==> Refilled(r, b, t) >= 1.0)
            && next.last <= now
            && Refilled(r, next, now) == if more > r.burst as real then r.burst as real else more
  {
    Share(0, now - t, r.interval);
    FullStays(r, t);
    if Refilled(r, b, t) < 1.0 {
      RefillsOn(r, b, t, now);
    }
  }

  lemma FullStays(r: Rate, t: int)
    requires r.interval > 0 && r.burst >= 0
    ensures Refilled(r, Full(r), t) == r.burst as real
  {
    Share(0, if t < 0 then 0 else t, r.interval);
  }

  lemma NoTime(r: Rate, qs: seq<Sweeping.Request>, oks: seq<bool>, key: Key, i: nat)
    requires r.interval > 0 && i < |qs| == |oks| && qs[i].Access?
    ensures Allowance(r, qs, oks, key, i, i, qs[i].now) == r.burst as real
  {
    assert 0 as real / r.interval as real == 0.0;
  }

  lemma AllowanceLater(r: Rate, qs: seq<Sweeping.Request>, oks: seq<bool>, key: Key, j: nat, i: nat, now: int)
    requires r.interval > 0 && j <= i < |qs| == |oks| && AccessBy(qs[i], key) && qs[j].Access?
    ensures Allowance(r, qs, oks, key, j, i + 1, now) ==
            Allowance(r, qs, oks, key, j, i, qs[i].now) - (if oks[i] then 1.0 else 0.0) + Elapsed(r, qs[i].now, now)
  {
    Parts(r, qs[i].now - qs[j].now, now - qs[i].now);
  }

  lemma LevelAfterAccess(r: Rate, window: int, cap: int, qs: seq<Sweeping.Request>, tables: seq<Table>, oks: seq<bool>,
                         key: Key, i: nat, now: int)
    requires r.interval > 0 && r.burst >= 1 && Answering(r, window, cap, qs, tables, oks)
    requires i < |qs| && AccessBy(qs[i], key) && qs[i].now <= now && Level(r, qs, tables, oks, key, i, qs[i].now)
    ensures Level(r, qs, tables, oks, key, i + 1, now)
  {
    var t, n := qs[i].now, i + 1;
    var b := BucketOf(r, tables[i].buckets, key);
    assert Stepped(r, window, cap, tables[i], qs[i], tables[n]);
    AfterAccess(r, b, t, now);
    assert Since(qs, tables, key, i, n);
    NoTime(r, qs, oks, key, i);
    var tokens := Refilled(r, BucketOf(r, tables[n].buckets, key), now);
    forall j: nat | Since(qs, tables, key, j, n)
      ensures tokens <= Allowance(r, qs, oks, key, j, n, now)
    {
      AllowanceLater(r, qs, oks, key, j, i, now);
      assert j == i || Since(qs, tables, key, j, i);
    }
    if tokens < r.burst as real {
      var j: nat := i;
      if Refilled(r, b, t) < r.burst as real {
        j :| Since(qs, tables, key, j, i) && Refilled(r, b, t) == Allowance(r, qs, oks, key, j, i, t);
      }
      AllowanceLater(r, qs, oks, key, j, i, now);
      assert Since(qs, tables, key, j, n) && tokens == Allowance(r, qs, oks, key, j, n, now);
    }
  }

  lemma OtherKeeps(r: Rate, qs: seq<Sweeping.Request>, tables: seq<Table>, oks: seq<bool>, key: Key, j: nat, i: nat, now: int)
    requires r.interval > 0 && i < |qs| == |oks| && |tables| == |qs| + 1 && !AccessBy(qs[i], key)
    requires key in tables[i].buckets && key in tables[i + 1].buckets
    ensures Since(qs, tables, key, j, i + 1) <==> Since(qs, tables, key, j, i)
    ensures Since(qs, tables, key, j, i) ==>
              Allowance(r, qs, oks, key, j, i + 1, now) == Allowance(r, qs, oks, key, j, i, now)
  {
  }

  lemma LevelAfterOther(r: Rate, window: int, cap: int, qs: seq<Sweeping.Request>, tables: seq<Table>, oks: seq<bool>,
                        key: Key, i: nat, now: int)
    requires r.interval > 0 && r.burst >= 1 && Answering(r, window, cap, qs, tables, oks)
    requires i < |qs| && !AccessBy(qs[i], key) && Level(r, qs, tables, oks, key, i, now)
    ensures Level(r, qs, tables, oks, key, i + 1, now)
  {
    var n := i + 1;
    assert Stepped(r, window, cap, tables[i], qs[i], tables[n]);
    FullStays(r, now);
    forall j: nat | Since(qs, tables, key, j, n)
      ensures key in tables[n].buckets && Since(qs, tables, key, j, i)
      ensures Allowance(r, qs, oks, key, j, n, now) == Allowance(r, qs, oks, key, j, i, now)
    {
      OtherKeeps(r, qs, tables, oks, key, j, i, now);
    }
    if key in tables[n].buckets {
      var tokens := Refilled(r, tables[i].buckets[key], now);
      if tokens < r.burst as real {
        var j: nat :| Since(qs, tables, key, j, i) && tokens == Allowance(r, qs, oks, key, j, i, now);
        OtherKeeps(r, qs, tables, oks, key, j, i, now);
        assert Since(qs, tables, key, j, n);
      }
    }
  }

  lemma LevelAtStart(r: Rate, qs: seq<Sweeping.Request>, tables: seq<Table>, oks: seq<bool>, key: Key, now: int)
    requires r.interval > 0 && r.burst >= 1 && |oks| == |qs| && |tables| == |qs| + 1 && tables[0] == EMPTY
    ensures Level(r, qs, tables, oks, key, 0, now)
  {
    FullStays(r, now);
  }

  lemma {:induction false} LevelAlways(r: Rate, window: int, cap: int, qs: seq<Sweeping.Request>, tables: seq<Table>,
                                       oks: seq<bool>, key: Key, i: nat, now: int)
    requires r.interval > 0 && r.burst >= 1 && Answering(r, window, cap, qs, tables, oks) && i <= |qs|
    requires forall m :: 0 <= m < i && qs[m].Access? ==> qs[m].now <= now
    ensures Level(r, qs, tables, oks, key, i, now)
  {
    if i == 0 {
      LevelAtStart(r, qs, tables, oks, key, now);
    } else if AccessBy(qs[i - 1], key) {
      LevelAlways(r, window, cap, qs, tables, oks, key, i - 1, qs[i - 1].now);
      LevelAfterAccess(r, window, cap, qs, tables, oks, key, i - 1, now);
    } else {
      LevelAlways(r, window, cap, qs, tables, oks, key, i - 1, now);
      LevelAfterOther(r, window, cap, qs, tables, oks, key, i - 1, now);
    }
  }

  // Nothing stands against letting request i through: since no earlier access of its visitor in this
  // stay, nor since this one, would more have been let through than burst and elapsed time allow.
  ghost predicate Allowed(r: Rate, qs: seq<Sweeping.Request>, tables: seq<Table>, oks: seq<bool>, i: nat)
    requires r.interval > 0 && i < |qs| == |oks| && qs[i].Access?
  {
    forall j: nat :: j <= i && AccessBy(qs[j], qs[i].key) && Stays(tables, qs[i].key, j, i) ==>
      GrantsTo(qs, oks, qs[i].key, j, i) as real + 1.0
      <= r.burst as real + (qs[i].now - qs[j].now) as real / r.interval as real
  }

  // In any run of the table at any capacity, an access is let through exactly if nothing stands against it.
  lemma LetThroughExactly(r: Rate, window: int, cap: int, qs: seq<Sweeping.Request>, tables: seq<Table>, i: nat)
    requires r.interval > 0 && Runs(r, window, cap, qs, tables) && tables[0] == EMPTY && InTime(qs)
    requires i < |qs| && qs[i].Access?
    ensures var oks := Spread(qs, RunAnswers(r, qs, tables));
            oks[i] <==> Allowed(r, qs, tables, oks, i)
  {
    var oks := Spread(qs, RunAnswers(r, qs, tables));
    forall m: nat | m < |qs|
      ensures oks[m] <==> qs[m].Access? && Take(r, BucketOf(r, tables[m].buckets, qs[m].key), qs[m].now).0
    {
      SpreadAnswers(r, qs, tables, m);
    }
    if r.burst >= 1 {
      LevelAlways(r, window, cap, qs, tables, oks, qs[i].key, i, qs[i].now);
      LevelDecides(r, qs, tables, oks, i);
    } else {
      NothingAllowed(r, qs, tables, oks, i);
    }
  }

  lemma NothingAllowed(r: Rate, qs: seq<Sweeping.Request>, tables: seq<Table>, oks: seq<bool>, i: nat)
    requires r.interval > 0 && r.burst < 1 && i < |qs| == |oks| && |tables| == |qs| + 1 && qs[i].Access?
    ensures !Allowed(r, qs, tables, oks, i)
  {
    var key := qs[i].key;
    NoTime(r, qs, oks, key, i);
    assert AccessBy(qs[i], key) && Stays(tables, key, i, i);
  }

  lemma LevelDecides(r: Rate, qs: seq<Sweeping.Request>, tables: seq<Table>, oks: seq<bool>, i: nat)
    requires r.interval > 0 && r.burst >= 1 && i < |qs| == |oks| && |tables| == |qs| + 1 && qs[i].Access?
    requires Level(r, qs, tables, oks, qs[i].key, i, qs[i].now)
    ensures Refilled(r, BucketOf(r, tables[i].buckets, qs[i].key), qs[i].now) >= 1.0 <==> Allowed(r, qs, tables, oks, i)
  {
    var key, now := qs[i].key, qs[i].now;
    var tokens := Refilled(r, BucketOf(r, tables[i].buckets, key), now);
    Share(0, 0, r.interval);
    forall j: nat | j <= i && AccessBy(qs[j], key) && Stays(tables, key, j, i)
      ensures j == i || Since(qs, tables, key, j, i)
    {
    }
    if tokens < 1.0 {
      var j: nat :| Since(qs, tables, key, j, i) && tokens == Allowance(r, qs, oks, key, j, i, now);
      assert AccessBy(qs[j], key) && Stays(tables, key, j, i);
    }
  }
}
