/** The limiter class serving a whole sequence of requests: its runs are the runs of tables. */
module Service {
  import opened TokenBucket
  import opened RateLimiter
  import opened Sweeping
  import opened Evictions
  import opened Refusals

  ghost function TableOf(l: RateLimiter): (t: Table)
    reads l, l.visitors.Values
    ensures t.seen == l.seen && t.buckets.Keys == l.visitors.Keys
    ensures forall k :: k in l.visitors ==> t.buckets[k] == l.visitors[k].Value()
  {
    Table(l.seen, map k | k in l.visitors :: l.visitors[k].Value())
  }

  lemma {:induction false} AnswersGrow(r: Rate, qs: seq<Request>, tables: seq<Table>, q: Request, t: Table)
    requires r.interval > 0 && |tables| == |qs| + 1
    ensures RunAnswers(r, qs + [q], tables + [t]) ==
            RunAnswers(r, qs, tables) + (if q.Access? then [Take(r, BucketOf(r, tables[|qs|].buckets, q.key), q.now).0] else [])
    decreases |qs|
  {
    if qs == [] {
      assert ([q])[1..] == [] && (tables + [t])[1..] == [t];
      assert qs + [q] == [q];
    } else {
      assert (qs + [q])[1..] == qs[1..] + [q] && (tables + [t])[1..] == tables[1..] + [t];
      AnswersGrow(r, qs[1..], tables[1..], q, t);
    }
  }

  lemma RunsGrow(r: Rate, window: int, cap: int, qs: seq<Request>, tables: seq<Table>, q: Request, t: Table)
    requires r.interval > 0 && Runs(r, window, cap, qs, tables) && Runs(r, window, cap, [q], [tables[|qs|], t])
    ensures Runs(r, window, cap, qs + [q], tables + [t])
  {
    var last := [tables[|qs|], t];
    assert Stepped(r, window, cap, last[0], [q][0], last[1]);
  }

  lemma OneServed(r: Rate, window: int, cap: int, before: Table, key: Key, now: int, after: Table)
    requires r.interval > 0 && Serving(r, cap, before, key, now, after)
    ensures Runs(r, window, cap, [Access(key, now)], [before, after])
  {
  }

  lemma OneSwept(r: Rate, window: int, cap: int, before: Table, now: int, after: Table)
    requires r.interval > 0 && Cleaned(window, before, after, now)
    ensures Runs(r, window, cap, [Sweep(now)], [before, after])
  {
    CleanupMeansSwept(window, before, after, now);
  }

  // RateLimiter.Serve, read on tables
  method ServeStep(l: RateLimiter, key: Key, now: int) returns (answer: bool, ghost before: Table, ghost after: Table)
    requires l.Valid() && Owned(l.rate, l.visitors)
    modifies l`visitors, l`entries, l`seen, l.minHeap, l.minHeap.held`index, l.minHeap.held`lastSeen
    modifies l.visitors.Values`tokens, l.visitors.Values`last
    ensures l.Valid() && Owned(l.rate, l.visitors) && Kept(old(l.visitors), l.visitors, {key})
    ensures forall e :: e in l.minHeap.held ==> e in old(l.minHeap.held) || fresh(e)
    ensures key in l.visitors && (key !in old(l.visitors) ==> fresh(l.visitors[key]))
    ensures key in old(l.visitors) ==> l.visitors[key] == old(l.visitors)[key]
    ensures before == old(TableOf(l)) && after == TableOf(l)
    ensures Runs(l.rate, l.window, l.maxVisitors, [Access(key, now)], [before, after])
    ensures answer == Take(l.rate, BucketOf(l.rate, before.buckets, key), now).0
  {
    before := TableOf(l);
    answer := l.Serve(key, now);
    after := TableOf(l);
    forall k | k in after.buckets && k != key ensures k in before.buckets && after.buckets[k] == before.buckets[k] {
      assert k in l.visitors && l.visitors[k].Value() == old(l.visitors[k].Value());
    }
    OneServed(l.rate, l.window, l.maxVisitors, before, key, now, after);
  }

  // RateLimiter.Cleanup, read on tables
  method SweepStep(l: RateLimiter, now: int) returns (ghost before: Table, ghost after: Table)
    requires l.Valid() && Owned(l.rate, l.visitors)
    modifies l`visitors, l`entries, l`seen, l.minHeap, l.minHeap.held`index
    ensures l.Valid() && Owned(l.rate, l.visitors) && Kept(old(l.visitors), l.visitors, {})
    ensures l.minHeap.held <= old(l.minHeap.held)
    ensures before == old(TableOf(l)) && after == TableOf(l)
    ensures Cleaned(l.window, before, after, now)
  {
    before := TableOf(l);
    l.Cleanup(now);
    after := TableOf(l);
  }

  method Step(l: RateLimiter, q: Request) returns (answer: seq<bool>, ghost before: Table, ghost after: Table)
    requires l.Valid() && Owned(l.rate, l.visitors)
    modifies l`visitors, l`entries, l`seen, l.minHeap, l.minHeap.held`index, l.minHeap.held`lastSeen
    modifies l.visitors.Values`tokens, l.visitors.Values`last
    ensures l.Valid() && Owned(l.rate, l.visitors)
    ensures forall e :: e in l.minHeap.held ==> e in old(l.minHeap.held) || fresh(e)
    ensures forall k :: k in l.visitors ==> (k in old(l.visitors) && l.visitors[k] == old(l.visitors)[k]) || fresh(l.visitors[k])
    ensures before == old(TableOf(l)) && after == TableOf(l) && Runs(l.rate, l.window, l.maxVisitors, [q], [before, after])
    ensures answer == if q.Access? then [Take(l.rate, BucketOf(l.rate, before.buckets, q.key), q.now).0] else []
  {
    match q {
      case Access(key, now) =>
        var ok;
        ok, before, after := ServeStep(l, key, now);
        answer := [ok];
      case Sweep(now) =>
        before, after := SweepStep(l, now);
        OneSwept(l.rate, l.window, l.maxVisitors, before, now, after);
        answer := [];
    }
  }

  // Accesses are let through exactly when nothing stands against it.
  ghost predicate AnsweredExactly(r: Rate, qs: seq<Request>, tables: seq<Table>, answers: seq<bool>)
    requires r.interval > 0
  {
    var oks := Spread(qs, answers);
    forall i: nat :: i < |qs| && qs[i].Access? ==> (oks[i] <==> Allowed(r, qs, tables, oks, i))
  }

  lemma ExactlyAnswered(r: Rate, window: int, cap: int, qs: seq<Request>, tables: seq<Table>)
    requires r.interval > 0 && Runs(r, window, cap, qs, tables) && tables[0] == EMPTY && InTime(qs)
    ensures AnsweredExactly(r, qs, tables, RunAnswers(r, qs, tables))
  {
    forall i: nat | i < |qs| && qs[i].Access?
      ensures var oks := Spread(qs, RunAnswers(r, qs, tables)); oks[i] <==> Allowed(r, qs, tables, oks, i)
    {
      LetThroughExactly(r, window, cap, qs, tables, i);
    }
  }

  // A limiter made for the occasion answers as a run of tables at its capacity; with room for all the
  // visitors, as the table that evicts nobody.
  method AnswerAll(limit: int, window: int, maxVisitors: int, qs: seq<Request>) returns (answers: seq<bool>, ghost tables: seq<Table>)
    requires limit != 0
    ensures Runs(RateOf(limit, window), window, maxVisitors, qs, tables) && tables[0] == EMPTY
    ensures answers == RunAnswers(RateOf(limit, window), qs, tables)
    ensures InTime(qs) ==> AnsweredExactly(RateOf(limit, window), qs, tables, answers)
    ensures |KeysOf(qs)| <= Room(maxVisitors) ==> answers == Answers(RateOf(limit, window), window, EMPTY, qs)
  {
    var l := new RateLimiter(limit, window, maxVisitors);
    answers, tables := [], [TableOf(l)];
    for i := 0 to |qs|
      invariant l.Valid() && Owned(l.rate, l.visitors) && fresh(l.minHeap)
      invariant forall e :: e in l.minHeap.held ==> fresh(e)
      invariant forall k :: k in l.visitors ==> fresh(l.visitors[k])
      invariant |tables| == i + 1 && tables[0] == EMPTY && tables[i] == TableOf(l)
      invariant Runs(l.rate, window, maxVisitors, qs[..i], tables) && answers == RunAnswers(l.rate, qs[..i], tables)
    {
      var answer, before, after := Step(l, qs[i]);
      assert qs[..i + 1] == qs[..i] + [qs[i]];
      RunsGrow(l.rate, window, maxVisitors, qs[..i], tables, qs[i], after);
      AnswersGrow(l.rate, qs[..i], tables, qs[i], after);
      answers, tables := answers + answer, tables + [after];
    }
    assert qs[..|qs|] == qs;
    if InTime(qs) {
      ExactlyAnswered(RateOf(limit, window), window, maxVisitors, qs, tables);
    }
    if |KeysOf(qs)| <= Room(maxVisitors) {
      RoomForAll(l.rate, window, maxVisitors, qs, tables, KeysOf(qs));
    }
  }
}
