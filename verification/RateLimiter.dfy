/** The per-key rate limiter: a bounded map of visitors backed by an indexed min-heap. */
module RateLimiter {
  import opened TokenBucket
  import opened VisitorHeap
  import opened HeapOrder

  const DEFAULT_MAX_VISITORS := 10000

  // When each resident key was last seen
  type Times = map<Key, int>

  ghost predicate Oldest(times: Times, victim: Key) {
    victim in times && forall k :: k in times ==> times[victim] <= times[k]
  }

  // One access by key at time now, as a relation: which of several oldest visitors goes is left open.
  ghost predicate Touched(cap: int, before: Times, key: Key, now: int, after: Times) {
    if key in before || before == map[] || |before| < cap
    then after == before[key := now]
    else exists victim :: Oldest(before, victim) && after == (before - {victim})[key := now]
  }

  function Survivors(times: Times, cutoff: int): Times {
    map k | k in times && times[k] >= cutoff :: times[k]
  }

  // A visitor seen at the cutoff stays, one seen a nanosecond earlier does not.
  lemma SurvivorsMean(times: Times, cutoff: int, k: Key)
    ensures k in Survivors(times, cutoff) <==> k in times && cutoff <= times[k]
    ensures k in Survivors(times, cutoff) ==> Survivors(times, cutoff)[k] == times[k]
  {
  }

  // after is before less some entries older than cutoff.
  ghost predicate Expired(before: Times, after: Times, cutoff: int) {
    && (forall k :: k in after ==> k in before && after[k] == before[k])
    && (forall k :: k in before && before[k] >= cutoff ==> k in after)
  }

  lemma ExpiredFurther(before: Times, after: Times, victim: Key, cutoff: int)
    requires Expired(before, after, cutoff) && victim in after && after[victim] < cutoff
    ensures Expired(before, after - {victim}, cutoff)
  {
  }

  lemma AllExpired(before: Times, after: Times, cutoff: int)
    requires Expired(before, after, cutoff) && forall k :: k in after ==> after[k] >= cutoff
    ensures after == Survivors(before, cutoff)
  {
    assert after.Keys == Survivors(before, cutoff).Keys;
  }

  // The map and the heap's set of entries describe each other.
  ghost predicate Coupled(entries: map<Key, VisitorEntry>, held: set<VisitorEntry>) {
    && (forall k {:trigger entries[k]} :: k in entries ==> entries[k] in held && entries[k].key == k)
    && (forall e {:trigger e.key} :: e in held ==> e.key in entries && entries[e.key] == e)
  }

  lemma Uncouple(entries: map<Key, VisitorEntry>, held: set<VisitorEntry>, x: VisitorEntry)
    requires Coupled(entries, held) && x in held
    ensures Coupled(entries - {x.key}, held - {x})
  {
  }

  lemma DistinctCount(keys: seq<Key>, all: set<Key>)
    requires forall i, j :: 0 <= i < j < |keys| ==> keys[i] != keys[j]
    requires forall k :: k in all <==> k in keys
    ensures |all| == |keys|
  {
    if keys == [] {
      assert all == {};
    } else {
      DistinctCount(keys[1..], all - {keys[0]});
    }
  }

  // Each bucket runs at the limiter's rate and serves one visitor only.
  ghost predicate Owned(rate: Rate, visitors: map<Key, Limiter>) {
    forall k :: k in visitors ==> visitors[k].rate == rate && visitors[k].owner == k
  }

  // Apart from the given keys, after has only limiters that before has under the same key.
  ghost predicate Kept(before: map<Key, Limiter>, after: map<Key, Limiter>, except: set<Key>) {
    forall k :: k in after && k !in except ==> k in before && after[k] == before[k]
  }

  lemma StillOwned(rate: Rate, before: map<Key, Limiter>, after: map<Key, Limiter>, key: Key)
    requires Owned(rate, before) && Kept(before, after, {key})
    requires key in after && after[key].rate == rate && after[key].owner == key
    ensures Owned(rate, after)
  {
  }

  class RateLimiter {
    const rate: Rate
    const window: int
    const maxVisitors: int
    var visitors: map<Key, Limiter>
    var entries: map<Key, VisitorEntry>
    const minHeap: Heap
    ghost var seen: Times // when each visitor was last seen

    // The heap holds exactly the values of entries.
    ghost predicate Indexed()
      reads `entries, `seen, minHeap, minHeap.held
    {
      && minHeap.Valid()
      && Coupled(entries, minHeap.held)
      && seen.Keys == entries.Keys
      && (forall k {:trigger entries[k]} :: k in entries ==> seen[k] == entries[k].lastSeen)
    }

    ghost predicate Valid()
      reads this, minHeap, minHeap.held
    {
      && rate.interval > 0
      && Indexed()
      && visitors.Keys == seen.Keys
      && |minHeap.items| <= (if maxVisitors < 1 then 1 else maxVisitors)
    }

    constructor (limit: int, window: int, maxVisitors: int := DEFAULT_MAX_VISITORS)
      requires limit != 0
      ensures Valid() && Owned(rate, visitors) && seen == map[] && fresh(minHeap) && minHeap.held == {}
      ensures rate == RateOf(limit, window) && this.window == window && this.maxVisitors == maxVisitors
    {
      rate, this.window, this.maxVisitors := RateOf(limit, window), window, maxVisitors;
      visitors, entries, seen := map[], map[], map[];
      minHeap := new Heap();
    }

    // Pops the least recently seen entry.
    method PopEntry() returns (victim: Key)
      requires Indexed() && minHeap.items != []
      modifies `entries, `seen, minHeap, minHeap.held`index
      ensures Indexed() && minHeap.held <= old(minHeap.held) && |minHeap.items| == old(|minHeap.items|) - 1
      ensures Oldest(old(seen), victim) && old(seen[victim]) == old(minHeap.items[0].lastSeen)
      ensures seen == old(seen) - {victim}
    {
      var entry := minHeap.Pop();
      victim := entry.key;
      assert Oldest(seen, victim);
      Uncouple(entries, old(minHeap.held), entry);
      entries := entries - {victim};
      seen := seen - {victim};
    }

    method PushEntry(key: Key, now: int)
      requires Indexed() && key !in seen
      modifies `entries, `seen, minHeap, minHeap.held`index
      ensures Indexed() && |minHeap.items| == old(|minHeap.items|) + 1
      ensures forall e :: e in minHeap.held ==> e in old(minHeap.held) || fresh(e)
      ensures seen == old(seen)[key := now]
    {
      var entry := new VisitorEntry(key, now);
      entries := entries[key := entry];
      minHeap.Push(entry);
      seen := seen[key := now];
    }

    method TouchEntry(key: Key, now: int)
      requires Indexed() && key in seen
      modifies `seen, minHeap`items, minHeap.held`index, minHeap.held`lastSeen
      ensures Indexed() && minHeap.held == old(minHeap.held) && |minHeap.items| == old(|minHeap.items|)
      ensures seen == old(seen)[key := now]
    {
      var entry := entries[key];
      ghost var was := minHeap.Times();
      entry.lastSeen := now;
      Disturbed(was, entry.index, now);
      assert minHeap.Times() == was[entry.index := now];
      minHeap.Fix(entry.index);
      seen := seen[key := now];
    }

    // There are as many visitors as entries in the heap.
    lemma CountVisitors()
      requires Indexed() && visitors.Keys == seen.Keys
      ensures |visitors| == |seen| == |minHeap.items|
    {
      var items := minHeap.items;
      var keys := seq(|items|, i requires 0 <= i < |items| => items[i].key);
      forall k | k in entries ensures k in keys {
        assert keys[entries[k].index] == k;
      }
      DistinctCount(keys, seen.Keys);
      assert |visitors.Keys| == |visitors| && |seen.Keys| == |seen|;
    }

    lemma AllRecent(cutoff: int)
      requires Indexed() && (minHeap.items == [] || minHeap.items[0].lastSeen >= cutoff)
      ensures forall k :: k in seen ==> seen[k] >= cutoff
    {
      forall k | k in seen ensures seen[k] >= cutoff {
        var e := entries[k];
        assert minHeap.Times()[e.index] == e.lastSeen;
        RootIsLeast(minHeap.Times(), e.index);
      }
    }

    // Forgets the least recently seen visitor in heap and both maps.
    method Evict() returns (victim: Key)
      requires Valid() && minHeap.items != []
      modifies `visitors, `entries, `seen, minHeap, minHeap.held`index
      ensures Valid() && minHeap.held <= old(minHeap.held) && |minHeap.items| == old(|minHeap.items|) - 1
      ensures Oldest(old(seen), victim) && old(seen[victim]) == old(minHeap.items[0].lastSeen)
      ensures seen == old(seen) - {victim}
      ensures Kept(old(visitors), visitors, {})
    {
      victim := PopEntry();
      visitors := visitors - {victim};
    }

    // Adds a visitor with a fresh bucket.
    method Admit(key: Key, now: int) returns (limiter: Limiter)
      requires Valid() && key !in visitors && |minHeap.items| < (if maxVisitors < 1 then 1 else maxVisitors)
      modifies `visitors, `entries, `seen, minHeap, minHeap.held`index
      ensures Valid() && (forall e :: e in minHeap.held ==> e in old(minHeap.held) || fresh(e))
      ensures fresh(limiter) && limiter.Value() == Full(rate) && limiter.rate == rate && limiter.owner == key
      ensures seen == old(seen)[key := now] && key in visitors && visitors[key] == limiter
      ensures Kept(old(visitors), visitors, {key})
    {
      limiter := new Limiter(rate, key);
      visitors := visitors[key := limiter];
      PushEntry(key, now);
    }

    method Cleanup(now: int)
      requires Valid()
      modifies `visitors, `entries, `seen, minHeap, minHeap.held`index
      ensures Valid() && minHeap.held <= old(minHeap.held)
      ensures seen == Survivors(old(seen), now - window)
      ensures Kept(old(visitors), visitors, {})
    {
      var cutoff := now - window;
      while |minHeap.items| > 0 && minHeap.items[0].lastSeen < cutoff
        invariant Valid() && minHeap.held <= old(minHeap.held)
        invariant Expired(old(seen), seen, cutoff)
        invariant Kept(old(visitors), visitors, {})
        decreases |minHeap.items|
      {
        ghost var before := seen;
        var victim := Evict();
        ExpiredFurther(old(seen), before, victim, cutoff);
      }
      AllRecent(cutoff);
      AllExpired(old(seen), seen, cutoff);
    }

    // violated reports the branch that logs a broken invariant.
    method GetLimiter(key: Key, now: int) returns (limiter: Limiter, violated: bool)
      requires Valid() && Owned(rate, visitors)
      modifies `visitors, `entries, `seen, minHeap, minHeap.held`index, minHeap.held`lastSeen
      ensures Valid() && Owned(rate, visitors) && (forall e :: e in minHeap.held ==> e in old(minHeap.held) || fresh(e))
      ensures violated <==> maxVisitors < 1 && old(visitors) == map[]
      ensures key in visitors && visitors[key] == limiter
      ensures if key in old(visitors) then limiter == old(visitors)[key] else fresh(limiter) && limiter.Value() == Full(rate)
      ensures Kept(old(visitors), visitors, {key})
      ensures Touched(maxVisitors, old(seen), key, now, seen)
    {
      violated := false;
      CountVisitors();
      if key !in visitors {
        if |visitors| >= maxVisitors {
          if |minHeap.items| == 0 {
            // The fallback evicts an arbitrary visitor; there is none.
            violated := true;
          } else {
            var victim := Evict();
            assert Oldest(old(seen), victim);
          }
        }
        limiter := Admit(key, now);
      } else {
        limiter := visitors[key];
        TouchEntry(key, now);
      }
      StillOwned(rate, old(visitors), visitors, key);
    }

    // Spending tokens does not disturb the table.
    twostate lemma Undisturbed()
      requires old(Valid()) && unchanged(this) && unchanged(minHeap) && unchanged(minHeap.held)
      ensures Valid()
    {
    }

    // Nobody else's bucket is touched: a bucket has one owner.
    method Spend(key: Key, now: int) returns (allowed: bool)
      requires Valid() && Owned(rate, visitors) && key in visitors
      modifies {visitors[key]}`tokens, {visitors[key]}`last
      ensures Valid() && (allowed, visitors[key].Value()) == Take(rate, old(visitors[key].Value()), now)
      ensures forall k {:trigger visitors[k]} :: k in visitors && k != key ==> visitors[k].Value() == old(visitors[k].Value())
    {
      allowed := visitors[key].Allow(now);
      Undisturbed();
    }

    // Looking a bucket up changes none.
    method Lookup(key: Key, now: int)
      requires Valid() && Owned(rate, visitors)
      modifies `visitors, `entries, `seen, minHeap, minHeap.held`index, minHeap.held`lastSeen
      ensures Valid() && Owned(rate, visitors) && key in visitors && Touched(maxVisitors, old(seen), key, now, seen)
      ensures if key in old(visitors) then visitors[key] == old(visitors)[key] else fresh(visitors[key])
      ensures forall e :: e in minHeap.held ==> e in old(minHeap.held) || fresh(e)
      ensures visitors[key].Value() == if key in old(visitors) then old(visitors[key].Value()) else Full(rate)
      ensures Kept(old(visitors), visitors, {key})
      ensures forall k {:trigger visitors[k]} :: k in visitors && k != key ==> visitors[k].Value() == old(visitors[k].Value())
    {
      var _, _ := GetLimiter(key, now);
    }

    // The middleware's lookup followed by Allow, as one step. Only key's bucket is touched.
    method Serve(key: Key, now: int) returns (allowed: bool)
      requires Valid() && Owned(rate, visitors)
      modifies `visitors, `entries, `seen, minHeap, minHeap.held`index, minHeap.held`lastSeen
      modifies (if key in visitors then {visitors[key]} else {})`tokens, (if key in visitors then {visitors[key]} else {})`last
      ensures Valid() && Owned(rate, visitors) && key in visitors && Touched(maxVisitors, old(seen), key, now, seen)
      ensures if key in old(visitors) then visitors[key] == old(visitors)[key] else fresh(visitors[key])
      ensures forall e :: e in minHeap.held ==> e in old(minHeap.held) || fresh(e)
      ensures (allowed, visitors[key].Value()) ==
              Take(rate, if key in old(visitors) then old(visitors[key].Value()) else Full(rate), now)
      ensures Kept(old(visitors), visitors, {key})
      ensures forall k {:trigger visitors[k]} :: k in visitors && k != key ==> visitors[k].Value() == old(visitors[k].Value())
    {
      Lookup(key, now);
      allowed := Spend(key, now);
    }
  }
}
