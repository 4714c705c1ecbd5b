/** Which visitors the bounded table holds: exactly the most recently used ones. */
module Lru {
  import opened TokenBucket
  import opened RateLimiter

  // The other keys accessed after the last access by k
  ghost function Since(ks: seq<Key>, k: Key): set<Key>
    requires k in ks
  {
    var last := ks[|ks| - 1];
    if last == k then {} else Since(ks[..|ks| - 1], k) + {last}
  }

  // A run of accesses: tables[i] is the table before access i.
  ghost predicate Run(cap: int, keys: seq<Key>, times: seq<int>, tables: seq<Times>) {
    && |times| == |keys| && |tables| == |keys| + 1 && tables[0] == map[]
    && (forall i, j :: 0 <= i < j < |times| ==> times[i] < times[j])
    && (forall i :: 0 <= i < |keys| ==> Touched(cap, tables[i], keys[i], times[i], tables[i + 1]))
  }

  ghost predicate Resident(cap: int, ks: seq<Key>, k: Key) {
    k in ks && |Since(ks, k)| < cap
  }

  // The table holds the resident keys, and access times follow recency.
  ghost predicate Recency(cap: int, ks: seq<Key>, table: Times, latest: int) {
    && (forall k :: k in table <==> Resident(cap, ks, k))
    && (forall k :: k in table ==> table[k] <= latest)
    && (forall k, k' :: k in table && k' in table && k' in Since(ks, k) ==> table[k] < table[k'])
  }

  lemma {:induction false} SinceNested(ks: seq<Key>, k: Key, k': Key)
    requires k in ks && k' in Since(ks, k)
    ensures k' in ks && k !in Since(ks, k') && k != k'
    ensures Since(ks, k') + {k'} <= Since(ks, k) && |Since(ks, k')| < |Since(ks, k)|
  {
    var last, init := ks[|ks| - 1], ks[..|ks| - 1];
    if k' != last {
      SinceNested(init, k, k');
    } else {
      SinceOmitsSelf(ks, k);
    }
    assert Since(ks, k') + {k'} <= Since(ks, k);
    SinceOmitsSelf(ks, k');
    Smaller(Since(ks, k'), Since(ks, k), k');
  }

  lemma {:induction false} SinceOmitsSelf(ks: seq<Key>, k: Key)
    requires k in ks
    ensures k !in Since(ks, k) && forall k' :: k' in Since(ks, k) ==> k' in ks
  {
    if ks[|ks| - 1] != k {
      SinceOmitsSelf(ks[..|ks| - 1], k);
    }
  }

  lemma Smaller<T>(a: set<T>, b: set<T>, x: T)
    requires a + {x} <= b && x !in a
    ensures |a| < |b|
  {
    assert a <= b - {x};
    Within(a, b - {x});
  }

  lemma {:induction false} Within<T>(a: set<T>, b: set<T>)
    requires a <= b
    ensures |a| <= |b|
  {
    if a != {} {
      var x :| x in a;
      Within(a - {x}, b - {x});
    }
  }

  lemma {:induction false} SinceTotal(ks: seq<Key>, k: Key, k': Key)
    requires k in ks && k' in ks && k != k'
    ensures k' in Since(ks, k) || k in Since(ks, k')
  {
    var last, init := ks[|ks| - 1], ks[..|ks| - 1];
    if k != last && k' != last {
      SinceTotal(init, k, k');
    }
  }

  lemma SinceNext(ks: seq<Key>, x: Key, k: Key)
    requires k in ks + [x]
    ensures Since(ks + [x], k) == if k == x then {} else Since(ks, k) + {x}
  {
    assert (ks + [x])[..|ks|] == ks;
  }

  // An access by a key that is already there lets everyone stay.
  lemma HitKeeps(cap: int, ks: seq<Key>, x: Key, k: Key)
    requires Resident(cap, ks, x) && k in ks && k != x
    ensures |Since(ks, k) + {x}| < cap <==> |Since(ks, k)| < cap
  {
    SinceTotal(ks, k, x);
    if x in Since(ks, k) {
      assert Since(ks, k) + {x} == Since(ks, k);
    } else {
      SinceNested(ks, x, k);
    }
  }

  // A key that is not there is not among the keys used since a resident's last access.
  lemma MissIsOld(cap: int, ks: seq<Key>, x: Key, k: Key)
    requires Resident(cap, ks, k) && !Resident(cap, ks, x)
    ensures x !in Since(ks, k)
  {
    if x in Since(ks, k) {
      SinceNested(ks, k, x);
    }
  }

  // With room left, no resident is at the limit.
  lemma RoomKeeps(cap: int, ks: seq<Key>, table: Times, latest: int, k: Key)
    requires Recency(cap, ks, table, latest) && |table| < cap && k in table
    ensures |Since(ks, k)| + 1 < cap
  {
    forall k' | k' in Since(ks, k) ensures k' in table {
      SinceNested(ks, k, k');
    }
    SinceOmitsSelf(ks, k);
    assert Since(ks, k) + {k} <= table.Keys;
    Smaller(Since(ks, k), table.Keys, k);
    assert |table.Keys| == |table|;
  }

  // In a full table exactly the oldest resident is at the limit.
  lemma FullDropsOldest(cap: int, ks: seq<Key>, table: Times, latest: int, victim: Key, k: Key)
    requires Recency(cap, ks, table, latest) && |table| >= cap && Oldest(table, victim) && k in table
    ensures |Since(ks, k)| + 1 < cap <==> k != victim
  {
    forall j | j in table && j != victim ensures j in Since(ks, victim) {
      SinceTotal(ks, victim, j);
      assert victim !in Since(ks, j);
    }
    assert table.Keys - {victim} <= Since(ks, victim);
    Within(table.Keys - {victim}, Since(ks, victim));
    assert |table.Keys| == |table|;
    if k != victim {
      SinceNested(ks, victim, k);
    }
  }

  lemma StepOther(cap: int, ks: seq<Key>, before: Times, latest: int, x: Key, now: int, after: Times, k: Key)
    requires cap >= 1 && Recency(cap, ks, before, latest)
    requires Touched(cap, before, x, now, after) && k in ks && k != x
    ensures k in after <==> |Since(ks, k) + {x}| < cap
  {
    Within(Since(ks, k), Since(ks, k) + {x});
    assert k in before <==> Resident(cap, ks, k);
    if x in before {
      HitKeeps(cap, ks, x, k);
    } else if k in before {
      MissIsOld(cap, ks, x, k);
      assert |Since(ks, k) + {x}| == |Since(ks, k)| + 1;
      if |before| >= cap {
        var victim :| Oldest(before, victim) && after == (before - {victim})[x := now];
        FullDropsOldest(cap, ks, before, latest, victim, k);
      } else {
        RoomKeeps(cap, ks, before, latest, k);
      }
    }
  }

  lemma Step(cap: int, ks: seq<Key>, before: Times, latest: int, x: Key, now: int, after: Times)
    requires cap >= 1 && Recency(cap, ks, before, latest) && latest < now
    requires Touched(cap, before, x, now, after)
    ensures Recency(cap, ks + [x], after, now)
  {
    assert (ks + [x])[|ks|] == x;
    forall k ensures k in after <==> Resident(cap, ks + [x], k) {
      if k == x {
        SinceNext(ks, x, x);
      } else if k in ks {
        assert k in ks + [x];
        SinceNext(ks, x, k);
        StepOther(cap, ks, before, latest, x, now, after, k);
      }
    }
    forall k, k' | k in after && k' in after && k' in Since(ks + [x], k) ensures after[k] < after[k'] {
      SinceNext(ks, x, k);
    }
  }

  lemma {:induction false} RecencyAlways(cap: int, keys: seq<Key>, times: seq<int>, tables: seq<Times>, n: nat)
    requires cap >= 1 && Run(cap, keys, times, tables) && 0 < n <= |keys|
    ensures Recency(cap, keys[..n], tables[n], times[n - 1])
  {
    var latest := if n == 1 then times[0] - 1 else times[n - 2];
    if n > 1 {
      RecencyAlways(cap, keys, times, tables, n - 1);
    }
    assert keys[..n] == keys[..n - 1] + [keys[n - 1]];
    Step(cap, keys[..n - 1], tables[n - 1], latest, keys[n - 1], times[n - 1], tables[n]);
  }

  // Under strictly increasing access times and no cleanup, the table after any run holds exactly
  // those keys since whose last access fewer than cap other keys have been seen.
  lemma LeastRecentlyUsed(cap: int, keys: seq<Key>, times: seq<int>, tables: seq<Times>)
    requires cap >= 1 && Run(cap, keys, times, tables)
    ensures forall k :: k in tables[|keys|] <==> k in keys && |Since(keys, k)| < cap
  {
    if keys != [] {
      RecencyAlways(cap, keys, times, tables, |keys|);
      assert keys[..|keys|] == keys;
      assert forall k :: k in tables[|keys|] <==> Resident(cap, keys, k);
    }
  }
}
