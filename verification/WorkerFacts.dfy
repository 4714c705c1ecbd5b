/** What the questions asked of a journal mean, entry by entry. */
module WorkerFacts {
  import opened Wrappers
  import opened Detection
  import opened WorkerHistory

  function Entries(j: Journal): seq<Entry> {
    if j.Nothing? then [] else Entries(j.past) + [j.last]
  }

  // k is the position of the last entry of some kind, negative if there is none.
  ghost predicate Latest(es: seq<Entry>, kind: Entry -> bool, k: int) {
    && k < |es| && (k >= 0 ==> kind(es[k]))
    && forall m :: 0 <= m < |es| && k < m ==> !kind(es[m])
  }

  lemma {:induction false} SomeLatest(es: seq<Entry>, kind: Entry -> bool) returns (k: int)
    ensures Latest(es, kind, k)
  {
    if es == [] {
      k := -1;
    } else if kind(es[|es| - 1]) {
      k := |es| - 1;
    } else {
      k := SomeLatest(es[..|es| - 1], kind);
    }
  }

  lemma LatestBefore(es: seq<Entry>, e: Entry, kind: Entry -> bool, k: int)
    requires Latest(es + [e], kind, k)
    ensures if kind(e) then k == |es| else Latest(es, kind, k)
  {
    assert (es + [e])[|es|] == e;
    assert forall m :: 0 <= m < |es| ==> (es + [e])[m] == es[m];
  }

  // ---- States and webhooks

  predicate SetsState(e: Entry) {
    e.Became? || (e.Attempt? && e.fate == Fatal)
  }

  lemma {:induction false} StateMeans(j: Journal, k: int)
    requires Latest(Entries(j), SetsState, k)
    ensures StateOf(j) == if k < 0 then Waiting else if Entries(j)[k].Became? then Entries(j)[k].state else Error
  {
    if j.Then? {
      LatestBefore(Entries(j.past), j.last, SetsState, k);
      if !SetsState(j.last) {
        StateMeans(j.past, k);
      }
    }
  }

  lemma {:induction false} StoppedMeans(j: Journal)
    ensures Stopped(j) <==> ShutdownSeen in Entries(j)
  {
    if j.Then? {
      StoppedMeans(j.past);
    }
  }

  lemma {:induction false} AttemptedMeans(j: Journal, event: Event)
    ensures Attempted(j, event) <==> exists e :: e in Entries(j) && e.Attempt? && e.event == event
  {
    if j.Then? {
      AttemptedMeans(j.past, event);
      assert forall e :: e in Entries(j) <==> e in Entries(j.past) || e == j.last;
      if Attempted(j, event) && !Attempted(j.past, event) {
        assert j.last in Entries(j);
      }
    }
  }

  // ---- Progress and suspension

  predicate MarksProgress(e: Entry) {
    e.Entered? || (e.Accepted? && !e.rebaseline)
  }

  lemma {:induction false} LastProgressMeans(j: Journal, k: int)
    requires Latest(Entries(j), MarksProgress, k)
    ensures LastProgress(j) == if k < 0 then None else Some(Entries(j)[k].now)
  {
    if j.Then? {
      LatestBefore(Entries(j.past), j.last, MarksProgress, k);
      if !MarksProgress(j.last) {
        LastProgressMeans(j.past, k);
      }
    }
  }

  predicate TurnsSuspension(e: Entry) {
    (e.Accepted? && !e.rebaseline) || (e.Attempt? && e.event == Suspended)
  }

  lemma {:induction false} SuspensionOpenMeans(j: Journal, k: int)
    requires Latest(Entries(j), TurnsSuspension, k)
    ensures SuspensionOpen(j) <==> k >= 0 && Entries(j)[k].Attempt?
  {
    if j.Then? {
      LatestBefore(Entries(j.past), j.last, TurnsSuspension, k);
      if !TurnsSuspension(j.last) {
        SuspensionOpenMeans(j.past, k);
      }
    }
  }

  // ---- Segments and manifests

  predicate Accepts(e: Entry) {
    e.Accepted?
  }

  lemma {:induction false} LastSegmentMeans(j: Journal, k: int)
    requires Latest(Entries(j), Accepts, k)
    ensures LastSegment(j) == if k < 0 then (0, "") else (Entries(j)[k].sequence, Entries(j)[k].url)
  {
    if j.Then? {
      LatestBefore(Entries(j.past), j.last, Accepts, k);
      if !Accepts(j.last) {
        LastSegmentMeans(j.past, k);
      }
    }
  }

  predicate SetsManifest(e: Entry) {
    e.Entered? || e.Relocated?
  }

  lemma {:induction false} ManifestURLMeans(j: Journal, k: int)
    requires Latest(Entries(j), SetsManifest, k)
    ensures ManifestURL(j) == if k < 0 then "" else Entries(j)[k].url
  {
    if j.Then? {
      LatestBefore(Entries(j.past), j.last, SetsManifest, k);
      if !SetsManifest(j.last) {
        ManifestURLMeans(j.past, k);
      }
    }
  }

  // The journal up to its first n entries
  function Until(j: Journal, n: nat): Journal {
    if |Entries(j)| <= n then j else Until(j.past, n)
  }

  // Some move to another URL, since the last lookup
  ghost predicate MovedSince(j: Journal, k: nat) {
    && k < |Entries(j)| && Entries(j)[k].Relocated? && Entries(j)[k].url != ManifestURL(Until(j, k))
    && LookedUp !in Entries(j)[k..]
  }

  lemma MovedBefore(j: Journal, k: nat)
    requires j.Then?
    ensures MovedSince(j, k) <==>
            && j.last != LookedUp
            && if k == |Entries(j.past)| then j.last.Relocated? && j.last.url != ManifestURL(j.past) else MovedSince(j.past, k)
  {
    var es := Entries(j.past);
    if k < |es| {
      assert Entries(j)[k..] == es[k..] + [j.last];
      assert Until(j, k) == Until(j.past, k) && Entries(j)[k] == es[k];
      assert LookedUp in Entries(j)[k..] <==> LookedUp in es[k..] || j.last == LookedUp;
    } else if k == |es| {
      assert Entries(j)[k..] == [j.last] && Entries(j)[k] == j.last;
      assert Until(j, k) == Until(j.past, k) == j.past;
    }
  }

  lemma {:induction false} ManifestChangedMeans(j: Journal)
    ensures ManifestChanged(j) <==> exists k: nat :: MovedSince(j, k)
  {
    if j.Then? {
      ManifestChangedMeans(j.past);
      MovedBefore(j, |Entries(j.past)|);
      forall k: nat ensures MovedSince(j, k) <==>
            && j.last != LookedUp
            && if k == |Entries(j.past)| then j.last.Relocated? && j.last.url != ManifestURL(j.past) else MovedSince(j.past, k)
      {
        MovedBefore(j, k);
      }
      if k: nat :| MovedSince(j.past, k) {
        assert MovedSince(j, k) <==> j.last != LookedUp;
      }
    }
  }

  // ---- Live checks and failing cycles

  predicate ChecksLive(e: Entry) {
    e.LiveChecked?
  }

  lemma {:induction false} LastLiveCheckMeans(j: Journal, k: int)
    requires Latest(Entries(j), ChecksLive, k)
    ensures LastLiveCheck(j) == if k < 0 then None else Some(Entries(j)[k].now)
  {
    if j.Then? {
      LatestBefore(Entries(j.past), j.last, ChecksLive, k);
      if !ChecksLive(j.last) {
        LastLiveCheckMeans(j.past, k);
      }
    }
  }

  predicate GoesFine(e: Entry) {
    e.CycleFine?
  }

  // k is the first failure after f, the last cycle that went fine, or past the end.
  lemma {:induction false} FailingSinceMeans(j: Journal, f: int, k: nat)
    requires Latest(Entries(j), GoesFine, f) && f < k <= |Entries(j)|
    requires k < |Entries(j)| ==> Entries(j)[k].CycleFailed?
    requires forall m :: 0 <= m < k && f < m ==> !Entries(j)[m].CycleFailed?
    ensures FailingSince(j) == if k < |Entries(j)| then Some(Entries(j)[k].now) else None
  {
    if j.Then? {
      LatestBefore(Entries(j.past), j.last, GoesFine, f);
      assert Entries(j)[|Entries(j.past)|] == j.last;
      if !GoesFine(j.last) {
        assert forall m :: 0 <= m < |Entries(j.past)| ==> Entries(j)[m] == Entries(j.past)[m];
        FailingSinceMeans(j.past, f, if k < |Entries(j.past)| then k else |Entries(j.past)|);
      }
    }
  }

  predicate EndsProbing(e: Entry) {
    e.CycleFine? || e.Probed?
  }

  lemma {:induction false} ProbesMean(j: Journal, k: int)
    requires Latest(Entries(j), EndsProbing, k)
    ensures Probes(j) > 0 <==> k >= 0 && Entries(j)[k].Probed?
  {
    if j.Then? {
      LatestBefore(Entries(j.past), j.last, EndsProbing, k);
      if !EndsProbing(j.last) {
        ProbesMean(j.past, k);
      }
    }
  }

  // ---- Samples

  function Samples(h: History): seq<Sample> {
    if h.NoSamples? then [] else Samples(h.past) + [h.sample]
  }

  function SamplesIn(es: seq<Entry>, kind: Kind): seq<Sample> {
    if es == [] then []
    else
      var e := es[|es| - 1];
      SamplesIn(es[..|es| - 1], kind) + (if e.Analysed? && e.kind == kind then [e.sample] else [])
  }

  lemma {:induction false} HeardMeans(j: Journal, kind: Kind)
    ensures Samples(Heard(j, kind)) == SamplesIn(Entries(j), kind)
  {
    if j.Then? {
      HeardMeans(j.past, kind);
      assert Entries(j)[..|Entries(j)| - 1] == Entries(j.past);
    }
  }
}
