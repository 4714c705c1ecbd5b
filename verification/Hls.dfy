/** HLS playlists: picking a variant and a segment, the depth-bounded end-of-list check, and the
  * segment lookup, which follows master playlists without any bound of its own.
  */
module Hls {
  import opened Wrappers

  datatype Error =
    | FetchFailed // request, transport, status code, decoding or URL parsing
    | NoVariants
    | UnknownPlaylist
    | DepthExceeded
    | NoSegments

  datatype Variant = Variant(uri: string, bandwidth: int)

  datatype Slot = Vacant | Filled(uri: string, duration: real)

  datatype Playlist =
    | Media(closed: bool, seqNo: nat, slots: seq<Slot>)
    | Master(variants: seq<Variant>)
    | Unknown

  datatype Segment = Segment(url: string, duration: real, sequence: nat)

  // One snapshot of the web: what fetching and decoding a URL yields, and how references resolve.
  datatype Web = Web(pages: map<string, Playlist>, resolved: map<(string, string), string>)

  const MAX_END_LIST_DEPTH := 4
  const UINT64 := 0x1_0000_0000_0000_0000

  function Fetch(web: Web, url: string): Result<Playlist, Error> {
    if url in web.pages then Ok(web.pages[url]) else Err(FetchFailed)
  }

  function Resolve(web: Web, base: string, ref: string): Result<string, Error> {
    if (base, ref) in web.resolved then Ok(web.resolved[(base, ref)]) else Err(FetchFailed)
  }

  // The position of the first variant of least bandwidth
  function FirstLeast(variants: seq<Variant>): (i: nat)
    requires variants != []
    ensures i < |variants|
    ensures forall j :: 0 <= j < i ==> variants[i].bandwidth < variants[j].bandwidth
    ensures forall j :: i <= j < |variants| ==> variants[i].bandwidth <= variants[j].bandwidth
  {
    var n := |variants| - 1;
    if n == 0 then 0
    else
      var i := FirstLeast(variants[..n]);
      assert forall j :: 0 <= j < n ==> variants[..n][j] == variants[j];
      if variants[n].bandwidth < variants[i].bandwidth then n else i
  }

  method LowestBandwidthVariant(variants: seq<Variant>) returns (lowest: Variant)
    requires variants != []
    ensures lowest == variants[FirstLeast(variants)]
  {
    lowest := variants[0];
    for i := 1 to |variants|
      invariant lowest == variants[FirstLeast(variants[..i])]
    {
      assert variants[..i + 1][..i] == variants[..i];
      if variants[i].bandwidth < lowest.bandwidth {
        lowest := variants[i];
      }
    }
    assert variants[..|variants|] == variants;
  }

  // The position of the last filled slot, -1 if there is none
  function LastFilled(slots: seq<Slot>): (i: int)
    ensures -1 <= i < |slots| && (i >= 0 ==> slots[i].Filled?)
    ensures forall j :: i < j < |slots| ==> slots[j].Vacant?
  {
    if slots == [] then -1
    else if slots[|slots| - 1].Filled? then |slots| - 1
    else LastFilled(slots[..|slots| - 1])
  }

  function LatestOf(web: Web, url: string, media: Playlist): Result<Segment, Error>
    requires media.Media?
  {
    var i := LastFilled(media.slots);
    if i < 0 then Err(NoSegments)
    else match Resolve(web, url, media.slots[i].uri)
      case Ok(u) => Ok(Segment(u, media.slots[i].duration, (media.seqNo + i) % UINT64))
      case Err(e) => Err(e)
  }

  lemma NoneFilled(web: Web, url: string, media: Playlist)
    requires media.Media?
    ensures LatestOf(web, url, media) == Err(NoSegments) <==> forall i :: 0 <= i < |media.slots| ==> media.slots[i].Vacant?
  {
  }

  // The filled slot after which all are vacant is the latest segment; its number counts vacant slots too
  // and wraps around at 64 bits.
  lemma LatestMeans(web: Web, url: string, media: Playlist, i: nat)
    requires media.Media? && i < |media.slots| && media.slots[i].Filled?
    requires forall j :: i < j < |media.slots| ==> media.slots[j].Vacant?
    ensures var Filled(uri, duration) := media.slots[i];
            LatestOf(web, url, media) ==
            if (url, uri) in web.resolved
            then Ok(Segment(web.resolved[(url, uri)], duration, (media.seqNo + i) % 0x1_0000_0000_0000_0000))
            else Err(FetchFailed)
  {
    assert LastFilled(media.slots) == i;
  }

  method ExtractLatestFromMediaPlaylist(web: Web, url: string, media: Playlist) returns (r: Result<Segment, Error>)
    requires media.Media?
    ensures r == LatestOf(web, url, media)
  {
    var last, lastIdx := Vacant, 0;
    for i := 0 to |media.slots|
      invariant last.Vacant? <==> LastFilled(media.slots[..i]) < 0
      invariant last.Filled? ==> lastIdx == LastFilled(media.slots[..i]) && last == media.slots[lastIdx]
    {
      assert media.slots[..i + 1][..i] == media.slots[..i];
      if media.slots[i].Filled? {
        last, lastIdx := media.slots[i], i;
      }
    }
    assert media.slots[..|media.slots|] == media.slots;
    if last.Vacant? {
      return Err(NoSegments);
    }
    match Resolve(web, url, last.uri)
    case Err(e) => return Err(e);
    case Ok(u) => return Ok(Segment(u, last.duration, (media.seqNo + lastIdx) % UINT64));
  }

  // A live window that moves on by dropped slots and keeps the rest never shows an earlier latest
  // segment, even one that has left the old latest behind, while numbers stay below the wrap-around.
  lemma LatestAdvances(web: Web, url: string, before: Playlist, after: Playlist, dropped: nat)
    requires before.Media? && after.Media? && after.seqNo == before.seqNo + dropped
    requires dropped <= |before.slots| ==> before.slots[dropped..] <= after.slots
    requires after.seqNo + |after.slots| <= UINT64
    requires LatestOf(web, url, before).Ok? && LatestOf(web, url, after).Ok?
    ensures LatestOf(web, url, before).value.sequence <= LatestOf(web, url, after).value.sequence
    ensures LatestOf(web, url, before).value.sequence == LatestOf(web, url, after).value.sequence ==>
              LatestOf(web, url, before) == LatestOf(web, url, after)
  {
    var i := LastFilled(before.slots);
    if dropped <= i {
      assert after.slots[i - dropped] == before.slots[dropped..][i - dropped] == before.slots[i];
    }
  }

  function NextURL(web: Web, url: string, variants: seq<Variant>): Result<string, Error> {
    if variants == [] then Err(NoVariants) else Resolve(web, url, variants[FirstLeast(variants)].uri)
  }

  function IsEndListWithDepth(web: Web, url: string, depth: nat): Result<bool, Error>
    decreases MAX_END_LIST_DEPTH + 1 - depth
  {
    if depth > MAX_END_LIST_DEPTH then Err(DepthExceeded)
    else match Fetch(web, url)
      case Err(e) => Err(e)
      case Ok(Media(closed, _, _)) => Ok(closed)
      case Ok(Master(variants)) =>
        (match NextURL(web, url, variants)
         case Err(e) => Err(e)
         case Ok(next) => IsEndListWithDepth(web, next, depth + 1))
      case Ok(Unknown) => Err(UnknownPlaylist)
  }

  // The lookup stopped after a given number of fetches: still following masters, failed, or
  // arrived at the URL of a media playlist.
  datatype Walk = Running | Failed(error: Error) | Arrived(url: string)

  function Lookup(web: Web, url: string, fetches: nat): (w: Walk)
    ensures w.Arrived? ==> w.url in web.pages && web.pages[w.url].Media?
    decreases fetches
  {
    if fetches == 0 then Running
    else match Fetch(web, url)
      case Err(e) => Failed(e)
      case Ok(Media(_, _, _)) => Arrived(url)
      case Ok(Master(variants)) =>
        (match NextURL(web, url, variants)
         case Err(e) => Failed(e)
         case Ok(next) => Lookup(web, next, fetches - 1))
      case Ok(Unknown) => Failed(UnknownPlaylist)
  }

  // The whole of getLatestHLSSegment, when it ends
  ghost predicate Returns(web: Web, url: string, r: Result<Segment, Error>) {
    exists fetches :: EndsWith(web, Lookup(web, url, fetches), r)
  }

  ghost predicate EndsWith(web: Web, w: Walk, r: Result<Segment, Error>) {
    match w
    case Running => false
    case Failed(e) => r == Err(e)
    case Arrived(u) => u in web.pages && web.pages[u].Media? && r == LatestOf(web, u, web.pages[u])
  }

  // Position i holds the first variant of least bandwidth.
  ghost predicate Lowest(variants: seq<Variant>, i: nat) {
    && i < |variants|
    && (forall j :: 0 <= j < i ==> variants[i].bandwidth < variants[j].bandwidth)
    && (forall j :: i <= j < |variants| ==> variants[i].bandwidth <= variants[j].bandwidth)
  }

  // Lookup and check go on, from a master, where its first variant of least bandwidth leads, and fail
  // where that leads nowhere.
  lemma LowestIsFollowed(web: Web, url: string, i: nat, fetches: nat, depth: nat)
    requires url in web.pages && web.pages[url].Master? && Lowest(web.pages[url].variants, i) && depth <= 4
    ensures var link := (url, web.pages[url].variants[i].uri);
            if link in web.resolved then
              var next := web.resolved[link];
              && Lookup(web, url, fetches + 1) == Lookup(web, next, fetches)
              && IsEndListWithDepth(web, url, depth) == IsEndListWithDepth(web, next, depth + 1)
              && forall r :: Returns(web, url, r) <==> Returns(web, next, r)
            else
              && Lookup(web, url, fetches + 1) == Failed(FetchFailed)
              && IsEndListWithDepth(web, url, depth) == Err(FetchFailed)
              && forall r :: Returns(web, url, r) <==> r == Err(FetchFailed)
  {
    var variants := web.pages[url].variants;
    assert FirstLeast(variants) == i;
    var link := (url, variants[i].uri);
    if link in web.resolved {
      var next := web.resolved[link];
      assert forall n: nat :: Lookup(web, url, n + 1) == Lookup(web, next, n);
      forall r ensures Returns(web, url, r) <==> Returns(web, next, r) {
        ReturnsFrom(web, url, next, r);
      }
    } else {
      assert forall n: nat :: n > 0 ==> Lookup(web, url, n) == Failed(FetchFailed);
      assert forall r :: EndsWith(web, Lookup(web, url, 1), r) <==> r == Err(FetchFailed);
    }
  }

  lemma ReturnsFrom(web: Web, url: string, next: string, r: Result<Segment, Error>)
    requires forall n: nat :: Lookup(web, url, n + 1) == Lookup(web, next, n)
    ensures Returns(web, url, r) <==> Returns(web, next, r)
  {
    if Returns(web, url, r) {
      var n: nat :| EndsWith(web, Lookup(web, url, n), r);
      assert n > 0;
      assert Lookup(web, url, n - 1 + 1) == Lookup(web, next, n - 1);
    }
    if Returns(web, next, r) {
      var n: nat :| EndsWith(web, Lookup(web, next, n), r);
      assert EndsWith(web, Lookup(web, url, n + 1), r);
    }
  }

  // Where a walk starts and ends: the pages that are no master, and a master without variants
  lemma WalksEnd(web: Web, url: string, fetches: nat, depth: nat)
    requires depth <= 4
    ensures url !in web.pages ==>
              Lookup(web, url, fetches + 1) == Failed(FetchFailed) && IsEndListWithDepth(web, url, depth) == Err(FetchFailed)
    ensures url in web.pages && web.pages[url].Unknown? ==>
              Lookup(web, url, fetches + 1) == Failed(UnknownPlaylist) && IsEndListWithDepth(web, url, depth) == Err(UnknownPlaylist)
    ensures url in web.pages && web.pages[url].Media? ==>
              Lookup(web, url, fetches + 1) == Arrived(url) && IsEndListWithDepth(web, url, depth) == Ok(web.pages[url].closed)
    ensures url in web.pages && web.pages[url] == Master([]) ==>
              Lookup(web, url, fetches + 1) == Failed(NoVariants) && IsEndListWithDepth(web, url, depth) == Err(NoVariants)
    ensures IsEndListWithDepth(web, url, 5) == Err(DepthExceeded) && Lookup(web, url, 0) == Running
  {
  }

  lemma {:induction false} LookupStable(web: Web, url: string, fetches: nat, more: nat)
    requires Lookup(web, url, fetches) != Running && fetches <= more
    ensures Lookup(web, url, more) == Lookup(web, url, fetches)
    decreases fetches
  {
    match Fetch(web, url)
    case Ok(Master(variants)) =>
      match NextURL(web, url, variants) {
        case Ok(next) => LookupStable(web, next, fetches - 1, more - 1);
        case _ =>
      }
    case _ =>
  }

  // The end-of-list check is the lookup cut off after as many fetches as it has depth left.
  lemma {:induction false} CheckIsBoundedLookup(web: Web, url: string, depth: nat)
    requires depth <= MAX_END_LIST_DEPTH + 1
    ensures IsEndListWithDepth(web, url, depth) ==
            match Lookup(web, url, MAX_END_LIST_DEPTH + 1 - depth)
            case Running => Err(DepthExceeded)
            case Failed(e) => Err(e)
            case Arrived(u) => Ok(web.pages[u].closed)
    decreases MAX_END_LIST_DEPTH + 1 - depth
  {
    if depth <= MAX_END_LIST_DEPTH {
      match Fetch(web, url)
      case Ok(Master(variants)) =>
        match NextURL(web, url, variants) {
          case Ok(next) => CheckIsBoundedLookup(web, next, depth + 1);
          case _ =>
        }
      case _ =>
    }
  }

  lemma {:induction false} NeverDepthExceeded(web: Web, url: string, fetches: nat)
    ensures Lookup(web, url, fetches) != Failed(DepthExceeded)
    decreases fetches
  {
    if fetches > 0 {
      match Fetch(web, url)
      case Ok(Master(variants)) =>
        match NextURL(web, url, variants) {
          case Ok(next) => NeverDepthExceeded(web, next, fetches - 1);
          case _ =>
        }
      case _ =>
    }
  }

  // A check that succeeds guards the lookup: it ends within five fetches, on the very media
  // playlist whose end-of-list mark the check reported.
  lemma CheckGuardsLookup(web: Web, url: string)
    requires IsEndListWithDepth(web, url, 0).Ok?
    ensures exists u :: u in web.pages && web.pages[u].Media?
              && web.pages[u].closed == IsEndListWithDepth(web, url, 0).value
              && (forall fetches: nat :: fetches >= 5 ==> Lookup(web, url, fetches) == Arrived(u))
              && (forall r :: Returns(web, url, r) <==> r == LatestOf(web, u, web.pages[u]))
  {
    CheckIsBoundedLookup(web, url, 0);
    var u := Lookup(web, url, 5).url;
    forall fetches: nat ensures fetches >= 5 ==> Lookup(web, url, fetches) == Arrived(u) {
      if fetches >= 5 {
        LookupStable(web, url, 5, fetches);
      }
    }
    forall fetches: nat | Lookup(web, url, fetches) != Running ensures Lookup(web, url, fetches) == Arrived(u) {
      if fetches < 5 {
        LookupStable(web, url, fetches, 5);
      }
    }
  }

  // The check gives up exactly when the lookup is still following masters after five fetches.
  lemma DepthExceededExactly(web: Web, url: string)
    ensures IsEndListWithDepth(web, url, 0) == Err(DepthExceeded) <==> Lookup(web, url, 5) == Running
  {
    CheckIsBoundedLookup(web, url, 0);
    NeverDepthExceeded(web, url, 5);
  }

  // Every page of the ring is a master whose chosen variant stays in the ring.
  ghost predicate Ring(web: Web, urls: set<string>) {
    forall u :: u in urls ==>
      u in web.pages && web.pages[u].Master?
      && NextURL(web, u, web.pages[u].variants).Ok? && NextURL(web, u, web.pages[u].variants).value in urls
  }

  // Unguarded, the lookup never returns from a ring of master playlists.
  lemma {:induction false} RingNeverReturns(web: Web, urls: set<string>, url: string)
    requires Ring(web, urls) && url in urls
    ensures forall r :: !Returns(web, url, r)
    ensures IsEndListWithDepth(web, url, 0) == Err(DepthExceeded)
  {
    forall fetches: nat ensures Lookup(web, url, fetches) == Running {
      RingKeepsRunning(web, urls, url, fetches);
    }
    DepthExceededExactly(web, url);
  }

  lemma {:induction false} RingKeepsRunning(web: Web, urls: set<string>, url: string, fetches: nat)
    requires Ring(web, urls) && url in urls
    ensures Lookup(web, url, fetches) == Running
    decreases fetches
  {
    if fetches > 0 {
      RingKeepsRunning(web, urls, NextURL(web, url, web.pages[url].variants).value, fetches - 1);
    }
  }
}
