/** DASH manifests: choosing a representation and computing the number, time and duration of the
  * latest segment, over exact arithmetic (SegmentTemplate and SegmentTimeline of section 5.3.9 of
  * ISO/IEC 23009-1).
  */
module Dash {
  import opened Wrappers
  import Media = SegmentTemplate

  datatype Error = NoTemplate | EmptyMedia | DurationMissing | BadPresentationDuration

  datatype TimelineS = TimelineS(t: int, d: int, r: int)

  // An absent and an empty timeline are treated alike.
  datatype SegmentTemplate = SegmentTemplate(timescale: int, duration: int, startNumber: int, media: string, timeline: seq<TimelineS>)

  datatype Templated = Bare | With(template: SegmentTemplate)

  datatype Representation = Representation(id: string, bandwidth: int, templated: Templated)

  // ---- Choosing a representation

  function Flatten(sets: seq<seq<Representation>>): seq<Representation> {
    if sets == [] then [] else Flatten(sets[..|sets| - 1]) + sets[|sets| - 1]
  }

  // Adaptation sets in order, and each set's representations in order
  lemma {:induction false} FlattenedInOrder(sets: seq<seq<Representation>>)
    requires sets != []
    ensures Flatten(sets) == sets[0] + Flatten(sets[1..])
    decreases |sets|
  {
    var front, last := sets[..|sets| - 1], sets[|sets| - 1];
    if front == [] {
      assert sets[1..] == [];
    } else {
      FlattenedInOrder(front);
      assert sets[1..][..|sets[1..]| - 1] == front[1..];
    }
  }

  // Position i holds the first least-bandwidth representation among those with a template.
  ghost predicate Chosen(reps: seq<Representation>, i: nat) {
    && i < |reps| && reps[i].templated.With?
    && (forall j :: 0 <= j < i && reps[j].templated.With? ==> reps[i].bandwidth < reps[j].bandwidth)
    && (forall j :: i <= j < |reps| && reps[j].templated.With? ==> reps[i].bandwidth <= reps[j].bandwidth)
  }

  ghost predicate Selected(reps: seq<Representation>, r: Result<Representation, Error>) {
    match r
    case Ok(rep) => exists i: nat :: Chosen(reps, i) && rep == reps[i] && rep.templated.template.media != ""
    case Err(e) =>
      if e == EmptyMedia then exists i: nat :: Chosen(reps, i) && reps[i].templated.template.media == ""
      else e == NoTemplate && forall rep :: rep in reps ==> rep.templated.Bare?
  }

  method SelectSegmentTemplate(sets: seq<seq<Representation>>) returns (r: Result<Representation, Error>)
    ensures Selected(Flatten(sets), r)
  {
    var chosen := Representation("", 0, Bare);
    ghost var at: nat := 0;
    for i := 0 to |sets|
      invariant Scanned(Flatten(sets[..i]), chosen, at)
    {
      ghost var before := Flatten(sets[..i]);
      for j := 0 to |sets[i]|
        invariant Scanned(before + sets[i][..j], chosen, at)
      {
        var rep := sets[i][j];
        assert before + sets[i][..j + 1] == before + sets[i][..j] + [rep];
        ScanOne(before + sets[i][..j], chosen, at, rep);
        if rep.templated.With? && (chosen.templated.Bare? || rep.bandwidth < chosen.bandwidth) {
          chosen, at := rep, |before| + j;
        }
      }
      assert sets[..i + 1][..i] == sets[..i] && before + sets[i][..|sets[i]|] == Flatten(sets[..i + 1]);
    }
    assert sets[..|sets|] == sets;
    if chosen.templated.Bare? {
      return Err(NoTemplate);
    }
    if chosen.templated.template.media == "" {
      return Err(EmptyMedia);
    }
    return Ok(chosen);
  }

  // chosen is the choice so far, found at position at.
  ghost predicate Scanned(reps: seq<Representation>, chosen: Representation, at: nat) {
    if chosen.templated.Bare? then forall rep :: rep in reps ==> rep.templated.Bare?
    else Chosen(reps, at) && chosen == reps[at]
  }

  lemma ScanOne(reps: seq<Representation>, chosen: Representation, at: nat, rep: Representation)
    requires Scanned(reps, chosen, at)
    ensures if rep.templated.With? && (chosen.templated.Bare? || rep.bandwidth < chosen.bandwidth)
            then Scanned(reps + [rep], rep, |reps|) else Scanned(reps + [rep], chosen, at)
  {
  }

  // No two outcomes are possible for one manifest.
  lemma SelectedUnique(reps: seq<Representation>, r: Result<Representation, Error>, r': Result<Representation, Error>)
    requires Selected(reps, r) && Selected(reps, r')
    ensures r == r'
  {
    if i: nat, j: nat :| Chosen(reps, i) && Chosen(reps, j) && i != j {
      assert false;
    }
  }

  // ---- Timeline

  datatype Span = Span(start: int, duration: int)

  function Occurrences(s: TimelineS): (n: nat)
    ensures n >= 1
  {
    if s.r < 0 then 1 else s.r + 1
  }

  function Repeated(start: int, duration: int, n: nat): seq<Span> {
    seq(n, k => Span(start + k * duration, duration))
  }

  // Where the last element of ss starts and where it ends
  function StartOf(ss: seq<TimelineS>): int
    requires ss != []
    decreases |ss|, 0
  {
    var s := ss[|ss| - 1];
    if s.t != 0 || |ss| == 1 then s.t else EndOf(ss[..|ss| - 1])
  }

  function EndOf(ss: seq<TimelineS>): int
    decreases |ss|, 1
  {
    if ss == [] then 0
    else var s := ss[|ss| - 1]; StartOf(ss) + Occurrences(s) * s.d
  }

  // Every segment the timeline describes, in order
  function Expanded(ss: seq<TimelineS>): seq<Span> {
    if ss == [] then []
    else
      var s := ss[|ss| - 1];
      Expanded(ss[..|ss| - 1]) + Repeated(StartOf(ss), s.d, Occurrences(s))
  }

  lemma ExpandedLast(ss: seq<TimelineS>)
    requires ss != []
    ensures |Expanded(ss)| >= 1
    ensures var s := ss[|ss| - 1];
            Expanded(ss)[|Expanded(ss)| - 1] == Span(StartOf(ss) + (Occurrences(s) - 1) * s.d, s.d)
  {
    var s := ss[|ss| - 1];
    var tail := Repeated(StartOf(ss), s.d, Occurrences(s));
    assert tail[|tail| - 1] == Span(StartOf(ss) + (Occurrences(s) - 1) * s.d, s.d);
  }

  // Each element describes one segment more than it repeats, one after another, from its own time if it
  // has one or is the first, and else from where the segments before it end.
  lemma ElementExpanded(ss: seq<TimelineS>, k: nat, m: nat)
    requires k < |ss| && m <= (if ss[k].r < 0 then 0 else ss[k].r)
    ensures var before, upTo := Expanded(ss[..k]), Expanded(ss[..k + 1]);
            && |upTo| == |before| + 1 + (if ss[k].r < 0 then 0 else ss[k].r) && before <= upTo
            && (k > 0 ==> before != [])
            && var start := if k == 0 || ss[k].t != 0 then ss[k].t else before[|before| - 1].start + before[|before| - 1].duration;
            upTo[|before| + m] == Span(start + m * ss[k].d, ss[k].d)
  {
    var init, all := ss[..k], ss[..k + 1];
    assert all[..|all| - 1] == init && all[|all| - 1] == ss[k];
    var tail := Repeated(StartOf(all), ss[k].d, Occurrences(ss[k]));
    assert Expanded(all) == Expanded(init) + tail;
    assert Expanded(all)[|Expanded(init)| + m] == tail[m] == Span(StartOf(all) + m * ss[k].d, ss[k].d);
    if k > 0 {
      ExpandedLast(init);
      var l := init[|init| - 1];
      assert (Occurrences(l) - 1) * l.d + l.d == Occurrences(l) * l.d;
      assert StartOf(all) == if ss[k].t != 0 then ss[k].t else EndOf(init);
    } else {
      assert Expanded(init) == [];
    }
  }

  // Without explicit times after the first, each segment starts where the one before it ends.
  lemma {:induction false} ExpandedContiguous(ss: seq<TimelineS>, i: nat)
    requires forall j :: 1 <= j < |ss| ==> ss[j].t == 0
    requires i + 1 < |Expanded(ss)|
    ensures Expanded(ss)[i + 1].start == Expanded(ss)[i].start + Expanded(ss)[i].duration
  {
    var init, s := ss[..|ss| - 1], ss[|ss| - 1];
    var head := Expanded(init);
    if i + 1 < |head| {
      ExpandedContiguous(init, i);
    } else if i + 1 == |head| {
      ExpandedLast(init);
      var l := init[|init| - 1];
      assert (Occurrences(l) - 1) * l.d + l.d == Occurrences(l) * l.d;
      assert Expanded(ss)[i + 1] == Repeated(StartOf(ss), s.d, Occurrences(s))[0];
      assert Expanded(ss)[i] == head[i] && StartOf(ss) == EndOf(init);
    } else {
      var k := i - |head|;
      assert Expanded(ss)[i] == Repeated(StartOf(ss), s.d, Occurrences(s))[k];
      assert Expanded(ss)[i + 1] == Repeated(StartOf(ss), s.d, Occurrences(s))[k + 1];
      assert (k + 1) * s.d == k * s.d + s.d;
    }
  }

  // ---- Duration mode

  function Ceil(x: real): (n: int)
    ensures n as real - 1.0 < x <= n as real
  {
    -((-x).Floor)
  }

  function Positive(timescale: int): int {
    if timescale <= 0 then 1 else timescale
  }

  // total is the parsed presentation duration in seconds.
  function EstimateSegmentCount(template: SegmentTemplate, timescale: int, total: Result<real, Error>): Result<int, Error> {
    if template.duration <= 0 then Err(DurationMissing)
    else if total.Err? then Err(total.error)
    else
      var segments := Ceil(total.value / (template.duration as real / Positive(timescale) as real));
      Ok(if segments < 1 then 1 else segments)
  }

  // n segments of duration ticks each are the fewest that cover total seconds.
  ghost predicate Covers(n: int, duration: int, timescale: int, total: real) {
    (n - 1) as real * duration as real < total * timescale as real <= n as real * duration as real
  }

  lemma CountCovers(template: SegmentTemplate, timescale: int, total: real)
    requires template.duration > 0
    ensures EstimateSegmentCount(template, timescale, Ok(total)).Ok?
    ensures var scale := if timescale <= 0 then 1 else timescale;
            total > 0.0 ==>
              forall n :: Covers(n, template.duration, scale, total) <==>
                          n == EstimateSegmentCount(template, timescale, Ok(total)).value
    ensures total <= 0.0 ==> EstimateSegmentCount(template, timescale, Ok(total)).value == 1
  {
    var d, ts := template.duration as real, Positive(timescale) as real;
    var q := total / (d / ts);
    Quotient(total, d, ts, q);
    forall n: int ensures Covers(n, template.duration, Positive(timescale), total) <==> n as real - 1.0 < q <= n as real {
      CoversScaled(n, template.duration, Positive(timescale), total, q);
    }
  }

  lemma CoversScaled(n: int, duration: int, timescale: int, total: real, q: real)
    requires duration > 0 && q * duration as real == total * timescale as real
    ensures Covers(n, duration, timescale, total) <==> n as real - 1.0 < q <= n as real
  {
    var d, ts, m := duration as real, timescale as real, (n - 1) as real;
    assert m == n as real - 1.0;
    Scale(m, q, d);
    Scale(n as real, q, d);
    var product := total * ts;
    assert m < q <==> m * d < product;
    assert q <= n as real <==> product <= n as real * d;
  }

  lemma Quotient(total: real, d: real, ts: real, q: real)
    requires d > 0.0 && ts > 0.0 && q == total / (d / ts)
    ensures q * d == total * ts && (q > 0.0 <==> total > 0.0)
  {
    assert q * (d / ts) == total;
    assert d / ts * ts == d;
    calc {
      q * d;
    ==
      q * (d / ts * ts);
    ==
      q * (d / ts) * ts;
    ==
      total * ts;
    }
  }

  lemma Scale(a: real, b: real, d: real)
    requires d > 0.0
    ensures a < b <==> a * d < b * d
  {
  }

  // ---- The latest segment

  // text is the media template filled in, still relative to the base URL.
  datatype Latest = Latest(number: nat, time: int, duration: real, text: string)

  function Numbered(startNumber: int, count: int): (n: nat)
    ensures n >= 1
  {
    var first := if startNumber == 0 then 1 else startNumber;
    if first + count - 1 < 1 then 1 else first + count - 1
  }

  // The segment that ends count segments of a template
  function LatestOf(template: SegmentTemplate, rep: Representation, count: int, last: Span): Latest {
    var number := Numbered(template.startNumber, count);
    Latest(number, last.start, last.duration as real / Positive(template.timescale) as real,
           Media.Fill(template.media, Media.Values(number, last.start, Media.Given(rep.id, rep.bandwidth))))
  }

  // The last of n segments of equal duration
  function Counted(template: SegmentTemplate, n: int): Span {
    Span((n - 1) * template.duration, template.duration)
  }

  // What one more S element adds to the expansion
  lemma OneMoreElement(ss: seq<TimelineS>, repeat: int)
    requires ss != [] && repeat == if ss[|ss| - 1].r < 0 then 0 else ss[|ss| - 1].r
    ensures |Expanded(ss)| == |Expanded(ss[..|ss| - 1])| + 1 + repeat
    ensures Expanded(ss)[|Expanded(ss)| - 1] == Span(StartOf(ss) + ss[|ss| - 1].d * repeat, ss[|ss| - 1].d)
    ensures EndOf(ss) == StartOf(ss) + ss[|ss| - 1].d * (repeat + 1)
  {
    var s := ss[|ss| - 1];
    ExpandedLast(ss);
    assert s.d * repeat == (Occurrences(s) - 1) * s.d && s.d * (repeat + 1) == Occurrences(s) * s.d;
  }

  // The loop over a timeline: how many segments, and where the last one starts and how long it is
  method ScanTimeline(ss: seq<TimelineS>) returns (ok: bool, count: int, time: int, duration: int)
    requires ss != []
    ensures ok <==> forall s :: s in ss ==> s.d != 0
    ensures ok ==> count == |Expanded(ss)| >= 1 && Expanded(ss)[count - 1] == Span(time, duration)
  {
    var currentTime := 0;
    count, time, duration := 0, 0, 0;
    for i := 0 to |ss|
      invariant forall j :: 0 <= j < i ==> ss[j].d != 0
      invariant currentTime == EndOf(ss[..i]) && count == |Expanded(ss[..i])|
      invariant i > 0 ==> count >= 1 && Expanded(ss[..i])[count - 1] == Span(time, duration)
    {
      var s := ss[i];
      if s.d == 0 {
        return false, count, time, duration;
      }
      if s.t != 0 || i == 0 {
        currentTime := s.t;
      }
      var repeat := if s.r < 0 then 0 else s.r;
      duration := s.d;
      time := currentTime + duration * repeat;
      count := count + 1 + repeat;
      currentTime := currentTime + duration * (repeat + 1);
      ghost var upTo := ss[..i + 1];
      assert upTo[..i] == ss[..i] && upTo[i] == s;
      OneMoreElement(upTo, repeat);
    }
    assert ss[..|ss|] == ss;
    ok := true;
  }

  // The segment that ends count segments, by the fields of the template: numbers begin at startNumber,
  // or at 1 where that is missing, and are at least 1; ticks are fractions of the timescale, or seconds.
  ghost predicate Describes(template: SegmentTemplate, rep: Representation, count: int, start: int, duration: int, latest: Latest) {
    var number := (if template.startNumber == 0 then 1 else template.startNumber) + count - 1;
    && latest.number == (if number < 1 then 1 else number)
    && latest.time == start
    && latest.duration == duration as real / (if template.timescale <= 0 then 1 else template.timescale) as real
    && latest.text == Media.Fill(template.media, Media.Values(latest.number, start, Media.Given(rep.id, rep.bandwidth)))
  }

  method BuildLatestDASHSegment(template: SegmentTemplate, rep: Representation, total: Result<real, Error>)
    returns (r: Result<Latest, Error>)
    ensures template.timeline != [] && (exists s :: s in template.timeline && s.d == 0) ==> r == Err(DurationMissing)
    ensures template.timeline != [] && (forall s :: s in template.timeline ==> s.d != 0) ==>
              var spans := Expanded(template.timeline);
              |spans| >= 1 && r == Ok(LatestOf(template, rep, |spans|, spans[|spans| - 1]))
    ensures template.timeline == [] ==>
              r == match EstimateSegmentCount(template, Positive(template.timescale), total)
                case Err(e) => Err(e)
                case Ok(n) => Ok(LatestOf(template, rep, n, Counted(template, n)))
    ensures template.timeline == [] && template.duration <= 0 ==> r == Err(DurationMissing)
    ensures template.timeline == [] && template.duration > 0 && total.Err? ==> r == Err(total.error)
    ensures r.Ok? && template.timeline != [] ==>
              var spans := Expanded(template.timeline);
              spans != [] && Describes(template, rep, |spans|, spans[|spans| - 1].start, spans[|spans| - 1].duration, r.value)
    ensures r.Ok? && template.timeline == [] ==>
              var count := EstimateSegmentCount(template, template.timescale, total);
              count.Ok? && Describes(template, rep, count.value, (count.value - 1) * template.duration, template.duration, r.value)
  {
    var timescale := if template.timescale <= 0 then 1 else template.timescale;
    var startNumber := if template.startNumber == 0 then 1 else template.startNumber;
    var timeValue, duration, segmentsCount;
    if template.timeline != [] {
      var ok;
      ok, segmentsCount, timeValue, duration := ScanTimeline(template.timeline);
      if !ok {
        return Err(DurationMissing);
      }
    } else {
      if template.duration == 0 {
        return Err(DurationMissing);
      }
      duration := template.duration;
      match EstimateSegmentCount(template, timescale, total) {
        case Err(e) => return Err(e);
        case Ok(n) => segmentsCount := n;
      }
      timeValue := (segmentsCount - 1) * duration;
    }
    if segmentsCount <= 0 {
      segmentsCount := 1;
    }
    var number := startNumber + segmentsCount - 1;
    if number < 1 {
      number := 1;
    }
    var text := Media.Fill(template.media, Media.Values(number, timeValue, Media.Given(rep.id, rep.bandwidth)));
    r := Ok(Latest(number, timeValue, duration as real / timescale as real, text));
  }

  // Two latest segments of templates with one text: a number in it, and no time, or one that is kept
  // apart from the number or has not gone back, and their texts tell their numbers apart.
  lemma NumbersTellApart(a: SegmentTemplate, b: SegmentTemplate, rep: Representation, ps: seq<Media.Piece>,
                         n: int, x: Span, m: int, y: Span)
    requires Media.Leftmost(ps) && Media.Text(ps) == a.media == b.media && Media.Field(Media.Number) in ps
    requires Media.Field(Media.Time) !in ps || Media.Separated(ps) ||
             (Numbered(a.startNumber, n) <= Numbered(b.startNumber, m) && 0 <= x.start <= y.start)
    ensures var before, after := LatestOf(a, rep, n, x), LatestOf(b, rep, m, y);
            before.number != after.number ==> before.text != after.text
  {
    var given := Media.Given(rep.id, rep.bandwidth);
    var v := Media.Values(Numbered(a.startNumber, n), x.start, given);
    var w := Media.Values(Numbered(b.startNumber, m), y.start, given);
    if Media.Field(Media.Time) !in ps {
      Media.FillInjectiveInNumber(ps, v, w);
    } else if Media.Separated(ps) {
      Media.SameFillSeparated(ps, v, w);
    } else {
      Media.NeitherGoesBack(v, w);
      Media.SameFillOnward(ps, v, w);
    }
  }

  // Otherwise they need not: a manifest whose timeline starts over tells segment 11 like segment 1.
  lemma NumbersCollide(rep: Representation, duration: int)
    requires duration != 0
    ensures var first := SegmentTemplate(1, duration, 1, "$Number$$Time$", [TimelineS(11, duration, 0)]);
            var second := SegmentTemplate(1, duration, 11, "$Number$$Time$", [TimelineS(1, duration, 0)]);
            var before := LatestOf(first, rep, 1, Span(11, duration));
            var after := LatestOf(second, rep, 1, Span(1, duration));
            && Expanded(first.timeline) == [Span(11, duration)] && Expanded(second.timeline) == [Span(1, duration)]
            && before.number == 1 && after.number == 11 && before.text == after.text
  {
    OneElement(11, duration);
    OneElement(1, duration);
    Media.NumberAndTimeCollide(Media.Given(rep.id, rep.bandwidth));
  }

  lemma OneElement(start: int, duration: int)
    ensures Expanded([TimelineS(start, duration, 0)]) == [Span(start, duration)]
  {
    var ss := [TimelineS(start, duration, 0)];
    assert ss[..|ss| - 1] == [];
    assert Expanded(ss) == Repeated(StartOf(ss), duration, 1);
    assert Repeated(start, duration, 1)[0] == Span(start, duration);
  }

  // Without a timeline, texts tell numbers apart whether or not the template has a time.
  lemma EstimatesTellApart(template: SegmentTemplate, rep: Representation, ps: seq<Media.Piece>, n: nat, m: nat)
    requires Media.Leftmost(ps) && Media.Text(ps) == template.media && Media.Field(Media.Number) in ps
    requires template.duration > 0 && 1 <= n && 1 <= m
    ensures var before, after := LatestOf(template, rep, n, Counted(template, n)), LatestOf(template, rep, m, Counted(template, m));
            before.number != after.number ==> before.text != after.text
  {
    if n <= m {
      CountedOnward(template, n, m);
      NumbersTellApart(template, template, rep, ps, n, Counted(template, n), m, Counted(template, m));
    } else {
      CountedOnward(template, m, n);
      NumbersTellApart(template, template, rep, ps, m, Counted(template, m), n, Counted(template, n));
    }
  }

  lemma CountedOnward(template: SegmentTemplate, n: nat, m: nat)
    requires template.duration > 0 && 1 <= n <= m
    ensures 0 <= Counted(template, n).start <= Counted(template, m).start
    ensures Numbered(template.startNumber, n) <= Numbered(template.startNumber, m)
  {
    Ordered(n - 1, m - 1, template.duration);
  }

  lemma Ordered(a: nat, b: nat, d: nat)
    requires a <= b
    ensures 0 <= a * d <= b * d
  {
  }
}
