/** Filling a DASH media template: every $Number$, $Time$, $RepresentationID$ and $Bandwidth$, found
  * leftmost first and without overlaps, is replaced in one pass.
  */
module SegmentTemplate {

  datatype Token = Number | Time | RepresentationID | Bandwidth

  datatype Piece = Literal(c: char) | Field(token: Token)

  datatype Representation = Absent | Given(id: string, bandwidth: int)

  datatype Values = Values(number: nat, time: int, representation: Representation)

  function Spelling(t: Token): (s: string)
    ensures |s| >= 1
  {
    match t
    case Number => "$Number$"
    case Time => "$Time$"
    case RepresentationID => "$RepresentationID$"
    case Bandwidth => "$Bandwidth$"
  }

  // The decimal digits of n, as strconv.FormatUint writes them
  function Decimal(n: nat): (s: string)
    ensures s != [] && DecimalValue(s) == n
  {
    if n < 10 then ['0' + n as char]
    else
      var s := Decimal(n / 10) + ['0' + (n % 10) as char];
      assert s[..|s| - 1] == Decimal(n / 10);
      s
  }

  function DecimalValue(s: string): int {
    if s == [] then 0 else DecimalValue(s[..|s| - 1]) * 10 + (s[|s| - 1] as int - '0' as int)
  }

  function FormatInt(i: int): string {
    if i < 0 then "-" + Decimal(-i) else Decimal(i)
  }

  function Value(v: Values, t: Token): string {
    match t
    case Number => Decimal(v.number)
    case Time => FormatInt(v.time)
    case RepresentationID => if v.representation.Given? then v.representation.id else ""
    case Bandwidth => if v.representation.Given? then FormatInt(v.representation.bandwidth) else ""
  }

  predicate Matches(s: string, t: Token) {
    Spelling(t) <= s
  }

  // The replacement as the regular expression engine performs it
  function Fill(media: string, v: Values): string {
    if media == [] then []
    else if Matches(media, Number) then Value(v, Number) + Fill(media[|Spelling(Number)|..], v)
    else if Matches(media, Time) then Value(v, Time) + Fill(media[|Spelling(Time)|..], v)
    else if Matches(media, RepresentationID) then Value(v, RepresentationID) + Fill(media[|Spelling(RepresentationID)|..], v)
    else if Matches(media, Bandwidth) then Value(v, Bandwidth) + Fill(media[|Spelling(Bandwidth)|..], v)
    else [media[0]] + Fill(media[1..], v)
  }

  // ---- Pieces

  function Spelled(p: Piece): string {
    match p case Literal(c) => [c] case Field(t) => Spelling(t)
  }

  function Text(ps: seq<Piece>): string {
    if ps == [] then []
    else Spelled(ps[0]) + Text(ps[1..])
  }

  lemma TextSplits(ps: seq<Piece>)
    requires ps != []
    ensures Spelled(ps[0]) <= Text(ps) && Text(ps)[|Spelled(ps[0])|..] == Text(ps[1..])
  {
  }

  function Rendered(p: Piece, v: Values): string {
    match p case Literal(c) => [c] case Field(t) => Value(v, t)
  }

  function Substituted(ps: seq<Piece>, v: Values): string {
    if ps == [] then []
    else Rendered(ps[0], v) + Substituted(ps[1..], v)
  }

  // No token starts where a literal stands: tokens are taken as early as possible.
  ghost predicate Leftmost(ps: seq<Piece>) {
    ps == [] || (Leftmost(ps[1..]) && (ps[0].Literal? ==> forall t :: !Matches(Text(ps), t)))
  }

  lemma OneToken(s: string, t: Token, t': Token)
    requires Matches(s, t) && Matches(s, t')
    ensures t == t'
  {
    assert s[1] == Spelling(t)[1] == Spelling(t')[1];
  }

  lemma {:induction false} Pieces(media: string) returns (ps: seq<Piece>)
    ensures Leftmost(ps) && Text(ps) == media
    decreases |media|
  {
    if media == [] {
      ps := [];
    } else if t :| Matches(media, t) {
      var rest := Pieces(media[|Spelling(t)|..]);
      ps := [Field(t)] + rest;
      assert ps[1..] == rest;
    } else {
      var rest := Pieces(media[1..]);
      ps := [Literal(media[0])] + rest;
      assert ps[1..] == rest && Spelled(ps[0]) == [media[0]];
      assert [media[0]] + media[1..] == media;
    }
  }

  // Filling substitutes the tokens of the leftmost decomposition and nothing else; in particular
  // substituted text is never scanned again.
  lemma {:induction false} FillSubstitutes(ps: seq<Piece>, v: Values)
    requires Leftmost(ps)
    ensures Fill(Text(ps), v) == Substituted(ps, v)
    decreases |ps|
  {
    if ps != [] {
      var media := Text(ps);
      FillSubstitutes(ps[1..], v);
      match ps[0] {
        case Literal(c) =>
          assert media[1..] == Text(ps[1..]);
          assert !Matches(media, Number) && !Matches(media, Time) && !Matches(media, RepresentationID) && !Matches(media, Bandwidth);
        case Field(t) =>
          assert Matches(media, t) && media[|Spelling(t)|..] == Text(ps[1..]);
          if Matches(media, Number) {
            OneToken(media, t, Number);
          } else if Matches(media, Time) {
            OneToken(media, t, Time);
          } else if Matches(media, RepresentationID) {
            OneToken(media, t, RepresentationID);
          }
      }
    }
  }

  // The decomposition is unique.
  lemma {:induction false} LeftmostUnique(ps: seq<Piece>, qs: seq<Piece>)
    requires Leftmost(ps) && Leftmost(qs) && Text(ps) == Text(qs)
    ensures ps == qs
    decreases |ps|
  {
    if ps != [] && qs != [] {
      SameHead(ps, qs);
      TextSplits(ps);
      TextSplits(qs);
      LeftmostUnique(ps[1..], qs[1..]);
      assert ps == [ps[0]] + ps[1..] && qs == [qs[0]] + qs[1..];
    }
  }

  lemma SameHead(ps: seq<Piece>, qs: seq<Piece>)
    requires Leftmost(ps) && Leftmost(qs) && Text(ps) == Text(qs) && ps != [] && qs != []
    ensures ps[0] == qs[0]
  {
    var media := Text(ps);
    TextSplits(ps);
    TextSplits(qs);
    if ps[0].Field? {
      assert Matches(media, ps[0].token);
    }
    if qs[0].Field? {
      assert Matches(media, qs[0].token);
    }
    if ps[0].Field? && qs[0].Field? {
      OneToken(media, ps[0].token, qs[0].token);
    } else {
      assert ps[0].Literal? && qs[0].Literal?;
      assert Spelled(ps[0])[0] == media[0] == Spelled(qs[0])[0];
    }
  }

  // What each token stands for
  lemma EachToken(v: Values)
    ensures Fill("$Number$", v) == Decimal(v.number)
    ensures Fill("$Time$", v) == if v.time < 0 then "-" + Decimal(-v.time) else Decimal(v.time)
    ensures Fill("$RepresentationID$", v) == match v.representation case Given(id, _) => id case Absent => ""
    ensures Fill("$Bandwidth$", v) ==
            match v.representation
            case Given(_, bandwidth) => if bandwidth < 0 then "-" + Decimal(-bandwidth) else Decimal(bandwidth)
            case Absent => ""
  {
    OneField(Number, v);
    OneField(Time, v);
    OneField(RepresentationID, v);
    OneField(Bandwidth, v);
  }

  lemma OneField(t: Token, v: Values)
    ensures Fill(Spelling(t), v) == Value(v, t)
  {
    var ps := [Field(t)];
    assert ps[1..] == [];
    assert Text(ps) == Spelling(t) + Text([]) == Spelling(t);
    FillSubstitutes(ps, v);
    assert Substituted(ps, v) == Value(v, t) + Substituted([], v) == Value(v, t);
  }

  // The digits of a number are the only way to write it with digits and without a leading zero.
  lemma {:induction false} DecimalUnique(s: string, n: nat)
    requires AllDigits(s) && s != [] && (|s| > 1 ==> s[0] != '0') && DecimalValue(s) == n
    ensures s == Decimal(n)
    decreases |s|
  {
    var front, last := s[..|s| - 1], s[|s| - 1];
    assert s == front + [last] && last in s;
    if front == [] {
      assert DecimalValue(front) == 0;
    } else {
      assert forall c :: c in front ==> c in s;
      ValuePositive(front);
      var tens := DecimalValue(front);
      var d := last as int - '0' as int;
      assert n == tens * 10 + d && 0 <= d < 10;
      assert n / 10 == tens && n % 10 == d;
      DecimalUnique(front, tens);
    }
  }

  lemma {:induction false} ValuePositive(s: string)
    requires AllDigits(s) && s != [] && s[0] != '0'
    ensures DecimalValue(s) > 0
    decreases |s|
  {
    var front := s[..|s| - 1];
    assert s[0] in s && s[|s| - 1] in s;
    if front != [] {
      assert forall c :: c in front ==> c in s;
      ValuePositive(front);
    }
  }

  lemma {:induction false} NoLeadingZero(n: nat)
    ensures AllDigits(Decimal(n)) && (|Decimal(n)| > 1 ==> Decimal(n)[0] != '0')
    ensures n > 0 ==> Decimal(n)[0] != '0'
  {
    DigitsOnly(n);
    if n >= 10 {
      NoLeadingZero(n / 10);
    }
  }

  // ---- When filled strings differ

  // The same representation, and neither rendering gets shorter
  ghost predicate Onward(v: Values, w: Values) {
    && w.representation == v.representation
    && |Value(v, Number)| <= |Value(w, Number)| && |Value(v, Time)| <= |Value(w, Time)|
  }

  lemma {:induction false} LongerNumbers(m: nat, n: nat)
    requires m <= n
    ensures |Decimal(m)| <= |Decimal(n)|
  {
    if n >= 10 && m >= 10 {
      LongerNumbers(m / 10, n / 10);
    }
  }

  lemma NeitherGoesBack(v: Values, w: Values)
    requires w.representation == v.representation && v.number <= w.number && (v.time == w.time || 0 <= v.time <= w.time)
    ensures Onward(v, w)
  {
    LongerNumbers(v.number, w.number);
    if 0 <= v.time {
      LongerNumbers(v.time, w.time);
    }
  }

  // Every piece grows, so where the whole is the same, every piece is.
  lemma {:induction false} SamePieces(ps: seq<Piece>, v: Values, w: Values)
    requires Onward(v, w)
    ensures |Substituted(ps, v)| <= |Substituted(ps, w)|
    ensures Substituted(ps, v) == Substituted(ps, w) ==> forall p :: p in ps ==> Rendered(p, v) == Rendered(p, w)
    decreases |ps|
  {
    if ps != [] {
      SamePieces(ps[1..], v, w);
      PieceGrows(ps[0], v, w);
      SubstitutedSplits(ps, v);
      SubstitutedSplits(ps, w);
    }
  }

  lemma PieceGrows(p: Piece, v: Values, w: Values)
    requires Onward(v, w)
    ensures |Rendered(p, v)| <= |Rendered(p, w)|
  {
  }

  lemma SubstitutedSplits(ps: seq<Piece>, v: Values)
    requires ps != []
    ensures Rendered(ps[0], v) <= Substituted(ps, v)
    ensures Substituted(ps, v)[|Rendered(ps[0], v)|..] == Substituted(ps[1..], v)
  {
  }

  lemma {:induction false} SameSubstituted(ps: seq<Piece>, v: Values, w: Values)
    requires forall p :: p in ps ==> Rendered(p, v) == Rendered(p, w)
    ensures Substituted(ps, v) == Substituted(ps, w)
    decreases |ps|
  {
    if ps != [] {
      SameSubstituted(ps[1..], v, w);
    }
  }

  lemma SameDigits(m: nat, n: nat)
    requires Decimal(m) == Decimal(n)
    ensures m == n
  {
    assert DecimalValue(Decimal(m)) == m;
  }

  predicate IsDigit(c: char) {
    '0' <= c <= '9'
  }

  predicate AllDigits(s: string) {
    forall c :: c in s ==> IsDigit(c)
  }

  lemma {:induction false} DigitsOnly(n: nat)
    ensures AllDigits(Decimal(n))
  {
    if n >= 10 {
      DigitsOnly(n / 10);
    }
  }

  lemma SignShows(i: int)
    ensures FormatInt(i) != [] && (FormatInt(i)[0] == '-' <==> i < 0)
    ensures AllDigits(FormatInt(i)) <==> i >= 0
  {
    if i >= 0 {
      DigitsOnly(i);
      assert FormatInt(i)[0] in Decimal(i);
    } else {
      assert FormatInt(i)[0] == '-' && '-' in FormatInt(i);
    }
  }

  lemma SameInt(i: int, j: int)
    requires FormatInt(i) == FormatInt(j)
    ensures i == j
  {
    SignShows(i);
    SignShows(j);
    if i < 0 && j < 0 {
      assert FormatInt(i)[1..] == Decimal(-i) && FormatInt(j)[1..] == Decimal(-j);
      SameDigits(-i, -j);
    } else if i >= 0 && j >= 0 {
      SameDigits(i, j);
    }
  }

  // v and w agree in whatever the template mentions.
  ghost predicate Agree(ps: seq<Piece>, v: Values, w: Values) {
    (Field(Number) in ps ==> v.number == w.number) && (Field(Time) in ps ==> v.time == w.time)
  }

  lemma AgreeMeansRendered(ps: seq<Piece>, v: Values, w: Values)
    requires w.representation == v.representation
    ensures Agree(ps, v, w) <==> forall p :: p in ps ==> Rendered(p, v) == Rendered(p, w)
  {
    if forall p :: p in ps ==> Rendered(p, v) == Rendered(p, w) {
      if Field(Number) in ps {
        assert Rendered(Field(Number), v) == Rendered(Field(Number), w);
        SameDigits(v.number, w.number);
      }
      if Field(Time) in ps {
        assert Rendered(Field(Time), v) == Rendered(Field(Time), w);
        SameInt(v.time, w.time);
      }
    }
  }

  // Unless one gets longer and the other shorter, strings are the same only where the values are.
  lemma SameOnward(ps: seq<Piece>, v: Values, w: Values)
    requires Onward(v, w)
    ensures Substituted(ps, v) == Substituted(ps, w) <==> Agree(ps, v, w)
  {
    AgreeMeansRendered(ps, v, w);
    if Substituted(ps, v) == Substituted(ps, w) {
      SamePieces(ps, v, w);
    } else if Agree(ps, v, w) {
      SameSubstituted(ps, v, w);
    }
  }

  lemma OneConstant(ps: seq<Piece>, v: Values, w: Values)
    requires w.representation == v.representation
    requires v.number == w.number || v.time == w.time
    ensures Substituted(ps, v) == Substituted(ps, w) <==> Agree(ps, v, w)
  {
    if Onward(v, w) {
      SameOnward(ps, v, w);
    } else {
      SameOnward(ps, w, v);
    }
  }

  // A token that is not there can be given any value.
  lemma Unused(ps: seq<Piece>, v: Values, w: Values)
    requires w.representation == v.representation && Agree(ps, v, w)
    ensures Substituted(ps, v) == Substituted(ps, w)
  {
    AgreeMeansRendered(ps, v, w);
    SameSubstituted(ps, v, w);
  }

  lemma OneVariable(ps: seq<Piece>, v: Values, w: Values)
    requires w.representation == v.representation
    requires Field(Time) !in ps || Field(Number) !in ps
    ensures Substituted(ps, v) == Substituted(ps, w) <==> Agree(ps, v, w)
  {
    var w' := if Field(Time) !in ps then w.(time := v.time) else w.(number := v.number);
    Unused(ps, w, w');
    OneConstant(ps, v, w');
  }

  lemma SameFillOnward(ps: seq<Piece>, v: Values, w: Values)
    requires Leftmost(ps) && Onward(v, w)
    ensures Fill(Text(ps), v) == Fill(Text(ps), w) <==> Agree(ps, v, w)
  {
    FillSubstitutes(ps, v);
    FillSubstitutes(ps, w);
    SameOnward(ps, v, w);
  }

  // With a $Number$ in the template and no $Time$, different segment numbers give different strings.
  lemma FillInjectiveInNumber(ps: seq<Piece>, v: Values, w: Values)
    requires Leftmost(ps) && w.representation == v.representation
    requires w.time == v.time || Field(Time) !in ps
    ensures Fill(Text(ps), v) == Fill(Text(ps), w) <==> (Field(Number) in ps ==> v.number == w.number)
  {
    FillSubstitutes(ps, v);
    FillSubstitutes(ps, w);
    if w.time == v.time {
      OneConstant(ps, v, w);
    } else {
      OneVariable(ps, v, w);
    }
  }

  // ---- Numbers and times kept apart

  predicate Separates(p: Piece) {
    p.Literal? && !IsDigit(p.c)
  }

  predicate Mixed(p: Piece, q: Piece) {
    (p == Field(Number) && q == Field(Time)) || (p == Field(Time) && q == Field(Number))
  }

  // Between a number and a time there is a character that is no digit.
  ghost predicate Separated(ps: seq<Piece>) {
    forall i, j :: 0 <= i < j < |ps| && Mixed(ps[i], ps[j]) ==> exists k :: i < k < j && Separates(ps[k])
  }

  // How many digits s begins with
  function DigitRun(s: string): nat {
    if s == [] || !IsDigit(s[0]) then 0 else 1 + DigitRun(s[1..])
  }

  lemma {:induction false} DigitRunJoined(a: string, b: string)
    ensures DigitRun(a + b) == if AllDigits(a) then |a| + DigitRun(b) else DigitRun(a)
    decreases |a|
  {
    if a == [] {
      assert a + b == b;
    } else {
      assert (a + b)[1..] == a[1..] + b;
      assert a == [a[0]] + a[1..];
      DigitRunJoined(a[1..], b);
    }
  }

  // How many pieces are written in digits only before one is not
  function Lead(ps: seq<Piece>, v: Values): (n: nat)
    ensures n <= |ps|
  {
    if ps == [] || !AllDigits(Rendered(ps[0], v)) then 0 else 1 + Lead(ps[1..], v)
  }

  lemma {:induction false} LeadEnds(ps: seq<Piece>, v: Values)
    ensures forall i :: 0 <= i < Lead(ps, v) ==> AllDigits(Rendered(ps[i], v))
    ensures Lead(ps, v) < |ps| ==> !AllDigits(Rendered(ps[Lead(ps, v)], v))
    decreases |ps|
  {
    if ps != [] {
      LeadEnds(ps[1..], v);
    }
  }

  lemma {:induction false} RunEnds(ps: seq<Piece>, v: Values)
    ensures var n := Lead(ps, v);
            DigitRun(Substituted(ps, v)) == |Substituted(ps[..n], v)| + (if n < |ps| then DigitRun(Rendered(ps[n], v)) else 0)
    ensures Substituted(ps[..Lead(ps, v)], v) <= Substituted(ps, v)
    decreases |ps|
  {
    if ps != [] {
      DigitRunJoined(Rendered(ps[0], v), Substituted(ps[1..], v));
      RunEnds(ps[1..], v);
      if AllDigits(Rendered(ps[0], v)) {
        assert ps[..Lead(ps, v)][1..] == ps[1..][..Lead(ps[1..], v)];
      }
    }
  }

  // The values of v and w are written alike in as far as digits go: both in digits, or neither.
  ghost predicate Alike(v: Values, w: Values) {
    w.representation == v.representation && (v.time < 0 <==> w.time < 0)
  }

  lemma AlikeRendered(p: Piece, v: Values, w: Values)
    requires Alike(v, w)
    ensures AllDigits(Rendered(p, v)) <==> AllDigits(Rendered(p, w))
    ensures !AllDigits(Rendered(p, v)) ==> DigitRun(Rendered(p, v)) == DigitRun(Rendered(p, w))
    ensures p == Field(Number) || (p == Field(Time) && v.time >= 0) ==> AllDigits(Rendered(p, v))
    ensures p == Field(Time) && v.time < 0 ==> !AllDigits(Rendered(p, v))
  {
    DigitsOnly(v.number);
    DigitsOnly(w.number);
    SignShows(v.time);
    SignShows(w.time);
  }

  lemma {:induction false} SameLead(ps: seq<Piece>, v: Values, w: Values)
    requires Alike(v, w)
    ensures Lead(ps, v) == Lead(ps, w)
    decreases |ps|
  {
    if ps != [] {
      AlikeRendered(ps[0], v, w);
      SameLead(ps[1..], v, w);
    }
  }

  lemma DigitsSeparateNothing(p: Piece, v: Values)
    requires AllDigits(Rendered(p, v))
    ensures !Separates(p)
  {
    if p.Literal? {
      assert p.c in Rendered(p, v);
    }
  }

  // As long as there are only digits, the other kind of field cannot come.
  lemma OneKindLeads(ps: seq<Piece>, v: Values, i: nat)
    requires Separated(ps) && i < |ps| && i <= Lead(ps, v)
    ensures !Mixed(ps[0], ps[i])
  {
    LeadEnds(ps, v);
    forall k | 0 < k < i ensures !Separates(ps[k]) {
      DigitsSeparateNothing(ps[k], v);
    }
  }

  lemma LeadOfOneKind(ps: seq<Piece>, v: Values)
    requires Separated(ps) && ps != []
    ensures forall p :: p in ps[..Lead(ps, v)] ==> !Mixed(ps[0], p)
  {
    forall i | 0 <= i < Lead(ps, v) ensures !Mixed(ps[0], ps[i]) {
      OneKindLeads(ps, v, i);
    }
  }

  lemma LeadsWrittenAlike(ps: seq<Piece>, v: Values, w: Values)
    requires Substituted(ps, v) == Substituted(ps, w) && Lead(ps, v) == Lead(ps, w)
    requires Lead(ps, v) < |ps| ==> DigitRun(Rendered(ps[Lead(ps, v)], v)) == DigitRun(Rendered(ps[Lead(ps, v)], w))
    ensures Substituted(ps[..Lead(ps, v)], v) == Substituted(ps[..Lead(ps, v)], w)
  {
    RunEnds(ps, v);
    RunEnds(ps, w);
  }

  // Where strings begin with equally many digits and no times are among them, the numbers are the same.
  lemma LeadDecides(ps: seq<Piece>, v: Values, w: Values)
    requires w.representation == v.representation && ps != [] && ps[0].Field? && Separated(ps)
    requires ps[0] == Field(Number) || ps[0] == Field(Time)
    requires Substituted(ps, v) == Substituted(ps, w) && Lead(ps, v) == Lead(ps, w) > 0
    requires Lead(ps, v) < |ps| ==> DigitRun(Rendered(ps[Lead(ps, v)], v)) == DigitRun(Rendered(ps[Lead(ps, v)], w))
    ensures Rendered(ps[0], v) == Rendered(ps[0], w)
  {
    var lead := ps[..Lead(ps, v)];
    LeadsWrittenAlike(ps, v, w);
    LeadOfOneKind(ps, v);
    assert ps[0] == lead[0] && ps[0] in lead;
    OneVariable(lead, v, w);
    AgreeMeansRendered(lead, v, w);
  }

  lemma NumberFirst(ps: seq<Piece>, v: Values, w: Values)
    requires w.representation == v.representation && ps != [] && ps[0] == Field(Number) && Separated(ps)
    requires Substituted(ps, v) == Substituted(ps, w)
    ensures v.number == w.number
  {
    var n, m := Lead(ps, v), Lead(ps, w);
    LeadEnds(ps, v);
    LeadEnds(ps, w);
    DigitsOnly(v.number);
    DigitsOnly(w.number);
    if n < |ps| {
      OneKindLeads(ps, v, n);
    }
    if m < |ps| {
      OneKindLeads(ps, w, m);
    }
    LeadDecides(ps, v, w);
    SameDigits(v.number, w.number);
  }

  lemma TimeFirst(ps: seq<Piece>, v: Values, w: Values)
    requires w.representation == v.representation && ps != [] && ps[0] == Field(Time) && Separated(ps)
    requires Substituted(ps, v) == Substituted(ps, w)
    ensures v.time == w.time
  {
    SameSign(ps, v, w);
    AlikeRendered(ps[0], v, w);
    if v.time < 0 {
      NegativeFirst(ps, v, w);
    } else {
      SameLead(ps, v, w);
      LeadEnds(ps, v);
      if Lead(ps, v) < |ps| {
        AlikeRendered(ps[Lead(ps, v)], v, w);
      }
      LeadDecides(ps, v, w);
    }
    SameInt(v.time, w.time);
  }

  lemma SameSign(ps: seq<Piece>, v: Values, w: Values)
    requires w.representation == v.representation && ps != [] && ps[0] == Field(Time)
    requires Substituted(ps, v) == Substituted(ps, w)
    ensures Alike(v, w)
  {
    SubstitutedSplits(ps, v);
    SubstitutedSplits(ps, w);
    SignShows(v.time);
    SignShows(w.time);
    assert FormatInt(v.time)[0] == Substituted(ps, v)[0] == FormatInt(w.time)[0];
  }

  // Of negative times, the digits after the sign go on up to the next sign at most.
  lemma NegativeFirst(ps: seq<Piece>, v: Values, w: Values)
    requires Alike(v, w) && v.time < 0 && ps != [] && ps[0] == Field(Time) && Separated(ps)
    requires Substituted(ps, v) == Substituted(ps, w)
    ensures Rendered(ps[0], v) == Rendered(ps[0], w)
  {
    AfterTheSign(ps, v);
    AfterTheSign(ps, w);
    NegativeRest(ps, v, w);
    SubstitutedSplits(ps, v);
    SubstitutedSplits(ps, w);
    assert Rendered(ps[0], v) == Substituted(ps, v)[..|Rendered(ps[0], v)|] == Rendered(ps[0], w);
  }

  lemma AfterTheSign(ps: seq<Piece>, v: Values)
    requires v.time < 0 && ps != [] && ps[0] == Field(Time)
    ensures Substituted(ps, v) != []
    ensures DigitRun(Substituted(ps, v)[1..]) == |Rendered(ps[0], v)| - 1 + DigitRun(Substituted(ps[1..], v))
  {
    var digits, rest := Decimal(-v.time), Substituted(ps[1..], v);
    DigitsOnly(-v.time);
    DigitRunJoined(digits, rest);
    assert Substituted(ps, v) == Rendered(ps[0], v) + rest && Rendered(ps[0], v) == "-" + digits;
    WithoutSign(digits, rest);
  }

  lemma WithoutSign(digits: string, rest: string)
    ensures ("-" + digits + rest)[1..] == digits + rest
  {
  }

  lemma NegativeRest(ps: seq<Piece>, v: Values, w: Values)
    requires Alike(v, w) && v.time < 0 && ps != [] && ps[0] == Field(Time) && Separated(ps)
    ensures DigitRun(Substituted(ps[1..], v)) == DigitRun(Substituted(ps[1..], w))
  {
    var rest := ps[1..];
    var n := Lead(rest, v);
    SameLead(rest, v, w);
    RunEnds(rest, v);
    RunEnds(rest, w);
    ConstantLead(ps, v);
    AgreeMeansRendered(rest[..n], v, w);
    SameSubstituted(rest[..n], v, w);
    LeadEnds(rest, v);
    if n < |rest| {
      AlikeRendered(rest[n], v, w);
    }
  }

  lemma ConstantLead(ps: seq<Piece>, v: Values)
    requires v.time < 0 && ps != [] && ps[0] == Field(Time) && Separated(ps)
    ensures var lead := ps[1..][..Lead(ps[1..], v)];
            Field(Number) !in lead && Field(Time) !in lead
  {
    var n := Lead(ps[1..], v);
    LeadEnds(ps[1..], v);
    SignShows(v.time);
    forall k | 0 < k <= n ensures !Separates(ps[k]) && ps[k] != Field(Time) {
      assert ps[k] == ps[1..][k - 1];
      DigitsSeparateNothing(ps[k], v);
    }
    forall i | 0 <= i < n ensures ps[1..][i] != Field(Number) {
      assert Mixed(ps[0], ps[i + 1]) <==> ps[1..][i] == Field(Number);
    }
  }

  lemma SeparatedRest(ps: seq<Piece>)
    requires Separated(ps) && ps != []
    ensures Separated(ps[1..])
  {
    var rest := ps[1..];
    forall i, j | 0 <= i < j < |rest| && Mixed(rest[i], rest[j])
      ensures exists k :: i < k < j && Separates(rest[k])
    {
      assert Mixed(ps[i + 1], ps[j + 1]);
      var k :| i + 1 < k < j + 1 && Separates(ps[k]);
      assert Separates(rest[k - 1]);
    }
  }

  lemma {:induction false} SeparatedAgree(ps: seq<Piece>, v: Values, w: Values)
    requires w.representation == v.representation && Separated(ps)
    requires Substituted(ps, v) == Substituted(ps, w)
    ensures Agree(ps, v, w)
    decreases |ps|
  {
    if ps != [] {
      if ps[0] == Field(Number) {
        NumberFirst(ps, v, w);
        OneConstant(ps, v, w);
      } else if ps[0] == Field(Time) {
        TimeFirst(ps, v, w);
        OneConstant(ps, v, w);
      } else {
        SubstitutedSplits(ps, v);
        SubstitutedSplits(ps, w);
        SeparatedRest(ps);
        SeparatedAgree(ps[1..], v, w);
      }
    }
  }

  // Where numbers and times are kept apart, strings are the same only where the values are.
  lemma SameFillSeparated(ps: seq<Piece>, v: Values, w: Values)
    requires Leftmost(ps) && Separated(ps) && w.representation == v.representation
    ensures Fill(Text(ps), v) == Fill(Text(ps), w) <==> Agree(ps, v, w)
  {
    FillSubstitutes(ps, v);
    FillSubstitutes(ps, w);
    if Substituted(ps, v) == Substituted(ps, w) {
      SeparatedAgree(ps, v, w);
    } else if Agree(ps, v, w) {
      Unused(ps, v, w);
    }
  }

  // With both, they need not: here the number goes up while the time goes back.
  lemma NumberAndTimeCollide(r: Representation)
    ensures Fill("$Number$$Time$", Values(1, 11, r)) == Fill("$Number$$Time$", Values(11, 1, r))
  {
    FillTwo(Values(1, 11, r));
    FillTwo(Values(11, 1, r));
    assert Decimal(11) == Decimal(1) + Decimal(1);
  }

  lemma FillTwo(v: Values)
    ensures Fill("$Number$$Time$", v) == Value(v, Number) + Value(v, Time)
  {
    var ps := [Field(Number), Field(Time)];
    assert ps[1..] == [Field(Time)] && ps[1..][1..] == [];
    assert Text(ps[1..]) == Spelled(Field(Time));
    assert Text(ps) == Spelled(Field(Number)) + Spelled(Field(Time));
    assert "$Number$" + "$Time$" == "$Number$$Time$";
    FillSubstitutes(ps, v);
    assert Substituted(ps[1..], v) == Value(v, Time);
  }
}
