/** The language of the webhooks a run attempts. */
module WorkerLanguage {
  import opened WorkerHistory

  predicate IsAlert(e: Event) {
    e == Suspended || e == Resumed || e == SegmentError || e.Alarm? || e.Recovery?
  }

  predicate AllAlerts(es: seq<Event>) {
    forall e :: e in es ==> IsAlert(e)
  }

  datatype Ending = Open | Once | Twice | ThenError

  function Tail(e: Ending): seq<Event> {
    match e
    case Open => []
    case Once => [Ended]
    case Twice => [Ended, Ended]
    case ThenError => [Ended, SegmentError]
  }

  // delayed? (ended | started alert* (ended (ended | segment_error)?)?)?
  datatype Word = Unwatched(delayed: bool, ended: bool) | Watched(delayed: bool, alerts: seq<Event>, ending: Ending)

  predicate ValidWord(w: Word) {
    w.Watched? ==> AllAlerts(w.alerts)
  }

  function Head(delayed: bool): seq<Event> {
    if delayed then [Delayed] else []
  }

  function Spell(w: Word): seq<Event> {
    match w
    case Unwatched(delayed, ended) => Head(delayed) + (if ended then [Ended] else [])
    case Watched(delayed, alerts, ending) => Head(delayed) + [Started] + alerts + Tail(ending)
  }

  // How far a word has got. OverLate is a segment error after the end.
  datatype Stage = Fresh | Late | NeverSeen | Watching | Over | OverAgain | OverLate | Broken

  function Stepped(s: Stage, e: Event): Stage {
    match s
    case Fresh => if e == Delayed then Late else if e == Started then Watching else if e == Ended then NeverSeen else Broken
    case Late => if e == Started then Watching else if e == Ended then NeverSeen else Broken
    case Watching => if IsAlert(e) then Watching else if e == Ended then Over else Broken
    case Over => if e == Ended then OverAgain else if e == SegmentError then OverLate else Broken
    case _ => Broken
  }

  function StageOf(es: seq<Event>): Stage {
    if es == [] then Fresh else Stepped(StageOf(es[..|es| - 1]), es[|es| - 1])
  }

  lemma StageGrows(es: seq<Event>, e: Event)
    ensures StageOf(es + [e]) == Stepped(StageOf(es), e)
  {
    assert (es + [e])[..|es|] == es;
  }

  // ---- Stages and words

  function WordStage(w: Word): Stage {
    match w
    case Unwatched(delayed, ended) => if ended then NeverSeen else if delayed then Late else Fresh
    case Watched(_, _, ending) =>
      match ending
      case Open => Watching
      case Once => Over
      case Twice => OverAgain
      case ThenError => OverLate
  }

  lemma {:induction false} StageOfAlerts(es: seq<Event>, alerts: seq<Event>)
    requires StageOf(es) == Watching && AllAlerts(alerts)
    ensures StageOf(es + alerts) == Watching
  {
    if alerts == [] {
      assert es + alerts == es;
    } else {
      var front, last := alerts[..|alerts| - 1], alerts[|alerts| - 1];
      StageOfAlerts(es, front);
      StageGrows(es + front, last);
      assert es + front + [last] == es + alerts;
    }
  }

  lemma StageOfTail(es: seq<Event>, ending: Ending)
    requires StageOf(es) == Watching
    ensures StageOf(es + Tail(ending)) == WordStage(Watched(false, [], ending))
  {
    StageGrows(es, Ended);
    match ending
    case Open => assert es + Tail(ending) == es;
    case Once =>
    case Twice =>
      StageGrows(es + [Ended], Ended);
      assert es + [Ended] + [Ended] == es + Tail(ending);
    case ThenError =>
      StageGrows(es + [Ended], SegmentError);
      assert es + [Ended] + [SegmentError] == es + Tail(ending);
  }

  lemma StageOfHead(delayed: bool)
    ensures StageOf(Head(delayed)) == if delayed then Late else Fresh
  {
    StageGrows([], Delayed);
    assert [] + [Delayed] == [Delayed];
  }

  // Every word of the language is at the stage that its shape says.
  lemma StageOfWord(w: Word)
    requires ValidWord(w)
    ensures StageOf(Spell(w)) == WordStage(w)
  {
    StageOfHead(w.delayed);
    match w
    case Unwatched(delayed, ended) =>
      StageGrows(Head(delayed), Ended);
      assert Head(delayed) + [] == Head(delayed);
    case Watched(delayed, alerts, ending) =>
      StageGrows(Head(delayed), Started);
      StageOfAlerts(Head(delayed) + [Started], alerts);
      StageOfTail(Head(delayed) + [Started] + alerts, ending);
  }

  // The word one event longer, if there is one
  function Longer(w: Word, e: Event): Word {
    match w
    case Unwatched(delayed, ended) =>
      if e == Delayed then Unwatched(true, false) else if e == Started then Watched(delayed, [], Open) else Unwatched(delayed, true)
    case Watched(delayed, alerts, ending) =>
      if ending.Open? && IsAlert(e) then Watched(delayed, alerts + [e], Open)
      else Watched(delayed, alerts, if ending.Open? then Once else if e == Ended then Twice else ThenError)
  }

  lemma LongerWord(w: Word, e: Event)
    requires ValidWord(w) && Stepped(WordStage(w), e) != Broken
    ensures ValidWord(Longer(w, e)) && Spell(Longer(w, e)) == Spell(w) + [e]
  {
    match w
    case Unwatched(delayed, ended) =>
      assert Head(delayed) + [] == Head(delayed);
    case Watched(delayed, alerts, ending) =>
      var before := Head(delayed) + [Started];
      if ending.Open? {
        assert before + alerts + [] + [e] == before + (alerts + [e]) + [];
        assert before + alerts + [] + [e] == before + alerts + [e];
      } else {
        assert before + alerts + [Ended] + [e] == before + alerts + [Ended, e];
      }
  }

  lemma {:induction false} WordOf(es: seq<Event>) returns (w: Word)
    requires StageOf(es) != Broken
    ensures ValidWord(w) && Spell(w) == es
  {
    if es == [] {
      w := Unwatched(false, false);
      assert Spell(w) == [];
    } else {
      var past, last := es[..|es| - 1], es[|es| - 1];
      w := WordOf(past);
      StageOfWord(w);
      LongerWord(w, last);
      w := Longer(w, last);
      assert es == past + [last];
    }
  }

  ghost predicate Spells(w: Word, es: seq<Event>) {
    ValidWord(w) && Spell(w) == es
  }

  ghost predicate InLanguage(es: seq<Event>) {
    exists w :: Spells(w, es)
  }

  // The narrower language, in which nothing but ended follows ended
  ghost predicate InNarrowLanguage(es: seq<Event>) {
    exists w :: Spells(w, es) && WordStage(w) != OverLate
  }

  // The words of the language are exactly the sequences that do not break.
  lemma SpelledExactly(es: seq<Event>)
    ensures InLanguage(es) <==> StageOf(es) != Broken
    ensures InNarrowLanguage(es) <==> StageOf(es) != Broken && StageOf(es) != OverLate
  {
    if StageOf(es) != Broken {
      var w := WordOf(es);
      StageOfWord(w);
      assert Spells(w, es);
    }
    if w :| Spells(w, es) {
      StageOfWord(w);
    }
    if w :| Spells(w, es) && WordStage(w) != OverLate {
      StageOfWord(w);
    }
  }
}
