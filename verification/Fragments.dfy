/** The transition system and the store's methods describe the same requests: whatever other clients do
  * in a run is interference that the store's contracts allow for, and two requests of one client with
  * that in between are one attempt of the store.
  */
module Fragments {
  import opened Wrappers
  import opened Monitors
  import opened ApiServer
  import opened Edits
  import opened Attempts
  import opened Protocol

  predicate By(step: Step, c: nat) {
    !step.Deliver? && step.c == c
  }

  // ---- What others do is interference

  // The writes that a step makes
  function WritesOf(s: System, step: Step): seq<Foreign> {
    match step
    case Remove(c, id) => if TaskOf(s, c).Idle? then [Foreign(c, DeleteObject, id, "", NO_SPEC, NEW_STATUS)] else []
    case Go(c) =>
      (match TaskOf(s, c)
       case Write(p, id, _, held) =>
         if Edit(p, held).Submit? && id in s.server.objects && s.server.objects[id].version == held.version
         then [Foreign(c, p, id, "", Edit(p, held).obj.spec, Edit(p, held).obj.status)] else []
       case Post(id, hash, spec) => [Foreign(c, CreateObject, id, hash, spec, NEW_STATUS)]
       case RollBack(id) => [Foreign(c, DeleteObject, id, "", NO_SPEC, NEW_STATUS)]
       case _ => [])
    case _ => []
  }

  const NO_SPEC := Spec("", "", Config(0, 0, 0, 0.0, None, 0), "")

  lemma OneMeddles(s: Server, f: Foreign)
    ensures MeddleAll(s, [f]) == Meddle(s, f)
  {
    assert [f][1..] == [];
  }

  lemma WriteIsInterference(s: System, c: nat)
    requires TaskOf(s, c).Write?
    requires !TaskOf(s, c).purpose.CreateObject? && !TaskOf(s, c).purpose.DeleteObject?
    ensures Proceed(s, c).server == MeddleAll(s.server, WritesOf(s, Go(c)))
  {
    var Write(p, id, _, held) := TaskOf(s, c);
    var fs := WritesOf(s, Go(c));
    if fs != [] {
      OneMeddles(s.server, fs[0]);
    }
  }

  lemma StepIsInterference(s: System, step: Step)
    requires Inv(s)
    ensures Next(s, step).server == MeddleAll(s.server, WritesOf(s, step))
    ensures forall f :: f in WritesOf(s, step) ==> !step.Deliver? && f.author == step.c
  {
    var fs := WritesOf(s, step);
    if step.Go? && TaskOf(s, step.c).Write? {
      assert TaskSound(s, step.c, TaskOf(s, step.c));
      WriteIsInterference(s, step.c);
    } else if fs != [] {
      OneMeddles(s.server, fs[0]);
    }
  }

  lemma {:induction false} MeddleInTurn(s: Server, fs: seq<Foreign>, gs: seq<Foreign>)
    ensures MeddleAll(s, fs + gs) == MeddleAll(MeddleAll(s, fs), gs)
    decreases |fs|
  {
    if fs == [] {
      assert fs + gs == gs;
    } else {
      assert (fs + gs)[1..] == fs[1..] + gs;
      MeddleInTurn(Meddle(s, fs[0]), fs[1..], gs);
    }
  }

  lemma OtherStep(s: System, c: nat, step: Step)
    requires Inv(s) && !By(step, c)
    ensures Next(s, step).server == MeddleAll(s.server, WritesOf(s, step))
    ensures forall f :: f in WritesOf(s, step) ==> f.author != c
    ensures Inv(Next(s, step)) && TaskOf(Next(s, step), c) == TaskOf(s, c)
  {
    StepIsInterference(s, step);
    StepKeepsInv(s, step);
    OthersStand(s, c, step);
  }

  lemma OthersStand(s: System, c: nat, step: Step)
    requires !By(step, c)
    ensures TaskOf(Next(s, step), c) == TaskOf(s, c)
  {
  }

  // Steps of others are interference by others, and leave a client's task alone.
  lemma {:induction false} OthersInterfere(s: System, c: nat, steps: seq<Step>) returns (fs: seq<Foreign>)
    requires Inv(s) && forall step :: step in steps ==> !By(step, c)
    ensures Run(s, steps).server == MeddleAll(s.server, fs) && (forall f :: f in fs ==> f.author != c)
    ensures TaskOf(Run(s, steps), c) == TaskOf(s, c) && Inv(Run(s, steps))
  {
    if steps == [] {
      fs := [];
    } else {
      var front, last := steps[..|steps| - 1], steps[|steps| - 1];
      fs := OthersInterfere(s, c, front);
      var mid := Run(s, front);
      OtherStep(mid, c, last);
      MeddleInTurn(s.server, fs, WritesOf(mid, last));
      fs := fs + WritesOf(mid, last);
    }
  }

  // ---- Two requests are one attempt

  // The client reads, others take any steps, the client writes: the server ends as the store's attempt
  // leaves it, with the others' writes as its interference, and the client goes on as it answers.
  lemma FragmentIsAttempt(s: System, c: nat, steps: seq<Step>) returns (a: Attempt)
    requires Inv(s) && TaskOf(s, c).Read? && forall step :: step in steps ==> !By(step, c)
    ensures Others(c, a) && !a.readFails && !a.writeFails
    ensures var Read(p, id, tries) := TaskOf(s, c);
            var mid := Run(Next(s, Go(c)), steps);
            var (r, end) := Tried(s.server, c, p, id, a);
            if Decided(s.server.objects, p, id).Some? then TaskOf(mid, c) == Idle && end == s.server
            else Next(mid, Go(c)).server == end && TaskOf(Next(mid, Go(c)), c) == AfterWrite(r, |mid.server.log|, p, id, tries)
  {
    var read := Next(s, Go(c));
    StepKeepsInv(s, Go(c));
    var fs := OthersInterfere(read, c, steps);
    a := Attempt([], false, fs, false);
  }

  // ---- How operations begin and go on

  // What an idle client can begin: a retried write, a swap of what its snapshot shows at work, a create
  // below the limit.
  lemma OperationsBegin(s: System, c: nat, id: Id)
    requires TaskOf(s, c).Idle?
    ensures forall phase :: phase != Unset ==> TaskOf(Next(s, Update(c, SetPhase(phase), id)), c) == Read(SetPhase(phase), id, 4)
    ensures forall name :: TaskOf(Next(s, Update(c, SetPodName(name), id)), c) == Read(SetPodName(name), id, 4)
    ensures forall stats :: TaskOf(Next(s, Update(c, SetStats(stats), id)), c) == Read(SetStats(stats), id, 4)
    ensures forall patch :: TaskOf(Next(s, Update(c, PatchSpec(patch), id)), c) == Read(PatchSpec(patch), id, 4)
    ensures id in ClientOf(s, c).snapshot ==>
              var phase := ClientOf(s, c).snapshot[id].status.phase;
              phase == Initializing || phase == Waiting || phase == Monitoring ==>
                && TaskOf(Next(s, Swap(c, id, Failed)), c) == Read(SwapPhase(phase, Failed), id, 1)
                && TaskOf(Next(s, Swap(c, id, Completed)), c) == Read(SwapPhase(phase, Completed), id, 1)
    ensures forall hash, spec ::
              TaskOf(Next(s, Ask(c, id, hash, spec)), c) ==
              if |ActiveIds(Cache(s))| < s.maxMonitors then Admitted(id, hash, spec) else Idle
  {
  }

  // After a write: a failure that was won is reported, a conflict tried again except for a swap, and an
  // object without its initial phase deleted, also if the request got lost.
  lemma OperationsGoOn(commit: nat, id: Id, current: Phase, phase: Phase, o: Object, stats: Stats)
    ensures AfterWrite(Done(o), commit, SwapPhase(current, Failed), id, 1) == Report(id, commit)
    ensures AfterWrite(Done(o), commit, SwapPhase(current, Completed), id, 1) == Idle
    ensures AfterWrite(Conflicted, commit, SwapPhase(current, phase), id, 1) == Idle
    ensures forall tries: nat ::
              AfterWrite(Conflicted, commit, SetStats(stats), id, tries) ==
              if tries >= 2 then Read(SetStats(stats), id, tries - 1) else Idle
    ensures forall r :: AfterWrite(r, commit, InitialPhase(phase), id, 1) == if r.Done? then Idle else RollBack(id)
    ensures forall s: System, c: nat :: TaskOf(s, c).Write? && TaskOf(s, c).purpose.InitialPhase? ==>
              TaskOf(Next(s, Drop(c)), c) == RollBack(TaskOf(s, c).id)
  {
  }
}
