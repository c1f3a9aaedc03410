/** Requests and sessions. */
module ProvisionerRequests {
  import opened Bytes
  import opened Provisioner
  import R = RecipeSpec

  // ---------------------------------------------------------------------------- every interleaving

  function GivenCount(stages: seq<Stage>): nat {
    if stages == [] then 0
    else GivenCount(stages[..|stages| - 1]) + (if stages[|stages| - 1] == Given then 1 else 0)
  }

  lemma {:induction false} GivenUpdate(stages: seq<Stage>, k: nat, g: Stage)
    requires k < |stages|
    ensures GivenCount(stages[k := g])
            == GivenCount(stages) - (if stages[k] == Given then 1 else 0) + (if g == Given then 1 else 0)
  {
    var n := |stages| - 1;
    if k == n {
      assert stages[k := g][..n] == stages[..n];
    } else {
      GivenUpdate(stages[..n], k, g);
      assert stages[k := g][..n] == stages[..n][k := g];
    }
  }

  lemma {:induction false} GivenAtMost(stages: seq<Stage>)
    ensures GivenCount(stages) <= |stages|
  {
    if stages == [] {
    } else {
      GivenAtMost(stages[..|stages| - 1]);
    }
  }

  lemma OneMoreWon(stages: seq<Stage>)
    ensures GivenCount(stages + [Won]) == GivenCount(stages)
  {
    assert (stages + [Won])[..|stages|] == stages;
  }

  predicate InSession(pc: Pc) {
    pc == Provision || pc == Await
  }

  /** Request k has been accepted and has written its UUID and recipe to the latched pair. */
  predicate Written(f: Front, k: nat) {
    k < |f.stages| && f.stages[k] != Won
  }

  /** What the latched pair and the sessions refer to. */
  ghost predicate NumbersOk(f: Front) {
    && |f.stages| == |f.accepted|
    && (f.latched.Some? ==> Written(f, f.latched.value))
    && (f.latched.None? ==> !f.sem && forall k :: 0 <= k < |f.stages| ==> f.stages[k] == Won)
    && (forall i :: 0 <= i < |f.sessions| ==> Written(f, f.sessions[i]))
  }

  /** Each session, begun or about to begin, has used up one release of the semaphore. */
  predicate CountsOk(f: Front, pc: Pc) {
    |f.sessions| + (if f.sem then 1 else 0) + (if pc == Copy then 1 else 0) <= GivenCount(f.stages)
  }

  /** Holds in every interleaving whatsoever. */
  ghost predicate FrontInv(s: Sys) {
    && NumbersOk(s.front) && CountsOk(s.front, s.pc)
    && (s.front.latched.None? ==> s.pc != Copy)
  }

  predicate ByCaller(step: Step) {
    step.Accept? || step.WritePair? || step.GiveSem?
  }

  lemma CallerKeepsNumbers(f: Front, step: Step)
    requires NumbersOk(f) && ByCaller(step)
    requires step.WritePair? ==> step.k < |f.stages| && f.stages[step.k] == Won
    requires step.GiveSem? ==> step.k < |f.stages| && f.stages[step.k] == Wrote
    ensures NumbersOk(NextFront(f, step))
  {
    var g := NextFront(f, step);
    forall k | Written(f, k) ensures Written(g, k) {
    }
  }

  lemma CallerKeepsCounts(f: Front, pc: Pc, step: Step)
    requires CountsOk(f, pc) && ByCaller(step)
    requires step.WritePair? ==> step.k < |f.stages| && f.stages[step.k] == Won
    requires step.GiveSem? ==> step.k < |f.stages| && f.stages[step.k] == Wrote
    ensures CountsOk(NextFront(f, step), pc)
  {
    match step {
      case Accept(_) => OneMoreWon(f.stages);
      case WritePair(k) => GivenUpdate(f.stages, k, Wrote);
      case GiveSem(k) => GivenUpdate(f.stages, k, Given);
    }
  }

  lemma ThreadKeepsNumbers(f: Front, step: Step)
    requires NumbersOk(f) && !ByCaller(step)
    ensures NumbersOk(NextFront(f, step))
  {
  }

  lemma ThreadKeepsCounts(table: R.Recipes, s: Sys, step: Step)
    requires FrontInv(s) && Enabled(s, step) && !ByCaller(step) && step != Reboot
    ensures CountsOk(NextFront(s.front, step), NextPc(table, s, step))
    ensures NextFront(s.front, step).latched.None? ==> NextPc(table, s, step) != Copy
  {
    var f, g := s.front, NextFront(s.front, step);
    if !step.TakeSem? { OnlyTakingEntersCopy(table, s, step); }
    assert g.stages == f.stages;
    if !step.TakeSem? && !step.CopyPair? {
      assert g.sem == f.sem && g.sessions == f.sessions && g.latched == f.latched;
    }
  }

  lemma OnlyTakingEntersCopy(table: R.Recipes, s: Sys, step: Step)
    requires Enabled(s, step) && !step.TakeSem?
    ensures NextPc(table, s, step) == Copy ==> s.pc == Copy && !step.CopyPair?
  {
  }

  lemma StepKeepsFrontInv(table: R.Recipes, s: Sys, step: Step)
    requires FrontInv(s) && Enabled(s, step)
    ensures FrontInv(Next(table, s, step))
  {
    if ByCaller(step) {
      CallerKeepsNumbers(s.front, step);
      CallerKeepsCounts(s.front, s.pc, step);
    } else {
      ThreadKeepsNumbers(s.front, step);
      if step != Reboot { ThreadKeepsCounts(table, s, step); }
    }
  }

  lemma {:induction false} StepsKeepFrontInv(table: R.Recipes, s: Sys, steps: seq<Step>)
    requires FrontInv(s) && Possible(table, s, steps)
    ensures FrontInv(Run(table, s, steps))
    decreases |steps|
  {
    if steps == [] {
    } else {
      StepKeepsFrontInv(table, s, steps[0]);
      StepsKeepFrontInv(table, Next(table, s, steps[0]), steps[1..]);
    }
  }

  /** In all interleavings of a provisioner, with any number of power cuts: since the last power-up sessions
      never outnumber accepted requests, and each serves a UUID and recipe that one accepted request had
      written together; so does the latched pair. */
  lemma SessionsServeAcceptedRequests(table: R.Recipes, steps: seq<Step>)
    requires Possible(table, FACTORY, steps)
    ensures var f := Run(table, FACTORY, steps).front;
            && |f.sessions| <= |f.accepted| == |f.stages|
            && (forall i :: 0 <= i < |f.sessions| ==> Written(f, f.sessions[i]))
            && (f.latched.Some? ==> Written(f, f.latched.value))
  {
    StepsKeepFrontInv(table, FACTORY, steps);
    GivenAtMost(Run(table, FACTORY, steps).front.stages);
  }

  // ---------------------------------------------------------------------------- the thread

  ghost predicate Known(must: set<nat>, cdb: map<nat, bool>) {
    forall a :: a in must ==> a in cdb
  }

  /** A ready front means the thread is running; a sweep only expects nodes the database still has. */
  ghost predicate ThreadInv(s: Sys) {
    && (s.front.ready ==> !(s.pc in {Resume, ResumeSave, SetReady}) && (s.pc.Config? ==> s.pc.back.ToSweep?))
    && (s.pc.Sweep? ==> Known(s.pc.must, s.store.cdb))
    && (s.pc.Config? && s.pc.back.ToSweep? ==> Known(s.pc.back.must, s.store.cdb))
  }

  lemma DatabaseGrows(table: R.Recipes, s: Sys, step: Step, must: set<nat>)
    requires Known(must, s.store.cdb) && Enabled(s, step) && step != Reboot
    ensures Known(must, Next(table, s, step).store.cdb)
  {
  }

  lemma StepKeepsThreadInv(table: R.Recipes, s: Sys, step: Step)
    requires ThreadInv(s) && Enabled(s, step)
    ensures ThreadInv(Next(table, s, step))
  {
    if step != Reboot {
      if s.pc.Sweep? { DatabaseGrows(table, s, step, s.pc.must); }
      if s.pc.Config? && s.pc.back.ToSweep? { DatabaseGrows(table, s, step, s.pc.back.must); }
    }
  }

  // ---------------------------------------------------------------------------- runs outside the windows

  /** No request is accepted inside a window. */
  predicate Avoids(table: R.Recipes, s: Sys, steps: seq<Step>)
    decreases |steps|
  {
    steps != [] ==>
      && (steps[0].Accept? ==> !s.front.window)
      && Avoids(table, Next(table, s, steps[0]), steps[1..])
  }

  /** Requests accepted but not yet picked up by a session that has ended. */
  function Outstanding(s: Sys): int {
    |s.front.stages| - GivenCount(s.front.stages)
    + (if s.front.sem then 1 else 0) + (if s.pc == Copy || InSession(s.pc) then 1 else 0)
  }

  /** Everything accepted has been handed over. */
  predicate AllGiven(stages: seq<Stage>) {
    forall k :: 0 <= k < |stages| ==> stages[k] == Given
  }

  predicate AllButLastGiven(stages: seq<Stage>) {
    forall k :: 0 <= k < |stages| - 1 ==> stages[k] == Given
  }

  /** The last accepted request is on its way to the thread: with its caller, or in the semaphore. */
  predicate InFlight(f: Front) {
    var n := |f.accepted| - 1;
    && n >= 0 && |f.stages| == n + 1 && AllButLastGiven(f.stages) && |f.sessions| == n
    && (f.stages[n] != Won ==> f.latched == Some(n))
    && (f.sem <==> f.stages[n] == Given)
  }

  predicate Idle(f: Front) {
    AllGiven(f.stages) && !f.sem && |f.sessions| == |f.accepted|
  }

  /** The sessions are the accepted requests, in order. */
  predicate InOrder(sessions: seq<nat>) {
    forall i :: 0 <= i < |sessions| ==> sessions[i] == i
  }

  /** Holds as long as the windows are avoided: requests are served one at a time, in order. */
  ghost predicate ExclusiveInv(s: Sys) {
    var f := s.front;
    && |f.stages| == |f.accepted| && InOrder(f.sessions)
    && match s.pc
       case Wait => !f.window && (if f.busy then InFlight(f) else Idle(f))
       case Copy =>
         && !f.window && f.busy && AllGiven(f.stages) && !f.sem
         && |f.sessions| == |f.accepted| - 1 && f.latched == Some(|f.accepted| - 1)
       case Provision => !f.window && f.busy && Idle(f) && f.accepted != []
       case Await => !f.window && f.busy && Idle(f) && f.accepted != []
       case _ => (f.window || f.busy) && Idle(f)
  }

  lemma CallerKeepsExclusiveInv(table: R.Recipes, s: Sys, step: Step)
    requires ExclusiveInv(s) && Enabled(s, step) && ByCaller(step)
    requires step.Accept? ==> !s.front.window
    ensures ExclusiveInv(Next(table, s, step))
  {
    assert s.pc == Wait;
  }

  lemma ThreadKeepsExclusiveInv(table: R.Recipes, s: Sys, step: Step)
    requires ExclusiveInv(s) && Enabled(s, step) && !ByCaller(step)
    ensures ExclusiveInv(Next(table, s, step))
  {
  }

  lemma StepKeepsExclusiveInv(table: R.Recipes, s: Sys, step: Step)
    requires ExclusiveInv(s) && Enabled(s, step)
    requires step.Accept? ==> !s.front.window
    ensures ExclusiveInv(Next(table, s, step))
  {
    if ByCaller(step) { CallerKeepsExclusiveInv(table, s, step); } else { ThreadKeepsExclusiveInv(table, s, step); }
  }

  lemma {:induction false} AllGivenCount(stages: seq<Stage>)
    ensures AllGiven(stages) ==> GivenCount(stages) == |stages|
    ensures stages != [] && AllButLastGiven(stages)
            ==> GivenCount(stages) == |stages| - (if stages[|stages| - 1] == Given then 0 else 1)
  {
    if stages == [] {
    } else {
      AllGivenCount(stages[..|stages| - 1]);
    }
  }

  lemma ExclusiveMeansOneOutstanding(s: Sys)
    requires ExclusiveInv(s)
    ensures Outstanding(s) <= 1
    ensures |s.front.accepted| - 1 <= |s.front.sessions| <= |s.front.accepted|
  {
    AllGivenCount(s.front.stages);
  }

  lemma {:induction false} StepsKeepExclusiveInv(table: R.Recipes, s: Sys, steps: seq<Step>)
    requires ExclusiveInv(s) && ThreadInv(s) && Possible(table, s, steps) && Avoids(table, s, steps)
    ensures ExclusiveInv(Run(table, s, steps)) && ThreadInv(Run(table, s, steps))
    decreases |steps|
  {
    if steps == [] {
    } else {
      StepKeepsExclusiveInv(table, s, steps[0]);
      StepKeepsThreadInv(table, s, steps[0]);
      StepsKeepExclusiveInv(table, Next(table, s, steps[0]), steps[1..]);
    }
  }

  /** Exclusivity: in a run of a provisioner that accepts no request inside a window, at most one accepted
      request is outstanding at any point, and the sessions are exactly the accepted requests in order,
      each with its own UUID and recipe, the last one possibly still to start. */
  lemma ExclusiveOutsideWindows(table: R.Recipes, steps: seq<Step>)
    requires Possible(table, FACTORY, steps) && Avoids(table, FACTORY, steps)
    ensures var t := Run(table, FACTORY, steps);
            && Outstanding(t) <= 1 && InOrder(t.front.sessions)
            && |t.front.accepted| - 1 <= |t.front.sessions| <= |t.front.accepted|
  {
    StepsKeepExclusiveInv(table, FACTORY, steps);
    ExclusiveMeansOneOutstanding(Run(table, FACTORY, steps));
  }
}
