/** Why the windows matter: what an acceptance inside one can lead to. */
module ProvisionerWindows {
  import opened Bytes
  import opened Interface
  import opened Provisioner
  import opened ProvisionerRequests
  import R = RecipeSpec
  import C = RecipeConvergence

  // ---------------------------------------------------------------------------- building runs

  lemma Prepend(table: R.Recipes, s: Sys, step: Step, rest: seq<Step>)
    requires Enabled(s, step) && Possible(table, Next(table, s, step), rest)
    ensures Possible(table, s, [step] + rest)
    ensures Run(table, s, [step] + rest) == Run(table, Next(table, s, step), rest)
    ensures (step.Accept? ==> !s.front.window) && Avoids(table, Next(table, s, step), rest) ==>
              Avoids(table, s, [step] + rest)
  {
    assert ([step] + rest)[1..] == rest;
  }

  lemma {:induction false} Append(table: R.Recipes, s: Sys, p: seq<Step>, q: seq<Step>)
    requires Possible(table, s, p) && Avoids(table, s, p)
    requires Possible(table, Run(table, s, p), q) && Avoids(table, Run(table, s, p), q)
    ensures Possible(table, s, p + q) && Avoids(table, s, p + q)
    ensures Run(table, s, p + q) == Run(table, Run(table, s, p), q)
    decreases |p|
  {
    if p == [] {
      assert p + q == q;
    } else {
      Append(table, Next(table, s, p[0]), p[1..], q);
      Prepend(table, s, p[0], p[1..] + q);
      assert [p[0]] + (p[1..] + q) == p + q;
    }
  }

  /** The thread can always finish with the node at hand; the callers' side is not involved. */
  lemma {:induction false} FinishVisit(table: R.Recipes, s: Sys) returns (steps: seq<Step>)
    requires s.pc.Config? && s.pc.back.ToSweep?
    ensures Possible(table, s, steps) && Avoids(table, s, steps)
    ensures var t := Run(table, s, steps);
            && t.front == s.front && t.pc == Sweep(s.pc.back.done, s.pc.back.must)
            && (forall a :: a in s.store.cdb ==> a in t.store.cdb)
    decreases match s.pc.phase
              case Choose => 7 case Apply(_) => 6 case Mark => 5 case StoreNode => 4
              case ClearRecord => 3 case SaveRecord => 2 case Finish => 1
  {
    var step := match s.pc.phase
      case Choose => DoChoose
      case Apply(_) => DoApply(R.Node(s.pc.addr, 0), 0, C.Attempt(R.FetchError(0), (k: nat) => R.KeyMissing))
      case Mark => DoMark
      case StoreNode => DoStoreNode
      case ClearRecord => DoClearRecord
      case SaveRecord => DoSaveRecord
      case Finish => DoFinish;
    var rest := [];
    if !s.pc.phase.Apply? && !s.pc.phase.Finish? {
      rest := FinishVisit(table, Next(table, s, step));
    }
    Prepend(table, s, step, rest);
    steps := [step] + rest;
  }

  /** The thread can always finish its sweep over the nodes. */
  lemma {:induction false} FinishSweep(table: R.Recipes, s: Sys) returns (steps: seq<Step>)
    requires s.pc.Sweep? && Known(s.pc.must, s.store.cdb)
    ensures Possible(table, s, steps) && Avoids(table, s, steps)
    ensures Run(table, s, steps).pc == ClearBusy && Run(table, s, steps).front == s.front
    decreases s.pc.must - s.pc.done
  {
    if s.pc.must <= s.pc.done {
      Prepend(table, s, EndSweep, []);
      steps := [EndSweep];
      assert [EndSweep] + [] == [EndSweep];
    } else {
      var a :| a in s.pc.must && a !in s.pc.done;
      var t := Next(table, s, Visit(a));
      var visit := [];
      if t.pc.Config? {
        visit := FinishVisit(table, t);
      }
      var rest := FinishSweep(table, Run(table, t, visit));
      Append(table, t, visit, rest);
      Prepend(table, s, Visit(a), visit + rest);
      steps := [Visit(a)] + (visit + rest);
    }
  }

  predicate BeforeClear(pc: Pc) {
    pc == Reset || pc.Sweep? || pc.Config? || pc == ClearBusy
  }

  lemma ReachClearBusy(table: R.Recipes, s: Sys) returns (steps: seq<Step>)
    requires ThreadInv(s) && s.front.ready && BeforeClear(s.pc)
    ensures Possible(table, s, steps) && Avoids(table, s, steps)
    ensures Run(table, s, steps).pc == ClearBusy && Run(table, s, steps).front == s.front
  {
    steps := [];
    if s.pc == Reset {
      var rest := FinishSweep(table, Next(table, s, DoReset));
      Prepend(table, s, DoReset, rest);
      steps := [DoReset] + rest;
    } else if s.pc.Sweep? {
      steps := FinishSweep(table, s);
    } else if s.pc.Config? {
      var visit := FinishVisit(table, s);
      var rest := FinishSweep(table, Run(table, s, visit));
      Append(table, s, visit, rest);
      steps := visit + rest;
    }
  }

  /** From the end of its sweep the thread clears the busy flag and waits. */
  lemma ReachWait(table: R.Recipes, s: Sys) returns (steps: seq<Step>)
    requires ThreadInv(s) && s.front.ready && BeforeClear(s.pc)
    ensures Possible(table, s, steps) && Avoids(table, s, steps)
    ensures var t := Run(table, s, steps);
            t.pc == Wait && t.front == s.front.(busy := false, window := false)
  {
    var path := ReachClearBusy(table, s);
    One(table, Run(table, s, path), DoClearBusy);
    Append(table, s, path, [DoClearBusy]);
    steps := path + [DoClearBusy];
  }

  /** One step as a run. */
  lemma One(table: R.Recipes, s: Sys, step: Step)
    requires Enabled(s, step) && (step.Accept? ==> !s.front.window)
    ensures Possible(table, s, [step]) && Avoids(table, s, [step])
    ensures Run(table, s, [step]) == Next(table, s, step)
  {
    assert [step] + [] == [step];
    Prepend(table, s, step, []);
  }

  /** The run is possible, keeps clear of the windows and ends in t. */
  ghost predicate Leads(table: R.Recipes, s: Sys, steps: seq<Step>, t: Sys) {
    Possible(table, s, steps) && Avoids(table, s, steps) && Run(table, s, steps) == t
  }

  lemma Further(table: R.Recipes, s: Sys, steps: seq<Step>, t: Sys, step: Step)
    requires Leads(table, s, steps, t) && Enabled(t, step) && (step.Accept? ==> !t.front.window)
    ensures Leads(table, s, steps + [step], Next(table, t, step))
  {
    One(table, t, step);
    Append(table, s, steps, [step]);
  }

  // ---------------------------------------------------------------------------- two requests at once

  /** Request n has been accepted inside a window; the thread clears the busy flag and another request, for
      which this is no window, is accepted too. */
  lemma SecondAccepted(table: R.Recipes, s: Sys, req: Request) returns (steps: seq<Step>, w: Sys)
    requires ThreadInv(s) && ExclusiveInv(s) && Enabled(s, Accept(req)) && s.front.window
    ensures Leads(table, Next(table, s, Accept(req)), steps, w)
    ensures w.pc == Wait && w.front.ready && !w.front.sem && ThreadInv(w)
    ensures w.front.stages == s.front.stages + [Won] + [Won] && w.front.sessions == s.front.sessions
  {
    var t := Next(table, s, Accept(req));
    StepKeepsThreadInv(table, s, Accept(req));
    steps := ReachWait(table, t);
    w := Run(table, t, steps);
    Further(table, t, steps, w, Accept(req));
    steps, w := steps + [Accept(req)], Next(table, w, Accept(req));
  }

  lemma TwoOutstanding(s: Sys, w: Sys)
    requires AllGiven(s.front.stages) && w.front.stages == s.front.stages + [Won] + [Won]
    requires w.pc == Wait && !w.front.sem
    ensures Outstanding(w) == 2
  {
    AllGivenCount(s.front.stages);
    OneMoreWon(s.front.stages);
    OneMoreWon(s.front.stages + [Won]);
  }

  /** A request accepted inside a window can overlap with the next one: the thread clears the busy flag on
      its way to the semaphore, a second request is accepted, outside any window, and both are outstanding. */
  lemma AcceptInWindowOverlaps(table: R.Recipes, s: Sys, req: Request) returns (steps: seq<Step>)
    requires ThreadInv(s) && ExclusiveInv(s) && Enabled(s, Accept(req)) && s.front.window
    ensures var t := Next(table, s, Accept(req));
            Possible(table, t, steps) && Avoids(table, t, steps) && Outstanding(Run(table, t, steps)) == 2
  {
    var w;
    steps, w := SecondAccepted(table, s, req);
    TwoOutstanding(s, w);
  }

  // ---------------------------------------------------------------------------- one lost, one served twice

  /** The thread takes the semaphore and copies the latched pair. */
  lemma Serve(table: R.Recipes, s: Sys, steps: seq<Step>, w: Sys) returns (more: seq<Step>, x: Sys)
    requires Leads(table, s, steps, w) && w.pc == Wait && w.front.sem && w.front.latched.Some?
    ensures Leads(table, s, more, x) && x.pc == Provision
    ensures x.front == w.front.(sem := false, sessions := w.front.sessions + [w.front.latched.value])
  {
    Further(table, s, steps, w, TakeSem);
    var w1 := Next(table, w, TakeSem);
    Further(table, s, steps + [TakeSem], w1, CopyPair);
    more, x := steps + [TakeSem] + [CopyPair], Next(table, w1, CopyPair);
  }

  /** Provisioning fails and the thread comes back to the semaphore. */
  lemma FailAndReturn(table: R.Recipes, s: Sys, steps: seq<Step>, w: Sys) returns (more: seq<Step>, x: Sys)
    requires Leads(table, s, steps, w) && w.pc == Provision && w.front.ready
    ensures Leads(table, s, more, x) && x.pc == Wait
    ensures x.front == w.front.(busy := false, window := false)
  {
    Further(table, s, steps, w, ProvisionFails);
    var w1 := Next(table, w, ProvisionFails);
    var path := ReachWait(table, w1);
    Append(table, s, steps + [ProvisionFails], path);
    more, x := steps + [ProvisionFails] + path, Run(table, w1, path);
  }

  /** Both callers write their pair before the first releases the semaphore. */
  lemma BothWrite(table: R.Recipes, s: Sys, steps: seq<Step>, w: Sys, n: nat) returns (more: seq<Step>, x: Sys)
    requires Leads(table, s, steps, w) && w.pc == Wait
    requires |w.front.stages| == n + 2 && w.front.stages[n] == Won && w.front.stages[n + 1] == Won
    ensures Leads(table, s, more, x) && x.pc == Wait
    ensures x.front == w.front.(latched := Some(n + 1), sem := true,
                                stages := w.front.stages[n := Given][n + 1 := Wrote])
  {
    Further(table, s, steps, w, WritePair(n));
    var w1 := Next(table, w, WritePair(n));
    Further(table, s, steps + [WritePair(n)], w1, WritePair(n + 1));
    var w2 := Next(table, w1, WritePair(n + 1));
    Further(table, s, steps + [WritePair(n)] + [WritePair(n + 1)], w2, GiveSem(n));
    more := steps + [WritePair(n)] + [WritePair(n + 1)] + [GiveSem(n)];
    x := Next(table, w2, GiveSem(n));
    assert x.front.stages == w.front.stages[n := Given][n + 1 := Wrote];
  }

  /** Request k was accepted and its caller is done, but its pair is gone and no session has served it. */
  predicate Lost(f: Front, k: nat) {
    k < |f.stages| && f.stages[k] == Given && f.latched != Some(k) && k !in f.sessions
  }

  /** The damage an acceptance inside a window can do: a run, clear of further windows, in which the
      request's caller was told 0 and is done, but its pair was overwritten before the thread copied it, and
      the next request was served in its place and then once more. */
  lemma AcceptInWindowCanLose(table: R.Recipes, s: Sys, req: Request) returns (steps: seq<Step>, w: Sys)
    requires ThreadInv(s) && ExclusiveInv(s) && Enabled(s, Accept(req)) && s.front.window
    ensures Leads(table, Next(table, s, Accept(req)), steps, w)
    ensures var n := |s.front.accepted|;
            && Lost(w.front, n) && AllGiven(w.front.stages) && |w.front.stages| == n + 2
            && w.front.sessions == s.front.sessions + [n + 1, n + 1]
  {
    var t, n := Next(table, s, Accept(req)), |s.front.accepted|;
    steps, w := SecondAccepted(table, s, req);
    steps, w := BothWrite(table, t, steps, w, n);
    steps, w := Serve(table, t, steps, w);
    steps, w := FailAndReturn(table, t, steps, w);
    Further(table, t, steps, w, GiveSem(n + 1));
    steps, w := steps + [GiveSem(n + 1)], Next(table, w, GiveSem(n + 1));
    steps, w := Serve(table, t, steps, w);
    assert w.front.sessions == s.front.sessions + [n + 1, n + 1];
  }

  lemma LostStays(f: Front, step: Step, k: nat)
    requires Lost(f, k) && step != Reboot
    requires step.WritePair? ==> step.k < |f.stages| && f.stages[step.k] == Won
    ensures Lost(NextFront(f, step), k)
  {
  }

  /** A lost request stays lost until the next power cut: no later session serves it. */
  lemma {:induction false} LostForGood(table: R.Recipes, s: Sys, steps: seq<Step>, k: nat)
    requires Lost(s.front, k) && Possible(table, s, steps) && Reboot !in steps
    ensures Lost(Run(table, s, steps).front, k)
    decreases |steps|
  {
    if steps == [] {
    } else {
      assert steps[0] in steps && Reboot !in steps[1..];
      LostStays(s.front, steps[0], k);
      LostForGood(table, Next(table, s, steps[0]), steps[1..], k);
    }
  }

  // ---------------------------------------------------------------------------- the exact risk

  /** Every continuation of t that keeps clear of the windows has at most one request outstanding. */
  ghost predicate StaysExclusive(table: R.Recipes, t: Sys) {
    forall steps :: Possible(table, t, steps) && Avoids(table, t, steps) ==> Outstanding(Run(table, t, steps)) <= 1
  }

  /** In every such continuation the sessions are the accepted requests, one each and in order. */
  ghost predicate StaysInOrder(table: R.Recipes, t: Sys) {
    forall steps :: Possible(table, t, steps) && Avoids(table, t, steps) ==>
      InOrder(Run(table, t, steps).front.sessions)
  }

  /** Accepting a request, in any state that a provisioner reaches without accepting one inside a window, is
      safe exactly outside the windows: then, and only then, every continuation clear of the windows keeps
      at most one request outstanding, and then, and only then, serves every request once and in order. */
  lemma WindowsAreExactlyTheRisk(table: R.Recipes, before: seq<Step>, req: Request)
    requires Possible(table, FACTORY, before) && Avoids(table, FACTORY, before)
    requires Enabled(Run(table, FACTORY, before), Accept(req))
    ensures var s := Run(table, FACTORY, before);
            && (!s.front.window <==> StaysExclusive(table, Next(table, s, Accept(req))))
            && (!s.front.window <==> StaysInOrder(table, Next(table, s, Accept(req))))
  {
    StepsKeepExclusiveInv(table, FACTORY, before);
    var s := Run(table, FACTORY, before);
    if s.front.window { WindowIsRisky(table, s, req); } else { OutsideIsSafe(table, s, req); }
  }

  lemma WindowIsRisky(table: R.Recipes, s: Sys, req: Request)
    requires ThreadInv(s) && ExclusiveInv(s) && Enabled(s, Accept(req)) && s.front.window
    ensures !StaysExclusive(table, Next(table, s, Accept(req)))
    ensures !StaysInOrder(table, Next(table, s, Accept(req)))
  {
    var overlap := AcceptInWindowOverlaps(table, s, req);
    var steps, w := AcceptInWindowCanLose(table, s, req);
    assert w.front.sessions[|s.front.sessions|] == |s.front.accepted| + 1;
  }

  lemma OutsideIsSafe(table: R.Recipes, s: Sys, req: Request)
    requires ThreadInv(s) && ExclusiveInv(s) && Enabled(s, Accept(req)) && !s.front.window
    ensures StaysExclusive(table, Next(table, s, Accept(req)))
    ensures StaysInOrder(table, Next(table, s, Accept(req)))
  {
    var t := Next(table, s, Accept(req));
    StepKeepsExclusiveInv(table, s, Accept(req));
    StepKeepsThreadInv(table, s, Accept(req));
    forall steps | Possible(table, t, steps) && Avoids(table, t, steps)
      ensures Outstanding(Run(table, t, steps)) <= 1 && InOrder(Run(table, t, steps).front.sessions)
    {
      StepsKeepExclusiveInv(table, t, steps);
      ExclusiveMeansOneOutstanding(Run(table, t, steps));
    }
  }
}
