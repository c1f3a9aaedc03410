/** Two orders of events that the source does not rule out: a node announced after the next request has been
    copied, and a power cut between clearing the record and writing the node's flag. */
module ProvisionerRaces {
  import opened Bytes
  import opened Interface
  import opened Provisioner
  import opened ProvisionerRequests
  import opened ProvisionerWindows
  import L = ProvisionerLatch
  import S = ScenarioSpec
  import R = RecipeSpec

  // ---------------------------------------------------------------------------- whose recipe is recorded

  /** The thread is in a session only after copying a pair. */
  ghost predicate SessionInv(s: Sys) {
    FrontInv(s) && (InSession(s.pc) ==> s.front.sessions != [])
  }

  lemma {:induction false} StepsKeepSessionInv(table: R.Recipes, s: Sys, steps: seq<Step>)
    requires SessionInv(s) && Possible(table, s, steps)
    ensures SessionInv(Run(table, s, steps))
    decreases |steps|
  {
    if steps == [] {
    } else {
      StepKeepsFrontInv(table, s, steps[0]);
      StepKeepsInSession(table, s, steps[0]);
      StepsKeepSessionInv(table, Next(table, s, steps[0]), steps[1..]);
    }
  }

  lemma StepKeepsInSession(table: R.Recipes, s: Sys, step: Step)
    requires SessionInv(s) && Enabled(s, step)
    ensures InSession(NextPc(table, s, step)) ==> NextFront(s.front, step).sessions != []
  {
  }

  /** Without a power cut sessions and accepted requests are only added to, a session for each copy. */
  lemma StepGrows(f: Front, step: Step)
    requires step != Reboot && (step == CopyPair ==> f.latched.Some?)
    ensures var g := NextFront(f, step);
            && f.sessions <= g.sessions && f.accepted <= g.accepted
            && |g.sessions| == |f.sessions| + (if step == CopyPair then 1 else 0)
  {
  }

  lemma {:induction false} StepsGrow(table: R.Recipes, s: Sys, steps: seq<Step>)
    requires FrontInv(s) && Possible(table, s, steps) && Reboot !in steps
    ensures var g := Run(table, s, steps).front;
            && s.front.sessions <= g.sessions && s.front.accepted <= g.accepted
            && (|g.sessions| == |s.front.sessions| <==> CopyPair !in steps)
    decreases |steps|
  {
    if steps == [] {
    } else {
      assert steps == [steps[0]] + steps[1..];
      StepGrows(s.front, steps[0]);
      StepKeepsFrontInv(table, s, steps[0]);
      StepsGrow(table, Next(table, s, steps[0]), steps[1..]);
    }
  }

  /** A node is added for the session that the stack was started for in state s, and announced later, in t.
      The callback then records the recipe of the session copied last, and that is the node's own session
      exactly when no pair has been copied since the stack was started. */
  lemma RecordedForItsSession(table: R.Recipes, before: seq<Step>, s: Sys, between: seq<Step>, t: Sys, a: nat)
    requires Possible(table, FACTORY, before) && s == Run(table, FACTORY, before) && s.pc == Provision
    requires var started := Next(table, s, ProvisionStarts);
             Possible(table, started, between) && t == Run(table, started, between) && Reboot !in between
    requires Enabled(t, CallbackRecords(a))
    requires a in t.store.origin && t.store.origin[a] == |s.front.sessions| - 1
    ensures var o, f := t.store.origin[a], t.front;
            && o < |f.sessions| && f.sessions[o] < |f.accepted| && f.sessions[|f.sessions| - 1] < |f.accepted|
            && f.sessions[o] == s.front.sessions[o]
            && NextStore(table, t, CallbackRecords(a)).rec
               == Record(a, true, f.accepted[f.sessions[|f.sessions| - 1]].recipe)
            && (o == |f.sessions| - 1 <==> CopyPair !in between)
  {
    var started := Next(table, s, ProvisionStarts);
    StepsKeepSessionInv(table, FACTORY, before);
    StepKeepsFrontInv(table, s, ProvisionStarts);
    StepsGrow(table, started, between);
    StepsKeepFrontInv(table, started, between);
    L.RecordsTheSession(table, t, a);
    assert Written(t.front, t.front.sessions[t.store.origin[a]]);
  }

  // ---------------------------------------------------------------------------- runs from the factory state

  /** The thread, started for the first time, waits for a request. */
  const WAITING := Sys(FRONT_AT_BOOT.(ready := true, window := false), Wait, FACTORY.store)

  function FirstBoot(): seq<Step> {
    [DoResume] + [DoSetReady] + [DoReset] + [EndSweep] + [DoClearBusy]
  }

  lemma FirstBootWaits(table: R.Recipes)
    ensures Leads(table, FACTORY, FirstBoot(), WAITING)
  {
    var steps, t := [], FACTORY;
    steps, t := Then(table, FACTORY, steps, t, DoResume);
    steps, t := Then(table, FACTORY, steps, t, DoSetReady);
    steps, t := Then(table, FACTORY, steps, t, DoReset);
    steps, t := Then(table, FACTORY, steps, t, EndSweep);
    steps, t := Then(table, FACTORY, steps, t, DoClearBusy);
    assert steps == FirstBoot();
  }

  lemma Then(table: R.Recipes, s: Sys, steps: seq<Step>, t: Sys, step: Step) returns (more: seq<Step>, u: Sys)
    requires Leads(table, s, steps, t) && Enabled(t, step) && (step.Accept? ==> !t.front.window)
    ensures more == steps + [step] && u == Next(table, t, step) && Leads(table, s, more, u)
  {
    Further(table, s, steps, t, step);
    more, u := steps + [step], Next(table, t, step);
  }

  /** The front once a request has been accepted, handed over and copied. */
  function Copied(f: Front, req: Request): Front {
    f.(busy := true, accepted := f.accepted + [req], stages := f.stages + [Given],
       latched := Some(|f.accepted|), sessions := f.sessions + [|f.accepted|])
  }

  /** A request arrives while the thread waits, and is copied. */
  lemma RequestCopied(table: R.Recipes, s: Sys, steps: seq<Step>, t: Sys, req: Request)
    returns (more: seq<Step>, u: Sys)
    requires Leads(table, s, steps, t) && t.pc == Wait
    requires t.front.ready && !t.front.busy && !t.front.window && !t.front.sem && |t.front.stages| == |t.front.accepted|
    ensures Leads(table, s, more, u) && u == Sys(Copied(t.front, req), Provision, t.store)
  {
    var k := |t.front.accepted|;
    more, u := Then(table, s, steps, t, Accept(req));
    more, u := Then(table, s, more, u, WritePair(k));
    more, u := Then(table, s, more, u, GiveSem(k));
    more, u := Then(table, s, more, u, TakeSem);
    more, u := Then(table, s, more, u, CopyPair);
    assert u.front.stages == t.front.stages + [Given];
  }

  // ---------------------------------------------------------------------------- a late callback

  /** The first request is being provisioned. */
  lemma FirstSession(table: R.Recipes, req: Request) returns (steps: seq<Step>, t: Sys)
    ensures Leads(table, FACTORY, steps, t)
    ensures t == Sys(Copied(WAITING.front, req), Await, FACTORY.store.(target := Some(0)))
  {
    FirstBootWaits(table);
    steps, t := RequestCopied(table, FACTORY, FirstBoot(), WAITING, req);
    steps, t := Then(table, FACTORY, steps, t, ProvisionStarts);
  }

  /** The first session times out and the thread is back at the semaphore. */
  lemma FirstSessionTimesOut(table: R.Recipes, req: Request) returns (steps: seq<Step>, t: Sys)
    ensures Leads(table, FACTORY, steps, t)
    ensures t == Sys(Copied(WAITING.front, req).(busy := false, window := false), Wait,
                     FACTORY.store.(target := Some(0)))
  {
    steps, t := FirstSession(table, req);
    steps, t := Then(table, FACTORY, steps, t, AwaitTimesOut);
    steps, t := Then(table, FACTORY, steps, t, DoReset);
    steps, t := Then(table, FACTORY, steps, t, EndSweep);
    steps, t := Then(table, FACTORY, steps, t, DoClearBusy);
  }

  /** The windows do open: from the first power-up a run, itself clear of windows, leads to a point inside one
      at which a second request is accepted. */
  lemma WindowOpens(table: R.Recipes, first: Request, second: Request) returns (steps: seq<Step>, t: Sys)
    ensures Leads(table, FACTORY, steps, t) && t.front.window && t.front.accepted == [first]
    ensures Enabled(t, Accept(second)) && Next(table, t, Accept(second)).front.accepted == [first, second]
  {
    steps, t := FirstSession(table, first);
    steps, t := Then(table, FACTORY, steps, t, AwaitTimesOut);
  }

  /** A run clear of all windows in which the node of the first request is added and announced only after the
      second has been copied: the record names it with the second request's recipe. */
  lemma LateCallbackTakesNextRecipe(table: R.Recipes, first: Request, second: Request, a: nat)
    returns (steps: seq<Step>, t: Sys)
    requires a != 0
    ensures Leads(table, FACTORY, steps, t) && Enabled(t, CallbackRecords(a))
    ensures a in t.store.origin && t.store.origin[a] == 0
    ensures t.front.sessions == [0, 1] && t.front.accepted == [first, second]
    ensures NextStore(table, t, CallbackRecords(a)).rec == Record(a, true, second.recipe)
  {
    steps, t := FirstSessionTimesOut(table, first);
    steps, t := RequestCopied(table, FACTORY, steps, t, second);
    steps, t := Then(table, FACTORY, steps, t, StackAdds(a));
    assert t.front.sessions == [0, 1] && t.front.accepted == [first, second];
  }

  // ---------------------------------------------------------------------------- the record cleared too early

  /** A node is added and stored while that session is on. */
  lemma NodeAdded(table: R.Recipes, req: Request, n: nat) returns (steps: seq<Step>, t: Sys)
    requires n != 0
    ensures Leads(table, FACTORY, steps, t) && t.pc == Await && t.front == Copied(WAITING.front, req)
    ensures t.store == FACTORY.store.(cdb := map[n := false], savedCdb := map[n := false],
                                      target := Some(0), origin := map[n := 0])
  {
    steps, t := FirstSession(table, req);
    steps, t := Then(table, FACTORY, steps, t, StackAdds(n));
    steps, t := Then(table, FACTORY, steps, t, StackStores(n));
  }

  /** It is announced in time, and its record saved. */
  lemma NodeRecorded(table: R.Recipes, req: Request, n: nat) returns (steps: seq<Step>, t: Sys)
    requires n != 0
    ensures Leads(table, FACTORY, steps, t) && t.pc == Await && t.store.callback == Saved(n)
    ensures t.store.rec == t.store.savedRec == Record(n, true, req.recipe)
    ensures t.store.cdb == map[n := false] && t.store.savedCdb == map[n := false]
  {
    steps, t := NodeAdded(table, req, n);
    steps, t := Then(table, FACTORY, steps, t, CallbackRecords(n));
    steps, t := Then(table, FACTORY, steps, t, CallbackSaves);
  }

  lemma NodeAnnounced(table: R.Recipes, req: Request, n: nat) returns (steps: seq<Step>, t: Sys)
    requires n != 0
    ensures Leads(table, FACTORY, steps, t) && t.pc == Reset
    ensures t.store.rec == t.store.savedRec == Record(n, true, req.recipe)
    ensures t.store.cdb == map[n := false] && t.store.savedCdb == map[n := false]
  {
    steps, t := NodeRecorded(table, req, n);
    steps, t := Then(table, FACTORY, steps, t, CallbackGives);
    steps, t := Then(table, FACTORY, steps, t, AwaitSucceeds);
  }

  /** The thread begins to configure it. */
  lemma NodeVisited(table: R.Recipes, req: Request, n: nat) returns (steps: seq<Step>, t: Sys)
    requires n != 0
    ensures Leads(table, FACTORY, steps, t) && t.pc == Config(n, ToSweep({n}, {n}), Apply(req.recipe))
    ensures t.store.rec == t.store.savedRec == Record(n, true, req.recipe)
    ensures t.store.cdb == map[n := false] && t.store.savedCdb == map[n := false]
  {
    steps, t := NodeAnnounced(table, req, n);
    steps, t := Then(table, FACTORY, steps, t, DoReset);
    assert t.store.cdb.Keys == {n} && {} + {n} == {n};
    steps, t := Then(table, FACTORY, steps, t, Visit(n));
    steps, t := Then(table, FACTORY, steps, t, DoChoose);
  }

  /** The node is configured with the recorded recipe, its flag is set and its write is scheduled, and the
      record has been cleared in RAM. */
  lemma NodeConfigured(table: R.Recipes, req: Request, n: nat, apply: Step) returns (steps: seq<Step>, t: Sys)
    requires n != 0 && req.recipe != S.RECIPE_NONE
    requires apply.DoApply? && apply.node.addr == n && Succeeds(table, req.recipe, apply)
    ensures Leads(table, FACTORY, steps, t)
    ensures t.pc == Config(n, ToSweep({n}, {n}), SaveRecord) && t.store.rec == NO_RECORD
    ensures t.store.savedRec == Record(n, true, req.recipe)
    ensures t.store.cdb == map[n := true] && t.store.savedCdb == map[n := false]
    ensures n in t.store.evidence && t.store.evidence[n].recipe == req.recipe
  {
    steps, t := NodeVisited(table, req, n);
    steps, t := Then(table, FACTORY, steps, t, apply);
    steps, t := Then(table, FACTORY, steps, t, DoMark);
    steps, t := Then(table, FACTORY, steps, t, DoStoreNode);
    steps, t := Then(table, FACTORY, steps, t, DoClearRecord);
  }

  /** After a power cut a node that flash holds as not configured, with no record, is visited without one. */
  function NextAttempt(n: nat): seq<Step> {
    [Reboot] + ([DoResume] + ([DoSetReady] + ([DoReset] + ([Visit(n)] + ([DoChoose] + [])))))
  }

  /** The run keeps n's writes in order and has an attempt on n that chooses another recipe than r. */
  ghost predicate Forgets(table: R.Recipes, s: Sys, steps: seq<Step>, n: nat, r: nat) {
    && Possible(table, s, steps) && L.AllInOrder(table, s, steps, n) && !L.AttemptsUse(table, s, steps, n, r)
    && (forall i :: 0 <= i < |steps| ==> L.Undisturbed(steps[i], n))
  }

  lemma ForgetsLater(table: R.Recipes, s: Sys, step: Step, rest: seq<Step>, n: nat, r: nat)
    requires Enabled(s, step) && L.WritesInOrder(s, step, n) && L.Undisturbed(step, n)
    requires Forgets(table, Next(table, s, step), rest, n, r)
    ensures Forgets(table, s, [step] + rest, n, r)
  {
    assert ([step] + rest)[1..] == rest;
  }

  lemma ChoiceForgets(table: R.Recipes, s: Sys, n: nat, r: nat)
    requires s.pc.Config? && s.pc.addr == n && s.pc.phase == Choose && r != S.RECIPE_NONE && n != 0
    requires s.store.rec == NO_RECORD && s.store.nodeAddr == 0
    ensures Forgets(table, s, [DoChoose] + [], n, r)
  {
    assert [DoChoose] + [] == [DoChoose];
  }

  lemma CutForgetsRecipe(table: R.Recipes, s: Sys, n: nat, r: nat)
    requires s.store.savedRec == NO_RECORD && L.Behind(s.store, n) && n != 0 && r != S.RECIPE_NONE
    ensures Forgets(table, s, NextAttempt(n), n, r)
  {
    var s1 := Next(table, s, Reboot);
    var s2 := Next(table, s1, DoResume);
    var s3 := Next(table, s2, DoSetReady);
    var s4 := Next(table, s3, DoReset);
    var s5 := Next(table, s4, Visit(n));
    ChoiceForgets(table, s5, n, r);
    ForgetsLater(table, s4, Visit(n), [DoChoose] + [], n, r);
    ForgetsLater(table, s3, DoReset, [Visit(n)] + ([DoChoose] + []), n, r);
    ForgetsLater(table, s2, DoSetReady, [DoReset] + ([Visit(n)] + ([DoChoose] + [])), n, r);
    ForgetsLater(table, s1, DoResume, [DoSetReady] + ([DoReset] + ([Visit(n)] + ([DoChoose] + []))), n, r);
    ForgetsLater(table, s, Reboot, [DoResume] + ([DoSetReady] + ([DoReset] + ([Visit(n)] + ([DoChoose] + [])))), n, r);
  }

  /** Every undisturbed run from t that keeps n's writes in order uses recipe r for n. */
  ghost predicate KeepsRecipe(table: R.Recipes, t: Sys, n: nat, r: nat) {
    forall steps :: Possible(table, t, steps) && L.AllInOrder(table, t, steps, n)
                    && (forall i :: 0 <= i < |steps| ==> L.Undisturbed(steps[i], n))
                    ==> L.AttemptsUse(table, t, steps, n, r)
  }

  /** Writing the cleared record of a node just configured with recipe r is safe exactly when flash no longer
      holds the node as not configured: then, and only then, every later attempt on it uses r. */
  lemma WriteOrderDecides(table: R.Recipes, before: seq<Step>, s: Sys, n: nat, r: nat)
    requires Possible(table, FACTORY, before) && s == Run(table, FACTORY, before)
    requires L.Latched(s, n, r) && n != 0 && r != S.RECIPE_NONE && s.store.rec == NO_RECORD
    requires s.pc.Config? && s.pc.addr == n && s.pc.phase == SaveRecord
    ensures !L.Behind(s.store, n) <==> KeepsRecipe(table, Next(table, s, DoSaveRecord), n, r)
  {
    var t := Next(table, s, DoSaveRecord);
    L.StepsKeepStore(table, FACTORY, before);
    if L.Behind(s.store, n) {
      CutForgetsRecipe(table, t, n, r);
    } else {
      L.StepKeepsStoreInv(table, s, DoSaveRecord);
      L.StepKeepsUnsavedInv(table, s, DoSaveRecord);
      L.StepKeepsLatched(table, s, DoSaveRecord, n, r);
      forall steps | Possible(table, t, steps) && L.AllInOrder(table, t, steps, n)
                     && (forall i :: 0 <= i < |steps| ==> L.Undisturbed(steps[i], n))
        ensures L.AttemptsUse(table, t, steps, n, r)
      {
        L.StepsKeepLatched(table, t, steps, n, r);
      }
    }
  }

  /** And it does happen: a node is configured with the recipe of its request, the record is cleared in flash
      before the flag is written, the power is cut, and the next attempt on the node looks for a recipe in the
      scenario table. */
  lemma RecipeIsForgotten(table: R.Recipes, req: Request, n: nat, apply: Step) returns (steps: seq<Step>, s: Sys)
    requires n != 0 && req.recipe != S.RECIPE_NONE
    requires apply.DoApply? && apply.node.addr == n && Succeeds(table, req.recipe, apply)
    ensures Leads(table, FACTORY, steps, s) && s.pc.Config? && s.pc.addr == n && s.pc.phase == SaveRecord
    ensures L.Configured(s.store.cdb, n) && n in s.store.evidence && s.store.evidence[n].recipe == req.recipe
    ensures L.Latched(s, n, req.recipe)
    ensures Forgets(table, Next(table, s, DoSaveRecord), NextAttempt(n), n, req.recipe)
  {
    steps, s := NodeConfigured(table, req, n, apply);
    CutForgetsRecipe(table, Next(table, s, DoSaveRecord), n, req.recipe);
  }
}
