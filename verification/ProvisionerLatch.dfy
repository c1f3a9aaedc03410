/** The persisted resume record and the configured flags, over any run with any number of power cuts. */
module ProvisionerLatch {
  import opened Provisioner
  import Q = ProvisionerRequests
  import S = ScenarioSpec
  import R = RecipeSpec
  import C = RecipeConvergence

  predicate Configured(cdb: map<nat, bool>, a: nat) {
    a in cdb && cdb[a]
  }

  /** What holds between RAM and flash at every point: flash knows no more than RAM, and an attempt is on a
      node of the database that is configured exactly from its marking on. */
  ghost predicate StoreInv(s: Sys) {
    var st := s.store;
    && st.savedCdb.Keys <= st.cdb.Keys
    && (forall a {:trigger Configured(st.savedCdb, a)} :: Configured(st.savedCdb, a) ==> Configured(st.cdb, a))
    && (s.pc.Config? ==>
          && s.pc.addr in st.cdb
          && (s.pc.phase == Choose || s.pc.phase.Apply? || s.pc.phase == Mark <==> !st.cdb[s.pc.addr]))
  }

  lemma StepKeepsStoreInv(table: R.Recipes, s: Sys, step: Step)
    requires StoreInv(s) && Enabled(s, step)
    ensures StoreInv(Next(table, s, step))
  {
    var st, st' := s.store, Next(table, s, step).store;
    forall a ensures Configured(st'.savedCdb, a) ==> Configured(st'.cdb, a) {
      assert Configured(st.savedCdb, a) ==> Configured(st.cdb, a);
      assert Configured(st.cdb, a) || !Configured(st.cdb, a);
    }
  }

  /** A configured flag that is not in flash yet was set since the last power-up, and while the boot code
      looks at the record there is none. */
  ghost predicate UnsavedInv(s: Sys) {
    && (s.pc == Resume || s.pc == ResumeSave ==> s.store.successes == [])
    && (forall a {:trigger Configured(s.store.cdb, a)} :: Configured(s.store.cdb, a) ==>
          Configured(s.store.savedCdb, a) || a in s.store.successes)
  }

  lemma FlagOfStep(table: R.Recipes, s: Sys, step: Step, a: nat)
    requires StoreInv(s) && UnsavedInv(s) && Enabled(s, step) && Configured(NextStore(table, s, step).cdb, a)
    ensures var st' := NextStore(table, s, step); Configured(st'.savedCdb, a) || a in st'.successes
  {
    assert Configured(s.store.cdb, a) || !Configured(s.store.cdb, a);
    if step.DoMark? { assert NextStore(table, s, step).successes[|s.store.successes|] == s.pc.addr; }
  }

  lemma NoneMarkedAtBoot(table: R.Recipes, s: Sys, step: Step)
    requires UnsavedInv(s) && Enabled(s, step)
    ensures var pc := NextPc(table, s, step);
            pc == Resume || pc == ResumeSave ==> NextStore(table, s, step).successes == []
  {
  }

  lemma StepKeepsUnsavedInv(table: R.Recipes, s: Sys, step: Step)
    requires StoreInv(s) && UnsavedInv(s) && Enabled(s, step)
    ensures UnsavedInv(Next(table, s, step))
  {
    NoneMarkedAtBoot(table, s, step);
    var st' := NextStore(table, s, step);
    forall a | Configured(st'.cdb, a) ensures Configured(st'.savedCdb, a) || a in st'.successes {
      FlagOfStep(table, s, step, a);
    }
  }

  // ---------------------------------------------------------------------------- the resume record

  /** The node is configured or not in the database. */
  predicate Settled(st: Store, n: nat) {
    (n in st.cdb ==> Configured(st.cdb, n)) && (n in st.savedCdb ==> n in st.cdb)
  }

  /** Flash still holds the node as not configured. */
  predicate Behind(st: Store, n: nat) {
    n in st.savedCdb && !st.savedCdb[n]
  }

  /** The record of node n with recipe r stands, in RAM and in flash, except that it may have been cleared in
      RAM once n was configured or gone, and in flash once flash knew. */
  ghost predicate Latched(s: Sys, n: nat, r: nat) {
    RamLatched(s.store, n, r) && FlashLatched(s.store, n, r)
  }

  predicate RamLatched(st: Store, n: nat, r: nat) {
    st.rec == Record(n, true, r) || (st.rec == NO_RECORD && Settled(st, n))
  }

  predicate FlashLatched(st: Store, n: nat, r: nat) {
    st.savedRec == Record(n, true, r) || (st.savedRec == NO_RECORD && Settled(st, n) && !Behind(st, n))
  }

  /** No other node is announced and n's address is not handed out anew. */
  predicate Undisturbed(step: Step, n: nat) {
    !step.CallbackRecords? && step != StackAdds(n)
  }

  /** The step does not write a cleared record while flash is behind on n: the flag is written first. */
  predicate WritesInOrder(s: Sys, step: Step, n: nat) {
    (step.DoSaveRecord? || step.CallbackSaves?) && Configured(s.store.cdb, n) ==> !Behind(s.store, n)
  }

  predicate AllInOrder(table: R.Recipes, s: Sys, steps: seq<Step>, n: nat)
    decreases |steps|
  {
    steps != [] ==> WritesInOrder(s, steps[0], n) && AllInOrder(table, Next(table, s, steps[0]), steps[1..], n)
  }

  lemma SettledStays(table: R.Recipes, s: Sys, step: Step, n: nat)
    requires StoreInv(s) && Settled(s.store, n) && Enabled(s, step) && Undisturbed(step, n)
    requires step != Reboot
    ensures Settled(NextStore(table, s, step), n)
    ensures !Behind(s.store, n) ==> !Behind(NextStore(table, s, step), n)
  {
  }

  lemma StepKeepsRamLatched(table: R.Recipes, s: Sys, step: Step, n: nat, r: nat)
    requires StoreInv(s) && Latched(s, n, r) && n != 0 && Enabled(s, step) && Undisturbed(step, n)
    ensures RamLatched(NextStore(table, s, step), n, r)
  {
    if step != Reboot && Settled(s.store, n) { SettledStays(table, s, step, n); }
  }

  lemma StepKeepsFlashLatched(table: R.Recipes, s: Sys, step: Step, n: nat, r: nat)
    requires StoreInv(s) && UnsavedInv(s) && Latched(s, n, r) && n != 0 && Enabled(s, step)
    requires Undisturbed(step, n) && WritesInOrder(s, step, n)
    ensures FlashLatched(NextStore(table, s, step), n, r)
  {
    if step != Reboot && Settled(s.store, n) { SettledStays(table, s, step, n); }
    if step == DoResumeSave { assert Configured(s.store.cdb, n) ==> Configured(s.store.savedCdb, n); }
  }

  lemma StepKeepsLatched(table: R.Recipes, s: Sys, step: Step, n: nat, r: nat)
    requires StoreInv(s) && UnsavedInv(s) && Latched(s, n, r) && n != 0 && Enabled(s, step)
    requires Undisturbed(step, n) && WritesInOrder(s, step, n)
    ensures Latched(Next(table, s, step), n, r)
  {
    StepKeepsRamLatched(table, s, step, n, r);
    StepKeepsFlashLatched(table, s, step, n, r);
  }

  /** Every configuration attempt on n that the run begins uses recipe r: the recipe chosen is r itself, so
      the scenario table is consulted only when r is "none". */
  ghost predicate AttemptsUse(table: R.Recipes, s: Sys, steps: seq<Step>, n: nat, r: nat)
    decreases |steps|
  {
    steps != [] ==>
      && (steps[0].DoChoose? && s.pc.Config? && s.pc.addr == n ==>
            NextPc(table, s, steps[0]) == s.pc.(phase := Apply(r)))
      && AttemptsUse(table, Next(table, s, steps[0]), steps[1..], n, r)
  }

  // ---------------------------------------------------------------------------- configured flags

  /** The evidence shows one complete run of one recipe on that node, every message acknowledged. */
  ghost predicate Convincing(table: R.Recipes, e: Evidence, a: nat) {
    && e.node.addr == a && S.Assignable(e.recipe) && e.attempt.fetch.Page?
    && var x := R.ExpansionOn(table, e.node, e.recipe, e.attempt.fetch.comp);
       && x.complete && |e.attempt.fetch.comp| == e.node.numElem
       && forall k :: 0 <= k < |x.msgs| ==> R.Acked(x.msgs[k], e.attempt.script(k))
  }

  ghost predicate EvidenceInv(table: R.Recipes, s: Sys) {
    && (forall a {:trigger Configured(s.store.cdb, a)} :: Configured(s.store.cdb, a) ==>
          a in s.store.evidence && Convincing(table, s.store.evidence[a], a))
    && (s.pc.Config? && s.pc.phase == Mark ==>
          s.pc.addr in s.store.evidence && Convincing(table, s.store.evidence[s.pc.addr], s.pc.addr))
  }

  /** The nodes configured since power-up are configured, and none is listed twice. */
  ghost predicate OnceInv(s: Sys) {
    && (forall i :: 0 <= i < |s.store.successes| ==> Configured(s.store.cdb, s.store.successes[i]))
    && (forall i, j :: 0 <= i < j < |s.store.successes| ==> s.store.successes[i] != s.store.successes[j])
  }

  lemma StepKeepsOnce(table: R.Recipes, s: Sys, step: Step)
    requires StoreInv(s) && OnceInv(s) && Enabled(s, step)
    ensures OnceInv(Next(table, s, step))
  {
    var st' := Next(table, s, step).store;
    forall i | 0 <= i < |st'.successes| ensures Configured(st'.cdb, st'.successes[i]) {
      assert i < |s.store.successes| ==> Configured(s.store.cdb, s.store.successes[i]);
    }
  }

  lemma ApplyConvinces(table: R.Recipes, recipe: nat, step: Step)
    requires step.DoApply? && Succeeds(table, recipe, step)
    ensures var used := if recipe != S.RECIPE_NONE then recipe else step.looked;
            Convincing(table, Evidence(step.node, used, step.attempt), step.node.addr)
  {
    var used := if recipe != S.RECIPE_NONE then recipe else step.looked;
    C.AttemptSendsPrefix(table, step.node, used, step.attempt, R.BLANK);
  }

  lemma StepKeepsEvidence(table: R.Recipes, s: Sys, step: Step)
    requires StoreInv(s) && EvidenceInv(table, s) && Enabled(s, step)
    ensures EvidenceInv(table, Next(table, s, step))
  {
    var st, st' := s.store, Next(table, s, step).store;
    if step.DoApply? && Succeeds(table, s.pc.phase.recipe, step) {
      ApplyConvinces(table, s.pc.phase.recipe, step);
    }
    forall a | Configured(st'.cdb, a)
      ensures a in st'.evidence && Convincing(table, st'.evidence[a], a)
    {
      assert Configured(st.savedCdb, a) ==> Configured(st.cdb, a);
      assert Configured(st.cdb, a) || (step.DoMark? && a == s.pc.addr);
    }
  }

  lemma {:induction false} StepsKeepStore(table: R.Recipes, s: Sys, steps: seq<Step>)
    requires StoreInv(s) && UnsavedInv(s) && Possible(table, s, steps)
    ensures StoreInv(Run(table, s, steps)) && UnsavedInv(Run(table, s, steps))
    decreases |steps|
  {
    if steps == [] {
    } else {
      StepKeepsStoreInv(table, s, steps[0]);
      StepKeepsUnsavedInv(table, s, steps[0]);
      StepsKeepStore(table, Next(table, s, steps[0]), steps[1..]);
    }
  }

  lemma {:induction false} StepsKeepEvidence(table: R.Recipes, s: Sys, steps: seq<Step>)
    requires StoreInv(s) && EvidenceInv(table, s) && OnceInv(s) && Possible(table, s, steps)
    ensures EvidenceInv(table, Run(table, s, steps)) && OnceInv(Run(table, s, steps))
    decreases |steps|
  {
    if steps == [] {
    } else {
      StepKeepsStoreInv(table, s, steps[0]);
      StepKeepsEvidence(table, s, steps[0]);
      StepKeepsOnce(table, s, steps[0]);
      StepsKeepEvidence(table, Next(table, s, steps[0]), steps[1..]);
    }
  }

  /** In every state a provisioner reaches: flash knows no more than RAM, and a configured flag that is not
      in flash yet was set since the last power-up. */
  lemma FlashFollowsRam(table: R.Recipes, steps: seq<Step>, a: nat)
    requires Possible(table, FACTORY, steps)
    ensures var st := Run(table, FACTORY, steps).store;
            && (a in st.savedCdb ==> a in st.cdb)
            && (Configured(st.savedCdb, a) ==> Configured(st.cdb, a))
            && (Configured(st.cdb, a) && !Configured(st.savedCdb, a) ==> a in st.successes)
  {
    StepsKeepStore(table, FACTORY, steps);
  }

  /** In every state a provisioner reaches, a node is marked configured only with a complete, acknowledged
      run of one recipe behind it, and no node has been configured twice since the last power cut. */
  lemma ConfiguredMeansAcknowledged(table: R.Recipes, steps: seq<Step>, a: nat)
    requires Possible(table, FACTORY, steps)
    ensures var st := Run(table, FACTORY, steps).store;
            && (Configured(st.cdb, a) ==> a in st.evidence && Convincing(table, st.evidence[a], a))
            && (forall i, j :: 0 <= i < j < |st.successes| ==> st.successes[i] != st.successes[j])
  {
    StepsKeepEvidence(table, FACTORY, steps);
  }

  // ---------------------------------------------------------------------------- the latch over whole runs

  lemma {:induction false} StepsKeepLatched(table: R.Recipes, s: Sys, steps: seq<Step>, n: nat, r: nat)
    requires StoreInv(s) && UnsavedInv(s) && Latched(s, n, r) && n != 0 && Possible(table, s, steps)
    requires AllInOrder(table, s, steps, n)
    requires forall i :: 0 <= i < |steps| ==> Undisturbed(steps[i], n)
    ensures Latched(Run(table, s, steps), n, r)
    ensures AttemptsUse(table, s, steps, n, r)
    decreases |steps|
  {
    if steps == [] {
    } else {
      StepKeepsStoreInv(table, s, steps[0]);
      StepKeepsUnsavedInv(table, s, steps[0]);
      StepKeepsLatched(table, s, steps[0], n, r);
      if steps[0].DoChoose? && s.pc.addr == n { ChoosesLatched(s, n, r); }
      StepsKeepLatched(table, Next(table, s, steps[0]), steps[1..], n, r);
    }
  }

  /** Crash-consistent latch: once the record naming node n with recipe r has been saved, and until another
      node is announced or n's address is handed out anew, every configuration attempt on n uses r, in this
      boot and after any number of power cuts at any points, and the record is cleared only when n is
      configured or absent from the database, in flash only when flash says so too; provided n's flag, once
      set, reaches flash before a record is written. */
  lemma CrashConsistentLatch(table: R.Recipes, before: seq<Step>, s: Sys, steps: seq<Step>, n: nat, r: nat)
    requires Possible(table, FACTORY, before) && s == Run(table, FACTORY, before)
    requires Latched(s, n, r) && n != 0 && Possible(table, s, steps) && AllInOrder(table, s, steps, n)
    requires forall i :: 0 <= i < |steps| ==> Undisturbed(steps[i], n)
    ensures Latched(Run(table, s, steps), n, r) && AttemptsUse(table, s, steps, n, r)
  {
    StepsKeepStore(table, FACTORY, before);
    StepsKeepLatched(table, s, steps, n, r);
  }

  /** Node n has been configured with recipe r if at all. */
  ghost predicate DoneWith(s: Sys, n: nat, r: nat) {
    Configured(s.store.cdb, n) ==> n in s.store.evidence && s.store.evidence[n].recipe == r
  }

  /** An attempt on n under way uses recipe r. */
  ghost predicate UnderWayWith(s: Sys, n: nat, r: nat) {
    s.pc.Config? && s.pc.addr == n ==>
      && (s.pc.phase.Apply? ==> s.pc.phase.recipe == r)
      && (s.pc.phase == Mark ==> n in s.store.evidence && s.store.evidence[n].recipe == r)
  }

  ghost predicate OnlyWith(s: Sys, n: nat, r: nat) {
    DoneWith(s, n, r) && UnderWayWith(s, n, r)
  }

  /** While the record stands for n, it decides every choice of a recipe for n. */
  lemma ChoosesLatched(s: Sys, n: nat, r: nat)
    requires StoreInv(s) && Latched(s, n, r)
    requires s.pc.Config? && s.pc.addr == n && s.pc.phase == Choose
    ensures Pick(s, n) == r
  {
    assert !Configured(s.store.cdb, n);
  }

  lemma ChooseOrApplyKeepsOnlyWith(table: R.Recipes, s: Sys, step: Step, n: nat, r: nat)
    requires StoreInv(s) && Latched(s, n, r) && Enabled(s, step) && (step.DoChoose? || step.DoApply?)
    requires OnlyWith(s, n, r) && r != S.RECIPE_NONE
    ensures OnlyWith(Next(table, s, step), n, r)
  {
    if step.DoChoose? && s.pc.addr == n { ChoosesLatched(s, n, r); }
    assert Configured(s.store.cdb, n) || !Configured(s.store.cdb, n);
  }

  lemma OtherStepKeepsDoneWith(table: R.Recipes, s: Sys, step: Step, n: nat, r: nat)
    requires StoreInv(s) && Enabled(s, step) && Undisturbed(step, n) && !step.DoApply?
    requires OnlyWith(s, n, r)
    ensures DoneWith(Next(table, s, step), n, r)
  {
    assert Configured(s.store.savedCdb, n) ==> Configured(s.store.cdb, n);
  }

  /** Other steps neither enter an attempt past the choice of its recipe nor add evidence. */
  lemma OtherStepStarts(table: R.Recipes, s: Sys, step: Step)
    requires Enabled(s, step) && !step.DoChoose? && !step.DoApply?
    ensures var pc := NextPc(table, s, step);
            pc.Config? && (pc.phase.Apply? || pc.phase == Mark) ==>
              s.pc.Config? && pc.addr == s.pc.addr && pc.phase == s.pc.phase
  {
  }

  lemma OtherStepKeepsEvidence(table: R.Recipes, s: Sys, step: Step)
    requires !step.DoApply?
    ensures NextStore(table, s, step).evidence == s.store.evidence
  {
  }

  lemma OtherStepKeepsUnderWayWith(table: R.Recipes, s: Sys, step: Step, n: nat, r: nat)
    requires Enabled(s, step) && !step.DoChoose? && !step.DoApply?
    requires UnderWayWith(s, n, r)
    ensures UnderWayWith(Next(table, s, step), n, r)
  {
    OtherStepStarts(table, s, step);
    OtherStepKeepsEvidence(table, s, step);
  }

  lemma StepKeepsOnlyWith(table: R.Recipes, s: Sys, step: Step, n: nat, r: nat)
    requires StoreInv(s) && Latched(s, n, r) && n != 0 && Enabled(s, step) && Undisturbed(step, n)
    requires OnlyWith(s, n, r) && r != S.RECIPE_NONE
    ensures OnlyWith(Next(table, s, step), n, r)
  {
    if step.DoChoose? || step.DoApply? {
      ChooseOrApplyKeepsOnlyWith(table, s, step, n, r);
    } else {
      OtherStepKeepsDoneWith(table, s, step, n, r);
      OtherStepKeepsUnderWayWith(table, s, step, n, r);
    }
  }

  lemma {:induction false} StepsKeepOnlyWith(table: R.Recipes, s: Sys, steps: seq<Step>, n: nat, r: nat)
    requires StoreInv(s) && UnsavedInv(s) && Latched(s, n, r) && n != 0 && Possible(table, s, steps)
    requires AllInOrder(table, s, steps, n)
    requires forall i :: 0 <= i < |steps| ==> Undisturbed(steps[i], n)
    requires OnlyWith(s, n, r) && r != S.RECIPE_NONE
    ensures OnlyWith(Run(table, s, steps), n, r)
    decreases |steps|
  {
    if steps == [] {
    } else {
      StepKeepsStoreInv(table, s, steps[0]);
      StepKeepsUnsavedInv(table, s, steps[0]);
      StepKeepsLatched(table, s, steps[0], n, r);
      StepKeepsOnlyWith(table, s, steps[0], n, r);
      StepsKeepOnlyWith(table, Next(table, s, steps[0]), steps[1..], n, r);
    }
  }

  /** No attempt on n is past the choice of its recipe. */
  predicate NoneUnderWay(s: Sys, n: nat) {
    s.pc.Config? && s.pc.addr == n ==> s.pc.phase == Choose
  }

  /** The node gets its recipe: when the record with recipe r is latched for a node not yet configured and no
      attempt on it is already under way, then whenever the node is configured later, after whatever failures
      and power cuts, it was by a complete, acknowledged run of r; again provided its flag reaches flash before
      a record is written. */
  lemma NodeGetsItsRecipe(table: R.Recipes, before: seq<Step>, s: Sys, steps: seq<Step>, n: nat, r: nat)
    requires Possible(table, FACTORY, before) && s == Run(table, FACTORY, before)
    requires Latched(s, n, r) && n != 0 && r != S.RECIPE_NONE
    requires Possible(table, s, steps) && AllInOrder(table, s, steps, n)
    requires !Configured(s.store.cdb, n) && NoneUnderWay(s, n)
    requires forall i :: 0 <= i < |steps| ==> Undisturbed(steps[i], n)
    ensures var st := Run(table, s, steps).store;
            Configured(st.cdb, n) ==>
              n in st.evidence && st.evidence[n].recipe == r && Convincing(table, st.evidence[n], n)
  {
    StepsKeepStore(table, FACTORY, before);
    StepsKeepEvidence(table, FACTORY, before);
    StepsKeepEvidence(table, s, steps);
    StepsKeepOnlyWith(table, s, steps, n, r);
  }

  lemma RecordsTheSession(table: R.Recipes, s: Sys, n: nat)
    requires Q.FrontInv(s) && Enabled(s, CallbackRecords(n)) && s.front.sessions != []
    ensures var last := s.front.sessions[|s.front.sessions| - 1];
            last < |s.front.accepted|
            && NextStore(table, s, CallbackRecords(n)).rec == Record(n, true, s.front.accepted[last].recipe)
  {
    assert Q.Written(s.front, s.front.sessions[|s.front.sessions| - 1]);
  }

  lemma SavingLatches(table: R.Recipes, s: Sys, n: nat)
    requires Enabled(s, CallbackSaves) && s.store.rec.addr == n && s.store.rec.pending
    ensures Latched(Next(table, s, CallbackSaves), n, s.store.rec.recipe)
    ensures Q.InSession(s.pc) ==> NoneUnderWay(Next(table, s, CallbackSaves), n)
  {
  }

  /** The callback starts the latch. For a node added for the session copied last it records the recipe of
      the request that session serves; when requests have kept clear of the windows, that is the request of
      the same number. And during a session no attempt is under way. */
  lemma CallbackLatches(table: R.Recipes, before: seq<Step>, n: nat, s: Sys)
    requires Possible(table, FACTORY, before) && s == Run(table, FACTORY, before)
    ensures Enabled(s, CallbackRecords(n)) && n in s.store.origin && s.store.origin[n] == |s.front.sessions| - 1 ==>
              var k := s.front.sessions[s.store.origin[n]];
              && k < |s.front.accepted|
              && Next(table, s, CallbackRecords(n)).store.rec == Record(n, true, s.front.accepted[k].recipe)
              && (Q.Avoids(table, FACTORY, before) ==> k == s.store.origin[n])
    ensures Enabled(s, CallbackSaves) && s.store.rec.addr == n && s.store.rec.pending ==>
              Latched(Next(table, s, CallbackSaves), n, s.store.rec.recipe)
              && (Q.InSession(s.pc) ==> NoneUnderWay(Next(table, s, CallbackSaves), n))
  {
    if Enabled(s, CallbackRecords(n)) && s.front.sessions != [] {
      Q.StepsKeepFrontInv(table, FACTORY, before);
      RecordsTheSession(table, s, n);
      if Q.Avoids(table, FACTORY, before) { Q.StepsKeepExclusiveInv(table, FACTORY, before); }
    }
    if Enabled(s, CallbackSaves) && s.store.rec.addr == n && s.store.rec.pending {
      SavingLatches(table, s, n);
    }
  }

  // ---------------------------------------------------------------------------- flags

  lemma FlagStays(table: R.Recipes, s: Sys, step: Step, a: nat)
    requires Enabled(s, step) && step != Reboot && Configured(s.store.cdb, a)
    ensures Configured(NextStore(table, s, step).cdb, a)
  {
  }

  lemma SavedFlagStays(table: R.Recipes, s: Sys, step: Step, a: nat)
    requires StoreInv(s) && Configured(s.store.savedCdb, a)
    ensures Configured(NextStore(table, s, step).savedCdb, a)
  {
    assert Configured(s.store.cdb, a);
  }

  lemma {:induction false} FlagsStay(table: R.Recipes, s: Sys, steps: seq<Step>, a: nat)
    requires StoreInv(s) && Possible(table, s, steps)
    ensures Configured(s.store.cdb, a) && Reboot !in steps ==> Configured(Run(table, s, steps).store.cdb, a)
    ensures Configured(s.store.savedCdb, a) ==> Configured(Run(table, s, steps).store.savedCdb, a)
    decreases |steps|
  {
    if steps == [] {
    } else {
      assert steps[0] in steps && (Reboot !in steps ==> Reboot !in steps[1..]);
      StepKeepsStoreInv(table, s, steps[0]);
      if Configured(s.store.cdb, a) && Reboot !in steps { FlagStays(table, s, steps[0], a); }
      if Configured(s.store.savedCdb, a) { SavedFlagStays(table, s, steps[0], a); }
      FlagsStay(table, Next(table, s, steps[0]), steps[1..], a);
    }
  }

  /** Over every run, a configured flag is never taken back except by a power cut, and one that has reached
      flash not even then. */
  lemma FlagsNeverRevert(table: R.Recipes, before: seq<Step>, s: Sys, steps: seq<Step>, a: nat)
    requires Possible(table, FACTORY, before) && s == Run(table, FACTORY, before) && Possible(table, s, steps)
    ensures var end := Run(table, s, steps).store;
            && (Configured(s.store.cdb, a) && Reboot !in steps ==> Configured(end.cdb, a))
            && (Configured(s.store.savedCdb, a) ==> Configured(end.savedCdb, a) && Configured(end.cdb, a))
  {
    StepsKeepStore(table, FACTORY, before);
    StepsKeepStore(table, s, steps);
    FlagsStay(table, s, steps, a);
  }
}
