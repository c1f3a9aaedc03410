/** What the boot code and the thread's sweep do for the nodes of the database: none that is still to be
    configured is passed over, and which recipe each attempt starts with. */
module ProvisionerThread {
  import opened Interface
  import opened Provisioner
  import Q = ProvisionerRequests
  import R = RecipeSpec

  predicate Unconfigured(s: Sys, a: nat) {
    a in s.store.cdb && !s.store.cdb[a]
  }

  /** The run attempts to configure a before the step `stop` first happens. */
  ghost predicate AttemptedBefore(steps: seq<Step>, a: nat, stop: Step) {
    steps != [] && steps[0] != stop
    && ((steps[0].DoApply? && steps[0].node.addr == a) || AttemptedBefore(steps[1..], a, stop))
  }

  // ---------------------------------------------------------------------------- boot

  /** What the boot code does with the record it finds: nothing without a pending node, an attempt on a node that
      is known and not configured, and otherwise it clears the record, in RAM and then in flash. */
  lemma ResumeMeans(table: R.Recipes, s: Sys)
    requires s.pc == Resume
    ensures var rec, t := s.store.rec, Next(table, s, DoResume);
            if !rec.pending || rec.addr == 0 then t == s.(pc := SetReady)
            else if Unconfigured(s, rec.addr) then t == s.(pc := Config(rec.addr, ToReady, Choose))
            else
              && t == s.(pc := ResumeSave, store := s.store.(rec := Record(0, false, 0)))
              && Next(table, t, DoResumeSave) == t.(pc := SetReady, store := t.store.(savedRec := Record(0, false, 0)))
  {
  }

  /** A pending, unconfigured node at hand, with its recipe still to be applied. */
  predicate Resuming(s: Sys, a: nat) {
    s.pc.Config? && s.pc.addr == a && s.pc.back == ToReady && (s.pc.phase == Choose || s.pc.phase.Apply?)
  }

  lemma {:induction false} ResumingAttempts(table: R.Recipes, s: Sys, steps: seq<Step>, a: nat)
    requires Resuming(s, a) && Possible(table, s, steps) && Reboot !in steps && DoSetReady in steps
    ensures AttemptedBefore(steps, a, DoSetReady)
    decreases |steps|
  {
    assert steps == [steps[0]] + steps[1..];
    if !steps[0].DoApply? {
      ResumingAttempts(table, Next(table, s, steps[0]), steps[1..], a);
    }
  }

  /** At boot the node that the record names, if it is known and not configured, is attempted before the
      provisioner takes any request. */
  lemma PendingNodeIsResumed(table: R.Recipes, s: Sys, steps: seq<Step>, a: nat)
    requires s.pc == Resume && s.store.rec.pending && s.store.rec.addr == a != 0 && Unconfigured(s, a)
    requires Possible(table, s, [DoResume] + steps) && Reboot !in steps && DoSetReady in steps
    ensures AttemptedBefore(steps, a, DoSetReady)
  {
    assert ([DoResume] + steps)[1..] == steps;
    ResumeMeans(table, s);
    ResumingAttempts(table, Next(table, s, DoResume), steps, a);
  }

  // ---------------------------------------------------------------------------- sweeps

  /** Node a is not configured, and the sweep has not come to it or has not applied its recipe yet. */
  predicate StillToDo(s: Sys, a: nat) {
    Unconfigured(s, a)
    && match s.pc
       case Sweep(done, must) => a in must && a !in done
       case Config(b, back, phase) =>
         if a == b then phase == Choose || phase.Apply?
         else back.ToSweep? ==> a in back.must && a !in back.done
       case ClearBusy => false
       case _ => true
  }

  lemma StepKeepsUnconfigured(table: R.Recipes, s: Sys, step: Step, a: nat)
    requires StillToDo(s, a) && Enabled(s, step) && step != Reboot
    ensures Unconfigured(Next(table, s, step), a)
  {
  }

  lemma StepKeepsStillToDo(table: R.Recipes, s: Sys, step: Step, a: nat)
    requires StillToDo(s, a) && Enabled(s, step) && step != Reboot && !(step.DoApply? && step.node.addr == a)
    ensures step != DoClearBusy && StillToDo(Next(table, s, step), a)
  {
    hide NextStore;
    StepKeepsUnconfigured(table, s, step, a);
  }

  /** No node is passed over: whatever the callers and the stack do meanwhile, from start-up or from any other
      point outside a sweep, every node that is in the database and not configured is attempted before the
      thread next clears the busy flag. */
  lemma {:induction false} NoNodeIsPassedOver(table: R.Recipes, s: Sys, steps: seq<Step>, a: nat)
    requires StillToDo(s, a) && Possible(table, s, steps) && Reboot !in steps && DoClearBusy in steps
    ensures AttemptedBefore(steps, a, DoClearBusy)
    decreases |steps|
  {
    assert steps == [steps[0]] + steps[1..];
    if !(steps[0].DoApply? && steps[0].node.addr == a) {
      StepKeepsStillToDo(table, s, steps[0], a);
      NoNodeIsPassedOver(table, Next(table, s, steps[0]), steps[1..], a);
    }
  }

  /** In particular a node just provisioned, and any other left over from before, is attempted by the sweep that
      follows the session. */
  lemma SessionIsFollowedUp(table: R.Recipes, s: Sys, steps: seq<Step>, a: nat)
    requires Q.InSession(s.pc) && Unconfigured(s, a)
    requires Possible(table, s, steps) && Reboot !in steps && DoClearBusy in steps
    ensures AttemptedBefore(steps, a, DoClearBusy)
  {
    NoNodeIsPassedOver(table, s, steps, a);
  }

  /** A session that fails or times out releases the busy flag before the sweep: the next request is accepted
      at once, inside a window. A session that succeeds keeps the flag until the sweep is over. */
  lemma SessionEnds(table: R.Recipes, s: Sys, step: Step, req: Request)
    requires Enabled(s, step) && s.front.ready && step in {ProvisionFails, AwaitTimesOut, AwaitSucceeds}
    ensures var t := Next(table, s, step);
            && t.pc == Reset
            && (step != AwaitSucceeds ==> Enabled(t, Accept(req)) && t.front.window)
            && (step == AwaitSucceeds ==> t.front == s.front)
  {
  }

  /** The stack announces a node before the first session that succeeds. */
  ghost predicate AnnouncedFirst(steps: seq<Step>) {
    steps != [] && steps[0] != AwaitSucceeds && (steps[0] == CallbackGives || AnnouncedFirst(steps[1..]))
  }

  lemma {:induction false} NotYetAnnounced(table: R.Recipes, s: Sys, steps: seq<Step>)
    requires !s.store.added && Possible(table, s, steps) && AwaitSucceeds in steps
    ensures AnnouncedFirst(steps)
    decreases |steps|
  {
    assert steps == [steps[0]] + steps[1..];
    if steps[0] != CallbackGives {
      NotYetAnnounced(table, Next(table, s, steps[0]), steps[1..]);
    }
  }

  /** An announcement counts at most once, and not beyond the start of the next sweep: after a sweep has begun, a
      session has succeeded or the power was cut, no session succeeds before a node is announced anew. */
  lemma SuccessNeedsAnnouncement(table: R.Recipes, s: Sys, step: Step, steps: seq<Step>)
    requires step in {DoReset, AwaitSucceeds, Reboot}
    requires Possible(table, s, [step] + steps) && AwaitSucceeds in steps
    ensures AnnouncedFirst(steps)
  {
    assert ([step] + steps)[1..] == steps;
    NotYetAnnounced(table, Next(table, s, step), steps);
  }

  /** After a success the record is cleared, in RAM and then in flash, if it names the node, and neither touched
      nor written otherwise. */
  lemma SuccessClearsRecord(table: R.Recipes, s: Sys)
    requires s.pc.Config? && s.pc.phase == ClearRecord
    ensures var rec, t := s.store.rec, Next(table, s, DoClearRecord);
            if rec.pending && rec.addr == s.pc.addr then
              && t.pc == s.pc.(phase := SaveRecord) && t.store == s.store.(rec := Record(0, false, 0))
              && Next(table, t, DoSaveRecord).pc == s.pc.(phase := Finish)
              && Next(table, t, DoSaveRecord).store == t.store.(savedRec := Record(0, false, 0))
            else t == s.(pc := s.pc.(phase := Finish))
  {
  }

  // ---------------------------------------------------------------------------- which recipe

  /** An attempt starts with the record's recipe for the node that the record names, with that of the request
      copied last for the node announced last, and with none for any other. */
  lemma PickMeans(table: R.Recipes, before: seq<Step>, s: Sys, a: nat)
    requires Possible(table, FACTORY, before) && s == Run(table, FACTORY, before)
    ensures var f, st := s.front, s.store;
            if st.rec.pending && st.rec.addr == a then Pick(s, a) == st.rec.recipe
            else if a == st.nodeAddr && f.sessions != [] then
              f.sessions[|f.sessions| - 1] < |f.accepted|
              && Pick(s, a) == f.accepted[f.sessions[|f.sessions| - 1]].recipe
            else Pick(s, a) == 0
  {
    Q.StepsKeepFrontInv(table, FACTORY, before);
    var f := s.front;
    if f.sessions != [] { assert Q.Written(f, f.sessions[|f.sessions| - 1]); }
  }

  /** The three parts of an announcement: the record names the node, then flash does, then the thread may go on
      with it. */
  lemma AnnouncementTakesEffect(table: R.Recipes, s: Sys, a: nat)
    requires Enabled(s, CallbackRecords(a))
    ensures var s1 := Next(table, s, CallbackRecords(a));
            var s2 := Next(table, s1, CallbackSaves);
            var s3 := Next(table, s2, CallbackGives);
            && Enabled(s1, CallbackSaves) && Enabled(s2, CallbackGives)
            && s1.store == s.store.(rec := Record(a, true, SessionRecipe(s.front)), callback := Recorded(a))
            && s2.store == s1.store.(savedRec := s1.store.rec, callback := Saved(a))
            && s3.store == s2.store.(nodeAddr := a, added := true, callback := Quiet)
            && s3.pc == s.pc && s3.front == s.front && Pick(s3, a) == SessionRecipe(s.front)
  {
  }
}
