/** The provisioner as a transition system: callers racing for the busy flag, the provisioner thread, the
    mesh stack's callback, the persisted resume record, and crashes. Each step is one stretch of code that
    no other thread can interrupt. */
module Provisioner {
  import opened Bytes
  import opened Interface
  import S = ScenarioSpec
  import R = RecipeSpec
  import C = RecipeConvergence

  /** Where an accepted caller is: past the compare-and-swap, past the write of the latched pair, or past
      the semaphore. */
  datatype Stage = Won | Wrote | Given

  /** The flags, the binary request semaphore and the latched pair. Requests are numbered in the order of
      acceptance; `latched` and `sessions` name them by number. `window` is true from an early release of
      the busy flag, or from power-up, until the thread next clears the flag itself. */
  datatype Front = Front(ready: bool, busy: bool, sem: bool, window: bool, accepted: seq<Request>,
                         stages: seq<Stage>, latched: Option<nat>, sessions: seq<nat>)

  /** The resume record. */
  datatype Record = Record(addr: nat, pending: bool, recipe: nat)

  const NO_RECORD := Record(0, false, S.RECIPE_NONE)

  /** The node_added callback, between its uninterruptible parts. */
  datatype Callback = Quiet | Recorded(addr: nat) | Saved(addr: nat)

  /** How a node came to be configured. */
  datatype Evidence = Evidence(node: R.Node, recipe: nat, attempt: C.Attempt)

  /** The node database (address to configured flag) and the resume record, in RAM and in flash, the last
      node announced, its semaphore, and four histories: the evidence for each configured node, the nodes
      configured since the last power-up, the session the stack was last started for, and for each node the
      session it was added for; sessions are named by their place in the order of sessions. */
  datatype Store = Store(rec: Record, savedRec: Record, cdb: map<nat, bool>, savedCdb: map<nat, bool>,
                         nodeAddr: nat, added: bool, callback: Callback,
                         evidence: map<nat, Evidence>, successes: seq<nat>,
                         target: Option<nat>, origin: map<nat, nat>)

  datatype Back = ToReady | ToSweep(done: set<nat>, must: set<nat>)

  datatype Phase = Choose | Apply(recipe: nat) | Mark | StoreNode | ClearRecord | SaveRecord | Finish

  /** The boot code, then the provisioner thread. */
  datatype Pc =
    | Resume
    | ResumeSave
    | SetReady
    | Reset
    | Sweep(done: set<nat>, must: set<nat>)
    | Config(addr: nat, back: Back, phase: Phase)
    | ClearBusy
    | Wait
    | Copy
    | Provision
    | Await

  datatype Sys = Sys(front: Front, pc: Pc, store: Store)

  datatype Step =
    // callers
    | Accept(req: Request)
    | WritePair(k: nat)
    | GiveSem(k: nat)
    // boot and thread
    | DoResume
    | DoResumeSave
    | DoSetReady
    | DoReset
    | Visit(a: nat)
    | EndSweep
    | DoChoose
    | DoApply(node: R.Node, looked: nat, attempt: C.Attempt)
    | DoMark
    | DoStoreNode
    | DoClearRecord
    | DoSaveRecord
    | DoFinish
    | DoClearBusy
    | TakeSem
    | CopyPair
    | ProvisionFails
    | ProvisionStarts
    | AwaitTimesOut
    | AwaitSucceeds
    // mesh stack
    | StackAdds(a: nat)
    | StackStores(a: nat)
    | CallbackRecords(a: nat)
    | CallbackSaves
    | CallbackGives
    // power
    | Reboot

  const FRONT_AT_BOOT := Front(false, false, false, true, [], [], None, [])

  /** A provisioner that has never run. */
  const FACTORY := Sys(FRONT_AT_BOOT, Resume,
                       Store(NO_RECORD, NO_RECORD, map[], map[], 0, false, Quiet, map[], [], None, map[]))

  /** session_recipe_id: the recipe of the pair copied last. */
  function SessionRecipe(f: Front): nat {
    if f.sessions != [] && f.sessions[|f.sessions| - 1] < |f.accepted|
    then f.accepted[f.sessions[|f.sessions| - 1]].recipe else S.RECIPE_NONE
  }

  /** The recipe configure_node starts with: the record's for the node it names, else the session's for
      the node announced last, else none, which means a lookup in the scenario table. */
  function Pick(s: Sys, a: nat): nat {
    if s.store.rec.pending && s.store.rec.addr == a then s.store.rec.recipe
    else if a == s.store.nodeAddr then SessionRecipe(s.front)
    else S.RECIPE_NONE
  }

  predicate Enabled(s: Sys, step: Step) {
    var f, st := s.front, s.store;
    match step
    case Accept(_) => f.ready && !f.busy
    case WritePair(k) => k < |f.stages| && f.stages[k] == Won
    case GiveSem(k) => k < |f.stages| && f.stages[k] == Wrote
    case DoResume => s.pc == Resume
    case DoResumeSave => s.pc == ResumeSave
    case DoSetReady => s.pc == SetReady
    case DoReset => s.pc == Reset
    case Visit(a) => s.pc.Sweep? && a in st.cdb && a !in s.pc.done
    case EndSweep => s.pc.Sweep? && s.pc.must <= s.pc.done
    case DoChoose => s.pc.Config? && s.pc.phase == Choose
    case DoApply(node, _, _) => s.pc.Config? && s.pc.phase.Apply? && node.addr == s.pc.addr
    case DoMark => s.pc.Config? && s.pc.phase == Mark
    case DoStoreNode => s.pc.Config? && s.pc.phase == StoreNode
    case DoClearRecord => s.pc.Config? && s.pc.phase == ClearRecord
    case DoSaveRecord => s.pc.Config? && s.pc.phase == SaveRecord
    case DoFinish => s.pc.Config? && s.pc.phase == Finish
    case DoClearBusy => s.pc == ClearBusy
    case TakeSem => s.pc == Wait && f.sem
    case CopyPair => s.pc == Copy
    case ProvisionFails => s.pc == Provision
    case ProvisionStarts => s.pc == Provision
    case AwaitTimesOut => s.pc == Await
    case AwaitSucceeds => s.pc == Await && st.added
    case StackAdds(a) => a != 0 && a !in st.cdb
    case StackStores(a) => a in st.cdb
    case CallbackRecords(a) => st.callback == Quiet && a in st.cdb
    case CallbackSaves => st.callback.Recorded?
    case CallbackGives => st.callback.Saved?
    case Reboot => true
  }

  function Return(b: Back): Pc {
    match b
    case ToReady => SetReady
    case ToSweep(done, must) => Sweep(done, must)
  }

  /** What a step does to the callers' side. */
  function NextFront(f: Front, step: Step): Front {
    match step
    case Accept(req) => f.(busy := true, accepted := f.accepted + [req], stages := f.stages + [Won])
    case WritePair(k) => if k < |f.stages| then f.(latched := Some(k), stages := f.stages[k := Wrote]) else f
    case GiveSem(k) => if k < |f.stages| then f.(sem := true, stages := f.stages[k := Given]) else f
    case DoSetReady => f.(ready := true)
    case DoClearBusy => f.(busy := false, window := false)
    case TakeSem => f.(sem := false)
    case CopyPair => if f.latched.Some? then f.(sessions := f.sessions + [f.latched.value]) else f
    case ProvisionFails => f.(busy := false, window := true)
    case AwaitTimesOut => f.(busy := false, window := true)
    case Reboot => FRONT_AT_BOOT
    case _ => f
  }

  /** Whether the recipe run of a DoApply step succeeds; the recipe is the chosen one or, without one, the
      one the scenario table holds for the node now. */
  function Succeeds(table: R.Recipes, recipe: nat, step: Step): bool
    requires step.DoApply?
  {
    var id := if recipe != S.RECIPE_NONE then recipe else step.looked;
    C.RunOn(table, step.node, id, step.attempt, R.BLANK).1 == 0
  }

  function NextPc(table: R.Recipes, s: Sys, step: Step): Pc {
    var pc, st := s.pc, s.store;
    match step
    case DoResume =>
      if !st.rec.pending || st.rec.addr == 0 then SetReady
      else if st.rec.addr !in st.cdb || st.cdb[st.rec.addr] then ResumeSave
      else Config(st.rec.addr, ToReady, Choose)
    case DoResumeSave => SetReady
    case DoSetReady => Reset
    case DoReset => Sweep({}, st.cdb.Keys)
    case Visit(a) =>
      if !pc.Sweep? || a !in st.cdb then pc
      else if st.cdb[a] then Sweep(pc.done + {a}, pc.must)
      else Config(a, ToSweep(pc.done + {a}, pc.must), Choose)
    case EndSweep => ClearBusy
    case DoChoose => if pc.Config? then pc.(phase := Apply(Pick(s, pc.addr))) else pc
    case DoApply(_, _, _) =>
      if !pc.Config? || !pc.phase.Apply? then pc
      else if Succeeds(table, pc.phase.recipe, step) then pc.(phase := Mark) else Return(pc.back)
    case DoMark => if pc.Config? then pc.(phase := StoreNode) else pc
    case DoStoreNode => if pc.Config? then pc.(phase := ClearRecord) else pc
    case DoClearRecord =>
      if !pc.Config? then pc
      else pc.(phase := if st.rec.pending && st.rec.addr == pc.addr then SaveRecord else Finish)
    case DoSaveRecord => if pc.Config? then pc.(phase := Finish) else pc
    case DoFinish => if pc.Config? then Return(pc.back) else pc
    case DoClearBusy => Wait
    case TakeSem => Copy
    case CopyPair => Provision
    case ProvisionFails => Reset
    case ProvisionStarts => Await
    case AwaitTimesOut => Reset
    case AwaitSucceeds => Reset
    case Reboot => Resume
    case _ => pc
  }

  /** What a step does to the database and the record. A record is written to flash at once. Storing a node
      (DoStoreNode) only schedules the write, which the stack makes whenever it likes (StackStores). */
  function NextStore(table: R.Recipes, s: Sys, step: Step): Store {
    var pc, st := s.pc, s.store;
    match step
    case DoResume =>
      if st.rec.pending && st.rec.addr != 0 && (st.rec.addr !in st.cdb || st.cdb[st.rec.addr])
      then st.(rec := NO_RECORD) else st
    case DoResumeSave => st.(savedRec := st.rec)
    case DoReset => st.(added := false)
    case DoApply(node, looked, attempt) =>
      if pc.Config? && pc.phase.Apply? && Succeeds(table, pc.phase.recipe, step)
      then st.(evidence := st.evidence[pc.addr :=
                 Evidence(node, if pc.phase.recipe != S.RECIPE_NONE then pc.phase.recipe else looked, attempt)])
      else st
    case DoMark =>
      if pc.Config? then st.(cdb := st.cdb[pc.addr := true], successes := st.successes + [pc.addr]) else st
    case DoClearRecord =>
      if pc.Config? && st.rec.pending && st.rec.addr == pc.addr then st.(rec := NO_RECORD) else st
    case DoSaveRecord => st.(savedRec := st.rec)
    case AwaitSucceeds => st.(added := false)
    case ProvisionStarts =>
      st.(target := if s.front.sessions == [] then None else Some(|s.front.sessions| - 1))
    case StackAdds(a) =>
      st.(cdb := st.cdb[a := false],
          origin := if st.target.Some? then st.origin[a := st.target.value] else st.origin - {a})
    case StackStores(a) => if a in st.cdb then st.(savedCdb := st.savedCdb[a := st.cdb[a]]) else st
    case CallbackRecords(a) => st.(rec := Record(a, true, SessionRecipe(s.front)), callback := Recorded(a))
    case CallbackSaves =>
      if st.callback.Recorded? then st.(savedRec := st.rec, callback := Saved(st.callback.addr)) else st
    case CallbackGives =>
      if st.callback.Saved? then st.(nodeAddr := st.callback.addr, added := true, callback := Quiet) else st
    case Reboot =>
      Store(st.savedRec, st.savedRec, st.savedCdb, st.savedCdb, 0, false, Quiet, st.evidence, [], None, map[])
    case _ => st
  }

  function Next(table: R.Recipes, s: Sys, step: Step): Sys {
    Sys(NextFront(s.front, step), NextPc(table, s, step), NextStore(table, s, step))
  }

  predicate Possible(table: R.Recipes, s: Sys, steps: seq<Step>)
    decreases |steps|
  {
    steps != [] ==> Enabled(s, steps[0]) && Possible(table, Next(table, s, steps[0]), steps[1..])
  }

  function Run(table: R.Recipes, s: Sys, steps: seq<Step>): Sys
    decreases |steps|
  {
    if steps == [] then s else Run(table, Next(table, s, steps[0]), steps[1..])
  }
}
