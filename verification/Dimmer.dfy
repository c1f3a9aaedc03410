/** The light dimmer's button, timers and serial commands. */
module DimmerSpec {
  import opened Bytes

  const SHORT_PRESS_MS: nat := 300
  const LONG_PRESS_MS: nat := 20000
  const MOVE_STEP: int := 1000

  /** A published message: a continuous level move (zero stops it), an on/off set, a level step. */
  datatype Msg = Move(delta: int) | OnOff(on: bool) | Step(delta: int)

  datatype Sent = Sent(msg: Msg, at: int)

  /** The two delayable work items. */
  datatype Work = StartWork | StopWork

  /** The dimmer's context, the deadline of each work item while its timer runs, the items submitted to the
      work queue and not yet run, first in first out, and what was published. */
  datatype Dimmer = Dimmer(up: bool, pressStart: int, startDue: Option<int>, stopDue: Option<int>,
                           queue: seq<Work>, sent: seq<Sent>)

  const INITIAL := Dimmer(false, 0, None, None, [], [])

  // ---------------------------------------------------------------------------- delayable work

  function Due(d: Dimmer, w: Work): Option<int> {
    match w
    case StartWork => d.startDue
    case StopWork => d.stopDue
  }

  function WithDue(d: Dimmer, w: Work, due: Option<int>): Dimmer {
    match w
    case StartWork => d.(startDue := due)
    case StopWork => d.(stopDue := due)
  }

  /** An item on the queue is not queued again. */
  function Submit(d: Dimmer, w: Work): Dimmer {
    if w in d.queue then d else d.(queue := d.queue + [w])
  }

  /** k_work_reschedule: any running timer is replaced; without a delay the item is submitted at once. An
      item that is on the queue already stays there. */
  function Reschedule(d: Dimmer, w: Work, delay: nat, now: int): Dimmer {
    if delay == 0 then Submit(WithDue(d, w, None), w) else WithDue(d, w, Some(now + delay))
  }

  /** The timer runs out. */
  function Expired(d: Dimmer, w: Work): Dimmer {
    Submit(WithDue(d, w, None), w)
  }

  function Without(q: seq<Work>, w: Work): seq<Work> {
    if q == [] then [] else (if q[0] == w then [] else [q[0]]) + Without(q[1..], w)
  }

  /** k_work_cancel_delayable: neither timed nor queued. */
  function Cancel(d: Dimmer, w: Work): Dimmer {
    WithDue(d, w, None).(queue := Without(d.queue, w))
  }

  // ---------------------------------------------------------------------------- handlers

  function Publish(d: Dimmer, m: Msg, now: int): Dimmer {
    d.(sent := d.sent + [Sent(m, now)])
  }

  /** dimmer_start. */
  function Start(d: Dimmer, now: int): Dimmer {
    Reschedule(Publish(d, Move(if d.up then MOVE_STEP else -MOVE_STEP), now), StopWork, LONG_PRESS_MS, now)
  }

  /** dimmer_stop. */
  function Stop(d: Dimmer, now: int): Dimmer {
    Publish(d, Move(0), now)
  }

  /** The work queue takes its first item and runs it. */
  function RunFirst(d: Dimmer, now: int): Dimmer
    requires d.queue != []
  {
    var rest := d.(queue := d.queue[1..]);
    match d.queue[0]
    case StartWork => Start(rest, now)
    case StopWork => Stop(rest, now)
  }

  function Press(d: Dimmer, now: int): Dimmer {
    Reschedule(d.(up := !d.up, pressStart := now), StartWork, SHORT_PRESS_MS, now)
  }

  predicate LongPress(d: Dimmer, now: int) {
    now - d.pressStart >= SHORT_PRESS_MS
  }

  function Release(d: Dimmer, now: int): Dimmer {
    if LongPress(d, now) then Reschedule(d, StopWork, 0, now)
    else Publish(Cancel(d, StartWork), OnOff(d.up), now)
  }

  /** Rounding to nearest of a share of the 16-bit level range. */
  function LevelStep(up: bool, percent: nat): int {
    var delta := (0xFFFF * percent + 50) / 100;
    if up then delta else -delta
  }

  function CancelPending(d: Dimmer): Dimmer {
    Cancel(Cancel(d, StartWork), StopWork)
  }

  function OnOffSet(d: Dimmer, on: bool, now: int): Dimmer {
    Publish(CancelPending(d), OnOff(on), now)
  }

  function DimStep(d: Dimmer, up: bool, percent: nat, now: int): Dimmer {
    if percent == 0 || percent > 100 then d
    else Publish(CancelPending(d), Step(LevelStep(up, percent)), now)
  }

  // ---------------------------------------------------------------------------- runs

  /** Everything that can happen; handlers run to completion, and sends succeed. */
  datatype Event =
    | Button(pressed: bool, provisioned: bool)
    | SerialOnOff(on: bool, provisioned: bool)
    | SerialDim(up: bool, percent: nat, provisioned: bool)
    | Expire(w: Work)
    | RunNext
    | Wait(until: int)

  datatype Sys = Sys(dimmer: Dimmer, now: int)

  /** Timers run out on time: time does not pass a deadline. Submitted work may have to wait. */
  predicate Enabled(s: Sys, e: Event) {
    match e
    case Expire(w) => Due(s.dimmer, w) == Some(s.now)
    case RunNext => s.dimmer.queue != []
    case Wait(until) =>
      && s.now <= until
      && (s.dimmer.startDue.Some? ==> until <= s.dimmer.startDue.value)
      && (s.dimmer.stopDue.Some? ==> until <= s.dimmer.stopDue.value)
    case _ => true
  }

  function Next(s: Sys, e: Event): Sys {
    var d, now := s.dimmer, s.now;
    match e
    case Button(pressed, provisioned) =>
      if !provisioned then s else s.(dimmer := if pressed then Press(d, now) else Release(d, now))
    case SerialOnOff(on, provisioned) => if !provisioned then s else s.(dimmer := OnOffSet(d, on, now))
    case SerialDim(up, percent, provisioned) =>
      if !provisioned then s else s.(dimmer := DimStep(d, up, percent, now))
    case Expire(w) => s.(dimmer := Expired(d, w))
    case RunNext => if d.queue == [] then s else s.(dimmer := RunFirst(d, now))
    case Wait(until) => s.(now := until)
  }

  predicate Possible(s: Sys, events: seq<Event>)
    decreases |events|
  {
    events != [] ==> Enabled(s, events[0]) && Possible(Next(s, events[0]), events[1..])
  }

  function Run(s: Sys, events: seq<Event>): Sys
    decreases |events|
  {
    if events == [] then s else Run(Next(s, events[0]), events[1..])
  }

  /** The work queue keeps up: time passes only while it is empty. */
  predicate Prompt(s: Sys, events: seq<Event>)
    decreases |events|
  {
    events != [] ==>
      && (events[0].Wait? && events[0].until > s.now ==> s.dimmer.queue == [])
      && Prompt(Next(s, events[0]), events[1..])
  }
}

module DimmerHandler {
  import opened Bytes
  import opened Interface
  import opened DimmerSpec

  class DimmerCtx {
    var up: bool
    var pressStart: int
    var startDue: Option<int>
    var stopDue: Option<int>
    var queue: seq<Work>
    var sent: seq<Sent>

    function State(): Dimmer
      reads this
    {
      Dimmer(up, pressStart, startDue, stopDue, queue, sent)
    }

    constructor ()
      ensures State() == INITIAL
    {
      up, pressStart, startDue, stopDue, queue, sent := false, 0, None, None, [], [];
    }

    method SetDue(w: Work, due: Option<int>)
      modifies `startDue, `stopDue
      ensures State() == WithDue(old(State()), w, due)
    {
      match w {
        case StartWork => startDue := due;
        case StopWork => stopDue := due;
      }
    }

    method WorkReschedule(w: Work, delay: nat, now: int)
      modifies `startDue, `stopDue, `queue
      ensures State() == Reschedule(old(State()), w, delay, now)
    {
      if delay == 0 {
        TimerExpiry(w);
      } else {
        SetDue(w, Some(now + delay));
      }
    }

    method TimerExpiry(w: Work)
      modifies `startDue, `stopDue, `queue
      ensures State() == Expired(old(State()), w)
    {
      SetDue(w, None);
      if w !in queue {
        queue := queue + [w];
      }
    }

    method WorkCancel(w: Work)
      modifies `startDue, `stopDue, `queue
      ensures State() == Cancel(old(State()), w)
    {
      SetDue(w, None);
      queue := Without(queue, w);
    }

    /** The work queue's thread, one item. */
    method RunQueued(now: int)
      requires queue != []
      modifies this
      ensures State() == RunFirst(old(State()), now)
    {
      var w := queue[0];
      queue := queue[1..];
      match w {
        case StartWork => DimmerStart(now);
        case StopWork => DimmerStop(now);
      }
    }

    method PublishMsg(m: Msg, now: int)
      modifies `sent
      ensures State() == Publish(old(State()), m, now)
    {
      sent := sent + [Sent(m, now)];
    }

    method DimmerStart(now: int)
      modifies this
      ensures State() == Start(old(State()), now)
    {
      PublishMsg(Move(if up then MOVE_STEP else -1 * MOVE_STEP), now);
      WorkReschedule(StopWork, LONG_PRESS_MS, now);
    }

    method DimmerStop(now: int)
      modifies this
      ensures State() == Stop(old(State()), now)
    {
      PublishMsg(Move(0), now);
    }

    method CancelPendingWork()
      modifies `startDue, `stopDue, `queue
      ensures State() == CancelPending(old(State()))
    {
      WorkCancel(StartWork);
      WorkCancel(StopWork);
    }

    method ButtonHandler(pressed: bool, now: int)
      modifies this
      ensures State() == if pressed then Press(old(State()), now) else Release(old(State()), now)
    {
      if pressed {
        up := !up;
        pressStart := now;
        WorkReschedule(StartWork, SHORT_PRESS_MS, now);
      } else if now - pressStart >= SHORT_PRESS_MS {
        WorkReschedule(StopWork, 0, now);
      } else {
        WorkCancel(StartWork);
        PublishMsg(OnOff(up), now);
      }
    }

    /** model_handler_onoff_set. */
    method OnOffSet(on: bool, provisioned: bool, now: int) returns (err: int)
      modifies this
      ensures err == if provisioned then 0 else -11
      ensures State() == if provisioned then DimmerSpec.OnOffSet(old(State()), on, now) else old(State())
    {
      if !provisioned { return EAGAIN; }
      CancelPendingWork();
      PublishMsg(OnOff(on), now);
      err := 0;
    }

    /** model_handler_dim_step. */
    method DimStep(dimUp: bool, percent: nat, provisioned: bool, now: int) returns (err: int)
      modifies this
      ensures err == if !provisioned then -11 else if percent == 0 || percent > 100 then -22 else 0
      ensures State() == if provisioned then DimmerSpec.DimStep(old(State()), dimUp, percent, now) else old(State())
    {
      if !provisioned { return EAGAIN; }
      if percent == 0 || percent > 100 { return EINVAL; }
      CancelPendingWork();
      var delta := (0xFFFF * percent + 50) / 100;
      if !dimUp { delta := delta * -1; }
      PublishMsg(Step(delta), now);
      err := 0;
    }
  }
}
