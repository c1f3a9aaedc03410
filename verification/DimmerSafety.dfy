/** The dimmer over whole runs of button, timer, work queue and serial events. */
module DimmerSafety {
  import opened Bytes
  import opened DimmerSpec

  function LastSent(d: Dimmer): Sent
    requires d.sent != []
  {
    d.sent[|d.sent| - 1]
  }

  predicate Moving(d: Dimmer) {
    d.sent != [] && LastSent(d).msg.Move? && LastSent(d).msg.delta != 0
  }

  predicate Stopped(d: Dimmer) {
    d.sent != [] && LastSent(d).msg == Move(0)
  }

  /** While lights are moving, the stop work is on the queue, or timed for at most 20 s after the move. */
  predicate StopIsPending(s: Sys) {
    Moving(s.dimmer) ==>
      || StopWork in s.dimmer.queue
      || (s.dimmer.stopDue.Some? && s.now <= s.dimmer.stopDue.value <= LastSent(s.dimmer).at + LONG_PRESS_MS)
  }

  /** No item is on the queue twice. */
  predicate QueueOk(q: seq<Work>) {
    |q| <= 2 && (|q| == 2 ==> q[0] != q[1])
  }

  predicate Timely(s: Sys) {
    var d := s.dimmer;
    && (d.startDue.Some? ==> s.now <= d.startDue.value == d.pressStart + SHORT_PRESS_MS)
    && (d.stopDue.Some? ==> s.now <= d.stopDue.value)
    && (d.sent != [] ==> LastSent(d).at <= s.now)
    && QueueOk(d.queue) && StopIsPending(s)
  }

  lemma WithoutOne(q: seq<Work>, w: Work)
    requires QueueOk(q)
    ensures QueueOk(Without(q, w)) && w !in Without(q, w)
    ensures forall v :: v in Without(q, w) <==> v in q && v != w
  {
    if |q| == 1 {
      assert q[1..] == [];
    } else if |q| == 2 {
      assert q[1..][1..] == [];
      assert Without(q[1..], w) == if q[1] == w then [] else [q[1]];
      assert Without(q, w) == (if q[0] == w then [] else [q[0]]) + Without(q[1..], w);
    }
  }

  lemma CancelLeaves(d: Dimmer, w: Work)
    requires QueueOk(d.queue)
    ensures QueueOk(Cancel(d, w).queue)
    ensures forall v :: v in Cancel(d, w).queue <==> v in d.queue && v != w
  {
    WithoutOne(d.queue, w);
  }

  lemma ReleaseKeepsTimely(s: Sys)
    requires Timely(s)
    ensures Timely(Next(s, Button(false, true)))
  {
    if LongPress(s.dimmer, s.now) {
      assert StopWork in Next(s, Button(false, true)).dimmer.queue;
    } else {
      CancelLeaves(s.dimmer, StartWork);
    }
  }

  lemma PressKeepsTimely(s: Sys)
    requires Timely(s)
    ensures Timely(Next(s, Button(true, true)))
  {
  }

  lemma SerialKeepsTimely(s: Sys, e: Event)
    requires Timely(s) && (e.SerialOnOff? || e.SerialDim?)
    ensures Timely(Next(s, e))
  {
    CancelLeaves(s.dimmer, StartWork);
    CancelLeaves(Cancel(s.dimmer, StartWork), StopWork);
  }

  lemma ExpiryKeepsTimely(s: Sys, w: Work)
    requires Timely(s) && Due(s.dimmer, w) == Some(s.now)
    ensures Timely(Next(s, Expire(w)))
  {
    assert w in Next(s, Expire(w)).dimmer.queue;
  }

  lemma WaitKeepsTimely(s: Sys, until: int)
    requires Timely(s) && Enabled(s, Wait(until))
    ensures Timely(Next(s, Wait(until)))
  {
  }

  lemma QueueKeepsTimely(s: Sys)
    requires Timely(s) && s.dimmer.queue != []
    ensures Timely(Next(s, RunNext))
  {
  }

  lemma NextKeepsTimely(s: Sys, e: Event)
    requires Timely(s) && Enabled(s, e)
    ensures Timely(Next(s, e))
  {
    match e {
      case Button(pressed, provisioned) =>
        if provisioned { if pressed { PressKeepsTimely(s); } else { ReleaseKeepsTimely(s); } }
      case RunNext => QueueKeepsTimely(s);
      case Expire(w) => ExpiryKeepsTimely(s, w);
      case Wait(until) => WaitKeepsTimely(s, until);
      case _ => SerialKeepsTimely(s, e);
    }
  }

  lemma {:induction false} StepsKeepTimely(s: Sys, events: seq<Event>)
    requires Timely(s) && Possible(s, events)
    ensures Timely(Run(s, events))
    decreases |events|
  {
    if events == [] {
    } else {
      NextKeepsTimely(s, events[0]);
      StepsKeepTimely(Next(s, events[0]), events[1..]);
    }
  }

  /** In every run, however late queued work runs: whenever the last published message is a non-zero move,
      the stop work is pending, on the queue or timed for at most 20 s after that move. */
  lemma MovesAlwaysEnd(t: int, events: seq<Event>)
    requires Possible(Sys(INITIAL, t), events)
    ensures StopIsPending(Run(Sys(INITIAL, t), events))
  {
    StepsKeepTimely(Sys(INITIAL, t), events);
  }

  // ---------------------------------------------------------------------------- a prompt work queue

  /** When the queue keeps up, what is on it was submitted just now, and moves are followed up in time. */
  predicate StartIsFresh(s: Sys) {
    StartWork in s.dimmer.queue ==>
      && s.now - s.dimmer.pressStart <= SHORT_PRESS_MS
      && (s.dimmer.startDue.Some? ==> s.now < s.dimmer.startDue.value)
  }

  predicate MoveIsFresh(s: Sys) {
    Moving(s.dimmer) ==> s.now <= LastSent(s.dimmer).at + LONG_PRESS_MS
  }

  predicate UpToDate(s: Sys) {
    Timely(s) && StartIsFresh(s) && MoveIsFresh(s)
  }

  lemma NextKeepsStart(s: Sys, e: Event)
    requires UpToDate(s) && Enabled(s, e)
    requires e.Wait? && e.until > s.now ==> s.dimmer.queue == []
    ensures StartIsFresh(Next(s, e))
  {
    CancelLeaves(s.dimmer, StartWork);
    CancelLeaves(Cancel(s.dimmer, StartWork), StopWork);
  }

  lemma NextKeepsMove(s: Sys, e: Event)
    requires UpToDate(s) && Enabled(s, e)
    requires e.Wait? && e.until > s.now ==> s.dimmer.queue == []
    ensures MoveIsFresh(Next(s, e))
  {
  }

  lemma {:induction false} StepsKeepUpToDate(s: Sys, events: seq<Event>)
    requires UpToDate(s) && Possible(s, events) && Prompt(s, events)
    ensures UpToDate(Run(s, events))
    decreases |events|
  {
    if events == [] {
    } else {
      NextKeepsTimely(s, events[0]);
      NextKeepsStart(s, events[0]);
      NextKeepsMove(s, events[0]);
      StepsKeepUpToDate(Next(s, events[0]), events[1..]);
    }
  }

  /** When the queue keeps up, no move lasts longer than 20 s. */
  lemma NoMoveOutlasts(t: int, events: seq<Event>)
    requires Possible(Sys(INITIAL, t), events) && Prompt(Sys(INITIAL, t), events)
    ensures var s := Run(Sys(INITIAL, t), events);
            Moving(s.dimmer) ==> s.now <= LastSent(s.dimmer).at + LONG_PRESS_MS
  {
    StepsKeepUpToDate(Sys(INITIAL, t), events);
  }

  // ---------------------------------------------------------------------------- direction

  function Presses(events: seq<Event>): nat {
    if events == [] then 0
    else (if events[0].Button? && events[0].pressed && events[0].provisioned then 1 else 0) + Presses(events[1..])
  }

  /** Every press reverses the direction, and nothing else does; so successive holds dim up and down in
      turn, and successive taps switch on and off in turn: a move, or a tap's on/off message, goes up (or
      on) exactly after an odd number of presses. */
  lemma PressesAlternate(t: int, events: seq<Event>)
    ensures Run(Sys(INITIAL, t), events).dimmer.up <==> Presses(events) % 2 == 1
    ensures var s := Run(Sys(INITIAL, t), events);
            && (s.dimmer.queue != [] && s.dimmer.queue[0] == StartWork ==>
                  Next(s, RunNext).dimmer.sent
                  == s.dimmer.sent + [Sent(Move(if Presses(events) % 2 == 1 then MOVE_STEP else -MOVE_STEP), s.now)])
            && (!LongPress(s.dimmer, s.now) ==>
                  Next(s, Button(false, true)).dimmer.sent
                  == s.dimmer.sent + [Sent(OnOff(Presses(events) % 2 == 1), s.now)])
  {
    DirectionFollowsPresses(Sys(INITIAL, t), events);
  }

  lemma {:induction false} DirectionFollowsPresses(s: Sys, events: seq<Event>)
    ensures Run(s, events).dimmer.up <==> (s.dimmer.up <==> Presses(events) % 2 == 0)
    decreases |events|
  {
    if events == [] {
    } else {
      DirectionFollowsPresses(Next(s, events[0]), events[1..]);
    }
  }
}

/** What each event does in every state the dimmer reaches. */
module DimmerEvents {
  import opened Bytes
  import opened DimmerSpec
  import opened DimmerSafety

  /** A run from power-up has led to this state. */
  ghost predicate Reached(t: int, before: seq<Event>, s: Sys) {
    Possible(Sys(INITIAL, t), before) && s == Run(Sys(INITIAL, t), before)
  }

  lemma QueueReached(t: int, before: seq<Event>, s: Sys)
    requires Reached(t, before, s)
    ensures QueueOk(s.dimmer.queue)
  {
    StepsKeepTimely(Sys(INITIAL, t), before);
  }

  /** What is left of the queue without the start, and without the stop too. */
  lemma WithoutStart(q: seq<Work>)
    requires QueueOk(q)
    ensures Without(q, StartWork) == if StopWork in q then [StopWork] else []
    ensures Without(Without(q, StartWork), StopWork) == []
  {
    var r := Without(q, StartWork);
    WithoutOne(q, StartWork);
    OnlyStop(r);
    assert [StopWork][1..] == [];
  }

  lemma OnlyStop(r: seq<Work>)
    requires QueueOk(r) && StartWork !in r
    ensures r == if StopWork in r then [StopWork] else []
  {
    if r == [] {
    } else {
      assert r[0] in r && r[|r| - 1] in r;
      assert r[0] == StopWork && r[|r| - 1] == StopWork;
      assert r == [r[0]];
    }
  }

  /** Nothing stays timed or queued, whatever was. */
  lemma NothingPending(t: int, before: seq<Event>, s: Sys)
    requires Reached(t, before, s)
    ensures CancelPending(s.dimmer) == Dimmer(s.dimmer.up, s.dimmer.pressStart, None, None, [], s.dimmer.sent)
  {
    QueueReached(t, before, s);
    WithoutStart(s.dimmer.queue);
  }

  /** A serial on/off command sends exactly that and leaves nothing timed or queued; direction and press time stay. */
  lemma SerialSends(t: int, before: seq<Event>, s: Sys, on: bool)
    requires Reached(t, before, s)
    ensures var d := s.dimmer;
            Next(s, SerialOnOff(on, true))
            == Sys(Dimmer(d.up, d.pressStart, None, None, [], d.sent + [Sent(OnOff(on), s.now)]), s.now)
  {
    NothingPending(t, before, s);
  }

  /** The share of the 16-bit range, to the nearest integer: up is positive, down is negative. */
  lemma StepRounds(up: bool, percent: nat)
    requires percent >= 1
    ensures var size := if up then LevelStep(up, percent) else -LevelStep(up, percent);
            size > 0 && -50 <= 0xFFFF * percent - 100 * size < 50
  {
  }

  /** So does a serial step of 1 to 100 percent, with that share of the level range; any other does nothing. */
  lemma SerialSteps(t: int, before: seq<Event>, s: Sys, up: bool, percent: nat) returns (size: int)
    requires Reached(t, before, s)
    ensures 1 <= percent <= 100 ==> size > 0 && -50 <= 0xFFFF * percent - 100 * size < 50
    ensures var d := s.dimmer;
            Next(s, SerialDim(up, percent, true))
            == if 1 <= percent <= 100
               then Sys(Dimmer(d.up, d.pressStart, None, None, [],
                               d.sent + [Sent(Step(if up then size else -size), s.now)]), s.now)
               else s
  {
    size := 1;
    if 1 <= percent <= 100 {
      NothingPending(t, before, s);
      StepRounds(up, percent);
      size := if up then LevelStep(up, percent) else -LevelStep(up, percent);
    }
  }

  /** A press only reverses the direction and times the start for 300 ms later, anew if it was timed already. */
  lemma PressTimesStart(s: Sys)
    ensures var d := s.dimmer;
            Next(s, Button(true, true))
            == Sys(Dimmer(!d.up, s.now, Some(s.now + 300), d.stopDue, d.queue, d.sent), s.now)
  {
  }

  /** A release within 300 ms switches on or off by the direction, and the start is neither timed nor queued; a
      later one sends nothing and puts the stop on the queue, unless it is there already. */
  lemma ReleaseSends(t: int, before: seq<Event>, s: Sys)
    requires Reached(t, before, s)
    ensures var d := s.dimmer;
            Next(s, Button(false, true))
            == if s.now - d.pressStart < 300
               then Sys(Dimmer(d.up, d.pressStart, None, d.stopDue, if StopWork in d.queue then [StopWork] else [],
                               d.sent + [Sent(OnOff(d.up), s.now)]), s.now)
               else Sys(Dimmer(d.up, d.pressStart, d.startDue, None,
                               if StopWork in d.queue then d.queue else d.queue + [StopWork], d.sent), s.now)
  {
    QueueReached(t, before, s);
    WithoutStart(s.dimmer.queue);
  }

  /** A timer that runs out puts its item on the queue, unless it is there already, and does nothing else. */
  lemma ExpiryQueues(s: Sys, w: Work)
    ensures var d := s.dimmer;
            Next(s, Expire(w))
            == s.(dimmer := Dimmer(d.up, d.pressStart, if w.StartWork? then None else d.startDue,
                                   if w.StopWork? then None else d.stopDue,
                                   if w in d.queue then d.queue else d.queue + [w], d.sent))
  {
  }

  /** The start moves the lights by 1000 in the current direction and times the stop for 20 s later; the stop
      sends a move of zero. */
  lemma WorkSends(s: Sys)
    requires s.dimmer.queue != []
    ensures var d := s.dimmer;
            Next(s, RunNext)
            == if d.queue[0].StartWork?
               then Sys(Dimmer(d.up, d.pressStart, d.startDue, Some(s.now + 20000), d.queue[1..],
                               d.sent + [Sent(Move(if d.up then 1000 else -1000), s.now)]), s.now)
               else Sys(Dimmer(d.up, d.pressStart, d.startDue, d.stopDue, d.queue[1..],
                               d.sent + [Sent(Move(0), s.now)]), s.now)
  {
  }

  /** Without a network nothing the user does changes anything, and time passing changes only the time. */
  lemma OthersChangeNothing(s: Sys, e: Event)
    ensures (e.Button? || e.SerialOnOff? || e.SerialDim?) && !e.provisioned ==> Next(s, e) == s
    ensures e.Wait? ==> Next(s, e) == s.(now := e.until)
  {
  }
}

/** Does releasing a held button stop the lights? */
module DimmerRelease {
  import opened Bytes
  import opened DimmerSpec
  import opened DimmerSafety

  /** Nobody touches the dimmer and the 20 s timeout does not run out. */
  predicate Undisturbed(e: Event) {
    e.RunNext? || e == Expire(StartWork) || e.Wait?
  }

  /** An undisturbed run after which the queue is empty and the start timer no longer runs. */
  predicate Settles(s: Sys, events: seq<Event>) {
    && (forall i :: 0 <= i < |events| ==> Undisturbed(events[i]))
    && Possible(s, events)
    && Run(s, events).dimmer.queue == [] && Run(s, events).dimmer.startDue == None
  }

  function LastQueued(d: Dimmer): Work
    requires d.queue != []
  {
    d.queue[|d.queue| - 1]
  }

  /** Whatever happens, the stop comes last. */
  predicate SureToStop(d: Dimmer) {
    d.startDue.None? && if d.queue == [] then Stopped(d) else LastQueued(d) == StopWork
  }

  /** Whatever happens, the start comes last. */
  predicate SureToMove(d: Dimmer) {
    if d.queue != [] && LastQueued(d) == StartWork then true
    else if d.startDue.Some? then StartWork !in d.queue
    else d.queue == [] && Moving(d)
  }

  lemma StepKeepsSureToStop(s: Sys, e: Event)
    requires Timely(s) && Enabled(s, e) && Undisturbed(e) && SureToStop(s.dimmer)
    ensures SureToStop(Next(s, e).dimmer)
  {
  }

  lemma StepKeepsSureToMove(s: Sys, e: Event)
    requires Timely(s) && Enabled(s, e) && Undisturbed(e) && SureToMove(s.dimmer)
    ensures SureToMove(Next(s, e).dimmer)
  {
  }

  lemma {:induction false} SureMeansSure(s: Sys, events: seq<Event>)
    requires Timely(s) && Settles(s, events)
    ensures SureToStop(s.dimmer) ==> Stopped(Run(s, events).dimmer)
    ensures SureToMove(s.dimmer) ==> Moving(Run(s, events).dimmer)
    decreases |events|
  {
    if events == [] {
    } else {
      var e := events[0];
      NextKeepsTimely(s, e);
      if SureToStop(s.dimmer) { StepKeepsSureToStop(s, e); }
      if SureToMove(s.dimmer) { StepKeepsSureToMove(s, e); }
      assert forall i :: 0 <= i < |events[1..]| ==> events[1..][i] == events[i + 1];
      SureMeansSure(Next(s, e), events[1..]);
    }
  }

  lemma Prepend(s: Sys, e: Event, rest: seq<Event>)
    requires Enabled(s, e) && Undisturbed(e) && Settles(Next(s, e), rest)
    ensures Settles(s, [e] + rest) && Run(s, [e] + rest) == Run(Next(s, e), rest)
  {
    assert ([e] + rest)[1..] == rest;
  }

  /** The queued work and a start timer that is due can always run to their end. */
  lemma {:induction false} CanSettle(s: Sys) returns (events: seq<Event>)
    requires s.dimmer.startDue.Some? ==> s.dimmer.startDue == Some(s.now)
    ensures Settles(s, events)
    decreases s.dimmer.startDue.Some?, |s.dimmer.queue|
  {
    events := [];
    if s.dimmer.queue != [] {
      var rest := CanSettle(Next(s, RunNext));
      Prepend(s, RunNext, rest);
      events := [RunNext] + rest;
    } else if s.dimmer.startDue.Some? {
      var rest := CanSettle(Next(s, Expire(StartWork)));
      Prepend(s, Expire(StartWork), rest);
      events := [Expire(StartWork)] + rest;
    }
  }

  /** Before a long release: no start timer is running, and the start is not queued behind a stop. */
  predicate ReleaseStops(d: Dimmer) {
    d.startDue.None? && d.queue != [StopWork, StartWork]
  }

  /** Before a long release: the start is queued behind a stop, or its timer runs and it is not queued. */
  predicate ReleaseMoves(d: Dimmer) {
    d.queue == [StopWork, StartWork] || (d.startDue.Some? && StartWork !in d.queue)
  }

  ghost predicate AlwaysStops(s: Sys) {
    forall events :: Settles(s, events) ==> Stopped(Run(s, events).dimmer)
  }

  ghost predicate AlwaysMoves(s: Sys) {
    forall events :: Settles(s, events) ==> Moving(Run(s, events).dimmer)
  }

  /** The order in which the work runs is open: the start is queued before the stop, and its timer runs. */
  predicate Open(s: Sys) {
    s.dimmer.queue == [StartWork, StopWork] && s.dimmer.startDue == Some(s.now)
  }

  lemma ReleaseClassified(d: Dimmer, now: int)
    requires QueueOk(d.queue)
    ensures var r := Reschedule(d, StopWork, 0, now);
            && (SureToStop(r) <==> ReleaseStops(d))
            && (SureToMove(r) <==> ReleaseMoves(d))
            && (!SureToStop(r) && !SureToMove(r) ==> r.queue == [StartWork, StopWork] && r.startDue.Some?)
  {
  }

  lemma AfterRelease(s: Sys)
    requires Timely(s) && LongPress(s.dimmer, s.now)
    ensures var r := Next(s, Button(false, true));
            && Timely(r) && r.dimmer == Reschedule(s.dimmer, StopWork, 0, s.now)
            && (r.dimmer.startDue.Some? ==> r.dimmer.startDue == Some(r.now))
  {
    ReleaseKeepsTimely(s);
  }

  lemma CanStop(s: Sys) returns (events: seq<Event>)
    requires Timely(s) && (s.dimmer.startDue.Some? ==> s.dimmer.startDue == Some(s.now))
    requires SureToStop(s.dimmer) || Open(s)
    ensures Settles(s, events) && Stopped(Run(s, events).dimmer)
    decreases s.dimmer.startDue.Some?
  {
    if SureToStop(s.dimmer) {
      events := CanSettle(s);
      SureMeansSure(s, events);
    } else {
      NextKeepsTimely(s, Expire(StartWork));
      var rest := CanStop(Next(s, Expire(StartWork)));
      Prepend(s, Expire(StartWork), rest);
      events := [Expire(StartWork)] + rest;
    }
  }

  lemma CanMove(s: Sys) returns (events: seq<Event>)
    requires Timely(s) && (s.dimmer.startDue.Some? ==> s.dimmer.startDue == Some(s.now))
    requires SureToMove(s.dimmer) || Open(s)
    ensures Settles(s, events) && Moving(Run(s, events).dimmer)
    decreases |s.dimmer.queue|
  {
    if SureToMove(s.dimmer) {
      events := CanSettle(s);
      SureMeansSure(s, events);
    } else {
      NextKeepsTimely(s, RunNext);
      var rest := CanMove(Next(s, RunNext));
      Prepend(s, RunNext, rest);
      events := [RunNext] + rest;
    }
  }

  lemma SettlingDecided(r: Sys)
    requires Timely(r) && (r.dimmer.startDue.Some? ==> r.dimmer.startDue == Some(r.now))
    requires SureToStop(r.dimmer) || SureToMove(r.dimmer) || Open(r)
    ensures AlwaysStops(r) <==> SureToStop(r.dimmer)
    ensures AlwaysMoves(r) <==> SureToMove(r.dimmer)
  {
    forall events | Settles(r, events)
      ensures SureToStop(r.dimmer) ==> Stopped(Run(r, events).dimmer)
      ensures SureToMove(r.dimmer) ==> Moving(Run(r, events).dimmer)
    {
      SureMeansSure(r, events);
    }
    if !SureToStop(r.dimmer) {
      var events := CanMove(r);
      assert !Stopped(Run(r, events).dimmer);
    }
    if !SureToMove(r.dimmer) {
      var events := CanStop(r);
      assert !Moving(Run(r, events).dimmer);
    }
  }

  /** In every state the dimmer reaches, a button released after 300 ms or more stops the lights, in
      whatever order the work submitted and due then runs, if and only if no start timer is running and the
      start is not queued behind a stop that is queued already; and it leaves them moving, in whatever
      order, if and only if the start is so queued, or its timer runs and it is not queued. */
  lemma ReleaseExactly(t: int, before: seq<Event>, s: Sys)
    requires Possible(Sys(INITIAL, t), before) && s == Run(Sys(INITIAL, t), before)
    requires LongPress(s.dimmer, s.now)
    ensures AlwaysStops(Next(s, Button(false, true))) <==> ReleaseStops(s.dimmer)
    ensures AlwaysMoves(Next(s, Button(false, true))) <==> ReleaseMoves(s.dimmer)
  {
    StepsKeepTimely(Sys(INITIAL, t), before);
    AfterRelease(s);
    ReleaseClassified(s.dimmer, s.now);
    SettlingDecided(Next(s, Button(false, true)));
  }

  /** Some such order always exists; when the work queue keeps up one of the two holds, and after more than
      300 ms it is the first: such a press always stops the lights. */
  lemma PromptReleaseDecided(t: int, before: seq<Event>, s: Sys) returns (events: seq<Event>)
    requires Possible(Sys(INITIAL, t), before) && s == Run(Sys(INITIAL, t), before)
    requires LongPress(s.dimmer, s.now)
    ensures Settles(Next(s, Button(false, true)), events)
    ensures Prompt(Sys(INITIAL, t), before) ==> ReleaseStops(s.dimmer) || ReleaseMoves(s.dimmer)
    ensures Prompt(Sys(INITIAL, t), before) && s.now - s.dimmer.pressStart > SHORT_PRESS_MS ==> ReleaseStops(s.dimmer)
  {
    StepsKeepTimely(Sys(INITIAL, t), before);
    AfterRelease(s);
    events := CanSettle(Next(s, Button(false, true)));
    if Prompt(Sys(INITIAL, t), before) { StepsKeepUpToDate(Sys(INITIAL, t), before); }
  }

  // ---------------------------------------------------------------------------- it happens

  /** The run leads from s to t and the work queue keeps up. */
  ghost predicate Leads(s: Sys, events: seq<Event>, t: Sys) {
    Possible(s, events) && Prompt(s, events) && Run(s, events) == t
  }

  lemma Further(s: Sys, events: seq<Event>, t: Sys, e: Event)
    requires Leads(s, events, t) && Enabled(t, e)
    requires e.Wait? && e.until > t.now ==> t.dimmer.queue == []
    ensures Leads(s, events + [e], Next(t, e))
    decreases |events|
  {
    if events == [] {
      assert events + [e] == [e] && [e][1..] == [];
    } else {
      assert (events + [e])[1..] == events[1..] + [e];
      Further(Next(s, events[0]), events[1..], t, e);
    }
  }

  lemma Then(s: Sys, events: seq<Event>, t: Sys, e: Event) returns (more: seq<Event>, u: Sys)
    requires Leads(s, events, t) && Enabled(t, e)
    requires e.Wait? && e.until > t.now ==> t.dimmer.queue == []
    ensures more == events + [e] && u == Next(t, e) && Leads(s, more, u)
  {
    Further(s, events, t, e);
    more, u := events + [e], Next(t, e);
  }

  /** A press released exactly at the threshold, while the start timer is still running: the stop runs
      first, and then the start. */
  function ThresholdRelease(): seq<Event> {
    [Button(true, true)] + [Wait(300)] + [Button(false, true)] + [RunNext] + [Expire(StartWork)] + [RunNext]
  }

  lemma AfterThresholdRelease() returns (t: Sys)
    ensures Leads(Sys(INITIAL, 0), ThresholdRelease(), t) && t.now == 300 && Moving(t.dimmer)
    ensures t.dimmer.queue == [] && t.dimmer.startDue == None && t.dimmer.stopDue == Some(20300)
  {
    var s, events := Sys(INITIAL, 0), [];
    events, t := Then(s, events, s, Button(true, true));
    events, t := Then(s, events, t, Wait(300));
    events, t := Then(s, events, t, Button(false, true));
    events, t := Then(s, events, t, RunNext);
    events, t := Then(s, events, t, Expire(StartWork));
    events, t := Then(s, events, t, RunNext);
    assert events == ThresholdRelease();
  }

  /** The lights then move for the full 20 s although nobody holds the button. */
  lemma ThresholdReleaseKeepsMoving() returns (t: Sys)
    ensures Leads(Sys(INITIAL, 0), ThresholdRelease() + [Wait(20300)], t) && Moving(t.dimmer) && t.now == 20300
  {
    t := AfterThresholdRelease();
    var events;
    events, t := Then(Sys(INITIAL, 0), ThresholdRelease(), t, Wait(20300));
  }

  /** A second press whose start timer runs out at the same instant as that 20 s timeout, and just after it,
      and is released right then: the stop is on the queue already, the release adds nothing, and the start
      runs last. No start timer was running at this release. */
  function SecondRelease(): seq<Event> {
    ThresholdRelease() + [Wait(20000)] + [Button(true, true)] + [Wait(20300)] + [Expire(StopWork)] + [Expire(StartWork)]
  }

  lemma AtSecondRelease() returns (s: Sys)
    ensures Leads(Sys(INITIAL, 0), SecondRelease(), s) && s.now == 20300
    ensures LongPress(s.dimmer, s.now) && s.dimmer.startDue == None && s.dimmer.queue == [StopWork, StartWork]
  {
    var o, events := Sys(INITIAL, 0), ThresholdRelease();
    s := AfterThresholdRelease();
    events, s := Then(o, events, s, Wait(20000));
    events, s := Then(o, events, s, Button(true, true));
    events, s := Then(o, events, s, Wait(20300));
    events, s := Then(o, events, s, Expire(StopWork));
    events, s := Then(o, events, s, Expire(StartWork));
  }

  lemma QueuedStopIsNotRenewed() returns (s: Sys, t: Sys)
    ensures Leads(Sys(INITIAL, 0), SecondRelease(), s)
    ensures LongPress(s.dimmer, s.now) && s.dimmer.startDue == None && s.dimmer.queue == [StopWork, StartWork]
    ensures Leads(Sys(INITIAL, 0), SecondRelease() + [Button(false, true)] + [RunNext] + [RunNext], t)
    ensures Moving(t.dimmer) && t.now == s.now && t.dimmer.queue == [] && t.dimmer.stopDue == Some(40300)
  {
    s := AtSecondRelease();
    var o, events := Sys(INITIAL, 0), SecondRelease();
    events, t := Then(o, events, s, Button(false, true));
    events, t := Then(o, events, t, RunNext);
    events, t := Then(o, events, t, RunNext);
  }
}
