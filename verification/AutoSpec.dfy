/** The automatic provisioning path as values: one attempt at one UUID, and the retry pass that walks the
    cache while other threads may act between any two of its calls. */
module AutoSpec {
  import opened Bytes
  import opened CacheSpec
  import opened Interface
  import CacheMap
  import S = ScenarioSpec

  /** Everything the automatic path reads or writes. */
  datatype World = World(cache: Cache, rows: seq<S.Row>, ready: bool, busy: bool, accepted: seq<Request>)

  ghost predicate WorldOk(w: World) {
    Good(w.cache) && S.TableOk(w.rows)
  }

  /** provisioner_handler_request_provision_recipe as one step. */
  function RequestProvision(w: World, u: Uuid, recipe: nat): (World, int) {
    if !w.ready then (w, ENODEV)
    else if w.busy then (w, EBUSY)
    else (w.(busy := true, accepted := w.accepted + [Request(u, recipe)]), 0)
  }

  /** A request is refused with -ENODEV before the provisioner is ready and with -EBUSY while it is busy, and then
      changes nothing; otherwise it is accepted, and the provisioner is busy. */
  lemma RequestAnswers(w: World, u: Uuid, recipe: nat)
    ensures var (v, err) := RequestProvision(w, u, recipe);
            && (err == -19 <==> !w.ready) && (err == -16 <==> w.ready && w.busy) && (err == 0 <==> w.ready && !w.busy)
            && (err != 0 ==> v == w)
            && (err == 0 ==> v == World(w.cache, w.rows, true, true, w.accepted + [Request(u, recipe)]))
  {
  }

  /** What the other threads do before the k-th call of this one, the clock that call reads, and the
      configured retry interval. */
  datatype Setting = Setting(others: (nat, World) -> World, clock: nat -> int, retryMs: int)

  /** Other threads keep the cache's size and leave it and the table well-formed. */
  ghost predicate FairPlay(x: Setting) {
    forall k: nat, w: World :: WorldOk(w) ==>
      WorldOk(x.others(k, w)) && |x.others(k, w).cache.slots| == |w.cache.slots|
  }

  function Undisturbed(k: nat, w: World): World {
    w
  }

  datatype TryResult = NoTry | Requested | Busy | Error

  /** The state an attempt leaves, and what it answers. */
  datatype Tried = Tried(world: World, result: TryResult)

  /** The first three calls of an attempt: may the device be attempted, its name, and its recipe. The recipe
      is RECIPE_NONE when it may not or has none. */
  datatype Choice = Choice(world: World, recipe: nat)

  function Choose(w: World, u: Uuid, x: Setting, k: nat): Choice
    requires WorldOk(w) && FairPlay(x)
  {
    var w0 := x.others(k, w);
    if !ShouldAutoAttempt(w0.cache, u, x.clock(k), x.retryMs) then Choice(w0, S.RECIPE_NONE)
    else
      var w1 := x.others(k + 1, w0);
      var name := KnownName(w1.cache, u);
      var w2 := x.others(k + 2, w1);
      Choice(w2, S.LookupRecipeId(w2.rows, u, name))
  }

  /** auto_try_uuid; the clock is read first, then come five calls, numbered k to k + 4. */
  function TryAuto(w: World, u: Uuid, x: Setting, k: nat): Tried
    requires WorldOk(w) && FairPlay(x)
  {
    var c := Choose(w, u, x, k);
    if c.recipe == S.RECIPE_NONE then Tried(c.world, NoTry)
    else
      var (w3, err) := RequestProvision(x.others(k + 3, c.world), u, c.recipe);
      if err == 0 || err == EBUSY then
        var w4 := x.others(k + 4, w3);
        Tried(w4.(cache := MarkAttempt(w4.cache, u, x.clock(k))), if err == 0 then Requested else Busy)
      else Tried(w3, Error)
  }

  datatype Visit = Visit(slot: nat, uuid: Uuid, result: TryResult)

  /** The state a pass leaves, and the slots it visited. */
  datatype Passed = Passed(world: World, visits: seq<Visit>)

  lemma ChooseKeepsWorld(w: World, u: Uuid, x: Setting, k: nat)
    requires WorldOk(w) && FairPlay(x)
    ensures WorldOk(Choose(w, u, x, k).world)
    ensures |Choose(w, u, x, k).world.cache.slots| == |w.cache.slots|
  {
    var w0 := x.others(k, w);
    var w1 := x.others(k + 1, w0);
  }

  lemma TryKeepsWorld(w: World, u: Uuid, x: Setting, k: nat)
    requires WorldOk(w) && FairPlay(x)
    ensures WorldOk(TryAuto(w, u, x, k).world)
    ensures |TryAuto(w, u, x, k).world.cache.slots| == |w.cache.slots|
  {
    ChooseKeepsWorld(w, u, x, k);
    var c := Choose(w, u, x, k);
    var w3 := RequestProvision(x.others(k + 3, c.world), u, c.recipe).0;
    AttemptKeepsGood(x.others(k + 4, w3).cache, u, x.clock(k));
  }

  lemma AttemptKeepsGood(c: Cache, u: Uuid, now: int)
    requires Good(c)
    ensures Good(MarkAttempt(c, u, now))
  {
    CacheMap.Refines(c, Attempt(u, now));
  }

  /** Visits in increasing slot order, from `from` up to n, an accepted request only at the end. */
  predicate Orderly(v: seq<Visit>, from: nat, n: nat) {
    v != [] ==>
      && from <= v[0].slot < n
      && (v[0].result == Requested ==> |v| == 1)
      && Orderly(v[1..], v[0].slot + 1, n)
  }

  lemma OrderlyCons(first: Visit, rest: seq<Visit>, from: nat, n: nat)
    requires from <= first.slot < n && Orderly(rest, first.slot + 1, n)
    requires first.result == Requested ==> rest == []
    ensures Orderly([first] + rest, from, n)
  {
    assert ([first] + rest)[1..] == rest;
  }

  /** auto_retry_work_handler from slot `from` on; each round makes six calls. Stops at the first
      accepted request. */
  function Pass(w: World, from: nat, x: Setting, k: nat): (p: Passed)
    requires WorldOk(w) && FairPlay(x) && from <= |w.cache.slots|
    ensures Orderly(p.visits, from, |w.cache.slots|)
    decreases |w.cache.slots| - from
  {
    var w0 := x.others(k, w);
    var s := w0.cache.slots;
    var i := NextReady(s, from, x.clock(k), x.retryMs);
    if i == |s| then Passed(w0, [])
    else
      var Tried(w1, r) := TryAuto(w0, s[i].uuid, x, k + 1);
      TryKeepsWorld(w0, s[i].uuid, x, k + 1);
      var visit := Visit(i, s[i].uuid, r);
      if r == Requested then
        OrderlyCons(visit, [], from, |s|);
        Passed(w1, [visit] + [])
      else
        var Passed(w2, rest) := Pass(w1, i + 1, x, k + 6);
        OrderlyCons(visit, rest, from, |s|);
        Passed(w2, [visit] + rest)
  }

  /** A pass that ends in `end` has reached slot `from`, or is over. */
  ghost predicate Continues(w: World, from: nat, x: Setting, k: nat, more: bool, end: World) {
    && WorldOk(w) && FairPlay(x)
    && if more then from <= |w.cache.slots| && end == Pass(w, from, x, k).world else end == w
  }

  /** One round: no candidate from slot `from` on, or the first one tried. */
  ghost predicate RoundDone(w: World, from: nat, x: Setting, k: nat, w1: World, r: Option<TryResult>, next: nat)
    requires WorldOk(w) && FairPlay(x) && from <= |w.cache.slots|
  {
    var i := NextReady(w.cache.slots, from, x.clock(k), x.retryMs);
    if i == |w.cache.slots| then r == None && w1 == w
    else r.Some? && next == i + 1 && Tried(w1, r.value) == TryAuto(w, w.cache.slots[i].uuid, x, k + 1)
  }

  /** No other thread acts. */
  ghost predicate Still(x: Setting) {
    forall k: nat, w: World {:trigger x.others(k, w)} :: x.others(k, w) == w
  }

  lemma PassAdvances(w: World, from: nat, x: Setting, k: nat, w1: World, r: Option<TryResult>, next: nat, end: World)
    requires Continues(w, from, x, k, true, end) && Still(x)
    requires RoundDone(w, from, x, k, w1, r, next)
    ensures Continues(w1, next, x, k + 6, r.Some? && r.value != Requested, end)
  {
    hide TryAuto; // what an attempt does does not matter here
    var i := NextReady(w.cache.slots, from, x.clock(k), x.retryMs);
    if i < |w.cache.slots| { TryKeepsWorld(w, w.cache.slots[i].uuid, x, k + 1); }
  }
}

module AutoPass {
  import opened CacheSpec
  import opened Interface
  import opened CacheMap
  import opened AutoSpec
  import S = ScenarioSpec

  lemma {:induction false} OrderlyMeans(v: seq<Visit>, from: nat, n: nat, i: nat, j: nat)
    requires Orderly(v, from, n) && from <= n
    ensures |v| <= n - from
    ensures i < |v| ==> from <= v[i].slot < n
    ensures i < j < |v| ==> v[i].slot < v[j].slot && v[i].result != Requested
    decreases |v|
  {
    if v == [] {
    } else {
      OrderlyMeans(v[1..], v[0].slot + 1, n, if i > 0 then i - 1 else 0, if j > 0 then j - 1 else 0);
    }
  }

  /** Whatever other threads do between its calls, a pass ends, visits each slot at most once and in
      order, and submits at most one request, its last act. */
  lemma PassVisitsOnce(w: World, x: Setting, i: nat, j: nat)
    requires WorldOk(w) && FairPlay(x)
    ensures var v := Pass(w, 0, x, 0).visits;
            && |v| <= |w.cache.slots|
            && (i < |v| ==> v[i].slot < |w.cache.slots|)
            && (i < j < |v| ==> v[i].slot < v[j].slot && v[i].result != Requested)
  {
    OrderlyMeans(Pass(w, 0, x, 0).visits, 0, |w.cache.slots|, i, j);
  }

  // ---------------------------------------------------------------------------- undisturbed passes

  /** The slot's device may be attempted at time t and the table has a recipe for it. */
  predicate Eligible(w: World, i: nat, t: int, retryMs: int)
    requires i < |w.cache.slots| && S.TableOk(w.rows)
  {
    RetryReady(w.cache.slots[i], t, retryMs) && RecipeOf(w, i) != S.RECIPE_NONE
  }

  /** The recipe the table holds for the slot's device under its stored name. */
  function RecipeOf(w: World, i: nat): nat
    requires i < |w.cache.slots| && S.TableOk(w.rows)
  {
    S.LookupRecipeId(w.rows, w.cache.slots[i].uuid, Dev(w.cache.slots[i]).name)
  }

  /** No other thread acts, and the clock stays between lo and hi during the pass. */
  ghost predicate Quiet(x: Setting, lo: int, hi: int) {
    && Still(x)
    && (forall k: nat :: lo <= x.clock(k) <= hi)
  }

  /** What one attempt at slot i's device does when nobody interferes. */
  lemma TryQuiet(w: World, i: nat, x: Setting, k: nat, lo: int, hi: int)
    requires WorldOk(w) && Quiet(x, lo, hi) && i < |w.cache.slots| && w.cache.slots[i].inUse
    ensures FairPlay(x)
    ensures var Tried(w', r) := TryAuto(w, w.cache.slots[i].uuid, x, k);
            && (r == NoTry || r == Error ==> w' == w)
            && (r == Requested || r == Busy ==>
                  && Eligible(w, i, hi, x.retryMs)
                  && w'.cache == w.cache.(slots := w.cache.slots[i := w.cache.slots[i].(lastAttempt := x.clock(k))])
                  && w'.rows == w.rows && w'.ready && w'.busy)
            && (r == Requested ==>
                  !w.busy && w'.accepted == w.accepted + [Request(w.cache.slots[i].uuid, RecipeOf(w, i))])
            && (r == Busy ==> w.busy && w'.accepted == w.accepted)
            && (Eligible(w, i, lo, x.retryMs) && w.ready ==> r == if w.busy then Busy else Requested)
  {
    FindsItself(w.cache.slots, i);
    assert SlotOk(w.cache.slots[i]);
    KnownNameReadsMap(w.cache, w.cache.slots[i].uuid);
    InAbs(w.cache.slots, w.cache.slots[i].uuid);
  }

  ghost predicate NoneEligible(w: World, from: nat, to: nat, t: int, retryMs: int)
    requires to <= |w.cache.slots| && S.TableOk(w.rows)
  {
    forall j {:trigger Eligible(w, j, t, retryMs)} :: from <= j < to ==> !Eligible(w, j, t, retryMs)
  }

  /** Slot i's device was requested, with its recipe, and stamped with a time of the pass. */
  ghost predicate Served(w: World, i: nat, w': World, lo: int, hi: int)
    requires i < |w.cache.slots| && S.TableOk(w.rows)
  {
    && w'.accepted == w.accepted + [Request(w.cache.slots[i].uuid, RecipeOf(w, i))]
    && exists t :: lo <= t <= hi && w'.cache.slots == w.cache.slots[i := w.cache.slots[i].(lastAttempt := t)]
  }

  /** What a pass from slot `from` on amounts to when the provisioner is free and ready: slot i is
      served, or, with i the number of slots, none is. */
  ghost predicate FreeResult(w: World, from: nat, w': World, i: nat, lo: int, hi: int, retryMs: int)
    requires S.TableOk(w.rows)
  {
    && from <= i <= |w.cache.slots|
    && NoneEligible(w, from, i, lo, retryMs)
    && if i < |w.cache.slots| then Eligible(w, i, hi, retryMs) && Served(w, i, w', lo, hi) else w' == w
  }

  lemma ScanSkipsIneligible(w: World, from: nat, t: int, lo: int, retryMs: int)
    requires from <= |w.cache.slots| && S.TableOk(w.rows) && lo <= t
    ensures NoneEligible(w, from, NextReady(w.cache.slots, from, t, retryMs), lo, retryMs)
  {
  }

  lemma FreeCons(w: World, from: nat, h: nat, w': World, i: nat, lo: int, hi: int, retryMs: int)
    requires from <= h < |w.cache.slots| && S.TableOk(w.rows)
    requires NoneEligible(w, from, h, lo, retryMs) && !Eligible(w, h, lo, retryMs)
    requires FreeResult(w, h + 1, w', i, lo, hi, retryMs)
    ensures FreeResult(w, from, w', i, lo, hi, retryMs)
  {
  }

  /** One round of a free pass: slot h is served, or was not eligible when the pass began. */
  ghost predicate FreeRound(w: World, h: nat, w1: World, r: TryResult, lo: int, hi: int, retryMs: int)
    requires h < |w.cache.slots| && S.TableOk(w.rows)
  {
    if r == Requested then Eligible(w, h, hi, retryMs) && Served(w, h, w1, lo, hi)
    else w1 == w && !Eligible(w, h, lo, retryMs)
  }

  lemma TryIsFreeRound(w: World, h: nat, x: Setting, k: nat, lo: int, hi: int)
    requires WorldOk(w) && Quiet(x, lo, hi) && FairPlay(x) && h < |w.cache.slots| && w.cache.slots[h].inUse
    requires w.ready && !w.busy
    ensures var Tried(w1, r) := TryAuto(w, w.cache.slots[h].uuid, x, k);
            FreeRound(w, h, w1, r, lo, hi, x.retryMs)
  {
    TryQuiet(w, h, x, k, lo, hi);
    assert lo <= x.clock(k) <= hi;
  }

  /** Free and ready: the pass requests exactly one device, the first that may be attempted and has a
      recipe, stamps it, and touches nothing else; with no such device it changes nothing. With a clock
      that stands still during the pass (lo == hi) this is exact; otherwise no earlier slot was eligible
      when the pass began. */
  lemma {:induction false} PassWhenFree(w: World, from: nat, x: Setting, k: nat, lo: int, hi: int, w': World)
    returns (i: nat)
    requires WorldOk(w) && Quiet(x, lo, hi) && FairPlay(x) && from <= |w.cache.slots|
    requires w.ready && !w.busy && w' == Pass(w, from, x, k).world
    ensures FreeResult(w, from, w', i, lo, hi, x.retryMs)
    decreases |w.cache.slots| - from
  {
    var h := NextReady(w.cache.slots, from, x.clock(k), x.retryMs);
    i := h;
    ScanSkipsIneligible(w, from, x.clock(k), lo, x.retryMs);
    if h < |w.cache.slots| {
      TryIsFreeRound(w, h, x, k + 1, lo, hi);
      var Tried(w1, r) := TryAuto(w, w.cache.slots[h].uuid, x, k + 1);
      if r != Requested {
        i := PassWhenFree(w1, h + 1, x, k + 6, lo, hi, w');
        FreeCons(w, from, h, w', i, lo, hi, x.retryMs);
      }
    }
  }

  // ---------------------------------------------------------------------------- busy

  ghost predicate StampedIn(before: Slot, after: Slot, lo: int, hi: int) {
    exists t :: lo <= t <= hi && after == before.(lastAttempt := t)
  }

  /** Slot j after a pass from slot `from` on that found the provisioner busy. */
  ghost predicate BusyAt(w: World, from: nat, w': World, j: nat, lo: int, hi: int, retryMs: int)
    requires j < |w.cache.slots| && S.TableOk(w.rows)
  {
    && w'.accepted == w.accepted && |w'.cache.slots| == |w.cache.slots|
    && if j >= from && Eligible(w, j, lo, retryMs) then StampedIn(w.cache.slots[j], w'.cache.slots[j], lo, hi)
    else
      || w'.cache.slots[j] == w.cache.slots[j]
      || (j >= from && Eligible(w, j, hi, retryMs) && StampedIn(w.cache.slots[j], w'.cache.slots[j], lo, hi))
  }

  /** Ready but busy: the pass accepts nothing and stamps the retry-ready slots that have a recipe, and
      only those; exactly so with a clock that stands still (lo == hi), and otherwise every slot eligible
      when the pass began and none that was not eligible when it ended. */
  lemma {:induction false} PassWhenBusy(w: World, from: nat, x: Setting, k: nat, lo: int, hi: int, j: nat, w': World)
    requires WorldOk(w) && Quiet(x, lo, hi) && FairPlay(x) && from <= |w.cache.slots| && j < |w.cache.slots|
    requires w.ready && w.busy && w' == Pass(w, from, x, k).world
    ensures BusyAt(w, from, w', j, lo, hi, x.retryMs)
    decreases |w.cache.slots| - from
  {
    var s := w.cache.slots;
    var h := NextReady(s, from, x.clock(k), x.retryMs);
    ScanSkipsIneligible(w, from, x.clock(k), lo, x.retryMs);
    if h < |s| {
      TryIsBusyRound(w, h, x, k + 1, lo, hi);
      var w1 := TryAuto(w, s[h].uuid, x, k + 1).world;
      PassWhenBusy(w1, h + 1, x, k + 6, lo, hi, j, w');
      BusyCons(w, from, h, w1, w', j, x.clock(k + 1), lo, hi, x.retryMs);
    }
  }

  /** One round of a busy pass: slot h is stamped, or was not eligible when the pass began. */
  ghost predicate BusyRound(w: World, h: nat, w1: World, t: int, lo: int, hi: int, retryMs: int)
    requires h < |w.cache.slots| && S.TableOk(w.rows)
  {
    && w1.rows == w.rows && w1.accepted == w.accepted && w1.ready == w.ready && w1.busy == w.busy
    && |w1.cache.slots| == |w.cache.slots|
    && (|| (w1 == w && !Eligible(w, h, lo, retryMs))
        || (&& Eligible(w, h, hi, retryMs)
            && w1.cache == w.cache.(slots := w.cache.slots[h := w.cache.slots[h].(lastAttempt := t)])))
  }

  lemma TryIsBusyRound(w: World, h: nat, x: Setting, k: nat, lo: int, hi: int)
    requires WorldOk(w) && Quiet(x, lo, hi) && FairPlay(x) && h < |w.cache.slots| && w.cache.slots[h].inUse
    requires w.ready && w.busy
    ensures var Tried(w1, r) := TryAuto(w, w.cache.slots[h].uuid, x, k);
            r != Requested && WorldOk(w1) && BusyRound(w, h, w1, x.clock(k), lo, hi, x.retryMs)
  {
    TryQuiet(w, h, x, k, lo, hi);
    TryKeepsWorld(w, w.cache.slots[h].uuid, x, k);
  }

  lemma BusyCons(w: World, from: nat, h: nat, w1: World, w2: World, j: nat, t: int, lo: int, hi: int, retryMs: int)
    requires WorldOk(w) && WorldOk(w1) && from <= h < |w.cache.slots| && j < |w.cache.slots| && lo <= t <= hi
    requires NoneEligible(w, from, h, lo, retryMs) && BusyRound(w, h, w1, t, lo, hi, retryMs)
    requires BusyAt(w1, h + 1, w2, j, lo, hi, retryMs)
    ensures BusyAt(w, from, w2, j, lo, hi, retryMs)
  {
    if j != h {
      SameEligibility(w, w1, h, j, t, lo, retryMs);
      SameEligibility(w, w1, h, j, t, hi, retryMs);
    }
  }

  /** Stamping one slot does not change whether another is eligible. */
  lemma SameEligibility(w: World, w1: World, h: nat, j: nat, v: int, t: int, retryMs: int)
    requires WorldOk(w) && WorldOk(w1) && h < |w.cache.slots| && j < |w.cache.slots| && j != h
    requires w1.rows == w.rows
    requires w1 == w || w1.cache == w.cache.(slots := w.cache.slots[h := w.cache.slots[h].(lastAttempt := v)])
    ensures w1.cache.slots[j] == w.cache.slots[j]
    ensures Eligible(w1, j, t, retryMs) <==> Eligible(w, j, t, retryMs)
  {
    if w.cache.slots[j].inUse {
      FindsItself(w.cache.slots, j);
      FindsItself(w1.cache.slots, j);
    }
  }

  /** An undisturbed pass at one instant, free and ready: the first eligible slot's device is requested
      with its recipe and stamped; without an eligible slot nothing changes. */
  lemma RetryPassFree(w: World, x: Setting, now: int)
    requires WorldOk(w) && Quiet(x, now, now) && FairPlay(x) && w.ready && !w.busy
    ensures var w', n := Pass(w, 0, x, 0).world, |w.cache.slots|;
            || (NoneEligible(w, 0, n, now, x.retryMs) && w' == w)
            || (exists i :: 0 <= i < n && Eligible(w, i, now, x.retryMs) && NoneEligible(w, 0, i, now, x.retryMs)
                  && w'.accepted == w.accepted + [Request(w.cache.slots[i].uuid, RecipeOf(w, i))]
                  && w'.cache.slots == w.cache.slots[i := w.cache.slots[i].(lastAttempt := now)])
  {
    var i := PassWhenFree(w, 0, x, 0, now, now, Pass(w, 0, x, 0).world);
  }

  /** An undisturbed pass at one instant, ready but busy: exactly the eligible slots are stamped. */
  lemma RetryPassBusy(w: World, x: Setting, now: int, j: nat)
    requires WorldOk(w) && Quiet(x, now, now) && FairPlay(x) && w.ready && w.busy && j < |w.cache.slots|
    ensures var w' := Pass(w, 0, x, 0).world;
            && w'.accepted == w.accepted && |w'.cache.slots| == |w.cache.slots|
            && w'.cache.slots[j] == if Eligible(w, j, now, x.retryMs)
                                    then w.cache.slots[j].(lastAttempt := now) else w.cache.slots[j]
  {
    PassWhenBusy(w, 0, x, 0, now, now, j, Pass(w, 0, x, 0).world);
  }
}
