/** The retry cooldown over whole runs. */
module AutoCooldown {
  import opened Bytes
  import opened CacheSpec
  import opened CacheMap
  import opened AutoSpec
  import S = ScenarioSpec

  /** One thing that happens: a cache call, an automatic attempt at one UUID with whatever other threads do
      between its calls, or any change of the table and the provisioner's flags. */
  datatype Event =
    | Call(op: Op)
    | Try(u: Uuid, x: Setting, k: nat)
    | Elsewhere(rows: seq<S.Row>, ready: bool, busy: bool)

  ghost predicate EventOk(e: Event, retryMs: nat) {
    && (e.Try? ==> FairPlay(e.x) && e.x.retryMs == retryMs && e.x.clock(e.k) > INT64_MIN)
    && (e.Elsewhere? ==> S.TableOk(e.rows))
  }

  /** The time an attempt reads before its first call. */
  function Time(e: Event): int
    requires e.Try?
  {
    e.x.clock(e.k)
  }

  /** While the attempt runs, no other thread stamps v or drops its record. */
  ghost predicate Spares(x: Setting, v: Uuid) {
    forall k: nat, w: World {:trigger x.others(k, w)} :: WorldOk(w) && v in Abs(w.cache.slots) ==>
      v in Abs(x.others(k, w).cache.slots) && Stamp(x.others(k, w), v) == Stamp(w, v)
  }

  /** The event stamps v as an attempt of its own that nobody disturbs, or not at all. */
  ghost predicate Orderly(e: Event, v: Uuid) {
    && (e.Call? ==> !(e.op.Attempt? && e.op.u == v))
    && (e.Try? ==> Spares(e.x, v))
  }

  ghost function Stamp(w: World, v: Uuid): int {
    if v in Abs(w.cache.slots) then Abs(w.cache.slots)[v].lastAttempt else INT64_MIN
  }

  ghost function Next(w: World, e: Event, retryMs: nat): (v: World)
    requires WorldOk(w) && EventOk(e, retryMs)
    ensures WorldOk(v)
  {
    match e
    case Call(op) => KeepsGood(w.cache, op); w.(cache := Apply(w.cache, op))
    case Try(u, x, k) => TryKeepsWorld(w, u, x, k); TryAuto(w, u, x, k).world
    case Elsewhere(rows, ready, busy) => w.(rows := rows, ready := ready, busy := busy)
  }

  /** The attempt got as far as the provisioner: it returned 0 or -EBUSY. */
  ghost predicate Counts(w: World, e: Event, retryMs: nat)
    requires WorldOk(w) && EventOk(e, retryMs)
  {
    e.Try? && TryAuto(w, e.u, e.x, e.k).result in {Requested, Busy}
  }

  ghost predicate AllOk(events: seq<Event>, retryMs: nat) {
    forall i :: 0 <= i < |events| ==> EventOk(events[i], retryMs)
  }

  ghost function Run(w: World, events: seq<Event>, retryMs: nat): (v: World)
    requires WorldOk(w) && AllOk(events, retryMs)
    ensures WorldOk(v)
    decreases |events|
  {
    if events == [] then w else Run(Next(w, events[0], retryMs), events[1..], retryMs)
  }

  /** The UUID's record is there at every point of the run. */
  ghost predicate Kept(w: World, events: seq<Event>, retryMs: nat, u: Uuid)
    requires WorldOk(w) && AllOk(events, retryMs)
    decreases |events|
  {
    u in Abs(w.cache.slots)
    && (events != [] ==> Kept(Next(w, events[0], retryMs), events[1..], retryMs, u))
  }

  // ---------------------------------------------------------------------------- stamps

  /** No cache call but a stamping of v moves v's stamp while its record stays. */
  lemma StampKept(m: map<Uuid, Device>, op: Op, victim: Option<Uuid>, v: Uuid)
    requires op.Attempt? ==> op.u != v
    requires v in m && v in Step(m, op, victim)
    ensures Step(m, op, victim)[v].lastAttempt == m[v].lastAttempt
  {
  }

  lemma CallKeepsStamp(w: World, op: Op, v: Uuid, retryMs: nat)
    requires WorldOk(w) && (op.Attempt? ==> op.u != v)
    requires v in Abs(w.cache.slots) && v in Abs(Next(w, Call(op), retryMs).cache.slots)
    ensures Stamp(Next(w, Call(op), retryMs), v) == Stamp(w, v)
  {
    Refines(w.cache, op);
    StampKept(Abs(w.cache.slots), op, Victim(w.cache, op), v);
  }

  lemma AttemptStamps(w: World, u: Uuid, now: int, v: Uuid)
    requires WorldOk(w) && v in Abs(w.cache.slots)
    ensures var d := w.(cache := MarkAttempt(w.cache, u, now));
            v in Abs(d.cache.slots) && Stamp(d, v) == if u == v then now else Stamp(w, v)
  {
    Refines(w.cache, Attempt(u, now));
  }

  /** Until it writes its stamp an attempt leaves all stamps alone. */
  lemma ChooseKeepsStamp(w: World, u: Uuid, x: Setting, k: nat, v: Uuid)
    requires WorldOk(w) && FairPlay(x) && Spares(x, v) && v in Abs(w.cache.slots)
    ensures var c := Choose(w, u, x, k);
            WorldOk(c.world) && v in Abs(c.world.cache.slots) && Stamp(c.world, v) == Stamp(w, v)
  {
    var w0 := x.others(k, w);
    var w1 := x.others(k + 1, w0);
  }

  /** An attempt goes on only after the cooldown. */
  lemma ChooseIsCool(w: World, u: Uuid, x: Setting, k: nat)
    requires WorldOk(w) && FairPlay(x) && Spares(x, u) && Choose(w, u, x, k).recipe != S.RECIPE_NONE
    ensures WorldOk(Choose(w, u, x, k).world) && u in Abs(Choose(w, u, x, k).world.cache.slots)
    ensures u in Abs(w.cache.slots) ==> Stamp(w, u) == INT64_MIN || x.clock(k) - Stamp(w, u) >= x.retryMs
  {
    var w0 := x.others(k, w);
    ShouldAttemptReadsMap(w0.cache, u, x.clock(k), x.retryMs);
    var w1 := x.others(k + 1, w0);
  }

  /** From the choice of a recipe on: the stamp is written when the request is accepted or refused as busy. */
  lemma FinishStamps(w: World, u: Uuid, x: Setting, k: nat, v: Uuid, t: Tried, c: Choice)
    requires WorldOk(w) && FairPlay(x) && Spares(x, v) && t == TryAuto(w, u, x, k) && c == Choose(w, u, x, k)
    requires WorldOk(c.world) && v in Abs(c.world.cache.slots)
    ensures v in Abs(t.world.cache.slots)
    ensures Stamp(t.world, v) == if u == v && t.result in {Requested, Busy} then x.clock(k) else Stamp(c.world, v)
  {
    var w3 := RequestProvision(x.others(k + 3, c.world), u, c.recipe).0;
    AttemptStamps(x.others(k + 4, w3), u, x.clock(k), v);
  }

  /** An attempt that counts leaves the time it read as its UUID's stamp, and it counts only after the
      cooldown. */
  lemma CountedStamps(w: World, u: Uuid, x: Setting, k: nat, t: Tried)
    requires WorldOk(w) && FairPlay(x) && Spares(x, u)
    requires t == TryAuto(w, u, x, k) && t.result in {Requested, Busy}
    ensures u in Abs(t.world.cache.slots) && Stamp(t.world, u) == x.clock(k)
    ensures u in Abs(w.cache.slots) ==> Stamp(w, u) == INT64_MIN || x.clock(k) - Stamp(w, u) >= x.retryMs
  {
    ChooseIsCool(w, u, x, k);
    FinishStamps(w, u, x, k, u, t, Choose(w, u, x, k));
  }

  /** An attempt at one UUID moves no other's stamp, and its own only when it counts. */
  lemma OthersKeepStamps(w: World, u: Uuid, x: Setting, k: nat, v: Uuid, t: Tried)
    requires WorldOk(w) && FairPlay(x) && Spares(x, v) && v in Abs(w.cache.slots)
    requires t == TryAuto(w, u, x, k) && !(u == v && t.result in {Requested, Busy})
    ensures v in Abs(t.world.cache.slots) && Stamp(t.world, v) == Stamp(w, v)
  {
    ChooseKeepsStamp(w, u, x, k, v);
    FinishStamps(w, u, x, k, v, t, Choose(w, u, x, k));
  }

  /** A record that stays has a stamp no older than it had. */
  lemma {:induction false} StampOnlyGrows(w: World, events: seq<Event>, retryMs: nat, u: Uuid)
    requires WorldOk(w) && AllOk(events, retryMs) && forall i :: 0 <= i < |events| ==> Orderly(events[i], u)
    requires Kept(w, events, retryMs, u)
    ensures u in Abs(Run(w, events, retryMs).cache.slots)
    ensures Stamp(Run(w, events, retryMs), u) >= Stamp(w, u)
    decreases |events|
  {
    if events == [] {
    } else {
      StampGrows(w, events[0], retryMs, u);
      StampOnlyGrows(Next(w, events[0], retryMs), events[1..], retryMs, u);
    }
  }

  lemma StampGrows(w: World, e: Event, retryMs: nat, u: Uuid)
    requires WorldOk(w) && EventOk(e, retryMs) && Orderly(e, u)
    requires u in Abs(w.cache.slots) && u in Abs(Next(w, e, retryMs).cache.slots)
    ensures Stamp(Next(w, e, retryMs), u) >= Stamp(w, u)
  {
    match e {
      case Call(op) => CallKeepsStamp(w, op, u, retryMs);
      case Try(v, x, k) =>
        var t := TryAuto(w, v, x, k);
        if u == v && t.result in {Requested, Busy} {
          CountedStamps(w, u, x, k, t);
        } else {
          OthersKeepStamps(w, v, x, k, u, t);
        }
      case Elsewhere(_, _, _) =>
    }
  }

  /** Cooldown: two attempts at one UUID that reached the provisioner are at least the retry interval apart,
      whatever else happens before, between and during them, unless the UUID's record was dropped in between
      or another attempt stamped that UUID while one was under way. The clock need not run forward. */
  lemma CooldownHolds(w: World, first: Event, between: seq<Event>, second: Event, retryMs: nat)
    requires WorldOk(w) && EventOk(first, retryMs) && EventOk(second, retryMs) && AllOk(between, retryMs)
    requires Counts(w, first, retryMs) && second.Try? && second.u == first.u
    requires Orderly(first, first.u) && Orderly(second, first.u)
    requires forall i :: 0 <= i < |between| ==> Orderly(between[i], first.u)
    requires var w1 := Next(w, first, retryMs);
             Kept(w1, between, retryMs, first.u) && Counts(Run(w1, between, retryMs), second, retryMs)
    ensures Time(second) - Time(first) >= retryMs
  {
    var u, w1 := first.u, Next(w, first, retryMs);
    CountedStamps(w, u, first.x, first.k, TryAuto(w, u, first.x, first.k));
    StampOnlyGrows(w1, between, retryMs, u);
    var w2 := Run(w1, between, retryMs);
    CountedStamps(w2, u, second.x, second.k, TryAuto(w2, u, second.x, second.k));
  }

  // ---------------------------------------------------------------------------- overlapping attempts

  /** An attempt nobody disturbs. */
  function At(now: int, retryMs: int): (x: Setting) {
    Setting(Undisturbed, (k: nat) => now, retryMs)
  }

  /** Another thread makes a whole attempt at u, at the same time, before call j of this one. */
  ghost function Meanwhile(u: Uuid, now: int, retryMs: int, j: nat): Setting {
    Setting((k: nat, w: World) => if k == j && WorldOk(w) then TryAuto(w, u, At(now, retryMs), 0).world else w,
            (k: nat) => now, retryMs)
  }

  lemma MeanwhileIsFair(u: Uuid, now: int, retryMs: int, j: nat)
    ensures FairPlay(Meanwhile(u, now, retryMs, j))
  {
    var x := Meanwhile(u, now, retryMs, j);
    forall k: nat, w: World | WorldOk(w)
      ensures WorldOk(x.others(k, w)) && |x.others(k, w).cache.slots| == |w.cache.slots|
    {
      TryKeepsWorld(w, u, At(now, retryMs), 0);
    }
  }

  /** Stamping an attempt renames nobody. */
  lemma AttemptKeepsName(c: Cache, u: Uuid, now: int)
    ensures KnownName(MarkAttempt(c, u, now), u) == KnownName(c, u)
  {
    var i, d := Find(c.slots, ByUuid(u)), MarkAttempt(c, u, now);
    assert i < |c.slots| ==> Has(d.slots[i], ByUuid(u));
    var j := Find(d.slots, ByUuid(u));
    assert j < |c.slots| ==> Has(c.slots[j], ByUuid(u));
  }

  function RecipeFor(w: World, u: Uuid): nat
    requires S.TableOk(w.rows)
  {
    S.LookupRecipeId(w.rows, u, KnownName(w.cache, u))
  }

  /** What an undisturbed attempt that counts finds, and what it leaves. */
  lemma CountsAlone(w: World, u: Uuid, now: int, retryMs: nat)
    requires WorldOk(w) && TryAuto(w, u, At(now, retryMs), 0).result in {Requested, Busy}
    ensures ShouldAutoAttempt(w.cache, u, now, retryMs) && RecipeFor(w, u) != S.RECIPE_NONE && w.ready
    ensures var v := TryAuto(w, u, At(now, retryMs), 0).world;
            && v.cache == MarkAttempt(w.cache, u, now) && v.rows == w.rows && v.ready && v.busy
            && WorldOk(v) && RecipeFor(v, u) == RecipeFor(w, u)
  {
    AttemptKeepsName(w.cache, u, now);
    TryKeepsWorld(w, u, At(now, retryMs), 0);
  }

  /** The state in which the other attempt is made: the one this attempt found, or the one its request left. */
  function Meeting(w: World, u: Uuid, j: nat): World
    requires S.TableOk(w.rows)
  {
    if j <= 3 then w else RequestProvision(w, u, RecipeFor(w, u)).0
  }

  /** When the other attempt comes before the test, this one finds its stamp. */
  lemma BeforeTheTest(w: World, u: Uuid, now: int, retryMs: nat, k: nat)
    requires WorldOk(w) && TryAuto(w, u, At(now, retryMs), 0).result in {Requested, Busy}
    requires retryMs > 0 && now > INT64_MIN
    ensures FairPlay(Meanwhile(u, now, retryMs, k)) && TryAuto(w, u, Meanwhile(u, now, retryMs, k), k).result == NoTry
  {
    MeanwhileIsFair(u, now, retryMs, k);
    var t := TryAuto(w, u, At(now, retryMs), 0);
    CountedStamps(w, u, At(now, retryMs), 0, t);
    TryKeepsWorld(w, u, At(now, retryMs), 0);
    ShouldAttemptReadsMap(t.world.cache, u, now, retryMs);
  }

  /** The other attempt, coming after the test, does not change what this one chooses. */
  lemma ChoiceMeanwhile(w: World, u: Uuid, now: int, retryMs: nat, k: nat, j: nat, v: World)
    requires WorldOk(w) && WorldOk(v) && 1 <= j <= 4 && FairPlay(Meanwhile(u, now, retryMs, k + j))
    requires ShouldAutoAttempt(w.cache, u, now, retryMs) && v == TryAuto(w, u, At(now, retryMs), 0).world
    requires v.rows == w.rows && KnownName(v.cache, u) == KnownName(w.cache, u)
    ensures Choose(w, u, Meanwhile(u, now, retryMs, k + j), k) == Choice(if j <= 2 then v else w, RecipeFor(w, u))
  {
    var x := Meanwhile(u, now, retryMs, k + j);
    assert x.others(k, w) == w;
    assert x.others(k + 1, w) == if j == 1 then v else w;
    assert x.others(k + 2, if j == 1 then v else w) == if j <= 2 then v else w;
  }

  /** Once a recipe is chosen, the answer depends on the flags that the request finds. */
  lemma AnswerOf(w: World, u: Uuid, x: Setting, k: nat, v: World)
    requires WorldOk(w) && FairPlay(x) && Choose(w, u, x, k).recipe != S.RECIPE_NONE
    requires v == x.others(k + 3, Choose(w, u, x, k).world) && v.ready
    ensures TryAuto(w, u, x, k).result == if v.busy then Busy else Requested
  {
    hide Choose;
  }

  /** When it comes after the test and before the request, this one finds the provisioner busy. */
  lemma BeforeTheRequest(w: World, u: Uuid, now: int, retryMs: nat, k: nat, j: nat)
    requires WorldOk(w) && TryAuto(w, u, At(now, retryMs), 0).result in {Requested, Busy} && 1 <= j <= 3
    ensures FairPlay(Meanwhile(u, now, retryMs, k + j))
    ensures TryAuto(w, u, Meanwhile(u, now, retryMs, k + j), k).result == Busy
  {
    hide TryAuto;
    var x, v := Meanwhile(u, now, retryMs, k + j), TryAuto(w, u, At(now, retryMs), 0).world;
    MeanwhileIsFair(u, now, retryMs, k + j);
    CountsAlone(w, u, now, retryMs);
    AttemptKeepsName(w.cache, u, now);
    ChoiceMeanwhile(w, u, now, retryMs, k, j, v);
    assert x.others(k + 3, if j <= 2 then v else w) == v;
    AnswerOf(w, u, x, k, v);
  }

  /** When it comes after the request, it finds the provisioner busy itself. */
  lemma BeforeTheStamp(w: World, u: Uuid, now: int, retryMs: nat, k: nat)
    requires WorldOk(w) && TryAuto(w, u, At(now, retryMs), 0).result in {Requested, Busy}
    ensures FairPlay(Meanwhile(u, now, retryMs, k + 4))
    ensures TryAuto(w, u, Meanwhile(u, now, retryMs, k + 4), k).result in {Requested, Busy}
  {
    hide TryAuto;
    var x, v := Meanwhile(u, now, retryMs, k + 4), TryAuto(w, u, At(now, retryMs), 0).world;
    MeanwhileIsFair(u, now, retryMs, k + 4);
    CountsAlone(w, u, now, retryMs);
    AttemptKeepsName(w.cache, u, now);
    ChoiceMeanwhile(w, u, now, retryMs, k, 4, v);
    assert x.others(k + 3, w) == w;
    AnswerOf(w, u, x, k, w);
  }

  /** The other attempt counts too, at whichever point it comes. */
  lemma OtherCounts(w: World, u: Uuid, now: int, retryMs: nat, j: nat)
    requires WorldOk(w) && TryAuto(w, u, At(now, retryMs), 0).result in {Requested, Busy}
    ensures WorldOk(Meeting(w, u, j)) && TryAuto(Meeting(w, u, j), u, At(now, retryMs), 0).result in {Requested, Busy}
  {
    if j > 3 { CountsAlone(w, u, now, retryMs); }
  }

  /** Both attempts return 0 or -EBUSY. */
  ghost predicate BothCount(w: World, u: Uuid, now: int, retryMs: nat, k: nat, j: nat)
    requires WorldOk(w) && FairPlay(Meanwhile(u, now, retryMs, k + j)) && WorldOk(Meeting(w, u, j))
  {
    && TryAuto(w, u, Meanwhile(u, now, retryMs, k + j), k).result in {Requested, Busy}
    && TryAuto(Meeting(w, u, j), u, At(now, retryMs), 0).result in {Requested, Busy}
  }

  /** Without that condition the cooldown does not hold. From any state in which an attempt would count, let
      another thread attempt the same UUID at the same time, before the j-th of its five calls: both count,
      no time apart, exactly when the other falls between this one's test and its stamp. */
  lemma OverlappingAttemptsBothCount(w: World, u: Uuid, now: int, retryMs: nat, k: nat, j: nat)
    requires WorldOk(w) && TryAuto(w, u, At(now, retryMs), 0).result in {Requested, Busy}
    requires retryMs > 0 && now > INT64_MIN && j <= 4
    ensures var x, m := Meanwhile(u, now, retryMs, k + j), Meeting(w, u, j);
            && FairPlay(x) && x.clock(k) == now && WorldOk(m)
            && x.others(k + j, m) == TryAuto(m, u, At(now, retryMs), 0).world
    ensures BothCount(w, u, now, retryMs, k, j) <==> 1 <= j
  {
    hide TryAuto; // the cases say what the attempts do
    MeanwhileIsFair(u, now, retryMs, k + j);
    OtherCounts(w, u, now, retryMs, j);
    if j == 0 {
      BeforeTheTest(w, u, now, retryMs, k);
    } else if j <= 3 {
      BeforeTheRequest(w, u, now, retryMs, k, j);
    } else {
      BeforeTheStamp(w, u, now, retryMs, k);
    }
  }
}
