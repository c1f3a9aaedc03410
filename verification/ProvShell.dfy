/** The shell component: beacon handling, automatic attempts, the retry pass and the scan listing. */
module ProvShell {
  import opened Bytes
  import opened CacheSpec
  import opened CacheMap
  import opened CacheVisible
  import opened DisplaySpec
  import opened Interface
  import opened AutoSpec
  import P = ProvCache
  import D = ScanDisplay
  import S = ScenarioSpec
  import T = ScenarioTable

  /** The provisioner's front door: the ready and busy flags, the latched pair, the binary semaphore that
      wakes the thread, and the requests accepted so far. */
  class RequestPort {
    var ready: bool
    var busy: bool
    var pendingUuid: Uuid
    var pendingRecipe: nat
    var requested: bool
    ghost var accepted: seq<Request>

    constructor ()
      ensures !ready && !busy && !requested && accepted == []
    {
      ready, busy, requested, accepted := false, false, false, [];
      pendingUuid, pendingRecipe := Zeros(16), S.RECIPE_NONE;
    }

    /** provisioner_handler_request_provision_recipe. */
    method RequestProvision(u: Uuid, recipe: nat) returns (err: int)
      modifies this
      ensures ready == old(ready)
      ensures err == if !ready then -19 else if old(busy) then -16 else 0
      ensures busy == (old(busy) || err == 0)
      ensures (pendingUuid, pendingRecipe) == if err == 0 then (u, recipe) else old((pendingUuid, pendingRecipe))
      ensures requested == (old(requested) || err == 0)
      ensures accepted == if err == 0 then old(accepted) + [Request(u, recipe)] else old(accepted)
    {
      if !ready { return ENODEV; }
      if busy { return EBUSY; }
      busy := true;
      pendingUuid := u;
      pendingRecipe := recipe;
      requested := true;
      accepted := accepted + [Request(u, recipe)];
      err := 0;
    }
  }

  class ProvShell {
    const cache: P.ProvCache
    const table: T.ScenarioTable
    const port: RequestPort
    const display: D.ScanDisplay
    const retryMs: int
    var autoEnabled: bool

    ghost predicate Valid()
      reads this, cache, cache.slots, table.rows
    {
      cache.Valid() && S.TableOk(table.rows[..]) && display.cache == cache
    }

    ghost function World(): World
      reads cache, cache.slots, table.rows, port
    {
      AutoSpec.World(cache.State(), table.rows[..], port.ready, port.busy, port.accepted)
    }

    /** This component's calls with nobody else running. */
    ghost function Alone(clock: nat -> int): (x: Setting)
      ensures FairPlay(x) && Still(x)
    {
      Setting(Undisturbed, clock, retryMs)
    }

    constructor (cache: P.ProvCache, table: T.ScenarioTable, port: RequestPort, display: D.ScanDisplay, retryMs: int)
      requires cache.Valid() && S.TableOk(table.rows[..]) && display.cache == cache
      ensures Valid() && !autoEnabled
      ensures this.cache == cache && this.table == table && this.port == port
      ensures this.display == display && this.retryMs == retryMs
    {
      this.cache, this.table, this.port, this.display, this.retryMs := cache, table, port, display, retryMs;
      autoEnabled := false;
    }

    /** auto_try_uuid. */
    method AutoTryUuid(u: Uuid, clock: nat -> int, k: nat) returns (r: TryResult)
      requires Valid()
      modifies cache.slots, port
      ensures Valid()
      ensures Tried(World(), r) == TryAuto(old(World()), u, Alone(clock), k)
    {
      hide CacheSpec.ShouldAutoAttempt, CacheSpec.MarkAttempt, CacheSpec.LookupName, S.LookupRecipeId;
      var now := clock(k);
      var ready := cache.ShouldAutoAttempt(u, now, retryMs);
      if !ready { return NoTry; }
      var stored := cache.LookupName(u, NAME_BUF_SIZE);
      var name := if stored.Some? then Some(CStr(stored.value)) else None;
      var recipe := table.LookupRecipeId(u, name);
      if recipe == S.RECIPE_NONE { return NoTry; }
      var err := port.RequestProvision(u, recipe);
      if err == 0 {
        cache.MarkAttempt(u, now);
        return Requested;
      }
      if err == EBUSY {
        cache.MarkAttempt(u, now);
        return Busy;
      }
      return Error;
    }

    /** One round of the retry loop: the next candidate from `cursor` on, if any, is tried. */
    method RetryRound(cursor: nat, clock: nat -> int, k: nat) returns (next: nat, r: Option<TryResult>)
      requires Valid() && cursor <= cache.slots.Length
      modifies cache.slots, port
      ensures Valid()
      ensures RoundDone(old(World()), cursor, Alone(clock), k, World(), r, next)
    {
      var uuid;
      next, uuid := cache.FindNextAutoCandidate(cursor, clock(k), retryMs);
      if uuid.None? { return next, None; }
      var result := AutoTryUuid(uuid.value, clock, k + 1);
      r := Some(result);
    }

    /** auto_retry_work_handler. */
    method AutoRetryWork(clock: nat -> int)
      requires Valid()
      modifies cache.slots, port
      ensures Valid()
      ensures World() == if autoEnabled then Pass(old(World()), 0, Alone(clock), 0).world else old(World())
    {
      if !autoEnabled { return; }
      ghost var w, x := World(), Alone(clock);
      ghost var end := Pass(w, 0, x, 0).world;
      var cursor: nat, k: nat, more := 0, 0, true;
      while more
        invariant Valid() && w == World() && (more ==> cursor <= cache.slots.Length)
        invariant Continues(w, cursor, x, k, more, end)
        decreases more, cache.slots.Length - cursor
      {
        var next, r := RetryRound(cursor, clock, k);
        PassAdvances(w, cursor, x, k, World(), r, next, end);
        w := World();
        cursor, k, more := next, k + 6, r.Some? && r.value != Requested;
      }
    }

    /** prov_shell_feed_beacon. */
    method FeedBeacon(u: Uuid, clock: nat -> int)
      requires Valid()
      modifies cache, cache.slots, port, display`console
      ensures Valid()
      ensures display.console
              == old(display.console) + Announced(EnsureUuid(old(World()).cache, u), u, display.scanActive)
      ensures var w := old(World());
              var noted := w.(cache := Note(EnsureUuid(w.cache, u), u, display.scanActive));
              WorldOk(noted) && World() == if autoEnabled then TryAuto(noted, u, Alone(clock), 0).world else noted
    {
      cache.EnsureUuid(u);
      display.NoteUuidUpdate(u);
      if !autoEnabled { return; }
      var _ := AutoTryUuid(u, clock, 0);
    }

    /** scan_print_list: on a cache nobody changes meanwhile it prints every visible device, none skipped,
        each under the index that selects it and with its name. */
    method ScanPrintList() returns (lines: seq<Line>)
      requires Valid()
      ensures |lines| == |Visible(cache.slots[..])|
      ensures forall i :: 0 <= i < |lines| ==>
                && lines[i].index == i
                && lines[i].uuid == Visible(cache.slots[..])[i]
                && lines[i].uuid in Abs(cache.slots[..])
                && Abs(cache.slots[..])[lines[i].uuid].name == Some(lines[i].name)
    {
      lines := [];
      var i := 0;
      while true
        invariant i <= |Visible(cache.slots[..])| && |lines| == i
        invariant forall j :: 0 <= j < i ==>
                    && lines[j].index == j
                    && lines[j].uuid == Visible(cache.slots[..])[j]
                    && lines[j].uuid in Abs(cache.slots[..])
                    && Abs(cache.slots[..])[lines[j].uuid].name == Some(lines[j].name)
        decreases |Visible(cache.slots[..])| - i
      {
        var uuid := cache.VisibleUuidByIndex(i);
        if uuid.None? { return; }
        ListedHasName(cache.State(), i, NAME_BUF_SIZE);
        KnownNameReadsMap(cache.State(), uuid.value);
        var name := cache.LookupName(uuid.value, NAME_BUF_SIZE);
        if name.Some? {
          lines := lines + [Line(i, uuid.value, CStr(name.value))];
        }
        i := i + 1;
      }
    }
  }
}
