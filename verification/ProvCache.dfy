/** The discovery cache as the program keeps it: one array of slots and one cursor, updated in place
    by scanning loops. Each method's effect is the function of the same name in CacheSpec. */
module ProvCache {
  import opened Bytes
  import opened CacheSpec
  import opened Modular
  import CacheMap

  lemma FindUnique(s: seq<Slot>, k: Key, i: nat)
    requires i <= |s|
    requires i < |s| ==> Has(s[i], k)
    requires forall j :: 0 <= j < i ==> !Has(s[j], k)
    ensures Find(s, k) == i
  {
    var f := Find(s, k);
    assert f < |s| ==> Has(s[f], k);
  }

  /** evict_match. */
  predicate EvictMatch(e: Slot, pass: nat) {
    match pass
    case 0 => !e.visible && !e.haveName
    case 1 => !e.visible
    case 2 => true
    case _ => false
  }

  class ProvCache {
    const slots: array<Slot>
    var cursor: nat

    ghost predicate Valid()
      reads this, slots
    {
      cursor < slots.Length && Inv(slots[..])
    }

    function State(): Cache
      reads this, slots
    {
      Cache(slots[..], cursor)
    }

    constructor (capacity: nat)
      requires 0 < capacity
      ensures Valid() && fresh(slots)
      ensures State() == Boot(capacity)
    {
      slots := new Slot[capacity](_ => CLEARED.(lastAttempt := 0));
      cursor := 0;
      new;
      assert slots[..] == Boot(capacity).slots;
      assert CLEARED.name[0] == 0;
    }

    method FindByAddr(a: Addr) returns (i: nat)
      ensures i == Find(slots[..], ByAddr(a))
    {
      i := 0;
      while i < slots.Length
        invariant i <= slots.Length
        invariant forall j :: 0 <= j < i ==> !Has(slots[j], ByAddr(a))
      {
        if slots[i].inUse && slots[i].haveAddr && slots[i].addr == a { break; }
        i := i + 1;
      }
      FindUnique(slots[..], ByAddr(a), i);
    }

    method FindByUuid(u: Uuid) returns (i: nat)
      ensures i == Find(slots[..], ByUuid(u))
    {
      i := 0;
      while i < slots.Length
        invariant i <= slots.Length
        invariant forall j :: 0 <= j < i ==> !Has(slots[j], ByUuid(u))
      {
        if slots[i].inUse && slots[i].haveUuid && slots[i].uuid == u { break; }
        i := i + 1;
      }
      FindUnique(slots[..], ByUuid(u), i);
    }

    /** entry_clear, then the slot is in use. */
    method TakeSlot(i: nat)
      requires i < slots.Length
      modifies slots
      ensures slots[..] == old(slots[..])[i := FRESH]
    {
      slots[i] := CLEARED;
      slots[i] := slots[i].(inUse := true);
    }

    /** A free slot, or else the one the clock evicts; never None. */
    method AllocEntry() returns (r: Option<nat>)
      requires cursor < slots.Length
      modifies this, slots
      ensures r == Some(AllocIndex(old(State())))
      ensures State() == Alloc(old(State()))
    {
      var i := 0;
      while i < slots.Length
        invariant i <= slots.Length
        invariant State() == old(State())
        invariant forall j :: 0 <= j < i ==> slots[j].inUse
      {
        if !slots[i].inUse {
          FindUnique(slots[..], Free, i);
          TakeSlot(i);
          return Some(i);
        }
        i := i + 1;
      }
      FindUnique(slots[..], Free, slots.Length);
      r := EvictEntry();
    }

    /** Clock eviction in three passes over the slots, cheapest class first. */
    method EvictEntry() returns (r: Option<nat>)
      requires cursor < slots.Length && Find(slots[..], Free) == slots.Length
      modifies this, slots
      ensures r == Some(AllocIndex(old(State())))
      ensures State() == Alloc(old(State()))
    {
      r := None;
      var pass := 0;
      while pass < 3
        invariant pass <= 3
        invariant State() == old(State())
        invariant AtLeast(State(), pass)
      {
        r := EvictPass(pass);
        if r.Some? { return; }
        pass := pass + 1;
      }
    }

    /** One pass around the ring from the cursor: evicts the first slot it matches. */
    method EvictPass(pass: nat) returns (r: Option<nat>)
      requires cursor < slots.Length && Find(slots[..], Free) == slots.Length && pass < 3
      requires AtLeast(State(), pass)
      modifies this, slots
      ensures r.Some? ==> r == Some(AllocIndex(old(State()))) && State() == Alloc(old(State()))
      ensures r.None? ==> State() == old(State()) && AtLeast(State(), pass + 1)
    {
      ghost var c := State();
      var offset := 0;
      while offset < slots.Length
        invariant offset <= slots.Length
        invariant State() == c && PassedBy(c, pass, offset)
      {
        var idx := (cursor + offset) % slots.Length;
        ForwardIsMod(slots.Length, cursor, offset);
        RingForward(slots.Length, cursor, offset);
        if EvictMatch(slots[idx], pass) {
          FirstMatchIsBest(c, pass, idx);
          assert !Has(c.slots[idx], Free);
          cursor := (idx + 1) % slots.Length;
          TakeSlot(idx);
          return Some(idx);
        }
        PassBy(c, pass, offset, idx);
        offset := offset + 1;
      }
      PassedAll(c, pass);
      r := None;
    }

    /** The number of visible slots before the given one; of all of them when that one is not visible. */
    method VisibleIndex(needle: nat) returns (idx: nat)
      requires needle < slots.Length
      ensures var before := if slots[needle].inUse && slots[needle].visible then needle else slots.Length;
              idx == |Visible(slots[..before])|
    {
      idx := 0;
      for i := 0 to slots.Length
        invariant i > needle ==> !(slots[needle].inUse && slots[needle].visible)
        invariant idx == |Visible(slots[..i])|
      {
        assert slots[..i + 1][..i] == slots[..i];
        if slots[i].inUse && slots[i].visible {
          if i == needle { return; }
          idx := idx + 1;
        }
      }
    }

    /** The merge branch of AdvUuidSeen: the address's record is folded into the UUID's and freed. */
    method MergeRecords(ia: nat, iu: nat)
      requires ia < slots.Length && iu < slots.Length && ia != iu
      modifies slots
      ensures slots[..] == old(slots[..])[ia := CLEARED][iu := Merge(old(slots[iu]), old(slots[ia]))]
    {
      if !slots[iu].haveName && slots[ia].haveName {
        slots[iu] := slots[iu].(name := slots[ia].name, haveName := true);
      }
      if slots[ia].visible {
        slots[iu] := slots[iu].(visible := true);
      }
      slots[ia] := CLEARED;
    }

    method AdvUuidSeen(a: Addr, u: Uuid)
      requires Valid()
      modifies this, slots
      ensures Valid()
      ensures State() == CacheSpec.AdvUuidSeen(old(State()), a, u)
    {
      AdvStaysGood(State(), a, u);
      var ia := FindByAddr(a);
      var iu := FindByUuid(u);
      var entry: nat;
      if ia < slots.Length && iu < slots.Length && ia != iu {
        MergeRecords(ia, iu);
        entry := iu;
      } else if iu < slots.Length {
        entry := iu;
      } else if ia < slots.Length {
        entry := ia;
        if slots[ia].haveUuid && slots[ia].uuid != u {
          TakeSlot(ia);
        }
      } else {
        var r := AllocEntry();
        entry := r.value;
      }
      ghost var base := slots[..];
      slots[entry] := slots[entry].(addr := a, uuid := u, haveAddr := true, haveUuid := true);
      assert slots[..] == base[entry := Claim(base[entry], a, u)];
      assert slots[..] == CacheSpec.AdvUuidSeen(old(State()), a, u).slots;
    }

    method ScanRspNameSeen(a: Addr, data: seq<Byte>) returns (owner: Option<Uuid>)
      requires Valid()
      modifies slots
      ensures Valid()
      ensures State() == CacheSpec.ScanRspNameSeen(old(State()), a, data)
      ensures var i := Find(old(slots[..]), ByAddr(a));
              owner == if i < slots.Length && old(slots[..])[i].haveUuid then Some(old(slots[..])[i].uuid) else None
    {
      CacheMap.Refines(State(), Name(a, data));
      var i := FindByAddr(a);
      owner := None;
      if i < slots.Length {
        slots[i] := slots[i].(name := NameSet(slots[i].name, data), haveName := true);
        if slots[i].haveUuid {
          owner := Some(slots[i].uuid);
        }
      }
      assert slots[..] == CacheSpec.ScanRspNameSeen(old(State()), a, data).slots;
    }

    method EnsureUuid(u: Uuid)
      requires Valid()
      modifies this, slots
      ensures Valid()
      ensures State() == CacheSpec.EnsureUuid(old(State()), u)
    {
      CacheMap.Refines(State(), Ensure(u));
      var i := FindByUuid(u);
      if i == slots.Length {
        var r := AllocEntry();
        i := r.value;
        slots[i] := slots[i].(uuid := u, haveUuid := true);
        assert slots[..] == CacheSpec.EnsureUuid(old(State()), u).slots;
      }
    }

    method LookupName(u: Uuid, size: nat) returns (name: Option<seq<Byte>>)
      ensures name == CacheSpec.LookupName(State(), u, size)
    {
      if size == 0 { return None; }
      var i := FindByUuid(u);
      if i < slots.Length && slots[i].haveName {
        name := Some(CopyOut(slots[i].name, size));
      } else {
        name := None;
      }
    }

    method MaybeMarkVisible(u: Uuid) returns (index: Option<nat>)
      requires Valid()
      modifies slots
      ensures Valid()
      ensures State() == CacheSpec.MaybeMarkVisible(old(State()), u)
      ensures index == if CanMark(old(State()), u)
                       then Some(|Visible(slots[..Find(slots[..], ByUuid(u))])|) else None
    {
      CacheMap.Refines(State(), Mark(u));
      var i := FindByUuid(u);
      index := None;
      if i < slots.Length && slots[i].haveName && !slots[i].visible {
        slots[i] := slots[i].(visible := true);
        assert slots[..] == CacheSpec.MaybeMarkVisible(old(State()), u).slots;
        FindUnique(slots[..], ByUuid(u), i);
        var idx := VisibleIndex(i);
        index := Some(idx);
      }
    }

    method MarkAllReadyVisible()
      requires Valid()
      modifies slots
      ensures Valid()
      ensures State() == CacheSpec.MarkAllReadyVisible(old(State()))
    {
      CacheMap.Refines(State(), MarkAll);
      for i := 0 to slots.Length
        invariant forall j :: 0 <= j < i ==> slots[j] == MarkReady(old(slots[..])[j])
        invariant forall j :: i <= j < slots.Length ==> slots[j] == old(slots[..])[j]
      {
        if slots[i].inUse && slots[i].haveUuid && slots[i].haveName {
          slots[i] := slots[i].(visible := true);
        }
      }
      assert slots[..] == CacheSpec.MarkAllReadyVisible(old(State())).slots;
    }

    method VisibleCount() returns (count: nat)
      ensures count == |Visible(slots[..])|
    {
      count := 0;
      for i := 0 to slots.Length
        invariant count == |Visible(slots[..i])|
      {
        assert slots[..i + 1][..i] == slots[..i];
        if slots[i].inUse && slots[i].visible {
          count := count + 1;
        }
      }
      assert slots[..slots.Length] == slots[..];
    }

    method VisibleUuidByIndex(idx: nat) returns (uuid: Option<Uuid>)
      ensures uuid == if idx < |Visible(slots[..])| then Some(Visible(slots[..])[idx]) else None
    {
      var seen := 0;
      for i := 0 to slots.Length
        invariant seen == |Visible(slots[..i])| <= idx
      {
        assert slots[..i + 1][..i] == slots[..i];
        if slots[i].inUse && slots[i].visible {
          if seen == idx {
            VisiblePrefix(slots[..], i + 1);
            return Some(slots[i].uuid);
          }
          seen := seen + 1;
        }
      }
      assert slots[..slots.Length] == slots[..];
      return None;
    }

    method ShouldAutoAttempt(u: Uuid, now: int, retryMs: int) returns (yes: bool)
      ensures yes == CacheSpec.ShouldAutoAttempt(State(), u, now, retryMs)
    {
      var i := FindByUuid(u);
      yes := i < slots.Length && RetryReady(slots[i], now, retryMs);
    }

    /** Answers the candidate's UUID and the advanced cursor; the cursor stays put when none is found. */
    method FindNextAutoCandidate(from: nat, now: int, retryMs: int) returns (next: nat, uuid: Option<Uuid>)
      ensures var i := if from <= slots.Length then NextReady(slots[..], from, now, retryMs) else slots.Length;
              if i < slots.Length then next == i + 1 && uuid == Some(slots[i].uuid)
              else next == from && uuid == None
    {
      var i := from;
      while i < slots.Length
        invariant from <= i && (from <= slots.Length ==> i <= slots.Length)
        invariant forall j :: from <= j < i && j < slots.Length ==> !RetryReady(slots[j], now, retryMs)
      {
        if RetryReady(slots[i], now, retryMs) {
          NextReadyIs(slots[..], from, now, retryMs, i);
          return i + 1, Some(slots[i].uuid);
        }
        i := i + 1;
      }
      if from <= slots.Length { NextReadyIs(slots[..], from, now, retryMs, slots.Length); }
      return from, None;
    }

    method MarkAttempt(u: Uuid, now: int)
      requires Valid()
      modifies slots
      ensures Valid()
      ensures State() == CacheSpec.MarkAttempt(old(State()), u, now)
    {
      CacheMap.Refines(State(), Attempt(u, now));
      var i := FindByUuid(u);
      if i < slots.Length {
        slots[i] := slots[i].(lastAttempt := now);
      }
      assert slots[..] == CacheSpec.MarkAttempt(old(State()), u, now).slots;
    }

    method OnConfigurationSuccess(u: Uuid)
      requires Valid()
      modifies slots
      ensures Valid()
      ensures State() == CacheSpec.OnConfigurationSuccess(old(State()), u)
    {
      CacheMap.Refines(State(), Configured(u));
      var i := FindByUuid(u);
      if i < slots.Length {
        slots[i] := CLEARED;
      }
      assert slots[..] == CacheSpec.OnConfigurationSuccess(old(State()), u).slots;
    }
  }

  lemma AdvStaysGood(c: Cache, a: Addr, u: Uuid)
    requires Good(c)
    ensures Good(CacheSpec.AdvUuidSeen(c, a, u))
  {
    CacheMap.Refines(c, Adv(a, u));
  }

  /** No slot is of a class below `lo`. */
  ghost predicate AtLeast(c: Cache, lo: nat) {
    forall j :: 0 <= j < |c.slots| ==> Class(c.slots[j]) >= lo
  }

  lemma PassedAll(c: Cache, pass: nat)
    requires c.cursor < |c.slots| && PassedBy(c, pass, |c.slots|)
    ensures AtLeast(c, pass + 1)
  {
    forall j | 0 <= j < |c.slots| ensures Class(c.slots[j]) >= pass + 1 {
      assert Ring(|c.slots|, c.cursor, j) < |c.slots|;
    }
  }

  /** The pass has gone by the first `offset` slots from the cursor without a match. */
  ghost predicate PassedBy(c: Cache, pass: nat, offset: nat)
    requires c.cursor < |c.slots|
  {
    forall j :: 0 <= j < |c.slots| && Ring(|c.slots|, c.cursor, j) < offset ==> Class(c.slots[j]) > pass
  }

  lemma PassBy(c: Cache, pass: nat, offset: nat, i: nat)
    requires c.cursor < |c.slots| && i < |c.slots| && Ring(|c.slots|, c.cursor, i) == offset
    requires PassedBy(c, pass, offset) && Class(c.slots[i]) >= pass && !EvictMatch(c.slots[i], pass) && pass < 3
    ensures PassedBy(c, pass, offset + 1)
  {
    forall j | 0 <= j < |c.slots| && Ring(|c.slots|, c.cursor, j) < offset + 1 ensures Class(c.slots[j]) > pass {
      if Ring(|c.slots|, c.cursor, j) == offset { assert j == i; }
    }
  }

  /** The first slot from the cursor on that a pass matches, when no earlier pass matched any, is the
      best victim: it beats every other slot. */
  lemma FirstMatchIsBest(c: Cache, pass: nat, i: nat)
    requires c.cursor < |c.slots| && i < |c.slots| && EvictMatch(c.slots[i], pass)
    requires AtLeast(c, pass)
    requires PassedBy(c, pass, Ring(|c.slots|, c.cursor, i))
    ensures Best(c, |c.slots|) == i
  {
    var b := Best(c, |c.slots|);
    assert Class(c.slots[i]) == pass;
    assert !(b != i && Before(c, b, i));
  }

  lemma NextReadyIs(s: seq<Slot>, from: nat, now: int, retryMs: int, i: nat)
    requires from <= i <= |s|
    requires i < |s| ==> RetryReady(s[i], now, retryMs)
    requires forall j :: from <= j < i ==> !RetryReady(s[j], now, retryMs)
    ensures NextReady(s, from, now, retryMs) == i
  {
    var r := NextReady(s, from, now, retryMs);
    assert r < |s| ==> RetryReady(s[r], now, retryMs);
  }

  /** The visible list of a prefix is a prefix of the visible list. */
  lemma {:induction false} VisiblePrefix(s: seq<Slot>, k: nat)
    requires k <= |s|
    ensures Visible(s[..k]) <= Visible(s)
    decreases |s|
  {
    if k == |s| {
      assert s[..k] == s;
    } else {
      VisiblePrefix(s[..|s| - 1], k);
      assert s[..|s| - 1][..k] == s[..k];
    }
  }
}
