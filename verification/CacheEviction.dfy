/** What the eviction clock guarantees: each allocation takes the best slot there is, and the slots
    nobody cares about (unnamed and invisible) are recycled in strict rotation. */
module CacheEviction {
  import opened CacheSpec
  import opened CacheMap
  import opened Modular

  predicate Full(s: seq<Slot>) {
    forall i :: 0 <= i < |s| ==> s[i].inUse
  }

  /** With no slot free, the slot taken beats every other. */
  lemma VictimIsBest(c: Cache, v: nat, j: nat)
    requires c.cursor < |c.slots| && Full(c.slots) && v == AllocIndex(c) && j < |c.slots| && j != v
    ensures Before(c, v, j)
  {
    assert Find(c.slots, Free) == |c.slots|;
  }

  predicate SameKind(e: Slot, f: Slot) {
    e.visible == f.visible && e.haveName == f.haveName
  }

  /** Allocation never fails and takes the first free slot while there is one. Otherwise a visible device
      goes only when every device is visible, a named one only when every one has a name, and among devices
      alike in both the cyclically first from the cursor. The cursor moves only past an evicted slot. */
  lemma EvictionIsOptimal(c: Cache, op: Op)
    requires Good(c) && Allocates(c, op)
    ensures var s, v, n := c.slots, AllocIndex(c), |c.slots|;
            && (Victim(c, op).Some? <==> Full(s))
            && (!Full(s) ==> !s[v].inUse && (forall j :: 0 <= j < v ==> s[j].inUse) && Apply(c, op).cursor == c.cursor)
            && (Full(s) ==>
                  && (s[v].visible ==> forall j :: 0 <= j < n ==> s[j].visible)
                  && (s[v].haveName ==> forall j :: 0 <= j < n ==> s[j].haveName)
                  && (forall j :: 0 <= j < n && j != v && SameKind(s[j], s[v]) ==>
                        Ring(n, c.cursor, v) < Ring(n, c.cursor, j))
                  && Apply(c, op).cursor == (v + 1) % n)
    ensures var v := AllocIndex(c);
            forall j :: 0 <= j < |c.slots| && j != v ==> Apply(c, op).slots[j] == c.slots[j]
  {
    var s, v, n := c.slots, AllocIndex(c), |c.slots|;
    AllocWrites(c, op);
    if Full(s) {
      forall j | 0 <= j < n && j != v
        ensures s[v].visible ==> s[j].visible
        ensures s[v].haveName ==> s[j].haveName
        ensures SameKind(s[j], s[v]) ==> Ring(n, c.cursor, v) < Ring(n, c.cursor, j)
      {
        VictimIsBest(c, v, j);
        assert SlotOk(s[j]);
      }
    } else {
      var f :| 0 <= f < n && !s[f].inUse;
      assert Has(s[f], Free);
      forall j | 0 <= j < v ensures s[j].inUse { assert !Has(s[j], Free); }
    }
  }

  // ---------------------------------------------------------------------------- fairness

  /** The slots that are both unnamed and invisible. */
  ghost function Idle(s: seq<Slot>): set<nat> {
    set i: nat | i < |s| && !s[i].haveName && !s[i].visible
  }

  /** Of a set of slots, those at least d steps ahead of `from`. */
  ghost function Ahead(z: set<nat>, n: nat, from: nat, d: nat): set<nat>
    requires from < n
  {
    set i | i in z && i < n && Ring(n, from, i) >= d
  }

  /** Every call of the run allocates. */
  predicate AllAllocate(c: Cache, ops: seq<Op>)
    requires c.cursor < |c.slots|
    decreases |ops|
  {
    ops != [] ==> Allocates(c, ops[0]) && AllAllocate(Apply(c, ops[0]), ops[1..])
  }

  /** The slots the run's allocations take, in order. */
  function Picks(c: Cache, ops: seq<Op>): (p: seq<nat>)
    requires c.cursor < |c.slots|
    ensures |p| == |ops|
    decreases |ops|
  {
    if ops == [] then [] else [AllocIndex(c)] + Picks(Apply(c, ops[0]), ops[1..])
  }

  /** The member of z nearest to the position d steps on is the first one not yet passed. */
  lemma NearestAhead(n: nat, z: set<nat>, from: nat, d: nat, v: nat)
    requires from < n && d < n && (forall i :: i in z ==> i < n)
    requires Ahead(z, n, from, d) != {}
    requires v in z && forall j :: j in z && j != v ==>
               Ring(n, Forward(n, from, d), v) < Ring(n, Forward(n, from, d), j)
    ensures v in Ahead(z, n, from, d)
    ensures Ahead(z, n, from, Ring(n, from, v) + 1) == Ahead(z, n, from, d) - {v}
    ensures Forward(n, v, 1) == Forward(n, from, Ring(n, from, v) + 1)
  {
    var w :| w in Ahead(z, n, from, d);
    assert Ring(n, from, v) >= d;
    forall i | i in z && i != v ensures Ring(n, from, i) >= d <==> Ring(n, from, i) > Ring(n, from, v) {
      assert Ring(n, Forward(n, from, d), v) < Ring(n, Forward(n, from, d), i);
    }
  }

  /** One allocation on a full cache with idle slots recycles an idle slot and keeps it idle. */
  lemma AllocRecyclesIdle(c: Cache, op: Op)
    requires Good(c) && Full(c.slots) && Allocates(c, op) && Idle(c.slots) != {}
    ensures var d, v := Apply(c, op), AllocIndex(c);
            && Good(d) && Full(d.slots) && Idle(d.slots) == Idle(c.slots)
            && v in Idle(c.slots)
            && d.cursor == Forward(|c.slots|, v, 1)
            && (forall j :: 0 <= j < |c.slots| && j != v ==> d.slots[j] == c.slots[j])
            && (forall j :: j in Idle(c.slots) && j != v ==>
                  Ring(|c.slots|, c.cursor, v) < Ring(|c.slots|, c.cursor, j))
  {
    AllocWrites(c, op);
    KeepsGood(c, op);
    var z :| z in Idle(c.slots);
    var v := AllocIndex(c);
    if v != z { VictimIsBest(c, v, z); }
    forall j | j in Idle(c.slots) && j != v ensures Ring(|c.slots|, c.cursor, v) < Ring(|c.slots|, c.cursor, j) {
      VictimIsBest(c, v, j);
    }
    ForwardIsMod(|c.slots|, v, 1);
  }

  /** p lists the set z, each member once. */
  ghost predicate Enumerates(p: seq<nat>, z: set<nat>) {
    && (forall i :: i in p <==> i in z)
    && (forall i, j :: 0 <= i < j < |p| ==> p[i] != p[j])
  }

  lemma EnumeratesCons(v: nat, q: seq<nat>, z: set<nat>)
    requires v in z && Enumerates(q, z - {v})
    ensures Enumerates([v] + q, z)
  {
    assert v !in q;
  }

  /** A full cache whose cursor is d steps past `from` with the slots of `ahead` still to come. */
  ghost predicate Turning(c: Cache, z: set<nat>, from: nat, d: nat, ahead: set<nat>) {
    && Good(c) && Full(c.slots) && z == Idle(c.slots)
    && from < |c.slots| && d <= |c.slots| && c.cursor == Forward(|c.slots|, from, d)
    && ahead == Ahead(z, |c.slots|, from, d)
  }

  /** One allocation takes the next of the slots ahead and leaves the others ahead. */
  lemma Round(c: Cache, op: Op, z: set<nat>, from: nat, d: nat, ahead: set<nat>, v: nat)
    requires Turning(c, z, from, d, ahead) && ahead != {}
    requires Allocates(c, op) && v == AllocIndex(c)
    ensures v in ahead
    ensures Turning(Apply(c, op), z, from, Ring(|c.slots|, from, v) + 1, ahead - {v})
  {
    AllocRecyclesIdle(c, op);
    NearestAhead(|c.slots|, z, from, d, v);
  }

  lemma {:induction false} Rotation(c: Cache, ops: seq<Op>, z: set<nat>, from: nat, d: nat,
                                    ahead: set<nat>, p: seq<nat>)
    requires Turning(c, z, from, d, ahead) && AllAllocate(c, ops)
    requires |ahead| == |ops| && p == Picks(c, ops)
    ensures Enumerates(p, ahead)
    decreases |ops|
  {
    if ops == [] {
      assert p == [];
    } else {
      var v, e := AllocIndex(c), Apply(c, ops[0]);
      Round(c, ops[0], z, from, d, ahead, v);
      Rotation(e, ops[1..], z, from, Ring(|c.slots|, from, v) + 1, ahead - {v}, Picks(e, ops[1..]));
      EnumeratesCons(v, Picks(e, ops[1..]), ahead);
    }
  }

  /** As long as there is an idle slot, allocations leave every other slot alone. */
  lemma {:induction false} RotationSpares(c: Cache, ops: seq<Op>, z: set<nat>, end: Cache)
    requires Good(c) && Full(c.slots) && AllAllocate(c, ops) && z == Idle(c.slots) != {}
    requires end == Run(c, ops)
    ensures Idle(end.slots) == z && |end.slots| == |c.slots|
    ensures forall j :: 0 <= j < |c.slots| && j !in z ==> end.slots[j] == c.slots[j]
    decreases |ops|
  {
    if ops == [] {
    } else {
      AllocRecyclesIdle(c, ops[0]);
      RotationSpares(Apply(c, ops[0]), ops[1..], z, end);
    }
  }

  /** Clock fairness: on a full cache with k >= 1 idle slots, the next k allocations take each of those
      slots exactly once, whatever UUIDs they store; the idle slots stay the same slots, and no named
      or visible slot is touched. */
  lemma ClockFairness(c: Cache, ops: seq<Op>)
    requires Good(c) && Full(c.slots) && AllAllocate(c, ops)
    requires |ops| == |Idle(c.slots)| >= 1
    ensures Enumerates(Picks(c, ops), Idle(c.slots))
    ensures Idle(Run(c, ops).slots) == Idle(c.slots)
    ensures forall j :: 0 <= j < |c.slots| && (c.slots[j].haveName || c.slots[j].visible) ==>
              Run(c, ops).slots[j] == c.slots[j]
  {
    assert Ahead(Idle(c.slots), |c.slots|, c.cursor, 0) == Idle(c.slots);
    Rotation(c, ops, Idle(c.slots), c.cursor, 0, Idle(c.slots), Picks(c, ops));
    RotationSpares(c, ops, Idle(c.slots), Run(c, ops));
  }
}
