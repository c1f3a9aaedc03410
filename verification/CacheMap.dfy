/** The slot array refines a map from UUID to device record: every run of cache calls keeps the
    representation invariant and acts on the map as the same run of map operations. */
module CacheMap {
  import opened Bytes
  import opened CacheSpec

  datatype Device = Device(addr: Option<Addr>, name: Option<seq<Byte>>, visible: bool, lastAttempt: int)

  const UNSEEN := Device(None, None, false, INT64_MIN)

  function Dev(e: Slot): Device {
    Device(if e.haveAddr then Some(e.addr) else None,
           if e.haveName then Some(CStr(e.name)) else None,
           e.visible, e.lastAttempt)
  }

  function Entry(e: Slot): map<Uuid, Device> {
    if e.inUse && e.haveUuid then map[e.uuid := Dev(e)] else map[]
  }

  /** The map a slot array stands for. */
  function Abs(s: seq<Slot>): map<Uuid, Device> {
    if s == [] then map[] else Abs(s[1..]) + Entry(s[0])
  }

  lemma {:induction false} InAbs(s: seq<Slot>, u: Uuid)
    ensures var i := Find(s, ByUuid(u));
            && (u in Abs(s) <==> i < |s|)
            && (u in Abs(s) ==> Abs(s)[u] == Dev(s[i]))
  {
    if s == [] {
    } else {
      InAbs(s[1..], u);
    }
  }

  /** Every in-use slot is reached through its own UUID. */
  lemma FindsItself(s: seq<Slot>, i: nat)
    requires Inv(s) && i < |s| && s[i].inUse
    ensures Find(s, ByUuid(s[i].uuid)) == i
    ensures s[i].haveAddr ==> Find(s, ByAddr(s[i].addr)) == i
  {
    var f := Find(s, ByUuid(s[i].uuid));
    assert SlotOk(s[i]);
    assert Has(s[i], ByUuid(s[i].uuid)) && Has(s[f], ByUuid(s[i].uuid));
    assert f < i ==> Apart(s[f], s[i]);
    if s[i].haveAddr {
      var g := Find(s, ByAddr(s[i].addr));
      assert Has(s[i], ByAddr(s[i].addr)) && Has(s[g], ByAddr(s[i].addr));
      assert g < i ==> Apart(s[g], s[i]);
    }
  }

  /** Where a UUID is found after slot i was rewritten. */
  lemma FindAfter(s: seq<Slot>, i: nat, e: Slot, u: Uuid)
    requires Inv(s) && i < |s| && Inv(s[i := e])
    ensures var f, g := Find(s, ByUuid(u)), Find(s[i := e], ByUuid(u));
            g == if Has(e, ByUuid(u)) then i else if f == i then |s| else f
  {
    var t := s[i := e];
    var f, g := Find(s, ByUuid(u)), Find(t, ByUuid(u));
    assert g < |s| ==> Has(t[g], ByUuid(u));
    if Has(e, ByUuid(u)) {
      FindsItself(t, i);
    } else {
      assert g < |s| ==> g != i && Has(s[g], ByUuid(u));
      if g < |s| { FindsItself(s, g); }
      assert f < |s| && f != i ==> Has(t[f], ByUuid(u));
    }
  }

  function Drop(m: map<Uuid, Device>, u: Uuid): map<Uuid, Device> {
    map v | v in m && v != u :: m[v]
  }

  function Overwrite(m: map<Uuid, Device>, was: Slot, e: Slot): map<Uuid, Device> {
    var rest := if was.inUse && !(e.inUse && e.uuid == was.uuid) then Drop(m, was.uuid) else m;
    if e.inUse then rest[e.uuid := Dev(e)] else rest
  }

  /** A slot may be rewritten under keys that no other slot has. */
  lemma RewriteKeepsInv(s: seq<Slot>, i: nat, e: Slot)
    requires Inv(s) && i < |s| && SlotOk(e)
    requires e.inUse ==> Find(s, ByUuid(e.uuid)) in {i, |s|}
    requires e.haveAddr ==> Find(s, ByAddr(e.addr)) in {i, |s|}
    ensures Inv(s[i := e])
  {
    forall j | 0 <= j < |s| && j != i && s[j].inUse
      ensures e.inUse ==> s[j].uuid != e.uuid
      ensures e.haveAddr && s[j].haveAddr ==> s[j].addr != e.addr
    {
      assert SlotOk(s[j]);
      FindsItself(s, j);
    }
    assert forall j :: 0 <= j < |s| && s[j].haveAddr ==> SlotOk(s[j]);
  }

  /** What the rewritten slots answer for one UUID. */
  lemma RewriteAt(s: seq<Slot>, i: nat, e: Slot, u: Uuid)
    requires Inv(s) && i < |s| && Inv(s[i := e])
    ensures var m, t := Overwrite(Abs(s), s[i], e), Abs(s[i := e]);
            (u in t <==> u in m) && (u in m ==> t[u] == m[u])
  {
    assert SlotOk(s[i]) && SlotOk(s[i := e][i]);
    if s[i].inUse { FindsItself(s, i); }
    InAbs(s, u);
    InAbs(s[i := e], u);
    FindAfter(s, i, e, u);
  }

  /** Rewriting one slot replaces that slot's entry of the map and nothing else. */
  lemma Rewrite(s: seq<Slot>, i: nat, e: Slot)
    requires Inv(s) && i < |s| && SlotOk(e)
    requires e.inUse ==> Find(s, ByUuid(e.uuid)) in {i, |s|}
    requires e.haveAddr ==> Find(s, ByAddr(e.addr)) in {i, |s|}
    ensures Inv(s[i := e])
    ensures Abs(s[i := e]) == Overwrite(Abs(s), s[i], e)
  {
    RewriteKeepsInv(s, i, e);
    var m, t := Overwrite(Abs(s), s[i], e), Abs(s[i := e]);
    forall u: Uuid ensures (u in t <==> u in m) && (u in m ==> t[u] == m[u]) {
      RewriteAt(s, i, e, u);
    }
  }

  // ---------------------------------------------------------------------------- the map's operations

  /** The UUID whose record carries an address. */
  ghost function Owner(m: map<Uuid, Device>, a: Addr): (o: Option<Uuid>)
    ensures o.Some? ==> o.value in m && m[o.value].addr == Some(a)
    ensures o.None? ==> forall u :: u in m ==> m[u].addr != Some(a)
  {
    if u :| u in m && m[u].addr == Some(a) then Some(u) else None
  }

  /** One device is left when an address and a UUID meet: the UUID's record keeps its own name and
      stamp, takes a missing name and the visible mark from the address's record, and the address. */
  function Joined(kept: Device, dropped: Device, a: Addr): Device {
    Device(Some(a), if kept.name.None? then dropped.name else kept.name,
           kept.visible || dropped.visible, kept.lastAttempt)
  }

  /** A received name as the cache keeps it: its first 32 bytes up to the first NUL. */
  function StoredName(name: seq<Byte>): seq<Byte> {
    CStr(name[..Min(|name|, NAME_CAP)])
  }

  /** What one call does to the map; `victim` is the UUID that allocation evicts, if any. */
  ghost function Step(m: map<Uuid, Device>, op: Op, victim: Option<Uuid>): map<Uuid, Device> {
    match op
    case Adv(a, u) => (
      var o := Owner(m, a);
      if u in m then
        (if o.Some? && o.value != u then Drop(m, o.value)[u := Joined(m[u], m[o.value], a)]
         else m[u := m[u].(addr := Some(a))])
      else if o.Some? then Drop(m, o.value)[u := UNSEEN.(addr := Some(a))]
      else Evict(m, victim)[u := UNSEEN.(addr := Some(a))])
    case Name(a, data) => (
      var o := Owner(m, a);
      if o.Some? then m[o.value := m[o.value].(name := Some(StoredName(data)))] else m)
    case Ensure(u) => if u in m then m else Evict(m, victim)[u := UNSEEN]
    case Mark(u) => if u in m && m[u].name.Some? then m[u := m[u].(visible := true)] else m
    case MarkAll => MarkNamed(m)
    case Attempt(u, now) => if u in m then m[u := m[u].(lastAttempt := now)] else m
    case Configured(u) => if u in m then Drop(m, u) else m
  }

  ghost function Evict(m: map<Uuid, Device>, victim: Option<Uuid>): map<Uuid, Device> {
    if victim.Some? then Drop(m, victim.value) else m
  }

  /** The call needs a slot of its own: neither its UUID nor its address is known. */
  predicate Allocates(c: Cache, op: Op) {
    match op
    case Adv(a, u) => Find(c.slots, ByUuid(u)) == |c.slots| && Find(c.slots, ByAddr(a)) == |c.slots|
    case Ensure(u) => Find(c.slots, ByUuid(u)) == |c.slots|
    case _ => false
  }

  function Victim(c: Cache, op: Op): Option<Uuid>
    requires c.cursor < |c.slots|
  {
    if Allocates(c, op) && c.slots[AllocIndex(c)].inUse then Some(c.slots[AllocIndex(c)].uuid) else None
  }

  // ---------------------------------------------------------------------------- refinement

  lemma OwnerIs(s: seq<Slot>, a: Addr)
    requires Inv(s)
    ensures var i := Find(s, ByAddr(a));
            Owner(Abs(s), a) == if i < |s| then Some(s[i].uuid) else None
    ensures var i := Find(s, ByAddr(a));
            i < |s| ==> s[i].uuid in Abs(s) && Abs(s)[s[i].uuid] == Dev(s[i])
  {
    var i := Find(s, ByAddr(a));
    var o := Owner(Abs(s), a);
    if o.Some? {
      InAbs(s, o.value);
      var j := Find(s, ByUuid(o.value));
      assert SlotOk(s[j]) && Has(s[j], ByAddr(a));
      FindsItself(s, j);
    }
    if i < |s| {
      FindsItself(s, i);
      InAbs(s, s[i].uuid);
    }
  }

  /** name_set_locked stores the data's first 32 bytes as a C string. */
  lemma NameSetString(buf: NameBuf, data: seq<Byte>)
    ensures CStr(NameSet(buf, data)) == StoredName(data) == CStr(data[..Min(|data|, 32)])
    ensures 0 in NameSet(buf, data)
  {
    var n := Min(|data|, NAME_CAP);
    var d := data[..n];
    assert NameSet(buf, data)[n] == 0;
    assert NameSet(buf, data)[..n] == d;
    CStrUnique(NameSet(buf, data), CStr(d));
  }

  /** The two rewrites of the merge, in terms of the map. */
  lemma MergeSlots(s: seq<Slot>, ia: nat, iu: nat, a: Addr, u: Uuid, e: Slot)
    requires Inv(s) && ia == Find(s, ByAddr(a)) < |s| && iu == Find(s, ByUuid(u)) < |s| && ia != iu
    requires e == Claim(Merge(s[iu], s[ia]), a, u)
    ensures Inv(s[ia := CLEARED][iu := e])
    ensures Abs(s[ia := CLEARED][iu := e]) == Overwrite(Overwrite(Abs(s), s[ia], CLEARED), s[iu], e)
  {
    var t := s[ia := CLEARED];
    ClearedIsOk();
    assert SlotOk(s[ia]) && SlotOk(s[iu]);
    Rewrite(s, ia, CLEARED);
    FindAfter(s, ia, CLEARED, u);
    AddrGone(s, ia, a);
    Rewrite(t, iu, e);
  }

  lemma RefinesAdvMerge(c: Cache, a: Addr, u: Uuid)
    requires Good(c)
    requires var ia, iu := Find(c.slots, ByAddr(a)), Find(c.slots, ByUuid(u));
             ia < |c.slots| && iu < |c.slots| && ia != iu
    ensures Good(AdvUuidSeen(c, a, u))
    ensures Abs(AdvUuidSeen(c, a, u).slots) == Step(Abs(c.slots), Adv(a, u), None)
  {
    var s := c.slots;
    var ia, iu := Find(s, ByAddr(a)), Find(s, ByUuid(u));
    var e := Claim(Merge(s[iu], s[ia]), a, u);
    assert SlotOk(s[ia]) && SlotOk(s[iu]);
    InAbs(s, u);
    OwnerIs(s, a);
    MergeSlots(s, ia, iu, a, u, e);
    assert Dev(e) == Joined(Dev(s[iu]), Dev(s[ia]), a);
  }

  lemma ClearedIsOk()
    ensures SlotOk(CLEARED) && 0 in CLEARED.name
  {
    assert CLEARED.name[0] == 0;
  }

  lemma AddrGone(s: seq<Slot>, i: nat, a: Addr)
    requires Inv(s) && i == Find(s, ByAddr(a)) < |s|
    ensures Find(s[i := CLEARED], ByAddr(a)) == |s|
  {
    var t := s[i := CLEARED];
    forall j | 0 <= j < |t| ensures !Has(t[j], ByAddr(a)) {
      assert SlotOk(s[j]) && Has(s[i], ByAddr(a));
      assert i < j ==> Apart(s[i], s[j]);
    }
  }

  lemma RefinesAdvKnown(c: Cache, a: Addr, u: Uuid)
    requires Good(c)
    requires var ia, iu := Find(c.slots, ByAddr(a)), Find(c.slots, ByUuid(u));
             (ia < |c.slots| || iu < |c.slots|) && !(ia < |c.slots| && iu < |c.slots| && ia != iu)
    ensures Good(AdvUuidSeen(c, a, u))
    ensures Abs(AdvUuidSeen(c, a, u).slots) == Step(Abs(c.slots), Adv(a, u), None)
  {
    var s := c.slots;
    var ia, iu := Find(s, ByAddr(a)), Find(s, ByUuid(u));
    ClearedIsOk();
    InAbs(s, u);
    OwnerIs(s, a);
    if iu < |s| {
      assert SlotOk(s[iu]);
      Rewrite(s, iu, Claim(s[iu], a, u));
    } else {
      assert SlotOk(s[ia]);
      assert s[ia].uuid != u by { assert !Has(s[ia], ByUuid(u)); }
      Rewrite(s, ia, Claim(FRESH, a, u));
    }
  }

  /** What an allocating call stores. */
  function NewEntry(op: Op): Slot
    requires op.Adv? || op.Ensure?
  {
    if op.Adv? then Claim(FRESH, op.a, op.u) else FRESH.(uuid := op.u, haveUuid := true)
  }

  lemma AllocWrites(c: Cache, op: Op)
    requires c.cursor < |c.slots| && Allocates(c, op)
    ensures var i := AllocIndex(c);
            Apply(c, op) == Cache(c.slots[i := NewEntry(op)],
                                  if c.slots[i].inUse then (i + 1) % |c.slots| else c.cursor)
  {
    var i := AllocIndex(c);
    assert c.slots[i := FRESH][i := NewEntry(op)] == c.slots[i := NewEntry(op)];
  }

  lemma RefinesAlloc(c: Cache, op: Op)
    requires Good(c) && Allocates(c, op)
    ensures Good(Apply(c, op))
    ensures Abs(Apply(c, op).slots) == Step(Abs(c.slots), op, Victim(c, op))
  {
    ClearedIsOk();
    AllocWrites(c, op);
    InAbs(c.slots, op.u);
    if op.Adv? { OwnerIs(c.slots, op.a); }
    Rewrite(c.slots, AllocIndex(c), NewEntry(op));
  }

  lemma RefinesName(c: Cache, a: Addr, data: seq<Byte>)
    requires Good(c)
    ensures Good(ScanRspNameSeen(c, a, data))
    ensures Abs(ScanRspNameSeen(c, a, data).slots) == Step(Abs(c.slots), Name(a, data), None)
  {
    var s, i := c.slots, Find(c.slots, ByAddr(a));
    OwnerIs(s, a);
    if i < |s| {
      var e := s[i].(name := NameSet(s[i].name, data), haveName := true);
      NameSetString(s[i].name, data);
      FindsItself(s, i);
      assert SlotOk(s[i]);
      Rewrite(s, i, e);
    }
  }

  lemma RefinesSingle(c: Cache, op: Op)
    requires Good(c) && (op.Mark? || op.Attempt? || op.Configured?)
    ensures Good(Apply(c, op))
    ensures Abs(Apply(c, op).slots) == Step(Abs(c.slots), op, None)
  {
    var s, i := c.slots, Find(c.slots, ByUuid(op.u));
    InAbs(s, op.u);
    if i < |s| {
      ClearedIsOk();
      FindsItself(s, i);
      assert SlotOk(s[i]);
      var e := match op
        case Mark(_) => if s[i].haveName then s[i].(visible := true) else s[i]
        case Attempt(_, now) => s[i].(lastAttempt := now)
        case _ => CLEARED;
      Rewrite(s, i, e);
      assert Apply(c, op).slots == s[i := e];
    }
  }

  lemma MarkAllKeepsInv(c: Cache)
    requires Good(c)
    ensures Good(MarkAllReadyVisible(c))
    ensures forall k: Key :: Find(MarkAllReadyVisible(c).slots, k) == Find(c.slots, k)
  {
    var s, t := c.slots, MarkAllReadyVisible(c).slots;
    forall i | 0 <= i < |t| ensures SlotOk(t[i]) { assert SlotOk(s[i]); }
    forall i, j | 0 <= i < j < |t| ensures Apart(t[i], t[j]) { assert Apart(s[i], s[j]); }
    forall k: Key ensures Find(t, k) == Find(s, k) {
      var f, g := Find(s, k), Find(t, k);
      assert f < |s| ==> Has(t[f], k);
      assert g < |t| ==> Has(s[g], k);
    }
  }

  function MarkNamed(m: map<Uuid, Device>): map<Uuid, Device> {
    map u | u in m :: if m[u].name.Some? then m[u].(visible := true) else m[u]
  }

  lemma RefinesMarkAll(c: Cache)
    requires Good(c)
    ensures Good(MarkAllReadyVisible(c))
    ensures Abs(MarkAllReadyVisible(c).slots) == MarkNamed(Abs(c.slots))
  {
    MarkAllKeepsInv(c);
    var s, t := c.slots, MarkAllReadyVisible(c).slots;
    forall u: Uuid ensures u in Abs(t) <==> u in Abs(s)
      ensures u in Abs(s) ==> Abs(t)[u] == MarkNamed(Abs(s))[u]
    {
      var f := Find(s, ByUuid(u));
      assert Find(t, ByUuid(u)) == f;
      InAbs(s, u);
      InAbs(t, u);
      assert f < |s| ==> t[f] == MarkReady(s[f]);
    }
  }

  /** Every call keeps the invariant and matches its map counterpart. */
  lemma Refines(c: Cache, op: Op)
    requires Good(c)
    ensures Good(Apply(c, op))
    ensures Abs(Apply(c, op).slots) == Step(Abs(c.slots), op, Victim(c, op))
  {
    match op {
      case Adv(a, u) =>
        var ia, iu := Find(c.slots, ByAddr(a)), Find(c.slots, ByUuid(u));
        if Allocates(c, op) { RefinesAlloc(c, op); }
        else if ia < |c.slots| && iu < |c.slots| && ia != iu { RefinesAdvMerge(c, a, u); }
        else { RefinesAdvKnown(c, a, u); }
      case Name(a, data) => RefinesName(c, a, data);
      case Ensure(u) =>
        if Allocates(c, op) { RefinesAlloc(c, op); } else { InAbs(c.slots, u); }
      case MarkAll => RefinesMarkAll(c);
      case _ => RefinesSingle(c, op);
    }
  }

  lemma KeepsGood(c: Cache, op: Op)
    requires Good(c)
    ensures Good(Apply(c, op))
  {
    Refines(c, op);
  }

  lemma MarkRefines(c: Cache, u: Uuid)
    requires Good(c)
    ensures Good(MaybeMarkVisible(c, u))
    ensures Abs(MaybeMarkVisible(c, u).slots) == var m := Abs(c.slots);
              if u in m && m[u].name.Some? then m[u := m[u].(visible := true)] else m
  {
    Refines(c, Mark(u));
  }

  /** The victims of a run, call by call. */
  function Victims(c: Cache, ops: seq<Op>): (v: seq<Option<Uuid>>)
    requires c.cursor < |c.slots|
    ensures |v| == |ops|
    decreases |ops|
  {
    if ops == [] then [] else [Victim(c, ops[0])] + Victims(Apply(c, ops[0]), ops[1..])
  }

  ghost function Steps(m: map<Uuid, Device>, ops: seq<Op>, victims: seq<Option<Uuid>>): map<Uuid, Device>
    requires |victims| == |ops|
    decreases |ops|
  {
    if ops == [] then m else Steps(Step(m, ops[0], victims[0]), ops[1..], victims[1..])
  }

  /** Over every run the slots refine the map. */
  lemma {:induction false} RunRefines(c: Cache, ops: seq<Op>)
    requires Good(c)
    ensures Good(Run(c, ops))
    ensures Abs(Run(c, ops).slots) == Steps(Abs(c.slots), ops, Victims(c, ops))
    decreases |ops|
  {
    if ops == [] {
    } else {
      Refines(c, ops[0]);
      RunRefines(Apply(c, ops[0]), ops[1..]);
    }
  }

  /** A run from power-up starts from the empty map and a good state. */
  lemma BootIsEmpty(capacity: nat)
    requires 0 < capacity
    ensures Good(Boot(capacity)) && Abs(Boot(capacity).slots) == map[] && Boot(capacity).cursor == 0
  {
    ClearedIsOk();
    var m := Abs(Boot(capacity).slots);
    if u :| u in m {
      InAbs(Boot(capacity).slots, u);
    }
  }

  /** In every reachable state every in-use slot has a UUID, no two share a UUID or an address, free
      slots carry no flags, and a visible slot has both a UUID and a name. */
  lemma Reachable(capacity: nat, ops: seq<Op>, i: nat, j: nat)
    requires i < capacity && j < capacity
    ensures var s := Run(Boot(capacity), ops).slots;
            && |s| == capacity
            && (s[i].inUse <==> s[i].haveUuid)
            && (s[i].visible ==> s[i].inUse && s[i].haveUuid && s[i].haveName)
            && (!s[i].inUse ==> !s[i].haveAddr && !s[i].haveName)
            && 0 in s[i].name
            && (i != j && s[i].inUse && s[j].inUse ==> s[i].uuid != s[j].uuid)
            && (i != j && s[i].haveAddr && s[j].haveAddr ==> s[i].addr != s[j].addr)
  {
    BootIsEmpty(capacity);
    RunRefines(Boot(capacity), ops);
    var s := Run(Boot(capacity), ops).slots;
    assert SlotOk(s[i]);
    assert i < j ==> Apart(s[i], s[j]);
    assert j < i ==> Apart(s[j], s[i]);
  }

  /** A discovery call drops at most one other UUID: the one evicted, when every slot was taken and the
      call needed a new one, or the former owner of its address. */
  lemma DiscoveryDropsAtMostOne(c: Cache, op: Op, u: Uuid, v: Uuid)
    requires Good(c) && (op.Adv? || op.Ensure? || op.Name?)
    requires u in Abs(c.slots) && u !in Abs(Apply(c, op).slots)
    requires v in Abs(c.slots) && v !in Abs(Apply(c, op).slots)
    ensures u == v
    ensures if Allocates(c, op)
            then Victim(c, op) == Some(u) && forall i :: 0 <= i < |c.slots| ==> c.slots[i].inUse
            else op.Adv? && Owner(Abs(c.slots), op.a) == Some(u) && u != op.u
  {
    Refines(c, op);
    if Allocates(c, op) {
      InAbs(c.slots, op.u);
      if op.Adv? { OwnerIs(c.slots, op.a); }
      forall i | 0 <= i < |c.slots| ensures c.slots[i].inUse { assert !Has(c.slots[i], Free); }
    } else if op.Adv? {
      InAbs(c.slots, op.u);
      OwnerIs(c.slots, op.a);
    }
  }

  /** The lookups read the map. */
  lemma LookupNameReadsMap(c: Cache, u: Uuid, size: nat)
    requires Good(c)
    ensures var m := Abs(c.slots);
            LookupName(c, u, size).Some? <==> size > 0 && u in m && m[u].name.Some?
    ensures var m := Abs(c.slots);
            LookupName(c, u, size).Some? ==>
              CStr(LookupName(c, u, size).value) == m[u].name.value[..Min(|m[u].name.value|, size - 1)]
  {
    InAbs(c.slots, u);
    var i := Find(c.slots, ByUuid(u));
    if i < |c.slots| && c.slots[i].haveName && size > 0 { CopyOutString(c.slots[i].name, size); }
  }

  /** A stored name leaves room for its NUL, so callers read it whole. */
  lemma KnownNameReadsMap(c: Cache, u: Uuid)
    requires Good(c)
    ensures var m := Abs(c.slots);
            KnownName(c, u) == if u in m then m[u].name else None
  {
    LookupNameReadsMap(c, u, NAME_BUF_SIZE);
    InAbs(c.slots, u);
    var i := Find(c.slots, ByUuid(u));
    if i < |c.slots| {
      var s := CStr(c.slots[i].name);
      assert SlotOk(c.slots[i]);
      assert |s| <= 32 && s[..|s|] == s;
    }
  }

  /** The caller's buffer ends up holding the stored string, cut to fit and terminated. */
  lemma CopyOutString(buf: seq<Byte>, size: nat)
    requires size > 0
    ensures CStr(CopyOut(buf, size)) == CStr(buf)[..Min(|CStr(buf)|, size - 1)]
    ensures CopyOut(buf, size)[size - 1] == 0
  {
    CStrUnique(CopyOut(buf, size), CStr(buf)[..Min(|CStr(buf)|, size - 1)]);
  }

  lemma ShouldAttemptReadsMap(c: Cache, u: Uuid, now: int, retryMs: int)
    requires Good(c)
    ensures var m := Abs(c.slots);
            ShouldAutoAttempt(c, u, now, retryMs)
            <==> u in m && (m[u].lastAttempt == INT64_MIN || now - m[u].lastAttempt >= retryMs)
  {
    InAbs(c.slots, u);
    var i := Find(c.slots, ByUuid(u));
    if i < |c.slots| { FindsItself(c.slots, i); }
  }

  lemma NewInStep(m: map<Uuid, Device>, op: Op, victim: Option<Uuid>, u: Uuid)
    requires u !in m && u in Step(m, op, victim)
    ensures (op.Adv? || op.Ensure?) && op.u == u
    ensures Step(m, op, victim)[u].lastAttempt == -0x8000_0000_0000_0000
  {
  }

  /** A device just discovered may be attempted at any time, whatever the interval. */
  lemma NewcomerIsReady(c: Cache, op: Op, u: Uuid, now: int, retryMs: int)
    requires Good(c) && u !in Abs(c.slots) && u in Abs(Apply(c, op).slots)
    ensures (op.Adv? || op.Ensure?) && op.u == u && ShouldAutoAttempt(Apply(c, op), u, now, retryMs)
  {
    hide Step;
    Refines(c, op);
    NewInStep(Abs(c.slots), op, Victim(c, op), u);
    ShouldAttemptReadsMap(Apply(c, op), u, now, retryMs);
  }
}
