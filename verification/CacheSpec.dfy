/** The discovery cache as a value: what each operation of prov_cache.c does to the slots and the
    eviction cursor. The class in ProvCache.dfy is proved equal to these functions; the modules
    CacheMap, CacheEviction and CacheVisible prove what they mean. */
module CacheSpec {
  import opened Bytes
  import opened Modular

  const NAME_BUF_SIZE: nat := 33
  const NAME_CAP: nat := NAME_BUF_SIZE - 1
  const INT64_MIN: int := -0x8000_0000_0000_0000

  type NameBuf = b: seq<Byte> | |b| == 33 witness Zeros(33)

  datatype Slot = Slot(addr: Addr, uuid: Uuid, name: NameBuf, inUse: bool, haveAddr: bool,
                       haveUuid: bool, haveName: bool, visible: bool, lastAttempt: int)

  datatype Cache = Cache(slots: seq<Slot>, cursor: nat)

  /** An entry after entry_clear, and one that allocation has just claimed. */
  const CLEARED := Slot(Zeros(7), Zeros(16), Zeros(33), false, false, false, false, false, INT64_MIN)
  const FRESH := CLEARED.(inUse := true)

  /** The static array before any call: all zero, the attempt stamp included. */
  function Boot(capacity: nat): Cache {
    Cache(seq(capacity, _ => CLEARED.(lastAttempt := 0)), 0)
  }

  // ---------------------------------------------------------------------------- lookup

  /** What a scan of the slots looks for. */
  datatype Key = ByAddr(a: Addr) | ByUuid(u: Uuid) | Free

  predicate Has(e: Slot, k: Key) {
    match k
    case ByAddr(a) => e.inUse && e.haveAddr && e.addr == a
    case ByUuid(u) => e.inUse && e.haveUuid && e.uuid == u
    case Free => !e.inUse
  }

  /** The first slot that has the key; |s| when there is none. */
  function Find(s: seq<Slot>, k: Key): (i: nat)
    ensures i <= |s|
    ensures i < |s| ==> Has(s[i], k)
    ensures forall j :: 0 <= j < i ==> !Has(s[j], k)
  {
    if s == [] || Has(s[0], k) then 0
    else
      var r := Find(s[1..], k);
      assert forall j :: 1 <= j < r + 1 ==> s[j] == s[1..][j - 1];
      r + 1
  }

  // ---------------------------------------------------------------------------- invariant

  predicate SlotOk(e: Slot) {
    && (e.inUse ==> e.haveUuid)
    && (!e.inUse ==> !e.haveAddr && !e.haveUuid && !e.haveName && !e.visible)
    && (e.visible ==> e.haveName)
    && 0 in e.name
  }

  /** Two slots share neither a UUID nor an address. */
  predicate Apart(e: Slot, f: Slot) {
    && (e.inUse && f.inUse ==> e.uuid != f.uuid)
    && (e.haveAddr && f.haveAddr ==> e.addr != f.addr)
  }

  ghost predicate Inv(s: seq<Slot>) {
    && (forall i :: 0 <= i < |s| ==> SlotOk(s[i]))
    && (forall i, j {:trigger Apart(s[i], s[j])} :: 0 <= i < j < |s| ==> Apart(s[i], s[j]))
  }

  ghost predicate Good(c: Cache) {
    c.cursor < |c.slots| && Inv(c.slots)
  }

  // ---------------------------------------------------------------------------- allocation

  /** Eviction classes, cheapest first: unnamed, then named but invisible, then visible. */
  function Class(e: Slot): nat {
    if e.visible then 2 else if e.haveName then 1 else 0
  }

  /** Slot i is a better victim than slot j. */
  predicate Before(c: Cache, i: nat, j: nat)
    requires c.cursor < |c.slots| && i < |c.slots| && j < |c.slots|
  {
    || Class(c.slots[i]) < Class(c.slots[j])
    || (Class(c.slots[i]) == Class(c.slots[j])
        && Ring(|c.slots|, c.cursor, i) < Ring(|c.slots|, c.cursor, j))
  }

  /** The best victim among the first k slots. */
  function Best(c: Cache, k: nat): (v: nat)
    requires c.cursor < |c.slots| && 0 < k <= |c.slots|
    ensures v < k
    ensures forall j :: 0 <= j < k && j != v ==> Before(c, v, j)
  {
    if k == 1 then 0
    else
      var w, last := Best(c, k - 1), k - 1;
      if Before(c, last, w) then
        assert forall j :: 0 <= j < last ==> Before(c, last, j) by {
          forall j | 0 <= j < last ensures Before(c, last, j) {
            assert j != w ==> Before(c, w, j);
          }
        }
        last
      else w
  }

  /** The slot the next allocation hands out. */
  function AllocIndex(c: Cache): (i: nat)
    requires c.cursor < |c.slots|
    ensures i < |c.slots|
  {
    var f := Find(c.slots, Free);
    if f < |c.slots| then f else Best(c, |c.slots|)
  }

  function Alloc(c: Cache): Cache
    requires c.cursor < |c.slots|
  {
    var i := AllocIndex(c);
    Cache(c.slots[i := FRESH], if c.slots[i].inUse then (i + 1) % |c.slots| else c.cursor)
  }

  // ---------------------------------------------------------------------------- names

  /** name_set_locked: copy at most NAME_CAP bytes and terminate; later bytes keep their content. */
  function NameSet(buf: NameBuf, data: seq<Byte>): NameBuf {
    var n := Min(|data|, NAME_CAP);
    data[..n] + [0] + buf[n + 1..]
  }

  /** strncpy of the stored name into a buffer of `size` bytes whose last byte is then set to NUL. */
  function CopyOut(buf: seq<Byte>, size: nat): (r: seq<Byte>)
    requires size > 0
    ensures |r| == size
  {
    var n := Min(|CStr(buf)|, size - 1);
    CStr(buf)[..n] + Zeros(size - n)
  }

  // ---------------------------------------------------------------------------- operations

  function Claim(e: Slot, a: Addr, u: Uuid): Slot {
    e.(addr := a, uuid := u, haveAddr := true, haveUuid := true)
  }

  /** The record kept when an address and a UUID turn out to be one device. */
  function Merge(kept: Slot, dropped: Slot): Slot {
    var named := if !kept.haveName && dropped.haveName
                 then kept.(name := dropped.name, haveName := true) else kept;
    if dropped.visible then named.(visible := true) else named
  }

  function AdvUuidSeen(c: Cache, a: Addr, u: Uuid): Cache
    requires c.cursor < |c.slots|
  {
    var s, n := c.slots, |c.slots|;
    var ia, iu := Find(s, ByAddr(a)), Find(s, ByUuid(u));
    if ia < n && iu < n && ia != iu then
      c.(slots := s[ia := CLEARED][iu := Claim(Merge(s[iu], s[ia]), a, u)])
    else if iu < n then
      c.(slots := s[iu := Claim(s[iu], a, u)])
    else if ia < n then
      var e := if s[ia].haveUuid && s[ia].uuid != u then FRESH else s[ia];
      c.(slots := s[ia := Claim(e, a, u)])
    else
      var d, i := Alloc(c), AllocIndex(c);
      d.(slots := d.slots[i := Claim(FRESH, a, u)])
  }

  function EnsureUuid(c: Cache, u: Uuid): Cache
    requires c.cursor < |c.slots|
  {
    if Find(c.slots, ByUuid(u)) < |c.slots| then c
    else
      var d, i := Alloc(c), AllocIndex(c);
      d.(slots := d.slots[i := FRESH.(uuid := u, haveUuid := true)])
  }

  function ScanRspNameSeen(c: Cache, a: Addr, data: seq<Byte>): Cache {
    var i := Find(c.slots, ByAddr(a));
    if i < |c.slots|
    then c.(slots := c.slots[i := c.slots[i].(name := NameSet(c.slots[i].name, data), haveName := true)])
    else c
  }

  /** Whether maybe_mark_visible would change anything. */
  predicate CanMark(c: Cache, u: Uuid) {
    var i := Find(c.slots, ByUuid(u));
    i < |c.slots| && c.slots[i].haveName && !c.slots[i].visible
  }

  function MaybeMarkVisible(c: Cache, u: Uuid): Cache {
    if CanMark(c, u) then
      var i := Find(c.slots, ByUuid(u));
      c.(slots := c.slots[i := c.slots[i].(visible := true)])
    else c
  }

  function MarkReady(e: Slot): Slot {
    if e.inUse && e.haveUuid && e.haveName then e.(visible := true) else e
  }

  function MarkAllReadyVisible(c: Cache): Cache {
    c.(slots := seq(|c.slots|, i requires 0 <= i < |c.slots| => MarkReady(c.slots[i])))
  }

  function MarkAttempt(c: Cache, u: Uuid, now: int): Cache {
    var i := Find(c.slots, ByUuid(u));
    if i < |c.slots| then c.(slots := c.slots[i := c.slots[i].(lastAttempt := now)]) else c
  }

  function OnConfigurationSuccess(c: Cache, u: Uuid): Cache {
    var i := Find(c.slots, ByUuid(u));
    if i < |c.slots| then c.(slots := c.slots[i := CLEARED]) else c
  }

  // ---------------------------------------------------------------------------- queries

  function LookupName(c: Cache, u: Uuid, size: nat): Option<seq<Byte>> {
    var i := Find(c.slots, ByUuid(u));
    if size > 0 && i < |c.slots| && c.slots[i].haveName then Some(CopyOut(c.slots[i].name, size)) else None
  }

  /** The name as callers read it, into a buffer as large as the stored one. */
  function KnownName(c: Cache, u: Uuid): Option<seq<Byte>> {
    var n := LookupName(c, u, NAME_BUF_SIZE);
    if n.Some? then Some(CStr(n.value)) else None
  }

  predicate RetryReady(e: Slot, now: int, retryMs: int) {
    e.inUse && e.haveUuid && !(e.lastAttempt != INT64_MIN && now - e.lastAttempt < retryMs)
  }

  predicate ShouldAutoAttempt(c: Cache, u: Uuid, now: int, retryMs: int) {
    var i := Find(c.slots, ByUuid(u));
    i < |c.slots| && RetryReady(c.slots[i], now, retryMs)
  }

  /** The first retry-ready slot at or after `from`; |s| when there is none. */
  function NextReady(s: seq<Slot>, from: nat, now: int, retryMs: int): (i: nat)
    requires from <= |s|
    ensures from <= i <= |s|
    ensures i < |s| ==> RetryReady(s[i], now, retryMs)
    ensures forall j :: from <= j < i ==> !RetryReady(s[j], now, retryMs)
    decreases |s| - from
  {
    if from == |s| || RetryReady(s[from], now, retryMs) then from
    else NextReady(s, from + 1, now, retryMs)
  }

  /** The visible UUIDs in slot order: what `prov scan` lists. */
  function Visible(s: seq<Slot>): seq<Uuid> {
    if s == [] then []
    else
      var e := s[|s| - 1];
      Visible(s[..|s| - 1]) + (if e.inUse && e.visible then [e.uuid] else [])
  }

  // ---------------------------------------------------------------------------- runs

  /** One call that changes the cache. */
  datatype Op =
    | Adv(a: Addr, u: Uuid)
    | Name(a: Addr, data: seq<Byte>)
    | Ensure(u: Uuid)
    | Mark(u: Uuid)
    | MarkAll
    | Attempt(u: Uuid, now: int)
    | Configured(u: Uuid)

  function Apply(c: Cache, op: Op): (d: Cache)
    requires c.cursor < |c.slots|
    ensures |d.slots| == |c.slots| && d.cursor < |d.slots|
  {
    match op
    case Adv(a, u) => AdvUuidSeen(c, a, u)
    case Name(a, data) => ScanRspNameSeen(c, a, data)
    case Ensure(u) => EnsureUuid(c, u)
    case Mark(u) => MaybeMarkVisible(c, u)
    case MarkAll => MarkAllReadyVisible(c)
    case Attempt(u, now) => MarkAttempt(c, u, now)
    case Configured(u) => OnConfigurationSuccess(c, u)
  }

  function Run(c: Cache, ops: seq<Op>): (d: Cache)
    requires c.cursor < |c.slots|
    ensures |d.slots| == |c.slots| && d.cursor < |d.slots|
    decreases |ops|
  {
    if ops == [] then c else Run(Apply(c, ops[0]), ops[1..])
  }
}
