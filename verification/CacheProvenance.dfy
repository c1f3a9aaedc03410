/** Where stored names come from. A name is received for the device that owns the sending address at that
    moment, but the merge branch of prov_cache_adv_uuid_seen can hand it on to another device. */
module CacheProvenance {
  import opened Bytes
  import opened CacheSpec
  import opened CacheMap

  type Devices = map<Uuid, Device>

  function NameOf(m: Devices, u: Uuid): Option<seq<Byte>> {
    if u in m then m[u].name else None
  }

  /** The call receives a name from u's address. */
  ghost predicate Receives(m: Devices, op: Op, u: Uuid) {
    op.Name? && Owner(m, op.a) == Some(u)
  }

  /** The call merges a named record into the record of another device, which has no name. */
  ghost predicate Borrows(m: Devices, op: Op) {
    && op.Adv? && op.u in m && m[op.u].name.None?
    && Owner(m, op.a).Some? && Owner(m, op.a).value != op.u && m[Owner(m, op.a).value].name.Some?
  }

  /** Exactly then does an advertisement change the name of a device already known. */
  lemma NameChangesOnlyByBorrowing(c: Cache, a: Addr, u: Uuid)
    requires Good(c) && u in Abs(c.slots)
    ensures var m, d := Abs(c.slots), Abs(AdvUuidSeen(c, a, u).slots);
            u in d && (d[u].name != m[u].name <==> Borrows(m, Adv(a, u)))
  {
    Refines(c, Adv(a, u));
  }

  // ---------------------------------------------------------------------------- one call

  /** The name a device has after a call: the one received, the one borrowed, or the one it had. */
  ghost function Source(m: Devices, op: Op, u: Uuid): Option<seq<Byte>> {
    if Receives(m, op, u) then Some(StoredName(op.data))
    else if Borrows(m, op) && op.u == u then NameOf(m, Owner(m, op.a).value)
    else NameOf(m, u)
  }

  /** Every name after the call has its source before it, and a borrowed one is there. */
  ghost predicate NamesFollow(m: Devices, op: Op, d: Devices) {
    && (forall u: Uuid {:trigger NameOf(d, u)} :: NameOf(d, u).Some? ==> NameOf(d, u) == Source(m, op, u))
    && (Borrows(m, op) ==> NameOf(d, op.u).Some?)
  }

  lemma StepNames(m: Devices, op: Op, victim: Option<Uuid>)
    ensures NamesFollow(m, op, Step(m, op, victim))
  {
  }

  // ---------------------------------------------------------------------------- runs

  /** The devices known before, between and after the calls of a run. */
  ghost function States(c: Cache, ops: seq<Op>): (ms: seq<Devices>)
    requires c.cursor < |c.slots|
    ensures |ms| == |ops| + 1
    decreases |ops|
  {
    [Abs(c.slots)] + if ops == [] then [] else States(Apply(c, ops[0]), ops[1..])
  }

  lemma {:induction false} StateAt(c: Cache, ops: seq<Op>, k: nat)
    requires c.cursor < |c.slots| && k <= |ops|
    ensures States(c, ops)[k] == Abs(Run(c, ops[..k]).slots)
    decreases |ops|
  {
    if k == 0 {
      assert ops[..0] == [];
    } else {
      StateAt(Apply(c, ops[0]), ops[1..], k - 1);
      assert ops[..k][1..] == ops[1..][..k - 1];
    }
  }

  /** No name is there at the start, and each call's names follow from those before it. */
  ghost predicate Follows(ms: seq<Devices>, ops: seq<Op>) {
    && |ms| == |ops| + 1 && ms[0] == map[]
    && forall k :: 0 <= k < |ops| ==> NamesFollow(ms[k], ops[k], ms[k + 1])
  }

  lemma CallFollows(c: Cache, op: Op)
    requires Good(c)
    ensures Good(Apply(c, op)) && NamesFollow(Abs(c.slots), op, Abs(Apply(c, op).slots))
  {
    Refines(c, op);
    StepNames(Abs(c.slots), op, Victim(c, op));
  }

  lemma FirstState(c: Cache, ops: seq<Op>)
    requires c.cursor < |c.slots|
    ensures States(c, ops)[0] == Abs(c.slots)
  {
  }

  lemma {:induction false} CallsFollow(c: Cache, ops: seq<Op>, k: nat)
    requires Good(c) && k < |ops|
    ensures NamesFollow(States(c, ops)[k], ops[k], States(c, ops)[k + 1])
    decreases |ops|
  {
    var d := Apply(c, ops[0]);
    CallFollows(c, ops[0]);
    if k == 0 {
      FirstState(d, ops[1..]);
    } else {
      CallsFollow(d, ops[1..], k - 1);
    }
  }

  lemma RunFollows(n: nat, ops: seq<Op>)
    requires 0 < n
    ensures Follows(States(Boot(n), ops), ops)
  {
    BootIsEmpty(n);
    forall k | 0 <= k < |ops| ensures NamesFollow(States(Boot(n), ops)[k], ops[k], States(Boot(n), ops)[k + 1]) {
      CallsFollow(Boot(n), ops, k);
    }
  }

  // ---------------------------------------------------------------------------- histories

  /** The history of a stored name: the call that received it, the device that owned the address then,
      and the calls that handed it from one device to another since. */
  datatype History = History(call: nat, owner: Uuid, moves: seq<nat>)

  /** The name u stores after k calls, traced back. */
  ghost function Trace(ms: seq<Devices>, ops: seq<Op>, k: nat, u: Uuid): History
    requires Follows(ms, ops) && k <= |ops| && NameOf(ms[k], u).Some?
    decreases k
  {
    assert k > 0 && NamesFollow(ms[k - 1], ops[k - 1], ms[k]);
    var m, op := ms[k - 1], ops[k - 1];
    if Receives(m, op, u) then History(k - 1, u, [])
    else if Borrows(m, op) && op.u == u then
      var h := Trace(ms, ops, k - 1, Owner(m, op.a).value);
      h.(moves := h.moves + [k - 1])
    else Trace(ms, ops, k - 1, u)
  }

  /** The moves lead from device v to device w: in order, in calls between lo and hi, each borrows from the
      device that the one before borrowed for. */
  ghost predicate Chain(ms: seq<Devices>, ops: seq<Op>, lo: nat, hi: nat, v: Uuid, moves: seq<nat>, w: Uuid)
    requires hi <= |ops| == |ms| - 1
    decreases |moves|
  {
    if moves == [] then v == w
    else
      var j := moves[|moves| - 1];
      && lo < j < hi && Borrows(ms[j], ops[j]) && ops[j].u == w
      && Chain(ms, ops, lo, j, v, moves[..|moves| - 1], Owner(ms[j], ops[j].a).value)
  }

  /** The history accounts for a name that u stores after k calls: its call received that very name from
      its owner's address, and its moves brought it from there to u. */
  ghost predicate Explains(ms: seq<Devices>, ops: seq<Op>, k: nat, u: Uuid, h: History)
    requires k <= |ops| == |ms| - 1
  {
    && h.call < k && Receives(ms[h.call], ops[h.call], h.owner)
    && NameOf(ms[k], u) == Some(StoredName(ops[h.call].data))
    && Chain(ms, ops, h.call, k, h.owner, h.moves, u)
  }

  lemma ChainLater(ms: seq<Devices>, ops: seq<Op>, lo: nat, hi: nat, hi': nat, v: Uuid, moves: seq<nat>, w: Uuid)
    requires hi <= hi' <= |ops| == |ms| - 1 && Chain(ms, ops, lo, hi, v, moves, w)
    ensures Chain(ms, ops, lo, hi', v, moves, w)
  {
  }

  /** Every stored name has such a history. */
  lemma {:induction false} TraceExplains(ms: seq<Devices>, ops: seq<Op>, k: nat, u: Uuid, h: History)
    requires Follows(ms, ops) && k <= |ops| && NameOf(ms[k], u).Some? && h == Trace(ms, ops, k, u)
    ensures Explains(ms, ops, k, u, h)
    decreases k
  {
    assert k > 0 && NamesFollow(ms[k - 1], ops[k - 1], ms[k]);
    var m, op := ms[k - 1], ops[k - 1];
    if Receives(m, op, u) {
    } else if Borrows(m, op) && op.u == u {
      var v := Owner(m, op.a).value;
      var g := Trace(ms, ops, k - 1, v);
      TraceExplains(ms, ops, k - 1, v, g);
      assert (g.moves + [k - 1])[..|g.moves|] == g.moves;
    } else {
      TraceExplains(ms, ops, k - 1, u, h);
      ChainLater(ms, ops, h.call, k - 1, k, h.owner, h.moves, u);
    }
  }

  // ---------------------------------------------------------------------------- exact conditions

  /** The name u stores at the end was received for u's record, and has been there ever since. */
  ghost predicate Own(ms: seq<Devices>, ops: seq<Op>, u: Uuid)
    requires Follows(ms, ops) && NameOf(ms[|ops|], u).Some?
  {
    var h := Trace(ms, ops, |ops|, u);
    h.owner == u && forall j :: h.call < j <= |ops| ==> NameOf(ms[j], u).Some?
  }

  /** Call j borrowed a name that some device still stores at the end. */
  ghost predicate StillStored(ms: seq<Devices>, ops: seq<Op>, j: nat)
    requires Follows(ms, ops)
  {
    exists u: Uuid :: NameOf(ms[|ops|], u).Some? && j in Trace(ms, ops, |ops|, u).moves
  }

  lemma {:induction false} UnmovedStays(ms: seq<Devices>, ops: seq<Op>, k: nat, u: Uuid, j: nat)
    requires Follows(ms, ops) && k <= |ops| && NameOf(ms[k], u).Some?
    requires Trace(ms, ops, k, u).moves == [] && Trace(ms, ops, k, u).call < j <= k
    ensures NameOf(ms[j], u).Some?
    decreases k
  {
    assert k > 0 && NamesFollow(ms[k - 1], ops[k - 1], ms[k]);
    if j == k {
    } else {
      UnmovedStays(ms, ops, k - 1, u, j);
    }
  }

  lemma OwnMeansUnmoved(ms: seq<Devices>, ops: seq<Op>, u: Uuid)
    requires Follows(ms, ops) && NameOf(ms[|ops|], u).Some?
    ensures Own(ms, ops, u) <==> Trace(ms, ops, |ops|, u).moves == []
  {
    var h := Trace(ms, ops, |ops|, u);
    TraceExplains(ms, ops, |ops|, u, h);
    if h.moves == [] {
      forall j | h.call < j <= |ops| ensures NameOf(ms[j], u).Some? { UnmovedStays(ms, ops, |ops|, u, j); }
    } else {
      var j := h.moves[|h.moves| - 1];
      assert NameOf(ms[j], u).None?;
    }
  }

  /** Every name stored at the end was received for the record that holds it and has stayed there. */
  ghost predicate AllOwn(ms: seq<Devices>, ops: seq<Op>)
    requires Follows(ms, ops)
  {
    forall u: Uuid {:trigger NameOf(ms[|ops|], u)} :: NameOf(ms[|ops|], u).Some? ==> Own(ms, ops, u)
  }

  /** No call of the run borrowed a name that is still stored at the end. */
  ghost predicate NoneBorrowed(ms: seq<Devices>, ops: seq<Op>)
    requires Follows(ms, ops)
  {
    forall j :: 0 <= j < |ops| && Borrows(ms[j], ops[j]) ==> !StillStored(ms, ops, j)
  }

  /** Over every run from power-up, the two are the same. */
  lemma StoredNamesAreOwn(n: nat, ops: seq<Op>, ms: seq<Devices>)
    requires 0 < n && ms == States(Boot(n), ops)
    ensures Follows(ms, ops)
    ensures AllOwn(ms, ops) <==> NoneBorrowed(ms, ops)
  {
    RunFollows(n, ops);
    OwnUnlessBorrowed(ms, ops);
  }

  lemma OwnUnlessBorrowed(ms: seq<Devices>, ops: seq<Op>)
    requires Follows(ms, ops)
    ensures AllOwn(ms, ops) <==> NoneBorrowed(ms, ops)
  {
    if u: Uuid :| NameOf(ms[|ops|], u).Some? && !Own(ms, ops, u) {
      OwnMeansUnmoved(ms, ops, u);
      var h := Trace(ms, ops, |ops|, u);
      TraceExplains(ms, ops, |ops|, u, h);
      assert StillStored(ms, ops, h.moves[|h.moves| - 1]);
    }
    if j: nat :| j < |ops| && Borrows(ms[j], ops[j]) && StillStored(ms, ops, j) {
      var u: Uuid :| NameOf(ms[|ops|], u).Some? && j in Trace(ms, ops, |ops|, u).moves;
      OwnMeansUnmoved(ms, ops, u);
    }
  }

  lemma {:induction false} ChainStart(ms: seq<Devices>, ops: seq<Op>, lo: nat, hi: nat,
                                      v: Uuid, moves: seq<nat>, w: Uuid)
    requires hi <= |ops| == |ms| - 1 && Chain(ms, ops, lo, hi, v, moves, w) && moves != []
    ensures moves[0] < |ops| && Borrows(ms[moves[0]], ops[moves[0]])
    ensures Owner(ms[moves[0]], ops[moves[0]].a) == Some(v)
    decreases |moves|
  {
    if |moves| == 1 {
    } else {
      var j := moves[|moves| - 1];
      ChainStart(ms, ops, lo, j, v, moves[..|moves| - 1], Owner(ms[j], ops[j].a).value);
    }
  }

  /** If only the sender counts, and not the record: a stored name was received at an address that its
      device owned then exactly when it never moved, or was first borrowed from that very device, to which
      it has come back. */
  lemma SenderIsOwnerExactly(n: nat, ops: seq<Op>, ms: seq<Devices>, u: Uuid)
    requires 0 < n && ms == States(Boot(n), ops) && NameOf(ms[|ops|], u).Some?
    ensures Follows(ms, ops)
    ensures var h := Trace(ms, ops, |ops|, u);
            h.owner == u
            <==> h.moves == []
                 || (h.moves[0] < |ops| && ops[h.moves[0]].Adv?
                     && Owner(ms[h.moves[0]], ops[h.moves[0]].a) == Some(u))
  {
    RunFollows(n, ops);
    var h := Trace(ms, ops, |ops|, u);
    TraceExplains(ms, ops, |ops|, u, h);
    if h.moves != [] { ChainStart(ms, ops, h.call, |ops|, h.owner, h.moves, u); }
  }

  /** Every name stored after k calls was received at an address that was then its own device's. */
  ghost predicate AllHome(ms: seq<Devices>, ops: seq<Op>, k: nat)
    requires Follows(ms, ops) && k <= |ops|
  {
    forall u: Uuid {:trigger NameOf(ms[k], u)} :: NameOf(ms[k], u).Some? ==> Trace(ms, ops, k, u).owner == u
  }

  ghost predicate AlwaysHome(ms: seq<Devices>, ops: seq<Op>)
    requires Follows(ms, ops)
  {
    forall k :: 0 <= k <= |ops| ==> AllHome(ms, ops, k)
  }

  ghost predicate NeverBorrows(ms: seq<Devices>, ops: seq<Op>)
    requires |ms| == |ops| + 1
  {
    forall k :: 0 <= k < |ops| ==> !Borrows(ms[k], ops[k])
  }

  /** And that holds at every point of a run if and only if no call of the run borrows at all. */
  lemma NamesStayHome(n: nat, ops: seq<Op>, ms: seq<Devices>)
    requires 0 < n && ms == States(Boot(n), ops)
    ensures Follows(ms, ops)
    ensures AlwaysHome(ms, ops) <==> NeverBorrows(ms, ops)
  {
    RunFollows(n, ops);
    HomeUnlessBorrowed(ms, ops);
  }

  lemma HomeUnlessBorrowed(ms: seq<Devices>, ops: seq<Op>)
    requires Follows(ms, ops)
    ensures AlwaysHome(ms, ops) <==> NeverBorrows(ms, ops)
  {
    if k: nat, u: Uuid :| k <= |ops| && NameOf(ms[k], u).Some? && Trace(ms, ops, k, u).owner != u {
      var h := Trace(ms, ops, k, u);
      TraceExplains(ms, ops, k, u, h);
      ChainStart(ms, ops, h.call, k, h.owner, h.moves, u);
    }
    if k: nat :| k < |ops| && Borrows(ms[k], ops[k]) {
      BorrowingMisfiles(ms, ops, k);
    }
  }

  /** A borrowing call made while every name is at home takes one away. */
  lemma BorrowingMisfiles(ms: seq<Devices>, ops: seq<Op>, k: nat)
    requires Follows(ms, ops) && k < |ops| && Borrows(ms[k], ops[k])
    ensures !AllHome(ms, ops, k) || !AllHome(ms, ops, k + 1)
  {
    assert NamesFollow(ms[k], ops[k], ms[k + 1]);
    var u, v := ops[k].u, Owner(ms[k], ops[k].a).value;
    assert NameOf(ms[k + 1], u).Some? && NameOf(ms[k], v).Some?;
    assert Trace(ms, ops, k + 1, u).owner == Trace(ms, ops, k, v).owner;
  }

  // ---------------------------------------------------------------------------- it happens

  lemma RunSnoc(c: Cache, ops: seq<Op>, op: Op)
    requires c.cursor < |c.slots|
    ensures Run(c, ops + [op]) == Apply(Run(c, ops), op)
    decreases |ops|
  {
    if ops == [] {
      assert Run(Apply(c, op), []) == Apply(c, op);
    } else {
      assert (ops + [op])[1..] == ops[1..] + [op];
      RunSnoc(Apply(c, ops[0]), ops[1..], op);
    }
  }

  /** A cache of two slots or more that knows one device only has room for another. */
  lemma RoomForAnother(c: Cache, op: Op, u: Uuid)
    requires Good(c) && |c.slots| >= 2 && Abs(c.slots).Keys == {u}
    ensures Victim(c, op) == None
  {
    var s := c.slots;
    if s[0].inUse && s[1].inUse {
      FindsItself(s, 0);
      FindsItself(s, 1);
      InAbs(s, s[0].uuid);
      InAbs(s, s[1].uuid);
    }
    assert Has(s[0], Free) || Has(s[1], Free);
  }

  /** The map after one more call. */
  lemma Call(c: Cache, ops: seq<Op>, op: Op, m: Devices, victim: Option<Uuid>)
    requires Good(c) && Good(Run(c, ops)) && Abs(Run(c, ops).slots) == m && Victim(Run(c, ops), op) == victim
    ensures Good(Run(c, ops + [op])) && Abs(Run(c, ops + [op]).slots) == Step(m, op, victim)
  {
    RunSnoc(c, ops, op);
    Refines(Run(c, ops), op);
  }

  function Named(a: Addr, data: seq<Byte>): Device {
    Device(Some(a), Some(StoredName(data)), false, INT64_MIN)
  }

  /** A device named at an address, and nothing else, is known. */
  ghost predicate Only(c: Cache, u: Uuid, a: Addr, data: seq<Byte>) {
    Good(c) && Abs(c.slots) == map[u := Named(a, data)]
  }

  function Both(v: Uuid, w: Uuid, a: Addr, data: seq<Byte>): Devices {
    map[v := Named(a, data), w := UNSEEN]
  }

  lemma HeardElsewhere(v: Uuid, w: Uuid, a: Addr, data: seq<Byte>)
    requires v != w
    ensures Borrows(Both(v, w, a, data), Adv(a, w))
    ensures Step(Both(v, w, a, data), Adv(a, w), None) == map[w := Named(a, data)]
  {
    var m := Both(v, w, a, data);
    assert v in m && m[v].addr == Some(a) && m[w].addr == None;
    assert Owner(m, a) == Some(v);
    assert Step(m, Adv(a, w), None) == Drop(m, v)[w := Joined(m[w], m[v], a)];
  }

  lemma BecomesKnown(c: Cache, ops: seq<Op>, a: Addr, data: seq<Byte>, v: Uuid, w: Uuid)
    requires Good(c) && |c.slots| >= 2 && v != w && Only(Run(c, ops), v, a, data)
    ensures Good(Run(c, ops + [Ensure(w)])) && Abs(Run(c, ops + [Ensure(w)]).slots) == Both(v, w, a, data)
  {
    RoomForAnother(Run(c, ops), Ensure(w), v);
    Call(c, ops, Ensure(w), map[v := Named(a, data)], None);
  }

  /** Device w becomes known by its UUID and is then heard at v's address. */
  lemma HandOver(c: Cache, ops: seq<Op>, a: Addr, data: seq<Byte>, v: Uuid, w: Uuid)
    requires Good(c) && |c.slots| >= 2 && v != w && Only(Run(c, ops), v, a, data)
    ensures Only(Run(c, ops + [Ensure(w)] + [Adv(a, w)]), w, a, data)
  {
    BecomesKnown(c, ops, a, data, v, w);
    HeardElsewhere(v, w, a, data);
    KnownNeedsNoSlot(Run(c, ops + [Ensure(w)]), a, w);
    Call(c, ops + [Ensure(w)], Adv(a, w), Both(v, w, a, data), None);
  }

  lemma KnownNeedsNoSlot(c: Cache, a: Addr, u: Uuid)
    requires Good(c) && u in Abs(c.slots)
    ensures Victim(c, Adv(a, u)) == None
  {
    InAbs(c.slots, u);
  }

  lemma HeardFirst(n: nat, a: Addr, u: Uuid)
    requires n >= 1
    ensures Good(Run(Boot(n), [Adv(a, u)]))
    ensures Abs(Run(Boot(n), [Adv(a, u)]).slots) == map[u := UNSEEN.(addr := Some(a))]
  {
    var c := Boot(n);
    BootIsEmpty(n);
    assert [] + [Adv(a, u)] == [Adv(a, u)];
    Call(c, [], Adv(a, u), map[], Victim(Run(c, []), Adv(a, u)));
  }

  lemma NameOne(n: nat, a: Addr, data: seq<Byte>, u: Uuid)
    requires n >= 1
    ensures Only(Run(Boot(n), [Adv(a, u)] + [Name(a, data)]), u, a, data)
  {
    HeardFirst(n, a, u);
    BootIsEmpty(n);
    Call(Boot(n), [Adv(a, u)], Name(a, data), map[u := UNSEEN.(addr := Some(a))], None);
  }

  /** u1 is named at address a, u2 becomes known by its UUID, and then u2 is heard at a. */
  function Borrowing(a: Addr, data: seq<Byte>, u1: Uuid, u2: Uuid): seq<Op> {
    [Adv(a, u1)] + [Name(a, data)] + [Ensure(u2)] + [Adv(a, u2)]
  }

  /** In every cache of two slots or more that leaves u2 with the name received for u1, and u1 forgotten. */
  lemma NameChangesHands(n: nat, a: Addr, data: seq<Byte>, u1: Uuid, u2: Uuid)
    requires n >= 2 && u1 != u2
    ensures Abs(Run(Boot(n), Borrowing(a, data, u1, u2)).slots) == map[u2 := Named(a, data)]
  {
    BootIsEmpty(n);
    NameOne(n, a, data, u1);
    HandOver(Boot(n), [Adv(a, u1)] + [Name(a, data)], a, data, u1, u2);
  }

  /** The same, and then u1 becomes known again and is heard at a again. */
  function RoundTrip(a: Addr, data: seq<Byte>, u1: Uuid, u2: Uuid): seq<Op> {
    Borrowing(a, data, u1, u2) + [Ensure(u1)] + [Adv(a, u1)]
  }

  /** That gives u1 its name back. */
  lemma NameComesBack(n: nat, a: Addr, data: seq<Byte>, u1: Uuid, u2: Uuid)
    requires n >= 2 && u1 != u2
    ensures Abs(Run(Boot(n), RoundTrip(a, data, u1, u2)).slots) == map[u1 := Named(a, data)]
  {
    BootIsEmpty(n);
    NameOne(n, a, data, u1);
    HandOver(Boot(n), [Adv(a, u1)] + [Name(a, data)], a, data, u1, u2);
    HandOver(Boot(n), Borrowing(a, data, u1, u2), a, data, u2, u1);
  }

  /** In a run that starts by hearing and naming u1 and names nobody else, every name is u1's. */
  lemma OnlyNameReceived(ops: seq<Op>, ms: seq<Devices>, a: Addr, data: seq<Byte>, u1: Uuid, u: Uuid)
    requires Follows(ms, ops) && |ops| >= 2 && ops[1] == Name(a, data) && ms[1] == map[u1 := UNSEEN.(addr := Some(a))]
    requires forall k :: 0 <= k < |ops| && ops[k].Name? ==> k == 1
    requires NameOf(ms[|ops|], u).Some?
    ensures Trace(ms, ops, |ops|, u).owner == u1
  {
    TraceExplains(ms, ops, |ops|, u, Trace(ms, ops, |ops|, u));
  }

  /** The states of a run that starts like that. */
  lemma BorrowingStates(n: nat, a: Addr, data: seq<Byte>, u1: Uuid, u2: Uuid, ops: seq<Op>, ms: seq<Devices>)
    requires n >= 2 && u1 != u2 && ms == States(Boot(n), ops) && Borrowing(a, data, u1, u2) <= ops
    ensures Follows(ms, ops) && |ms| >= 5
    ensures ms[1] == map[u1 := UNSEEN.(addr := Some(a))] && ms[4] == map[u2 := Named(a, data)]
  {
    RunFollows(n, ops);
    HeardFirst(n, a, u1);
    NameChangesHands(n, a, data, u1, u2);
    assert ops[..1] == [Adv(a, u1)] && ops[..4] == Borrowing(a, data, u1, u2);
    StateAt(Boot(n), ops, 1);
    StateAt(Boot(n), ops, 4);
  }

  /** So in the first run u2's name is misfiled. */
  lemma NameIsMisfiled(n: nat, a: Addr, data: seq<Byte>, u1: Uuid, u2: Uuid, ops: seq<Op>, ms: seq<Devices>)
    requires n >= 2 && u1 != u2 && ms == States(Boot(n), ops) && ops == Borrowing(a, data, u1, u2)
    ensures Follows(ms, ops) && NameOf(ms[4], u2).Some? && Trace(ms, ops, 4, u2).owner == u1 && !AllOwn(ms, ops)
  {
    BorrowingStates(n, a, data, u1, u2, ops, ms);
    assert u2 in ms[4];
    OnlyNameReceived(ops, ms, a, data, u1, u2);
    SomeNotOwn(ms, ops, u2);
  }

  lemma SomeNotOwn(ms: seq<Devices>, ops: seq<Op>, u: Uuid)
    requires Follows(ms, ops) && NameOf(ms[|ops|], u).Some? && Trace(ms, ops, |ops|, u).owner != u
    ensures !AllOwn(ms, ops)
  {
    assert !Own(ms, ops, u);
  }

  /** And in the second u1's has been away. */
  lemma NameHasBeenAway(n: nat, a: Addr, data: seq<Byte>, u1: Uuid, u2: Uuid, ops: seq<Op>, ms: seq<Devices>)
    requires n >= 2 && u1 != u2 && ms == States(Boot(n), ops) && ops == RoundTrip(a, data, u1, u2)
    ensures Follows(ms, ops) && NameOf(ms[6], u1).Some?
    ensures Trace(ms, ops, 6, u1).owner == u1 && Trace(ms, ops, 6, u1).moves != []
  {
    BorrowingStates(n, a, data, u1, u2, ops, ms);
    LastOfRoundTrip(n, a, data, u1, u2, ops, ms);
    assert u1 in ms[6] && u1 !in ms[4];
    OnlyNameReceived(ops, ms, a, data, u1, u1);
    MovedIfAway(ms, ops, 6, u1, 4);
  }

  lemma LastOfRoundTrip(n: nat, a: Addr, data: seq<Byte>, u1: Uuid, u2: Uuid, ops: seq<Op>, ms: seq<Devices>)
    requires n >= 2 && u1 != u2 && ms == States(Boot(n), ops) && ops == RoundTrip(a, data, u1, u2)
    ensures |ms| == 7 && ms[6] == map[u1 := Named(a, data)]
  {
    NameComesBack(n, a, data, u1, u2);
    assert ops[..6] == ops;
    StateAt(Boot(n), ops, 6);
  }

  /** A name that was gone after it had been received has moved. */
  lemma MovedIfAway(ms: seq<Devices>, ops: seq<Op>, k: nat, u: Uuid, j: nat)
    requires Follows(ms, ops) && j <= k <= |ops| && NameOf(ms[k], u).Some? && NameOf(ms[j], u).None?
    requires forall i :: j <= i < |ops| ==> !ops[i].Name?
    ensures Trace(ms, ops, k, u).moves != []
  {
    var h := Trace(ms, ops, k, u);
    TraceExplains(ms, ops, k, u, h);
    if h.moves == [] { UnmovedStays(ms, ops, k, u, j); }
  }

  /** With a single slot it never does: there is no second record to merge. */
  lemma BorrowingNeedsTwoSlots(c: Cache, op: Op)
    requires Good(c) && Borrows(Abs(c.slots), op)
    ensures |c.slots| >= 2
  {
    InAbs(c.slots, op.u);
    InAbs(c.slots, Owner(Abs(c.slots), op.a).value);
  }
}
