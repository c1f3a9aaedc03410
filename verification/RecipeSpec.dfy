/** Recipes as values: what a recipe expands to on a given node, what each message does to the node, and
    what a run leaves behind when any message may be refused or lost. */
module RecipeSpec {
  import opened Bytes
  import opened Interface
  import opened ScenarioSpec

  const MAX_ELEM: nat := 5
  const CID_NVAL: nat := 0xffff
  const STATUS_SUCCESS: nat := 0
  const STATUS_ALREADY_STORED: nat := 6

  // ---------------------------------------------------------------------------- recipes

  datatype ModelRef = ModelRef(id: nat, cid: nat)

  datatype StepOp =
    | NetKeyAdd(netKey: nat)
    | AppKeyAdd(netKey: nat, appKey: nat)
    | BindApp
    | SubAdd(group: nat)
    | PubSet(addr: nat, cred: bool, ttl: nat, period: nat, transmit: nat)

  /** One element at an offset from the primary, or every element that has the step's model. */
  datatype ElemSel = AddrOff(param: nat) | AllWithModel

  datatype Step = Step(op: StepOp, sel: ElemSel, model: ModelRef, appIdx: nat)

  type Recipes = t: seq<seq<Step>> | |t| == RECIPE_COUNT witness [[], [], [], [], [], [], [], []]

  /** An element of a node's composition data: its SIG model identifiers and its vendor models. */
  datatype Element = Element(sig: seq<nat>, vnd: seq<ModelRef>)

  datatype Node = Node(addr: nat, numElem: nat)

  // ---------------------------------------------------------------------------- messages

  datatype Pub = Pub(addr: nat, appIdx: nat, cred: bool, ttl: nat, period: nat, transmit: nat)

  datatype Msg =
    | NetKey(key: nat)
    | AppKey(netKey: nat, key: nat)
    | Bind(elem: nat, model: ModelRef, appIdx: nat)
    | Sub(elem: nat, model: ModelRef, group: nat)
    | Publish(elem: nat, model: ModelRef, pub: Pub)

  /** Unicast addresses are 16 bits wide. */
  function ElemAddr(n: Node, i: nat): nat {
    (n.addr + i) % 0x10000
  }

  function ElemAddrs(n: Node, count: nat): (a: seq<nat>)
    ensures |a| == count
  {
    seq(count, i requires 0 <= i => ElemAddr(n, i))
  }

  predicate HasModel(e: Element, m: ModelRef) {
    if m.cid == CID_NVAL then m.id in e.sig else m in e.vnd
  }

  /** comp_elem_has_model: an address below the primary or too far above it names no element. */
  predicate AddrHasModel(comp: seq<Element>, primary: nat, elem: nat, m: ModelRef) {
    && primary <= elem
    && elem - primary < MAX_ELEM
    && elem - primary < |comp|
    && HasModel(comp[elem - primary], m)
  }

  function Holders(comp: seq<Element>, primary: nat, addrs: seq<nat>, m: ModelRef): (h: seq<nat>)
    ensures |h| <= |addrs|
  {
    if addrs == [] then []
    else
      var n := |addrs| - 1;
      Holders(comp, primary, addrs[..n], m) + (if AddrHasModel(comp, primary, addrs[n], m) then [addrs[n]] else [])
  }

  /** The elements a step addresses; None when its offset is beyond the node. */
  function Targets(comp: seq<Element>, primary: nat, addrs: seq<nat>, s: Step): Option<seq<nat>> {
    match s.sel
    case AddrOff(p) => if p >= |addrs| then None else Some([addrs[p]])
    case AllWithModel => Some(Holders(comp, primary, addrs, s.model))
  }

  function ToMsg(s: Step, elem: nat): Msg {
    match s.op
    case NetKeyAdd(k) => NetKey(k)
    case AppKeyAdd(nk, ak) => AppKey(nk, ak)
    case BindApp => Bind(elem, s.model, s.appIdx)
    case SubAdd(g) => Sub(elem, s.model, g)
    case PubSet(_, _, _, _, _) => Publish(elem, s.model, PubOf(s))
  }

  /** The publication a step sets. */
  function PubOf(s: Step): Pub
    requires s.op.PubSet?
  {
    Pub(s.op.addr, s.appIdx, s.op.cred, s.op.ttl, s.op.period, s.op.transmit)
  }

  function ToMsgs(s: Step, elems: seq<nat>): (m: seq<Msg>)
    ensures |m| == |elems|
  {
    seq(|elems|, i requires 0 <= i < |elems| => ToMsg(s, elems[i]))
  }

  /** The messages of a recipe up to its first step that addresses a missing element, and whether there
      is no such step. */
  datatype Expansion = Expansion(msgs: seq<Msg>, complete: bool)

  function Expand(comp: seq<Element>, primary: nat, addrs: seq<nat>, steps: seq<Step>): Expansion {
    if steps == [] then Expansion([], true)
    else
      var t := Targets(comp, primary, addrs, steps[0]);
      if t.None? then Expansion([], false)
      else
        var rest := Expand(comp, primary, addrs, steps[1..]);
        Expansion(ToMsgs(steps[0], t.value) + rest.msgs, rest.complete)
  }

  /** A recipe's expansion over the elements of one node. */
  function ExpansionOn(table: Recipes, n: Node, id: nat, comp: seq<Element>): Expansion
    requires id < RECIPE_COUNT
  {
    Expand(comp, n.addr, ElemAddrs(n, |comp|), table[id])
  }

  // ---------------------------------------------------------------------------- the remote node

  datatype Remote = Remote(netKeys: set<nat>, appKeys: set<(nat, nat)>,
                           binds: set<(nat, ModelRef, nat)>, subs: set<(nat, ModelRef, nat)>,
                           pubs: map<(nat, ModelRef), Pub>)

  const BLANK := Remote({}, {}, {}, {}, map[])

  function Effect(r: Remote, m: Msg): Remote {
    match m
    case NetKey(k) => r.(netKeys := r.netKeys + {k})
    case AppKey(nk, ak) => r.(appKeys := r.appKeys + {(nk, ak)})
    case Bind(e, md, a) => r.(binds := r.binds + {(e, md, a)})
    case Sub(e, md, g) => r.(subs := r.subs + {(e, md, g)})
    case Publish(e, md, p) => r.(pubs := r.pubs[(e, md) := p])
  }

  function Exec(ms: seq<Msg>, r: Remote): Remote {
    if ms == [] then r else Exec(ms[1..], Effect(r, ms[0]))
  }

  /** What became of one message: the node answered with a status, the request did not get through, it
      took effect but the answer was lost, or the provisioner had no key to put in it. A node answers
      "already stored" to a key it holds. */
  datatype Outcome =
    | Answered(status: nat)
    | RequestLost(code: nat)
    | AnswerLost(code: nat)
    | KeyMissing

  predicate Accepts(m: Msg, status: nat) {
    if m.NetKey? || m.AppKey? then status == STATUS_SUCCESS || status == STATUS_ALREADY_STORED
    else status == STATUS_SUCCESS
  }

  predicate Acked(m: Msg, o: Outcome) {
    o.Answered? && Accepts(m, o.status)
  }

  /** The error code the sender sees; zero exactly when the message was acknowledged. */
  function ErrorOf(m: Msg, o: Outcome): (e: int)
    ensures e == 0 <==> Acked(m, o)
  {
    match o
    case Answered(status) => if Accepts(m, status) then 0 else EIO
    case RequestLost(code) => -1 - code
    case AnswerLost(code) => -1 - code
    case KeyMissing => ENOENT
  }

  function Deliver(r: Remote, m: Msg, o: Outcome): Remote {
    if Acked(m, o) || o.AnswerLost? then Effect(r, m) else r
  }

  /** The link during a run: the node's state, the messages sent so far and the outcomes to come. */
  datatype Link = Link(remote: Remote, sent: seq<Msg>, used: nat)

  function Send(l: Link, m: Msg, script: nat -> Outcome): Link {
    var o := script(l.used);
    Link(Deliver(l.remote, m, o), if o.KeyMissing? then l.sent else l.sent + [m], l.used + 1)
  }

  /** Sending messages one by one, stopping at the first error. */
  function SendAll(l: Link, ms: seq<Msg>, script: nat -> Outcome): (Link, int)
    decreases |ms|
  {
    if ms == [] then (l, 0)
    else
      var e := ErrorOf(ms[0], script(l.used));
      if e != 0 then (Send(l, ms[0], script), e)
      else SendAll(Send(l, ms[0], script), ms[1..], script)
  }

  /** What the composition request brings back: an error, or a page. */
  datatype Fetch = FetchError(code: nat) | Page(number: nat, comp: seq<Element>)

  function FetchErrorOf(f: Fetch, n: Node): int {
    match f
    case FetchError(code) => -1 - code
    case Page(number, comp) =>
      if number != 0 then EIO
      else if |comp| > MAX_ELEM then ENOMEM
      else if |comp| != n.numElem then EINVAL
      else 0
  }

  /** One run of mesh_config_apply_recipe. */
  function RunRecipe(table: Recipes, n: Node, id: nat, f: Fetch, script: nat -> Outcome, l: Link): (Link, int) {
    if !Assignable(id) then (l, ENOENT)
    else if FetchErrorOf(f, n) != 0 then (l, FetchErrorOf(f, n))
    else
      var x := ExpansionOn(table, n, id, f.comp);
      var (l', e) := SendAll(l, x.msgs, script);
      (l', if e == 0 && !x.complete then EINVAL else e)
  }
}

module RecipeConvergence {
  import opened ScenarioSpec
  import opened RecipeSpec

  // ---------------------------------------------------------------------------- one message

  /** A message is acknowledged by status 0, and a key also by status 6, which says that it is stored already. */
  lemma AckedMeans(m: Msg, o: Outcome)
    ensures Acked(m, o) <==> o == Answered(0) || (o == Answered(6) && (m.NetKey? || m.AppKey?))
  {
  }

  /** What the sender is told: nothing wrong exactly when the message was acknowledged, -EIO for any other
      status, -ENOENT for a missing key, and the stack's own error otherwise. */
  lemma ErrorMeans(m: Msg, o: Outcome)
    ensures ErrorOf(m, o) == 0 <==> Acked(m, o)
    ensures o.Answered? && !Acked(m, o) ==> ErrorOf(m, o) == -5
    ensures o.KeyMissing? ==> ErrorOf(m, o) == -2
    ensures o.RequestLost? || o.AnswerLost? ==> ErrorOf(m, o) == -1 - o.code < 0
  {
  }

  /** What the node then has: what it had, and what the message asks for if it was acknowledged or only the
      answer was lost. */
  lemma DeliverMeans(r: Remote, m: Msg, o: Outcome, asked: Msg)
    ensures Holds(Deliver(r, m, o), asked)
            <==> Holds(r, asked) || ((Acked(m, o) || o.AnswerLost?) && Asks(m, asked))
    ensures o.KeyMissing? <==> Send(Link(r, [], 0), m, (k: nat) => o).sent == []
  {
  }

  /** The message asks for that key, binding or subscription, or sets that model's publication. */
  predicate Asks(m: Msg, asked: Msg) {
    m == asked || (m.Publish? && asked.Publish? && m.elem == asked.elem && m.model == asked.model)
  }

  /** Why a run over the air fails, in the order of the tests: no such recipe, the composition request, a
      page other than the first, more than five elements, not as many as the node has, a message, and last a
      step whose offset is beyond the node. */
  lemma RunErrors(table: Recipes, n: Node, id: nat, a: Attempt, r: Remote)
    ensures var (l, e) := RunOn(table, n, id, a, r);
            if !(0 < id < 8) then e == -2 && l == Link(r, [], 0)
            else match a.fetch
              case FetchError(code) => e == -1 - code && l == Link(r, [], 0)
              case Page(number, comp) =>
                if number != 0 then e == -5 && l == Link(r, [], 0)
                else if |comp| > 5 then e == -12 && l == Link(r, [], 0)
                else if |comp| != n.numElem then e == -22 && l == Link(r, [], 0)
                else
                  var x := ExpansionOn(table, n, id, comp);
                  var failed := SendAll(Link(r, [], 0), x.msgs, a.script).1;
                  e == if failed != 0 then failed else if x.complete then 0 else -22
  {
  }

  // ---------------------------------------------------------------------------- whole runs

  /** A run over ms from l ended in l' with error e after sending the first k messages: all of them when it
      succeeded, and all but possibly the last acknowledged. */
  ghost predicate SentFirst(l: Link, ms: seq<Msg>, script: nat -> Outcome, l': Link, e: int, k: nat) {
    && k <= |ms| && l'.sent == l.sent + ms[..k]
    && (e == 0 ==> k == |ms|)
    && (forall i :: 0 <= i < k - (if e == 0 then 0 else 1) ==> Acked(ms[i], script(l.used + i)))
  }

  lemma SentFirstCons(l: Link, ms: seq<Msg>, script: nat -> Outcome, l': Link, e: int, k: nat)
    requires ms != [] && ErrorOf(ms[0], script(l.used)) == 0
    requires SentFirst(Send(l, ms[0], script), ms[1..], script, l', e, k)
    ensures SentFirst(l, ms, script, l', e, k + 1)
  {
    assert ms[..k + 1] == [ms[0]] + ms[1..][..k];
    forall i | 0 <= i < k + 1 - (if e == 0 then 0 else 1) ensures Acked(ms[i], script(l.used + i)) {
      if i > 0 { assert Acked(ms[1..][i - 1], script(Send(l, ms[0], script).used + (i - 1))); }
    }
  }

  /** What a run sent is a prefix of the messages it had to send. */
  lemma {:induction false} SentIsPrefix(l: Link, ms: seq<Msg>, script: nat -> Outcome) returns (k: nat)
    ensures var (l', e) := SendAll(l, ms, script); SentFirst(l, ms, script, l', e, k)
    decreases |ms|
  {
    if ms == [] {
      k := 0;
    } else if ErrorOf(ms[0], script(l.used)) != 0 {
      k := if script(l.used).KeyMissing? then 0 else 1;
    } else {
      k := SentIsPrefix(Send(l, ms[0], script), ms[1..], script);
      var (l', e) := SendAll(l, ms, script);
      SentFirstCons(l, ms, script, l', e, k);
      k := k + 1;
    }
  }

  /** A run leaves the node as some prefix of its messages leaves it; on success, as all of them do. */
  lemma {:induction false} RunAppliesPrefix(l: Link, ms: seq<Msg>, script: nat -> Outcome) returns (k: nat)
    ensures var (l', e) := SendAll(l, ms, script);
            k <= |ms| && l'.remote == Exec(ms[..k], l.remote) && (e == 0 ==> k == |ms|)
    decreases |ms|
  {
    if ms == [] {
      k := 0;
    } else if ErrorOf(ms[0], script(l.used)) != 0 {
      k := if script(l.used).AnswerLost? then 1 else 0;
      assert ms[..1] == [ms[0]];
    } else {
      var k1 := RunAppliesPrefix(Send(l, ms[0], script), ms[1..], script);
      k := k1 + 1;
      assert ms[..k][1..] == ms[1..][..k1];
    }
  }

  // ---------------------------------------------------------------------------- effects combine

  /** Later state laid over earlier state. */
  function Overlay(r: Remote, f: Remote): Remote {
    Remote(r.netKeys + f.netKeys, r.appKeys + f.appKeys, r.binds + f.binds, r.subs + f.subs, r.pubs + f.pubs)
  }

  predicate Covers(f: Remote, g: Remote) {
    && g.netKeys <= f.netKeys && g.appKeys <= f.appKeys && g.binds <= f.binds && g.subs <= f.subs
    && g.pubs.Keys <= f.pubs.Keys
  }

  lemma OverlayEffect(r: Remote, f: Remote, m: Msg)
    ensures Overlay(r, Effect(f, m)) == Effect(Overlay(r, f), m)
    ensures Covers(Effect(f, m), f)
  {
    var a, b := Overlay(r, Effect(f, m)), Effect(Overlay(r, f), m);
    assert a.netKeys == b.netKeys;
    assert a.appKeys == b.appKeys;
    assert a.binds == b.binds;
    assert a.subs == b.subs;
    assert a.pubs == b.pubs;
  }

  /** Messages act on a node as a fixed footprint laid over whatever was there. */
  lemma {:induction false} ExecIsOverlay(ms: seq<Msg>, r: Remote, f: Remote)
    ensures Exec(ms, Overlay(r, f)) == Overlay(r, Exec(ms, f))
    ensures Covers(Exec(ms, f), f)
    decreases |ms|
  {
    if ms == [] {
    } else {
      OverlayEffect(r, f, ms[0]);
      ExecIsOverlay(ms[1..], r, Effect(f, ms[0]));
    }
  }

  lemma OverlayBlank(r: Remote)
    ensures Overlay(r, BLANK) == r
  {
    assert Overlay(r, BLANK).pubs == r.pubs;
  }

  lemma {:induction false} ExecAppend(p: seq<Msg>, q: seq<Msg>, r: Remote)
    ensures Exec(p + q, r) == Exec(q, Exec(p, r))
    decreases |p|
  {
    if p == [] {
      assert p + q == q;
    } else {
      assert (p + q)[1..] == p[1..] + q;
      ExecAppend(p[1..], q, Effect(r, p[0]));
    }
  }

  lemma OverlayAbsorbs(r: Remote, g: Remote, f: Remote)
    requires Covers(f, g)
    ensures Overlay(Overlay(r, g), f) == Overlay(r, f)
  {
    var a, b := Overlay(Overlay(r, g), f), Overlay(r, f);
    assert a.netKeys == b.netKeys;
    assert a.appKeys == b.appKeys;
    assert a.binds == b.binds;
    assert a.subs == b.subs;
    assert a.pubs == b.pubs;
  }

  /** A whole run hides any partial run of the same messages before it. */
  lemma WholeHidesPrefix(ms: seq<Msg>, k: nat, r: Remote)
    requires k <= |ms|
    ensures Exec(ms, Exec(ms[..k], r)) == Exec(ms, r)
  {
    var g, f := Exec(ms[..k], BLANK), Exec(ms, BLANK);
    OverlayBlank(r);
    ExecIsOverlay(ms[..k], r, BLANK);
    ExecIsOverlay(ms, r, BLANK);
    OverlayBlank(Overlay(r, g));
    ExecIsOverlay(ms, Overlay(r, g), BLANK);
    assert ms[..k] + ms[k..] == ms;
    ExecAppend(ms[..k], ms[k..], BLANK);
    ExecIsOverlay(ms[k..], BLANK, g);
    OverlayAbsorbs(r, g, f);
  }

  // ---------------------------------------------------------------------------- what a recipe asks for

  /** Step s concerns the node's i-th element. */
  predicate Concerns(s: Step, comp: seq<Element>, i: nat)
    requires i < |comp|
  {
    match s.sel
    case AddrOff(p) => p == i
    case AllWithModel => HasModel(comp[i], s.model)
  }

  lemma {:induction false} HoldersAre(n: Node, comp: seq<Element>, k: nat, m: ModelRef, a: nat)
    requires n.addr + |comp| <= 0x10000 && k <= |comp| <= MAX_ELEM
    ensures a in Holders(comp, n.addr, ElemAddrs(n, k), m)
            <==> n.addr <= a < n.addr + k && HasModel(comp[a - n.addr], m)
  {
    if k == 0 {
    } else {
      assert ElemAddrs(n, k)[..k - 1] == ElemAddrs(n, k - 1);
      HoldersAre(n, comp, k - 1, m, a);
    }
  }

  predicate Ascending(a: seq<nat>) {
    forall i, j :: 0 <= i < j < |a| ==> a[i] < a[j]
  }

  lemma {:induction false} HoldersAscend(n: Node, comp: seq<Element>, k: nat, m: ModelRef)
    requires n.addr + |comp| <= 0x10000 && k <= |comp| <= MAX_ELEM
    ensures Ascending(Holders(comp, n.addr, ElemAddrs(n, k), m))
  {
    if k == 0 {
    } else {
      assert ElemAddrs(n, k)[..k - 1] == ElemAddrs(n, k - 1);
      HoldersAscend(n, comp, k - 1, m);
      var h := Holders(comp, n.addr, ElemAddrs(n, k - 1), m);
      forall i | 0 <= i < |h| ensures h[i] < n.addr + k - 1 {
        assert h[i] in h;
        HoldersAre(n, comp, k - 1, m, h[i]);
      }
    }
  }

  /** A step addresses the elements it concerns, from the primary up, each once, and none at all when its
      offset is beyond the node. */
  lemma TargetsInOrder(n: Node, comp: seq<Element>, s: Step)
    requires n.addr + |comp| <= 0x10000 && |comp| <= MAX_ELEM
    ensures var t := Targets(comp, n.addr, ElemAddrs(n, |comp|), s);
            && (t.None? <==> s.sel.AddrOff? && s.sel.param >= |comp|)
            && (t.Some? ==> Ascending(t.value))
  {
    HoldersAscend(n, comp, |comp|, s.model);
  }

  /** The steps' messages follow one another in the order of the steps, up to the first step that addresses a
      missing element. */
  lemma {:induction false} StepsInOrder(comp: seq<Element>, primary: nat, addrs: seq<nat>, p: seq<Step>, q: seq<Step>)
    ensures var x, y := Expand(comp, primary, addrs, p), Expand(comp, primary, addrs, q);
            Expand(comp, primary, addrs, p + q) == if x.complete then Expansion(x.msgs + y.msgs, y.complete) else x
  {
    if p == [] {
      assert p + q == q;
    } else {
      assert (p + q)[1..] == p[1..] + q;
      StepsInOrder(comp, primary, addrs, p[1..], q);
    }
  }

  /** One step's messages go to its targets in order. */
  lemma StepSends(comp: seq<Element>, primary: nat, addrs: seq<nat>, s: Step)
    ensures var t, x := Targets(comp, primary, addrs, s), Expand(comp, primary, addrs, [s]);
            if t.None? then x == Expansion([], false)
            else
              && x.complete && |x.msgs| == |t.value|
              && forall i :: 0 <= i < |t.value| ==> x.msgs[i] == ToMsg(s, t.value[i])
  {
    assert Expand(comp, primary, addrs, [s][1..]) == Expansion([], true);
  }

  lemma TargetsAre(n: Node, comp: seq<Element>, s: Step, a: nat)
    requires n.addr + |comp| <= 0x10000 && |comp| <= MAX_ELEM
    ensures var t := Targets(comp, n.addr, ElemAddrs(n, |comp|), s);
            t.Some? ==> (a in t.value <==> n.addr <= a < n.addr + |comp| && Concerns(s, comp, a - n.addr))
  {
    HoldersAre(n, comp, |comp|, s.model, a);
    if s.sel.AddrOff? && s.sel.param < |comp| { ElemAddrIs(n, s.sel.param); }
  }

  /** No address wraps around on a node that fits below 0x10000; on any other the next one after 0xffff is 0. */
  lemma ElemAddrIs(n: Node, i: nat)
    ensures n.addr + i < 0x10000 ==> ElemAddr(n, i) == n.addr + i
    ensures 0x10000 <= n.addr + i < 0x20000 ==> ElemAddr(n, i) == n.addr + i - 0x10000
  {
  }

  /** A model without a company (0xffff) is a SIG model, any other a vendor model of that very company. */
  lemma HasModelMeans(e: Element, id: nat, cid: nat)
    ensures HasModel(e, ModelRef(id, cid)) <==>
              if cid == 0xffff then exists k :: 0 <= k < |e.sig| && e.sig[k] == id
              else exists k :: 0 <= k < |e.vnd| && e.vnd[k].id == id && e.vnd[k].cid == cid
  {
    if cid != 0xffff {
      if k :| 0 <= k < |e.vnd| && e.vnd[k].id == id && e.vnd[k].cid == cid { assert e.vnd[k] == ModelRef(id, cid); }
    }
  }

  /** An address has a model exactly when it is that of one of the first five elements of the page and that
      element has the model. */
  lemma AddrHasModelMeans(comp: seq<Element>, primary: nat, elem: nat, m: ModelRef)
    ensures AddrHasModel(comp, primary, elem, m) <==>
              exists i :: 0 <= i < |comp| && i < 5 && elem == primary + i && HasModel(comp[i], m)
  {
    if primary <= elem < primary + |comp| { assert elem == primary + (elem - primary); }
  }

  /** A recipe's expansion holds exactly the message of each step for each element the step concerns: the
      one at its offset, or every element whose composition has its model. */
  lemma {:induction false} ExpansionHolds(n: Node, comp: seq<Element>, steps: seq<Step>, m: Msg)
    requires n.addr + |comp| <= 0x10000 && |comp| <= MAX_ELEM
    requires Expand(comp, n.addr, ElemAddrs(n, |comp|), steps).complete
    ensures m in Expand(comp, n.addr, ElemAddrs(n, |comp|), steps).msgs
            <==> exists j, i :: 0 <= j < |steps| && 0 <= i < |comp| && Concerns(steps[j], comp, i)
                                && m == ToMsg(steps[j], n.addr + i)
  {
    if steps == [] {
    } else {
      var t := Targets(comp, n.addr, ElemAddrs(n, |comp|), steps[0]);
      var rest := Expand(comp, n.addr, ElemAddrs(n, |comp|), steps[1..]);
      ExpansionHolds(n, comp, steps[1..], m);
      FirstStepHolds(n, comp, steps[0], m);
      assert m in Expand(comp, n.addr, ElemAddrs(n, |comp|), steps).msgs
             <==> m in ToMsgs(steps[0], t.value) || m in rest.msgs;
      forall j, i | 0 <= j < |steps| && 0 <= i < |comp| && Concerns(steps[j], comp, i)
                    && m == ToMsg(steps[j], n.addr + i)
        ensures m in ToMsgs(steps[0], t.value) || m in rest.msgs
      {
        if j > 0 { assert steps[j] == steps[1..][j - 1]; }
      }
    }
  }

  lemma FirstStepHolds(n: Node, comp: seq<Element>, s: Step, m: Msg)
    requires n.addr + |comp| <= 0x10000 && |comp| <= MAX_ELEM
    ensures var t := Targets(comp, n.addr, ElemAddrs(n, |comp|), s);
            t.Some? ==>
              (m in ToMsgs(s, t.value) <==>
               exists i :: 0 <= i < |comp| && Concerns(s, comp, i) && m == ToMsg(s, n.addr + i))
  {
    var t := Targets(comp, n.addr, ElemAddrs(n, |comp|), s);
    if t.Some? {
      if m in ToMsgs(s, t.value) {
        var k :| 0 <= k < |t.value| && m == ToMsg(s, t.value[k]);
        TargetsAre(n, comp, s, t.value[k]);
        assert Concerns(s, comp, t.value[k] - n.addr) && m == ToMsg(s, n.addr + (t.value[k] - n.addr));
      }
      forall i | 0 <= i < |comp| && Concerns(s, comp, i) && m == ToMsg(s, n.addr + i) ensures m in ToMsgs(s, t.value) {
        TargetsAre(n, comp, s, n.addr + i);
        var k :| 0 <= k < |t.value| && t.value[k] == n.addr + i;
        assert ToMsgs(s, t.value)[k] == m;
      }
    }
  }

  // ---------------------------------------------------------------------------- retries

  /** One attempt: what the composition request brought back and what became of each message. */
  datatype Attempt = Attempt(fetch: Fetch, script: nat -> Outcome)

  function RunOn(table: Recipes, n: Node, id: nat, a: Attempt, r: Remote): (Link, int) {
    RunRecipe(table, n, id, a.fetch, a.script, Link(r, [], 0))
  }

  /** Any number of attempts, one after the other, whatever their results. */
  function Retry(table: Recipes, n: Node, id: nat, attempts: seq<Attempt>, r: Remote): Remote
    decreases |attempts|
  {
    if attempts == [] then r
    else Retry(table, n, id, attempts[1..], RunOn(table, n, id, attempts[0], r).0.remote)
  }

  /** A single attempt sends a prefix of the recipe's expansion over the node's elements, and on success
      all of it, each message acknowledged. */
  lemma AttemptSendsPrefix(table: Recipes, n: Node, id: nat, a: Attempt, r: Remote)
    ensures var (l, e) := RunOn(table, n, id, a, r);
            && (l.sent != [] || e == 0 ==> Assignable(id) && a.fetch.Page? && |a.fetch.comp| == n.numElem <= MAX_ELEM)
            && (l.sent != [] || e == 0 ==> l.sent <= ExpansionOn(table, n, id, a.fetch.comp).msgs)
            && (e == 0 ==>
                  var x := ExpansionOn(table, n, id, a.fetch.comp);
                  && x.complete && l.sent == x.msgs
                  && (forall k :: 0 <= k < |x.msgs| ==> Acked(x.msgs[k], a.script(k))))
  {
    if Assignable(id) && FetchErrorOf(a.fetch, n) == 0 {
      var x := ExpansionOn(table, n, id, a.fetch.comp);
      var k := SentIsPrefix(Link(r, [], 0), x.msgs, a.script);
      assert x.msgs[..|x.msgs|] == x.msgs;
    }
  }

  /** Messages leave a node with what it had and what they ask for, and nothing else. */
  lemma {:induction false} ExecHolds(ms: seq<Msg>, r: Remote, m: Msg)
    ensures Holds(Exec(ms, r), m) <==> Holds(r, m) || exists k :: 0 <= k < |ms| && Asks(ms[k], m)
    decreases |ms|
  {
    if ms == [] {
    } else {
      ExecHolds(ms[1..], Effect(r, ms[0]), m);
      assert Holds(Effect(r, ms[0]), m) <==> Holds(r, m) || Asks(ms[0], m);
      assert forall k :: 1 <= k < |ms| ==> ms[k] == ms[1..][k - 1];
      assert forall k :: 0 <= k < |ms| - 1 ==> ms[1..][k] == ms[k + 1];
    }
  }

  predicate Holds(r: Remote, m: Msg) {
    match m
    case NetKey(k) => k in r.netKeys
    case AppKey(nk, ak) => (nk, ak) in r.appKeys
    case Bind(e, md, a) => (e, md, a) in r.binds
    case Sub(e, md, g) => (e, md, g) in r.subs
    case Publish(e, md, _) => (e, md) in r.pubs
  }

  /** When every message that sets a model's publication sets the same one, that one is left. */
  lemma {:induction false} ExecPublishes(ms: seq<Msg>, r: Remote, e: nat, md: ModelRef, p: Pub)
    requires forall k :: 0 <= k < |ms| && ms[k].Publish? && ms[k].elem == e && ms[k].model == md ==> ms[k].pub == p
    requires Publish(e, md, p) in ms || ((e, md) in r.pubs && r.pubs[(e, md)] == p)
    ensures (e, md) in Exec(ms, r).pubs && Exec(ms, r).pubs[(e, md)] == p
    decreases |ms|
  {
    if ms == [] {
    } else {
      ExecPublishes(ms[1..], Effect(r, ms[0]), e, md, p);
    }
  }

  /** The node has what step s asks for on the element at address `elem`. */
  predicate InPlace(r: Remote, s: Step, elem: nat) {
    match s.op
    case NetKeyAdd(k) => k in r.netKeys
    case AppKeyAdd(nk, ak) => (nk, ak) in r.appKeys
    case BindApp => (elem, s.model, s.appIdx) in r.binds
    case SubAdd(g) => (elem, s.model, g) in r.subs
    case PubSet(_, _, _, _, _) => (elem, s.model) in r.pubs
  }

  lemma HoldsIsInPlace(r: Remote, s: Step, elem: nat)
    ensures Holds(r, ToMsg(s, elem)) <==> InPlace(r, s, elem)
  {
  }

  /** What a successful run means to the node: for every step and every element it concerns, the key, the
      binding, the subscription or a publication is there. */
  lemma SuccessConfigures(table: Recipes, n: Node, id: nat, a: Attempt, r: Remote, s: Step, i: nat, after: Remote)
    requires Succeeded(table, n, id, a, r, after) && n.addr + n.numElem <= 0x10000
    requires s in table[id] && i < |a.fetch.comp| && Concerns(s, a.fetch.comp, i)
    ensures InPlace(after, s, n.addr + i)
  {
    var m := ToMsg(s, n.addr + i);
    SuccessSends(table, n, id, a, r, s, i, after);
    var ms := ExpansionOn(table, n, id, a.fetch.comp).msgs;
    ExecHolds(ms, r, m);
    var k :| 0 <= k < |ms| && ms[k] == m;
    assert Asks(ms[k], m);
    HoldsIsInPlace(after, s, n.addr + i);
  }

  /** And nothing is there but what was there before or what some step asks of an element it concerns. */
  lemma SuccessAddsNoMore(table: Recipes, n: Node, id: nat, a: Attempt, r: Remote, m: Msg, after: Remote)
    requires Succeeded(table, n, id, a, r, after) && n.addr + n.numElem <= 0x10000
    requires Holds(after, m) && !Holds(r, m)
    ensures exists j, i :: 0 <= j < |table[id]| && 0 <= i < |a.fetch.comp|
                           && Concerns(table[id][j], a.fetch.comp, i) && Asks(ToMsg(table[id][j], n.addr + i), m)
  {
    var ms := ExpansionOn(table, n, id, a.fetch.comp).msgs;
    AttemptSendsPrefix(table, n, id, a, r);
    RunLeaves(table, n, id, a, r);
    ExecHolds(ms, r, m);
    var k :| 0 <= k < |ms| && Asks(ms[k], m);
    ExpansionHolds(n, a.fetch.comp, table[id], ms[k]);
  }

  /** The attempt succeeded and left the node as `after`. */
  predicate Succeeded(table: Recipes, n: Node, id: nat, a: Attempt, r: Remote, after: Remote) {
    var (l, e) := RunOn(table, n, id, a, r);
    e == 0 && l.remote == after && id < RECIPE_COUNT && a.fetch.Page?
  }

  lemma SuccessSends(table: Recipes, n: Node, id: nat, a: Attempt, r: Remote, s: Step, i: nat, after: Remote)
    requires Succeeded(table, n, id, a, r, after) && n.addr + n.numElem <= 0x10000
    requires s in table[id] && i < |a.fetch.comp| && Concerns(s, a.fetch.comp, i)
    ensures var x := ExpansionOn(table, n, id, a.fetch.comp);
            && x.complete && ToMsg(s, n.addr + i) in x.msgs && |a.fetch.comp| == n.numElem <= MAX_ELEM
            && after == Exec(x.msgs, r)
  {
    AttemptSendsPrefix(table, n, id, a, r);
    RunLeaves(table, n, id, a, r);
    ExpansionHolds(n, a.fetch.comp, table[id], ToMsg(s, n.addr + i));
  }

  /** No other of the steps sets the publication of the same model of element i. */
  ghost predicate OnlySetter(steps: seq<Step>, comp: seq<Element>, i: nat, s: Step)
    requires i < |comp|
  {
    forall o :: o in steps && o.op.PubSet? && o.model == s.model && Concerns(o, comp, i) ==> o == s
  }

  /** And the model publishes as the step says, unless the recipe also sets another publication for the
      same model of the same element. */
  lemma SuccessPublishes(table: Recipes, n: Node, id: nat, a: Attempt, r: Remote, s: Step, i: nat, after: Remote)
    requires Succeeded(table, n, id, a, r, after) && n.addr + n.numElem <= 0x10000
    requires s in table[id] && s.op.PubSet? && i < |a.fetch.comp| && Concerns(s, a.fetch.comp, i)
    requires OnlySetter(table[id], a.fetch.comp, i, s)
    ensures (n.addr + i, s.model) in after.pubs
    ensures var p := after.pubs[(n.addr + i, s.model)];
            && p.addr == s.op.addr && p.appIdx == s.appIdx && p.cred == s.op.cred
            && p.ttl == s.op.ttl && p.period == s.op.period && p.transmit == s.op.transmit
  {
    SuccessSends(table, n, id, a, r, s, i, after);
    ExpansionPublishes(n, a.fetch.comp, table[id], s, i, r, ExpansionOn(table, n, id, a.fetch.comp).msgs);
  }

  lemma ExpansionPublishes(n: Node, comp: seq<Element>, steps: seq<Step>, s: Step, i: nat, r: Remote, ms: seq<Msg>)
    requires n.addr + |comp| <= 0x10000 && |comp| <= MAX_ELEM && i < |comp| && s.op.PubSet?
    requires Expand(comp, n.addr, ElemAddrs(n, |comp|), steps) == Expansion(ms, true) && ToMsg(s, n.addr + i) in ms
    requires OnlySetter(steps, comp, i, s)
    ensures (n.addr + i, s.model) in Exec(ms, r).pubs && Exec(ms, r).pubs[(n.addr + i, s.model)] == PubOf(s)
  {
    OnlyPublication(n, comp, steps, s, i, ms);
    PublicationLeft(ms, r, s, n.addr + i);
  }

  /** When the messages set the model's publication only as the step does, that is what is left. */
  lemma PublicationLeft(ms: seq<Msg>, r: Remote, s: Step, elem: nat)
    requires s.op.PubSet? && ToMsg(s, elem) in ms
    requires forall k :: 0 <= k < |ms| && ms[k].Publish? && ms[k].elem == elem && ms[k].model == s.model
                         ==> ms[k].pub == PubOf(s)
    ensures (elem, s.model) in Exec(ms, r).pubs && Exec(ms, r).pubs[(elem, s.model)] == PubOf(s)
  {
    ExecPublishes(ms, r, elem, s.model, PubOf(s));
  }

  lemma RunLeaves(table: Recipes, n: Node, id: nat, a: Attempt, r: Remote)
    requires RunOn(table, n, id, a, r).1 == 0
    ensures Assignable(id) && a.fetch.Page?
    ensures RunOn(table, n, id, a, r).0.remote == Exec(ExpansionOn(table, n, id, a.fetch.comp).msgs, r)
  {
    RetryConverges(table, n, id, a.fetch.comp, [], a, r);
  }

  lemma OnlyPublication(n: Node, comp: seq<Element>, steps: seq<Step>, s: Step, i: nat, ms: seq<Msg>)
    requires n.addr + |comp| <= 0x10000 && |comp| <= MAX_ELEM && i < |comp|
    requires s.op.PubSet?
    requires Expand(comp, n.addr, ElemAddrs(n, |comp|), steps) == Expansion(ms, true)
    requires OnlySetter(steps, comp, i, s)
    ensures forall k :: 0 <= k < |ms| && ms[k].Publish? && ms[k].elem == n.addr + i && ms[k].model == s.model
                        ==> ms[k].pub == PubOf(s)
  {
    forall k | 0 <= k < |ms| && ms[k].Publish? && ms[k].elem == n.addr + i && ms[k].model == s.model
      ensures ms[k].pub == PubOf(s)
    {
      ExpansionHolds(n, comp, steps, ms[k]);
      var j, h :| 0 <= j < |steps| && 0 <= h < |comp| && Concerns(steps[j], comp, h)
                  && ms[k] == ToMsg(steps[j], n.addr + h);
      assert steps[j] in steps && h == i;
    }
  }

  /** Failed attempts never hurt: after any number of attempts, a successful one leaves the node exactly
      as a single clean run from the start would, even if messages took effect whose answers were lost. */
  lemma {:induction false} RetryConverges(table: Recipes, n: Node, id: nat, comp: seq<Element>,
                                          attempts: seq<Attempt>, last: Attempt, r: Remote)
    requires forall i :: 0 <= i < |attempts| ==> attempts[i].fetch.Page? ==> attempts[i].fetch.comp == comp
    requires last.fetch.Page? && last.fetch.comp == comp
    requires RunOn(table, n, id, last, Retry(table, n, id, attempts, r)).1 == 0
    ensures Assignable(id)
    ensures RunOn(table, n, id, last, Retry(table, n, id, attempts, r)).0.remote
            == Exec(ExpansionOn(table, n, id, comp).msgs, r)
    ensures RunOn(table, n, id, last, r).1 == 0
    ensures RunOn(table, n, id, last, r).0.remote == Exec(ExpansionOn(table, n, id, comp).msgs, r)
    decreases |attempts|
  {
    AttemptSendsPrefix(table, n, id, last, Retry(table, n, id, attempts, r));
    ErrorIgnoresRemote(table, n, id, last, Retry(table, n, id, attempts, r), r);
    var ms := ExpansionOn(table, n, id, comp).msgs;
    var whole := RunAppliesPrefix(Link(r, [], 0), ms, last.script);
    assert ms[..|ms|] == ms;
    if attempts == [] {
    } else {
      var a, r1 := attempts[0], RunOn(table, n, id, attempts[0], r).0.remote;
      if FetchErrorOf(a.fetch, n) == 0 {
        var k := RunAppliesPrefix(Link(r, [], 0), ms, a.script);
        WholeHidesPrefix(ms, k, r);
      }
      RetryConverges(table, n, id, comp, attempts[1..], last, r1);
    }
  }

  /** Whether an attempt succeeds depends on its outcomes only, not on the node's state. */
  lemma ErrorIgnoresRemote(table: Recipes, n: Node, id: nat, a: Attempt, r: Remote, s: Remote)
    ensures RunOn(table, n, id, a, r).1 == RunOn(table, n, id, a, s).1
  {
    if Assignable(id) && FetchErrorOf(a.fetch, n) == 0 {
      SendErrorIgnoresRemote(Link(r, [], 0), Link(s, [], 0), ExpansionOn(table, n, id, a.fetch.comp).msgs, a.script);
    }
  }

  lemma {:induction false} SendErrorIgnoresRemote(l: Link, l': Link, ms: seq<Msg>, script: nat -> Outcome)
    requires l.used == l'.used
    ensures SendAll(l, ms, script).1 == SendAll(l', ms, script).1
    decreases |ms|
  {
    if ms == [] || ErrorOf(ms[0], script(l.used)) != 0 {
    } else {
      SendErrorIgnoresRemote(Send(l, ms[0], script), Send(l', ms[0], script), ms[1..], script);
    }
  }
}
