/** The recipe executor: loops over a recipe's steps and each step's elements, sending one configuration
    message at a time over a link that may fail at any of them. */
module RecipeRunner {
  import opened Bytes
  import opened Interface
  import opened ScenarioSpec
  import opened RecipeSpec

  /** The Configuration Client, with the outcome of every message to come fixed in advance. */
  class ConfigClient {
    const script: nat -> Outcome
    var remote: Remote
    var sent: seq<Msg>
    var used: nat

    function State(): Link
      reads this
    {
      Link(remote, sent, used)
    }

    constructor (script: nat -> Outcome, remote: Remote)
      ensures this.script == script && State() == Link(remote, [], 0)
    {
      this.script := script;
      this.remote := remote;
      sent := [];
      used := 0;
    }

    method Send(m: Msg) returns (err: int)
      modifies this
      ensures State() == RecipeSpec.Send(old(State()), m, script)
      ensures err == ErrorOf(m, script(old(used)))
    {
      var o := script(used);
      used := used + 1;
      if o.KeyMissing? { return ENOENT; }
      sent := sent + [m];
      remote := Deliver(remote, m, o);
      err := ErrorOf(m, o);
    }
  }

  lemma {:induction false} SendAllAppend(l: Link, p: seq<Msg>, q: seq<Msg>, script: nat -> Outcome)
    ensures var (l1, e1) := SendAll(l, p, script);
            SendAll(l, p + q, script) == if e1 != 0 then (l1, e1) else SendAll(l1, q, script)
    decreases |p|
  {
    if p == [] {
      assert p + q == q;
    } else {
      assert (p + q)[1..] == p[1..] + q;
      SendAllAppend(RecipeSpec.Send(l, p[0], script), p[1..], q, script);
    }
  }

  /** A run of `all` from l0 has come to l with `rest` still to do. */
  ghost predicate StillToDo(l0: Link, all: Expansion, l: Link, rest: Expansion, script: nat -> Outcome) {
    all.complete == rest.complete && SendAll(l0, all.msgs, script) == SendAll(l, rest.msgs, script)
  }

  /** One step of the recipe: it addresses a missing element, fails on the way, or leaves the others to do. */
  lemma StepDone(l0: Link, all: Expansion, l: Link, rest: Expansion, script: nat -> Outcome,
                 t: Option<seq<nat>>, s: Step, after: Expansion, l1: Link, err: int)
    requires StillToDo(l0, all, l, rest, script)
    requires rest == if t.None? then Expansion([], false)
                     else Expansion(ToMsgs(s, t.value) + after.msgs, after.complete)
    requires if t.None? then err == EINVAL && l1 == l else (l1, err) == SendAll(l, ToMsgs(s, t.value), script)
    ensures err == 0 ==> StillToDo(l0, all, l1, after, script)
    ensures err != 0 ==>
              var (l', e) := SendAll(l0, all.msgs, script);
              l1 == l' && err == if e == 0 && !all.complete then EINVAL else e
  {
    if t.Some? { SendAllAppend(l, ToMsgs(s, t.value), after.msgs, script); }
  }

  class MeshNetCfg {
    const client: ConfigClient
    const recipes: Recipes
    var compPage: seq<Element>

    constructor (client: ConfigClient, recipes: Recipes)
      ensures this.client == client && this.recipes == recipes
    {
      this.client := client;
      this.recipes := recipes;
      compPage := [];
    }

    method CompElemHasModel(primary: nat, elem: nat, m: ModelRef) returns (found: bool)
      ensures found == AddrHasModel(compPage, primary, elem, m)
    {
      if elem < primary { return false; }
      var idx := elem - primary;
      if idx >= MAX_ELEM || idx >= |compPage| { return false; }
      var e := compPage[idx];
      if m.cid == CID_NVAL {
        for s := 0 to |e.sig|
          invariant m.id !in e.sig[..s]
        {
          if e.sig[s] == m.id { return true; }
        }
        assert e.sig[..|e.sig|] == e.sig;
      } else {
        for v := 0 to |e.vnd|
          invariant m !in e.vnd[..v]
        {
          if e.vnd[v].id == m.id && e.vnd[v].cid == m.cid { return true; }
        }
        assert e.vnd[..|e.vnd|] == e.vnd;
      }
      return false;
    }

    /** Stores the page and counts its elements, one address each. */
    method CompDataFetch(n: Node, f: Fetch) returns (err: int, addrs: seq<nat>)
      modifies this
      ensures err == 0 ==> f.Page? && f.number == 0 && |f.comp| <= MAX_ELEM
                           && compPage == f.comp && addrs == ElemAddrs(n, |f.comp|)
      ensures err != 0 ==> err == FetchErrorOf(f, n)
    {
      addrs := [];
      if f.FetchError? { return -1 - f.code, []; }
      if f.number != 0 { return EIO, []; }
      compPage := f.comp;
      var count := 0;
      while count < |compPage|
        invariant count <= |compPage| && count <= MAX_ELEM && compPage == f.comp
        invariant addrs == ElemAddrs(n, count)
      {
        if count >= MAX_ELEM { return ENOMEM, []; }
        addrs := addrs + [ElemAddr(n, count)];
        count := count + 1;
      }
      err := 0;
    }

    method ApplyStep(n: Node, s: Step, addrs: seq<nat>) returns (err: int)
      modifies client
      ensures var t := Targets(compPage, n.addr, addrs, s);
              if t.None? then err == EINVAL && client.State() == old(client.State())
              else (client.State(), err) == SendAll(old(client.State()), ToMsgs(s, t.value), client.script)
    {
      var elems: seq<nat> := [];
      match s.sel {
        case AddrOff(p) =>
          if p >= |addrs| { return EINVAL; }
          elems := [addrs[p]];
        case AllWithModel =>
          for i := 0 to |addrs|
            invariant client.State() == old(client.State())
            invariant elems == Holders(compPage, n.addr, addrs[..i], s.model)
          {
            assert addrs[..i + 1][..i] == addrs[..i];
            var has := CompElemHasModel(n.addr, addrs[i], s.model);
            if has { elems := elems + [addrs[i]]; }
          }
          assert addrs[..|addrs|] == addrs;
      }

      ghost var ms := ToMsgs(s, elems);
      var i := 0;
      err := 0;
      while i < |elems| && err == 0
        invariant i <= |elems|
        invariant SendAll(old(client.State()), ms, client.script)
                  == if err == 0 then SendAll(client.State(), ms[i..], client.script) else (client.State(), err)
      {
        assert ms[i..][1..] == ms[i + 1..];
        err := client.Send(ToMsg(s, elems[i]));
        i := i + 1;
      }
    }

    /** mesh_config_apply_recipe. */
    method ApplyRecipe(n: Node, id: nat, f: Fetch) returns (err: int)
      modifies this, client
      ensures (client.State(), err) == RunRecipe(recipes, n, id, f, client.script, old(client.State()))
    {
      if id == RECIPE_NONE || id >= RECIPE_COUNT { return ENOENT; }
      var addrs;
      err, addrs := CompDataFetch(n, f);
      if err != 0 { return; }
      if |addrs| != n.numElem { return EINVAL; }

      var steps := recipes[id];
      ghost var all, l0 := ExpansionOn(recipes, n, id, f.comp), client.State();
      assert steps[0..] == steps;
      var s := 0;
      while s < |steps|
        invariant s <= |steps| && compPage == f.comp
        invariant StillToDo(l0, all, client.State(), Expand(f.comp, n.addr, addrs, steps[s..]), client.script)
      {
        ghost var l, rest := client.State(), Expand(f.comp, n.addr, addrs, steps[s..]);
        assert steps[s..][1..] == steps[s + 1..];
        err := ApplyStep(n, steps[s], addrs);
        StepDone(l0, all, l, rest, client.script, Targets(f.comp, n.addr, addrs, steps[s]), steps[s],
                 Expand(f.comp, n.addr, addrs, steps[s + 1..]), client.State(), err);
        if err != 0 { return; }
        s := s + 1;
      }
      err := 0;
    }
  }
}
