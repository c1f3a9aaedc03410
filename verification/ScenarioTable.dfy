/** The scenario table as the program keeps it: an array of rows whose rotation index is the only field
    that ever changes. */
module ScenarioTable {
  import opened Bytes
  import opened Interface
  import opened Modular
  import opened ScenarioSpec
  import M = ScenarioMatch

  class ScenarioTable {
    const rows: array<Row>

    ghost predicate Valid()
      reads this, rows
    {
      TableOk(rows[..])
    }

    constructor (initial: seq<Row>)
      requires TableOk(initial)
      ensures Valid() && fresh(rows) && rows[..] == initial
    {
      rows := new Row[|initial|](i requires 0 <= i < |initial| => initial[i]);
      new;
      assert rows[..] == initial;
    }

    method FindRow(u: Uuid, name: Option<seq<Byte>>) returns (r: Option<nat>)
      ensures r == ScenarioSpec.FindRow(rows[..], u, name)
    {
      var best: Option<nat> := None;
      var bestLen := 0;
      var i := 0;
      while i < rows.Length
        invariant i <= rows.Length
        invariant best == BestUuid(rows[..], u, i)
        invariant bestLen == if best.Some? then |rows[best.value].pattern| / 2 else 0
      {
        if rows[i].kind == MatchUuid {
          var matchLen := |rows[i].pattern| / 2;
          if matchLen > bestLen && UuidHexMatch(rows[i].pattern, u) {
            best := Some(i);
            bestLen := matchLen;
          }
        }
        i := i + 1;
      }
      if best.Some? { return best; }

      i := 0;
      while i < rows.Length
        invariant i <= rows.Length
        invariant FirstName(rows[..], name, 0) == FirstName(rows[..], name, i)
      {
        if rows[i].kind == MatchName && DeviceNameMatch(rows[i].pattern, name) { return Some(i); }
        i := i + 1;
      }
      return None;
    }

    method ConsumeRowRecipeId(i: nat, id: nat)
      requires Valid() && i < rows.Length
      modifies rows
      ensures Valid()
      ensures rows[..] == old(rows[..])[i := Consume(old(rows[i]), id)]
    {
      if rows[i].ids.None? { return; }
      if Peek(rows[i]) != id { return; }
      rows[i] := rows[i].(idx := (rows[i].idx + 1) % |rows[i].ids.value|);
    }

    method LookupRecipeId(u: Uuid, name: Option<seq<Byte>>) returns (id: nat)
      requires Valid()
      ensures id == ScenarioSpec.LookupRecipeId(rows[..], u, name)
    {
      var r := FindRow(u, name);
      if r.None? { return RECIPE_NONE; }
      id := Peek(rows[r.value]);
      if id == RECIPE_NONE || id >= RECIPE_COUNT { return RECIPE_NONE; }
    }

    /** mesh_scenario_consume_recipe_id, called after a recipe chosen earlier was applied. */
    method ConsumeRecipeId(u: Uuid, name: Option<seq<Byte>>, id: nat)
      requires Valid()
      modifies rows
      ensures Valid()
      ensures rows[..] == Next(old(rows[..]), Latched(u, name, id))
    {
      var r := FindRow(u, name);
      if r.Some? { ConsumeRowRecipeId(r.value, id); }
    }

    /** mesh_config_apply; `outcome` is the error code each recipe's run over the air ends with. */
    method ConfigApply(u: Uuid, name: Option<seq<Byte>>, outcome: nat -> int) returns (err: int)
      requires Valid()
      modifies rows
      ensures Valid()
      ensures rows[..] == Next(old(rows[..]), Configure(u, name, outcome))
      ensures err == ApplyError(old(rows[..]), u, name, outcome)
    {
      var r := FindRow(u, name);
      if r.None? { return ENOENT; }
      var id := Peek(rows[r.value]);
      err := if id == RECIPE_NONE || id >= RECIPE_COUNT then ENOENT else outcome(id);
      if err == 0 { ConsumeRowRecipeId(r.value, id); }
    }
  }

  // ---------------------------------------------------------------------------- runs

  /** One configuration attempt: through the scenario table, or with a recipe latched earlier that was
      applied successfully. */
  datatype Event =
    | Configure(u: Uuid, name: Option<seq<Byte>>, outcome: nat -> int)
    | Latched(u: Uuid, name: Option<seq<Byte>>, id: nat)

  function ApplyError(rows: seq<Row>, u: Uuid, name: Option<seq<Byte>>, outcome: nat -> int): int
    requires TableOk(rows)
  {
    var r := ScenarioSpec.FindRow(rows, u, name);
    if r.None? then ENOENT
    else if !Assignable(Peek(rows[r.value])) then ENOENT
    else outcome(Peek(rows[r.value]))
  }

  /** The row an event succeeds on, if any, and the recipe it used there. */
  function Success(rows: seq<Row>, e: Event): (s: Option<(nat, nat)>)
    requires TableOk(rows)
    ensures s.Some? ==> s.value.0 < |rows|
  {
    var r := ScenarioSpec.FindRow(rows, e.u, e.name);
    match e
    case Configure(u, name, outcome) =>
      if r.Some? && ApplyError(rows, u, name, outcome) == 0 then Some((r.value, Peek(rows[r.value]))) else None
    case Latched(_, _, id) =>
      if r.Some? then Some((r.value, id)) else None
  }

  function Next(rows: seq<Row>, e: Event): (t: seq<Row>)
    requires TableOk(rows)
    ensures |t| == |rows| && TableOk(t)
  {
    var s := Success(rows, e);
    if s.Some? then rows[s.value.0 := Consume(rows[s.value.0], s.value.1)] else rows
  }

  function Run(rows: seq<Row>, events: seq<Event>): (t: seq<Row>)
    requires TableOk(rows)
    ensures |t| == |rows| && TableOk(t)
    decreases |events|
  {
    if events == [] then rows else Run(Next(rows, events[0]), events[1..])
  }

  /** A configuration through the table runs the very recipe that the selected row has now, and reports what its
      run ends with; without a row, or with a recipe that is not between 1 and 7, it reports -ENOENT. The row
      moves on exactly when it rotates and that run succeeded, to its next recipe or back to its first. */
  lemma ConfigureRuns(rows: seq<Row>, u: Uuid, name: Option<seq<Byte>>, outcome: nat -> int, i: nat)
    requires TableOk(rows)
    ensures M.Selects(rows, u, name, i) ==>
              var row, e := rows[i], Configure(u, name, outcome);
              var id := if row.ids.None? then row.recipeId else row.ids.value[row.idx];
              && ApplyError(rows, u, name, outcome) == (if 0 < id < 8 then outcome(id) else -2)
              && Success(rows, e) == (if 0 < id < 8 && outcome(id) == 0 then Some((i, id)) else None)
              && Next(rows, e) == if 0 < id < 8 && outcome(id) == 0 && row.ids.Some? then MovedOn(rows, i) else rows
    ensures (forall j :: 0 <= j < |rows| ==> !ByUuid(rows[j], u) && !ByName(rows[j], name)) ==>
              ApplyError(rows, u, name, outcome) == -2 && Next(rows, Configure(u, name, outcome)) == rows
  {
    M.SelectsIsFindRow(rows, u, name, i);
    if M.Selects(rows, u, name, i) { NextOnRow(rows, i); }
  }

  /** The table with row i at its next recipe, or back at its first. */
  function MovedOn(rows: seq<Row>, i: nat): seq<Row>
    requires TableOk(rows) && i < |rows| && rows[i].ids.Some?
  {
    var row := rows[i];
    rows[i := row.(idx := if row.idx + 1 == |row.ids.value| then 0 else row.idx + 1)]
  }

  lemma NextOnRow(rows: seq<Row>, i: nat)
    requires TableOk(rows) && i < |rows|
    ensures rows[i := rows[i]] == rows
    ensures rows[i].ids.Some? ==> rows[i := Consume(rows[i], rows[i].ids.value[rows[i].idx])] == MovedOn(rows, i)
  {
    assert RowOk(rows[i]);
    if rows[i].ids.Some? {
      var n := |rows[i].ids.value|;
      DivModUnique(rows[i].idx + 1, n, if rows[i].idx + 1 == n then 1 else 0,
                   if rows[i].idx + 1 == n then 0 else rows[i].idx + 1);
    }
  }

  /** A recipe latched earlier moves the device's row on exactly when it is that row's current recipe now. */
  lemma LatchedMoves(rows: seq<Row>, u: Uuid, name: Option<seq<Byte>>, id: nat, i: nat)
    requires TableOk(rows) && M.Selects(rows, u, name, i)
    ensures Next(rows, Latched(u, name, id))
            == if rows[i].ids.Some? && rows[i].ids.value[rows[i].idx] == id then MovedOn(rows, i) else rows
  {
    M.SelectsIsFindRow(rows, u, name, i);
    NextOnRow(rows, i);
  }

  predicate SucceedsOn(rows: seq<Row>, e: Event, i: nat)
    requires TableOk(rows)
  {
    Success(rows, e).Some? && Success(rows, e).value.0 == i
  }

  /** The success also moves the row on: its recipe is the row's current one. */
  predicate Advances(rows: seq<Row>, e: Event, i: nat)
    requires TableOk(rows) && i < |rows|
  {
    SucceedsOn(rows, e, i) && rows[i].ids.Some? && Success(rows, e).value.1 == Peek(rows[i])
  }

  /** A success on a row: where the row stood and which recipe was applied. */
  datatype Use = Use(slot: nat, recipe: nat)

  /** The successes on row i, in the order they happen. */
  function Used(rows: seq<Row>, events: seq<Event>, i: nat): seq<Use>
    requires TableOk(rows) && i < |rows|
    decreases |events|
  {
    if events == [] then []
    else (if SucceedsOn(rows, events[0], i) then [Use(rows[i].idx, Success(rows, events[0]).value.1)] else [])
         + Used(Next(rows, events[0]), events[1..], i)
  }

  function AdvanceCount(rows: seq<Row>, events: seq<Event>, i: nat): nat
    requires TableOk(rows) && i < |rows|
    decreases |events|
  {
    if events == [] then 0
    else (if Advances(rows, events[0], i) then 1 else 0) + AdvanceCount(Next(rows, events[0]), events[1..], i)
  }

  /** An event leaves every row alone but for the rotation index, so it never changes who matches what. */
  lemma NextKeepsRows(rows: seq<Row>, e: Event, i: nat)
    requires TableOk(rows) && i < |rows|
    ensures Next(rows, e)[i] == if Advances(rows, e, i)
                                then rows[i].(idx := (rows[i].idx + 1) % |rows[i].ids.value|) else rows[i]
    ensures Advances(rows, e, i) ==> Next(rows, e)[i] == Consume(rows[i], Peek(rows[i]))
    ensures e.Configure? && rows[i].ids.Some? ==> (Advances(rows, e, i) <==> SucceedsOn(rows, e, i))
    ensures e.Configure? && SucceedsOn(rows, e, i) ==> Success(rows, e).value.1 == Peek(rows[i])
  {
  }

  /** A row after `count` more advances. */
  function Turned(row: Row, count: nat): (r: Row)
    requires RowOk(row) && row.ids.Some?
    ensures RowOk(r)
  {
    row.(idx := Turn(row.idx, count, |row.ids.value|))
  }

  lemma TurnedNext(row: Row, count: nat)
    requires RowOk(row) && row.ids.Some?
    ensures Turned(row, 0) == row
    ensures Turned(Consume(row, Peek(row)), count) == Turned(row, count + 1)
  {
    TurnZero(row.idx, |row.ids.value|);
    TurnNext(row.idx, count, |row.ids.value|);
  }

  /** Over every run a rotating row's index is its start plus the number of advances, modulo its length, and
      nothing else about the row changes. */
  lemma {:induction false} RotationIndex(rows: seq<Row>, events: seq<Event>, i: nat)
    requires TableOk(rows) && i < |rows| && rows[i].ids.Some?
    ensures Run(rows, events)[i] == Turned(rows[i], AdvanceCount(rows, events, i))
    decreases |events|
  {
    assert RowOk(rows[i]);
    if events == [] {
      TurnedNext(rows[i], 0);
    } else {
      var rest := Next(rows, events[0]);
      NextKeepsRows(rows, events[0], i);
      RotationIndex(rest, events[1..], i);
      TurnedNext(rows[i], AdvanceCount(rest, events[1..], i));
    }
  }

  /** Every success on row i applied the row's current recipe. */
  predicate Current(rows: seq<Row>, events: seq<Event>, i: nat)
    requires TableOk(rows) && i < |rows|
    decreases |events|
  {
    events != [] ==>
      && (SucceedsOn(rows, events[0], i) ==> Advances(rows, events[0], i))
      && Current(Next(rows, events[0]), events[1..], i)
  }

  /** Attempts that go through the table always do. */
  lemma {:induction false} TableAttemptsAreCurrent(rows: seq<Row>, events: seq<Event>, i: nat)
    requires TableOk(rows) && i < |rows| && rows[i].ids.Some?
    requires forall k :: 0 <= k < |events| ==> events[k].Configure?
    ensures Current(rows, events, i)
    decreases |events|
  {
    if events == [] {
    } else {
      NextKeepsRows(rows, events[0], i);
      TableAttemptsAreCurrent(Next(rows, events[0]), events[1..], i);
    }
  }

  /** A row advances once for every success exactly when each success applied its current recipe. */
  lemma {:induction false} AdvancesMatchSuccesses(rows: seq<Row>, events: seq<Event>, i: nat)
    requires TableOk(rows) && i < |rows| && rows[i].ids.Some?
    ensures AdvanceCount(rows, events, i) <= |Used(rows, events, i)|
    ensures AdvanceCount(rows, events, i) == |Used(rows, events, i)| <==> Current(rows, events, i)
    decreases |events|
  {
    if events == [] {
    } else {
      NextKeepsRows(rows, events[0], i);
      AdvancesMatchSuccesses(Next(rows, events[0]), events[1..], i);
    }
  }

  /** A recipe latched earlier may no longer be the row's current one: then its success advances nothing. */
  lemma {:induction false} StaleSuccessDoesNotAdvance(rows: seq<Row>, u: Uuid, name: Option<seq<Byte>>, id: nat, i: nat)
    requires TableOk(rows) && ScenarioSpec.FindRow(rows, u, name) == Some(i)
    requires rows[i].ids.Some? && id != Peek(rows[i])
    ensures var run := [Latched(u, name, id)];
            Used(rows, run, i) == [Use(rows[i].idx, id)] && AdvanceCount(rows, run, i) == 0 && Run(rows, run) == rows
  {
    var run := [Latched(u, name, id)];
    assert Next(rows, run[0]) == rows;
    assert Run(rows, run[1..]) == rows;
  }

  /** When every success on a row applied the recipe that was then the row's current one, whether chosen
      there and then or latched earlier, the j-th success used slot (start + j) mod length. */
  lemma {:induction false} RotationAssigns(rows: seq<Row>, events: seq<Event>, i: nat, j: nat)
    requires TableOk(rows) && i < |rows| && rows[i].ids.Some?
    requires Current(rows, events, i)
    ensures j < |Used(rows, events, i)| ==>
              Used(rows, events, i)[j] == Use(Turn(rows[i].idx, j, |rows[i].ids.value|), Slot(rows[i], j))
    decreases |events|
  {
    assert RowOk(rows[i]);
    if events == [] {
    } else {
      var rest := Next(rows, events[0]);
      NextKeepsRows(rows, events[0], i);
      if SucceedsOn(rows, events[0], i) {
        RotationAssigns(rest, events[1..], i, if j > 0 then j - 1 else 0);
        SlotNext(rows[i], j);
      } else {
        RotationAssigns(rest, events[1..], i, j);
      }
    }
  }

  /** The recipe a rotating row hands to its j-th success from now. */
  function Slot(row: Row, j: nat): nat
    requires RowOk(row) && row.ids.Some?
  {
    row.ids.value[Turn(row.idx, j, |row.ids.value|)]
  }

  lemma SlotNext(row: Row, j: nat)
    requires RowOk(row) && row.ids.Some?
    ensures Slot(row, 0) == Peek(row) && Turn(row.idx, 0, |row.ids.value|) == row.idx
    ensures j > 0 ==>
              var next := Consume(row, Peek(row));
              && Slot(next, j - 1) == Slot(row, j)
              && Turn(next.idx, j - 1, |row.ids.value|) == Turn(row.idx, j, |row.ids.value|)
  {
    TurnZero(row.idx, |row.ids.value|);
    if j > 0 { TurnNext(row.idx, j - 1, |row.ids.value|); }
  }

  // ---------------------------------------------------------------------------- even use

  /** How often slot a was used. */
  function Tally(uses: seq<Use>, a: nat): nat {
    if uses == [] then 0
    else Tally(uses[..|uses| - 1], a) + (if uses[|uses| - 1].slot == a then 1 else 0)
  }

  /** Of `total` turns from `start`, how many fall on slot a: floor(total / n), and one more if the
      last, partial round reaches it. */
  function Share(n: nat, start: nat, total: nat, a: nat): nat
    requires start < n && a < n
  {
    total / n + (if Ring(n, start, a) < total % n then 1 else 0)
  }

  lemma ShareStep(n: nat, start: nat, total: nat, a: nat)
    requires start < n && a < n
    ensures Share(n, start, 0, a) == 0
    ensures Share(n, start, total + 1, a) == Share(n, start, total, a) + (if Turn(start, total, n) == a then 1 else 0)
  {
    DivModUnique(0, n, 0, 0);
    TurnIsForward(start, total, n);
    RingForward(n, start, total % n);
    Successor(total, n);
  }

  /** Slots handed out in turn are used as often as their share of the turns. */
  lemma {:induction false} TallyInTurn(uses: seq<Use>, n: nat, start: nat, a: nat)
    requires start < n && a < n
    requires forall j :: 0 <= j < |uses| ==> uses[j].slot == Turn(start, j, n)
    ensures Tally(uses, a) == Share(n, start, |uses|, a)
  {
    if uses == [] {
      ShareStep(n, start, 0, a);
    } else {
      TallyInTurn(uses[..|uses| - 1], n, start, a);
      ShareStep(n, start, |uses| - 1, a);
    }
  }

  /** However many devices came, two slots of a rotating row have been used equally often, give or take
      one. */
  lemma RotationIsEven(rows: seq<Row>, events: seq<Event>, i: nat, a: nat, b: nat)
    requires TableOk(rows) && i < |rows| && rows[i].ids.Some?
    requires a < |rows[i].ids.value| && b < |rows[i].ids.value|
    requires Current(rows, events, i)
    ensures -1 <= Tally(Used(rows, events, i), a) - Tally(Used(rows, events, i), b) <= 1
  {
    assert RowOk(rows[i]);
    var n, uses := |rows[i].ids.value|, Used(rows, events, i);
    forall j | 0 <= j < |uses| ensures uses[j].slot == Turn(rows[i].idx, j, n) {
      RotationAssigns(rows, events, i, j);
    }
    TallyInTurn(uses, n, rows[i].idx, a);
    TallyInTurn(uses, n, rows[i].idx, b);
  }
}
