/** The deployment table: which row a device matches, which recipe that row assigns now, and how a
    rotating row moves on. */
module ScenarioSpec {
  import opened Bytes
  import opened Hex

  const RECIPE_NONE: nat := 0
  const RECIPE_COUNT: nat := 8

  datatype MatchType = MatchUuid | MatchName

  /** `pattern` is the row's C string; `ids` is the rotation list, None on a single-recipe row. */
  datatype Row = Row(pattern: seq<Byte>, kind: MatchType, recipeId: nat, ids: Option<seq<nat>>, idx: nat)

  predicate RowOk(r: Row) {
    r.ids.Some? ==> r.idx < |r.ids.value|
  }

  ghost predicate TableOk(rows: seq<Row>) {
    forall i :: 0 <= i < |rows| ==> RowOk(rows[i])
  }

  // ---------------------------------------------------------------------------- matching

  predicate UuidHexMatch(pattern: seq<Byte>, u: Uuid) {
    var n := |pattern| / 2;
    && n != 0 && n <= 16 && |pattern| % 2 == 0
    && Hex2Bin(pattern) == Some(u[..n])
  }

  predicate DeviceNameMatch(pattern: seq<Byte>, name: Option<seq<Byte>>) {
    pattern != [] && name.Some? && name.value != [] && pattern == name.value
  }

  predicate ByUuid(r: Row, u: Uuid) {
    r.kind == MatchUuid && UuidHexMatch(r.pattern, u)
  }

  predicate ByName(r: Row, name: Option<seq<Byte>>) {
    r.kind == MatchName && DeviceNameMatch(r.pattern, name)
  }

  /** Row i carries the longest matching prefix among the first k rows, the first of its length. */
  ghost predicate IsLongest(rows: seq<Row>, u: Uuid, k: nat, i: nat)
    requires k <= |rows|
  {
    && i < k && ByUuid(rows[i], u)
    && (forall j :: 0 <= j < k && ByUuid(rows[j], u) ==> |rows[j].pattern| <= |rows[i].pattern|)
    && (forall j :: 0 <= j < i && ByUuid(rows[j], u) ==> |rows[j].pattern| < |rows[i].pattern|)
  }

  /** The row the first k rows select by UUID. */
  function BestUuid(rows: seq<Row>, u: Uuid, k: nat): (r: Option<nat>)
    requires k <= |rows|
    ensures r.Some? ==> IsLongest(rows, u, k, r.value)
    ensures r.None? ==> forall j :: 0 <= j < k ==> !ByUuid(rows[j], u)
  {
    if k == 0 then None
    else
      var b := BestUuid(rows, u, k - 1);
      var longer := b.None? || |rows[b.value].pattern| < |rows[k - 1].pattern|;
      if ByUuid(rows[k - 1], u) && longer then Some(k - 1) else b
  }

  function FirstName(rows: seq<Row>, name: Option<seq<Byte>>, from: nat): (r: Option<nat>)
    requires from <= |rows|
    ensures r.Some? ==> from <= r.value < |rows| && ByName(rows[r.value], name)
    ensures r.Some? ==> forall j :: from <= j < r.value ==> !ByName(rows[j], name)
    ensures r.None? ==> forall j :: from <= j < |rows| ==> !ByName(rows[j], name)
    decreases |rows| - from
  {
    if from == |rows| then None
    else if ByName(rows[from], name) then Some(from)
    else FirstName(rows, name, from + 1)
  }

  /** No row matches by UUID and row i is the first that matches by name. */
  ghost predicate IsFirstNamed(rows: seq<Row>, u: Uuid, name: Option<seq<Byte>>, i: nat)
    requires i < |rows|
  {
    && (forall j :: 0 <= j < |rows| ==> !ByUuid(rows[j], u))
    && ByName(rows[i], name)
    && (forall j :: 0 <= j < i ==> !ByName(rows[j], name))
  }

  /** The longest UUID prefix wins; only a device that no UUID row matches is looked up by name. */
  function FindRow(rows: seq<Row>, u: Uuid, name: Option<seq<Byte>>): (r: Option<nat>)
    ensures r.Some? ==>
              r.value < |rows| && (IsLongest(rows, u, |rows|, r.value) || IsFirstNamed(rows, u, name, r.value))
    ensures r.None? ==> forall j :: 0 <= j < |rows| ==> !ByUuid(rows[j], u) && !ByName(rows[j], name)
  {
    var b := BestUuid(rows, u, |rows|);
    if b.Some? then b else FirstName(rows, name, 0)
  }

  // ---------------------------------------------------------------------------- recipes

  function Peek(r: Row): nat
    requires RowOk(r)
  {
    if r.ids.Some? then r.ids.value[r.idx] else r.recipeId
  }

  function Consume(r: Row, id: nat): (s: Row)
    requires RowOk(r)
    ensures RowOk(s)
  {
    if r.ids.Some? && Peek(r) == id then r.(idx := (r.idx + 1) % |r.ids.value|) else r
  }

  predicate Assignable(id: nat) {
    id != RECIPE_NONE && id < RECIPE_COUNT
  }

  /** mesh_scenario_lookup_recipe_id. */
  function LookupRecipeId(rows: seq<Row>, u: Uuid, name: Option<seq<Byte>>): (id: nat)
    requires TableOk(rows)
    ensures id == RECIPE_NONE || Assignable(id)
  {
    var r := FindRow(rows, u, name);
    if r.Some? && Assignable(Peek(rows[r.value])) then Peek(rows[r.value]) else RECIPE_NONE
  }
}

module ScenarioMatch {
  import opened Bytes
  import opened Hex
  import opened ScenarioSpec

  /** A UUID pattern matches exactly the UUIDs whose printed form it begins, letter case aside. */
  lemma MatchIsPrintedPrefix(pattern: seq<Byte>, u: Uuid)
    ensures UuidHexMatch(pattern, u)
            <==> pattern != [] && |pattern| % 2 == 0 && Lower(pattern) <= Bin2Hex(u)
  {
    var n := |pattern| / 2;
    if UuidHexMatch(pattern, u) {
      Reprint(pattern);
      Bin2HexPrefix(u, n);
    }
    if pattern != [] && |pattern| % 2 == 0 && Lower(pattern) <= Bin2Hex(u) {
      Bin2HexPrefix(u, n);
      assert Lower(pattern) == Bin2Hex(u[..n]);
      RoundTrip(u[..n]);
      DecodeIgnoresCase(pattern);
    }
  }

  lemma {:induction false} DecodeIgnoresCase(hex: seq<Byte>)
    ensures Hex2Bin(Lower(hex)) == Hex2Bin(hex)
  {
    if |hex| < 2 {
    } else {
      DecodeIgnoresCase(hex[2..]);
      LowerPair(hex);
      DecodePair(hex[0], hex[1], hex[2..]);
      DecodePair(LowerChar(hex[0]), LowerChar(hex[1]), Lower(hex[2..]));
      assert hex == [hex[0], hex[1]] + hex[2..];
    }
  }

  lemma DecodePair(a: Byte, b: Byte, rest: seq<Byte>)
    ensures Hex2Bin([a, b] + rest)
            == if Digit(a).Some? && Digit(b).Some? && Hex2Bin(rest).Some?
               then Some([HexByte(Digit(a).value, Digit(b).value)] + Hex2Bin(rest).value) else None
    ensures Digit(LowerChar(a)) == Digit(a)
  {
    assert ([a, b] + rest)[2..] == rest;
  }

  /** A UUID row matches by printed prefix, a name row by the whole name; an empty pattern matches nothing. */
  lemma RowMatches(r: Row, u: Uuid, name: Option<seq<Byte>>)
    ensures ByUuid(r, u) <==>
              r.kind.MatchUuid? && r.pattern != [] && |r.pattern| % 2 == 0 && Lower(r.pattern) <= Bin2Hex(u)
    ensures ByName(r, name) <==> r.kind.MatchName? && r.pattern != [] && name == Some(r.pattern)
  {
    MatchIsPrintedPrefix(r.pattern, u);
  }

  /** Row i has the longest matching prefix, or no row matches by UUID and it is the first with the name. */
  ghost predicate Selects(rows: seq<Row>, u: Uuid, name: Option<seq<Byte>>, i: nat) {
    i < |rows| && (IsLongest(rows, u, |rows|, i) || IsFirstNamed(rows, u, name, i))
  }

  lemma SelectsIsFindRow(rows: seq<Row>, u: Uuid, name: Option<seq<Byte>>, i: nat)
    ensures Selects(rows, u, name, i) <==> FindRow(rows, u, name) == Some(i)
  {
    if i < |rows| && IsLongest(rows, u, |rows|, i) { LongestIsBest(rows, u, i); }
    if i < |rows| && IsFirstNamed(rows, u, name, i) { FirstNamedIsFound(rows, u, name, i); }
  }

  /** What the lookup answers, in terms of the two rules: the selected row's one recipe or, on a rotating row,
      the one at its index, when it is between 1 and 7; 0 otherwise and when no row matches. */
  lemma LookupAnswers(rows: seq<Row>, u: Uuid, name: Option<seq<Byte>>, i: nat)
    requires TableOk(rows)
    ensures Selects(rows, u, name, i) ==>
              var row := rows[i];
              var id := if row.ids.None? then row.recipeId else row.ids.value[row.idx];
              LookupRecipeId(rows, u, name) == if 0 < id < 8 then id else 0
    ensures (forall j :: 0 <= j < |rows| ==> !ByUuid(rows[j], u) && !ByName(rows[j], name)) ==>
              LookupRecipeId(rows, u, name) == 0
  {
    SelectsIsFindRow(rows, u, name, i);
  }

  // ---------------------------------------------------------------------------- order of the rows

  /** Row j is as good a match for the device as any: it ties for the longest matching prefix or, when no
      UUID row matches, it has the device's name. */
  predicate Contends(rows: seq<Row>, u: Uuid, name: Option<seq<Byte>>, j: nat)
    requires j < |rows|
  {
    var b := BestUuid(rows, u, |rows|);
    if b.Some? then ByUuid(rows[j], u) && |rows[j].pattern| == |rows[b.value].pattern| else ByName(rows[j], name)
  }

  /** No other row than one like row i is as good a match. */
  ghost predicate NoRival(rows: seq<Row>, u: Uuid, name: Option<seq<Byte>>, i: nat)
    requires i < |rows|
  {
    forall j {:trigger Contends(rows, u, name, j)} :: 0 <= j < |rows| && Contends(rows, u, name, j) ==>
      rows[j] == rows[i]
  }

  /** Every order of the same rows selects this row. */
  ghost predicate SelectedInAnyOrder(rows: seq<Row>, u: Uuid, name: Option<seq<Byte>>, row: Row) {
    forall other: seq<Row> :: multiset(other) == multiset(rows) ==>
      FindRow(other, u, name).Some? && other[FindRow(other, u, name).value] == row
  }

  /** The order of the rows never matters to a device, matched by UUID or by name, unless two different
      rows tie for it, and then it does: swapping the two changes the answer. A device that no row matches
      stays without one in every order. */
  lemma OrderMattersOnlyForTies(rows: seq<Row>, u: Uuid, name: Option<seq<Byte>>)
    ensures var r := FindRow(rows, u, name);
            r.Some? ==>
              (NoRival(rows, u, name, r.value) <==> SelectedInAnyOrder(rows, u, name, rows[r.value]))
    ensures FindRow(rows, u, name).None? ==>
              forall other: seq<Row> :: multiset(other) == multiset(rows) ==> FindRow(other, u, name).None?
  {
    var r := FindRow(rows, u, name);
    if r.None? {
      forall other: seq<Row> | multiset(other) == multiset(rows) ensures FindRow(other, u, name).None? {
        StillUnmatched(rows, other, u, name);
      }
    } else if NoRival(rows, u, name, r.value) {
      forall other: seq<Row> | multiset(other) == multiset(rows)
        ensures FindRow(other, u, name).Some? && other[FindRow(other, u, name).value] == rows[r.value]
      {
        SameSelection(rows, other, u, name, r.value);
      }
    } else {
      var j: nat :| j < |rows| && Contends(rows, u, name, j) && rows[j] != rows[r.value];
      var other := SwapTie(rows, u, name, r.value, j);
    }
  }

  lemma StillUnmatched(rows: seq<Row>, other: seq<Row>, u: Uuid, name: Option<seq<Byte>>)
    requires multiset(other) == multiset(rows) && FindRow(rows, u, name).None?
    ensures FindRow(other, u, name).None?
  {
    var r := FindRow(other, u, name);
    if r.Some? {
      var j := IndexIn(rows, other, r.value);
    }
  }

  /** Where a row of one order stands in another. */
  lemma IndexIn(rows: seq<Row>, other: seq<Row>, k: nat) returns (j: nat)
    requires multiset(other) == multiset(rows) && k < |other|
    ensures j < |rows| && rows[j] == other[k]
  {
    assert other[k] in multiset(rows);
    j :| 0 <= j < |rows| && rows[j] == other[k];
  }

  lemma LongestIsBest(rows: seq<Row>, u: Uuid, i: nat)
    requires IsLongest(rows, u, |rows|, i)
    ensures BestUuid(rows, u, |rows|) == Some(i)
  {
    var b := BestUuid(rows, u, |rows|);
    assert b.Some?;
    assert ByUuid(rows[b.value], u) && ByUuid(rows[i], u);
  }

  lemma FirstNamedIsFound(rows: seq<Row>, u: Uuid, name: Option<seq<Byte>>, i: nat)
    requires i < |rows| && IsFirstNamed(rows, u, name, i)
    ensures BestUuid(rows, u, |rows|).None? && FindRow(rows, u, name) == Some(i)
  {
    var b := BestUuid(rows, u, |rows|);
    var f := FirstName(rows, name, 0);
    assert f.Some? ==> ByName(rows[f.value], name);
  }

  lemma SameSelection(rows: seq<Row>, other: seq<Row>, u: Uuid, name: Option<seq<Byte>>, i: nat)
    requires multiset(other) == multiset(rows) && FindRow(rows, u, name) == Some(i)
    requires NoRival(rows, u, name, i)
    ensures FindRow(other, u, name).Some? && other[FindRow(other, u, name).value] == rows[i]
  {
    var k := IndexIn(other, rows, i);
    assert ByUuid(other[k], u) || ByName(other[k], name);
    var b := FindRow(other, u, name).value;
    var j := IndexIn(rows, other, b);
    if BestUuid(rows, u, |rows|).Some? {
      BestSurvives(rows, other, u, i, k, j);
    } else {
      NoBestSurvives(rows, other, u);
    }
    assert Contends(rows, u, name, j);
  }

  /** In another order the row selected by UUID has a prefix as long as before. */
  lemma BestSurvives(rows: seq<Row>, other: seq<Row>, u: Uuid, i: nat, k: nat, j: nat)
    requires BestUuid(rows, u, |rows|) == Some(i) && k < |other| && other[k] == rows[i]
    requires BestUuid(other, u, |other|).Some? ==> j < |rows| && rows[j] == other[BestUuid(other, u, |other|).value]
    ensures BestUuid(other, u, |other|).Some? && ByUuid(rows[j], u) && |rows[j].pattern| == |rows[i].pattern|
  {
    assert ByUuid(other[k], u);
    assert ByUuid(rows[j], u);
  }

  lemma NoBestSurvives(rows: seq<Row>, other: seq<Row>, u: Uuid)
    requires multiset(other) == multiset(rows) && BestUuid(rows, u, |rows|).None?
    ensures BestUuid(other, u, |other|).None?
  {
    var b := BestUuid(other, u, |other|);
    if b.Some? {
      var j := IndexIn(rows, other, b.value);
    }
  }

  /** Two different rows that tie can be told apart by their order only. */
  lemma SwapTie(rows: seq<Row>, u: Uuid, name: Option<seq<Byte>>, i: nat, j: nat) returns (other: seq<Row>)
    requires FindRow(rows, u, name) == Some(i) && j < |rows| && Contends(rows, u, name, j) && rows[j] != rows[i]
    ensures multiset(other) == multiset(rows) && FindRow(other, u, name) == Some(i) && other[i] == rows[j]
  {
    other := rows[i := rows[j]][j := rows[i]];
    SwapKeepsRows(rows, i, j);
    if BestUuid(rows, u, |rows|).Some? {
      assert IsLongest(other, u, |other|, i);
      LongestIsBest(other, u, i);
    } else {
      assert IsFirstNamed(rows, u, name, i);
      assert j > i;
      assert IsFirstNamed(other, u, name, i);
      FirstNamedIsFound(other, u, name, i);
    }
  }

  lemma SwapKeepsRows<T>(s: seq<T>, i: nat, j: nat)
    requires i < |s| && j < |s|
    ensures multiset(s[i := s[j]][j := s[i]]) == multiset(s)
  {
  }
}
