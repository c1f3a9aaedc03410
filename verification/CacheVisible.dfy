/** The scan list: ranking a visible slot and selecting by index are inverse, and the list holds exactly
    the visible devices, each once and each with a name. */
module CacheVisible {
  import opened Bytes
  import opened CacheSpec
  import opened CacheMap

  /** The index under which a slot is announced: the number of visible slots before it. */
  function Rank(s: seq<Slot>, i: nat): nat
    requires i <= |s|
  {
    |Visible(s[..i])|
  }

  /** Select after rank: the index of a visible slot selects that slot's UUID. */
  lemma {:induction false} SelectOfRank(s: seq<Slot>, i: nat)
    requires i < |s| && s[i].inUse && s[i].visible
    ensures Rank(s, i) < |Visible(s)| && Visible(s)[Rank(s, i)] == s[i].uuid
    decreases |s|
  {
    var t := s[..|s| - 1];
    if i == |t| {
    } else {
      SelectOfRank(t, i);
      assert t[..i] == s[..i];
    }
  }

  /** Rank after select: every listed index is the rank of the visible slot that holds the listed UUID. */
  lemma {:induction false} RankOfSelect(s: seq<Slot>, k: nat) returns (i: nat)
    requires k < |Visible(s)|
    ensures i < |s| && s[i].inUse && s[i].visible && s[i].uuid == Visible(s)[k] && Rank(s, i) == k
    decreases |s|
  {
    var t := s[..|s| - 1];
    if k < |Visible(t)| {
      i := RankOfSelect(t, k);
      assert t[..i] == s[..i];
    } else {
      i := |t|;
    }
  }

  /** The list holds exactly the UUIDs whose record is visible, and none twice. */
  lemma VisibleIsTheVisibleSet(c: Cache, u: Uuid)
    requires Good(c)
    ensures u in Visible(c.slots) <==> u in Abs(c.slots) && Abs(c.slots)[u].visible
    ensures forall j, k :: 0 <= j < k < |Visible(c.slots)| ==> Visible(c.slots)[j] != Visible(c.slots)[k]
  {
    var s := c.slots;
    InAbs(s, u);
    if k :| 0 <= k < |Visible(s)| && Visible(s)[k] == u {
      var i := RankOfSelect(s, k);
      FindsItself(s, i);
    }
    if u in Abs(s) && Abs(s)[u].visible {
      SelectOfRank(s, Find(s, ByUuid(u)));
    }
    forall j, k | 0 <= j < k < |Visible(s)| ensures Visible(s)[j] != Visible(s)[k] {
      var a := RankOfSelect(s, j);
      var b := RankOfSelect(s, k);
      FindsItself(s, a);
      FindsItself(s, b);
    }
  }

  /** The index reported when a device becomes visible selects that device on the unchanged cache, and a
      call that reports nothing changes nothing. */
  lemma AnnouncedIndexSelects(c: Cache, u: Uuid)
    requires Good(c)
    ensures CanMark(c, u) ==>
              var s := MaybeMarkVisible(c, u).slots;
              var i := Find(s, ByUuid(u));
              i < |s| && Rank(s, i) < |Visible(s)| && Visible(s)[Rank(s, i)] == u
    ensures !CanMark(c, u) ==> MaybeMarkVisible(c, u) == c
  {
    if CanMark(c, u) {
      var i := Find(c.slots, ByUuid(u));
      var s := MaybeMarkVisible(c, u).slots;
      Refines(c, Mark(u));
      assert s == c.slots[i := c.slots[i].(visible := true)];
      FindsItself(s, i);
      SelectOfRank(s, i);
    }
  }

  /** A listed device has a name, so the listing skips no index. */
  lemma ListedHasName(c: Cache, k: nat, size: nat)
    requires Good(c) && k < |Visible(c.slots)| && size > 0
    ensures LookupName(c, Visible(c.slots)[k], size).Some?
  {
    var i := RankOfSelect(c.slots, k);
    FindsItself(c.slots, i);
    assert SlotOk(c.slots[i]);
  }
}
