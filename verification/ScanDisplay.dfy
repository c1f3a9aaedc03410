/** The live scan display of prov_shell.c: which devices become visible, and the lines it prints. */
module DisplaySpec {
  import opened Bytes
  import opened CacheSpec
  import opened CacheVisible
  import CacheMap

  /** One line, as the display and `prov scan` print it. */
  datatype Line = Line(index: nat, uuid: Uuid, name: seq<Byte>)

  /** While the display is on, a named device becomes visible. */
  function Note(c: Cache, u: Uuid, active: bool): (d: Cache)
    ensures |d.slots| == |c.slots| && d.cursor == c.cursor
  {
    if active then MaybeMarkVisible(c, u) else c
  }

  /** What is printed: a line for a device that becomes visible, and nothing otherwise. */
  function Announced(c: Cache, u: Uuid, active: bool): seq<Line> {
    if active && CanMark(c, u) then
      var d := MaybeMarkVisible(c, u);
      var name := KnownName(d, u);
      [Line(Rank(d.slots, Find(d.slots, ByUuid(u))), u, if name.Some? then name.value else [])]
    else []
  }

  /** A line is printed exactly when the display is on and the device is known, named and not listed yet; it
      carries the index that selects the device from then on, and the device's name. The device is listed
      then, and otherwise nothing changes. */
  lemma LinesAreTrue(c: Cache, u: Uuid, active: bool)
    requires Good(c)
    ensures var m := CacheMap.Abs(c.slots);
            Announced(c, u, active) != [] <==> active && u in m && m[u].name.Some? && !m[u].visible
    ensures var m, d, lines := CacheMap.Abs(c.slots), Note(c, u, active), Announced(c, u, active);
            if lines == [] then d == c
            else
              && |lines| == 1 && lines[0].uuid == u && Some(lines[0].name) == m[u].name
              && lines[0].index < |Visible(d.slots)| && Visible(d.slots)[lines[0].index] == u
              && CacheMap.Abs(d.slots) == m[u := m[u].(visible := true)]
  {
    CacheMap.InAbs(c.slots, u);
    AnnouncedIndexSelects(c, u);
    CacheMap.MarkRefines(c, u);
    CacheMap.KnownNameReadsMap(MaybeMarkVisible(c, u), u);
    if active && CanMark(c, u) {
      MarkedIsFound(c, u);
    } else if Find(c.slots, ByUuid(u)) < |c.slots| {
      CacheMap.FindsItself(c.slots, Find(c.slots, ByUuid(u)));
    }
  }

  /** A device that becomes visible has a name to print. */
  lemma MarkedHasName(c: Cache, u: Uuid)
    requires Good(c) && CanMark(c, u)
    ensures LookupName(MaybeMarkVisible(c, u), u, NAME_BUF_SIZE).Some?
  {
    MarkedIsFound(c, u);
  }

  /** Marking a slot visible moves nobody. */
  lemma MarkedIsFound(c: Cache, u: Uuid)
    requires Good(c) && CanMark(c, u)
    ensures var i, d := Find(c.slots, ByUuid(u)), MaybeMarkVisible(c, u);
            Find(d.slots, ByUuid(u)) == i && i < |d.slots| && d.slots[i] == c.slots[i].(visible := true)
  {
    CacheMap.KeepsGood(c, Mark(u));
    CacheMap.FindsItself(MaybeMarkVisible(c, u).slots, Find(c.slots, ByUuid(u)));
  }
}

module ScanDisplay {
  import opened Bytes
  import opened CacheSpec
  import opened DisplaySpec
  import P = ProvCache

  class ScanDisplay {
    const cache: P.ProvCache
    var scanActive: bool
    var console: seq<Line>

    constructor (cache: P.ProvCache)
      ensures this.cache == cache && !scanActive && console == []
    {
      this.cache, scanActive, console := cache, false, [];
    }

    /** prov_shell_note_uuid_update. */
    method NoteUuidUpdate(u: Uuid)
      requires cache.Valid()
      modifies cache.slots, `console
      ensures cache.Valid()
      ensures cache.State() == Note(old(cache.State()), u, scanActive)
      ensures console == old(console) + Announced(old(cache.State()), u, scanActive)
    {
      if !scanActive { return; }
      ghost var c := cache.State();
      var idx := cache.MaybeMarkVisible(u);
      if idx.None? { return; }
      MarkedIsFound(c, u);
      MarkedHasName(c, u);
      var name := cache.LookupName(u, NAME_BUF_SIZE);
      if name.None? { return; }
      console := console + [Line(idx.value, u, CStr(name.value))];
    }
  }
}
