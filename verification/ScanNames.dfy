/** The scan callback: parses advertising data in place and feeds UUIDs and names to the cache. */
module ScanSpec {
  import opened Bytes
  import opened AdStructures
  import opened CacheSpec
  import opened DisplaySpec

  const SVC_DATA16: Byte := 0x16
  const NAME_SHORTENED: Byte := 0x08
  const NAME_COMPLETE: Byte := 0x09
  const MESH_PROV_UUID: nat := 0x1827

  /** The device UUID in a Mesh Provisioning service-data structure. */
  function ProvUuid(ad: Ad): Option<Uuid> {
    if ad.kind == SVC_DATA16 && |ad.data| >= 20
       && ad.data[0] as nat + 256 * (ad.data[1] as nat) == MESH_PROV_UUID
    then Some(ad.data[2..18]) else None
  }

  /** The name in a complete or shortened name structure. */
  function GapName(ad: Ad): Option<seq<Byte>> {
    if (ad.kind == NAME_COMPLETE || ad.kind == NAME_SHORTENED) && ad.data != [] then Some(ad.data) else None
  }

  function FeedAdv(c: Cache, a: Addr, ads: seq<Ad>, active: bool): (d: Cache)
    requires c.cursor < |c.slots|
    ensures |d.slots| == |c.slots| && d.cursor < |d.slots|
    decreases |ads|
  {
    if ads == [] then c
    else
      FeedAdv(AdvStep(c, a, ads[0], active), a, ads[1..], active)
  }

  function AdvStep(c: Cache, a: Addr, ad: Ad, active: bool): (d: Cache)
    requires c.cursor < |c.slots|
    ensures |d.slots| == |c.slots| && d.cursor < |d.slots|
  {
    var p := ProvUuid(ad);
    if p.Some? then Note(AdvUuidSeen(c, a, p.value), p.value, active) else c
  }

  function NameStep(c: Cache, a: Addr, ad: Ad, active: bool): (d: Cache)
    requires c.cursor < |c.slots|
    ensures |d.slots| == |c.slots| && d.cursor < |d.slots|
  {
    var g, i := GapName(ad), Find(c.slots, ByAddr(a));
    if g.None? then c
    else
      var d := ScanRspNameSeen(c, a, g.value);
      if i < |c.slots| && c.slots[i].haveUuid then Note(d, c.slots[i].uuid, active) else d
  }

  function FeedNames(c: Cache, a: Addr, ads: seq<Ad>, active: bool): (d: Cache)
    requires c.cursor < |c.slots|
    ensures |d.slots| == |c.slots| && d.cursor < |d.slots|
    decreases |ads|
  {
    if ads == [] then c
    else FeedNames(NameStep(c, a, ads[0], active), a, ads[1..], active)
  }

  // ---------------------------------------------------------------------------- what is printed meanwhile

  function AdvLines(c: Cache, a: Addr, ads: seq<Ad>, active: bool): seq<Line>
    requires c.cursor < |c.slots|
    decreases |ads|
  {
    if ads == [] then []
    else AdvLine(c, a, ads[0], active) + AdvLines(AdvStep(c, a, ads[0], active), a, ads[1..], active)
  }

  function AdvLine(c: Cache, a: Addr, ad: Ad, active: bool): seq<Line>
    requires c.cursor < |c.slots|
  {
    var p := ProvUuid(ad);
    if p.Some? then Announced(AdvUuidSeen(c, a, p.value), p.value, active) else []
  }

  function NameLines(c: Cache, a: Addr, ads: seq<Ad>, active: bool): seq<Line>
    requires c.cursor < |c.slots|
    decreases |ads|
  {
    if ads == [] then []
    else NameLine(c, a, ads[0], active) + NameLines(NameStep(c, a, ads[0], active), a, ads[1..], active)
  }

  function NameLine(c: Cache, a: Addr, ad: Ad, active: bool): seq<Line> {
    var g, i := GapName(ad), Find(c.slots, ByAddr(a));
    if g.Some? && i < |c.slots| && c.slots[i].haveUuid
    then Announced(ScanRspNameSeen(c, a, g.value), c.slots[i].uuid, active) else []
  }

  // ---------------------------------------------------------------------------- packets

  datatype AdvType = AdvInd | ScanRsp | OtherAdv

  /** A received packet; the sender's address may be missing. */
  datatype Packet = Packet(addr: Option<Addr>, kind: AdvType, bytes: seq<Byte>)

  /** prov_scan_recv: only connectable advertisements and scan responses with an address are looked at. */
  function Receive(c: Cache, p: Packet, active: bool): (d: Cache)
    requires c.cursor < |c.slots|
    ensures |d.slots| == |c.slots| && d.cursor < |d.slots|
  {
    if p.addr.None? || p.kind.OtherAdv? then c
    else if p.kind.AdvInd? then FeedAdv(c, p.addr.value, Parse(p.bytes), active)
    else FeedNames(c, p.addr.value, Parse(p.bytes), active)
  }

  function ReceiveLines(c: Cache, p: Packet, active: bool): seq<Line>
    requires c.cursor < |c.slots|
  {
    if p.addr.None? || p.kind.OtherAdv? then []
    else if p.kind.AdvInd? then AdvLines(c, p.addr.value, Parse(p.bytes), active)
    else NameLines(c, p.addr.value, Parse(p.bytes), active)
  }

  // ---------------------------------------------------------------------------- what a packet says

  function LastUuid(ads: seq<Ad>): Option<Uuid> {
    if ads == [] then None
    else
      var r := LastUuid(ads[1..]);
      if r.Some? then r else ProvUuid(ads[0])
  }

  function LastName(ads: seq<Ad>): Option<seq<Byte>> {
    if ads == [] then None
    else
      var r := LastName(ads[1..]);
      if r.Some? then r else GapName(ads[0])
  }
}

module ScanParser {
  import opened Bytes
  import opened AdStructures
  import opened CacheSpec
  import opened DisplaySpec
  import opened ScanSpec
  import D = ScanDisplay
  import P = ProvCache

  /** Windows on the payload and on what follows the length byte, seen from the window on the whole rest. */
  lemma Windows(bytes: seq<Byte>, start: nat, w: seq<Byte>, n: nat)
    requires start + |w| <= |bytes| && w == bytes[start..start + |w|] && 1 <= n < |w|
    ensures bytes[start + 2..start + 1 + n] == w[2..1 + n] && bytes[start + 1..start + |w|] == w[1..]
  {
    Slice(bytes, start, |w|, 2, 1 + n);
    Slice(bytes, start, |w|, 1, |w|);
    assert w[1..|w|] == w[1..];
  }

  lemma Slice(b: seq<Byte>, p: nat, l: nat, i: nat, j: nat)
    requires p + l <= |b| && i <= j <= l
    ensures b[p..p + l][i..j] == b[p + i..p + j]
  {
    var x, y := b[p..p + l][i..j], b[p + i..p + j];
    assert forall k :: 0 <= k < j - i ==> x[k] == b[p..p + l][i + k] && y[k] == b[p + i + k];
  }

  lemma Opened(w: seq<Byte>, n: nat, kind: Byte, data: seq<Byte>)
    requires !Stuck(w) && n == w[0] as nat && kind == w[1] && data == w[2..1 + n]
    ensures Parse(w) == [Ad(kind, data)] + Parse(w[1 + n..])
  {
    ParseHead(w);
  }

  /** net_buf_simple: a window on received bytes that parsing moves and narrows. */
  class NetBuf {
    const bytes: seq<Byte>
    var pos: nat
    var len: nat

    ghost predicate Valid()
      reads this
    {
      pos + len <= |bytes|
    }

    function Window(): seq<Byte>
      requires Valid()
      reads this
    {
      bytes[pos..pos + len]
    }

    constructor (bytes: seq<Byte>)
      ensures Valid() && Window() == bytes && this.bytes == bytes
    {
      this.bytes := bytes;
      pos, len := 0, |bytes|;
    }

    method PullU8() returns (b: Byte)
      requires Valid() && len >= 1
      modifies this
      ensures Valid() && b == old(Window())[0] && Window() == old(Window())[1..]
      ensures pos == old(pos) + 1 && len == old(len) - 1
    {
      b := bytes[pos];
      pos, len := pos + 1, len - 1;
    }

    method PullLe16() returns (v: nat)
      requires Valid() && len >= 2
      modifies this
      ensures Valid() && Window() == old(Window())[2..]
      ensures v == old(Window())[0] as nat + 256 * (old(Window())[1] as nat)
      ensures len == old(len) - 2
    {
      v := bytes[pos] as nat + 256 * (bytes[pos + 1] as nat);
      pos, len := pos + 2, len - 2;
    }

    method PullMem(n: nat) returns (m: seq<Byte>)
      requires Valid() && len >= n
      modifies this
      ensures Valid() && m == old(Window())[..n] && len == old(len) - n
      ensures pos == old(pos) + n
    {
      m := bytes[pos..pos + n];
      pos, len := pos + n, len - n;
    }

    /** Reads one structure's length and type and narrows the window to its payload; None when the
        bytes left are not a structure. The saved position and length are those after the length byte. */
    method Open() returns (s: Option<Saved>)
      requires Valid() && len > 1
      modifies this
      ensures Valid()
      ensures s.None? <==> Stuck(old(Window()))
      ensures s.Some? ==>
                var w, n := old(Window()), s.value.length;
                && n == w[0] as nat < |w| && s.value.kind == w[1] && Window() == w[2..1 + n]
                && s.value.pos + s.value.len <= |bytes| && n <= s.value.len
                && bytes[s.value.pos..s.value.pos + s.value.len] == w[1..]
    {
      ghost var w, start := Window(), pos;
      var n := PullU8();
      if n == 0 { return None; }
      if n as nat > len { return None; }
      var p, l := pos, len;
      var kind := PullU8();
      len := n as nat - 1;
      s := Some(Saved(p, l, n as nat, kind));
      Windows(bytes, start, w, n as nat);
    }

    /** net_buf_simple_restore, then net_buf_simple_pull past the structure. */
    method Close(s: Saved, ghost w: seq<Byte>)
      requires s.pos + s.len <= |bytes| && s.length <= s.len
      requires w != [] && bytes[s.pos..s.pos + s.len] == w[1..]
      modifies this
      ensures Valid() && Window() == w[1 + s.length..]
    {
      pos, len := s.pos, s.len;
      pos, len := pos + s.length, len - s.length;
    }
  }

  /** What net_buf_simple_save keeps, with the structure's length and type. */
  datatype Saved = Saved(pos: nat, len: nat, length: nat, kind: Byte)

  /** What is left of a packet: the cache and the lines to come, seen from its end. */
  ghost predicate AdvRest(c: Cache, a: Addr, w: seq<Byte>, active: bool, out: seq<Line>, end: Cache, lines: seq<Line>) {
    && c.cursor < |c.slots|
    && end == FeedAdv(c, a, Parse(w), active) && lines == out + AdvLines(c, a, Parse(w), active)
  }

  ghost predicate NameRest(c: Cache, a: Addr, w: seq<Byte>, active: bool,
                           out: seq<Line>, end: Cache, lines: seq<Line>)
  {
    && c.cursor < |c.slots|
    && end == FeedNames(c, a, Parse(w), active) && lines == out + NameLines(c, a, Parse(w), active)
  }

  lemma AdvCons(c: Cache, a: Addr, ad: Ad, rest: seq<Ad>, active: bool)
    requires c.cursor < |c.slots|
    ensures FeedAdv(c, a, [ad] + rest, active) == FeedAdv(AdvStep(c, a, ad, active), a, rest, active)
    ensures AdvLines(c, a, [ad] + rest, active)
            == AdvLine(c, a, ad, active) + AdvLines(AdvStep(c, a, ad, active), a, rest, active)
  {
    assert ([ad] + rest)[1..] == rest;
  }

  lemma NameCons(c: Cache, a: Addr, ad: Ad, rest: seq<Ad>, active: bool)
    requires c.cursor < |c.slots|
    ensures FeedNames(c, a, [ad] + rest, active) == FeedNames(NameStep(c, a, ad, active), a, rest, active)
    ensures NameLines(c, a, [ad] + rest, active)
            == NameLine(c, a, ad, active) + NameLines(NameStep(c, a, ad, active), a, rest, active)
  {
    assert ([ad] + rest)[1..] == rest;
  }

  /** One structure of the loop. */
  lemma AdvRound(c: Cache, a: Addr, w: seq<Byte>, ad: Ad, rest: seq<Byte>, active: bool,
                 out: seq<Line>, end: Cache, lines: seq<Line>)
    requires AdvRest(c, a, w, active, out, end, lines) && Parse(w) == [ad] + Parse(rest)
    ensures AdvRest(AdvStep(c, a, ad, active), a, rest, active, out + AdvLine(c, a, ad, active), end, lines)
  {
    AdvCons(c, a, ad, Parse(rest), active);
    Regroup(out, AdvLine(c, a, ad, active), AdvLines(AdvStep(c, a, ad, active), a, Parse(rest), active));
  }

  lemma NameRound(c: Cache, a: Addr, w: seq<Byte>, ad: Ad, rest: seq<Byte>, active: bool,
                  out: seq<Line>, end: Cache, lines: seq<Line>)
    requires NameRest(c, a, w, active, out, end, lines) && Parse(w) == [ad] + Parse(rest)
    ensures NameRest(NameStep(c, a, ad, active), a, rest, active, out + NameLine(c, a, ad, active), end, lines)
  {
    NameCons(c, a, ad, Parse(rest), active);
    Regroup(out, NameLine(c, a, ad, active), NameLines(NameStep(c, a, ad, active), a, Parse(rest), active));
  }

  lemma NothingLeft(c: Cache, a: Addr, w: seq<Byte>, active: bool, out: seq<Line>, end: Cache, lines: seq<Line>)
    requires Stuck(w)
    ensures AdvRest(c, a, w, active, out, end, lines) ==> end == c && lines == out
    ensures NameRest(c, a, w, active, out, end, lines) ==> end == c && lines == out
  {
    assert Parse(w) == [] && out + [] == out;
  }

  class ScanParser {
    const cache: P.ProvCache
    const display: D.ScanDisplay

    ghost predicate Valid()
      reads this, cache, cache.slots
    {
      cache.Valid() && display.cache == cache
    }

    constructor (display: D.ScanDisplay)
      requires display.cache.Valid()
      ensures Valid() && this.display == display
    {
      cache, this.display := display.cache, display;
    }

    /** Reads the service data of one structure; the window is the structure's payload. */
    method TakeServiceData(a: Addr, kind: Byte, buf: NetBuf)
      requires Valid() && buf.Valid()
      modifies cache, cache.slots, display`console, buf
      ensures Valid() && buf.Valid()
      ensures cache.State() == AdvStep(old(cache.State()), a, Ad(kind, old(buf.Window())), display.scanActive)
      ensures display.console
              == old(display.console) + AdvLine(old(cache.State()), a, Ad(kind, old(buf.Window())), display.scanActive)
    {
      if kind == SVC_DATA16 && buf.len >= 20 {
        ghost var data := buf.Window();
        var u := buf.PullLe16();
        if u == MESH_PROV_UUID && buf.len >= 18 {
          var uuid := buf.PullMem(16);
          assert uuid == data[2..18];
          cache.AdvUuidSeen(a, uuid);
          display.NoteUuidUpdate(uuid);
        }
      }
    }

    method TakeName(a: Addr, kind: Byte, buf: NetBuf)
      requires Valid() && buf.Valid()
      modifies cache.slots, display`console
      ensures Valid()
      ensures cache.State() == NameStep(old(cache.State()), a, Ad(kind, buf.Window()), display.scanActive)
      ensures display.console
              == old(display.console) + NameLine(old(cache.State()), a, Ad(kind, buf.Window()), display.scanActive)
    {
      if (kind == NAME_COMPLETE || kind == NAME_SHORTENED) && buf.len > 0 {
        var owner := cache.ScanRspNameSeen(a, buf.Window());
        if owner.Some? { display.NoteUuidUpdate(owner.value); }
      }
    }

    /** One round of the parsing loop; `ad` is the structure consumed, if there was one. */
    method AdvIndStructure(a: Addr, buf: NetBuf) returns (more: bool, ghost ad: Ad)
      requires Valid() && buf.Valid() && buf.len > 1
      modifies cache, cache.slots, display`console, buf
      ensures Valid() && buf.Valid()
      ensures !more ==>
                && Stuck(old(buf.Window()))
                && cache.State() == old(cache.State()) && display.console == old(display.console)
      ensures more ==>
                && Parse(old(buf.Window())) == [ad] + Parse(buf.Window())
                && |buf.Window()| < |old(buf.Window())|
                && cache.State() == AdvStep(old(cache.State()), a, ad, display.scanActive)
                && display.console == old(display.console) + AdvLine(old(cache.State()), a, ad, display.scanActive)
    {
      ghost var w := buf.Window();
      ad := Ad(0, []);
      var s := buf.Open();
      if s.None? { return false, ad; }
      ad := Ad(s.value.kind, buf.Window());
      Opened(w, s.value.length, ad.kind, ad.data);
      TakeServiceData(a, s.value.kind, buf);
      buf.Close(s.value, w);
      more := true;
    }

    method ParseAdvInd(a: Addr, buf: NetBuf)
      requires Valid() && buf.Valid()
      modifies cache, cache.slots, display`console, buf
      ensures Valid() && buf.Valid()
      ensures cache.State() == FeedAdv(old(cache.State()), a, Parse(old(buf.Window())), display.scanActive)
      ensures display.console
              == old(display.console) + AdvLines(old(cache.State()), a, Parse(old(buf.Window())), display.scanActive)
    {
      ghost var c, w, out := cache.State(), buf.Window(), display.console;
      ghost var end := FeedAdv(c, a, Parse(w), display.scanActive);
      ghost var lines := out + AdvLines(c, a, Parse(w), display.scanActive);
      while buf.len > 1
        invariant Valid() && buf.Valid() && c == cache.State() && w == buf.Window() && out == display.console
        invariant AdvRest(c, a, w, display.scanActive, out, end, lines)
        decreases |w|
      {
        var more, ad := AdvIndStructure(a, buf);
        if !more {
          NothingLeft(c, a, w, display.scanActive, out, end, lines);
          return;
        }
        AdvRound(c, a, w, ad, buf.Window(), display.scanActive, out, end, lines);
        c, w, out := cache.State(), buf.Window(), display.console;
      }
      NothingLeft(c, a, w, display.scanActive, out, end, lines);
    }

    /** One round of the parsing loop; `ad` is the structure consumed, if there was one. */
    method ScanRspNameStructure(a: Addr, buf: NetBuf) returns (more: bool, ghost ad: Ad)
      requires Valid() && buf.Valid() && buf.len > 1
      modifies cache.slots, display`console, buf
      ensures Valid() && buf.Valid()
      ensures !more ==>
                && Stuck(old(buf.Window()))
                && cache.State() == old(cache.State()) && display.console == old(display.console)
      ensures more ==>
                && Parse(old(buf.Window())) == [ad] + Parse(buf.Window())
                && |buf.Window()| < |old(buf.Window())|
                && cache.State() == NameStep(old(cache.State()), a, ad, display.scanActive)
                && display.console == old(display.console) + NameLine(old(cache.State()), a, ad, display.scanActive)
    {
      ghost var w := buf.Window();
      ad := Ad(0, []);
      var s := buf.Open();
      if s.None? { return false, ad; }
      ad := Ad(s.value.kind, buf.Window());
      Opened(w, s.value.length, ad.kind, ad.data);
      TakeName(a, s.value.kind, buf);
      buf.Close(s.value, w);
      more := true;
    }

    method ParseScanRspName(a: Addr, buf: NetBuf)
      requires Valid() && buf.Valid()
      modifies cache.slots, display`console, buf
      ensures Valid() && buf.Valid()
      ensures cache.State() == FeedNames(old(cache.State()), a, Parse(old(buf.Window())), display.scanActive)
      ensures display.console
              == old(display.console) + NameLines(old(cache.State()), a, Parse(old(buf.Window())), display.scanActive)
    {
      ghost var c, w, out := cache.State(), buf.Window(), display.console;
      ghost var end := FeedNames(c, a, Parse(w), display.scanActive);
      ghost var lines := out + NameLines(c, a, Parse(w), display.scanActive);
      while buf.len > 1
        invariant Valid() && buf.Valid() && c == cache.State() && w == buf.Window() && out == display.console
        invariant NameRest(c, a, w, display.scanActive, out, end, lines)
        decreases |w|
      {
        var more, ad := ScanRspNameStructure(a, buf);
        if !more {
          NothingLeft(c, a, w, display.scanActive, out, end, lines);
          return;
        }
        NameRound(c, a, w, ad, buf.Window(), display.scanActive, out, end, lines);
        c, w, out := cache.State(), buf.Window(), display.console;
      }
      NothingLeft(c, a, w, display.scanActive, out, end, lines);
    }

    /** prov_scan_recv. */
    method ScanRecv(addr: Option<Addr>, kind: AdvType, buf: NetBuf)
      requires Valid() && buf.Valid()
      modifies cache, cache.slots, display`console, buf
      ensures Valid() && buf.Valid()
      ensures cache.State() == Receive(old(cache.State()), Packet(addr, kind, old(buf.Window())), display.scanActive)
      ensures display.console
              == old(display.console)
                 + ReceiveLines(old(cache.State()), Packet(addr, kind, old(buf.Window())), display.scanActive)
    {
      if addr.None? { return; }
      if kind == AdvInd {
        ParseAdvInd(addr.value, buf);
        return;
      }
      if kind == ScanRsp {
        ParseScanRspName(addr.value, buf);
      }
    }
  }
}
