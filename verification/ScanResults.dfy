/** Discovery end to end: from received bytes to what a lookup by UUID answers. */
module ScanResults {
  import opened Bytes
  import opened AdStructures
  import opened CacheSpec
  import opened CacheMap
  import opened DisplaySpec
  import opened ScanSpec

  // ---------------------------------------------------------------------------- what counts

  /** A structure carries UUID u exactly when it is 16-bit service data (type 0x16) of at least 20 bytes that
      begin with the Mesh Provisioning Service's number, 0x1827 low byte first, and then u. */
  lemma CarriesUuid(ad: Ad, u: Uuid)
    ensures ProvUuid(ad) == Some(u) <==> ad.kind == 0x16 && |ad.data| >= 20 && [0x27, 0x18] + u <= ad.data
  {
    if |ad.data| >= 20 {
      var head: seq<Byte> := [0x27, 0x18] + u;
      assert head <= ad.data <==> ad.data[0] == 0x27 && ad.data[1] == 0x18 && ad.data[2..18] == u by {
        assert head == ad.data[..18] <==> head[0] == ad.data[0] && head[1] == ad.data[1] && head[2..] == ad.data[2..18];
      }
    }
  }

  /** And name n exactly when it is a complete (0x09) or a shortened (0x08) name, n itself, and not empty. */
  lemma CarriesName(ad: Ad, n: seq<Byte>)
    ensures GapName(ad) == Some(n) <==> ad.kind in {0x08, 0x09} && ad.data == n != []
  {
  }

  // ---------------------------------------------------------------------------- what the cache keeps

  /** The address is cached under this UUID. */
  ghost predicate Owns(c: Cache, a: Addr, u: Uuid) {
    Good(c) && Owner(Abs(c.slots), a) == Some(u)
  }

  lemma OwnsMeansFound(c: Cache, a: Addr, u: Uuid)
    requires Owns(c, a, u)
    ensures var i := Find(c.slots, ByAddr(a)); i < |c.slots| && c.slots[i].haveUuid && c.slots[i].uuid == u
  {
    OwnerIs(c.slots, a);
    var i := Find(c.slots, ByAddr(a));
    assert i < |c.slots| ==> SlotOk(c.slots[i]);
  }

  /** Marking a device visible changes no record's address or name. */
  lemma NoteKeepsRecords(c: Cache, u: Uuid, active: bool, a: Addr, v: Uuid)
    requires Owns(c, a, v)
    ensures var d := Note(c, u, active);
            Owns(d, a, v) && Abs(d.slots)[v].name == Abs(c.slots)[v].name
  {
    MarkRefines(c, u);
    OnlyOwner(Note(c, u, active).slots, a, v);
  }

  /** At most one record carries an address. */
  lemma OnlyOwner(s: seq<Slot>, a: Addr, u: Uuid)
    requires Inv(s) && u in Abs(s) && Abs(s)[u].addr == Some(a)
    ensures Owner(Abs(s), a) == Some(u)
  {
    OwnerIs(s, a);
    InAbs(s, u);
    FindsItself(s, Find(s, ByUuid(u)));
  }

  /** One scan response structure sets its owner's name, cut and terminated, and no other's. */
  lemma NameStepSetsName(c: Cache, a: Addr, ad: Ad, active: bool, u: Uuid)
    requires Owns(c, a, u)
    ensures var d := NameStep(c, a, ad, active);
            && Owns(d, a, u)
            && Abs(d.slots)[u].name
               == if GapName(ad).Some? then Some(StoredName(GapName(ad).value)) else Abs(c.slots)[u].name
  {
    OwnsMeansFound(c, a, u);
    if GapName(ad).Some? {
      Refines(c, Name(a, GapName(ad).value));
      var d := ScanRspNameSeen(c, a, GapName(ad).value);
      OnlyOwner(d.slots, a, u);
      NoteKeepsRecords(d, u, active, a, u);
    }
  }

  lemma {:induction false} FeedNamesSetsLast(c: Cache, a: Addr, ads: seq<Ad>, active: bool, u: Uuid)
    requires Owns(c, a, u)
    ensures var d := FeedNames(c, a, ads, active);
            && Owns(d, a, u)
            && Abs(d.slots)[u].name
               == if LastName(ads).Some? then Some(StoredName(LastName(ads).value)) else Abs(c.slots)[u].name
    decreases |ads|
  {
    if ads == [] {
    } else {
      NameStepSetsName(c, a, ads[0], active, u);
      FeedNamesSetsLast(NameStep(c, a, ads[0], active), a, ads[1..], active, u);
    }
  }

  /** Names end to end: once an address is cached, a scan response with at least one non-empty name makes
      every later lookup by the device's UUID answer the last such name, cut at 32 bytes, at the first NUL
      and at the caller's buffer. */
  lemma NameEndToEnd(c: Cache, a: Addr, bytes: seq<Byte>, active: bool, u: Uuid, size: nat)
    requires Owns(c, a, u) && size > 0
    requires LastName(Parse(bytes)).Some?
    ensures var d, stored := FeedNames(c, a, Parse(bytes), active), StoredName(LastName(Parse(bytes)).value);
            && LookupName(d, u, size).Some?
            && CStr(LookupName(d, u, size).value) == stored[..Min(|stored|, size - 1)]
  {
    var d := FeedNames(c, a, Parse(bytes), active);
    FeedNamesSetsLast(c, a, Parse(bytes), active, u);
    LookupNameReadsMap(d, u, size);
  }

  lemma AdvStepOwns(c: Cache, a: Addr, ad: Ad, active: bool)
    requires Good(c)
    ensures Good(AdvStep(c, a, ad, active))
    ensures ProvUuid(ad).Some? ==> Owns(AdvStep(c, a, ad, active), a, ProvUuid(ad).value)
    ensures ProvUuid(ad).None? ==> AdvStep(c, a, ad, active) == c
  {
    if ProvUuid(ad).Some? {
      var u := ProvUuid(ad).value;
      var d := AdvUuidSeen(c, a, u);
      Refines(c, Adv(a, u));
      OnlyOwner(d.slots, a, u);
      NoteKeepsRecords(d, u, active, a, u);
    }
  }

  /** After an advertisement the address belongs to the last device UUID the advertisement carried. */
  lemma {:induction false} FeedAdvOwns(c: Cache, a: Addr, ads: seq<Ad>, active: bool)
    requires Good(c)
    ensures Good(FeedAdv(c, a, ads, active))
    ensures LastUuid(ads).Some? ==> Owns(FeedAdv(c, a, ads, active), a, LastUuid(ads).value)
    ensures LastUuid(ads).None? ==> FeedAdv(c, a, ads, active) == c
    decreases |ads|
  {
    if ads == [] {
    } else {
      AdvStepOwns(c, a, ads[0], active);
      FeedAdvOwns(AdvStep(c, a, ads[0], active), a, ads[1..], active);
    }
  }

  /** Discovery end to end: whatever the cache held, a connectable advertisement with a device UUID followed
      by a scan response with a name from the same address makes the device findable under that name, and,
      with the scan display on, lists it. */
  lemma DiscoveryEndToEnd(c: Cache, adv: Packet, rsp: Packet, active: bool, size: nat)
    requires Good(c) && size > 0
    requires adv.kind.AdvInd? && rsp.kind.ScanRsp? && adv.addr.Some? && rsp.addr == adv.addr
    requires LastUuid(Parse(adv.bytes)).Some? && LastName(Parse(rsp.bytes)).Some?
    ensures var u, stored := LastUuid(Parse(adv.bytes)).value, StoredName(LastName(Parse(rsp.bytes)).value);
            var d := Receive(Receive(c, adv, active), rsp, active);
            && LookupName(d, u, size).Some?
            && CStr(LookupName(d, u, size).value) == stored[..Min(|stored|, size - 1)]
            && u in Abs(d.slots) && Abs(d.slots)[u].name == Some(stored) && (active ==> Abs(d.slots)[u].visible)
  {
    var a, u := adv.addr.value, LastUuid(Parse(adv.bytes)).value;
    var c1 := FeedAdv(c, a, Parse(adv.bytes), active);
    FeedAdvOwns(c, a, Parse(adv.bytes), active);
    NameEndToEnd(c1, a, rsp.bytes, active, u, size);
    FeedNamesSetsLast(c1, a, Parse(rsp.bytes), active, u);
    if active { FeedNamesLists(c1, a, Parse(rsp.bytes), u); }
  }

  /** With the display on, a device named by a scan response is listed. */
  lemma {:induction false} FeedNamesLists(c: Cache, a: Addr, ads: seq<Ad>, u: Uuid)
    requires Owns(c, a, u)
    ensures var d := FeedNames(c, a, ads, true);
            Owns(d, a, u) && (LastName(ads).Some? || Abs(c.slots)[u].visible ==> Abs(d.slots)[u].visible)
    decreases |ads|
  {
    if ads == [] {
    } else {
      NameStepSetsName(c, a, ads[0], true, u);
      NameStepLists(c, a, ads[0], u);
      FeedNamesLists(NameStep(c, a, ads[0], true), a, ads[1..], u);
    }
  }

  /** The last structure of its kind decides. */
  lemma {:induction false} LastOf(before: seq<Ad>, ad: Ad, after: seq<Ad>)
    ensures LastUuid(after).None? && ProvUuid(ad).Some? ==> LastUuid(before + [ad] + after) == ProvUuid(ad)
    ensures LastName(after).None? && GapName(ad).Some? ==> LastName(before + [ad] + after) == GapName(ad)
    decreases |before|
  {
    var ads := before + [ad] + after;
    if before == [] {
      assert ads[1..] == after;
    } else {
      assert ads[1..] == before[1..] + [ad] + after;
      LastOf(before[1..], ad, after);
    }
  }

  lemma {:induction false} NoneOf(ads: seq<Ad>)
    ensures (forall i :: 0 <= i < |ads| ==> ads[i].kind != 0x16) ==> LastUuid(ads).None?
    ensures (forall i :: 0 <= i < |ads| ==> ads[i].kind !in {0x08, 0x09}) ==> LastName(ads).None?
    decreases |ads|
  {
    if ads == [] {
    } else {
      NoneOf(ads[1..]);
    }
  }

  /** The bytes are these structures, padded with zeros: any before, the one that counts, and after it none of
      the kinds named. */
  predicate Spells(bytes: seq<Byte>, before: seq<Ad>, ad: Ad, after: seq<Ad>, padding: nat, kinds: set<Byte>) {
    && Encodable(before + [ad] + after) && bytes == Encode(before + [ad] + after) + Zeros(padding)
    && forall i :: 0 <= i < |after| ==> after[i].kind !in kinds
  }

  /** What a device advertises: its UUID and out-of-band information, among other structures. */
  ghost predicate Advertises(bytes: seq<Byte>, u: Uuid) {
    exists before, oob, after, padding ::
      |oob| >= 2 && Spells(bytes, before, Ad(0x16, [0x27, 0x18] + u + oob), after, padding, {0x16})
  }

  /** What it answers a scan with: a complete or shortened name, among other structures. */
  ghost predicate Answers(bytes: seq<Byte>, name: seq<Byte>) {
    exists before, kind, after, padding ::
      kind in {0x08, 0x09} && name != [] && Spells(bytes, before, Ad(kind, name), after, padding, {0x08, 0x09})
  }

  lemma AdvertisedUuid(bytes: seq<Byte>, u: Uuid)
    requires Advertises(bytes, u)
    ensures LastUuid(Parse(bytes)) == Some(u)
  {
    var before, oob, after, padding :|
      |oob| >= 2 && Spells(bytes, before, Ad(0x16, [0x27, 0x18] + u + oob), after, padding, {0x16});
    var ad := Ad(0x16, [0x27, 0x18] + u + oob);
    assert [0x27, 0x18] + u <= ad.data;
    CarriesUuid(ad, u);
    NoneOf(after);
    LastOf(before, ad, after);
    PaddedRoundTrip(before + [ad] + after, padding);
  }

  lemma AnsweredName(bytes: seq<Byte>, name: seq<Byte>)
    requires Answers(bytes, name)
    ensures LastName(Parse(bytes)) == Some(name)
  {
    var before, kind, after, padding :|
      kind in {0x08, 0x09} && name != [] && Spells(bytes, before, Ad(kind, name), after, padding, {0x08, 0x09});
    CarriesName(Ad(kind, name), name);
    NoneOf(after);
    LastOf(before, Ad(kind, name), after);
    PaddedRoundTrip(before + [Ad(kind, name)] + after, padding);
  }

  /** The same from the bytes on the air: a device advertises UUID u and answers the scan with a name, and is
      found as u under that name, cut at 32 bytes and at the first NUL. */
  lemma DiscoveryFromBytes(c: Cache, a: Addr, adv: seq<Byte>, u: Uuid, rsp: seq<Byte>, name: seq<Byte>,
                           active: bool, size: nat)
    requires Good(c) && size > 0 && Advertises(adv, u) && Answers(rsp, name)
    ensures var d := Receive(Receive(c, Packet(Some(a), AdvInd, adv), active), Packet(Some(a), ScanRsp, rsp), active);
            var stored := CStr(name[..Min(|name|, 32)]);
            && u in Abs(d.slots) && Abs(d.slots)[u].name == Some(stored) && (active ==> Abs(d.slots)[u].visible)
            && LookupName(d, u, size).Some?
            && CStr(LookupName(d, u, size).value) == stored[..Min(|stored|, size - 1)]
  {
    AdvertisedUuid(adv, u);
    AnsweredName(rsp, name);
    DiscoveryEndToEnd(c, Packet(Some(a), AdvInd, adv), Packet(Some(a), ScanRsp, rsp), active, size);
  }

  lemma NameStepLists(c: Cache, a: Addr, ad: Ad, u: Uuid)
    requires Owns(c, a, u)
    ensures var d := NameStep(c, a, ad, true);
            && u in Abs(d.slots)
            && (GapName(ad).Some? || Abs(c.slots)[u].visible ==> Abs(d.slots)[u].visible)
  {
    OwnsMeansFound(c, a, u);
    if GapName(ad).Some? {
      Refines(c, Name(a, GapName(ad).value));
      MarkRefines(ScanRspNameSeen(c, a, GapName(ad).value), u);
    }
  }

  // ---------------------------------------------------------------------------- what is printed

  /** A packet without an address, or neither a connectable advertisement nor a scan response, is ignored. */
  lemma OthersAreIgnored(c: Cache, p: Packet, active: bool)
    requires c.cursor < |c.slots| && (p.addr.None? || p.kind.OtherAdv?)
    ensures Receive(c, p, active) == c && ReceiveLines(c, p, active) == []
  {
  }

  /** With the display on, an advertisement of a device that has a name and is not listed yet prints its line,
      under an index that selects it from then on, and lists it; any other advertisement prints nothing. */
  lemma AdvAnnounces(c: Cache, a: Addr, ad: Ad, active: bool, u: Uuid)
    requires Good(c) && ProvUuid(ad) == Some(u)
    ensures var m := Abs(AdvUuidSeen(c, a, u).slots);
            var d, lines := AdvStep(c, a, ad, active), AdvLine(c, a, ad, active);
            && u in m
            && if active && m[u].name.Some? && !m[u].visible
               then |lines| == 1 && lines[0].uuid == u && Some(lines[0].name) == m[u].name
                    && lines[0].index < |Visible(d.slots)| && Visible(d.slots)[lines[0].index] == u
               else lines == []
  {
    Refines(c, Adv(a, u));
    LinesAreTrue(AdvUuidSeen(c, a, u), u, active);
  }

  lemma {:induction false} VisibleStays(s: seq<Slot>, i: nat, e: Slot)
    requires i < |s| && e.inUse == s[i].inUse && e.visible == s[i].visible && e.uuid == s[i].uuid
    ensures Visible(s[i := e]) == Visible(s)
  {
    var n := |s| - 1;
    if i == n {
      assert s[i := e][..n] == s[..n];
    } else {
      assert s[i := e][..n] == s[..n][i := e];
      VisibleStays(s[..n], i, e);
    }
  }

  /** The line of the device's first name, if it was not listed before. */
  ghost predicate Announces(lines: seq<Line>, c: Cache, d: Cache, ads: seq<Ad>, u: Uuid)
    requires u in Abs(c.slots)
  {
    if Abs(c.slots)[u].visible || LastName(ads).None? then lines == [] && Visible(d.slots) == Visible(c.slots)
    else
      && |lines| == 1 && lines[0].uuid == u && FirstName(ads) == Some(lines[0].name)
      && lines[0].index < |Visible(d.slots)| && Visible(d.slots)[lines[0].index] == u
  }

  function FirstName(ads: seq<Ad>): Option<seq<Byte>> {
    if ads == [] then None
    else if GapName(ads[0]).Some? then Some(StoredName(GapName(ads[0]).value))
    else FirstName(ads[1..])
  }

  lemma NameStepAnnounces(c: Cache, a: Addr, ad: Ad, u: Uuid)
    requires Owns(c, a, u)
    ensures u in Abs(c.slots) && Announces(NameLine(c, a, ad, true), c, NameStep(c, a, ad, true), [ad], u)
  {
    OwnsMeansFound(c, a, u);
    OwnerIs(c.slots, a);
    assert LastName([ad][1..]) == None && FirstName([ad][1..]) == None;
    if GapName(ad).Some? {
      var i, n := Find(c.slots, ByAddr(a)), GapName(ad).value;
      Refines(c, Name(a, n));
      LinesAreTrue(ScanRspNameSeen(c, a, n), u, true);
      VisibleStays(c.slots, i, c.slots[i].(name := NameSet(c.slots[i].name, n), haveName := true));
    }
  }

  /** One structure and the rest: the line comes from the first name, and after it the device is listed. */
  lemma AnnouncesCons(c: Cache, d: Cache, e: Cache, ads: seq<Ad>, u: Uuid, first: seq<Line>, rest: seq<Line>)
    requires ads != [] && u in Abs(c.slots) && u in Abs(d.slots)
    requires Abs(d.slots)[u].visible <==> Abs(c.slots)[u].visible || GapName(ads[0]).Some?
    requires Announces(first, c, d, [ads[0]], u) && Announces(rest, d, e, ads[1..], u)
    ensures Announces(first + rest, c, e, ads, u)
  {
    hide Abs;
    hide Visible;
    assert [ads[0]][1..] == [] && LastName([]) == None;
    assert LastName([ads[0]]) == GapName(ads[0]);
    assert [] + rest == rest && first + [] == first;
  }

  /** With the display on, a scan response prints exactly one line if it lists its device, with the first name it
      carries, under an index that selects the device when the whole response has been read. */
  lemma {:induction false} NamesAnnounceOnce(c: Cache, a: Addr, ads: seq<Ad>, u: Uuid)
    requires Owns(c, a, u)
    ensures u in Abs(c.slots) && Announces(NameLines(c, a, ads, true), c, FeedNames(c, a, ads, true), ads, u)
    decreases |ads|
  {
    if ads == [] {
      OwnerIs(c.slots, a);
    } else {
      hide Announces;
      hide Abs;
      var d := NameStep(c, a, ads[0], true);
      NameStepAnnounces(c, a, ads[0], u);
      NameStepSetsName(c, a, ads[0], true, u);
      NameStepLists(c, a, ads[0], u);
      NamesAnnounceOnce(d, a, ads[1..], u);
      AnnouncesCons(c, d, FeedNames(d, a, ads[1..], true), ads, u,
                    NameLine(c, a, ads[0], true), NameLines(d, a, ads[1..], true));
    }
  }

  /** The same of a packet from the air. */
  lemma ScanRspAnnouncesOnce(c: Cache, a: Addr, bytes: seq<Byte>, u: Uuid)
    requires Owns(c, a, u)
    ensures var p := Packet(Some(a), ScanRsp, bytes);
            u in Abs(c.slots) && Announces(ReceiveLines(c, p, true), c, Receive(c, p, true), Parse(bytes), u)
  {
    NamesAnnounceOnce(c, a, Parse(bytes), u);
  }

  /** With the display off, nothing is printed. */
  lemma {:induction false} QuietWhenOff(c: Cache, p: Packet)
    requires c.cursor < |c.slots|
    ensures ReceiveLines(c, p, false) == []
  {
    if p.addr.Some? {
      NoAdvLines(c, p.addr.value, Parse(p.bytes));
      NoNameLines(c, p.addr.value, Parse(p.bytes));
    }
  }

  lemma {:induction false} NoAdvLines(c: Cache, a: Addr, ads: seq<Ad>)
    requires c.cursor < |c.slots|
    ensures AdvLines(c, a, ads, false) == []
    decreases |ads|
  {
    if ads == [] {
    } else {
      NoAdvLines(AdvStep(c, a, ads[0], false), a, ads[1..]);
    }
  }

  lemma {:induction false} NoNameLines(c: Cache, a: Addr, ads: seq<Ad>)
    requires c.cursor < |c.slots|
    ensures NameLines(c, a, ads, false) == []
    decreases |ads|
  {
    if ads == [] {
    } else {
      NoNameLines(NameStep(c, a, ads[0], false), a, ads[1..]);
    }
  }
}
