/** Advertising data as a sequence of length-type-value structures (Bluetooth Core Specification,
    Volume 3, Part C, section 11). */
module AdStructures {
  import opened Bytes

  /** One structure; on the air it is preceded by the length of type and payload together. */
  datatype Ad = Ad(kind: Byte, data: seq<Byte>)

  /** What a parser that walks the bytes front to back sees: it stops at a zero length, at a length that
      runs past the end, and when at most one byte is left. */
  function Parse(b: seq<Byte>): seq<Ad>
    decreases |b|
  {
    if Stuck(b) then []
    else
      var n := b[0] as nat;
      [Ad(b[1], b[2..1 + n])] + Parse(b[1 + n..])
  }

  predicate Stuck(b: seq<Byte>) {
    |b| <= 1 || b[0] == 0 || b[0] as nat > |b| - 1
  }

  predicate Encodable(ads: seq<Ad>) {
    forall i :: 0 <= i < |ads| ==> |ads[i].data| <= 254
  }

  function Encode(ads: seq<Ad>): seq<Byte>
    requires Encodable(ads)
  {
    if ads == [] then []
    else [(|ads[0].data| + 1) as Byte, ads[0].kind] + ads[0].data + Encode(ads[1..])
  }

  lemma SplitHead(b: seq<Byte>)
    requires !Stuck(b)
    ensures var n := b[0] as nat;
            b == [b[0], b[1]] + b[2..1 + n] + b[1 + n..]
  {
  }

  lemma ParseHead(b: seq<Byte>)
    requires !Stuck(b)
    ensures var n := b[0] as nat;
            Parse(b) == [Ad(b[1], b[2..1 + n])] + Parse(b[1 + n..])
  {
  }

  lemma EncodeCons(ad: Ad, ads: seq<Ad>)
    requires |ad.data| <= 254 && Encodable(ads)
    ensures Encodable([ad] + ads)
    ensures Encode([ad] + ads) == [(|ad.data| + 1) as Byte, ad.kind] + ad.data + Encode(ads)
  {
    assert ([ad] + ads)[1..] == ads;
  }

  lemma ParseCons(ad: Ad, w: seq<Byte>)
    requires |ad.data| <= 254
    ensures Parse([(|ad.data| + 1) as Byte, ad.kind] + ad.data + w) == [ad] + Parse(w)
  {
    var b := [(|ad.data| + 1) as Byte, ad.kind] + ad.data + w;
    assert b[2..2 + |ad.data|] == ad.data;
    assert b[2 + |ad.data|..] == w;
  }

  /** The bytes are the encoding of the structures seen, followed by something no structure can start. */
  lemma {:induction false} ParseExplainsPrefix(b: seq<Byte>) returns (rest: seq<Byte>)
    ensures Encodable(Parse(b)) && b == Encode(Parse(b)) + rest && Stuck(rest)
    decreases |b|
  {
    if Stuck(b) {
      rest := b;
      assert b == Encode([]) + b;
    } else {
      var n := b[0] as nat;
      var head, tail := Ad(b[1], b[2..1 + n]), b[1 + n..];
      rest := ParseExplainsPrefix(tail);
      EncodeCons(head, Parse(tail));
      SplitHead(b);
      Regroup([b[0], b[1]] + head.data, Encode(Parse(tail)), rest);
    }
  }

  lemma Regroup<T>(x: seq<T>, y: seq<T>, z: seq<T>)
    ensures x + (y + z) == x + y + z
  {
  }

  /** Conversely, structures followed by something no structure can start are exactly what is seen; so
      the parser visits the longest well-formed prefix and nothing else. */
  lemma {:induction false} ParseFindsAll(ads: seq<Ad>, rest: seq<Byte>)
    requires Encodable(ads) && Stuck(rest)
    ensures Parse(Encode(ads) + rest) == ads
    decreases |ads|
  {
    if ads == [] {
      assert Encode(ads) + rest == rest;
    } else {
      ParseFindsAll(ads[1..], rest);
      EncodedHead(ads, rest);
      ParseCons(ads[0], Encode(ads[1..]) + rest);
    }
  }

  lemma EncodedHead(ads: seq<Ad>, rest: seq<Byte>)
    requires ads != [] && Encodable(ads)
    ensures Encode(ads) + rest
            == [(|ads[0].data| + 1) as Byte, ads[0].kind] + ads[0].data + (Encode(ads[1..]) + rest)
  {
    Regroup([(|ads[0].data| + 1) as Byte, ads[0].kind] + ads[0].data, Encode(ads[1..]), rest);
  }

  /** Round trip: an encoded list padded with any number of zero bytes parses back to the list. */
  lemma PaddedRoundTrip(ads: seq<Ad>, padding: nat)
    requires Encodable(ads)
    ensures Parse(Encode(ads) + Zeros(padding)) == ads
  {
    ParseFindsAll(ads, Zeros(padding));
  }
}
