/** bin2hex and hex2bin, as the shell and the scenario table use them. */
module Hex {
  import opened Bytes

  /** The value of a hex digit character, in either case. */
  function Digit(c: Byte): Option<nat> {
    var n := c as nat;
    if 48 <= n <= 57 then Some(n - 48)
    else if 97 <= n <= 102 then Some(n - 87)
    else if 65 <= n <= 70 then Some(n - 55)
    else None
  }

  /** The lower-case digit character bin2hex prints. */
  function DigitChar(v: nat): (c: Byte)
    requires v < 16
    ensures Digit(c) == Some(v)
  {
    (if v < 10 then 48 + v else 87 + v) as Byte
  }

  function Bin2Hex(bytes: seq<Byte>): (hex: seq<Byte>)
    ensures |hex| == 2 * |bytes|
  {
    if bytes == [] then []
    else [DigitChar(bytes[0] as nat / 16), DigitChar(bytes[0] as nat % 16)] + Bin2Hex(bytes[1..])
  }

  /** Decodes pairs of digits; None when the count is odd or a character is not a digit. */
  function Hex2Bin(hex: seq<Byte>): (bytes: Option<seq<Byte>>)
    ensures bytes.Some? ==> 2 * |bytes.value| == |hex|
  {
    if hex == [] then Some([])
    else if |hex| == 1 then None
    else
      var hi, lo, rest := Digit(hex[0]), Digit(hex[1]), Hex2Bin(hex[2..]);
      if hi.Some? && lo.Some? && rest.Some?
      then Some([HexByte(hi.value, lo.value)] + rest.value)
      else None
  }

  function HexByte(hi: nat, lo: nat): Byte
    requires hi < 16 && lo < 16
  {
    (16 * hi + lo) as Byte
  }

  /** Upper-case digits folded to the lower case that bin2hex prints. */
  function LowerChar(c: Byte): Byte {
    if 65 <= c <= 70 then c + 32 else c
  }

  function Lower(hex: seq<Byte>): (l: seq<Byte>)
    ensures |l| == |hex|
  {
    seq(|hex|, i requires 0 <= i < |hex| => LowerChar(hex[i]))
  }

  /** A byte prints as two digits, the high one first. */
  lemma PrintedByte(b: Byte)
    ensures Bin2Hex([b]) == [Char(b as nat / 16), Char(b as nat % 16)]
  {
    assert Bin2Hex([b][1..]) == [];
  }

  /** The digit characters in the order of their values. */
  function Char(v: nat): Byte
    requires v < 16
  {
    "0123456789abcdef"[v] as int as Byte
  }

  /** A character is a digit exactly when it is one of those, in either case. */
  lemma DigitIs(c: Byte, v: nat)
    ensures Digit(c) == Some(v) <==>
              v < 16 && ("0123456789abcdef"[v] as int == c as int || "0123456789ABCDEF"[v] as int == c as int)
  {
  }

  lemma PrintByte(b: Byte, rest: seq<Byte>)
    ensures Bin2Hex([b] + rest) == [DigitChar(b as nat / 16), DigitChar(b as nat % 16)] + Bin2Hex(rest)
  {
    assert ([b] + rest)[1..] == rest;
  }

  lemma PrintDigit(c: Byte)
    requires Digit(c).Some?
    ensures Digit(c).value < 16 && DigitChar(Digit(c).value) == LowerChar(c)
  {
  }

  lemma SplitByte(hi: nat, lo: nat)
    requires hi < 16 && lo < 16
    ensures HexByte(hi, lo) as nat / 16 == hi && HexByte(hi, lo) as nat % 16 == lo
  {
  }

  lemma LowerPair(hex: seq<Byte>)
    requires |hex| >= 2
    ensures Lower(hex) == [LowerChar(hex[0]), LowerChar(hex[1])] + Lower(hex[2..])
  {
  }

  /** Decoding what was printed gives the bytes back. */
  lemma {:induction false} RoundTrip(bytes: seq<Byte>)
    ensures Hex2Bin(Bin2Hex(bytes)) == Some(bytes)
  {
    if bytes == [] {
    } else {
      RoundTrip(bytes[1..]);
      var b := bytes[0] as nat;
      assert Bin2Hex(bytes)[2..] == Bin2Hex(bytes[1..]);
      assert HexByte(b / 16, b % 16) == bytes[0];
      assert bytes == [bytes[0]] + bytes[1..];
    }
  }

  /** Printing what was decoded gives the text back, up to case. */
  lemma {:induction false} Reprint(hex: seq<Byte>)
    requires Hex2Bin(hex).Some?
    ensures Bin2Hex(Hex2Bin(hex).value) == Lower(hex)
  {
    if hex == [] {
    } else {
      var rest := Hex2Bin(hex[2..]).value;
      Reprint(hex[2..]);
      PrintDigit(hex[0]);
      PrintDigit(hex[1]);
      SplitByte(Digit(hex[0]).value, Digit(hex[1]).value);
      PrintByte(HexByte(Digit(hex[0]).value, Digit(hex[1]).value), rest);
      LowerPair(hex);
    }
  }

  lemma {:induction false} Bin2HexPrefix(bytes: seq<Byte>, n: nat)
    requires n <= |bytes|
    ensures Bin2Hex(bytes[..n]) == Bin2Hex(bytes)[..2 * n]
  {
    if n == 0 {
    } else {
      Bin2HexPrefix(bytes[1..], n - 1);
      assert bytes[..n][1..] == bytes[1..][..n - 1];
    }
  }
}
