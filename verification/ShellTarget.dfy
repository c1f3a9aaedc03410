/** The argument of `prov provision`: a device UUID in hex or an index into the scan list. */
module ShellTarget {
  import opened Bytes
  import opened Hex
  import opened Interface
  import opened CacheSpec

  const LONG_MAX: int := 0x7FFF_FFFF

  datatype Target = Found(uuid: Uuid) | Failed(error: int)

  predicate IsSpace(c: Byte) {
    c == 32 || 9 <= c <= 13
  }

  predicate IsDigit(c: Byte) {
    48 <= c <= 57
  }

  /** The value of a run of decimal digits; None when some character is not a digit. */
  function Digits(s: seq<Byte>): Option<nat> {
    if s == [] then Some(0)
    else
      var front, c := Digits(s[..|s| - 1]), s[|s| - 1];
      if front.Some? && IsDigit(c) then Some(10 * front.value + (c as nat - 48)) else None
  }

  /** strtol in base ten, for text it consumes to the end: white space, a sign, then digits; a value out
      of range is clamped. */
  function Strtol(s: seq<Byte>): Option<int>
    decreases |s|
  {
    if s != [] && IsSpace(s[0]) then Strtol(s[1..])
    else
      var negative := s != [] && s[0] == 45;
      var digits := if s != [] && (s[0] == 45 || s[0] == 43) then s[1..] else s;
      var v := Digits(digits);
      if digits == [] || v.None? then None
      else if negative then Some(if v.value > LONG_MAX + 1 then -LONG_MAX - 1 else 0 - v.value)
      else Some(if v.value > LONG_MAX then LONG_MAX else v.value)
  }

  /** parse_target, given the scan list. */
  function ParseTarget(arg: seq<Byte>, listed: seq<Uuid>): Target {
    if |arg| == 32 then
      var u := Hex2Bin(arg);
      if u.Some? then Found(u.value) else Failed(EINVAL)
    else
      var idx := Strtol(arg);
      if idx.None? || idx.value < 0 then Failed(EINVAL)
      else if idx.value < |listed| then Found(listed[idx.value])
      else Failed(ENOENT)
  }

  /** An index as the listing prints it. */
  function Decimal(n: nat): (s: seq<Byte>)
    ensures s != [] && forall i :: 0 <= i < |s| ==> IsDigit(s[i])
  {
    (if n < 10 then [] else Decimal(n / 10)) + [(48 + n % 10) as Byte]
  }

  lemma DigitsSnoc(front: seq<Byte>, c: Byte)
    requires Digits(front).Some? && IsDigit(c)
    ensures Digits(front + [c]) == Some(10 * Digits(front).value + (c as nat - 48))
  {
    var s := front + [c];
    assert s[..|s| - 1] == front && s[|s| - 1] == c;
  }

  lemma {:induction false} DecimalReads(n: nat)
    ensures Digits(Decimal(n)) == Some(n)
  {
    if n < 10 {
      DigitsSnoc([], (48 + n % 10) as Byte);
    } else {
      DecimalReads(n / 10);
      DigitsSnoc(Decimal(n / 10), (48 + n % 10) as Byte);
    }
  }

  lemma DecimalLength(n: nat)
    requires n < 1000
    ensures |Decimal(n)| <= 3
  {
    assert |Decimal(n / 100)| == 1;
    assert n >= 10 ==> |Decimal(n / 10)| <= 2;
  }

  lemma DecimalParses(listed: seq<Uuid>, i: nat)
    requires i < |listed| <= 128
    ensures ParseTarget(Decimal(i), listed) == Found(listed[i])
  {
    DecimalReads(i);
    DecimalLength(i);
  }

  lemma HexParses(listed: seq<Uuid>, u: Uuid)
    ensures ParseTarget(Bin2Hex(u), listed) == Found(u)
  {
    RoundTrip(u);
  }

  /** Exactly runs of the characters 0 to 9 are read as numbers. */
  lemma {:induction false} DigitsMeans(s: seq<Byte>)
    ensures Digits(s).Some? <==> forall k :: 0 <= k < |s| ==> 48 <= s[k] <= 57
  {
    if s == [] {
    } else {
      DigitsMeans(s[..|s| - 1]);
    }
  }

  /** A decimal number is read as its value, clamped; what a character before it does. */
  lemma Prefixed(c: Byte, s: seq<Byte>, v: nat)
    requires s != [] && Digits(s) == Some(v) && IsDigit(s[0])
    ensures Strtol(s) == Some(if v > 0x7FFF_FFFF then 0x7FFF_FFFF else v)
    ensures IsSpace(c) || c == 43 ==> Strtol([c] + s) == Strtol(s)
    ensures c == 45 ==>
              Strtol([c] + s).Some? && if v == 0 then Strtol([c] + s).value == 0 else Strtol([c] + s).value < 0
  {
    assert ([c] + s)[1..] == s;
  }

  lemma SignedNumber(listed: seq<Uuid>, s: seq<Byte>, v: nat, c: Byte)
    requires s != [] && Digits(s) == Some(v) && IsDigit(s[0]) && |s| < 31
    ensures IsSpace(c) || c == 43 || (c == 45 && v == 0) ==> ParseTarget([c] + s, listed) == ParseTarget(s, listed)
    ensures c == 45 && v > 0 ==> ParseTarget([c] + s, listed) == Failed(-22)
  {
    hide Strtol;
    Prefixed(c, s, v);
  }

  /** White space and a plus before an index change nothing; a minus makes it malformed, except before 0. */
  lemma SignedIndex(listed: seq<Uuid>, n: nat, c: Byte)
    requires |Decimal(n)| < 31
    ensures c == 32 || 9 <= c <= 13 || c == 43 || (c == 45 && n == 0) ==>
              ParseTarget([c] + Decimal(n), listed) == ParseTarget(Decimal(n), listed)
    ensures c == 45 && n > 0 ==> ParseTarget([c] + Decimal(n), listed) == Failed(-22)
  {
    hide ParseTarget;
    DecimalReads(n);
    SignedNumber(listed, Decimal(n), n, c);
  }

  /** An argument of another length than 32 is malformed when it is empty, does not end in a digit or starts with
      neither a digit nor white space nor a sign, and so is one of 32 characters that are not all hex digits. */
  lemma Malformed(arg: seq<Byte>, listed: seq<Uuid>)
    ensures |arg| != 32 && (arg == [] || !(48 <= arg[|arg| - 1] <= 57)) ==> ParseTarget(arg, listed) == Failed(-22)
    ensures |arg| != 32 && arg != [] && !(48 <= arg[0] <= 57 || 9 <= arg[0] <= 13 || arg[0] in {32, 43, 45}) ==>
              ParseTarget(arg, listed) == Failed(-22)
    ensures |arg| == 32 && (exists k :: 0 <= k < 32 && Digit(arg[k]).None?) ==> ParseTarget(arg, listed) == Failed(-22)
  {
    if arg == [] || !(48 <= arg[|arg| - 1] <= 57) { NoNumber(arg); }
    DigitsMeans(arg);
    if k :| 0 <= k < |arg| && Digit(arg[k]).None? { NoHex(arg, k); }
  }

  lemma {:induction false} NoNumber(s: seq<Byte>)
    requires s == [] || !(48 <= s[|s| - 1] <= 57)
    ensures Strtol(s).None?
    decreases |s|
  {
    if s != [] && IsSpace(s[0]) {
      NoNumber(s[1..]);
    } else if s != [] && (s[0] == 45 || s[0] == 43) {
      DigitsMeans(s[1..]);
    } else {
      DigitsMeans(s);
    }
  }

  lemma {:induction false} NoHex(hex: seq<Byte>, k: nat)
    requires k < |hex| && Digit(hex[k]).None?
    ensures Hex2Bin(hex).None?
    decreases |hex|
  {
    if k >= 2 { NoHex(hex[2..], k - 2); }
  }

  /** Whatever the scan list prints for a device, its index or its UUID in hex, names that device again as
      a target, as long as the list has not changed. */
  lemma PrintedTargetsParse(c: Cache, i: nat)
    requires |c.slots| <= 128 && i < |Visible(c.slots)|
    ensures ParseTarget(Decimal(i), Visible(c.slots)) == Found(Visible(c.slots)[i])
    ensures ParseTarget(Bin2Hex(Visible(c.slots)[i]), Visible(c.slots)) == Found(Visible(c.slots)[i])
  {
    VisibleFits(c.slots);
    DecimalParses(Visible(c.slots), i);
    HexParses(Visible(c.slots), Visible(c.slots)[i]);
  }

  lemma {:induction false} VisibleFits(s: seq<Slot>)
    ensures |Visible(s)| <= |s|
  {
    if s == [] {
    } else {
      VisibleFits(s[..|s| - 1]);
    }
  }

  /** An index past the end of the list is reported as such, not as a malformed argument, unless it is
      written with exactly as many digits as a UUID. */
  lemma IndexPastEnd(listed: seq<Uuid>, n: nat)
    requires |listed| <= n && |listed| <= LONG_MAX && |Decimal(n)| != 32
    ensures ParseTarget(Decimal(n), listed) == Failed(-2)
  {
    DecimalReads(n);
  }
}
