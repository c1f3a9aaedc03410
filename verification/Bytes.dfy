/** Bytes, fixed-size identifiers and C strings shared by every component. */
module Bytes {
  newtype Byte = b: int | 0 <= b < 0x100

  datatype Option<+T> = None | Some(value: T)

  /** `length` zero bytes, as `memset(_, 0, length)` leaves them. */
  function Zeros(length: nat): (z: seq<Byte>)
    ensures |z| == length
    ensures forall i :: 0 <= i < length ==> z[i] == 0
  {
    seq(length, _ => 0 as Byte)
  }

  /** A device UUID (16 octets) and a `bt_addr_le_t` (a type octet and six address octets). */
  type Uuid = u: seq<Byte> | |u| == 16 witness Zeros(16)
  type Addr = a: seq<Byte> | |a| == 7 witness Zeros(7)

  function Min(a: nat, b: nat): (m: nat)
    ensures m == a || m == b
    ensures m <= a && m <= b
  {
    if a <= b then a else b
  }

  /** The C string a buffer holds: everything before its first NUL. */
  function CStr(buf: seq<Byte>): (s: seq<Byte>)
    ensures s <= buf
    ensures 0 !in s
    ensures |s| < |buf| ==> buf[|s|] == 0
  {
    if buf == [] || buf[0] == 0 then [] else [buf[0]] + CStr(buf[1..])
  }

  /** The postconditions of CStr determine it. */
  lemma {:induction false} CStrUnique(buf: seq<Byte>, s: seq<Byte>)
    requires s <= buf && 0 !in s
    requires |s| < |buf| ==> buf[|s|] == 0
    ensures CStr(buf) == s
  {
    if s == [] {
    } else {
      assert s[0] == buf[0];
      assert s == [s[0]] + s[1..];
      CStrUnique(buf[1..], s[1..]);
    }
  }
}
