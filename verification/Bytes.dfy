/**
 * Little-endian fields, as Python's `struct` writes and reads them. A record
 * is written field by field in front of the bytes that follow it, and read
 * off the front in the same order.
 */
module Bytes {

  newtype byte = b: int | 0 <= b < 0x100
  type u8 = v: int | 0 <= v < 0x100
  type u16 = v: int | 0 <= v < 0x1_0000
  type u32 = v: int | 0 <= v < 0x1_0000_0000
  type u64 = v: int | 0 <= v < 0x1_0000_0000_0000_0000

  /** A field's value and the bytes after it. */
  datatype Front<T> = Front(value: T, rest: seq<byte>)

  function Get8(s: seq<byte>): (f: Front<u8>)
    requires |s| >= 1
    ensures |f.rest| == |s| - 1
  {
    Front(s[0] as int, s[1..])
  }

  function Put8(v: u8, rest: seq<byte>): (s: seq<byte>)
    ensures |s| == 1 + |rest| && Get8(s) == Front(v, rest)
  {
    [v as byte] + rest
  }

  function Get16(s: seq<byte>): (f: Front<u16>)
    requires |s| >= 2
    ensures |f.rest| == |s| - 2
  {
    Front(s[0] as int + 0x100 * s[1] as int, s[2..])
  }

  function Put16(v: u16, rest: seq<byte>): (s: seq<byte>)
    ensures |s| == 2 + |rest| && Get16(s) == Front(v, rest)
  {
    [(v % 0x100) as byte, (v / 0x100) as byte] + rest
  }

  function Get32(s: seq<byte>): (f: Front<u32>)
    requires |s| >= 4
    ensures |f.rest| == |s| - 4
  {
    var low, high := Get16(s), Get16(s[2..]);
    Front(low.value + 0x1_0000 * high.value, s[4..])
  }

  function Put32(v: u32, rest: seq<byte>): (s: seq<byte>)
    ensures |s| == 4 + |rest| && Get32(s) == Front(v, rest)
  {
    var high := Put16(v / 0x1_0000, rest);
    var s := Put16(v % 0x1_0000, high);
    assert s[2..] == high && s[4..] == high[2..];
    s
  }

  function Get64(s: seq<byte>): (f: Front<u64>)
    requires |s| >= 8
    ensures |f.rest| == |s| - 8
  {
    var low := Get32(s);
    var high := Get32(low.rest);
    Front(low.value + 0x1_0000_0000 * high.value, high.rest)
  }

  function Put64(v: u64, rest: seq<byte>): (s: seq<byte>)
    ensures |s| == 8 + |rest| && Get64(s) == Front(v, rest)
  {
    Put32(v % 0x1_0000_0000, Put32(v / 0x1_0000_0000, rest))
  }

  // ----- fields by their offsets -------------------------------------------

  /** Two bytes, the lesser first. */
  function U16At(s: seq<byte>, at: nat): u16
    requires at + 2 <= |s|
  {
    s[at] as int + 256 * s[at + 1] as int
  }

  /** Four bytes, the least first. */
  function U32At(s: seq<byte>, at: nat): u32
    requires at + 4 <= |s|
  {
    s[at] as int + 256 * s[at + 1] as int + 65536 * s[at + 2] as int + 16777216 * s[at + 3] as int
  }

  lemma Get16At(s: seq<byte>, at: nat)
    requires at + 2 <= |s|
    ensures Get16(s[at..]) == Front(U16At(s, at), s[at + 2..])
  {
    assert s[at..][2..] == s[at + 2..];
  }

  lemma Get32At(s: seq<byte>, at: nat)
    requires at + 4 <= |s|
    ensures Get32(s[at..]) == Front(U32At(s, at), s[at + 4..])
  {
    assert s[at..][2..] == s[at + 2..] && s[at..][4..] == s[at + 4..];
    Get16At(s, at);
    Get16At(s, at + 2);
  }

  lemma Get64At(s: seq<byte>, at: nat)
    requires at + 8 <= |s|
    ensures Get64(s[at..]) == Front(U32At(s, at) + 4294967296 * U32At(s, at + 4), s[at + 8..])
  {
    hide Get32;
    Get32At(s, at);
    Get32At(s, at + 4);
  }

  /** Writing back what was read restores the bytes. */
  lemma PutGet8(s: seq<byte>)
    requires |s| >= 1
    ensures Put8(Get8(s).value, Get8(s).rest) == s
  {
  }

  lemma PutGet16(s: seq<byte>)
    requires |s| >= 2
    ensures Put16(Get16(s).value, Get16(s).rest) == s
  {
  }

  lemma PutGet32(s: seq<byte>)
    requires |s| >= 4
    ensures Put32(Get32(s).value, Get32(s).rest) == s
  {
    PutGet16(s);
    PutGet16(s[2..]);
    assert s[2..][2..] == s[4..];
    assert Get32(s).value / 0x1_0000 == Get16(s[2..]).value;
  }

  lemma PutGet64(s: seq<byte>)
    requires |s| >= 8
    ensures Put64(Get64(s).value, Get64(s).rest) == s
  {
    var low := Get32(s);
    PutGet32(s);
    PutGet32(low.rest);
    assert Get64(s).value / 0x1_0000_0000 == Get32(low.rest).value;
  }

  /** Two's complement, for `struct`'s signed codes. */
  function Signed(v: nat, half: int): (n: int)
    requires v < 2 * half
    ensures -half <= n < half
  {
    if v < half then v else v - 2 * half
  }

  function Unsigned(n: int, half: int): (v: nat)
    requires -half <= n < half
    ensures v < 2 * half && Signed(v, half) == n
  {
    if n >= 0 then n else n + 2 * half
  }

  lemma UnsignedOfSigned(v: nat, half: int)
    requires v < 2 * half
    ensures Unsigned(Signed(v, half), half) == v
  {
  }
}
