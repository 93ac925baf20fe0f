// Base 128 varints (Protocol Buffers Encoding guide, "Base 128 Varints"), as
// encoding/binary reads and writes them for 64-bit values.
module Varint {
  import opened Machine

  const MAX_LEN := 10

  datatype Decoded = Malformed | Decoded(value: uint64, size: nat)

  function Encode(v: uint64): (b: seq<byte>)
    ensures 1 <= |b|
  {
    if v < 128 then [v] else [v % 128 + 128] + Encode(v / 128)
  }

  // How large a value may still be when i groups of seven bits have been read.
  function Room(i: nat): (r: nat)
    requires i < MAX_LEN
    decreases MAX_LEN - i
  {
    if i == 9 then 2 else 128 * Room(i + 1)
  }

  // The value starting at b[0], when i of its bytes were consumed before.  The
  // tenth byte may carry one bit only and an eleventh is never accepted.
  function DecodeFrom(b: seq<byte>, i: nat): (d: Decoded)
    requires i <= MAX_LEN
    ensures d.Decoded? ==> i < MAX_LEN && d.value < Room(i) && 1 <= d.size <= |b| && i + d.size <= MAX_LEN
    decreases |b|
  {
    RoomBound(i);
    if |b| == 0 || i == MAX_LEN then Malformed
    else if b[0] < 128 then
      if i == 9 && b[0] > 1 then Malformed else RoomAtLeast(i); Decoded(b[0], 1)
    else
      match DecodeFrom(b[1..], i + 1)
      case Malformed => Malformed
      case Decoded(v, n) => Decoded(b[0] - 128 + 128 * v, n + 1)
  }

  function Decode(b: seq<byte>): (d: Decoded)
    ensures d.Decoded? ==> 1 <= d.size <= |b| && d.size <= MAX_LEN
  {
    DecodeFrom(b, 0)
  }

  lemma RoomBound(i: nat)
    ensures i < MAX_LEN ==> 0 < Room(i) <= TWO_64
    ensures Room(0) == TWO_64
  {
    assert Room(9) == 2 && Room(8) == 128 * Room(9) && Room(7) == 128 * Room(8) && Room(6) == 128 * Room(7);
    assert Room(5) == 128 * Room(6) && Room(4) == 128 * Room(5) && Room(3) == 128 * Room(4);
    assert Room(2) == 128 * Room(3) && Room(1) == 128 * Room(2) && Room(0) == 128 * Room(1);
    assert Room(0) == TWO_64;
    assert i < MAX_LEN ==> i == 0 || i == 1 || i == 2 || i == 3 || i == 4 || i == 5 || i == 6 || i == 7 || i == 8 || i == 9;
  }

  lemma RoomAtLeast(i: nat)
    requires i < MAX_LEN
    ensures i < 9 ==> Room(i) >= 128
    ensures i == 9 ==> Room(i) == 2
  {
    RoomBound(i + 1);
  }

  // Reading back what was written stops exactly at its end, whatever follows.
  lemma {:induction false} DecodeEncodeFrom(v: uint64, rest: seq<byte>, i: nat)
    requires i < MAX_LEN && v < Room(i)
    ensures DecodeFrom(Encode(v) + rest, i) == Decoded(v, |Encode(v)|)
    decreases v
  {
    var b := Encode(v) + rest;
    if v >= 128 {
      RoomAtLeast(i);
      assert b[0] == v % 128 + 128;
      assert b[1..] == Encode(v / 128) + rest;
      DecodeEncodeFrom(v / 128, rest, i + 1);
    }
  }

  lemma DecodeEncode(v: uint64, rest: seq<byte>)
    ensures Decode(Encode(v) + rest) == Decoded(v, |Encode(v)|)
    ensures |Encode(v)| <= MAX_LEN
  {
    RoomBound(0);
    DecodeEncodeFrom(v, rest, 0);
  }

  // A decoded value does not depend on what follows it.
  lemma {:induction false} DecodeFromExtends(b: seq<byte>, more: seq<byte>, i: nat)
    requires i <= MAX_LEN && DecodeFrom(b, i).Decoded?
    ensures DecodeFrom(b + more, i) == DecodeFrom(b, i)
    decreases |b|
  {
    if b[0] >= 128 {
      assert (b + more)[1..] == b[1..] + more;
      DecodeFromExtends(b[1..], more, i + 1);
    }
  }

  lemma {:induction false} DecodeFromExact(b: seq<byte>, i: nat)
    requires i <= MAX_LEN && DecodeFrom(b, i).Decoded?
    ensures DecodeFrom(b[..DecodeFrom(b, i).size], i) == DecodeFrom(b, i)
    decreases |b|
  {
    var n := DecodeFrom(b, i).size;
    if b[0] >= 128 {
      assert b[..n][1..] == b[1..][..n - 1];
      DecodeFromExact(b[1..], i + 1);
    }
  }

  // Every byte string that decodes to v is at least as long as Encode(v): the
  // encoder's form is the shortest one.
  lemma {:induction false} EncodeIsShortest(b: seq<byte>, i: nat)
    requires i <= MAX_LEN && DecodeFrom(b, i).Decoded?
    ensures |Encode(DecodeFrom(b, i).value)| <= DecodeFrom(b, i).size
    decreases |b|
  {
    if b[0] >= 128 {
      EncodeIsShortest(b[1..], i + 1);
    }
  }
}
