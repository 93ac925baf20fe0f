// Connect envelopes: a flag byte, a four-byte big-endian length, the payload.
module Envelope {
  import opened Machine
  import Seqs

  const HEADER := 5

  function PutUint32(v: uint32): (b: seq<byte>)
    ensures |b| == 4
  {
    var v1, v2 := v / 0x100, v / 0x100 / 0x100;
    [v2 / 0x100, v2 % 0x100, v1 % 0x100, v % 0x100]
  }

  function GetUint32(b: seq<byte>): uint32
    requires |b| >= 4
  {
    ((b[0] as int * 0x100 + b[1]) * 0x100 + b[2]) * 0x100 + b[3]
  }

  lemma PutGetUint32(v: uint32, rest: seq<byte>)
    ensures GetUint32(PutUint32(v) + rest) == v
  {
  }

  // The most significant byte comes first.
  lemma PutIsBigEndian(v: uint32)
    ensures var b := PutUint32(v);
            v == b[0] as int * 0x100_0000 + b[1] as int * 0x1_0000 + b[2] as int * 0x100 + b[3]
  {
    PutGetUint32(v, []);
    assert PutUint32(v) + [] == PutUint32(v);
    hide PutUint32;
  }

  // The length is truncated to 32 bits, as uint32(len(payload)) is.
  function WriteConnectEnvelope(flags: byte, payload: seq<byte>): (b: seq<byte>) {
    [flags] + PutUint32(|payload| % TWO_32) + payload
  }

  lemma EnvelopeParts(flags: byte, payload: seq<byte>)
    ensures var b := WriteConnectEnvelope(flags, payload);
            && |b| == HEADER + |payload| && b[0] == flags
            && GetUint32(b[1..5]) == |payload| % TWO_32
            && b[HEADER..] == payload
  {
    var b := WriteConnectEnvelope(flags, payload);
    var size := PutUint32(|payload| % TWO_32);
    assert b[1..5] == size + [];
    PutGetUint32(|payload| % TWO_32, []);
  }

  // ---------- splitting a stream of envelopes ----------

  datatype Frame = Frame(flags: byte, payload: seq<byte>)

  function WriteAll(frames: seq<Frame>): seq<byte> {
    if frames == [] then [] else WriteConnectEnvelope(frames[0].flags, frames[0].payload) + WriteAll(frames[1..])
  }

  // How a client cuts a stream: None when it does not end at an envelope's end.
  function Split(stream: seq<byte>): Option<seq<Frame>> {
    if stream == [] then Some([])
    else if |stream| < HEADER || |stream| - HEADER < GetUint32(stream[1..5]) then None
    else
      var size := GetUint32(stream[1..5]);
      match Split(stream[HEADER + size..])
      case None => None
      case Some(rest) => Some([Frame(stream[0], stream[HEADER..HEADER + size])] + rest)
  }

  // Any stream of envelopes is cut back into exactly those envelopes.
  lemma {:induction false} SplitWriteAll(frames: seq<Frame>)
    requires forall f :: f in frames ==> |f.payload| < TWO_32
    ensures Split(WriteAll(frames)) == Some(frames)
  {
    if frames != [] {
      SplitWriteAll(frames[1..]);
      SplitFirst(frames[0], WriteAll(frames[1..]));
      assert frames == [frames[0]] + frames[1..];
    }
  }

  lemma SplitFirst(f: Frame, rest: seq<byte>)
    requires |f.payload| < TWO_32
    ensures Split(WriteConnectEnvelope(f.flags, f.payload) + rest) ==
            match Split(rest) case None => None case Some(frames) => Some([f] + frames)
  {
    var head := WriteConnectEnvelope(f.flags, f.payload);
    var stream := head + rest;
    var size := |f.payload|;
    EnvelopeParts(f.flags, f.payload);
    assert stream[1..5] == head[1..5];
    assert stream[HEADER..HEADER + size] == head[HEADER..] == f.payload;
    assert stream[HEADER + size..] == rest;
  }

  // Hence no stream has two readings.
  lemma SplitIsUnique(a: seq<Frame>, b: seq<Frame>)
    requires forall f :: f in a + b ==> |f.payload| < TWO_32
    requires WriteAll(a) == WriteAll(b)
    ensures a == b
  {
    forall f | f in a || f in b
      ensures |f.payload| < TWO_32
    {
      assert f in a + b;
    }
    SplitWriteAll(a);
    SplitWriteAll(b);
  }

  // ---------- reading a request ----------

  // The UTF-8 forms of the characters unicode.IsSpace accepts.
  predicate IsSpace(c: seq<byte>) {
    || (|c| == 1 && (9 <= c[0] <= 13 || c[0] == 32))
    || (|c| == 2 && c[0] == 0xC2 && (c[1] == 0x85 || c[1] == 0xA0))
    || c == [0xE1, 0x9A, 0x80]
    || (|c| == 3 && c[0] == 0xE2 && c[1] == 0x80 && (0x80 <= c[2] <= 0x8A || c[2] == 0xA8 || c[2] == 0xA9 || c[2] == 0xAF))
    || c == [0xE2, 0x81, 0x9F]
    || c == [0xE3, 0x80, 0x80]
  }

  // The size of the space character at the end (at the start) of b, 0 if none.
  function TrailingSpace(b: seq<byte>): (n: nat)
    ensures n <= |b|
    ensures n > 0 ==> IsSpace(b[|b| - n..])
  {
    if |b| >= 1 && IsSpace(b[|b| - 1..]) then 1
    else if |b| >= 2 && IsSpace(b[|b| - 2..]) then 2
    else if |b| >= 3 && IsSpace(b[|b| - 3..]) then 3
    else 0
  }

  function LeadingSpace(b: seq<byte>): (n: nat)
    ensures n <= |b|
    ensures n > 0 ==> IsSpace(b[..n])
  {
    if |b| >= 1 && IsSpace(b[..1]) then 1
    else if |b| >= 2 && IsSpace(b[..2]) then 2
    else if |b| >= 3 && IsSpace(b[..3]) then 3
    else 0
  }

  function TrimRight(b: seq<byte>): (r: seq<byte>)
    ensures TrailingSpace(r) == 0
    ensures r <= b
    ensures r == b <==> TrailingSpace(b) == 0
    decreases |b|
  {
    if TrailingSpace(b) == 0 then b else TrimRight(b[..|b| - TrailingSpace(b)])
  }

  function TrimLeft(b: seq<byte>): (r: seq<byte>)
    ensures LeadingSpace(r) == 0
    ensures |r| <= |b|
    ensures r == b <==> LeadingSpace(b) == 0
    decreases |b|
  {
    if LeadingSpace(b) == 0 then b else TrimLeft(b[LeadingSpace(b)..])
  }

  function TrimSpace(b: seq<byte>): seq<byte> {
    TrimRight(TrimLeft(b))
  }

  // ---------- what trimming takes off ----------

  function Joined(parts: seq<seq<byte>>): seq<byte> {
    if parts == [] then [] else parts[0] + Joined(parts[1..])
  }

  ghost predicate JoinsSpaces(parts: seq<seq<byte>>, b: seq<byte>) {
    (forall i :: 0 <= i < |parts| ==> IsSpace(parts[i])) && Joined(parts) == b
  }

  // Nothing but space characters, one after the other.
  ghost predicate Spaces(b: seq<byte>) {
    exists parts :: JoinsSpaces(parts, b)
  }

  lemma NoSpaces()
    ensures Spaces([])
  {
    assert JoinsSpaces([], []);
  }

  lemma {:induction false} JoinedAfter(parts: seq<seq<byte>>, last: seq<byte>)
    ensures Joined(parts + [last]) == Joined(parts) + last
  {
    if parts == [] {
      assert [last][1..] == [];
    } else {
      assert (parts + [last])[1..] == parts[1..] + [last];
      JoinedAfter(parts[1..], last);
    }
  }

  // A space of n bytes at the end of b goes with the spaces before it.
  lemma SpaceAfter(b: seq<byte>, from: nat, n: nat)
    requires n <= |b| && from <= |b| - n && IsSpace(b[|b| - n..]) && Spaces(b[..|b| - n][from..])
    ensures Spaces(b[from..])
  {
    var parts :| JoinsSpaces(parts, b[..|b| - n][from..]);
    JoinedAfter(parts, b[|b| - n..]);
    assert b[from..] == b[..|b| - n][from..] + b[|b| - n..];
    assert JoinsSpaces(parts + [b[|b| - n..]], b[from..]);
  }

  lemma SpaceBefore(b: seq<byte>, n: nat, to: nat)
    requires n <= to <= |b| && IsSpace(b[..n]) && Spaces(b[n..][..to - n])
    ensures Spaces(b[..to])
  {
    var parts :| JoinsSpaces(parts, b[n..][..to - n]);
    assert b[..to] == b[..n] + b[n..][..to - n];
    assert ([b[..n]] + parts)[1..] == parts;
    assert JoinsSpaces([b[..n]] + parts, b[..to]);
  }

  lemma {:induction false} TrimRightCuts(b: seq<byte>)
    ensures Spaces(b[|TrimRight(b)|..])
  {
    hide Spaces, IsSpace;
    NoSpaces();
    var n := TrailingSpace(b);
    assert b[|b|..] == [];
    if n > 0 {
      TrimRightCuts(b[..|b| - n]);
      SpaceAfter(b, |TrimRight(b)|, n);
    }
  }

  lemma {:induction false} TrimLeftCuts(b: seq<byte>)
    ensures TrimLeft(b) == b[|b| - |TrimLeft(b)|..] && Spaces(b[..|b| - |TrimLeft(b)|])
  {
    hide Spaces, IsSpace;
    NoSpaces();
    var n := LeadingSpace(b);
    if n > 0 {
      TrimLeftCuts(b[n..]);
      SpaceBefore(b, n, |b| - |TrimLeft(b)|);
    }
  }

  // b is r with spaces on both sides.
  ghost predicate Padded(b: seq<byte>, front: seq<byte>, r: seq<byte>, back: seq<byte>) {
    b == front + r + back && Spaces(front) && Spaces(back)
  }

  // Trimming takes off spaces at both ends and leaves none there.
  lemma TrimmedOfSpaces(b: seq<byte>)
    ensures LeadingSpace(TrimSpace(b)) == 0 && TrailingSpace(TrimSpace(b)) == 0
    ensures exists front, back :: Padded(b, front, TrimSpace(b), back)
  {
    hide Spaces, IsSpace, LeadingSpace, TrailingSpace;
    var left := TrimLeft(b);
    var r := TrimRight(left);
    TrimLeftCuts(b);
    TrimRightCuts(left);
    SameStart(left, r);
    hide TrimLeft, TrimRight;
    Cut(b, |b| - |left|, left, r);
    assert Padded(b, b[..|b| - |left|], r, left[|r|..]);
  }

  lemma Cut(b: seq<byte>, i: nat, left: seq<byte>, r: seq<byte>)
    requires i <= |b| && left == b[i..] && r <= left
    ensures b == b[..i] + r + left[|r|..]
  {
  }

  lemma SameStart(b: seq<byte>, r: seq<byte>)
    requires LeadingSpace(b) == 0 && r <= b
    ensures LeadingSpace(r) == 0
  {
    assert |r| >= 1 ==> r[..1] == b[..1];
    assert |r| >= 2 ==> r[..2] == b[..2];
    assert |r| >= 3 ==> r[..3] == b[..3];
    hide IsSpace;
  }

  // ---------- unframing ----------

  // What the codec is given, or a failed slice expression: the end 5+size is a
  // 32-bit sum and can wrap below 5.
  datatype Body = Body(bytes: seq<byte>) | SliceOutOfRange

  const EMPTY_OBJECT: seq<byte> := [0x7B, 0x7D] // "{}"

  function Unframe(body: seq<byte>): Body {
    if |body| >= HEADER && (body[0] == 0 || body[0] == 1) && GetUint32(body[1..5]) <= |body| - HEADER then
      var end := (HEADER + GetUint32(body[1..5])) % TWO_32;
      if end < HEADER then SliceOutOfRange
      else DefaultBody(body[HEADER..end])
    else
      DefaultBody(body)
  }

  function ReadConnectRequest(raw: seq<byte>): Body {
    Unframe(TrimSpace(raw))
  }

  function DefaultBody(body: seq<byte>): Body {
    Body(if body == [] then EMPTY_OBJECT else body)
  }

  // The header's last byte is 1 or 2 before a payload of that length, and no
  // white space character starts with either.
  lemma HeaderHidesNothing(flags: byte, payload: seq<byte>)
    requires 0 < |payload| < TWO_32
    ensures TrailingSpace(WriteConnectEnvelope(flags, payload)) == TrailingSpace(payload)
  {
    hide IsSpace;
    var raw := WriteConnectEnvelope(flags, payload);
    var n := |payload|;
    if n == 1 {
      OneByteHeader(flags, payload);
    } else if n == 2 {
      TwoByteHeader(flags, payload);
    } else {
      hide PutUint32;
      assert raw[|raw| - 1..] == payload[n - 1..];
      assert raw[|raw| - 2..] == payload[n - 2..];
      assert raw[|raw| - 3..] == payload[n - 3..];
    }
  }

  lemma OneByteHeader(flags: byte, payload: seq<byte>)
    requires |payload| == 1
    ensures TrailingSpace(WriteConnectEnvelope(flags, payload)) == TrailingSpace(payload)
  {
    assert PutUint32(1) == [0, 0, 0, 1];
    hide IsSpace, PutUint32;
    var raw := WriteConnectEnvelope(flags, payload);
    assert raw[|raw| - 1..] == payload[0..];
    assert raw[|raw| - 2..] == [1, payload[0]];
    assert raw[|raw| - 3..] == [0, 1, payload[0]];
    StartsNoSpace(raw[|raw| - 2..]);
    StartsNoSpace(raw[|raw| - 3..]);
  }

  lemma TwoByteHeader(flags: byte, payload: seq<byte>)
    requires |payload| == 2
    ensures TrailingSpace(WriteConnectEnvelope(flags, payload)) == TrailingSpace(payload)
  {
    assert PutUint32(2) == [0, 0, 0, 2];
    hide IsSpace, PutUint32;
    var raw := WriteConnectEnvelope(flags, payload);
    assert raw[|raw| - 1..] == payload[1..];
    assert raw[|raw| - 2..] == payload[0..];
    assert raw[|raw| - 3..] == [2, payload[0], payload[1]];
    StartsNoSpace(raw[|raw| - 3..]);
  }

  lemma FramedIsNotLeadingSpace(flags: byte, payload: seq<byte>)
    requires flags == 0 || flags == 1
    ensures TrimSpace(WriteConnectEnvelope(flags, payload)) == TrimRight(WriteConnectEnvelope(flags, payload))
  {
    var raw := WriteConnectEnvelope(flags, payload);
    StartsNoSpace(raw[..1]);
    StartsNoSpace(raw[..2]);
    StartsNoSpace(raw[..3]);
    hide IsSpace;
  }

  lemma StartsNoSpace(c: seq<byte>)
    requires c != [] && c[0] <= 2
    ensures !IsSpace(c)
  {
  }

  lemma UnframeWhole(flags: byte, payload: seq<byte>)
    requires flags == 0 || flags == 1
    requires 0 < |payload| < TWO_32 - HEADER
    ensures Unframe(WriteConnectEnvelope(flags, payload)) == Body(payload)
  {
    EnvelopeParts(flags, payload);
    hide PutUint32, GetUint32;
    var raw := WriteConnectEnvelope(flags, payload);
    assert raw[HEADER..HEADER + |payload|] == raw[HEADER..];
  }

  // What follows the envelope is ignored.
  lemma UnframeFirst(flags: byte, payload: seq<byte>, rest: seq<byte>)
    requires flags == 0 || flags == 1
    requires 0 < |payload| < TWO_32 - HEADER
    ensures Unframe(WriteConnectEnvelope(flags, payload) + rest) == Body(payload)
  {
    EnvelopeParts(flags, payload);
    hide PutUint32, GetUint32;
    var head := WriteConnectEnvelope(flags, payload);
    var raw := head + rest;
    assert raw[1..5] == head[1..5];
    assert raw[HEADER..HEADER + |payload|] == head[HEADER..];
  }

  // Without a frame the codec gets the body itself, "{}" for an empty one.
  lemma UnframedIsKept(body: seq<byte>)
    requires |body| < 5 || body[0] > 1
    ensures Unframe(body) == Body(if body == [] then [0x7B, 0x7D] else body)
  {
  }

  // A cut frame promises more bytes than are left.
  lemma UnframeCut(flags: byte, payload: seq<byte>, body: seq<byte>)
    requires 0 < |payload| < TWO_32 - HEADER
    requires body < WriteConnectEnvelope(flags, payload)
    ensures Unframe(body) == DefaultBody(body)
  {
    EnvelopeParts(flags, payload);
    if |body| >= HEADER {
      assert body[1..5] == WriteConnectEnvelope(flags, payload)[1..5];
    }
  }

  // A framed request with a nonempty payload reaches the codec as that payload
  // exactly when the payload does not end in white space: trailing white space
  // is taken for padding of the request, and the frame is then not recognised.
  lemma UnframesIffNoTrailingSpace(flags: byte, payload: seq<byte>)
    requires flags == 0 || flags == 1
    requires 0 < |payload| < TWO_32 - HEADER
    ensures ReadConnectRequest(WriteConnectEnvelope(flags, payload)) == Body(payload) <==> TrailingSpace(payload) == 0
  {
    var raw := WriteConnectEnvelope(flags, payload);
    FramedIsNotLeadingSpace(flags, payload);
    HeaderHidesNothing(flags, payload);
    UnframeWhole(flags, payload);
    var body := TrimRight(raw);
    if TrailingSpace(payload) > 0 {
      assert body < raw;
      UnframeCut(flags, payload, body);
      EmptyObjectHasNoSpace();
    }
  }

  lemma EmptyObjectHasNoSpace()
    ensures TrailingSpace(EMPTY_OBJECT) == 0
  {
  }

  // A one-line input to a process, say, is a payload the codec never sees.
  lemma LineIsNotUnframed()
    ensures var payload := [0x0A, 0x03, 0x6C, 0x73, 0x0A];
            ReadConnectRequest(WriteConnectEnvelope(0, payload)) != Body(payload)
  {
    var payload: seq<byte> := [0x0A, 0x03, 0x6C, 0x73, 0x0A];
    assert payload[4..] == [0x0A];
    UnframesIffNoTrailingSpace(0, payload);
  }
}
