// Base 64 with padding (section 4 of RFC 4648), as encoding/base64's
// StdEncoding writes it and reads it back.
module Base64 {
  import opened Machine

  type sextet = x: int | 0 <= x < 64

  const PAD: byte := '=' as int

  // The alphabet: A-Z a-z 0-9 + /
  function Symbol(v: sextet): byte {
    if v < 26 then 65 + v
    else if v < 52 then 97 + (v - 26)
    else if v < 62 then 48 + (v - 52)
    else if v == 62 then 43
    else 47
  }

  function Index(c: byte): (r: Option<sextet>)
    ensures r.Some? ==> c != PAD && Symbol(r.value) == c
  {
    if 65 <= c <= 90 then Some(c - 65)
    else if 97 <= c <= 122 then Some(c - 97 + 26)
    else if 48 <= c <= 57 then Some(c - 48 + 52)
    else if c == 43 then Some(62)
    else if c == 47 then Some(63)
    else None
  }

  function Encode(b: seq<byte>): Text {
    if |b| == 0 then []
    else if |b| == 1 then
      [Symbol(b[0] / 4), Symbol(b[0] % 4 * 16), PAD, PAD]
    else if |b| == 2 then
      [Symbol(b[0] / 4), Symbol(b[0] % 4 * 16 + b[1] / 16), Symbol(b[1] % 16 * 4), PAD]
    else
      [Symbol(b[0] / 4), Symbol(b[0] % 4 * 16 + b[1] / 16), Symbol(b[1] % 16 * 4 + b[2] / 64), Symbol(b[2] % 64)]
      + Encode(b[3..])
  }

  // The bytes decoded before the first corrupt quantum, and whether all was well.
  datatype Decoding = Decoding(bytes: seq<byte>, ok: bool)

  function FirstByte(d0: sextet, d1: sextet): byte {
    d0 * 4 + d1 / 16
  }

  function SecondByte(d1: sextet, d2: sextet): byte {
    d1 % 16 * 16 + d2 / 4
  }

  function ThirdByte(d2: sextet, d3: sextet): byte {
    d2 % 4 * 64 + d3
  }

  // One quantum of four symbols at a time; the bits padding leaves over are
  // ignored, and anything after padding is corrupt.
  function DecodeQuanta(s: Text): Decoding {
    if |s| == 0 then Decoding([], true)
    else if |s| < 4 || Index(s[0]).None? || Index(s[1]).None? then Decoding([], false)
    else
      var d0, d1 := Index(s[0]).value, Index(s[1]).value;
      match Index(s[2])
      case None =>
        if s[2] != PAD || s[3] != PAD then Decoding([], false)
        else Decoding([FirstByte(d0, d1)], |s| == 4)
      case Some(d2) =>
        match Index(s[3])
        case None =>
          if s[3] != PAD then Decoding([], false)
          else Decoding([FirstByte(d0, d1), SecondByte(d1, d2)], |s| == 4)
        case Some(d3) =>
          var rest := DecodeQuanta(s[4..]);
          Decoding([FirstByte(d0, d1), SecondByte(d1, d2), ThirdByte(d2, d3)] + rest.bytes, rest.ok)
  }

  function SkipNewlines(s: Text): Text {
    if s == [] then []
    else if s[0] == 10 || s[0] == 13 then SkipNewlines(s[1..])
    else [s[0]] + SkipNewlines(s[1..])
  }

  function DecodeString(s: Text): Decoding {
    DecodeQuanta(SkipNewlines(s))
  }

  lemma IndexOfSymbol(v: sextet)
    ensures Index(Symbol(v)) == Some(v)
    ensures Symbol(v) != 10 && Symbol(v) != 13
  {
  }

  lemma {:induction false} NothingToSkip(s: Text)
    requires forall i :: 0 <= i < |s| ==> s[i] != 10 && s[i] != 13
    ensures SkipNewlines(s) == s
  {
    if s != [] {
      NothingToSkip(s[1..]);
      assert [s[0]] + s[1..] == s;
    }
  }

  lemma {:induction false} EncodeHasNoNewline(b: seq<byte>)
    ensures forall i :: 0 <= i < |Encode(b)| ==> Encode(b)[i] != 10 && Encode(b)[i] != 13
    ensures |Encode(b)| % 4 == 0
  {
    forall v: sextet
      ensures Symbol(v) != 10 && Symbol(v) != 13
    {
      IndexOfSymbol(v);
    }
    hide Encode, Symbol;
    EncodeUnfolds(b);
    if |b| >= 3 {
      EncodeHasNoNewline(b[3..]);
    }
  }

  lemma ThreeBytes(b0: byte, b1: byte, b2: byte)
    ensures var d0, d1, d2, d3 := b0 / 4, b0 % 4 * 16 + b1 / 16, b1 % 16 * 4 + b2 / 64, b2 % 64;
            FirstByte(d0, d1) == b0 && SecondByte(d1, d2) == b1 && ThirdByte(d2, d3) == b2
  {
  }

  lemma FullQuantum(d0: sextet, d1: sextet, d2: sextet, d3: sextet, rest: Text)
    ensures DecodeQuanta([Symbol(d0), Symbol(d1), Symbol(d2), Symbol(d3)] + rest) ==
            Decoding([FirstByte(d0, d1), SecondByte(d1, d2), ThirdByte(d2, d3)] + DecodeQuanta(rest).bytes, DecodeQuanta(rest).ok)
  {
    IndexOfSymbol(d0);
    IndexOfSymbol(d1);
    IndexOfSymbol(d2);
    IndexOfSymbol(d3);
    var s := [Symbol(d0), Symbol(d1), Symbol(d2), Symbol(d3)] + rest;
    assert s[4..] == rest;
  }

  lemma OneByteQuantum(d0: sextet, d1: sextet)
    ensures DecodeQuanta([Symbol(d0), Symbol(d1), PAD, PAD]) == Decoding([FirstByte(d0, d1)], true)
  {
    IndexOfSymbol(d0);
    IndexOfSymbol(d1);
  }

  lemma TwoByteQuantum(d0: sextet, d1: sextet, d2: sextet)
    ensures DecodeQuanta([Symbol(d0), Symbol(d1), Symbol(d2), PAD]) ==
            Decoding([FirstByte(d0, d1), SecondByte(d1, d2)], true)
  {
    IndexOfSymbol(d0);
    IndexOfSymbol(d1);
    IndexOfSymbol(d2);
  }

  lemma EncodeUnfolds(b: seq<byte>)
    ensures |b| == 0 ==> Encode(b) == []
    ensures |b| == 1 ==> Encode(b) == [Symbol(b[0] / 4), Symbol(b[0] % 4 * 16), PAD, PAD]
    ensures |b| == 2 ==> Encode(b) == [Symbol(b[0] / 4), Symbol(b[0] % 4 * 16 + b[1] / 16), Symbol(b[1] % 16 * 4), PAD]
    ensures |b| >= 3 ==>
              Encode(b) == [Symbol(b[0] / 4), Symbol(b[0] % 4 * 16 + b[1] / 16),
                            Symbol(b[1] % 16 * 4 + b[2] / 64), Symbol(b[2] % 64)] + Encode(b[3..])
  {
  }

  lemma DecodeNothing()
    ensures DecodeQuanta([]) == Decoding([], true)
  {
  }

  lemma {:induction false} DecodeEncodedQuanta(b: seq<byte>)
    ensures DecodeQuanta(Encode(b)) == Decoding(b, true)
  {
    hide Symbol, FirstByte, SecondByte, ThirdByte, Encode, DecodeQuanta;
    EncodeUnfolds(b);
    if |b| == 0 {
      DecodeNothing();
    } else if |b| == 1 {
      OneByteQuantum(b[0] / 4, b[0] % 4 * 16);
      ThreeBytes(b[0], 0, 0);
      assert b == [b[0]];
    } else if |b| == 2 {
      TwoByteQuantum(b[0] / 4, b[0] % 4 * 16 + b[1] / 16, b[1] % 16 * 4);
      ThreeBytes(b[0], b[1], 0);
      assert b == [b[0], b[1]];
    } else {
      FullQuantum(b[0] / 4, b[0] % 4 * 16 + b[1] / 16, b[1] % 16 * 4 + b[2] / 64, b[2] % 64, Encode(b[3..]));
      ThreeBytes(b[0], b[1], b[2]);
      DecodeEncodedQuanta(b[3..]);
      assert b == [b[0], b[1], b[2]] + b[3..];
    }
  }

  // Decoding an encoded byte string gives it back, whatever its length.
  lemma RoundTrip(b: seq<byte>)
    ensures DecodeString(Encode(b)) == Decoding(b, true)
  {
    EncodeHasNoNewline(b);
    NothingToSkip(Encode(b));
    DecodeEncodedQuanta(b);
  }

  // Text is empty only for the empty byte string.
  lemma EncodeEmpty(b: seq<byte>)
    ensures Encode(b) == [] <==> b == []
  {
  }

  // ---------- the encoding as its standard defines it ----------

  function Capitals(): (r: string)
    ensures |r| == 26
  {
    "ABCDEFGHIJKLMNOPQRSTUVWXYZ"
  }

  function Smalls(): (r: string)
    ensures |r| == 26
  {
    "abcdefghijklmnopqrstuvwxyz"
  }

  function Others(): (r: string)
    ensures |r| == 12
  {
    "0123456789+/"
  }

  function Alphabet(): (r: string)
    ensures |r| == 64
  {
    Capitals() + Smalls() + Others()
  }

  function Letter(v: sextet): byte {
    Alphabet()[v] as int % 0x100
  }

  lemma CapitalSymbol(v: sextet)
    requires v < 26
    ensures Symbol(v) == Capitals()[v] as int
  {
  }

  lemma SmallSymbol(v: sextet)
    requires 26 <= v < 52
    ensures Symbol(v) == Smalls()[v - 26] as int
  {
  }

  lemma OtherSymbol(v: sextet)
    requires 52 <= v
    ensures Symbol(v) == Others()[v - 52] as int
  {
  }

  lemma SymbolIsLetter(v: sextet)
    ensures Symbol(v) == Letter(v) == Alphabet()[v] as int
  {
    hide Symbol, Capitals, Smalls, Others;
    if v < 26 {
      CapitalSymbol(v);
    } else if v < 52 {
      SmallSymbol(v);
    } else {
      OtherSymbol(v);
    }
  }

  function ByteOrZero(b: seq<byte>, i: nat): byte {
    if i < |b| then b[i] else 0
  }

  // Three bytes, those past the end of the input taken as zero, as one 24-bit number.
  function Group(b0: byte, b1: byte, b2: byte): (n: nat)
    ensures n < 0x100_0000
  {
    b0 * 0x1_0000 + b1 * 0x100 + b2
  }

  lemma FirstDigit(b0: byte, b1: byte, b2: byte)
    ensures Group(b0, b1, b2) / 0x4_0000 == b0 / 4
  {
  }

  lemma By64(q: nat, r: nat)
    requires r < 64
    ensures (q * 64 + r) / 64 == q && (q * 64 + r) % 64 == r
  {
  }

  lemma SecondDigit(b0: byte, b1: byte, b2: byte)
    ensures Group(b0, b1, b2) / 0x1000 % 64 == b0 % 4 * 16 + b1 / 16
  {
    assert Group(b0, b1, b2) == (b0 * 16 + b1 / 16) * 0x1000 + (b1 % 16 * 0x100 + b2);
    By64(b0 / 4, b0 % 4 * 16 + b1 / 16);
  }

  lemma LowDigits(b0: byte, b1: byte, b2: byte)
    ensures Group(b0, b1, b2) / 64 == (b0 * 16 + b1 / 16) * 64 + (b1 % 16 * 4 + b2 / 64)
    ensures Group(b0, b1, b2) % 64 == b2 % 64
  {
    By64(b0 * 1024 + b1 * 4 + b2 / 64, b2 % 64);
  }

  lemma ThirdDigit(b0: byte, b1: byte, b2: byte)
    ensures Group(b0, b1, b2) / 64 % 64 == b1 % 16 * 4 + b2 / 64
  {
    LowDigits(b0, b1, b2);
    By64(b0 * 16 + b1 / 16, b1 % 16 * 4 + b2 / 64);
    hide Group;
  }

  lemma {:induction false} EncodedLength(b: seq<byte>)
    ensures |Encode(b)| == (|b| + 2) / 3 * 4
  {
    if |b| >= 3 {
      EncodedLength(b[3..]);
    }
    hide Symbol;
  }

  // Every three bytes become the four digits of their number to base 64, as letters of the
  // alphabet, with '=' for a digit that would carry no bit of the input.
  lemma {:induction false} EncodeIsBase64(b: seq<byte>, k: nat)
    requires 3 * k < |b|
    ensures var n := Group(b[3 * k], ByteOrZero(b, 3 * k + 1), ByteOrZero(b, 3 * k + 2));
            && |Encode(b)| == (|b| + 2) / 3 * 4
            && Encode(b)[4 * k..4 * k + 4]
               == [Letter(n / 0x4_0000), Letter(n / 0x1000 % 64),
                   if 3 * k + 1 < |b| then Letter(n / 64 % 64) else '=' as int,
                   if 3 * k + 2 < |b| then Letter(n % 64) else '=' as int]
  {
    hide Encode, Symbol, Letter, Group, ByteOrZero;
    EncodedLength(b);
    if k == 0 {
      FirstGroup(b);
    } else {
      EncodeIsBase64(b[3..], k - 1);
      OneGroupOn(b, k);
    }
  }

  lemma OneGroupOn(b: seq<byte>, k: nat)
    requires 0 < k && 3 * k < |b| && 4 * k <= |Encode(b[3..])|
    ensures 4 * k + 4 <= |Encode(b)| && Encode(b)[4 * k..4 * k + 4] == Encode(b[3..])[4 * (k - 1)..4 * (k - 1) + 4]
    ensures b[3..][3 * (k - 1)] == b[3 * k]
    ensures ByteOrZero(b[3..], 3 * (k - 1) + 1) == ByteOrZero(b, 3 * k + 1)
    ensures ByteOrZero(b[3..], 3 * (k - 1) + 2) == ByteOrZero(b, 3 * k + 2)
  {
    hide Encode, Symbol;
    EncodeUnfolds(b);
    assert |Encode(b)| == 4 + |Encode(b[3..])|;
  }

  // The four digits as letters, in the form Encode computes them.
  lemma EncodeStarts(b: seq<byte>)
    requires b != []
    ensures var b0, b1, b2 := b[0], ByteOrZero(b, 1), ByteOrZero(b, 2);
            && |Encode(b)| >= 4
            && Encode(b)[..4] == [Letter(b0 / 4), Letter(b0 % 4 * 16 + b1 / 16),
                                  if 1 < |b| then Letter(b1 % 16 * 4 + b2 / 64) else PAD,
                                  if 2 < |b| then Letter(b2 % 64) else PAD]
  {
    var b0, b1, b2 := b[0], ByteOrZero(b, 1), ByteOrZero(b, 2);
    hide Encode, Symbol, Letter, ByteOrZero;
    SymbolIsLetter(b0 / 4);
    SymbolIsLetter(b0 % 4 * 16 + b1 / 16);
    SymbolIsLetter(b1 % 16 * 4 + b2 / 64);
    SymbolIsLetter(b2 % 64);
    SymbolsOf(b);
  }

  lemma SymbolsOf(b: seq<byte>)
    requires b != []
    ensures var b0, b1, b2 := b[0], ByteOrZero(b, 1), ByteOrZero(b, 2);
            && |Encode(b)| >= 4
            && Encode(b)[..4] == [Symbol(b0 / 4), Symbol(b0 % 4 * 16 + b1 / 16),
                                  if 1 < |b| then Symbol(b1 % 16 * 4 + b2 / 64) else PAD,
                                  if 2 < |b| then Symbol(b2 % 64) else PAD]
  {
    hide Symbol;
  }

  lemma FirstGroup(b: seq<byte>)
    requires b != []
    ensures var n := Group(b[0], ByteOrZero(b, 1), ByteOrZero(b, 2));
            && |Encode(b)| >= 4
            && Encode(b)[..4]
               == [Letter(n / 0x4_0000), Letter(n / 0x1000 % 64),
                   if 1 < |b| then Letter(n / 64 % 64) else '=' as int,
                   if 2 < |b| then Letter(n % 64) else '=' as int]
  {
    hide Encode, Symbol, Letter, Group, ByteOrZero;
    EncodeStarts(b);
    var b0, b1, b2 := b[0], ByteOrZero(b, 1), ByteOrZero(b, 2);
    FirstDigit(b0, b1, b2);
    SecondDigit(b0, b1, b2);
    ThirdDigit(b0, b1, b2);
    LowDigits(b0, b1, b2);
  }
}
