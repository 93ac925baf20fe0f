// Protocol Buffers fields (Encoding guide, "Message Structure" and
// "Length-Delimited Records") and boxd's field walker.
module Wire {
  import opened Machine
  import Seqs
  import Varint

  // A field number is what remains of a 64-bit key above its three type bits.
  type FieldNumber = n: int | 0 <= n < 0x2000_0000_0000_0000

  datatype Field =
    | VarintField(number: FieldNumber, varint: uint64)
    | BytesField(number: FieldNumber, bytes: seq<byte>)

  datatype WireError =
    | InvalidKey
    | InvalidVarint
    | InvalidLength
    | LengthExceedsPayload
    | UnsupportedWireType(wire: int)

  function BoolVarint(value: bool): uint64 {
    if value then 1 else 0
  }

  function EncodeKey(f: Field): (key: uint64) {
    f.number * 8 + if f.VarintField? then 0 else 2
  }

  function EncodeBody(f: Field): (b: seq<byte>)
    ensures |b| >= 1
  {
    match f
    case VarintField(_, v) => Varint.Encode(v)
    case BytesField(_, value) => Varint.Encode(|value| % TWO_64) + value
  }

  function EncodeField(f: Field): (b: seq<byte>)
    ensures |b| >= 2
  {
    Varint.Encode(EncodeKey(f)) + EncodeBody(f)
  }

  function EncodeFields(fields: seq<Field>): (b: seq<byte>)
  {
    if fields == [] then [] else EncodeField(fields[0]) + EncodeFields(fields[1..])
  }

  datatype Read = Bad(error: WireError) | Good(field: Field, size: nat)

  // The value of a field whose key has been read: size counts bytes of body.
  function ReadBody(number: FieldNumber, wire: int, body: seq<byte>): (r: Read)
    ensures r.Good? ==> 1 <= r.size <= |body|
    ensures r.Good? && r.field.BytesField? ==>
              |r.field.bytes| <= r.size && body[r.size - |r.field.bytes|..r.size] == r.field.bytes
  {
    if wire != 0 && wire != 2 then Bad(UnsupportedWireType(wire))
    else
      match Varint.Decode(body)
      case Malformed => Bad(if wire == 0 then InvalidVarint else InvalidLength)
      case Decoded(v, n) =>
        if wire == 0 then Good(VarintField(number, v), n)
        else if |body| - n < v then Bad(LengthExceedsPayload)
        else Good(BytesField(number, body[n..n + v]), n + v)
  }

  // One round of the walker at the front of a payload.
  function ReadField(p: seq<byte>): (r: Read)
    ensures r.Good? ==> 2 <= r.size <= |p|
  {
    match Varint.Decode(p)
    case Malformed => Bad(InvalidKey)
    case Decoded(key, k) =>
      match ReadBody(key / 8, key % 8, p[k..])
      case Bad(error) => Bad(error)
      case Good(f, n) => Good(f, k + n)
  }

  // Everything the walker reads: the fields it reports, in order, and the error
  // that stops it, if any.
  datatype Parsed = Parsed(fields: seq<Field>, error: Option<WireError>)

  function Parse(p: seq<byte>): (r: Parsed)
  {
    if p == [] then Parsed([], None)
    else
      match ReadField(p)
      case Bad(error) => Parsed([], Some(error))
      case Good(f, n) =>
        var rest := Parse(p[n..]);
        Parsed([f] + rest.fields, rest.error)
  }

  // ---------- the walker with its callback ----------

  // What one callback does to the state it closes over, and whether it fails.
  datatype Visit<+S> = Visit(state: S, failed: bool)

  datatype WalkError = CallbackFailed | Wire(error: WireError)
  datatype Walked<+S> = Walked(state: S, error: Option<WalkError>)

  // The callbacks for these fields in order, up to the first that fails.
  function Feed<S>(fields: seq<Field>, fn: (S, Field) -> Visit<S>, state: S): (v: Visit<S>)
  {
    if fields == [] then Visit(state, false)
    else
      var v := fn(state, fields[0]);
      if v.failed then v else Feed(fields[1..], fn, v.state)
  }

  function Walk<S>(p: seq<byte>, fn: (S, Field) -> Visit<S>, init: S): (w: Walked<S>)
  {
    var parsed := Parse(p);
    var v := Feed(parsed.fields, fn, init);
    Walked(v.state,
           if v.failed then Some(CallbackFailed)
           else if parsed.error.Some? then Some(Wire(parsed.error.value))
           else None)
  }

  lemma WalkEnd<S>(fn: (S, Field) -> Visit<S>, state: S)
    ensures Walk([], fn, state) == Walked(state, None)
  {
  }

  lemma WalkBad<S>(p: seq<byte>, fn: (S, Field) -> Visit<S>, state: S)
    requires p != [] && ReadField(p).Bad?
    ensures Walk(p, fn, state) == Walked(state, Some(Wire(ReadField(p).error)))
  {
  }

  lemma WalkGood<S>(p: seq<byte>, fn: (S, Field) -> Visit<S>, state: S)
    requires p != [] && ReadField(p).Good?
    ensures var r := ReadField(p); var v := fn(state, r.field);
            Walk(p, fn, state) == if v.failed then Walked(v.state, Some(CallbackFailed)) else Walk(p[r.size..], fn, v.state)
  {
    var r := ReadField(p);
    ParseGood(p);
    assert Parse(p).fields[1..] == Parse(p[r.size..]).fields;
  }

  method WalkProtoFields<S>(payload: seq<byte>, fn: (S, Field) -> Visit<S>, init: S) returns (w: Walked<S>)
    ensures w == Walk(payload, fn, init)
  {
    hide Varint.Decode, Walk;
    var rest := payload;
    var state := init;
    while |rest| > 0
      invariant Walk(rest, fn, state) == Walk(payload, fn, init)
      decreases |rest|
    {
      ghost var before := rest;
      if ReadField(before).Bad? {
        WalkBad(before, fn, state);
      } else {
        WalkGood(before, fn, state);
      }
      var key := Varint.Decode(rest);
      if key.Malformed? {
        return Walked(state, Some(Wire(InvalidKey)));
      }
      rest := rest[key.size..];
      var number, wire := key.value / 8, key.value % 8;
      ghost var body := rest;
      var field;
      if wire == 0 {
        var v := Varint.Decode(rest);
        if v.Malformed? {
          return Walked(state, Some(Wire(InvalidVarint)));
        }
        rest := rest[v.size..];
        field := VarintField(number, v.value);
      } else if wire == 2 {
        var size := Varint.Decode(rest);
        if size.Malformed? {
          return Walked(state, Some(Wire(InvalidLength)));
        }
        rest := rest[size.size..];
        if |rest| < size.value {
          return Walked(state, Some(Wire(LengthExceedsPayload)));
        }
        field := BytesField(number, rest[..size.value]);
        rest := rest[size.value..];
        assert field.bytes == body[size.size..size.size + size.value];
        assert rest == body[size.size + size.value..];
      } else {
        return Walked(state, Some(Wire(UnsupportedWireType(wire))));
      }
      assert ReadBody(number, wire, body) == Good(field, |body| - |rest|);
      assert rest == body[|body| - |rest|..] == before[|before| - |rest|..];
      var visit := fn(state, field);
      if visit.failed {
        return Walked(visit.state, Some(CallbackFailed));
      }
      state := visit.state;
    }
    WalkEnd(fn, state);
    w := Walked(state, None);
  }

  // ---------- the walker inverts the printer ----------

  lemma ReadEncodedBody(f: Field, rest: seq<byte>)
    requires f.BytesField? ==> |f.bytes| < TWO_64
    ensures ReadBody(f.number, EncodeKey(f) % 8, EncodeBody(f) + rest) == Good(f, |EncodeBody(f)|)
  {
    hide Varint.Decode, Varint.Encode;
    match f
    case VarintField(_, v) =>
      Varint.DecodeEncode(v, rest);
    case BytesField(_, value) =>
      var size := Varint.Encode(|value|);
      Varint.DecodeEncode(|value|, value + rest);
      assert EncodeBody(f) + rest == size + (value + rest);
      assert (EncodeBody(f) + rest)[|size|..|size| + |value|] == value;
  }

  lemma ReadEncodedField(f: Field, rest: seq<byte>)
    requires f.BytesField? ==> |f.bytes| < TWO_64
    ensures ReadField(EncodeField(f) + rest) == Good(f, |EncodeField(f)|)
  {
    hide Varint.Decode, Varint.Encode, EncodeBody, ReadBody;
    var key := Varint.Encode(EncodeKey(f));
    var p := EncodeField(f) + rest;
    assert p == key + (EncodeBody(f) + rest);
    Varint.DecodeEncode(EncodeKey(f), EncodeBody(f) + rest);
    assert p[|key|..] == EncodeBody(f) + rest;
    ReadEncodedBody(f, rest);
  }

  lemma {:induction false} FieldFits(fields: seq<Field>, i: nat)
    requires i < |fields|
    ensures |EncodeField(fields[i])| <= |EncodeFields(fields)|
    ensures fields[i].BytesField? ==> |fields[i].bytes| <= |EncodeFields(fields)|
  {
    if i > 0 {
      FieldFits(fields[1..], i - 1);
    }
  }

  // Printing any list of fields and walking the result reports exactly that list.
  lemma {:induction false} ParseEncodedFields(fields: seq<Field>)
    requires |EncodeFields(fields)| < TWO_63
    ensures Parse(EncodeFields(fields)) == Parsed(fields, None)
  {
    if fields != [] {
      var b := EncodeFields(fields);
      FieldFits(fields, 0);
      ReadEncodedField(fields[0], EncodeFields(fields[1..]));
      assert b[|EncodeField(fields[0])|..] == EncodeFields(fields[1..]);
      ParseEncodedFields(fields[1..]);
    }
  }

  lemma WalkEncodedFields<S>(fields: seq<Field>, fn: (S, Field) -> Visit<S>, init: S)
    requires |EncodeFields(fields)| < TWO_63
    ensures Walk(EncodeFields(fields), fn, init) ==
            Walked(Feed(fields, fn, init).state, if Feed(fields, fn, init).failed then Some(CallbackFailed) else None)
  {
    ParseEncodedFields(fields);
  }

  lemma {:induction false} EncodeFieldsConcat(a: seq<Field>, b: seq<Field>)
    ensures EncodeFields(a + b) == EncodeFields(a) + EncodeFields(b)
  {
    if a == [] {
      assert a + b == b;
    } else {
      assert (a + b)[1..] == a[1..] + b;
      EncodeFieldsConcat(a[1..], b);
    }
  }

  lemma {:induction false} FeedConcat<S>(a: seq<Field>, b: seq<Field>, fn: (S, Field) -> Visit<S>, state: S)
    ensures Feed(a + b, fn, state) ==
            var v := Feed(a, fn, state); if v.failed then v else Feed(b, fn, v.state)
  {
    if a == [] {
      assert a + b == b;
    } else {
      assert (a + b)[1..] == a[1..] + b;
      var v := fn(state, a[0]);
      if !v.failed {
        FeedConcat(a[1..], b, fn, v.state);
      }
    }
  }

  // ---------- the walker on arbitrary bytes ----------

  lemma ReadBodyExtends(number: FieldNumber, wire: int, body: seq<byte>, more: seq<byte>)
    requires ReadBody(number, wire, body).Good?
    ensures ReadBody(number, wire, body + more) == ReadBody(number, wire, body)
  {
    Varint.DecodeFromExtends(body, more, 0);
    var d := Varint.Decode(body);
    if wire == 2 {
      assert (body + more)[d.size..d.size + d.value] == body[d.size..d.size + d.value];
    }
  }

  lemma ReadFieldExtends(p: seq<byte>, more: seq<byte>)
    requires ReadField(p).Good?
    ensures ReadField(p + more) == ReadField(p)
  {
    var key := Varint.Decode(p);
    Varint.DecodeFromExtends(p, more, 0);
    assert (p + more)[key.size..] == p[key.size..] + more;
    ReadBodyExtends(key.value / 8, key.value % 8, p[key.size..], more);
  }

  lemma ReadBodyExact(number: FieldNumber, wire: int, body: seq<byte>)
    requires ReadBody(number, wire, body).Good?
    ensures var r := ReadBody(number, wire, body); ReadBody(number, wire, body[..r.size]) == r
  {
    var r := ReadBody(number, wire, body);
    hide Varint.DecodeFrom;
    var n := Varint.Decode(body).size;
    var q := body[..r.size];
    Varint.DecodeFromExact(body, 0);
    assert q == body[..n] + q[n..];
    Varint.DecodeFromExtends(body[..n], q[n..], 0);
    if wire == 2 {
      var v := Varint.Decode(body).value;
      assert q[n..n + v] == body[n..n + v];
    }
  }

  lemma ReadFieldExact(p: seq<byte>)
    requires ReadField(p).Good?
    ensures ReadField(p[..ReadField(p).size]) == ReadField(p)
  {
    hide Varint.DecodeFrom, ReadBody;
    var r := ReadField(p);
    var key := Varint.Decode(p);
    var q := p[..r.size];
    Varint.DecodeFromExact(p, 0);
    assert q == p[..key.size] + q[key.size..];
    Varint.DecodeFromExtends(p[..key.size], q[key.size..], 0);
    assert q[key.size..] == p[key.size..][..r.size - key.size];
    ReadBodyExact(key.value / 8, key.value % 8, p[key.size..]);
  }

  lemma ParseGood(p: seq<byte>)
    requires p != [] && ReadField(p).Good?
    ensures var r := ReadField(p);
            Parse(p).fields == [r.field] + Parse(p[r.size..]).fields && Parse(p).error == Parse(p[r.size..]).error
  {
  }

  // If a parses fully, walking a ++ b is walking a and then b.
  lemma {:induction false} ParseConcat(a: seq<byte>, b: seq<byte>)
    requires Parse(a).error == None
    ensures Parse(a + b).fields == Parse(a).fields + Parse(b).fields
    ensures Parse(a + b).error == Parse(b).error
    decreases |a|
  {
    if a == [] {
      assert a + b == b;
    } else {
      var r := ReadField(a);
      var rest := a[r.size..];
      ParseGood(a);
      ParseConcat(rest, b);
      ReadFieldExtends(a, b);
      var ab := a + b;
      ParseGood(ab);
      Seqs.DropOfAppend(a, b, r.size);
      assert Parse(ab).fields == [r.field] + Parse(rest + b).fields;
      Seqs.PrependAppend(r.field, Parse(rest).fields, Parse(b).fields);
    }
  }

  lemma WalkConcat<S>(a: seq<byte>, b: seq<byte>, fn: (S, Field) -> Visit<S>, init: S)
    requires Parse(a).error == None
    ensures Walk(a + b, fn, init) ==
            var w := Walk(a, fn, init); if w.error.Some? then w else Walk(b, fn, w.state)
  {
    ParseConcat(a, b);
    FeedConcat(Parse(a).fields, Parse(b).fields, fn, init);
  }

  // The payload cut at the ends of the walker's rounds.
  ghost function Chunks(p: seq<byte>): (c: seq<seq<byte>>)
  {
    if p == [] || ReadField(p).Bad? then [] else [p[..ReadField(p).size]] + Chunks(p[ReadField(p).size..])
  }

  ghost function Unread(p: seq<byte>): seq<byte>
  {
    if p == [] || ReadField(p).Bad? then p else Unread(p[ReadField(p).size..])
  }

  ghost function Flatten(chunks: seq<seq<byte>>): seq<byte>
  {
    if chunks == [] then [] else chunks[0] + Flatten(chunks[1..])
  }

  // c is one field's own bytes, at least two, with its value (if any) at its end.
  ghost predicate ChunkOf(c: seq<byte>, f: Field) {
    && |c| >= 2
    && Parse(c) == Parsed([f], None)
    && (f.BytesField? ==> |f.bytes| <= |c| && c[|c| - |f.bytes|..] == f.bytes)
  }

  ghost predicate ChunksOf(chunks: seq<seq<byte>>, fields: seq<Field>) {
    && |chunks| == |fields|
    && (chunks != [] ==> ChunkOf(chunks[0], fields[0]) && ChunksOf(chunks[1..], fields[1..]))
  }

  lemma ReadFieldSlice(p: seq<byte>)
    requires ReadField(p).Good? && ReadField(p).field.BytesField?
    ensures var r := ReadField(p); var v := |r.field.bytes|; v <= r.size && p[..r.size][r.size - v..] == r.field.bytes
  {
    var key := Varint.Decode(p);
    var body := p[key.size..];
    var r := ReadBody(key.value / 8, key.value % 8, body);
    var v := |r.field.bytes|;
    assert body[r.size - v..r.size] == p[key.size + r.size - v..key.size + r.size];
  }

  lemma FirstChunk(p: seq<byte>)
    requires ReadField(p).Good?
    ensures ChunkOf(p[..ReadField(p).size], ReadField(p).field)
  {
    var r := ReadField(p);
    var c := p[..r.size];
    ReadFieldExact(p);
    assert c[r.size..] == [];
    ParseGood(c);
    if r.field.BytesField? {
      ReadFieldSlice(p);
    }
  }

  // Any payload at all is a run of self-contained fields followed by bytes at
  // which the walker fails: every round consumes one chunk, every value is a
  // slice of its own chunk, nothing is skipped and nothing is read twice.
  lemma {:induction false} ParseIsChunked(p: seq<byte>)
    ensures Flatten(Chunks(p)) + Unread(p) == p
    ensures ChunksOf(Chunks(p), Parse(p).fields)
    ensures Parse(p).error.None? <==> Unread(p) == []
    ensures Unread(p) != [] ==> ReadField(Unread(p)) == Bad(Parse(p).error.value)
    decreases |p|
  {
    if p != [] && ReadField(p).Good? {
      var r := ReadField(p);
      var c, rest := p[..r.size], p[r.size..];
      ParseIsChunked(rest);
      FirstChunk(p);
      ParseGood(p);
      var chunks := Chunks(p);
      assert chunks == [c] + Chunks(rest);
      assert chunks[1..] == Chunks(rest);
      assert Parse(p).fields[1..] == Parse(rest).fields;
      Seqs.AppendAssoc(c, Flatten(Chunks(rest)), Unread(rest));
      assert p == c + rest;
    }
  }
}
