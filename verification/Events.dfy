// Process events: how exits and output chunks are written to a client.
module Events {
  import opened Machine
  import opened Wire
  import Base64
  import ProcessConfig
  import StartRequest

  // ---------- signed integers (Encoding guide, "Signed Integers") ----------

  // value << 1 on 32 bits, exclusive-or'ed with the sign bit in every position;
  // on 32 bits x ^ 0xFFFFFFFF is 0xFFFFFFFF - x (XorAllOnes).
  function EncodeZigZag32(value: int32): uint32 {
    var shifted := 2 * value % TWO_32;
    if value < 0 then TWO_32 - 1 - shifted else shifted
  }

  lemma XorAllOnes(x: bv32)
    ensures x ^ 0xFFFF_FFFF == 0xFFFF_FFFF - x
    ensures x ^ 0 == x
  {
  }

  // The inverse every protobuf client applies to an sint32.
  function DecodeZigZag32(u: uint32): int32 {
    if u % 2 == 0 then u / 2 else -(u / 2) - 1
  }

  lemma ZigZagIsBijective(value: int32, u: uint32)
    ensures DecodeZigZag32(EncodeZigZag32(value)) == value
    ensures EncodeZigZag32(DecodeZigZag32(u)) == u
    ensures EncodeZigZag32(value) == if value < 0 then -2 * value - 1 else 2 * value
  {
  }

  // ---------- end events ----------

  datatype EndEvent = EndEvent(exitCode: int32, exited: bool, status: Text, error: Option<Text>)

  function StatusFields(status: Text): seq<Field> {
    if status == [] then [] else [BytesField(3, status)]
  }

  function ErrorFields(error: Option<Text>): seq<Field> {
    match error
    case None => []
    case Some(e) => [BytesField(4, e)]
  }

  function EndFields(event: EndEvent): seq<Field> {
    [VarintField(1, EncodeZigZag32(event.exitCode)), VarintField(2, BoolVarint(event.exited))] +
    (StatusFields(event.status) + ErrorFields(event.error))
  }

  lemma EncodeOne(f: Field)
    ensures EncodeFields([f]) == EncodeField(f)
  {
    assert EncodeFields([f]) == EncodeField(f) + EncodeFields([]);
  }

  method MarshalProtoEndEvent(event: EndEvent) returns (out: seq<byte>)
    ensures out == EncodeFields(EndFields(event))
  {
    ghost var status, error := StatusFields(event.status), ErrorFields(event.error);
    EmitEnd(event);
    out := [];
    out := out + EncodeField(VarintField(1, EncodeZigZag32(event.exitCode)));
    out := out + EncodeField(VarintField(2, BoolVarint(event.exited)));
    EmitAll(out, status, error);
    if event.status != [] {
      out := out + EncodeField(BytesField(3, event.status));
    }
    if event.error.Some? {
      out := out + EncodeField(BytesField(4, event.error.value));
    }
  }

  lemma EmitEnd(event: EndEvent)
    ensures EncodeFields(EndFields(event)) ==
            (([] + EncodeField(VarintField(1, EncodeZigZag32(event.exitCode)))) +
             EncodeField(VarintField(2, BoolVarint(event.exited)))) +
            EncodeFields(StatusFields(event.status) + ErrorFields(event.error))
  {
    hide EncodeField, EncodeZigZag32, BoolVarint;
    var code, exited := VarintField(1, EncodeZigZag32(event.exitCode)), VarintField(2, BoolVarint(event.exited));
    EncodeFieldsConcat([code, exited], StatusFields(event.status) + ErrorFields(event.error));
    ProcessConfig.EncodeTwo(code, exited);
  }

  // Zero or one fields, twice.
  lemma EmitAll(out: seq<byte>, a: seq<Field>, b: seq<Field>)
    requires |a| <= 1 && |b| <= 1
    ensures out + EncodeFields(a + b) ==
            var mid := if a == [] then out else out + EncodeField(a[0]);
            if b == [] then mid else mid + EncodeField(b[0])
  {
    EncodeFieldsConcat(a, b);
    if a != [] {
      EncodeOne(a[0]);
      assert a == [a[0]];
    }
    if b != [] {
      EncodeOne(b[0]);
      assert b == [b[0]];
    }
  }

  // How a client reads an end event.
  function OnEndField(e: EndEvent, f: Field): Visit<EndEvent> {
    Visit(match f.number
          case 1 => e.(exitCode := DecodeZigZag32(ProcessConfig.Number(f) % TWO_32))
          case 2 => e.(exited := ProcessConfig.Number(f) != 0)
          case 3 => e.(status := ProcessConfig.Value(f))
          case 4 => e.(error := Some(ProcessConfig.Value(f)))
          case _ => e, false)
  }

  const NEW_END := EndEvent(0, false, [], None)

  lemma FeedEndHead(event: EndEvent)
    ensures Feed([VarintField(1, EncodeZigZag32(event.exitCode)), VarintField(2, BoolVarint(event.exited))],
                 OnEndField, NEW_END) ==
            Visit(NEW_END.(exitCode := event.exitCode, exited := event.exited), false)
  {
    ZigZagIsBijective(event.exitCode, 0);
    ProcessConfig.FeedTwo(VarintField(1, EncodeZigZag32(event.exitCode)), VarintField(2, BoolVarint(event.exited)),
                          OnEndField, NEW_END);
  }

  lemma FeedEndTail(event: EndEvent, e: EndEvent)
    requires e.status == [] && e.error == None
    ensures Feed(StatusFields(event.status) + ErrorFields(event.error), OnEndField, e) ==
            Visit(e.(status := event.status, error := event.error), false)
  {
    var status, error := StatusFields(event.status), ErrorFields(event.error);
    FeedConcat(status, error, OnEndField, e);
    if event.status != [] {
      StartRequest.FeedOne(status[0], OnEndField, e);
    }
    if event.error.Some? {
      StartRequest.FeedOne(error[0], OnEndField, e.(status := event.status));
    }
  }

  // Every exit code, flag, status and optional error reaches the client.
  lemma EndEventRoundTrip(event: EndEvent)
    requires |EncodeFields(EndFields(event))| < TWO_63
    ensures Walk(EncodeFields(EndFields(event)), OnEndField, NEW_END) == Walked(event, None)
  {
    WalkEncodedFields(EndFields(event), OnEndField, NEW_END);
    FeedConcat([VarintField(1, EncodeZigZag32(event.exitCode)), VarintField(2, BoolVarint(event.exited))],
               StatusFields(event.status) + ErrorFields(event.error), OnEndField, NEW_END);
    FeedEndHead(event);
    FeedEndTail(event, NEW_END.(exitCode := event.exitCode, exited := event.exited));
  }

  // ---------- output chunks ----------

  datatype Stream = PTY | Stdout | Stderr
  datatype Output = Output(stream: Stream, data: seq<byte>)

  datatype DataEvent = DataEvent(stdout: Text, stderr: Text, pty: Text)

  function DataEventForOutput(output: Output): DataEvent {
    var encoded := Base64.Encode(output.data);
    match output.stream
    case Stdout => DataEvent(encoded, [], [])
    case Stderr => DataEvent([], encoded, [])
    case PTY => DataEvent([], [], encoded)
  }

  // Decoding errors are ignored: what was decoded before them is sent.
  function MarshalProtoDataEvent(event: DataEvent): seq<byte> {
    if event.stdout != [] then EncodeField(BytesField(1, Base64.DecodeString(event.stdout).bytes))
    else if event.stderr != [] then EncodeField(BytesField(2, Base64.DecodeString(event.stderr).bytes))
    else if event.pty != [] then EncodeField(BytesField(3, Base64.DecodeString(event.pty).bytes))
    else []
  }

  function StreamField(stream: Stream): FieldNumber {
    match stream
    case Stdout => 1
    case Stderr => 2
    case PTY => 3
  }

  // A chunk reaches the client unchanged, on its own stream's field and on no
  // other; an empty chunk is not sent at all.
  lemma OutputRoundTrip(output: Output)
    requires |MarshalProtoDataEvent(DataEventForOutput(output))| < TWO_63
    ensures Parse(MarshalProtoDataEvent(DataEventForOutput(output))) ==
            Parsed(if output.data == [] then [] else [BytesField(StreamField(output.stream), output.data)], None)
  {
    Base64.RoundTrip(output.data);
    Base64.EncodeEmpty(output.data);
    if output.data != [] {
      var f := BytesField(StreamField(output.stream), output.data);
      EncodeOne(f);
      ParseEncodedFields([f]);
    }
  }
}
