// The messages byte by byte: which key stands before which value.
module WireFormat {
  import opened Machine
  import opened Wire
  import opened ProcessConfig
  import opened StartRequest
  import opened Events
  import Base64
  import Seqs
  import Varint

  // ---------- varints ----------

  // The number in groups of seven bits, least significant first.
  function Groups(b: seq<byte>): nat {
    if b == [] then 0 else b[0] % 0x80 + 0x80 * Groups(b[1..])
  }

  // A varint's groups make up the number, and the top bit is set on all bytes but the last.
  lemma {:induction false} VarintLayout(v: uint64)
    ensures var b := Varint.Encode(v);
            Groups(b) == v && forall i :: 0 <= i < |b| ==> (b[i] >= 0x80 <==> i < |b| - 1)
  {
    var b := Varint.Encode(v);
    if v < 128 {
      assert b[1..] == [];
    } else {
      VarintLayout(v / 128);
      var rest := Varint.Encode(v / 128);
      assert b[1..] == rest;
      forall i | 0 <= i < |b|
        ensures b[i] >= 0x80 <==> i < |b| - 1
      {
        if i > 0 {
          assert b[i] == rest[i - 1];
        }
      }
    }
  }

  // ---------- keys ----------

  function Sized(key: byte, value: seq<byte>): seq<byte> {
    [key] + (Varint.Encode(|value| % TWO_64) + value)
  }

  function Counted(key: byte, value: uint64): seq<byte> {
    [key] + Varint.Encode(value)
  }

  lemma FieldOnWire(number: FieldNumber, value: seq<byte>, v: uint64)
    requires number < 16
    ensures EncodeField(BytesField(number, value)) == Sized(8 * number + 2, value)
    ensures EncodeField(VarintField(number, v)) == Counted(8 * number, v)
  {
  }

  function SizedAll(key: byte, values: seq<seq<byte>>): seq<byte> {
    if values == [] then [] else Sized(key, values[0]) + SizedAll(key, values[1..])
  }

  // ---------- the process config ----------

  // An environment as key and value pairs, in the order it is visited in.
  function Pairs(order: seq<Text>, envs: map<Text, Text>): seq<seq<byte>>
    requires forall k :: k in order ==> k in envs
  {
    if order == [] then []
    else [Sized(0x0A, order[0]) + Sized(0x12, envs[order[0]])] + Pairs(order[1..], envs)
  }

  lemma {:induction false} ArgsOnWire(args: seq<Text>)
    ensures EncodeFields(ArgFields(args)) == SizedAll(0x12, args)
  {
    hide EncodeField, Sized;
    if args != [] {
      FieldOnWire(2, args[0], 0);
      ArgsOnWire(args[1..]);
      assert ([BytesField(2, args[0])] + ArgFields(args[1..]))[1..] == ArgFields(args[1..]);
    }
  }

  lemma {:induction false} EnvsOnWire(order: seq<Text>, envs: map<Text, Text>)
    requires forall k :: k in order ==> k in envs
    ensures EncodeFields(EnvFields(order, envs)) == SizedAll(0x1A, Pairs(order, envs))
  {
    hide EncodeField, Sized;
    if order != [] {
      var key, value := order[0], envs[order[0]];
      FieldOnWire(1, key, 0);
      FieldOnWire(2, value, 0);
      FieldOnWire(3, MapEntry(key, value), 0);
      EnvsOnWire(order[1..], envs);
      assert EnvFields(order, envs)[1..] == EnvFields(order[1..], envs);
      assert Pairs(order, envs)[1..] == Pairs(order[1..], envs);
    }
  }

  lemma OptionOnWire(number: FieldNumber, value: seq<byte>, present: bool)
    requires number < 16
    ensures EncodeFields(if present then [BytesField(number, value)] else [])
            == if present then Sized(8 * number + 2, value) else []
  {
    FieldOnWire(number, value, 0);
    hide EncodeField, Sized;
    if present {
      EncodeOne(BytesField(number, value));
    }
  }

  // cmd is field 1, each argument field 2, each pair of the environment field 3 with key
  // and value as 1 and 2, and cwd field 4; an empty cmd and an absent cwd are left out.
  lemma ConfigOnWire(cfg: Config, order: seq<Text>)
    requires forall k :: k in order ==> k in Envs(cfg)
    ensures EncodeFields(ConfigFields(cfg, order))
            == (if cfg.cmd == [] then [] else Sized(0x0A, cfg.cmd))
               + (SizedAll(0x12, cfg.args)
                  + (SizedAll(0x1A, Pairs(order, Envs(cfg)))
                     + (if cfg.cwd.Some? then Sized(0x22, cfg.cwd.value) else [])))
  {
    var cmd, args, envs, cwd := CmdFields(cfg.cmd), ArgFields(cfg.args), EnvFields(order, Envs(cfg)), CwdFields(cfg.cwd);
    OptionOnWire(1, cfg.cmd, cfg.cmd != []);
    ArgsOnWire(cfg.args);
    EnvsOnWire(order, Envs(cfg));
    OptionOnWire(4, if cfg.cwd.Some? then cfg.cwd.value else [], cfg.cwd.Some?);
    hide EncodeFields, Sized, ArgFields, EnvFields, SizedAll, Pairs;
    EncodeFieldsConcat(cmd, args + (envs + cwd));
    EncodeFieldsConcat(args, envs + cwd);
    EncodeFieldsConcat(envs, cwd);
  }

  // ---------- the start request ----------

  lemma CountedOnWire(number: FieldNumber, v: uint64)
    requires number < 16
    ensures EncodeFields([VarintField(number, v)]) == Counted(8 * number, v)
  {
    FieldOnWire(number, [], v);
    hide EncodeField, Counted;
    EncodeOne(VarintField(number, v));
  }

  lemma SizeOnWire(s: PtySize)
    ensures EncodeFields(SizeFields(s)) == Counted(0x08, s.cols) + Counted(0x10, s.rows)
  {
    CountedOnWire(1, s.cols);
    CountedOnWire(2, s.rows);
    hide Counted, EncodeFields;
    EncodeFieldsConcat([VarintField(1, s.cols)], [VarintField(2, s.rows)]);
    assert SizeFields(s) == [VarintField(1, s.cols)] + [VarintField(2, s.rows)];
  }

  function PtyBytes(p: Pty): seq<byte> {
    if p.size.Some? then Sized(0x0A, Counted(0x08, p.size.value.cols) + Counted(0x10, p.size.value.rows)) else []
  }

  lemma PtyOnWire(p: Pty)
    ensures EncodeFields(PtyFields(p)) == PtyBytes(p)
  {
    hide Sized, Counted;
    if p.size.Some? {
      SizeOnWire(p.size.value);
      OptionOnWire(1, EncodeFields(SizeFields(p.size.value)), true);
    }
  }

  // The process config is field 1, the terminal field 2 with its size as 1, in columns as 1
  // and rows as 2, the tag field 3 and the stdin flag field 4.
  lemma RequestOnWire(r: Request, order: seq<Text>)
    requires r.process.Some? && forall k :: k in order ==> k in Envs(r.process.value)
    ensures EncodeFields(RequestFields(r, order))
            == Sized(0x0A, EncodeFields(ConfigFields(r.process.value, order)))
               + ((if r.pty.Some? then Sized(0x12, PtyBytes(r.pty.value)) else [])
                  + ((if r.tag.Some? then Sized(0x1A, r.tag.value) else [])
                     + (if r.stdin.Some? then [0x20, if r.stdin.value then 1 else 0] else [])))
  {
    var pty := if r.pty.Some? then EncodeFields(PtyFields(r.pty.value)) else [];
    var ptyFields := if r.pty.Some? then [BytesField(2, pty)] else [];
    var tagFields := if r.tag.Some? then [BytesField(3, r.tag.value)] else [];
    var stdinFields := if r.stdin.Some? then [VarintField(4, BoolVarint(r.stdin.value))] else [];
    if r.pty.Some? {
      PtyOnWire(r.pty.value);
    }
    if r.stdin.Some? {
      CountedOnWire(4, BoolVarint(r.stdin.value));
    }
    var config := EncodeFields(ConfigFields(r.process.value, order));
    OptionOnWire(1, config, true);
    OptionOnWire(2, pty, r.pty.Some?);
    OptionOnWire(3, if r.tag.Some? then r.tag.value else [], r.tag.Some?);
    assert EncodeFields(stdinFields) == if r.stdin.Some? then [0x20, if r.stdin.value then 1 else 0] else [];
    hide EncodeFields, Sized, PtyBytes, PtyFields, ConfigFields;
    EncodeFieldsConcat([BytesField(1, config)], RestFields(r));
    EncodeFieldsConcat(ptyFields, tagFields + stdinFields);
    EncodeFieldsConcat(tagFields, stdinFields);
  }

  // ---------- events ----------

  lemma EndHeadOnWire(code: uint32, exited: bool)
    ensures EncodeFields([VarintField(1, code), VarintField(2, BoolVarint(exited))])
            == Counted(0x08, code) + [0x10, if exited then 1 else 0]
  {
    CountedOnWire(1, code);
    CountedOnWire(2, BoolVarint(exited));
    assert Counted(0x10, BoolVarint(exited)) == [0x10, if exited then 1 else 0];
    hide EncodeFields, Counted;
    EncodeFieldsConcat([VarintField(1, code)], [VarintField(2, BoolVarint(exited))]);
    assert [VarintField(1, code)] + [VarintField(2, BoolVarint(exited))] == [VarintField(1, code), VarintField(2, BoolVarint(exited))];
  }

  lemma EndTailOnWire(status: Text, error: Option<Text>)
    ensures EncodeFields(StatusFields(status) + ErrorFields(error))
            == (if status == [] then [] else Sized(0x1A, status)) + (if error.Some? then Sized(0x22, error.value) else [])
  {
    OptionOnWire(3, status, status != []);
    OptionOnWire(4, if error.Some? then error.value else [], error.Some?);
    hide EncodeFields, Sized;
    EncodeFieldsConcat(StatusFields(status), ErrorFields(error));
  }

  // The exit code is field 1 as a signed varint, exited field 2, status field 3 unless it is
  // empty, and error field 4 if there is one.
  lemma EndEventOnWire(event: EndEvent)
    ensures var code := if event.exitCode < 0 then -2 * event.exitCode - 1 else 2 * event.exitCode;
            EncodeFields(EndFields(event))
            == (Counted(0x08, code) + [0x10, if event.exited then 1 else 0])
               + ((if event.status == [] then [] else Sized(0x1A, event.status))
                  + (if event.error.Some? then Sized(0x22, event.error.value) else []))
  {
    hide EncodeFields, Sized, Counted, EncodeZigZag32, StatusFields, ErrorFields, BoolVarint;
    ZigZagIsBijective(event.exitCode, 0);
    EndHeadOnWire(EncodeZigZag32(event.exitCode), event.exited);
    EndTailOnWire(event.status, event.error);
    EncodeFieldsConcat([VarintField(1, EncodeZigZag32(event.exitCode)), VarintField(2, BoolVarint(event.exited))],
                       StatusFields(event.status) + ErrorFields(event.error));
  }

  // Standard output is field 1, standard error 2 and the terminal 3; an empty chunk is no
  // bytes at all.
  lemma OutputOnWire(output: Output)
    ensures MarshalProtoDataEvent(DataEventForOutput(output))
            == if output.data == [] then []
               else match output.stream
                    case Stdout => Sized(0x0A, output.data)
                    case Stderr => Sized(0x12, output.data)
                    case PTY => Sized(0x1A, output.data)
  {
    Base64.RoundTrip(output.data);
    Base64.EncodeEmpty(output.data);
    FieldOnWire(1, output.data, 0);
    FieldOnWire(2, output.data, 0);
    FieldOnWire(3, output.data, 0);
    hide EncodeField, Sized, Base64.Encode, Base64.DecodeString;
  }
}
