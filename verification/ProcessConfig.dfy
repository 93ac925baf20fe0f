// The process messages of boxd's Connect API: encoders and decoders.
module ProcessConfig {
  import opened Machine
  import opened Wire
  import Seqs

  // envs is None for Go's nil map.
  datatype Config = Config(cmd: Text, args: seq<Text>, envs: Option<map<Text, Text>>, cwd: Option<Text>)

  // ---------- encoding ----------

  function MapEntry(key: Text, value: Text): seq<byte> {
    EncodeField(BytesField(1, key)) + EncodeField(BytesField(2, value))
  }

  function CmdFields(cmd: Text): seq<Field> {
    if cmd == [] then [] else [BytesField(1, cmd)]
  }

  function ArgFields(args: seq<Text>): seq<Field> {
    if args == [] then [] else [BytesField(2, args[0])] + ArgFields(args[1..])
  }

  function EnvField(key: Text, value: Text): Field {
    BytesField(3, MapEntry(key, value))
  }

  function EnvFields(order: seq<Text>, envs: map<Text, Text>): seq<Field>
    requires forall k :: k in order ==> k in envs
  {
    if order == [] then [] else [EnvField(order[0], envs[order[0]])] + EnvFields(order[1..], envs)
  }

  function CwdFields(cwd: Option<Text>): seq<Field> {
    match cwd
    case None => []
    case Some(dir) => [BytesField(4, dir)]
  }

  function Envs(cfg: Config): map<Text, Text> {
    if cfg.envs.Some? then cfg.envs.value else map[]
  }

  // The fields of a config whose environment is visited in this order.
  function ConfigFields(cfg: Config, order: seq<Text>): seq<Field>
    requires forall k :: k in order ==> k in Envs(cfg)
  {
    CmdFields(cfg.cmd) + (ArgFields(cfg.args) + (EnvFields(order, Envs(cfg)) + CwdFields(cfg.cwd)))
  }

  // Emitting the first of the fields still to come.
  lemma Emit(out: seq<byte>, f: Field, rest: seq<Field>)
    ensures out + EncodeFields([f] + rest) == (out + EncodeField(f)) + EncodeFields(rest)
  {
    assert ([f] + rest)[1..] == rest;
    Seqs.AppendAssoc(out, EncodeField(f), EncodeFields(rest));
  }

  lemma EmitCwd(out: seq<byte>, cwd: Option<Text>)
    ensures out + EncodeFields(CwdFields(cwd)) ==
            if cwd.None? then out else out + EncodeField(BytesField(4, cwd.value))
  {
    if cwd.Some? {
      Emit(out, BytesField(4, cwd.value), []);
    }
  }

  lemma EmitCmd(cmd: Text, rest: seq<Field>)
    ensures EncodeFields(CmdFields(cmd) + rest) ==
            (if cmd == [] then [] else [] + EncodeField(BytesField(1, cmd))) + EncodeFields(rest)
  {
    if cmd == [] {
      assert [] + rest == rest;
    } else {
      Emit([], BytesField(1, cmd), rest);
    }
  }

  lemma EmitArg(out: seq<byte>, args: seq<Text>, i: nat, rest: seq<Field>)
    requires i < |args|
    ensures out + EncodeFields(ArgFields(args[i..]) + rest) ==
            (out + EncodeField(BytesField(2, args[i]))) + EncodeFields(ArgFields(args[i + 1..]) + rest)
  {
    var f, more := BytesField(2, args[i]), ArgFields(args[i + 1..]);
    assert args[i..][1..] == args[i + 1..];
    Seqs.AppendAssoc([f], more, rest);
    Emit(out, f, more + rest);
  }

  lemma EmitEnv(out: seq<byte>, order: seq<Text>, envs: map<Text, Text>, i: nat, rest: seq<Field>)
    requires forall k :: k in order ==> k in envs
    requires i < |order|
    ensures out + EncodeFields(EnvFields(order[i..], envs) + rest) ==
            (out + EncodeField(EnvField(order[i], envs[order[i]]))) + EncodeFields(EnvFields(order[i + 1..], envs) + rest)
  {
    var f, more := EnvField(order[i], envs[order[i]]), EnvFields(order[i + 1..], envs);
    assert order[i..][1..] == order[i + 1..];
    Seqs.AppendAssoc([f], more, rest);
    Emit(out, f, more + rest);
  }

  // Go visits a map in any order it likes; order is the one it took.
  method MarshalProtoProcessConfig(cfg: Config, order: seq<Text>) returns (out: seq<byte>)
    requires Enumerates(order, Envs(cfg))
    ensures out == EncodeFields(ConfigFields(cfg, order))
  {
    hide EncodeField, EncodeFields;
    ghost var total := EncodeFields(ConfigFields(cfg, order));
    ghost var envs := EnvFields(order, Envs(cfg));
    ghost var cwd := CwdFields(cfg.cwd);
    out := [];
    if cfg.cmd != [] {
      out := out + EncodeField(BytesField(1, cfg.cmd));
    }
    EmitCmd(cfg.cmd, ArgFields(cfg.args) + (envs + cwd));
    assert cfg.args[0..] == cfg.args;
    for i := 0 to |cfg.args|
      invariant out + EncodeFields(ArgFields(cfg.args[i..]) + (envs + cwd)) == total
    {
      EmitArg(out, cfg.args, i, envs + cwd);
      out := out + EncodeField(BytesField(2, cfg.args[i]));
    }
    assert [] + (envs + cwd) == envs + cwd;
    assert order[0..] == order;
    for i := 0 to |order|
      invariant out + EncodeFields(EnvFields(order[i..], Envs(cfg)) + cwd) == total
    {
      EmitEnv(out, order, Envs(cfg), i, cwd);
      var key, value := order[i], Envs(cfg)[order[i]];
      var entry := EncodeField(BytesField(1, key));
      entry := entry + EncodeField(BytesField(2, value));
      out := out + EncodeField(BytesField(3, entry));
    }
    assert [] + cwd == cwd;
    EmitCwd(out, cfg.cwd);
    if cfg.cwd.Some? {
      out := out + EncodeField(BytesField(4, cfg.cwd.value));
    }
  }

  // ---------- decoding ----------

  // What a callback sees: value is nil for a varint field, u is 0 for a bytes one.
  function Value(f: Field): seq<byte> {
    if f.BytesField? then f.bytes else []
  }

  function Number(f: Field): uint64 {
    if f.VarintField? then f.varint else 0
  }

  datatype Entry = Entry(key: Text, value: Text)

  function OnEntryField(e: Entry, f: Field): Visit<Entry> {
    Visit(if f.number == 1 then e.(key := Value(f)) else if f.number == 2 then e.(value := Value(f)) else e, false)
  }

  function UnmarshalMapEntry(payload: seq<byte>): Walked<Entry> {
    Walk(payload, OnEntryField, Entry([], []))
  }

  function OnConfigField(cfg: Config, f: Field): Visit<Config> {
    match f.number
    case 1 => Visit(cfg.(cmd := Value(f)), false)
    case 2 => Visit(cfg.(args := cfg.args + [Value(f)]), false)
    case 3 =>
      var e := UnmarshalMapEntry(Value(f));
      if e.error.Some? then Visit(cfg, true)
      else Visit(cfg.(envs := Some(Envs(cfg)[e.state.key := e.state.value])), false)
    case 4 => Visit(cfg.(cwd := Some(Value(f))), false)
    case _ => Visit(cfg, false)
  }

  // An environment that ends up empty is reported as nil, also on failure.
  function NilIfEmpty(cfg: Config): Config {
    if Envs(cfg) == map[] then cfg.(envs := None) else cfg
  }

  const NEW_CONFIG := Config([], [], Some(map[]), None)

  function UnmarshalConfig(payload: seq<byte>): Walked<Config> {
    var w := Walk(payload, OnConfigField, NEW_CONFIG);
    w.(state := NilIfEmpty(w.state))
  }

  method UnmarshalProtoProcessConfig(payload: seq<byte>) returns (w: Walked<Config>)
    ensures w == UnmarshalConfig(payload)
  {
    w := WalkProtoFields(payload, OnConfigField, NEW_CONFIG);
    if Envs(w.state) == map[] {
      w := w.(state := w.state.(envs := None));
    }
  }

  // ---------- the round trip ----------

  lemma {:induction false} FeedArgs(args: seq<Text>, cfg: Config)
    ensures Feed(ArgFields(args), OnConfigField, cfg) == Visit(cfg.(args := cfg.args + args), false)
    decreases |args|
  {
    if args == [] {
      assert cfg.args + args == cfg.args;
    } else {
      var next := cfg.(args := cfg.args + [args[0]]);
      FeedFirst(BytesField(2, args[0]), ArgFields(args[1..]), OnConfigField, cfg);
      FeedArgs(args[1..], next);
      assert next.args + args[1..] == cfg.args + args;
    }
  }

  lemma UnmarshalMarshaledEntry(key: Text, value: Text)
    requires |MapEntry(key, value)| < TWO_63
    ensures UnmarshalMapEntry(MapEntry(key, value)) == Walked(Entry(key, value), None)
  {
    var k, v := BytesField(1, key), BytesField(2, value);
    EncodeTwo(k, v);
    WalkEncodedFields([k, v], OnEntryField, Entry([], []));
    FeedTwo(k, v, OnEntryField, Entry([], []));
  }

  lemma EncodeTwo(a: Field, b: Field)
    ensures EncodeFields([a, b]) == EncodeField(a) + EncodeField(b)
  {
    assert [a, b][1..] == [b] && [b][1..] == [];
    assert EncodeFields([b]) == EncodeField(b) + EncodeFields([]);
  }

  lemma FeedTwo<S>(a: Field, b: Field, fn: (S, Field) -> Visit<S>, s: S)
    requires !fn(s, a).failed
    ensures Feed([a, b], fn, s) == fn(fn(s, a).state, b)
  {
    assert [a, b][1..] == [b] && [b][1..] == [];
    assert Feed([], fn, fn(fn(s, a).state, b).state) == Visit(fn(fn(s, a).state, b).state, false);
  }

  function Pick(order: seq<Text>, envs: map<Text, Text>): map<Text, Text>
    requires forall k :: k in order ==> k in envs
  {
    map k | k in order :: envs[k]
  }

  lemma {:induction false} FeedEnvs(order: seq<Text>, envs: map<Text, Text>, cfg: Config)
    requires forall k :: k in order ==> k in envs
    requires forall k :: k in order ==> |MapEntry(k, envs[k])| < TWO_63
    requires cfg.envs.Some?
    ensures Feed(EnvFields(order, envs), OnConfigField, cfg) ==
            Visit(cfg.(envs := Some(Envs(cfg) + Pick(order, envs))), false)
    decreases |order|
  {
    if order == [] {
      assert Envs(cfg) + Pick(order, envs) == Envs(cfg);
    } else {
      var k, rest := order[0], order[1..];
      var next := cfg.(envs := Some(Envs(cfg)[k := envs[k]]));
      FeedOneEnv(k, envs[k], cfg);
      FeedFirst(EnvField(k, envs[k]), EnvFields(rest, envs), OnConfigField, cfg);
      FeedEnvs(rest, envs, next);
      PickFirst(order, envs);
      MergeFirst(Envs(cfg), k, envs[k], Pick(rest, envs));
    }
  }

  lemma FeedFirst<S>(f: Field, rest: seq<Field>, fn: (S, Field) -> Visit<S>, s: S)
    requires !fn(s, f).failed
    ensures Feed([f] + rest, fn, s) == Feed(rest, fn, fn(s, f).state)
  {
    assert ([f] + rest)[1..] == rest;
  }

  lemma MergeFirst<K, V>(m: map<K, V>, k: K, v: V, rest: map<K, V>)
    ensures m[k := v] + rest == m + (map[k := v] + rest)
  {
  }

  lemma PickFirst(order: seq<Text>, envs: map<Text, Text>)
    requires order != [] && forall k :: k in order ==> k in envs
    ensures Pick(order, envs) == map[order[0] := envs[order[0]]] + Pick(order[1..], envs)
  {
    assert forall k :: k in order <==> k == order[0] || k in order[1..];
  }

  lemma FeedOneEnv(key: Text, value: Text, cfg: Config)
    requires |MapEntry(key, value)| < TWO_63
    ensures OnConfigField(cfg, EnvField(key, value)) == Visit(cfg.(envs := Some(Envs(cfg)[key := value])), false)
  {
    UnmarshalMarshaledEntry(key, value);
  }

  lemma {:induction false} EnvFieldsAt(order: seq<Text>, envs: map<Text, Text>, i: nat)
    requires forall k :: k in order ==> k in envs
    requires i < |order|
    ensures |EnvFields(order, envs)| == |order| && EnvFields(order, envs)[i] == EnvField(order[i], envs[order[i]])
    decreases |order|
  {
    if |order| > 1 {
      EnvFieldsAt(order[1..], envs, if i == 0 then 0 else i - 1);
    }
  }

  lemma EntryFits(order: seq<Text>, envs: map<Text, Text>, k: Text)
    requires forall k :: k in order ==> k in envs
    requires k in order
    ensures |MapEntry(k, envs[k])| <= |EncodeFields(EnvFields(order, envs))|
  {
    var i :| 0 <= i < |order| && order[i] == k;
    EnvFieldsAt(order, envs, i);
    FieldFits(EnvFields(order, envs), i);
  }

  lemma EntriesFit(cfg: Config, order: seq<Text>)
    requires Enumerates(order, Envs(cfg))
    requires |EncodeFields(ConfigFields(cfg, order))| < TWO_63
    ensures forall k :: k in order ==> |MapEntry(k, Envs(cfg)[k])| < TWO_63
  {
    var cmd, args, envs, cwd := CmdFields(cfg.cmd), ArgFields(cfg.args), EnvFields(order, Envs(cfg)), CwdFields(cfg.cwd);
    EncodeFieldsConcat(cmd, args + (envs + cwd));
    EncodeFieldsConcat(args, envs + cwd);
    EncodeFieldsConcat(envs, cwd);
    forall k | k in order
      ensures |MapEntry(k, Envs(cfg)[k])| < TWO_63
    {
      EntryFits(order, Envs(cfg), k);
    }
  }

  // For every config and every order its environment is visited in, decoding
  // what was encoded gives the config back; only an empty environment comes
  // back as nil.  (The length bound is that of any Go byte slice.)
  lemma ConfigRoundTrip(cfg: Config, order: seq<Text>)
    requires Enumerates(order, Envs(cfg))
    requires |EncodeFields(ConfigFields(cfg, order))| < TWO_63
    ensures UnmarshalConfig(EncodeFields(ConfigFields(cfg, order))) == Walked(NilIfEmpty(cfg), None)
  {
    WalkEncodedFields(ConfigFields(cfg, order), OnConfigField, NEW_CONFIG);
    EntriesFit(cfg, order);
    FeedConfig(cfg, order);
  }

  lemma PickAll(order: seq<Text>, envs: map<Text, Text>)
    requires Enumerates(order, envs)
    ensures map[] + Pick(order, envs) == envs
  {
  }

  lemma FeedConfig(cfg: Config, order: seq<Text>)
    requires Enumerates(order, Envs(cfg))
    requires forall k :: k in order ==> |MapEntry(k, Envs(cfg)[k])| < TWO_63
    ensures Feed(ConfigFields(cfg, order), OnConfigField, NEW_CONFIG) == Visit(cfg.(envs := Some(Envs(cfg))), false)
  {
    var cmd, args, envs, cwd := CmdFields(cfg.cmd), ArgFields(cfg.args), EnvFields(order, Envs(cfg)), CwdFields(cfg.cwd);
    hide Feed, OnConfigField, ArgFields, EnvFields, CmdFields, CwdFields, Pick, MapEntry;
    var afterCmd := NEW_CONFIG.(cmd := cfg.cmd);
    var afterArgs := afterCmd.(args := cfg.args);
    var afterEnvs := afterArgs.(envs := Some(Envs(cfg)));
    FeedConcat(cmd, args + (envs + cwd), OnConfigField, NEW_CONFIG);
    FeedCmd(cfg.cmd);
    FeedConcat(args, envs + cwd, OnConfigField, afterCmd);
    FeedArgs(cfg.args, afterCmd);
    assert [] + cfg.args == cfg.args;
    FeedConcat(envs, cwd, OnConfigField, afterArgs);
    FeedEnvs(order, Envs(cfg), afterArgs);
    PickAll(order, Envs(cfg));
    FeedCwd(cfg.cwd, afterEnvs);
  }

  lemma FeedCmd(cmd: Text)
    ensures Feed(CmdFields(cmd), OnConfigField, NEW_CONFIG) == Visit(NEW_CONFIG.(cmd := cmd), false)
  {
  }

  lemma FeedCwd(cwd: Option<Text>, cfg: Config)
    requires cfg.cwd == None
    ensures Feed(CwdFields(cwd), OnConfigField, cfg) == Visit(cfg.(cwd := cwd), false)
  {
  }
}
