// The Start request of boxd's Connect API, decoded from protobuf.
module StartRequest {
  import opened Machine
  import opened Wire
  import opened ProcessConfig

  datatype PtySize = PtySize(cols: uint32, rows: uint32)
  datatype Pty = Pty(size: Option<PtySize>)
  datatype Request = Request(process: Option<Config>, pty: Option<Pty>, tag: Option<Text>, stdin: Option<bool>)

  function OnSizeField(s: PtySize, f: Field): Visit<PtySize> {
    Visit(if f.number == 1 then s.(cols := Number(f) % TWO_32)
          else if f.number == 2 then s.(rows := Number(f) % TWO_32)
          else s, false)
  }

  function OnPtyField(p: Pty, f: Field): Visit<Pty> {
    if f.number != 1 then Visit(p, false)
    else
      var size := Walk(Value(f), OnSizeField, PtySize(0, 0));
      if size.error.Some? then Visit(p, true) else Visit(Pty(Some(size.state)), false)
  }

  function UnmarshalPty(payload: seq<byte>): Walked<Pty> {
    Walk(payload, OnPtyField, Pty(None))
  }

  function OnStartField(r: Request, f: Field): Visit<Request> {
    match f.number
    case 1 =>
      var cfg := UnmarshalConfig(Value(f));
      if cfg.error.Some? then Visit(r, true) else Visit(r.(process := Some(cfg.state)), false)
    case 2 =>
      var pty := UnmarshalPty(Value(f));
      if pty.error.Some? then Visit(r, true) else Visit(r.(pty := Some(pty.state)), false)
    case 3 => Visit(r.(tag := Some(Value(f))), false)
    case 4 => Visit(r.(stdin := Some(Number(f) != 0)), false)
    case _ => Visit(r, false)
  }

  const NEW_REQUEST := Request(None, None, None, None)

  method UnmarshalProtoStartRequest(payload: seq<byte>) returns (w: Walked<Request>)
    ensures w == Walk(payload, OnStartField, NEW_REQUEST)
  {
    w := WalkProtoFields(payload, OnStartField, NEW_REQUEST);
  }

  // ---------- what a client sends ----------

  function SizeFields(s: PtySize): seq<Field> {
    [VarintField(1, s.cols), VarintField(2, s.rows)]
  }

  function PtyFields(p: Pty): seq<Field> {
    match p.size
    case None => []
    case Some(s) => [BytesField(1, EncodeFields(SizeFields(s)))]
  }

  // The optional fields after the process config, each absent when not set.
  function RestFields(r: Request): seq<Field> {
    (if r.pty.Some? then [BytesField(2, EncodeFields(PtyFields(r.pty.value)))] else []) +
    ((if r.tag.Some? then [BytesField(3, r.tag.value)] else []) +
     (if r.stdin.Some? then [VarintField(4, BoolVarint(r.stdin.value))] else []))
  }

  function RequestFields(r: Request, order: seq<Text>): seq<Field>
    requires r.process.Some? && forall k :: k in order ==> k in Envs(r.process.value)
  {
    [BytesField(1, EncodeFields(ConfigFields(r.process.value, order)))] + RestFields(r)
  }

  lemma UnmarshalSentSize(s: PtySize)
    requires |EncodeFields(SizeFields(s))| < TWO_63
    ensures Walk(EncodeFields(SizeFields(s)), OnSizeField, PtySize(0, 0)) == Walked(s, None)
  {
    WalkEncodedFields(SizeFields(s), OnSizeField, PtySize(0, 0));
    FeedTwo(VarintField(1, s.cols), VarintField(2, s.rows), OnSizeField, PtySize(0, 0));
  }

  lemma FeedOne<S>(f: Field, fn: (S, Field) -> Visit<S>, s: S)
    requires !fn(s, f).failed
    ensures Feed([f], fn, s) == fn(s, f)
  {
    assert Feed([], fn, fn(s, f).state) == Visit(fn(s, f).state, false);
    assert [f][1..] == [];
  }

  lemma UnmarshalSentPty(p: Pty)
    requires |EncodeFields(PtyFields(p))| < TWO_63
    ensures UnmarshalPty(EncodeFields(PtyFields(p))) == Walked(p, None)
  {
    WalkEncodedFields(PtyFields(p), OnPtyField, Pty(None));
    if p.size.Some? {
      FieldFits(PtyFields(p), 0);
      UnmarshalSentSize(p.size.value);
      FeedOne(PtyFields(p)[0], OnPtyField, Pty(None));
    }
  }

  lemma FeedRest(r: Request, start: Request)
    requires start == NEW_REQUEST.(process := start.process)
    requires |EncodeFields(RestFields(r))| < TWO_63
    ensures Feed(RestFields(r), OnStartField, start) == Visit(r.(process := start.process), false)
  {
    var pty := if r.pty.Some? then [BytesField(2, EncodeFields(PtyFields(r.pty.value)))] else [];
    var tag := if r.tag.Some? then [BytesField(3, r.tag.value)] else [];
    var stdin := if r.stdin.Some? then [VarintField(4, BoolVarint(r.stdin.value))] else [];
    var afterPty := start.(pty := r.pty);
    var afterTag := afterPty.(tag := r.tag);
    FeedConcat(pty, tag + stdin, OnStartField, start);
    assert Feed(pty, OnStartField, start) == Visit(afterPty, false) by {
      if r.pty.Some? {
        FieldFits(RestFields(r), 0);
        UnmarshalSentPty(r.pty.value);
        FeedOne(pty[0], OnStartField, start);
      }
    }
    FeedConcat(tag, stdin, OnStartField, afterPty);
    assert Feed(tag, OnStartField, afterPty) == Visit(afterTag, false) by {
      if r.tag.Some? {
        FeedOne(tag[0], OnStartField, afterPty);
      }
    }
    assert Feed(stdin, OnStartField, afterTag) == Visit(afterTag.(stdin := r.stdin), false) by {
      if r.stdin.Some? {
        FeedOne(stdin[0], OnStartField, afterTag);
      }
    }
  }

  // Whatever a client asks for arrives: config, terminal size, tag and stdin
  // flag, present or absent, for every order of the environment.
  lemma StartRequestRoundTrip(r: Request, order: seq<Text>)
    requires r.process.Some? && Enumerates(order, Envs(r.process.value))
    requires |EncodeFields(RequestFields(r, order))| < TWO_63
    ensures Walk(EncodeFields(RequestFields(r, order)), OnStartField, NEW_REQUEST) ==
            Walked(r.(process := Some(NilIfEmpty(r.process.value))), None)
  {
    var cfg := r.process.value;
    var f := BytesField(1, EncodeFields(ConfigFields(cfg, order)));
    var fields := RequestFields(r, order);
    WalkEncodedFields(fields, OnStartField, NEW_REQUEST);
    FieldFits(fields, 0);
    ConfigRoundTrip(cfg, order);
    FeedFirst(f, RestFields(r), OnStartField, NEW_REQUEST);
    EncodeFieldsConcat([f], RestFields(r));
    FeedRest(r, NEW_REQUEST.(process := Some(NilIfEmpty(cfg))));
  }
}
