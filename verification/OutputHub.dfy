// The output hub on its own state: Go channels, subscribers, and payloads that live in
// arrays of their own.  What Go's runtime would panic or block on is a precondition of the
// channel operation, so a verified hub never does either.
module OutputHub {
  import opened Machine
  import M = HubModel

  datatype ProcessOutput = ProcessOutput(stream: Text, data: array<byte>)

  // What each payload array was filled with.
  type Bytes = map<array<byte>, seq<byte>>

  // The payloads s have these contents.
  ghost predicate Shows(s: seq<ProcessOutput>, contents: seq<M.Output>, bytes: Bytes) {
    |s| == |contents|
    && forall i :: 0 <= i < |s| ==> s[i].data in bytes && contents[i] == M.Output(s[i].stream, bytes[s[i].data])
  }

  ghost predicate Extends(small: Bytes, big: Bytes) {
    forall b :: b in small ==> b in big && big[b] == small[b]
  }

  lemma StillShows(s: seq<ProcessOutput>, contents: seq<M.Output>, small: Bytes, big: Bytes)
    requires Shows(s, contents, small) && Extends(small, big)
    ensures Shows(s, contents, big)
  {
  }

  lemma ShowsAppend(s: seq<ProcessOutput>, contents: seq<M.Output>, payload: ProcessOutput, bytes: Bytes)
    requires Shows(s, contents, bytes) && payload.data in bytes
    ensures Shows(s + [payload], contents + [M.Output(payload.stream, bytes[payload.data])], bytes)
  {
  }

  lemma ShowsLast(s: seq<ProcessOutput>, contents: seq<M.Output>, bytes: Bytes)
    requires Shows(s, contents, bytes)
    ensures |s| == |contents|
    ensures Shows(if |s| > M.BUFFER then s[|s| - M.BUFFER..] else s, M.LastOf(contents), bytes)
  {
  }

  class Channel {
    const capacity: nat
    var queue: seq<ProcessOutput>
    var closed: bool

    constructor (capacity: nat)
      ensures this.capacity == capacity && queue == [] && !closed
    {
      this.capacity, queue, closed := capacity, [], false;
    }

    // Go panics on a closed channel and blocks on a full one.
    method Send(payload: ProcessOutput)
      requires !closed && |queue| < capacity
      modifies this`queue
      ensures queue == old(queue) + [payload]
    {
      queue := queue + [payload];
    }

    // Go panics on a closed channel.
    method CloseChannel()
      requires !closed
      modifies this`closed
      ensures closed
    {
      closed := true;
    }
  }

  // A copy of the first n bytes, in an array of its own.
  method Clone(stream: Text, data: array<byte>, n: nat) returns (o: ProcessOutput)
    requires n <= data.Length
    ensures fresh(o.data) && o.stream == stream && o.data[..] == data[..n]
  {
    var copy := new byte[n](i requires 0 <= i < n && n <= data.Length reads data => data[i]);
    o := ProcessOutput(stream, copy);
    assert copy[..] == data[..n];
  }

  // The function subscribe hands out beside the channel.
  datatype CancelFunc = Nothing | CancelOf(ch: Channel)

  class Hub {
    var closed: bool
    var pending: seq<ProcessOutput>
    var subs: set<Channel>
    ghost var chans: seq<Channel>
    ghost var bytes: Bytes
    ghost var model: M.Hub

    // Nobody has written to a payload since it was made.
    ghost predicate Intact()
      reads this, bytes.Keys
    {
      forall b :: b in bytes ==> b[..] == bytes[b]
    }

    // The i-th channel ever handed out is as c says.
    ghost predicate Tracks(i: nat, c: M.Chan)
      requires i < |chans|
      reads this, chans[i]
    {
      && (chans[i] in subs <==> c.subscribed)
      && chans[i].closed == !c.subscribed
      && chans[i].capacity == c.capacity
      && Shows(chans[i].queue, c.queue, bytes)
    }

    ghost predicate Valid()
      reads this, chans, bytes.Keys
    {
      && M.Ok(model)
      && |chans| == |model.chans|
      && (forall i, j :: 0 <= i < j < |chans| ==> chans[i] != chans[j])
      && (forall c :: c in subs ==> c in chans)
      && (forall i :: 0 <= i < |chans| ==> Tracks(i, model.chans[i]))
      && closed == model.closed
      && Shows(pending, model.pending, bytes)
      && Intact()
    }

    constructor ()
      ensures Valid() && model == M.NEW_HUB && bytes == map[] && chans == []
    {
      closed, pending, subs, chans, bytes, model := false, [], {}, [], map[], M.NEW_HUB;
      new;
      M.RunOk([]);
    }

    lemma SubsAreSubscribed()
      requires Valid()
      ensures subs != {} <==> M.HasSubs(model.chans)
    {
      if subs != {} {
        var c :| c in subs;
        var i :| 0 <= i < |chans| && chans[i] == c;
        assert Tracks(i, model.chans[i]);
      }
      if M.HasSubs(model.chans) {
        var i :| 0 <= i < |model.chans| && model.chans[i].subscribed;
        assert Tracks(i, model.chans[i]);
      }
    }

    method Publish(stream: Text, data: array<byte>, n: nat)
      requires Valid() && n <= data.Length
      modifies this, chans
      ensures Valid() && chans == old(chans) && fresh(bytes.Keys - old(bytes.Keys))
      ensures model == M.Step(old(model), M.Publish(M.Output(stream, data[..n])))
    {
      ghost var o := M.Output(stream, data[..n]);
      if closed {
        return;
      }
      SubsAreSubscribed();
      M.StepOk(model, M.Publish(o));
      if subs == {} {
        PublishPending(stream, data, n);
      } else {
        OfferToSubs(stream, data, n);
      }
    }

    method PublishPending(stream: Text, data: array<byte>, n: nat)
      requires Valid() && n <= data.Length && !closed && subs == {} && !M.HasSubs(model.chans)
      requires M.Ok(M.Step(model, M.Publish(M.Output(stream, data[..n]))))
      modifies this
      ensures Valid() && chans == old(chans) && fresh(bytes.Keys - old(bytes.Keys))
      ensures model == M.Step(old(model), M.Publish(M.Output(stream, data[..n])))
    {
      hide M.Ok, M.HasSubs, M.LastOf, Shows;
      var payload := Clone(stream, data, n);
      bytes := bytes[payload.data := data[..n]];
      StillShows(pending, model.pending, old(bytes), bytes);
      ShowsAppend(pending, model.pending, payload, bytes);
      pending := pending + [payload];
      ShowsLast(pending, model.pending + [M.Output(stream, data[..n])], bytes);
      if |pending| > M.BUFFER {
        pending := pending[|pending| - M.BUFFER..];
      }
      model := M.Step(model, M.Publish(M.Output(stream, data[..n])));
      forall i | 0 <= i < |chans|
        ensures Tracks(i, model.chans[i])
      {
        assert old(Tracks(i, model.chans[i]));
        StillShows(chans[i].queue, model.chans[i].queue, old(bytes), bytes);
      }
    }

    // A clone of its own for the subscriber, dropped when there is no room.
    method OfferTo(sub: Channel, stream: Text, data: array<byte>, n: nat, ghost at: nat)
      requires n <= data.Length && at < |chans| == |model.chans| && chans[at] == sub && sub in subs
      requires Tracks(at, model.chans[at]) && Intact()
      modifies sub, this`bytes
      ensures Extends(old(bytes), bytes) && fresh(bytes.Keys - old(bytes.Keys)) && Intact()
      ensures Tracks(at, M.Offer(model.chans[at], M.Output(stream, data[..n])))
    {
      var payload := Clone(stream, data, n);
      bytes := bytes[payload.data := data[..n]];
      StillShows(sub.queue, model.chans[at].queue, old(bytes), bytes);
      if |sub.queue| < sub.capacity {
        sub.Send(payload);
      }
    }

    // The subscribers in rest are yet to be offered o.
    ghost predicate Halfway(rest: set<Channel>, o: M.Output)
      requires |chans| == |model.chans|
      reads this, chans
    {
      forall i :: 0 <= i < |chans| ==>
        Tracks(i, if chans[i] in rest then model.chans[i] else M.Offer(model.chans[i], o))
    }

    method OfferNext(sub: Channel, ghost rest: set<Channel>, stream: Text, data: array<byte>, n: nat)
      requires n <= data.Length && |chans| == |model.chans| && sub in rest && sub in subs && sub in chans
      requires forall i, j :: 0 <= i < j < |chans| ==> chans[i] != chans[j]
      requires Halfway(rest, M.Output(stream, data[..n])) && Intact()
      modifies sub, this`bytes
      ensures Extends(old(bytes), bytes) && fresh(bytes.Keys - old(bytes.Keys)) && Intact()
      ensures Halfway(rest - {sub}, M.Output(stream, data[..n]))
    {
      hide Shows, M.Offer;
      ghost var o := M.Output(stream, data[..n]);
      ghost var at :| 0 <= at < |chans| && chans[at] == sub;
      assert Tracks(at, model.chans[at]);
      OfferTo(sub, stream, data, n, at);
      forall i | 0 <= i < |chans| && i != at
        ensures Tracks(i, if chans[i] in rest - {sub} then model.chans[i] else M.Offer(model.chans[i], o))
      {
        ghost var c := if chans[i] in rest then model.chans[i] else M.Offer(model.chans[i], o);
        assert old(Tracks(i, c));
        StillShows(chans[i].queue, c.queue, old(bytes), bytes);
      }
    }

    // Offering to a channel that is not subscribed changes nothing.
    lemma NoneOffered(o: M.Output)
      requires |chans| == |model.chans| && forall i :: 0 <= i < |chans| ==> Tracks(i, model.chans[i])
      ensures Halfway(subs, o)
    {
    }

    method OfferToSubs(stream: Text, data: array<byte>, n: nat)
      requires Valid() && n <= data.Length && !closed && M.HasSubs(model.chans)
      requires M.Ok(M.Step(model, M.Publish(M.Output(stream, data[..n]))))
      modifies this, chans
      ensures Valid() && chans == old(chans) && fresh(bytes.Keys - old(bytes.Keys))
      ensures model == M.Step(old(model), M.Publish(M.Output(stream, data[..n])))
    {
      hide M.Ok, M.HasSubs, M.Offer, Shows;
      ghost var o := M.Output(stream, data[..n]);
      var rest := subs;
      NoneOffered(o);
      while rest != {}
        invariant rest <= subs == old(subs) && chans == old(chans) && pending == old(pending) && model == old(model)
        invariant Extends(old(bytes), bytes) && fresh(bytes.Keys - old(bytes.Keys)) && Intact() && !closed
        invariant Halfway(rest, o)
      {
        var sub :| sub in rest;
        OfferNext(sub, rest, stream, data, n);
        rest := rest - {sub};
      }
      StillShows(pending, model.pending, old(bytes), bytes);
      hide Intact;
      model := M.Step(model, M.Publish(o));
    }

    // Clones of the pending outputs go into a new channel, which has room for them all.
    method Replay(ch: Channel)
      requires Shows(pending, model.pending, bytes) && Intact()
      requires ch.queue == [] && !ch.closed && |pending| <= ch.capacity
      modifies ch, this`bytes
      ensures Extends(old(bytes), bytes) && fresh(bytes.Keys - old(bytes.Keys)) && Intact()
      ensures !ch.closed && Shows(ch.queue, model.pending, bytes)
    {
      for i := 0 to |pending|
        invariant Extends(old(bytes), bytes) && fresh(bytes.Keys - old(bytes.Keys)) && Intact()
        invariant !ch.closed && Shows(ch.queue, model.pending[..i], bytes)
      {
        ghost var before := bytes;
        assert pending[i].data in old(bytes);
        var payload := Clone(pending[i].stream, pending[i].data, pending[i].data.Length);
        assert payload.data[..] == pending[i].data[..];
        bytes := bytes[payload.data := pending[i].data[..]];
        StillShows(ch.queue, model.pending[..i], before, bytes);
        ShowsAppend(ch.queue, model.pending[..i], payload, bytes);
        assert model.pending[..i + 1] == model.pending[..i] + [model.pending[i]];
        ch.Send(payload);
      }
      assert model.pending[..|pending|] == model.pending;
    }

    method Subscribe() returns (ch: Channel, cancel: CancelFunc)
      requires Valid()
      modifies this
      ensures Valid() && fresh(ch) && chans == old(chans) + [ch] && fresh(bytes.Keys - old(bytes.Keys))
      ensures model == M.Step(old(model), M.Subscribe)
      ensures cancel == if old(closed) then Nothing else CancelOf(ch)
      ensures ch.closed == old(closed) && subs == (if old(closed) then old(subs) else old(subs) + {ch})
      ensures pending == [] && |ch.queue| == |old(pending)|
    {
      hide Shows, M.Ok, M.HasSubs;
      M.StepOk(model, M.Subscribe);
      var bufferSize := M.BUFFER;
      if |pending| > bufferSize {
        bufferSize := |pending|;
      }
      ch := new Channel(bufferSize);
      SameLength(pending, model.pending, bytes);
      EmptyShows(bytes);
      Replay(ch);
      EmptyShows(bytes);
      pending := [];
      cancel := Nothing;
      if closed {
        ch.CloseChannel();
      } else {
        subs := subs + {ch};
        cancel := CancelOf(ch);
      }
      chans := chans + [ch];
      model := M.Step(model, M.Subscribe);
      forall i | 0 <= i < |chans|
        ensures Tracks(i, model.chans[i])
      {
        if i < |old(chans)| {
          assert old(Tracks(i, model.chans[i]));
          StillShows(chans[i].queue, model.chans[i].queue, old(bytes), bytes);
        }
      }
    }

    // The subscriber's own cancel function, any number of times.
    method Cancel(cancel: CancelFunc, ghost i: nat)
      requires Valid() && (cancel.CancelOf? ==> i < |chans| && chans[i] == cancel.ch)
      modifies this, chans
      ensures Valid() && chans == old(chans) && bytes == old(bytes)
      ensures model == if cancel.Nothing? then old(model) else M.Step(old(model), M.Cancel(i))
      ensures cancel.CancelOf? ==> cancel.ch.closed && subs == old(subs) - {cancel.ch}
      ensures closed == old(closed) && pending == old(pending)
    {
      hide Shows, M.Ok, M.HasSubs;
      if cancel.CancelOf? {
        M.StepOk(model, M.Cancel(i));
        assert Tracks(i, model.chans[i]);
        if cancel.ch in subs {
          subs := subs - {cancel.ch};
          cancel.ch.CloseChannel();
          model := M.Step(model, M.Cancel(i));
          forall k | 0 <= k < |chans|
            ensures Tracks(k, model.chans[k])
          {
            assert old(Tracks(k, model.chans[k]));
          }
        }
      }
    }

    // The channels still in subs are yet to be closed.
    ghost predicate Closing()
      requires |chans| == |model.chans|
      reads this, chans
    {
      forall i :: 0 <= i < |chans| ==>
        Tracks(i, if chans[i] in subs then model.chans[i] else M.Leave(model.chans[i], |model.published|))
    }

    method CloseOne(sub: Channel)
      requires |chans| == |model.chans| && Closing() && sub in subs && sub in chans
      requires forall i, j :: 0 <= i < j < |chans| ==> chans[i] != chans[j]
      modifies sub`closed, this`subs
      ensures Closing() && subs == old(subs) - {sub}
    {
      hide Shows;
      ghost var at :| 0 <= at < |chans| && chans[at] == sub;
      assert Tracks(at, model.chans[at]);
      sub.CloseChannel();
      subs := subs - {sub};
      forall i | 0 <= i < |chans| && i != at
        ensures Tracks(i, if chans[i] in subs then model.chans[i] else M.Leave(model.chans[i], |model.published|))
      {
        assert old(Tracks(i, if chans[i] in subs then model.chans[i] else M.Leave(model.chans[i], |model.published|)));
      }
    }

    // Once nobody is left, every channel is closed.
    lemma AllClosed()
      requires |chans| == |model.chans| && Closing() && subs == {}
      ensures forall c :: c in chans ==> c.closed
    {
      hide Shows;
      forall c | c in chans
        ensures c.closed
      {
        var i :| 0 <= i < |chans| && chans[i] == c;
        assert Tracks(i, M.Leave(model.chans[i], |model.published|));
      }
    }

    lemma NobodyLeft()
      requires Valid() && closed
      ensures |chans| == |model.chans| && Closing() && subs == {}
    {
      hide Shows, M.Ok, M.HasSubs;
      M.NoSubsAtClose(model);
      SubsAreSubscribed();
      forall i | 0 <= i < |chans|
        ensures Tracks(i, M.Leave(model.chans[i], |model.published|))
      {
        assert Tracks(i, model.chans[i]) && chans[i] !in subs;
      }
    }

    method Close()
      requires Valid()
      modifies this, chans
      ensures Valid() && chans == old(chans) && bytes == old(bytes)
      ensures model == M.Step(old(model), M.Close)
      ensures closed && subs == {} && pending == old(pending) && forall c :: c in chans ==> c.closed
    {
      hide Shows, M.Ok, M.HasSubs;
      if closed {
        NobodyLeft();
        AllClosed();
        return;
      }
      M.StepOk(model, M.Close);
      closed := true;
      assert forall i :: 0 <= i < |chans| ==> Tracks(i, model.chans[i]);
      while subs != {}
        invariant subs <= old(subs) && chans == old(chans) && pending == old(pending) && model == old(model)
        invariant closed && bytes == old(bytes) && Intact() && Closing()
      {
        var sub :| sub in subs;
        CloseOne(sub);
      }
      AllClosed();
      model := M.Step(model, M.Close);
    }

    // The subscriber takes one output; None when nothing is buffered.
    method Receive(ch: Channel, ghost i: nat) returns (o: Option<ProcessOutput>)
      requires Valid() && i < |chans| && chans[i] == ch
      modifies this, chans
      ensures Valid() && chans == old(chans) && bytes == old(bytes)
      ensures model == M.Step(old(model), M.Receive(i))
      ensures o.None? <==> old(model).chans[i].queue == []
      ensures if o.None? then old(ch.queue) == [] && ch.queue == [] else old(ch.queue) == [o.value] + ch.queue
      ensures o.Some? ==> M.Output(o.value.stream, o.value.data[..]) == old(model).chans[i].queue[0]
    {
      hide M.Ok, M.HasSubs;
      M.StepOk(model, M.Receive(i));
      assert Tracks(i, model.chans[i]);
      if ch.queue == [] {
        return None;
      }
      o := Some(ch.queue[0]);
      ch.queue := ch.queue[1..];
      model := M.Step(model, M.Receive(i));
      forall k | 0 <= k < |chans|
        ensures Tracks(k, model.chans[k])
      {
        assert old(Tracks(k, model.chans[k]));
      }
    }
  }

  lemma SameLength(s: seq<ProcessOutput>, contents: seq<M.Output>, bytes: Bytes)
    requires Shows(s, contents, bytes)
    ensures |s| == |contents|
  {
  }

  lemma EmptyShows(bytes: Bytes)
    ensures Shows([], [], bytes)
  {
  }

  // The channels handed out, in the hands of their subscribers.
  class Subscribers {
    var held: seq<Channel>

    constructor ()
      ensures held == []
    {
      held := [];
    }
  }

  // Somebody takes a step of the hub: another reader, a subscriber, or the one who closes it.
  method Perform(hub: Hub, others: Subscribers, e: M.Event)
    requires hub.Valid() && others.held == hub.chans
    modifies hub, hub.chans, others
    ensures hub.Valid() && others.held == hub.chans && hub.model == M.Step(old(hub.model), e)
    ensures old(hub.chans) <= hub.chans && forall k :: |old(hub.chans)| <= k < |hub.chans| ==> fresh(hub.chans[k])
    ensures fresh(hub.bytes.Keys - old(hub.bytes.Keys))
  {
    hide M.Ok, Shows, M.HasSubs, M.OfferAll, M.AllLeave, M.NewChan, M.LastOf;
    match e
    case Publish(o) =>
      var data := new byte[|o.data|](i requires 0 <= i < |o.data| => o.data[i]);
      assert data[..|o.data|] == o.data;
      hub.Publish(o.stream, data, |o.data|);
    case Subscribe =>
      var ch, cancel := hub.Subscribe();
      others.held := others.held + [ch];
    case Cancel(i) =>
      if i < |others.held| {
        hub.Cancel(CancelOf(others.held[i]), i);
      }
    case Close =>
      hub.Close();
    case Receive(i) =>
      if i < |others.held| {
        var o := hub.Receive(others.held[i], i);
      }
  }

  method PerformAll(hub: Hub, others: Subscribers, events: seq<M.Event>)
    requires hub.Valid() && others.held == hub.chans
    modifies hub, hub.chans, others
    ensures hub.Valid() && others.held == hub.chans && hub.model == M.Run(old(hub.model), events)
    ensures old(hub.chans) <= hub.chans && forall k :: |old(hub.chans)| <= k < |hub.chans| ==> fresh(hub.chans[k])
    ensures fresh(hub.bytes.Keys - old(hub.bytes.Keys))
  {
    hide M.Step, Hub.Valid;
    for i := 0 to |events|
      invariant hub.Valid() && others.held == hub.chans && hub.model == M.Run(old(hub.model), events[..i])
      invariant old(hub.chans) <= hub.chans && forall k :: |old(hub.chans)| <= k < |hub.chans| ==> fresh(hub.chans[k])
      invariant fresh(hub.bytes.Keys - old(hub.bytes.Keys))
    {
      assert events[..i + 1][..i] == events[..i];
      Perform(hub, others, events[i]);
    }
    assert events[..|events|] == events;
  }

  // What a reader brings about among the others: each piece it read is published as it was
  // when read, and gaps[i] is what the others do between reading piece i and publishing it.
  function PublishAll(h: M.Hub, stream: Text, pieces: seq<seq<byte>>, gaps: seq<seq<M.Event>>): M.Hub
    requires |gaps| == |pieces|
  {
    if pieces == [] then h
    else
      var last := |pieces| - 1;
      var before := M.Run(PublishAll(h, stream, pieces[..last], gaps[..last]), gaps[last]);
      if pieces[last] == [] then before else M.Step(before, M.Publish(M.Output(stream, pieces[last])))
  }

  lemma OneMorePiece(h: M.Hub, stream: Text, pieces: seq<seq<byte>>, gaps: seq<seq<M.Event>>, i: nat)
    requires |gaps| == |pieces| && i < |pieces|
    ensures var before := M.Run(PublishAll(h, stream, pieces[..i], gaps[..i]), gaps[i]);
            PublishAll(h, stream, pieces[..i + 1], gaps[..i + 1])
            == if pieces[i] == [] then before else M.Step(before, M.Publish(M.Output(stream, pieces[i])))
  {
    assert pieces[..i + 1][..i] == pieces[..i] && gaps[..i + 1][..i] == gaps[..i];
    hide M.Step, M.Run;
  }

  // A read overwrites the front of the buffer.
  method ReadInto(buf: array<byte>, piece: seq<byte>)
    requires |piece| <= buf.Length
    modifies buf
    ensures buf[..|piece|] == piece
  {
    forall i | 0 <= i < |piece| {
      buf[i] := piece[i];
    }
  }

  // One goroutine reading a stream into one buffer, over and over, whatever the others do.
  method ReadLoop(hub: Hub, others: Subscribers, stream: Text, pieces: seq<seq<byte>>, gaps: seq<seq<M.Event>>)
    requires hub.Valid() && others.held == hub.chans && |gaps| == |pieces|
    requires forall piece :: piece in pieces ==> |piece| <= 32 * 1024
    modifies hub, hub.chans, others
    ensures hub.Valid() && others.held == hub.chans
    ensures hub.model == PublishAll(old(hub.model), stream, pieces, gaps)
  {
    hide M.Step, M.Run, Hub.Valid;
    var buf := new byte[32 * 1024];
    for i := 0 to |pieces|
      invariant hub.Valid() && others.held == hub.chans && buf !in hub.bytes
      invariant old(hub.chans) <= hub.chans && forall k :: |old(hub.chans)| <= k < |hub.chans| ==> fresh(hub.chans[k])
      invariant hub.model == PublishAll(old(hub.model), stream, pieces[..i], gaps[..i])
    {
      hide PublishAll;
      OneMorePiece(old(hub.model), stream, pieces, gaps, i);
      ReadInto(buf, pieces[i]);
      PerformAll(hub, others, gaps[i]);
      if |pieces[i]| > 0 {
        hub.Publish(stream, buf, |pieces[i]|);
      }
    }
    assert pieces[..|pieces|] == pieces && gaps[..|gaps|] == gaps;
  }
}
