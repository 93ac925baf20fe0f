// The output hub of a process as a state machine.  Each call is one step under the hub's
// lock; receiving from a channel is a step of its own.
module HubModel {
  import opened Machine
  import Seqs
  import opened Subsequences

  const BUFFER := 64

  datatype Output = Output(stream: Text, data: seq<byte>)

  // A subscriber's channel and, beside it, its history: what was taken from it, what was
  // replayed into it, and how many outputs were published when it joined and when it left.
  datatype Chan = Chan(capacity: nat, queue: seq<Output>, subscribed: bool,
                       received: seq<Output>, replay: seq<Output>, start: nat, stop: nat, missed: nat) {
    function Delivered(): seq<Output> {
      received + queue
    }

    // The k-th published output was in the replay.
    predicate Replayed(k: int) {
      start - |replay| <= k < start
    }

    function End(now: nat): nat {
      if subscribed then now else stop
    }
  }

  // published: everything an open hub accepted.  since: how much of it there was when the
  // hub last had a subscriber.
  datatype Hub = Hub(closed: bool, pending: seq<Output>, chans: seq<Chan>, published: seq<Output>, since: nat)

  const NEW_HUB := Hub(false, [], [], [], 0)

  datatype Event = Publish(output: Output) | Subscribe | Cancel(i: nat) | Close | Receive(i: nat)

  predicate HasSubs(chans: seq<Chan>) {
    exists i :: 0 <= i < |chans| && chans[i].subscribed
  }

  function LastOf(s: seq<Output>): seq<Output> {
    if |s| > BUFFER then s[|s| - BUFFER..] else s
  }

  // A send that gives up at once when the buffer is full.
  function Offer(c: Chan, o: Output): Chan {
    if !c.subscribed then c
    else if |c.queue| < c.capacity then c.(queue := c.queue + [o])
    else c.(missed := c.missed + 1)
  }

  function OfferAll(chans: seq<Chan>, o: Output): (r: seq<Chan>)
    ensures |r| == |chans| && forall i :: 0 <= i < |chans| ==> r[i] == Offer(chans[i], o)
  {
    seq(|chans|, i requires 0 <= i < |chans| => Offer(chans[i], o))
  }

  function Leave(c: Chan, now: nat): Chan {
    if c.subscribed then c.(subscribed := false, stop := now) else c
  }

  function AllLeave(chans: seq<Chan>, now: nat): (r: seq<Chan>)
    ensures |r| == |chans| && forall i :: 0 <= i < |chans| ==> r[i] == Leave(chans[i], now)
  {
    seq(|chans|, i requires 0 <= i < |chans| => Leave(chans[i], now))
  }

  function NewChan(h: Hub): Chan {
    var now := |h.published|;
    Chan(if |h.pending| > BUFFER then |h.pending| else BUFFER, h.pending, !h.closed, [], h.pending, now, now, 0)
  }

  function Step(h: Hub, e: Event): Hub {
    match e
    case Publish(o) =>
      if h.closed then h
      else if !HasSubs(h.chans) then h.(pending := LastOf(h.pending + [o]), published := h.published + [o])
      else h.(chans := OfferAll(h.chans, o), published := h.published + [o], since := |h.published| + 1)
    case Subscribe =>
      h.(pending := [], chans := h.chans + [NewChan(h)], since := |h.published|)
    case Cancel(i) =>
      if i < |h.chans| && h.chans[i].subscribed
      then h.(chans := h.chans[i := Leave(h.chans[i], |h.published|)], since := |h.published|) else h
    case Close =>
      if h.closed then h
      else h.(closed := true, chans := AllLeave(h.chans, |h.published|),
              since := if HasSubs(h.chans) then |h.published| else h.since)
    case Receive(i) =>
      if i < |h.chans| && h.chans[i].queue != []
      then h.(chans := h.chans[i := h.chans[i].(received := h.chans[i].received + [h.chans[i].queue[0]],
                                                queue := h.chans[i].queue[1..])]) else h
  }

  function Run(h: Hub, events: seq<Event>): Hub {
    if events == [] then h else Step(Run(h, events[..|events| - 1]), events[|events| - 1])
  }

  // ---------- the invariant ----------

  ghost predicate ChanOk(c: Chan, published: seq<Output>) {
    var end := c.End(|published|);
    && c.capacity == BUFFER && |c.queue| <= c.capacity
    && |c.replay| <= c.start <= end <= |published|
    && c.replay == published[c.start - |c.replay|..c.start]
    && c.replay <= c.Delivered()
    && Subsequence(c.Delivered()[|c.replay|..], published[c.start..end])
    && |c.Delivered()| - |c.replay| + c.missed == end - c.start
  }

  ghost predicate Ok(h: Hub) {
    && h.since <= |h.published|
    && h.pending == LastOf(h.published[h.since..])
    && (HasSubs(h.chans) ==> h.since == |h.published| && !h.closed)
    && (forall i :: 0 <= i < |h.chans| ==> ChanOk(h.chans[i], h.published) && h.chans[i].start <= h.since)
    && (forall i, j :: 0 <= i < j < |h.chans| ==> h.chans[i].start <= h.chans[j].start - |h.chans[j].replay|)
  }

  lemma OfferOk(c: Chan, published: seq<Output>, o: Output)
    requires ChanOk(c, published)
    ensures ChanOk(Offer(c, o), published + [o])
  {
    hide Subsequence;
    var end := c.End(|published|);
    var more := published + [o];
    assert more[c.start - |c.replay|..c.start] == published[c.start - |c.replay|..c.start];
    if c.subscribed {
      assert more[c.start..|more|] == published[c.start..end] + [o];
      var tail := c.Delivered()[|c.replay|..];
      if |c.queue| < c.capacity {
        SubsequenceBoth(tail, published[c.start..end], o);
        assert Offer(c, o).Delivered() == c.Delivered() + [o];
        assert (c.Delivered() + [o])[|c.replay|..] == tail + [o];
      } else {
        SubsequenceRight(tail, published[c.start..end], o);
      }
    } else {
      assert more[c.start..end] == published[c.start..end];
    }
  }

  lemma LastOfGrows(s: seq<Output>, o: Output)
    ensures LastOf(LastOf(s) + [o]) == LastOf(s + [o])
  {
  }

  lemma DropGrows(published: seq<Output>, since: nat, o: Output)
    requires since <= |published|
    ensures (published + [o])[since..] == published[since..] + [o]
  {
  }

  lemma PublishOk(h: Hub, o: Output)
    requires Ok(h)
    ensures Ok(Step(h, Publish(o)))
  {
    hide LastOf, ChanOk;
    if !h.closed {
      var r := Step(h, Publish(o));
      forall i | 0 <= i < |h.chans|
        ensures ChanOk(Offer(h.chans[i], o), r.published)
      {
        OfferOk(h.chans[i], h.published, o);
      }
      if HasSubs(h.chans) {
        NothingPending(h);
        assert r.published[r.since..] == [];
      } else {
        forall i | 0 <= i < |h.chans|
          ensures Offer(h.chans[i], o) == h.chans[i]
        {
        }
        DropGrows(h.published, h.since, o);
        LastOfGrows(h.published[h.since..], o);
      }
    }
  }

  lemma NothingPending(h: Hub)
    requires Ok(h) && HasSubs(h.chans)
    ensures h.pending == [] == LastOf([])
  {
    assert h.published[h.since..] == [];
    hide ChanOk;
  }

  lemma PendingIsTail(h: Hub)
    requires Ok(h)
    ensures |h.pending| <= BUFFER && h.since <= |h.published| - |h.pending|
    ensures h.pending == h.published[|h.published| - |h.pending|..]
  {
    hide ChanOk, HasSubs;
  }

  lemma NewChanOk(h: Hub)
    requires Ok(h)
    ensures ChanOk(NewChan(h), h.published)
  {
    PendingIsTail(h);
    var c := NewChan(h);
    assert c.Delivered() == h.pending;
    assert c.Delivered()[|c.replay|..] == [];
    hide Ok;
  }

  lemma SubscribeOk(h: Hub)
    requires Ok(h)
    ensures Ok(Step(h, Subscribe))
  {
    NewChanOk(h);
    PendingIsTail(h);
    var r := Step(h, Subscribe);
    assert r.published[r.since..] == [];
    assert forall i :: 0 <= i < |h.chans| ==> r.chans[i] == h.chans[i];
    hide ChanOk;
  }

  lemma LeaveOk(c: Chan, published: seq<Output>)
    requires ChanOk(c, published)
    ensures ChanOk(Leave(c, |published|), published)
  {
    hide Subsequence;
  }

  lemma CancelOk(h: Hub, i: nat)
    requires Ok(h)
    ensures Ok(Step(h, Cancel(i)))
  {
    hide ChanOk, LastOf;
    if i < |h.chans| && h.chans[i].subscribed {
      LeaveOk(h.chans[i], h.published);
      NothingPending(h);
    }
  }

  lemma CloseOk(h: Hub)
    requires Ok(h)
    ensures Ok(Step(h, Close))
  {
    hide ChanOk, LastOf;
    if !h.closed {
      forall i | 0 <= i < |h.chans|
        ensures ChanOk(Leave(h.chans[i], |h.published|), h.published)
      {
        LeaveOk(h.chans[i], h.published);
      }
    }
  }

  lemma TakeOk(c: Chan, published: seq<Output>)
    requires ChanOk(c, published) && c.queue != []
    ensures ChanOk(c.(received := c.received + [c.queue[0]], queue := c.queue[1..]), published)
  {
    hide Subsequence;
    var r := c.(received := c.received + [c.queue[0]], queue := c.queue[1..]);
    assert r.Delivered() == c.Delivered();
  }

  lemma ReceiveOk(h: Hub, i: nat)
    requires Ok(h)
    ensures Ok(Step(h, Receive(i)))
  {
    hide ChanOk, LastOf;
    if i < |h.chans| && h.chans[i].queue != [] {
      TakeOk(h.chans[i], h.published);
      SameSubs(h.chans, Step(h, Receive(i)).chans);
    }
  }

  lemma SameSubs(a: seq<Chan>, b: seq<Chan>)
    requires |a| == |b| && forall i :: 0 <= i < |a| ==> a[i].subscribed == b[i].subscribed
    ensures HasSubs(a) == HasSubs(b)
  {
    if HasSubs(a) {
      var i :| 0 <= i < |a| && a[i].subscribed;
      assert b[i].subscribed;
    }
  }

  lemma StepOk(h: Hub, e: Event)
    requires Ok(h)
    ensures Ok(Step(h, e))
  {
    hide Ok, Step;
    match e
    case Publish(o) => PublishOk(h, o);
    case Subscribe => SubscribeOk(h);
    case Cancel(i) => CancelOk(h, i);
    case Close => CloseOk(h);
    case Receive(i) => ReceiveOk(h, i);
  }

  lemma {:induction false} RunOk(events: seq<Event>)
    ensures Ok(Run(NEW_HUB, events))
  {
    if events == [] {
      assert NEW_HUB.published[0..] == [];
    } else {
      RunOk(events[..|events| - 1]);
      StepOk(Run(NEW_HUB, events[..|events| - 1]), events[|events| - 1]);
    }
  }

  // ---------- what it means ----------

  // In every run: what a subscriber received and still has buffered is its replay followed
  // by a subsequence of what was published while it was subscribed; published outputs are
  // delivered or counted as missed, and with none missed they are all there.
  lemma DeliveryHistory(events: seq<Event>, i: nat)
    requires i < |Run(NEW_HUB, events).chans|
    ensures var h := Run(NEW_HUB, events);
            var c := h.chans[i];
            var end := c.End(|h.published|);
            && |c.replay| <= c.start <= end <= |h.published|
            && c.replay == h.published[c.start - |c.replay|..c.start]
            && (exists taken :: c.Delivered() == c.replay + taken && Subsequence(taken, h.published[c.start..end])
                                && |taken| + c.missed == end - c.start)
            && (c.missed == 0 ==> c.Delivered() == h.published[c.start - |c.replay|..end])
  {
    RunOk(events);
    hide Run, LastOf, HasSubs;
    var h := Run(NEW_HUB, events);
    var c := h.chans[i];
    assert ChanOk(c, h.published);
    var taken := c.Delivered()[|c.replay|..];
    assert c.Delivered() == c.replay + taken;
    SubsequenceIsShorter(taken, h.published[c.start..c.End(|h.published|)]);
    hide Subsequence, Ok, ChanOk;
    if c.missed == 0 {
      SplitAt(h.published, c.start - |c.replay|, c.start, c.End(|h.published|));
    }
  }

  lemma SplitAt(s: seq<Output>, a: nat, b: nat, c: nat)
    requires a <= b <= c <= |s|
    ensures s[a..c] == s[a..b] + s[b..c]
  {
  }

  // An output is missed only by a subscriber whose buffer is full.
  lemma MissedOnlyWhenFull(h: Hub, o: Output, i: nat)
    requires Ok(h) && !h.closed && i < |h.chans| && h.chans[i].subscribed
    ensures var c := Step(h, Publish(o)).chans[i];
            if |h.chans[i].queue| < BUFFER then c.missed == h.chans[i].missed && c.Delivered() == h.chans[i].Delivered() + [o]
            else c.missed == h.chans[i].missed + 1 && c.Delivered() == h.chans[i].Delivered()
  {
    assert ChanOk(h.chans[i], h.published) && HasSubs(h.chans);
    hide Ok, ChanOk, HasSubs;
    Seqs.AppendAssoc(h.chans[i].received, h.chans[i].queue, [o]);
  }

  // Pending is the last of what was published since there was a subscriber, empty while
  // there is one; and no published output is replayed to two subscribers.
  lemma PendingHistory(events: seq<Event>)
    ensures var h := Run(NEW_HUB, events);
            && h.since <= |h.published|
            && h.pending == LastOf(h.published[h.since..]) && |h.pending| <= BUFFER
            && (HasSubs(h.chans) ==> h.pending == [] && !h.closed)
            && (forall i, j, k :: 0 <= i < j < |h.chans| ==>
                  !(h.chans[i].Replayed(k) && h.chans[j].Replayed(k)))
  {
    RunOk(events);
    var h := Run(NEW_HUB, events);
    if HasSubs(h.chans) {
      NothingPending(h);
    }
    hide Run, ChanOk, HasSubs;
  }

  lemma TakeKeepsDeliveries(c: Chan)
    requires c.queue != []
    ensures (c.received + [c.queue[0]]) + c.queue[1..] == c.Delivered()
  {
  }

  lemma NoSubsAtClose(h: Hub)
    requires Ok(h) && h.closed
    ensures !HasSubs(h.chans)
  {
    hide ChanOk, HasSubs, LastOf;
  }

  // What one step of a closed hub leaves: nobody subscribed, old deliveries as they were,
  // and for a late subscriber the pending outputs.
  ghost predicate OnlyReplay(h: Hub, r: Hub) {
    && r.closed && |h.chans| <= |r.chans|
    && (forall i :: 0 <= i < |r.chans| ==>
          && !r.chans[i].subscribed
          && r.chans[i].Delivered() == if i < |h.chans| then h.chans[i].Delivered() else h.pending)
  }

  lemma ReceiveOnlyReplays(h: Hub, k: nat)
    requires h.closed && forall i :: 0 <= i < |h.chans| ==> !h.chans[i].subscribed
    ensures OnlyReplay(h, Step(h, Receive(k)))
  {
    if k < |h.chans| && h.chans[k].queue != [] {
      TakeKeepsDeliveries(h.chans[k]);
    }
  }

  lemma SubscribeOnlyReplays(h: Hub)
    requires h.closed && forall i :: 0 <= i < |h.chans| ==> !h.chans[i].subscribed
    ensures OnlyReplay(h, Step(h, Subscribe))
  {
    assert [] + h.pending == h.pending;
  }

  lemma OthersOnlyReplay(h: Hub, e: Event)
    requires h.closed && forall i :: 0 <= i < |h.chans| ==> !h.chans[i].subscribed
    requires e.Publish? || e.Cancel? || e.Close?
    ensures OnlyReplay(h, Step(h, e))
  {
    hide HasSubs;
  }

  // Once closed, a hub changes no subscriber's deliveries, and a late subscriber gets the
  // pending outputs and nothing else.
  lemma NothingAfterClose(h: Hub, e: Event, i: nat)
    requires Ok(h) && h.closed && i < |Step(h, e).chans|
    ensures var r := Step(h, e);
            && r.closed && !HasSubs(r.chans)
            && r.chans[i].Delivered() == (if i < |h.chans| then h.chans[i].Delivered() else h.pending)
  {
    NoSubsAtClose(h);
    hide Step, Ok, LastOf, Chan.Delivered;
    match e
    case Receive(k) => ReceiveOnlyReplays(h, k);
    case Subscribe => SubscribeOnlyReplays(h);
    case _ => OthersOnlyReplay(h, e);
  }

  // ---------- what each call is for ----------

  // A channel nobody is subscribed to any more stays so and gets nothing.
  lemma LeftIsLeft(h: Hub, e: Event, i: nat)
    requires i < |h.chans| && !h.chans[i].subscribed
    ensures var r := Step(h, e);
            i < |r.chans| && !r.chans[i].subscribed && r.chans[i].Delivered() == h.chans[i].Delivered()
  {
    hide HasSubs, LastOf;
    if e.Receive? && e.i == i && h.chans[i].queue != [] {
      TakeKeepsDeliveries(h.chans[i]);
    }
  }

  lemma {:induction false} LeftForGood(h: Hub, more: seq<Event>, i: nat)
    requires i < |h.chans| && !h.chans[i].subscribed
    ensures var r := Run(h, more);
            i < |r.chans| && !r.chans[i].subscribed && r.chans[i].Delivered() == h.chans[i].Delivered()
  {
    hide Step;
    if more != [] {
      LeftForGood(h, more[..|more| - 1], i);
      LeftIsLeft(Run(h, more[..|more| - 1]), more[|more| - 1], i);
    }
  }

  // Whatever follows a cancel, its channel is never subscribed again and its deliveries
  // never grow.
  lemma CancelIsFinal(h: Hub, more: seq<Event>, i: nat)
    requires i < |h.chans|
    ensures var r := Run(Step(h, Cancel(i)), more);
            i < |r.chans| && !r.chans[i].subscribed && r.chans[i].Delivered() == h.chans[i].Delivered()
    ensures forall k :: 0 <= k < |h.chans| && k != i ==> Step(h, Cancel(i)).chans[k] == h.chans[k]
  {
    LeftForGood(Step(h, Cancel(i)), more, i);
  }

  // The same for every channel after a close.
  lemma CloseIsFinal(h: Hub, more: seq<Event>, i: nat)
    requires !h.closed && i < |h.chans|
    ensures Step(h, Close).closed && Step(h, Close).pending == h.pending
    ensures var r := Run(Step(h, Close), more);
            i < |r.chans| && !r.chans[i].subscribed && r.chans[i].Delivered() == h.chans[i].Delivered()
  {
    LeftForGood(Step(h, Close), more, i);
  }

  // Publishing is recorded while the hub is open, and not afterwards.
  lemma PublishIsRecorded(h: Hub, o: Output)
    ensures Step(h, Publish(o)).published == if h.closed then h.published else h.published + [o]
    ensures |Step(h, Publish(o)).chans| == |h.chans|
  {
  }

  // Subscribing to an open hub subscribes, and hands over the pending outputs.
  lemma SubscribeJoins(h: Hub)
    ensures var r := Step(h, Subscribe);
            && |r.chans| == |h.chans| + 1 && r.chans[..|h.chans|] == h.chans && r.pending == []
            && r.chans[|h.chans|].subscribed == !h.closed && r.chans[|h.chans|].queue == h.pending
            && r.chans[|h.chans|].received == []
  {
    hide HasSubs;
  }

  // Receiving takes the oldest output out of the buffer.
  lemma ReceiveTakesOldest(h: Hub, i: nat)
    requires i < |h.chans| && h.chans[i].queue != []
    ensures var r := Step(h, Receive(i));
            && |r.chans| == |h.chans| && r.chans[i].queue == h.chans[i].queue[1..]
            && r.chans[i].received == h.chans[i].received + [h.chans[i].queue[0]]
            && r.chans[i].subscribed == h.chans[i].subscribed
            && (forall k :: 0 <= k < |h.chans| && k != i ==> r.chans[k] == h.chans[k])
  {
  }

  function Published(outputs: seq<Output>): (events: seq<Event>)
    ensures |events| == |outputs| && forall i :: 0 <= i < |outputs| ==> events[i] == Publish(outputs[i])
  {
    seq(|outputs|, i requires 0 <= i < |outputs| => Publish(outputs[i]))
  }

  lemma {:induction false} PublishedPend(h: Hub, outputs: seq<Output>)
    requires !h.closed && !HasSubs(h.chans) && |h.pending| <= BUFFER
    ensures var r := Run(h, Published(outputs));
            !r.closed && r.chans == h.chans && r.pending == LastOf(h.pending + outputs)
  {
    if outputs == [] {
      assert h.pending + [] == h.pending;
    } else {
      var before, last := outputs[..|outputs| - 1], outputs[|outputs| - 1];
      PublishedPend(h, before);
      assert Published(outputs)[..|outputs| - 1] == Published(before);
      assert h.pending + outputs == (h.pending + before) + [last];
      LastOfGrows(h.pending + before, last);
      hide LastOf, HasSubs;
    }
  }

  // What is published once every subscriber has cancelled goes to the next subscriber: its
  // buffer holds the last at most 64 of what was pending and of these.
  lemma NextSubscriberGetsPending(h: Hub, outputs: seq<Output>)
    requires !h.closed && |h.pending| <= BUFFER && forall i :: 0 <= i < |h.chans| ==> !h.chans[i].subscribed
    ensures var r, all := Step(Run(h, Published(outputs)), Subscribe), h.pending + outputs;
            && |r.chans| == |h.chans| + 1 && r.chans[|h.chans|].subscribed
            && r.chans[|h.chans|].queue == if |all| > 64 then all[|all| - 64..] else all
  {
    PublishedPend(h, outputs);
    SubscribeJoins(Run(h, Published(outputs)));
    hide Run, Step;
  }
}
