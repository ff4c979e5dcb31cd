/** The other half of the refinement: whatever the tunnel can do over packets it can do over
    bytes, by reading and decoding each frame. So what can still be delivered over packets
    can be delivered over bytes. */
module WireProgress {
  import opened Bytes
  import opened Framing
  import opened ReadLoop
  import opened Tunnel
  import opened Wire
  import TunnelOpening
  import TunnelProgress
  import TunnelProofs
  import TunnelRouting

  // ----- steps over bytes -----

  function BSteps(codec: Codec, w: ByteNet, events: seq<ByteEvent>): ByteNet
    decreases |events|
  {
    if events == [] then w else BSteps(codec, BNext(codec, w, events[0]), events[1..])
  }

  lemma {:induction false} BStepsConcat(codec: Codec, w: ByteNet, a: seq<ByteEvent>, b: seq<ByteEvent>)
    ensures BSteps(codec, w, a + b) == BSteps(codec, BSteps(codec, w, a), b)
    decreases |a|
  {
    if a == [] {
      assert a + b == b;
    } else {
      assert (a + b)[1..] == a[1..] + b;
      BStepsConcat(codec, BNext(codec, w, a[0]), a[1..], b);
    }
  }

  lemma {:induction false} BRunSteps(codec: Codec, bulk: bool, proxies: set<string>, events: seq<ByteEvent>, more: seq<ByteEvent>)
    ensures BRun(codec, bulk, proxies, events + more) == BSteps(codec, BRun(codec, bulk, proxies, events), more)
    decreases |more|
  {
    if more == [] {
      assert events + more == events;
    } else {
      var events' := events + [more[0]];
      assert events'[..|events|] == events;
      assert events + more == events' + more[1..];
      BRunSteps(codec, bulk, proxies, events', more[1..]);
    }
  }

  // ----- readers wait only for more -----

  /** A read loop that is not at work has nothing complete in its buffer. */
  ghost predicate Rested(codec: Codec, w: ByteNet) {
    forall dir, channel :: Idle(codec, w.pipes.At(dir, channel))
  }

  ghost predicate Idle(codec: Codec, pipe: Pipe) {
    !pipe.draining ==> Decode(codec, pipe.buffer) == NeedMore
  }

  lemma EmitRests(codec: Codec, pipes: Links<Pipe>, out: Option<Send>)
    requires forall d, c :: Idle(codec, pipes.At(d, c))
    ensures forall d, c :: Idle(codec, BEmit(codec, pipes, out).At(d, c))
  {
    hide Decode;
    if out.Some? {
      var s := out.value;
      forall d, c
        ensures Idle(codec, BEmit(codec, pipes, out).At(d, c))
      {
        assert Idle(codec, pipes.At(d, c));
      }
    }
  }

  lemma WithRests(codec: Codec, pipes: Links<Pipe>, dir: Direction, channel: Channel, pipe: Pipe)
    requires forall d, c :: Idle(codec, pipes.At(d, c))
    requires Idle(codec, pipe)
    ensures forall d, c :: Idle(codec, pipes.With(dir, channel, pipe).At(d, c))
  {
    hide Decode;
    forall d, c
      ensures Idle(codec, pipes.With(dir, channel, pipe).At(d, c))
    {
      assert Idle(codec, pipes.At(d, c));
    }
  }

  /** The byte system with its readers at rest stays so, on streams of frames. */
  lemma KeepsRested(codec: Codec, w: ByteNet, net: Net, e: ByteEvent)
    requires Refines(codec, w, net) && Rested(codec, w)
    ensures Rested(codec, BNext(codec, w, e))
  {
    match e
    case BDo(a) => EmitRests(codec, w.pipes, Act(w.ends, a).out);
    case BRead(dir, channel, n) =>
      var p := w.pipes.At(dir, channel);
      if !p.draining && 0 < n <= READ_BUF_SIZE && n <= |p.wire| {
        WithRests(codec, w.pipes, dir, channel, Pipe(p.wire[n..], p.buffer + p.wire[..n], true));
      }
    case BDecode(dir, channel, connects) => DecodeRests(codec, w, net, dir, channel, connects);
  }

  lemma DecodeRests(codec: Codec, w: ByteNet, net: Net, dir: Direction, channel: Channel, connects: bool)
    requires Refines(codec, w, net) && Rested(codec, w)
    ensures Rested(codec, BNext(codec, w, BDecode(dir, channel, connects)))
  {
    var p, q := w.pipes.At(dir, channel), net.links.At(dir, channel);
    assert Carries(codec, p, q);
    DecodeCarried(codec, p, q);
    hide Decode, Refines, FromMessage, Receive;
    if p.draining {
      match Decode(codec, p.buffer)
      case Got(m, rest) =>
        var pipes := w.pipes.With(dir, channel, p.(buffer := rest));
        WithRests(codec, w.pipes, dir, channel, p.(buffer := rest));
        if FromMessage(m).Some? {
          EmitRests(codec, pipes, Receive(w.ends, dir, channel, FromMessage(m).value, connects).out);
        }
      case NeedMore => WithRests(codec, w.pipes, dir, channel, p.(draining := false));
    }
  }

  // ----- matching a step over packets -----

  /** The events it takes to get the next message of one pipe handled: decode if the loop is at
      work, else read what there is and go on. */
  lemma {:induction false} MatchDeliver(codec: Codec, w: ByteNet, net: Net, dir: Direction, channel: Channel, connects: bool)
    returns (events: seq<ByteEvent>)
    requires Lawful(codec) && Refines(codec, w, net) && Rested(codec, w)
    requires net.links.At(dir, channel) != []
    ensures var w' := BSteps(codec, w, events);
            Refines(codec, w', Next(net, Deliver(dir, channel, connects))) && Rested(codec, w')
    ensures forall e :: e in events ==> !e.BDo?
    decreases |w.pipes.At(dir, channel).wire|, w.pipes.At(dir, channel).draining
  {
    var p := w.pipes.At(dir, channel);
    var e: ByteEvent;
    if p.draining {
      e := BDecode(dir, channel, connects);
      KeepsRested(codec, w, net, e);
      var moved := DecodeOnce(codec, w, net, dir, channel, connects);
      if moved {
        events := [e];
        assert [e][1..] == [];
        return;
      }
    } else {
      var n := ReadOnce(codec, w, net, dir, channel);
      e := BRead(dir, channel, n);
      KeepsRested(codec, w, net, e);
    }
    var rest := MatchDeliver(codec, BNext(codec, w, e), net, dir, channel, connects);
    events := [e] + rest;
  }

  /** A decode either handles the message or ends the turn. */
  lemma DecodeOnce(codec: Codec, w: ByteNet, net: Net, dir: Direction, channel: Channel, connects: bool)
    returns (moved: bool)
    requires Lawful(codec) && Refines(codec, w, net) && w.pipes.At(dir, channel).draining
    ensures var w' := BNext(codec, w, BDecode(dir, channel, connects));
            && Refines(codec, w', if moved then Next(net, Deliver(dir, channel, connects)) else net)
            && (!moved ==> w'.pipes.At(dir, channel) == w.pipes.At(dir, channel).(draining := false))
  {
    var p, q := w.pipes.At(dir, channel), net.links.At(dir, channel);
    assert Carries(codec, p, q);
    DecodeCarried(codec, p, q);
    hide Decode, FromMessage, Receive;
    match Decode(codec, p.buffer)
    case Got(_, rest) =>
      moved := true;
      StepGot(codec, w, net, dir, channel, connects, rest);
    case NeedMore =>
      moved := false;
      StepWaits(codec, w, net, dir, channel);
  }

  /** While a message is on its way and the loop waits, there is something to read. */
  lemma ReadOnce(codec: Codec, w: ByteNet, net: Net, dir: Direction, channel: Channel) returns (n: nat)
    requires Refines(codec, w, net) && Rested(codec, w)
    requires net.links.At(dir, channel) != [] && !w.pipes.At(dir, channel).draining
    ensures var w' := BNext(codec, w, BRead(dir, channel, n));
            Refines(codec, w', net) && |w'.pipes.At(dir, channel).wire| < |w.pipes.At(dir, channel).wire|
  {
    var p, q := w.pipes.At(dir, channel), net.links.At(dir, channel);
    assert Carries(codec, p, q) && Idle(codec, p);
    assert p.wire != [] by {
      Unread(codec, p, q);
    }
    n := if |p.wire| <= READ_BUF_SIZE then |p.wire| else READ_BUF_SIZE;
    StepRead(codec, w, net, dir, channel, n);
    hide Refines, Carries, Decode;
  }

  lemma Unread(codec: Codec, p: Pipe, q: seq<Packet>)
    requires Carries(codec, p, q) && q != [] && Decode(codec, p.buffer) == NeedMore
    ensures p.wire != []
  {
    var ms := Messages(q);
    forall m | m in ms
      ensures Frames(codec, m)
    {
      var i :| 0 <= i < |ms| && ms[i] == m;
      assert q[i] in q;
    }
    DecodeStreamPrefix(codec, ms, p.buffer, p.wire);
    assert |p.buffer| + |p.wire| == |EncodeAll(codec, ms)| >= |FrameOf(codec, ms[0])|;
  }

  /** One step over packets. */
  lemma MatchStep(codec: Codec, w: ByteNet, net: Net, e: Event) returns (events: seq<ByteEvent>)
    requires Lawful(codec) && Refines(codec, w, net) && Rested(codec, w)
    requires e.Do? ==> ActionOk(codec, e.action)
    ensures var w' := BSteps(codec, w, events);
            Refines(codec, w', Next(net, e)) && Rested(codec, w')
    ensures EventsOk(codec, events)
  {
    match e
    case Do(a) =>
      events := [BDo(a)];
      assert [BDo(a)][1..] == [];
      StepDo(codec, w, net, a);
      KeepsRested(codec, w, net, BDo(a));
    case Deliver(dir, channel, connects) =>
      if net.links.At(dir, channel) == [] {
        events := [];
      } else {
        events := MatchDeliver(codec, w, net, dir, channel, connects);
      }
  }

  lemma {:induction false} MatchSteps(codec: Codec, w: ByteNet, net: Net, trace: seq<Event>) returns (events: seq<ByteEvent>)
    requires Lawful(codec) && Refines(codec, w, net) && Rested(codec, w)
    requires forall e :: e in trace && e.Do? ==> ActionOk(codec, e.action)
    ensures Refines(codec, BSteps(codec, w, events), TunnelProgress.Steps(net, trace)) && Rested(codec, BSteps(codec, w, events))
    ensures EventsOk(codec, events)
    decreases |trace|
  {
    if trace == [] {
      events := [];
    } else {
      assert trace[0] in trace && forall e :: e in trace[1..] ==> e in trace;
      var first := MatchStep(codec, w, net, trace[0]);
      var rest := MatchSteps(codec, BSteps(codec, w, first), Next(net, trace[0]), trace[1..]);
      BStepsConcat(codec, w, first, rest);
      events := first + rest;
    }
  }

  // ----- both halves -----

  lemma StartRefines(codec: Codec, bulk: bool, proxies: set<string>)
    ensures Refines(codec, BInitial(bulk, proxies), Initial(bulk, proxies)) && Rested(codec, BInitial(bulk, proxies))
  {
    TunnelProofs.RunInv(bulk, proxies, []);
    assert Messages([]) == [];
    assert Decode(codec, []) == NeedMore;
  }

  /** Every run over packets is matched by a run over bytes. */
  lemma PacketsRefineBytes(codec: Codec, bulk: bool, proxies: set<string>, trace: seq<Event>) returns (events: seq<ByteEvent>)
    requires Lawful(codec) && forall e :: e in trace && e.Do? ==> ActionOk(codec, e.action)
    ensures EventsOk(codec, events)
    ensures Refines(codec, BRun(codec, bulk, proxies, events), Run(bulk, proxies, trace))
  {
    StartRefines(codec, bulk, proxies);
    TunnelProgress.RunSteps(bulk, proxies, [], trace);
    assert [] + trace == trace;
    events := MatchSteps(codec, BInitial(bulk, proxies), Initial(bulk, proxies), trace);
    BRunSteps(codec, bulk, proxies, [], events);
    assert [] + events == events;
  }

  lemma {:induction false} RunRested(codec: Codec, bulk: bool, proxies: set<string>, events: seq<ByteEvent>)
    requires Lawful(codec) && EventsOk(codec, events)
    ensures Rested(codec, BRun(codec, bulk, proxies, events))
    decreases |events|
  {
    if events == [] {
      StartRefines(codec, bulk, proxies);
    } else {
      var before, e := events[..|events| - 1], events[|events| - 1];
      assert forall x :: x in before ==> x in events;
      RunRested(codec, bulk, proxies, before);
      var trace := BytesRefinePackets(codec, bulk, proxies, before);
      KeepsRested(codec, BRun(codec, bulk, proxies, before), Run(bulk, proxies, trace), e);
    }
  }

  // ----- progress over bytes -----

  /** The packets that a state over bytes holds, read off its pipes. */
  function NetOf(codec: Codec, w: ByteNet): Net {
    Net(w.ends, Links(PacketsOn(codec, w.pipes.At(Up, Control)), PacketsOn(codec, w.pipes.At(Up, Bulk)),
                      PacketsOn(codec, w.pipes.At(Down, Control)), PacketsOn(codec, w.pipes.At(Down, Bulk))))
  }

  function PacketsOn(codec: Codec, pipe: Pipe): seq<Packet> {
    Packets(Drain(codec, pipe.buffer + pipe.wire))
  }

  lemma NetOfRefined(codec: Codec, w: ByteNet, net: Net)
    requires Refines(codec, w, net)
    ensures NetOf(codec, w) == net
  {
    forall dir, channel
      ensures PacketsOn(codec, w.pipes.At(dir, channel)) == net.links.At(dir, channel)
    {
      assert Carries(codec, w.pipes.At(dir, channel), net.links.At(dir, channel));
      DrainEncoded(codec, net.links.At(dir, channel));
    }
    hide Refines;
    assert NetOf(codec, w).links == Links(net.links.At(Up, Control), net.links.At(Up, Bulk),
                                          net.links.At(Down, Control), net.links.At(Down, Bulk));
  }

  /** After every run over bytes, however cut into reads: everything the user of a connection has
      sent can still reach the local service by further reads, under the conditions under which
      it can over packets. */
  lemma CanDeliverToServiceOnBytes(codec: Codec, bulk: bool, proxies: set<string>, events: seq<ByteEvent>, id: Id)
    returns (more: seq<ByteEvent>)
    requires Lawful(codec) && EventsOk(codec, events)
    requires TunnelProgress.CanReachService(NetOf(codec, BRun(codec, bulk, proxies, events)), id)
    ensures EventsOk(codec, more)
    ensures var w, w' := BRun(codec, bulk, proxies, events), BRun(codec, bulk, proxies, events + more);
            && id in w'.ends.client.locals
            && w'.ends.client.locals[id].toService == w.ends.server.conns[id].fromUser
  {
    var trace := BytesRefinePackets(codec, bulk, proxies, events);
    var w, net := BRun(codec, bulk, proxies, events), Run(bulk, proxies, trace);
    NetOfRefined(codec, w, net);
    RunRested(codec, bulk, proxies, events);
    TunnelProofs.RunInv(bulk, proxies, trace);
    TunnelRouting.RunRouted(bulk, proxies, trace);
    TunnelOpening.RunOpenings(bulk, proxies, trace);
    var steps := TunnelProgress.ReachService(net, id);
    more := MatchSteps(codec, w, net, steps);
    BRunSteps(codec, bulk, proxies, events, more);
  }

  /** And everything the service has sent can still reach the user. */
  lemma CanDeliverToUserOnBytes(codec: Codec, bulk: bool, proxies: set<string>, events: seq<ByteEvent>, id: Id)
    returns (more: seq<ByteEvent>)
    requires Lawful(codec) && EventsOk(codec, events)
    requires TunnelProgress.CanFlowUp(NetOf(codec, BRun(codec, bulk, proxies, events)), id)
    ensures EventsOk(codec, more)
    ensures var w, w' := BRun(codec, bulk, proxies, events), BRun(codec, bulk, proxies, events + more);
            && id in w'.ends.server.conns
            && w'.ends.server.conns[id].toUser == w.ends.client.locals[id].fromService
  {
    var trace := BytesRefinePackets(codec, bulk, proxies, events);
    var w, net := BRun(codec, bulk, proxies, events), Run(bulk, proxies, trace);
    NetOfRefined(codec, w, net);
    RunRested(codec, bulk, proxies, events);
    TunnelProgress.RunRefusals(bulk, proxies, trace);
    var steps := TunnelProgress.ReachUser(net, id);
    more := MatchSteps(codec, w, net, steps);
    BRunSteps(codec, bulk, proxies, events, more);
  }
}
