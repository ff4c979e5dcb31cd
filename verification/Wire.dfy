/** The tunnel over byte streams: packets are framed, cut into arbitrary reads, and taken
    off the buffers by the read loops. It refines the tunnel over packet links. */
module Wire {
  import opened Bytes
  import opened Framing
  import opened ReadLoop
  import opened Tunnel
  import TunnelProofs
  import Uuid

  // ----- packets as messages -----

  function ToMessage(p: Packet): Message {
    match p
    case NewConn(id, proxy) => Message(Text("new_conn"), map["proxy_name" := Text(proxy), "conn_id" := Text(id)])
    case InitConn(id) => Message(Text("init_conn"), map["conn_id" := Text(id)])
    case Data(id, data) => DataMessage(id, data)
    case Close(id) => Message(Text("close"), map["conn_id" := Text(id)])
  }

  /** `message.payload.get("conn_id")` and the dispatch on the type; messages of other
      features, and ones without these fields, are None. */
  function FromMessage(m: Message): Option<Packet> {
    if !m.kind.Text? || "conn_id" !in m.payload || !m.payload["conn_id"].Text? then None
    else
      var id := m.payload["conn_id"].text;
      if m.kind.text == "data" then
        if "data" in m.payload && m.payload["data"].Raw? then Some(Data(id, m.payload["data"].bytes)) else None
      else if m.kind.text == "new_conn" then
        if "proxy_name" in m.payload && m.payload["proxy_name"].Text? then Some(NewConn(id, m.payload["proxy_name"].text)) else None
      else if m.kind.text == "init_conn" then Some(InitConn(id))
      else if m.kind.text == "close" then Some(Close(id))
      else None
  }

  lemma FromToMessage(p: Packet)
    ensures FromMessage(ToMessage(p)) == Some(p)
  {
  }

  /** What is written for each packet: the octet of its type and its fields, or id and data. */
  lemma PacketFrames(codec: Codec, p: Packet)
    requires Encode(codec, ToMessage(p)).Frame?
    ensures var f := Encode(codec, ToMessage(p)).bytes;
            |f| >= 8 &&
            match p
            case NewConn(id, proxy) =>
              && FrameHolds(f, 0x04, f[8..])
              && codec.dumps(map["type" := Text("new_conn"), "proxy_name" := Text(proxy), "conn_id" := Text(id)]) == Some(f[8..])
            case InitConn(id) =>
              FrameHolds(f, 0x05, f[8..]) && codec.dumps(map["type" := Text("init_conn"), "conn_id" := Text(id)]) == Some(f[8..])
            case Close(id) =>
              FrameHolds(f, 0x09, f[8..]) && codec.dumps(map["type" := Text("close"), "conn_id" := Text(id)]) == Some(f[8..])
            case Data(id, data) =>
              && FrameHolds(f, 0x0A, f[8..]) && |f| >= 24 && f[24..] == data
              && (Uuid.Parse(id).Some? ==> f[8..24] == Uuid.Parse(id).value)
  {
    hide Encode, FrameHolds;
    var m := ToMessage(p);
    match p
    case NewConn(id, proxy) =>
      ControlFrame(codec, m, 0x04, map["type" := Text("new_conn"), "proxy_name" := Text(proxy), "conn_id" := Text(id)]);
    case InitConn(id) => ControlFrame(codec, m, 0x05, map["type" := Text("init_conn"), "conn_id" := Text(id)]);
    case Close(id) => ControlFrame(codec, m, 0x09, map["type" := Text("close"), "conn_id" := Text(id)]);
    case Data(id, data) => DataEncodesIff(codec, id, data);
  }

  lemma ControlFrame(codec: Codec, m: Message, code: byte, fields: Payload)
    requires m.kind.Text? && m.kind.text in ["new_conn", "init_conn", "close"] && Encode(codec, m).Frame?
    requires code == if m.kind.text == "new_conn" then 0x04 else if m.kind.text == "init_conn" then 0x05 else 0x09
    requires fields == map["type" := m.kind] + m.payload
    ensures var f := Encode(codec, m).bytes;
            |f| >= 8 && FrameHolds(f, code, f[8..]) && codec.dumps(fields) == Some(f[8..])
  {
    ControlEncodesIff(codec, m);
    SessionCodes();
    DataCodes();
    var f, text := Encode(codec, m).bytes, codec.dumps(fields).value;
    var found: byte :| TypeOf(found) == Some(m.kind.text) && FrameHolds(f, found, text);
    CodeOfTypeOf(found, m.kind.text);
    CodeOfTypeOf(code, m.kind.text);
    hide TypeOf, CodeOf, Encode;
  }

  // ----- the system over bytes -----

  /** One direction of one connection: bytes on the way, the reader's buffer, and whether
      its inner loop is at work (handlers may wait between two messages of one read). */
  datatype Pipe = Pipe(wire: seq<byte>, buffer: seq<byte>, draining: bool)

  datatype ByteNet = ByteNet(ends: Ends, pipes: Links<Pipe>)

  datatype ByteEvent =
    | BDo(action: Action)
    | BRead(dir: Direction, channel: Channel, n: nat)
    | BDecode(dir: Direction, channel: Channel, connects: bool)

  /** Writes a packet; one that does not encode raises before anything is written. */
  function BEmit(codec: Codec, pipes: Links<Pipe>, out: Option<Send>): Links<Pipe> {
    match out
    case None => pipes
    case Some(s) =>
      var p := pipes.At(s.dir, s.channel);
      pipes.With(s.dir, s.channel, p.(wire := p.wire + FrameOf(codec, ToMessage(s.packet))))
  }

  function BNext(codec: Codec, net: ByteNet, e: ByteEvent): ByteNet {
    match e
    case BDo(a) =>
      var r := Act(net.ends, a);
      ByteNet(r.state, BEmit(codec, net.pipes, r.out))
    case BRead(dir, channel, n) =>
      var p := net.pipes.At(dir, channel);
      if p.draining || !(0 < n <= READ_BUF_SIZE && n <= |p.wire|) then net
      else net.(pipes := net.pipes.With(dir, channel, Pipe(p.wire[n..], p.buffer + p.wire[..n], true)))
    case BDecode(dir, channel, connects) =>
      var p := net.pipes.At(dir, channel);
      if !p.draining then net
      else
        match Decode(codec, p.buffer)
        case Got(m, rest) =>
          var pipes := net.pipes.With(dir, channel, p.(buffer := rest));
          (match FromMessage(m)
           case None => net.(pipes := pipes)
           case Some(packet) =>
             var r := Receive(net.ends, dir, channel, packet, connects);
             ByteNet(r.state, BEmit(codec, pipes, r.out)))
        case Dropped(rest) => net.(pipes := net.pipes.With(dir, channel, p.(buffer := rest, draining := false)))
        case _ => net.(pipes := net.pipes.With(dir, channel, p.(draining := false)))
  }

  /** Whatever is in the buffer, decode by decode the reader does one turn of its loop: it goes on
      while there are messages, known to the tunnel or not, and stops with the buffer of that turn. */
  lemma DecodeFollowsLoop(codec: Codec, net: ByteNet, dir: Direction, channel: Channel, connects: bool)
    requires net.pipes.At(dir, channel).draining
    ensures var p, p' := net.pipes.At(dir, channel), BNext(codec, net, BDecode(dir, channel, connects)).pipes.At(dir, channel);
            && p'.wire == p.wire
            && (p'.draining <==> InnerLoop(codec, p.buffer).messages != [])
            && (if p'.draining then |p'.buffer| < |p.buffer| && InnerLoop(codec, p'.buffer).buffer == InnerLoop(codec, p.buffer).buffer
                else p'.buffer == InnerLoop(codec, p.buffer).buffer)
  {
    hide Receive, Act;
    match Decode(codec, net.pipes.At(dir, channel).buffer)
    case Got(m, rest) =>
      if FromMessage(m).Some? {
        SentBackwards(net.ends, dir, channel, FromMessage(m).value, connects);
      }
    case _ =>
  }

  /** What a handler sends goes the other way. */
  lemma SentBackwards(ends: Ends, dir: Direction, channel: Channel, p: Packet, connects: bool)
    ensures var out := Receive(ends, dir, channel, p, connects).out; out.Some? ==> out.value.dir != dir
  {
  }

  function BInitial(bulk: bool, proxies: set<string>): ByteNet {
    var empty := Pipe([], [], false);
    ByteNet(Initial(bulk, proxies).ends, Links(empty, empty, empty, empty))
  }

  function BRun(codec: Codec, bulk: bool, proxies: set<string>, events: seq<ByteEvent>): ByteNet {
    if events == [] then BInitial(bulk, proxies)
    else BNext(codec, BRun(codec, bulk, proxies, events[..|events| - 1]), events[|events| - 1])
  }

  // ----- what can be framed -----

  ghost predicate Sendable(codec: Codec, p: Packet) {
    match p
    case Data(id, data) => Uuid.IsCanonical(id) && Uuid.UUID_SIZE + |data| < TWO_TO_32
    case _ => Encode(codec, ToMessage(p)).Frame?
  }

  /** Connection ids come from uuid4, and the control messages about them encode. */
  ghost predicate IdOk(codec: Codec, id: Id) {
    && Uuid.IsCanonical(id)
    && Sendable(codec, InitConn(id))
    && Sendable(codec, Close(id))
  }

  ghost predicate ActionOk(codec: Codec, a: Action) {
    a.AUserConnects? ==>
      IdOk(codec, a.id) && Sendable(codec, NewConn(a.id, a.proxy)) && Uuid.UUID_SIZE + |a.head| < TWO_TO_32
  }

  ghost predicate EventsOk(codec: Codec, events: seq<ByteEvent>) {
    forall e :: e in events && e.BDo? ==> ActionOk(codec, e.action)
  }

  ghost predicate IdsOk(codec: Codec, ends: Ends) {
    forall id :: id in ends.server.conns ==>
      IdOk(codec, id) && Uuid.UUID_SIZE + |ends.server.conns[id].prepend| < TWO_TO_32
  }

  lemma SendableFrames(codec: Codec, p: Packet)
    requires Lawful(codec) && Sendable(codec, p)
    ensures Frames(codec, ToMessage(p))
  {
    var m := ToMessage(p);
    match p
    case Data(id, data) =>
      forall rest: seq<byte>
        ensures Encode(codec, m).Frame? && Decode(codec, Encode(codec, m).bytes + rest) == Got(m, rest)
      {
        DataRoundTrip(codec, id, data, rest);
      }
    case _ =>
      forall rest: seq<byte>
        ensures Decode(codec, Encode(codec, m).bytes + rest) == Got(m, rest)
      {
        ControlRoundTrip(codec, m, rest);
      }
  }

  /** An entry whose head has not grown keeps the ids sendable. */
  lemma EntrySendable(codec: Codec, ends: Ends, id: Id)
    requires IdsOk(codec, ends)
    ensures id in ends.server.conns ==>
              && IdOk(codec, id) && Uuid.UUID_SIZE + |ends.server.conns[id].prepend| < TWO_TO_32
              && forall c: Conn :: |c.prepend| <= |ends.server.conns[id].prepend|
                   ==> IdsOk(codec, TunnelProofs.WithConn(ends, id, c))
  {
  }

  lemma ActKeepsIds(codec: Codec, ends: Ends, a: Action)
    requires IdsOk(codec, ends) && ActionOk(codec, a)
    ensures IdsOk(codec, Act(ends, a).state)
  {
    match a
    case AUserConnects(_, _, _) =>
    case AUserSends(id, _) => EntrySendable(codec, ends, id);
    case AForwardStarts(id) => EntrySendable(codec, ends, id);
    case AForwardTimesOut(id) => EntrySendable(codec, ends, id);
    case AForwardReads(id, _) => EntrySendable(codec, ends, id);
    case AForwardEnds(id) => EntrySendable(codec, ends, id);
    case AServerCloses(id) => EntrySendable(codec, ends, id);
    case _ => assert Act(ends, a).state.server == ends.server;
  }

  lemma ActSendable(codec: Codec, net: Net, a: Action)
    requires Inv(net) && IdsOk(codec, net.ends) && ActionOk(codec, a)
    ensures var r := Act(net.ends, a);
            IdsOk(codec, r.state) && (r.out.Some? ==> Sendable(codec, r.out.value.packet))
  {
    hide Encode;
    ActKeepsIds(codec, net.ends, a);
    match a
    case AForwardStarts(id) => EntrySendable(codec, net.ends, id);
    case AForwardReads(id, _) => EntrySendable(codec, net.ends, id);
    case ALocalReads(id, _) => assert id in net.ends.client.locals ==> LocalOk(net.ends, id);
    case _ =>
  }

  lemma ServerKeepsIds(codec: Codec, ends: Ends, channel: Channel, p: Packet)
    requires IdsOk(codec, ends)
    ensures IdsOk(codec, ends.(server := ServerReceives(ends.server, channel, p)))
  {
    hide IdOk;
    EntrySendable(codec, ends, p.id);
  }

  lemma ClientAnswers(codec: Codec, ends: Ends, channel: Channel, p: Packet, connects: bool)
    requires IdsOk(codec, ends) && PacketOk(ends, Down, channel, p)
    ensures var e := ClientReceives(ends.client, channel, p, connects);
            e.out.Some? ==> Sendable(codec, e.out.value.packet)
  {
    hide Encode;
    assert p.NewConn? ==> IdOk(codec, p.id);
  }

  lemma ReceiveSendable(codec: Codec, net: Net, dir: Direction, channel: Channel, p: Packet, connects: bool)
    requires Inv(net) && IdsOk(codec, net.ends) && PacketOk(net.ends, dir, channel, p)
    ensures var r := Receive(net.ends, dir, channel, p, connects);
            IdsOk(codec, r.state) && (r.out.Some? ==> Sendable(codec, r.out.value.packet))
  {
    hide Sendable, IdOk, ServerReceives, ClientReceives;
    match dir
    case Up => ServerKeepsIds(codec, net.ends, channel, p);
    case Down => ClientAnswers(codec, net.ends, channel, p, connects);
  }

  // ----- the refinement -----

  function Messages(q: seq<Packet>): (ms: seq<Message>)
    ensures |ms| == |q| && forall i :: 0 <= i < |q| ==> ms[i] == ToMessage(q[i])
  {
    if q == [] then [] else [ToMessage(q[0])] + Messages(q[1..])
  }

  lemma MessagesSnoc(q: seq<Packet>, p: Packet)
    ensures Messages(q + [p]) == Messages(q) + [ToMessage(p)]
  {
  }

  ghost predicate Carries(codec: Codec, pipe: Pipe, q: seq<Packet>) {
    && pipe.buffer + pipe.wire == EncodeAll(codec, Messages(q))
    && forall p :: p in q ==> Frames(codec, ToMessage(p))
  }

  ghost predicate Refines(codec: Codec, w: ByteNet, net: Net) {
    && w.ends == net.ends
    && Inv(net)
    && IdsOk(codec, net.ends)
    && forall dir, channel :: Carries(codec, w.pipes.At(dir, channel), net.links.At(dir, channel))
  }

  lemma EmitCarries(codec: Codec, pipe: Pipe, q: seq<Packet>, p: Packet)
    requires Carries(codec, pipe, q) && Frames(codec, ToMessage(p))
    ensures Carries(codec, pipe.(wire := pipe.wire + FrameOf(codec, ToMessage(p))), q + [p])
  {
    MessagesSnoc(q, p);
    EncodeAllSnoc(codec, Messages(q), ToMessage(p));
    Assoc(pipe.buffer, pipe.wire, FrameOf(codec, ToMessage(p)));
  }

  lemma EmitRefines(codec: Codec, pipes: Links<Pipe>, links: Links<seq<Packet>>, out: Option<Send>)
    requires forall dir, channel :: Carries(codec, pipes.At(dir, channel), links.At(dir, channel))
    requires out.Some? ==> Frames(codec, ToMessage(out.value.packet))
    ensures forall dir, channel :: Carries(codec, BEmit(codec, pipes, out).At(dir, channel), Emit(links, out).At(dir, channel))
  {
    if out.Some? {
      var s := out.value;
      EmitCarries(codec, pipes.At(s.dir, s.channel), links.At(s.dir, s.channel), s.packet);
      forall dir, channel
        ensures Carries(codec, BEmit(codec, pipes, out).At(dir, channel), Emit(links, out).At(dir, channel))
      {
        if (dir, channel) != (s.dir, s.channel) {
          assert Carries(codec, pipes.At(dir, channel), links.At(dir, channel));
        }
      }
    }
  }

  lemma WithCarries(codec: Codec, pipes: Links<Pipe>, links: Links<seq<Packet>>, dir: Direction, channel: Channel, pipe: Pipe, q: seq<Packet>)
    requires forall d, c :: Carries(codec, pipes.At(d, c), links.At(d, c))
    requires Carries(codec, pipe, q)
    ensures forall d, c :: Carries(codec, pipes.With(dir, channel, pipe).At(d, c), links.With(dir, channel, q).At(d, c))
  {
    forall d, c
      ensures Carries(codec, pipes.With(dir, channel, pipe).At(d, c), links.With(dir, channel, q).At(d, c))
    {
      if (d, c) != (dir, channel) {
        assert Carries(codec, pipes.At(d, c), links.At(d, c));
      }
    }
  }

  lemma WithSame<T>(links: Links<T>, dir: Direction, channel: Channel)
    ensures links.With(dir, channel, links.At(dir, channel)) == links
  {
  }

  /** Decoding the buffer of a pipe takes off exactly the first packet, or waits. */
  lemma DecodeCarried(codec: Codec, pipe: Pipe, q: seq<Packet>)
    requires Carries(codec, pipe, q)
    ensures match Decode(codec, pipe.buffer)
            case NeedMore => true
            case Got(m, rest) => q != [] && FromMessage(m) == Some(q[0]) && Carries(codec, pipe.(buffer := rest), q[1..])
            case _ => false
  {
    var ms := Messages(q);
    forall m | m in ms
      ensures Frames(codec, m)
    {
      var i :| 0 <= i < |ms| && ms[i] == m;
      assert q[i] in q;
    }
    DecodeStreamPrefix(codec, ms, pipe.buffer, pipe.wire);
    if q != [] {
      FromToMessage(q[0]);
      assert ms[1..] == Messages(q[1..]);
    }
  }

  lemma StepDo(codec: Codec, w: ByteNet, net: Net, a: Action)
    requires Lawful(codec) && Refines(codec, w, net) && ActionOk(codec, a)
    ensures Refines(codec, BNext(codec, w, BDo(a)), Next(net, Do(a)))
  {
    var r := Act(net.ends, a);
    ActSendable(codec, net, a);
    if r.out.Some? {
      SendableFrames(codec, r.out.value.packet);
    }
    EmitRefines(codec, w.pipes, net.links, r.out);
    TunnelProofs.KeepsInv(net, Do(a));
  }

  lemma StepRead(codec: Codec, w: ByteNet, net: Net, dir: Direction, channel: Channel, n: nat)
    requires Refines(codec, w, net)
    ensures Refines(codec, BNext(codec, w, BRead(dir, channel, n)), net)
  {
    hide EncodeAll, Inv, IdsOk;
    var p, q := w.pipes.At(dir, channel), net.links.At(dir, channel);
    assert Carries(codec, p, q);
    if !p.draining && 0 < n <= READ_BUF_SIZE && n <= |p.wire| {
      var p' := Pipe(p.wire[n..], p.buffer + p.wire[..n], true);
      TunnelProofs.TakeMore(p.buffer, p.wire, n);
      WithCarries(codec, w.pipes, net.links, dir, channel, p', q);
      WithSame(net.links, dir, channel);
    }
  }

  lemma GotSendable(codec: Codec, net: Net, dir: Direction, channel: Channel, connects: bool)
    requires Lawful(codec) && Inv(net) && IdsOk(codec, net.ends) && net.links.At(dir, channel) != []
    ensures var r := Receive(net.ends, dir, channel, net.links.At(dir, channel)[0], connects);
            IdsOk(codec, r.state) && (r.out.Some? ==> Frames(codec, ToMessage(r.out.value.packet)))
  {
    var p := net.links.At(dir, channel)[0];
    TunnelProofs.PopPackets(net.ends, net.links, dir, channel);
    ReceiveSendable(codec, net, dir, channel, p, connects);
    var r := Receive(net.ends, dir, channel, p, connects);
    if r.out.Some? {
      SendableFrames(codec, r.out.value.packet);
    }
  }

  /** The pipes after one packet was taken off and its answer was written. */
  lemma PopEmitCarries(codec: Codec, pipes: Links<Pipe>, links: Links<seq<Packet>>, dir: Direction, channel: Channel,
                       pipe: Pipe, q: seq<Packet>, out: Option<Send>)
    requires forall d, c :: Carries(codec, pipes.At(d, c), links.At(d, c))
    requires Carries(codec, pipe, q)
    requires out.Some? ==> Frames(codec, ToMessage(out.value.packet))
    ensures forall d, c :: Carries(codec, BEmit(codec, pipes.With(dir, channel, pipe), out).At(d, c),
                                   Emit(links.With(dir, channel, q), out).At(d, c))
  {
    WithCarries(codec, pipes, links, dir, channel, pipe, q);
    EmitRefines(codec, pipes.With(dir, channel, pipe), links.With(dir, channel, q), out);
  }

  lemma NextDelivers(net: Net, dir: Direction, channel: Channel, connects: bool)
    requires net.links.At(dir, channel) != []
    ensures var q := net.links.At(dir, channel);
            var r := Receive(net.ends, dir, channel, q[0], connects);
            Next(net, Deliver(dir, channel, connects)) == Net(r.state, Emit(net.links.With(dir, channel, q[1..]), r.out))
  {
  }

  lemma StepGot(codec: Codec, w: ByteNet, net: Net, dir: Direction, channel: Channel, connects: bool, rest: seq<byte>)
    requires Lawful(codec) && Refines(codec, w, net)
    requires var p, q := w.pipes.At(dir, channel), net.links.At(dir, channel);
             q != [] && Carries(codec, p.(buffer := rest), q[1..])
    ensures var p, q := w.pipes.At(dir, channel), net.links.At(dir, channel);
            var r := Receive(net.ends, dir, channel, q[0], connects);
            Refines(codec, ByteNet(r.state, BEmit(codec, w.pipes.With(dir, channel, p.(buffer := rest)), r.out)),
                    Next(net, Deliver(dir, channel, connects)))
  {
    var p, q := w.pipes.At(dir, channel), net.links.At(dir, channel);
    var r := Receive(net.ends, dir, channel, q[0], connects);
    var net' := Net(r.state, Emit(net.links.With(dir, channel, q[1..]), r.out));
    GotSendable(codec, net, dir, channel, connects);
    NextDelivers(net, dir, channel, connects);
    assert Inv(net') by {
      TunnelProofs.KeepsInv(net, Deliver(dir, channel, connects));
    }
    PopEmitCarries(codec, w.pipes, net.links, dir, channel, p.(buffer := rest), q[1..], r.out);
  }

  lemma StepWaits(codec: Codec, w: ByteNet, net: Net, dir: Direction, channel: Channel)
    requires Refines(codec, w, net)
    ensures Refines(codec, w.(pipes := w.pipes.With(dir, channel, w.pipes.At(dir, channel).(draining := false))), net)
  {
    var p, q := w.pipes.At(dir, channel), net.links.At(dir, channel);
    assert Carries(codec, p, q);
    WithCarries(codec, w.pipes, net.links, dir, channel, p.(draining := false), q);
    WithSame(net.links, dir, channel);
  }

  lemma StepDecode(codec: Codec, w: ByteNet, net: Net, dir: Direction, channel: Channel, connects: bool) returns (moved: bool)
    requires Lawful(codec) && Refines(codec, w, net)
    ensures Refines(codec, BNext(codec, w, BDecode(dir, channel, connects)),
                    if moved then Next(net, Deliver(dir, channel, connects)) else net)
  {
    var p, q := w.pipes.At(dir, channel), net.links.At(dir, channel);
    moved := false;
    assert Carries(codec, p, q);
    if p.draining {
      DecodeCarried(codec, p, q);
      match Decode(codec, p.buffer)
      case Got(_, rest) =>
        moved := true;
        StepGot(codec, w, net, dir, channel, connects, rest);
      case NeedMore =>
        StepWaits(codec, w, net, dir, channel);
    }
  }

  /** Every run over bytes, cut into reads in any way, follows a run over packets. */
  lemma {:induction false} BytesRefinePackets(codec: Codec, bulk: bool, proxies: set<string>, events: seq<ByteEvent>)
    returns (trace: seq<Event>)
    requires Lawful(codec) && EventsOk(codec, events)
    ensures Refines(codec, BRun(codec, bulk, proxies, events), Run(bulk, proxies, trace))
    decreases |events|
  {
    if events == [] {
      trace := [];
      TunnelProofs.RunInv(bulk, proxies, []);
      assert Messages([]) == [];
    } else {
      var before, e := events[..|events| - 1], events[|events| - 1];
      assert e in events;
      trace := BytesRefinePackets(codec, bulk, proxies, before);
      var w, net := BRun(codec, bulk, proxies, before), Run(bulk, proxies, trace);
      var next: Option<Event> := None;
      match e {
        case BDo(a) =>
          StepDo(codec, w, net, a);
          next := Some(Do(a));
        case BRead(dir, channel, n) =>
          StepRead(codec, w, net, dir, channel, n);
        case BDecode(dir, channel, connects) =>
          var moved := StepDecode(codec, w, net, dir, channel, connects);
          next := if moved then Some(Deliver(dir, channel, connects)) else None;
      }
      if next.Some? {
        assert (trace + [next.value])[..|trace|] == trace;
        trace := trace + [next.value];
      }
    }
  }

  // ----- transparency on bytes -----

  /** The packets that a byte string reads as. */
  function Packets(ms: seq<Message>): seq<Packet> {
    if ms == [] then []
    else
      match FromMessage(ms[0])
      case None => Packets(ms[1..])
      case Some(p) => [p] + Packets(ms[1..])
  }

  lemma {:induction false} DrainEncoded(codec: Codec, q: seq<Packet>)
    requires forall p :: p in q ==> Frames(codec, ToMessage(p))
    ensures Packets(Drain(codec, EncodeAll(codec, Messages(q)))) == q
  {
    var ms := Messages(q);
    if q == [] {
      assert Decode(codec, []) == NeedMore;
    } else {
      var m, rest := ToMessage(q[0]), EncodeAll(codec, ms[1..]);
      assert Messages(q[1..]) == ms[1..];
      assert Frames(codec, m);
      assert Decode(codec, FrameOf(codec, m) + rest) == Got(m, rest);
      FromToMessage(q[0]);
      DrainEncoded(codec, q[1..]);
      var d := Drain(codec, EncodeAll(codec, ms));
      assert d == [m] + Drain(codec, rest) && d[1..] == Drain(codec, rest);
    }
  }

  /** Bytes of one connection that are framed and not yet handed on, read off the pipe. */
  function BytesInFlight(codec: Codec, pipe: Pipe, id: Id): seq<byte> {
    InFlight(Packets(Drain(codec, pipe.buffer + pipe.wire)), id)
  }

  /** End-to-end transparency down to bytes, for one connection. If the client has taken it on,
      delivered is a prefix of sent both ways, and delivered ++ framed but not handed on ++ not yet
      framed is all that was sent; if not, nothing of it has left either end. */
  ghost predicate TransparentOnBytes(codec: Codec, w: ByteNet, bulk: bool, id: Id) {
    && (id in w.ends.client.locals ==>
      && id in w.ends.server.conns
      && var c, l := w.ends.server.conns[id], w.ends.client.locals[id];
         && l.toService <= c.fromUser
         && c.toUser <= l.fromService
         && (l.inPool ==> l.toService + BytesInFlight(codec, w.pipes.At(Down, Home(bulk)), id) + Pending(c) == c.fromUser)
         && (c.inPool ==> c.toUser + BytesInFlight(codec, w.pipes.At(Up, Home(bulk)), id) + l.unread == l.fromService))
    && (id in w.ends.server.conns && id !in w.ends.client.locals ==>
      && w.ends.server.conns[id].toUser == []
      && Pending(w.ends.server.conns[id]) == w.ends.server.conns[id].fromUser
      && forall dir, channel :: BytesInFlight(codec, w.pipes.At(dir, channel), id) == [])
  }

  /** It holds of every connection after every run over bytes, however they are cut into reads. */
  lemma EndToEndOnBytes(codec: Codec, bulk: bool, proxies: set<string>, events: seq<ByteEvent>, id: Id)
    requires Lawful(codec) && EventsOk(codec, events)
    ensures TransparentOnBytes(codec, BRun(codec, bulk, proxies, events), bulk, id)
  {
    var trace := BytesRefinePackets(codec, bulk, proxies, events);
    var w, net := BRun(codec, bulk, proxies, events), Run(bulk, proxies, trace);
    TunnelProofs.InvTransparent(net);
    TunnelProofs.RunBulk(bulk, proxies, trace);
    forall dir, channel
      ensures BytesInFlight(codec, w.pipes.At(dir, channel), id) == InFlight(net.links.At(dir, channel), id)
    {
      assert Carries(codec, w.pipes.At(dir, channel), net.links.At(dir, channel));
      DrainEncoded(codec, net.links.At(dir, channel));
    }
    if id in net.ends.server.conns && id !in net.ends.client.locals {
      forall dir, channel
        ensures InFlight(net.links.At(dir, channel), id) == []
      {
        TunnelProofs.NothingOf(net, dir, channel, id);
      }
    }
  }
}
