/** The tunnel's invariant over every run, and what it means for the bytes. */
module TunnelProofs {
  import opened Bytes
  import opened Tunnel

  // ----- links -----

  function PayloadOf(out: Option<Send>, dir: Direction, channel: Channel, id: Id): seq<byte> {
    if out.Some? && out.value.dir == dir && out.value.channel == channel then Payload(out.value.packet, id) else []
  }

  lemma EmitInFlight(links: Links<seq<Packet>>, out: Option<Send>, dir: Direction, channel: Channel, id: Id)
    ensures InFlight(Emit(links, out).At(dir, channel), id)
         == InFlight(links.At(dir, channel), id) + PayloadOf(out, dir, channel, id)
  {
    if out.Some? && out.value.dir == dir && out.value.channel == channel {
      InFlightSnoc(links.At(dir, channel), out.value.packet, id);
    } else {
      assert InFlight(links.At(dir, channel), id) + [] == InFlight(links.At(dir, channel), id);
    }
  }

  lemma EmitPackets(ends: Ends, links: Links<seq<Packet>>, out: Option<Send>)
    requires PacketsOk(Net(ends, links))
    requires out.Some? ==> PacketOk(ends, out.value.dir, out.value.channel, out.value.packet)
    ensures PacketsOk(Net(ends, Emit(links, out)))
  {
  }

  /** Identifiers are only ever added, and a ready entry stays ready. */
  ghost predicate Grows(a: Ends, b: Ends) {
    && a.server.bulk == b.server.bulk
    && (forall id :: id in a.server.conns ==> id in b.server.conns)
    && (forall id :: id in a.server.conns && a.server.conns[id].ready ==> b.server.conns[id].ready)
    && (forall id :: id in a.client.locals ==> id in b.client.locals)
  }

  lemma PacketsGrow(a: Ends, b: Ends, links: Links<seq<Packet>>)
    requires PacketsOk(Net(a, links)) && Grows(a, b)
    ensures PacketsOk(Net(b, links))
  {
    forall dir, channel, p | p in links.At(dir, channel)
      ensures PacketOk(b, dir, channel, p)
    {
      assert PacketOk(a, dir, channel, p);
    }
  }

  lemma PopPackets(ends: Ends, links: Links<seq<Packet>>, dir: Direction, channel: Channel)
    requires PacketsOk(Net(ends, links)) && links.At(dir, channel) != []
    ensures PacketOk(ends, dir, channel, links.At(dir, channel)[0])
    ensures PacketsOk(Net(ends, links.With(dir, channel, links.At(dir, channel)[1..])))
  {
    var q := links.At(dir, channel);
    assert q[0] in q;
    forall d, c, p | p in links.With(dir, channel, q[1..]).At(d, c)
      ensures PacketOk(ends, d, c, p)
    {
      assert p in links.At(d, c);
    }
  }

  // ----- framed bytes -----

  lemma TakeMore<T>(taken: seq<T>, left: seq<T>, n: nat)
    requires n <= |left|
    ensures taken + left[..n] + left[n..] == taken + left
  {
    Assoc(taken, left[..n], left[n..]);
    assert left[..n] + left[n..] == left;
  }

  lemma FlowFrames(delivered: seq<byte>, inFlight: seq<byte>, framed: seq<byte>, open: bool, data: seq<byte>)
    requires Flow(delivered, inFlight, framed, open)
    ensures Flow(delivered, inFlight + data, framed + data, open)
  {
    assert delivered + (inFlight + data) == delivered + inFlight + data;
  }

  lemma FlowDelivers(delivered: seq<byte>, inFlight: seq<byte>, framed: seq<byte>, data: seq<byte>)
    requires Flow(delivered, data + inFlight, framed, true)
    ensures Flow(delivered + data, inFlight, framed, true)
  {
    assert delivered + (data + inFlight) == delivered + data + inFlight;
  }

  // ----- the server's own steps -----

  function WithConn(ends: Ends, id: Id, c: Conn): Ends {
    ends.(server := ends.server.(conns := ends.server.conns[id := c]))
  }

  lemma ServerEnds(ends: Ends, id: Id, c: Conn)
    requires EndsOk(ends)
    requires ConnOk(WithConn(ends, id, c), id)
    ensures EndsOk(WithConn(ends, id, c))
  {
    var ends' := WithConn(ends, id, c);
    forall x | x in ends'.server.conns
      ensures ConnOk(ends', x)
    {
      assert x != id ==> ConnOk(ends, x);
    }
    forall x | x in ends'.client.locals
      ensures LocalOk(ends', x)
    {
      assert LocalOk(ends, x);
    }
  }

  /** What a step of the server may do to an entry: close it and frame what it emits. */
  ghost predicate ServerMoves(c: Conn, c': Conn, data: seq<byte>) {
    && c'.toUser == c.toUser
    && (c'.inPool ==> c.inPool)
    && (c.ready ==> c'.ready)
    && c'.framed == c.framed + data
  }

  lemma ServerFlow(net: Net, id: Id, c': Conn, out: Option<Send>, x: Id)
    requires Inv(net) && id in net.ends.server.conns && x in net.ends.client.locals
    requires EndsOk(WithConn(net.ends, id, c'))
    requires out.Some? ==> out.value.dir.Down? && out.value.packet.Data? && out.value.packet.id == id
    requires out.Some? ==> out.value.channel == Home(net.ends.server.bulk)
    requires ServerMoves(net.ends.server.conns[id], c', if out.Some? then out.value.packet.data else [])
    ensures FlowOk(Net(WithConn(net.ends, id, c'), Emit(net.links, out)), x)
  {
    var home := Home(net.ends.server.bulk);
    assert FlowOk(net, x);
    EmitInFlight(net.links, out, Down, home, x);
    EmitInFlight(net.links, out, Up, home, x);
    var c, l := net.ends.server.conns[x], net.ends.client.locals[x];
    var data := PayloadOf(out, Down, home, x);
    FlowFrames(l.toService, InFlight(net.links.At(Down, home), x), c.framed, l.inPool, data);
    assert c.framed + [] == c.framed;
    assert InFlight(net.links.At(Up, home), x) + [] == InFlight(net.links.At(Up, home), x);
  }

  lemma ServerStep(net: Net, id: Id, c': Conn, out: Option<Send>)
    requires Inv(net) && id in net.ends.server.conns
    requires ConnOk(WithConn(net.ends, id, c'), id)
    requires out.Some? ==> out.value.dir.Down? && out.value.packet.Data? && out.value.packet.id == id
    requires out.Some? ==> out.value.channel == Home(net.ends.server.bulk) && c'.ready
    requires ServerMoves(net.ends.server.conns[id], c', if out.Some? then out.value.packet.data else [])
    ensures Inv(Net(WithConn(net.ends, id, c'), Emit(net.links, out)))
  {
    var ends' := WithConn(net.ends, id, c');
    ServerEnds(net.ends, id, c');
    PacketsGrow(net.ends, ends', net.links);
    EmitPackets(ends', net.links, out);
    forall x | x in ends'.client.locals
      ensures FlowOk(Net(ends', Emit(net.links, out)), x)
    {
      ServerFlow(net, id, c', out, x);
    }
  }

  lemma ConnectsNews(net: Net, id: Id, proxy: string)
    requires Inv(net) && id !in net.ends.server.conns
    ensures NewsOk(net.links.downControl + [NewConn(id, proxy)], net.ends.client.locals)
  {
    var q := net.links.downControl;
    assert id in net.ends.client.locals ==> LocalOk(net.ends, id);
    forall i | 0 <= i < |q| && q[i].NewConn?
      ensures q[i].id != id
    {
      assert q[i] in net.links.At(Down, Control);
      assert PacketOk(net.ends, Down, Control, q[i]);
    }
  }

  lemma KeepsUserConnects(net: Net, id: Id, proxy: string, head: seq<byte>)
    requires Inv(net)
    ensures Inv(Next(net, Do(AUserConnects(id, proxy, head))))
  {
    if id !in net.ends.server.conns {
      var out := Some(Send(Down, Control, NewConn(id, proxy)));
      var ends' := WithConn(net.ends, id, NewEntry(proxy, head));
      assert head + [] == head;
      ServerEnds(net.ends, id, NewEntry(proxy, head));
      PacketsGrow(net.ends, ends', net.links);
      EmitPackets(ends', net.links, out);
      ConnectsNews(net, id, proxy);
      var home := Home(net.ends.server.bulk);
      forall x | x in ends'.client.locals
        ensures FlowOk(Net(ends', Emit(net.links, out)), x)
      {
        assert LocalOk(net.ends, x) && FlowOk(net, x);
        EmitInFlight(net.links, out, Down, home, x);
        EmitInFlight(net.links, out, Up, home, x);
      }
    }
  }

  lemma KeepsUserSends(net: Net, id: Id, data: seq<byte>)
    requires Inv(net)
    ensures Inv(Next(net, Do(AUserSends(id, data))))
  {
    if id in net.ends.server.conns {
      var c := net.ends.server.conns[id];
      assert ConnOk(net.ends, id);
      var c' := c.(unread := c.unread + data, fromUser := c.fromUser + data);
      Assoc(c.prepend, c.unread, data);
      Assoc(c.framed, Pending(c), data);
      assert c.framed + [] == c.framed;
      ServerStep(net, id, c', None);
    }
  }

  lemma KeepsForwardStarts(net: Net, id: Id)
    requires Inv(net)
    ensures Inv(Next(net, Do(AForwardStarts(id))))
  {
    if id in net.ends.server.conns {
      var c := net.ends.server.conns[id];
      assert ConnOk(net.ends, id);
      if c.task.Waiting? && c.ready {
        var c' := c.(task := Running, prepend := [], framed := c.framed + c.prepend);
        Assoc(c.framed, c.prepend, c.unread);
        assert Pending(c') == c.unread;
        ServerStep(net, id, c', ForwardStarts(net.ends.server, id).out);
      }
    }
  }

  lemma KeepsForwardReads(net: Net, id: Id, n: nat)
    requires Inv(net)
    ensures Inv(Next(net, Do(AForwardReads(id, n))))
  {
    if id in net.ends.server.conns {
      var c := net.ends.server.conns[id];
      assert ConnOk(net.ends, id);
      if c.task.Running? && 0 < n <= READ_BUF_SIZE && n <= |c.unread| {
        var c' := c.(unread := c.unread[n..], framed := c.framed + c.unread[..n]);
        assert Pending(c) == c.unread && Pending(c') == c.unread[n..];
        TakeMore(c.framed, c.unread, n);
        ServerStep(net, id, c', ForwardReads(net.ends.server, id, n).out);
      }
    }
  }

  lemma KeepsServerCloses(net: Net, id: Id, task: Task)
    requires Inv(net) && id in net.ends.server.conns && !task.Running?
    ensures Inv(Net(WithConn(net.ends, id, net.ends.server.conns[id].(task := task, inPool := false)), net.links))
    ensures Inv(Net(WithConn(net.ends, id, net.ends.server.conns[id].(inPool := false)), net.links))
  {
    var c := net.ends.server.conns[id];
    assert ConnOk(net.ends, id);
    assert c.framed + [] == c.framed;
    ServerStep(net, id, c.(inPool := false), None);
    ServerStep(net, id, c.(task := task, inPool := false), None);
  }

  lemma KeepsServerEnding(net: Net, id: Id)
    requires Inv(net)
    ensures Inv(Next(net, Do(AForwardTimesOut(id))))
    ensures Inv(Next(net, Do(AForwardEnds(id))))
    ensures Inv(Next(net, Do(AServerCloses(id))))
  {
    if id in net.ends.server.conns {
      KeepsServerCloses(net, id, Ended);
      var c, conns := net.ends.server.conns[id], net.ends.server.conns;
      assert conns[id := c.(task := Ended)][id := c.(task := Ended, inPool := false)] == conns[id := c.(task := Ended, inPool := false)];
    }
  }

  // ----- the client's own steps -----

  function WithLocal(ends: Ends, id: Id, l: Local): Ends {
    ends.(client := ends.client.(locals := ends.client.locals[id := l]))
  }

  lemma ClientEnds(ends: Ends, id: Id, l: Local)
    requires EndsOk(ends) && (id in ends.client.locals || id in ends.server.conns)
    requires l.framed + l.unread == l.fromService
    ensures EndsOk(WithLocal(ends, id, l))
  {
    var ends' := WithLocal(ends, id, l);
    forall x | x in ends'.server.conns
      ensures ConnOk(ends', x)
    {
      assert ConnOk(ends, x);
    }
    forall x | x in ends'.client.locals
      ensures LocalOk(ends', x)
    {
      assert x in ends.client.locals ==> LocalOk(ends, x);
    }
  }

  ghost predicate ClientMoves(l: Local, l': Local, data: seq<byte>) {
    && l'.toService == l.toService
    && (l'.inPool ==> l.inPool)
    && l'.framed == l.framed + data
  }

  lemma ClientFlow(net: Net, id: Id, l': Local, out: Option<Send>, x: Id)
    requires Inv(net) && id in net.ends.client.locals && x in net.ends.client.locals
    requires EndsOk(WithLocal(net.ends, id, l'))
    requires out.Some? ==> out.value.dir.Up? && out.value.packet.Data? && out.value.packet.id == id
    requires out.Some? ==> out.value.channel == Home(net.ends.server.bulk)
    requires ClientMoves(net.ends.client.locals[id], l', if out.Some? then out.value.packet.data else [])
    ensures FlowOk(Net(WithLocal(net.ends, id, l'), Emit(net.links, out)), x)
  {
    var home := Home(net.ends.server.bulk);
    assert LocalOk(net.ends, x) && FlowOk(net, x);
    EmitInFlight(net.links, out, Down, home, x);
    EmitInFlight(net.links, out, Up, home, x);
    var c, l := net.ends.server.conns[x], net.ends.client.locals[x];
    var data := PayloadOf(out, Up, home, x);
    FlowFrames(c.toUser, InFlight(net.links.At(Up, home), x), l.framed, c.inPool, data);
    assert l.framed + [] == l.framed;
    assert InFlight(net.links.At(Down, home), x) + [] == InFlight(net.links.At(Down, home), x);
  }

  lemma ClientStep(net: Net, id: Id, l': Local, out: Option<Send>)
    requires Inv(net) && id in net.ends.client.locals
    requires l'.framed + l'.unread == l'.fromService
    requires out.Some? ==> out.value.dir.Up? && out.value.packet.Data? && out.value.packet.id == id
    requires out.Some? ==> out.value.channel == Home(net.ends.server.bulk)
    requires ClientMoves(net.ends.client.locals[id], l', if out.Some? then out.value.packet.data else [])
    ensures Inv(Net(WithLocal(net.ends, id, l'), Emit(net.links, out)))
  {
    var ends' := WithLocal(net.ends, id, l');
    assert LocalOk(net.ends, id);
    ClientEnds(net.ends, id, l');
    PacketsGrow(net.ends, ends', net.links);
    EmitPackets(ends', net.links, out);
    forall x | x in ends'.client.locals
      ensures FlowOk(Net(ends', Emit(net.links, out)), x)
    {
      ClientFlow(net, id, l', out, x);
    }
  }

  lemma KeepsServiceSends(net: Net, id: Id, data: seq<byte>)
    requires Inv(net)
    ensures Inv(Next(net, Do(AServiceSends(id, data))))
  {
    if id in net.ends.client.locals {
      var l := net.ends.client.locals[id];
      assert LocalOk(net.ends, id);
      Assoc(l.framed, l.unread, data);
      assert l.framed + [] == l.framed;
      ClientStep(net, id, l.(unread := l.unread + data, fromService := l.fromService + data), None);
    }
  }

  lemma KeepsLocalReads(net: Net, id: Id, n: nat)
    requires Inv(net)
    ensures Inv(Next(net, Do(ALocalReads(id, n))))
  {
    if id in net.ends.client.locals {
      var l := net.ends.client.locals[id];
      assert LocalOk(net.ends, id);
      if l.reading && 0 < n <= READ_BUF_SIZE && n <= |l.unread| {
        TakeMore(l.framed, l.unread, n);
        ClientStep(net, id, l.(unread := l.unread[n..], framed := l.framed + l.unread[..n]), LocalReads(net.ends.client, id, n).out);
      }
    }
  }

  lemma KeepsClientCloses(net: Net, id: Id, reading: bool)
    requires Inv(net) && id in net.ends.client.locals
    ensures Inv(Net(WithLocal(net.ends, id, net.ends.client.locals[id].(reading := reading, inPool := false)), net.links))
  {
    var l := net.ends.client.locals[id];
    assert LocalOk(net.ends, id);
    assert l.framed + [] == l.framed;
    ClientStep(net, id, l.(reading := reading, inPool := false), None);
  }

  lemma KeepsClientClosing(net: Net, id: Id)
    requires Inv(net)
    ensures Inv(Next(net, Do(AClientCloses(id))))
  {
    if id in net.ends.client.locals {
      KeepsClientCloses(net, id, net.ends.client.locals[id].reading);
    }
  }

  lemma KeepsLocalEnds(net: Net, id: Id)
    requires Inv(net)
    ensures Inv(Next(net, Do(ALocalEnds(id))))
  {
    if id in net.ends.client.locals && net.ends.client.locals[id].reading {
      var l, locals := net.ends.client.locals[id], net.ends.client.locals;
      var l' := l.(reading := false, inPool := false);
      KeepsClientCloses(net, id, false);
      assert locals[id := l.(reading := false)][id := l'] == locals[id := l'];
      assert Next(net, Do(ALocalEnds(id))) == Net(WithLocal(net.ends, id, l'), net.links);
    }
  }

  // ----- deliveries -----

  function Popped(net: Net, dir: Direction, channel: Channel): Net
    requires net.links.At(dir, channel) != []
  {
    net.(links := net.links.With(dir, channel, net.links.At(dir, channel)[1..]))
  }

  lemma PopInFlight(net: Net, dir: Direction, channel: Channel, d: Direction, c: Channel, id: Id)
    requires net.links.At(dir, channel) != []
    ensures InFlight(net.links.At(d, c), id)
         == (if (d, c) == (dir, channel) then Payload(net.links.At(dir, channel)[0], id) else [])
            + InFlight(Popped(net, dir, channel).links.At(d, c), id)
  {
    if (d, c) != (dir, channel) {
      assert [] + InFlight(net.links.At(d, c), id) == InFlight(net.links.At(d, c), id);
    }
  }

  lemma PopNews(net: Net, dir: Direction, channel: Channel)
    requires Inv(net) && net.links.At(dir, channel) != []
    ensures NewsOk(Popped(net, dir, channel).links.downControl, net.ends.client.locals)
  {
    var q, r := net.links.downControl, Popped(net, dir, channel).links.downControl;
    if (dir, channel) == (Down, Control) {
      assert r == q[1..];
    } else {
      assert r == q by {
        assert Popped(net, dir, channel).links.At(Down, Control) == net.links.At(Down, Control);
      }
    }
  }

  /** Taking a packet without payload off a link disturbs nothing. */
  lemma PopQuietFlow(net: Net, dir: Direction, channel: Channel, x: Id)
    requires Inv(net) && net.links.At(dir, channel) != [] && !net.links.At(dir, channel)[0].Data?
    requires x in net.ends.client.locals && x in net.ends.server.conns
    ensures FlowOk(Popped(net, dir, channel), x)
  {
    var net', home := Popped(net, dir, channel), Home(net.ends.server.bulk);
    assert FlowOk(net, x);
    PopInFlight(net, dir, channel, Down, home, x);
    PopInFlight(net, dir, channel, Up, home, x);
    assert [] + InFlight(net'.links.At(Down, home), x) == InFlight(net'.links.At(Down, home), x);
    assert [] + InFlight(net'.links.At(Up, home), x) == InFlight(net'.links.At(Up, home), x);
  }

  lemma PopQuiet(net: Net, dir: Direction, channel: Channel)
    requires Inv(net) && net.links.At(dir, channel) != [] && !net.links.At(dir, channel)[0].Data?
    ensures Inv(Popped(net, dir, channel))
  {
    var net' := Popped(net, dir, channel);
    PopPackets(net.ends, net.links, dir, channel);
    PopNews(net, dir, channel);
    forall x | x in net.ends.client.locals
      ensures FlowOk(net', x)
    {
      assert LocalOk(net.ends, x);
      PopQuietFlow(net, dir, channel, x);
    }
  }

  lemma KeepsInitConn(net: Net, id: Id)
    requires Inv(net) && id in net.ends.client.locals
    ensures Inv(Net(net.ends.(server := HandleInitConn(net.ends.server, id)), net.links))
  {
    assert LocalOk(net.ends, id) && ConnOk(net.ends, id);
    var c := net.ends.server.conns[id];
    if c.inPool {
      assert c.framed + [] == c.framed;
      ServerStep(net, id, c.(clientWriter := Some(Home(net.ends.server.bulk)), ready := true), None);
    }
  }

  /** A payload leaves the link; whatever the accepting entry then holds, flows stay right. */
  lemma UpDataFlow(net: Net, c': Conn, x: Id)
    requires Inv(net) && x in net.ends.client.locals
    requires var home := Home(net.ends.server.bulk);
             net.links.At(Up, home) != [] && net.links.At(Up, home)[0].Data?
    requires var p := net.links.At(Up, Home(net.ends.server.bulk))[0];
             && p.id in net.ends.server.conns
             && var c := net.ends.server.conns[p.id];
                && c'.framed == c.framed && c'.inPool == c.inPool
                && c'.toUser == if c.inPool then c.toUser + p.data else c.toUser
    ensures var home := Home(net.ends.server.bulk);
            var id := net.links.At(Up, home)[0].id;
            FlowOk(Net(WithConn(net.ends, id, c'), Popped(net, Up, home).links), x)
  {
    var home := Home(net.ends.server.bulk);
    var p, popped := net.links.At(Up, home)[0], Popped(net, Up, home);
    assert LocalOk(net.ends, x) && FlowOk(net, x);
    PopInFlight(net, Up, home, Down, home, x);
    PopInFlight(net, Up, home, Up, home, x);
    assert [] + InFlight(popped.links.At(Down, home), x) == InFlight(popped.links.At(Down, home), x);
    assert [] + InFlight(popped.links.At(Up, home), x) == InFlight(popped.links.At(Up, home), x);
    var c, l := net.ends.server.conns[x], net.ends.client.locals[x];
    if x == p.id && c.inPool {
      FlowDelivers(c.toUser, InFlight(popped.links.At(Up, home), x), l.framed, p.data);
    }
  }

  lemma KeepsUpData(net: Net)
    requires Inv(net)
    requires var home := Home(net.ends.server.bulk);
             net.links.At(Up, home) != [] && net.links.At(Up, home)[0].Data?
    ensures Inv(Next(net, Deliver(Up, Home(net.ends.server.bulk), true)))
  {
    var home := Home(net.ends.server.bulk);
    var p, popped := net.links.At(Up, home)[0], Popped(net, Up, home);
    PopPackets(net.ends, net.links, Up, home);
    PopNews(net, Up, home);
    var id := p.id;
    assert LocalOk(net.ends, id) && ConnOk(net.ends, id);
    var c := net.ends.server.conns[id];
    var c' := if !c.inPool then c else c.(
      clientWriter := if c.clientWriter.None? then Some(home) else c.clientWriter,
      toUser := c.toUser + p.data);
    var ends' := WithConn(net.ends, id, c');
    assert net.ends.server.conns[id := c] == net.ends.server.conns;
    assert Next(net, Deliver(Up, home, true)) == Net(ends', popped.links);
    ServerEnds(net.ends, id, c');
    PacketsGrow(net.ends, ends', popped.links);
    forall x | x in ends'.client.locals
      ensures FlowOk(Net(ends', popped.links), x)
    {
      UpDataFlow(net, c', x);
    }
  }

  lemma DownDataFlow(net: Net, l': Local, x: Id)
    requires Inv(net) && x in net.ends.client.locals
    requires var home := Home(net.ends.server.bulk);
             net.links.At(Down, home) != [] && net.links.At(Down, home)[0].Data?
    requires var p := net.links.At(Down, Home(net.ends.server.bulk))[0];
             && p.id in net.ends.client.locals
             && var l := net.ends.client.locals[p.id];
                l' == if l.inPool then l.(toService := l.toService + p.data) else l
    ensures var home := Home(net.ends.server.bulk);
            var id := net.links.At(Down, home)[0].id;
            id in net.ends.server.conns && LocalOk(net.ends, x)
            && FlowOk(Net(WithLocal(net.ends, id, l'), Popped(net, Down, home).links), x)
  {
    var home := Home(net.ends.server.bulk);
    var p, popped := net.links.At(Down, home)[0], Popped(net, Down, home);
    assert LocalOk(net.ends, x) && FlowOk(net, x) && LocalOk(net.ends, p.id);
    PopInFlight(net, Down, home, Down, home, x);
    PopInFlight(net, Down, home, Up, home, x);
    assert [] + InFlight(popped.links.At(Down, home), x) == InFlight(popped.links.At(Down, home), x);
    assert [] + InFlight(popped.links.At(Up, home), x) == InFlight(popped.links.At(Up, home), x);
    var c, l := net.ends.server.conns[x], net.ends.client.locals[x];
    if x == p.id && l.inPool {
      FlowDelivers(l.toService, InFlight(popped.links.At(Down, home), x), c.framed, p.data);
    }
  }

  lemma KeepsDownData(net: Net, connects: bool)
    requires Inv(net)
    requires var home := Home(net.ends.server.bulk);
             net.links.At(Down, home) != [] && net.links.At(Down, home)[0].Data?
    ensures Inv(Next(net, Deliver(Down, Home(net.ends.server.bulk), connects)))
  {
    var home := Home(net.ends.server.bulk);
    var p, popped := net.links.At(Down, home)[0], Popped(net, Down, home);
    PopPackets(net.ends, net.links, Down, home);
    PopNews(net, Down, home);
    var id := p.id;
    assert LocalOk(net.ends, id) && ConnOk(net.ends, id);
    var l := net.ends.client.locals[id];
    var l' := if l.inPool then l.(toService := l.toService + p.data) else l;
    var ends' := WithLocal(net.ends, id, l');
    assert net.ends.client.locals[id := l] == net.ends.client.locals;
    assert Next(net, Deliver(Down, home, connects)) == Net(ends', popped.links);
    ClientEnds(net.ends, id, l');
    PacketsGrow(net.ends, ends', popped.links);
    forall x | x in ends'.client.locals
      ensures FlowOk(Net(ends', popped.links), x)
    {
      DownDataFlow(net, l', x);
    }
  }

  /** The client takes a new id on: nothing of it has been framed, nothing is in flight. */
  lemma KeepsConnected(net: Net, id: Id, proxy: string)
    requires Inv(net) && id in net.ends.server.conns && id !in net.ends.client.locals
    requires forall i :: 0 <= i < |net.links.downControl| && net.links.downControl[i].NewConn? ==> net.links.downControl[i].id != id
    ensures Inv(Net(WithLocal(net.ends, id, Local(proxy, true, true, [], [], [], [])), Emit(net.links, Some(Send(Up, Control, InitConn(id))))))
  {
    var l := Local(proxy, true, true, [], [], [], []);
    var out := Some(Send(Up, Control, InitConn(id)));
    var ends' := WithLocal(net.ends, id, l);
    var net' := Net(ends', Emit(net.links, out));
    ClientEnds(net.ends, id, l);
    PacketsGrow(net.ends, ends', net.links);
    EmitPackets(ends', net.links, out);
    var home := Home(net.ends.server.bulk);
    forall x | x in ends'.client.locals
      ensures FlowOk(net', x)
    {
      EmitInFlight(net.links, out, Down, home, x);
      EmitInFlight(net.links, out, Up, home, x);
      assert InFlight(net.links.At(Down, home), x) + [] == InFlight(net.links.At(Down, home), x);
      assert InFlight(net.links.At(Up, home), x) + [] == InFlight(net.links.At(Up, home), x);
      if x == id {
        assert ConnOk(net.ends, id);
        NothingOf(net, Down, home, id);
        NothingOf(net, Up, home, id);
      } else {
        assert LocalOk(net.ends, x) && FlowOk(net, x);
      }
    }
  }

  lemma NothingOf(net: Net, dir: Direction, channel: Channel, id: Id)
    requires Inv(net) && id !in net.ends.client.locals
    ensures InFlight(net.links.At(dir, channel), id) == []
  {
    forall p | p in net.links.At(dir, channel) && p.Data?
      ensures p.id != id
    {
      assert PacketOk(net.ends, dir, channel, p);
    }
    NothingInFlight(net.links.At(dir, channel), id);
  }

  lemma KeepsFailed(net: Net, id: Id)
    requires Inv(net) && id in net.ends.server.conns
    ensures Inv(Net(net.ends, Emit(net.links, Some(Send(Up, Home(net.ends.server.bulk), Close(id))))))
  {
    var home := Home(net.ends.server.bulk);
    var out := Some(Send(Up, home, Close(id)));
    var net' := Net(net.ends, Emit(net.links, out));
    EmitPackets(net.ends, net.links, out);
    forall x | x in net.ends.client.locals
      ensures FlowOk(net', x)
    {
      assert LocalOk(net.ends, x) && FlowOk(net, x);
      EmitInFlight(net.links, out, Down, home, x);
      EmitInFlight(net.links, out, Up, home, x);
      assert InFlight(net.links.At(Down, home), x) + [] == InFlight(net.links.At(Down, home), x);
      assert InFlight(net.links.At(Up, home), x) + [] == InFlight(net.links.At(Up, home), x);
    }
  }

  lemma KeepsNewConn(net: Net, connects: bool)
    requires Inv(net) && net.links.downControl != [] && net.links.downControl[0].NewConn?
    ensures Inv(Next(net, Deliver(Down, Control, connects)))
  {
    var q := net.links.At(Down, Control);
    PopPackets(net.ends, net.links, Down, Control);
    PopQuiet(net, Down, Control);
    var popped, id := Popped(net, Down, Control), q[0].id;
    assert popped.links.downControl == popped.links.At(Down, Control) == q[1..];
    if q[0].proxy in net.ends.client.proxies {
      if connects {
        KeepsConnected(popped, id, q[0].proxy);
      } else {
        KeepsFailed(popped, id);
      }
    }
  }

  lemma KeepsDeliverUp(net: Net, channel: Channel, connects: bool)
    requires Inv(net)
    ensures Inv(Next(net, Deliver(Up, channel, connects)))
  {
    var q := net.links.At(Up, channel);
    if q != [] {
      PopPackets(net.ends, net.links, Up, channel);
      match q[0]
      case Data(_, _) => KeepsUpData(net);
      case InitConn(id) =>
        PopQuiet(net, Up, channel);
        KeepsInitConn(Popped(net, Up, channel), id);
      case Close(id) =>
        PopQuiet(net, Up, channel);
        KeepsServerCloses(Popped(net, Up, channel), id, Ended);
      case NewConn(_, _) =>
    }
  }

  lemma KeepsDeliverDown(net: Net, channel: Channel, connects: bool)
    requires Inv(net)
    ensures Inv(Next(net, Deliver(Down, channel, connects)))
  {
    var q := net.links.At(Down, channel);
    if q != [] {
      PopPackets(net.ends, net.links, Down, channel);
      match q[0]
      case Data(_, _) => KeepsDownData(net, connects);
      case NewConn(_, _) => KeepsNewConn(net, connects);
      case _ =>
    }
  }

  // ----- every run -----

  lemma KeepsAct(net: Net, a: Action)
    requires Inv(net)
    ensures Inv(Next(net, Do(a)))
  {
    match a
    case AUserConnects(id, proxy, head) => KeepsUserConnects(net, id, proxy, head);
    case AUserSends(id, data) => KeepsUserSends(net, id, data);
    case AForwardStarts(id) => KeepsForwardStarts(net, id);
    case AForwardTimesOut(id) => KeepsServerEnding(net, id);
    case AForwardReads(id, n) => KeepsForwardReads(net, id, n);
    case AForwardEnds(id) => KeepsServerEnding(net, id);
    case AServerCloses(id) => KeepsServerEnding(net, id);
    case AServiceSends(id, data) => KeepsServiceSends(net, id, data);
    case ALocalReads(id, n) => KeepsLocalReads(net, id, n);
    case ALocalEnds(id) => KeepsLocalEnds(net, id);
    case AClientCloses(id) => KeepsClientClosing(net, id);
  }

  lemma KeepsInv(net: Net, e: Event)
    requires Inv(net)
    ensures Inv(Next(net, e))
  {
    match e
    case Do(a) => KeepsAct(net, a);
    case Deliver(Up, channel, connects) => KeepsDeliverUp(net, channel, connects);
    case Deliver(Down, channel, connects) => KeepsDeliverDown(net, channel, connects);
  }

  lemma {:induction false} RunInv(bulk: bool, proxies: set<string>, events: seq<Event>)
    ensures Inv(Run(bulk, proxies, events))
    decreases |events|
  {
    if events != [] {
      RunInv(bulk, proxies, events[..|events| - 1]);
      KeepsInv(Run(bulk, proxies, events[..|events| - 1]), events[|events| - 1]);
    }
  }

  // ----- what it means -----

  /** Delivered is a prefix of sent, both ways and for every connection; while the receiving
      end has the connection open, delivered ++ in flight ++ unsent is exactly what was sent. */
  ghost predicate Transparent(net: Net) {
    && (forall id :: id in net.ends.client.locals ==>
      && id in net.ends.server.conns
      && var c, l, home := net.ends.server.conns[id], net.ends.client.locals[id], Home(net.ends.server.bulk);
         && l.toService <= c.fromUser
         && c.toUser <= l.fromService
         && (l.inPool ==> l.toService + InFlight(net.links.At(Down, home), id) + Pending(c) == c.fromUser)
         && (c.inPool ==> c.toUser + InFlight(net.links.At(Up, home), id) + l.unread == l.fromService))
    && (forall id :: id in net.ends.server.conns && id !in net.ends.client.locals ==>
      net.ends.server.conns[id].toUser == [] && Pending(net.ends.server.conns[id]) == net.ends.server.conns[id].fromUser)
  }

  lemma InvTransparent(net: Net)
    requires Inv(net)
    ensures Transparent(net)
  {
    forall id | id in net.ends.client.locals
      ensures id in net.ends.server.conns
      ensures var c, l, home := net.ends.server.conns[id], net.ends.client.locals[id], Home(net.ends.server.bulk);
              && l.toService <= c.fromUser
              && c.toUser <= l.fromService
              && (l.inPool ==> l.toService + InFlight(net.links.At(Down, home), id) + Pending(c) == c.fromUser)
              && (c.inPool ==> c.toUser + InFlight(net.links.At(Up, home), id) + l.unread == l.fromService)
    {
      assert LocalOk(net.ends, id) && ConnOk(net.ends, id) && FlowOk(net, id);
    }
    forall id | id in net.ends.server.conns && id !in net.ends.client.locals
      ensures net.ends.server.conns[id].toUser == []
      ensures Pending(net.ends.server.conns[id]) == net.ends.server.conns[id].fromUser
    {
      assert ConnOk(net.ends, id);
      assert [] + Pending(net.ends.server.conns[id]) == Pending(net.ends.server.conns[id]);
    }
  }

  /** End-to-end transparency in every reachable state, with one channel or two. */
  lemma EndToEnd(bulk: bool, proxies: set<string>, events: seq<Event>)
    ensures Transparent(Run(bulk, proxies, events))
  {
    RunInv(bulk, proxies, events);
    InvTransparent(Run(bulk, proxies, events));
  }

  /** Every DATA on its way to the client belongs to a connection whose INIT_CONN the server
      has processed, and which the client therefore has had in its pool. */
  lemma DataOnlyAfterInit(bulk: bool, proxies: set<string>, events: seq<Event>, channel: Channel, p: Packet)
    requires p in Run(bulk, proxies, events).links.At(Down, channel) && p.Data?
    ensures var ends := Run(bulk, proxies, events).ends;
            && channel == Home(bulk)
            && p.id in ends.server.conns && ends.server.conns[p.id].ready
            && p.id in ends.client.locals
  {
    RunInv(bulk, proxies, events);
    RunBulk(bulk, proxies, events);
    assert PacketOk(Run(bulk, proxies, events).ends, Down, channel, p);
  }

  lemma NextBulk(net: Net, e: Event)
    ensures Next(net, e).ends.server.bulk == net.ends.server.bulk
  {
    match e
    case Do(a) => assert Act(net.ends, a).state.server.bulk == net.ends.server.bulk;
    case Deliver(Up, channel, _) =>
      var q := net.links.At(Up, channel);
      if q != [] {
        assert ServerReceives(net.ends.server, channel, q[0]).bulk == net.ends.server.bulk;
      }
    case Deliver(Down, channel, connects) =>
  }

  lemma {:induction false} RunBulk(bulk: bool, proxies: set<string>, events: seq<Event>)
    ensures Run(bulk, proxies, events).ends.server.bulk == bulk
    decreases |events|
  {
    if events != [] {
      RunBulk(bulk, proxies, events[..|events| - 1]);
      NextBulk(Run(bulk, proxies, events[..|events| - 1]), events[|events| - 1]);
    }
  }

  /** A DATA that the server puts on a link was sent when INIT_CONN had already been processed. */
  lemma DataSentWhenReady(bulk: bool, proxies: set<string>, events: seq<Event>, a: Action)
    requires var out := Act(Run(bulk, proxies, events).ends, a).out;
             out.Some? && out.value.dir.Down? && out.value.packet.Data?
    ensures var ends := Run(bulk, proxies, events).ends;
            var id := Act(ends, a).out.value.packet.id;
            id in ends.server.conns && ends.server.conns[id].ready && id in ends.client.locals
  {
    RunInv(bulk, proxies, events);
    var ends := Run(bulk, proxies, events).ends;
    assert ConnOk(ends, Act(ends, a).out.value.packet.id);
  }

  /** The client throws a DATA away only when it has closed that connection itself. */
  lemma DropsOnlyAfterClose(bulk: bool, proxies: set<string>, events: seq<Event>, channel: Channel, connects: bool)
    requires var q := Run(bulk, proxies, events).links.At(Down, channel); q != [] && q[0].Data?
    ensures var net := Run(bulk, proxies, events);
            var p, net' := net.links.At(Down, channel)[0], Next(net, Deliver(Down, channel, connects));
            && p.id in net.ends.client.locals
            && p.id in net'.ends.client.locals
            && (net'.ends.client.locals[p.id].toService == net.ends.client.locals[p.id].toService + p.data
                || !net.ends.client.locals[p.id].inPool)
  {
    var net := Run(bulk, proxies, events);
    RunInv(bulk, proxies, events);
    PopPackets(net.ends, net.links, Down, channel);
  }
}
