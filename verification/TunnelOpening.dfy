/** The opening of a connection: whatever has been lost sight of between NEW_CONN and
    INIT_CONN is on one of the links. */
module TunnelOpening {
  import opened Bytes
  import opened Tunnel
  import opened TunnelProofs
  import opened TunnelRouting

  /** For a connection in the server's pool: while the client does not have it, NEW_CONN is on
      its way down or a CLOSE on its way up; when it has and the server does not know, INIT_CONN
      is on its way up. */
  ghost predicate UnderWay(net: Net, id: Id)
    requires id in net.ends.server.conns
  {
    var c := net.ends.server.conns[id];
    && !c.task.Ended?
    && (id !in net.ends.client.locals && c.proxy in net.ends.client.proxies ==>
         NewConn(id, c.proxy) in net.links.At(Down, Control)
         || Close(id) in net.links.At(Up, Home(net.ends.server.bulk)))
    && (id in net.ends.client.locals && !c.ready ==> InitConn(id) in net.links.At(Up, Control))
  }

  ghost predicate Openings(net: Net) {
    forall id :: id in net.ends.server.conns && net.ends.server.conns[id].inPool ==> UnderWay(net, id)
  }

  /** Packets are only added to a link by its sender. */
  lemma EmitAdds(links: Links<seq<Packet>>, out: Option<Send>, dir: Direction, channel: Channel, p: Packet)
    requires p in links.At(dir, channel)
    ensures p in Emit(links, out).At(dir, channel)
  {
  }

  lemma Stays(net: Net, ends: Ends, out: Option<Send>, id: Id)
    requires id in net.ends.server.conns && UnderWay(net, id)
    requires id in ends.server.conns
    requires ends.server.bulk == net.ends.server.bulk && ends.client.proxies == net.ends.client.proxies
    requires ends.client.locals.Keys == net.ends.client.locals.Keys
    requires ends.server.conns[id].proxy == net.ends.server.conns[id].proxy && !ends.server.conns[id].task.Ended?
    requires net.ends.server.conns[id].ready ==> ends.server.conns[id].ready
    ensures UnderWay(Net(ends, Emit(net.links, out)), id)
  {
    var c, home := net.ends.server.conns[id], Home(net.ends.server.bulk);
    var news, refusal, init := NewConn(id, c.proxy), Close(id), InitConn(id);
    if news in net.links.At(Down, Control) {
      EmitAdds(net.links, out, Down, Control, news);
    }
    if refusal in net.links.At(Up, home) {
      EmitAdds(net.links, out, Up, home, refusal);
    }
    if init in net.links.At(Up, Control) {
      EmitAdds(net.links, out, Up, Control, init);
    }
  }

  /** What a step of one end does to a connection that stays in the pool. */
  lemma ActEntry(ends: Ends, a: Action, id: Id)
    requires id in Act(ends, a).state.server.conns && Act(ends, a).state.server.conns[id].inPool
    requires id in ends.server.conns ==> !ends.server.conns[id].task.Ended?
    ensures var ends' := Act(ends, a).state;
            && ends'.server.bulk == ends.server.bulk && ends'.client.proxies == ends.client.proxies
            && ends'.client.locals.Keys == ends.client.locals.Keys
            && !ends'.server.conns[id].task.Ended?
            && (id in ends.server.conns ==>
                 && ends.server.conns[id].inPool
                 && ends'.server.conns[id].proxy == ends.server.conns[id].proxy
                 && ends'.server.conns[id].ready == ends.server.conns[id].ready)
            && (id !in ends.server.conns ==>
                 a.AUserConnects? && a.id == id && ends'.server.conns[id] == NewEntry(a.proxy, a.head))
  {
  }

  lemma ActOpenings(net: Net, a: Action)
    requires Inv(net) && Openings(net)
    ensures Openings(Next(net, Do(a)))
  {
    var r, net' := Act(net.ends, a), Next(net, Do(a));
    forall id | id in net'.ends.server.conns && net'.ends.server.conns[id].inPool
      ensures UnderWay(net', id)
    {
      if id in net.ends.server.conns {
        if net.ends.server.conns[id].inPool {
          assert UnderWay(net, id);
        } else {
          StaysOut(net.ends, a, id);
        }
        ActEntry(net.ends, a, id);
        Stays(net, r.state, r.out, id);
      } else {
        ActEntry(net.ends, a, id);
        NoLocal(net, id);
        assert r.out == Some(Send(Down, Control, NewConn(id, a.proxy)));
      }
    }
  }

  /** An entry that has left the pool does not come back. */
  lemma StaysOut(ends: Ends, a: Action, id: Id)
    requires id in ends.server.conns && !ends.server.conns[id].inPool
    ensures !Act(ends, a).state.server.conns[id].inPool
  {
  }

  /** The client knows only ids of the server. */
  lemma NoLocal(net: Net, id: Id)
    requires Inv(net) && id !in net.ends.server.conns
    ensures id !in net.ends.client.locals
  {
    assert id in net.ends.client.locals ==> LocalOk(net.ends, id);
  }

  /** Taking one packet off a link leaves the others. */
  lemma OthersStay(q: seq<Packet>, p: Packet)
    requires q != [] && p in q && p != q[0]
    ensures p in q[1..]
  {
  }

  lemma UpOpenings(net: Net, channel: Channel, connects: bool)
    requires Inv(net) && Openings(net)
    ensures Openings(Next(net, Deliver(Up, channel, connects)))
  {
    var q, net' := net.links.At(Up, channel), Next(net, Deliver(Up, channel, connects));
    if q != [] {
      var home := Home(net.ends.server.bulk);
      forall id | id in net'.ends.server.conns && net'.ends.server.conns[id].inPool
        ensures UnderWay(net', id)
      {
        ReceiveEntry(net.ends.server, channel, q[0], id);
        assert UnderWay(net, id);
        if channel == home && Close(id) in q {
          OthersStay(q, Close(id));
        }
        if channel.Control? && InitConn(id) in q && q[0] != InitConn(id) {
          OthersStay(q, InitConn(id));
        }
      }
    }
  }

  /** What a message from the client does to a connection that stays in the pool. */
  lemma ReceiveEntry(s: Server, channel: Channel, p: Packet, id: Id)
    requires var s' := ServerReceives(s, channel, p); id in s'.conns && s'.conns[id].inPool
    ensures var s' := ServerReceives(s, channel, p);
            && s'.bulk == s.bulk
            && id in s.conns && s.conns[id].inPool
            && p != Close(id)
            && s'.conns[id].proxy == s.conns[id].proxy && s'.conns[id].task == s.conns[id].task
            && (s'.conns[id].ready <==> s.conns[id].ready || (channel.Control? && p == InitConn(id)))
  {
  }

  lemma DownOpenings(net: Net, channel: Channel, connects: bool)
    requires Inv(net) && Routed(net) && Openings(net)
    ensures Openings(Next(net, Deliver(Down, channel, connects)))
  {
    var q, net' := net.links.At(Down, channel), Next(net, Deliver(Down, channel, connects));
    if q != [] {
      var popped := Net(net.ends, net.links.With(Down, channel, q[1..]));
      var e := ClientReceives(net.ends.client, channel, q[0], connects);
      assert net' == Net(net.ends.(client := e.state), Emit(popped.links, e.out));
      forall id | id in net.ends.server.conns && net.ends.server.conns[id].inPool
        ensures UnderWay(net', id)
      {
        assert UnderWay(net, id);
        if channel.Control? && q[0].NewConn? && q[0].id == id {
          NewsHandled(net, connects, id);
        } else {
          ClientOther(net.ends.client, channel, q[0], connects, id);
          if channel.Control? && NewConn(id, net.ends.server.conns[id].proxy) in q {
            OthersStay(q, NewConn(id, net.ends.server.conns[id].proxy));
          }
          StaysDown(net, popped.links, e, id);
        }
      }
    }
  }

  /** A message about another connection neither adds nor removes this one. */
  lemma ClientOther(c: Client, channel: Channel, p: Packet, connects: bool, id: Id)
    requires !(channel.Control? && p.NewConn? && p.id == id)
    ensures var c' := ClientReceives(c, channel, p, connects).state;
            (id in c'.locals <==> id in c.locals) && c'.proxies == c.proxies
  {
  }

  lemma StaysDown(net: Net, links: Links<seq<Packet>>, e: Effect<Client>, id: Id)
    requires id in net.ends.server.conns && UnderWay(net, id)
    requires (id in e.state.locals <==> id in net.ends.client.locals) && e.state.proxies == net.ends.client.proxies
    requires forall channel :: links.At(Up, channel) == net.links.At(Up, channel)
    requires NewConn(id, net.ends.server.conns[id].proxy) in net.links.At(Down, Control)
             ==> NewConn(id, net.ends.server.conns[id].proxy) in links.At(Down, Control)
    ensures UnderWay(Net(net.ends.(client := e.state), Emit(links, e.out)), id)
  {
    Stays(Net(net.ends, links), net.ends, e.out, id);
  }

  /** NEW_CONN is answered by INIT_CONN or CLOSE. */
  lemma NewsHandled(net: Net, connects: bool, id: Id)
    requires Inv(net) && Routed(net) && id in net.ends.server.conns && UnderWay(net, id)
    requires var q := net.links.At(Down, Control); q != [] && q[0].NewConn? && q[0].id == id
    ensures UnderWay(Next(net, Deliver(Down, Control, connects)), id)
  {
    var q := net.links.At(Down, Control);
    assert q == net.links.downControl && q[0] in q;
    assert q[0].proxy == net.ends.server.conns[id].proxy;
  }

  lemma {:induction false} RunOpenings(bulk: bool, proxies: set<string>, events: seq<Event>)
    ensures Openings(Run(bulk, proxies, events))
    decreases |events|
  {
    if events != [] {
      var before, e := events[..|events| - 1], events[|events| - 1];
      var net := Run(bulk, proxies, before);
      RunOpenings(bulk, proxies, before);
      RunInv(bulk, proxies, before);
      RunRouted(bulk, proxies, before);
      match e
      case Do(a) => ActOpenings(net, a);
      case Deliver(Up, channel, connects) => UpOpenings(net, channel, connects);
      case Deliver(Down, channel, connects) => DownOpenings(net, channel, connects);
    }
  }

  /** In every reachable state, a connection in the server's pool whose proxy the client has is
      known to the client, announced to it, or refused by it; and if the client knows it, the
      server knows that or is about to. */
  lemma NothingForgotten(bulk: bool, proxies: set<string>, events: seq<Event>, id: Id)
    requires var ends := Run(bulk, proxies, events).ends;
             id in ends.server.conns && ends.server.conns[id].inPool && ends.server.conns[id].proxy in proxies
    ensures var net := Run(bulk, proxies, events);
            var c := net.ends.server.conns[id];
            && (id in net.ends.client.locals
                || NewConn(id, c.proxy) in net.links.At(Down, Control)
                || Close(id) in net.links.At(Up, Home(bulk)))
            && (id in net.ends.client.locals ==> c.ready || InitConn(id) in net.links.At(Up, Control))
  {
    RunOpenings(bulk, proxies, events);
    RunRouted(bulk, proxies, events);
    RunBulk(bulk, proxies, events);
    assert UnderWay(Run(bulk, proxies, events), id);
  }
}
