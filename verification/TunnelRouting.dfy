/** Bytes reach the right service: a connection leads to the service of the proxy that its
    user connected to, and each end of the tunnel moves only its own entries. */
module TunnelRouting {
  import opened Tunnel
  import TunnelProofs

  /** A NEW_CONN names the proxy its user came through. */
  ghost predicate NewsRouted(net: Net) {
    forall p :: p in net.links.downControl && p.NewConn? ==>
      p.id in net.ends.server.conns && net.ends.server.conns[p.id].proxy == p.proxy
  }

  /** A local connection belongs to a registered proxy, the one its user came through. */
  ghost predicate LocalsRouted(ends: Ends) {
    forall id :: id in ends.client.locals ==>
      && id in ends.server.conns
      && ends.client.locals[id].proxy == ends.server.conns[id].proxy
      && ends.client.locals[id].proxy in ends.client.proxies
  }

  ghost predicate Routed(net: Net) {
    NewsRouted(net) && LocalsRouted(net.ends)
  }

  /** Entries keep their proxy and the client its proxies. */
  ghost predicate Keeps(a: Ends, b: Ends) {
    && (forall id :: id in a.server.conns ==> id in b.server.conns && b.server.conns[id].proxy == a.server.conns[id].proxy)
    && b.client.proxies == a.client.proxies
  }

  /** No link to the client gains a NEW_CONN but by a user who connects. */
  lemma NewsKept(net: Net, ends: Ends, links: Links<seq<Packet>>)
    requires NewsRouted(net) && Keeps(net.ends, ends)
    requires forall p :: p in links.downControl && p.NewConn? ==> p in net.links.downControl
    ensures NewsRouted(Net(ends, links))
  {
  }

  lemma ActNews(net: Net, a: Action)
    requires NewsRouted(net)
    ensures NewsRouted(Next(net, Do(a)))
  {
    var r := Act(net.ends, a);
    assert Keeps(net.ends, r.state);
    if !a.AUserConnects? {
      NewsKept(net, r.state, Emit(net.links, r.out));
    }
  }

  lemma ActKeeps(ends: Ends, a: Action)
    ensures var ends' := Act(ends, a).state;
            && Keeps(ends, ends')
            && forall id :: id in ends'.client.locals ==>
                 id in ends.client.locals && ends'.client.locals[id].proxy == ends.client.locals[id].proxy
  {
  }

  lemma ActRouted(net: Net, a: Action)
    requires Routed(net)
    ensures Routed(Next(net, Do(a))) && Next(net, Do(a)).ends.client.proxies == net.ends.client.proxies
  {
    hide Act;
    ActNews(net, a);
    ActKeeps(net.ends, a);
  }

  lemma UpRouted(net: Net, channel: Channel, connects: bool)
    requires Routed(net)
    ensures var net' := Next(net, Deliver(Up, channel, connects));
            Routed(net') && net'.ends.client.proxies == net.ends.client.proxies
  {
    var q := net.links.At(Up, channel);
    if q != [] {
      var s := ServerReceives(net.ends.server, channel, q[0]);
      var ends := net.ends.(server := s);
      assert Keeps(net.ends, ends);
      NewsKept(net, ends, net.links.With(Up, channel, q[1..]));
    }
  }

  /** What the client makes of a message: only a NEW_CONN adds an entry. */
  lemma ReceivedLocals(c: Client, channel: Channel, p: Packet, connects: bool, id: Id)
    requires id in ClientReceives(c, channel, p, connects).state.locals
    ensures var l := ClientReceives(c, channel, p, connects).state.locals[id];
            || (id in c.locals && l.proxy == c.locals[id].proxy)
            || (channel.Control? && p == NewConn(id, l.proxy) && l.proxy in c.proxies)
  {
  }

  lemma DownRouted(net: Net, channel: Channel, connects: bool)
    requires Routed(net)
    ensures var net' := Next(net, Deliver(Down, channel, connects));
            Routed(net') && net'.ends.client.proxies == net.ends.client.proxies
  {
    var q := net.links.At(Down, channel);
    if q != [] {
      var e := ClientReceives(net.ends.client, channel, q[0], connects);
      var ends, links := net.ends.(client := e.state), net.links.With(Down, channel, q[1..]);
      assert e.out.Some? ==> e.out.value.dir.Up?;
      assert forall p :: p in q[1..] ==> p in q;
      NewsKept(net, ends, Emit(links, e.out));
      forall id | id in e.state.locals
        ensures id in net.ends.server.conns && e.state.locals[id].proxy == net.ends.server.conns[id].proxy
        ensures e.state.locals[id].proxy in net.ends.client.proxies
      {
        ReceivedLocals(net.ends.client, channel, q[0], connects, id);
        assert channel.Control? ==> q[0] in net.links.downControl;
      }
    }
  }

  lemma NextRouted(net: Net, e: Event)
    requires Routed(net)
    ensures Routed(Next(net, e)) && Next(net, e).ends.client.proxies == net.ends.client.proxies
  {
    match e
    case Do(a) => ActRouted(net, a);
    case Deliver(Up, channel, connects) => UpRouted(net, channel, connects);
    case Deliver(Down, channel, connects) => DownRouted(net, channel, connects);
  }

  lemma {:induction false} RunRouted(bulk: bool, proxies: set<string>, events: seq<Event>)
    ensures Routed(Run(bulk, proxies, events))
    ensures Run(bulk, proxies, events).ends.client.proxies == proxies
    decreases |events|
  {
    if events != [] {
      RunRouted(bulk, proxies, events[..|events| - 1]);
      NextRouted(Run(bulk, proxies, events[..|events| - 1]), events[|events| - 1]);
    }
  }

  /** In every reachable state a connection that the client has opened leads to the service of a
      registered proxy, and it is the proxy that this user connected to. */
  lemma RightService(bulk: bool, proxies: set<string>, events: seq<Event>, id: Id)
    requires id in Run(bulk, proxies, events).ends.client.locals
    ensures var ends := Run(bulk, proxies, events).ends;
            && id in ends.server.conns
            && ends.client.locals[id].proxy == ends.server.conns[id].proxy
            && ends.client.locals[id].proxy in proxies
  {
    RunRouted(bulk, proxies, events);
  }

  /** A user of a proxy that the client does not have is never connected: nothing the user
      sent leaves the server. */
  lemma UnknownProxyCarriesNothing(bulk: bool, proxies: set<string>, events: seq<Event>, id: Id)
    requires var ends := Run(bulk, proxies, events).ends;
             id in ends.server.conns && ends.server.conns[id].proxy !in proxies
    ensures var net := Run(bulk, proxies, events);
            && id !in net.ends.client.locals
            && Pending(net.ends.server.conns[id]) == net.ends.server.conns[id].fromUser
            && forall dir, channel, p :: p in net.links.At(dir, channel) && p.Data? ==> p.id != id
  {
    var net := Run(bulk, proxies, events);
    RunRouted(bulk, proxies, events);
    TunnelProofs.RunInv(bulk, proxies, events);
    TunnelProofs.InvTransparent(net);
    forall dir, channel, p | p in net.links.At(dir, channel) && p.Data?
      ensures p.id != id
    {
      assert PacketOk(net.ends, dir, channel, p);
    }
  }
}
