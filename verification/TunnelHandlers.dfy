/** The handlers as objects that update their pools in place and write to streams. */
module TunnelHandlers {
  import opened Bytes
  import opened Tunnel
  import TunnelProofs

  function AsList(out: Option<Send>): seq<Send> {
    match out
    case None => []
    case Some(s) => [s]
  }

  class FrpServer {
    const bulk: bool
    var conns: map<Id, Conn>
    var written: seq<Send>

    ghost function View(): Server
      reads this
    {
      Server(bulk, conns)
    }

    constructor (bulk: bool)
      ensures View() == Server(bulk, map[]) && written == []
    {
      this.bulk := bulk;
      conns, written := map[], [];
    }

    method Write(channel: Channel, p: Packet)
      modifies this
      ensures conns == old(conns) && written == old(written) + [Send(Down, channel, p)]
    {
      written := written + [Send(Down, channel, p)];
    }

    method CloseConn(id: Id)
      modifies this
      ensures View() == ServerCloses(old(View()), id) && written == old(written)
    {
      if id in conns {
        conns := conns[id := conns[id].(inPool := false)];
      }
    }

    /** handle_tcp_proxy_conn, handle_ftp_proxy_conn and the end of handle_http_vhost_conn;
        `told` says whether NEW_CONN could be written. If not, there is no entry. */
    method HandleProxyConn(id: Id, proxy: string, head: seq<byte>, told: bool)
      modifies this
      ensures var e := UserConnects(old(View()), id, proxy, head);
              if told then View() == e.state && written == old(written) + AsList(e.out)
              else View() == old(View()) && written == old(written)
    {
      if id !in conns {
        if told {
          Write(Control, NewConn(id, proxy));
          conns := conns[id := NewEntry(proxy, head)];
        }
      }
    }

    /** More bytes arrive on the user's socket. */
    method UserSocket(id: Id, data: seq<byte>)
      modifies this
      ensures View() == UserSends(old(View()), id, data) && written == old(written)
    {
      if id in conns {
        var c := conns[id];
        conns := conns[id := c.(unread := c.unread + data, fromUser := c.fromUser + data)];
      }
    }

    /** The TimeoutError branch of forward_proxy_data. */
    method ForwardTimedOut(id: Id)
      modifies this
      ensures View() == ForwardTimesOut(old(View()), id) && written == old(written)
    {
      if id in conns && conns[id].task.Waiting? && !conns[id].ready {
        conns := conns[id := conns[id].(task := Ended)];
        CloseConn(id);
      }
    }

    /** The relay loop is left: end of file, idle time-out or an error. */
    method ForwardEnd(id: Id)
      modifies this
      ensures View() == ForwardEnds(old(View()), id) && written == old(written)
    {
      if id in conns && conns[id].task.Running? {
        conns := conns[id := conns[id].(task := Ended)];
        CloseConn(id);
      }
    }

    method HandleInit(id: Id)
      modifies this
      ensures View() == HandleInitConn(old(View()), id) && written == old(written)
    {
      if id in conns && conns[id].inPool {
        var writer := if bulk then Bulk else Control;
        conns := conns[id := conns[id].(clientWriter := Some(writer))];
        conns := conns[id := conns[id].(ready := true)];
      }
    }

    /** The part of forward_proxy_data between the ready event and the first read. */
    method ForwardOpen(id: Id)
      modifies this
      ensures var e := ForwardStarts(old(View()), id);
              View() == e.state && written == old(written) + AsList(e.out)
    {
      if id in conns && conns[id].task.Waiting? && conns[id].ready && conns[id].clientWriter.Some? {
        var c := conns[id];
        if c.prepend != [] {
          Write(c.clientWriter.value, Data(id, c.prepend));
        }
        conns := conns[id := c.(task := Running, prepend := [], framed := c.framed + c.prepend)];
      }
    }

    /** One iteration of the relay loop: n bytes come from the user. */
    method ForwardChunk(id: Id, n: nat)
      modifies this
      ensures var e := ForwardReads(old(View()), id, n);
              View() == e.state && written == old(written) + AsList(e.out)
    {
      if id in conns && conns[id].task.Running? && conns[id].clientWriter.Some? && 0 < n <= READ_BUF_SIZE {
        var c := conns[id];
        if n <= |c.unread| {
          var data := c.unread[..n];
          conns := conns[id := c.(unread := c.unread[n..], framed := c.framed + data)];
          Write(c.clientWriter.value, Data(id, data));
        }
      }
    }

    /** A packet from the read loop of a control or data connection. */
    method Process(channel: Channel, p: Packet)
      modifies this
      ensures View() == ServerReceives(old(View()), channel, p) && written == old(written)
    {
      match p
      case InitConn(id) =>
        if channel.Control? {
          HandleInit(id);
        }
      case Data(id, data) =>
        if id in conns && conns[id].inPool {
          var c := conns[id];
          if c.clientWriter.None? {
            c := c.(clientWriter := Some(channel));
          }
          conns := conns[id := c.(toUser := c.toUser + data)];
        }
      case Close(id) =>
        CloseConn(id);
      case NewConn(_, _) =>
    }
  }

  class FrpClient {
    const bulk: bool
    const proxies: set<string>
    var locals: map<Id, Local>
    var written: seq<Send>

    ghost function View(): Client
      reads this
    {
      Client(bulk, proxies, locals)
    }

    constructor (bulk: bool, proxies: set<string>)
      ensures View() == Client(bulk, proxies, map[]) && written == []
    {
      this.bulk, this.proxies := bulk, proxies;
      locals, written := map[], [];
    }

    function DataWriter(): Channel
    {
      if bulk then Bulk else Control
    }

    method Write(channel: Channel, p: Packet)
      modifies this
      ensures locals == old(locals) && written == old(written) + [Send(Up, channel, p)]
    {
      written := written + [Send(Up, channel, p)];
    }

    method CloseConn(id: Id)
      modifies this
      ensures View() == ClientCloses(old(View()), id) && written == old(written)
    {
      if id in locals {
        locals := locals[id := locals[id].(inPool := false)];
      }
    }

    /** handle_new_conn: the entry is in the pool before INIT_CONN is written. */
    method HandleNew(id: Id, proxy: string, connects: bool)
      modifies this
      ensures var e := HandleNewConn(old(View()), id, proxy, connects);
              View() == e.state && written == old(written) + AsList(e.out)
    {
      if proxy in proxies {
        if connects {
          locals := locals[id := Local(proxy, true, true, [], [], [], [])];
          Write(Control, InitConn(id));
        } else {
          Write(DataWriter(), Close(id));
        }
      }
    }

    /** One iteration of forward_local_data. */
    method ForwardLocal(id: Id, n: nat)
      modifies this
      ensures var e := LocalReads(old(View()), id, n);
              View() == e.state && written == old(written) + AsList(e.out)
    {
      if id in locals && locals[id].reading && 0 < n <= READ_BUF_SIZE {
        var l := locals[id];
        if n <= |l.unread| {
          var data := l.unread[..n];
          locals := locals[id := l.(unread := l.unread[n..], framed := l.framed + data)];
          Write(DataWriter(), Data(id, data));
        }
      }
    }

    /** More bytes arrive on the local service's socket. */
    method ServiceSocket(id: Id, data: seq<byte>)
      modifies this
      ensures View() == ServiceSends(old(View()), id, data) && written == old(written)
    {
      if id in locals {
        var l := locals[id];
        locals := locals[id := l.(unread := l.unread + data, fromService := l.fromService + data)];
      }
    }

    /** forward_local_data is left. */
    method LocalEnd(id: Id)
      modifies this
      ensures View() == LocalEnds(old(View()), id) && written == old(written)
    {
      if id in locals && locals[id].reading {
        locals := locals[id := locals[id].(reading := false)];
        CloseConn(id);
      }
    }

    /** process_message on the control channel, the read loop's dispatch on the data channel. */
    method Process(channel: Channel, p: Packet, connects: bool)
      modifies this
      ensures var e := ClientReceives(old(View()), channel, p, connects);
              View() == e.state && written == old(written) + AsList(e.out)
    {
      match p
      case NewConn(id, proxy) =>
        if channel.Control? {
          HandleNew(id, proxy, connects);
        }
      case Data(id, data) =>
        if channel == DataWriter() && id in locals && locals[id].inPool {
          locals := locals[id := locals[id].(toService := locals[id].toService + data)];
        }
      case Close(id) =>
        if channel == DataWriter() {
          CloseConn(id);
        }
      case InitConn(_) =>
    }
  }

  /** Both ends and what is on its way between them. */
  class TunnelSystem {
    const server: FrpServer
    const client: FrpClient
    var links: Links<seq<Packet>>

    ghost function View(): Net
      reads this, server, client
    {
      Net(Ends(server.View(), client.View()), links)
    }

    constructor (bulk: bool, proxies: set<string>)
      ensures fresh(server) && fresh(client)
      ensures View() == Initial(bulk, proxies)
    {
      server := new FrpServer(bulk);
      client := new FrpClient(bulk, proxies);
      links := Links([], [], [], []);
    }

    /** Puts on the links what an end has written since. */
    method Transmit(sent: seq<Send>)
      modifies this`links
      ensures |sent| == 0 ==> links == old(links)
      ensures |sent| == 1 ==> links == Emit(old(links), Some(sent[0]))
    {
      for i := 0 to |sent|
        invariant i == 0 ==> links == old(links)
        invariant i == 1 ==> links == Emit(old(links), Some(sent[0]))
      {
        var s := sent[i];
        links := links.With(s.dir, s.channel, links.At(s.dir, s.channel) + [s.packet]);
      }
    }

    /** A step of the server on its own. */
    method ServerActs(a: Action)
      requires a.AUserConnects? || a.AUserSends? || a.AForwardStarts? || a.AForwardTimesOut? || a.AForwardReads?
            || a.AForwardEnds? || a.AServerCloses?
      modifies this, server
      ensures View() == Next(old(View()), Do(a))
    {
      var before := |server.written|;
      ghost var start, log := View(), server.written;
      match a {
        case AUserConnects(id, proxy, head) => server.HandleProxyConn(id, proxy, head, true);
        case AUserSends(id, data) => server.UserSocket(id, data);
        case AForwardStarts(id) => server.ForwardOpen(id);
        case AForwardTimesOut(id) => server.ForwardTimedOut(id);
        case AForwardReads(id, n) => server.ForwardChunk(id, n);
        case AForwardEnds(id) => server.ForwardEnd(id);
        case AServerCloses(id) => server.CloseConn(id);
      }
      ghost var out := Act(start.ends, a).out;
      assert server.written == log + AsList(out);
      assert server.written[before..] == AsList(out);
      Transmit(server.written[before..]);
    }

    /** A step of the client on its own. */
    method ClientActs(a: Action)
      requires a.AServiceSends? || a.ALocalReads? || a.ALocalEnds? || a.AClientCloses?
      modifies this, client
      ensures View() == Next(old(View()), Do(a))
    {
      var before := |client.written|;
      ghost var start, log := View(), client.written;
      match a {
        case AServiceSends(id, data) => client.ServiceSocket(id, data);
        case ALocalReads(id, n) => client.ForwardLocal(id, n);
        case ALocalEnds(id) => client.LocalEnd(id);
        case AClientCloses(id) => client.CloseConn(id);
      }
      ghost var out := Act(start.ends, a).out;
      assert client.written == log + AsList(out);
      assert client.written[before..] == AsList(out);
      Transmit(client.written[before..]);
    }

    /** The first packet of a link reaches its end. */
    method Delivery(dir: Direction, channel: Channel, connects: bool)
      modifies this, server, client
      ensures View() == Next(old(View()), Deliver(dir, channel, connects))
    {
      var q := links.At(dir, channel);
      if q == [] {
        return;
      }
      links := links.With(dir, channel, q[1..]);
      match dir {
        case Up =>
          server.Process(channel, q[0]);
        case Down =>
          var before := |client.written|;
          ghost var c, log := client.View(), client.written;
          client.Process(channel, q[0], connects);
          ghost var out := ClientReceives(c, channel, q[0], connects).out;
          assert client.written == log + AsList(out);
          assert client.written[before..] == AsList(out);
          Transmit(client.written[before..]);
      }
    }

    /** One step of the whole system, as the state machine takes it. */
    method Step(e: Event)
      modifies this, server, client
      ensures View() == Next(old(View()), e)
    {
      match e {
        case Deliver(dir, channel, connects) => Delivery(dir, channel, connects);
        case Do(a) =>
          if a.AServiceSends? || a.ALocalReads? || a.ALocalEnds? || a.AClientCloses? {
            ClientActs(a);
          } else {
            ServerActs(a);
          }
      }
    }

    /** Any run of the objects is a run of the state machine: what holds of every run holds here. */
    method RunAll(bulk: bool, proxies: set<string>, events: seq<Event>)
      requires View() == Initial(bulk, proxies)
      modifies this, server, client
      ensures View() == Run(bulk, proxies, events)
      ensures TunnelProofs.Transparent(View())
    {
      for i := 0 to |events|
        invariant View() == Run(bulk, proxies, events[..i])
      {
        assert events[..i + 1][..i] == events[..i];
        Step(events[i]);
      }
      assert events[..|events|] == events;
      TunnelProofs.EndToEnd(bulk, proxies, events);
    }
  }
}
