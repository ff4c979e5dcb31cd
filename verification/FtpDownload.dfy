/** An FTP download from the local data service to the FTP user: the client's data connections,
    the link to the server, and the server's side of them. */
module FtpDownload {
  import opened Bytes
  import F = FtpData

  type Id = string

  const READ_BUF_SIZE := 65536

  /** An entry of the client's `ftp_data_conns`; it goes on reading until its end. */
  datatype DataConn = DataConn(reading: bool, unread: seq<byte>, framed: seq<byte>, fromService: seq<byte>)

  datatype Message = Message(d: Id, data: seq<byte>)

  datatype System = System(server: F.State, conns: map<Id, DataConn>, link: seq<Message>)

  datatype Event =
    | ServerDoes(e: F.Event)
    | ClientConnects(d: Id)          // FTP_NEW_DATA has come and open_connection succeeds
    | ServiceSends(d: Id, data: seq<byte>)
    | ClientReads(d: Id, n: nat)
    | ClientEnds(d: Id)
    | DataDelivered                  // the first DATA on the link reaches handle_data

  /** An FTP_NEW_DATA is sent once, for an id in use; DATA arrives through the link only. */
  function Next(s: System, e: Event): System {
    match e
    case ServerDoes(f) => if f.DataArrives? then s else s.(server := F.Next(s.server, f))
    case ClientConnects(d) =>
      if d !in s.server.used || d in s.conns then s else s.(conns := s.conns[d := DataConn(true, [], [], [])])
    case ServiceSends(d, data) =>
      if d !in s.conns then s
      else
        var c := s.conns[d];
        s.(conns := s.conns[d := c.(unread := c.unread + data, fromService := c.fromService + data)])
    case ClientReads(d, n) =>
      if d !in s.conns || !s.conns[d].reading || !(0 < n <= READ_BUF_SIZE && n <= |s.conns[d].unread|) then s
      else
        var c := s.conns[d];
        s.(conns := s.conns[d := c.(unread := c.unread[n..], framed := c.framed + c.unread[..n])],
           link := s.link + [Message(d, c.unread[..n])])
    case ClientEnds(d) => if d in s.conns then s.(conns := s.conns[d := s.conns[d].(reading := false)]) else s
    case DataDelivered =>
      if s.link == [] then s
      else s.(server := F.Next(s.server, F.DataArrives(s.link[0].d, s.link[0].data)), link := s.link[1..])
  }

  function Run(events: seq<Event>): System {
    if events == [] then System(F.EMPTY, map[], [])
    else Next(Run(events[..|events| - 1]), events[|events| - 1])
  }

  /** The run as the server sees it. */
  function Seen(events: seq<Event>): seq<F.Event> {
    if events == [] then []
    else
      var s := Run(events[..|events| - 1]);
      Seen(events[..|events| - 1]) + SeenNow(s, events[|events| - 1])
  }

  function SeenNow(s: System, e: Event): seq<F.Event> {
    match e
    case ServerDoes(f) => if f.DataArrives? then [] else [f]
    case DataDelivered => if s.link == [] then [] else [F.DataArrives(s.link[0].d, s.link[0].data)]
    case _ => []
  }

  lemma {:induction false} ServerRuns(events: seq<Event>)
    ensures Run(events).server == F.Run(Seen(events))
  {
    if events != [] {
      var before, e := events[..|events| - 1], events[|events| - 1];
      ServerRuns(before);
      var now := SeenNow(Run(before), e);
      if now == [] {
        assert Seen(before) + now == Seen(before);
      } else {
        F.RunSnoc(Seen(before), now[0]);
      }
    }
  }

  /** Bytes of one data connection on the link. */
  function InFlight(link: seq<Message>, d: Id): seq<byte> {
    if link == [] then [] else InFlight(link[..|link| - 1], d) + PartOf(link[|link| - 1], d)
  }

  function PartOf(m: Message, d: Id): seq<byte> {
    if m.d == d then m.data else []
  }

  lemma InFlightSnoc(link: seq<Message>, m: Message, d: Id)
    ensures InFlight(link + [m], d) == InFlight(link, d) + PartOf(m, d)
  {
    assert (link + [m])[..|link|] == link;
  }

  lemma {:induction false} InFlightPop(link: seq<Message>, d: Id)
    requires link != []
    ensures InFlight(link, d) == PartOf(link[0], d) + InFlight(link[1..], d)
  {
    if |link| == 1 {
      assert link[..0] == [] && link[1..] == [];
      assert InFlight([], d) == [];
      assert [] + PartOf(link[0], d) == PartOf(link[0], d) + [];
    } else {
      var before, last := link[..|link| - 1], link[|link| - 1];
      InFlightPop(before, d);
      assert link[1..] == before[1..] + [last];
      InFlightSnoc(before[1..], last, d);
      Assoc(PartOf(link[0], d), InFlight(before[1..], d), PartOf(last, d));
    }
  }

  // ----- conservation -----

  function Framed(s: System, d: Id): seq<byte> {
    if d in s.conns then s.conns[d].framed else []
  }

  /** While the server has the data connection: received ++ in flight is what the client framed. */
  ghost predicate Conserved(s: System, d: Id)
    requires d in s.server.ports
  {
    s.server.ports[d].received + InFlight(s.link, d) == Framed(s, d)
  }

  ghost predicate ConnsOk(s: System) {
    && (forall d :: d in s.conns ==> d in s.server.used && s.conns[d].framed + s.conns[d].unread == s.conns[d].fromService)
    && (forall m :: m in s.link ==> m.d in s.server.used)
  }

  ghost predicate Ok(s: System) {
    && F.Inv(s.server)
    && ConnsOk(s)
    && forall d :: d in s.server.ports ==> Conserved(s, d)
  }

  lemma {:induction false} UnusedNotInFlight(link: seq<Message>, d: Id)
    requires forall m :: m in link ==> m.d != d
    ensures InFlight(link, d) == []
  {
    if link != [] {
      assert link[|link| - 1] in link;
      UnusedNotInFlight(link[..|link| - 1], d);
    }
  }

  /** The server's own steps: what it has received of a data connection stays, and ids are used up. */
  lemma ServerStep(s: F.State, e: F.Event, d: Id)
    requires F.Inv(s) && !e.DataArrives?
    requires d in F.Next(s, e).ports
    ensures s.used <= F.Next(s, e).used
    ensures if d in s.ports then F.Next(s, e).ports[d].received == s.ports[d].received
            else d !in s.used && F.Next(s, e).ports[d].received == []
  {
    if d in s.ports {
      F.EntryAfter(s, e, d);
    }
  }

  lemma UsedGrows(s: F.State, e: F.Event)
    ensures s.used <= F.Next(s, e).used
  {
  }

  lemma ConservedByServer(s: System, f: F.Event, d: Id)
    requires Ok(s) && !f.DataArrives? && d in F.Next(s.server, f).ports
    ensures Conserved(s.(server := F.Next(s.server, f)), d)
  {
    ServerStep(s.server, f, d);
    hide F.Inv, F.Next;
    if d in s.server.ports {
      assert Conserved(s, d);
    } else {
      UnusedNotInFlight(s.link, d);
    }
  }

  lemma ConnsOkMore(s: System, server: F.State)
    requires ConnsOk(s) && s.server.used <= server.used
    ensures ConnsOk(s.(server := server))
  {
  }

  lemma KeepsServerDoes(s: System, f: F.Event)
    requires Ok(s) && !f.DataArrives?
    ensures Ok(Next(s, ServerDoes(f)))
  {
    F.KeepsInv(s.server, f);
    UsedGrows(s.server, f);
    ConnsOkMore(s, F.Next(s.server, f));
    hide F.Inv, F.Next, Conserved, ConnsOk;
    var s' := s.(server := F.Next(s.server, f));
    assert Next(s, ServerDoes(f)) == s';
    forall d | d in s'.server.ports
      ensures Conserved(s', d)
    {
      ConservedByServer(s, f, d);
    }
  }

  lemma Received(s: F.State, m: Message, d: Id)
    requires F.Inv(s)
    ensures var s' := F.Next(s, F.DataArrives(m.d, m.data));
            && (d in s'.ports <==> d in s.ports)
            && (d in s.ports ==> s'.ports[d].received == s.ports[d].received + PartOf(m, d))
  {
    var e := F.DataArrives(m.d, m.data);
    if d in s.ports {
      F.EntryAfter(s, e, d);
      assert s.ports[d].received + [] == s.ports[d].received;
    }
  }

  lemma ConservedByDelivery(s: System, d: Id)
    requires Ok(s) && s.link != [] && d in Next(s, DataDelivered).server.ports
    ensures Conserved(Next(s, DataDelivered), d)
  {
    var m := s.link[0];
    Received(s.server, m, d);
    assert Conserved(s, d);
    InFlightPop(s.link, d);
    hide F.Inv, F.Next;
    Assoc(s.server.ports[d].received, PartOf(m, d), InFlight(s.link[1..], d));
  }

  /** A DATA on the link is handed to the server. */
  lemma KeepsDelivered(s: System)
    requires Ok(s) && s.link != []
    ensures Ok(Next(s, DataDelivered))
  {
    F.KeepsInv(s.server, F.DataArrives(s.link[0].d, s.link[0].data));
    UsedGrows(s.server, F.DataArrives(s.link[0].d, s.link[0].data));
    hide F.Inv, F.Next, Conserved;
    assert forall x :: x in s.link[1..] ==> x in s.link;
    forall d | d in Next(s, DataDelivered).server.ports
      ensures Conserved(Next(s, DataDelivered), d)
    {
      ConservedByDelivery(s, d);
    }
  }

  lemma ConservedByRead(s: System, d: Id, n: nat, x: Id)
    requires Ok(s) && x in s.server.ports
    ensures Conserved(Next(s, ClientReads(d, n)), x)
  {
    assert Conserved(s, x);
    var s' := Next(s, ClientReads(d, n));
    hide F.Inv;
    if s' != s {
      var m := Message(d, s.conns[d].unread[..n]);
      InFlightSnoc(s.link, m, x);
      Assoc(s.server.ports[x].received, InFlight(s.link, x), PartOf(m, x));
      assert Framed(s, x) + [] == Framed(s, x);
    }
  }

  lemma ConnsOkRead(s: System, d: Id, n: nat)
    requires ConnsOk(s)
    ensures ConnsOk(Next(s, ClientReads(d, n)))
  {
    if Next(s, ClientReads(d, n)) != s {
      var c := s.conns[d];
      Assoc(c.framed, c.unread[..n], c.unread[n..]);
      assert c.unread[..n] + c.unread[n..] == c.unread;
    }
  }

  /** A read of the client frames what it takes off the socket. */
  lemma KeepsReads(s: System, d: Id, n: nat)
    requires Ok(s)
    ensures Ok(Next(s, ClientReads(d, n)))
  {
    var s' := Next(s, ClientReads(d, n));
    ConnsOkRead(s, d, n);
    assert s'.server == s.server;
    hide F.Inv, Conserved, ConnsOk;
    forall x | x in s'.server.ports
      ensures Conserved(s', x)
    {
      ConservedByRead(s, d, n, x);
    }
  }

  lemma KeepsSends(s: System, d: Id, data: seq<byte>)
    requires Ok(s)
    ensures Ok(Next(s, ServiceSends(d, data)))
  {
    var s' := Next(s, ServiceSends(d, data));
    if d in s.conns {
      Assoc(s.conns[d].framed, s.conns[d].unread, data);
    }
    forall x | x in s'.server.ports
      ensures Conserved(s', x)
    {
      assert Conserved(s, x);
    }
  }

  lemma KeepsClient(s: System, e: Event)
    requires Ok(s) && (e.ClientConnects? || e.ClientEnds?)
    ensures Ok(Next(s, e))
  {
    var s' := Next(s, e);
    assert forall x :: Framed(s', x) == Framed(s, x);
    forall x | x in s'.server.ports
      ensures Conserved(s', x)
    {
      assert Conserved(s, x);
    }
  }

  lemma {:induction false} RunOk(events: seq<Event>)
    ensures Ok(Run(events))
  {
    if events == [] {
      F.RunInv([]);
    } else {
      var s, e := Run(events[..|events| - 1]), events[|events| - 1];
      RunOk(events[..|events| - 1]);
      match e
      case ServerDoes(f) =>
        if !f.DataArrives? {
          KeepsServerDoes(s, f);
        }
      case ClientReads(d, n) => KeepsReads(s, d, n);
      case ServiceSends(d, data) => KeepsSends(s, d, data);
      case DataDelivered =>
        if s.link != [] {
          KeepsDelivered(s);
        }
      case _ => KeepsClient(s, e);
    }
  }

  /** From the local data service to the FTP user, in every reachable state and with one user per
      listener: what has reached the user is a prefix of what the service sent; and unless bytes
      came after the user's wait had timed out, delivered ++ buffered ++ in flight ++ unread is all
      that the service sent. */
  lemma DownloadEndToEnd(events: seq<Event>, d: Id, user: F.User)
    requires d in Run(events).server.ports && d in Run(events).conns
    requires F.OnlyUser(Seen(events), d, user)
    ensures var s := Run(events);
            var i, c := s.server.ports[d], s.conns[d];
            && F.Delivered(i.written, user) <= c.fromService
            && (!F.LateData(Seen(events), d, user) ==>
                 F.Delivered(i.written, user) + i.buffer + InFlight(s.link, d) + c.unread == c.fromService)
  {
    var s := Run(events);
    ServerRuns(events);
    RunOk(events);
    F.DeliveredIsPrefix(Seen(events), d, user);
    F.DownloadReachesUser(Seen(events), d, user);
    assert Conserved(s, d);
  }

  /** Before the client has connected to the local data service, nothing has been received. */
  lemma NothingBeforeConnect(events: seq<Event>, d: Id)
    requires d in Run(events).server.ports && d !in Run(events).conns
    ensures Run(events).server.ports[d].received == [] && InFlight(Run(events).link, d) == []
  {
    RunOk(events);
    assert Conserved(Run(events), d);
  }

  // ----- the client's side, told from the events -----

  /** What the local data service sent. */
  function Sent(events: seq<Event>, d: Id): seq<byte> {
    if events == [] then []
    else
      var e := events[|events| - 1];
      Sent(events[..|events| - 1], d) + (if e.ServiceSends? && e.d == d then e.data else [])
  }

  lemma RunSnoc(before: seq<Event>, e: Event)
    ensures Run(before + [e]) == Next(Run(before), e)
  {
    assert (before + [e])[..|before|] == before;
  }

  /** What one event makes of the client's side of a data connection. */
  lemma ConnAfter(s: System, e: Event, d: Id)
    ensures d in Next(s, e).conns <==> d in s.conns || (e == ClientConnects(d) && d in s.server.used)
    ensures d in s.conns ==>
              var c, c' := s.conns[d], Next(s, e).conns[d];
              && c'.fromService == c.fromService + (if e.ServiceSends? && e.d == d then e.data else [])
              && (c'.reading <==> c.reading && e != ClientEnds(d))
              && (!c.reading ==> c'.framed == c.framed)
    ensures d !in s.conns && d in Next(s, e).conns ==> Next(s, e).conns[d] == DataConn(true, [], [], [])
  {
    if d in s.conns {
      assert s.conns[d].fromService + [] == s.conns[d].fromService;
    }
  }

  /** From its connection on, the client's side has seen all that the service sent, and reads until
      it is ended. */
  lemma {:induction false} ConnHolds(before: seq<Event>, after: seq<Event>, d: Id)
    requires d !in Run(before).conns && d in Run(before).server.used
    ensures d in Run(before + [ClientConnects(d)] + after).conns
    ensures var c := Run(before + [ClientConnects(d)] + after).conns[d];
            c.fromService == Sent(after, d) && (c.reading <==> ClientEnds(d) !in after)
  {
    var start := before + [ClientConnects(d)];
    if after == [] {
      assert start + after == start;
      RunSnoc(before, ClientConnects(d));
    } else {
      var rest, e := after[..|after| - 1], after[|after| - 1];
      SplitLast(after);
      ConnHolds(before, rest, d);
      assert start + after == start + rest + [e];
      RunSnoc(start + rest, e);
      ConnAfter(Run(start + rest), e, d);
      assert ClientEnds(d) in after <==> ClientEnds(d) in rest || e == ClientEnds(d);
    }
  }

  /** Once ended it frames nothing more, whatever the service still sends. */
  lemma {:induction false} EndedFramesNothing(events: seq<Event>, more: seq<Event>, d: Id)
    requires d in Run(events).conns && !Run(events).conns[d].reading
    ensures d in Run(events + more).conns && !Run(events + more).conns[d].reading
    ensures Run(events + more).conns[d].framed == Run(events).conns[d].framed
  {
    if more == [] {
      assert events + more == events;
    } else {
      var rest, e := more[..|more| - 1], more[|more| - 1];
      EndedFramesNothing(events, rest, d);
      assert events + more == events + rest + [e];
      RunSnoc(events + rest, e);
      ConnAfter(Run(events + rest), e, d);
    }
  }
}
