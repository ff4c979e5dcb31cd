/** Which entries the two ends of the tunnel hold, and what they stand for, told from the events
    of a run. */
module TunnelHistory {
  import opened Bytes
  import opened Tunnel
  import TunnelProofs
  import TunnelRouting

  /** The packet at the head of a link is handed over. */
  ghost predicate Hands(net: Net, e: Event, dir: Direction, channel: Channel, p: Packet) {
    e.Deliver? && e.dir == dir && e.channel == channel && net.links.At(dir, channel) != [] && net.links.At(dir, channel)[0] == p
  }

  /** The payload that an event hands to this end of the connection. */
  function Arriving(net: Net, e: Event, dir: Direction, id: Id): seq<byte> {
    if e.Deliver? && e.dir == dir && net.links.At(dir, e.channel) != [] then Payload(net.links.At(dir, e.channel)[0], id) else []
  }

  lemma RunSnoc(bulk: bool, proxies: set<string>, before: seq<Event>, e: Event)
    ensures Run(bulk, proxies, before + [e]) == Next(Run(bulk, proxies, before), e)
  {
    assert (before + [e])[..|before|] == before;
  }

  // ----- the server's entries -----

  /** The server closes the entry, its forwarding ends or waits in vain, or CLOSE comes for it. */
  ghost predicate ClosesConn(net: Net, e: Event, id: Id)
    requires id in net.ends.server.conns
  {
    var c := net.ends.server.conns[id];
    || e == Do(AServerCloses(id))
    || (e == Do(AForwardEnds(id)) && c.task.Running?)
    || (e == Do(AForwardTimesOut(id)) && c.task.Waiting? && !c.ready)
    || Hands(net, e, Up, Control, Close(id)) || Hands(net, e, Up, Bulk, Close(id))
  }

  /** What one event makes of an entry: it is ready once INIT_CONN came, takes what arrives only
      while in the pool, and frames nothing once its task has ended. */
  ghost predicate ConnStep(net: Net, e: Event, id: Id, c: Conn, c': Conn)
    requires id in net.ends.server.conns
  {
    && c'.proxy == c.proxy
    && c'.fromUser == c.fromUser + UserPart(e, id)
    && (c'.inPool <==> c.inPool && !ClosesConn(net, e, id))
    && (c'.ready <==> c.ready || (c.inPool && Hands(net, e, Up, Control, InitConn(id))))
    && c'.toUser == c.toUser + (if c.inPool then Arriving(net, e, Up, id) else [])
    && (c.task.Ended? ==> c'.task.Ended? && c'.framed == c.framed)
    && (c'.task.Ended? && !c.task.Ended? ==> !c'.inPool)
  }

  function UserPart(e: Event, id: Id): seq<byte> {
    if e.Do? && e.action.AUserSends? && e.action.id == id then e.action.data else []
  }

  lemma ConnAfterAct(net: Net, a: Action, id: Id)
    requires id in net.ends.server.conns
    ensures id in Next(net, Do(a)).ends.server.conns
    ensures ConnStep(net, Do(a), id, net.ends.server.conns[id], Next(net, Do(a)).ends.server.conns[id])
  {
    var c := net.ends.server.conns[id];
    assert c.fromUser + [] == c.fromUser && c.toUser + [] == c.toUser;
  }

  lemma ConnAfterDelivery(net: Net, e: Event, id: Id)
    requires id in net.ends.server.conns && e.Deliver?
    ensures id in Next(net, e).ends.server.conns
    ensures ConnStep(net, e, id, net.ends.server.conns[id], Next(net, e).ends.server.conns[id])
  {
    var c := net.ends.server.conns[id];
    assert c.fromUser + [] == c.fromUser && c.toUser + [] == c.toUser;
  }

  lemma ConnAfter(net: Net, e: Event, id: Id)
    requires id in net.ends.server.conns
    ensures id in Next(net, e).ends.server.conns
    ensures ConnStep(net, e, id, net.ends.server.conns[id], Next(net, e).ends.server.conns[id])
  {
    match e
    case Do(a) => ConnAfterAct(net, a, id);
    case Deliver(_, _, _) => ConnAfterDelivery(net, e, id);
  }

  ghost predicate Connects(e: Event, id: Id) {
    e.Do? && e.action.AUserConnects? && e.action.id == id
  }

  lemma ConnEnters(net: Net, e: Event, id: Id)
    requires id !in net.ends.server.conns
    ensures id in Next(net, e).ends.server.conns <==> Connects(e, id)
    ensures Connects(e, id) ==>
              var c := Next(net, e).ends.server.conns[id];
              c.proxy == e.action.proxy && c.fromUser == e.action.head && c.toUser == [] && c.inPool && !c.ready && c.task.Waiting?
  {
  }

  /** The server has an entry for every user that has connected, for ever. */
  lemma {:induction false} ConnsIff(bulk: bool, proxies: set<string>, events: seq<Event>, id: Id)
    ensures id in Run(bulk, proxies, events).ends.server.conns <==> exists e :: e in events && Connects(e, id)
  {
    if events != [] {
      var before, e := events[..|events| - 1], events[|events| - 1];
      ConnsIff(bulk, proxies, before, id);
      SplitLast(events);
      RunSnoc(bulk, proxies, before, e);
      var net := Run(bulk, proxies, before);
      hide Run, Next, Connects;
      if id in net.ends.server.conns {
        ConnAfter(net, e, id);
      } else {
        ConnEnters(net, e, id);
      }
      assert forall x :: x in events <==> x in before || x == e;
    }
  }

  /** What a user sends in these events. */
  function UserSent(events: seq<Event>, id: Id): seq<byte> {
    if events == [] then [] else UserSent(events[..|events| - 1], id) + UserPart(events[|events| - 1], id)
  }

  /** An entry stands for the proxy its user came through; the head it connected with and what it
      sent since are what the model counts as sent. */
  lemma {:induction false} ConnHolds(bulk: bool, proxies: set<string>, before: seq<Event>, id: Id, proxy: string,
                                     head: seq<byte>, after: seq<Event>)
    requires id !in Run(bulk, proxies, before).ends.server.conns
    ensures var net := Run(bulk, proxies, before + [Do(AUserConnects(id, proxy, head))] + after);
            && id in net.ends.server.conns
            && net.ends.server.conns[id].proxy == proxy
            && net.ends.server.conns[id].fromUser == head + UserSent(after, id)
    decreases |after|
  {
    var connect := Do(AUserConnects(id, proxy, head));
    var start := before + [connect];
    if after == [] {
      RunSnoc(bulk, proxies, before, connect);
      ConnEnters(Run(bulk, proxies, before), connect, id);
      assert start + after == start && head + [] == head;
    } else {
      var rest, e := after[..|after| - 1], after[|after| - 1];
      ConnHolds(bulk, proxies, before, id, proxy, head, rest);
      SplitLast(after);
      assert start + after == start + rest + [e];
      RunSnoc(bulk, proxies, start + rest, e);
      ConnAfter(Run(bulk, proxies, start + rest), e, id);
      Assoc(head, UserSent(rest, id), UserPart(e, id));
    }
  }

  /** Event k connects the user, and no later event closes the entry. */
  ghost predicate OpenSince(bulk: bool, proxies: set<string>, events: seq<Event>, k: nat, id: Id)
    requires k < |events|
  {
    && Connects(events[k], id) && id !in Run(bulk, proxies, events[..k]).ends.server.conns
    && forall j :: k < j < |events| ==>
         var net := Run(bulk, proxies, events[..j]); id in net.ends.server.conns && !ClosesConn(net, events[j], id)
  }

  ghost predicate IsOpen(bulk: bool, proxies: set<string>, events: seq<Event>, id: Id) {
    exists k :: 0 <= k < |events| && OpenSince(bulk, proxies, events, k, id)
  }

  ghost predicate StaysOpen(net: Net, e: Event, id: Id) {
    id in net.ends.server.conns && !ClosesConn(net, e, id)
  }

  lemma OpenSinceSnoc(bulk: bool, proxies: set<string>, before: seq<Event>, e: Event, k: nat, id: Id)
    requires k <= |before|
    ensures var net := Run(bulk, proxies, before);
            OpenSince(bulk, proxies, before + [e], k, id) <==>
              if k == |before| then Connects(e, id) && id !in net.ends.server.conns
              else OpenSince(bulk, proxies, before, k, id) && StaysOpen(net, e, id)
  {
    hide Run, Connects, ClosesConn;
    var events := before + [e];
    assert forall j :: 0 <= j <= |before| ==> events[..j] == before[..j];
    assert events[..|before|] == before;
  }

  lemma IsOpenSnoc(bulk: bool, proxies: set<string>, before: seq<Event>, e: Event, id: Id)
    ensures var net := Run(bulk, proxies, before);
            IsOpen(bulk, proxies, before + [e], id) <==>
              || (Connects(e, id) && id !in net.ends.server.conns)
              || (IsOpen(bulk, proxies, before, id) && StaysOpen(net, e, id))
  {
    hide Run, Connects, StaysOpen, OpenSince;
    var net, events := Run(bulk, proxies, before), before + [e];
    OpenSinceSnoc(bulk, proxies, before, e, |before|, id);
    assert Connects(e, id) && id !in net.ends.server.conns ==> OpenSince(bulk, proxies, events, |before|, id);
    if IsOpen(bulk, proxies, before, id) && StaysOpen(net, e, id) {
      var k :| 0 <= k < |before| && OpenSince(bulk, proxies, before, k, id);
      OpenSinceSnoc(bulk, proxies, before, e, k, id);
      assert OpenSince(bulk, proxies, events, k, id);
    }
    if IsOpen(bulk, proxies, events, id) {
      var k :| 0 <= k < |events| && OpenSince(bulk, proxies, events, k, id);
      OpenSinceSnoc(bulk, proxies, before, e, k, id);
    }
  }

  /** In every run the server's pool holds exactly the connections of users that connected and
      that nothing has closed since. */
  lemma {:induction false} InPoolIff(bulk: bool, proxies: set<string>, events: seq<Event>, id: Id)
    ensures var conns := Run(bulk, proxies, events).ends.server.conns;
            (id in conns && conns[id].inPool) <==> IsOpen(bulk, proxies, events, id)
  {
    if events == [] {
      assert !IsOpen(bulk, proxies, events, id);
    } else {
      var before, e := events[..|events| - 1], events[|events| - 1];
      var net := Run(bulk, proxies, before);
      InPoolIff(bulk, proxies, before, id);
      SplitLast(events);
      RunSnoc(bulk, proxies, before, e);
      IsOpenSnoc(bulk, proxies, before, e, id);
      hide Run, Next, Connects, IsOpen, ClosesConn;
      if id in net.ends.server.conns {
        ConnAfter(net, e, id);
      } else {
        ConnEnters(net, e, id);
      }
    }
  }

  /** Out of the pool for good: nothing more reaches the user, and nothing makes it ready. */
  lemma {:induction false} ClosedIsFinal(bulk: bool, proxies: set<string>, events: seq<Event>, more: seq<Event>, id: Id)
    requires id in Run(bulk, proxies, events).ends.server.conns
    ensures id in Run(bulk, proxies, events + more).ends.server.conns
    ensures var c, c' := Run(bulk, proxies, events).ends.server.conns[id], Run(bulk, proxies, events + more).ends.server.conns[id];
            && (!c.inPool ==> !c'.inPool && c'.toUser == c.toUser && c'.ready == c.ready)
            && (c.task.Ended? ==> c'.task.Ended? && c'.framed == c.framed)
  {
    if more == [] {
      assert events + more == events;
    } else {
      var rest, e := more[..|more| - 1], more[|more| - 1];
      ClosedIsFinal(bulk, proxies, events, rest, id);
      SplitLast(more);
      assert events + more == events + rest + [e];
      RunSnoc(bulk, proxies, events + rest, e);
      hide Run, Next, ClosesConn;
      ConnAfter(Run(bulk, proxies, events + rest), e, id);
    }
  }

  // ----- the client's entries -----

  /** NEW_CONN for a proxy of the client, and the local service accepts the connection. */
  ghost predicate OpensLocal(net: Net, e: Event, id: Id) {
    exists proxy :: proxy in net.ends.client.proxies && Hands(net, e, Down, Control, NewConn(id, proxy)) && e.connects
  }

  ghost predicate ClosesLocal(net: Net, e: Event, id: Id)
    requires id in net.ends.client.locals
  {
    || e == Do(AClientCloses(id))
    || (e == Do(ALocalEnds(id)) && net.ends.client.locals[id].reading)
    || Hands(net, e, Down, Home(net.ends.client.bulk), Close(id))
  }

  function ServicePart(e: Event, id: Id): seq<byte> {
    if e.Do? && e.action.AServiceSends? && e.action.id == id then e.action.data else []
  }

  /** What one event makes of a local connection. */
  ghost predicate LocalStep(net: Net, e: Event, id: Id, l: Local, l': Local)
    requires id in net.ends.client.locals
  {
    && l'.proxy == l.proxy
    && l'.fromService == l.fromService + ServicePart(e, id)
    && (l'.inPool <==> l.inPool && !ClosesLocal(net, e, id))
    && (l'.reading <==> l.reading && e != Do(ALocalEnds(id)))
    && l'.toService
       == l.toService + (if l.inPool && e.Deliver? && e.channel == Home(net.ends.client.bulk) then Arriving(net, e, Down, id) else [])
    && (!l.reading ==> l'.framed == l.framed)
  }

  lemma LocalAfterAct(net: Net, a: Action, id: Id)
    requires id in net.ends.client.locals
    ensures id in Next(net, Do(a)).ends.client.locals
    ensures LocalStep(net, Do(a), id, net.ends.client.locals[id], Next(net, Do(a)).ends.client.locals[id])
  {
    var l := net.ends.client.locals[id];
    assert l.fromService + [] == l.fromService && l.toService + [] == l.toService;
  }

  lemma LocalAfterUp(net: Net, e: Event, id: Id)
    requires id in net.ends.client.locals && e.Deliver? && e.dir.Up?
    ensures id in Next(net, e).ends.client.locals
    ensures LocalStep(net, e, id, net.ends.client.locals[id], Next(net, e).ends.client.locals[id])
  {
    var l := net.ends.client.locals[id];
    assert l.fromService + [] == l.fromService && l.toService + [] == l.toService;
    assert Next(net, e).ends.client == net.ends.client;
    hide Next;
  }

  /** A NEW_CONN never names a connection that the client has. */
  lemma LocalAfterDown(net: Net, e: Event, id: Id)
    requires NewsOk(net.links.downControl, net.ends.client.locals) && id in net.ends.client.locals && e.Deliver? && e.dir.Down?
    ensures id in Next(net, e).ends.client.locals
    ensures LocalStep(net, e, id, net.ends.client.locals[id], Next(net, e).ends.client.locals[id])
  {
    var l, q := net.ends.client.locals[id], net.links.At(Down, e.channel);
    assert l.fromService + [] == l.fromService && l.toService + [] == l.toService;
    if q == [] {
      assert Next(net, e) == net;
    } else {
      assert e.channel.Control? && q[0].NewConn? ==> q[0].id != id;
      assert Next(net, e).ends.client == ClientReceives(net.ends.client, e.channel, q[0], e.connects).state;
    }
    hide Next, NewsOk;
  }

  lemma LocalAfter(net: Net, e: Event, id: Id)
    requires Inv(net) && id in net.ends.client.locals
    ensures id in Next(net, e).ends.client.locals
    ensures LocalStep(net, e, id, net.ends.client.locals[id], Next(net, e).ends.client.locals[id])
  {
    assert NewsOk(net.links.downControl, net.ends.client.locals);
    hide Inv, Next, LocalStep, NewsOk;
    match e
    case Do(a) => LocalAfterAct(net, a, id);
    case Deliver(dir, _, _) =>
      if dir.Up? {
        LocalAfterUp(net, e, id);
      } else {
        LocalAfterDown(net, e, id);
      }
  }

  lemma LocalEnters(net: Net, e: Event, id: Id)
    requires id !in net.ends.client.locals
    ensures id in Next(net, e).ends.client.locals <==> OpensLocal(net, e, id)
    ensures OpensLocal(net, e, id) ==>
              var l := Next(net, e).ends.client.locals[id];
              l.inPool && l.reading && l.fromService == [] && l.toService == []
  {
    if e.Deliver? && e.dir.Down? && e.channel.Control? && net.links.downControl != [] && net.links.downControl[0].NewConn? {
      var p := net.links.downControl[0];
      assert Hands(net, e, Down, Control, NewConn(p.id, p.proxy));
    }
  }

  /** What the service sends in these events. */
  function ServiceSent(events: seq<Event>, id: Id): seq<byte> {
    if events == [] then [] else ServiceSent(events[..|events| - 1], id) + ServicePart(events[|events| - 1], id)
  }

  /** From its opening on a local connection holds all that the service sent, and is read until it
      ends. */
  lemma {:induction false} LocalHolds(bulk: bool, proxies: set<string>, before: seq<Event>, opening: Event, after: seq<Event>, id: Id)
    requires var net := Run(bulk, proxies, before); id !in net.ends.client.locals && OpensLocal(net, opening, id)
    ensures var net := Run(bulk, proxies, before + [opening] + after);
            && id in net.ends.client.locals
            && net.ends.client.locals[id].fromService == ServiceSent(after, id)
            && (net.ends.client.locals[id].reading <==> Do(ALocalEnds(id)) !in after)
    decreases |after|
  {
    var start := before + [opening];
    if after == [] {
      RunSnoc(bulk, proxies, before, opening);
      LocalEnters(Run(bulk, proxies, before), opening, id);
      assert start + after == start;
    } else {
      var rest, e := after[..|after| - 1], after[|after| - 1];
      LocalHolds(bulk, proxies, before, opening, rest, id);
      SplitLast(after);
      assert start + after == start + rest + [e];
      RunSnoc(bulk, proxies, start + rest, e);
      TunnelProofs.RunInv(bulk, proxies, start + rest);
      LocalAfter(Run(bulk, proxies, start + rest), e, id);
      assert Do(ALocalEnds(id)) in after <==> Do(ALocalEnds(id)) in rest || e == Do(ALocalEnds(id));
    }
  }

  /** Event k opens the local connection, and no later event closes it. */
  ghost predicate LocalSince(bulk: bool, proxies: set<string>, events: seq<Event>, k: nat, id: Id)
    requires k < |events|
  {
    && OpensLocal(Run(bulk, proxies, events[..k]), events[k], id) && id !in Run(bulk, proxies, events[..k]).ends.client.locals
    && forall j :: k < j < |events| ==> LocalStays(Run(bulk, proxies, events[..j]), events[j], id)
  }

  ghost predicate LocalStays(net: Net, e: Event, id: Id) {
    id in net.ends.client.locals && !ClosesLocal(net, e, id)
  }

  ghost predicate LocalIsOpen(bulk: bool, proxies: set<string>, events: seq<Event>, id: Id) {
    exists k :: 0 <= k < |events| && LocalSince(bulk, proxies, events, k, id)
  }

  lemma LocalSinceSnoc(bulk: bool, proxies: set<string>, before: seq<Event>, e: Event, k: nat, id: Id)
    requires k <= |before|
    ensures var net := Run(bulk, proxies, before);
            LocalSince(bulk, proxies, before + [e], k, id) <==>
              if k == |before| then OpensLocal(net, e, id) && id !in net.ends.client.locals
              else LocalSince(bulk, proxies, before, k, id) && LocalStays(net, e, id)
  {
    hide Run, OpensLocal, LocalStays;
    var events := before + [e];
    assert forall j :: 0 <= j <= |before| ==> events[..j] == before[..j];
    assert events[..|before|] == before;
  }

  lemma LocalIsOpenSnoc(bulk: bool, proxies: set<string>, before: seq<Event>, e: Event, id: Id)
    ensures var net := Run(bulk, proxies, before);
            LocalIsOpen(bulk, proxies, before + [e], id) <==>
              || (OpensLocal(net, e, id) && id !in net.ends.client.locals)
              || (LocalIsOpen(bulk, proxies, before, id) && LocalStays(net, e, id))
  {
    hide Run, OpensLocal, LocalStays, LocalSince;
    var net, events := Run(bulk, proxies, before), before + [e];
    LocalSinceSnoc(bulk, proxies, before, e, |before|, id);
    assert OpensLocal(net, e, id) && id !in net.ends.client.locals ==> LocalSince(bulk, proxies, events, |before|, id);
    if LocalIsOpen(bulk, proxies, before, id) && LocalStays(net, e, id) {
      var k :| 0 <= k < |before| && LocalSince(bulk, proxies, before, k, id);
      LocalSinceSnoc(bulk, proxies, before, e, k, id);
      assert LocalSince(bulk, proxies, events, k, id);
    }
    if LocalIsOpen(bulk, proxies, events, id) {
      var k :| 0 <= k < |events| && LocalSince(bulk, proxies, events, k, id);
      LocalSinceSnoc(bulk, proxies, before, e, k, id);
    }
  }

  /** In every run the client's pool holds exactly the local connections opened for a NEW_CONN and
      not closed since. */
  lemma {:induction false} LocalInPoolIff(bulk: bool, proxies: set<string>, events: seq<Event>, id: Id)
    ensures var locals := Run(bulk, proxies, events).ends.client.locals;
            (id in locals && locals[id].inPool) <==> LocalIsOpen(bulk, proxies, events, id)
  {
    if events == [] {
      assert !LocalIsOpen(bulk, proxies, events, id);
    } else {
      var before, e := events[..|events| - 1], events[|events| - 1];
      var net := Run(bulk, proxies, before);
      LocalInPoolIff(bulk, proxies, before, id);
      SplitLast(events);
      RunSnoc(bulk, proxies, before, e);
      LocalIsOpenSnoc(bulk, proxies, before, e, id);
      TunnelProofs.RunInv(bulk, proxies, before);
      hide Run, Next, OpensLocal, LocalIsOpen, ClosesLocal, Inv;
      if id in net.ends.client.locals {
        LocalAfter(net, e, id);
      } else {
        LocalEnters(net, e, id);
      }
    }
  }

  /** Out of the client's pool for good: nothing more reaches the service; and once the service's
      side has ended, nothing more of it is framed. */
  lemma {:induction false} LocalClosedIsFinal(bulk: bool, proxies: set<string>, events: seq<Event>, more: seq<Event>, id: Id)
    requires id in Run(bulk, proxies, events).ends.client.locals
    ensures id in Run(bulk, proxies, events + more).ends.client.locals
    ensures var l, l' := Run(bulk, proxies, events).ends.client.locals[id], Run(bulk, proxies, events + more).ends.client.locals[id];
            && (!l.inPool ==> !l'.inPool && l'.toService == l.toService)
            && (!l.reading ==> !l'.reading && l'.framed == l.framed)
  {
    if more == [] {
      assert events + more == events;
    } else {
      var rest, e := more[..|more| - 1], more[|more| - 1];
      LocalClosedIsFinal(bulk, proxies, events, rest, id);
      SplitLast(more);
      assert events + more == events + rest + [e];
      RunSnoc(bulk, proxies, events + rest, e);
      TunnelProofs.RunInv(bulk, proxies, events + rest);
      hide Run, Next, ClosesLocal, Inv;
      LocalAfter(Run(bulk, proxies, events + rest), e, id);
    }
  }

  /** From the user to the service, told from the events alone: the service gets a prefix of the
      head and of what the user sent since it connected, from the local connection opened for the
      proxy the user came through. */
  lemma UserReachesService(bulk: bool, proxies: set<string>, before: seq<Event>, id: Id, proxy: string,
                           head: seq<byte>, after: seq<Event>)
    requires id !in Run(bulk, proxies, before).ends.server.conns
    ensures var net := Run(bulk, proxies, before + [Do(AUserConnects(id, proxy, head))] + after);
            id in net.ends.client.locals ==>
              var l := net.ends.client.locals[id];
              && l.proxy == proxy && id in net.ends.server.conns
              && l.toService <= head + UserSent(after, id)
              && (l.inPool ==>
                   l.toService + InFlight(net.links.At(Down, Home(bulk)), id) + Pending(net.ends.server.conns[id])
                   == head + UserSent(after, id))
  {
    var events := before + [Do(AUserConnects(id, proxy, head))] + after;
    ConnHolds(bulk, proxies, before, id, proxy, head, after);
    TunnelProofs.EndToEnd(bulk, proxies, events);
    TunnelProofs.RunBulk(bulk, proxies, events);
    if id in Run(bulk, proxies, events).ends.client.locals {
      TunnelRouting.RightService(bulk, proxies, events, id);
    }
  }

  /** And back: the user gets a prefix of what the service sent since the local connection was
      opened, and while the server has the entry the rest is on its way or waits at the client. */
  lemma ServiceReachesUser(bulk: bool, proxies: set<string>, before: seq<Event>, opening: Event, after: seq<Event>, id: Id)
    requires var net := Run(bulk, proxies, before); id !in net.ends.client.locals && OpensLocal(net, opening, id)
    ensures var net := Run(bulk, proxies, before + [opening] + after);
            && id in net.ends.server.conns && id in net.ends.client.locals
            && var c, l := net.ends.server.conns[id], net.ends.client.locals[id];
               && c.toUser <= ServiceSent(after, id)
               && (c.inPool ==>
                    c.toUser + InFlight(net.links.At(Up, Home(bulk)), id) + l.unread == ServiceSent(after, id))
  {
    var events := before + [opening] + after;
    LocalHolds(bulk, proxies, before, opening, after, id);
    TunnelProofs.EndToEnd(bulk, proxies, events);
    TunnelProofs.RunBulk(bulk, proxies, events);
  }
}
