/** The tunnel does not get stuck: from every reachable state a connection that is open, or
    still opening, can be brought to the point where everything sent has been delivered. */
module TunnelProgress {
  import opened Bytes
  import opened Tunnel
  import opened TunnelOpening
  import opened TunnelProofs
  import opened TunnelRouting
  import FtpReply

  function Steps(net: Net, events: seq<Event>): Net
    decreases |events|
  {
    if events == [] then net else Steps(Next(net, events[0]), events[1..])
  }

  lemma {:induction false} StepsConcat(net: Net, a: seq<Event>, b: seq<Event>)
    ensures Steps(net, a + b) == Steps(Steps(net, a), b)
    decreases |a|
  {
    if a == [] {
      assert a + b == b;
    } else {
      assert (a + b)[1..] == a[1..] + b;
      StepsConcat(Next(net, a[0]), a[1..], b);
    }
  }

  lemma {:induction false} RunSteps(bulk: bool, proxies: set<string>, events: seq<Event>, more: seq<Event>)
    ensures Run(bulk, proxies, events + more) == Steps(Run(bulk, proxies, events), more)
    decreases |more|
  {
    if more == [] {
      assert events + more == events;
    } else {
      var events' := events + [more[0]];
      assert events'[..|events|] == events;
      assert events + more == events' + more[1..];
      RunSteps(bulk, proxies, events', more[1..]);
    }
  }

  /** Nobody connects: the events are those of connections already there. */
  ghost predicate NoNewUsers(events: seq<Event>) {
    forall e :: e in events && e.Do? ==> !e.action.AUserConnects?
  }

  // ----- towards the local service -----

  /** The client has the connection open and the server knows; the relay task is alive, also if
      the entry has left the server's pool. */
  ghost predicate CanFlowDown(net: Net, id: Id) {
    && Inv(net)
    && id in net.ends.client.locals && net.ends.client.locals[id].inPool
    && id in net.ends.server.conns && net.ends.server.conns[id].ready
    && !net.ends.server.conns[id].task.Ended?
  }

  ghost predicate SameUser(net: Net, net': Net, id: Id)
    requires id in net.ends.server.conns
  {
    && id in net'.ends.server.conns
    && net'.ends.server.conns[id].fromUser == net.ends.server.conns[id].fromUser
    && net'.ends.server.bulk == net.ends.server.bulk
  }

  lemma StartForwarding(net: Net, id: Id)
    requires CanFlowDown(net, id)
    ensures var net' := Next(net, Do(AForwardStarts(id)));
            && CanFlowDown(net', id) && SameUser(net, net', id)
            && net'.ends.server.conns[id].task.Running? && net'.ends.server.conns[id].prepend == []
  {
    KeepsInv(net, Do(AForwardStarts(id)));
    assert ConnOk(net.ends, id);
  }

  /** One read of the relay task takes the bytes it can off the user's socket. */
  lemma ReadChunk(net: Net, id: Id, n: nat)
    requires CanFlowDown(net, id) && net.ends.server.conns[id].task.Running? && net.ends.server.conns[id].prepend == []
    requires 0 < n <= READ_BUF_SIZE && n <= |net.ends.server.conns[id].unread|
    ensures var net' := Next(net, Do(AForwardReads(id, n)));
            && CanFlowDown(net', id) && SameUser(net, net', id)
            && net'.ends.server.conns[id].task.Running? && net'.ends.server.conns[id].prepend == []
            && |net'.ends.server.conns[id].unread| < |net.ends.server.conns[id].unread|
  {
    assert ConnOk(net.ends, id);
    KeepsInv(net, Do(AForwardReads(id, n)));
    hide Inv;
  }

  lemma {:induction false} ReadEverything(net: Net, id: Id) returns (events: seq<Event>)
    requires CanFlowDown(net, id) && net.ends.server.conns[id].task.Running? && net.ends.server.conns[id].prepend == []
    ensures var net' := Steps(net, events);
            CanFlowDown(net', id) && SameUser(net, net', id) && Pending(net'.ends.server.conns[id]) == []
    ensures NoNewUsers(events)
    decreases |net.ends.server.conns[id].unread|
  {
    hide Inv, Next;
    var c := net.ends.server.conns[id];
    events := [];
    if c.unread != [] {
      var n := if |c.unread| <= READ_BUF_SIZE then |c.unread| else READ_BUF_SIZE;
      var e := Do(AForwardReads(id, n));
      ReadChunk(net, id, n);
      var rest := ReadEverything(Next(net, e), id);
      events := [e] + rest;
    }
  }

  /** Delivering the head of the home link keeps an open connection open. */
  lemma DeliverDown(net: Net, id: Id)
    requires CanFlowDown(net, id) && Pending(net.ends.server.conns[id]) == []
    requires net.links.At(Down, Home(net.ends.server.bulk)) != []
    ensures var home := Home(net.ends.server.bulk);
            var net' := Next(net, Deliver(Down, home, true));
            && CanFlowDown(net', id) && SameUser(net, net', id)
            && Pending(net'.ends.server.conns[id]) == []
            && net'.links.At(Down, home) == net.links.At(Down, home)[1..]
  {
    var home := Home(net.ends.server.bulk);
    KeepsInv(net, Deliver(Down, home, true));
    PopPackets(net.ends, net.links, Down, home);
    var p := net.links.At(Down, home)[0];
    if p.NewConn? {
      assert net.links.downControl == net.links.At(Down, Control);
      assert p.id !in net.ends.client.locals;
    }
  }

  lemma {:induction false} DeliverEverythingDown(net: Net, id: Id) returns (events: seq<Event>)
    requires CanFlowDown(net, id) && Pending(net.ends.server.conns[id]) == []
    ensures var net' := Steps(net, events);
            && CanFlowDown(net', id) && SameUser(net, net', id)
            && Pending(net'.ends.server.conns[id]) == []
            && net'.links.At(Down, Home(net.ends.server.bulk)) == []
    ensures NoNewUsers(events)
    decreases |net.links.At(Down, Home(net.ends.server.bulk))|
  {
    var home := Home(net.ends.server.bulk);
    events := [];
    if net.links.At(Down, home) != [] {
      var e := Deliver(Down, home, true);
      DeliverDown(net, id);
      var rest := DeliverEverythingDown(Next(net, e), id);
      events := [e] + rest;
    }
  }

  /** Once the server knows that the client is ready, everything the user has sent gets there. */
  lemma DeliverWhenReady(net: Net, id: Id) returns (more: seq<Event>)
    requires CanFlowDown(net, id)
    ensures var net' := Steps(net, more);
            && id in net'.ends.client.locals
            && net'.ends.client.locals[id].toService == net.ends.server.conns[id].fromUser
    ensures NoNewUsers(more)
  {
    var start := [Do(AForwardStarts(id))];
    StartForwarding(net, id);
    var net1 := Next(net, start[0]);
    assert Steps(net, start) == net1 by {
      assert start[1..] == [];
    }
    var chunks := ReadEverything(net1, id);
    var net2 := Steps(net1, chunks);
    var delivers := DeliverEverythingDown(net2, id);
    var net3 := Steps(net2, delivers);
    StepsConcat(net, start, chunks);
    StepsConcat(net, start + chunks, delivers);
    more := start + chunks + delivers;
    InvTransparent(net3);
    assert InFlight(net3.links.At(Down, Home(net.ends.server.bulk)), id) == [];
    var t := net3.ends.client.locals[id].toService;
    assert t + [] + [] == t;
  }

  // ----- while the connection opens -----

  /** The connection is in the server's pool, its proxy is one of the client's, the client has not
      closed it, and no refusal of it is on its way. */
  ghost predicate Opening(net: Net, id: Id) {
    && id in net.ends.server.conns && net.ends.server.conns[id].inPool
    && net.ends.server.conns[id].proxy in net.ends.client.proxies
    && (id in net.ends.client.locals ==> net.ends.client.locals[id].inPool)
    && Close(id) !in net.links.At(Up, Home(net.ends.server.bulk))
  }

  ghost predicate Sound(net: Net) {
    Inv(net) && Routed(net) && Openings(net)
  }

  /** The client answers the next message on the control link. */
  lemma AnswerOne(net: Net, id: Id)
    requires Sound(net) && Opening(net, id) && net.links.At(Down, Control) != []
    ensures var net' := Next(net, Deliver(Down, Control, true));
            && Sound(net') && Opening(net', id) && SameUser(net, net', id)
            && |net'.links.At(Down, Control)| == |net.links.At(Down, Control)| - 1
  {
    var e := Deliver(Down, Control, true);
    KeepsInv(net, e);
    DownRouted(net, Control, true);
    DownOpenings(net, Control, true);
    PopPackets(net.ends, net.links, Down, Control);
    hide Inv, Routed, Openings;
    PopStays(net, id);
  }

  lemma PopStays(net: Net, id: Id)
    requires Opening(net, id) && net.links.At(Down, Control) != [] && !net.links.At(Down, Control)[0].Close?
    requires net.links.At(Down, Control)[0].NewConn? ==> net.links.At(Down, Control)[0].id !in net.ends.client.locals
    requires net.ends.server.bulk == net.ends.client.bulk
    ensures var net' := Next(net, Deliver(Down, Control, true));
            && Opening(net', id) && SameUser(net, net', id)
            && net'.links.At(Down, Control) == net.links.At(Down, Control)[1..]
  {
  }

  /** The client comes to know the connection. */
  lemma {:induction false} Announce(net: Net, id: Id) returns (events: seq<Event>)
    requires Sound(net) && Opening(net, id)
    ensures var net' := Steps(net, events);
            Sound(net') && Opening(net', id) && SameUser(net, net', id) && id in net'.ends.client.locals
    ensures NoNewUsers(events)
    decreases |net.links.At(Down, Control)|
  {
    events := [];
    if id !in net.ends.client.locals {
      assert UnderWay(net, id);
      AnswerOne(net, id);
      var e := Deliver(Down, Control, true);
      var rest := Announce(Next(net, e), id);
      events := [e] + rest;
    }
  }

  /** The server takes the next message off the control link. */
  lemma HearOne(net: Net, id: Id)
    requires Sound(net) && Opening(net, id) && id in net.ends.client.locals && net.links.At(Up, Control) != []
    ensures var net' := Next(net, Deliver(Up, Control, true));
            && Sound(net') && Opening(net', id) && SameUser(net, net', id) && id in net'.ends.client.locals
            && |net'.links.At(Up, Control)| == |net.links.At(Up, Control)| - 1
  {
    var e := Deliver(Up, Control, true);
    KeepsInv(net, e);
    UpRouted(net, Control, true);
    UpOpenings(net, Control, true);
    PopPackets(net.ends, net.links, Up, Control);
    var p := net.links.At(Up, Control)[0];
    assert p in net.links.At(Up, Control) && PacketOk(net.ends, Up, Control, p);
    assert p.Close? ==> Home(net.ends.server.bulk) == Control;
    hide Inv, Routed, Openings;
    ServerHears(net.ends.server, p, id);
  }

  lemma ServerHears(s: Server, p: Packet, id: Id)
    requires id in s.conns && s.conns[id].inPool && p != Close(id)
    ensures var s' := ServerReceives(s, Control, p);
            && s'.bulk == s.bulk
            && id in s'.conns && s'.conns[id].inPool
            && s'.conns[id].proxy == s.conns[id].proxy && s'.conns[id].fromUser == s.conns[id].fromUser
  {
  }

  /** The server comes to know that the client is ready. */
  lemma {:induction false} BecomeReady(net: Net, id: Id) returns (events: seq<Event>)
    requires Sound(net) && Opening(net, id) && id in net.ends.client.locals
    ensures CanFlowDown(Steps(net, events), id) && SameUser(net, Steps(net, events), id)
    ensures NoNewUsers(events)
    decreases |net.links.At(Up, Control)|
  {
    events := [];
    assert UnderWay(net, id);
    if !net.ends.server.conns[id].ready {
      HearOne(net, id);
      var e := Deliver(Up, Control, true);
      var rest := BecomeReady(Next(net, e), id);
      events := [e] + rest;
    }
  }

  /** A connection that is opening, or that the server knows to be ready while the client has it. */
  ghost predicate CanReachService(net: Net, id: Id) {
    Opening(net, id) || CanFlowDown(net, id)
  }

  lemma ReachService(net: Net, id: Id) returns (more: seq<Event>)
    requires Sound(net) && CanReachService(net, id)
    ensures var net' := Steps(net, more);
            && id in net'.ends.client.locals
            && net'.ends.client.locals[id].toService == net.ends.server.conns[id].fromUser
    ensures NoNewUsers(more)
  {
    if CanFlowDown(net, id) {
      more := DeliverWhenReady(net, id);
    } else {
      var announced := Announce(net, id);
      var net1 := Steps(net, announced);
      var ready := BecomeReady(net1, id);
      var net2 := Steps(net1, ready);
      var rest := DeliverWhenReady(net2, id);
      StepsConcat(net, announced, ready);
      StepsConcat(net, announced + ready, rest);
      more := announced + ready + rest;
    }
  }

  /** From every reachable state, everything the user of a connection has sent, an HTTP head
      included, can still reach the local service: if the connection is in the server's pool, at
      whatever stage of its opening, unless the client does not have its proxy, has refused it or
      has closed it; and if the server knows it to be ready while the client has it. */
  lemma CanDeliverToService(bulk: bool, proxies: set<string>, events: seq<Event>, id: Id) returns (more: seq<Event>)
    requires CanReachService(Run(bulk, proxies, events), id)
    ensures var net, net' := Run(bulk, proxies, events), Run(bulk, proxies, events + more);
            && id in net'.ends.client.locals
            && net'.ends.client.locals[id].toService == net.ends.server.conns[id].fromUser
    ensures NoNewUsers(more)
  {
    RunInv(bulk, proxies, events);
    RunRouted(bulk, proxies, events);
    RunOpenings(bulk, proxies, events);
    more := ReachService(Run(bulk, proxies, events), id);
    RunSteps(bulk, proxies, events, more);
  }

  // ----- towards the user -----

  ghost predicate CanFlowUp(net: Net, id: Id) {
    && Inv(net)
    && id in net.ends.server.conns && net.ends.server.conns[id].inPool
    && id in net.ends.client.locals && net.ends.client.locals[id].reading
  }

  ghost predicate SameService(net: Net, net': Net, id: Id)
    requires id in net.ends.client.locals
  {
    && id in net'.ends.client.locals
    && net'.ends.client.locals[id].fromService == net.ends.client.locals[id].fromService
    && net'.ends.server.bulk == net.ends.server.bulk
  }

  lemma {:induction false} ReadLocalEverything(net: Net, id: Id) returns (events: seq<Event>)
    requires CanFlowUp(net, id)
    ensures var net' := Steps(net, events);
            CanFlowUp(net', id) && SameService(net, net', id) && net'.ends.client.locals[id].unread == []
    ensures NoNewUsers(events) && forall e :: e in events ==> e.Do?
    decreases |net.ends.client.locals[id].unread|
  {
    var l := net.ends.client.locals[id];
    events := [];
    if l.unread != [] {
      var n := if |l.unread| <= READ_BUF_SIZE then |l.unread| else READ_BUF_SIZE;
      var e := Do(ALocalReads(id, n));
      KeepsInv(net, e);
      var rest := ReadLocalEverything(Next(net, e), id);
      events := [e] + rest;
    }
  }

  /** A CLOSE on its way up refuses an id that the client never took on and never will. */
  ghost predicate RefusalsOk(net: Net) {
    forall p :: p in net.links.At(Up, Home(net.ends.server.bulk)) && p.Close? ==>
      && p.id !in net.ends.client.locals
      && forall n :: n in net.links.downControl && n.NewConn? ==> n.id != p.id
  }

  lemma RefusalsAct(net: Net, a: Action)
    requires Inv(net) && RefusalsOk(net)
    ensures RefusalsOk(Next(net, Do(a)))
  {
    var net', home := Next(net, Do(a)), Home(net.ends.server.bulk);
    NextBulk(net, Do(a));
    assert net.links.downControl == net.links.At(Down, Control);
    forall p | p in net'.links.At(Up, home) && p.Close?
      ensures p.id !in net'.ends.client.locals
      ensures forall n :: n in net'.links.downControl && n.NewConn? ==> n.id != p.id
    {
      assert p in net.links.At(Up, home);
      assert PacketOk(net.ends, Up, home, p);
    }
  }

  lemma RefusalsDeliverUp(net: Net, channel: Channel, connects: bool)
    requires Inv(net) && RefusalsOk(net)
    ensures RefusalsOk(Next(net, Deliver(Up, channel, connects)))
  {
    var e := Deliver(Up, channel, connects);
    var net', home := Next(net, e), Home(net.ends.server.bulk);
    NextBulk(net, e);
    forall p | p in net'.links.At(Up, home) && p.Close?
      ensures p in net.links.At(Up, home)
    {
    }
  }

  lemma RefusalsDeliverDown(net: Net, channel: Channel, connects: bool)
    requires Inv(net) && RefusalsOk(net)
    ensures RefusalsOk(Next(net, Deliver(Down, channel, connects)))
  {
    var e := Deliver(Down, channel, connects);
    var net', home := Next(net, e), Home(net.ends.server.bulk);
    NextBulk(net, e);
    var q := net.links.At(Down, channel);
    if q != [] {
      PopPackets(net.ends, net.links, Down, channel);
      PopNews(net, Down, channel);
      assert net'.links.downControl == Popped(net, Down, channel).links.downControl;
      forall n | n in net'.links.downControl
        ensures n in net.links.downControl
      {
      }
      forall p | p in net'.links.At(Up, home) && p.Close?
        ensures p.id !in net'.ends.client.locals
        ensures forall n :: n in net'.links.downControl && n.NewConn? ==> n.id != p.id
      {
        if p !in net.links.At(Up, home) {
          assert q[0].NewConn? && channel == Control && p.id == q[0].id;
          assert net.links.downControl == q && net'.links.downControl == q[1..];
        } else if q[0].NewConn? {
          assert q[0] in net.links.downControl;
        }
      }
    }
  }

  lemma {:induction false} RunRefusals(bulk: bool, proxies: set<string>, events: seq<Event>)
    ensures RefusalsOk(Run(bulk, proxies, events))
    decreases |events|
  {
    if events != [] {
      var before, e := events[..|events| - 1], events[|events| - 1];
      var net := Run(bulk, proxies, before);
      RunRefusals(bulk, proxies, before);
      RunInv(bulk, proxies, before);
      match e
      case Do(a) => RefusalsAct(net, a);
      case Deliver(Up, channel, connects) => RefusalsDeliverUp(net, channel, connects);
      case Deliver(Down, channel, connects) => RefusalsDeliverDown(net, channel, connects);
    }
  }

  lemma DeliverUp(net: Net, id: Id)
    requires CanFlowUp(net, id) && net.ends.client.locals[id].unread == [] && RefusalsOk(net)
    requires net.links.At(Up, Home(net.ends.server.bulk)) != []
    ensures var home := Home(net.ends.server.bulk);
            var net' := Next(net, Deliver(Up, home, true));
            && CanFlowUp(net', id) && SameService(net, net', id)
            && net'.ends.client.locals[id].unread == [] && RefusalsOk(net')
            && net'.links.At(Up, home) == net.links.At(Up, home)[1..]
  {
    var home := Home(net.ends.server.bulk);
    KeepsInv(net, Deliver(Up, home, true));
    var q := net.links.At(Up, home);
    assert q[0] in q;
    NextBulk(net, Deliver(Up, home, true));
    RefusalsDeliverUp(net, home, true);
  }

  lemma {:induction false} DeliverEverythingUp(net: Net, id: Id) returns (events: seq<Event>)
    requires CanFlowUp(net, id) && net.ends.client.locals[id].unread == [] && RefusalsOk(net)
    ensures var net' := Steps(net, events);
            && CanFlowUp(net', id) && SameService(net, net', id)
            && net'.ends.client.locals[id].unread == []
            && net'.links.At(Up, Home(net.ends.server.bulk)) == []
    ensures NoNewUsers(events)
    decreases |net.links.At(Up, Home(net.ends.server.bulk))|
  {
    var home := Home(net.ends.server.bulk);
    events := [];
    if net.links.At(Up, home) != [] {
      var e := Deliver(Up, home, true);
      DeliverUp(net, id);
      var rest := DeliverEverythingUp(Next(net, e), id);
      events := [e] + rest;
    }
  }

  lemma {:induction false} ReadLocalRefusals(net: Net, events: seq<Event>)
    requires Inv(net) && RefusalsOk(net) && forall e :: e in events ==> e.Do?
    ensures RefusalsOk(Steps(net, events))
    decreases |events|
  {
    if events != [] {
      assert events[0] in events;
      KeepsInv(net, events[0]);
      RefusalsAct(net, events[0].action);
      ReadLocalRefusals(Next(net, events[0]), events[1..]);
    }
  }

  lemma ReachUser(net: Net, id: Id) returns (more: seq<Event>)
    requires CanFlowUp(net, id) && RefusalsOk(net)
    ensures var net' := Steps(net, more);
            && id in net'.ends.server.conns
            && net'.ends.server.conns[id].toUser == net.ends.client.locals[id].fromService
    ensures NoNewUsers(more)
  {
    var chunks := ReadLocalEverything(net, id);
    var net1 := Steps(net, chunks);
    ReadLocalRefusals(net, chunks);
    var delivers := DeliverEverythingUp(net1, id);
    var net2 := Steps(net1, delivers);
    StepsConcat(net, chunks, delivers);
    more := chunks + delivers;
    InvTransparent(net2);
    assert InFlight(net2.links.At(Up, Home(net.ends.server.bulk)), id) == [];
    var t := net2.ends.server.conns[id].toUser;
    assert t + [] + [] == t;
  }

  /** From every reachable state in which a connection is open, everything the local service
      has sent can still reach the user. */
  lemma CanDeliverToUser(bulk: bool, proxies: set<string>, events: seq<Event>, id: Id) returns (more: seq<Event>)
    requires CanFlowUp(Run(bulk, proxies, events), id)
    ensures var net, net' := Run(bulk, proxies, events), Run(bulk, proxies, events + more);
            && id in net'.ends.server.conns
            && net'.ends.server.conns[id].toUser == net.ends.client.locals[id].fromService
    ensures NoNewUsers(more)
  {
    RunRefusals(bulk, proxies, events);
    more := ReachUser(Run(bulk, proxies, events), id);
    RunSteps(bulk, proxies, events, more);
  }

  /** In every reachable state a connection is opening exactly when it is in the server's pool and
      the client has it open, or is still to be told of it by a NEW_CONN for a proxy it has. */
  lemma OpeningIff(bulk: bool, proxies: set<string>, events: seq<Event>, id: Id)
    ensures var net := Run(bulk, proxies, events);
            Opening(net, id)
            <==> (id in net.ends.server.conns && net.ends.server.conns[id].inPool
                  && if id in net.ends.client.locals then net.ends.client.locals[id].inPool
                     else net.ends.server.conns[id].proxy in proxies
                          && NewConn(id, net.ends.server.conns[id].proxy) in net.links.At(Down, Control))
  {
    var net := Run(bulk, proxies, events);
    RunRouted(bulk, proxies, events);
    RunRefusals(bulk, proxies, events);
    RunBulk(bulk, proxies, events);
    assert net.links.downControl == net.links.At(Down, Control);
    if id in net.ends.server.conns && net.ends.server.conns[id].inPool && net.ends.server.conns[id].proxy in proxies {
      NothingForgotten(bulk, proxies, events, id);
      var news := NewConn(id, net.ends.server.conns[id].proxy);
      assert news in net.links.downControl ==> Close(id) !in net.links.At(Up, Home(bulk));
    }
  }

  // ----- FTP control connections -----

  /** For an FTP connection the accepted payloads pass through the reply rewriter: whatever
      the chunks, the user has received a prefix of the rewriting of all the service sent. */
  lemma FtpUserSeesRewrittenPrefix(bulk: bool, proxies: set<string>, events: seq<Event>, id: Id,
                                   env: FtpReply.Env, chunks: seq<seq<byte>>)
    requires id in Run(bulk, proxies, events).ends.client.locals
    requires id in Run(bulk, proxies, events).ends.server.conns
    requires Flatten(chunks) == Run(bulk, proxies, events).ends.server.conns[id].toUser
    ensures FtpReply.HandleAll(env, chunks).out
         <= FtpReply.Pump(env, Run(bulk, proxies, events).ends.client.locals[id].fromService, 0).out
  {
    EndToEnd(bulk, proxies, events);
    var got := Run(bulk, proxies, events).ends.server.conns[id].toUser;
    var sent := Run(bulk, proxies, events).ends.client.locals[id].fromService;
    FtpReply.ChunkingIsIrrelevant(env, chunks);
    FtpReply.OutputGrows(env, got, sent[|got|..]);
    assert sent == got + sent[|got|..];
  }
}
