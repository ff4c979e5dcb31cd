/** A download does not get stuck: what the service has sent can still reach the FTP user. */
module FtpDelivery {
  import opened Bytes
  import opened FtpDownload
  import F = FtpData

  /** Reads and deliveries of data; nobody connects, leaves or times out. */
  ghost predicate OnlyMoves(more: seq<Event>) {
    forall e :: e in more ==> e.ClientReads? || e.DataDelivered?
  }

  /** The same data connection, with the same user's writer. */
  ghost predicate Same(s: System, s': System, d: Id) {
    && (d in s.conns ==> d in s'.conns && s'.conns[d].fromService == s.conns[d].fromService && s'.conns[d].reading == s.conns[d].reading)
    && (d in s.server.ports ==>
         && d in s'.server.ports
         && s'.server.ports[d].proxyWriter == s.server.ports[d].proxyWriter
         && s'.server.ports[d].closed == s.server.ports[d].closed)
  }

  lemma SameTwice(a: System, b: System, c: System, d: Id)
    requires Same(a, b, d) && Same(b, c, d)
    ensures Same(a, c, d)
  {
  }

  lemma ArrivalKeeps(s: F.State, e: F.Event, d: Id)
    requires e.DataArrives? && d in s.ports
    ensures d in F.Next(s, e).ports
    ensures F.Next(s, e).ports[d].proxyWriter == s.ports[d].proxyWriter && F.Next(s, e).ports[d].closed == s.ports[d].closed
  {
  }

  lemma DeliversNext(s: System, d: Id)
    requires s.link != []
    ensures var s' := Next(s, DataDelivered);
            |s'.link| < |s.link| && s'.conns == s.conns && Same(s, s', d)
  {
    hide F.Next;
    if d in s.server.ports {
      ArrivalKeeps(s.server, F.DataArrives(s.link[0].d, s.link[0].data), d);
    }
  }

  lemma Delivers(events: seq<Event>, d: Id)
    requires Run(events).link != []
    ensures var s, s' := Run(events), Run(events + [DataDelivered]);
            |s'.link| < |s.link| && s'.conns == s.conns && Same(s, s', d)
  {
    hide Run, Next;
    RunSnoc(events, DataDelivered);
    DeliversNext(Run(events), d);
  }

  /** Everything on the link is handed to the server. */
  lemma {:induction false} LinkDrains(events: seq<Event>, d: Id) returns (more: seq<Event>)
    ensures OnlyMoves(more)
    ensures var s, s' := Run(events), Run(events + more);
            s'.link == [] && s'.conns == s.conns && Same(s, s', d)
    decreases |Run(events).link|
  {
    hide Run, Same;
    if Run(events).link == [] {
      more := [];
      assert events + more == events;
      assert Same(Run(events), Run(events), d) by { SameSelf(Run(events), d); }
    } else {
      Delivers(events, d);
      var next := events + [DataDelivered];
      var rest := LinkDrains(next, d);
      more := [DataDelivered] + rest;
      assert events + more == next + rest;
      SameTwice(Run(events), Run(next), Run(next + rest), d);
    }
  }

  lemma SameSelf(s: System, d: Id)
    ensures Same(s, s, d)
  {
  }

  lemma Reads(events: seq<Event>, d: Id) returns (e: Event)
    requires d in Run(events).conns && Run(events).conns[d].reading && Run(events).conns[d].unread != []
    ensures e.ClientReads?
    ensures var s, s' := Run(events), Run(events + [e]);
            Same(s, s', d) && d in s'.conns && |s'.conns[d].unread| < |s.conns[d].unread|
  {
    var c := Run(events).conns[d];
    e := ClientReads(d, if |c.unread| < READ_BUF_SIZE then |c.unread| else READ_BUF_SIZE);
    RunSnoc(events, e);
  }

  /** Everything that waits at the local data service's socket is read. */
  lemma {:induction false} SocketDrains(events: seq<Event>, d: Id) returns (more: seq<Event>)
    requires d in Run(events).conns && Run(events).conns[d].reading
    ensures OnlyMoves(more)
    ensures var s, s' := Run(events), Run(events + more);
            Same(s, s', d) && d in s'.conns && s'.conns[d].unread == []
    decreases |Run(events).conns[d].unread|
  {
    hide Run;
    if Run(events).conns[d].unread == [] {
      more := [];
      assert events + more == events;
    } else {
      var e := Reads(events, d);
      var next := events + [e];
      var rest := SocketDrains(next, d);
      more := [e] + rest;
      assert events + more == next + rest;
      SameTwice(Run(events), Run(next), Run(next + rest), d);
    }
  }

  lemma AllReceived(s: System, d: Id)
    requires Ok(s) && s.link == [] && d in s.conns && s.conns[d].unread == []
    ensures d in s.server.ports ==> s.server.ports[d].received == s.conns[d].fromService
  {
    if d in s.server.ports {
      assert Conserved(s, d);
      assert InFlight([], d) == [];
    }
  }

  /** From every reachable state in which the client still reads, some further reads and deliveries
      bring all that the service has sent to the server's entry. */
  lemma CanDownload(events: seq<Event>, d: Id) returns (more: seq<Event>)
    requires d in Run(events).conns && Run(events).conns[d].reading
    ensures OnlyMoves(more)
    ensures var s, s' := Run(events), Run(events + more);
            && Same(s, s', d)
            && (d in s.server.ports ==> s'.server.ports[d].received == s.conns[d].fromService)
  {
    hide Run;
    var taken := SocketDrains(events, d);
    var deliveries := LinkDrains(events + taken, d);
    more := taken + deliveries;
    assert events + more == events + taken + deliveries;
    SameTwice(Run(events), Run(events + taken), Run(events + more), d);
    RunOk(events + more);
    AllReceived(Run(events + more), d);
  }

  lemma {:induction false} SeenMoves(events: seq<Event>, more: seq<Event>, e: F.Event)
    requires OnlyMoves(more) && e in Seen(events + more) && !e.DataArrives?
    ensures e in Seen(events)
  {
    if more == [] {
      assert events + more == events;
    } else {
      var before, last := more[..|more| - 1], more[|more| - 1];
      assert last in more && forall x :: x in before ==> x in more;
      assert (events + more)[..|events + more| - 1] == events + before;
      SeenMoves(events, before, e);
    }
  }

  /** With a user connected in time, the only one of its listener: all that the service has sent
      can still reach that user. */
  lemma CanReachUser(events: seq<Event>, d: Id, user: F.User) returns (more: seq<Event>)
    requires d in Run(events).conns && Run(events).conns[d].reading
    requires d in Run(events).server.ports && F.OnlyUser(Seen(events), d, user)
    requires Run(events).server.ports[d].proxyWriter == Some(user) && user !in Run(events).server.ports[d].closed
    ensures OnlyMoves(more)
    ensures var s, s' := Run(events), Run(events + more);
            && d in s'.server.ports
            && F.Delivered(s'.server.ports[d].written, user) == s.conns[d].fromService
  {
    more := CanDownload(events, d);
    var all := events + more;
    ServerRuns(all);
    forall e | e in Seen(all) && e.UserConnects? && e.d == d
      ensures e.user == user
    {
      SeenMoves(events, more, e);
    }
    F.RunInOrder(Seen(all), d, user);
    F.DownloadConserved(Seen(all), d);
  }
}
