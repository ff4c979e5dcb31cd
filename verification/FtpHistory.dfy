/** What the books of the FTP data connections hold, told from the events of a run. */
module FtpHistory {
  import opened Bytes
  import opened FtpData

  // ----- which entries there are -----

  /** A new id is asked for on behalf of a control connection that was in the pool. */
  ghost predicate Requests(s: State, e: Event, d: Id) {
    e.ListenerRequested? && e.d == d && e.c in s.controls && d !in s.used
  }

  /** The listener fails before the client is told, or a user's connection that got past its wait
      ends. */
  ghost predicate Ends(s: State, e: Event, d: Id)
    requires d in s.ports
  {
    var i := s.ports[d];
    || (e == ListenerFails(i.ctrl, d) && i.pending)
    || (e.DataConnEnds? && e.d == d && i.ready && e.user in i.users && e.user !in i.closed)
  }

  lemma PortsAfter(s: State, e: Event, d: Id)
    requires Inv(s)
    ensures d in Next(s, e).ports <==> Requests(s, e, d) || (d in s.ports && !Ends(s, e, d))
    ensures Requests(s, e, d) ==> Next(s, e).ports[d] == Info(e.c, true, None, false, {}, {}, [], [], [])
  {
  }

  /** Event k asks for the id, and no later event ends it. */
  ghost predicate Since(events: seq<Event>, k: nat, d: Id)
    requires k < |events|
  {
    && Requests(Run(events[..k]), events[k], d)
    && forall j :: k < j < |events| ==> var s := Run(events[..j]); d in s.ports && !Ends(s, events[j], d)
  }

  ghost predicate Lives(events: seq<Event>, d: Id) {
    exists k :: 0 <= k < |events| && Since(events, k, d)
  }

  lemma SinceSnoc(before: seq<Event>, e: Event, k: nat, d: Id)
    requires k <= |before|
    ensures var s := Run(before);
            Since(before + [e], k, d) <==>
              if k == |before| then Requests(s, e, d) else Since(before, k, d) && d in s.ports && !Ends(s, e, d)
  {
    hide Run, Requests, Ends;
    var events := before + [e];
    assert forall j :: 0 <= j <= |before| ==> events[..j] == before[..j];
    assert events[..|before|] == before;
  }

  lemma LivesSnoc(before: seq<Event>, e: Event, d: Id)
    ensures var s := Run(before);
            Lives(before + [e], d) <==> Requests(s, e, d) || (Lives(before, d) && d in s.ports && !Ends(s, e, d))
  {
    hide Run, Requests, Ends, Since;
    var s, events := Run(before), before + [e];
    SinceSnoc(before, e, |before|, d);
    assert Requests(s, e, d) ==> Since(events, |before|, d);
    if Lives(before, d) && d in s.ports && !Ends(s, e, d) {
      var k :| 0 <= k < |before| && Since(before, k, d);
      SinceSnoc(before, e, k, d);
      assert Since(events, k, d);
    }
    if Lives(events, d) {
      var k :| 0 <= k < |events| && Since(events, k, d);
      SinceSnoc(before, e, k, d);
    }
  }

  /** In every run ftp_data_ports holds exactly the ids asked for and not ended since. */
  lemma {:induction false} PortsIff(events: seq<Event>, d: Id)
    ensures d in Run(events).ports <==> Lives(events, d)
  {
    if events == [] {
      assert !Lives(events, d);
    } else {
      var before, e := events[..|events| - 1], events[|events| - 1];
      PortsIff(before, d);
      RunInv(before);
      PortsAfter(Run(before), e, d);
      RunSnoc(before, e);
      LivesSnoc(before, e, d);
      hide Run, Next, Inv, Lives, Requests, Ends;
      assert before + [e] == events;
    }
  }

  // ----- what an entry holds -----

  function Arrived(events: seq<Event>, d: Id): seq<byte> {
    if events == [] then []
    else
      var e := events[|events| - 1];
      Arrived(events[..|events| - 1], d) + (if e.DataArrives? && e.d == d then e.data else [])
  }

  function Users(events: seq<Event>, d: Id): set<User> {
    set e | e in events && e.UserConnects? && e.d == d :: e.user
  }

  /** The user that connected last, each user counting by its first connection. */
  function LastUser(events: seq<Event>, d: Id): Option<User> {
    if events == [] then None
    else
      var before, e := events[..|events| - 1], events[|events| - 1];
      if e.UserConnects? && e.d == d && e.user !in Users(before, d) then Some(e.user) else LastUser(before, d)
  }

  /** What an entry holds after the events that followed its request by control connection c. */
  ghost predicate Holds(i: Info, c: Id, after: seq<Event>, d: Id) {
    && i.ctrl == c
    && (i.pending <==> ListenerTold(c, d) !in after)
    && (i.ready <==> ClientReady(d) in after)
    && i.users == Users(after, d)
    && i.proxyWriter == LastUser(after, d)
    && i.received == Arrived(after, d)
  }

  /** What one more event adds to the history of an id. */
  lemma OneMore(after: seq<Event>, e: Event, d: Id)
    ensures Users(after + [e], d) == Users(after, d) + (if e.UserConnects? && e.d == d then {e.user} else {})
    ensures LastUser(after + [e], d)
         == if e.UserConnects? && e.d == d && e.user !in Users(after, d) then Some(e.user) else LastUser(after, d)
    ensures Arrived(after + [e], d) == if e.DataArrives? && e.d == d then Arrived(after, d) + e.data else Arrived(after, d)
    ensures forall x :: x in after + [e] <==> x in after || x == e
  {
    assert (after + [e])[..|after|] == after;
    assert Arrived(after, d) + [] == Arrived(after, d);
    assert forall x :: x in after + [e] <==> x in after || x == e;
  }

  lemma HoldsMore(i: Info, c: Id, after: seq<Event>, e: Event, d: Id)
    requires Holds(i, c, after, d)
    ensures Holds(if About(e, d) then NextEntry(i, e) else i, c, after + [e], d)
  {
    OneMore(after, e, d);
    hide Users, LastUser, Arrived;
  }

  /** An entry holds what came after its request: whose it is, whether the client was told and is
      ready, who connected and who did so last, and every byte that arrived. */
  lemma {:induction false} EntryHolds(events: seq<Event>, k: nat, d: Id)
    requires k < |events| && Since(events, k, d)
    ensures d in Run(events).ports && Holds(Run(events).ports[d], events[k].c, events[k + 1..], d)
  {
    var last := |events| - 1;
    var before, e := events[..last], events[last];
    SplitLast(events);
    SinceSnoc(before, e, k, d);
    RunInv(before);
    RunSnoc(before, e);
    if k == last {
      PortsAfter(Run(before), e, d);
      NewHolds(e.c, d);
      hide Run, Next, Since, Inv, Holds;
      assert events[k + 1..] == [];
    } else {
      EntryHolds(before, k, d);
      EntryMore(before, k, events[k].c, e, d);
    }
  }

  lemma EntryMore(before: seq<Event>, k: nat, c: Id, e: Event, d: Id)
    requires k < |before| && d in Run(before).ports && !Ends(Run(before), e, d)
    requires Holds(Run(before).ports[d], c, before[k + 1..], d)
    ensures d in Run(before + [e]).ports && Holds(Run(before + [e]).ports[d], c, (before + [e])[k + 1..], d)
  {
    hide Run, Next, Holds, Ends;
    RunInv(before);
    RunSnoc(before, e);
    var s := Run(before);
    assert d in s.used;
    hide Inv;
    PortsAfter(s, e, d);
    EntryAfter(s, e, d);
    HoldsMore(s.ports[d], c, before[k + 1..], e, d);
    assert (before + [e])[k + 1..] == before[k + 1..] + [e];
  }

  lemma NewHolds(c: Id, d: Id)
    ensures Holds(Info(c, true, None, false, {}, {}, [], [], []), c, [], d)
  {
    assert Users([], d) == {};
  }

  // ----- the control connections -----

  ghost predicate ClosedAfter(events: seq<Event>, c: Id) {
    exists j, k :: 0 <= j < k < |events| && events[j] == ControlOpens(c) && events[k] == ControlCloses(c)
  }

  lemma ClosedSnoc(before: seq<Event>, e: Event, c: Id)
    ensures ClosedAfter(before + [e], c) <==> ClosedAfter(before, c) || (ControlOpens(c) in before && e == ControlCloses(c))
  {
    var events := before + [e];
    assert forall j :: 0 <= j < |before| ==> events[j] == before[j];
    if ControlOpens(c) in before && e == ControlCloses(c) {
      var j :| 0 <= j < |before| && before[j] == ControlOpens(c);
      assert events[j] == ControlOpens(c) && events[|before|] == ControlCloses(c);
    }
    if ClosedAfter(before, c) {
      var j, k :| 0 <= j < k < |before| && before[j] == ControlOpens(c) && before[k] == ControlCloses(c);
      assert events[j] == ControlOpens(c) && events[k] == ControlCloses(c);
    }
  }

  /** A control connection is known once opened, and in the pool until it is closed. */
  lemma {:induction false} ControlsIff(events: seq<Event>, c: Id)
    ensures c in Run(events).controls <==> ControlOpens(c) in events
    ensures c in Run(events).controls ==> (Run(events).controls[c].inPool <==> !ClosedAfter(events, c))
  {
    if events != [] {
      var before, e := events[..|events| - 1], events[|events| - 1];
      ControlsIff(before, c);
      assert events == before + [e];
      RunSnoc(before, e);
      ClosedSnoc(before, e, c);
      ControlAfter(Run(before), e, c);
      hide Run, Next, ClosedAfter;
      if ClosedAfter(before, c) {
        OpensBeforeCloses(before, c);
      }
    }
  }

  lemma OpensBeforeCloses(events: seq<Event>, c: Id)
    requires ClosedAfter(events, c)
    ensures ControlOpens(c) in events
  {
  }

  lemma ControlAfter(s: State, e: Event, c: Id)
    ensures c in Next(s, e).controls <==> c in s.controls || e == ControlOpens(c)
    ensures c in Next(s, e).controls ==>
              (Next(s, e).controls[c].inPool <==> (c in s.controls ==> s.controls[c].inPool && e != ControlCloses(c)))
  {
  }
}
