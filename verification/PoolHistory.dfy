/** What the pools and the counters hold, told from the events of a run: when a connection was
    last active, and what was opened, received and sent. */
module PoolHistory {
  import opened Stats
  import opened Pools

  // ----- openings -----

  /** A user connection that gets a pool entry, or a visitor's: its id is not counted yet. */
  ghost predicate OpensUser(p: Pools, e: Event, id: Id) {
    e.UserConnects? && e.id == id && e.told && id !in p.stats.conns
  }

  ghost predicate OpensVisitor(p: Pools, e: Event, id: Id) {
    e.VisitorConnects? && e.id == id && id !in p.stats.conns
  }

  /** What one event makes of the entry of a user connection. */
  lemma UserEntryAfter(p: Pools, e: Event, id: Id)
    requires Agree(p) && id in Next(p, e).conns
    ensures if OpensUser(p, e, id) then Next(p, e).conns[id] == Entry(e.proxy, e.now)
            else id in p.conns
                 && Next(p, e).conns[id].proxy == p.conns[id].proxy
                 && Next(p, e).conns[id].lastActivity == if e.Activity? && e.id == id then e.now else p.conns[id].lastActivity
  {
    match e
    case SweepRuns(ids, stcpIds, now, timeout) =>
      var q := CloseConns(p, ids, IdleIds(p.conns, now, timeout));
      CloseConnsExact(p, ids, IdleIds(p.conns, now, timeout));
      CloseStcpsExact(q, stcpIds, IdleIds(q.stcp, now, timeout));
    case ProxyRemoved(proxy, ids) => CloseConnsExact(p, ids, OfProxy(p.conns, proxy));
    case ProviderRemoved(proxy, ids) => CloseStcpsExact(p, ids, OfProxy(p.stcp, proxy));
    case _ =>
  }

  lemma VisitorEntryAfter(p: Pools, e: Event, id: Id)
    requires Agree(p) && id in Next(p, e).stcp
    ensures if OpensVisitor(p, e, id) then Next(p, e).stcp[id] == Entry(e.proxy, e.now)
            else id in p.stcp
                 && Next(p, e).stcp[id].proxy == p.stcp[id].proxy
                 && Next(p, e).stcp[id].lastActivity == if e.Activity? && e.id == id then e.now else p.stcp[id].lastActivity
  {
    match e
    case SweepRuns(ids, stcpIds, now, timeout) =>
      var q := CloseConns(p, ids, IdleIds(p.conns, now, timeout));
      CloseConnsExact(p, ids, IdleIds(p.conns, now, timeout));
      CloseStcpsExact(q, stcpIds, IdleIds(q.stcp, now, timeout));
    case ProxyRemoved(proxy, ids) => CloseConnsExact(p, ids, OfProxy(p.conns, proxy));
    case ProviderRemoved(proxy, ids) => CloseStcpsExact(p, ids, OfProxy(p.stcp, proxy));
    case _ =>
  }

  // ----- what is open -----

  /** An event that ends the connection: its close, a sweep that finds it idle, or its proxy's end. */
  ghost predicate EndsUser(p: Pools, e: Event, id: Id)
    requires id in p.conns
  {
    || e == ConnCloses(id)
    || (e.SweepRuns? && id in e.ids && e.now - p.conns[id].lastActivity > e.timeout)
    || (e.ProxyRemoved? && id in e.ids && e.proxy == p.conns[id].proxy)
  }

  ghost predicate EndsVisitor(p: Pools, e: Event, id: Id)
    requires id in p.stcp
  {
    || e == StcpCloses(id)
    || (e.SweepRuns? && id in e.stcpIds && e.now - p.stcp[id].lastActivity > e.timeout)
    || (e.ProviderRemoved? && id in e.ids && e.proxy == p.stcp[id].proxy)
  }

  lemma UserOpenAfter(p: Pools, e: Event, id: Id)
    requires Agree(p)
    ensures id in Next(p, e).conns <==> OpensUser(p, e, id) || (id in p.conns && !EndsUser(p, e, id))
  {
    hide Agree, OnConnect, OnDisconnect, OnDataIn, OnDataOut;
    match e
    case SweepRuns(ids, stcpIds, now, timeout) =>
      var q := CloseConns(p, ids, IdleIds(p.conns, now, timeout));
      CloseConnsExact(p, ids, IdleIds(p.conns, now, timeout));
      CloseStcpsExact(q, stcpIds, IdleIds(q.stcp, now, timeout));
    case ProxyRemoved(proxy, ids) => CloseConnsExact(p, ids, OfProxy(p.conns, proxy));
    case ProviderRemoved(proxy, ids) => CloseStcpsExact(p, ids, OfProxy(p.stcp, proxy));
    case _ =>
  }

  lemma VisitorOpenAfter(p: Pools, e: Event, id: Id)
    requires Agree(p)
    ensures id in Next(p, e).stcp <==> OpensVisitor(p, e, id) || (id in p.stcp && !EndsVisitor(p, e, id))
  {
    hide Agree, OnConnect, OnDisconnect, OnDataIn, OnDataOut;
    match e
    case SweepRuns(ids, stcpIds, now, timeout) =>
      var q := CloseConns(p, ids, IdleIds(p.conns, now, timeout));
      CloseConnsExact(p, ids, IdleIds(p.conns, now, timeout));
      CloseStcpsExact(q, stcpIds, IdleIds(q.stcp, now, timeout));
    case ProxyRemoved(proxy, ids) => CloseConnsExact(p, ids, OfProxy(p.conns, proxy));
    case ProviderRemoved(proxy, ids) => CloseStcpsExact(p, ids, OfProxy(p.stcp, proxy));
    case _ =>
  }

  /** Event k opens the user's connection, and no later event ends it. */
  ghost predicate UserSince(events: seq<Event>, k: nat, id: Id)
    requires k < |events|
  {
    && OpensUser(Run(events[..k]), events[k], id)
    && forall j :: k < j < |events| ==> var p := Run(events[..j]); id in p.conns && !EndsUser(p, events[j], id)
  }

  ghost predicate VisitorSince(events: seq<Event>, k: nat, id: Id)
    requires k < |events|
  {
    && OpensVisitor(Run(events[..k]), events[k], id)
    && forall j :: k < j < |events| ==> var p := Run(events[..j]); id in p.stcp && !EndsVisitor(p, events[j], id)
  }

  lemma UserSinceSnoc(before: seq<Event>, e: Event, k: nat, id: Id)
    requires k <= |before|
    ensures var p := Run(before);
            UserSince(before + [e], k, id) <==>
              if k == |before| then OpensUser(p, e, id) else UserSince(before, k, id) && id in p.conns && !EndsUser(p, e, id)
  {
    hide Run, OpensUser, EndsUser;
    var events := before + [e];
    assert forall j :: 0 <= j <= |before| ==> events[..j] == before[..j];
    assert events[..|before|] == before;
  }

  lemma VisitorSinceSnoc(before: seq<Event>, e: Event, k: nat, id: Id)
    requires k <= |before|
    ensures var p := Run(before);
            VisitorSince(before + [e], k, id) <==>
              if k == |before| then OpensVisitor(p, e, id) else VisitorSince(before, k, id) && id in p.stcp && !EndsVisitor(p, e, id)
  {
    hide Run, OpensVisitor, EndsVisitor;
    var events := before + [e];
    assert forall j :: 0 <= j <= |before| ==> events[..j] == before[..j];
    assert events[..|before|] == before;
  }

  ghost predicate UserIsOpen(events: seq<Event>, id: Id) {
    exists k :: 0 <= k < |events| && UserSince(events, k, id)
  }

  lemma UserOpenSnoc(before: seq<Event>, e: Event, id: Id)
    ensures var p := Run(before);
            UserIsOpen(before + [e], id) <==> OpensUser(p, e, id) || (UserIsOpen(before, id) && id in p.conns && !EndsUser(p, e, id))
  {
    hide Run, OpensUser, EndsUser, UserSince;
    var p, events := Run(before), before + [e];
    UserSinceSnoc(before, e, |before|, id);
    assert OpensUser(p, e, id) ==> UserSince(events, |before|, id);
    if UserIsOpen(before, id) && id in p.conns && !EndsUser(p, e, id) {
      var k :| 0 <= k < |before| && UserSince(before, k, id);
      UserSinceSnoc(before, e, k, id);
      assert UserSince(events, k, id);
    }
    if UserIsOpen(events, id) {
      var k :| 0 <= k < |events| && UserSince(events, k, id);
      UserSinceSnoc(before, e, k, id);
    }
  }

  /** In every run a pool holds exactly the connections that were opened and not ended since. */
  lemma {:induction false} UserOpenIff(events: seq<Event>, id: Id)
    ensures id in Run(events).conns <==> UserIsOpen(events, id)
  {
    if events == [] {
      assert !UserIsOpen(events, id);
    } else {
      var before, e := events[..|events| - 1], events[|events| - 1];
      UserOpenIff(before, id);
      RunAgrees(before);
      UserOpenAfter(Run(before), e, id);
      assert Run(events) == Next(Run(before), e);
      hide Run, Next, Agree, UserIsOpen, OpensUser, EndsUser;
      assert before + [e] == events;
      UserOpenSnoc(before, e, id);
    }
  }

  ghost predicate VisitorIsOpen(events: seq<Event>, id: Id) {
    exists k :: 0 <= k < |events| && VisitorSince(events, k, id)
  }

  lemma VisitorOpenSnoc(before: seq<Event>, e: Event, id: Id)
    ensures var p := Run(before);
            VisitorIsOpen(before + [e], id) <==> OpensVisitor(p, e, id) || (VisitorIsOpen(before, id) && id in p.stcp && !EndsVisitor(p, e, id))
  {
    hide Run, OpensVisitor, EndsVisitor, VisitorSince;
    var p, events := Run(before), before + [e];
    VisitorSinceSnoc(before, e, |before|, id);
    assert OpensVisitor(p, e, id) ==> VisitorSince(events, |before|, id);
    if VisitorIsOpen(before, id) && id in p.stcp && !EndsVisitor(p, e, id) {
      var k :| 0 <= k < |before| && VisitorSince(before, k, id);
      VisitorSinceSnoc(before, e, k, id);
      assert VisitorSince(events, k, id);
    }
    if VisitorIsOpen(events, id) {
      var k :| 0 <= k < |events| && VisitorSince(events, k, id);
      VisitorSinceSnoc(before, e, k, id);
    }
  }

  lemma {:induction false} VisitorOpenIff(events: seq<Event>, id: Id)
    ensures id in Run(events).stcp <==> VisitorIsOpen(events, id)
  {
    if events == [] {
      assert !VisitorIsOpen(events, id);
    } else {
      var before, e := events[..|events| - 1], events[|events| - 1];
      VisitorOpenIff(before, id);
      RunAgrees(before);
      VisitorOpenAfter(Run(before), e, id);
      assert Run(events) == Next(Run(before), e);
      hide Run, Next, Agree, VisitorIsOpen, OpensVisitor, EndsVisitor;
      assert before + [e] == events;
      VisitorOpenSnoc(before, e, id);
    }
  }

  // ----- the last activity -----

  /** Event k opens the connection or is activity on it, at this time. */
  ghost predicate MarksAt(events: seq<Event>, k: nat, id: Id, now: real)
    requires k < |events|
  {
    var p, e := Run(events[..k]), events[k];
    || e == Activity(id, now)
    || ((OpensUser(p, e, id) || OpensVisitor(p, e, id)) && e.now == now)
  }

  ghost predicate Marks(events: seq<Event>, k: nat, id: Id)
    requires k < |events|
  {
    exists now :: MarksAt(events, k, id, now)
  }

  /** The last opening of or activity on the connection was at this time. */
  ghost predicate LastMark(events: seq<Event>, id: Id, now: real) {
    exists k :: 0 <= k < |events| && MarksAt(events, k, id, now) && forall j :: k < j < |events| ==> !Marks(events, j, id)
  }

  lemma MarkSnoc(before: seq<Event>, e: Event, id: Id, now: real)
    ensures MarksAt(before + [e], |before|, id, now) ==> LastMark(before + [e], id, now)
    ensures !Marks(before + [e], |before|, id) && LastMark(before, id, now) ==> LastMark(before + [e], id, now)
  {
    var events := before + [e];
    forall j, t | 0 <= j < |before|
      ensures MarksAt(events, j, id, t) <==> MarksAt(before, j, id, t)
    {
      assert events[..j] == before[..j];
    }
    if !Marks(events, |before|, id) && LastMark(before, id, now) {
      var k :| 0 <= k < |before| && MarksAt(before, k, id, now) && forall j :: k < j < |before| ==> !Marks(before, j, id);
      assert MarksAt(events, k, id, now);
      forall j | k < j < |events|
        ensures !Marks(events, j, id)
      {
        if j < |before| && Marks(events, j, id) {
          var t :| MarksAt(events, j, id, t);
          assert MarksAt(before, j, id, t);
          assert Marks(before, j, id);
        }
      }
    }
  }

  /** In every reachable state an entry's time is that of the last opening of or activity on it. */
  lemma {:induction false} TimesAreLast(events: seq<Event>, id: Id)
    ensures id in Run(events).conns ==> LastMark(events, id, Run(events).conns[id].lastActivity)
    ensures id in Run(events).stcp ==> LastMark(events, id, Run(events).stcp[id].lastActivity)
  {
    if events != [] {
      var before, e := events[..|events| - 1], events[|events| - 1];
      var p := Run(before);
      TimesAreLast(before, id);
      RunAgrees(before);
      assert events == before + [e] && events[..|before|] == before;
      if id in Run(events).conns {
        UserEntryAfter(p, e, id);
        MarkStep(before, e, id, Run(events).conns[id].lastActivity);
      }
      if id in Run(events).stcp {
        VisitorEntryAfter(p, e, id);
        MarkStep(before, e, id, Run(events).stcp[id].lastActivity);
      }
    }
  }

  lemma MarkStep(before: seq<Event>, e: Event, id: Id, now: real)
    requires var p := Run(before);
             if OpensUser(p, e, id) || OpensVisitor(p, e, id) then e.now == now
             else if e.Activity? && e.id == id then e.now == now
             else LastMark(before, id, now)
    ensures LastMark(before + [e], id, now)
  {
    var events := before + [e];
    assert events[..|before|] == before;
    MarkSnoc(before, e, id, now);
    if Marks(events, |before|, id) {
      var t :| MarksAt(events, |before|, id, t);
      assert MarksAt(events, |before|, id, now);
    }
  }

  /** A time is the last one at most once. */
  lemma OneLastMark(events: seq<Event>, id: Id, s: real, t: real)
    requires LastMark(events, id, s) && LastMark(events, id, t)
    ensures s == t
  {
    var i :| 0 <= i < |events| && MarksAt(events, i, id, s) && forall x :: i < x < |events| ==> !Marks(events, x, id);
    var j :| 0 <= j < |events| && MarksAt(events, j, id, t) && forall x :: j < x < |events| ==> !Marks(events, x, id);
    assert Marks(events, i, id) && Marks(events, j, id);
  }

  /** The idle sweep keeps a connection exactly when it was opened or active at most the time-out
      ago. */
  lemma SweepByActivity(events: seq<Event>, ids: seq<Id>, stcpIds: seq<Id>, now: real, timeout: real, id: Id, last: real)
    requires Snapshot(ids, Run(events).conns) && Snapshot(stcpIds, Run(events).stcp)
    requires LastMark(events, id, last)
    ensures var p, p' := Run(events), Run(events + [SweepRuns(ids, stcpIds, now, timeout)]);
            && (id in p.conns ==> (id in p'.conns <==> now - last <= timeout))
            && (id in p.stcp ==> (id in p'.stcp <==> now - last <= timeout))
  {
    var p, e := Run(events), SweepRuns(ids, stcpIds, now, timeout);
    assert Run(events + [e]) == Sweep(p, ids, stcpIds, now, timeout) by {
      assert (events + [e])[..|events|] == events;
    }
    hide Run, LastMark, Sweep, Agree, Without;
    TimesAreLast(events, id);
    RunAgrees(events);
    SweepExact(p, ids, stcpIds, now, timeout);
    if id in p.conns {
      OneLastMark(events, id, last, p.conns[id].lastActivity);
    }
    if id in p.stcp {
      OneLastMark(events, id, last, p.stcp[id].lastActivity);
    }
  }

  // ----- traffic -----

  /** A connection is counted: its id is not counted yet. */
  ghost predicate Counts(p: Pools, e: Event) {
    (e.UserConnects? || e.VisitorConnects?) && e.id !in p.stats.conns
  }

  function Openings(events: seq<Event>): nat {
    if events == [] then 0
    else
      var before, e := events[..|events| - 1], events[|events| - 1];
      Openings(before)
      + (if (e.UserConnects? || e.VisitorConnects?) && e.id !in Run(before).stats.conns then 1 else 0)
  }

  function Received(events: seq<Event>): nat {
    if events == [] then 0
    else
      var e := events[|events| - 1];
      Received(events[..|events| - 1]) + (if e.BytesIn? then e.size else 0)
  }

  function SentOut(events: seq<Event>): nat {
    if events == [] then 0
    else
      var e := events[|events| - 1];
      SentOut(events[..|events| - 1]) + (if e.BytesOut? then e.size else 0)
  }

  /** Of one connection, since it was last counted. */
  function ReceivedBy(events: seq<Event>, id: Id): nat {
    if events == [] then 0
    else
      var before, e := events[..|events| - 1], events[|events| - 1];
      if (e.UserConnects? || e.VisitorConnects?) && e.id == id && id !in Run(before).stats.conns then 0
      else ReceivedBy(before, id) + (if e.BytesIn? && e.id == id then e.size else 0)
  }

  function SentBy(events: seq<Event>, id: Id): nat {
    if events == [] then 0
    else
      var before, e := events[..|events| - 1], events[|events| - 1];
      if (e.UserConnects? || e.VisitorConnects?) && e.id == id && id !in Run(before).stats.conns then 0
      else SentBy(before, id) + (if e.BytesOut? && e.id == id then e.size else 0)
  }

  /** Of one proxy: the connections counted under it, and the bytes of ids counted under it. */
  function OpeningsOf(events: seq<Event>, proxy: string): nat {
    if events == [] then 0
    else
      var before, e := events[..|events| - 1], events[|events| - 1];
      OpeningsOf(before, proxy)
      + (if (e.UserConnects? || e.VisitorConnects?) && e.id !in Run(before).stats.conns && e.proxy == proxy then 1 else 0)
  }

  predicate Under(p: Pools, id: Id, proxy: string) {
    id in p.stats.conns && p.stats.conns[id].proxy == proxy
  }

  function ReceivedUnder(events: seq<Event>, proxy: string): nat {
    if events == [] then 0
    else
      var before, e := events[..|events| - 1], events[|events| - 1];
      ReceivedUnder(before, proxy) + (if e.BytesIn? && Under(Run(before), e.id, proxy) then e.size else 0)
  }

  function SentUnder(events: seq<Event>, proxy: string): nat {
    if events == [] then 0
    else
      var before, e := events[..|events| - 1], events[|events| - 1];
      SentUnder(before, proxy) + (if e.BytesOut? && Under(Run(before), e.id, proxy) then e.size else 0)
  }

  /** The same but for what is open now. */
  ghost predicate SameTraffic(c: Counters, c': Counters) {
    && c'.total == c.total && c'.bytesIn == c.bytesIn && c'.bytesOut == c.bytesOut
    && (forall n :: StatOf(c', n).(current := 0) == StatOf(c, n).(current := 0))
    && (forall id :: id in c'.conns ==> id in c.conns && c'.conns[id] == c.conns[id])
  }

  lemma SameTrafficTwice(a: Counters, b: Counters, c: Counters)
    requires SameTraffic(a, b) && SameTraffic(b, c)
    ensures SameTraffic(a, c)
  {
    forall n
      ensures StatOf(c, n).(current := 0) == StatOf(a, n).(current := 0)
    {
      assert StatOf(b, n).(current := 0) == StatOf(a, n).(current := 0);
    }
  }

  lemma ClosesKeepTraffic(p: Pools, id: Id)
    ensures SameTraffic(p.stats, CloseConn(p, id).stats) && SameTraffic(p.stats, CloseStcp(p, id).stats)
  {
  }

  lemma {:induction false} CloseConnsKeepTraffic(p: Pools, ids: seq<Id>, picked: set<Id>)
    ensures SameTraffic(p.stats, CloseConns(p, ids, picked).stats)
    decreases |ids|
  {
    if ids != [] {
      var q := if ids[0] in picked then CloseConn(p, ids[0]) else p;
      ClosesKeepTraffic(p, ids[0]);
      CloseConnsKeepTraffic(q, ids[1..], picked);
      SameTrafficTwice(p.stats, q.stats, CloseConns(p, ids, picked).stats);
    }
  }

  lemma {:induction false} CloseStcpsKeepTraffic(p: Pools, ids: seq<Id>, picked: set<Id>)
    ensures SameTraffic(p.stats, CloseStcps(p, ids, picked).stats)
    decreases |ids|
  {
    if ids != [] {
      var q := if ids[0] in picked then CloseStcp(p, ids[0]) else p;
      ClosesKeepTraffic(p, ids[0]);
      CloseStcpsKeepTraffic(q, ids[1..], picked);
      SameTrafficTwice(p.stats, q.stats, CloseStcps(p, ids, picked).stats);
    }
  }

  lemma OthersKeepTraffic(p: Pools, e: Event)
    requires !Counts(p, e) && !e.BytesIn? && !e.BytesOut?
    ensures SameTraffic(p.stats, Next(p, e).stats)
  {
    match e
    case ConnCloses(id) => ClosesKeepTraffic(p, id);
    case StcpCloses(id) => ClosesKeepTraffic(p, id);
    case SweepRuns(ids, stcpIds, now, timeout) =>
      var q := CloseConns(p, ids, IdleIds(p.conns, now, timeout));
      CloseConnsKeepTraffic(p, ids, IdleIds(p.conns, now, timeout));
      CloseStcpsKeepTraffic(q, stcpIds, IdleIds(q.stcp, now, timeout));
      SameTrafficTwice(p.stats, q.stats, Next(p, e).stats);
    case ProxyRemoved(proxy, ids) => CloseConnsKeepTraffic(p, ids, OfProxy(p.conns, proxy));
    case ProviderRemoved(proxy, ids) => CloseStcpsKeepTraffic(p, ids, OfProxy(p.stcp, proxy));
    case _ =>
  }

  /** The totals are those of the run. */
  ghost predicate TotalsExact(events: seq<Event>, c: Counters) {
    c.total == Openings(events) && c.bytesIn == Received(events) && c.bytesOut == SentOut(events)
  }

  ghost predicate ConnExact(events: seq<Event>, c: Counters, id: Id) {
    id in c.conns ==> c.conns[id].bytesIn == ReceivedBy(events, id) && c.conns[id].bytesOut == SentBy(events, id)
  }

  ghost predicate ProxyExact(events: seq<Event>, c: Counters, n: string) {
    && StatOf(c, n).connections == OpeningsOf(events, n)
    && StatOf(c, n).bytesIn == ReceivedUnder(events, n)
    && StatOf(c, n).bytesOut == SentUnder(events, n)
  }

  /** What one event does to the counters of one connection and one proxy. */
  ghost predicate CountedAs(p: Pools, e: Event, c': Counters, id: Id, n: string) {
    var c := p.stats;
    && c'.total == c.total + (if Counts(p, e) then 1 else 0)
    && c'.bytesIn == c.bytesIn + (if e.BytesIn? then e.size else 0)
    && c'.bytesOut == c.bytesOut + (if e.BytesOut? then e.size else 0)
    && StatOf(c', n).connections == StatOf(c, n).connections + (if Counts(p, e) && e.proxy == n then 1 else 0)
    && StatOf(c', n).bytesIn == StatOf(c, n).bytesIn + (if e.BytesIn? && Under(p, e.id, n) then e.size else 0)
    && StatOf(c', n).bytesOut == StatOf(c, n).bytesOut + (if e.BytesOut? && Under(p, e.id, n) then e.size else 0)
    && (id in c'.conns ==>
         if Counts(p, e) && e.id == id then c'.conns[id].bytesIn == 0 == c'.conns[id].bytesOut
         else && id in c.conns
              && c'.conns[id].bytesIn == c.conns[id].bytesIn + (if e.BytesIn? && e.id == id then e.size else 0)
              && c'.conns[id].bytesOut == c.conns[id].bytesOut + (if e.BytesOut? && e.id == id then e.size else 0))
  }

  lemma CountedOpening(p: Pools, e: Event, id: Id, n: string)
    requires Agree(p) && Counts(p, e)
    ensures CountedAs(p, e, Next(p, e).stats, id, n)
  {
    assert e.VisitorConnects? ==> e.id !in p.stcp;
    assert Next(p, e).stats == OnConnect(p.stats, e.proxy, e.id);
    hide Agree, Next;
  }

  lemma CountedData(p: Pools, e: Event, id: Id, n: string)
    requires e.BytesIn? || e.BytesOut?
    ensures CountedAs(p, e, Next(p, e).stats, id, n)
  {
    assert Next(p, e).stats == if e.BytesIn? then OnDataIn(p.stats, e.id, e.size) else OnDataOut(p.stats, e.id, e.size);
    hide Next;
  }

  lemma CountedStep(p: Pools, e: Event, id: Id, n: string)
    requires Agree(p)
    ensures CountedAs(p, e, Next(p, e).stats, id, n)
  {
    if Counts(p, e) {
      CountedOpening(p, e, id, n);
    } else if e.BytesIn? || e.BytesOut? {
      CountedData(p, e, id, n);
    } else {
      OthersKeepTraffic(p, e);
      assert StatOf(Next(p, e).stats, n).(current := 0) == StatOf(p.stats, n).(current := 0);
      hide Next, Agree;
    }
  }

  /** In every reachable state the counters are exact: totals are over all events, a connection's
      bytes since it was counted, a proxy's over the time its connections were counted. */
  lemma {:induction false} TrafficExact(events: seq<Event>, id: Id, n: string)
    ensures TotalsExact(events, Run(events).stats)
    ensures ConnExact(events, Run(events).stats, id)
    ensures ProxyExact(events, Run(events).stats, n)
  {
    if events != [] {
      var before, e := events[..|events| - 1], events[|events| - 1];
      TrafficExact(before, id, n);
      RunAgrees(before);
      CountedStep(Run(before), e, id, n);
    }
  }
}
