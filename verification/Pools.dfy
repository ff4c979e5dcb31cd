/** The two connection pools of the server and their agreement with the counters. */
module Pools {
  import opened Stats

  datatype Entry = Entry(proxy: string, lastActivity: real)

  datatype Pools = Pools(stats: Counters, conns: map<Id, Entry>, stcp: map<Id, Entry>)

  /** `close_conn` and `close_stcp_conn`: on_disconnect only if there was an entry. */
  function CloseConn(p: Pools, id: Id): Pools {
    if id in p.conns then p.(conns := p.conns - {id}, stats := OnDisconnect(p.stats, id)) else p
  }

  function CloseStcp(p: Pools, id: Id): Pools {
    if id in p.stcp then p.(stcp := p.stcp - {id}, stats := OnDisconnect(p.stats, id)) else p
  }

  /** A user connects: counted first; the entry exists only if NEW_CONN could be written. */
  function OpenConn(p: Pools, id: Id, proxy: string, told: bool, now: real): Pools {
    var counted := p.(stats := OnConnect(p.stats, proxy, id));
    if told then counted.(conns := p.conns[id := Entry(proxy, now)]) else counted
  }

  function OpenStcp(p: Pools, id: Id, proxy: string, now: real): Pools {
    if id in p.stcp then p
    else p.(stcp := p.stcp[id := Entry(proxy, now)], stats := OnConnect(p.stats, proxy, id))
  }

  function Touch(m: map<Id, Entry>, id: Id, now: real): map<Id, Entry> {
    if id in m then m[id := m[id].(lastActivity := now)] else m
  }

  predicate Idle(e: Entry, now: real, timeout: real) {
    now - e.lastActivity > timeout
  }

  // ----- loops over key snapshots -----

  /** Closes, in the order of the snapshot, every connection the test picks. */
  function CloseConns(p: Pools, ids: seq<Id>, picked: set<Id>): Pools
    decreases |ids|
  {
    if ids == [] then p
    else CloseConns(if ids[0] in picked then CloseConn(p, ids[0]) else p, ids[1..], picked)
  }

  function CloseStcps(p: Pools, ids: seq<Id>, picked: set<Id>): Pools
    decreases |ids|
  {
    if ids == [] then p
    else CloseStcps(if ids[0] in picked then CloseStcp(p, ids[0]) else p, ids[1..], picked)
  }

  function IdleIds(m: map<Id, Entry>, now: real, timeout: real): set<Id> {
    set id | id in m && Idle(m[id], now, timeout)
  }

  function OfProxy(m: map<Id, Entry>, proxy: string): set<Id> {
    set id | id in m && m[id].proxy == proxy
  }

  // ----- agreement -----

  ghost predicate Agree(p: Pools) {
    && Consistent(p.stats)
    && (forall id :: id in p.conns ==> id in p.stats.conns && id !in p.stcp && p.stats.conns[id].proxy == p.conns[id].proxy)
    && (forall id :: id in p.stcp ==> id in p.stats.conns && p.stats.conns[id].proxy == p.stcp[id].proxy)
  }

  lemma CloseConnAgrees(p: Pools, id: Id)
    requires Agree(p)
    ensures Agree(CloseConn(p, id))
  {
    if id in p.conns {
      DisconnectConsistentIff(p.stats, id);
    }
  }

  lemma CloseStcpAgrees(p: Pools, id: Id)
    requires Agree(p)
    ensures Agree(CloseStcp(p, id))
  {
    if id in p.stcp {
      DisconnectConsistentIff(p.stats, id);
    }
  }

  function Keep<T>(m: map<Id, T>, gone: set<Id>): map<Id, T> {
    map id | id in m && id !in gone :: m[id]
  }

  /** Exactly the given connections are gone, from the pools and from the statistics. */
  ghost predicate Without(p: Pools, p': Pools, conns: set<Id>, stcp: set<Id>) {
    && p'.conns == Keep(p.conns, conns)
    && p'.stcp == Keep(p.stcp, stcp)
    && p'.stats.conns == Keep(p.stats.conns, conns + stcp)
    && p'.stats.total == p.stats.total
    && p'.stats.bytesIn == p.stats.bytesIn
    && p'.stats.bytesOut == p.stats.bytesOut
  }

  function Met(m: map<Id, Entry>, ids: seq<Id>, picked: set<Id>): set<Id> {
    set id | id in m && id in ids && id in picked
  }

  lemma WithoutNothing(p: Pools)
    ensures Without(p, p, {}, {})
  {
    assert Keep(p.conns, {}) == p.conns && Keep(p.stcp, {}) == p.stcp;
    assert Keep(p.stats.conns, {}) == p.stats.conns;
  }

  lemma KeepTwice<T>(m: map<Id, T>, a: set<Id>, b: set<Id>)
    ensures Keep(Keep(m, a), b) == Keep(m, a + b)
  {
  }

  lemma WithoutBoth(p: Pools, q: Pools, r: Pools, a: set<Id>, b: set<Id>, a': set<Id>, b': set<Id>, conns: set<Id>, stcp: set<Id>)
    requires Without(p, q, a, b) && Without(q, r, a', b')
    requires conns == a + a' && stcp == b + b'
    ensures Without(p, r, conns, stcp)
  {
    KeepTwice(p.conns, a, a');
    KeepTwice(p.stcp, b, b');
    KeepTwice(p.stats.conns, a + b, a' + b');
    assert a + b + (a' + b') == conns + stcp;
  }

  lemma CloseConnWithout(p: Pools, id: Id)
    requires id in p.conns
    ensures Without(p, CloseConn(p, id), {id}, {})
  {
    assert p.conns - {id} == Keep(p.conns, {id});
    assert Keep(p.stcp, {}) == p.stcp;
    assert p.stats.conns - {id} == Keep(p.stats.conns, {id} + {});
  }

  lemma CloseStcpWithout(p: Pools, id: Id)
    requires id in p.stcp
    ensures Without(p, CloseStcp(p, id), {}, {id})
  {
    assert p.stcp - {id} == Keep(p.stcp, {id});
    assert Keep(p.conns, {}) == p.conns;
    assert p.stats.conns - {id} == Keep(p.stats.conns, {} + {id});
  }

  /** The loop closes exactly what it meets and picks, whatever the order of the snapshot. */
  lemma {:induction false} CloseConnsExact(p: Pools, ids: seq<Id>, picked: set<Id>)
    ensures Without(p, CloseConns(p, ids, picked), Met(p.conns, ids, picked), {})
    decreases |ids|
  {
    var met := Met(p.conns, ids, picked);
    if ids == [] {
      WithoutNothing(p);
      assert met == {};
    } else if ids[0] in picked && ids[0] in p.conns {
      var id, rest := ids[0], ids[1..];
      var q := CloseConn(p, id);
      CloseConnWithout(p, id);
      CloseConnsExact(q, rest, picked);
      assert {id} + Met(q.conns, rest, picked) == met;
      var none: set<Id> := {};
      assert none == none + none;
      WithoutBoth(p, q, CloseConns(q, rest, picked), {id}, none, Met(q.conns, rest, picked), none, met, none);
    } else {
      CloseConnsExact(p, ids[1..], picked);
      assert Met(p.conns, ids[1..], picked) == met;
    }
  }

  lemma {:induction false} CloseStcpsExact(p: Pools, ids: seq<Id>, picked: set<Id>)
    ensures Without(p, CloseStcps(p, ids, picked), {}, Met(p.stcp, ids, picked))
    decreases |ids|
  {
    var met := Met(p.stcp, ids, picked);
    if ids == [] {
      WithoutNothing(p);
      assert met == {};
    } else if ids[0] in picked && ids[0] in p.stcp {
      var id, rest := ids[0], ids[1..];
      var q := CloseStcp(p, id);
      CloseStcpWithout(p, id);
      CloseStcpsExact(q, rest, picked);
      assert {id} + Met(q.stcp, rest, picked) == met;
      var none: set<Id> := {};
      assert none == none + none;
      WithoutBoth(p, q, CloseStcps(q, rest, picked), none, {id}, none, Met(q.stcp, rest, picked), none, met);
    } else {
      CloseStcpsExact(p, ids[1..], picked);
      assert Met(p.stcp, ids[1..], picked) == met;
    }
  }

  lemma {:induction false} CloseConnsAgrees(p: Pools, ids: seq<Id>, picked: set<Id>)
    requires Agree(p)
    ensures Agree(CloseConns(p, ids, picked))
    decreases |ids|
  {
    if ids != [] {
      CloseConnAgrees(p, ids[0]);
      CloseConnsAgrees(if ids[0] in picked then CloseConn(p, ids[0]) else p, ids[1..], picked);
    }
  }

  lemma {:induction false} CloseStcpsAgrees(p: Pools, ids: seq<Id>, picked: set<Id>)
    requires Agree(p)
    ensures Agree(CloseStcps(p, ids, picked))
    decreases |ids|
  {
    if ids != [] {
      CloseStcpAgrees(p, ids[0]);
      CloseStcpsAgrees(if ids[0] in picked then CloseStcp(p, ids[0]) else p, ids[1..], picked);
    }
  }

  // ----- the idle sweep -----

  ghost predicate Snapshot(ids: seq<Id>, m: map<Id, Entry>) {
    forall id :: id in ids <==> id in m
  }

  /** `_cleanup_idle_connections`: both loops, over snapshots of the keys. */
  function Sweep(p: Pools, ids: seq<Id>, stcpIds: seq<Id>, now: real, timeout: real): Pools {
    var q := CloseConns(p, ids, IdleIds(p.conns, now, timeout));
    CloseStcps(q, stcpIds, IdleIds(q.stcp, now, timeout))
  }

  lemma SweepWithout(p: Pools, ids: seq<Id>, stcpIds: seq<Id>, now: real, timeout: real)
    requires Snapshot(ids, p.conns) && Snapshot(stcpIds, p.stcp)
    ensures Without(p, Sweep(p, ids, stcpIds, now, timeout), IdleIds(p.conns, now, timeout), IdleIds(p.stcp, now, timeout))
  {
    var gone, goneStcp := IdleIds(p.conns, now, timeout), IdleIds(p.stcp, now, timeout);
    var q := CloseConns(p, ids, gone);
    CloseConnsExact(p, ids, gone);
    assert Met(p.conns, ids, gone) == gone;
    assert Keep(p.stcp, {}) == p.stcp;
    CloseStcpsExact(q, stcpIds, goneStcp);
    assert Met(q.stcp, stcpIds, goneStcp) == goneStcp;
    assert gone + {} == gone && {} + goneStcp == goneStcp;
    WithoutBoth(p, q, CloseStcps(q, stcpIds, goneStcp), gone, {}, {}, goneStcp, gone, goneStcp);
  }

  lemma SweepAgrees(p: Pools, ids: seq<Id>, stcpIds: seq<Id>, now: real, timeout: real)
    requires Agree(p)
    ensures Agree(Sweep(p, ids, stcpIds, now, timeout))
  {
    var q := CloseConns(p, ids, IdleIds(p.conns, now, timeout));
    CloseConnsAgrees(p, ids, IdleIds(p.conns, now, timeout));
    CloseStcpsAgrees(q, stcpIds, IdleIds(q.stcp, now, timeout));
  }

  /** The sweep is an exact filter on both pools, and the counters still agree. */
  lemma SweepExact(p: Pools, ids: seq<Id>, stcpIds: seq<Id>, now: real, timeout: real)
    requires Agree(p) && Snapshot(ids, p.conns) && Snapshot(stcpIds, p.stcp)
    ensures var p' := Sweep(p, ids, stcpIds, now, timeout);
            && Agree(p')
            && Without(p, p', IdleIds(p.conns, now, timeout), IdleIds(p.stcp, now, timeout))
            && (forall id :: id in p'.conns <==> id in p.conns && now - p.conns[id].lastActivity <= timeout)
            && (forall id :: id in p'.stcp <==> id in p.stcp && now - p.stcp[id].lastActivity <= timeout)
  {
    SweepWithout(p, ids, stcpIds, now, timeout);
    SweepAgrees(p, ids, stcpIds, now, timeout);
  }

  // ----- runs -----

  datatype Event =
    | UserConnects(id: Id, proxy: string, told: bool, now: real)
    | VisitorConnects(id: Id, proxy: string, now: real)
    | ConnCloses(id: Id)
    | StcpCloses(id: Id)
    | BytesIn(id: Id, size: nat)      // also from a task whose connection is already closed
    | BytesOut(id: Id, size: nat)
    | Activity(id: Id, now: real)
    | SweepRuns(ids: seq<Id>, stcpIds: seq<Id>, now: real, timeout: real)
    | ProxyRemoved(proxy: string, ids: seq<Id>)
    | ProviderRemoved(proxy: string, ids: seq<Id>)

  /** Connection ids are fresh: one that is still counted is not used again. */
  function Next(p: Pools, e: Event): Pools {
    match e
    case UserConnects(id, proxy, told, now) => if id in p.stats.conns then p else OpenConn(p, id, proxy, told, now)
    case VisitorConnects(id, proxy, now) => if id in p.stats.conns && id !in p.stcp then p else OpenStcp(p, id, proxy, now)
    case ConnCloses(id) => CloseConn(p, id)
    case StcpCloses(id) => CloseStcp(p, id)
    case BytesIn(id, size) => p.(stats := OnDataIn(p.stats, id, size))
    case BytesOut(id, size) => p.(stats := OnDataOut(p.stats, id, size))
    case Activity(id, now) => p.(conns := Touch(p.conns, id, now), stcp := Touch(p.stcp, id, now))
    case SweepRuns(ids, stcpIds, now, timeout) => Sweep(p, ids, stcpIds, now, timeout)
    case ProxyRemoved(proxy, ids) => CloseConns(p, ids, OfProxy(p.conns, proxy))
    case ProviderRemoved(proxy, ids) => CloseStcps(p, ids, OfProxy(p.stcp, proxy))
  }

  function Run(events: seq<Event>): Pools {
    if events == [] then Pools(ZERO, map[], map[])
    else Next(Run(events[..|events| - 1]), events[|events| - 1])
  }

  lemma OpenConnAgrees(p: Pools, id: Id, proxy: string, told: bool, now: real)
    requires Agree(p) && id !in p.stats.conns
    ensures Agree(OpenConn(p, id, proxy, told, now))
  {
    ConnectConsistentIff(p.stats, proxy, id);
  }

  lemma OpenStcpAgrees(p: Pools, id: Id, proxy: string, now: real)
    requires Agree(p) && (id in p.stats.conns ==> id in p.stcp)
    ensures Agree(OpenStcp(p, id, proxy, now))
  {
    ConnectConsistentIff(p.stats, proxy, id);
  }

  lemma DataAgrees(p: Pools, id: Id, size: nat)
    requires Agree(p)
    ensures Agree(p.(stats := OnDataIn(p.stats, id, size)))
    ensures Agree(p.(stats := OnDataOut(p.stats, id, size)))
  {
    DataInConsistent(p.stats, id, size);
    DataOutConsistent(p.stats, id, size);
  }

  lemma TouchAgrees(p: Pools, id: Id, now: real)
    requires Agree(p)
    ensures Agree(p.(conns := Touch(p.conns, id, now), stcp := Touch(p.stcp, id, now)))
  {
  }

  lemma OpensAgree(p: Pools, e: Event)
    requires Agree(p) && (e.UserConnects? || e.VisitorConnects?)
    ensures Agree(Next(p, e))
  {
    match e
    case UserConnects(id, proxy, told, now) =>
      if id !in p.stats.conns {
        OpenConnAgrees(p, id, proxy, told, now);
      }
    case VisitorConnects(id, proxy, now) =>
      if id in p.stats.conns ==> id in p.stcp {
        OpenStcpAgrees(p, id, proxy, now);
      }
  }

  lemma LoopsAgree(p: Pools, e: Event)
    requires Agree(p) && (e.SweepRuns? || e.ProxyRemoved? || e.ProviderRemoved?)
    ensures Agree(Next(p, e))
  {
    match e
    case SweepRuns(ids, stcpIds, now, timeout) => SweepAgrees(p, ids, stcpIds, now, timeout);
    case ProxyRemoved(proxy, ids) => CloseConnsAgrees(p, ids, OfProxy(p.conns, proxy));
    case ProviderRemoved(proxy, ids) => CloseStcpsAgrees(p, ids, OfProxy(p.stcp, proxy));
  }

  lemma KeepsAgree(p: Pools, e: Event)
    requires Agree(p)
    ensures Agree(Next(p, e))
  {
    match e
    case UserConnects(_, _, _, _) => OpensAgree(p, e);
    case VisitorConnects(_, _, _) => OpensAgree(p, e);
    case BytesIn(id, size) => DataAgrees(p, id, size);
    case BytesOut(id, size) => DataAgrees(p, id, size);
    case Activity(id, now) => TouchAgrees(p, id, now);
    case ConnCloses(id) => CloseConnAgrees(p, id);
    case StcpCloses(id) => CloseStcpAgrees(p, id);
    case _ => LoopsAgree(p, e);
  }

  /** Counters and pools agree in every reachable state. */
  lemma {:induction false} RunAgrees(events: seq<Event>)
    ensures Agree(Run(events))
  {
    if events == [] {
      assert BytesInOf(ZERO.proxies) == map[] && BytesOutOf(ZERO.proxies) == map[];
    } else {
      RunAgrees(events[..|events| - 1]);
      KeepsAgree(Run(events[..|events| - 1]), events[|events| - 1]);
    }
  }

  /** In a run on_disconnect is called for counted connections only: `max(0, n - 1)` is n - 1. */
  lemma ClampsNeverBite(events: seq<Event>, id: Id)
    requires id in Run(events).conns || id in Run(events).stcp
    ensures var s := Run(events).stats;
            && id in s.conns
            && OnDisconnect(s, id).current == s.current - 1
            && StatOf(OnDisconnect(s, id), s.conns[id].proxy).current == StatOf(s, s.conns[id].proxy).current - 1
  {
    RunAgrees(events);
    ClampsIdle(Run(events).stats, id);
  }

  // ----- connections that are counted for ever -----

  /** Users who were counted and for whom NEW_CONN could then not be written: no pool entry
      is made and on_disconnect is never called. */
  function Stranded(events: seq<Event>): set<Id> {
    if events == [] then {}
    else
      var before, e := events[..|events| - 1], events[|events| - 1];
      Stranded(before) + (if e.UserConnects? && !e.told && e.id !in Run(before).stats.conns then {e.id} else {})
  }

  /** Counted are the ids of the two pools and the stranded ones, and these three are disjoint. */
  ghost predicate Accounted(p: Pools, stranded: set<Id>) {
    && p.stats.conns.Keys == p.conns.Keys + p.stcp.Keys + stranded
    && p.conns.Keys !! p.stcp.Keys !! stranded
  }

  lemma WithoutAccounted(p: Pools, p': Pools, conns: set<Id>, stcp: set<Id>, stranded: set<Id>)
    requires Accounted(p, stranded) && Without(p, p', conns, stcp)
    requires conns <= p.conns.Keys && stcp <= p.stcp.Keys
    ensures Accounted(p', stranded)
  {
    assert p'.conns.Keys == p.conns.Keys - conns && p'.stcp.Keys == p.stcp.Keys - stcp;
    assert p'.stats.conns.Keys == p.stats.conns.Keys - (conns + stcp);
  }

  lemma CloseConnsAccounted(p: Pools, ids: seq<Id>, picked: set<Id>, stranded: set<Id>)
    requires Accounted(p, stranded)
    ensures Accounted(CloseConns(p, ids, picked), stranded)
  {
    CloseConnsExact(p, ids, picked);
    WithoutAccounted(p, CloseConns(p, ids, picked), Met(p.conns, ids, picked), {}, stranded);
  }

  lemma CloseStcpsAccounted(p: Pools, ids: seq<Id>, picked: set<Id>, stranded: set<Id>)
    requires Accounted(p, stranded)
    ensures Accounted(CloseStcps(p, ids, picked), stranded)
  {
    CloseStcpsExact(p, ids, picked);
    WithoutAccounted(p, CloseStcps(p, ids, picked), {}, Met(p.stcp, ids, picked), stranded);
  }

  lemma ClosesAccounted(p: Pools, id: Id, stranded: set<Id>)
    requires Accounted(p, stranded)
    ensures Accounted(CloseConn(p, id), stranded) && Accounted(CloseStcp(p, id), stranded)
  {
    if id in p.conns {
      CloseConnWithout(p, id);
      WithoutAccounted(p, CloseConn(p, id), {id}, {}, stranded);
    }
    if id in p.stcp {
      CloseStcpWithout(p, id);
      WithoutAccounted(p, CloseStcp(p, id), {}, {id}, stranded);
    }
  }

  /** An event that changes no key keeps the account. */
  lemma SameKeysAccounted(p: Pools, p': Pools, stranded: set<Id>)
    requires Accounted(p, stranded)
    requires p'.conns.Keys == p.conns.Keys && p'.stcp.Keys == p.stcp.Keys && p'.stats.conns.Keys == p.stats.conns.Keys
    ensures Accounted(p', stranded)
  {
  }

  lemma OpensAccounted(p: Pools, e: Event, stranded: set<Id>)
    requires Accounted(p, stranded) && (e.UserConnects? || e.VisitorConnects?)
    ensures Accounted(Next(p, e), stranded + (if e.UserConnects? && !e.told && e.id !in p.stats.conns then {e.id} else {}))
  {
    if e.id !in p.stats.conns {
      assert Next(p, e).stats.conns.Keys == p.stats.conns.Keys + {e.id};
      if e.UserConnects? {
        assert Next(p, e).conns.Keys == p.conns.Keys + (if e.told then {e.id} else {});
      } else {
        assert Next(p, e).stcp.Keys == p.stcp.Keys + {e.id};
      }
    }
  }

  lemma KeepsAccounted(p: Pools, e: Event, stranded: set<Id>)
    requires Accounted(p, stranded) && !e.UserConnects? && !e.VisitorConnects?
    ensures Accounted(Next(p, e), stranded)
  {
    match e
    case ConnCloses(id) => ClosesAccounted(p, id, stranded);
    case StcpCloses(id) => ClosesAccounted(p, id, stranded);
    case SweepRuns(ids, stcpIds, now, timeout) =>
      var q := CloseConns(p, ids, IdleIds(p.conns, now, timeout));
      CloseConnsAccounted(p, ids, IdleIds(p.conns, now, timeout), stranded);
      CloseStcpsAccounted(q, stcpIds, IdleIds(q.stcp, now, timeout), stranded);
    case ProxyRemoved(proxy, ids) => CloseConnsAccounted(p, ids, OfProxy(p.conns, proxy), stranded);
    case ProviderRemoved(proxy, ids) => CloseStcpsAccounted(p, ids, OfProxy(p.stcp, proxy), stranded);
    case _ => SameKeysAccounted(p, Next(p, e), stranded);
  }

  /** In every reachable state: what is counted is what the pools hold and what is stranded. */
  lemma {:induction false} RunAccounted(events: seq<Event>)
    ensures Accounted(Run(events), Stranded(events))
  {
    if events != [] {
      var before, e := events[..|events| - 1], events[|events| - 1];
      RunAccounted(before);
      if e.UserConnects? || e.VisitorConnects? {
        OpensAccounted(Run(before), e, Stranded(before));
      } else {
        assert Stranded(before) + {} == Stranded(before);
        KeepsAccounted(Run(before), e, Stranded(before));
      }
    }
  }

  /** At event k a user is counted whose NEW_CONN cannot be written. */
  ghost predicate StrandsAt(events: seq<Event>, k: nat)
    requires k < |events|
  {
    events[k].UserConnects? && !events[k].told && events[k].id !in Run(events[..k]).stats.conns
  }

  lemma {:induction false} StrandedIff(events: seq<Event>)
    ensures Stranded(events) != {} <==> exists k :: 0 <= k < |events| && StrandsAt(events, k)
  {
    if events != [] {
      var before, e := events[..|events| - 1], events[|events| - 1];
      StrandedIff(before);
      forall k | 0 <= k < |before|
        ensures StrandsAt(events, k) <==> StrandsAt(before, k)
      {
        assert events[..k] == before[..k];
      }
      assert StrandsAt(events, |before|) ==> e.id in Stranded(events);
    }
  }

  /** The counted connections are exactly those of the pools if and only if no accepted user
      connection met a NEW_CONN that could not be written; each such one is counted for ever. */
  lemma CountedIffTold(events: seq<Event>)
    ensures var p := Run(events);
            p.stats.conns.Keys == p.conns.Keys + p.stcp.Keys <==> !exists k :: 0 <= k < |events| && StrandsAt(events, k)
    ensures Run(events).stats.current == |Run(events).conns| + |Run(events).stcp| + |Stranded(events)|
  {
    var p, stranded := Run(events), Stranded(events);
    RunAccounted(events);
    RunAgrees(events);
    StrandedIff(events);
    assert p.stats.conns.Keys == p.conns.Keys + p.stcp.Keys ==> stranded == {};
    assert |p.stats.conns.Keys| == |p.conns.Keys| + |p.stcp.Keys| + |stranded|;
  }

  /** Once stranded, stranded for the rest of the run. */
  lemma {:induction false} StrandedStays(events: seq<Event>, more: seq<Event>)
    ensures Stranded(events) <= Stranded(events + more)
  {
    if more == [] {
      assert events + more == events;
    } else {
      var before := more[..|more| - 1];
      StrandedStays(events, before);
      assert (events + more)[..|events + more| - 1] == events + before;
    }
  }

  /** A run whose first NEW_CONN fails: whatever follows, that user is in no pool and counted. */
  lemma UntoldStaysCounted(id: Id, proxy: string, now: real, more: seq<Event>)
    ensures var p := Run([UserConnects(id, proxy, false, now)] + more);
            id in p.stats.conns && id !in p.conns && id !in p.stcp && p.stats.current >= 1
  {
    var first := [UserConnects(id, proxy, false, now)];
    assert first[..0] == [] && Stranded([]) == {} && Run([]).stats.conns == map[];
    assert id in Stranded(first);
    StrandedStays(first, more);
    RunAccounted(first + more);
    CountedIffTold(first + more);
    assert id in Stranded(first + more);
    assert |Stranded(first + more)| > 0;
  }

  // ----- the server's methods -----

  class PoolServer {
    const book: StatsBook
    var connPool: map<Id, Entry>
    var stcpConns: map<Id, Entry>

    ghost function View(): Pools
      reads this, book
    {
      Pools(book.View(), connPool, stcpConns)
    }

    constructor ()
      ensures fresh(book) && View() == Pools(ZERO, map[], map[])
    {
      book := new StatsBook();
      connPool, stcpConns := map[], map[];
    }

    method Close(id: Id)
      modifies this, book
      ensures View() == CloseConn(old(View()), id)
    {
      if id in connPool {
        connPool := connPool - {id};
        book.Disconnect(id);
      }
    }

    method CloseRelay(id: Id)
      modifies this, book
      ensures View() == CloseStcp(old(View()), id)
    {
      if id in stcpConns {
        stcpConns := stcpConns - {id};
        book.Disconnect(id);
      }
    }

    method OpenUser(id: Id, proxy: string, told: bool, now: real)
      modifies this, book
      ensures View() == OpenConn(old(View()), id, proxy, told, now)
    {
      book.Connect(proxy, id);
      if told {
        connPool := connPool[id := Entry(proxy, now)];
      }
    }

    /** The loop over conn_pool in `_remove_proxy`. */
    method CloseProxyConns(proxy: string, ids: seq<Id>)
      modifies this, book
      ensures View() == CloseConns(old(View()), ids, OfProxy(old(connPool), proxy))
    {
      ghost var start, picked := View(), OfProxy(connPool, proxy);
      var i := 0;
      while i < |ids|
        invariant i <= |ids|
        invariant CloseConns(start, ids, picked) == CloseConns(View(), ids[i..], picked)
        invariant forall id :: id in connPool ==> id in start.conns && connPool[id] == start.conns[id]
      {
        var id := ids[i];
        if id in connPool && connPool[id].proxy == proxy {
          Close(id);
        } else {
          assert CloseConn(View(), id) == View() || id !in picked;
        }
        i := i + 1;
      }
    }

    /** The loop over stcp_conns when a provider goes. */
    method CloseProxyRelays(proxy: string, ids: seq<Id>)
      modifies this, book
      ensures View() == CloseStcps(old(View()), ids, OfProxy(old(stcpConns), proxy))
    {
      ghost var start, picked := View(), OfProxy(stcpConns, proxy);
      var i := 0;
      while i < |ids|
        invariant i <= |ids|
        invariant CloseStcps(start, ids, picked) == CloseStcps(View(), ids[i..], picked)
        invariant forall id :: id in stcpConns ==> id in start.stcp && stcpConns[id] == start.stcp[id]
      {
        var id := ids[i];
        if id in stcpConns && stcpConns[id].proxy == proxy {
          CloseRelay(id);
        } else {
          assert CloseStcp(View(), id) == View() || id !in picked;
        }
        i := i + 1;
      }
    }

    method SweepIdle(ids: seq<Id>, stcpIds: seq<Id>, now: real, timeout: real)
      modifies this, book
      ensures View() == Sweep(old(View()), ids, stcpIds, now, timeout)
    {
      ghost var start, picked := View(), IdleIds(connPool, now, timeout);
      var i := 0;
      while i < |ids|
        invariant i <= |ids|
        invariant CloseConns(start, ids, picked) == CloseConns(View(), ids[i..], picked)
        invariant forall id :: id in connPool ==> id in start.conns && connPool[id] == start.conns[id]
      {
        var id := ids[i];
        if id in connPool && now - connPool[id].lastActivity > timeout {
          Close(id);
        } else {
          assert CloseConn(View(), id) == View() || id !in picked;
        }
        i := i + 1;
      }
      ghost var mid, idle := View(), IdleIds(stcpConns, now, timeout);
      i := 0;
      while i < |stcpIds|
        invariant i <= |stcpIds|
        invariant CloseStcps(mid, stcpIds, idle) == CloseStcps(View(), stcpIds[i..], idle)
        invariant forall id :: id in stcpConns ==> id in mid.stcp && stcpConns[id] == mid.stcp[id]
      {
        var id := stcpIds[i];
        if id in stcpConns && now - stcpConns[id].lastActivity > timeout {
          CloseRelay(id);
        } else {
          assert CloseStcp(View(), id) == View() || id !in idle;
        }
        i := i + 1;
      }
    }
  }
}
