/** Registries and relays together, over whole runs: when a relay outlives its provider. */
module Relays {
  import opened Bytes
  import opened Stats
  import opened Pools
  import opened Cleanup
  import PoolRuns = Pools

  datatype Site = Site(world: World, pools: Pools)

  /** `ids` and `relayIds` are the key snapshots that the loops of a disconnect take. */
  datatype SiteEvent =
    | ClientLogsIn(w: Writer, session: Id)
    | ClientRegisters(kind: Kind, name: string, w: Writer, owner: Option<Id>, allowed: bool)
    | VisitorOpens(id: Id, name: string, now: real)
    | RelayCloses(id: Id)
    | ClientLeaves(w: Writer, owner: Option<Id>, ids: seq<Id>, relayIds: seq<Id>)

  /** The pools after both loops over them. */
  function ClosePools(p: Pools, b: Books, w: Writer, session: Option<Id>, ids: seq<Id>, relayIds: seq<Id>): Pools {
    var q := CloseConns(p, ids, OfAny(p.conns, NamesOf(b.proxies, w)));
    CloseStcps(q, relayIds, OfAny(q.stcp, SeenProviders(b, w, session)))
  }

  ghost function SiteNext(site: Site, e: SiteEvent): Site {
    match e
    case ClientLogsIn(w, session) => site.(world := Cleanup.Next(site.world, LogsIn(w, session)))
    case ClientRegisters(kind, name, w, owner, allowed) =>
      site.(world := Cleanup.Next(site.world, Registers(kind, name, w, owner, allowed)))
    case VisitorOpens(id, name, now) =>
      if name !in site.world.books.providers then site
      else site.(pools := PoolRuns.Next(site.pools, VisitorConnects(id, name, now)))
    case RelayCloses(id) => site.(pools := CloseStcp(site.pools, id))
    case ClientLeaves(w, owner, ids, relayIds) =>
      if !OwnSession(site.world, w, owner) || !Snapshot(ids, site.pools.conns) || !Snapshot(relayIds, site.pools.stcp) then site
      else Site(Cleanup.Next(site.world, Disconnects(w, owner)),
                ClosePools(site.pools, site.world.books, w, owner, ids, relayIds))
  }

  ghost function SiteRun(events: seq<SiteEvent>): Site {
    if events == [] then Site(Cleanup.Run([]), PoolRuns.Run([]))
    else SiteNext(SiteRun(events[..|events| - 1]), events[|events| - 1])
  }

  ghost predicate SiteOk(site: Site) {
    Inv(site.world) && Agree(site.pools)
  }

  lemma ConnsLoop(p: Pools, ids: seq<Id>, names: set<string>)
    requires Agree(p) && Snapshot(ids, p.conns)
    ensures var q := CloseConns(p, ids, OfAny(p.conns, names));
            Agree(q) && Without(p, q, OfAny(p.conns, names), {}) && q.stcp == p.stcp
  {
    hide Agree, CloseConns;
    var gone := OfAny(p.conns, names);
    CloseConnsExact(p, ids, gone);
    CloseConnsAgrees(p, ids, gone);
    assert Met(p.conns, ids, gone) == gone;
    assert Keep(p.stcp, {}) == p.stcp;
  }

  lemma RelaysLoop(p: Pools, relayIds: seq<Id>, names: set<string>)
    requires Agree(p) && Snapshot(relayIds, p.stcp)
    ensures var q := CloseStcps(p, relayIds, OfAny(p.stcp, names));
            Agree(q) && Without(p, q, {}, OfAny(p.stcp, names))
  {
    hide Agree, CloseStcps;
    var gone := OfAny(p.stcp, names);
    CloseStcpsExact(p, relayIds, gone);
    CloseStcpsAgrees(p, relayIds, gone);
    assert Met(p.stcp, relayIds, gone) == gone;
  }

  /** Both loops together are what a disconnect does to the pools. */
  lemma ClosePoolsSettles(p: Pools, b: Books, w: Writer, session: Option<Id>, ids: seq<Id>, relayIds: seq<Id>)
    requires Agree(p) && Snapshot(ids, p.conns) && Snapshot(relayIds, p.stcp)
    ensures Settles(p, ClosePools(p, b, w, session, ids, relayIds), b, w, session)
  {
    hide Agree, Without, CloseConns, CloseStcps;
    var names, providers := NamesOf(b.proxies, w), SeenProviders(b, w, session);
    var q := CloseConns(p, ids, OfAny(p.conns, names));
    ConnsLoop(p, ids, names);
    RelaysLoop(q, relayIds, providers);
    ConnsThenRelays(p, q, ClosePools(p, b, w, session, ids, relayIds), names, providers);
  }

  lemma KeepsSiteOk(site: Site, e: SiteEvent)
    requires SiteOk(site)
    ensures SiteOk(SiteNext(site, e))
  {
    match e
    case ClientLogsIn(w, session) => Cleanup.KeepsInv(site.world, LogsIn(w, session));
    case ClientRegisters(kind, name, w, owner, allowed) => Cleanup.KeepsInv(site.world, Registers(kind, name, w, owner, allowed));
    case VisitorOpens(id, name, now) => KeepsAgree(site.pools, VisitorConnects(id, name, now));
    case RelayCloses(id) => CloseStcpAgrees(site.pools, id);
    case ClientLeaves(w, owner, ids, relayIds) =>
      Cleanup.KeepsInv(site.world, Disconnects(w, owner));
      if Snapshot(ids, site.pools.conns) && Snapshot(relayIds, site.pools.stcp) {
        ClosePoolsSettles(site.pools, site.world.books, w, owner, ids, relayIds);
      }
  }

  lemma {:induction false} SiteRunOk(events: seq<SiteEvent>)
    ensures SiteOk(SiteRun(events))
  {
    if events == [] {
      Cleanup.RunInv([]);
      RunAgrees([]);
    } else {
      SiteRunOk(events[..|events| - 1]);
      KeepsSiteOk(SiteRun(events[..|events| - 1]), events[|events| - 1]);
    }
  }

  // ----- relays and their providers -----

  /** Every relay belongs to a registered provider. */
  ghost predicate NoOrphans(site: Site) {
    forall id :: id in site.pools.stcp ==> site.pools.stcp[id].proxy in site.world.books.providers
  }

  /** A client leaves while its session is live and a provider registered under that session
      has a relay open. */
  ghost predicate Strands(site: Site, e: SiteEvent) {
    && e.ClientLeaves?
    && OwnSession(site.world, e.w, e.owner)
    && Snapshot(e.ids, site.pools.conns) && Snapshot(e.relayIds, site.pools.stcp)
    && exists id :: id in site.pools.stcp
                    && UnderLiveSession(site.world.books, e.owner, site.pools.stcp[id].proxy)
  }

  /** A disconnect takes away exactly the providers of the connection; those under its session are its own. */
  lemma DisconnectProviders(world: World, w: Writer, session: Option<Id>)
    requires Inv(world) && OwnSession(world, w, session)
    ensures Cleanup.Next(world, Disconnects(w, session)).books.providers == OfOthers(world.books.providers, w)
    ensures forall name :: UnderLiveSession(world.books, session, name) ==> name in NamesOf(world.books.providers, w)
  {
    if session.Some? {
      SessionThenWriter(world.books.providers, world.openedBy, w, session.value);
    }
  }

  lemma LeavingIff(site: Site, e: SiteEvent)
    requires SiteOk(site) && NoOrphans(site) && e.ClientLeaves?
    ensures NoOrphans(SiteNext(site, e)) <==> !Strands(site, e)
  {
    var w, b, p := e.w, site.world.books, site.pools;
    if OwnSession(site.world, w, e.owner) && Snapshot(e.ids, p.conns) && Snapshot(e.relayIds, p.stcp) {
      var p' := ClosePools(p, b, w, e.owner, e.ids, e.relayIds);
      ClosePoolsSettles(p, b, w, e.owner, e.ids, e.relayIds);
      SettlesEntries(p, p', b, w, e.owner);
      DisconnectProviders(site.world, w, e.owner);
      if Strands(site, e) {
        var id :| id in p.stcp && UnderLiveSession(b, e.owner, p.stcp[id].proxy);
        assert id in p'.stcp && p'.stcp[id].proxy in NamesOf(b.providers, w);
      }
    }
  }

  lemma StepIff(site: Site, e: SiteEvent)
    requires SiteOk(site) && NoOrphans(site)
    ensures NoOrphans(SiteNext(site, e)) <==> !Strands(site, e)
  {
    hide Inv, Agree;
    match e
    case ClientLeaves(_, _, _, _) => LeavingIff(site, e);
    case _ =>
  }

  ghost predicate NeverOrphans(events: seq<SiteEvent>) {
    forall n :: 0 <= n <= |events| ==> NoOrphans(SiteRun(events[..n]))
  }

  ghost predicate StrandsAt(events: seq<SiteEvent>, k: nat)
    requires k < |events|
  {
    Strands(SiteRun(events[..k]), events[k])
  }

  /** What the last event adds to both sides. */
  lemma Shorter(events: seq<SiteEvent>)
    requires events != []
    ensures var before := events[..|events| - 1];
            && (NeverOrphans(events) <==> NeverOrphans(before) && NoOrphans(SiteRun(events)))
            && ((exists k :: 0 <= k < |events| && StrandsAt(events, k))
                <==> (exists k :: 0 <= k < |before| && StrandsAt(before, k)) || StrandsAt(events, |before|))
  {
    var before := events[..|events| - 1];
    forall n | 0 <= n <= |before|
      ensures events[..n] == before[..n]
    {
    }
    assert events[..|events|] == events;
    forall k | 0 <= k < |before|
      ensures StrandsAt(events, k) <==> StrandsAt(before, k)
    {
      assert events[..k] == before[..k];
    }
  }

  /** Over every run: each relay's provider is registered at every moment exactly when no client
      ever left while a provider under its live session had a relay open. */
  lemma {:induction false} NeverOrphansIff(events: seq<SiteEvent>)
    ensures NeverOrphans(events) <==> !exists k :: 0 <= k < |events| && StrandsAt(events, k)
  {
    if events == [] {
      assert events[..0] == [];
    } else {
      var before, e := events[..|events| - 1], events[|events| - 1];
      NeverOrphansIff(before);
      Shorter(events);
      if NeverOrphans(before) {
        SiteRunOk(before);
        assert before[..|before|] == before;
        StepIff(SiteRun(before), e);
      }
    }
  }

  /** A client's end that closes the relay: its provider is the connection's and not registered
      under its live session. */
  ghost predicate Closes(site: Site, e: SiteEvent, id: Id)
    requires id in site.pools.stcp
  {
    var b, name := site.world.books, site.pools.stcp[id].proxy;
    && e.ClientLeaves? && OwnSession(site.world, e.w, e.owner)
    && Snapshot(e.ids, site.pools.conns) && Snapshot(e.relayIds, site.pools.stcp)
    && name in b.providers && b.providers[name].writer == e.w
    && !UnderLiveSession(b, e.owner, name)
  }

  /** Which relays there are after an event. */
  lemma RelayAfter(site: Site, e: SiteEvent, id: Id)
    requires SiteOk(site)
    ensures id in SiteNext(site, e).pools.stcp <==>
              || (e.VisitorOpens? && e.id == id && e.name in site.world.books.providers && id !in site.pools.stats.conns)
              || (id in site.pools.stcp && e != RelayCloses(id) && !Closes(site, e, id))
    ensures e.VisitorOpens? && e.id == id && id !in site.pools.stcp && id in SiteNext(site, e).pools.stcp ==>
              SiteNext(site, e).pools.stcp[id] == Entry(e.name, e.now)
    ensures id in site.pools.stcp && id in SiteNext(site, e).pools.stcp ==>
              SiteNext(site, e).pools.stcp[id] == site.pools.stcp[id]
  {
    if e.ClientLeaves? {
      var p, b := site.pools, site.world.books;
      if Snapshot(e.ids, p.conns) && Snapshot(e.relayIds, p.stcp) {
        ClosePoolsSettles(p, b, e.w, e.owner, e.ids, e.relayIds);
        SettlesEntries(p, ClosePools(p, b, e.w, e.owner, e.ids, e.relayIds), b, e.w, e.owner);
      }
      hide Cleanup.Next, ClosePools, Inv, Agree, Settles;
    }
  }

  /** A run that leaves a relay behind: a client logs in and registers a provider, a visitor
      opens a connection, the client goes. */
  function Orphaning(w: Writer, session: Id, name: string, id: Id, now: real): seq<SiteEvent> {
    [ClientLogsIn(w, session)] + [ClientRegisters(Provider, name, w, Some(session), true)]
    + [VisitorOpens(id, name, now)] + [ClientLeaves(w, Some(session), [], [id])]
  }

  lemma SiteSnoc(before: seq<SiteEvent>, e: SiteEvent)
    ensures SiteRun(before + [e]) == SiteNext(SiteRun(before), e)
  {
    assert (before + [e])[..|before|] == before;
  }

  lemma BeforeLeaving(w: Writer, session: Id, name: string, id: Id, now: real)
    requires name != ""
    ensures var site := SiteRun([ClientLogsIn(w, session)] + [ClientRegisters(Provider, name, w, Some(session), true)]
                                + [VisitorOpens(id, name, now)]);
            && OwnSession(site.world, w, Some(session))
            && UnderLiveSession(site.world.books, Some(session), name)
            && site.world.books.providers[name].writer == w
            && site.pools.conns == map[] && site.pools.stcp == map[id := Entry(name, now)]
  {
    var e1 := [ClientLogsIn(w, session)];
    var e2 := e1 + [ClientRegisters(Provider, name, w, Some(session), true)];
    assert e1 == [] + [ClientLogsIn(w, session)];
    SiteSnoc([], ClientLogsIn(w, session));
    SiteSnoc(e1, ClientRegisters(Provider, name, w, Some(session), true));
    SiteSnoc(e2, VisitorOpens(id, name, now));
  }

  ghost predicate Orphaned(site: Site, id: Id, name: string) {
    && id in site.pools.stcp && site.pools.stcp[id].proxy == name && id in site.pools.stats.conns
    && name !in site.world.books.providers
  }

  lemma SettledRelay(p: Pools, p': Pools, b: Books, w: Writer, session: Option<Id>, id: Id)
    requires Settles(p, p', b, w, session)
    requires id in p.stcp && UnderLiveSession(b, session, p.stcp[id].proxy)
    ensures id in p'.stcp && p'.stcp[id] == p.stcp[id] && id in p'.stats.conns
  {
    SettlesEntries(p, p', b, w, session);
  }

  lemma LeavesOrphan(site: Site, w: Writer, session: Id, name: string, id: Id)
    requires SiteOk(site) && OwnSession(site.world, w, Some(session))
    requires UnderLiveSession(site.world.books, Some(session), name) && site.world.books.providers[name].writer == w
    requires site.pools.conns == map[] && site.pools.stcp.Keys == {id} && site.pools.stcp[id].proxy == name
    ensures Orphaned(SiteNext(site, ClientLeaves(w, Some(session), [], [id])), id, name)
  {
    hide ClosePools, Settles, Inv, Agree, Cleanup.Next;
    var p, b := site.pools, site.world.books;
    assert Snapshot([], p.conns) && Snapshot([id], p.stcp);
    DisconnectProviders(site.world, w, Some(session));
    ClosePoolsSettles(p, b, w, Some(session), [], [id]);
    SettledRelay(p, ClosePools(p, b, w, Some(session), [], [id]), b, w, Some(session), id);
  }

  /** In that run the relay stays in the pool and counted, and its provider is gone. */
  lemma RelayOutlivesProvider(w: Writer, session: Id, name: string, id: Id, now: real)
    requires name != ""
    ensures var events := Orphaning(w, session, name, id, now);
            var site := SiteRun(events);
            && id in site.pools.stcp && site.pools.stcp[id].proxy == name && id in site.pools.stats.conns
            && name !in site.world.books.providers
            && !NeverOrphans(events)
  {
    var events := Orphaning(w, session, name, id, now);
    var before := [ClientLogsIn(w, session)] + [ClientRegisters(Provider, name, w, Some(session), true)]
                  + [VisitorOpens(id, name, now)];
    BeforeLeaving(w, session, name, id, now);
    SiteRunOk(before);
    SiteSnoc(before, ClientLeaves(w, Some(session), [], [id]));
    LeavesOrphan(SiteRun(before), w, session, name, id);
    hide SiteRun, SiteNext;
    assert events[..|events|] == events;
    assert !NoOrphans(SiteRun(events));
  }
}
