/** Who owns which registration, and what is left when a control connection ends. */
module Cleanup {
  import opened Bytes
  import opened Stats
  import opened Pools

  type Writer = nat

  datatype Owner = Owner(writer: Writer, session: Option<Id>)

  type Registry = map<string, Owner>

  /** The four registries and the sessions. */
  datatype Books = Books(
    sessions: set<Id>,
    proxies: Registry,
    http: Registry,
    providers: Registry,
    visitors: Registry
  )

  function OfOthers(r: Registry, w: Writer): Registry {
    map n | n in r && r[n].writer != w :: r[n]
  }

  function NotOfSession(r: Registry, session: Id): Registry {
    map n | n in r && r[n].session != Some(session) :: r[n]
  }

  function NamesOf(r: Registry, w: Writer): set<string> {
    set n | n in r && r[n].writer == w
  }

  /** `_remove_session`: the proxies registry is not looked at. */
  function RemoveSession(b: Books, session: Id): Books {
    if session !in b.sessions then b
    else b.(
      sessions := b.sessions - {session},
      http := NotOfSession(b.http, session),
      providers := NotOfSession(b.providers, session),
      visitors := NotOfSession(b.visitors, session)
    )
  }

  /** `cleanup_client_by_writer`, as far as the registries go. */
  function RemoveWriter(b: Books, w: Writer): Books {
    b.(
      proxies := OfOthers(b.proxies, w),
      http := OfOthers(b.http, w),
      providers := OfOthers(b.providers, w),
      visitors := OfOthers(b.visitors, w)
    )
  }

  /** The end of handle_control_conn. */
  function Disconnect(b: Books, w: Writer, session: Option<Id>): Books {
    RemoveWriter(match session case None => b case Some(s) => RemoveSession(b, s), w)
  }

  // ----- every run -----

  datatype Kind = Port | Http | Provider | Visitor

  datatype Event =
    | LogsIn(w: Writer, id: Id)
    | Registers(kind: Kind, name: string, w: Writer, session: Option<Id>, allowed: bool)
    | Disconnects(w: Writer, session: Option<Id>)

  /** A session is opened by one connection, under an id that is fresh. */
  datatype World = World(books: Books, openedBy: map<Id, Writer>)

  function EntryOf(b: Books, kind: Kind): Registry {
    match kind
    case Port => b.proxies
    case Http => b.http
    case Provider => b.providers
    case Visitor => b.visitors
  }

  /** The name checks of handle_register, and of the registration of each kind; `allowed`
      stands for the checks on ports, domains and keys. */
  predicate NameFree(b: Books, kind: Kind, name: string) {
    && name != ""
    && name !in b.proxies && name !in b.http && name !in b.providers
    && name !in EntryOf(b, kind)
  }

  function Enter(b: Books, kind: Kind, name: string, o: Owner): Books {
    match kind
    case Port => b.(proxies := b.proxies[name := o])
    case Http => b.(http := b.http[name := o])
    case Provider => b.(providers := b.providers[name := o])
    case Visitor => b.(visitors := b.visitors[name := o])
  }

  /** The session a connection passes to its handlers is one it opened itself. */
  ghost predicate OwnSession(world: World, w: Writer, session: Option<Id>) {
    session.Some? ==> session.value in world.openedBy && world.openedBy[session.value] == w
  }

  ghost function Next(world: World, e: Event): World {
    match e
    case LogsIn(w, id) =>
      if id in world.openedBy then world
      else World(world.books.(sessions := world.books.sessions + {id}), world.openedBy[id := w])
    case Registers(kind, name, w, session, allowed) =>
      if !allowed || !NameFree(world.books, kind, name) || !OwnSession(world, w, session) then world
      else world.(books := Enter(world.books, kind, name, Owner(w, session)))
    case Disconnects(w, session) =>
      if !OwnSession(world, w, session) then world
      else world.(books := Disconnect(world.books, w, session))
  }

  ghost function Run(events: seq<Event>): World {
    if events == [] then World(Books({}, map[], map[], map[], map[]), map[])
    else Next(Run(events[..|events| - 1]), events[|events| - 1])
  }

  ghost predicate Attributed(r: Registry, openedBy: map<Id, Writer>) {
    forall n :: n in r && r[n].session.Some? ==> r[n].session.value in openedBy && openedBy[r[n].session.value] == r[n].writer
  }

  /** Entries name the connection that made them; a name is in one registry at most. */
  ghost predicate Inv(world: World) {
    && Attributed(world.books.proxies, world.openedBy)
    && Attributed(world.books.http, world.openedBy)
    && Attributed(world.books.providers, world.openedBy)
    && Attributed(world.books.visitors, world.openedBy)
    && world.books.proxies.Keys !! world.books.http.Keys !! world.books.providers.Keys
  }

  lemma KeepsEnter(world: World, kind: Kind, name: string, o: Owner)
    requires Inv(world) && NameFree(world.books, kind, name) && OwnSession(world, o.writer, o.session)
    ensures Inv(world.(books := Enter(world.books, kind, name, o)))
  {
  }

  lemma KeepsInv(world: World, e: Event)
    requires Inv(world)
    ensures Inv(Next(world, e))
  {
    match e
    case LogsIn(_, _) =>
    case Registers(kind, name, w, session, allowed) =>
      if allowed && NameFree(world.books, kind, name) && OwnSession(world, w, session) {
        KeepsEnter(world, kind, name, Owner(w, session));
      }
    case Disconnects(w, session) =>
      var b := Disconnect(world.books, w, session);
      assert b.proxies.Keys <= world.books.proxies.Keys && b.http.Keys <= world.books.http.Keys;
      assert b.providers.Keys <= world.books.providers.Keys;
  }

  lemma {:induction false} RunInv(events: seq<Event>)
    ensures Inv(Run(events))
  {
    if events != [] {
      RunInv(events[..|events| - 1]);
      KeepsInv(Run(events[..|events| - 1]), events[|events| - 1]);
    }
  }

  /** The end of a session takes its entries out of three registries, and nothing else. */
  lemma SessionExact(b: Books, session: Id, kind: Kind, name: string)
    requires session in b.sessions
    ensures var r, r' := EntryOf(b, kind), EntryOf(RemoveSession(b, session), kind);
            && (name in r' <==> name in r && (kind == Port || r[name].session != Some(session)))
            && (name in r' ==> r'[name] == r[name])
    ensures RemoveSession(b, session).sessions == b.sessions - {session}
  {
  }

  /** Dropping a session's entries first changes nothing for the connection's entries. */
  lemma SessionThenWriter(r: Registry, openedBy: map<Id, Writer>, w: Writer, session: Id)
    requires Attributed(r, openedBy) && session in openedBy && openedBy[session] == w
    ensures OfOthers(NotOfSession(r, session), w) == OfOthers(r, w)
  {
  }

  lemma KindDisconnects(world: World, w: Writer, session: Option<Id>, kind: Kind)
    requires Inv(world) && OwnSession(world, w, session)
    ensures EntryOf(Disconnect(world.books, w, session), kind) == OfOthers(EntryOf(world.books, kind), w)
  {
    if session.Some? {
      match kind
      case Port =>
      case Http => SessionThenWriter(world.books.http, world.openedBy, w, session.value);
      case Provider => SessionThenWriter(world.books.providers, world.openedBy, w, session.value);
      case Visitor => SessionThenWriter(world.books.visitors, world.openedBy, w, session.value);
    }
  }

  /** After a disconnect, with or without a session, each of the four registries is what it was
      without the entries of that connection: none of its own is left, no other is touched. */
  lemma DisconnectExact(events: seq<Event>, w: Writer, session: Option<Id>, kind: Kind)
    requires OwnSession(Run(events), w, session)
    ensures var b := Run(events).books;
            EntryOf(Disconnect(b, w, session), kind) == OfOthers(EntryOf(b, kind), w)
  {
    RunInv(events);
    KindDisconnects(Run(events), w, session, kind);
  }

  // ----- the server's loops -----

  method KeysOf<T>(m: map<string, T>) returns (ks: seq<string>)
    ensures forall k :: k in ks <==> k in m
  {
    ks := [];
    var left := m.Keys;
    while left != {}
      invariant left <= m.Keys
      invariant forall k :: k in ks <==> k in m && k !in left
      decreases |left|
    {
      var k :| k in left;
      ks := ks + [k];
      left := left - {k};
    }
  }

  /** Pops, over a snapshot of the items, the entries of a session. */
  method PopSession(r: Registry, session: Id) returns (r': Registry)
    ensures r' == NotOfSession(r, session)
  {
    var names := KeysOf(r);
    r' := r;
    for i := 0 to |names|
      invariant r' == map n | n in r && !(n in names[..i] && r[n].session == Some(session)) :: r[n]
    {
      var name := names[i];
      if r[name].session == Some(session) {
        r' := r' - {name};
      }
    }
  }

  method PopWriter(r: Registry, w: Writer) returns (r': Registry)
    ensures r' == OfOthers(r, w)
  {
    var names := KeysOf(r);
    r' := r;
    for i := 0 to |names|
      invariant r' == map n | n in r && !(n in names[..i] && r[n].writer == w) :: r[n]
    {
      var name := names[i];
      if name in r' && r'[name].writer == w {
        r' := r' - {name};
      }
    }
  }

  /** The pool entries of any of these proxies. */
  function OfAny(m: map<Id, Entry>, proxies: set<string>): set<Id> {
    set id | id in m && m[id].proxy in proxies
  }

  /** The names among these that the writer owns, and a registry without them. */
  function Done(names: seq<string>, r: Registry, w: Writer): set<string> {
    set n | n in names && n in r && r[n].writer == w
  }

  function Drop(r: Registry, names: set<string>): Registry {
    map n | n in r && n !in names :: r[n]
  }

  lemma DoneStep(names: seq<string>, i: nat, r: Registry, w: Writer)
    requires i < |names|
    ensures var more := if names[i] in r && r[names[i]].writer == w then {names[i]} else {};
            && Done(names[..i + 1], r, w) == Done(names[..i], r, w) + more
            && Drop(r, Done(names[..i + 1], r, w)) == Drop(r, Done(names[..i], r, w)) - more
  {
    assert names[..i + 1] == names[..i] + [names[i]];
  }

  lemma DoneAll(names: seq<string>, r: Registry, w: Writer)
    requires forall n :: n in names <==> n in r
    ensures Done(names[..|names|], r, w) == NamesOf(r, w)
    ensures Drop(r, NamesOf(r, w)) == OfOthers(r, w)
    ensures Done(names[..0], r, w) == {} && Drop(r, {}) == r
  {
    assert names[..|names|] == names;
  }

  lemma ConnsStep(start: Pools, mid: Pools, end: Pools, done: set<string>, name: string)
    requires Without(start, mid, OfAny(start.conns, done), {})
    requires Without(mid, end, OfProxy(mid.conns, name), {})
    ensures Without(start, end, OfAny(start.conns, done + {name}), {})
  {
    var all, none: set<Id> := OfAny(start.conns, done + {name}), {};
    assert all == OfAny(start.conns, done) + OfProxy(mid.conns, name) && none == none + none;
    WithoutBoth(start, mid, end, OfAny(start.conns, done), none, OfProxy(mid.conns, name), none, all, none);
  }

  lemma RelaysStep(start: Pools, mid: Pools, end: Pools, done: set<string>, name: string)
    requires Without(start, mid, {}, OfAny(start.stcp, done))
    requires Without(mid, end, {}, OfProxy(mid.stcp, name))
    ensures Without(start, end, {}, OfAny(start.stcp, done + {name}))
  {
    var all, none: set<Id> := OfAny(start.stcp, done + {name}), {};
    assert all == OfAny(start.stcp, done) + OfProxy(mid.stcp, name) && none == none + none;
    WithoutBoth(start, mid, end, none, OfAny(start.stcp, done), none, OfProxy(mid.stcp, name), none, all);
  }

  // ----- what a disconnect leaves behind -----

  /** The providers that the loop of `cleanup_client_by_writer` meets: those left by
      `_remove_session`. */
  function SeenProviders(b: Books, w: Writer, session: Option<Id>): set<string> {
    NamesOf((match session case None => b case Some(s) => RemoveSession(b, s)).providers, w)
  }

  /** The end of a control connection, seen from the pools: exactly the entries of its proxies
      and the relays of the providers met are closed, and the counters still agree. */
  ghost predicate Settles(p: Pools, p': Pools, b: Books, w: Writer, session: Option<Id>) {
    && Agree(p')
    && Without(p, p', OfAny(p.conns, NamesOf(b.proxies, w)), OfAny(p.stcp, SeenProviders(b, w, session)))
  }

  /** A provider registered under a session that is live when its connection ends. */
  predicate UnderLiveSession(b: Books, session: Option<Id>, name: string) {
    session.Some? && session.value in b.sessions && name in b.providers && b.providers[name].session == session
  }

  /** A relay of one of the connection's providers outlives that provider exactly when the
      session is live and the provider was registered under it: its entry is then left as it was
      and still counted, while the provider is in no registry. */
  lemma RelaysLeftIff(events: seq<Event>, w: Writer, session: Option<Id>, p: Pools, p': Pools, id: Id)
    requires OwnSession(Run(events), w, session)
    requires Agree(p) && Settles(p, p', Run(events).books, w, session)
    requires id in p.stcp && p.stcp[id].proxy in NamesOf(Run(events).books.providers, w)
    ensures var b, name := Run(events).books, p.stcp[id].proxy;
            && name !in Run(events + [Disconnects(w, session)]).books.providers
            && (id in p'.stcp <==> UnderLiveSession(b, session, name))
            && (id in p'.stcp ==> p'.stcp[id] == p.stcp[id])
            && (id in p'.stats.conns <==> id in p'.stcp)
  {
    var e := Disconnects(w, session);
    assert (events + [e])[..|events|] == events;
    assert id in p.stats.conns && id !in p.conns;
  }

  /** What the loops leave in the pools, read off entry by entry. */
  lemma SettlesEntries(p: Pools, p': Pools, b: Books, w: Writer, session: Option<Id>)
    requires Settles(p, p', b, w, session)
    ensures forall id :: id in p'.conns <==> id in p.conns && p.conns[id].proxy !in NamesOf(b.proxies, w)
    ensures forall id :: id in p'.conns ==> p'.conns[id] == p.conns[id]
    ensures forall id :: id in p'.stcp <==>
              (id in p.stcp
               && (p.stcp[id].proxy in NamesOf(b.providers, w) ==> UnderLiveSession(b, session, p.stcp[id].proxy)))
    ensures forall id :: id in p'.stcp ==> p'.stcp[id] == p.stcp[id]
  {
  }

  lemma ConnsThenRelays(start: Pools, mid: Pools, end: Pools, proxies: set<string>, providers: set<string>)
    requires Without(start, mid, OfAny(start.conns, proxies), {})
    requires Without(mid, end, {}, OfAny(mid.stcp, providers))
    ensures Without(start, end, OfAny(start.conns, proxies), OfAny(start.stcp, providers))
  {
    var conns, stcp := OfAny(start.conns, proxies), OfAny(start.stcp, providers);
    assert mid.stcp == start.stcp;
    assert conns == conns + {} && stcp == {} + stcp;
    WithoutBoth(start, mid, end, conns, {}, {}, stcp, conns, stcp);
  }

  class ControlServer {
    const pools: PoolServer
    var books: Books

    constructor (pools: PoolServer)
      ensures this.pools == pools && books == Books({}, map[], map[], map[], map[])
    {
      this.pools := pools;
      books := Books({}, map[], map[], map[], map[]);
    }

    method RemoveSessionOf(session: Id)
      modifies this
      ensures books == RemoveSession(old(books), session)
    {
      if session in books.sessions {
        books := books.(sessions := books.sessions - {session});
        var providers := PopSession(books.providers, session);
        books := books.(providers := providers);
        var visitors := PopSession(books.visitors, session);
        books := books.(visitors := visitors);
        var http := PopSession(books.http, session);
        books := books.(http := http);
      }
    }

    /** `_remove_proxy`: the pool entries of the proxy go, then the proxy. */
    method RemoveProxy(name: string)
      requires Agree(pools.View())
      modifies this, pools, pools.book
      ensures books == old(books).(proxies := old(books).proxies - {name})
      ensures Agree(pools.View())
      ensures Without(old(pools.View()), pools.View(), OfProxy(old(pools.connPool), name), {})
    {
      var ids := KeysOf(pools.connPool);
      ghost var start, picked := pools.View(), OfProxy(pools.connPool, name);
      CloseConnsExact(start, ids, picked);
      CloseConnsAgrees(start, ids, picked);
      assert Met(start.conns, ids, picked) == picked;
      pools.CloseProxyConns(name, ids);
      books := books.(proxies := books.proxies - {name});
    }

    /** One turn of the loop over providers: the provider goes, then its relays. */
    method RemoveProvider(name: string)
      requires Agree(pools.View())
      modifies this, pools, pools.book
      ensures books == old(books).(providers := old(books).providers - {name})
      ensures Agree(pools.View())
      ensures Without(old(pools.View()), pools.View(), {}, OfProxy(old(pools.stcpConns), name))
    {
      books := books.(providers := books.providers - {name});
      var ids := KeysOf(pools.stcpConns);
      ghost var start, picked := pools.View(), OfProxy(pools.stcpConns, name);
      CloseStcpsExact(start, ids, picked);
      CloseStcpsAgrees(start, ids, picked);
      assert Met(start.stcp, ids, picked) == picked;
      pools.CloseProxyRelays(name, ids);
    }

    /** The loop over proxies: every proxy of the writer goes, with its pool entries. */
    method RemoveProxies(w: Writer)
      requires Agree(pools.View())
      modifies this, pools, pools.book
      ensures books == old(books).(proxies := OfOthers(old(books).proxies, w))
      ensures Agree(pools.View())
      ensures Without(old(pools.View()), pools.View(), OfAny(old(pools.connPool), NamesOf(old(books).proxies, w)), {})
    {
      var names := KeysOf(books.proxies);
      ghost var start, before := pools.View(), books.proxies;
      DoneAll(names, before, w);
      WithoutNothing(start);
      assert OfAny(start.conns, {}) == {};
      for i := 0 to |names|
        invariant books == old(books).(proxies := Drop(before, Done(names[..i], before, w)))
        invariant Agree(pools.View())
        invariant Without(start, pools.View(), OfAny(start.conns, Done(names[..i], before, w)), {})
      {
        DoneStep(names, i, before, w);
        ghost var mid := pools.View();
        if names[i] in books.proxies && books.proxies[names[i]].writer == w {
          RemoveProxy(names[i]);
          ConnsStep(start, mid, pools.View(), Done(names[..i], before, w), names[i]);
        } else {
          assert Done(names[..i + 1], before, w) == Done(names[..i], before, w);
        }
      }
    }

    /** The loop over providers: each one of the writer goes, with its relays. */
    method RemoveProviders(w: Writer)
      requires Agree(pools.View())
      modifies this, pools, pools.book
      ensures books == old(books).(providers := OfOthers(old(books).providers, w))
      ensures Agree(pools.View())
      ensures Without(old(pools.View()), pools.View(), {}, OfAny(old(pools.stcpConns), NamesOf(old(books).providers, w)))
    {
      var names := KeysOf(books.providers);
      ghost var start, before := pools.View(), books.providers;
      DoneAll(names, before, w);
      WithoutNothing(start);
      assert OfAny(start.stcp, {}) == {};
      for i := 0 to |names|
        invariant books == old(books).(providers := Drop(before, Done(names[..i], before, w)))
        invariant Agree(pools.View())
        invariant Without(start, pools.View(), {}, OfAny(start.stcp, Done(names[..i], before, w)))
      {
        DoneStep(names, i, before, w);
        ghost var mid := pools.View();
        if names[i] in books.providers && books.providers[names[i]].writer == w {
          RemoveProvider(names[i]);
          RelaysStep(start, mid, pools.View(), Done(names[..i], before, w), names[i]);
        } else {
          assert Done(names[..i + 1], before, w) == Done(names[..i], before, w);
        }
      }
    }

    /** `cleanup_client_by_writer`. */
    method ClearWriter(w: Writer)
      requires Agree(pools.View())
      modifies this, pools, pools.book
      ensures books == RemoveWriter(old(books), w)
      ensures Agree(pools.View())
      ensures Without(old(pools.View()), pools.View(),
                      OfAny(old(pools.connPool), NamesOf(old(books).proxies, w)),
                      OfAny(old(pools.stcpConns), NamesOf(old(books).providers, w)))
    {
      ghost var start, b := pools.View(), books;
      RemoveProxies(w);
      ghost var mid := pools.View();
      var http := PopWriter(books.http, w);
      books := books.(http := http);
      RemoveProviders(w);
      var visitors := PopWriter(books.visitors, w);
      books := books.(visitors := visitors);
      ConnsThenRelays(start, mid, pools.View(), NamesOf(b.proxies, w), NamesOf(b.providers, w));
    }

    /** The finally block of handle_control_conn. Registries as by Disconnect; no pool entry of the
        writer's proxies remains, and every other is as it was; of the relays, exactly those of the
        writer's providers go that were not registered under a live session. */
    method HandleDisconnect(w: Writer, session: Option<Id>)
      requires Agree(pools.View())
      modifies this, pools, pools.book
      ensures books == Disconnect(old(books), w, session)
      ensures Settles(old(pools.View()), pools.View(), old(books), w, session)
      ensures forall id :: id in pools.connPool <==>
                (id in old(pools.connPool) && old(pools.connPool)[id].proxy !in NamesOf(old(books).proxies, w))
      ensures forall id :: id in pools.connPool ==> pools.connPool[id] == old(pools.connPool)[id]
      ensures forall id :: id in pools.stcpConns <==>
                (id in old(pools.stcpConns)
                 && (old(pools.stcpConns)[id].proxy in NamesOf(old(books).providers, w)
                     ==> UnderLiveSession(old(books), session, old(pools.stcpConns)[id].proxy)))
      ensures forall id :: id in pools.stcpConns ==> pools.stcpConns[id] == old(pools.stcpConns)[id]
    {
      ghost var p, b := pools.View(), books;
      if session.Some? {
        RemoveSessionOf(session.value);
      }
      ClearWriter(w);
      SettlesEntries(p, pools.View(), b, w, session);
    }
  }
}
