/** The traffic counters of `stats.py`. */
module Stats {

  type Id = string

  datatype ProxyStat = ProxyStat(connections: nat, current: nat, bytesIn: nat, bytesOut: nat)
  datatype ConnStat = ConnStat(proxy: string, bytesIn: nat, bytesOut: nat)

  datatype Counters = Counters(
    total: nat,
    current: nat,
    bytesIn: nat,
    bytesOut: nat,
    proxies: map<string, ProxyStat>,
    conns: map<Id, ConnStat>
  )

  const ZERO := Counters(0, 0, 0, 0, map[], map[])

  /** The defaultdict lookup. */
  function StatOf(c: Counters, proxy: string): ProxyStat {
    if proxy in c.proxies then c.proxies[proxy] else ProxyStat(0, 0, 0, 0)
  }

  /** `max(0, n - 1)`. */
  function Less(n: nat): nat {
    if n == 0 then 0 else n - 1
  }

  function OnConnect(c: Counters, proxy: string, id: Id): Counters {
    var p := StatOf(c, proxy);
    c.(
      total := c.total + 1,
      current := c.current + 1,
      proxies := c.proxies[proxy := p.(connections := p.connections + 1, current := p.current + 1)],
      conns := c.conns[id := ConnStat(proxy, 0, 0)]
    )
  }

  function OnDisconnect(c: Counters, id: Id): Counters {
    var c' := c.(current := Less(c.current));
    if id !in c.conns then c'
    else
      var proxy := c.conns[id].proxy;
      var p := StatOf(c, proxy);
      c'.(conns := c.conns - {id}, proxies := c.proxies[proxy := p.(current := Less(p.current))])
  }

  function OnDataIn(c: Counters, id: Id, size: nat): Counters {
    var c' := c.(bytesIn := c.bytesIn + size);
    if id !in c.conns then c'
    else
      var i := c.conns[id];
      var p := StatOf(c, i.proxy);
      c'.(conns := c.conns[id := i.(bytesIn := i.bytesIn + size)],
          proxies := c.proxies[i.proxy := p.(bytesIn := p.bytesIn + size)])
  }

  function OnDataOut(c: Counters, id: Id, size: nat): Counters {
    var c' := c.(bytesOut := c.bytesOut + size);
    if id !in c.conns then c'
    else
      var i := c.conns[id];
      var p := StatOf(c, i.proxy);
      c'.(conns := c.conns[id := i.(bytesOut := i.bytesOut + size)],
          proxies := c.proxies[i.proxy := p.(bytesOut := p.bytesOut + size)])
  }

  // ----- sums -----

  ghost function Sum(m: map<string, nat>): nat {
    if m == map[] then 0
    else
      var k :| k in m;
      m[k] + Sum(m - {k})
  }

  lemma {:induction false} SumRemove(m: map<string, nat>, k: string)
    requires k in m
    ensures Sum(m) == m[k] + Sum(m - {k})
    decreases |m|
  {
    var j :| j in m && Sum(m) == m[j] + Sum(m - {j});
    if j != k {
      SumRemove(m - {j}, k);
      SumRemove(m - {k}, j);
      assert m - {j} - {k} == m - {k} - {j};
    }
  }

  lemma SumUpdate(m: map<string, nat>, k: string, v: nat)
    ensures Sum(m[k := v]) == Sum(m) - (if k in m then m[k] else 0) + v
  {
    var m' := m[k := v];
    SumRemove(m', k);
    assert m' - {k} == m - {k};
    if k in m {
      SumRemove(m, k);
    } else {
      assert m - {k} == m;
    }
  }

  function BytesInOf(proxies: map<string, ProxyStat>): map<string, nat> {
    map n | n in proxies :: proxies[n].bytesIn
  }

  function BytesOutOf(proxies: map<string, ProxyStat>): map<string, nat> {
    map n | n in proxies :: proxies[n].bytesOut
  }

  function ConnsOf(c: Counters, proxy: string): set<Id> {
    set id | id in c.conns && c.conns[id].proxy == proxy
  }

  /** Connections are counted right, in all and for each proxy. */
  ghost predicate Counted(c: Counters) {
    && c.current == |c.conns|
    && (forall id :: id in c.conns ==> c.conns[id].proxy in c.proxies)
    && (forall n :: n in c.proxies ==> c.proxies[n].current == |ConnsOf(c, n)|)
  }

  /** The byte totals cover the proxies' sums. */
  ghost predicate Summed(c: Counters) {
    && Sum(BytesInOf(c.proxies)) <= c.bytesIn
    && Sum(BytesOutOf(c.proxies)) <= c.bytesOut
  }

  ghost predicate Consistent(c: Counters) {
    Counted(c) && Summed(c)
  }

  lemma SumsAfter(proxies: map<string, ProxyStat>, proxy: string, p: ProxyStat)
    ensures Sum(BytesInOf(proxies[proxy := p]))
         == Sum(BytesInOf(proxies)) - (if proxy in proxies then proxies[proxy].bytesIn else 0) + p.bytesIn
    ensures Sum(BytesOutOf(proxies[proxy := p]))
         == Sum(BytesOutOf(proxies)) - (if proxy in proxies then proxies[proxy].bytesOut else 0) + p.bytesOut
  {
    var after := proxies[proxy := p];
    assert BytesInOf(after) == BytesInOf(proxies)[proxy := p.bytesIn];
    assert BytesOutOf(after) == BytesOutOf(proxies)[proxy := p.bytesOut];
    SumUpdate(BytesInOf(proxies), proxy, p.bytesIn);
    SumUpdate(BytesOutOf(proxies), proxy, p.bytesOut);
  }

  lemma ConnectOf(c: Counters, proxy: string, id: Id, n: string)
    requires id !in c.conns
    ensures ConnsOf(OnConnect(c, proxy, id), n) == ConnsOf(c, n) + (if n == proxy then {id} else {})
    ensures id !in ConnsOf(c, n)
  {
  }

  lemma ConnectCounted(c: Counters, proxy: string, id: Id)
    requires Counted(c) && id !in c.conns
    ensures Counted(OnConnect(c, proxy, id))
  {
    var c' := OnConnect(c, proxy, id);
    assert c'.conns.Keys == c.conns.Keys + {id} && |c'.conns.Keys| == |c'.conns| && |c.conns.Keys| == |c.conns|;
    forall n | n in c'.proxies
      ensures c'.proxies[n].current == |ConnsOf(c', n)|
    {
      ConnectOf(c, proxy, id, n);
      if n !in c.proxies {
        assert ConnsOf(c, n) == {};
      }
    }
  }

  /** A new connection keeps the counters consistent exactly when its id is new. */
  lemma ConnectConsistentIff(c: Counters, proxy: string, id: Id)
    requires Consistent(c)
    ensures Consistent(OnConnect(c, proxy, id)) <==> id !in c.conns
  {
    var c' := OnConnect(c, proxy, id);
    if id in c.conns {
      assert c'.conns.Keys == c.conns.Keys && |c'.conns.Keys| == |c'.conns| && |c.conns.Keys| == |c.conns|;
    } else {
      ConnectCounted(c, proxy, id);
      SumsAfter(c.proxies, proxy, c'.proxies[proxy]);
    }
  }

  /** The clamps do not bite: a known connection is counted, in all and for its proxy. */
  lemma ClampsIdle(c: Counters, id: Id)
    requires Counted(c) && id in c.conns
    ensures c.current >= 1 && StatOf(c, c.conns[id].proxy).current >= 1
  {
    assert id in ConnsOf(c, c.conns[id].proxy);
    assert id in c.conns.Keys;
  }

  lemma DisconnectOf(c: Counters, id: Id, n: string)
    requires id in c.conns
    ensures ConnsOf(OnDisconnect(c, id), n) == ConnsOf(c, n) - (if n == c.conns[id].proxy then {id} else {})
    ensures id in ConnsOf(c, n) <==> n == c.conns[id].proxy
  {
  }

  lemma DisconnectCounted(c: Counters, id: Id)
    requires Counted(c) && id in c.conns
    ensures Counted(OnDisconnect(c, id))
  {
    var c' := OnDisconnect(c, id);
    ClampsIdle(c, id);
    assert c'.conns.Keys == c.conns.Keys - {id} && |c'.conns.Keys| == |c'.conns| && |c.conns.Keys| == |c.conns|;
    forall n | n in c'.proxies
      ensures c'.proxies[n].current == |ConnsOf(c', n)|
    {
      DisconnectOf(c, id, n);
    }
  }

  /** on_disconnect keeps the counters consistent exactly for a known id: for any other one
      connection too few is counted from then on, unless the clamp at zero hides it. */
  lemma DisconnectConsistentIff(c: Counters, id: Id)
    requires Consistent(c)
    ensures Consistent(OnDisconnect(c, id)) <==> id in c.conns || c.current == 0
  {
    var c' := OnDisconnect(c, id);
    if id in c.conns {
      var proxy := c.conns[id].proxy;
      DisconnectCounted(c, id);
      SumsAfter(c.proxies, proxy, c'.proxies[proxy]);
    } else {
      assert c'.conns == c.conns && c'.proxies == c.proxies;
      forall n
        ensures ConnsOf(c', n) == ConnsOf(c, n)
      {
      }
    }
  }

  lemma DataInConsistent(c: Counters, id: Id, size: nat)
    requires Consistent(c)
    ensures Consistent(OnDataIn(c, id, size))
  {
    var c' := OnDataIn(c, id, size);
    if id in c.conns {
      var proxy := c.conns[id].proxy;
      SumsAfter(c.proxies, proxy, c'.proxies[proxy]);
      assert c'.conns.Keys == c.conns.Keys && |c'.conns.Keys| == |c'.conns| && |c.conns.Keys| == |c.conns|;
    }
    forall n
      ensures ConnsOf(c', n) == ConnsOf(c, n)
    {
    }
  }

  lemma DataOutConsistent(c: Counters, id: Id, size: nat)
    requires Consistent(c)
    ensures Consistent(OnDataOut(c, id, size))
  {
    var c' := OnDataOut(c, id, size);
    if id in c.conns {
      var proxy := c.conns[id].proxy;
      SumsAfter(c.proxies, proxy, c'.proxies[proxy]);
      assert c'.conns.Keys == c.conns.Keys && |c'.conns.Keys| == |c'.conns| && |c.conns.Keys| == |c.conns|;
    }
    forall n
      ensures ConnsOf(c', n) == ConnsOf(c, n)
    {
    }
  }

  class StatsBook {
    var totalConnections: nat
    var currentConnections: nat
    var totalBytesIn: nat
    var totalBytesOut: nat
    var proxyStats: map<string, ProxyStat>
    var connStats: map<Id, ConnStat>

    ghost function View(): Counters
      reads this
    {
      Counters(totalConnections, currentConnections, totalBytesIn, totalBytesOut, proxyStats, connStats)
    }

    constructor ()
      ensures View() == ZERO
    {
      totalConnections, currentConnections, totalBytesIn, totalBytesOut := 0, 0, 0, 0;
      proxyStats, connStats := map[], map[];
    }

    method Touch(proxy: string)
      modifies this`proxyStats
      ensures proxyStats == old(proxyStats)[proxy := StatOf(old(View()), proxy)]
    {
      if proxy !in proxyStats {
        proxyStats := proxyStats[proxy := ProxyStat(0, 0, 0, 0)];
      } else {
        assert proxyStats[proxy := proxyStats[proxy]] == proxyStats;
      }
    }

    method Connect(proxy: string, id: Id)
      modifies this
      ensures View() == OnConnect(old(View()), proxy, id)
    {
      totalConnections := totalConnections + 1;
      currentConnections := currentConnections + 1;
      Touch(proxy);
      var p := proxyStats[proxy];
      proxyStats := proxyStats[proxy := p.(connections := p.connections + 1)];
      p := proxyStats[proxy];
      proxyStats := proxyStats[proxy := p.(current := p.current + 1)];
      connStats := connStats[id := ConnStat(proxy, 0, 0)];
    }

    method Disconnect(id: Id)
      modifies this
      ensures View() == OnDisconnect(old(View()), id)
    {
      currentConnections := if currentConnections == 0 then 0 else currentConnections - 1;
      if id in connStats {
        var proxy := connStats[id].proxy;
        connStats := connStats - {id};
        Touch(proxy);
        var p := proxyStats[proxy];
        proxyStats := proxyStats[proxy := p.(current := if p.current == 0 then 0 else p.current - 1)];
      }
    }

    method DataIn(id: Id, size: nat)
      modifies this
      ensures View() == OnDataIn(old(View()), id, size)
    {
      totalBytesIn := totalBytesIn + size;
      if id in connStats {
        var i := connStats[id];
        connStats := connStats[id := i.(bytesIn := i.bytesIn + size)];
        Touch(i.proxy);
        var p := proxyStats[i.proxy];
        proxyStats := proxyStats[i.proxy := p.(bytesIn := p.bytesIn + size)];
      }
    }

    method DataOut(id: Id, size: nat)
      modifies this
      ensures View() == OnDataOut(old(View()), id, size)
    {
      totalBytesOut := totalBytesOut + size;
      if id in connStats {
        var i := connStats[id];
        connStats := connStats[id := i.(bytesOut := i.bytesOut + size)];
        Touch(i.proxy);
        var p := proxyStats[i.proxy];
        proxyStats := proxyStats[i.proxy := p.(bytesOut := p.bytesOut + size)];
      }
    }
  }
}
