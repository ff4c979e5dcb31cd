/** A virtual-host connection from the first line of its request to the local service. */
module HttpTunnel {
  import opened Bytes
  import opened Tunnel
  import HttpVhost
  import TunnelProgress
  import TunnelHistory

  /** A request whose head ends at line k: in every run after it, what has reached the local
      service is a prefix of the lines of the head followed by what the user sent later. While the
      client has the connection open, the rest is on its way or waits at the server. */
  lemma RequestReachesService(bulk: bool, proxies: set<string>, before: seq<Event>, id: Id, proxy: string,
                              lines: seq<seq<byte>>, k: nat, after: seq<Event>)
    requires HttpVhost.HeadEndsAt(lines, k)
    requires id !in Run(bulk, proxies, before).ends.server.conns
    ensures var head := Flatten(lines[..k + 1]);
            var net := Run(bulk, proxies, before + [Do(AUserConnects(id, proxy, head))] + after);
            id in net.ends.client.locals ==>
              && id in net.ends.server.conns && net.ends.client.locals[id].proxy == proxy
              && net.ends.client.locals[id].toService <= head + TunnelHistory.UserSent(after, id)
              && (net.ends.client.locals[id].inPool ==>
                   net.ends.client.locals[id].toService + InFlight(net.links.At(Down, Home(bulk)), id)
                   + Pending(net.ends.server.conns[id]) == head + TunnelHistory.UserSent(after, id))
  {
    var head := Flatten(lines[..k + 1]);
    TunnelHistory.UserReachesService(bulk, proxies, before, id, proxy, head, after);
  }

  /** And the whole of it can still get there, from the moment the head has been read: as long as
      the connection is opening or ready. */
  lemma RequestCanReachService(bulk: bool, proxies: set<string>, before: seq<Event>, id: Id, proxy: string,
                               lines: seq<seq<byte>>, k: nat, after: seq<Event>)
    returns (more: seq<Event>)
    requires HttpVhost.HeadEndsAt(lines, k)
    requires id !in Run(bulk, proxies, before).ends.server.conns
    requires TunnelProgress.CanReachService(Run(bulk, proxies, before + [Do(AUserConnects(id, proxy, Flatten(lines[..k + 1])))] + after), id)
    ensures var head := Flatten(lines[..k + 1]);
            var net := Run(bulk, proxies, before + [Do(AUserConnects(id, proxy, head))] + after + more);
            id in net.ends.client.locals && net.ends.client.locals[id].toService == head + TunnelHistory.UserSent(after, id)
  {
    var head := Flatten(lines[..k + 1]);
    TunnelHistory.ConnHolds(bulk, proxies, before, id, proxy, head, after);
    more := TunnelProgress.CanDeliverToService(bulk, proxies, before + [Do(AUserConnects(id, proxy, head))] + after, id);
  }
}
