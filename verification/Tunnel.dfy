/** The tunnel for tcp, http and ftp connections: server and client handlers, the four
    FIFO links between them, and one event for every piece of code between two waits. */
module Tunnel {
  import opened Bytes

  type Id = string

  /** The control connection and the optional data connection. */
  datatype Channel = Control | Bulk
  datatype Direction = Up | Down

  datatype Packet =
    | NewConn(id: Id, proxy: string)
    | InitConn(id: Id)
    | Data(id: Id, data: seq<byte>)
    | Close(id: Id)

  datatype Send = Send(dir: Direction, channel: Channel, packet: Packet)

  const READ_BUF_SIZE := 65536

  /** `forward_proxy_data`: waiting for client_ready, relaying, or finished. */
  datatype Task = Waiting | Running | Ended

  /** A server pool entry with the user's socket. The task keeps using the entry after
      `close_conn` has taken it out of the pool; `inPool` says whether it is still there. */
  datatype Conn = Conn(
    proxy: string,
    inPool: bool,
    clientWriter: Option<Channel>,
    ready: bool,
    task: Task,
    prepend: seq<byte>,   // HTTP head read before the tunnel opened and not yet sent
    unread: seq<byte>,    // sent by the user, not yet read
    framed: seq<byte>,    // put into DATA messages so far
    fromUser: seq<byte>,  // everything the user has sent
    toUser: seq<byte>     // payloads accepted for the user, in order
  )

  /** A client pool entry with the local service's socket. */
  datatype Local = Local(
    proxy: string,        // names the service the socket leads to
    inPool: bool,
    reading: bool,
    unread: seq<byte>,
    framed: seq<byte>,
    fromService: seq<byte>,
    toService: seq<byte>
  )

  datatype Server = Server(bulk: bool, conns: map<Id, Conn>)
  datatype Client = Client(bulk: bool, proxies: set<string>, locals: map<Id, Local>)

  datatype Effect<S> = Effect(state: S, out: Option<Send>)

  /** The channel for DATA: the data channel if there is one. */
  function Home(bulk: bool): Channel {
    if bulk then Bulk else Control
  }

  // ----- server handlers -----

  function NewEntry(proxy: string, head: seq<byte>): Conn {
    Conn(proxy, true, None, false, Waiting, head, [], [], head, [])
  }

  function UserConnects(s: Server, id: Id, proxy: string, head: seq<byte>): Effect<Server> {
    if id in s.conns then Effect(s, None)
    else Effect(s.(conns := s.conns[id := NewEntry(proxy, head)]), Some(Send(Down, Control, NewConn(id, proxy))))
  }

  function UserSends(s: Server, id: Id, data: seq<byte>): Server {
    if id !in s.conns then s
    else
      var c := s.conns[id];
      s.(conns := s.conns[id := c.(unread := c.unread + data, fromUser := c.fromUser + data)])
  }

  /** `close_conn`: the entry leaves the pool, the peer is not told. */
  function ServerCloses(s: Server, id: Id): Server {
    if id in s.conns then s.(conns := s.conns[id := s.conns[id].(inPool := false)]) else s
  }

  function ForwardStarts(s: Server, id: Id): Effect<Server> {
    if id !in s.conns || !s.conns[id].task.Waiting? || !s.conns[id].ready || s.conns[id].clientWriter.None? then Effect(s, None)
    else
      var c := s.conns[id];
      Effect(
        s.(conns := s.conns[id := c.(task := Running, prepend := [], framed := c.framed + c.prepend)]),
        if c.prepend == [] then None else Some(Send(Down, c.clientWriter.value, Data(id, c.prepend)))
      )
  }

  function ForwardTimesOut(s: Server, id: Id): Server {
    if id !in s.conns || !s.conns[id].task.Waiting? || s.conns[id].ready then s
    else ServerCloses(s.(conns := s.conns[id := s.conns[id].(task := Ended)]), id)
  }

  function ForwardReads(s: Server, id: Id, n: nat): Effect<Server> {
    if id !in s.conns || !s.conns[id].task.Running? || s.conns[id].clientWriter.None? then Effect(s, None)
    else
      var c := s.conns[id];
      if !(0 < n <= READ_BUF_SIZE && n <= |c.unread|) then Effect(s, None)
      else
        Effect(
          s.(conns := s.conns[id := c.(unread := c.unread[n..], framed := c.framed + c.unread[..n])]),
          Some(Send(Down, c.clientWriter.value, Data(id, c.unread[..n])))
        )
  }

  function ForwardEnds(s: Server, id: Id): Server {
    if id !in s.conns || !s.conns[id].task.Running? then s
    else ServerCloses(s.(conns := s.conns[id := s.conns[id].(task := Ended)]), id)
  }

  function HandleInitConn(s: Server, id: Id): Server {
    if id !in s.conns || !s.conns[id].inPool then s
    else s.(conns := s.conns[id := s.conns[id].(clientWriter := Some(Home(s.bulk)), ready := true)])
  }

  function HandleServerData(s: Server, channel: Channel, id: Id, data: seq<byte>): Server {
    if id !in s.conns || !s.conns[id].inPool then s
    else
      var c := s.conns[id];
      var writer := if c.clientWriter.None? then Some(channel) else c.clientWriter;
      s.(conns := s.conns[id := c.(clientWriter := writer, toUser := c.toUser + data)])
  }

  /** Dispatch by channel: the data connection takes only DATA and CLOSE. */
  function ServerReceives(s: Server, channel: Channel, p: Packet): Server {
    match p
    case InitConn(id) => if channel.Control? then HandleInitConn(s, id) else s
    case Data(id, data) => HandleServerData(s, channel, id, data)
    case Close(id) => ServerCloses(s, id)
    case NewConn(_, _) => s
  }

  // ----- client handlers -----

  function HandleNewConn(c: Client, id: Id, proxy: string, connects: bool): Effect<Client> {
    if proxy !in c.proxies then Effect(c, None)
    else if !connects then Effect(c, Some(Send(Up, Home(c.bulk), Close(id))))
    else Effect(c.(locals := c.locals[id := Local(proxy, true, true, [], [], [], [])]), Some(Send(Up, Control, InitConn(id))))
  }

  function HandleClientData(c: Client, id: Id, data: seq<byte>): Client {
    if id !in c.locals || !c.locals[id].inPool then c
    else c.(locals := c.locals[id := c.locals[id].(toService := c.locals[id].toService + data)])
  }

  function ClientCloses(c: Client, id: Id): Client {
    if id in c.locals then c.(locals := c.locals[id := c.locals[id].(inPool := false)]) else c
  }

  /** Dispatch by channel: with a data channel, DATA and CLOSE count only there. */
  function ClientReceives(c: Client, channel: Channel, p: Packet, connects: bool): Effect<Client> {
    match p
    case NewConn(id, proxy) => if channel.Control? then HandleNewConn(c, id, proxy, connects) else Effect(c, None)
    case Data(id, data) => Effect(if channel == Home(c.bulk) then HandleClientData(c, id, data) else c, None)
    case Close(id) => Effect(if channel == Home(c.bulk) then ClientCloses(c, id) else c, None)
    case InitConn(_) => Effect(c, None)
  }

  function ServiceSends(c: Client, id: Id, data: seq<byte>): Client {
    if id !in c.locals then c
    else
      var l := c.locals[id];
      c.(locals := c.locals[id := l.(unread := l.unread + data, fromService := l.fromService + data)])
  }

  function LocalReads(c: Client, id: Id, n: nat): Effect<Client> {
    if id !in c.locals || !c.locals[id].reading then Effect(c, None)
    else
      var l := c.locals[id];
      if !(0 < n <= READ_BUF_SIZE && n <= |l.unread|) then Effect(c, None)
      else
        Effect(
          c.(locals := c.locals[id := l.(unread := l.unread[n..], framed := l.framed + l.unread[..n])]),
          Some(Send(Up, Home(c.bulk), Data(id, l.unread[..n])))
        )
  }

  function LocalEnds(c: Client, id: Id): Client {
    if id !in c.locals || !c.locals[id].reading then c
    else ClientCloses(c.(locals := c.locals[id := c.locals[id].(reading := false)]), id)
  }

  // ----- the whole system -----

  datatype Links<T> = Links(upControl: T, upBulk: T, downControl: T, downBulk: T) {
    function At(dir: Direction, channel: Channel): T {
      match (dir, channel)
      case (Up, Control) => upControl
      case (Up, Bulk) => upBulk
      case (Down, Control) => downControl
      case (Down, Bulk) => downBulk
    }

    function With(dir: Direction, channel: Channel, t: T): (r: Links<T>)
      ensures r.At(dir, channel) == t
      ensures forall d, c :: (d, c) != (dir, channel) ==> r.At(d, c) == At(d, c)
    {
      match (dir, channel)
      case (Up, Control) => this.(upControl := t)
      case (Up, Bulk) => this.(upBulk := t)
      case (Down, Control) => this.(downControl := t)
      case (Down, Bulk) => this.(downBulk := t)
    }
  }

  datatype Ends = Ends(server: Server, client: Client)

  /** What one end does on its own. An event that is not enabled changes nothing. */
  datatype Action =
    | AUserConnects(id: Id, proxy: string, head: seq<byte>)
    | AUserSends(id: Id, data: seq<byte>)
    | AForwardStarts(id: Id)
    | AForwardTimesOut(id: Id)
    | AForwardReads(id: Id, n: nat)
    | AForwardEnds(id: Id)
    | AServerCloses(id: Id)   // idle sweep, write error, proxy removal, shutdown
    | AServiceSends(id: Id, data: seq<byte>)
    | ALocalReads(id: Id, n: nat)
    | ALocalEnds(id: Id)
    | AClientCloses(id: Id)

  function ByServer(ends: Ends, e: Effect<Server>): Effect<Ends> {
    Effect(ends.(server := e.state), e.out)
  }

  function ByClient(ends: Ends, e: Effect<Client>): Effect<Ends> {
    Effect(ends.(client := e.state), e.out)
  }

  function Act(ends: Ends, a: Action): Effect<Ends> {
    match a
    case AUserConnects(id, proxy, head) => ByServer(ends, UserConnects(ends.server, id, proxy, head))
    case AUserSends(id, data) => ByServer(ends, Effect(UserSends(ends.server, id, data), None))
    case AForwardStarts(id) => ByServer(ends, ForwardStarts(ends.server, id))
    case AForwardTimesOut(id) => ByServer(ends, Effect(ForwardTimesOut(ends.server, id), None))
    case AForwardReads(id, n) => ByServer(ends, ForwardReads(ends.server, id, n))
    case AForwardEnds(id) => ByServer(ends, Effect(ForwardEnds(ends.server, id), None))
    case AServerCloses(id) => ByServer(ends, Effect(ServerCloses(ends.server, id), None))
    case AServiceSends(id, data) => ByClient(ends, Effect(ServiceSends(ends.client, id, data), None))
    case ALocalReads(id, n) => ByClient(ends, LocalReads(ends.client, id, n))
    case ALocalEnds(id) => ByClient(ends, Effect(LocalEnds(ends.client, id), None))
    case AClientCloses(id) => ByClient(ends, Effect(ClientCloses(ends.client, id), None))
  }

  /** `connects` is the outcome of open_connection, used by NEW_CONN only. */
  function Receive(ends: Ends, dir: Direction, channel: Channel, p: Packet, connects: bool): Effect<Ends> {
    match dir
    case Up => ByServer(ends, Effect(ServerReceives(ends.server, channel, p), None))
    case Down => ByClient(ends, ClientReceives(ends.client, channel, p, connects))
  }

  datatype Net = Net(ends: Ends, links: Links<seq<Packet>>)

  datatype Event = Do(action: Action) | Deliver(dir: Direction, channel: Channel, connects: bool)

  function Emit(links: Links<seq<Packet>>, out: Option<Send>): Links<seq<Packet>> {
    match out
    case None => links
    case Some(s) => links.With(s.dir, s.channel, links.At(s.dir, s.channel) + [s.packet])
  }

  function Next(net: Net, e: Event): Net {
    match e
    case Do(a) =>
      var r := Act(net.ends, a);
      Net(r.state, Emit(net.links, r.out))
    case Deliver(dir, channel, connects) =>
      var q := net.links.At(dir, channel);
      if q == [] then net
      else
        var r := Receive(net.ends, dir, channel, q[0], connects);
        Net(r.state, Emit(net.links.With(dir, channel, q[1..]), r.out))
  }

  function Initial(bulk: bool, proxies: set<string>): Net {
    Net(Ends(Server(bulk, map[]), Client(bulk, proxies, map[])), Links([], [], [], []))
  }

  function Run(bulk: bool, proxies: set<string>, events: seq<Event>): Net {
    if events == [] then Initial(bulk, proxies)
    else Next(Run(bulk, proxies, events[..|events| - 1]), events[|events| - 1])
  }

  // ----- what the links hold -----

  function Payload(p: Packet, id: Id): seq<byte> {
    if p.Data? && p.id == id then p.data else []
  }

  /** Bytes of one connection still on a link, in order. */
  function InFlight(q: seq<Packet>, id: Id): seq<byte> {
    if q == [] then [] else Payload(q[0], id) + InFlight(q[1..], id)
  }

  lemma {:induction false} InFlightSnoc(q: seq<Packet>, p: Packet, id: Id)
    ensures InFlight(q + [p], id) == InFlight(q, id) + Payload(p, id)
  {
    if q == [] {
      assert (q + [p])[1..] == [];
    } else {
      assert (q + [p])[1..] == q[1..] + [p];
      InFlightSnoc(q[1..], p, id);
    }
  }

  lemma {:induction false} NothingInFlight(q: seq<Packet>, id: Id)
    requires forall p :: p in q && p.Data? ==> p.id != id
    ensures InFlight(q, id) == []
  {
    if q != [] {
      NothingInFlight(q[1..], id);
    }
  }

  // ----- the invariant -----

  /** Sent by the user but not yet put into a DATA message. */
  function Pending(c: Conn): seq<byte> {
    c.prepend + c.unread
  }

  ghost predicate ConnOk(ends: Ends, id: Id)
    requires id in ends.server.conns
  {
    var c := ends.server.conns[id];
    && c.framed + Pending(c) == c.fromUser
    && (c.clientWriter.Some? ==> c.clientWriter == Some(Home(ends.server.bulk)) && id in ends.client.locals)
    && (c.ready ==> c.clientWriter.Some?)
    && (c.task.Running? ==> c.ready && c.prepend == [])
    && (id !in ends.client.locals ==> c.framed == [] && c.toUser == [])
  }

  ghost predicate LocalOk(ends: Ends, id: Id)
    requires id in ends.client.locals
  {
    var l := ends.client.locals[id];
    && id in ends.server.conns
    && l.framed + l.unread == l.fromService
  }

  /** Delivered ++ in flight == framed while the receiving entry is in its pool, and
      delivered is a prefix of framed ever after. */
  ghost predicate Flow(delivered: seq<byte>, inFlight: seq<byte>, framed: seq<byte>, open: bool) {
    && delivered <= framed
    && (open ==> delivered + inFlight == framed)
  }

  ghost predicate FlowOk(net: Net, id: Id)
    requires id in net.ends.client.locals && id in net.ends.server.conns
  {
    var c, l, home := net.ends.server.conns[id], net.ends.client.locals[id], Home(net.ends.server.bulk);
    && Flow(l.toService, InFlight(net.links.At(Down, home), id), c.framed, l.inPool)
    && Flow(c.toUser, InFlight(net.links.At(Up, home), id), l.framed, c.inPool)
  }

  ghost predicate PacketOk(ends: Ends, dir: Direction, channel: Channel, p: Packet) {
    match p
    case NewConn(id, _) => dir.Down? && channel.Control? && id in ends.server.conns
    case InitConn(id) => dir.Up? && channel.Control? && id in ends.client.locals
    case Data(id, _) =>
      && channel == Home(ends.server.bulk)
      && id in ends.client.locals
      && id in ends.server.conns
      && (dir.Down? ==> ends.server.conns[id].ready)
    case Close(id) => dir.Up? && channel == Home(ends.server.bulk) && id in ends.server.conns
  }

  ghost predicate PacketsOk(net: Net) {
    forall dir, channel, p :: p in net.links.At(dir, channel) ==> PacketOk(net.ends, dir, channel, p)
  }

  /** A NEW_CONN on its way is the only one for its id, and the client does not know the id. */
  ghost predicate NewsOk(q: seq<Packet>, locals: map<Id, Local>) {
    && (forall i :: 0 <= i < |q| && q[i].NewConn? ==> q[i].id !in locals)
    && (forall i, j :: 0 <= i < j < |q| && q[i].NewConn? && q[j].NewConn? ==> q[i].id != q[j].id)
  }

  ghost predicate EndsOk(ends: Ends) {
    && ends.server.bulk == ends.client.bulk
    && (forall id :: id in ends.server.conns ==> ConnOk(ends, id))
    && (forall id :: id in ends.client.locals ==> LocalOk(ends, id))
  }

  ghost predicate Inv(net: Net) {
    && EndsOk(net.ends)
    && PacketsOk(net)
    && NewsOk(net.links.downControl, net.ends.client.locals)
    && (forall id :: id in net.ends.client.locals ==> FlowOk(net, id))
  }
}
