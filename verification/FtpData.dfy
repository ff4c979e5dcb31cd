/** FTP data connections: one listener per passive reply, a buffer for what the client
    sends before the FTP user has connected, and the books kept about both. */
module FtpData {
  import opened Bytes

  type Id = string
  type User = nat

  /** An FTP control connection's pool entry; `inPool` goes false when it is closed. */
  datatype Control = Control(inPool: bool, dataConns: set<Id>)

  /** What was written to one writer, and whether that writer was open then: bytes
      written to a closed one are lost. */
  datatype Piece = Piece(user: User, data: seq<byte>, open: bool)

  /** An entry of `ftp_data_ports`. `pending` holds until the client has been told; `users` are
      the connections the listener accepted and `closed` those whose wait for the ready event
      timed out. `written` and `received` are what went to FTP users and came for them. */
  datatype Info = Info(
    ctrl: Id,
    pending: bool,
    proxyWriter: Option<User>,
    ready: bool,
    users: set<User>,
    closed: set<User>,
    buffer: seq<byte>,
    written: seq<Piece>,
    received: seq<byte>
  )

  datatype State = State(controls: map<Id, Control>, ports: map<Id, Info>, used: set<Id>)

  const EMPTY := State(map[], map[], {})

  datatype Event =
    | ControlOpens(c: Id)
    | ControlCloses(c: Id)
    | ListenerRequested(c: Id, d: Id)
    | ListenerFails(c: Id, d: Id)
    | ListenerTold(c: Id, d: Id)
    | UserConnects(d: Id, user: User)
    | ReadyTimesOut(d: Id, user: User)
    | ClientReady(d: Id)
    | DataArrives(d: Id, data: seq<byte>)
    | DataConnEnds(d: Id, user: User)

  function Unlist(controls: map<Id, Control>, c: Id, d: Id): map<Id, Control> {
    if c in controls then controls[c := controls[c].(dataConns := controls[c].dataConns - {d})] else controls
  }

  function NewInfo(c: Id): Info {
    Info(c, true, None, false, {}, {}, [], [], [])
  }

  /** Both books get the new id before start_server is awaited; ids are fresh. The control
      connection was in the pool before the port search, and may have left it since. */
  function Request(s: State, c: Id, d: Id): State {
    if c !in s.controls || d in s.used then s
    else
      State(
        s.controls[c := s.controls[c].(dataConns := s.controls[c].dataConns + {d})],
        s.ports[d := NewInfo(c)],
        s.used + {d}
      )
  }

  /** start_server or the FTP_NEW_DATA write failed: the id leaves both books. */
  function Abandon(s: State, c: Id, d: Id): State {
    if d !in s.ports || s.ports[d].ctrl != c || !s.ports[d].pending then s
    else s.(controls := Unlist(s.controls, c, d), ports := s.ports - {d})
  }

  /** The listener works and the client has been told. */
  function ToldEntry(i: Info, c: Id): Info {
    if i.ctrl == c then i.(pending := false) else i
  }

  /** `_handle_ftp_data_conn` up to its first wait: take the writer, send the buffer.
      Every connection that the listener accepts is a new one. */
  function ConnectEntry(i: Info, user: User): Info {
    if user in i.users then i
    else
      var written := if i.buffer == [] then i.written else i.written + [Piece(user, i.buffer, true)];
      i.(proxyWriter := Some(user), users := i.users + {user}, buffer := [], written := written)
  }

  /** The ready event was not set in time: the writer is closed, and that is all. The entry
      stays in both books and keeps the closed writer. */
  function TimeOutEntry(i: Info, user: User): Info {
    if i.ready || user !in i.users then i else i.(closed := i.closed + {user})
  }

  function DataEntry(i: Info, data: seq<byte>): Info {
    var i' := i.(received := i.received + data);
    if i.proxyWriter.Some? then
      i'.(written := i.written + [Piece(i.proxyWriter.value, data, i.proxyWriter.value !in i.closed)])
    else i'.(buffer := i.buffer + data)
  }

  /** An event about one data connection. */
  predicate About(e: Event, d: Id) {
    !e.ControlOpens? && !e.ControlCloses? && e.d == d
  }

  /** What an event about an entry makes of it, if the entry stays. */
  function NextEntry(i: Info, e: Event): Info {
    match e
    case ListenerTold(c, _) => ToldEntry(i, c)
    case UserConnects(_, user) => ConnectEntry(i, user)
    case ReadyTimesOut(_, user) => TimeOutEntry(i, user)
    case ClientReady(_) => i.(ready := true)
    case DataArrives(_, data) => DataEntry(i, data)
    case _ => i
  }

  function Update(s: State, d: Id, e: Event): State {
    if d in s.ports then s.(ports := s.ports[d := NextEntry(s.ports[d], e)]) else s
  }

  /** The end of a user's connection that got past its wait: the control connection is asked
      only while in the pool. */
  function Finish(s: State, d: Id, user: User): State {
    if d !in s.ports || !s.ports[d].ready || user !in s.ports[d].users - s.ports[d].closed then s
    else
      var c := s.ports[d].ctrl;
      var controls := if c in s.controls && s.controls[c].inPool then Unlist(s.controls, c, d) else s.controls;
      s.(controls := controls, ports := s.ports - {d})
  }

  function Next(s: State, e: Event): State {
    match e
    case ControlOpens(c) => if c in s.controls then s else s.(controls := s.controls[c := Control(true, {})])
    case ControlCloses(c) => if c in s.controls then s.(controls := s.controls[c := s.controls[c].(inPool := false)]) else s
    case ListenerRequested(c, d) => Request(s, c, d)
    case ListenerFails(c, d) => Abandon(s, c, d)
    case DataConnEnds(d, user) => Finish(s, d, user)
    case _ => Update(s, e.d, e)
  }

  function Run(events: seq<Event>): State {
    if events == [] then EMPTY
    else Next(Run(events[..|events| - 1]), events[|events| - 1])
  }

  // ----- conservation and agreement -----

  function All(written: seq<Piece>): seq<byte> {
    if written == [] then [] else All(written[..|written| - 1]) + written[|written| - 1].data
  }

  /** What reached one user: the pieces written to its writer while that was open. */
  function Delivered(written: seq<Piece>, user: User): seq<byte> {
    if written == [] then []
    else
      var last := written[|written| - 1];
      Delivered(written[..|written| - 1], user) + (if last.user == user && last.open then last.data else [])
  }

  function LostBytes(written: seq<Piece>): nat {
    if written == [] then 0
    else
      var last := written[|written| - 1];
      LostBytes(written[..|written| - 1]) + (if last.open then 0 else |last.data|)
  }

  lemma PieceSnoc(written: seq<Piece>, p: Piece)
    ensures All(written + [p]) == All(written) + p.data
    ensures LostBytes(written + [p]) == LostBytes(written) + (if p.open then 0 else |p.data|)
  {
    assert (written + [p])[..|written|] == written;
  }

  /** Nothing is reordered; the buffer is in use only until a user connects. */
  ghost predicate InfoOk(i: Info) {
    && All(i.written) + i.buffer == i.received
    && (i.proxyWriter.Some? ==> i.buffer == [] && i.proxyWriter.value in i.users)
    && (i.proxyWriter.None? ==> i.written == [] && i.users == {})
    && i.closed <= i.users
  }

  function Listed(ports: map<Id, Info>, c: Id): set<Id> {
    set d | d in ports && ports[d].ctrl == c
  }

  ghost predicate Inv(s: State) {
    && (forall d :: d in s.ports ==> InfoOk(s.ports[d]) && d in s.used && s.ports[d].ctrl in s.controls)
    && (forall c :: c in s.controls && s.controls[c].inPool ==> s.controls[c].dataConns == Listed(s.ports, c))
  }

  /** Changing what an entry holds, but not whose it is, keeps the books. */
  lemma KeepsEntry(s: State, d: Id, i: Info)
    requires Inv(s) && d in s.ports && i.ctrl == s.ports[d].ctrl && InfoOk(i)
    ensures Inv(s.(ports := s.ports[d := i]))
  {
    var ports := s.ports[d := i];
    forall c
      ensures Listed(ports, c) == Listed(s.ports, c)
    {
    }
  }

  lemma ConnectOk(i: Info, user: User)
    requires InfoOk(i)
    ensures InfoOk(ConnectEntry(i, user))
  {
    PieceSnoc(i.written, Piece(user, i.buffer, true));
    assert All(i.written) + i.buffer + [] == All(i.written) + i.buffer;
  }

  lemma DataOk(i: Info, data: seq<byte>)
    requires InfoOk(i)
    ensures InfoOk(DataEntry(i, data))
  {
    if i.proxyWriter.Some? {
      var p := Piece(i.proxyWriter.value, data, i.proxyWriter.value !in i.closed);
      PieceSnoc(i.written, p);
      assert All(i.written) + [] == All(i.written);
      assert All(i.written + [p]) + [] == All(i.written) + data;
    } else {
      Assoc(All(i.written), i.buffer, data);
    }
  }

  lemma EntryOk(i: Info, e: Event)
    requires InfoOk(i)
    ensures InfoOk(NextEntry(i, e))
  {
    match e
    case UserConnects(_, user) => ConnectOk(i, user);
    case DataArrives(_, data) => DataOk(i, data);
    case _ =>
  }

  lemma KeepsRequest(s: State, c: Id, d: Id)
    requires Inv(s)
    ensures Inv(Request(s, c, d))
  {
    var s' := Request(s, c, d);
    if s' != s {
      assert d !in s.ports;
      forall x | x in s'.controls && s'.controls[x].inPool
        ensures s'.controls[x].dataConns == Listed(s'.ports, x)
      {
        assert Listed(s'.ports, x) == Listed(s.ports, x) + (if x == c then {d} else {});
      }
    }
  }

  lemma KeepsRemoval(s: State, d: Id)
    requires Inv(s) && d in s.ports
    ensures var c, rest := s.ports[d].ctrl, s.ports - {d};
            && Inv(s.(controls := Unlist(s.controls, c, d), ports := rest))
            && (c !in s.controls || !s.controls[c].inPool ==> Inv(s.(ports := rest)))
  {
    var rest := s.ports - {d};
    forall x
      ensures Listed(rest, x) == Listed(s.ports, x) - {d}
      ensures x != s.ports[d].ctrl ==> d !in Listed(s.ports, x)
    {
    }
  }

  lemma KeepsInv(s: State, e: Event)
    requires Inv(s)
    ensures Inv(Next(s, e))
  {
    match e
    case ControlOpens(c) => assert c !in s.controls ==> Listed(s.ports, c) == {};
    case ControlCloses(_) =>
    case ListenerRequested(c, d) => KeepsRequest(s, c, d);
    case ListenerFails(_, d) =>
      if d in s.ports {
        KeepsRemoval(s, d);
      }
    case DataConnEnds(d, _) =>
      if d in s.ports {
        KeepsRemoval(s, d);
      }
    case _ =>
      if e.d in s.ports {
        EntryOk(s.ports[e.d], e);
        KeepsEntry(s, e.d, NextEntry(s.ports[e.d], e));
      }
  }

  /** An entry that stays changes only by the events about it. */
  lemma EntryAfter(s: State, e: Event, d: Id)
    requires d in s.ports && d in s.used && d in Next(s, e).ports
    ensures Next(s, e).ports[d] == if About(e, d) then NextEntry(s.ports[d], e) else s.ports[d]
  {
  }

  lemma {:induction false} RunInv(events: seq<Event>)
    ensures Inv(Run(events))
  {
    if events != [] {
      RunInv(events[..|events| - 1]);
      KeepsInv(Run(events[..|events| - 1]), events[|events| - 1]);
    }
  }

  lemma RunSnoc(before: seq<Event>, e: Event)
    ensures Run(before + [e]) == Next(Run(before), e)
  {
    assert (before + [e])[..|before|] == before;
  }

  /** In every interleaving: written ++ buffered is all that was received, in order. What was
      written to a writer already closed is lost. */
  lemma DownloadConserved(events: seq<Event>, d: Id)
    requires d in Run(events).ports
    ensures var i := Run(events).ports[d];
            && All(i.written) + i.buffer == i.received
            && (i.proxyWriter.Some? ==> i.buffer == [])
  {
    RunInv(events);
  }

  /** A live control connection lists exactly its own entries of ftp_data_ports. */
  lemma BooksAgree(events: seq<Event>, c: Id)
    requires c in Run(events).controls && Run(events).controls[c].inPool
    ensures forall d :: d in Run(events).controls[c].dataConns <==> d in Run(events).ports && Run(events).ports[d].ctrl == c
  {
    RunInv(events);
  }

  // ----- what reaches the user -----

  /** One user per listener. */
  ghost predicate OnlyUser(events: seq<Event>, d: Id, user: User) {
    forall e :: e in events && e.UserConnects? && e.d == d ==> e.user == user
  }

  ghost predicate Only(i: Info, user: User) {
    && i.users <= {user}
    && (i.proxyWriter.Some? ==> i.proxyWriter.value == user)
    && forall p :: p in i.written ==> p.user == user
  }

  lemma OnlyStep(i: Info, e: Event, user: User)
    requires Only(i, user) && (e.UserConnects? ==> e.user == user)
    ensures Only(NextEntry(i, e), user)
  {
  }

  lemma {:induction false} OnlyUserWritten(events: seq<Event>, d: Id, user: User)
    requires OnlyUser(events, d, user) && d in Run(events).ports
    ensures Only(Run(events).ports[d], user)
  {
    if events != [] {
      var before, e := events[..|events| - 1], events[|events| - 1];
      RunInv(before);
      assert e in events;
      if d in Run(before).ports {
        OnlyUserWritten(before, d, user);
        EntryAfter(Run(before), e, d);
        if About(e, d) {
          OnlyStep(Run(before).ports[d], e, user);
        }
      } else {
        assert Run(events).ports[d] == NewInfo(Run(events).ports[d].ctrl);
      }
    }
  }

  /** Of what was written to one user, all arrived exactly when nothing met a closed writer. */
  lemma {:induction false} DeliveredIff(written: seq<Piece>, user: User)
    requires forall p :: p in written ==> p.user == user
    ensures |Delivered(written, user)| + LostBytes(written) == |All(written)|
    ensures LostBytes(written) == 0 ==> Delivered(written, user) == All(written)
  {
    if written != [] {
      DeliveredIff(written[..|written| - 1], user);
    }
  }

  /** At event j the user's wait times out: it is connected and the client is not ready. */
  ghost predicate TimesOutAt(events: seq<Event>, j: nat, d: Id, user: User)
    requires j < |events|
  {
    var s := Run(events[..j]);
    events[j] == ReadyTimesOut(d, user) && d in s.ports && user in s.ports[d].users && !s.ports[d].ready
  }

  ghost predicate TimedOut(events: seq<Event>, d: Id, user: User) {
    exists j :: 0 <= j < |events| && TimesOutAt(events, j, d, user)
  }

  /** Bytes arrive at event k for a user whose wait has timed out before. */
  ghost predicate LateAt(events: seq<Event>, k: nat, d: Id, user: User)
    requires k < |events|
  {
    events[k].DataArrives? && events[k].d == d && events[k].data != [] && TimedOut(events[..k], d, user)
  }

  ghost predicate LateData(events: seq<Event>, d: Id, user: User) {
    exists k :: 0 <= k < |events| && LateAt(events, k, d, user)
  }

  lemma TimedOutSnoc(before: seq<Event>, e: Event, d: Id, user: User)
    ensures var s := Run(before);
            TimedOut(before + [e], d, user)
            <==> (TimedOut(before, d, user)
                  || (e == ReadyTimesOut(d, user) && d in s.ports && user in s.ports[d].users && !s.ports[d].ready))
  {
    var events := before + [e];
    assert events[..|before|] == before;
    assert TimesOutAt(events, |before|, d, user)
      <==> (e == ReadyTimesOut(d, user) && d in Run(before).ports && user in Run(before).ports[d].users && !Run(before).ports[d].ready);
    forall j | 0 <= j < |before|
      ensures TimesOutAt(events, j, d, user) <==> TimesOutAt(before, j, d, user)
    {
      assert events[..j] == before[..j];
    }
  }

  lemma LateSnoc(before: seq<Event>, e: Event, d: Id, user: User)
    ensures LateData(before + [e], d, user)
        <==> (LateData(before, d, user) || (e.DataArrives? && e.d == d && e.data != [] && TimedOut(before, d, user)))
  {
    var events := before + [e];
    assert events[..|before|] == before;
    assert LateAt(events, |before|, d, user)
      <==> (e.DataArrives? && e.d == d && e.data != [] && TimedOut(before, d, user));
    forall k | 0 <= k < |before|
      ensures LateAt(events, k, d, user) <==> LateAt(before, k, d, user)
    {
      assert events[..k] == before[..k];
    }
  }

  /** An id that has not been used has no history. */
  lemma {:induction false} UnusedIsQuiet(events: seq<Event>, d: Id, user: User)
    requires d !in Run(events).used
    ensures !TimedOut(events, d, user) && !LateData(events, d, user)
  {
    if events != [] {
      var before, e := events[..|events| - 1], events[|events| - 1];
      SplitLast(events);
      RunInv(before);
      UnusedIsQuiet(before, d, user);
      TimedOutSnoc(before, e, d, user);
      LateSnoc(before, e, d, user);
    }
  }

  ghost predicate Remembers(i: Info, events: seq<Event>, d: Id, user: User) {
    && (user in i.closed <==> TimedOut(events, d, user))
    && (LostBytes(i.written) > 0 <==> LateData(events, d, user))
  }

  /** An entry remembers the time-out, and loses bytes exactly when some come after it. */
  lemma {:induction false} History(events: seq<Event>, d: Id, user: User)
    requires OnlyUser(events, d, user) && d in Run(events).ports
    ensures Remembers(Run(events).ports[d], events, d, user)
  {
    if events != [] {
      var before, e := events[..|events| - 1], events[|events| - 1];
      RunInv(before);
      if d in Run(before).ports {
        History(before, d, user);
        RemembersMore(before, e, d, user);
      } else {
        assert Run(events).ports[d] == NewInfo(Run(events).ports[d].ctrl);
        UnusedIsQuiet(before, d, user);
        TimedOutSnoc(before, e, d, user);
        LateSnoc(before, e, d, user);
      }
      SplitLast(events);
    }
  }

  lemma RemembersMore(before: seq<Event>, e: Event, d: Id, user: User)
    requires OnlyUser(before, d, user) && d in Run(before).ports && d in Next(Run(before), e).ports
    requires Remembers(Run(before).ports[d], before, d, user)
    ensures Remembers(Next(Run(before), e).ports[d], before + [e], d, user)
  {
    var s := Run(before);
    RunInv(before);
    assert InfoOk(s.ports[d]);
    OnlyUserWritten(before, d, user);
    TimedOutSnoc(before, e, d, user);
    LateSnoc(before, e, d, user);
    EntryAfter(s, e, d);
    if About(e, d) {
      HistoryStep(s.ports[d], e, user);
    }
  }

  lemma ConnectLosesNothing(i: Info, user: User)
    ensures LostBytes(ConnectEntry(i, user).written) == LostBytes(i.written) && ConnectEntry(i, user).closed == i.closed
  {
    PieceSnoc(i.written, Piece(user, i.buffer, true));
  }

  lemma DataLoses(i: Info, data: seq<byte>, user: User)
    requires InfoOk(i) && (i.proxyWriter.Some? ==> i.proxyWriter.value == user)
    ensures DataEntry(i, data).closed == i.closed
    ensures LostBytes(DataEntry(i, data).written) == LostBytes(i.written) + (if user in i.closed then |data| else 0)
  {
    if i.proxyWriter.Some? {
      PieceSnoc(i.written, Piece(user, data, user !in i.closed));
    }
  }

  lemma HistoryStep(i: Info, e: Event, user: User)
    requires InfoOk(i) && (i.proxyWriter.Some? ==> i.proxyWriter.value == user)
    ensures var i' := NextEntry(i, e);
            && (user in i'.closed <==> user in i.closed || (e.ReadyTimesOut? && e.user == user && user in i.users && !i.ready))
            && (LostBytes(i'.written) > 0
                <==> LostBytes(i.written) > 0 || (e.DataArrives? && e.data != [] && user in i.closed))
  {
    match e
    case UserConnects(_, u) => ConnectLosesNothing(i, u);
    case DataArrives(_, data) => DataLoses(i, data, user);
    case _ => assert NextEntry(i, e).written == i.written;
  }

  /** With one user per listener, what reached that user and what is buffered are all that was
      received exactly when no bytes came after its wait for the client had timed out. */
  lemma DownloadReachesUser(events: seq<Event>, d: Id, user: User)
    requires OnlyUser(events, d, user) && d in Run(events).ports
    ensures var i := Run(events).ports[d];
            Delivered(i.written, user) + i.buffer == i.received <==> !LateData(events, d, user)
  {
    var i := Run(events).ports[d];
    RunInv(events);
    OnlyUserWritten(events, d, user);
    DeliveredIff(i.written, user);
    History(events, d, user);
    assert InfoOk(i);
    assert |Delivered(i.written, user) + i.buffer| == |i.received| - LostBytes(i.written);
  }

  /** What has been delivered is a prefix of what was written, and all of it until the user's
      writer is closed. */
  ghost predicate InOrder(i: Info, user: User) {
    && Delivered(i.written, user) <= All(i.written)
    && (user !in i.closed ==> Delivered(i.written, user) == All(i.written))
  }

  lemma DeliveredSnoc(written: seq<Piece>, p: Piece, user: User)
    ensures Delivered(written + [p], user) == Delivered(written, user) + (if p.user == user && p.open then p.data else [])
  {
    assert (written + [p])[..|written|] == written;
  }

  lemma OrderConnect(i: Info, user: User)
    requires InfoOk(i) && Only(i, user) && InOrder(i, user)
    ensures InOrder(ConnectEntry(i, user), user)
  {
    var p := Piece(user, i.buffer, true);
    PieceSnoc(i.written, p);
    DeliveredSnoc(i.written, p, user);
  }

  lemma OrderData(i: Info, data: seq<byte>, user: User)
    requires InfoOk(i) && Only(i, user) && InOrder(i, user)
    ensures InOrder(DataEntry(i, data), user)
  {
    if i.proxyWriter.Some? {
      var p := Piece(user, data, user !in i.closed);
      PieceSnoc(i.written, p);
      DeliveredSnoc(i.written, p, user);
      assert Delivered(i.written, user) + [] == Delivered(i.written, user);
    }
  }

  lemma OrderStep(i: Info, e: Event, user: User)
    requires InfoOk(i) && Only(i, user) && InOrder(i, user) && (e.UserConnects? ==> e.user == user)
    ensures InOrder(NextEntry(i, e), user)
  {
    match e
    case UserConnects(_, _) => OrderConnect(i, user);
    case DataArrives(_, data) => OrderData(i, data, user);
    case _ => assert NextEntry(i, e).written == i.written && i.closed <= NextEntry(i, e).closed;
  }

  lemma {:induction false} RunInOrder(events: seq<Event>, d: Id, user: User)
    requires OnlyUser(events, d, user) && d in Run(events).ports
    ensures InOrder(Run(events).ports[d], user)
  {
    if events != [] {
      var before, e := events[..|events| - 1], events[|events| - 1];
      RunInv(before);
      assert e in events;
      if d in Run(before).ports {
        RunInOrder(before, d, user);
        OnlyUserWritten(before, d, user);
        EntryAfter(Run(before), e, d);
        assert InfoOk(Run(before).ports[d]);
        if About(e, d) {
          OrderStep(Run(before).ports[d], e, user);
        }
      } else {
        assert Run(events).ports[d] == NewInfo(Run(events).ports[d].ctrl);
      }
    }
  }

  /** With one user per listener, whatever times out: what reached the user is a prefix of what
      was received. */
  lemma DeliveredIsPrefix(events: seq<Event>, d: Id, user: User)
    requires OnlyUser(events, d, user) && d in Run(events).ports
    ensures Delivered(Run(events).ports[d].written, user) <= Run(events).ports[d].received
  {
    RunInOrder(events, d, user);
    RunInv(events);
    assert InfoOk(Run(events).ports[d]);
  }

  /** A run that loses a download: the client is ready only after the user's wait is over. */
  function LateReady(c: Id, d: Id, user: User, data: seq<byte>): seq<Event> {
    [ControlOpens(c)] + [ListenerRequested(c, d)] + [ListenerTold(c, d)] + [UserConnects(d, user)]
    + [ReadyTimesOut(d, user)] + [ClientReady(d)] + [DataArrives(d, data)]
  }

  lemma LateReadyLosesAll(c: Id, d: Id, user: User, data: seq<byte>)
    requires data != []
    ensures var s := Run(LateReady(c, d, user, data));
            && OnlyUser(LateReady(c, d, user, data), d, user)
            && d in s.ports && s.ports[d].ready
            && s.ports[d].received == data
            && Delivered(s.ports[d].written, user) == [] && s.ports[d].buffer == []
  {
    var e4 := [ControlOpens(c)] + [ListenerRequested(c, d)] + [ListenerTold(c, d)] + [UserConnects(d, user)];
    var e5 := e4 + [ReadyTimesOut(d, user)];
    var e6 := e5 + [ClientReady(d)];
    AfterConnect(c, d, user);
    RunSnoc(e4, ReadyTimesOut(d, user));
    RunSnoc(e5, ClientReady(d));
    RunSnoc(e6, DataArrives(d, data));
    LateEntry(c, d, user, data);
    LateReadyOnly(c, d, user, data);
    hide Run, OnlyUser;
  }

  lemma LateReadyOnly(c: Id, d: Id, user: User, data: seq<byte>)
    ensures OnlyUser(LateReady(c, d, user, data), d, user)
  {
  }

  lemma LateEntry(c: Id, d: Id, user: User, data: seq<byte>)
    ensures var waiting := ConnectEntry(NewInfo(c).(pending := false), user);
            var i := DataEntry(TimeOutEntry(waiting, user).(ready := true), data);
            i.ready && i.received == data && Delivered(i.written, user) == [] && i.buffer == []
  {
    var lost := [Piece(user, data, false)];
    assert [] + data == data && [] + lost == lost && lost[..0] == [];
    assert Delivered(lost, user) == [] + [];
  }

  lemma AfterConnect(c: Id, d: Id, user: User)
    ensures var s := Run([ControlOpens(c)] + [ListenerRequested(c, d)] + [ListenerTold(c, d)] + [UserConnects(d, user)]);
            d in s.ports && s.ports[d] == ConnectEntry(NewInfo(c).(pending := false), user)
  {
    var e1 := [ControlOpens(c)];
    var e2 := e1 + [ListenerRequested(c, d)];
    var e3 := e2 + [ListenerTold(c, d)];
    assert e1 == [] + [ControlOpens(c)];
    RunSnoc([], ControlOpens(c));
    RunSnoc(e1, ListenerRequested(c, d));
    RunSnoc(e2, ListenerTold(c, d));
    RunSnoc(e3, UserConnects(d, user));
  }

  /** The entry of a user whose wait is over, with its closed writer in place. */
  ghost predicate Stuck(i: Info, user: User) {
    !i.pending && i.users == i.closed == {user} && i.proxyWriter == Some(user)
  }

  lemma StuckStep(s: State, e: Event, d: Id, user: User)
    requires d in s.ports && d in s.used && Stuck(s.ports[d], user)
    requires e.UserConnects? && e.d == d ==> e.user == user
    ensures d in Next(s, e).ports && Stuck(Next(s, e).ports[d], user)
  {
    var i := s.ports[d];
    if e.DataConnEnds? && e.d == d {
      assert e.user !in i.users - i.closed;
    }
    EntryAfter(s, e, d);
    if e.ReadyTimesOut? && e.user in i.users {
      assert e.user == user && {user} + {user} == {user};
    }
  }

  /** After the time-out nothing removes the entry: it stays in the books for the rest of the
      run, with the closed writer in place, also when the client becomes ready after all. */
  lemma {:induction false} TimedOutStays(events: seq<Event>, more: seq<Event>, d: Id, user: User)
    requires OnlyUser(events + more, d, user)
    requires d in Run(events).ports && !Run(events).ports[d].pending && TimedOut(events, d, user)
    ensures d in Run(events + more).ports && Stuck(Run(events + more).ports[d], user)
  {
    if more == [] {
      assert events + more == events;
      History(events, d, user);
      OnlyUserWritten(events, d, user);
      RunInv(events);
      assert InfoOk(Run(events).ports[d]);
    } else {
      var before, e := more[..|more| - 1], more[|more| - 1];
      SplitLast(more);
      Assoc(events, before, [e]);
      assert forall x :: x in events + before ==> x in events + more;
      assert e in events + more;
      TimedOutStays(events, before, d, user);
      RunInv(events + before);
      RunSnoc(events + before, e);
      StuckStep(Run(events + before), e, d, user);
    }
  }

  // ----- the handlers -----

  class FtpServer {
    var controls: map<Id, Control>
    var ftpDataPorts: map<Id, Info>
    ghost var used: set<Id>

    ghost function View(): State
      reads this
    {
      State(controls, ftpDataPorts, used)
    }

    constructor ()
      ensures View() == EMPTY
    {
      controls, ftpDataPorts, used := map[], map[], {};
    }

    /** `_create_ftp_data_listener` from the end of the port search to start_server. */
    method RequestListener(c: Id, d: Id)
      requires c in controls && d !in used
      modifies this
      ensures View() == Request(old(View()), c, d)
    {
      ftpDataPorts := ftpDataPorts[d := NewInfo(c)];
      controls := controls[c := controls[c].(dataConns := controls[c].dataConns + {d})];
      used := used + {d};
    }

    /** Either of its two waits raised. */
    method ListenerFailed(c: Id, d: Id)
      requires c in controls && d in ftpDataPorts && ftpDataPorts[d].ctrl == c && ftpDataPorts[d].pending
      modifies this
      ensures View() == Abandon(old(View()), c, d)
    {
      ftpDataPorts := ftpDataPorts - {d};
      controls := controls[c := controls[c].(dataConns := controls[c].dataConns - {d})];
    }

    /** Both waits are over: the port is returned. */
    method ListenerDone(c: Id, d: Id)
      requires c in controls && d in ftpDataPorts && ftpDataPorts[d].ctrl == c && ftpDataPorts[d].pending
      modifies this
      ensures View() == Update(old(View()), d, ListenerTold(c, d))
    {
      ftpDataPorts := ftpDataPorts[d := ftpDataPorts[d].(pending := false)];
    }

    /** `_handle_ftp_data_conn` up to its wait for the ready event. */
    method HandleDataConn(d: Id, user: User)
      requires d in ftpDataPorts ==> user !in ftpDataPorts[d].users
      modifies this
      ensures View() == Update(old(View()), d, UserConnects(d, user))
    {
      if d !in ftpDataPorts {
        return;
      }
      var info := ftpDataPorts[d].(proxyWriter := Some(user), users := ftpDataPorts[d].users + {user});
      var buffered := info.buffer;
      info := info.(buffer := []);
      if buffered != [] {
        info := info.(written := info.written + [Piece(user, buffered, true)]);
      }
      ftpDataPorts := ftpDataPorts[d := info];
    }

    /** Its TimeoutError branch. */
    method CloseTimedOut(d: Id, user: User)
      requires d in ftpDataPorts && !ftpDataPorts[d].ready && user in ftpDataPorts[d].users
      modifies this
      ensures View() == Update(old(View()), d, ReadyTimesOut(d, user))
    {
      ftpDataPorts := ftpDataPorts[d := ftpDataPorts[d].(closed := ftpDataPorts[d].closed + {user})];
    }

    method HandleDataReady(d: Id)
      modifies this
      ensures View() == Update(old(View()), d, ClientReady(d))
    {
      if d in ftpDataPorts {
        ftpDataPorts := ftpDataPorts[d := ftpDataPorts[d].(ready := true)];
      }
    }

    method HandleDataMessage(d: Id, data: seq<byte>)
      modifies this
      ensures View() == Update(old(View()), d, DataArrives(d, data))
    {
      if d !in ftpDataPorts {
        return;
      }
      var info := ftpDataPorts[d].(received := ftpDataPorts[d].received + data);
      if info.proxyWriter.Some? {
        var user := info.proxyWriter.value;
        info := info.(written := info.written + [Piece(user, data, user !in info.closed)]);
      } else {
        info := info.(buffer := info.buffer + data);
      }
      ftpDataPorts := ftpDataPorts[d := info];
    }

    /** The finally block, when the user's connection ends. */
    method FinishDataConn(d: Id, user: User)
      requires d in ftpDataPorts ==> ftpDataPorts[d].ready && user in ftpDataPorts[d].users - ftpDataPorts[d].closed
      modifies this
      ensures View() == Finish(old(View()), d, user)
    {
      if d !in ftpDataPorts {
        return;
      }
      var c := ftpDataPorts[d].ctrl;
      ftpDataPorts := ftpDataPorts - {d};
      if c in controls && controls[c].inPool {
        controls := controls[c := controls[c].(dataConns := controls[c].dataConns - {d})];
      }
    }
  }
}
