/** The STCP relay: one visitor connection, relayed by the server between the connections
    of a visitor client and a provider client. */
module StcpRelay {
  import opened Bytes

  /** Stream writers are told apart by identity; a number stands for one. */
  type Writer = nat

  /** The entry of `stcp_conns`, and whether it is there. */
  datatype Entry = Absent | Entry(
    visitor: Option<Writer>,
    provider: Option<Writer>,
    visitorBuffer: seq<byte>,
    providerBuffer: seq<byte>
  )

  datatype Written = Written(to: Writer, data: seq<byte>)

  /** Relay state: the entry, the DATA frames written, and the connection's counters. */
  datatype Relay = Relay(entry: Entry, log: seq<Written>, bytesOut: nat, bytesIn: nat)

  const IDLE := Relay(Absent, [], 0, 0)

  /** Bytes written to one writer, in order. */
  function WrittenTo(log: seq<Written>, w: Writer): seq<byte> {
    if log == [] then []
    else WrittenTo(log[..|log| - 1], w) + (if log[|log| - 1].to == w then log[|log| - 1].data else [])
  }

  function TotalWritten(log: seq<Written>): nat {
    if log == [] then 0 else TotalWritten(log[..|log| - 1]) + |log[|log| - 1].data|
  }

  /** Writes and counts; empty buffers are not written. */
  function Flush(r: Relay, to: Writer, buffered: seq<byte>): Relay {
    if buffered == [] then r else Put(r, to, buffered)
  }

  function Put(r: Relay, to: Writer, data: seq<byte>): Relay {
    r.(log := r.log + [Written(to, data)], bytesOut := r.bytesOut + |data|)
  }

  function NewVisitor(r: Relay, w: Writer): Relay {
    if r.entry.Absent? then r.(entry := Entry(Some(w), None, [], [])) else r
  }

  /** STCP_VISITOR_READY: link the writer, then send what the visitor sent so far. */
  function Ready(r: Relay, w: Writer): Relay {
    if r.entry.Absent? then r
    else
      var sent := Flush(r, w, r.entry.visitorBuffer);
      sent.(entry := r.entry.(provider := Some(w), visitorBuffer := []))
  }

  datatype Side = Provider | Visitor | Neither

  /** Which side a writer is; an unknown writer takes the first vacant side. */
  function SideOf(e: Entry, w: Writer): Side
    requires e.Entry?
  {
    if e.provider == Some(w) then Provider
    else if e.visitor == Some(w) then Visitor
    else if e.provider.None? then Provider
    else if e.visitor.None? then Visitor
    else Neither
  }

  /** The STCP branch of handle_data. */
  function HandleData(r: Relay, w: Writer, data: seq<byte>): Relay {
    if r.entry.Absent? then r
    else
      var side := SideOf(r.entry, w);
      var e := if side.Provider? then r.entry.(provider := Some(w))
               else if side.Visitor? then r.entry.(visitor := Some(w))
               else r.entry;
      var other := if side.Provider? then e.visitor else e.provider;
      if other.Some? then
        if side.Provider? then
          Put(Flush(r, other.value, e.providerBuffer), other.value, data).(entry := e.(providerBuffer := []))
        else
          Put(Flush(r, other.value, e.visitorBuffer), other.value, data).(entry := e.(visitorBuffer := []))
      else if side.Visitor? then
        r.(entry := e.(visitorBuffer := e.visitorBuffer + data), bytesIn := r.bytesIn + |data|)
      else
        r.(entry := e.(providerBuffer := e.providerBuffer + data), bytesIn := r.bytesIn + |data|)
  }

  function CloseRelay(r: Relay): Relay {
    r.(entry := Absent)
  }

  // ----- runs -----

  /** Where each side's messages arrive: control messages and DATA may come from
      different connections of one client when it has a data channel. */
  datatype Wiring = Wiring(visitorControl: Writer, visitorData: Writer, providerControl: Writer, providerData: Writer)

  datatype Event =
    | VisitorOpens
    | ProviderReady
    | VisitorData(data: seq<byte>)
    | ProviderData(data: seq<byte>)
    | Closes

  function Next(wiring: Wiring, r: Relay, e: Event): Relay {
    match e
    case VisitorOpens => NewVisitor(r, wiring.visitorControl)
    case ProviderReady => Ready(r, wiring.providerControl)
    case VisitorData(data) => HandleData(r, wiring.visitorData, data)
    case ProviderData(data) => HandleData(r, wiring.providerData, data)
    case Closes => CloseRelay(r)
  }

  function Run(wiring: Wiring, events: seq<Event>): Relay {
    if events == [] then IDLE
    else Next(wiring, Run(wiring, events[..|events| - 1]), events[|events| - 1])
  }

  /** Payloads that arrived from the visitor (from the provider) while the entry was there. */
  function FromVisitor(wiring: Wiring, events: seq<Event>): seq<byte> {
    if events == [] then []
    else
      var before, e := events[..|events| - 1], events[|events| - 1];
      FromVisitor(wiring, before)
      + (if e.VisitorData? && Run(wiring, before).entry.Entry? then e.data else [])
  }

  function FromProvider(wiring: Wiring, events: seq<Event>): seq<byte> {
    if events == [] then []
    else
      var before, e := events[..|events| - 1], events[|events| - 1];
      FromProvider(wiring, before)
      + (if e.ProviderData? && Run(wiring, before).entry.Entry? then e.data else [])
  }

  /** The id is opened once (ids are fresh). */
  ghost predicate OpenedOnce(events: seq<Event>) {
    forall i, j :: 0 <= i < j < |events| && events[i].VisitorOpens? ==> !events[j].VisitorOpens?
  }

  /** Every byte of a side is written to the other side's connection or waits in the buffer:
      `visited` and `provided` are the payloads of the two sides. */
  ghost predicate Balanced(wiring: Wiring, r: Relay, visited: seq<byte>, provided: seq<byte>) {
    var toVisitor, toProvider := WrittenTo(r.log, wiring.visitorControl), WrittenTo(r.log, wiring.providerControl);
    && toVisitor == provided
    && toProvider <= visited
    && (r.entry.Entry? ==> toProvider + r.entry.visitorBuffer == visited && r.entry.providerBuffer == [])
    && r.bytesOut == TotalWritten(r.log) == |toVisitor| + |toProvider|
  }

  ghost predicate Conserves(wiring: Wiring, events: seq<Event>) {
    Balanced(wiring, Run(wiring, events), FromVisitor(wiring, events), FromProvider(wiring, events))
  }

  /** No data channels, and provider and visitor on different connections. */
  predicate TwoPlainClients(wiring: Wiring) {
    && wiring.visitorData == wiring.visitorControl
    && wiring.providerData == wiring.providerControl
    && wiring.visitorControl != wiring.providerControl
  }

  lemma PutWrites(r: Relay, to: Writer, data: seq<byte>, w: Writer)
    ensures var r' := Put(r, to, data);
            && WrittenTo(r'.log, w) == WrittenTo(r.log, w) + (if to == w then data else [])
            && TotalWritten(r'.log) == TotalWritten(r.log) + |data|
  {
    assert (r.log + [Written(to, data)])[..|r.log|] == r.log;
  }

  lemma FlushWrites(r: Relay, to: Writer, data: seq<byte>, w: Writer)
    ensures var r' := Flush(r, to, data);
            && WrittenTo(r'.log, w) == WrittenTo(r.log, w) + (if to == w then data else [])
            && TotalWritten(r'.log) == TotalWritten(r.log) + |data|
            && r'.bytesOut == r.bytesOut + |data|
  {
    if data == [] {
      assert WrittenTo(r.log, w) + [] == WrittenTo(r.log, w);
    } else {
      PutWrites(r, to, data, w);
    }
  }

  ghost predicate Linked(wiring: Wiring, e: Entry) {
    e.Entry? ==>
      && e.visitor == Some(wiring.visitorControl)
      && (e.provider.Some? ==> e.provider == Some(wiring.providerControl))
      && e.providerBuffer == []
  }

  ghost predicate RelayOk(wiring: Wiring, r: Relay, visited: seq<byte>, provided: seq<byte>) {
    Linked(wiring, r.entry) && Balanced(wiring, r, visited, provided)
  }

  lemma KeepsVisitorData(wiring: Wiring, r: Relay, visited: seq<byte>, provided: seq<byte>, data: seq<byte>)
    requires TwoPlainClients(wiring) && RelayOk(wiring, r, visited, provided) && r.entry.Entry?
    ensures RelayOk(wiring, Next(wiring, r, VisitorData(data)), visited + data, provided)
  {
    var v, p, buffered := wiring.visitorControl, wiring.providerControl, r.entry.visitorBuffer;
    var flushed := Flush(r, p, buffered);
    FlushWrites(r, p, buffered, v);
    FlushWrites(r, p, buffered, p);
    PutWrites(flushed, p, data, v);
    PutWrites(flushed, p, data, p);
    Assoc(WrittenTo(r.log, p), buffered, data);
    assert WrittenTo(r.log, v) + [] == WrittenTo(r.log, v);
    if r.entry.provider.None? {
      var r' := Next(wiring, r, VisitorData(data));
      assert r' == r.(entry := r.entry.(visitorBuffer := buffered + data), bytesIn := r.bytesIn + |data|);
    } else {
      var r' := Put(flushed, p, data).(entry := r.entry.(visitorBuffer := []));
      assert Next(wiring, r, VisitorData(data)) == r';
      assert WrittenTo(r'.log, v) == provided;
      assert WrittenTo(r'.log, p) == visited + data;
      assert WrittenTo(r'.log, p) + [] == visited + data;
    }
  }

  lemma KeepsProviderData(wiring: Wiring, r: Relay, visited: seq<byte>, provided: seq<byte>, data: seq<byte>)
    requires TwoPlainClients(wiring) && RelayOk(wiring, r, visited, provided) && r.entry.Entry?
    ensures RelayOk(wiring, Next(wiring, r, ProviderData(data)), visited, provided + data)
  {
    var v, p := wiring.visitorControl, wiring.providerControl;
    PutWrites(r, v, data, v);
    PutWrites(r, v, data, p);
    assert WrittenTo(r.log, p) + [] == WrittenTo(r.log, p);
    var r' := Put(r, v, data).(entry := r.entry.(provider := Some(p)));
    assert Flush(r, v, r.entry.providerBuffer) == r;
    assert Next(wiring, r, ProviderData(data)) == r';
    assert WrittenTo(r'.log, v) == provided + data;
    assert WrittenTo(r'.log, p) == WrittenTo(r.log, p);
  }

  lemma KeepsReady(wiring: Wiring, r: Relay, visited: seq<byte>, provided: seq<byte>)
    requires TwoPlainClients(wiring) && RelayOk(wiring, r, visited, provided) && r.entry.Entry?
    ensures RelayOk(wiring, Next(wiring, r, ProviderReady), visited, provided)
  {
    var v, p, buffered := wiring.visitorControl, wiring.providerControl, r.entry.visitorBuffer;
    FlushWrites(r, p, buffered, v);
    FlushWrites(r, p, buffered, p);
    assert WrittenTo(r.log, v) + [] == WrittenTo(r.log, v);
    var e' := r.entry.(provider := Some(p), visitorBuffer := []);
    var flushed := Flush(r, p, buffered);
    var r' := flushed.(entry := e');
    assert Next(wiring, r, ProviderReady) == r';
    assert WrittenTo(r'.log, p) + [] == visited;
  }

  /** Before the visitor opens there is nothing. */
  lemma {:induction false} IdleUntilOpened(wiring: Wiring, events: seq<Event>)
    requires forall e :: e in events ==> !e.VisitorOpens?
    ensures Run(wiring, events) == IDLE
    ensures FromVisitor(wiring, events) == [] && FromProvider(wiring, events) == []
  {
    if events != [] {
      IdleUntilOpened(wiring, events[..|events| - 1]);
    }
  }

  lemma {:induction false} RunKeeps(wiring: Wiring, events: seq<Event>)
    requires TwoPlainClients(wiring) && OpenedOnce(events)
    ensures RelayOk(wiring, Run(wiring, events), FromVisitor(wiring, events), FromProvider(wiring, events))
  {
    if events != [] {
      var before, e := events[..|events| - 1], events[|events| - 1];
      var r, visited, provided := Run(wiring, before), FromVisitor(wiring, before), FromProvider(wiring, before);
      RunKeeps(wiring, before);
      assert visited + [] == visited && provided + [] == provided;
      if r.entry.Entry? {
        match e
        case VisitorData(data) => KeepsVisitorData(wiring, r, visited, provided, data);
        case ProviderData(data) => KeepsProviderData(wiring, r, visited, provided, data);
        case ProviderReady => KeepsReady(wiring, r, visited, provided);
        case _ =>
      } else if e.VisitorOpens? {
        IdleUntilOpened(wiring, before);
      }
    }
  }

  /** A relay that is gone stays gone: its id is not opened again. */
  lemma {:induction false} StaysClosed(wiring: Wiring, events: seq<Event>, i: nat)
    requires OpenedOnce(events) && i < |events| && Run(wiring, events[..i]).entry.Entry?
    ensures !events[|events| - 1].VisitorOpens?
  {
    if events[|events| - 1].VisitorOpens? {
      IdleUntilOpened(wiring, events[..i]);
    }
  }

  /** Once the provider's READY has been handled nothing of the visitor's waits: all of it has
      been written to the provider, for as long as the relay lasts. */
  lemma {:induction false} NothingWaitsAfterReady(wiring: Wiring, events: seq<Event>, i: nat)
    requires TwoPlainClients(wiring) && OpenedOnce(events)
    requires i < |events| && events[i] == ProviderReady && Run(wiring, events[..i]).entry.Entry?
    ensures var r := Run(wiring, events);
            r.entry.Entry? ==>
              && r.entry.provider == Some(wiring.providerControl)
              && r.entry.visitorBuffer == []
              && WrittenTo(r.log, wiring.providerControl) == FromVisitor(wiring, events)
  {
    RunKeeps(wiring, events);
    var before := events[..|events| - 1];
    if i < |events| - 1 {
      assert before[..i] == events[..i];
      NothingWaitsAfterReady(wiring, before, i);
      StaysClosed(wiring, events, i);
      RunKeeps(wiring, before);
    }
  }

  lemma RunSnoc(wiring: Wiring, before: seq<Event>, e: Event)
    ensures Run(wiring, before + [e]) == Next(wiring, Run(wiring, before), e)
    ensures FromProvider(wiring, before + [e])
         == FromProvider(wiring, before) + (if e.ProviderData? && Run(wiring, before).entry.Entry? then e.data else [])
  {
    var events := before + [e];
    assert events[..|events| - 1] == before;
  }

  const OPENED: seq<Event> := [VisitorOpens]
  const LINKED: seq<Event> := OPENED + [ProviderReady]
  const SOME: seq<byte> := [7]

  /** A visitor has opened, and then the provider has said READY. */
  lemma AfterOpened(wiring: Wiring)
    ensures Run(wiring, OPENED) == IDLE.(entry := Entry(Some(wiring.visitorControl), None, [], []))
    ensures Run(wiring, LINKED) == IDLE.(entry := Entry(Some(wiring.visitorControl), Some(wiring.providerControl), [], []))
    ensures FromProvider(wiring, OPENED) == [] && FromProvider(wiring, LINKED) == []
  {
    assert OPENED == [] + [VisitorOpens];
    RunSnoc(wiring, [], VisitorOpens);
    RunSnoc(wiring, OPENED, ProviderReady);
  }

  lemma OnceOpened()
    ensures forall e: Event :: !e.VisitorOpens? ==> OpenedOnce(OPENED + [e]) && OpenedOnce(LINKED + [e])
  {
  }

  /** The visitor's data comes from its data channel: it is taken for the provider's and sent
      back to the visitor, though the provider has said nothing. */
  lemma BadVisitorData(wiring: Wiring)
    requires wiring.visitorData != wiring.visitorControl
    ensures var events := OPENED + [VisitorData(SOME)];
            && !Conserves(wiring, events)
            && WrittenTo(Run(wiring, events).log, wiring.visitorControl) == SOME
            && FromProvider(wiring, events) == []
  {
    AfterOpened(wiring);
    RunSnoc(wiring, OPENED, VisitorData(SOME));
    PutWrites(Run(wiring, OPENED), wiring.visitorControl, SOME, wiring.visitorControl);
  }

  /** One client is both sides: what it sends as the visitor is taken for the provider's and
      comes back to it as the visitor's. */
  lemma BadSameConnection(wiring: Wiring)
    requires wiring.visitorData == wiring.visitorControl == wiring.providerControl
    ensures var events := LINKED + [VisitorData(SOME)];
            && !Conserves(wiring, events)
            && Run(wiring, events).log == [Written(wiring.visitorControl, SOME)]
            && Run(wiring, LINKED).entry.Entry?
            && SideOf(Run(wiring, LINKED).entry, wiring.visitorData) == Provider
            && FromProvider(wiring, events) == []
  {
    AfterOpened(wiring);
    RunSnoc(wiring, LINKED, VisitorData(SOME));
    PutWrites(Run(wiring, LINKED), wiring.visitorControl, SOME, wiring.visitorControl);
  }

  /** The provider's data comes from its data channel: it goes back to the provider, and the
      visitor gets nothing. */
  lemma BadProviderData(wiring: Wiring)
    requires wiring.visitorControl != wiring.providerControl && wiring.providerData != wiring.providerControl
    ensures var events := LINKED + [ProviderData(SOME)];
            && !Conserves(wiring, events)
            && FromProvider(wiring, events) == SOME
            && WrittenTo(Run(wiring, events).log, wiring.visitorControl) == []
            && WrittenTo(Run(wiring, events).log, wiring.providerControl) == SOME
  {
    var linked, d, v, p := Run(wiring, LINKED), wiring.providerData, wiring.visitorControl, wiring.providerControl;
    AfterOpened(wiring);
    RunSnoc(wiring, LINKED, ProviderData(SOME));
    assert HandleData(linked, d, SOME) == Put(linked, p, SOME);
    PutWrites(linked, p, SOME, v);
    PutWrites(linked, p, SOME, p);
  }

  lemma RunConserves(wiring: Wiring, events: seq<Event>)
    requires TwoPlainClients(wiring) && OpenedOnce(events)
    ensures Conserves(wiring, events)
  {
    RunKeeps(wiring, events);
  }

  /** The relay conserves both byte streams in every run exactly when no data channel is used
      and the two sides are different control connections; READY may come late or never. */
  lemma ConservesIff(wiring: Wiring)
    ensures (forall events :: OpenedOnce(events) ==> Conserves(wiring, events)) <==> TwoPlainClients(wiring)
  {
    OnceOpened();
    hide Conserves, OpenedOnce, Run;
    if TwoPlainClients(wiring) {
      forall events | OpenedOnce(events)
        ensures Conserves(wiring, events)
      {
        RunConserves(wiring, events);
      }
    } else if wiring.visitorData != wiring.visitorControl {
      BadVisitorData(wiring);
      assert OpenedOnce(OPENED + [VisitorData(SOME)]);
    } else if wiring.visitorControl == wiring.providerControl {
      BadSameConnection(wiring);
      assert OpenedOnce(LINKED + [VisitorData(SOME)]);
    } else {
      BadProviderData(wiring);
      assert OpenedOnce(LINKED + [ProviderData(SOME)]);
    }
  }

  // ----- from opening to close -----

  /** What the visitor, and what the provider, sends in these events. */
  function VisitorSent(events: seq<Event>): seq<byte> {
    if events == [] then []
    else
      var e := events[|events| - 1];
      VisitorSent(events[..|events| - 1]) + (if e.VisitorData? then e.data else [])
  }

  function ProviderSent(events: seq<Event>): seq<byte> {
    if events == [] then []
    else
      var e := events[|events| - 1];
      ProviderSent(events[..|events| - 1]) + (if e.ProviderData? then e.data else [])
  }

  ghost predicate NoOpening(events: seq<Event>) {
    VisitorOpens !in events
  }

  /** Life of the relay up to now: opened once, not closed. */
  ghost predicate Live(quiet: seq<Event>, live: seq<Event>) {
    NoOpening(quiet) && NoOpening(live) && Closes !in live
  }

  lemma VisitorSnoc(wiring: Wiring, before: seq<Event>, e: Event)
    ensures FromVisitor(wiring, before + [e])
         == FromVisitor(wiring, before) + (if e.VisitorData? && Run(wiring, before).entry.Entry? then e.data else [])
  {
    assert (before + [e])[..|before|] == before;
  }

  lemma EntryStays(wiring: Wiring, r: Relay, e: Event)
    requires r.entry.Entry? && !e.Closes?
    ensures Next(wiring, r, e).entry.Entry?
  {
  }

  /** From its opening on the relay is there, and all that either side sends counts. */
  lemma {:induction false} AllCounts(wiring: Wiring, quiet: seq<Event>, live: seq<Event>)
    requires Live(quiet, live)
    ensures var events := quiet + [VisitorOpens] + live;
            && Run(wiring, events).entry.Entry?
            && FromVisitor(wiring, events) == VisitorSent(live) && FromProvider(wiring, events) == ProviderSent(live)
  {
    var start := quiet + [VisitorOpens];
    if live == [] {
      assert start + live == start;
      IdleUntilOpened(wiring, quiet);
      RunSnoc(wiring, quiet, VisitorOpens);
      VisitorSnoc(wiring, quiet, VisitorOpens);
    } else {
      var before, e := live[..|live| - 1], live[|live| - 1];
      SplitLast(live);
      AllCounts(wiring, quiet, before);
      assert start + live == start + before + [e];
      RunSnoc(wiring, start + before, e);
      VisitorSnoc(wiring, start + before, e);
      EntryStays(wiring, Run(wiring, start + before), e);
    }
  }

  lemma ClosedStep(wiring: Wiring, r: Relay, e: Event)
    requires r.entry.Absent? && !e.VisitorOpens?
    ensures Next(wiring, r, e) == r
  {
  }

  /** After its close nothing is written and nothing counts, whatever still arrives. */
  lemma {:induction false} NothingAfterClose(wiring: Wiring, events: seq<Event>, rest: seq<Event>)
    requires NoOpening(rest)
    ensures var all := events + [Closes] + rest;
            && Run(wiring, all) == Run(wiring, events).(entry := Absent)
            && FromVisitor(wiring, all) == FromVisitor(wiring, events)
            && FromProvider(wiring, all) == FromProvider(wiring, events)
  {
    var closed := events + [Closes];
    if rest == [] {
      assert closed + rest == closed;
      RunSnoc(wiring, events, Closes);
      VisitorSnoc(wiring, events, Closes);
    } else {
      var before, e := rest[..|rest| - 1], rest[|rest| - 1];
      SplitLast(rest);
      NothingAfterClose(wiring, events, before);
      assert closed + rest == closed + before + [e];
      RunSnoc(wiring, closed + before, e);
      VisitorSnoc(wiring, closed + before, e);
      ClosedStep(wiring, Run(wiring, closed + before), e);
    }
  }

  ghost predicate FromProviderSide(e: Event) {
    e.ProviderReady? || e.ProviderData?
  }

  /** The relay of a visitor whose provider has not been heard of. */
  function Waiting(wiring: Wiring, sent: seq<byte>): Relay {
    Relay(Entry(Some(wiring.visitorControl), None, sent, []), [], 0, |sent|)
  }

  lemma WaitsMore(wiring: Wiring, sent: seq<byte>, e: Event)
    requires TwoPlainClients(wiring) && !e.VisitorOpens? && !e.Closes? && !FromProviderSide(e)
    ensures Next(wiring, Waiting(wiring, sent), e) == Waiting(wiring, sent + (if e.VisitorData? then e.data else []))
  {
    assert sent + [] == sent;
  }

  /** Until the provider is heard of, all that the visitor sends waits and is counted as in. */
  lemma {:induction false} WaitsAtFirst(wiring: Wiring, quiet: seq<Event>, early: seq<Event>)
    requires TwoPlainClients(wiring) && Live(quiet, early) && forall e :: e in early ==> !FromProviderSide(e)
    ensures Run(wiring, quiet + [VisitorOpens] + early) == Waiting(wiring, VisitorSent(early))
  {
    var start := quiet + [VisitorOpens];
    if early == [] {
      assert start + early == start;
      IdleUntilOpened(wiring, quiet);
      RunSnoc(wiring, quiet, VisitorOpens);
    } else {
      var before, e := early[..|early| - 1], early[|early| - 1];
      SplitLast(early);
      WaitsAtFirst(wiring, quiet, before);
      assert start + early == start + before + [e];
      RunSnoc(wiring, start + before, e);
      assert VisitorSent(early) == VisitorSent(before) + (if e.VisitorData? then e.data else []);
      hide Run, Next, Waiting, VisitorSent;
      WaitsMore(wiring, VisitorSent(before), e);
    }
  }

  ghost predicate BothKnown(r: Relay) {
    r.entry.Entry? && r.entry.visitor.Some? && r.entry.provider.Some?
  }

  lemma BytesInFixed(wiring: Wiring, r: Relay, e: Event)
    requires BothKnown(r) && !e.Closes?
    ensures BothKnown(Next(wiring, r, e)) && Next(wiring, r, e).bytesIn == r.bytesIn
  {
  }

  /** The bytes counted as in are those that the visitor sent before the provider was heard of. */
  lemma {:induction false} CountedIn(wiring: Wiring, quiet: seq<Event>, early: seq<Event>, first: Event, late: seq<Event>)
    requires TwoPlainClients(wiring) && Live(quiet, early + [first] + late)
    requires FromProviderSide(first) && forall e :: e in early ==> !FromProviderSide(e)
    ensures var r := Run(wiring, quiet + [VisitorOpens] + early + [first] + late);
            BothKnown(r) && r.bytesIn == |VisitorSent(early)|
  {
    var sofar := quiet + [VisitorOpens] + early;
    assert forall e :: e in early + [first] + late <==> e in early || e == first || e in late;
    if late == [] {
      WaitsAtFirst(wiring, quiet, early);
      RunSnoc(wiring, sofar, first);
      hide Run, Live, VisitorSent;
      assert sofar + [first] + late == sofar + [first];
    } else {
      var before, e := late[..|late| - 1], late[|late| - 1];
      SplitLast(late);
      assert forall x :: x in early + [first] + before ==> x in early + [first] + late;
      CountedIn(wiring, quiet, early, first, before);
      assert sofar + [first] + late == sofar + [first] + before + [e];
      RunSnoc(wiring, sofar + [first] + before, e);
      hide Run, Next, Live;
      BytesInFixed(wiring, Run(wiring, sofar + [first] + before), e);
    }
  }

  lemma OneOpening(quiet: seq<Event>, live: seq<Event>)
    requires NoOpening(quiet) && NoOpening(live)
    ensures OpenedOnce(quiet + [VisitorOpens] + live)
  {
  }

  /** The whole life of a relay between two plain clients, told from what was sent while it lasted:
      the visitor got all that the provider sent, the provider a prefix of what the visitor sent,
      and all of it if it said READY; nothing that comes later changes that. */
  lemma WholeLife(wiring: Wiring, quiet: seq<Event>, live: seq<Event>, rest: seq<Event>)
    requires TwoPlainClients(wiring) && Live(quiet, live) && NoOpening(rest)
    ensures var r := Run(wiring, quiet + [VisitorOpens] + live + [Closes] + rest);
            && r.entry.Absent?
            && WrittenTo(r.log, wiring.visitorControl) == ProviderSent(live)
            && WrittenTo(r.log, wiring.providerControl) <= VisitorSent(live)
            && (ProviderReady in live ==> WrittenTo(r.log, wiring.providerControl) == VisitorSent(live))
  {
    var events := quiet + [VisitorOpens] + live;
    AllCounts(wiring, quiet, live);
    NothingAfterClose(wiring, events, rest);
    OneOpening(quiet, live);
    RunKeeps(wiring, events);
    if ProviderReady in live {
      ReadyGetsAll(wiring, quiet, live);
    }
    hide Run, Next, FromVisitor, FromProvider, VisitorSent, ProviderSent, OpenedOnce, WrittenTo, Live;
  }

  lemma ReadyGetsAll(wiring: Wiring, quiet: seq<Event>, live: seq<Event>)
    requires TwoPlainClients(wiring) && Live(quiet, live) && ProviderReady in live
    ensures WrittenTo(Run(wiring, quiet + [VisitorOpens] + live).log, wiring.providerControl) == VisitorSent(live)
  {
    hide Run, Next, FromVisitor, FromProvider, VisitorSent, ProviderSent, OpenedOnce, WrittenTo;
    var start := quiet + [VisitorOpens];
    var events := start + live;
    var i :| 0 <= i < |live| && live[i] == ProviderReady;
    var n := |start| + i;
    assert events[..n] == start + live[..i] && events[n] == ProviderReady;
    OneOpening(quiet, live);
    AllCounts(wiring, quiet, live);
    AllCounts(wiring, quiet, live[..i]);
    hide Live;
    NothingWaitsAfterReady(wiring, events, n);
  }

  // ----- the handlers -----

  class StcpServer {
    var entry: Entry
    var log: seq<Written>
    var bytesOut: nat
    var bytesIn: nat

    ghost function View(): Relay
      reads this
    {
      Relay(entry, log, bytesOut, bytesIn)
    }

    constructor ()
      ensures View() == IDLE
    {
      entry, log, bytesOut, bytesIn := Absent, [], 0, 0;
    }

    method Write(to: Writer, data: seq<byte>)
      modifies this
      ensures View() == Put(old(View()), to, data)
    {
      log := log + [Written(to, data)];
      bytesOut := bytesOut + |data|;
    }

    method HandleNewVisitor(w: Writer)
      modifies this
      ensures View() == NewVisitor(old(View()), w)
    {
      if entry.Absent? {
        entry := Entry(Some(w), None, [], []);
      }
    }

    method HandleVisitorReady(w: Writer)
      modifies this
      ensures View() == Ready(old(View()), w)
    {
      if entry.Absent? {
        return;
      }
      entry := entry.(provider := Some(w));
      var buffered := entry.visitorBuffer;
      if buffered != [] {
        Write(w, buffered);
        entry := entry.(visitorBuffer := []);
      }
    }

    method HandleDataFrom(w: Writer, data: seq<byte>)
      modifies this
      ensures View() == HandleData(old(View()), w, data)
    {
      if entry.Absent? {
        return;
      }
      var isProvider, isVisitor := false, false;
      if entry.provider == Some(w) {
        isProvider := true;
      } else if entry.visitor == Some(w) {
        isVisitor := true;
      } else if entry.provider.None? {
        entry := entry.(provider := Some(w));
        isProvider := true;
      } else if entry.visitor.None? {
        entry := entry.(visitor := Some(w));
        isVisitor := true;
      }
      var other := if isProvider then entry.visitor else entry.provider;
      if other.Some? {
        var buffered := if isProvider then entry.providerBuffer else entry.visitorBuffer;
        if buffered != [] {
          Write(other.value, buffered);
          entry := if isProvider then entry.(providerBuffer := []) else entry.(visitorBuffer := []);
        }
        Write(other.value, data);
      } else {
        entry := if isVisitor then entry.(visitorBuffer := entry.visitorBuffer + data)
                 else entry.(providerBuffer := entry.providerBuffer + data);
        bytesIn := bytesIn + |data|;
      }
    }

    method CloseStcpConn()
      modifies this
      ensures View() == CloseRelay(old(View()))
    {
      entry := Absent;
    }
  }
}
