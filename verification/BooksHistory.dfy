/** Who is logged in and what is registered, told from the events of a run. */
module BooksHistory {
  import opened Bytes
  import opened Stats
  import opened Cleanup

  /** A registration that is accepted: the name is not empty and in none of the proxies, HTTP proxies
      and providers, nor in its own registry; the other checks passed; the session is the
      connection's own. */
  ghost predicate Enters(world: World, e: Event, kind: Kind, name: string, o: Owner) {
    var b := world.books;
    && e == Registers(kind, name, o.writer, o.session, true)
    && name != "" && name !in b.proxies && name !in b.http && name !in b.providers
    && (kind == Visitor ==> name !in b.visitors)
    && OwnSession(world, o.writer, o.session)
  }

  /** The connection ends. */
  ghost predicate Ends(world: World, e: Event, w: Writer) {
    e.Disconnects? && e.w == w && OwnSession(world, w, e.session)
  }

  ghost predicate HasEntry(world: World, kind: Kind, name: string, o: Owner) {
    name in EntryOf(world.books, kind) && EntryOf(world.books, kind)[name] == o
  }

  lemma EntryAfterRegister(world: World, e: Event, kind: Kind, name: string, o: Owner)
    requires Inv(world) && e.Registers?
    ensures HasEntry(Next(world, e), kind, name, o) <==> Enters(world, e, kind, name, o) || HasEntry(world, kind, name, o)
  {
    hide Inv, OwnSession;
  }

  lemma EntryAfterEnd(world: World, e: Event, kind: Kind, name: string, o: Owner)
    requires Inv(world) && e.Disconnects?
    ensures HasEntry(Next(world, e), kind, name, o) <==> HasEntry(world, kind, name, o) && !Ends(world, e, o.writer)
  {
    if OwnSession(world, e.w, e.session) {
      assert EntryOf(Next(world, e).books, kind) == OfOthers(EntryOf(world.books, kind), e.w) by {
        KindDisconnects(world, e.w, e.session, kind);
      }
    }
    hide Next, Inv, OwnSession;
  }

  lemma EntryAfter(world: World, e: Event, kind: Kind, name: string, o: Owner)
    requires Inv(world)
    ensures HasEntry(Next(world, e), kind, name, o)
        <==> Enters(world, e, kind, name, o) || (HasEntry(world, kind, name, o) && !Ends(world, e, o.writer))
  {
    match e
    case Registers(_, _, _, _, _) => EntryAfterRegister(world, e, kind, name, o);
    case Disconnects(_, _) => EntryAfterEnd(world, e, kind, name, o);
    case LogsIn(_, _) =>
  }

  lemma RunSnoc(before: seq<Event>, e: Event)
    ensures Run(before + [e]) == Next(Run(before), e)
  {
    assert (before + [e])[..|before|] == before;
  }

  /** Event k makes the entry, and the connection that made it has not ended since. */
  ghost predicate EntrySince(events: seq<Event>, k: nat, kind: Kind, name: string, o: Owner)
    requires k < |events|
  {
    && Enters(Run(events[..k]), events[k], kind, name, o)
    && forall j :: k < j < |events| ==> !Ends(Run(events[..j]), events[j], o.writer)
  }

  ghost predicate Registered(events: seq<Event>, kind: Kind, name: string, o: Owner) {
    exists k :: 0 <= k < |events| && EntrySince(events, k, kind, name, o)
  }

  lemma EntrySinceSnoc(before: seq<Event>, e: Event, k: nat, kind: Kind, name: string, o: Owner)
    requires k <= |before|
    ensures var world := Run(before);
            EntrySince(before + [e], k, kind, name, o) <==>
              if k == |before| then Enters(world, e, kind, name, o)
              else EntrySince(before, k, kind, name, o) && !Ends(world, e, o.writer)
  {
    hide Run, Enters, Ends;
    var events := before + [e];
    assert forall j :: 0 <= j <= |before| ==> events[..j] == before[..j];
    assert events[..|before|] == before;
  }

  lemma RegisteredSnoc(before: seq<Event>, e: Event, kind: Kind, name: string, o: Owner)
    ensures var world := Run(before);
            Registered(before + [e], kind, name, o)
            <==> Enters(world, e, kind, name, o) || (Registered(before, kind, name, o) && !Ends(world, e, o.writer))
  {
    hide Run, Enters, Ends, EntrySince;
    var world, events := Run(before), before + [e];
    EntrySinceSnoc(before, e, |before|, kind, name, o);
    assert Enters(world, e, kind, name, o) ==> EntrySince(events, |before|, kind, name, o);
    if Registered(before, kind, name, o) && !Ends(world, e, o.writer) {
      var k :| 0 <= k < |before| && EntrySince(before, k, kind, name, o);
      EntrySinceSnoc(before, e, k, kind, name, o);
      assert EntrySince(events, k, kind, name, o);
    }
    if Registered(events, kind, name, o) {
      var k :| 0 <= k < |events| && EntrySince(events, k, kind, name, o);
      EntrySinceSnoc(before, e, k, kind, name, o);
    }
  }

  /** In every run a registry holds exactly the entries accepted from connections that have not
      ended since. */
  lemma {:induction false} RegistryIff(events: seq<Event>, kind: Kind, name: string, o: Owner)
    ensures HasEntry(Run(events), kind, name, o) <==> Registered(events, kind, name, o)
  {
    if events == [] {
      assert !Registered(events, kind, name, o);
    } else {
      var before, e := events[..|events| - 1], events[|events| - 1];
      RegistryIff(before, kind, name, o);
      RunInv(before);
      EntryAfter(Run(before), e, kind, name, o);
      RunSnoc(before, e);
      RegisteredSnoc(before, e, kind, name, o);
      SplitLast(events);
      hide Run, Next, Inv, HasEntry, Registered, Enters, Ends;
    }
  }

  // ----- sessions -----

  /** Event k is the first log-in under that id. */
  ghost predicate Opens(events: seq<Event>, k: nat, w: Writer, id: Id)
    requires k < |events|
  {
    events[k] == LogsIn(w, id) && forall j :: 0 <= j < k ==> !(events[j].LogsIn? && events[j].id == id)
  }

  ghost predicate OpenedBy(events: seq<Event>, w: Writer, id: Id) {
    exists k :: 0 <= k < |events| && Opens(events, k, w, id)
  }

  ghost predicate Names(events: seq<Event>, id: Id) {
    exists k :: 0 <= k < |events| && events[k].LogsIn? && events[k].id == id
  }

  lemma OpensSnoc(before: seq<Event>, e: Event, w: Writer, id: Id)
    ensures Names(before + [e], id) <==> Names(before, id) || (e.LogsIn? && e.id == id)
    ensures OpenedBy(before + [e], w, id) <==> OpenedBy(before, w, id) || (!Names(before, id) && e == LogsIn(w, id))
  {
    var events := before + [e];
    assert forall j :: 0 <= j < |before| ==> events[j] == before[j];
    forall k | 0 <= k < |before|
      ensures Opens(events, k, w, id) <==> Opens(before, k, w, id)
    {
    }
    assert Opens(events, |before|, w, id) <==> e == LogsIn(w, id) && !Names(before, id);
    if OpenedBy(before, w, id) {
      var k :| 0 <= k < |before| && Opens(before, k, w, id);
      assert Opens(events, k, w, id);
    }
    if e.LogsIn? && e.id == id {
      assert events[|before|].LogsIn? && events[|before|].id == id;
    }
    if Names(before, id) {
      var k :| 0 <= k < |before| && before[k].LogsIn? && before[k].id == id;
      assert events[k].LogsIn? && events[k].id == id;
    }
  }

  /** A session belongs to the connection that logged in first under its id. */
  lemma {:induction false} OpenedByIff(events: seq<Event>, w: Writer, id: Id)
    ensures id in Run(events).openedBy <==> Names(events, id)
    ensures (id in Run(events).openedBy && Run(events).openedBy[id] == w) <==> OpenedBy(events, w, id)
  {
    if events == [] {
      assert !OpenedBy(events, w, id);
    } else {
      var before, e := events[..|events| - 1], events[|events| - 1];
      OpenedByIff(before, w, id);
      RunSnoc(before, e);
      OpensSnoc(before, e, w, id);
      SplitLast(events);
      hide Run, OpenedBy, Names;
    }
  }

  /** A connection leaves with its session. */
  ghost predicate LeavesWith(events: seq<Event>, w: Writer, id: Id) {
    exists j, k :: 0 <= j < k < |events| && events[j] == LogsIn(w, id) && events[k] == Disconnects(w, Some(id))
  }

  lemma LeavesSnoc(before: seq<Event>, e: Event, w: Writer, id: Id)
    ensures LeavesWith(before + [e], w, id) <==> LeavesWith(before, w, id) || (LogsIn(w, id) in before && e == Disconnects(w, Some(id)))
  {
    var events := before + [e];
    assert forall j :: 0 <= j < |before| ==> events[j] == before[j];
    if LogsIn(w, id) in before && e == Disconnects(w, Some(id)) {
      var j :| 0 <= j < |before| && before[j] == LogsIn(w, id);
      assert events[j] == LogsIn(w, id) && events[|before|] == Disconnects(w, Some(id));
    }
    if LeavesWith(before, w, id) {
      var j, k :| 0 <= j < k < |before| && before[j] == LogsIn(w, id) && before[k] == Disconnects(w, Some(id));
      assert events[j] == LogsIn(w, id) && events[k] == Disconnects(w, Some(id));
    }
  }

  lemma SessionAfter(world: World, e: Event, id: Id)
    ensures id in Next(world, e).books.sessions <==>
              || (e.LogsIn? && e.id == id && id !in world.openedBy)
              || (id in world.books.sessions
                  && !(e.Disconnects? && e.session == Some(id) && id in world.openedBy && world.openedBy[id] == e.w))
  {
  }

  /** A session is live from its log-in until the connection that opened it leaves with it. */
  lemma {:induction false} SessionIff(events: seq<Event>, w: Writer, id: Id)
    requires OpenedBy(events, w, id)
    ensures id in Run(events).books.sessions <==> !LeavesWith(events, w, id)
  {
    var before, e := events[..|events| - 1], events[|events| - 1];
    RunSnoc(before, e);
    SplitLast(events);
    OpensSnoc(before, e, w, id);
    OpenedByIff(before, w, id);
    LeavesSnoc(before, e, w, id);
    SessionAfter(Run(before), e, id);
    if OpenedBy(before, w, id) {
      SessionIff(before, w, id);
      assert LogsIn(w, id) in before;
    } else {
      NamedIf(before, w, id);
    }
  }

  lemma NamedIf(events: seq<Event>, w: Writer, id: Id)
    ensures LogsIn(w, id) in events || LeavesWith(events, w, id) ==> Names(events, id)
  {
    if LogsIn(w, id) in events {
      var k :| 0 <= k < |events| && events[k] == LogsIn(w, id);
      assert events[k].LogsIn? && events[k].id == id;
    }
  }
}
