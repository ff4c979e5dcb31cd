/** Remote commands of one session: pending ids, stored results, and the waiters between. */
module RemoteCommands {

  type Id = string

  /** The payload of a REMOTE_CMD_RESP. */
  type Result = map<string, string>

  datatype Outcome = Answer(result: Result) | Timeout | SendFailed | NoResponse

  /** `waiters`: calls of send_remote_cmd that have not returned, and whether their event is set. */
  datatype State = State(pending: set<Id>, results: map<Id, Result>, waiters: map<Id, bool>, outcomes: map<Id, Outcome>)

  const QUIET := State({}, map[], map[], map[])

  datatype Event =
    | Sends(id: Id)
    | WriteFails(id: Id)
    | Replies(payload: Result)
    | Wakes(id: Id)
    | TimesOut(id: Id)   // also after the event was set but before the waiter ran

  /** A command id is a fresh UUID: nobody has used or mentioned it. */
  predicate Unseen(s: State, id: Id) {
    id != "" && id !in s.waiters && id !in s.outcomes && id !in s.results
  }

  function Send(s: State, id: Id): State {
    if !Unseen(s, id) then s
    else s.(pending := s.pending + {id}, waiters := s.waiters[id := false])
  }

  function Return(s: State, id: Id, o: Outcome): State {
    s.(waiters := s.waiters - {id}, outcomes := s.outcomes[id := o])
  }

  function FailWrite(s: State, id: Id): State {
    if id !in s.waiters then s else Return(s.(pending := s.pending - {id}), id, SendFailed)
  }

  /** `handle_remote_cmd_resp`: the result is stored whether or not anyone waits. */
  function Reply(s: State, payload: Result): State {
    if "cmd_id" !in payload || payload["cmd_id"] == "" then s
    else
      var id := payload["cmd_id"];
      var stored := s.(results := s.results[id := payload]);
      if id !in s.pending then stored
      else stored.(pending := s.pending - {id}, waiters := if id in s.waiters then s.waiters[id := true] else s.waiters)
  }

  /** The waiter goes on: an empty or missing result counts as no response. */
  function Wake(s: State, id: Id): State {
    if id !in s.waiters || !s.waiters[id] then s
    else
      var o := if id in s.results && s.results[id] != map[] then Answer(s.results[id]) else NoResponse;
      Return(s.(results := s.results - {id}), id, o)
  }

  function TimeOut(s: State, id: Id): State {
    if id !in s.waiters then s
    else Return(s.(pending := s.pending - {id}, results := s.results - {id}), id, Timeout)
  }

  function Next(s: State, e: Event): State {
    match e
    case Sends(id) => Send(s, id)
    case WriteFails(id) => FailWrite(s, id)
    case Replies(payload) => Reply(s, payload)
    case Wakes(id) => Wake(s, id)
    case TimesOut(id) => TimeOut(s, id)
  }

  function Run(events: seq<Event>): State {
    if events == [] then QUIET
    else Next(Run(events[..|events| - 1]), events[|events| - 1])
  }

  ghost predicate Carries(r: Result, id: Id) {
    "cmd_id" in r && r["cmd_id"] == id
  }

  ghost predicate OutcomeOk(o: Outcome, id: Id) {
    !o.NoResponse? && (o.Answer? ==> Carries(o.result, id))
  }

  ghost predicate Inv(s: State) {
    && (forall id :: id in s.pending ==> id !in s.results)
    && (forall id :: id in s.pending <==> id in s.waiters && !s.waiters[id])
    && (forall id :: id in s.waiters && s.waiters[id] ==> id in s.results)
    && (forall id :: id in s.results ==> Carries(s.results[id], id))
    && (forall id :: id in s.outcomes ==> OutcomeOk(s.outcomes[id], id) && id !in s.waiters)
  }

  lemma KeepsInv(s: State, e: Event)
    requires Inv(s)
    ensures Inv(Next(s, e))
  {
  }

  lemma {:induction false} RunInv(events: seq<Event>)
    ensures Inv(Run(events))
  {
    if events != [] {
      RunInv(events[..|events| - 1]);
      KeepsInv(Run(events[..|events| - 1]), events[|events| - 1]);
    }
  }

  /** In every interleaving pending ids and stored results are disjoint. */
  lemma PendingAndResultsDisjoint(events: seq<Event>)
    ensures Run(events).pending !! Run(events).results.Keys
  {
    RunInv(events);
  }

  /** A call that was woken returns a result that is not empty and carries its own id, and no
      call ever returns "No response". */
  lemma AnswersCorrelate(events: seq<Event>, id: Id)
    requires id in Run(events).outcomes
    ensures var o := Run(events).outcomes[id];
            && !o.NoResponse?
            && (o.Answer? ==> o.result != map[] && "cmd_id" in o.result && o.result["cmd_id"] == id)
  {
    RunInv(events);
  }

  /** A woken waiter has its answer at hand, whatever duplicates and timeouts came between. */
  lemma WokenHasAnswer(events: seq<Event>, id: Id)
    requires id in Run(events).waiters && Run(events).waiters[id]
    ensures var s := Run(events); id in s.results && Wake(s, id).outcomes[id] == Answer(s.results[id])
  {
    RunInv(events);
  }

  /** Whatever is stored or answered came in as a reply, unchanged. */
  lemma {:induction false} OnlyRepliesAreAnswers(events: seq<Event>, id: Id)
    ensures var s := Run(events);
            && (id in s.results ==> Replies(s.results[id]) in events)
            && (id in s.outcomes && s.outcomes[id].Answer? ==> Replies(s.outcomes[id].result) in events)
  {
    if events != [] {
      var before, e := events[..|events| - 1], events[|events| - 1];
      OnlyRepliesAreAnswers(before, id);
      assert forall x :: x in before ==> x in events;
      assert e in events;
    }
  }

  ghost predicate Woken(s: State, id: Id, payload: Result) {
    id in s.waiters && s.waiters[id] && id in s.results && s.results[id] == payload && id !in s.pending
  }

  lemma StaysWokenStep(s: State, e: Event, id: Id, payload: Result)
    requires Inv(s) && Woken(s, id, payload)
    requires e != TimesOut(id) && e != WriteFails(id) && e != Wakes(id)
    requires e.Replies? ==> !Carries(e.payload, id)
    ensures Woken(Next(s, e), id, payload)
  {
  }

  lemma {:induction false} StaysWoken(events: seq<Event>, payload: Result, others: seq<Event>, id: Id)
    requires id in Run(events).pending && id != "" && Carries(payload, id)
    requires forall e :: e in others ==> e != TimesOut(id) && e != WriteFails(id) && e != Wakes(id)
    requires forall e :: e in others && e.Replies? ==> !Carries(e.payload, id)
    ensures Woken(Run(events + [Replies(payload)] + others), id, payload)
  {
    var sofar := events + [Replies(payload)] + others;
    RunInv(events);
    if others == [] {
      assert sofar == events + [Replies(payload)] && sofar[..|sofar| - 1] == events;
    } else {
      var before, e := others[..|others| - 1], others[|others| - 1];
      assert e in others && forall x :: x in before ==> x in others;
      assert sofar[..|sofar| - 1] == events + [Replies(payload)] + before && sofar[|sofar| - 1] == e;
      StaysWoken(events, payload, before, id);
      RunInv(events + [Replies(payload)] + before);
      StaysWokenStep(Run(events + [Replies(payload)] + before), e, id, payload);
    }
  }

  /** A reply to a call still waiting is what the call returns, unless a later reply with the
      same id, a timeout or a failed write comes before the waiter runs. */
  lemma ReplyReachesItsCaller(events: seq<Event>, payload: Result, others: seq<Event>, id: Id)
    requires id in Run(events).pending && id != "" && Carries(payload, id)
    requires forall e :: e in others ==> e != TimesOut(id) && e != WriteFails(id) && e != Wakes(id)
    requires forall e :: e in others && e.Replies? ==> !Carries(e.payload, id)
    ensures var all := events + [Replies(payload)] + others + [Wakes(id)];
            id in Run(all).outcomes && Run(all).outcomes[id] == Answer(payload)
  {
    var sofar := events + [Replies(payload)] + others;
    assert (sofar + [Wakes(id)])[..|sofar|] == sofar;
    StaysWoken(events, payload, others, id);
  }

  // ----- from the send to the return -----

  /** The event is about that command. */
  predicate Names(e: Event, id: Id) {
    if e.Replies? then "cmd_id" in e.payload && e.payload["cmd_id"] == id else e.id == id
  }

  /** Nothing but a second send names the command. */
  ghost predicate Quiet(events: seq<Event>, id: Id) {
    forall e :: e in events && Names(e, id) ==> e.Sends?
  }

  /** A fresh id: no event has named it. */
  ghost predicate Fresh(events: seq<Event>, id: Id) {
    id != "" && forall e :: e in events ==> !Names(e, id)
  }

  lemma {:induction false} FreshUnseen(events: seq<Event>, id: Id)
    requires Fresh(events, id)
    ensures Unseen(Run(events), id)
  {
    if events != [] {
      var before, e := events[..|events| - 1], events[|events| - 1];
      assert e in events && forall x :: x in before ==> x in events;
      FreshUnseen(before, id);
    }
  }

  lemma RunSnoc(events: seq<Event>, e: Event)
    ensures Run(events + [e]) == Next(Run(events), e)
  {
    assert (events + [e])[..|events|] == events;
  }

  /** The call waits: registered, not answered. */
  ghost predicate Waits(s: State, id: Id) {
    id in s.pending && id in s.waiters && !s.waiters[id] && id !in s.results && id !in s.outcomes
  }

  lemma StaysWaitingStep(s: State, e: Event, id: Id)
    requires Waits(s, id) && (Names(e, id) ==> e.Sends?)
    ensures Waits(Next(s, e), id)
  {
  }

  lemma {:induction false} StaysWaiting(events: seq<Event>, quiet: seq<Event>, id: Id)
    requires Fresh(events, id) && Quiet(quiet, id)
    ensures Waits(Run(events + [Sends(id)] + quiet), id)
  {
    var sofar := events + [Sends(id)] + quiet;
    if quiet == [] {
      FreshUnseen(events, id);
      assert sofar == events + [Sends(id)];
      RunSnoc(events, Sends(id));
    } else {
      var before, e := quiet[..|quiet| - 1], quiet[|quiet| - 1];
      assert e in quiet && forall x :: x in before ==> x in quiet;
      StaysWaiting(events, before, id);
      assert sofar == events + [Sends(id)] + before + [e];
      RunSnoc(events + [Sends(id)] + before, e);
      StaysWaitingStep(Run(events + [Sends(id)] + before), e, id);
    }
  }

  lemma OutcomeStays(s: State, e: Event, id: Id)
    requires Inv(s) && id in s.outcomes
    ensures id in Next(s, e).outcomes && Next(s, e).outcomes[id] == s.outcomes[id]
  {
  }

  /** Every call returns once: what it returned is never replaced. */
  lemma {:induction false} OutcomeIsFinal(events: seq<Event>, more: seq<Event>, id: Id)
    requires id in Run(events).outcomes
    ensures id in Run(events + more).outcomes && Run(events + more).outcomes[id] == Run(events).outcomes[id]
  {
    if more == [] {
      assert events + more == events;
    } else {
      var before, e := more[..|more| - 1], more[|more| - 1];
      OutcomeIsFinal(events, before, id);
      RunInv(events + before);
      assert events + more == events + before + [e];
      RunSnoc(events + before, e);
      OutcomeStays(Run(events + before), e, id);
    }
  }

  ghost predicate Returned(events: seq<Event>, id: Id, o: Outcome) {
    id in Run(events).outcomes && Run(events).outcomes[id] == o
  }

  /** A command sent under a fresh id, answered before it timed out, returns that answer, and the
      session keeps nothing of it. */
  lemma SentAndAnswered(events: seq<Event>, id: Id, quiet: seq<Event>, payload: Result, others: seq<Event>, more: seq<Event>)
    requires Fresh(events, id) && Quiet(quiet, id) && Quiet(others, id)
    requires "cmd_id" in payload && payload["cmd_id"] == id
    ensures var all := events + [Sends(id)] + quiet + [Replies(payload)] + others + [Wakes(id)];
            && Returned(all + more, id, Answer(payload))
            && id !in Run(all).pending && id !in Run(all).results
  {
    var sent := events + [Sends(id)] + quiet;
    var sofar := sent + [Replies(payload)] + others;
    StaysWaiting(events, quiet, id);
    ReplyReachesItsCaller(sent, payload, others, id);
    OutcomeIsFinal(sofar + [Wakes(id)], more, id);
    StaysWoken(sent, payload, others, id);
    RunSnoc(sofar, Wakes(id));
  }

  /** A command whose message could not be written returns that, and is pending no more. */
  lemma SentAndFailed(events: seq<Event>, id: Id, quiet: seq<Event>, more: seq<Event>)
    requires Fresh(events, id) && Quiet(quiet, id)
    ensures var all := events + [Sends(id)] + quiet + [WriteFails(id)];
            && Returned(all + more, id, SendFailed)
            && id !in Run(all).pending && id !in Run(all).results
  {
    var sent := events + [Sends(id)] + quiet;
    StaysWaiting(events, quiet, id);
    RunSnoc(sent, WriteFails(id));
    OutcomeIsFinal(sent + [WriteFails(id)], more, id);
  }

  /** A command not answered in time returns a time-out, and is pending no more. */
  lemma SentAndTimedOut(events: seq<Event>, id: Id, quiet: seq<Event>, more: seq<Event>)
    requires Fresh(events, id) && Quiet(quiet, id)
    ensures var all := events + [Sends(id)] + quiet + [TimesOut(id)];
            && Returned(all + more, id, Timeout)
            && id !in Run(all).pending && id !in Run(all).results
  {
    var sent := events + [Sends(id)] + quiet;
    StaysWaiting(events, quiet, id);
    RunSnoc(sent, TimesOut(id));
    OutcomeIsFinal(sent + [TimesOut(id)], more, id);
  }

  /** A reply too late for its waiter: the call reports a time-out, and the answer is gone. */
  lemma AnsweredTooLate(events: seq<Event>, id: Id, quiet: seq<Event>, payload: Result, others: seq<Event>, more: seq<Event>)
    requires Fresh(events, id) && Quiet(quiet, id) && Quiet(others, id)
    requires "cmd_id" in payload && payload["cmd_id"] == id
    ensures var all := events + [Sends(id)] + quiet + [Replies(payload)] + others + [TimesOut(id)];
            && Returned(all + more, id, Timeout)
            && id !in Run(all).pending && id !in Run(all).results
  {
    var sent := events + [Sends(id)] + quiet;
    var sofar := sent + [Replies(payload)] + others;
    StaysWaiting(events, quiet, id);
    StaysWoken(sent, payload, others, id);
    RunSnoc(sofar, TimesOut(id));
    OutcomeIsFinal(sofar + [TimesOut(id)], more, id);
  }

  /** A reply without an id changes nothing. Any other is stored under its id, whether or not a call
      waits for it, and wakes the call with that id and no other. */
  lemma ReplyStored(events: seq<Event>, payload: Result)
    ensures var s, s' := Run(events), Run(events + [Replies(payload)]);
            if "cmd_id" !in payload || payload["cmd_id"] == "" then s' == s
            else
              var id := payload["cmd_id"];
              && id in s'.results && s'.results[id] == payload
              && (forall other :: other != id ==> (other in s'.results <==> other in s.results))
              && (forall other :: other != id && other in s.results ==> s'.results[other] == s.results[other])
              && s'.pending == s.pending - {id} && s'.outcomes == s.outcomes && s'.waiters.Keys == s.waiters.Keys
              && forall w :: w in s.waiters ==> s'.waiters[w] == (s.waiters[w] || w == id)
  {
    RunInv(events);
    RunSnoc(events, Replies(payload));
    hide Run;
  }

  ghost predicate Kept(s: State, id: Id, payload: Result) {
    id in s.results && s.results[id] == payload && id in s.outcomes && id !in s.waiters
  }

  lemma StaysKept(s: State, e: Event, id: Id, payload: Result)
    requires Kept(s, id, payload) && (e.Replies? ==> !Carries(e.payload, id))
    ensures Kept(Next(s, e), id, payload)
  {
  }

  /** Nobody collects what is stored for a call that has returned. */
  lemma {:induction false} KeptForGood(events: seq<Event>, payload: Result, more: seq<Event>, id: Id)
    requires id in Run(events).outcomes && id != "" && Carries(payload, id)
    requires forall e :: e in more && e.Replies? ==> !Carries(e.payload, id)
    ensures Kept(Run(events + [Replies(payload)] + more), id, payload)
  {
    RunInv(events);
    if more == [] {
      assert events + [Replies(payload)] + more == events + [Replies(payload)];
      RunSnoc(events, Replies(payload));
    } else {
      var before, e := more[..|more| - 1], more[|more| - 1];
      assert e in more && forall x :: x in before ==> x in more;
      KeptForGood(events, payload, before, id);
      assert events + [Replies(payload)] + more == events + [Replies(payload)] + before + [e];
      RunSnoc(events + [Replies(payload)] + before, e);
      StaysKept(Run(events + [Replies(payload)] + before), e, id, payload);
      hide Run, Inv, Next;
    }
  }

  /** A reply that comes after the time-out is stored and stays stored, whatever follows, until
      another reply with the same id replaces it. */
  lemma LateReplyIsKept(events: seq<Event>, id: Id, quiet: seq<Event>, between: seq<Event>, payload: Result, more: seq<Event>)
    requires Fresh(events, id) && Quiet(quiet, id)
    requires "cmd_id" in payload && payload["cmd_id"] == id
    requires forall e :: e in more && e.Replies? ==> !Names(e, id)
    ensures var all := events + [Sends(id)] + quiet + [TimesOut(id)] + between + [Replies(payload)] + more;
            id in Run(all).results && Run(all).results[id] == payload && Returned(all, id, Timeout)
  {
    var timedOut := events + [Sends(id)] + quiet + [TimesOut(id)];
    SentAndTimedOut(events, id, quiet, between);
    KeptForGood(timedOut + between, payload, more, id);
    SentAndTimedOut(events, id, quiet, between + [Replies(payload)] + more);
    assert timedOut + between + [Replies(payload)] + more == timedOut + (between + [Replies(payload)] + more);
  }

  class Session {
    var pendingCmds: set<Id>
    var cmdResults: map<Id, Result>
    ghost var waiters: map<Id, bool>
    ghost var outcomes: map<Id, Outcome>

    ghost function View(): State
      reads this
    {
      State(pendingCmds, cmdResults, waiters, outcomes)
    }

    constructor ()
      ensures View() == QUIET
    {
      pendingCmds, cmdResults, waiters, outcomes := {}, map[], map[], map[];
    }

    /** send_remote_cmd up to its first wait. */
    method Begin(id: Id)
      requires Unseen(View(), id)
      modifies this
      ensures View() == Send(old(View()), id)
    {
      pendingCmds := pendingCmds + {id};
      waiters := waiters[id := false];
    }

    method HandleResp(payload: Result)
      modifies this
      ensures View() == Reply(old(View()), payload)
    {
      var id := if "cmd_id" in payload then payload["cmd_id"] else "";
      if id == "" {
        return;
      }
      cmdResults := cmdResults[id := payload];
      if id in pendingCmds {
        pendingCmds := pendingCmds - {id};
        waiters := if id in waiters then waiters[id := true] else waiters;
      }
    }

    /** send_remote_cmd after its event was set. */
    method EndWoken(id: Id) returns (o: Outcome)
      requires id in waiters && waiters[id]
      modifies this
      ensures View() == Wake(old(View()), id) && o == outcomes[id]
    {
      if id in cmdResults && cmdResults[id] != map[] {
        o := Answer(cmdResults[id]);
      } else {
        o := NoResponse;
      }
      cmdResults := cmdResults - {id};
      waiters, outcomes := waiters - {id}, outcomes[id := o];
    }

    method EndTimedOut(id: Id) returns (o: Outcome)
      requires id in waiters
      modifies this
      ensures View() == TimeOut(old(View()), id) && o == Timeout
    {
      pendingCmds := pendingCmds - {id};
      cmdResults := cmdResults - {id};
      o := Timeout;
      waiters, outcomes := waiters - {id}, outcomes[id := o];
    }
  }
}
