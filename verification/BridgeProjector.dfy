/** The projector: one pass over the next event, and a bounded drain. */
module BridgeProjector {
  import opened Wrappers
  import opened BridgeTables
  import opened BridgeMachine
  import opened BridgeSafety
  import opened BridgeInbox

  /** What a call into another component does: nothing unusual, a ValueError or PermissionError, anything else. */
  datatype Call = Fine | Refused | Broken

  /** What the outside world does to one pass; `scope` is nothing where the resolver raises. */
  datatype Weather = Weather(scope: Option<Scope>, append: Call, review: Call)

  class SessionStore {
    var sessions: map<string, Session>

    constructor ()
      ensures sessions == map[]
    {
      sessions := map[];
    }
  }

  class SessionProjector {
    const inbox: BridgeEventInbox
    const store: SessionStore

    constructor (inbox: BridgeEventInbox, store: SessionStore)
      ensures this.inbox == inbox && this.store == store
    {
      this.inbox, this.store := inbox, store;
    }

    ghost function Now(worker: Worker): State
      reads inbox, store
    {
      State(inbox.rows, store.sessions, worker)
    }

    /** project: everything between the claim and the mark. */
    method Project(e: Event, weather: Weather) returns (call: Call, ghost steps: seq<Step>)
      modifies store
      ensures Valid(old(Now(Claimed(e))), steps) && forall i :: 0 <= i < |steps| ==> !steps[i].Ingest?
      ensures Exec(old(Now(Claimed(e))), steps) ==
          Now(if call == Fine then Finishing(e) else Failing(e, call == Broken))
      ensures call == Fine <==> Goes(old(store.sessions), e, weather)
      ensures call == Answer(old(store.sessions), e, weather)
      ensures call == Fine ==>
                && store.sessions.Keys == old(store.sessions).Keys + {SessionId(e)}
                && (forall name :: name in old(store.sessions) && name != SessionId(e) ==>
                      store.sessions[name] == old(store.sessions)[name])
                && var before := if SessionId(e) in old(store.sessions)
                   then old(store.sessions)[SessionId(e)].log else [];
                   store.sessions[SessionId(e)].log ==
                     if e.kind == Message && (forall j :: 0 <= j < |before| ==> !Tagged(before[j], e.id))
                     then before + [EntryOf(e)] else before
      ensures call == Broken ==> weather.append == Broken || weather.review == Broken
    {
      AnswerIs(store.sessions, e, weather);
      hide Answer;
      if weather.scope.None? || !ScopeFits(store.sessions, e, weather.scope.value) {
        steps := [Raise(false)];
        OneStep(Now(Claimed(e)), Raise(false));
        return Refused, steps;
      }
      var scope := weather.scope.value;
      ghost var s0 := Now(Claimed(e));
      store.sessions := Opened(store.sessions, e, scope);
      ghost var s1 := After(s0, Open(scope));
      steps := [Open(scope)];
      OneStep(s0, Open(scope));
      if e.kind == Message && !Already(store.sessions[SessionId(e)].log, e.id) {
        if weather.append != Fine {
          OneMoreStep(s0, steps, Raise(weather.append == Broken));
          return weather.append, steps + [Raise(weather.append == Broken)];
        }
        OneMoreStep(s0, steps, BridgeMachine.Step.Append);
        steps := steps + [BridgeMachine.Step.Append];
        store.sessions := Appended(store.sessions, e);
      }
      if Reviewed(e) && weather.review != Fine {
        OneMoreStep(s0, steps, Raise(weather.review == Broken));
        return weather.review, steps + [Raise(weather.review == Broken)];
      }
      OneMoreStep(s0, steps, BridgeMachine.Step.Review);
      return Fine, steps + [BridgeMachine.Step.Review];
    }

    /**
     process_next: claim, project, mark.  Nothing where no event can be claimed; otherwise the claimed event is
     processed exactly when nothing went wrong, and then its message is in the session.
     */
    method ProcessNext(weather: Weather) returns (status: Option<Status>, ghost steps: seq<Step>)
      requires Inv(Now(Idle))
      modifies inbox, store
      ensures Valid(old(Now(Idle)), steps) && Exec(old(Now(Idle)), steps) == Now(Idle) && Inv(Now(Idle))
      ensures forall i :: 0 <= i < |steps| ==> !steps[i].Ingest?
      ensures status.None? <==> ClaimFrom(old(inbox.rows), 0).None?
      ensures status.None? ==> Now(Idle) == old(Now(Idle))
      ensures status.Some? ==>
        var k := ClaimFrom(old(inbox.rows), 0).value;
        var e := old(inbox.rows)[k].event;
        && inbox.rows == SetStatus(ClaimedRows(old(inbox.rows), k), e.id, status.value)
        && (status.value == Processed <==> Goes(old(store.sessions), e, weather))
        && (status.value == Processed && e.kind == Message ==> Present(store.sessions, e))
        && (status.value == Queued ==> weather.append == Broken || weather.review == Broken)
        && status.value == Ending(Answer(old(store.sessions), e, weather), old(inbox.rows)[k].attempts)
    {
      ghost var start := Now(Idle);
      var e := inbox.ClaimNext();
      if e.None? { return None, []; }
      ghost var claimed := inbox.rows;
      OneStep(start, BridgeMachine.Step.Claim);
      ClaimedIsProcessing(start.rows, ClaimFrom(start.rows, 0).value);
      var call;
      ghost var middle;
      call, middle := Project(e.value, weather);
      hide Valid; hide Exec; hide Inv; hide Goes; hide SetStatus; hide ScopeFits; hide Answer; hide Ending;
      EndingIs(start.rows, ClaimFrom(start.rows, 0).value, call);
      Join(start, BridgeMachine.Step.Claim, middle);
      assert inbox.rows == claimed;
      var marked;
      marked, steps := Mark(e.value, call, start, [BridgeMachine.Step.Claim] + middle);
      status := Some(marked);
      RunKeepsInv(start, steps);
      MarkedIsPresent(Now(Idle), claimed, e.value, status.value);
    }

    /** The end of a pass: mark_processed, or mark_failed with its two statements. */
    method Mark(e: Event, call: Call, ghost start: State, ghost before: seq<Step>)
      returns (status: Status, ghost steps: seq<Step>)
      requires IsProcessing(inbox.rows, e.id) && Valid(start, before)
      requires Exec(start, before) == Now(if call == Fine then Finishing(e) else Failing(e, call == Broken))
      requires forall i :: 0 <= i < |before| ==> !before[i].Ingest?
      modifies inbox
      ensures Valid(start, steps) && Exec(start, steps) == Now(Idle)
      ensures forall i :: 0 <= i < |steps| ==> !steps[i].Ingest?
      ensures inbox.rows == SetStatus(old(inbox.rows), e.id, status)
      ensures status == if call == Fine then Processed else Verdict(old(inbox.rows), e.id, call == Broken)
    {
      hide Valid; hide Exec; hide SetStatus; hide IsProcessing; hide Verdict;
      if call == Fine {
        OneMoreStep(start, before, BridgeMachine.Step.MarkProcessed);
        var ok := inbox.MarkAsProcessed(e.id);
        return Processed, before + [BridgeMachine.Step.MarkProcessed];
      }
      OneMoreStep(start, before, BridgeMachine.Step.ReadAttempts);
      steps := before + [BridgeMachine.Step.ReadAttempts];
      var outcome := inbox.MarkFailed(e.id, call == Broken);
      status := outcome.value;
      OneMoreStep(start, steps, BridgeMachine.Step.WriteStatus);
      steps := steps + [BridgeMachine.Step.WriteStatus];
    }

    /** drain: at most `limit` passes, stopping when nothing can be claimed or an event went back to the queue. */
    method Drain(limit: nat, weather: seq<Weather>) returns (results: seq<Status>, ghost steps: seq<Step>)
      requires Inv(Now(Idle)) && |weather| == limit
      modifies inbox, store
      ensures Valid(old(Now(Idle)), steps) && Exec(old(Now(Idle)), steps) == Now(Idle) && Inv(Now(Idle))
      ensures |results| <= limit
      ensures |results| < limit && Queued !in results ==> ClaimFrom(inbox.rows, 0).None?
      ensures forall i :: 0 <= i < |results| - 1 ==> results[i] != Queued
    {
      hide Inv; hide SetStatus; hide Goes; hide Present; hide Valid; hide Exec;
      ghost var start := Now(Idle);
      NoSteps(start);
      results, steps := [], [];
      for k := 0 to limit
        invariant Valid(start, steps) && Exec(start, steps) == Now(Idle) && Inv(Now(Idle))
        invariant |results| == k && forall i :: 0 <= i < |results| ==> results[i] != Queued
      {
        var status;
        ghost var more;
        status, more := ProcessNext(weather[k]);
        Concatenate(start, steps, more);
        steps := steps + more;
        if status.None? { break; }
        results := results + [status.value];
        if status.value == Queued { break; }
      }
      if results != [] { assert results[|results| - 1] in results; }
    }
  }

  /** Nothing on the way of the event goes wrong. */
  predicate Goes(sessions: map<string, Session>, e: Event, weather: Weather) {
    && weather.scope.Some? && ScopeFits(sessions, e, weather.scope.value)
    && (weather.append == Fine || e.kind == Checkpoint || AlreadyIn(sessions, e))
    && (weather.review == Fine || !Reviewed(e))
  }

  ghost predicate Untagged(log: seq<Entry>, id: string) {
    forall j :: 0 <= j < |log| && "bridge_event_id" in log[j].metadata ==>
        log[j].metadata["bridge_event_id"] != Text(id)
  }

  lemma UntaggedIs(log: seq<Entry>, id: string)
    ensures Untagged(log, id) <==> !Already(log, id)
  {
    if Untagged(log, id) {
      forall j | 0 <= j < |log| ensures !Tagged(log[j], id) {}
    }
  }

  /** What a pass over the event answers: the first thing that goes wrong on its way, if any. */
  ghost function Answer(sessions: map<string, Session>, e: Event, weather: Weather): Call {
    var name := e.source + ":" + e.account + ":" + e.conversation + ":" + e.branch;
    var log := if name in sessions then sessions[name].log else [];
    if weather.scope.None? || (name in sessions && sessions[name].scope != weather.scope.value) then Refused
    else if e.kind.Message? && !weather.append.Fine?
            && Untagged(log, e.id) then weather.append
    else if e.kind.Checkpoint? || e.role.Assistant? then weather.review
    else Fine
  }

  /** The status after a pass, from its answer and the attempts before it. */
  function Ending(call: Call, attempts: nat): Status {
    match call
    case Fine => Processed
    case Refused => Failed
    case Broken => if attempts + 1 < 5 then Queued else Failed
  }

  lemma AnswerIs(sessions: map<string, Session>, e: Event, weather: Weather)
    ensures Answer(sessions, e, weather) ==
            if weather.scope.None? || !ScopeFits(sessions, e, weather.scope.value) then Refused
            else if e.kind == Message && !AlreadyIn(sessions, e) && weather.append != Fine then weather.append
            else if Reviewed(e) then weather.review
            else Fine
  {
    UntaggedIs(if SessionId(e) in sessions then sessions[SessionId(e)].log else [], e.id);
    hide Untagged; hide Already;
  }

  lemma EndingIs(rows: seq<Row>, k: nat, call: Call)
    requires RowsOk(rows) && k < |rows|
    ensures (if call == Fine then Processed else Verdict(ClaimedRows(rows, k), rows[k].event.id, call == Broken)) ==
            Ending(call, rows[k].attempts)
  {
    var claimed := ClaimedRows(rows, k);
    assert forall j :: 0 <= j < |rows| ==> claimed[j].event == rows[j].event;
    assert Find(claimed, rows[k].event.id) == Some(k);
  }

  lemma ClaimedIsProcessing(rows: seq<Row>, k: nat)
    requires RowsOk(rows) && k < |rows|
    ensures IsProcessing(ClaimedRows(rows, k), rows[k].event.id)
  {
    var claimed := ClaimedRows(rows, k);
    assert claimed[k].event == rows[k].event && claimed[k].status == Processing;
  }

  lemma MarkedIsPresent(s: State, claimed: seq<Row>, e: Event, status: Status)
    requires Inv(s) && IsProcessing(claimed, e.id) && s.rows == SetStatus(claimed, e.id, status)
    requires exists k :: 0 <= k < |claimed| && claimed[k].event == e && forall j :: 0 <= j < k ==>
        claimed[j].event.id != e.id
    ensures status == Processed && e.kind == Message ==> Present(s.sessions, e)
  {
    var k := Find(claimed, e.id).value;
    assert s.rows[k].event == e && s.rows[k].status == status;
  }

  lemma NoSteps(s: State)
    ensures Valid(s, []) && Exec(s, []) == s
  {
  }

  lemma Join(s: State, step: Step, rest: seq<Step>)
    requires Enabled(s, step) && Valid(After(s, step), rest)
    ensures Valid(s, [step] + rest) && Exec(s, [step] + rest) == Exec(After(s, step), rest)
  {
    assert ([step] + rest)[1..] == rest;
  }

  lemma {:induction false} Concatenate(s: State, a: seq<Step>, b: seq<Step>)
    requires Valid(s, a) && Valid(Exec(s, a), b)
    ensures Valid(s, a + b) && Exec(s, a + b) == Exec(Exec(s, a), b)
    decreases |a|
  {
    hide After; hide Enabled;
    if a == [] {
      assert a + b == b;
    } else {
      assert (a + b)[1..] == a[1..] + b;
      Concatenate(After(s, a[0]), a[1..], b);
    }
  }

  predicate AlreadyIn(sessions: map<string, Session>, e: Event) {
    SessionId(e) in sessions && Already(sessions[SessionId(e)].log, e.id)
  }

  lemma OneStep(s: State, step: Step)
    requires Enabled(s, step)
    ensures Valid(s, [step]) && Exec(s, [step]) == After(s, step)
  {
    assert [step][1..] == [];
    assert Valid(After(s, step), []);
  }

  lemma {:induction false} OneMoreStep(s: State, steps: seq<Step>, step: Step)
    requires Valid(s, steps) && Enabled(Exec(s, steps), step)
    ensures Valid(s, steps + [step]) && Exec(s, steps + [step]) == After(Exec(s, steps), step)
    decreases |steps|
  {
    if steps == [] {
      OneStep(s, step);
      assert steps + [step] == [step];
    } else {
      assert (steps + [step])[1..] == steps[1..] + [step];
      OneMoreStep(After(s, steps[0]), steps[1..], step);
    }
  }
}
