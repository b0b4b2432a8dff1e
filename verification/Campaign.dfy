/** The attack of an adversarial campaign: what it sends to its executor, and what it makes of the answers.
    Clocks, the adaptive strategist, and an external executor may do anything, and the local executor what
    its host does. */
module Campaign {
  import opened Options
  import opened ActionResults
  import opened CaseExecutor
  import opened Broker

  datatype Verdict =
    | Case(category: Category)
    | InternalError | TimeExhausted | CreditsExhausted | ActionsExhausted
    | CoverageConverged | ReplayComplete | ReplayIncomplete | CanaryFailed | PreflightFailure

  const ESCAPE := Case(PolicyViolation)

  // What went to an executor: a case, with the report that it was answered, if any, whether that was
  // written, and the result, if the broker took it; a finalization, with what it was answered, if anything,
  // and whether that was written; or that it was given up, and whether a note of that was written, without
  // which it is not ended by force.
  datatype Event =
    | Initialized
    | Sent(caseId: CaseId, raw: Option<ActionResult>, written: bool, result: Option<ActionResult>)
    | Finalizing(quarantine: bool, answer: Option<Ending>, written: bool)
    | GivenUp(noted: bool)

  datatype Fault = LostExecutor | ProtocolError

  datatype Config = Config(
    catalog: map<CaseId, nat>, replay: Option<seq<CaseId>>, budget: nat, local: bool, minimize: bool, attempts: nat)
  {
    function Cases(): set<CaseId> {
      catalog.Keys
    }

    // What reading a replay and the configuration check.
    ghost predicate Valid() {
      replay.Some? ==>
        && 1 <= |replay.value| <= budget && Distinct(replay.value)
        && forall i :: 0 <= i < |replay.value| ==> replay.value[i] in Cases()
    }
  }

  // What a campaign knows of itself as it goes.
  datatype State = State(
    events: seq<Event>, actions: seq<CaseId>, log: seq<CaseId>, results: seq<ActionResult>,
    verdict: Verdict, passed: bool, failedCase: Option<CaseId>,
    inFlight: bool, finalizing: bool, targetFailure: bool, fault: Option<Fault>)

  // After such an event, no case goes to the executor any more,
  predicate Halts(e: Event) {
    match e
    case Initialized => false
    case Sent(_, _, _, result) => result.None? || result.value.Anomaly()
    case _ => true
  }

  // and after such a one, only a finalization that asks for quarantine.
  predicate Suspect(e: Event) {
    e.Sent? && (e.result.None? || e.result.value.SuspectedEscape())
  }

  ghost predicate Safe(events: seq<Event>) {
    forall i, j :: 0 <= i < j < |events| ==>
      && (Halts(events[i]) ==> !events[j].Sent?)
      && (Suspect(events[i]) ==> (events[j].Finalizing? ==> events[j].quarantine))
  }

  ghost predicate Escaped(events: seq<Event>) {
    exists i :: 0 <= i < |events| && events[i].Sent? && events[i].result.Some?
      && events[i].result.value.SuspectedEscape()
  }

  // A case has the result that was reported exactly if the broker takes it and it is written.
  ghost predicate Judged(events: seq<Event>) {
    forall i :: 0 <= i < |events| && events[i].Sent? ==> JudgedAt(events[i], i)
  }

  ghost predicate JudgedAt(e: Event, sequence: nat)
    requires e.Sent?
  {
    && (e.result.Some? <==> e.raw.Some? && e.written && Accepts(e.raw.value, sequence, e.caseId))
    && (e.result.Some? ==> e.result == e.raw)
  }

  // What the local executor reports is honest, its oracles saw what it reports, and it is in quarantine if
  // it confirmed that last.
  ghost predicate Linked(channel: Channel, events: seq<Event>)
    reads channel, channel.executor
  {
    && channel.Valid()
    && (channel.executor != null ==>
          && AllHonest(events) && (Reported(events) ==> channel.Seen())
          && (Confirmed(events) ==> channel.executor.quarantined))
  }

  ghost predicate AllHonest(events: seq<Event>) {
    forall i :: 0 <= i < |events| ==> HonestAt(events[i], i)
  }

  ghost predicate HonestAt(e: Event, sequence: nat) {
    && (e.Sent? && e.raw.Some? ==> Honest(e.raw.value, sequence, e.caseId))
    && (e.Finalizing? && e.answer.Some? ==> Truthful(e.answer.value, e.quarantine))
  }

  // The status that a finalization was answered, if the answer is credible.
  function Taken(e: Event): (status: Option<Status>)
    ensures status.Some? ==> e.Finalizing? && (e.quarantine ==> status == Some(Quarantined))
  {
    if e.Finalizing? && e.answer.Some? && Credible(e.answer.value, e.quarantine) then Some(e.answer.value.status)
    else None
  }

  // The executor confirmed the quarantine that was asked for last.
  predicate Confirmed(events: seq<Event>) {
    events != [] && Last(events).Finalizing? && Last(events).quarantine && Taken(Last(events)).Some?
  }

  // A report says that the case escaped, or an answer to a finalization that there was a violation, whether
  // or not it was taken.
  predicate Alleges(e: Event) {
    || (e.Sent? && e.raw.Some? && e.raw.value.SuspectedEscape())
    || (e.Finalizing? && e.answer.Some? && e.answer.value.Violated())
  }

  ghost predicate Reported(events: seq<Event>) {
    exists i :: 0 <= i < |events| && Alleges(events[i])
  }

  lemma JudgedMore(events: seq<Event>, e: Event)
    requires Judged(events) && (e.Sent? ==> JudgedAt(e, |events|))
    ensures Judged(events + [e])
  {
  }

  lemma HonestMore(events: seq<Event>, e: Event)
    requires AllHonest(events) && HonestAt(e, |events|)
    ensures AllHonest(events + [e])
    ensures Reported(events + [e]) <==> Reported(events) || Alleges(e)
  {
    var more := events + [e];
    if Reported(events) {
      var i :| 0 <= i < |events| && Alleges(events[i]);
      assert more[i] == events[i];
    }
    if Alleges(e) {
      assert more[|events|] == e;
    }
  }

  // Every case so far was clean.
  ghost predicate Calm(events: seq<Event>) {
    forall i :: 0 <= i < |events| ==> !Halts(events[i]) && !Suspect(events[i])
  }

  lemma CalmMore(events: seq<Event>, e: Event)
    requires Calm(events)
    ensures Safe(events + [e]) && (!Halts(e) && !Suspect(e) ==> Calm(events + [e]))
    ensures Escaped(events + [e]) <==> e.Sent? && e.result.Some? && e.result.value.SuspectedEscape()
  {
    var more := events + [e];
    forall i | 0 <= i < |events| ensures more[i] == events[i] && !Suspect(events[i]) && !Halts(events[i]) {
    }
    if e.Sent? && e.result.Some? && e.result.value.SuspectedEscape() {
      assert more[|events|] == e;
    }
  }

  // Asking for quarantine, or ending the executor by force, is safe after anything.
  lemma SafeMore(events: seq<Event>, e: Event)
    requires Safe(events)
    requires e.GivenUp? || (e.Finalizing? && (e.quarantine || forall i :: 0 <= i < |events| ==> !Suspect(events[i])))
    ensures Safe(events + [e]) && (Escaped(events + [e]) <==> Escaped(events))
  {
    var more := events + [e];
    assert forall i :: 0 <= i < |events| ==> more[i] == events[i];
    if Escaped(events) {
      var i :| 0 <= i < |events| && events[i].Sent? && events[i].result.Some?
        && events[i].result.value.SuspectedEscape();
      assert more[i] == events[i];
    }
  }

  // Quarantines an executor that broke the protocol, if there is time, or gives it up. It is contained exactly
  // if it confirms the quarantine or the note of giving it up can be written.
  method Quarantine(before: seq<Event>, channel: Channel, inTime: bool, noted: bool) returns (events: seq<Event>)
    requires Safe(before) && Judged(before) && Linked(channel, before)
    modifies channel.Repr()
    ensures before <= events && Safe(events) && (Escaped(events) <==> Escaped(before))
    ensures forall i :: |before| <= i < |events| ==> events[i].GivenUp? || (events[i].Finalizing? && events[i].quarantine)
    ensures Ended(events) && Judged(events) && Linked(channel, events)
    ensures Contained(events) <==> Confirmed(events) || noted
    ensures if inTime then |events| > |before| && events[|before|].Finalizing? else events == before + [GivenUp(noted)]
  {
    events := before;
    if inTime {
      var lost: bool, written: bool := *, *;
      var answer := channel.Send(Finalize(true), lost);
      var e := Finalizing(true, Heard(answer), written);
      Add(events, e);
      events := events + [e];
      if Taken(e).Some? {
        return;
      }
    }
    Add(events, GivenUp(noted));
    events := events + [GivenUp(noted)];
  }

  // What a finalization was answered.
  function Heard(answer: Answer): Option<Ending> {
    if answer.Responded? && answer.response.Finalized? then Some(answer.response.ending) else None
  }

  // What is not a case leaves the cases as they are.
  lemma Add(events: seq<Event>, e: Event)
    requires Safe(events) && Judged(events) && (e.GivenUp? || (e.Finalizing? && (e.quarantine || Unsuspected(events))))
    ensures Safe(events + [e]) && Judged(events + [e]) && (Escaped(events + [e]) <==> Escaped(events))
    ensures AllHonest(events) && HonestAt(e, |events|) ==>
              AllHonest(events + [e]) && (Reported(events + [e]) <==> Reported(events) || Alleges(e))
  {
    SafeMore(events, e);
    JudgedMore(events, e);
    if AllHonest(events) && HonestAt(e, |events|) {
      HonestMore(events, e);
    }
  }

  // The executor confirmed that it is quarantined, or was given up,
  predicate Ended(events: seq<Event>) {
    Confirmed(events) || (events != [] && Last(events).GivenUp?)
  }

  // and then was ended by force.
  predicate Contained(events: seq<Event>) {
    Confirmed(events) || (events != [] && Last(events) == GivenUp(true))
  }

  // The records: each result is what the executor answered to its action, the log holds the actions, but
  // for one that the broker refused, and has one result less when the last got none.
  ghost predicate Recorded(events: seq<Event>, actions: seq<CaseId>, log: seq<CaseId>, results: seq<ActionResult>) {
    && log <= actions && |actions| <= |log| + 1
    && |results| <= |log| <= |results| + 1
    && (forall i :: 0 <= i < |results| ==> Answered(events, i, actions[i], results[i]))
  }

  // A case whose report the broker took, and one that no report was taken of.
  function Kept(action: CaseId, result: ActionResult): Event {
    Sent(action, Some(result), true, Some(result))
  }

  function Missed(action: CaseId, raw: Option<ActionResult>, written: bool): Event {
    Sent(action, raw, written, None)
  }

  // The i-th action was sent first thing after those before it, and got the result.
  predicate Answered(events: seq<Event>, i: nat, action: CaseId, result: ActionResult) {
    i + 1 < |events| && events[i + 1] == Kept(action, result) && Accepts(result, i + 1, action)
  }

  lemma RecordedMore(
    events: seq<Event>, more: seq<Event>, actions: seq<CaseId>, action: CaseId, log: seq<CaseId>, results: seq<ActionResult>)
    requires Recorded(events, actions, actions, results) && |actions| == |results| && events <= more
    requires log == actions || log == actions + [action]
    ensures Recorded(more, actions + [action], log, results)
  {
  }

  lemma RecordedResult(
    events: seq<Event>, actions: seq<CaseId>, results: seq<ActionResult>, action: CaseId, result: ActionResult)
    requires Recorded(events, actions, actions, results) && |actions| == |results| && |events| == |results| + 1
    requires Accepts(result, |actions| + 1, action)
    ensures Recorded(events + [Kept(action, result)], actions + [action], actions + [action], results + [result])
  {
  }

  // What a campaign has done when it stops for a reason.
  ghost predicate Earned(config: Config, s: State) {
    match s.verdict
    case ReplayComplete => config.replay == Some(s.actions)
    case CoverageConverged => (set r | r in s.results :: r.caseId) == config.Cases()
    case ActionsExhausted => |s.actions| == config.budget
    case TimeExhausted | CreditsExhausted => config.replay.None?
    case ReplayIncomplete => config.replay.Some?
    case Case(_) => true
    case CanaryFailed | PreflightFailure | InternalError => !s.passed
  }

  // A campaign keeps to its budget, and to its replay.
  ghost predicate Keeps(config: Config, s: State) {
    && |s.actions| <= config.budget
    && (config.replay.Some? ==> s.actions <= config.replay.value)
  }

  ghost predicate Unsuspected(events: seq<Event>) {
    forall i :: 0 <= i < |events| ==> !Suspect(events[i])
  }

  // While the attack goes on, every case was clean.
  ghost predicate Attacking(config: Config, s: State) {
    && Calm(s.events) && Judged(s.events) && |s.events| == |s.results| + 1
    && Recorded(s.events, s.actions, s.log, s.results) && Keeps(config, s)
    && s.actions == s.log && |s.log| == |s.results|
    && s.verdict == InternalError && !s.passed && s.failedCase == None
    && !s.inFlight && !s.finalizing && !s.targetFailure && s.fault == None
  }

  // An attack that stopped without a fault was clean, or has a failure that its last event tells,
  ghost predicate Halted(config: Config, s: State) {
    && s.fault == None && !s.inFlight && |s.actions| == |s.results| && s.events != []
    && Earned(config, s) && !Last(s.events).Finalizing?
    && (s.verdict != ESCAPE ==> Unsuspected(s.events))
    && (if s.targetFailure
        then
          && !s.passed && s.actions != [] && s.failedCase == Some(s.actions[|s.actions| - 1])
          && Caught(s.events) == Some(Failure(s.verdict, s.failedCase))
        else Calm(s.events) && s.failedCase == None && !s.verdict.Case? && (s.passed <==> s.verdict != ReplayIncomplete))
  }

  // and one that a fault ended has no failure yet.
  ghost predicate Faulted(s: State) {
    && s.fault != None && !s.passed && s.verdict == InternalError && s.failedCase == None && !s.targetFailure
    && (if s.inFlight then s.actions != [] else |s.actions| == |s.results|)
    && (s.fault == Some(ProtocolError) && s.inFlight ==> Ended(s.events))
  }

  // A case without a result is the one in flight, and the protocol broke if it was reported.
  ghost predicate Unanswered(s: State) {
    forall i :: 0 <= i < |s.events| && s.events[i].Sent? && s.events[i].result.None? ==>
      && s.inFlight && s.actions != [] && s.events[i].caseId == s.actions[|s.actions| - 1]
      && (s.events[i].raw.Some? ==> s.fault == Some(ProtocolError))
  }

  ghost predicate Attacked(config: Config, s: State) {
    && Safe(s.events) && Judged(s.events) && Unanswered(s)
    && Recorded(s.events, s.actions, s.log, s.results) && Keeps(config, s) && !s.finalizing
    && (Escaped(s.events) <==> s.verdict == ESCAPE) && Unasked(s.events)
    && (Halted(config, s) || Faulted(s))
  }

  function Last(events: seq<Event>): Event
    requires events != []
  {
    events[|events| - 1]
  }

  // A finalization that was not asked for quarantine was answered with a status, which the controller read.
  predicate Reads(e: Event, status: Status) {
    e.Finalizing? && !e.quarantine && e.written && Taken(e) == Some(status)
  }

  // The controller read that the executor found the violation itself.
  ghost predicate SelfQuarantined(events: seq<Event>) {
    exists i :: 0 <= i < |events| && Reads(events[i], Quarantined)
  }

  // Nothing but quarantine was asked of the executor.
  ghost predicate Unasked(events: seq<Event>) {
    forall i :: 0 <= i < |events| && events[i].Finalizing? ==> events[i].quarantine
  }

  // What a campaign fails with, and the case that it was, if it was one.
  datatype Failure = Failure(verdict: Verdict, caseId: Option<CaseId>)

  // The failure of the last case.
  function Caught(events: seq<Event>): Option<Failure>
    requires events != []
  {
    var e := Last(events);
    if e.Sent? && e.result.Some? && e.result.value.Anomaly() then
      Some(Failure(if e.result.value.SuspectedEscape() then ESCAPE else Case(e.result.value.category),
                   Some(e.result.value.caseId)))
    else
      None
  }

  // The failure of a run that was finalized: what the executor found outweighs the last case, and that
  // outweighs a canary.
  function Fails(events: seq<Event>): Option<Failure>
    requires |events| > 1
  {
    var caught := Caught(events[..|events| - 1]);
    if Reads(Last(events), Quarantined) then Some(Failure(ESCAPE, None))
    else if caught.Some? then caught
    else if Reads(Last(events), Failing) then Some(Failure(CanaryFailed, None))
    else None
  }

  datatype Choice = Stop(verdict: Verdict, passed: bool) | Pick(action: CaseId) | Raise

  // What happens before an action: whether time runs out, whether there are credits left for the strategist and
  // what it wants, and whether time runs out by then.
  datatype Moment = Moment(late: bool, credits: bool, wanted: CaseId, lateAgain: bool)

  // After those that there is time for, it is late.
  function MomentAt(moments: seq<Moment>, i: nat): Moment {
    if i < |moments| then moments[i] else Moment(true, false, "", true)
  }

  // The cases of some actions.
  function CasesOf(actions: seq<CaseId>): set<CaseId> {
    set a | a in actions
  }

  // What is chosen after some actions: the campaign goes on exactly while there is time, cases are left, the replay
  // has more, or the strategist has credits; and then with the replay's next case, or what the strategist wants,
  // which must be a case that is left.
  ghost predicate Chooses(config: Config, actions: seq<CaseId>, m: Moment, choice: Choice) {
    var out := if config.replay.None? then Stop(TimeExhausted, true) else Stop(ReplayIncomplete, false);
    if m.late then choice == out
    else if CasesOf(actions) == config.Cases() then choice == Stop(CoverageConverged, true)
    else match config.replay
      case Some(replay) =>
        if actions == replay then choice == Stop(ReplayComplete, true)
        else |actions| < |replay| && choice == if m.lateAgain then out else Pick(replay[|actions|])
      case None =>
        if !m.credits then choice == Stop(CreditsExhausted, true)
        else if m.wanted !in config.Cases() - CasesOf(actions) then choice == Raise
        else choice == if m.lateAgain then out else Pick(m.wanted)
  }

  lemma CompletedCases(config: Config, s: State)
    requires Attacking(config, s)
    ensures (set r | r in s.results :: r.caseId) == CasesOf(s.actions)
  {
    forall i | 0 <= i < |s.results| ensures s.results[i].caseId == s.actions[i] {
      assert Answered(s.events, i, s.actions[i], s.results[i]);
    }
    forall a | a in CasesOf(s.actions) ensures a in (set r | r in s.results :: r.caseId) {
      var i :| 0 <= i < |s.actions| && s.actions[i] == a;
      assert s.results[i] in s.results;
    }
  }

  // Why the attack stops, or what it tries next.
  method Choose(config: Config, s: State, completed: set<CaseId>, m: Moment) returns (choice: Choice)
    requires config.Valid() && Attacking(config, s) && |s.actions| < config.budget
    requires completed == (set r | r in s.results :: r.caseId) && completed <= config.Cases()
    ensures choice.Stop? ==>
              && !choice.verdict.Case? && (choice.passed <==> choice.verdict != ReplayIncomplete)
              && Earned(config, s.(verdict := choice.verdict, passed := choice.passed))
    ensures choice.Pick? ==>
              && choice.action in config.Cases()
              && (config.replay.Some? ==> s.actions + [choice.action] <= config.replay.value)
    ensures Chooses(config, s.actions, m, choice)
  {
    CompletedCases(config, s);
    var out := if config.replay.None? then Stop(TimeExhausted, true) else Stop(ReplayIncomplete, false);
    if m.late {
      return out;
    }
    if |completed| == |config.Cases()| {
      SameSize(completed, config.Cases());
      return Stop(CoverageConverged, true);
    }
    match config.replay {
      case Some(replay) =>
        if |s.actions| == |replay| {
          assert s.actions == replay;
          return Stop(ReplayComplete, true);
        }
        choice := Pick(replay[|s.actions|]);
      case None =>
        if !m.credits {
          return Stop(CreditsExhausted, true);
        }
        if m.wanted !in config.Cases() || m.wanted in completed {
          return Raise;
        }
        choice := Pick(m.wanted);
    }
    if m.lateAgain {
      choice := out;
    }
  }

  lemma SameSize(a: set<CaseId>, b: set<CaseId>)
    requires a <= b && |a| == |b|
    ensures a == b
  {
    assert b == a + (b - a);
  }

  // Sends one case through the broker.
  method Strike(config: Config, broker: TypedBroker, channel: Channel, before: State, action: CaseId)
      returns (s: State)
    requires broker.Valid() && Attacking(config, before) && Linked(channel, before.events)
    requires Keeps(config, before.(actions := before.actions + [action]))
    requires before.log == broker.log && before.results == broker.results
    modifies broker`log, broker`completed, broker`results, channel.Repr()
    ensures broker.Valid() && s.log == broker.log && s.results == broker.results && Linked(channel, s.events)
    ensures Attacking(config, s) || (Attacked(config, s) && (s.fault != None || s.targetFailure))
    ensures s.actions == before.actions + [action] && (s.fault != None ==> s.inFlight)
  {
    var writable: bool, lost: bool, taken: bool := *, *, *;
    var execution := broker.Execute(action, channel, writable, lost, taken);
    s := before.(actions := before.actions + [action], inFlight := true, log := broker.log, results := broker.results);
    var inTime: bool, noted: bool := *, *;
    match execution
    case Executed(result) => s := Hear(config, before, s, action, result, channel);
    case Refused =>
      MissedLinked(before, [], channel);
      s := Break(config, before, s, action, [], channel, inTime, noted);
    case Failed(raw, written) =>
      MissedLinked(before, [Missed(action, raw, written)], channel);
      s := Break(config, before, s, action, [Missed(action, raw, written)], channel, inTime, noted);
    case Lost =>
      MissedLinked(before, [Missed(action, None, true)], channel);
      s := Lose(config, before, s, action);
  }

  // Takes the result of a case into the state.
  method Hear(config: Config, before: State, sent: State, action: CaseId, result: ActionResult, channel: Channel)
      returns (s: State)
    requires Attacking(config, before) && Keeps(config, sent)
    requires sent == before.(actions := before.actions + [action], log := before.log + [action],
                             results := before.results + [result], inFlight := true)
    requires Accepts(result, |before.actions| + 1, action)
    requires channel.Valid()
    requires channel.executor != null ==>
               && AllHonest(before.events) && (Reported(before.events) ==> channel.Seen())
               && Honest(result, |before.actions| + 1, action) && (result.SuspectedEscape() ==> channel.Seen())
    ensures if result.Anomaly() then Attacked(config, s) && s.targetFailure else Attacking(config, s)
    ensures s.events == before.events + [Kept(action, result)]
    ensures s.actions == sent.actions && s.log == sent.log && s.results == sent.results && s.fault == None
    ensures Linked(channel, s.events)
  {
    var e := Kept(action, result);
    CalmMore(before.events, e);
    JudgedMore(before.events, e);
    if channel.executor != null {
      HonestMore(before.events, e);
    }
    s := sent.(events := before.events + [e], inFlight := false);
    RecordedResult(before.events, before.actions, before.results, action, result);
    if result.Anomaly() {
      s := s.(verdict := if result.SuspectedEscape() then ESCAPE else Case(result.category),
              failedCase := Some(result.caseId), targetFailure := true);
    }
  }

  // What a case without a result leaves: nothing sent, if the broker refused it, or else that.
  ghost predicate Missing(before: State, action: CaseId, missed: seq<Event>) {
    || missed == []
    || (|missed| == 1 && missed[0].Sent? && missed[0].caseId == action && missed[0].result.None?
        && JudgedAt(missed[0], |before.events|))
  }

  lemma MissedLinked(before: State, missed: seq<Event>, channel: Channel)
    requires channel.Valid() && !Confirmed(before.events) && |missed| <= 1 && (missed != [] ==> missed[0].Sent?)
    requires channel.executor != null ==>
               && AllHonest(before.events) && (Reported(before.events) ==> channel.Seen())
               && (missed != [] && missed[0].raw.Some? ==>
                     && Honest(missed[0].raw.value, |before.events|, missed[0].caseId)
                     && (missed[0].raw.value.SuspectedEscape() ==> channel.Seen()))
    ensures Linked(channel, before.events + missed)
  {
    if missed == [] {
      assert before.events + missed == before.events;
    } else if channel.executor != null {
      HonestMore(before.events, missed[0]);
      assert missed == [missed[0]];
    }
  }

  // The protocol broke: the executor is quarantined or given up, and the fault is noted.
  method Break(config: Config, before: State, sent: State, action: CaseId, missed: seq<Event>, channel: Channel,
               inTime: bool, noted: bool)
      returns (s: State)
    requires Attacking(config, before) && Keeps(config, sent) && Missing(before, action, missed)
    requires sent == before.(actions := before.actions + [action], inFlight := true, log := sent.log)
    requires sent.log == before.log || sent.log == before.log + [action]
    requires Linked(channel, before.events + missed)
    modifies channel.Repr()
    ensures Attacked(config, s) && s.fault == Some(ProtocolError) && Linked(channel, s.events)
    ensures before.events + missed <= s.events
    ensures s == sent.(events := s.events, fault := Some(ProtocolError))
    ensures Contained(s.events) <==> Confirmed(s.events) || noted
    ensures !inTime ==> s.events == before.events + missed + [GivenUp(noted)]
  {
    MissedSafe(before, action, missed);
    var events := Quarantine(before.events + missed, channel, inTime, noted);
    RecordedMore(before.events, events, before.actions, action, sent.log, sent.results);
    s := sent.(events := events, fault := Some(ProtocolError));
    Broken(before, action, missed, s);
  }

  lemma MissedSafe(before: State, action: CaseId, missed: seq<Event>)
    requires Calm(before.events) && Judged(before.events) && Missing(before, action, missed)
    ensures Safe(before.events + missed) && Judged(before.events + missed) && !Escaped(before.events + missed)
    ensures Unasked(before.events + missed)
  {
    CalmSafe(before.events);
    if missed == [] {
      assert before.events + missed == before.events;
    } else {
      assert missed == [missed[0]];
      CalmMore(before.events, missed[0]);
      JudgedMore(before.events, missed[0]);
    }
  }

  lemma Broken(before: State, action: CaseId, missed: seq<Event>, s: State)
    requires Calm(before.events) && Missing(before, action, missed)
    requires before.events + missed <= s.events
    requires forall i :: |before.events + missed| <= i < |s.events| ==>
               s.events[i].GivenUp? || (s.events[i].Finalizing? && s.events[i].quarantine)
    requires s.inFlight && s.fault == Some(ProtocolError) && s.actions == before.actions + [action]
    ensures Unanswered(s) && Unasked(s.events)
  {
    var n := |before.events|;
    forall i | 0 <= i < n ensures s.events[i] == before.events[i] && !Halts(before.events[i]) {
      assert (before.events + missed)[i] == before.events[i];
    }
    if missed != [] {
      assert s.events[n] == (before.events + missed)[n] == missed[0];
    }
  }

  // The executor is gone, and with it the case.
  method Lose(config: Config, before: State, sent: State, action: CaseId) returns (s: State)
    requires Attacking(config, before) && Keeps(config, sent)
    requires sent == before.(actions := before.actions + [action], inFlight := true, log := before.log + [action])
    ensures Attacked(config, s) && s == sent.(events := before.events + [Missed(action, None, true)], fault := Some(LostExecutor))
  {
    var e := Missed(action, None, true);
    CalmMore(before.events, e);
    JudgedMore(before.events, e);
    RecordedMore(before.events, before.events + [e], before.actions, action, sent.log, sent.results);
    s := sent.(events := before.events + [e], fault := Some(LostExecutor));
  }

  lemma CalmSafe(events: seq<Event>)
    requires Calm(events)
    ensures Safe(events) && Unsuspected(events) && !Escaped(events) && Unasked(events)
  {
  }

  lemma AttackStops(config: Config, s: State, verdict: Verdict, passed: bool)
    requires Attacking(config, s) && !verdict.Case? && (passed <==> verdict != ReplayIncomplete)
    requires Earned(config, s.(verdict := verdict, passed := passed))
    ensures Attacked(config, s.(verdict := verdict, passed := passed))
  {
    CalmSafe(s.events);
  }

  lemma AttackRaises(config: Config, s: State)
    requires Attacking(config, s)
    ensures Attacked(config, s.(fault := Some(ProtocolError)))
  {
    CalmSafe(s.events);
  }

  // Chooses a case and sends it, or stops.
  method Turn(config: Config, broker: TypedBroker, channel: Channel, before: State, m: Moment)
      returns (s: State, done: bool, ghost choice: Choice)
    requires config.Valid() && |before.actions| < config.budget && broker.cases == config.Cases()
    requires broker.Valid() && Attacking(config, before) && Linked(channel, before.events)
    requires before.log == broker.log && before.results == broker.results
    modifies broker`log, broker`completed, broker`results, channel.Repr()
    ensures broker.Valid() && s.log == broker.log && s.results == broker.results && Linked(channel, s.events)
    ensures if done then Attacked(config, s) else Attacking(config, s)
    ensures Chooses(config, before.actions, m, choice)
    ensures match choice
            case Stop(verdict, passed) => done && s == before.(verdict := verdict, passed := passed)
            case Raise => done && s == before.(fault := Some(ProtocolError))
            case Pick(action) =>
              s.actions == before.actions + [action] && (done <==> s.fault != None || s.targetFailure)
              && (s.fault != None ==> s.inFlight)
  {
    broker.CompletedCatalogued();
    var chosen := Choose(config, before, broker.completed, m);
    choice := chosen;
    match chosen
    case Stop(verdict, passed) =>
      AttackStops(config, before, verdict, passed);
      s, done := before.(verdict := verdict, passed := passed), true;
    case Raise =>
      AttackRaises(config, before);
      s, done := before.(fault := Some(ProtocolError)), true;
    case Pick(action) =>
      s := Strike(config, broker, channel, before, action);
      done := s.fault != None || s.targetFailure;
  }

  // Every action is what was chosen then, and an attack that stopped short of its budget without a failure, or
  // raised before it sent a case, was to.
  ghost predicate Paced(config: Config, s: State, moments: seq<Moment>) {
    && (forall i :: 0 <= i < |s.actions| ==> PickedAt(config, s.actions, moments, i))
    && (s.fault == None && !s.targetFailure && |s.actions| < config.budget ==>
          Chooses(config, s.actions, MomentAt(moments, |s.actions|), Stop(s.verdict, s.passed)))
    && (s.fault != None && !s.inFlight && s.events != [] ==>
          Chooses(config, s.actions, MomentAt(moments, |s.actions|), Raise))
  }

  ghost predicate PickedAt(config: Config, actions: seq<CaseId>, moments: seq<Moment>, i: nat)
    requires i < |actions|
  {
    Chooses(config, actions[..i], MomentAt(moments, i), Pick(actions[i]))
  }

  lemma PickedMore(config: Config, actions: seq<CaseId>, moments: seq<Moment>, action: CaseId)
    requires forall i :: 0 <= i < |actions| ==> PickedAt(config, actions, moments, i)
    requires Chooses(config, actions, MomentAt(moments, |actions|), Pick(action))
    ensures forall i :: 0 <= i < |actions| + 1 ==> PickedAt(config, actions + [action], moments, i)
  {
    var more := actions + [action];
    forall i | 0 <= i < |more| ensures PickedAt(config, more, moments, i) {
      if i < |actions| {
        assert PickedAt(config, actions, moments, i) && more[..i] == actions[..i];
      } else {
        assert more[..i] == actions;
      }
    }
  }

  // Tries cases until one is no longer clean, or nothing is left to try.
  method Attack(config: Config, channel: Channel, moments: seq<Moment>) returns (s: State)
    requires config.Valid() && channel.Valid()
    modifies channel.Repr()
    ensures Attacked(config, s) && Linked(channel, s.events) && Paced(config, s, moments)
  {
    var lost: bool := *;
    var ready := channel.Send(Initialize, lost);
    if ready != Responded(Ready) {
      Unstarted(config, channel);
      return BLANK.(fault := Some(ProtocolError));
    }
    s := BLANK.(events := [Initialized]);
    Started(config, channel);
    var broker := new TypedBroker(config.Cases());
    while |s.actions| < config.budget
      invariant broker.Valid() && Attacking(config, s) && Linked(channel, s.events)
      invariant s.log == broker.log && s.results == broker.results
      invariant forall i :: 0 <= i < |s.actions| ==> PickedAt(config, s.actions, moments, i)
      decreases config.budget - |s.actions|
    {
      ghost var actions := s.actions;
      var done;
      ghost var choice;
      s, done, choice := Turn(config, broker, channel, s, MomentAt(moments, |s.actions|));
      if choice.Pick? {
        PickedMore(config, actions, moments, choice.action);
      }
      if done {
        return;
      }
    }
    broker.CompletedCatalogued();
    s := Exhaust(config, s, broker.completed);
  }

  const BLANK := State([], [], [], [], InternalError, false, None, false, false, false, None)

  lemma Unstarted(config: Config, channel: Channel)
    requires config.Valid() && channel.Valid()
    ensures Attacked(config, BLANK.(fault := Some(ProtocolError))) && Linked(channel, [])
  {
  }

  lemma Started(config: Config, channel: Channel)
    requires config.Valid() && channel.Valid()
    ensures Attacking(config, BLANK.(events := [Initialized])) && Linked(channel, [Initialized])
  {
  }

  // The budget ran out, which says less than that the replay or the catalogue did.
  method Exhaust(config: Config, before: State, completed: set<CaseId>) returns (s: State)
    requires config.Valid() && Attacking(config, before) && |before.actions| == config.budget
    requires completed == (set r | r in before.results :: r.caseId) && completed <= config.Cases()
    ensures Attacked(config, s) && s.passed
    ensures s.verdict == ReplayComplete || s.verdict == CoverageConverged || s.verdict == ActionsExhausted
    ensures s.events == before.events && s.actions == before.actions && s.fault == None && !s.targetFailure
    ensures s.verdict == ActionsExhausted ==> config.replay != Some(s.actions) && completed != config.Cases()
  {
    if config.replay.Some? && |before.actions| == |config.replay.value| {
      assert before.actions == config.replay.value;
      AttackStops(config, before, ReplayComplete, true);
      return before.(verdict := ReplayComplete, passed := true);
    }
    if |completed| == |config.Cases()| {
      SameSize(completed, config.Cases());
      AttackStops(config, before, CoverageConverged, true);
      return before.(verdict := CoverageConverged, passed := true);
    }
    AttackStops(config, before, ActionsExhausted, true);
    return before.(verdict := ActionsExhausted, passed := true);
  }
}
