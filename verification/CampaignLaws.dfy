/** What decides the verdict of a campaign, and whether its executor is contained. */
module CampaignLaws {
  import opened Options
  import opened ActionResults
  import opened Repetitions
  import opened CaseExecutor
  import opened Broker
  import opened Campaign
  import opened CampaignOutcome

  // A report of an escape is the verdict exactly if the broker took it; otherwise the case is blamed for its
  // availability, and the executor is contained exactly if it confirms its quarantine or the note of giving it
  // up is written.
  lemma ReportDecides(config: Config, s: State, i: nat)
    requires Settled(config, s) && i < |s.events| && s.events[i].Sent?
    requires s.events[i].raw.Some? && s.events[i].raw.value.SuspectedEscape()
    ensures s.verdict == ESCAPE <==> Accepts(s.events[i].raw.value, i, s.events[i].caseId) && s.events[i].written
    ensures s.verdict != ESCAPE ==>
              && s.verdict == Case(AvailabilityFailure) && s.failedCase == Some(s.events[i].caseId)
              && !s.passed && Ended(s.events) && (Contained(s.events) <==> Last(s.events) != GivenUp(false))
  {
    var e := s.events[i];
    assert JudgedAt(e, i);
    if e.result.Some? {
      assert Escaped(s.events);
    }
  }

  // So what the local executor reports is the verdict exactly if it is within the broker's bounds and can be
  // written.
  lemma HonestReportDecides(config: Config, s: State, seen: bool, i: nat)
    requires Settled(config, s) && Local(s, seen) && 1 <= i <= MAX_ACTIONS
    requires i < |s.events| && s.events[i].Sent?
    requires s.events[i].raw.Some? && s.events[i].raw.value.category == PolicyViolation
    ensures s.verdict == ESCAPE <==> Sized(s.events[i].raw.value) && s.events[i].written
    ensures seen
  {
    ReportDecides(config, s, i);
    HonestAccepted(s.events[i].raw.value, i, s.events[i].caseId);
  }

  // A case that connects once more often than the broker counts is reported as a policy violation, is not
  // taken, and ends the campaign as a failure of availability.
  method EscapeNotTaken(config: Config, caseId: CaseId, noted: bool) returns (s: State)
    requires config.Valid() && config.replay.None? && config.budget >= 1 && caseId in config.catalog
    ensures Settled(config, s) && |s.events| > 1 && s.events[1].Sent? && s.events[1].raw.Some?
    ensures var raw := s.events[1].raw.value;
            raw.category == PolicyViolation && raw.connections > MAX_CONNECTIONS && s.events[1].written
    ensures s.verdict == Case(AvailabilityFailure) && s.failedCase == Some(caseId)
    ensures Contained(s.events) <==> noted
  {
    var executor := new Executor(config.catalog);
    var raw := Overflow(executor, caseId);
    var channel := new Channel(executor);
    var before := BLANK.(events := [Initialized]);
    var missed := [Missed(caseId, Some(raw), true)];
    Started(config, channel);
    MissedLinked(before, missed, channel);
    s := before.(actions := [caseId], inFlight := true, log := [caseId]);
    assert before.actions + [caseId] == [caseId] && before.log + [caseId] == [caseId];
    s := Break(config, before, s, caseId, missed, channel, false, noted);
    assert s.events[1] == (before.events + missed)[1];
    s := Finish(config, s, channel, true);
    s := Settle(config, s);
    ReportDecides(config, s, 1);
  }

  // What the executor reports of it, and that the broker fails to take that.
  method Overflow(executor: Executor, caseId: CaseId) returns (raw: ActionResult)
    requires caseId in executor.cases && !executor.quarantined
    modifies executor
    ensures executor.Valid() && executor.seen.Violated() && Honest(raw, 1, caseId)
    ensures raw.category == PolicyViolation && raw.connections > MAX_CONNECTIONS
  {
    var oracles := Oracles(true, MAX_CONNECTIONS + 1, false);
    executor.session, executor.seen := Some(Session(oracles, {})), oracles;
    var response := executor.Handle(Execute(caseId, 1), Fine(oracles));
    raw := response.result;
    var broker := new TypedBroker({caseId});
    var logged := broker.Log(caseId, true);
    var execution := broker.Take(caseId, Responded(response), true);
    assert execution == Failed(Some(raw), true) && broker.log == [caseId];
  }

  // What the executor finds itself is the verdict exactly if its answer is credible and can be written. An
  // answer that is not credible is a failure of its availability, and one that is not written is one only if
  // a case had failed.
  lemma FindingDecides(config: Config, s: State, i: nat)
    requires Settled(config, s) && i < |s.events| && s.events[i].Finalizing? && !s.events[i].quarantine
    requires s.events[i].answer.Some? && s.events[i].answer.value.status == Quarantined
    ensures i > 0
    ensures s.verdict == ESCAPE <==> Credible(s.events[i].answer.value, false) && s.events[i].written
    ensures s.verdict != ESCAPE ==>
              && !s.passed
              && s.verdict == if Credible(s.events[i].answer.value, false) && Caught(s.events[..i]) == None
                              then PreflightFailure else Case(AvailabilityFailure)
  {
    var e := s.events[i];
    assert HeededAt(s, i);
    assert !Escaped(s.events) by {
      UnrequestedUnescaped(s.events, i);
    }
    if Reads(e, Quarantined) {
      assert SelfQuarantined(s.events);
    } else if s.verdict == ESCAPE {
      var k :| 0 <= k < |s.events| && Reads(s.events[k], Quarantined);
      Single(s, i, k);
    }
  }

  // Only one credible answer was not asked for quarantine.
  lemma Single(s: State, i: nat, k: nat)
    requires Heeded(s) && i < |s.events| && k < |s.events|
    requires Requests(s.events[i], false) && Requests(s.events[k], false) && Taken(s.events[k]).Some?
    ensures i == k
  {
    assert HeededAt(s, i) && HeededAt(s, k);
  }

  lemma UnrequestedUnescaped(events: seq<Event>, i: nat)
    requires Safe(events) && i < |events| && events[i].Finalizing? && !events[i].quarantine
    ensures !Escaped(events)
  {
    if Escaped(events) {
      var j :| 0 <= j < |events| && events[j].Sent? && events[j].result.Some?
        && events[j].result.value.SuspectedEscape();
      assert Suspect(events[j]) && Halts(events[i]);
    }
  }

  // So what the local executor finds is the verdict exactly if no oracle says too much of an error and its
  // answer can be written.
  lemma HonestFindingDecides(config: Config, s: State, seen: bool, i: nat)
    requires Settled(config, s) && Local(s, seen)
    requires i < |s.events| && s.events[i].Finalizing? && !s.events[i].quarantine
    requires s.events[i].answer.Some? && s.events[i].answer.value.Violated()
    ensures var ending := s.events[i].answer.value;
            s.verdict == ESCAPE <==> (ending.error.Some? ==> |ending.error.value| <= MAX_TEXT) && s.events[i].written
    ensures seen
  {
    assert HonestAt(s.events[i], i) && Alleges(s.events[i]);
    TruthfulCredible(s.events[i].answer.value, false);
    FindingDecides(config, s, i);
  }

  // The executor finds a violation when it is finalized, and its answer cannot be written: the campaign ends
  // as if nothing had been tried.
  method FindingNotRead(config: Config) returns (s: State)
    requires config.Valid() && config.replay.None?
    ensures Settled(config, s) && |s.events| == 2 && s.events[1].Finalizing? && !s.events[1].quarantine
    ensures s.events[1].answer.Some? && Taken(s.events[1]) == Some(Quarantined) && !s.events[1].written
    ensures s.verdict == PreflightFailure && s.failedCase == None
  {
    var executor := new Executor(config.catalog);
    var answer := Found(executor);
    var channel := new Channel(executor);
    var before := BLANK.(events := [Initialized]);
    Started(config, channel);
    AttackStops(config, before, TimeExhausted, true);
    before := before.(verdict := TimeExhausted, passed := true);
    s := Heed(config, before, channel, answer, false, true, true);
    s := Settle(config, s);
    FindingDecides(config, s, 1);
  }

  // What the executor then answers.
  method Found(executor: Executor) returns (answer: Answer)
    requires !executor.quarantined
    modifies executor
    ensures executor.Valid() && executor.seen.Violated() && Heard(answer).Some?
    ensures Truthful(Heard(answer).value, false) && Heard(answer).value.Violated() && Credible(Heard(answer).value, false)
  {
    var oracles := Oracles(false, 0, false);
    executor.session, executor.seen := Some(Session(oracles, {})), oracles;
    var response := executor.Handle(Finalize(false), Fine(oracles));
    answer := Responded(response);
    TruthfulCredible(response.ending, false);
  }

  // A case escapes, time runs out, and nothing more is asked of the executor, which is not ended either.
  method EscapeNotFollowed(config: Config, caseId: CaseId) returns (s: State)
    requires config.Valid() && config.replay.None? && config.budget >= 1 && caseId in config.catalog
    ensures Settled(config, s) && s.verdict == ESCAPE && Escaped(s.events) && !Contained(s.events)
    ensures |s.events| == 2 && s.events[0] == Initialized && s.events[1].Sent?
  {
    var channel := new Channel(null);
    var before := BLANK.(events := [Initialized]);
    Started(config, channel);
    var result :=
      ActionResult(1, caseId, PolicyViolation, Some(0), false, false, 0, true, 0, "", None, "", "");
    s := before.(actions := [caseId], log := [caseId], results := [result], inFlight := true);
    assert before.actions + [caseId] == [caseId] && before.log + [caseId] == [caseId];
    assert before.results + [result] == [result];
    s := Hear(config, before, s, caseId, result, channel);
    s := Finish(config, s, channel, false);
    s := Settle(config, s);
    EscapeContained(config, s);
  }
}
