/** How a campaign ends: the finalization of its executor, what it makes of a fault, and the reruns that
    shrink a failure. */
module CampaignOutcome {
  import opened Options
  import opened ActionResults
  import opened CaseExecutor
  import opened Broker
  import opened Campaign

  // A case of the run escaped, or the controller read that the executor found a violation itself.
  ghost predicate Violated(events: seq<Event>) {
    Escaped(events) || SelfQuarantined(events)
  }

  // A finalized run fails as its events say, or was clean and its executor passed the last check.
  ghost predicate Concluded(config: Config, s: State) {
    && |s.events| > 1 && Last(s.events).Finalizing? && Taken(Last(s.events)).Some? && Last(s.events).written
    && Earned(config, s) && |s.actions| == |s.results|
    && (Last(s.events).quarantine <==> Escaped(s.events))
    && (if s.targetFailure
        then !s.passed && Fails(s.events) == Some(Failure(s.verdict, s.failedCase))
        else
          && Fails(s.events) == None && s.failedCase == None && (s.passed <==> s.verdict != ReplayIncomplete)
          && Calm(s.events[..|s.events| - 1]) && Reads(Last(s.events), Succeeded))
  }

  // A finalization that was not asked for quarantine fails if its answer is not credible; one whose answer
  // cannot be written is a fault as well, but leaves what the attack found.
  ghost predicate Heeded(s: State) {
    forall i {:trigger HeededAt(s, i)} ::
      0 <= i < |s.events| && s.events[i].Finalizing? && !s.events[i].quarantine ==> HeededAt(s, i)
  }

  ghost predicate HeededAt(s: State, i: nat)
    requires i < |s.events| && s.events[i].Finalizing?
  {
    && i > 0 && !s.inFlight
    && if Taken(s.events[i]).None? then s.finalizing && s.fault != None
       else
         && i == |s.events| - 1 && !s.finalizing
         && (!s.events[i].written ==>
               s.fault == Some(ProtocolError) && (s.targetFailure <==> Caught(s.events[..i]).Some?))
  }

  // An executor that a case escaped from is asked for nothing, if time ran out, is lost, or is quarantined or
  // given up.
  ghost predicate EscapeEnds(s: State) {
    Escaped(s.events) ==>
      && s.events != []
      && (|| (Last(s.events).Sent? && s.fault == Some(ProtocolError))
          || (Last(s.events).Finalizing? && Taken(Last(s.events)).None? && s.fault == Some(LostExecutor))
          || (Ended(s.events) && s.fault != Some(LostExecutor)))
  }

  ghost predicate Finished(config: Config, s: State) {
    && Safe(s.events) && Judged(s.events) && Unanswered(s)
    && Recorded(s.events, s.actions, s.log, s.results) && Keeps(config, s)
    && (s.verdict == ESCAPE <==> Violated(s.events))
    && (s.failedCase.Some? ==> s.actions != [] && s.failedCase == Some(s.actions[|s.actions| - 1]))
    && (s.inFlight ==> s.actions != [] && s.fault != None && s.verdict != ESCAPE)
    && (!s.inFlight ==> |s.actions| == |s.results|)
    && (s.fault == Some(ProtocolError) && (s.inFlight || s.finalizing) ==> Ended(s.events))
    && Heeded(s) && EscapeEnds(s)
    && (s.fault == None ==> !s.inFlight && !s.finalizing && Concluded(config, s))
  }

  lemma RecordedLonger(
    events: seq<Event>, more: seq<Event>, actions: seq<CaseId>, log: seq<CaseId>, results: seq<ActionResult>)
    requires Recorded(events, actions, log, results) && events <= more
    ensures Recorded(more, actions, log, results)
  {
  }

  // The verdict on the local executor, unless a fault cut the campaign short, is what its oracles saw.
  ghost predicate Tells(channel: Channel, s: State)
    reads channel, channel.executor
  {
    channel.executor != null && s.fault == None ==> (s.verdict == ESCAPE <==> channel.Seen())
  }

  // What the answer of the local executor to a finalization says, by its end.
  ghost predicate Meets(channel: Channel, requested: bool, answer: Answer)
    reads channel, channel.executor
  {
    channel.executor != null && Heard(answer).Some? ==>
      && Truthful(Heard(answer).value, requested) && (Heard(answer).value.Violated() <==> channel.Seen())
      && (requested ==> channel.executor.quarantined)
  }

  // Finalizes the executor, if the budget lasts, and asks for quarantine exactly when a case escaped.
  method Finish(config: Config, before: State, channel: Channel, inTime: bool) returns (s: State)
    requires Attacked(config, before) && Linked(channel, before.events)
    modifies channel.Repr()
    ensures Finished(config, s) && Linked(channel, s.events) && Tells(channel, s) && before.events <= s.events
    ensures before.fault != None ==> s == before
    ensures before.fault == None && !inTime ==> s == before.(fault := Some(ProtocolError))
    ensures before.fault == None && inTime ==>
              |s.events| > |before.events| && Requests(s.events[|before.events|], Escaped(s.events))
    ensures Escaped(s.events) ==> (Last(s.events).Sent? <==> !inTime)
  {
    s := before;
    if before.fault != None {
      UnaskedFinished(config, s);
      return;
    }
    if !inTime {
      s := s.(fault := Some(ProtocolError));
      UnaskedFinished(config, s);
      return;
    }
    var requested := s.verdict == ESCAPE;
    var lost: bool := *;
    var answer := channel.Send(Finalize(requested), lost);
    var written: bool, again: bool, noted: bool := *, *, *;
    s := Heed(config, before, channel, answer, written, again, noted);
    LastAsked(s.events, before.events, Finalizing(requested, Heard(answer), written));
  }

  lemma LastAsked(events: seq<Event>, before: seq<Event>, e: Event)
    requires Safe(events) && before + [e] <= events && e.Finalizing?
    ensures before <= events && |before| < |events| && events[|before|] == e && !Last(events).Sent?
  {
    var n := |before|;
    assert events[n] == (before + [e])[n] == e;
    assert forall i :: 0 <= i < n ==> events[i] == (before + [e])[i] == before[i];
  }

  predicate Requests(e: Event, quarantine: bool) {
    e.Finalizing? && e.quarantine == quarantine
  }

  lemma UnaskedFinished(config: Config, s: State)
    requires s.fault != None
    requires Attacked(config, s) || (s.fault == Some(ProtocolError) && Attacked(config, s.(fault := None)))
    ensures Finished(config, s)
  {
  }

  // Takes the answer to the finalization, if it is credible and can be written.
  method Heed(
    config: Config, before: State, channel: Channel, answer: Answer, written: bool, again: bool, noted: bool)
      returns (s: State)
    requires Attacked(config, before) && Halted(config, before) && Linked(channel, before.events)
    requires Meets(channel, before.verdict == ESCAPE, answer)
    modifies channel.Repr()
    ensures Finished(config, s) && Linked(channel, s.events) && Tells(channel, s)
    ensures var e := Finalizing(before.verdict == ESCAPE, Heard(answer), written);
            before.events + [e] <= s.events && (Taken(e).Some? ==> s.events == before.events + [e])
    ensures Escaped(s.events) <==> Escaped(before.events)
  {
    var e := Finalizing(before.verdict == ESCAPE, Heard(answer), written);
    Asked(config, before, channel, answer, e);
    s := before.(events := before.events + [e]);
    if Taken(e).None? {
      s := Falter(config, before, s, e, answer.Unavailable?, channel, again, noted);
    } else if !written {
      s := s.(fault := Some(ProtocolError));
      Dropped(config, before, s, e);
    } else {
      Told(before, channel, answer, e);
      s := Conclude(config, before, s, e);
    }
  }

  lemma Asked(config: Config, before: State, channel: Channel, answer: Answer, e: Event)
    requires Attacked(config, before) && Halted(config, before) && Linked(channel, before.events)
    requires e.Finalizing? && e.quarantine == (before.verdict == ESCAPE) && e.answer == Heard(answer)
    requires Meets(channel, e.quarantine, answer)
    ensures var events := before.events + [e];
            && Safe(events) && Judged(events) && Linked(channel, events) && (Escaped(events) <==> Escaped(before.events))
            && Recorded(events, before.actions, before.log, before.results)
  {
    Add(before.events, e);
    RecordedLonger(before.events, before.events + [e], before.actions, before.log, before.results);
  }

  // A credible answer of the local executor tells what its oracles saw.
  lemma Told(before: State, channel: Channel, answer: Answer, e: Event)
    requires Judged(before.events) && Linked(channel, before.events)
    requires e.Finalizing? && e.quarantine == Escaped(before.events) && e.answer == Heard(answer) && Taken(e).Some?
    requires Meets(channel, e.quarantine, answer)
    ensures channel.executor != null ==> (Taken(e) == Some(Quarantined) <==> channel.Seen())
  {
    EscapedReported(before.events);
  }

  lemma EscapedReported(events: seq<Event>)
    requires Judged(events)
    ensures Escaped(events) ==> Reported(events)
  {
    if Escaped(events) {
      var i :| 0 <= i < |events| && events[i].Sent? && events[i].result.Some?
        && events[i].result.value.SuspectedEscape();
      assert JudgedAt(events[i], i) && Alleges(events[i]);
    }
  }

  // The answer is not written, and what the executor found is not read.
  lemma Dropped(config: Config, before: State, s: State, e: Event)
    requires Attacked(config, before) && Halted(config, before)
    requires e.Finalizing? && Taken(e).Some? && !e.written && (e.quarantine <==> Escaped(before.events))
    requires s == before.(events := before.events + [e], fault := Some(ProtocolError))
    requires Safe(s.events) && Judged(s.events) && Recorded(s.events, s.actions, s.log, s.results)
    requires Escaped(s.events) <==> Escaped(before.events)
    ensures Finished(config, s)
  {
    Concluding(before, s.events, e);
    FailsOf(before.events, e);
  }

  // The finalization failed: the executor is gone, or is quarantined or given up.
  method Falter(
    config: Config, before: State, sent: State, e: Event, lost: bool, channel: Channel, again: bool, noted: bool)
      returns (s: State)
    requires Attacked(config, before) && Halted(config, before)
    requires Safe(sent.events) && Judged(sent.events) && Linked(channel, sent.events)
    requires sent == before.(events := before.events + [e]) && (Escaped(sent.events) <==> Escaped(before.events))
    requires e.Finalizing? && Taken(e).None?
    requires Recorded(sent.events, sent.actions, sent.log, sent.results)
    modifies channel.Repr()
    ensures Finished(config, s) && Linked(channel, s.events) && s.fault != None && sent.events <= s.events
    ensures Escaped(s.events) <==> Escaped(before.events)
  {
    s := sent;
    if !lost {
      var events := Quarantine(s.events, channel, again, noted);
      RecordedLonger(s.events, events, s.actions, s.log, s.results);
      s := s.(events := events);
    }
    s := s.(finalizing := true, fault := Some(if lost then LostExecutor else ProtocolError));
    Faltered(before, s);
  }

  lemma Faltered(before: State, s: State)
    requires Unanswered(before) && !before.inFlight && Unasked(before.events) && before.events <= s.events
    requires before.events != [] && s.finalizing && s.fault != None && !s.inFlight
    requires forall i :: |before.events| <= i < |s.events| ==>
               !s.events[i].Sent? && (s.events[i].Finalizing? ==> s.events[i].quarantine || Taken(s.events[i]).None?)
    ensures Unanswered(s) && !SelfQuarantined(s.events) && Heeded(s)
  {
    forall i | 0 <= i < |before.events| ensures s.events[i] == before.events[i] {
    }
  }

  // What the answer to the finalization means for the campaign.
  method Conclude(config: Config, before: State, sent: State, e: Event) returns (s: State)
    requires Attacked(config, before) && Halted(config, before)
    requires e.Finalizing? && Taken(e).Some? && e.written && e.quarantine == (before.verdict == ESCAPE)
    requires sent == before.(events := before.events + [e]) && Safe(sent.events) && Judged(sent.events)
    requires Recorded(sent.events, sent.actions, sent.log, sent.results)
    requires Escaped(sent.events) <==> Escaped(before.events)
    ensures Finished(config, s) && s.fault == None && s.events == sent.events
    ensures s.verdict == ESCAPE <==> Taken(e) == Some(Quarantined)
  {
    s := sent;
    Concluding(before, sent.events, e);
    FailsOf(before.events, e);
    match Taken(e).value
    case Succeeded =>
    case Quarantined =>
      if !e.quarantine {
        s := s.(verdict := ESCAPE, failedCase := None, passed := false, targetFailure := true);
      }
    case Failing =>
      if !s.targetFailure {
        s := s.(verdict := CanaryFailed, failedCase := None);
      }
      s := s.(passed := false, targetFailure := true);
  }

  // How a run fails that ends in a finalization.
  lemma FailsOf(events: seq<Event>, e: Event)
    requires events != [] && Unasked(events)
    ensures var more := events + [e];
            && more[..|more| - 1] == events && Last(more) == e
            && (SelfQuarantined(more) <==> Reads(e, Quarantined))
            && Fails(more) == if Reads(e, Quarantined) then Some(Failure(ESCAPE, None))
                              else if Caught(events).Some? then Caught(events)
                              else if Reads(e, Failing) then Some(Failure(CanaryFailed, None))
                              else None
  {
    var more := events + [e];
    assert more[..|more| - 1] == events;
    if Reads(e, Quarantined) {
      assert more[|events|] == e;
    }
  }

  lemma Concluding(before: State, events: seq<Event>, e: Event)
    requires Unanswered(before) && !before.inFlight && events == before.events + [e] && e.Finalizing?
    ensures forall i :: 0 <= i < |events| && events[i].Sent? ==> events[i].result.Some?
  {
  }

  // A fault fails the campaign, and never takes back an escape.
  ghost predicate Settled(config: Config, s: State) {
    && Finished(config, s)
    && (s.fault != None ==>
          && !s.passed
          && (s.verdict != ESCAPE ==>
                s.verdict == if s.targetFailure then Case(AvailabilityFailure) else PreflightFailure)
          && (s.targetFailure && s.actions != [] ==> s.failedCase.Some?)
          && (s.inFlight || s.finalizing ==> s.targetFailure))
  }

  // What is blamed changes neither what was heeded nor how an escape ends.
  lemma KeptHeeded(before: State, s: State)
    requires Heeded(before) && EscapeEnds(before) && (before.fault == None ==> Confirmed(before.events) || !Escaped(before.events))
    requires s.events == before.events && s.inFlight == before.inFlight && s.finalizing == before.finalizing
    requires s.fault == before.fault || (before.fault == None && s.fault == Some(ProtocolError))
    requires s.targetFailure == (before.targetFailure || before.inFlight || before.finalizing)
    ensures Heeded(s) && EscapeEnds(s)
  {
    forall i | 0 <= i < |s.events| && s.events[i].Finalizing? && !s.events[i].quarantine ensures HeededAt(s, i) {
      assert HeededAt(before, i);
    }
  }

  // Closes the executor, which may fail too, and settles what is to be reported.
  method Settle(config: Config, before: State) returns (s: State)
    requires Finished(config, before)
    ensures Settled(config, s) && s.events == before.events
    ensures before.fault != None ==> s.fault == before.fault
    ensures before.verdict == ESCAPE <==> s.verdict == ESCAPE
    ensures s.fault == None ==> s == before
  {
    s := before;
    var broken: bool := *;
    if broken && s.fault == None {
      s := s.(fault := Some(ProtocolError));
    }
    if s.fault == None {
      return;
    }
    s := s.(targetFailure := s.targetFailure || s.inFlight || s.finalizing, passed := false);
    if s.verdict != ESCAPE {
      s := s.(verdict := if s.targetFailure then Case(AvailabilityFailure) else PreflightFailure);
    }
    if s.targetFailure && s.actions != [] && s.failedCase == None {
      s := s.(failedCase := Some(s.actions[|s.actions| - 1]));
    }
    KeptFinished(config, before, s);
  }

  lemma KeptFinished(config: Config, before: State, s: State)
    requires Finished(config, before) && s.fault != None
    requires s.fault == before.fault || (before.fault == None && s.fault == Some(ProtocolError))
    requires s == before.(fault := s.fault, targetFailure := before.targetFailure || before.inFlight || before.finalizing,
                          passed := false, verdict := s.verdict, failedCase := s.failedCase)
    requires s.verdict == ESCAPE <==> before.verdict == ESCAPE
    requires s.failedCase == before.failedCase || (s.actions != [] && s.failedCase == Some(s.actions[|s.actions| - 1]))
    ensures Finished(config, s)
  {
    KeptHeeded(before, s);
  }

  // A rerun of some of the actions, and whether it failed alike, unless it broke off.
  datatype Rerun = Rerun(candidate: seq<CaseId>, events: seq<Event>, reproduced: Option<bool>)

  // The cases sent are the first of the candidate, in order.
  ghost predicate Follows(events: seq<Event>, candidate: seq<CaseId>) {
    forall i :: 0 <= i < |events| && events[i].Sent? ==>
      1 <= i <= |candidate| && events[i].caseId == candidate[i - 1]
  }

  // A rerun breaks off while it sends the cases exactly if the executor was not ready, its last case got no result,
  // or time ran out after so many.
  ghost predicate BreaksOff(candidate: seq<CaseId>, events: seq<Event>, time: nat) {
    || events == []
    || (Last(events).Sent? && Last(events).result.None?)
    || (Calm(events) && |events| == time + 1 <= |candidate|)
  }

  // Sends a candidate to an executor of its own until a case is no longer clean, if there is time for so many.
  method SendAll(candidate: seq<CaseId>, channel: Channel, time: nat) returns (events: seq<Event>, broke: bool)
    requires channel.Valid()
    modifies channel.Repr()
    ensures channel.Valid() && Safe(events) && Judged(events) && Follows(events, candidate)
    ensures !broke ==> events != [] && !Last(events).Finalizing? && Unasked(events)
    ensures !broke ==> (Escaped(events) <==> Caught(events).Some? && Caught(events).value.verdict == ESCAPE)
    ensures !broke && Caught(events) == None ==> |events| == |candidate| + 1 && Calm(events)
    ensures broke <==> BreaksOff(candidate, events, time)
    ensures !broke && (Caught(events) == None || Caught(events).value.verdict != ESCAPE) ==> Unsuspected(events)
  {
    events, broke := [], true;
    var lost: bool := *;
    var ready := channel.Send(Initialize, lost);
    if ready != Responded(Ready) {
      return;
    }
    events := [Initialized];
    for i := 0 to |candidate|
      invariant channel.Valid()
      invariant Calm(events) && Judged(events) && |events| == i + 1 && Follows(events, candidate) && i <= time
    {
      CalmSafe(events);
      if i == time {
        return;
      }
      lost := *;
      var answer := channel.Send(Execute(candidate[i], i + 1), lost);
      var e := Judge(candidate[i], i + 1, answer);
      CalmMore(events, e);
      JudgedMore(events, e);
      events := events + [e];
      if e.result.None? {
        return;
      }
      if e.result.value.Anomaly() {
        broke := false;
        return;
      }
    }
    CalmSafe(events);
    broke := false;
  }

  // What a rerun makes of an answer, which it does not write.
  function Judge(caseId: CaseId, sequence: nat, answer: Answer): (e: Event)
    ensures e.Sent? && e.caseId == caseId && JudgedAt(e, sequence)
  {
    match answer
    case Responded(Report(raw)) =>
      if Accepts(raw, sequence, caseId) then Kept(caseId, raw) else Missed(caseId, Some(raw), true)
    case _ => Missed(caseId, None, true)
  }

  ghost predicate RerunOf(r: Rerun, expected: Failure) {
    && Safe(r.events) && Follows(r.events, r.candidate)
    && (r.reproduced.Some? ==>
          && |r.events| > 1 && Last(r.events).Finalizing? && (Last(r.events).quarantine <==> Escaped(r.events))
          && Last(r.events).written && Taken(Last(r.events)).Some?
          && (r.reproduced.value <==> Fails(r.events) == Some(expected)))
  }

  // The connection of a run: to an executor of its own, or to the external command.
  method Connect(config: Config) returns (channel: Channel)
    ensures channel.Valid() && fresh(channel) && fresh(channel.Repr()) && (channel.executor != null <==> config.local)
  {
    if config.local {
      var executor := new Executor(config.catalog);
      channel := new Channel(executor);
    } else {
      channel := new Channel(null);
    }
  }

  // Whether a candidate fails as expected. A rerun breaks off, too, if its answers cannot be written or its
  // connection does not close.
  method Reproduce(config: Config, candidate: seq<CaseId>, expected: Failure, time: nat, inTime: bool, written: bool, closed: bool)
      returns (r: Rerun)
    ensures r.candidate == candidate && RerunOf(r, expected)
    ensures r.reproduced == None ==>
              || BreaksOff(candidate, r.events, time) || !inTime || !written || !closed
              || (Last(r.events).Finalizing? && Taken(Last(r.events)).None?)
    ensures r.reproduced.Some? ==> inTime && written && closed
  {
    var channel := Connect(config);
    var events, broke := SendAll(candidate, channel, time);
    r := Rerun(candidate, events, None);
    if broke || !inTime {
      return;
    }
    var observed := Caught(events);
    var requested := observed.Some? && observed.value.verdict == ESCAPE;
    var lost: bool := *;
    var answer := channel.Send(Finalize(requested), lost);
    var e := Finalizing(requested, Heard(answer), written);
    Add(events, e);
    FailsOf(events, e);
    r := r.(events := events + [e]);
    if Taken(e).None? || !written || !closed {
      return;
    }
    if Taken(e) == Some(Quarantined) && !requested {
      observed := Some(Failure(ESCAPE, None));
    } else if Taken(e) == Some(Failing) && observed == None {
      observed := Some(Failure(CanaryFailed, None));
    }
    r := r.(reproduced := Some(observed == Some(expected)));
  }

  // The actions without the first of them, when a case failed last, or else without the last of them.
  function Shrunk(actions: seq<CaseId>, suffix: bool, n: nat): (r: seq<CaseId>)
    requires n <= |actions|
    ensures |r| == |actions| - n
  {
    if suffix then actions[n..] else actions[..|actions| - n]
  }

  lemma ShrunkNone(actions: seq<CaseId>, suffix: bool)
    ensures Shrunk(actions, suffix, 0) == actions
  {
  }

  // The actions with one more dropped.
  function Next(actions: seq<CaseId>, suffix: bool): seq<CaseId>
    requires actions != []
  {
    if suffix then actions[1..] else actions[..|actions| - 1]
  }

  lemma ShrunkNext(actions: seq<CaseId>, suffix: bool, n: nat)
    requires n < |actions|
    ensures Next(Shrunk(actions, suffix, n), suffix) == Shrunk(actions, suffix, n + 1)
  {
  }

  // How many reruns failed alike before one did not.
  function Reproduced(reruns: seq<Rerun>): (n: nat)
    ensures n <= |reruns|
  {
    if reruns == [] || reruns[|reruns| - 1].reproduced == Some(true) then |reruns| else |reruns| - 1
  }

  // The reruns drop one action more each, for as long as the failure is reproduced.
  ghost predicate Shrinking(actions: seq<CaseId>, expected: Failure, reruns: seq<Rerun>) {
    && |reruns| < |actions|
    && (forall k :: 0 <= k < |reruns| ==>
          && reruns[k].candidate == Shrunk(actions, expected.caseId.Some?, k + 1)
          && RerunOf(reruns[k], expected))
    && (forall k :: 0 <= k < |reruns| - 1 ==> reruns[k].reproduced == Some(true))
  }

  // All of them did so far, and left these actions.
  ghost predicate Shrinks(actions: seq<CaseId>, expected: Failure, reruns: seq<Rerun>, shortest: seq<CaseId>) {
    && Shrinking(actions, expected, reruns) && shortest == Shrunk(actions, expected.caseId.Some?, |reruns|)
    && forall k :: 0 <= k < |reruns| ==> reruns[k].reproduced == Some(true)
  }

  lemma ShrinksMore(actions: seq<CaseId>, expected: Failure, reruns: seq<Rerun>, shortest: seq<CaseId>, rerun: Rerun)
    requires Shrinks(actions, expected, reruns, shortest) && |shortest| > 1
    requires RerunOf(rerun, expected) && rerun.candidate == Next(shortest, expected.caseId.Some?)
    ensures Shrinking(actions, expected, reruns + [rerun])
    ensures if rerun.reproduced == Some(true) then Shrinks(actions, expected, reruns + [rerun], rerun.candidate)
            else shortest == Shrunk(actions, expected.caseId.Some?, Reproduced(reruns + [rerun]))
  {
    ShrunkNext(actions, expected.caseId.Some?, |reruns|);
  }

  lemma ShrinksEnd(actions: seq<CaseId>, expected: Failure, reruns: seq<Rerun>, shortest: seq<CaseId>)
    requires Shrinks(actions, expected, reruns, shortest)
    ensures shortest == Shrunk(actions, expected.caseId.Some?, Reproduced(reruns))
    ensures reruns != [] ==> reruns[|reruns| - 1].reproduced == Some(true)
  {
  }

  // The reruns stop at one that did not fail alike, or only when the attempts, the time, or the actions are used up.
  ghost predicate Stops(config: Config, actions: seq<CaseId>, reruns: seq<Rerun>, time: nat) {
    && |reruns| <= config.attempts && |reruns| <= time
    && ((reruns != [] && reruns[|reruns| - 1].reproduced != Some(true))
        || |reruns| == config.attempts || |reruns| == time || |reruns| + 1 == |actions|)
  }

  // Shrinks the actions of a failure, unless a rerun breaks off or the result cannot be written. There is time to
  // start so many reruns.
  method Minimize(config: Config, actions: seq<CaseId>, expected: Failure, time: nat, written: bool)
      returns (minimized: Option<seq<CaseId>>, reruns: seq<Rerun>)
    requires actions != []
    ensures Shrinking(actions, expected, reruns) && Stops(config, actions, reruns, time)
    ensures minimized == None <==> !written || (reruns != [] && reruns[|reruns| - 1].reproduced == None)
    ensures minimized.Some? ==> minimized.value == Shrunk(actions, expected.caseId.Some?, Reproduced(reruns))
  {
    var shortest := actions;
    reruns := [];
    ShrunkNone(actions, expected.caseId.Some?);
    while |reruns| < config.attempts && |shortest| > 1
      invariant Shrinks(actions, expected, reruns, shortest) && |reruns| <= config.attempts && |reruns| <= time
      decreases |shortest|
    {
      if |reruns| == time {
        break;
      }
      var cases: nat, inTime: bool, noted: bool, closed: bool := *, *, *, *;
      var rerun := Reproduce(config, Next(shortest, expected.caseId.Some?), expected, cases, inTime, noted, closed);
      ShrinksMore(actions, expected, reruns, shortest, rerun);
      reruns := reruns + [rerun];
      if rerun.reproduced != Some(true) {
        return if written && rerun.reproduced.Some? then Some(shortest) else None, reruns;
      }
      shortest := rerun.candidate;
    }
    ShrinksEnd(actions, expected, reruns, shortest);
    return if written then Some(shortest) else None, reruns;
  }

  datatype Outcome = Outcome(state: State, minimized: Option<seq<CaseId>>, reruns: seq<Rerun>)

  // A campaign that passed had only clean cases, each with its result, none of which escaped, and an
  // executor that was finalized cleanly.
  lemma PassedMeansClean(config: Config, s: State)
    requires Settled(config, s) && s.passed
    ensures s.fault == None && s.failedCase == None && !Violated(s.events)
    ensures s.log == s.actions && |s.results| == |s.actions|
    ensures forall i :: 0 <= i < |s.results| ==> s.results[i].category == Passed && s.results[i].Clean()
    ensures Reads(Last(s.events), Succeeded)
  {
  }

  // What a run against the local executor says of its reports, and of what its oracles saw by its end.
  ghost predicate Local(s: State, seen: bool) {
    && AllHonest(s.events) && (Reported(s.events) ==> seen)
    && (s.fault == None ==> (s.verdict == ESCAPE <==> seen))
    && (s.passed ==> !seen)
  }

  // An executor that a case escaped from ends contained exactly if the budget lasted to the finalization, it was
  // not lost in that, and it confirmed its quarantine or the note of giving it up was written.
  lemma EscapeContained(config: Config, s: State)
    requires Settled(config, s) && Escaped(s.events)
    ensures Contained(s.events) <==>
              && !Last(s.events).Sent? && s.fault != Some(LostExecutor) && Last(s.events) != GivenUp(false)
    ensures s.verdict == ESCAPE && !s.passed
  {
  }

  // Runs a campaign, whose budget lasts to the finalization or not.
  method RunCampaign(config: Config, inTime: bool, time: Option<nat>, written: bool) returns (outcome: Outcome, ghost seen: bool)
    requires config.Valid()
    ensures Settled(config, outcome.state)
    ensures Reruns(config, outcome) && Minimizes(config, outcome, time, written)
    ensures config.local ==> Local(outcome.state, seen)
    ensures var s := outcome.state;
            Escaped(s.events) ==>
              (Contained(s.events) <==> inTime && s.fault != Some(LostExecutor) && Last(s.events) != GivenUp(false))
  {
    var s;
    s, seen := Conduct(config, inTime);
    outcome := Shorten(config, s, time, written);
    if Escaped(s.events) {
      EscapeContained(config, s);
    }
  }

  method Conduct(config: Config, inTime: bool) returns (s: State, ghost seen: bool)
    requires config.Valid()
    ensures Settled(config, s)
    ensures config.local ==> Local(s, seen)
    ensures Escaped(s.events) ==> (Last(s.events).Sent? <==> !inTime)
  {
    var channel := Connect(config);
    var moments: seq<Moment> := *;
    s := Attack(config, channel, moments);
    s := Finish(config, s, channel, inTime);
    seen := channel.Seen();
    var finished := s;
    s := Settle(config, finished);
    if config.local {
      SettledLocal(config, channel, finished, s);
    }
  }

  lemma SettledLocal(config: Config, channel: Channel, before: State, s: State)
    requires Linked(channel, before.events) && Tells(channel, before) && channel.executor != null
    requires Settled(config, s) && s.events == before.events && (s.fault == None ==> s == before)
    ensures Local(s, channel.Seen())
  {
    if s.passed {
      PassedMeansClean(config, s);
    }
  }

  // A failure of the target is to be minimized, but no escape from a local one.
  predicate Due(config: Config, s: State) {
    && !s.passed && config.minimize && s.actions != [] && s.targetFailure && s.fault == None
    && !(s.verdict == ESCAPE && config.local)
  }

  // Exactly those are, if there is time, until the reruns stop.
  ghost predicate Minimizes(config: Config, outcome: Outcome, time: Option<nat>, written: bool) {
    if Due(config, outcome.state) && time.Some? then
      && Stops(config, outcome.state.actions, outcome.reruns, time.value)
      && (outcome.minimized == None <==>
            !written || (outcome.reruns != [] && outcome.reruns[|outcome.reruns| - 1].reproduced == None))
    else outcome.minimized == None && outcome.reruns == []
  }

  // Minimizes a failure, if it is to be and there is time for so many reruns.
  method Shorten(config: Config, s: State, time: Option<nat>, written: bool) returns (outcome: Outcome)
    requires Settled(config, s)
    ensures outcome.state == s && Reruns(config, outcome) && Minimizes(config, outcome, time, written)
  {
    outcome := Outcome(s, None, []);
    if s.passed || !config.minimize || s.actions == [] || !s.targetFailure || s.fault != None || time.None? {
      return;
    }
    if s.verdict == ESCAPE && config.local {
      return;
    }
    var minimized, reruns := Minimize(config, s.actions, Failure(s.verdict, s.failedCase), time.value, written);
    outcome := Outcome(s, minimized, reruns);
  }

  // A failure is rerun only when it is the target's and the run was not cut short, and one that escaped
  // only on targets from outside; what is reported is the shortest that still fails as the run did.
  ghost predicate Reruns(config: Config, outcome: Outcome) {
    var s := outcome.state;
    outcome.reruns != [] || outcome.minimized.Some? ==>
      && config.minimize && s.fault == None && s.targetFailure && s.actions != []
      && !(s.verdict == ESCAPE && config.local)
      && |outcome.reruns| <= config.attempts
      && Shrinking(s.actions, Failure(s.verdict, s.failedCase), outcome.reruns)
      && (outcome.minimized.Some? ==>
            outcome.minimized.value == Shrunk(s.actions, s.failedCase.Some?, Reproduced(outcome.reruns)))
  }

  // What is reported as minimized is some of the actions, and ends in the case that failed, if one did.
  lemma MinimizedEnds(config: Config, outcome: Outcome)
    requires Settled(config, outcome.state) && Reruns(config, outcome) && outcome.minimized.Some?
    ensures
      var s, minimized := outcome.state, outcome.minimized.value;
      && 1 <= |minimized| <= |s.actions|
      && (if s.failedCase.Some? then minimized == s.actions[|s.actions| - |minimized|..] else minimized <= s.actions)
      && (s.failedCase.Some? ==> minimized[|minimized| - 1] == s.failedCase.value)
  {
    var n := Reproduced(outcome.reruns);
    var s := outcome.state;
    assert Shrinking(s.actions, Failure(s.verdict, s.failedCase), outcome.reruns);
    assert n < |s.actions|;
  }

  // If it is shorter, a rerun of it failed as the campaign did.
  lemma MinimizedFails(config: Config, outcome: Outcome) returns (r: Rerun)
    requires Settled(config, outcome.state) && Reruns(config, outcome) && outcome.minimized.Some?
    requires outcome.minimized.value != outcome.state.actions
    ensures var s := outcome.state;
            && r in outcome.reruns && r.candidate == outcome.minimized.value && |r.events| > 1 && |s.events| > 1
            && Fails(r.events) == Fails(s.events) == Some(Failure(s.verdict, s.failedCase))
  {
    var s, n := outcome.state, Reproduced(outcome.reruns);
    ShrunkNone(s.actions, s.failedCase.Some?);
    r := outcome.reruns[n - 1];
    RerunFails(s.actions, Failure(s.verdict, s.failedCase), outcome.reruns, n);
  }

  lemma RerunFails(actions: seq<CaseId>, expected: Failure, reruns: seq<Rerun>, n: nat)
    requires Shrinking(actions, expected, reruns) && n == Reproduced(reruns) && n > 0
    ensures reruns[n - 1].candidate == Shrunk(actions, expected.caseId.Some?, n) && RerunOf(reruns[n - 1], expected)
    ensures reruns[n - 1].reproduced == Some(true)
  {
  }
}
