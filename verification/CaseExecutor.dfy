/** The executor of adversarial cases: how it classifies a case, when it stops dispatching, and its
    quarantine. */
module CaseExecutor {
  import opened Options
  import opened ActionResults
  import opened Repetitions

  // What a report shows of a category.
  predicate Shows(r: ActionResult, category: Category) {
    match category
    case PolicyViolation => !r.canaryIntact || r.connections != 0
    case Timeout => r.timedOut
    case AvailabilityFailure => !r.teardown
    case TestFailure => r.returncode != Some(0)
    case Passed => true
    case ExecutorError => false
  }

  function Rank(category: Category): nat {
    match category
    case PolicyViolation => 0
    case ExecutorError => 1
    case Timeout => 2
    case AvailabilityFailure => 3
    case TestFailure => 4
    case Passed => 5
  }

  // The category is the gravest that the report shows.
  ghost predicate Gravest(r: ActionResult) {
    Shows(r, r.category) && forall category :: Shows(r, category) ==> Rank(r.category) <= Rank(category)
  }

  // What the executor reports of a case.
  ghost predicate Honest(r: ActionResult, sequence: nat, caseId: CaseId) {
    Consistent(r) && Gravest(r) && Sampled(r) && r.sequence == sequence && r.caseId == caseId
  }

  // The broker takes such a report exactly when it is within the bounds.
  lemma HonestAccepted(r: ActionResult, sequence: nat, caseId: CaseId)
    requires Honest(r, sequence, caseId) && 1 <= sequence <= MAX_ACTIONS
    ensures Accepts(r, sequence, caseId) <==> Sized(r)
  {
  }

  // The start of an output.
  function Sample(output: string): (sample: string)
    ensures |sample| <= MAX_OUTPUT && sample <= output
  {
    if |output| <= MAX_OUTPUT then output else output[..MAX_OUTPUT]
  }

  // What happens at a case: its repetitions, whether the inventory of its reports is complete, what the oracles
  // have seen by the sample of its report and then by its end, and the fields that are only passed on.
  datatype Host = Host(
    rounds: Rounds, complete: bool, sample: Oracles, end: Oracles,
    duration: nat, artifact: string, message: string, stdout: string, stderr: string)
  {
    // Oracles forget nothing.
    predicate Lawful(before: Oracles) {
      Steady(before, rounds) && Seen(before, rounds, |rounds|).Before(sample) && sample.Before(end)
    }
  }

  // Every repetition can be dispatched and ends clean, the inventory is complete, and the oracles see nothing.
  predicate AllClean(repetitions: nat, host: Host) {
    && repetitions <= |host.rounds|
    && (forall n :: 0 <= n < repetitions ==> CleanRound(host.rounds[n]))
    && host.complete && !host.sample.Violated() && !host.end.failed
  }

  predicate CleanRound(round: Round) {
    round.Opens() && round.process.Clean() && round.done.Clean()
  }

  // What is reported of a case: what its repetitions add up to, and what the oracles saw by then.
  ghost predicate Tells(host: Host, sum: Sum, result: ActionResult) {
    && result.returncode == sum.returncode && result.timedOut == sum.timedOut
    && (result.teardown <==> sum.teardown && host.complete && !host.end.failed)
    && result.canaryIntact == host.sample.intact && result.connections == host.sample.connections
  }

  // What is reported is what the repetitions that ran add up to.
  ghost predicate Sums(before: Oracles, repetitions: nat, host: Host, result: ActionResult) {
    exists processes, seen, sum ::
      && Ran(repetitions, host.rounds, processes)
      && Adds(before, repetitions, host.rounds, processes, seen, sum) && Tells(host, sum, result)
  }

  // Classifies a case.
  method Classify(caseId: CaseId, sequence: nat, host: Host, sum: Sum) returns (result: ActionResult)
    ensures Tells(host, sum, result) && Honest(result, sequence, caseId)
  {
    var teardown := sum.teardown && host.complete;
    if host.end.failed {
      teardown := false;
    }
    var category :=
      if host.sample.Violated() then PolicyViolation
      else if sum.timedOut then Timeout
      else if !teardown then AvailabilityFailure
      else if sum.returncode != Some(0) then TestFailure
      else Passed;
    result := ActionResult(
      sequence, caseId, category, sum.returncode, sum.timedOut, host.sample.intact, host.sample.connections, teardown,
      host.duration, host.artifact, if host.end.failed then Some(host.message) else None,
      Sample(host.stdout), Sample(host.stderr));
  }

  // Runs a case and reports it.
  method RunCase(before: Oracles, caseId: CaseId, sequence: nat, repetitions: nat, host: Host)
      returns (oracles: Oracles, result: ActionResult, processes: seq<Process>, ghost seen: Oracles, ghost sum: Sum)
    requires host.Lawful(before)
    ensures Ran(repetitions, host.rounds, processes) && Adds(before, repetitions, host.rounds, processes, seen, sum)
    ensures Tells(host, sum, result) && Honest(result, sequence, caseId)
    ensures oracles == host.end && before.Before(seen) && seen.Before(oracles)
    ensures result.SuspectedEscape() ==> oracles.Violated()
    ensures result.connections >= before.connections
    ensures before.Violated() ==> processes == [] && result.category == PolicyViolation
    ensures result.category == Passed <==> AllClean(repetitions, host)
  {
    var during, total;
    during, total, processes := Repeat(before, repetitions, host.rounds);
    seen, sum := during, total;
    result := Classify(caseId, sequence, host, total);
    oracles := host.end;
    BlockedAtOnce(before, repetitions, host, seen, sum, processes);
    PassesExactly(before, repetitions, host, seen, sum, processes, result);
  }

  // Once the oracles saw a violation, nothing is dispatched, and they do not forget it.
  lemma BlockedAtOnce(
    before: Oracles, repetitions: nat, host: Host, seen: Oracles, sum: Sum, processes: seq<Process>)
    requires host.Lawful(before)
    requires Ran(repetitions, host.rounds, processes) && Adds(before, repetitions, host.rounds, processes, seen, sum)
    ensures before.Before(seen) && seen.Before(host.sample)
    ensures before.Violated() ==> processes == []
  {
    var n, rounds := |processes|, host.rounds;
    SeenBefore(before, rounds, 0, n);
    SeenBefore(before, rounds, n, |rounds|);
    if n < |rounds| {
      SeenBefore(before, rounds, n + 1, |rounds|);
      assert Seen(before, rounds, n).Before(rounds[n].ready) && rounds[n].ready.Before(Seen(before, rounds, n + 1));
    }
    if processes != [] {
      RanDispatched(repetitions, rounds, processes, 0);
      assert Seen(before, rounds, 0).Before(rounds[0].ready);
    }
  }

  // A case passes exactly if every repetition is dispatched and ends clean, and nothing is amiss by the end.
  lemma PassesExactly(
    before: Oracles, repetitions: nat, host: Host, seen: Oracles, sum: Sum, processes: seq<Process>,
    result: ActionResult)
    requires host.Lawful(before) && seen.Before(host.sample)
    requires Ran(repetitions, host.rounds, processes) && Adds(before, repetitions, host.rounds, processes, seen, sum)
    requires Tells(host, sum, result) && Gravest(result)
    ensures result.category == Passed <==> AllClean(repetitions, host)
  {
    GravestPasses(result);
    if AllClean(repetitions, host) {
      AllCleanRuns(before, repetitions, host, seen, sum, processes);
    } else if result.Clean() {
      CleanRuns(before, repetitions, host.rounds, seen, sum, processes);
    }
  }

  lemma GravestPasses(r: ActionResult)
    requires Gravest(r)
    ensures r.category == Passed <==> r.Clean()
  {
    assert Shows(r, PolicyViolation) || Shows(r, Timeout) || Shows(r, AvailabilityFailure) || Shows(r, TestFailure)
           || r.Clean();
  }

  lemma AllCleanRuns(
    before: Oracles, repetitions: nat, host: Host, seen: Oracles, sum: Sum, processes: seq<Process>)
    requires Ran(repetitions, host.rounds, processes) && Adds(before, repetitions, host.rounds, processes, seen, sum)
    requires AllClean(repetitions, host)
    ensures |processes| == repetitions
    ensures sum == Sum(Some(0), false, true)
  {
    forall n | 0 <= n < repetitions ensures Dispatched(host.rounds, n) {
      assert forall i :: 0 <= i <= n ==> CleanRound(host.rounds[i]);
    }
    assert |processes| == repetitions;
    forall i | 0 <= i < repetitions ensures processes[i].Clean() {
      assert CleanRound(host.rounds[i]);
    }
  }

  lemma CleanRuns(
    before: Oracles, repetitions: nat, rounds: Rounds, seen: Oracles, sum: Sum, processes: seq<Process>)
    requires Ran(repetitions, rounds, processes) && Adds(before, repetitions, rounds, processes, seen, sum)
    requires sum == Sum(Some(0), false, true) && seen.Clean()
    ensures |processes| == repetitions <= |rounds|
    ensures forall n :: 0 <= n < repetitions ==> CleanRound(rounds[n])
  {
    var n := |processes|;
    assert !Halted(repetitions, rounds, n) && seen == Seen(before, rounds, n);
    forall i | 0 <= i < n ensures CleanRound(rounds[i]) {
      assert processes[i] == rounds[i].process && processes[i].Torn() && !processes[i].timedOut;
      assert i < n - 1 ==> rounds[i].Continues();
    }
  }

  datatype Request = Initialize | Execute(caseId: CaseId, sequence: nat) | Finalize(quarantine: bool) | Shutdown
  datatype Status = Succeeded | Failing | Quarantined
  datatype Response =
    Ready | Unready | Report(result: ActionResult) | Finalized(ending: Ending) | Stopped | Rejected

  // The answer to a finalization: its status, and for evidence what the oracles saw, the longest error of
  // one that failed, and the boot of the last canary, unless quarantine was asked for.
  datatype Ending = Ending(
    status: Status, intact: bool, connections: nat, error: Option<string>, boot: Option<Process>)
  {
    predicate Violated() {
      !intact || connections != 0
    }
  }

  // What the executor answers: quarantine if it was asked for it, and else exactly if there was a violation;
  // and a pass only if all is clean.
  predicate Truthful(ending: Ending, quarantine: bool) {
    if quarantine then ending.status == Quarantined && ending.boot == None
    else
      && ending.boot.Some? && (ending.status == Quarantined <==> ending.Violated())
      && (ending.status == Succeeded ==> ending.error == None && ending.boot.value.Clean())
  }

  // A session: its oracles, and the cases whose directories it made.
  datatype Session = Session(oracles: Oracles, ran: set<(nat, CaseId)>)

  // What the executor's host does with a request: whether the sources verify and the baseline boots, a
  // directory can be made, a case runs without an error of the host, what happens at it, the canary boots, how
  // it ends, the oracles close, the answer can be written, and what an oracle that failed says.
  datatype World = World(
    verified: bool, baseline: bool, made: bool, ran: bool, host: Host, booted: bool, boot: Process, closes: bool,
    written: bool, message: string)

  // A canary that passes, and one that the oracles keep from booting.
  const PASSED := Process(Some(0), false, true, true, false)
  const BLOCKED := Process(None, false, true, false, false)

  // A host that does all that it can, whose oracles see nothing more.
  function Fine(oracles: Oracles): World {
    World(true, true, true, true, Host([], true, oracles, oracles, 0, "", "", "", ""), true, PASSED, true, true, "")
  }

  // The evidence of an answer is what the oracles saw.
  predicate Shown(ending: Ending, seen: Oracles, message: string) {
    && ending.intact == seen.intact && ending.connections == seen.connections
    && ending.error == if seen.failed then Some(message) else None
  }

  // The endpoint of the protocol: a session while it is initialized, and a quarantine that lasts.
  class Executor {
    const cases: map<CaseId, nat>
    var session: Option<Session>
    var quarantined: bool
    // What the oracles of the last session saw.
    ghost var seen: Oracles

    constructor (cases: map<CaseId, nat>)
      ensures this.cases == cases && session == None && !quarantined && Valid()
    {
      this.cases := cases;
      session, quarantined, seen := None, false, CLEAN;
    }

    ghost predicate Valid()
      reads this
    {
      session.Some? ==> seen == session.value.oracles
    }

    // Whether a request reaches the session.
    predicate Open()
      reads this
    {
      !quarantined && session.Some?
    }

    // What the oracles are to have seen while a case runs they have seen.
    predicate Lawful(request: Request, world: World)
      reads this
    {
      request.Execute? && session.Some? ==> world.host.Lawful(session.value.oracles)
    }

    method Handle(request: Request, world: World) returns (response: Response)
      requires Valid() && Lawful(request, world)
      modifies this
      ensures Valid() && (request != Initialize ==> old(seen).Before(seen))
      ensures old(quarantined) ==> quarantined && (request != Shutdown ==> response == Rejected && session == old(session))
      // A session starts once, and is ready if the host is and the canaries are.
      ensures request == Initialize ==>
                && (response.Ready? || response.Unready? <==>
                      !old(quarantined) && old(session) == None && world.verified && world.written)
                && (response.Ready? ==> session.Some? && session.value.ran == {} && !seen.Violated())
                && (!response.Ready? && old(session).Some? ==> session == old(session))
      // A case of the catalogue is reported once for a sequence, unless the host fails.
      ensures request.Execute? ==>
                (response.Report? <==>
                   && old(Open()) && request.caseId in cases && 1 <= request.sequence <= MAX_ACTIONS
                   && (request.sequence, request.caseId) !in old(session).value.ran && world.made && world.ran)
      ensures response.Report? ==>
                && request.Execute? && Honest(response.result, request.sequence, request.caseId)
                && (old(seen).Violated() ==> response.result.category == PolicyViolation)
                && response.result.connections >= old(seen).connections
                && (response.result.SuspectedEscape() ==> seen.Violated())
                && session.Some? && session.value.ran == old(session).value.ran + {(request.sequence, request.caseId)}
                && Sums(old(seen), cases[request.caseId], world.host, response.result) && seen == world.host.end
                && (response.result.category == Passed <==> AllClean(cases[request.caseId], world.host))
      ensures request.Execute? ==> quarantined == old(quarantined) && session.Some? == old(session).Some?
      // Quarantine is entered exactly if the oracles close and the answer is written; else the session stays.
      ensures request == Finalize(true) && old(Open()) ==>
                if world.closes && world.written
                then response.Finalized? && quarantined && session == None
                else response == Rejected && !quarantined && session.Some? && session.value.ran == old(session).value.ran
      // A finalization that was not asked for it finds what the oracles saw, if the canary boots and they
      // close.
      ensures request == Finalize(false) && old(Open()) ==>
                && (response.Finalized? <==> world.booted && world.closes && world.written)
                && (!response.Finalized? ==> response == Rejected)
                && (quarantined <==> world.booted && world.closes && seen.Violated())
                && (session.Some? <==> world.booted && !(world.closes && world.written))
      ensures response.Finalized? && request == Finalize(false) ==>
                (response.ending.status == Succeeded <==> !seen.Violated() && world.boot.Clean() && !seen.failed)
      // What it answers is what its oracles saw.
      ensures response.Finalized? ==>
                && request.Finalize? && old(Open()) && Truthful(response.ending, request.quarantine)
                && Shown(response.ending, seen, world.message)
      ensures response.Ready? ==> request == Initialize
      ensures request == Shutdown ==> session == None && quarantined == old(quarantined)
    {
      if quarantined && request != Shutdown {
        return Rejected;
      }
      match request
      case Initialize => response := Start(world);
      case Execute(caseId, sequence) =>
        if session.None? || caseId !in cases || sequence < 1 || sequence > MAX_ACTIONS {
          return Rejected;
        }
        var ran := session.value.ran;
        if (sequence, caseId) in ran || !world.made {
          return Rejected;
        }
        var oracles, result, processes, before, sum :=
          RunCase(session.value.oracles, caseId, sequence, cases[caseId], world.host);
        session, seen := Some(Session(oracles, ran + {(sequence, caseId)})), oracles;
        return if world.ran then Report(result) else Rejected;
      case Finalize(quarantine) =>
        if session.None? {
          return Rejected;
        }
        response := End(quarantine, world);
      case Shutdown =>
        session := None;
        return if world.closes then Stopped else Rejected;
    }

    method Start(world: World) returns (response: Response)
      requires Valid() && !quarantined
      modifies this
      ensures Valid() && !quarantined
      ensures response == Ready || response == Unready || response == Rejected
      ensures response != Rejected <==> old(session) == None && world.verified && world.written
      ensures response == Ready ==> session.Some? && session.value.ran == {} && !seen.Violated()
      ensures old(session).Some? ==> session == old(session)
    {
      if session.Some? || !world.verified {
        return Rejected;
      }
      var oracles := Watch(CLEAN);
      session, seen := Some(Session(oracles, {})), oracles;
      if !world.written {
        return Rejected;
      }
      return if world.baseline && !oracles.Violated() then Ready else Unready;
    }

    method End(quarantine: bool, world: World) returns (response: Response)
      requires Valid() && Open()
      modifies this
      ensures Valid() && old(seen).Before(seen)
      ensures quarantine ==>
                if world.closes && world.written
                then response.Finalized? && quarantined && session == None
                else response == Rejected && !quarantined && session.Some? && session.value.ran == old(session).value.ran
      ensures !quarantine ==>
                && (response.Finalized? <==> world.booted && world.closes && world.written)
                && (!response.Finalized? ==> response == Rejected)
                && (quarantined <==> world.booted && world.closes && seen.Violated())
                && (session.Some? <==> world.booted && !(world.closes && world.written))
                && (response.Finalized? ==>
                      (response.ending.status == Succeeded <==> !seen.Violated() && world.boot.Clean() && !seen.failed))
      ensures response.Finalized? ==>
                Truthful(response.ending, quarantine) && Shown(response.ending, seen, world.message)
    {
      var sample := Watch(session.value.oracles);
      var oracles := Watch(sample);
      var error := if oracles.failed then Some(world.message) else None;
      session, seen := Some(session.value.(oracles := oracles)), oracles;
      if quarantine {
        if !world.closes || !world.written {
          return Rejected;
        }
        session, quarantined := None, true;
        return Finalized(Ending(Quarantined, oracles.intact, oracles.connections, error, None));
      }
      if !world.booted {
        session := None;
        return Rejected;
      }
      if !world.closes {
        return Rejected;
      }
      quarantined := oracles.Violated();
      if !world.written {
        return Rejected;
      }
      session := None;
      var boot := if sample.Violated() || sample.failed then BLOCKED else world.boot;
      var status :=
        if oracles.Violated() then Quarantined else if boot.Clean() && !oracles.failed then Succeeded else Failing;
      return Finalized(Ending(status, oracles.intact, oracles.connections, error, Some(boot)));
    }
  }

  // An executor whose oracles do not close answers a request for quarantine with an error, keeps its
  // session, and goes on to run cases.
  method QuarantineNotEntered(cases: map<CaseId, nat>, caseId: CaseId) returns (asked: Response, next: Response)
    requires caseId in cases
    ensures asked == Rejected && next.Report? && next.result.category == PolicyViolation
  {
    var executor := new Executor(cases);
    executor.session, executor.seen := Some(Session(Oracles(false, 0, false), {})), Oracles(false, 0, false);
    asked := executor.Handle(Finalize(true), Fine(executor.session.value.oracles).(closes := false));
    next := executor.Handle(Execute(caseId, 1), Fine(executor.session.value.oracles));
  }
}
