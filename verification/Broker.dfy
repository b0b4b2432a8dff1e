/** The controller's side of the protocol: its connection to an executor, and the broker that logs what it
    sends and checks what it hears. */
module Broker {
  import opened Options
  import opened ActionResults
  import opened CaseExecutor

  // What becomes of a request: a response, no executor any more, or no response of the protocol.
  datatype Answer = Responded(response: Response) | Unavailable | Garbled

  // The controller's check of the answer to a finalization. Quarantine that was asked for is confirmed without
  // a boot; otherwise a canary booted, a quarantine has a violation to show, and a pass is clean.
  predicate Credible(ending: Ending, quarantine: bool) {
    && (ending.error.Some? ==> |ending.error.value| <= MAX_TEXT)
    && if quarantine then ending.status == Quarantined && ending.boot == None
       else
         && ending.boot.Some?
         && (ending.status == Quarantined ==> ending.Violated())
         && (ending.status == Succeeded ==> !ending.Violated() && ending.error == None && ending.boot.value.Clean())
  }

  // What the local executor answers fails it exactly if an oracle says too much of its error.
  lemma TruthfulCredible(ending: Ending, quarantine: bool)
    requires Truthful(ending, quarantine)
    ensures Credible(ending, quarantine) <==> (ending.error.Some? ==> |ending.error.value| <= MAX_TEXT)
  {
  }

  // A connection to the local executor, or to an external command, which may be any program.
  class Channel {
    const executor: Executor?

    constructor (executor: Executor?)
      requires executor != null ==> executor.Valid()
      ensures this.executor == executor && Valid()
    {
      this.executor := executor;
    }

    ghost predicate Valid()
      reads this, executor
    {
      executor != null ==> executor.Valid()
    }

    ghost function Repr(): set<object> {
      if executor != null then {executor} else {}
    }

    // The oracles of the local executor saw a violation.
    ghost predicate Seen()
      reads this, executor
    {
      executor != null && executor.seen.Violated()
    }

    // Sends a request, the answer to which may be lost.
    method Send(request: Request, lost: bool) returns (answer: Answer)
      requires Valid()
      modifies Repr()
      ensures Valid() && (lost ==> answer.Unavailable?) && (executor != null && !lost ==> answer.Responded?)
      ensures executor != null && request != Initialize && old(Seen()) ==> Seen()
      ensures executor != null && answer.Responded? ==>
                match answer.response
                case Ready => request == Initialize && !Seen()
                case Report(raw) =>
                  && request.Execute? && Honest(raw, request.sequence, request.caseId)
                  && (raw.SuspectedEscape() ==> Seen())
                case Finalized(ending) =>
                  && request.Finalize? && Truthful(ending, request.quarantine)
                  && (ending.Violated() <==> Seen()) && (request.quarantine ==> executor.quarantined)
                case _ => true
    {
      if executor == null {
        answer := *;
      } else {
        var world: World := *;
        if !executor.Lawful(request, world) {
          var oracles := executor.session.value.oracles;
          world := world.(host := world.host.(rounds := [], sample := oracles, end := oracles));
        }
        var response := executor.Handle(request, world);
        answer := Responded(response);
      }
      if lost {
        answer := Unavailable;
      }
    }
  }

  // What the broker makes of a case: a result; a refusal before it logs the action; or after, no executor
  // any more, or a failure of the protocol, with the report that it did not take, if that is why.
  datatype Execution =
    Executed(result: ActionResult) | Refused | Lost | Failed(raw: Option<ActionResult>, written: bool)

  class TypedBroker {
    const cases: set<CaseId>
    var log: seq<CaseId>
    var completed: set<CaseId>
    var results: seq<ActionResult>

    constructor (cases: set<CaseId>)
      ensures this.cases == cases && Valid() && log == [] && results == []
    {
      this.cases := cases;
      log, completed, results := [], {}, [];
    }

    // The log holds the cases of the results, which are distinct and catalogued, and the one in flight.
    ghost predicate Valid()
      reads this
    {
      && completed == (set r | r in results :: r.caseId)
      && |results| <= |log|
      && (forall i :: 0 <= i < |results| ==>
            && Accepts(results[i], i + 1, log[i]) && log[i] in cases)
      && (forall i, j :: 0 <= i < j < |results| ==> log[i] != log[j])
    }

    lemma CompletedCatalogued()
      requires Valid()
      ensures completed <= cases
    {
    }

    // Logs an action, unless it is not to be sent or cannot be written.
    method Log(action: CaseId, written: bool) returns (logged: bool)
      requires Valid() && |log| == |results|
      modifies this`log
      ensures Valid() && results == old(results) && completed == old(completed)
      ensures logged <==> action in cases && action !in completed && written
      ensures log == if logged then old(log) + [action] else old(log)
    {
      logged := action in cases && action !in completed && written;
      if logged {
        log := log + [action];
      }
    }

    // Takes the answer to the action that was logged last, and its observation if it can be written.
    method Take(action: CaseId, answer: Answer, written: bool) returns (execution: Execution)
      requires Valid() && |log| == |results| + 1 && log[|log| - 1] == action
      requires action in cases && action !in completed
      modifies this`completed, this`results
      ensures Valid() && !execution.Refused?
      ensures execution.Lost? <==> answer.Unavailable?
      ensures execution.Executed? <==>
                && answer.Responded? && answer.response.Report? && written
                && Accepts(answer.response.result, |log|, action)
      ensures execution.Executed? ==>
                execution.result == answer.response.result && results == old(results) + [execution.result]
      ensures !execution.Executed? ==> results == old(results) && completed == old(completed)
      ensures execution.Failed? ==>
                && execution.written == written
                && execution.raw == if answer.Responded? && answer.response.Report? then Some(answer.response.result) else None
    {
      match answer
      case Unavailable => return Lost;
      case Responded(Report(raw)) =>
        if !Accepts(raw, |results| + 1, action) || !written {
          return Failed(Some(raw), written);
        }
        forall i | 0 <= i < |results| ensures log[i] != action {
          assert results[i] in results && results[i].caseId == log[i];
        }
        completed := completed + {action};
        results := results + [raw];
        return Executed(raw);
      case _ => return Failed(None, written);
    }

    // Logs an action, sends it, and takes the answer.
    method Execute(action: CaseId, channel: Channel, writable: bool, lost: bool, written: bool)
        returns (execution: Execution)
      requires Valid() && |log| == |results| && channel.Valid()
      modifies this`log, this`completed, this`results, channel.Repr()
      ensures Valid() && channel.Valid() && (old(channel.Seen()) ==> channel.Seen())
      ensures execution.Refused? <==> action !in cases || action in old(completed) || !writable
      ensures !execution.Refused? && lost ==> execution.Lost?
      ensures execution.Lost? ==> lost || channel.executor == null
      ensures execution.Failed? ==> execution.written == written
      ensures execution.Refused? ==> log == old(log) && results == old(results)
      ensures !execution.Refused? ==> log == old(log) + [action]
      ensures execution.Executed? ==>
                results == old(results) + [execution.result] && Accepts(execution.result, |results|, action)
      ensures !execution.Executed? ==> results == old(results)
      ensures execution.Failed? && execution.raw.Some? ==>
                !(Accepts(execution.raw.value, |log|, action) && execution.written)
      ensures channel.executor != null ==>
                var raw := match execution case Executed(r) => Some(r) case Failed(r, _) => r case _ => None;
                raw.Some? ==> Honest(raw.value, |log|, action) && (raw.value.SuspectedEscape() ==> channel.Seen())
    {
      var logged := Log(action, writable);
      if !logged {
        return Refused;
      }
      var answer := channel.Send(CaseExecutor.Execute(action, |results| + 1), lost);
      execution := Take(action, answer, written);
    }
  }
}
