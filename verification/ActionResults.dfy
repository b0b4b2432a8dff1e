/** What an executor reports of a case, the broker's check of it, and the replay of a log of actions. */
module ActionResults {
  import opened Options

  type CaseId = string

  datatype Category =
    Passed | TestFailure | Timeout | ExecutorError | PolicyViolation | AvailabilityFailure

  // A report: the sequence and case that it is of, its category, the fields that the category must not
  // contradict, and those that are only bounded.
  datatype ActionResult = ActionResult(
    sequence: nat, caseId: CaseId, category: Category, returncode: Option<int>, timedOut: bool,
    canaryIntact: bool, connections: nat, teardown: bool,
    duration: nat, artifact: string, error: Option<string>, stdout: string, stderr: string)
  {
    predicate Clean() {
      returncode == Some(0) && !timedOut && canaryIntact && connections == 0 && teardown
    }

    predicate Anomaly() {
      category != Passed || !Clean()
    }

    predicate SuspectedEscape() {
      category == PolicyViolation || !canaryIntact || connections != 0
    }
  }

  const MAX_ACTIONS: nat := 100
  const MAX_CONNECTIONS: nat := 1000000
  const MAX_DURATION: nat := 86400000
  const MAX_TEXT: nat := 4096
  const MAX_OUTPUT: nat := 8192

  // The broker's bounds on the fields of a report,
  predicate Sized(raw: ActionResult) {
    && raw.connections <= MAX_CONNECTIONS && raw.duration <= MAX_DURATION && |raw.artifact| <= MAX_TEXT
    && (raw.error.Some? ==> |raw.error.value| <= MAX_TEXT) && Sampled(raw)
    && (raw.returncode.Some? ==> -0x8000_0000 <= raw.returncode.value < 0x8000_0000)
  }

  // and on the output that it holds,
  predicate Sampled(raw: ActionResult) {
    |raw.stdout| <= MAX_OUTPUT && |raw.stderr| <= MAX_OUTPUT
  }

  // and its check of one.
  predicate Accepts(raw: ActionResult, sequence: nat, caseId: CaseId) {
    && 1 <= raw.sequence <= MAX_ACTIONS && raw.sequence == sequence && raw.caseId == caseId
    && Sized(raw) && (raw.category == Passed ==> raw.Clean())
  }

  // The category is the one that the fields say, with an escape suspected exactly when it is a policy
  // violation.
  ghost predicate Consistent(r: ActionResult) {
    && (r.SuspectedEscape() <==> r.category == PolicyViolation)
    && (r.Anomaly() <==> r.category != Passed)
  }

  // A record of a replay file: its sequence, if it has one, and its case.
  datatype Record = Record(sequence: Option<nat>, caseId: CaseId)

  datatype Replay = Actions(actions: seq<CaseId>) | Empty | TooMany | Misnumbered(at: nat) | Unknown(at: nat) | Repeated(at: nat)

  ghost predicate Distinct(actions: seq<CaseId>) {
    forall i, j :: 0 <= i < j < |actions| ==> actions[i] != actions[j]
  }

  method ReadReplay(records: seq<Record>, cases: set<CaseId>) returns (r: Replay)
    ensures r.Actions? ==>
              && |r.actions| == |records| && 1 <= |records| <= MAX_ACTIONS && Distinct(r.actions)
              && (forall i :: 0 <= i < |records| ==>
                    && r.actions[i] == records[i].caseId && r.actions[i] in cases
                    && (records[i].sequence.Some? ==> records[i].sequence.value == i + 1))
    ensures match r
            case Actions(_) => true
            case Empty => records == []
            case TooMany => |records| > MAX_ACTIONS
            case Misnumbered(at) => at < |records| && records[at].sequence.Some? && records[at].sequence.value != at + 1
            case Unknown(at) => at < |records| && records[at].caseId !in cases
            case Repeated(at) => at < |records| && exists i :: 0 <= i < at && records[i].caseId == records[at].caseId
  {
    if records == [] {
      return Empty;
    }
    if |records| > MAX_ACTIONS {
      return TooMany;
    }
    var actions: seq<CaseId> := [];
    var completed: set<CaseId> := {};
    for n := 0 to |records|
      invariant |actions| == n && completed == (set a | a in actions) && Distinct(actions)
      invariant forall i :: 0 <= i < n ==>
                  && actions[i] == records[i].caseId && actions[i] in cases
                  && (records[i].sequence.Some? ==> records[i].sequence.value == i + 1)
    {
      var record := records[n];
      if record.sequence.Some? && record.sequence.value != n + 1 {
        return Misnumbered(n);
      }
      if record.caseId !in cases {
        return Unknown(n);
      }
      if record.caseId in completed {
        var i :| 0 <= i < |actions| && actions[i] == record.caseId;
        return Repeated(n);
      }
      actions := actions + [record.caseId];
      completed := completed + {record.caseId};
    }
    return Actions(actions);
  }

  // The log of actions, as it is written and replayed.
  function Written(actions: seq<CaseId>): seq<Record> {
    seq(|actions|, i requires 0 <= i < |actions| => Record(Some(i + 1), actions[i]))
  }

  // The log of a campaign replays as its own actions.
  method ReplayOwnLog(actions: seq<CaseId>, cases: set<CaseId>) returns (r: Replay)
    requires 1 <= |actions| <= MAX_ACTIONS && Distinct(actions)
    requires forall i :: 0 <= i < |actions| ==> actions[i] in cases
    ensures r == Actions(actions)
  {
    r := ReadReplay(Written(actions), cases);
    assert r.Actions? && r.actions == actions;
  }
}
