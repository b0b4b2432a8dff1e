/** How the repetitions of an adversarial case run: when each is dispatched, and what they add up to. */
module Repetitions {
  import opened Options

  // What the oracles of a session have seen: whether the host canary is intact, how often something
  // connected to the network canary, and whether one of them failed.
  datatype Oracles = Oracles(intact: bool, connections: nat, failed: bool)
  {
    predicate Violated() {
      !intact || connections != 0
    }

    // They forget nothing.
    predicate Before(later: Oracles) {
      (later.intact ==> intact) && connections <= later.connections && (failed ==> later.failed)
    }

    predicate Clean() {
      !Violated() && !failed
    }
  }

  const CLEAN := Oracles(true, 0, false)

  // They may see anything.
  method Watch(before: Oracles) returns (after: Oracles)
    ensures before.Before(after)
  {
    var touched: bool, more: nat, broke: bool := *, *, *;
    after := Oracles(before.intact && !touched, before.connections + more, before.failed || broke);
  }

  // How a process of the target ended.
  datatype Process = Process(
    returncode: Option<int>, timedOut: bool, teardown: bool, started: bool, live: bool)
  {
    // It succeeded in time and was ended, so that the next may run,
    predicate Succeeded() {
      returncode == Some(0) && !timedOut && teardown
    }

    // and nothing of it is left.
    predicate Torn() {
      teardown && started && !live
    }

    predicate Clean() {
      returncode == Some(0) && !timedOut && Torn()
    }
  }

  // What happens at a repetition: whether time ran out before it, what the oracles have seen by the decision to
  // dispatch it, how its process ends, and what they have seen by then.
  datatype Round = Round(late: bool, ready: Oracles, process: Process, done: Oracles)
  {
    // It can be dispatched: there is time, and the oracles saw no violation and none failed.
    predicate Opens() {
      !late && ready.Clean()
    }

    // The next one is tried after it: its process succeeded, and the oracles are still clean.
    predicate Continues() {
      process.Succeeded() && done.Clean()
    }
  }

  // What happens at the repetitions of a case. After those that there is time for, it is late.
  type Rounds = seq<Round>

  predicate Late(rounds: Rounds, n: nat) {
    n >= |rounds| || rounds[n].late
  }

  // What the oracles saw before a repetition, if all before it ran.
  function Seen(before: Oracles, rounds: Rounds, n: nat): Oracles
    requires n <= |rounds|
  {
    if n == 0 then before else rounds[n - 1].done
  }

  // Oracles forget nothing.
  predicate Steady(before: Oracles, rounds: Rounds) {
    forall i {:trigger Seen(before, rounds, i)} :: 0 <= i < |rounds| ==>
      Seen(before, rounds, i).Before(rounds[i].ready) && rounds[i].ready.Before(rounds[i].done)
  }

  lemma {:induction false} SeenBefore(before: Oracles, rounds: Rounds, i: nat, n: nat)
    requires Steady(before, rounds) && i <= n <= |rounds|
    ensures Seen(before, rounds, i).Before(Seen(before, rounds, n))
    decreases n - i
  {
    if i < n {
      SeenBefore(before, rounds, i + 1, n);
      assert Seen(before, rounds, i).Before(rounds[i].ready) && rounds[i].ready.Before(rounds[i].done);
    }
  }

  // A repetition is tried if all before it ran and left the next to run, and dispatched if it then can be.
  predicate Tried(rounds: Rounds, n: nat)
    requires n <= |rounds|
  {
    forall i :: 0 <= i < n ==> rounds[i].Opens() && rounds[i].Continues()
  }

  predicate Dispatched(rounds: Rounds, n: nat) {
    n < |rounds| && Tried(rounds, n) && rounds[n].Opens()
  }

  // What the repetitions of a case add up to.
  datatype Sum = Sum(returncode: Option<int>, timedOut: bool, teardown: bool)

  ghost predicate AllTorn(processes: seq<Process>) {
    forall i :: 0 <= i < |processes| ==> processes[i].Torn()
  }

  ghost predicate AnyTimedOut(processes: seq<Process>) {
    exists i :: 0 <= i < |processes| && processes[i].timedOut
  }

  lemma EndsMore(processes: seq<Process>, process: Process)
    ensures AllTorn(processes + [process]) <==> AllTorn(processes) && process.Torn()
    ensures AnyTimedOut(processes + [process]) <==> AnyTimedOut(processes) || process.timedOut
  {
    var more := processes + [process];
    assert more[|processes|] == process && forall i :: 0 <= i < |processes| ==> more[i] == processes[i];
  }

  // The processes are those of the first repetitions.
  ghost predicate Those(rounds: Rounds, processes: seq<Process>) {
    |processes| <= |rounds| && forall i :: 0 <= i < |processes| ==> processes[i] == rounds[i].process
  }

  // Which repetitions ran: those that are dispatched.
  ghost predicate Ran(repetitions: nat, rounds: Rounds, processes: seq<Process>) {
    var n := |processes|;
    && n <= repetitions && Those(rounds, processes)
    && (n > 0 ==> Dispatched(rounds, n - 1)) && (n < repetitions ==> !Dispatched(rounds, n))
  }

  // The one after them was tried in vain.
  predicate Halted(repetitions: nat, rounds: Rounds, n: nat)
    requires n <= |rounds|
  {
    n < repetitions && Tried(rounds, n)
  }

  // What they add up to, and what the oracles saw: there is no return code exactly if the next was tried in vain
  // or the last process has none; it took too long if the next was late or a process did; and it was torn
  // down if every process was.
  ghost predicate Adds(
    before: Oracles, repetitions: nat, rounds: Rounds, processes: seq<Process>, oracles: Oracles, sum: Sum)
    requires |processes| <= |rounds|
  {
    var n := |processes|;
    var halted := Halted(repetitions, rounds, n);
    && sum.returncode == (if halted then None else if n == 0 then Some(0) else processes[n - 1].returncode)
    && (sum.timedOut <==> (halted && Late(rounds, n)) || AnyTimedOut(processes))
    && (sum.teardown <==> AllTorn(processes))
    && oracles == if halted && !Late(rounds, n) then rounds[n].ready else Seen(before, rounds, n)
  }

  // While they go on, each succeeded.
  ghost predicate Going(before: Oracles, rounds: Rounds, processes: seq<Process>, oracles: Oracles, sum: Sum) {
    var n := |processes|;
    && Those(rounds, processes) && Tried(rounds, n) && oracles == Seen(before, rounds, n)
    && sum.returncode == Some(0) && !sum.timedOut && (sum.teardown <==> AllTorn(processes)) && !AnyTimedOut(processes)
  }

  lemma Lates(before: Oracles, repetitions: nat, rounds: Rounds, processes: seq<Process>, oracles: Oracles, sum: Sum)
    requires Going(before, rounds, processes, oracles, sum) && |processes| < repetitions && Late(rounds, |processes|)
    ensures Ran(repetitions, rounds, processes)
    ensures Adds(before, repetitions, rounds, processes, oracles, sum.(timedOut := true, returncode := None))
  {
  }

  lemma Blocks(before: Oracles, repetitions: nat, rounds: Rounds, processes: seq<Process>, oracles: Oracles, sum: Sum)
    requires Going(before, rounds, processes, oracles, sum) && |processes| < repetitions && !Late(rounds, |processes|)
    requires !rounds[|processes|].ready.Clean()
    ensures Ran(repetitions, rounds, processes)
    ensures Adds(before, repetitions, rounds, processes, rounds[|processes|].ready, sum.(returncode := None))
  {
  }

  // What one more process adds.
  function More(sum: Sum, process: Process): Sum {
    Sum(process.returncode, process.timedOut, sum.teardown && process.Torn())
  }

  lemma Dispatches(
    before: Oracles, repetitions: nat, rounds: Rounds, processes: seq<Process>, oracles: Oracles, sum: Sum)
    requires Going(before, rounds, processes, oracles, sum) && |processes| < repetitions && !Late(rounds, |processes|)
    requires rounds[|processes|].ready.Clean()
    ensures var n := |processes|;
            var process, after := rounds[n].process, Seen(before, rounds, n + 1);
            if process.Succeeded() && after.Clean()
            then Going(before, rounds, processes + [process], after, More(sum, process))
            else
              && Ran(repetitions, rounds, processes + [process])
              && Adds(before, repetitions, rounds, processes + [process], after, More(sum, process))
  {
    var n := |processes|;
    EndsMore(processes, rounds[n].process);
    assert Dispatched(rounds, n);
    assert Tried(rounds, n + 1) <==> rounds[n].Continues();
  }

  lemma Completes(before: Oracles, repetitions: nat, rounds: Rounds, processes: seq<Process>, oracles: Oracles, sum: Sum)
    requires Going(before, rounds, processes, oracles, sum) && |processes| == repetitions
    ensures Ran(repetitions, rounds, processes) && Adds(before, repetitions, rounds, processes, oracles, sum)
  {
    if repetitions > 0 {
      assert rounds[repetitions - 1].Continues();
      assert processes[repetitions - 1] == rounds[repetitions - 1].process;
    }
  }

  // Runs the repetitions of a case until one goes wrong, time runs out, or the oracles block it.
  method Repeat(before: Oracles, repetitions: nat, rounds: Rounds)
      returns (oracles: Oracles, sum: Sum, processes: seq<Process>)
    ensures Ran(repetitions, rounds, processes)
    ensures Adds(before, repetitions, rounds, processes, oracles, sum)
  {
    oracles, sum, processes := before, Sum(Some(0), false, true), [];
    for n := 0 to repetitions
      invariant |processes| == n && Going(before, rounds, processes, oracles, sum)
    {
      if n >= |rounds| || rounds[n].late {
        Lates(before, repetitions, rounds, processes, oracles, sum);
        sum := sum.(timedOut := true, returncode := None);
        return;
      }
      if !rounds[n].ready.Clean() {
        Blocks(before, repetitions, rounds, processes, oracles, sum);
        oracles, sum := rounds[n].ready, sum.(returncode := None);
        return;
      }
      Dispatches(before, repetitions, rounds, processes, oracles, sum);
      var process := rounds[n].process;
      oracles := rounds[n].done;
      processes, sum := processes + [process], More(sum, process);
      if !process.Succeeded() || !oracles.Clean() {
        return;
      }
    }
    Completes(before, repetitions, rounds, processes, oracles, sum);
  }

  // So exactly those ran that are dispatched.
  lemma RanDispatched(repetitions: nat, rounds: Rounds, processes: seq<Process>, i: nat)
    requires Ran(repetitions, rounds, processes) && i < repetitions
    ensures i < |processes| <==> Dispatched(rounds, i)
  {
  }
}
