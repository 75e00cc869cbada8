/**
 The nested deadlines of a qualification run: every CLI operation ends with a proof, read on a clock that
 never goes back, that its process tree is gone, and the deadlines of operation, phase, process, run and
 cleanup are combined by taking the smallest.
 */
module Deadlines {
  import opened Wrappers
  import opened Budget

  const WORK_SECONDS := 160.0
  const CLEANUP_SECONDS := 20.0
  const TOTAL_SECONDS := 180.0
  const TREE_SECONDS := 4.0
  const POLL_SECONDS := 0.025

  function Min(a: real, b: real): (m: real)
    ensures m <= a && m <= b && (m == a || m == b)
  {
    if a <= b then a else b
  }

  /** `time.sleep`. */
  method Sleep(clock: Clock)
    modifies clock
    ensures clock.now >= old(clock.now) + POLL_SECONDS
  {
    var t := clock.Read();
    clock.now := t + POLL_SECONDS;
  }

  /** What the system answered: the job was terminated, the process had exited, the job was empty. */
  datatype Seen = Seen(terminated: bool, exited: bool, empty: bool)

  /**
   `bounded_finish`: the moment at which the job was seen empty, if that was shown in time. `joined` tells
   whether the process had joined its job. There is no proof only for an answer or for the deadline.
   */
  method BoundedFinish(clock: Clock, joined: bool, deadline: real) returns (proof: Option<real>, ghost seen: Seen)
    modifies clock
    ensures clock.now >= old(clock.now)
    ensures proof.Some? ==> old(clock.now) <= proof.value <= clock.now && proof.value <= deadline
    ensures proof.Some? ==> (joined ==> seen.terminated) && seen.exited && seen.empty && old(clock.now) < deadline
    ensures proof.None? ==> (joined && !seen.terminated) || !seen.exited || !seen.empty || clock.now >= deadline
  {
    var t: real;
    var terminated: bool, exited: bool, active: bool := *, *, *;
    proof, seen := None, Seen(terminated, exited, !active);
    if joined {
      if !terminated {
        return;
      }
      while active
        invariant clock.now >= old(clock.now)
        decreases ((deadline - clock.now) * 40.0).Floor
      {
        t := clock.Read();
        if t >= deadline {
          return;
        }
        ghost var before := clock.now;
        Sleep(clock);
        assert (deadline - clock.now) * 40.0 <= (deadline - before) * 40.0 - 1.0;
        active := *;
      }
    }
    t := clock.Read();
    if deadline - t <= 0.0 {
      return;
    }
    if !exited {
      return;
    }
    active := *;
    seen := Seen(terminated, exited, !active);
    t := clock.Read();
    if active || t > deadline {
      return;
    }
    proof := Some(t);
  }

  /**
   One CLI operation, recorded when it is over: the deadline it was given, the deadline of its tree proof and
   the moment of that proof.
   */
  datatype Operation = Operation(deadline: real, limit: real, provenAt: Option<real>, overflow: bool)

  predicate Timely(op: Operation, bound: real) {
    op.limit <= op.deadline <= bound && (op.provenAt.Some? ==> op.provenAt.value <= op.limit)
  }

  predicate AllTimely(ops: seq<Operation>, bound: real) {
    forall i :: 0 <= i < |ops| ==> Timely(ops[i], bound)
  }

  predicate Proven(op: Operation) {
    op.provenAt.Some? && !op.overflow
  }

  predicate AllProven(ops: seq<Operation>) {
    forall i :: 0 <= i < |ops| ==> Proven(ops[i])
  }

  predicate ProvenBy(op: Operation, bound: real) {
    op.provenAt.Some? ==> op.provenAt.value <= bound
  }

  /** A client: its deadline, the end of its operation, and whether it was finished. */
  datatype Process = Process(deadline: real, end: real, record: Option<Operation>)

  /** The deadline is the one given at the start, whatever happens later. */
  predicate WithinDeadline(p: Process, bound: real) {
    p.end <= p.deadline - TREE_SECONDS && p.deadline <= bound
    && (p.record.Some? ==> p.record.value.deadline == p.deadline && Timely(p.record.value, bound))
  }

  /** How an operation went: it did not start, ran out of time, spilled over its output, ended with code 0. */
  datatype How = How(failed: bool, timedOut: bool, spilled: bool, exited: bool)

  class Native {
    const clock: Clock
    var operations: seq<Operation>
    var processes: seq<Process>

    constructor (clock: Clock)
      ensures this.clock == clock && operations == [] && processes == []
    {
      this.clock, operations, processes := clock, [], [];
    }

    ghost predicate Within(bound: real)
      reads this
    {
      && AllTimely(operations, bound)
      && (forall i :: 0 <= i < |processes| ==> WithinDeadline(processes[i], bound))
      && forall i :: 0 <= i < |processes| && processes[i].record.Some? ==> processes[i].record.value in operations
    }

    /** `Native.call` of the direct gate. */
    method DirectCall(deadline: real, seconds: real, bound: real)
      returns (ok: bool, ghost began: Option<real>, ghost how: How)
      requires Within(bound) && deadline <= bound
      modifies this`operations, clock
      ensures Within(bound) && clock.now >= old(clock.now) && old(operations) <= operations
      ensures |operations| <= |old(operations)| + 1
      ensures forall i :: |old(operations)| <= i < |operations| ==> operations[i].deadline == deadline
      ensures ok ==> |operations| == |old(operations)| + 1 && Proven(operations[|operations| - 1])
      ensures ok <==>
                && |operations| == |old(operations)| + 1 && Proven(operations[|operations| - 1])
                && !how.failed && !how.timedOut && how.exited
      ensures how.spilled && |operations| > |old(operations)| ==> operations[|old(operations)|].overflow
      ensures began.Some? ==> old(clock.now) <= began.value <= clock.now && seconds > 0.0 && began.value + 4.0 < deadline
      ensures began.None? ==> !ok && operations == old(operations) && (seconds <= 0.0 || clock.now + 4.0 >= deadline)
      ensures forall i :: |old(operations)| <= i < |operations| ==>
                operations[i].limit <= clock.now + 4.0 || operations[i].provenAt.None?
    {
      ok, began, how := false, None, How(true, false, false, false);
      var now := clock.Read();
      if seconds <= 0.0 || deadline - now <= TREE_SECONDS {
        return;
      }
      began := Some(now);
      var end := Min(now + seconds, deadline - TREE_SECONDS);
      var failed: bool, job: bool, joined: bool := *, *, *;
      var running, timedOut, overflow := !failed && job, false, false;
      while running
        invariant clock.now >= now
        modifies clock
        decreases running, ((end - clock.now) * 40.0).Floor
      {
        var t := clock.Read();
        timedOut := t >= end;
        overflow := *;
        if timedOut || overflow {
          break;
        }
        ghost var before := clock.now;
        Sleep(clock);
        assert (end - clock.now) * 40.0 <= (end - before) * 40.0 - 1.0;
        running := *;
      }
      var proof: Option<real>, limit := None, deadline;
      if job {
        var t := clock.Read();
        limit := Min(deadline, t + TREE_SECONDS);
        ghost var seen: Seen;
        proof, seen := BoundedFinish(clock, joined, limit);
      }
      var late: bool, exit: bool := *, *;
      overflow := overflow || late;
      how := How(failed, timedOut, overflow, exit);
      // Writing out the files of the process may fail, and then there is no record.
      var flushed: bool := *;
      if !flushed {
        return;
      }
      operations := operations + [Operation(deadline, limit, proof, overflow)];
      ok := !failed && !timedOut && !overflow && proof.Some? && exit;
    }

    /** The constructor of `Process`; a process is known by its position. */
    method Start(deadline: real, seconds: real, bound: real) returns (index: Option<nat>, ghost began: Option<real>)
      requires Within(bound) && deadline <= bound
      modifies this`operations, this`processes, clock
      ensures Within(bound) && clock.now >= old(clock.now)
      ensures old(operations) <= operations && |old(processes)| <= |processes|
      ensures |operations| <= |old(operations)| + 1
      ensures forall i :: |old(operations)| <= i < |operations| ==> operations[i].deadline == deadline
      ensures forall i :: 0 <= i < |old(processes)| ==> processes[i] == old(processes)[i]
      ensures index.Some? ==> index.value == |old(processes)| == |processes| - 1 && operations == old(operations)
                              && processes[index.value].record.None? && processes[index.value].deadline == deadline
      ensures began.Some? ==>
                && old(clock.now) <= began.value <= clock.now && seconds > 0.0 && began.value + 4.0 < deadline
                && |processes| == |old(processes)| + 1
                && processes[|old(processes)|].end == Min(began.value + seconds, deadline - 4.0)
      ensures began.None? ==>
                && index.None? && processes == old(processes) && operations == old(operations)
                && (seconds <= 0.0 || clock.now + 4.0 >= deadline)
    {
      index, began := None, None;
      var now := clock.Read();
      if seconds <= 0.0 || deadline - now <= TREE_SECONDS {
        return;
      }
      began := Some(now);
      processes := processes + [Process(deadline, Min(now + seconds, deadline - TREE_SECONDS), None)];
      var started: bool := *;
      if started {
        index := Some(|processes| - 1);
        return;
      }
      var _ := Finish(|processes| - 1, None, bound);
    }

    /** `Process.poll`: an exception once the output or the time of the operation is spent. */
    method Poll(index: nat) returns (running: bool, failed: bool)
      requires index < |processes|
      modifies clock
      ensures clock.now >= old(clock.now)
      ensures running && processes[index].record.None? ==> clock.now < processes[index].end
      ensures processes[index].record.Some? ==> !running && !failed
    {
      if processes[index].record.Some? {
        return false, false;
      }
      var overflow: bool := *;
      var t := clock.Read();
      if overflow || t >= processes[index].end {
        return false, true;
      }
      running := *;
      failed := false;
    }

    /**
     `Process.finish`: the tree must be proven gone by the process's own deadline, by the one of the caller
     and within the time of one proof.
     */
    method Finish(index: nat, deadline: Option<real>, bound: real) returns (ok: bool)
      requires Within(bound) && index < |processes|
      modifies this`operations, this`processes, clock
      ensures Within(bound) && clock.now >= old(clock.now) && old(operations) <= operations
      ensures |processes| == |old(processes)|
      ensures forall i :: 0 <= i < |processes| && i != index ==> processes[i] == old(processes)[i]
      ensures old(processes)[index].record.Some? ==> processes == old(processes) && operations == old(operations)
      ensures processes[index].deadline == old(processes)[index].deadline && processes[index].end == old(processes)[index].end
      ensures |operations| > |old(operations)| && operations[|old(operations)|].provenAt.Some? ==>
                operations[|old(operations)|].limit <= clock.now + 4.0
      ensures ok ==> processes[index].record.Some? && Proven(processes[index].record.value)
      ensures |operations| <= |old(operations)| + 1
      ensures |operations| > |old(operations)| ==>
                processes[index].record == Some(operations[|old(operations)|])
                && (deadline.Some? ==> ProvenBy(operations[|old(operations)|], deadline.value))
      ensures ok && old(processes)[index].record.None? ==> |operations| == |old(operations)| + 1
    {
      var p := processes[index];
      if p.record.Some? {
        return p.record.value.provenAt.Some? && !p.record.value.overflow;
      }
      var job: bool, joined: bool, closed: bool := *, *, *;
      var proof: Option<real>, limit := None, p.deadline;
      if job {
        var t := clock.Read();
        limit := Min(Min(p.deadline, if deadline.Some? then deadline.value else p.deadline), t + TREE_SECONDS);
        ghost var seen: Seen;
        proof, seen := BoundedFinish(clock, joined, limit);
      }
      var overflow: bool, flushed: bool := *, *;
      if !flushed {
        return false;
      }
      var op := Operation(p.deadline, limit, proof, overflow);
      processes := processes[index := p.(record := Some(op))];
      operations := operations + [op];
      return closed && proof.Some? && !overflow;
    }

    /** `Native.call` of the Compose gate: one process, polled and finished. */
    method ComposeCall(deadline: real, seconds: real, bound: real) returns (ok: bool)
      requires Within(bound) && deadline <= bound
      modifies this`operations, this`processes, clock
      ensures Within(bound) && clock.now >= old(clock.now) && old(operations) <= operations
      ensures |old(processes)| <= |processes|
      ensures forall i :: 0 <= i < |old(processes)| ==> processes[i] == old(processes)[i]
      ensures forall i :: |old(processes)| <= i < |processes| && ok ==> processes[i].record.Some?
      ensures |operations| <= |old(operations)| + 1
      ensures forall i :: |old(operations)| <= i < |operations| ==> operations[i].deadline == deadline
      ensures ok ==> |operations| == |old(operations)| + 1 && Proven(operations[|operations| - 1])
    {
      var index: Option<nat>;
      ghost var began: Option<real>;
      index, began := Start(deadline, seconds, bound);
      if index.None? {
        return false;
      }
      var i := index.value;
      var running, failed := Poll(i);
      while running && !failed
        invariant clock.now >= old(clock.now)
        invariant running ==> clock.now < processes[i].end
        modifies clock
        decreases running, ((processes[i].end - clock.now) * 40.0).Floor
      {
        ghost var before := clock.now;
        Sleep(clock);
        assert (processes[i].end - clock.now) * 40.0 <= (processes[i].end - before) * 40.0 - 1.0;
        running, failed := Poll(i);
      }
      ok := Finish(i, None, bound);
      var exit: bool := *;
      ok := ok && !failed && exit;
    }
  }

  class Controller {
    const compose: bool
    const native: Native
    const started: real
    var deadline: real

    constructor (compose: bool, native: Native, started: real)
      ensures this.compose == compose && this.native == native && this.started == started
      ensures deadline == started + WORK_SECONDS
    {
      this.compose, this.native, this.started := compose, native, started;
      deadline := started + WORK_SECONDS;
    }

    /** `Controller.call`: the deadline of the run or, if that is earlier, of the phase. */
    method Call(seconds: real, phase: Option<real>, bound: real) returns (ok: bool)
      requires native.Within(bound) && deadline <= bound
      modifies native, native.clock
      ensures native.Within(bound) && native.clock.now >= old(native.clock.now)
      ensures old(native.operations) <= native.operations && |native.operations| <= |old(native.operations)| + 1
      ensures |old(native.processes)| <= |native.processes|
      ensures forall i :: 0 <= i < |old(native.processes)| ==> native.processes[i] == old(native.processes)[i]
      ensures forall i :: |old(native.operations)| <= i < |native.operations| ==>
                native.operations[i].deadline <= deadline
                && (phase.Some? ==> native.operations[i].deadline <= phase.value)
      ensures ok ==> |native.operations| == |old(native.operations)| + 1
                     && Proven(native.operations[|old(native.operations)|])
    {
      var end := if phase.Some? then Min(deadline, phase.value) else deadline;
      if compose {
        ok := native.ComposeCall(end, seconds, bound);
      } else {
        ghost var began: Option<real>;
        ghost var how: How;
        ok, began, how := native.DirectCall(end, seconds, bound);
      }
    }

    /**
     Any number of calls; the first failure ends them. With `phase` every call is within that phase, without
     each may have a phase of its own.
     */
    method Calls(phase: Option<real>, bound: real) returns (ok: bool)
      requires native.Within(bound) && deadline <= bound
      modifies native, native.clock
      ensures native.Within(bound) && native.clock.now >= old(native.clock.now)
      ensures old(native.operations) <= native.operations && |old(native.processes)| <= |native.processes|
      ensures forall i :: 0 <= i < |old(native.processes)| ==> native.processes[i] == old(native.processes)[i]
      ensures forall i :: |old(native.operations)| <= i < |native.operations| ==>
                native.operations[i].deadline <= End(phase) && (ok ==> Proven(native.operations[i]))
    {
      var n: int :| n >= 0;
      ok := true;
      for k := 0 to n
        invariant native.Within(bound) && native.clock.now >= old(native.clock.now)
        invariant old(native.operations) <= native.operations && |old(native.processes)| <= |native.processes|
        invariant forall i :: 0 <= i < |old(native.processes)| ==> native.processes[i] == old(native.processes)[i]
        invariant forall i :: |old(native.operations)| <= i < |native.operations| ==>
                    native.operations[i].deadline <= End(phase) && Proven(native.operations[i])
      {
        var seconds: real, own: Option<real> := *, *;
        ok := Call(seconds, if phase.Some? then phase else own, bound);
        if !ok {
          return;
        }
      }
      ok := *;
    }

    /** The deadline of a call in this phase. */
    function End(phase: Option<real>): real
      reads this
    {
      if phase.Some? then Min(deadline, phase.value) else deadline
    }

    /** The mount and capacity probes: their one call is over before the end of their nine seconds. */
    method Observe(bound: real) returns (ok: bool, ghost began: real)
      requires native.Within(bound) && deadline <= bound
      modifies native, native.clock
      ensures native.Within(bound) && native.clock.now >= old(native.clock.now)
      ensures old(native.operations) <= native.operations
      ensures forall i :: |old(native.operations)| <= i < |native.operations| ==>
                native.operations[i].deadline <= deadline && native.operations[i].deadline <= began + 9.0
                && (ok ==> Proven(native.operations[i]))
      ensures old(native.clock.now) <= began && (ok ==> native.clock.now < deadline && native.clock.now < began + 9.0)
    {
      var t := native.clock.Read();
      began := t;
      var end := Min(deadline, t + 9.0);
      ok := Call(5.0, Some(end), bound);
      t := native.clock.Read();
      ok := ok && t < end;
    }

    /** The end of a phase of this many seconds that starts now. */
    method Phase(seconds: real) returns (end: real)
      modifies native.clock
      ensures native.clock.now >= old(native.clock.now) && end == Min(deadline, native.clock.now + seconds)
    {
      var t := native.clock.Read();
      end := Min(deadline, t + seconds);
    }

    /**
     The cancelled client of a Compose run: every call while it works is within its twenty seconds, every call
     and the proof of the client itself while it is cancelled within fifteen more, and within the twenty.
     */
    method CancelledClient(bound: real) returns (ok: bool, workerEnd: real, cancelEnd: real, cancelled: nat)
      requires native.Within(bound) && deadline <= bound
      modifies native, native.clock
      ensures native.Within(bound) && native.clock.now >= old(native.clock.now)
      ensures old(native.operations) <= native.operations
      ensures workerEnd <= deadline && workerEnd <= native.clock.now + 20.0
      ensures ok ==> cancelEnd <= workerEnd && cancelEnd <= native.clock.now + 15.0 && native.clock.now < cancelEnd
      ensures forall i :: |old(native.operations)| <= i < |native.operations| ==>
                native.operations[i].deadline <= workerEnd && (ok ==> Proven(native.operations[i]))
      ensures ok ==> |old(native.operations)| <= cancelled <= |native.operations|
                     && forall i :: cancelled <= i < |native.operations| ==> ProvenBy(native.operations[i], cancelEnd)
    {
      workerEnd := Phase(20.0);
      cancelEnd, cancelled := workerEnd, |native.operations|;
      var index: Option<nat>;
      ghost var began: Option<real>;
      index, began := native.Start(workerEnd, 19.0, bound);
      if index.None? {
        return false, workerEnd, cancelEnd, cancelled;
      }
      var client := index.value;
      ok := Calls(Some(workerEnd), bound);
      if !ok {
        return;
      }
      cancelEnd := Phase(15.0);
      cancelEnd := Min(cancelEnd, workerEnd);
      cancelled := |native.operations|;
      ok := Calls(Some(cancelEnd), bound);
      if !ok {
        return;
      }
      var running, failed := native.Poll(client);
      if running || failed {
        return false, workerEnd, cancelEnd, cancelled;
      }
      ok := native.Finish(client, Some(cancelEnd), bound);
      var t := native.clock.Read();
      ok := ok && t < cancelEnd;
    }

    method Run() returns (ok: bool)
      requires native.operations == [] && native.processes == [] && deadline == started + WORK_SECONDS
      modifies native, native.clock
      ensures native.Within(started + WORK_SECONDS) && native.clock.now >= old(native.clock.now)
      ensures ok ==> AllProven(native.operations)
    {
      ok := Calls(None, deadline);
      if !ok {
        return;
      }
      ghost var began: real;
      ok, began := Observe(deadline);
      if !ok {
        return;
      }
      if compose {
        var workerEnd: real, cancelEnd: real, cancelled: nat;
        ok, workerEnd, cancelEnd, cancelled := CancelledClient(deadline);
        if !ok {
          return;
        }
      }
      ok := Calls(None, deadline);
    }

    /** The CLI side of `cleanup`, on the cleanup deadline. */
    method Cleanup(bound: real) returns (ok: bool)
      requires native.Within(bound) && deadline <= bound
      modifies native, native.clock
      ensures native.Within(bound) && native.clock.now >= old(native.clock.now)
      ensures old(native.operations) <= native.operations
      ensures forall i :: |old(native.operations)| <= i < |native.operations| ==>
                ProvenBy(native.operations[i], deadline) && (ok ==> Proven(native.operations[i]))
      ensures ok && compose ==> AllProven(native.operations)
      ensures ok && compose ==> forall i :: 0 <= i < |old(native.processes)| ==>
                i < |native.processes| && native.processes[i].record.Some? && Proven(native.processes[i].record.value)
    {
      var unknown := false;
      if compose {
        for i := 0 to |native.processes|
          invariant native.Within(bound) && native.clock.now >= old(native.clock.now)
          invariant |native.processes| == |old(native.processes)|
          invariant !unknown ==> forall j :: 0 <= j < i ==>
                      native.processes[j].record.Some? && Proven(native.processes[j].record.value)
          invariant old(native.operations) <= native.operations
          invariant forall j :: |old(native.operations)| <= j < |native.operations| ==>
                      ProvenBy(native.operations[j], deadline)
        {
          var finished := native.Finish(i, Some(deadline), bound);
          unknown := unknown || !finished;
        }
      }
      ok := Calls(None, bound);
      if compose && (unknown || exists i :: 0 <= i < |native.operations| && !Proven(native.operations[i])) {
        ok := false;
      }
    }
  }

  /** What `execute` leaves behind: when it started, when its cleanup started, and the recorded operations. */
  datatype Receipt = Receipt(started: real, cleanupStarted: real, runLength: nat, operations: seq<Operation>)

  function CleanupDeadline(r: Receipt): real {
    Min(r.cleanupStarted + CLEANUP_SECONDS, r.started + TOTAL_SECONDS)
  }

  predicate WorkInTime(r: Receipt) {
    r.runLength <= |r.operations| && AllTimely(r.operations[..r.runLength], r.started + WORK_SECONDS)
  }

  predicate CleanupInTime(r: Receipt) {
    forall i :: r.runLength <= i < |r.operations| ==> ProvenBy(r.operations[i], CleanupDeadline(r))
  }

  /**
   `execute`, reduced to its clock. No proof of the run phase is later than its own deadline or than the end
   of the work time, none of the cleanup is later than the cleanup deadline, and a run that passes has a
   proof for every operation.
   */
  method Execute(compose: bool, clock: Clock) returns (pass: bool, r: Receipt)
    modifies clock
    ensures old(clock.now) <= r.started <= r.cleanupStarted <= clock.now
    ensures WorkInTime(r) && CleanupInTime(r) && AllTimely(r.operations, r.started + TOTAL_SECONDS)
    ensures forall i :: 0 <= i < r.runLength && r.operations[i].provenAt.Some? ==>
              r.operations[i].provenAt.value <= r.operations[i].deadline <= r.started + 160.0
    ensures forall i :: r.runLength <= i < |r.operations| && r.operations[i].provenAt.Some? ==>
              && r.operations[i].provenAt.value <= r.operations[i].deadline
              && r.operations[i].provenAt.value <= r.cleanupStarted + 20.0
              && r.operations[i].provenAt.value <= r.started + 180.0
    ensures pass ==> forall i :: 0 <= i < |r.operations| ==> r.operations[i].provenAt.Some? && !r.operations[i].overflow
  {
    var started := clock.Read();
    var native := new Native(clock);
    var controller := new Controller(compose, native, started);
    pass := controller.Run();
    var runLength := |native.operations|;
    var t := clock.Read();
    controller.deadline := Min(t + CLEANUP_SECONDS, started + TOTAL_SECONDS);
    ghost var run := native.operations;
    var cleanup := controller.Cleanup(started + TOTAL_SECONDS);
    pass := pass && cleanup;
    r := Receipt(started, t, runLength, native.operations);
    assert r.operations[..runLength] == run;
    forall i | 0 <= i < runLength ensures Timely(r.operations[i], started + WORK_SECONDS) {
      assert r.operations[i] == run[i];
    }
  }
}
