/**
 Any number of runs of the two gates on one host, interleaved step by step, with crashes anywhere.
 `Lease` models what one run does by itself; this is what the shared lease makes of many. A release is guarded
 by the same `CleanedUp` that the cleanup method establishes, and every released execution is a run of this
 machine.
 */
module LeaseRuns {
  import opened Lease
  import opened Wrappers

  datatype Pc = Running | Removing | Releasing | Left(released: bool)

  /** `runLength` counts the processes before the cleanup began, `before` is the inventory at that moment. */
  datatype RunState = RunState(
    gate: Gate, owner: nat, pc: Pc, b: Belief, before: set<Resource>, failed: bool, ops: seq<Proc>, runLength: nat)

  /** `holder` names the run that created the lease file that exists now. */
  datatype World = World(
    lease: Option<LeaseFile>, holder: Option<nat>, inventory: set<Resource>, runs: map<nat, RunState>)

  datatype Event =
    /** The create-exclusive open; the content may be torn, and the run may stop right after it. */
    | Acquire(gate: Gate, owner: nat, whole: bool, proceeds: bool)
    | ReadBaseline
    /** The run learns or decides something else. */
    | Believe(b: Belief)
    /** Resources come into being; they carry the label of the run. */
    | Make(made: set<Resource>)
    /** A CLI operation of the run phase or, for the Compose gate, a client that stays. */
    | Operate(op: Proc)
    /** A process the Compose gate has not finished yet is finished. */
    | Refinish(i: nat, op: Proc)
    /** The run phase ends by itself, or by an error that is not a CLI operation. */
    | End(ok: bool)
    | Drop(removed: set<Resource>)
    | Remove(op: Proc)
    /** The last inventory and the comparisons that make the cleanup return true. */
    | Check(op: Proc)
    | Release(unlinked: bool)
    | Crash

  predicate Labelled(rs: set<Resource>, owner: nat) {
    forall r :: r in rs ==> !r.Other? && r.owner == owner
  }

  /** The direct gate waits for every process, the Compose gate keeps every process. */
  predicate Possible(gate: Gate, op: Proc) {
    if gate == Direct then !op.Live? else !op.Unrecorded?
  }

  predicate Holding(pc: Pc) {
    pc == Running || pc == Removing || pc == Releasing
  }

  function Set(w: World, p: nat, r: RunState): World {
    w.(runs := w.runs[p := r])
  }

  function Enter(w: World, p: nat, event: Event): World {
    if !event.Acquire? then w
    else if w.lease.Some? then
      Set(w, p, RunState(event.gate, event.owner, Left(false), FRESH, {}, true, [], 0))
    else
      var pc := if event.whole && event.proceeds then Running else Left(false);
      Set(w.(lease := Some(if event.whole then Owned(event.owner) else Torn), holder := Some(p)), p,
          RunState(event.gate, event.owner, pc, FRESH, {}, false, [], 0))
  }

  /** The run phase is over; what exists now is what the cleanup finds. */
  function Ended(w: World, r: RunState, failed: bool): RunState {
    r.(pc := Removing, failed := failed, before := w.inventory)
  }

  function StepRunning(w: World, p: nat, r: RunState, event: Event): World {
    match event
    case ReadBaseline => if r.b.baseline.Some? then w else Set(w, p, r.(b := r.b.(baseline := Some(w.inventory))))
    case Believe(b) => if b.baseline != r.b.baseline then w else Set(w, p, r.(b := b))
    case Make(made) =>
      if !Labelled(made, r.owner) || r.b.baseline.None? then w else w.(inventory := w.inventory + made)
    case Operate(op) =>
      if !Possible(r.gate, op) then w
      else
        var next := r.(ops := r.ops + [op], runLength := r.runLength + 1);
        Set(w, p, if Clean(op) || op.Live? then next else Ended(w, next, true))
    case Refinish(i, op) =>
      if !(i < |r.ops| && r.ops[i].Live? && op.Ended?) then w
      else
        var next := r.(ops := r.ops[i := op]);
        Set(w, p, if Clean(op) then next else Ended(w, next, true))
    case End(ok) => Set(w, p, Ended(w, r, !ok))
    case _ => w
  }

  function StepRemoving(w: World, p: nat, r: RunState, event: Event): World {
    match event
    case Refinish(i, op) =>
      if !(i < |r.ops| && r.ops[i].Live? && op.Ended?) then w else Set(w, p, r.(ops := r.ops[i := op]))
    case Drop(removed) =>
      if !Labelled(removed, r.owner) || r.b.baseline.None? then w else w.(inventory := w.inventory - removed)
    case Remove(op) =>
      if !Possible(r.gate, op) then w
      else Set(w, p, r.(ops := r.ops + [op], pc := if Clean(op) then Removing else Left(false)))
    case Check(op) =>
      if !Possible(r.gate, op) then w
      else
        var ops := r.ops + [op];
        var cleaned := Clean(op) && CleanedUp(r.gate, r.owner, r.b, r.before, w.inventory, ops);
        Set(w, p, r.(ops := ops, pc := if cleaned then Releasing else Left(false)))
    case _ => w
  }

  /** One step of run `p`; an event that does not apply changes nothing. */
  function Step(w: World, p: nat, event: Event): World {
    if p !in w.runs then Enter(w, p, event)
    else
      var r := w.runs[p];
      if event.Crash? then (if r.pc.Left? then w else Set(w, p, r.(pc := Left(false))))
      else if r.pc == Running then StepRunning(w, p, r, event)
      else if r.pc == Removing then StepRemoving(w, p, r, event)
      else if r.pc == Releasing && event.Release? then
        if w.lease == Some(Owned(r.owner)) && event.unlinked then
          Set(w.(lease := None, holder := None), p, r.(pc := Left(true)))
        else Set(w, p, r.(pc := Left(false)))
      else w
  }

  function Run(w: World, events: seq<(nat, Event)>): World {
    if events == [] then w
    else
      var last := events[|events| - 1];
      Step(Run(w, events[..|events| - 1]), last.0, last.1)
  }

  predicate Initial(w: World) {
    w.lease.None? && w.holder.None? && w.runs == map[]
  }

  // ---- What every step keeps.

  predicate Leaving(pc: Pc) {
    pc == Releasing || pc == Left(true)
  }

  /** What the processes of one run look like, wherever it is. */
  predicate OpsOk(r: RunState) {
    && r.runLength <= |r.ops| && NoneLive(r.gate, r.ops)
    && (r.pc == Running ==> NoneLost(r.ops) && r.runLength == |r.ops| && !r.failed)
    && (r.pc == Removing && r.gate == Direct ==>
          AllCleanBut(r.ops, r.runLength - 1) && (!r.failed ==> AllClean(r.ops)))
    && (Leaving(r.pc) ==>
          AllCleanBut(r.ops, r.runLength - 1) && (r.gate == Compose || !r.failed ==> AllClean(r.ops)))
  }

  /** What a run that holds the lease knows about the host, which had the inventory `start`. */
  predicate HolderOk(w: World, r: RunState, start: set<Resource>) {
    && w.lease == Some(Owned(r.owner))
    && (r.b.baseline.Some? ==> r.b.baseline.value == start)
    && (r.b.baseline.None? ==> w.inventory == start)
    && (r.pc == Releasing ==> w.inventory == start)
  }

  /** A run that may release, or has, established all that its cleanup is meant to. */
  predicate CleanOk(r: RunState, start: set<Resource>) {
    Leaving(r.pc) ==> CleanedUp(r.gate, r.owner, r.b, r.before, start, r.ops)
  }

  ghost predicate Invariant(w: World, start: set<Resource>) {
    && (w.holder.None? <==> w.lease.None?)
    && (w.lease.None? ==> w.inventory == start)
    && (forall p :: p in w.runs ==> OpsOk(w.runs[p]) && CleanOk(w.runs[p], start))
    && (forall p :: p in w.runs && Holding(w.runs[p].pc) ==> w.holder == Some(p) && HolderOk(w, w.runs[p], start))
  }

  lemma HolderStepKeeps(w: World, p: nat, event: Event, start: set<Resource>)
    requires p in w.runs && Holding(w.runs[p].pc) && w.holder == Some(p) && HolderOk(w, w.runs[p], start)
    requires CleanOk(w.runs[p], start)
    ensures var v := Step(w, p, event);
            && (v.holder.None? <==> v.lease.None?) && (v.lease.None? ==> v.inventory == start)
            && (v.lease == w.lease || Left(true) == v.runs[p].pc)
            && (Holding(v.runs[p].pc) ==> v.holder == Some(p) && HolderOk(v, v.runs[p], start))
            && CleanOk(v.runs[p], start)
  {
  }

  lemma OpsKeepRunning(w: World, p: nat, event: Event)
    requires p in w.runs && OpsOk(w.runs[p]) && w.runs[p].pc == Running
    ensures OpsOk(StepRunning(w, p, w.runs[p], event).runs[p])
  {
  }

  lemma OpsKeepRemoving(w: World, p: nat, event: Event)
    requires p in w.runs && OpsOk(w.runs[p]) && w.runs[p].pc == Removing
    ensures OpsOk(StepRemoving(w, p, w.runs[p], event).runs[p])
  {
  }

  lemma OpsKeep(w: World, p: nat, event: Event)
    requires p in w.runs && OpsOk(w.runs[p])
    ensures OpsOk(Step(w, p, event).runs[p])
  {
    if w.runs[p].pc == Running {
      OpsKeepRunning(w, p, event);
    } else if w.runs[p].pc == Removing {
      OpsKeepRemoving(w, p, event);
    }
  }

  /** A run outside the lease changes nothing but its own state, and cannot enter. */
  lemma StrangerStepKeeps(w: World, p: nat, event: Event)
    requires p in w.runs && !Holding(w.runs[p].pc)
    ensures var v := Step(w, p, event);
            && v.lease == w.lease && v.holder == w.holder && v.inventory == w.inventory
            && p in v.runs && v.runs[p] == w.runs[p]
  {
  }

  lemma OthersKeep(w: World, p: nat, event: Event)
    ensures forall q :: q != p ==>
              (q in Step(w, p, event).runs <==> q in w.runs)
              && (q in w.runs ==> Step(w, p, event).runs[q] == w.runs[q])
  {
  }

  lemma StepKeeps(w: World, p: nat, event: Event, start: set<Resource>)
    requires Invariant(w, start)
    ensures Invariant(Step(w, p, event), start)
  {
    OthersKeep(w, p, event);
    if p in w.runs {
      OpsKeep(w, p, event);
      if Holding(w.runs[p].pc) {
        HolderStepKeeps(w, p, event, start);
      } else {
        StrangerStepKeeps(w, p, event);
      }
    }
  }

  lemma {:induction false} RunKeeps(w: World, events: seq<(nat, Event)>)
    requires Initial(w)
    ensures Invariant(Run(w, events), w.inventory)
    decreases |events|
  {
    if events != [] {
      var last := events[|events| - 1];
      RunKeeps(w, events[..|events| - 1]);
      StepKeeps(Run(w, events[..|events| - 1]), last.0, last.1, w.inventory);
    }
  }

  // ---- The guarantees, over every interleaving.

  /** At most one run holds the lease. */
  lemma AtMostOneHolder(w: World, events: seq<(nat, Event)>, p: nat, q: nat)
    requires Initial(w)
    requires var v := Run(w, events);
             p in v.runs && q in v.runs && Holding(v.runs[p].pc) && Holding(v.runs[q].pc)
    ensures p == q && Run(w, events).lease == Some(Owned(Run(w, events).runs[p].owner))
  {
    RunKeeps(w, events);
  }

  /** Whenever the lease is free, the host has the inventory it started with, whatever the runs went through. */
  lemma FreeMeansRestored(w: World, events: seq<(nat, Event)>)
    requires Initial(w)
    ensures Run(w, events).lease.None? ==> Run(w, events).inventory == w.inventory
  {
    RunKeeps(w, events);
  }

  predicate TreesProven(ps: seq<Proc>) {
    forall i :: 0 <= i < |ps| ==> !ps[i].Live? && ps[i].tree
  }

  /** The run phase ended at a process whose tree proof was lost. */
  predicate LostAtTheEnd(r: RunState) {
    0 < r.runLength <= |r.ops| && !r.ops[r.runLength - 1].Live? && !r.ops[r.runLength - 1].tree
  }

  /**
   A lease given back means a completed cleanup, ambiguous creations included, and proven trees for the Compose
   gate and for every run that passed. For the direct gate the trees are not always proven: they are if and
   only if the run phase did not end at a lost proof, because that gate's cleanup never looks at the operations
   of the run.
   */
  lemma ReleasedMeansProven(w: World, events: seq<(nat, Event)>, p: nat)
    requires Initial(w)
    requires var v := Run(w, events); p in v.runs && v.runs[p].pc == Left(true)
    ensures var r := Run(w, events).runs[p];
            && CleanedUp(r.gate, r.owner, r.b, r.before, w.inventory, r.ops)
            && (r.gate == Compose || !r.failed ==>
                  forall i :: 0 <= i < |r.ops| ==> r.ops[i].Ended? && r.ops[i].tree && !r.ops[i].overflow)
            && (TreesProven(r.ops) <==> !LostAtTheEnd(r))
  {
    RunKeeps(w, events);
  }

  // ---- What a single step may do, on the lease, the inventory and the verdict.

  /**
   The lease file changes in two steps only: a new run writes it where there is none, and a run whose cleanup is
   checked and whose name it holds removes it. Nothing else makes a run one that gave it back.
   */
  lemma LeaseMoves(w: World, p: nat, event: Event)
    ensures var v := Step(w, p, event);
            || v.lease == w.lease
            || (w.lease.None? && p !in w.runs && event.Acquire?
                && v.lease == Some(if event.whole then Owned(event.owner) else Torn) && v.holder == Some(p))
            || (p in w.runs && w.runs[p].pc == Releasing && event == Release(true)
                && w.lease == Some(Owned(w.runs[p].owner)) && v.lease.None? && v.runs[p].pc == Left(true))
    ensures var v := Step(w, p, event);
            p in v.runs && v.runs[p].pc == Left(true) ==> v.lease.None? || (p in w.runs && w.runs[p].pc == Left(true))
    ensures p in w.runs && w.runs[p].pc == Releasing && event == Release(true) && w.lease == Some(Owned(w.runs[p].owner))
            ==> Step(w, p, event).lease.None?
  {
  }

  /** A new run: refused where there is a lease, else the holder, which goes on only behind a whole lease file. */
  lemma EnteringMeans(w: World, p: nat, gate: Gate, owner: nat, whole: bool, proceeds: bool)
    requires p !in w.runs
    ensures var v := Step(w, p, Acquire(gate, owner, whole, proceeds));
            && p in v.runs && v.inventory == w.inventory && v.runs[p].gate == gate && v.runs[p].owner == owner
            && v.runs[p].ops == [] && v.runs[p].b == FRESH
            && (w.lease.Some? ==> v.lease == w.lease && v.holder == w.holder && v.runs[p].pc == Left(false) && v.runs[p].failed)
            && (w.lease.None? ==> v.holder == Some(p) && !v.runs[p].failed
                                  && v.runs[p].pc == (if whole && proceeds then Running else Left(false)))
  {
  }

  /** A run changes only resources that carry its own label. */
  lemma StepChangesOwn(w: World, p: nat, event: Event)
    ensures var v := Step(w, p, event);
            v.inventory == w.inventory
            || (p in w.runs && forall r :: (r in w.inventory) != (r in v.inventory) ==>
                  (r.Container? || r.Image?) && r.owner == w.runs[p].owner)
  {
  }

  /** A lost proof ends the run phase, and the run has failed. */
  lemma LostProofFails(w: World, p: nat, op: Proc, i: nat)
    requires p in w.runs && w.runs[p].pc == Running && !op.Live? && !(op.Ended? && op.tree && !op.overflow)
    ensures var v := Step(w, p, Operate(op));
            w.runs[p].gate == Direct || op.Ended? ==>
              p in v.runs && v.runs[p].failed && v.runs[p].pc == Removing && v.runs[p].before == w.inventory
    ensures var v := Step(w, p, Refinish(i, op));
            i < |w.runs[p].ops| && w.runs[p].ops[i].Live? && op.Ended? ==>
              p in v.runs && v.runs[p].failed && v.runs[p].pc == Removing && v.runs[p].before == w.inventory
    ensures !(i < |w.runs[p].ops| && w.runs[p].ops[i].Live? && op.Ended?) ==> Step(w, p, Refinish(i, op)) == w
  {
  }

  // ---- Running several events of one run.

  function Events(p: nat, events: seq<Event>): (es: seq<(nat, Event)>)
    ensures |es| == |events| && forall i :: 0 <= i < |es| ==> es[i] == (p, events[i])
  {
    seq(|events|, i requires 0 <= i < |events| => (p, events[i]))
  }

  lemma {:induction false} RunAppends(w: World, a: seq<(nat, Event)>, b: seq<(nat, Event)>)
    ensures Run(w, a + b) == Run(Run(w, a), b)
    decreases |b|
  {
    if b == [] {
      assert a + b == a;
    } else {
      RunAppends(w, a, b[..|b| - 1]);
      assert (a + b)[..|a + b| - 1] == a + b[..|b| - 1];
    }
  }

  /** `events` of run `p` lead from `w` to `v`. */
  predicate Leads(w: World, p: nat, events: seq<Event>, v: World) {
    Run(w, Events(p, events)) == v
  }

  lemma LeadsOn(w: World, p: nat, a: seq<Event>, u: World, b: seq<Event>, v: World)
    requires Leads(w, p, a, u) && Leads(u, p, b, v)
    ensures Leads(w, p, a + b, v)
  {
    RunAppends(w, Events(p, a), Events(p, b));
    assert Events(p, a + b) == Events(p, a) + Events(p, b);
  }

  lemma OneStep(w: World, p: nat, event: Event)
    ensures Leads(w, p, [event], Step(w, p, event))
  {
    var es := Events(p, [event]);
    assert es[..0] == [] && es[0] == (p, event);
    assert Run(w, es[..0]) == w;
  }

  /** Five steps of one run. */
  lemma FiveSteps(w: World, p: nat, a: Event, b: Event, c: Event, d: Event, e: Event)
    ensures Leads(w, p, [a, b, c, d, e], Step(Step(Step(Step(Step(w, p, a), p, b), p, c), p, d), p, e))
  {
    var w1 := Step(w, p, a);
    var w2 := Step(w1, p, b);
    var w3 := Step(w2, p, c);
    var w4 := Step(w3, p, d);
    OneStep(w, p, a);
    OneStep(w1, p, b);
    LeadsOn(w, p, [a], w1, [b], w2);
    OneStep(w2, p, c);
    LeadsOn(w, p, [a] + [b], w2, [c], w3);
    OneStep(w3, p, d);
    LeadsOn(w, p, [a] + [b] + [c], w3, [d], w4);
    OneStep(w4, p, e);
    LeadsOn(w, p, [a] + [b] + [c] + [d], w4, [e], Step(w4, p, e));
    assert [a] + [b] + [c] + [d] + [e] == [a, b, c, d, e];
  }

  /** The direct gate up to the cleanup, with the third step an operation whose proof was lost. */
  lemma LosingRun(w: World, lost: Proc) returns (v: World)
    requires Initial(w) && lost.Ended? && !lost.tree
    ensures v == Step(Step(Step(w, 0, Acquire(Direct, 7, true, true)), 0, ReadBaseline), 0, Operate(lost))
    ensures v.lease == Some(Owned(7)) && v.inventory == w.inventory
    ensures 0 in v.runs
         && v.runs[0] == RunState(Direct, 7, Removing, FRESH.(baseline := Some(w.inventory)), w.inventory, true, [lost], 1)
  {
    v := Step(Step(Step(w, 0, Acquire(Direct, 7, true, true)), 0, ReadBaseline), 0, Operate(lost));
  }

  /** A run of the direct gate that gives the lease back with a CLI tree nobody proved ended. */
  lemma DirectGateCanLoseATree(w: World, lost: Proc, last: Proc)
    requires Initial(w) && lost.Ended? && !lost.tree && Clean(last)
    ensures var v := Run(w, Events(0, [Acquire(Direct, 7, true, true), ReadBaseline, Operate(lost), Check(last),
                                       Release(true)]));
            v.lease.None? && 0 in v.runs && v.runs[0].pc == Left(true) && LostAtTheEnd(v.runs[0])
  {
    FiveSteps(w, 0, Acquire(Direct, 7, true, true), ReadBaseline, Operate(lost), Check(last), Release(true));
    var v := LosingRun(w, lost);
    var checked := Step(v, 0, Check(last));
    assert checked.runs[0].pc == Releasing && checked.runs[0].ops[0] == lost;
  }

  // ---- Every released execution is a run of the machine.

  function Operations(ops: seq<Proc>): (events: seq<Event>)
    ensures |events| == |ops| && forall i :: 0 <= i < |ops| ==> events[i] == Operate(ops[i])
  {
    seq(|ops|, i requires 0 <= i < |ops| => Operate(ops[i]))
  }

  function Removals(ops: seq<Proc>): (events: seq<Event>)
    ensures |events| == |ops| && forall i :: 0 <= i < |ops| ==> events[i] == Remove(ops[i])
  {
    seq(|ops|, i requires 0 <= i < |ops| => Remove(ops[i]))
  }

  lemma SetTwice(w: World, p: nat, a: RunState, b: RunState)
    ensures Set(Set(w, p, a), p, b) == Set(w, p, b)
  {
    assert w.runs[p := a][p := b] == w.runs[p := b];
  }

  lemma OperateLeads(w: World, p: nat, r: RunState, op: Proc)
    requires p in w.runs && w.runs[p] == r && r.pc == Running && Clean(op)
    ensures Leads(w, p, [Operate(op)], Set(w, p, r.(ops := r.ops + [op], runLength := r.runLength + 1)))
  {
    OneStep(w, p, Operate(op));
  }

  /** Clean operations only lengthen a running run. */
  lemma {:induction false} OperationsLead(w: World, p: nat, r: RunState, ops: seq<Proc>)
    requires p in w.runs && w.runs[p] == r && r.pc == Running && AllClean(ops)
    ensures Leads(w, p, Operations(ops), Set(w, p, r.(ops := r.ops + ops, runLength := r.runLength + |ops|)))
    decreases |ops|
  {
    if ops == [] {
      assert Events(p, Operations(ops)) == [] && r.ops + [] == r.ops;
      assert w.runs[p := r] == w.runs;
    } else {
      var front, last := ops[..|ops| - 1], ops[|ops| - 1];
      var r1 := r.(ops := r.ops + front, runLength := r.runLength + |front|);
      var r2 := r.(ops := r.ops + front + [last], runLength := r.runLength + |ops|);
      OperationsLead(w, p, r, front);
      OperateLeads(Set(w, p, r1), p, r1, last);
      SetTwice(w, p, r1, r2);
      LeadsOn(w, p, Operations(front), Set(w, p, r1), [Operate(last)], Set(w, p, r2));
      assert Operations(front) + [Operate(last)] == Operations(ops);
      assert r.ops + front + [last] == r.ops + ops;
    }
  }

  /** Clean operations only lengthen a cleanup. */
  lemma {:induction false} RemovalsLead(w: World, p: nat, r: RunState, ops: seq<Proc>)
    requires p in w.runs && w.runs[p] == r && r.pc == Removing && AllClean(ops)
    ensures Leads(w, p, Removals(ops), Set(w, p, r.(ops := r.ops + ops)))
    decreases |ops|
  {
    if ops == [] {
      assert Events(p, Removals(ops)) == [] && r.ops + [] == r.ops;
      assert w.runs[p := r] == w.runs;
    } else {
      var front, last := ops[..|ops| - 1], ops[|ops| - 1];
      var r1, r2 := r.(ops := r.ops + front), r.(ops := r.ops + front + [last]);
      RemovalsLead(w, p, r, front);
      OneStep(Set(w, p, r1), p, Remove(last));
      SetTwice(w, p, r1, r2);
      LeadsOn(w, p, Removals(front), Set(w, p, r1), [Remove(last)], Set(w, p, r2));
      assert Removals(front) + [Remove(last)] == Removals(ops);
      assert r.ops + front + [last] == r.ops + ops;
    }
  }

  /** Taking the lease, reading the baseline, and what came into being. */
  lemma BeginLeads(w: World, p: nat, gate: Gate, owner: nat, b: Belief, before: set<Resource>) returns (events: seq<Event>)
    requires w.lease.None? && p !in w.runs && b.baseline == Some(w.inventory) && w.inventory <= before
    requires OwnChanges(w.inventory, before, owner)
    ensures Leads(w, p, events, World(Some(Owned(owner)), Some(p), before,
                                      w.runs[p := RunState(gate, owner, Running, b, {}, false, [], 0)]))
  {
    var made := before - w.inventory;
    var w1 := Step(w, p, Acquire(gate, owner, true, true));
    var w2 := Step(w1, p, ReadBaseline);
    var w3 := Step(w2, p, Believe(b));
    var w4 := Step(w3, p, Make(made));
    OneStep(w, p, Acquire(gate, owner, true, true));
    OneStep(w1, p, ReadBaseline);
    OneStep(w2, p, Believe(b));
    OneStep(w3, p, Make(made));
    LeadsOn(w, p, [Acquire(gate, owner, true, true)], w1, [ReadBaseline], w2);
    LeadsOn(w, p, [Acquire(gate, owner, true, true)] + [ReadBaseline], w2, [Believe(b)], w3);
    events := [Acquire(gate, owner, true, true)] + [ReadBaseline] + [Believe(b)] + [Make(made)];
    LeadsOn(w, p, [Acquire(gate, owner, true, true)] + [ReadBaseline] + [Believe(b)], w3, [Make(made)], w4);
    assert w.inventory + made == before;
    assert w4.runs == w.runs[p := RunState(gate, owner, Running, b, {}, false, [], 0)];
  }

  /** The run after its run phase. */
  function AfterRun(w: World, r: RunState, ops: seq<Proc>, failed: bool): RunState {
    r.(pc := Removing, before := w.inventory, failed := failed, ops := ops, runLength := |ops|)
  }

  lemma CleanPhaseLeads(w: World, p: nat, r: RunState, ops: seq<Proc>, pass: bool) returns (events: seq<Event>)
    requires p in w.runs && w.runs[p] == r && r.pc == Running && r.ops == [] && r.runLength == 0 && AllClean(ops)
    ensures Leads(w, p, events, Set(w, p, AfterRun(w, r, ops, !pass)))
  {
    OperationsLead(w, p, r, ops);
    assert r.ops + ops == ops;
    var u := Set(w, p, r.(ops := ops, runLength := |ops|));
    OneStep(u, p, End(pass));
    SetTwice(w, p, r.(ops := ops, runLength := |ops|), AfterRun(w, r, ops, !pass));
    events := Operations(ops) + [End(pass)];
    LeadsOn(w, p, Operations(ops), u, [End(pass)], Set(w, p, AfterRun(w, r, ops, !pass)));
  }

  /** An operation whose proof was lost ends the run phase. */
  lemma LosingStep(w: World, p: nat, r: RunState, front: seq<Proc>, last: Proc)
    requires r.pc == Running && !Clean(last) && Possible(r.gate, last) && !last.Live?
    requires r.ops == front && r.runLength == |front|
    ensures Step(Set(w, p, r), p, Operate(last)) == Set(w, p, AfterRun(w, r, front + [last], true))
  {
    SetTwice(w, p, r, AfterRun(w, r, front + [last], true));
  }

  lemma LostPhaseLeads(w: World, p: nat, r: RunState, front: seq<Proc>, last: Proc) returns (events: seq<Event>)
    requires p in w.runs && w.runs[p] == r && r.pc == Running && r.ops == [] && r.runLength == 0 && AllClean(front)
    requires !Clean(last) && Possible(r.gate, last) && !last.Live?
    ensures Leads(w, p, events, Set(w, p, AfterRun(w, r, front + [last], true)))
  {
    OperationsLead(w, p, r, front);
    assert r.ops + front == front;
    var r1 := r.(ops := front, runLength := |front|);
    LosingStep(w, p, r1, front, last);
    OneStep(Set(w, p, r1), p, Operate(last));
    events := Operations(front) + [Operate(last)];
    LeadsOn(w, p, Operations(front), Set(w, p, r1), [Operate(last)], Set(w, p, AfterRun(w, r1, front + [last], true)));
  }

  /** The operations of the run phase; only the last may be lost, and then the run has failed. */
  lemma RunPhaseLeads(w: World, p: nat, r: RunState, ops: seq<Proc>, pass: bool) returns (events: seq<Event>)
    requires p in w.runs && w.runs[p] == r && r.pc == Running && r.ops == [] && r.runLength == 0
    requires AllCleanBut(ops, |ops| - 1) && (pass ==> AllClean(ops)) && NoneLive(r.gate, ops)
    requires r.gate == Compose ==> AllClean(ops)
    ensures Leads(w, p, events, Set(w, p, AfterRun(w, r, ops, !pass)))
  {
    if AllClean(ops) {
      events := CleanPhaseLeads(w, p, r, ops, pass);
    } else {
      events := LostPhaseLeads(w, p, r, ops[..|ops| - 1], ops[|ops| - 1]);
      assert ops[..|ops| - 1] + [ops[|ops| - 1]] == ops;
    }
  }

  /** The cleanup, its last check, and the release. */
  lemma CleanupLeads(w: World, p: nat, r: RunState, start: set<Resource>, ops: seq<Proc>, last: Proc)
    returns (events: seq<Event>)
    requires p in w.runs && w.runs[p] == r && r.pc == Removing && w.lease == Some(Owned(r.owner))
    requires start <= w.inventory && OwnChanges(start, w.inventory, r.owner) && r.b.baseline.Some?
    requires AllClean(ops) && Clean(last)
    requires CleanedUp(r.gate, r.owner, r.b, r.before, start, r.ops + ops + [last])
    ensures Leads(w, p, events, World(None, None, start, w.runs[p := r.(pc := Left(true), ops := r.ops + ops + [last])]))
  {
    var dropped := w.inventory - start;
    var w1, w2 := w.(inventory := start), Set(w.(inventory := start), p, r.(ops := r.ops + ops));
    OneStep(w, p, Drop(dropped));
    assert w.inventory - dropped == start;
    RemovalsLead(w1, p, r, ops);
    LeadsOn(w, p, [Drop(dropped)], w1, Removals(ops), w2);
    var f := ReleaseLeads(w2, p, r.(ops := r.ops + ops), last);
    events := [Drop(dropped)] + Removals(ops) + f;
    SetTwice(w1, p, r.(ops := r.ops + ops), r.(pc := Left(true), ops := r.ops + ops + [last]));
    LeadsOn(w, p, [Drop(dropped)] + Removals(ops), w2, f,
            World(None, None, start, w2.runs[p := r.(pc := Left(true), ops := r.ops + ops + [last])]));
  }

  lemma ReleaseLeads(w: World, p: nat, r: RunState, last: Proc) returns (events: seq<Event>)
    requires p in w.runs && w.runs[p] == r && r.pc == Removing && w.lease == Some(Owned(r.owner)) && Clean(last)
    requires CleanedUp(r.gate, r.owner, r.b, r.before, w.inventory, r.ops + [last])
    ensures Leads(w, p, events, World(None, None, w.inventory, w.runs[p := r.(pc := Left(true), ops := r.ops + [last])]))
  {
    var checked := r.(ops := r.ops + [last], pc := Releasing);
    OneStep(w, p, Check(last));
    var u := Set(w, p, checked);
    OneStep(u, p, Release(true));
    SetTwice(w, p, checked, checked.(pc := Left(true)));
    events := [Check(last)] + [Release(true)];
    LeadsOn(w, p, [Check(last)], u, [Release(true)], Step(u, p, Release(true)));
  }

  /**
   An execution that gives the lease back, as `Lease.Execute` promises it, is a run of this machine from the
   same host, with the same processes, belief and inventories, and with the same verdict.
   */
  lemma ReleasedIsARun(w: World, p: nat, gate: Gate, owner: nat, o: Outcome) returns (events: seq<Event>)
    requires w.lease.None? && p !in w.runs && o.Released? && o.after == w.inventory
    requires ReleaseOk(gate, owner, w.inventory, o) && OwnChanges(w.inventory, o.before, owner)
    ensures var r := RunState(gate, owner, Left(true), o.belief, o.before, !o.pass, o.processes, o.runLength);
            Leads(w, p, events, World(None, None, w.inventory, w.runs[p := r]))
  {
    var n, k := |o.processes| - 1, o.runLength;
    var ops, rest, last := o.processes[..k], o.processes[k..n], o.processes[n];
    assert ops + rest + [last] == o.processes;
    var a := BeginLeads(w, p, gate, owner, o.belief, o.before);
    var r0 := RunState(gate, owner, Running, o.belief, {}, false, [], 0);
    var u := World(Some(Owned(owner)), Some(p), o.before, w.runs[p := r0]);
    var b := RunPhaseLeads(u, p, r0, ops, o.pass);
    var r1 := AfterRun(u, r0, ops, !o.pass);
    var v := Set(u, p, r1);
    LeadsOn(w, p, a, u, b, v);
    var c := CleanupLeads(v, p, r1, w.inventory, rest, last);
    var r2 := r1.(pc := Left(true), ops := ops + rest + [last]);
    events := a + b + c;
    LeadsOn(w, p, a + b, v, c, World(None, None, w.inventory, v.runs[p := r2]));
    assert v.runs[p := r2] == w.runs[p := r2];
  }
}
