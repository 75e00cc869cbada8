/**
 Qualification runs under one exclusive lease. Two programs share the lease: the direct resource gate and the
 Compose builder. Each creates labelled resources whose creation may have an unknown outcome, cleans up
 fail-closed, and gives the lease back only after a verified cleanup.
 */
module Lease {
  import opened Wrappers

  datatype Gate = Direct | Compose

  /** A line of the resource inventory; containers and images carry the label of the run that made them. */
  datatype Resource = Container(id: nat, owner: nat) | Image(id: nat, owner: nat) | Other(id: nat)

  /**
   A native CLI process tree: not yet finished, ended with or without a proof that nothing of it is left, or
   ended without a record, because writing out its files failed. The Compose gate keeps a process it could not
   record and finishes it again; the direct gate forgets it.
   */
  datatype Proc = Live | Ended(tree: bool, overflow: bool) | Unrecorded(tree: bool)

  predicate Clean(p: Proc) {
    p.Ended? && p.tree && !p.overflow
  }

  predicate AllClean(ps: seq<Proc>) {
    forall i :: 0 <= i < |ps| ==> Clean(ps[i])
  }

  predicate AllCleanBut(ps: seq<Proc>, last: int) {
    forall i :: 0 <= i < |ps| && i != last ==> Clean(ps[i])
  }

  /** Nothing is known to be wrong with these processes. */
  predicate NoneLost(ps: seq<Proc>) {
    forall i :: 0 <= i < |ps| ==> ps[i].Live? || Clean(ps[i])
  }

  /** The direct gate has no process of which it does not know the end. */
  predicate NoneLive(gate: Gate, ps: seq<Proc>) {
    gate == Direct ==> forall i :: 0 <= i < |ps| ==> !ps[i].Live?
  }

  /** Nothing lost, except perhaps for the last one. */
  predicate NoneLostButLast(ps: seq<Proc>) {
    ps == [] || NoneLost(ps[..|ps| - 1])
  }

  function Containers(inventory: set<Resource>, owner: nat): (c: set<Resource>) {
    set r | r in inventory && r.Container? && r.owner == owner
  }

  function Images(inventory: set<Resource>, owner: nat): set<Resource> {
    set r | r in inventory && r.Image? && r.owner == owner
  }

  lemma OneContainer(inventory: set<Resource>, owner: nat)
    requires |Containers(inventory, owner)| == 1
    ensures exists id :: Container(id, owner) in inventory
              && forall r :: r in inventory && r.Container? && r.owner == owner ==> r == Container(id, owner)
  {
    var c := Containers(inventory, owner);
    var one :| one in c;
    assert |c - {one}| == 0;
    forall r | r in inventory && r.Container? && r.owner == owner ensures r == one {
      assert r in c && (r != one ==> r in c - {one});
    }
    assert one == Container(one.id, owner);
  }

  lemma SomeImage(inventory: set<Resource>, owner: nat)
    requires Images(inventory, owner) != {}
    ensures exists id :: Image(id, owner) in inventory
  {
    var r :| r in Images(inventory, owner);
    assert r == Image(r.id, owner);
  }

  predicate NoContainer(inventory: set<Resource>) {
    forall r :: r in inventory ==> !r.Container?
  }

  /** The lease file: the owner that wrote it, or a torn write. */
  datatype LeaseFile = Owned(owner: nat) | Torn

  class Host {
    var lease: Option<LeaseFile>
    var inventory: set<Resource>
  }

  /** The container id: never returned, returned empty, or a value. */
  datatype Cid = Unset | Blank | Id(id: nat)

  /** What the controller believes it has done. */
  datatype Belief = Belief(
    baseline: Option<set<Resource>>, intended: bool, cid: Cid, builder: bool, imageIntended: bool,
    imageAcknowledged: bool)

  const FRESH := Belief(None, false, Unset, false, false, false)

  /**
   What a cleanup that returned true has established: the inventory is the baseline again; if the id of the
   container was never learned, exactly one owned container existed; and, for the Compose gate alone, every
   CLI tree is proven ended, and an image whose creation was not acknowledged did exist.
   */
  predicate CleanedUp(gate: Gate, owner: nat, b: Belief, before: set<Resource>, after: set<Resource>, ps: seq<Proc>) {
    && b.baseline == Some(after)
    && (b.intended && b.cid == Unset ==> |Containers(before, owner)| == 1)
    && (gate == Compose ==>
          AllClean(ps) && (b.imageIntended && !b.imageAcknowledged ==> Images(before, owner) != {}))
  }

  /** The inventory changes only by resources that carry the owner's label. */
  ghost predicate OwnChanges(before: set<Resource>, after: set<Resource>, owner: nat) {
    forall r :: (r in before && r !in after) || (r in after && r !in before) ==> !r.Other? && r.owner == owner
  }

  class Controller {
    const gate: Gate
    const owner: nat
    const host: Host
    var b: Belief
    var processes: seq<Proc>
    /** How many operations and observations have failed, or not had the effect they were asked for. */
    ghost var trouble: nat

    constructor (gate: Gate, owner: nat, host: Host)
      ensures this.gate == gate && this.owner == owner && this.host == host
      ensures b == FRESH && processes == [] && trouble == 0
    {
      this.gate, this.owner, this.host := gate, owner, host;
      b, processes, trouble := FRESH, [], 0;
    }

    /** One CLI operation: success needs the proof of its tree, and its record. */
    method Call() returns (ok: bool)
      modifies this`processes, this`trouble
      ensures trouble == if ok then old(trouble) else old(trouble) + 1
      ensures |processes| == |old(processes)| + 1 && processes[..|processes| - 1] == old(processes)
      ensures old(processes) <= processes
      ensures gate == Direct ==> !processes[|processes| - 1].Live?
      ensures ok ==> Clean(processes[|processes| - 1])
    {
      var tree: bool, overflow: bool, recorded: bool := *, *, *;
      if !recorded {
        processes, trouble := processes + [if gate == Compose then Live else Unrecorded(tree)], trouble + 1;
        return false;
      }
      processes := processes + [Ended(tree, overflow)];
      ok := *;
      ok := ok && tree && !overflow;
      if !ok {
        trouble := trouble + 1;
      }
    }

    /** Any number of operations; the first that fails ends the phase. */
    method Calls() returns (ok: bool)
      requires NoneLost(processes)
      modifies this`processes, this`trouble
      ensures trouble >= old(trouble) && (ok <==> trouble == old(trouble))
      ensures old(processes) <= processes && NoneLostButLast(processes)
      ensures gate == Direct ==> forall i :: |old(processes)| <= i < |processes| ==> !processes[i].Live?
      ensures ok ==> forall i :: |old(processes)| <= i < |processes| ==> Clean(processes[i])
    {
      var n: int :| n >= 0;
      for i := 0 to n
        invariant old(processes) <= processes && NoneLost(processes) && trouble == old(trouble)
        invariant forall j :: |old(processes)| <= j < |processes| ==> Clean(processes[j])
      {
        ok := Call();
        if !ok {
          return;
        }
      }
      ok := *;
      if !ok {
        trouble := trouble + 1;
      }
    }

    /** An operation during which `r` may come into being, whether or not the operation succeeds. */
    method Making(r: Resource) returns (ok: bool)
      requires NoneLost(processes) && !r.Other? && r.owner == owner
      modifies this`processes, this`trouble, host`inventory
      ensures trouble >= old(trouble) && (!ok ==> trouble > old(trouble))
      ensures trouble == old(trouble) ==> r in host.inventory
      ensures old(processes) <= processes && NoneLostButLast(processes)
      ensures gate == Direct ==> forall i :: |old(processes)| <= i < |processes| ==> !processes[i].Live?
      ensures ok ==> forall i :: |old(processes)| <= i < |processes| ==> Clean(processes[i])
      ensures host.inventory == old(host.inventory) || host.inventory == old(host.inventory) + {r}
    {
      var made: bool := *;
      if made {
        host.inventory := host.inventory + {r};
      } else {
        trouble := trouble + 1;
      }
      ok := Call();
    }

    /** The builder and the first build: the image is intended before, and acknowledged only if it is there. */
    method FirstBuild() returns (ok: bool)
      requires AllClean(processes)
      modifies this`processes, this`b, this`trouble, host`inventory
      ensures trouble >= old(trouble)
      ensures !ok && trouble == old(trouble) ==> Images(old(host.inventory), owner) != {}
      ensures b.(builder := false, imageIntended := false, imageAcknowledged := false)
           == old(b.(builder := false, imageIntended := false, imageAcknowledged := false))
      ensures old(host.inventory) <= host.inventory && OwnChanges(old(host.inventory), host.inventory, owner)
      ensures ok ==> AllClean(processes) && b.builder && b.imageIntended && b.imageAcknowledged
      ensures forall r :: r in host.inventory && r !in old(host.inventory) ==> r.Image? && b.imageIntended
      ensures b.imageIntended && !old(b.imageIntended) ==> b.builder && Images(old(host.inventory), owner) == {}
      ensures b.imageAcknowledged && !old(b.imageAcknowledged) ==> b.imageIntended && Images(host.inventory, owner) != {}
    {
      b := b.(builder := true);
      ok := Calls();
      if !ok || Images(host.inventory, owner) != {} {
        return false;
      }
      b := b.(imageIntended := true);
      var image: nat := *;
      ok := Making(Image(image, owner));
      assert trouble == old(trouble) ==> Image(image, owner) in Images(host.inventory, owner);
      if !ok || Images(host.inventory, owner) == {} {
        return false;
      }
      b := b.(imageAcknowledged := true);
    }

    /** The client of a build that is cancelled: it stays until it is finished. */
    method CancelledBuild() returns (ok: bool)
      requires AllClean(processes)
      modifies this`processes, this`trouble
      ensures trouble >= old(trouble) && (ok <==> trouble == old(trouble))
      ensures ok ==> AllClean(processes)
    {
      var client := |processes|;
      processes := processes + [Live];
      ok := Calls();
      if !ok {
        return;
      }
      var tree: bool, overflow: bool := *, *;
      processes := processes[client := Ended(tree, overflow)];
      var recorded: bool := *;
      if !recorded {
        processes, trouble := processes[client := Live], trouble + 1;
        return false;
      }
      if !tree || overflow {
        trouble := trouble + 1;
        return false;
      }
    }

    /** The Compose half of a run: the builder, two builds, a cancelled client and a last build. */
    method Builds() returns (ok: bool)
      requires AllClean(processes) && b.baseline.Some?
      modifies this`processes, this`b, this`trouble, host`inventory
      ensures trouble >= old(trouble)
      ensures !ok && trouble == old(trouble) ==> Images(old(host.inventory), owner) != {}
      ensures b.(builder := false, imageIntended := false, imageAcknowledged := false)
           == old(b.(builder := false, imageIntended := false, imageAcknowledged := false))
      ensures old(host.inventory) <= host.inventory && OwnChanges(old(host.inventory), host.inventory, owner)
      ensures ok ==> AllClean(processes) && b.builder && b.imageIntended && b.imageAcknowledged
      ensures forall r :: r in host.inventory && r !in old(host.inventory) ==> r.Image? && b.imageIntended
      ensures b.imageIntended && !old(b.imageIntended) ==> b.builder && Images(old(host.inventory), owner) == {}
      ensures b.imageAcknowledged && !old(b.imageAcknowledged) ==> b.imageIntended && Images(host.inventory, owner) != {}
    {
      ok := FirstBuild();
      if !ok {
        return;
      }
      var image: nat := *;
      ok := Making(Image(image, owner));
      if !ok {
        return;
      }
      ok := CancelledBuild();
      if !ok {
        return;
      }
      ok := Making(Image(image, owner));
    }

    /**
     `run`: the baseline is read before anything is created, an existing scope is never adopted, and success
     means that every CLI tree was proven.
     */
    method Run() returns (ok: bool)
      requires b == FRESH && processes == []
      modifies this`processes, this`b, this`trouble, host`inventory
      ensures trouble >= old(trouble)
      ensures !ok && trouble == old(trouble) ==>
                || (exists r :: r in old(host.inventory) && r.Container?)
                || (gate == Compose && Images(old(host.inventory), owner) != {})
      ensures b.baseline.None? ==> host.inventory == old(host.inventory)
      ensures b.baseline.Some? ==> b.baseline.value == old(host.inventory)
      ensures b.intended ==> b.baseline.Some? && NoContainer(b.baseline.value)
      ensures old(host.inventory) <= host.inventory && OwnChanges(old(host.inventory), host.inventory, owner)
      ensures ok ==> b.baseline.Some? && AllClean(processes)
      ensures forall r :: r in host.inventory && r !in old(host.inventory) ==>
                if r.Container? then b.intended else r.Image? && gate == Compose && b.imageIntended
      ensures ok ==> b.intended && b.cid.Id?
      ensures ok && gate == Compose ==> b.builder && b.imageIntended && b.imageAcknowledged
      ensures b.imageIntended ==> gate == Compose && b.builder && Images(old(host.inventory), owner) == {}
      ensures b.imageAcknowledged ==> b.imageIntended && Images(host.inventory, owner) != {}
      ensures gate == Direct ==> AllCleanBut(processes, |processes| - 1) && NoneLive(gate, processes)
    {
      ok := Calls();
      if !ok {
        return;
      }
      b := b.(baseline := Some(host.inventory));
      ok := Calls();
      if !ok {
        return;
      }
      if exists r :: r in host.inventory && r.Container? {
        return false;
      }
      b := b.(intended := true);
      var id: nat, blank: bool := *, *;
      ok := Making(Container(id, owner));
      if !ok {
        return;
      }
      b := b.(cid := if blank then Blank else Id(id));
      if blank {
        trouble := trouble + 1;
        return false;
      }
      ok := Calls();
      if ok && gate == Compose {
        ok := Builds();
      }
    }

    /** Every client is finished again; one that has no proof is remembered. */
    method FinishProcesses() returns (unknown: bool, ghost finished: set<nat>)
      modifies this`processes
      ensures unknown ==> !AllClean(processes)
      ensures |processes| == |old(processes)|
      ensures forall i :: i in finished <==> 0 <= i < |old(processes)| && old(processes)[i].Live?
      ensures forall i :: 0 <= i < |processes| && !old(processes)[i].Live? ==> processes[i] == old(processes)[i]
      ensures !unknown ==> AllClean(processes)
    {
      unknown, finished := false, {};
      for i := 0 to |processes|
        invariant |processes| == |old(processes)|
        invariant forall j :: j in finished <==> 0 <= j < i && old(processes)[j].Live?
        invariant forall j :: 0 <= j < i ==> !unknown ==> Clean(processes[j])
        invariant unknown ==> exists j :: 0 <= j < i && !Clean(processes[j])
        invariant forall j :: 0 <= j < |processes| && !old(processes)[j].Live? ==> processes[j] == old(processes)[j]
        invariant forall j :: i <= j < |processes| ==> processes[j] == old(processes)[j]
      {
        if processes[i].Live? {
          finished := finished + {i};
          ghost var before := processes;
          var tree: bool, overflow: bool, recorded: bool := *, *, *;
          if recorded {
            processes := processes[i := Ended(tree, overflow)];
          }
          assert forall j :: 0 <= j < i ==> processes[j] == before[j];
        }
        assert !Clean(processes[i]) ==> exists j :: 0 <= j < i + 1 && !Clean(processes[j]);
        unknown := unknown || !Clean(processes[i]);
      }
    }

    /** Stop and remove the owned container, once its identity is verified. */
    method RemoveContainer() returns (ok: bool)
      requires b.cid.Id?
      modifies this`processes, this`trouble, host`inventory
      ensures trouble >= old(trouble)
      ensures ok ==> Container(b.cid.id, owner) in old(host.inventory)
      ensures !ok && trouble == old(trouble) ==> Container(b.cid.id, owner) !in old(host.inventory)
      ensures ok && trouble == old(trouble) ==> host.inventory == old(host.inventory) - {Container(b.cid.id, owner)}
      ensures old(processes) <= processes
      ensures forall i :: |old(processes)| <= i < |processes| ==> ok ==> Clean(processes[i])
      ensures host.inventory == old(host.inventory)
           || host.inventory == old(host.inventory) - {Container(b.cid.id, owner)}
    {
      ok := Call();
      if !ok || Container(b.cid.id, owner) !in host.inventory {
        return false;
      }
      ok := Call();
      if !ok {
        return;
      }
      ok := Call();
      var stopped: bool, removed: bool := *, *;
      if !ok || !stopped {
        trouble := trouble + 1;
        return false;
      }
      if removed {
        host.inventory := host.inventory - {Container(b.cid.id, owner)};
      } else {
        trouble := trouble + 1;
      }
      ok := Call();
    }

    /** Remove the owned images; None of them may be left. */
    method RemoveImages() returns (ok: bool)
      modifies this`processes, this`trouble, host`inventory
      ensures trouble >= old(trouble)
      ensures !ok && trouble == old(trouble) ==>
                || |Images(old(host.inventory), owner)| > 2
                || (!b.imageAcknowledged && Images(old(host.inventory), owner) == {})
      ensures ok ==> |Images(old(host.inventory), owner)| <= 2
      ensures ok && trouble == old(trouble) ==>
                host.inventory == old(host.inventory) - Images(old(host.inventory), owner)
      ensures old(processes) <= processes
      ensures forall i :: |old(processes)| <= i < |processes| ==> ok ==> Clean(processes[i])
      ensures OwnChanges(old(host.inventory), host.inventory, owner)
      ensures ok && !b.imageAcknowledged ==> Images(old(host.inventory), owner) != {}
      ensures ok ==> Images(host.inventory, owner) == {}
    {
      ok := Call();
      var images := Images(host.inventory, owner);
      if !ok || |images| > 2 || (!b.imageAcknowledged && images == {}) {
        return false;
      }
      var remaining := images;
      while remaining != {}
        invariant old(processes) <= processes && remaining <= images && trouble >= old(trouble)
        invariant trouble == old(trouble) ==> host.inventory == old(host.inventory) - (images - remaining)
        invariant forall i :: |old(processes)| <= i < |processes| ==> Clean(processes[i])
        invariant OwnChanges(old(host.inventory), host.inventory, owner)
        decreases |remaining|
      {
        var r :| r in remaining;
        remaining := remaining - {r};
        var used: bool, removed: bool := *, *;
        if used {
          trouble := trouble + 1;
          return false;
        }
        if removed {
          host.inventory := host.inventory - {r};
        } else {
          trouble := trouble + 1;
        }
        ok := Call();
        if !ok {
          return;
        }
      }
      ok := Call();
      if Images(host.inventory, owner) != {} {
        return false;
      }
    }

    /** The container of an interrupted creation: exactly one may carry the owner's label. */
    method ResolveContainer() returns (ok: bool)
      modifies this`processes, this`b, this`trouble
      ensures trouble >= old(trouble)
      ensures !ok && trouble == old(trouble) ==> |Containers(host.inventory, owner)| != 1
      ensures old(processes) <= processes
      ensures forall i :: |old(processes)| <= i < |processes| ==> ok ==> Clean(processes[i])
      ensures b == old(b).(cid := b.cid) && (ok ==> b.cid.Id?)
      ensures ok ==> |Containers(host.inventory, owner)| == 1 && Container(b.cid.id, owner) in host.inventory
    {
      ok := Call();
      var owned := Containers(host.inventory, owner);
      if !ok || |owned| != 1 {
        return false;
      }
      var r :| r in owned;
      b := b.(cid := Id(r.id));
    }

    /** `cleanup` of both gates; false stands for every exception. */
    method Cleanup() returns (ok: bool, ghost finished: set<nat>)
      modifies this`processes, this`b, this`trouble, host`inventory
      ensures trouble >= old(trouble)
      ensures !ok && trouble == old(trouble) ==>
                || (old(b).intended && old(b).cid == Unset && |Containers(old(host.inventory), owner)| != 1)
                || (old(b).cid.Id? && Container(old(b).cid.id, owner) !in old(host.inventory))
                || (gate == Compose && old(b).imageIntended
                    && (|Images(old(host.inventory), owner)| > 2
                        || (!old(b).imageAcknowledged && Images(old(host.inventory), owner) == {})))
                || b.baseline != Some(host.inventory)
                || (gate == Compose && exists p :: p in processes && !Clean(p))
      ensures forall i :: i in finished <==> gate == Compose && 0 <= i < |old(processes)| && old(processes)[i].Live?
      ensures |old(processes)| <= |processes| && (ok ==> |old(processes)| < |processes|)
      ensures forall i :: 0 <= i < |old(processes)| && !old(processes)[i].Live? ==> processes[i] == old(processes)[i]
      ensures ok ==> forall i :: |old(processes)| <= i < |processes| ==> Clean(processes[i])
      ensures b.baseline == old(b.baseline)
      ensures OwnChanges(old(host.inventory), host.inventory, owner)
      ensures ok ==> CleanedUp(gate, owner, old(b), old(host.inventory), host.inventory, processes)
    {
      var unknown := false;
      finished := {};
      if gate == Compose {
        unknown, finished := FinishProcesses();
      }
      if b.cid == Unset && b.intended {
        ok := ResolveContainer();
        if !ok {
          return;
        }
      }
      if b.cid.Id? {
        ok := RemoveContainer();
        if !ok {
          return;
        }
      }
      if gate == Compose {
        if b.builder {
          ok := Call();
          if !ok {
            return;
          }
        }
        if b.imageIntended {
          ghost var before := host.inventory;
          assert Images(before, owner) == Images(old(host.inventory), owner);
          ok := RemoveImages();
          if !ok {
            return;
          }
        }
      }
      ok := Call();
      if !ok || b.baseline != Some(host.inventory) {
        return false, finished;
      }
      if gate == Compose && (unknown || exists p :: p in processes && !Clean(p)) {
        return false, finished;
      }
    }
  }

  /**
   How an execution ends: without having created the lease, with the lease retained, or with the lease given
   back; then with the processes of the run and its cleanup, what the run believed, and the inventories before
   and after the cleanup. Only a released execution that passes returns normally.
   */
  datatype Outcome =
    | Refused
    | Retained
    | Released(pass: bool, processes: seq<Proc>, runLength: nat, belief: Belief, before: set<Resource>,
               after: set<Resource>)

  /**
   How far an execution came: the lease file begun, whole, made durable, its workspace there; the cleanup true, its
   receipt saved, the lease file removed.
   */
  datatype Steps = Steps(
    began: bool, whole: bool, synced: bool, workspace: bool, cleaned: bool, saved: bool, unlinked: bool)

  /**
   What giving the lease back rests on: the cleanup established everything it is meant to, the baseline is the
   inventory the run started with, and every process is proven ended and recorded but, for the direct gate,
   perhaps the one at which the run phase ended.
   */
  predicate ReleaseOk(gate: Gate, owner: nat, start: set<Resource>, o: Outcome)
    requires o.Released?
  {
    && CleanedUp(gate, owner, o.belief, o.before, o.after, o.processes)
    && o.belief.baseline == Some(start) && (o.belief.intended ==> NoContainer(start)) && start <= o.before
    && o.runLength < |o.processes| && AllCleanBut(o.processes, o.runLength - 1) && NoneLive(gate, o.processes)
    && (gate == Compose || o.pass ==> AllClean(o.processes))
  }

  /**
   `execute` of both gates. An existing lease is never adopted or removed. The lease is given back only after
   a verified cleanup, which resolved an ambiguous creation to exactly one owned container and, for the Compose
   gate, found an unacknowledged image; so a host without a lease has the inventory it had before. A run that
   passes has a proof for every CLI tree it ever started.
   */
  method Execute(gate: Gate, owner: nat, host: Host) returns (o: Outcome, ghost steps: Steps)
    modifies host
    ensures o.Released? <==> steps == Steps(true, true, true, true, true, true, true)
    ensures o == Retained <==> steps.began && !o.Released?
    ensures old(host.lease).Some? ==> o == Refused
    ensures o == Refused ==> host.lease == old(host.lease) && host.inventory == old(host.inventory)
    ensures o == Retained ==> old(host.lease).None? && host.lease.Some?
    ensures o.Released? ==>
              && old(host.lease).None? && host.lease.None? && host.inventory == old(host.inventory) == o.after
              && ReleaseOk(gate, owner, old(host.inventory), o)
    ensures OwnChanges(old(host.inventory), host.inventory, owner)
    ensures o.Released? ==> OwnChanges(old(host.inventory), o.before, owner)
    ensures o.Released? && o.belief.intended && o.belief.cid == Unset ==>
              exists id :: Container(id, owner) in o.before
                && forall r :: r in o.before && r.Container? && r.owner == owner ==> r == Container(id, owner)
    ensures o.Released? && gate == Compose && o.belief.imageIntended && !o.belief.imageAcknowledged ==>
              exists id :: Image(id, owner) in o.before
    ensures o.Released? && (gate == Compose || o.pass) ==>
              forall i :: 0 <= i < |o.processes| ==>
                o.processes[i].Ended? && o.processes[i].tree && !o.processes[i].overflow
  {
    steps := Steps(false, false, false, false, false, false, false);
    if host.lease.Some? {
      return Refused, steps;
    }
    var began: bool, whole: bool := *, *;
    if !began {
      return Refused, steps;
    }
    host.lease := Some(if whole then Owned(owner) else Torn);
    var synced: bool, workspace: bool := *, *;
    steps := steps.(began := true, whole := whole, synced := synced, workspace := workspace);
    if !whole || !synced || !workspace {
      return Retained, steps;
    }
    var controller := new Controller(gate, owner, host);
    var pass := controller.Run();
    var runLength, belief, before := |controller.processes|, controller.b, host.inventory;
    var sourcesKept: bool := *;
    var cleanup: bool;
    ghost var finished: set<nat>;
    cleanup, finished := controller.Cleanup();
    var saved: bool, unlinked: bool := *, *;
    steps := steps.(cleaned := cleanup, saved := saved, unlinked := unlinked);
    if !saved || !cleanup || host.lease != Some(Owned(owner)) || !unlinked {
      return Retained, steps;
    }
    host.lease := None;
    if belief.intended && belief.cid == Unset {
      OneContainer(before, owner);
    }
    if gate == Compose && belief.imageIntended && !belief.imageAcknowledged {
      SomeImage(before, owner);
    }
    return Released(pass && sourcesKept, controller.processes, runLength, belief, before, host.inventory), steps;
  }
}
