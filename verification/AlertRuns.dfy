/**
 Which runs of the alert qualification come to their send, and what their failure records say: statements about
 the events of whole runs, beside the invariants of the journal.
 */
module AlertRuns {
  import opened AlertJournal
  import opened Wrappers

  lemma RunMore(w: World, events: seq<(nat, Event)>, p: nat, event: Event)
    ensures Run(w, events + [(p, event)]) == Step(Run(w, events), p, event)
  {
    var all := events + [(p, event)];
    assert all[..|all| - 1] == events && all[|all| - 1] == (p, event);
  }

  lemma Regroup(a: seq<(nat, Event)>, b: seq<(nat, Event)>)
    requires b != []
    ensures b == b[..|b| - 1] + [b[|b| - 1]] && a + b == a + b[..|b| - 1] + [b[|b| - 1]]
  {
  }

  lemma {:induction false} RunOn(w: World, events: seq<(nat, Event)>, more: seq<(nat, Event)>)
    ensures Run(w, events + more) == Run(Run(w, events), more)
    decreases |more|
  {
    if more == [] {
      assert events + more == events;
    } else {
      var front, last := more[..|more| - 1], more[|more| - 1];
      Regroup(events, more);
      RunOn(w, events, front);
      RunMore(w, events + front, last.0, last.1);
      RunMore(Run(w, events), front, last.0, last.1);
    }
  }

  // ---- A send comes after four steps of its own run.

  predicate Wrote(event: Event) {
    event.Write? && event.extent == Whole && event.ok
  }

  /** The `k`-th of the steps that lead to a send. */
  predicate Leads(event: Event, k: nat) {
    if k == 2 then event == Identify(true) else if k == 5 then event == Post else Wrote(event)
  }

  /** The first `k` of those steps of run `p` are among the events, in order. */
  predicate Came(events: seq<(nat, Event)>, p: nat, k: nat)
    decreases k
  {
    k == 0 || exists i :: 0 <= i < |events| && LeadsAt(events, i, p, k)
  }

  predicate LeadsAt(events: seq<(nat, Event)>, i: nat, p: nat, k: nat)
    requires i < |events| && k > 0
    decreases k, 0
  {
    events[i].0 == p && Leads(events[i].1, k) && Came(events[..i], p, k - 1)
  }

  lemma CameStays(events: seq<(nat, Event)>, e: (nat, Event), p: nat, k: nat)
    requires Came(events, p, k)
    ensures Came(events + [e], p, k)
  {
    if k > 0 {
      var i :| 0 <= i < |events| && LeadsAt(events, i, p, k);
      assert (events + [e])[..i] == events[..i];
      assert LeadsAt(events + [e], i, p, k);
    }
  }

  lemma CameNext(events: seq<(nat, Event)>, event: Event, p: nat, k: nat)
    requires Came(events, p, k) && Leads(event, k + 1)
    ensures Came(events + [(p, event)], p, k + 1)
  {
    var all := events + [(p, event)];
    assert all[..|events|] == events;
    assert LeadsAt(all, |events|, p, k + 1);
  }

  /** How many of the steps a run at this point has behind it. */
  function Behind(pc: Pc): nat {
    match pc
    case Identifying => 1
    case RecordingIdentity => 2
    case Reserving => 3
    case Posting => 4
    case _ => 0
  }

  predicate Explained(w: World, events: seq<(nat, Event)>, p: nat) {
    && (p in w.procs ==> Came(events, p, Behind(w.procs[p])))
    && (p in w.posts ==> Came(events, p, 5))
  }

  /** Only these steps lead from one point to the next. */
  lemma StepIsLeading(w: World, p: nat, event: Event)
    ensures var v := Step(w, p, event);
            && p in v.procs ==>
              || Behind(v.procs[p]) == 0
              || (p in w.procs && v.procs[p] == w.procs[p])
              || (Behind(v.procs[p]) == 1 && Wrote(event))
              || (p in w.procs && Behind(v.procs[p]) == Behind(w.procs[p]) + 1 && Leads(event, Behind(v.procs[p])))
  {
  }

  lemma PostIsLast(w: World, q: nat, event: Event)
    ensures Step(w, q, event).posts == w.posts
         || (event == Post && q in w.procs && Behind(w.procs[q]) == 4 && Step(w, q, event).posts == w.posts + [q])
    ensures forall p :: p != q && p in Step(w, q, event).procs ==> p in w.procs && w.procs[p] == Step(w, q, event).procs[p]
  {
  }

  lemma StepExplains(w: World, events: seq<(nat, Event)>, p: nat, q: nat, event: Event)
    requires Explained(w, events, p)
    ensures Explained(Step(w, q, event), events + [(q, event)], p)
  {
    var v, all := Step(w, q, event), events + [(q, event)];
    PostIsLast(w, q, event);
    if p in v.procs {
      PointExplains(w, events, p, q, event);
    }
    if p in v.posts {
      if p in w.posts {
        CameStays(events, (q, event), p, 5);
      } else {
        CameNext(events, event, p, 4);
      }
    }
  }

  lemma PointExplains(w: World, events: seq<(nat, Event)>, p: nat, q: nat, event: Event)
    requires Explained(w, events, p) && p in Step(w, q, event).procs
    ensures Came(events + [(q, event)], p, Behind(Step(w, q, event).procs[p]))
  {
    var k := Behind(Step(w, q, event).procs[p]);
    PostIsLast(w, q, event);
    if p in w.procs && Step(w, q, event).procs[p] == w.procs[p] {
      CameStays(events, (q, event), p, k);
    } else if k > 0 {
      StepIsLeading(w, p, event);
      CameNext(events, event, p, k - 1);
    }
  }

  lemma {:induction false} RunExplains(w: World, events: seq<(nat, Event)>, p: nat)
    requires Initial(w)
    ensures Explained(Run(w, events), events, p)
    decreases |events|
  {
    if events != [] {
      var front, last := events[..|events| - 1], events[|events| - 1];
      RunExplains(w, front, p);
      StepExplains(Run(w, front), front, p, last.0, last.1);
      assert events == front + [last];
    }
  }

  lemma Unfold(events: seq<(nat, Event)>, p: nat, k: nat) returns (i: nat)
    requires k > 0 && Came(events, p, k)
    ensures i < |events| && events[i].0 == p && Leads(events[i].1, k) && Came(events[..i], p, k - 1)
  {
    i :| 0 <= i < |events| && LeadsAt(events, i, p, k);
  }

  /**
   A run that called `sendMessage` wrote its first record whole, had bot and chat confirmed, and wrote the
   identity record and the reservation whole, in this order, before its call.
   */
  lemma PostedAfter(w: World, events: seq<(nat, Event)>, p: nat) returns (a: nat, b: nat, c: nat, d: nat, e: nat)
    requires Initial(w) && p in Run(w, events).posts
    ensures a < b < c < d < e < |events|
    ensures events[a].0 == events[c].0 == events[d].0 == p
    ensures events[a].1.Write? && events[a].1.extent == Whole && events[a].1.ok
    ensures events[b] == (p, Identify(true))
    ensures events[c].1.Write? && events[c].1.extent == Whole && events[c].1.ok
    ensures events[d].1.Write? && events[d].1.extent == Whole && events[d].1.ok
    ensures events[e] == (p, Post)
  {
    RunExplains(w, events, p);
    e := Unfold(events, p, 5);
    d := Unfold(events[..e], p, 4);
    c := Unfold(events[..e][..d], p, 3);
    b := Unfold(events[..e][..d][..c], p, 2);
    a := Unfold(events[..e][..d][..c][..b], p, 1);
  }

  // ---- A wrong identity ends the run.

  predicate Ending(w: World, p: nat) {
    p in w.procs && (w.procs[p].RecordingFailure? || w.procs[p] == Stopped) && p !in w.posts
  }

  lemma EndingStays(w: World, p: nat, q: nat, event: Event)
    requires Ending(w, p)
    ensures Ending(Step(w, q, event), p)
  {
  }

  lemma {:induction false} EndedNeverPosts(w: World, events: seq<(nat, Event)>, p: nat)
    requires Ending(w, p)
    ensures Ending(Run(w, events), p)
    decreases |events|
  {
    if events != [] {
      EndedNeverPosts(w, events[..|events| - 1], p);
      EndingStays(Run(w, events[..|events| - 1]), p, events[|events| - 1].0, events[|events| - 1].1);
    }
  }

  /** A run whose bot or chat was not confirmed never sends, whatever happens afterwards. */
  lemma WrongIdentityNeverPosts(w: World, events: seq<(nat, Event)>, p: nat, more: seq<(nat, Event)>)
    requires Initial(w)
    requires p in Run(w, events).procs && Run(w, events).procs[p] == Identifying
    ensures p !in Run(w, events + [(p, Identify(false))] + more).posts
  {
    RunKeeps(w, events);
    RunMore(w, events, p, Identify(false));
    var u := Step(Run(w, events), p, Identify(false));
    IdentifyEnds(Run(w, events), p);
    RunOn(w, events + [(p, Identify(false))], more);
    EndedNeverPosts(u, more, p);
  }

  lemma IdentifyEnds(w: World, p: nat)
    requires Invariant(w) && p in w.procs && w.procs[p] == Identifying
    ensures Ending(Step(w, p, Identify(false)), p)
  {
  }

  // ---- The run in which nothing fails.

  /** Confirmed, recorded, reserved. */
  lemma Reaches(w: World, p: nat, s: nat, t: nat)
    requires w.journal.Some? && p in w.procs && w.procs[p] == Identifying
    ensures var v := Step(Step(Step(w, p, Identify(true)), p, Write(Whole, true, s)), p, Write(Whole, true, t));
            v.journal.Some? && p in v.procs && v.procs[p] == Posting && v.posts == w.posts
  {
    var a := Step(w, p, Identify(true));
    assert a.procs[p] == RecordingIdentity;
    var b := Step(a, p, Write(Whole, true, s));
    assert b.procs[p] == Reserving;
  }

  /** Sent, answered, recorded. */
  lemma Sends(w: World, p: nat, m: int, t: nat)
    requires w.journal.Some? && p in w.procs && w.procs[p] == Posting && m > 0
    ensures var v := Step(Step(Step(w, p, Post), p, Respond(Some(m))), p, Write(Whole, true, t));
            p in v.procs && v.procs[p] == Finished && v.posts == w.posts + [p] && v.response == Some(m)
  {
    var a := Step(w, p, Post);
    assert a.procs[p] == AwaitingResponse;
    var b := Step(a, p, Respond(Some(m)));
    assert b.procs[p] == RecordingAcceptance(m);
  }

  lemma ThreeSteps(w: World, p: nat, a: Event, b: Event, c: Event)
    ensures Run(w, [(p, a), (p, b), (p, c)]) == Step(Step(Step(w, p, a), p, b), p, c)
  {
    var none: seq<(nat, Event)> := [];
    assert Run(w, none) == w;
    RunMore(w, none, p, a);
    RunMore(w, none + [(p, a)], p, b);
    RunMore(w, none + [(p, a)] + [(p, b)], p, c);
    assert none + [(p, a)] + [(p, b)] + [(p, c)] == [(p, a), (p, b), (p, c)];
  }

  /** With a confirmed identity, whole writes and a valid answer, the run sends once and finishes. */
  lemma GoodRunFinishes(w: World, p: nat, m: int, s: nat, t: nat, u: nat)
    requires w.journal.Some? && p in w.procs && w.procs[p] == Identifying && m > 0
    ensures var v := Run(w, [(p, Identify(true)), (p, Write(Whole, true, s)), (p, Write(Whole, true, t))]
                            + [(p, Post), (p, Respond(Some(m))), (p, Write(Whole, true, u))]);
            p in v.procs && v.procs[p] == Finished && v.posts == w.posts + [p] && v.response == Some(m)
  {
    var reserved := Step(Step(Step(w, p, Identify(true)), p, Write(Whole, true, s)), p, Write(Whole, true, t));
    ThreeSteps(w, p, Identify(true), Write(Whole, true, s), Write(Whole, true, t));
    ThreeSteps(reserved, p, Post, Respond(Some(m)), Write(Whole, true, u));
    RunOn(w, [(p, Identify(true)), (p, Write(Whole, true, s)), (p, Write(Whole, true, t))],
          [(p, Post), (p, Respond(Some(m))), (p, Write(Whole, true, u))]);
    Reaches(w, p, s, t);
    Sends(reserved, p, m, u);
  }

  /** And the first invocation on a new operations root comes to that point. */
  lemma FirstInvocationStarts(w: World, p: nat, t: nat)
    requires Initial(w)
    ensures var v := Step(w, p, Write(Whole, true, t));
            v.journal.Some? && p in v.procs && v.procs[p] == Identifying && v.owner == Some(p)
  {
  }

  // ---- What the failure records say.

  /** The last stage of a run that failed. */
  predicate SaysUnsent(line: Line) {
    line.Full? && line.entry.stage == PrecheckFailed
  }

  predicate SaysUnknown(line: Line) {
    line.Full? && line.entry.stage == SendOutcomeUnknown
  }

  predicate OwnerAt(w: World, pc: Pc) {
    w.owner.Some? && w.owner.value in w.procs && w.procs[w.owner.value] == pc
  }

  predicate FailuresOk(w: World) {
    && (forall p :: p in w.procs && Some(p) == w.owner && w.procs[p].RecordingFailure? ==>
          (w.procs[p].sending <==> w.posts != []))
    && (w.journal.Some? ==>
          && (forall i :: 0 <= i < |w.journal.value.lines| && SaysUnsent(w.journal.value.lines[i]) ==>
                w.posts == [] && OwnerAt(w, Stopped))
          && (forall i :: 0 <= i < |w.journal.value.lines| && SaysUnknown(w.journal.value.lines[i]) ==> w.posts != []))
  }

  /** A record of another kind adds no failure line. */
  lemma AppendFails(j: Journal, entry: Entry, extent: Extent)
    requires entry.stage != PrecheckFailed && entry.stage != SendOutcomeUnknown
    ensures var k := Append(j, entry, extent);
            && (forall i :: 0 <= i < |k.lines| && SaysUnsent(k.lines[i]) ==> i < |j.lines| && SaysUnsent(j.lines[i]))
            && (forall i :: 0 <= i < |k.lines| && SaysUnknown(k.lines[i]) ==> i < |j.lines| && SaysUnknown(j.lines[i]))
  {
  }

  /** A failure record says that the outcome is unknown exactly if the run was sending. */
  lemma AppendFailure(w: World, sending: bool, known: Option<int>, extent: Extent)
    requires w.journal.Some?
    ensures var j, k := w.journal.value, Append(w.journal.value, FailureEntry(w, sending, known), extent);
            && (forall i :: 0 <= i < |k.lines| && SaysUnsent(k.lines[i]) ==>
                  (i < |j.lines| && SaysUnsent(j.lines[i])) || !sending)
            && (forall i :: 0 <= i < |k.lines| && SaysUnknown(k.lines[i]) ==>
                  (i < |j.lines| && SaysUnknown(j.lines[i])) || sending)
  {
  }

  lemma RecordFails(w: World, p: nat, entry: Entry, extent: Extent, ok: bool, next: Pc, failed: Pc)
    requires w.journal.Some? && w.owner == Some(p) && FailuresOk(w) && !OwnerAt(w, Stopped)
    requires entry.stage != PrecheckFailed && entry.stage != SendOutcomeUnknown
    requires !next.RecordingFailure? && (failed.RecordingFailure? ==> (failed.sending <==> w.posts != []))
    ensures FailuresOk(Record(w, p, entry, extent, ok, next, failed))
  {
    AppendFails(w.journal.value, entry, extent);
  }

  lemma FailureFails(w: World, p: nat, extent: Extent, ok: bool)
    requires w.journal.Some? && w.owner == Some(p) && FailuresOk(w) && p in w.procs && w.procs[p].RecordingFailure?
    ensures FailuresOk(Record(w, p, FailureEntry(w, w.procs[p].sending, w.procs[p].known), extent, ok, Stopped, Stopped))
  {
    AppendFailure(w, w.procs[p].sending, w.procs[p].known, extent);
  }

  lemma WrittenFails(w: World, p: nat, extent: Extent, ok: bool)
    requires Invariant(w) && FailuresOk(w) && p in w.procs && w.procs[p] != Starting
    ensures FailuresOk(Written(w, p, w.procs[p], extent, ok))
  {
    match w.procs[p]
    case RecordingIdentity => RecordFails(w, p, VerifiedEntry(w), extent, ok, Reserving, RecordingFailure(false, None));
    case Reserving => RecordFails(w, p, ReservedEntry(w), extent, ok, Posting, RecordingFailure(false, None));
    case RecordingAcceptance(m) =>
      RecordFails(w, p, AcceptedEntry(w, m), extent, ok, Finished, RecordingFailure(true, Some(m)));
    case RecordingFailure(_, _) => FailureFails(w, p, extent, ok);
    case _ =>
  }

  lemma CreatedFails(w: World, p: nat, extent: Extent, ok: bool)
    requires Invariant(w) && FailuresOk(w) && (p in w.procs ==> w.procs[p] == Starting)
    ensures FailuresOk(Written(w, p, Starting, extent, ok))
  {
  }

  lemma LaterFails(w: World, elapsed: nat)
    requires Invariant(w) && FailuresOk(w)
    ensures Invariant(w.(clock := w.clock + elapsed)) && FailuresOk(w.(clock := w.clock + elapsed))
  {
    ClockKeeps(w, elapsed);
  }

  lemma WriteFails(w: World, p: nat, extent: Extent, ok: bool, elapsed: nat)
    requires Invariant(w) && FailuresOk(w)
    ensures FailuresOk(Step(w, p, Write(extent, ok, elapsed)))
  {
    LaterFails(w, elapsed);
    WriteIsWritten(w, p, extent, ok, elapsed);
    if p in w.procs && w.procs[p] != Starting {
      WrittenFails(w.(clock := w.clock + elapsed), p, extent, ok);
    } else {
      CreatedFails(w.(clock := w.clock + elapsed), p, extent, ok);
    }
  }

  lemma OtherFails(w: World, p: nat, event: Event)
    requires Invariant(w) && FailuresOk(w) && !event.Write?
    ensures FailuresOk(Step(w, p, event))
  {
  }

  lemma {:induction false} RunFails(w: World, events: seq<(nat, Event)>)
    requires Initial(w)
    ensures Invariant(Run(w, events)) && FailuresOk(Run(w, events))
    decreases |events|
  {
    RunKeeps(w, events);
    if events != [] {
      var u, last := Run(w, events[..|events| - 1]), events[|events| - 1];
      RunFails(w, events[..|events| - 1]);
      match last.1
      case Write(extent, ok, elapsed) => WriteFails(u, last.0, extent, ok, elapsed);
      case _ => OtherFails(u, last.0, last.1);
    }
  }

  /** A failure record says that the outcome of a send is unknown if and only if the run has called `sendMessage`. */
  lemma FailureTellsTheSend(w: World, events: seq<(nat, Event)>, i: nat)
    requires Initial(w)
    requires var j := Run(w, events).journal;
             j.Some? && i < |j.value.lines| && j.value.lines[i].Full?
             && j.value.lines[i].entry.stage in {PrecheckFailed, SendOutcomeUnknown}
    ensures var v := Run(w, events);
            && v.owner.Some?
            && (v.journal.value.lines[i].entry.stage == SendOutcomeUnknown <==> v.owner.value in v.posts)
  {
    RunFails(w, events);
    var line := Run(w, events).journal.value.lines[i];
    assert SaysUnsent(line) || SaysUnknown(line);
  }
}
