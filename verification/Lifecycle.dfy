/**
 The two SQL predicates that stand for a trade's whole lifecycle: aggregates over its public events, in SQL's
 three-valued logic, and the order of events that they force.
 */
module Lifecycle {
  import opened Canary
  import opened Wrappers

  /** SQL's truth values. */
  datatype Tri = True | False | Unknown

  function And(a: Tri, b: Tri): (r: Tri)
    ensures r == True <==> a == True && b == True
  {
    if a == False || b == False then False else if a == True && b == True then True else Unknown
  }

  function Known(b: bool): Tri {
    if b then True else False
  }

  /** `COALESCE(condition, FALSE)`. */
  predicate OrFalse(t: Tri) {
    t == True
  }

  function Less(a: Option<int>, b: Option<int>): Tri {
    if a.None? || b.None? then Unknown else Known(a.value < b.value)
  }

  function Equal(a: Option<int>, b: Option<int>): Tri {
    if a.None? || b.None? then Unknown else Known(a.value == b.value)
  }

  datatype LifecycleState = ExitingStop | ExitingTarget | ExitingTimeout | IsFlat | OtherLifecycle(name: string)

  /** One public event of a trade; the fields of its payload may be missing. */
  datatype Event = Event(
    number: int, eventType: Option<EventType>, exitReason: Option<ExitReason>, lifecycle: Option<LifecycleState>,
    filled: Option<real>)

  /** The `FILTER` clauses of the query. */
  datatype Filter = All | Is(eventType: EventType) | Fill

  predicate Selects(f: Filter, e: Event) {
    match f
    case All => true
    case Is(t) => e.eventType == Some(t)
    case Fill => e.eventType == Some(EntryFilled) || e.eventType == Some(EntryPartialFill)
  }

  // ---- The aggregates, over the first `k` events.

  function Count(events: seq<Event>, f: Filter, k: nat): (n: nat)
    requires k <= |events|
    ensures n <= k
  {
    if k == 0 then 0 else Count(events, f, k - 1) + (if Selects(f, events[k - 1]) then 1 else 0)
  }

  function MinNumber(events: seq<Event>, f: Filter, k: nat): Option<int>
    requires k <= |events|
  {
    if k == 0 then None
    else
      var m := MinNumber(events, f, k - 1);
      if !Selects(f, events[k - 1]) then m
      else if m.None? || events[k - 1].number < m.value then Some(events[k - 1].number) else m
  }

  function MaxNumber(events: seq<Event>, k: nat): Option<int>
    requires k <= |events|
  {
    if k == 0 then None
    else
      var m := MaxNumber(events, k - 1);
      if m.None? || events[k - 1].number > m.value then Some(events[k - 1].number) else m
  }

  /** `max` over the fills; a missing quantity is skipped. */
  function MaxFilled(events: seq<Event>, k: nat): Option<real>
    requires k <= |events|
  {
    if k == 0 then None
    else
      var m, e := MaxFilled(events, k - 1), events[k - 1];
      if !Selects(Fill, e) || e.filled.None? then m
      else if m.None? || e.filled.value > m.value then e.filled else m
  }

  /** The `CASE` on the exit reason; `IN` over a missing state is unknown. */
  function ExitConsistent(e: Event): Tri
    requires e.exitReason.Some?
  {
    match e.exitReason.value
    case Stop => OneOf(e.lifecycle, ExitingStop)
    case Target => OneOf(e.lifecycle, ExitingTarget)
    case Timeout => OneOf(e.lifecycle, ExitingTimeout)
    case OtherReason(_) => False
  }

  function OneOf(found: Option<LifecycleState>, exiting: LifecycleState): Tri {
    if found.None? then Unknown else Known(found.value == exiting || found.value == IsFlat)
  }

  /** `bool_and` skips unknown inputs, and of no known input it is unknown. */
  function AllExits(events: seq<Event>, k: nat): Tri
    requires k <= |events|
  {
    if k == 0 then Unknown
    else
      var before, e := AllExits(events, k - 1), events[k - 1];
      if e.exitReason.None? || ExitConsistent(e) == Unknown then before
      else if before == False then False
      else ExitConsistent(e)
  }

  // ---- The two predicates of the query.

  function Numbers(events: seq<Event>): set<int> {
    set i | 0 <= i < |events| :: events[i].number
  }

  /** `public_sequence_contiguous`. */
  predicate Contiguous(events: seq<Event>) {
    var n := |events|;
    OrFalse(And(And(Equal(MinNumber(events, All, n), Some(1)), Equal(MaxNumber(events, n), Some(n))),
                Known(|Numbers(events)| == n)))
  }

  function Single(events: seq<Event>, t: EventType): Tri {
    Known(Count(events, Is(t), |events|) == 1)
  }

  function First(events: seq<Event>, f: Filter): Option<int> {
    MinNumber(events, f, |events|)
  }

  function Singles(events: seq<Event>): Tri {
    And(And(And(Single(events, DecisionReceived), Single(events, StopCreated)),
            And(Single(events, StopReconciled), Single(events, TargetCreated))),
        And(And(Single(events, TargetReconciled), Single(events, ExitTriggered)), Single(events, ExitFilled)))
  }

  function Ordered(events: seq<Event>): Tri {
    And(And(And(Equal(First(events, Is(DecisionReceived)), Some(1)),
                Less(First(events, Fill), First(events, Is(StopCreated)))),
            And(Less(First(events, Is(StopCreated)), First(events, Is(StopReconciled))),
                Less(First(events, Is(StopReconciled)), First(events, Is(TargetCreated))))),
        And(And(Less(First(events, Is(TargetCreated)), First(events, Is(TargetReconciled))),
                Less(First(events, Is(TargetReconciled)), First(events, Is(ExitTriggered)))),
            And(Less(First(events, Is(ExitTriggered)), First(events, Is(ExitFilled))),
                Equal(MaxNumber(events, |events|), First(events, Is(ExitFilled))))))
  }

  function Tolerance(quantity: real): real {
    if quantity * 0.000000001 > 0.000000000001 then quantity * 0.000000001 else 0.000000000001
  }

  /** A billionth of the quantity, and at least a trillionth. */
  lemma ToleranceMeans(quantity: real, difference: real)
    ensures -Tolerance(quantity) <= difference <= Tolerance(quantity) <==>
              || -0.000000000001 <= difference <= 0.000000000001
              || -quantity / 1000000000.0 <= difference <= quantity / 1000000000.0
  {
  }

  function FilledMatches(events: seq<Event>, quantity: real, filled: real): Tri {
    var m := MaxFilled(events, |events|);
    if m.None? then Unknown else Known(-Tolerance(quantity) <= m.value - filled <= Tolerance(quantity))
  }

  /** `protected_sequence_valid`. */
  predicate ProtectedSequence(events: seq<Event>, quantity: real, filled: real) {
    OrFalse(And(And(Singles(events), Ordered(events)),
                And(AllExits(events, |events|), FilledMatches(events, quantity, filled))))
  }

  // ---- What the aggregates mean.

  lemma {:induction false} CountZero(events: seq<Event>, f: Filter, k: nat)
    requires k <= |events|
    ensures Count(events, f, k) == 0 <==> forall i :: 0 <= i < k ==> !Selects(f, events[i])
  {
    if k > 0 {
      CountZero(events, f, k - 1);
    }
  }

  /** The `i`-th is the only one of the first `k` events that the filter selects. */
  predicate Only(events: seq<Event>, f: Filter, k: nat, i: nat)
    requires i < k <= |events|
  {
    Selects(f, events[i]) && forall j :: 0 <= j < k && j != i ==> !Selects(f, events[j])
  }

  lemma {:induction false} CountOne(events: seq<Event>, f: Filter, k: nat)
    requires k <= |events|
    ensures Count(events, f, k) == 1 <==> exists i :: 0 <= i < k && Only(events, f, k, i)
  {
    if k > 0 {
      CountZero(events, f, k - 1);
      if Selects(f, events[k - 1]) {
        assert Count(events, f, k) == 1 ==> Only(events, f, k, k - 1);
      } else {
        CountOne(events, f, k - 1);
        if Count(events, f, k) == 1 {
          var i :| 0 <= i < k - 1 && Only(events, f, k - 1, i);
          assert Only(events, f, k, i);
        }
        if exists i :: 0 <= i < k && Only(events, f, k, i) {
          var i :| 0 <= i < k && Only(events, f, k, i);
          assert Only(events, f, k - 1, i);
        }
      }
    }
  }

  lemma {:induction false} MinMeans(events: seq<Event>, f: Filter, k: nat)
    requires k <= |events|
    ensures MinNumber(events, f, k).None? <==> forall i :: 0 <= i < k ==> !Selects(f, events[i])
    ensures MinNumber(events, f, k).Some? ==>
              && (exists i :: 0 <= i < k && Selects(f, events[i]) && events[i].number == MinNumber(events, f, k).value)
              && forall i :: 0 <= i < k && Selects(f, events[i]) ==> MinNumber(events, f, k).value <= events[i].number
  {
    if k > 0 {
      MinMeans(events, f, k - 1);
    }
  }

  lemma {:induction false} MaxMeans(events: seq<Event>, k: nat)
    requires k <= |events|
    ensures MaxNumber(events, k).None? <==> k == 0
    ensures k > 0 ==>
              && (exists i :: 0 <= i < k && events[i].number == MaxNumber(events, k).value)
              && forall i :: 0 <= i < k ==> events[i].number <= MaxNumber(events, k).value
  {
    if k > 0 {
      MaxMeans(events, k - 1);
    }
  }

  lemma {:induction false} ExitsMean(events: seq<Event>, k: nat)
    requires k <= |events|
    ensures AllExits(events, k) == True <==>
              && (forall i :: 0 <= i < k && events[i].exitReason.Some? ==> ExitConsistent(events[i]) != False)
              && exists i :: 0 <= i < k && events[i].exitReason.Some? && ExitConsistent(events[i]) == True
    ensures AllExits(events, k) == Unknown <==>
              forall i :: 0 <= i < k && events[i].exitReason.Some? ==> ExitConsistent(events[i]) == Unknown
  {
    if k > 0 {
      ExitsMean(events, k - 1);
    }
  }

  lemma {:induction false} MaxFilledMeans(events: seq<Event>, k: nat)
    requires k <= |events|
    ensures MaxFilled(events, k).None? <==> forall i :: 0 <= i < k && Selects(Fill, events[i]) ==> events[i].filled.None?
    ensures MaxFilled(events, k).Some? ==>
              && (exists i :: 0 <= i < k && Selects(Fill, events[i]) && events[i].filled == MaxFilled(events, k))
              && forall i :: 0 <= i < k && Selects(Fill, events[i]) && events[i].filled.Some? ==>
                   events[i].filled.value <= MaxFilled(events, k).value
  {
    if k > 0 {
      MaxFilledMeans(events, k - 1);
    }
  }

  // ---- Contiguous event numbers are a permutation.

  predicate HasNumber(events: seq<Event>, v: int) {
    exists i :: 0 <= i < |events| && events[i].number == v
  }

  /** Every number from 1 to the count is the number of exactly one event. */
  predicate Numbered(events: seq<Event>) {
    && events != []
    && (forall i :: 0 <= i < |events| ==> 1 <= events[i].number <= |events|)
    && DistinctNumbers(events)
    && forall v :: 1 <= v <= |events| ==> HasNumber(events, v)
  }

  function Range(n: nat): (r: set<int>)
    ensures forall v :: v in r <==> 1 <= v <= n
    ensures |r| == n
  {
    if n == 0 then {} else Range(n - 1) + {n}
  }

  lemma EqualWhenAsLarge<T>(a: set<T>, b: set<T>)
    requires a <= b && |a| == |b|
    ensures a == b
  {
    if a != b {
      var x :| x in b && x !in a;
      assert a <= b - {x};
      SubsetIsSmaller(a, b - {x});
    }
  }

  lemma {:induction false} SubsetIsSmaller<T>(a: set<T>, b: set<T>)
    requires a <= b
    ensures |a| <= |b|
    decreases a
  {
    if a != {} {
      var x :| x in a;
      SubsetIsSmaller(a - {x}, b - {x});
    }
  }

  lemma NumbersGrow(rest: seq<Event>, last: Event)
    ensures Numbers(rest + [last]) == Numbers(rest) + {last.number}
  {
    var events := rest + [last];
    forall v ensures v in Numbers(events) <==> v in Numbers(rest) + {last.number} {
      if v in Numbers(events) {
        var i :| 0 <= i < |events| && events[i].number == v;
        assert i < |rest| ==> rest[i].number == v;
      }
      if v in Numbers(rest) {
        var i :| 0 <= i < |rest| && rest[i].number == v;
        assert events[i].number == v;
      }
      if v == last.number {
        assert events[|rest|].number == v;
      }
    }
  }

  predicate DistinctNumbers(events: seq<Event>) {
    forall i, j :: 0 <= i < j < |events| ==> events[i].number != events[j].number
  }

  lemma DistinctGrow(rest: seq<Event>, last: Event)
    ensures DistinctNumbers(rest + [last]) <==> DistinctNumbers(rest) && last.number !in Numbers(rest)
  {
    var events := rest + [last];
    assert events[|rest|] == last && forall i :: 0 <= i < |rest| ==> events[i] == rest[i];
    if last.number in Numbers(rest) {
      var i :| 0 <= i < |rest| && rest[i].number == last.number;
      assert events[i].number == events[|rest|].number;
    }
    if DistinctNumbers(events) {
      assert forall i, j :: 0 <= i < j < |rest| ==> events[i].number != events[j].number;
    }
  }

  /** As many numbers as events means no number twice. */
  lemma {:induction false} NumbersCount(events: seq<Event>)
    ensures |Numbers(events)| <= |events|
    ensures |Numbers(events)| == |events| <==> DistinctNumbers(events)
  {
    if events == [] {
      assert Numbers(events) == {};
    } else {
      var rest, last := events[..|events| - 1], events[|events| - 1];
      assert events == rest + [last];
      NumbersCount(rest);
      NumbersGrow(rest, last);
      DistinctGrow(rest, last);
    }
  }

  lemma NumbersFill(events: seq<Event>)
    requires |Numbers(events)| == |events|
    requires forall i :: 0 <= i < |events| ==> 1 <= events[i].number <= |events|
    ensures forall v :: 1 <= v <= |events| ==> HasNumber(events, v)
  {
    EqualWhenAsLarge(Numbers(events), Range(|events|));
    forall v | 1 <= v <= |events| ensures HasNumber(events, v) {
      assert v in Numbers(events);
    }
  }

  lemma NumberedIsContiguous(events: seq<Event>)
    requires Numbered(events)
    ensures Contiguous(events)
  {
    var n := |events|;
    MinMeans(events, All, n);
    MaxMeans(events, n);
    NumbersCount(events);
    assert HasNumber(events, 1) && HasNumber(events, n);
    var i :| 0 <= i < n && events[i].number == 1;
    assert Selects(All, events[i]);
    var j :| 0 <= j < n && events[j].number == n;
  }

  /** The three aggregates hold exactly of the permutations of 1 to n, for some positive n. */
  lemma ContiguousIsNumbered(events: seq<Event>)
    ensures Contiguous(events) <==> Numbered(events)
  {
    if Contiguous(events) {
      MinMeans(events, All, |events|);
      MaxMeans(events, |events|);
      NumbersCount(events);
      assert forall i :: 0 <= i < |events| ==> Selects(All, events[i]);
      NumbersFill(events);
    }
    if Numbered(events) {
      NumberedIsContiguous(events);
    }
  }

  // ---- The protected sequence is a story told in one order.

  /** The positions of the events that matter, `fill` being the first fill. */
  datatype Story = Story(
    decision: nat, fill: nat, stopCreated: nat, stopReconciled: nat, targetCreated: nat, targetReconciled: nat,
    exitTriggered: nat, exitFilled: nat)

  /** The event at `i` is the only one of its type. */
  predicate Sole(events: seq<Event>, t: EventType, i: nat) {
    i < |events| && Only(events, Is(t), |events|, i)
  }

  /** No fill has a smaller number than the one at `i`. */
  predicate FirstFill(events: seq<Event>, i: nat) {
    i < |events| && Selects(Fill, events[i])
    && forall j :: 0 <= j < |events| && Selects(Fill, events[j]) ==> events[i].number <= events[j].number
  }

  /** On the events themselves: one event of the type, and the fill with the least number. */
  lemma SoleMeans(events: seq<Event>, t: EventType, i: nat)
    ensures Sole(events, t, i) <==>
              && i < |events| && events[i].eventType == Some(t)
              && forall j :: 0 <= j < |events| && j != i ==> events[j].eventType != Some(t)
    ensures FirstFill(events, i) <==>
              && i < |events| && events[i].eventType in {Some(EntryFilled), Some(EntryPartialFill)}
              && forall j :: 0 <= j < |events| && events[j].eventType in {Some(EntryFilled), Some(EntryPartialFill)} ==>
                   events[i].number <= events[j].number
  {
    assert forall j :: 0 <= j < |events| ==>
      (Selects(Fill, events[j]) <==> events[j].eventType in {Some(EntryFilled), Some(EntryPartialFill)});
    assert forall j :: 0 <= j < |events| ==> (Selects(Is(t), events[j]) <==> events[j].eventType == Some(t));
  }

  predicate AllSole(events: seq<Event>, s: Story) {
    && Sole(events, DecisionReceived, s.decision) && Sole(events, StopCreated, s.stopCreated)
    && Sole(events, StopReconciled, s.stopReconciled) && Sole(events, TargetCreated, s.targetCreated)
    && Sole(events, TargetReconciled, s.targetReconciled) && Sole(events, ExitTriggered, s.exitTriggered)
    && Sole(events, ExitFilled, s.exitFilled)
  }

  /** Decision first; fill, stop, target and exit in this order; the filled exit last. */
  predicate Tells(events: seq<Event>, s: Story) {
    && AllSole(events, s) && FirstFill(events, s.fill)
    && events[s.decision].number == 1
    && events[s.fill].number < events[s.stopCreated].number < events[s.stopReconciled].number
    && events[s.stopReconciled].number < events[s.targetCreated].number < events[s.targetReconciled].number
    && events[s.targetReconciled].number < events[s.exitTriggered].number < events[s.exitFilled].number
    && forall i :: 0 <= i < |events| ==> events[i].number <= events[s.exitFilled].number
  }

  /** Some event names an exit reason with a fitting state, and none names one with another state. */
  predicate ExitsFit(events: seq<Event>) {
    && (forall i :: 0 <= i < |events| && events[i].exitReason.Some? ==> ExitConsistent(events[i]) != False)
    && exists i :: 0 <= i < |events| && events[i].exitReason.Some? && ExitConsistent(events[i]) == True
  }

  /** The state fits the reason, or is flat. */
  predicate Fits(reason: ExitReason, state: LifecycleState) {
    || (reason == Stop && state in {ExitingStop, IsFlat})
    || (reason == Target && state in {ExitingTarget, IsFlat})
    || (reason == Timeout && state in {ExitingTimeout, IsFlat})
  }

  /**
   Which pairs of reason and state forbid the protected sequence: any other reason, and any state that does not
   fit. An event with a reason but no state is passed over.
   */
  lemma ExitsFitMeans(events: seq<Event>)
    ensures ExitsFit(events) <==>
              && (forall i :: 0 <= i < |events| && events[i].exitReason.Some? ==>
                    && events[i].exitReason.value in {Stop, Target, Timeout}
                    && (events[i].lifecycle.Some? ==> Fits(events[i].exitReason.value, events[i].lifecycle.value)))
              && exists i :: 0 <= i < |events| && events[i].exitReason.Some? && events[i].lifecycle.Some?
                   && Fits(events[i].exitReason.value, events[i].lifecycle.value)
  {
    forall i | 0 <= i < |events| && events[i].exitReason.Some?
      ensures ExitConsistent(events[i]) != False <==>
                && events[i].exitReason.value in {Stop, Target, Timeout}
                && (events[i].lifecycle.Some? ==> Fits(events[i].exitReason.value, events[i].lifecycle.value))
      ensures ExitConsistent(events[i]) == True <==>
                events[i].lifecycle.Some? && Fits(events[i].exitReason.value, events[i].lifecycle.value)
    {
    }
  }

  /** The largest filled quantity of a fill is the trade's. */
  predicate QuantityFits(events: seq<Event>, quantity: real, filled: real) {
    exists i :: 0 <= i < |events| && LargestFill(events, i)
                && -Tolerance(quantity) <= events[i].filled.value - filled <= Tolerance(quantity)
  }

  predicate LargestFill(events: seq<Event>, i: nat)
    requires i < |events|
  {
    Selects(Fill, events[i]) && events[i].filled.Some?
    && forall j :: 0 <= j < |events| && Selects(Fill, events[j]) && events[j].filled.Some? ==>
                     events[j].filled.value <= events[i].filled.value
  }

  lemma SoleIsSingle(events: seq<Event>, t: EventType) returns (i: nat)
    requires Single(events, t) == True
    ensures Sole(events, t, i)
  {
    CountOne(events, Is(t), |events|);
    i :| i < |events| && Only(events, Is(t), |events|, i);
  }

  lemma SoleIsFirst(events: seq<Event>, t: EventType, i: nat)
    requires Sole(events, t, i)
    ensures Single(events, t) == True && First(events, Is(t)) == Some(events[i].number)
  {
    CountOne(events, Is(t), |events|);
    MinMeans(events, Is(t), |events|);
  }

  lemma FirstFillIsFirst(events: seq<Event>, i: nat)
    requires FirstFill(events, i)
    ensures First(events, Fill) == Some(events[i].number)
  {
    MinMeans(events, Fill, |events|);
  }

  lemma FirstFillOf(events: seq<Event>) returns (i: nat)
    requires First(events, Fill).Some?
    ensures FirstFill(events, i)
  {
    MinMeans(events, Fill, |events|);
    i :| i < |events| && Selects(Fill, events[i]) && events[i].number == First(events, Fill).value;
  }

  lemma SolesAreFirst(events: seq<Event>, s: Story)
    requires AllSole(events, s)
    ensures Singles(events) == True
    ensures First(events, Is(DecisionReceived)) == Some(events[s.decision].number)
    ensures First(events, Is(StopCreated)) == Some(events[s.stopCreated].number)
    ensures First(events, Is(StopReconciled)) == Some(events[s.stopReconciled].number)
    ensures First(events, Is(TargetCreated)) == Some(events[s.targetCreated].number)
    ensures First(events, Is(TargetReconciled)) == Some(events[s.targetReconciled].number)
    ensures First(events, Is(ExitTriggered)) == Some(events[s.exitTriggered].number)
    ensures First(events, Is(ExitFilled)) == Some(events[s.exitFilled].number)
  {
    SoleIsFirst(events, DecisionReceived, s.decision);
    SoleIsFirst(events, StopCreated, s.stopCreated);
    SoleIsFirst(events, StopReconciled, s.stopReconciled);
    SoleIsFirst(events, TargetCreated, s.targetCreated);
    SoleIsFirst(events, TargetReconciled, s.targetReconciled);
    SoleIsFirst(events, ExitTriggered, s.exitTriggered);
    SoleIsFirst(events, ExitFilled, s.exitFilled);
  }

  lemma OrderedIsTold(events: seq<Event>, s: Story)
    requires AllSole(events, s) && FirstFill(events, s.fill)
    ensures Ordered(events) == True <==> Tells(events, s)
  {
    SolesAreFirst(events, s);
    FirstFillIsFirst(events, s.fill);
    MaxMeans(events, |events|);
  }

  lemma StoryOf(events: seq<Event>) returns (s: Story)
    requires Singles(events) == True && Ordered(events) == True
    ensures Tells(events, s)
  {
    var decision := SoleIsSingle(events, DecisionReceived);
    var stopCreated := SoleIsSingle(events, StopCreated);
    var stopReconciled := SoleIsSingle(events, StopReconciled);
    var targetCreated := SoleIsSingle(events, TargetCreated);
    var targetReconciled := SoleIsSingle(events, TargetReconciled);
    var exitTriggered := SoleIsSingle(events, ExitTriggered);
    var exitFilled := SoleIsSingle(events, ExitFilled);
    var fill := FirstFillOf(events);
    s := Story(decision, fill, stopCreated, stopReconciled, targetCreated, targetReconciled, exitTriggered, exitFilled);
    OrderedIsTold(events, s);
  }

  lemma OrderIsTold(events: seq<Event>)
    ensures And(Singles(events), Ordered(events)) == True <==> exists s :: Tells(events, s)
  {
    if Singles(events) == True && Ordered(events) == True {
      var s := StoryOf(events);
    }
    if exists s :: Tells(events, s) {
      var s :| Tells(events, s);
      SolesAreFirst(events, s);
      OrderedIsTold(events, s);
    }
  }

  lemma QuantityIsFit(events: seq<Event>, quantity: real, filled: real)
    ensures FilledMatches(events, quantity, filled) == True <==> QuantityFits(events, quantity, filled)
  {
    var m := MaxFilled(events, |events|);
    MaxFilledMeans(events, |events|);
    if m.Some? {
      var i :| 0 <= i < |events| && Selects(Fill, events[i]) && events[i].filled == m;
      assert LargestFill(events, i);
    }
  }

  /**
   The nested aggregates hold exactly if the events tell the one story, with fitting exits and quantity. In
   particular an event with an exit reason must exist, since `bool_and` over none is unknown.
   */
  lemma ProtectedIsTold(events: seq<Event>, quantity: real, filled: real)
    ensures ProtectedSequence(events, quantity, filled) <==>
              (exists s :: Tells(events, s)) && ExitsFit(events) && QuantityFits(events, quantity, filled)
  {
    ExitsMean(events, |events|);
    QuantityIsFit(events, quantity, filled);
    OrderIsTold(events);
  }

  /** A story whose events are numbered from 1 to n: the decision is event 1 and the filled exit is event n. */
  predicate FullLifecycle(events: seq<Event>, s: Story) {
    && Tells(events, s) && Numbered(events) && |events| >= 8
    && events[s.exitFilled].number == |events|
    && forall i :: 0 <= i < |events| && i != s.decision && i != s.exitFilled ==> 1 < events[i].number < |events|
  }

  ghost predicate HasLifecycle(events: seq<Event>) {
    exists s :: FullLifecycle(events, s)
  }

  lemma ContiguousStory(events: seq<Event>, s: Story)
    requires Contiguous(events) && Tells(events, s)
    ensures FullLifecycle(events, s)
  {
    ContiguousIsNumbered(events);
    assert HasNumber(events, |events|);
    assert events[s.decision].eventType == Some(DecisionReceived) && events[s.fill].eventType != Some(DecisionReceived);
    assert events[s.fill].number > 1;
  }

  /** What the two predicates together force. */
  lemma AggregatesForceLifecycle(events: seq<Event>, quantity: real, filled: real)
    requires Contiguous(events) && ProtectedSequence(events, quantity, filled)
    ensures HasLifecycle(events)
  {
    ProtectedIsTold(events, quantity, filled);
    var s :| Tells(events, s);
    ContiguousStory(events, s);
  }

  /** Events without any exit reason never qualify, however complete they are. */
  lemma NoReasonNoProtection(events: seq<Event>, quantity: real, filled: real)
    requires forall i :: 0 <= i < |events| ==> events[i].exitReason.None?
    ensures !ProtectedSequence(events, quantity, filled)
  {
    ProtectedIsTold(events, quantity, filled);
  }

  // ---- Two concrete event sequences.

  /** The eight types of a shortest lifecycle, in order. */
  function TypeAt(i: nat): EventType
    requires i < 8
  {
    if i == 0 then DecisionReceived else if i == 1 then EntryFilled else if i == 2 then StopCreated
    else if i == 3 then StopReconciled else if i == 4 then TargetCreated else if i == 5 then TargetReconciled
    else if i == 6 then ExitTriggered else ExitFilled
  }

  /** That lifecycle; only its last two events may name an exit reason and a state. */
  function Shortest(reason: Option<ExitReason>, triggered: Option<LifecycleState>, filled: Option<LifecycleState>):
      (events: seq<Event>)
    ensures |events| == 8
    ensures forall i :: 0 <= i < 8 ==>
              && events[i].number == i + 1 && events[i].eventType == Some(TypeAt(i))
              && events[i].exitReason == (if i < 6 then None else reason)
              && events[i].lifecycle == (if i < 6 then None else if i == 6 then triggered else filled)
              && events[i].filled == (if i == 1 then Some(1.0) else None)
  {
    seq(8, i requires 0 <= i < 8 =>
        Event(i + 1, Some(TypeAt(i)), if i < 6 then None else reason,
              if i < 6 then None else if i == 6 then triggered else filled, if i == 1 then Some(1.0) else None))
  }

  const SHORTEST := Story(0, 1, 2, 3, 4, 5, 6, 7)

  lemma ShortestIsSole(reason: Option<ExitReason>, triggered: Option<LifecycleState>, filled: Option<LifecycleState>, i: nat)
    requires i < 8
    ensures Sole(Shortest(reason, triggered, filled), TypeAt(i), i)
  {
  }

  lemma ShortestTells(reason: Option<ExitReason>, triggered: Option<LifecycleState>, filled: Option<LifecycleState>)
    ensures Tells(Shortest(reason, triggered, filled), SHORTEST) && Contiguous(Shortest(reason, triggered, filled))
    ensures QuantityFits(Shortest(reason, triggered, filled), 1.0, 1.0)
  {
    var events := Shortest(reason, triggered, filled);
    forall i | 0 <= i < 8 ensures Sole(events, TypeAt(i), i) {
      ShortestIsSole(reason, triggered, filled, i);
    }
    assert AllSole(events, SHORTEST) by {
      assert Sole(events, TypeAt(0), 0) && Sole(events, TypeAt(2), 2) && Sole(events, TypeAt(3), 3);
      assert Sole(events, TypeAt(4), 4) && Sole(events, TypeAt(5), 5) && Sole(events, TypeAt(6), 6);
      assert Sole(events, TypeAt(7), 7);
    }
    forall v | 1 <= v <= 8 ensures HasNumber(events, v) {
      assert events[v - 1].number == v;
    }
    NumberedIsContiguous(events);
    assert LargestFill(events, 1);
  }

  lemma ShortestHasNoReason(triggered: Option<LifecycleState>, filled: Option<LifecycleState>)
    ensures forall i :: 0 <= i < 8 ==> Shortest(None, triggered, filled)[i].exitReason.None?
  {
  }

  /**
   The whole story, contiguous and with the right quantity, is not protected when no event names a reason,
   whatever states the exit events show.
   */
  lemma CompleteWithoutReason(triggered: Option<LifecycleState>, filled: Option<LifecycleState>)
    ensures var events := Shortest(None, triggered, filled);
            && Tells(events, SHORTEST) && Contiguous(events) && QuantityFits(events, 1.0, 1.0)
            && !ProtectedSequence(events, 1.0, 1.0)
  {
    ShortestTells(None, triggered, filled);
    ShortestHasNoReason(triggered, filled);
    NoReasonNoProtection(Shortest(None, triggered, filled), 1.0, 1.0);
  }

  lemma ToldIsProtected(events: seq<Event>, s: Story, quantity: real, filled: real)
    requires Tells(events, s) && Contiguous(events) && ExitsFit(events) && QuantityFits(events, quantity, filled)
    ensures ProtectedSequence(events, quantity, filled) && HasLifecycle(events)
  {
    ProtectedIsTold(events, quantity, filled);
    AggregatesForceLifecycle(events, quantity, filled);
  }

  lemma SkippedStateFits()
    ensures ExitsFit(Shortest(Some(Stop), None, Some(IsFlat)))
  {
    var events := Shortest(Some(Stop), None, Some(IsFlat));
    assert ExitConsistent(events[7]) == True && ExitConsistent(events[6]) == Unknown;
  }

  /** And it is protected when an event names a reason with no state at all, if another one fits. */
  lemma MissingStateIsSkipped()
    ensures var events := Shortest(Some(Stop), None, Some(IsFlat));
            && events[6].exitReason == Some(Stop) && events[6].lifecycle.None?
            && ProtectedSequence(events, 1.0, 1.0) && HasLifecycle(events)
  {
    ShortestTells(Some(Stop), None, Some(IsFlat));
    SkippedStateFits();
    ToldIsProtected(Shortest(Some(Stop), None, Some(IsFlat)), SHORTEST, 1.0, 1.0);
  }

  // ---- From the report back to the events.

  /** The trade's two flags are what the query computes over its events. */
  predicate Collected(t: Trade, events: seq<Event>, quantity: real) {
    (t.contiguous <==> Contiguous(events))
    && (t.protectedSequence <==> ProtectedSequence(events, quantity, t.filledQuantity))
  }

  lemma FlatTradeLifecycle(t: Trade, events: seq<Event>, quantity: real)
    requires Collected(t, events, quantity) && TradeAcceptable(t) && ProtectedFlat(t)
    ensures HasLifecycle(events)
  {
    AggregatesForceLifecycle(events, quantity, t.filledQuantity);
  }

  lemma SymbolTrade(trades: seq<Trade>, symbol: Symbol) returns (i: nat)
    requires Covered(trades) && symbol in EXPECTED_SYMBOLS
    ensures i < |trades| && trades[i].symbol == symbol && ProtectedFlat(trades[i])
  {
    var t :| t in trades && t.symbol == symbol && ProtectedFlat(t);
    i :| i < |trades| && trades[i] == t;
  }

  lemma SymbolLifecycle(trades: seq<Trade>, events: seq<seq<Event>>, quantities: seq<real>, symbol: Symbol)
    requires Covered(trades) && symbol in EXPECTED_SYMBOLS && forall t :: t in trades ==> TradeAcceptable(t)
    requires |events| == |quantities| == |trades|
    requires forall i :: 0 <= i < |trades| ==> Collected(trades[i], events[i], quantities[i])
    ensures exists i :: 0 <= i < |trades| && trades[i].symbol == symbol && HasLifecycle(events[i])
  {
    var i := SymbolTrade(trades, symbol);
    FlatTradeLifecycle(trades[i], events[i], quantities[i]);
  }

  /** A PASS rests on a complete lifecycle for each of the symbols. */
  lemma PassMeansLifecycles(e: Evidence, r: Report, events: seq<seq<Event>>, quantities: seq<real>)
    requires e.Evidence? && Reports(e, r) && r.status == Pass && |events| == |quantities| == |e.trades|
    requires forall i :: 0 <= i < |e.trades| ==> Collected(e.trades[i], events[i], quantities[i])
    ensures forall symbol :: symbol in EXPECTED_SYMBOLS ==>
              exists i :: 0 <= i < |e.trades| && e.trades[i].symbol == symbol && HasLifecycle(events[i])
  {
    PassIsAcceptable(e, r);
    forall symbol | symbol in EXPECTED_SYMBOLS
      ensures exists i :: 0 <= i < |e.trades| && e.trades[i].symbol == symbol && HasLifecycle(events[i])
    {
      SymbolLifecycle(e.trades, events, quantities, symbol);
    }
  }
}
