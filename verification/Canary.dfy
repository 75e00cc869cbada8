/**
 The acceptance evaluator of the technical canary: one pass over the trades of an evidence snapshot, against
 a declarative statement of what each entry of the report means and of what a PASS means.
 */
module Canary {
  // The texts the evaluator tells apart; every other text is kept under its name.

  datatype Symbol = Btc | Eth | Sol | Bnb | Xrp | OtherSymbol(name: string)

  /** `BTCUSD:DEV` and so on. */
  datatype Venue = VenueOf(symbol: Symbol) | OtherVenue(name: string)

  datatype Label = Paper | Dev | TechnicalCanary | RevisionOne | OtherLabel(name: string)

  datatype State = Flat | Cancelled | FailedBlocked | OtherState(name: string)

  datatype EventType =
    | DecisionReceived | EntryFilled | EntryPartialFill | StopCreated | StopReconciled | TargetCreated
    | TargetReconciled | ExitTriggered | ExitFilled | Failed | RecoveryBlocked | EmergencyClose
    | OtherEvent(name: string)

  datatype ExitReason = Stop | Target | Timeout | OtherReason(name: string)

  datatype Trade = Trade(
    symbol: Symbol, venueSymbol: Venue, tradingMode: Label, profile: Label, exchange: string,
    strategy: Label, revision: Label, state: State, filledQuantity: real, marketableIoc: bool,
    nextBarMarket: bool, decisionBinding: bool, eventTypes: seq<EventType>, exitReasons: seq<ExitReason>,
    publicEvents: int, expectedPublicEvents: int, contiguous: bool, publicScope: bool, protectedSequence: bool,
    internalFailures: int, cancelEffects: int, realFills: int)

  datatype Scope = Scope(environment: string, tradingMode: string, profile: string, exchange: string, account: string)

  datatype Recovery = Recovery(present: bool, entriesBlocked: bool, epoch: int, completed: bool, crossed: bool)

  datatype Integrity = Integrity(
    prepared: int, failed: int, duplicates: int, foreignTrades: int, foreignEffects: int, cancelEffects: int,
    realFills: int, publicFailures: int)

  /** Evidence of another shape, or with a value of another type, is malformed. */
  datatype Evidence =
    | Evidence(schemaVersion: int, scope: Scope, recovery: Recovery, integrity: Integrity, trades: seq<Trade>)
    | Malformed

  // ---- The typed validators.

  predicate Distinct<T(==)>(items: seq<T>) {
    forall i, j :: 0 <= i < j < |items| ==> items[i] != items[j]
  }

  predicate TextsValid(t: Trade) {
    && t.symbol != OtherSymbol("") && t.venueSymbol != OtherVenue("") && t.tradingMode != OtherLabel("")
    && t.profile != OtherLabel("") && t.exchange != "" && t.strategy != OtherLabel("")
    && t.revision != OtherLabel("") && t.state != OtherState("")
    && OtherEvent("") !in t.eventTypes && Distinct(t.eventTypes)
    && OtherReason("") !in t.exitReasons && Distinct(t.exitReasons)
  }

  predicate TradeValid(t: Trade) {
    && TextsValid(t) && t.filledQuantity >= 0.0
    && t.publicEvents >= 0 && t.expectedPublicEvents >= 0 && t.internalFailures >= 0 && t.cancelEffects >= 0
    && t.realFills >= 0
  }

  predicate IntegrityValid(g: Integrity) {
    && g.prepared >= 0 && g.failed >= 0 && g.duplicates >= 0 && g.foreignTrades >= 0 && g.foreignEffects >= 0
    && g.cancelEffects >= 0 && g.realFills >= 0 && g.publicFailures >= 0
  }

  predicate WellFormed(e: Evidence) {
    && e.Evidence? && e.schemaVersion == 1
    && e.scope.environment != "" && e.scope.tradingMode != "" && e.scope.profile != "" && e.scope.exchange != ""
    && e.scope.account != "" && e.recovery.epoch >= 0 && IntegrityValid(e.integrity)
    && forall t :: t in e.trades ==> TradeValid(t)
  }

  // ---- What one trade shows.

  const EXPECTED_SYMBOLS: set<Symbol> := {Btc, Eth, Sol, Bnb, Xrp}
  const REQUIRED_EXITS: set<ExitReason> := {Stop, Target, Timeout}

  function Lower(c: char): char {
    if 'A' <= c <= 'Z' then (c as int + 32) as char else c
  }

  /** `exchange.casefold() == "evedex"`; no character outside ASCII folds to one of these letters. */
  predicate IsEvedex(s: string) {
    |s| == 6 && Lower(s[0]) == 'e' && Lower(s[1]) == 'v' && Lower(s[2]) == 'e' && Lower(s[3]) == 'd'
    && Lower(s[4]) == 'e' && Lower(s[5]) == 'x'
  }

  predicate LineageOk(t: Trade) {
    && !t.symbol.OtherSymbol? && t.venueSymbol == VenueOf(t.symbol) && t.tradingMode == Paper && t.profile == Dev
    && IsEvedex(t.exchange) && t.strategy == TechnicalCanary && t.revision == RevisionOne && t.decisionBinding
  }

  predicate Terminal(t: Trade) {
    t.state == Flat || t.state == Cancelled
  }

  predicate LifecycleFailed(t: Trade) {
    t.state == FailedBlocked || t.internalFailures > 0
    || Failed in t.eventTypes || RecoveryBlocked in t.eventTypes || EmergencyClose in t.eventTypes
  }

  predicate PublicFactsOk(t: Trade) {
    t.publicEvents == t.expectedPublicEvents && t.contiguous && t.publicScope
  }

  predicate HasFill(t: Trade) {
    t.filledQuantity > 0.0 || t.realFills > 0
  }

  /** Exactly one exit reason, and it is one of the required ones. */
  predicate ExitAttributed(t: Trade) {
    |t.exitReasons| == 1 && t.exitReasons[0] in REQUIRED_EXITS
  }

  predicate ProtectedFlat(t: Trade) {
    && t.state == Flat && HasFill(t) && (EntryFilled in t.eventTypes || EntryPartialFill in t.eventTypes)
    && DecisionReceived in t.eventTypes && StopCreated in t.eventTypes && StopReconciled in t.eventTypes
    && TargetCreated in t.eventTypes && TargetReconciled in t.eventTypes
    && ExitTriggered in t.eventTypes && ExitFilled in t.eventTypes
    && ExitAttributed(t) && t.protectedSequence
  }

  // ---- The scope and the recovery barrier.

  predicate IsLowerOrDigit(c: char) {
    'a' <= c <= 'z' || '0' <= c <= '9'
  }

  const ACCOUNT_PREFIX := "kairos-paper-dev-"

  /** `kairos-paper-dev-` and one to forty-eight letters, digits and inner dashes. */
  predicate AccountOk(s: string) {
    var n := |ACCOUNT_PREFIX|;
    && ACCOUNT_PREFIX <= s && n < |s| <= n + 48 && IsLowerOrDigit(s[n]) && IsLowerOrDigit(s[|s| - 1])
    && forall i :: n <= i < |s| ==> IsLowerOrDigit(s[i]) || s[i] == '-'
  }

  predicate ScopeOk(s: Scope) {
    && (s.environment == "paper:EVEDEX:DEV:PAPER" || s.environment == "paper-dev:EVEDEX:DEV:PAPER")
    && s.tradingMode == "PAPER" && s.profile == "DEV" && IsEvedex(s.exchange) && AccountOk(s.account)
  }

  predicate RestartRecovered(r: Recovery) {
    r.present && r.completed && !r.entriesBlocked && r.epoch >= 2 && r.crossed
  }

  // ---- The report.

  datatype Failure =
    | EvidenceSchemaInvalid | ScopeNotDedicated | RecoveryBarrierMissing | RecoveryBarrierNotClean
    | UnresolvedEffects | DuplicateClientOrderIds | ForeignScopeFacts | FailedPublicFacts | LineageOutside
    | PublicFactsNotContiguous | FilledTradeNotProtected | RealFillMismatch | CancelMismatch | NonterminalTrades
    | FailedTrades

  datatype Pending =
    | RestartRecoveryUnproven | RoundTripsMissing | ExitCoverageIncomplete | IocCoverageIncomplete
    | EntryCancelIncomplete | RealFillNotObserved

  datatype Status = Pass | PendingCoverage | Fail

  datatype Coverage = Coverage(
    protectedSymbols: set<Symbol>, missingSymbols: set<Symbol>, exitReasons: set<ExitReason>,
    missingExitReasons: set<ExitReason>, marketableIoc: bool, entryCancel: bool, restartRecovery: bool)

  datatype Counters = Counters(
    trades: int, realFills: int, duplicates: int, unresolved: int, nonterminal: int, failedLifecycles: int)

  datatype Report = Report(
    status: Status, pending: set<Pending>, failures: set<Failure>, coverage: Coverage, counters: Counters)

  const INVALID := Report(Fail, {}, {EvidenceSchemaInvalid},
                          Coverage({}, {}, {}, {}, false, false, false), Counters(0, 0, 0, 0, 0, 0))

  /** The quantities summed over the trades. */
  datatype Measure = RealFills | CancelEffects | Nonterminal | FailedLifecycles

  function Of(m: Measure, t: Trade): int {
    match m
    case RealFills => t.realFills
    case CancelEffects => t.cancelEffects
    case Nonterminal => if Terminal(t) then 0 else 1
    case FailedLifecycles => if LifecycleFailed(t) then 1 else 0
  }

  function Sum(m: Measure, trades: seq<Trade>): int {
    if trades == [] then 0 else Sum(m, trades[..|trades| - 1]) + Of(m, trades[|trades| - 1])
  }

  function ProtectedSymbols(trades: seq<Trade>): set<Symbol> {
    set t | t in trades && ProtectedFlat(t) :: t.symbol
  }

  function ObservedExits(trades: seq<Trade>): set<ExitReason> {
    set t | t in trades && ProtectedFlat(t) :: t.exitReasons[0]
  }

  predicate AllMarketable(trades: seq<Trade>) {
    trades != [] && forall t :: t in trades ==> t.marketableIoc && t.nextBarMarket
  }

  /** When each failure is reported. */
  predicate Fails(e: Evidence, f: Failure)
    requires e.Evidence?
  {
    match f
    case EvidenceSchemaInvalid => false
    case ScopeNotDedicated => !ScopeOk(e.scope)
    case RecoveryBarrierMissing => !e.recovery.present
    case RecoveryBarrierNotClean => e.recovery.present && (e.recovery.entriesBlocked || !e.recovery.completed)
    case UnresolvedEffects => e.integrity.prepared + e.integrity.failed != 0
    case DuplicateClientOrderIds => e.integrity.duplicates != 0
    case ForeignScopeFacts => e.integrity.foreignTrades != 0 || e.integrity.foreignEffects != 0
    case FailedPublicFacts => e.integrity.publicFailures != 0
    case LineageOutside => exists t :: t in e.trades && !LineageOk(t)
    case PublicFactsNotContiguous => exists t :: t in e.trades && !PublicFactsOk(t)
    case FilledTradeNotProtected => exists t :: t in e.trades && HasFill(t) && !ProtectedFlat(t)
    case RealFillMismatch => Sum(RealFills, e.trades) != e.integrity.realFills
    case CancelMismatch => Sum(CancelEffects, e.trades) != e.integrity.cancelEffects
    case NonterminalTrades => Sum(Nonterminal, e.trades) != 0
    case FailedTrades => Sum(FailedLifecycles, e.trades) != 0
  }

  /** When each gap in the coverage is reported. */
  predicate PendsIf(p: Pending, restarted: bool, symbols: bool, exits: bool, marketable: bool, cancels: int, fills: int) {
    match p
    case RestartRecoveryUnproven => !restarted
    case RoundTripsMissing => !symbols
    case ExitCoverageIncomplete => !exits
    case IocCoverageIncomplete => !marketable
    case EntryCancelIncomplete => cancels <= 0
    case RealFillNotObserved => fills <= 0
  }

  predicate Pends(e: Evidence, p: Pending)
    requires e.Evidence?
  {
    PendsIf(p, RestartRecovered(e.recovery), EXPECTED_SYMBOLS <= ProtectedSymbols(e.trades),
            REQUIRED_EXITS <= ObservedExits(e.trades), AllMarketable(e.trades), e.integrity.cancelEffects,
            e.integrity.realFills)
  }

  /** What the report on well-formed evidence must say. */
  ghost predicate Summarizes(e: Evidence, r: Report)
    requires e.Evidence?
  {
    && (forall f :: f in r.failures <==> Fails(e, f))
    && (forall p :: p in r.pending <==> Pends(e, p))
    && r.status == (if r.failures != {} then Fail else if r.pending != {} then PendingCoverage else Pass)
    && r.coverage == Coverage(
         ProtectedSymbols(e.trades), EXPECTED_SYMBOLS - ProtectedSymbols(e.trades), ObservedExits(e.trades),
         REQUIRED_EXITS - ObservedExits(e.trades), AllMarketable(e.trades), e.integrity.cancelEffects > 0,
         RestartRecovered(e.recovery))
    && r.counters == Counters(
         |e.trades|, e.integrity.realFills, e.integrity.duplicates, e.integrity.prepared + e.integrity.failed,
         Sum(Nonterminal, e.trades), Sum(FailedLifecycles, e.trades))
  }

  ghost predicate Reports(e: Evidence, r: Report) {
    if WellFormed(e) then Summarizes(e, r) else r == INVALID
  }

  // ---- The evaluator.

  /** The failures that a single trade can bring. */
  predicate TradeBrings(t: Trade, f: Failure) {
    || (f == LineageOutside && !LineageOk(t)) || (f == PublicFactsNotContiguous && !PublicFactsOk(t))
    || (f == FilledTradeNotProtected && HasFill(t) && !ProtectedFlat(t))
  }

  /** The running state of the pass over the trades. */
  datatype Progress = Progress(
    failures: set<Failure>, protectedSymbols: set<Symbol>, exits: set<ExitReason>, ioc: bool, fills: int, cancels: int,
    nonterminal: int, failed: int)

  /** The state is the one after these trades, having started from some failures. */
  ghost predicate Covers(p: Progress, start: set<Failure>, trades: seq<Trade>) {
    && (forall f :: f in p.failures <==> f in start || exists t :: t in trades && TradeBrings(t, f))
    && p.protectedSymbols == ProtectedSymbols(trades) && p.exits == ObservedExits(trades)
    && (p.ioc <==> forall t :: t in trades ==> t.marketableIoc && t.nextBarMarket)
    && p.fills == Sum(RealFills, trades) && p.cancels == Sum(CancelEffects, trades)
    && p.nonterminal == Sum(Nonterminal, trades) && p.failed == Sum(FailedLifecycles, trades)
  }

  method TradeFailures(t: Trade, flat: bool) returns (failures: set<Failure>)
    requires flat == ProtectedFlat(t)
    ensures forall f :: f in failures <==> TradeBrings(t, f)
  {
    failures := {};
    if !LineageOk(t) {
      failures := failures + {LineageOutside};
    }
    if !PublicFactsOk(t) {
      failures := failures + {PublicFactsNotContiguous};
    }
    if HasFill(t) && !flat {
      failures := failures + {FilledTradeNotProtected};
    }
  }

  /** One round of the loop. */
  method Visit(p: Progress, t: Trade, ghost start: set<Failure>, ghost before: seq<Trade>) returns (q: Progress)
    requires Covers(p, start, before)
    ensures Covers(q, start, before + [t])
  {
    var flat := ProtectedFlat(t);
    var failures := TradeFailures(t, flat);
    var nonterminal := if Terminal(t) then p.nonterminal else p.nonterminal + 1;
    var failed := if LifecycleFailed(t) then p.failed + 1 else p.failed;
    var symbols, exits := p.protectedSymbols, p.exits;
    if flat {
      symbols, exits := symbols + {t.symbol}, exits + {t.exitReasons[0]};
    }
    q := Progress(p.failures + failures, symbols, exits, p.ioc && t.marketableIoc && t.nextBarMarket,
                  p.fills + t.realFills, p.cancels + t.cancelEffects, nonterminal, failed);
    SumsGrow(before, t);
    SetsGrow(before, t);
    FailuresGrow(p.failures, q.failures, start, before, t);
  }

  lemma SumsGrow(before: seq<Trade>, t: Trade)
    ensures forall m :: Sum(m, before + [t]) == Sum(m, before) + Of(m, t)
  {
    assert (before + [t])[..|before|] == before;
  }

  lemma SetsGrow(before: seq<Trade>, t: Trade)
    ensures ProtectedSymbols(before + [t]) == ProtectedSymbols(before) + (if ProtectedFlat(t) then {t.symbol} else {})
    ensures ObservedExits(before + [t])
         == ObservedExits(before) + (if ProtectedFlat(t) then {t.exitReasons[0]} else {})
  {
    assert forall u :: u in before + [t] <==> u in before || u == t;
  }

  lemma FailuresGrow(earlier: set<Failure>, later: set<Failure>, start: set<Failure>, before: seq<Trade>, t: Trade)
    requires forall f :: f in earlier <==> f in start || exists u :: u in before && TradeBrings(u, f)
    requires forall f :: f in later <==> f in earlier || TradeBrings(t, f)
    ensures forall f :: f in later <==> f in start || exists u :: u in before + [t] && TradeBrings(u, f)
  {
    forall f ensures (exists u :: u in before + [t] && TradeBrings(u, f))
                <==> (exists u :: u in before && TradeBrings(u, f)) || TradeBrings(t, f) {
      assert forall u :: u in before + [t] <==> u in before || u == t;
      if TradeBrings(t, f) {
        assert t in before + [t];
      }
    }
  }

  /** The checks before the loop. */
  method ScopeFailures(e: Evidence) returns (failures: set<Failure>)
    requires e.Evidence?
    ensures forall f :: f in failures <==> f in EARLY && Fails(e, f)
  {
    failures := {};
    if !ScopeOk(e.scope) {
      failures := failures + {ScopeNotDedicated};
    }
    if !e.recovery.present {
      failures := failures + {RecoveryBarrierMissing};
    } else if e.recovery.entriesBlocked || !e.recovery.completed {
      failures := failures + {RecoveryBarrierNotClean};
    }
    if e.integrity.prepared + e.integrity.failed != 0 {
      failures := failures + {UnresolvedEffects};
    }
    if e.integrity.duplicates != 0 {
      failures := failures + {DuplicateClientOrderIds};
    }
    if e.integrity.foreignTrades != 0 || e.integrity.foreignEffects != 0 {
      failures := failures + {ForeignScopeFacts};
    }
    if e.integrity.publicFailures != 0 {
      failures := failures + {FailedPublicFacts};
    }
  }

  const EARLY: set<Failure> := {ScopeNotDedicated, RecoveryBarrierMissing, RecoveryBarrierNotClean, UnresolvedEffects,
                                DuplicateClientOrderIds, ForeignScopeFacts, FailedPublicFacts}

  lemma NothingMissing<T>(wanted: set<T>, seen: set<T>)
    ensures wanted - seen == {} <==> wanted <= seen
  {
    if wanted - seen == {} {
      forall x | x in wanted ensures x in seen {
        assert x !in wanted - seen;
      }
    }
  }

  /** The gaps in the coverage. */
  method Gaps(restarted: bool, symbols: bool, exits: bool, marketable: bool, cancels: int, fills: int)
    returns (pending: set<Pending>)
    ensures forall g :: g in pending <==> PendsIf(g, restarted, symbols, exits, marketable, cancels, fills)
  {
    pending := {};
    if !restarted {
      pending := pending + {RestartRecoveryUnproven};
    }
    if !symbols {
      pending := pending + {RoundTripsMissing};
    }
    if !exits {
      pending := pending + {ExitCoverageIncomplete};
    }
    if !marketable {
      pending := pending + {IocCoverageIncomplete};
    }
    if cancels <= 0 {
      pending := pending + {EntryCancelIncomplete};
    }
    if fills <= 0 {
      pending := pending + {RealFillNotObserved};
    }
  }

  /** The failures that the totals bring after the loop. */
  method TotalFailures(e: Evidence, p: Progress) returns (failures: set<Failure>)
    requires e.Evidence?
    ensures forall f :: f in failures <==>
              || (f == RealFillMismatch && p.fills != e.integrity.realFills)
              || (f == CancelMismatch && p.cancels != e.integrity.cancelEffects)
              || (f == NonterminalTrades && p.nonterminal != 0) || (f == FailedTrades && p.failed != 0)
  {
    failures := {};
    if p.fills != e.integrity.realFills {
      failures := failures + {RealFillMismatch};
    }
    if p.cancels != e.integrity.cancelEffects {
      failures := failures + {CancelMismatch};
    }
    if p.nonterminal != 0 {
      failures := failures + {NonterminalTrades};
    }
    if p.failed != 0 {
      failures := failures + {FailedTrades};
    }
  }

  lemma FailureIsTrades(e: Evidence, f: Failure)
    requires e.Evidence?
    ensures f == LineageOutside || f == PublicFactsNotContiguous || f == FilledTradeNotProtected ==>
              (Fails(e, f) <==> exists t :: t in e.trades && TradeBrings(t, f))
  {
    match f
    case LineageOutside =>
      assert forall t :: t in e.trades ==> (TradeBrings(t, LineageOutside) <==> !LineageOk(t));
    case PublicFactsNotContiguous =>
      assert forall t :: t in e.trades ==> (TradeBrings(t, PublicFactsNotContiguous) <==> !PublicFactsOk(t));
    case FilledTradeNotProtected =>
      assert forall t :: t in e.trades ==>
               (TradeBrings(t, FilledTradeNotProtected) <==> HasFill(t) && !ProtectedFlat(t));
    case _ =>
  }

  lemma FailuresAreAll(e: Evidence, p: Progress, start: set<Failure>, total: set<Failure>, f: Failure)
    requires e.Evidence? && Covers(p, start, e.trades)
    requires f in start <==> f in EARLY && Fails(e, f)
    requires f in total <==>
              || (f == RealFillMismatch && p.fills != e.integrity.realFills)
              || (f == CancelMismatch && p.cancels != e.integrity.cancelEffects)
              || (f == NonterminalTrades && p.nonterminal != 0) || (f == FailedTrades && p.failed != 0)
    ensures f in p.failures + total <==> Fails(e, f)
  {
    FailureIsTrades(e, f);
  }

  /** The loop over the trades. */
  method VisitAll(trades: seq<Trade>, start: set<Failure>) returns (p: Progress)
    ensures Covers(p, start, trades)
  {
    p := Progress(start, {}, {}, true, 0, 0, 0, 0);
    for i := 0 to |trades|
      invariant Covers(p, start, trades[..i])
    {
      assert trades[..i + 1] == trades[..i] + [trades[i]];
      p := Visit(p, trades[i], start, trades[..i]);
    }
    assert trades[..|trades|] == trades;
  }

  method Conclude(e: Evidence, p: Progress, failures: set<Failure>, ghost start: set<Failure>) returns (r: Report)
    requires e.Evidence? && Covers(p, start, e.trades)
    requires forall f :: f in failures <==> Fails(e, f)
    ensures Summarizes(e, r)
  {
    NothingMissing(EXPECTED_SYMBOLS, p.protectedSymbols);
    NothingMissing(REQUIRED_EXITS, p.exits);
    var missingSymbols, missingExits := EXPECTED_SYMBOLS - p.protectedSymbols, REQUIRED_EXITS - p.exits;
    var marketable := e.trades != [] && p.ioc;
    var pending := Gaps(RestartRecovered(e.recovery), missingSymbols == {}, missingExits == {}, marketable,
                        e.integrity.cancelEffects, e.integrity.realFills);
    var status := if failures != {} then Fail else if pending != {} then PendingCoverage else Pass;
    var coverage := Coverage(
      p.protectedSymbols, missingSymbols, p.exits, missingExits, marketable, e.integrity.cancelEffects > 0,
      RestartRecovered(e.recovery));
    var counters := Counters(
      |e.trades|, e.integrity.realFills, e.integrity.duplicates, e.integrity.prepared + e.integrity.failed,
      p.nonterminal, p.failed);
    r := Report(status, pending, failures, coverage, counters);
  }

  /** `evaluate_evidence`. */
  method Evaluate(e: Evidence) returns (r: Report)
    ensures Reports(e, r)
  {
    if !WellFormed(e) {
      return INVALID;
    }
    var start := ScopeFailures(e);
    var p := VisitAll(e.trades, start);
    var total := TotalFailures(e, p);
    forall f ensures f in p.failures + total <==> Fails(e, f) {
      FailuresAreAll(e, p, start, total, f);
    }
    r := Conclude(e, p, p.failures + total, start);
  }

  // ---- The order of the trades does not matter.

  lemma {:induction false} SumOfSplit(m: Measure, front: seq<Trade>, t: Trade, back: seq<Trade>)
    ensures Sum(m, front + [t] + back) == Sum(m, front + back) + Of(m, t)
    decreases |back|
  {
    var s := front + [t] + back;
    if back == [] {
      assert s[..|s| - 1] == front && front + back == front;
    } else {
      var shorter := back[..|back| - 1];
      SumOfSplit(m, front, t, shorter);
      assert s[..|s| - 1] == front + [t] + shorter;
      assert (front + back)[..|front + back| - 1] == front + shorter;
    }
  }

  lemma Without(m: Measure, s: seq<Trade>, i: nat)
    requires i < |s|
    ensures multiset(s[..i] + s[i + 1..]) == multiset(s) - multiset{s[i]}
    ensures Sum(m, s) == Sum(m, s[..i] + s[i + 1..]) + Of(m, s[i])
  {
    assert s == s[..i] + [s[i]] + s[i + 1..];
    SumOfSplit(m, s[..i], s[i], s[i + 1..]);
  }

  lemma {:induction false} SumPermutes(m: Measure, a: seq<Trade>, b: seq<Trade>)
    requires multiset(a) == multiset(b)
    ensures Sum(m, a) == Sum(m, b)
    decreases |a|
  {
    if a == [] {
      assert |multiset(b)| == 0;
    } else {
      assert a[0] in multiset(b);
      var i :| 0 <= i < |b| && b[i] == a[0];
      Without(m, a, 0);
      Without(m, b, i);
      SumPermutes(m, a[..0] + a[1..], b[..i] + b[i + 1..]);
    }
  }

  lemma SameMembers(a: seq<Trade>, b: seq<Trade>)
    requires multiset(a) == multiset(b)
    ensures |a| == |b| && forall t :: t in a <==> t in b
  {
    assert |multiset(a)| == |a| && |multiset(b)| == |b|;
    forall t ensures t in a <==> t in b {
      assert t in a <==> t in multiset(a);
      assert t in b <==> t in multiset(b);
    }
  }

  /** Evidence with the same trades in another order gets the same report. */
  lemma ReportIgnoresOrder(e: Evidence, trades: seq<Trade>, r: Report)
    requires e.Evidence? && multiset(trades) == multiset(e.trades) && Reports(e, r)
    ensures Reports(e.(trades := trades), r)
  {
    SameMembers(e.trades, trades);
    forall m ensures Sum(m, e.trades) == Sum(m, trades) {
      SumPermutes(m, e.trades, trades);
    }
    var d := e.(trades := trades);
    assert WellFormed(d) <==> WellFormed(e);
    assert ProtectedSymbols(trades) == ProtectedSymbols(e.trades);
    assert ObservedExits(trades) == ObservedExits(e.trades);
    assert AllMarketable(trades) <==> AllMarketable(e.trades);
    forall f ensures Fails(e, f) <==> Fails(d, f) {
      FailsIgnoresOrder(e, d, f);
    }
  }

  lemma FailsIgnoresOrder(e: Evidence, d: Evidence, f: Failure)
    requires e.Evidence? && d.Evidence? && d == e.(trades := d.trades)
    requires forall t :: t in e.trades <==> t in d.trades
    requires forall m :: Sum(m, e.trades) == Sum(m, d.trades)
    ensures Fails(e, f) <==> Fails(d, f)
  {
  }

  /** The evidence determines the report. */
  lemma ReportIsUnique(e: Evidence, r: Report, s: Report)
    requires Reports(e, r) && Reports(e, s)
    ensures r == s
  {
    if WellFormed(e) {
      forall f ensures f in r.failures <==> f in s.failures {
        assert f in r.failures <==> Fails(e, f);
      }
      forall p ensures p in r.pending <==> p in s.pending {
        assert p in r.pending <==> Pends(e, p);
      }
      assert r.failures == s.failures && r.pending == s.pending;
    }
  }

  // ---- What a PASS means.

  lemma {:induction false} ZeroSum(m: Measure, trades: seq<Trade>)
    requires m == Nonterminal || m == FailedLifecycles
    ensures Sum(m, trades) >= 0
    ensures Sum(m, trades) == 0 <==> forall t :: t in trades ==> Of(m, t) == 0
  {
    if trades != [] {
      var rest, last := trades[..|trades| - 1], trades[|trades| - 1];
      ZeroSum(m, rest);
      assert trades == rest + [last];
      assert forall t :: t in trades <==> t in rest || t == last;
    }
  }

  /** Every trade is in order on its own. */
  predicate TradeAcceptable(t: Trade) {
    && TradeValid(t) && LineageOk(t) && PublicFactsOk(t) && Terminal(t) && !LifecycleFailed(t)
    && t.marketableIoc && t.nextBarMarket && (HasFill(t) ==> ProtectedFlat(t))
  }

  /** Every symbol made a protected round trip, and every kind of exit ended one. */
  predicate Covered(trades: seq<Trade>) {
    && (forall s :: s in EXPECTED_SYMBOLS ==> exists t :: t in trades && t.symbol == s && ProtectedFlat(t))
    && (forall x :: x in REQUIRED_EXITS ==> exists t :: t in trades && t.exitReasons == [x] && ProtectedFlat(t))
  }

  /** The whole snapshot is, without reference to how the report is computed. */
  ghost predicate Acceptable(e: Evidence) {
    && e.Evidence? && e.schemaVersion == 1 && ScopeOk(e.scope) && RestartRecovered(e.recovery)
    && e.integrity.prepared == e.integrity.failed == e.integrity.duplicates == e.integrity.foreignTrades
       == e.integrity.foreignEffects == e.integrity.publicFailures == 0
    && (forall t :: t in e.trades ==> TradeAcceptable(t)) && Covered(e.trades)
    && Sum(RealFills, e.trades) == e.integrity.realFills > 0
    && Sum(CancelEffects, e.trades) == e.integrity.cancelEffects > 0
  }

  lemma OneReason(t: Trade)
    requires ProtectedFlat(t)
    ensures t.exitReasons == [t.exitReasons[0]]
  {
  }

  lemma CoverageMeans(trades: seq<Trade>)
    ensures EXPECTED_SYMBOLS <= ProtectedSymbols(trades) && REQUIRED_EXITS <= ObservedExits(trades) <==> Covered(trades)
  {
    forall x ensures x in ObservedExits(trades) <==> exists t :: t in trades && t.exitReasons == [x] && ProtectedFlat(t) {
      if x in ObservedExits(trades) {
        var t :| t in trades && ProtectedFlat(t) && t.exitReasons[0] == x;
        OneReason(t);
      }
    }
    forall s ensures s in ProtectedSymbols(trades) <==> exists t :: t in trades && t.symbol == s && ProtectedFlat(t) {
    }
  }

  predicate TradeInOrder(t: Trade) {
    && LineageOk(t) && PublicFactsOk(t) && Terminal(t) && !LifecycleFailed(t) && (HasFill(t) ==> ProtectedFlat(t))
  }

  predicate NothingFails(e: Evidence)
    requires e.Evidence?
  {
    && ScopeOk(e.scope) && e.recovery.present && !e.recovery.entriesBlocked && e.recovery.completed
    && e.integrity.prepared == e.integrity.failed == e.integrity.duplicates == e.integrity.foreignTrades
       == e.integrity.foreignEffects == e.integrity.publicFailures == 0
    && (forall t :: t in e.trades ==> TradeInOrder(t))
    && Sum(RealFills, e.trades) == e.integrity.realFills
    && Sum(CancelEffects, e.trades) == e.integrity.cancelEffects
  }

  lemma NoneFails(e: Evidence, f: Failure)
    requires e.Evidence? && NothingFails(e)
    ensures !Fails(e, f)
  {
    ZeroSum(Nonterminal, e.trades);
    ZeroSum(FailedLifecycles, e.trades);
    assert forall t :: t in e.trades ==> TradeInOrder(t);
  }

  lemma EachTradeInOrder(e: Evidence)
    requires e.Evidence? && forall f :: !Fails(e, f)
    ensures forall t :: t in e.trades ==> TradeInOrder(t)
  {
    assert !Fails(e, LineageOutside) && !Fails(e, PublicFactsNotContiguous) && !Fails(e, FilledTradeNotProtected);
    assert !Fails(e, NonterminalTrades) && !Fails(e, FailedTrades);
    ZeroSum(Nonterminal, e.trades);
    ZeroSum(FailedLifecycles, e.trades);
    assert forall t :: t in e.trades ==> Of(Nonterminal, t) == 0 && Of(FailedLifecycles, t) == 0;
  }

  /** No failure at all is no failure of each kind. */
  lemma NoFailures(e: Evidence, r: Report)
    requires e.Evidence? && IntegrityValid(e.integrity) && Summarizes(e, r)
    ensures r.failures == {} <==> NothingFails(e)
  {
    if r.failures == {} {
      forall f ensures !Fails(e, f) {
        assert f !in r.failures;
      }
      EachTradeInOrder(e);
      assert !Fails(e, ScopeNotDedicated) && !Fails(e, RecoveryBarrierMissing) && !Fails(e, RecoveryBarrierNotClean);
      assert !Fails(e, UnresolvedEffects) && !Fails(e, DuplicateClientOrderIds) && !Fails(e, ForeignScopeFacts);
      assert !Fails(e, FailedPublicFacts) && !Fails(e, RealFillMismatch) && !Fails(e, CancelMismatch);
    }
    if NothingFails(e) {
      forall f ensures f !in r.failures {
        NoneFails(e, f);
      }
    }
  }

  predicate NothingPends(e: Evidence)
    requires e.Evidence?
  {
    && RestartRecovered(e.recovery) && EXPECTED_SYMBOLS <= ProtectedSymbols(e.trades)
    && REQUIRED_EXITS <= ObservedExits(e.trades) && AllMarketable(e.trades)
    && e.integrity.cancelEffects > 0 && e.integrity.realFills > 0
  }

  lemma NonePends(e: Evidence)
    requires e.Evidence? && forall p :: !Pends(e, p)
    ensures NothingPends(e)
  {
    assert !Pends(e, RestartRecoveryUnproven) && !Pends(e, RoundTripsMissing) && !Pends(e, ExitCoverageIncomplete);
    assert !Pends(e, IocCoverageIncomplete) && !Pends(e, EntryCancelIncomplete) && !Pends(e, RealFillNotObserved);
  }

  lemma NoGaps(e: Evidence, r: Report)
    requires e.Evidence? && Summarizes(e, r)
    ensures r.pending == {} <==> NothingPends(e)
  {
    if r.pending == {} {
      forall p ensures !Pends(e, p) {
        assert p !in r.pending;
      }
      NonePends(e);
    } else {
      var p :| p in r.pending;
      assert Pends(e, p);
    }
  }

  lemma TradesAcceptable(trades: seq<Trade>)
    requires forall t :: t in trades ==> TradeValid(t)
    ensures (forall t :: t in trades ==> TradeAcceptable(t)) <==>
              (forall t :: t in trades ==> TradeInOrder(t)) && (trades == [] || AllMarketable(trades))
  {
    forall t | t in trades ensures TradeAcceptable(t) <==> TradeInOrder(t) && t.marketableIoc && t.nextBarMarket {
    }
  }

  lemma CoveredIsNonempty(trades: seq<Trade>)
    requires Covered(trades)
    ensures trades != []
  {
    assert Btc in EXPECTED_SYMBOLS;
  }

  /** Each conjunct of acceptance is a failure or a gap that is not there. */
  lemma AcceptableIsNothing(e: Evidence)
    requires WellFormed(e)
    ensures Acceptable(e) <==> NothingFails(e) && NothingPends(e)
  {
    CoverageMeans(e.trades);
    TradesAcceptable(e.trades);
    if Covered(e.trades) {
      CoveredIsNonempty(e.trades);
    }
  }

  lemma AcceptableIsWellFormed(e: Evidence)
    requires Acceptable(e)
    ensures WellFormed(e)
  {
    assert AccountOk(e.scope.account);
    assert forall t :: t in e.trades ==> TradeAcceptable(t);
  }

  /** The gate passes exactly the snapshots that are acceptable. */
  lemma PassIsAcceptable(e: Evidence, r: Report)
    requires Reports(e, r)
    ensures r.status == Pass <==> Acceptable(e)
  {
    if WellFormed(e) {
      NoFailures(e, r);
      NoGaps(e, r);
      AcceptableIsNothing(e);
    } else if Acceptable(e) {
      AcceptableIsWellFormed(e);
    }
  }

  // ---- What forbids a PASS, on the fields of a trade.

  /** A trade of the one strategy and venue, over without failure, its public facts complete. */
  predicate Settled(t: Trade) {
    && (t.symbol, t.venueSymbol) in {(Btc, VenueOf(Btc)), (Eth, VenueOf(Eth)), (Sol, VenueOf(Sol)),
                                     (Bnb, VenueOf(Bnb)), (Xrp, VenueOf(Xrp))}
    && t.tradingMode == Paper && t.profile == Dev && t.strategy == TechnicalCanary && t.revision == RevisionOne
    && t.decisionBinding && |t.exchange| == 6
    && (forall i :: 0 <= i < 6 ==> t.exchange[i] == "evedex"[i] || t.exchange[i] == "EVEDEX"[i])
    && t.state in {Flat, Cancelled} && t.internalFailures <= 0
    && (forall x :: x in t.eventTypes ==> x !in {Failed, RecoveryBlocked, EmergencyClose})
    && t.publicEvents == t.expectedPublicEvents && t.contiguous && t.publicScope
  }

  /** A filled trade went through every protection step and out by one of the three exits. */
  predicate RoundTrip(t: Trade) {
    && t.state == Flat && (t.filledQuantity > 0.0 || t.realFills > 0) && t.protectedSequence
    && (EntryFilled in t.eventTypes || EntryPartialFill in t.eventTypes)
    && {DecisionReceived, StopCreated, StopReconciled, TargetCreated, TargetReconciled, ExitTriggered, ExitFilled}
       <= set x | x in t.eventTypes
    && t.exitReasons in {[Stop], [Target], [Timeout]}
  }

  lemma RoundTripIsProtected(t: Trade)
    ensures RoundTrip(t) <==> ProtectedFlat(t)
  {
    if ProtectedFlat(t) {
      OneReason(t);
    }
  }

  lemma EvedexLetters(s: string)
    ensures IsEvedex(s) <==> |s| == 6 && forall i :: 0 <= i < 6 ==> s[i] == "evedex"[i] || s[i] == "EVEDEX"[i]
  {
    if |s| == 6 {
      forall i | 0 <= i < 6 ensures Lower(s[i]) == "evedex"[i] <==> s[i] == "evedex"[i] || s[i] == "EVEDEX"[i] {
      }
      if IsEvedex(s) {
        forall i | 0 <= i < 6 ensures Lower(s[i]) == "evedex"[i] {
        }
      }
    }
  }

  lemma SettledIsInOrder(t: Trade)
    ensures TradeInOrder(t) <==> Settled(t) && (t.filledQuantity > 0.0 || t.realFills > 0 ==> RoundTrip(t))
  {
    EvedexLetters(t.exchange);
    RoundTripIsProtected(t);
  }

  /** A trade that is not settled, or filled without a round trip, makes the report a FAIL. */
  lemma UnsettledFails(e: Evidence, r: Report, t: Trade)
    requires Reports(e, r) && WellFormed(e) && t in e.trades
    requires !Settled(t) || ((t.filledQuantity > 0.0 || t.realFills > 0) && !RoundTrip(t))
    ensures r.status == Fail
  {
    SettledIsInOrder(t);
    NoFailures(e, r);
    assert !NothingFails(e);
  }

  /** A PASS rests on settled trades alone, with a round trip for each symbol and each exit. */
  lemma PassedTrades(e: Evidence, r: Report)
    requires Reports(e, r) && r.status == Pass
    ensures e.Evidence?
    ensures forall t :: t in e.trades ==> Settled(t) && t.marketableIoc && t.nextBarMarket
                                          && (t.filledQuantity > 0.0 || t.realFills > 0 ==> RoundTrip(t))
    ensures Traded(e.trades, Btc) && Traded(e.trades, Eth) && Traded(e.trades, Sol) && Traded(e.trades, Bnb)
    ensures Traded(e.trades, Xrp)
    ensures EndedBy(e.trades, Stop) && EndedBy(e.trades, Target) && EndedBy(e.trades, Timeout)
  {
    PassIsAcceptable(e, r);
    forall t | t in e.trades
      ensures Settled(t) && t.marketableIoc && t.nextBarMarket
      ensures t.filledQuantity > 0.0 || t.realFills > 0 ==> RoundTrip(t)
    {
      assert TradeAcceptable(t);
      SettledIsInOrder(t);
    }
    CoveredIsTraded(e.trades);
  }

  lemma CoveredIsTraded(trades: seq<Trade>)
    requires Covered(trades)
    ensures Traded(trades, Btc) && Traded(trades, Eth) && Traded(trades, Sol) && Traded(trades, Bnb) && Traded(trades, Xrp)
    ensures EndedBy(trades, Stop) && EndedBy(trades, Target) && EndedBy(trades, Timeout)
  {
    forall t ensures RoundTrip(t) <==> ProtectedFlat(t) {
      RoundTripIsProtected(t);
    }
    assert forall s :: s in EXPECTED_SYMBOLS ==> Traded(trades, s);
    assert forall x :: x in REQUIRED_EXITS ==> EndedBy(trades, x);
  }

  /** No text is empty, no listed value stands twice, and no count or quantity is below zero. */
  predicate TradeShaped(t: Trade) {
    && t.symbol != OtherSymbol("") && t.venueSymbol != OtherVenue("") && t.exchange != ""
    && OtherLabel("") !in {t.tradingMode, t.profile, t.strategy, t.revision} && t.state != OtherState("")
    && OtherEvent("") !in t.eventTypes && OtherReason("") !in t.exitReasons
    && (forall i, j :: 0 <= i < |t.eventTypes| && 0 <= j < |t.eventTypes| && i != j ==> t.eventTypes[i] != t.eventTypes[j])
    && (forall i, j :: 0 <= i < |t.exitReasons| && 0 <= j < |t.exitReasons| && i != j ==>
          t.exitReasons[i] != t.exitReasons[j])
    && !(t.filledQuantity < 0.0) && !(t.publicEvents < 0) && !(t.expectedPublicEvents < 0)
    && !(t.internalFailures < 0) && !(t.cancelEffects < 0) && !(t.realFills < 0)
  }

  predicate Shaped(e: Evidence) {
    && e.Evidence? && e.schemaVersion == 1
    && "" !in {e.scope.environment, e.scope.tradingMode, e.scope.profile, e.scope.exchange, e.scope.account}
    && !(e.recovery.epoch < 0) && !(e.integrity.prepared < 0) && !(e.integrity.failed < 0)
    && !(e.integrity.duplicates < 0) && !(e.integrity.foreignTrades < 0) && !(e.integrity.foreignEffects < 0)
    && !(e.integrity.cancelEffects < 0) && !(e.integrity.realFills < 0) && !(e.integrity.publicFailures < 0)
    && forall t :: t in e.trades ==> TradeShaped(t)
  }

  lemma DistinctMeans<T>(items: seq<T>)
    ensures Distinct(items) <==> forall i, j :: 0 <= i < |items| && 0 <= j < |items| && i != j ==> items[i] != items[j]
  {
  }

  lemma TradeIsShaped(t: Trade)
    ensures TradeValid(t) <==> TradeShaped(t)
  {
    DistinctMeans(t.eventTypes);
    DistinctMeans(t.exitReasons);
  }

  /** The fixed report is given exactly for evidence that is not of this shape. */
  lemma MalformedIsInvalid(e: Evidence, r: Report)
    requires Reports(e, r)
    ensures r == INVALID <==> !Shaped(e)
  {
    forall t ensures TradeValid(t) <==> TradeShaped(t) {
      TradeIsShaped(t);
    }
    assert Shaped(e) <==> WellFormed(e);
    if WellFormed(e) {
      assert !Fails(e, EvidenceSchemaInvalid) && EvidenceSchemaInvalid in INVALID.failures;
    }
  }

  /** The dedicated scope: the one environment and venue, and an account of its own. */
  predicate Dedicated(s: Scope) {
    && s.environment in {"paper:EVEDEX:DEV:PAPER", "paper-dev:EVEDEX:DEV:PAPER"}
    && s.tradingMode == "PAPER" && s.profile == "DEV" && |s.exchange| == 6
    && (forall i :: 0 <= i < 6 ==> s.exchange[i] == "evedex"[i] || s.exchange[i] == "EVEDEX"[i])
    && |s.account| > 17 && s.account[..17] == "kairos-paper-dev-" && |s.account| <= 65 && PlainName(s.account[17..])
  }

  lemma DedicatedIsOk(s: Scope)
    ensures Dedicated(s) <==> ScopeOk(s)
  {
    EvedexLetters(s.exchange);
    if |s.account| > 17 && s.account[..17] == "kairos-paper-dev-" {
      assert s.account == "kairos-paper-dev-" + s.account[17..];
      AccountMeans(s.account[17..]);
    } else if AccountOk(s.account) {
      AccountHasPrefix(s.account);
    }
  }

  /** What of the snapshot, apart from its trades, a PASS rests on; without any of it the report is no PASS. */
  lemma PassedSnapshot(e: Evidence, r: Report)
    requires Reports(e, r) && e.Evidence?
    ensures r.status == Pass <==>
              && e.schemaVersion == 1 && Dedicated(e.scope)
              && e.recovery.present && e.recovery.completed && !e.recovery.entriesBlocked && e.recovery.epoch >= 2
              && e.recovery.crossed
              && e.integrity == Integrity(0, 0, 0, 0, 0, e.integrity.cancelEffects, e.integrity.realFills, 0)
              && e.integrity.cancelEffects > 0 && e.integrity.realFills > 0
              && Sum(RealFills, e.trades) == e.integrity.realFills
              && Sum(CancelEffects, e.trades) == e.integrity.cancelEffects
              && (forall t :: t in e.trades ==> TradeAcceptable(t)) && Covered(e.trades)
  {
    PassIsAcceptable(e, r);
    DedicatedIsOk(e.scope);
  }

  predicate Traded(trades: seq<Trade>, s: Symbol) {
    exists t :: t in trades && t.symbol == s && RoundTrip(t)
  }

  predicate EndedBy(trades: seq<Trade>, x: ExitReason) {
    exists t :: t in trades && t.exitReasons == [x] && RoundTrip(t)
  }

  /** What an accepted account is: the prefix and a plain name. */
  lemma AccountHasPrefix(s: string)
    requires AccountOk(s)
    ensures s == ACCOUNT_PREFIX + s[17..]
  {
  }

  lemma AccountMeans(name: string)
    ensures AccountOk("kairos-paper-dev-" + name) <==> 1 <= |name| <= 48 && PlainName(name)
  {
    var s := "kairos-paper-dev-" + name;
    assert ACCOUNT_PREFIX <= s && |ACCOUNT_PREFIX| == 17;
    forall i | 0 <= i < |name| ensures name[i] == s[i + 17] {
    }
    assert forall i :: 17 <= i < |s| ==> s[i] == name[i - 17];
  }

  /** Lower-case letters, digits and, between them, dashes. */
  predicate PlainName(name: string) {
    && name != "" && name[0] != '-' && name[|name| - 1] != '-'
    && forall i :: 0 <= i < |name| ==> 'a' <= name[i] <= 'z' || '0' <= name[i] <= '9' || name[i] == '-'
  }
}
