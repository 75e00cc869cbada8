/**
 The qualification journal of the alert channel: one guarded test send per operations root, whatever
 crashes and however many invocations interleave, and the validator that reads the journal back.
 */
module AlertJournal {
  import opened Wrappers

  datatype Stage =
    | PrecheckStarted | IdentityVerified | SendReserved | TransportAccepted | PrecheckFailed | SendOutcomeUnknown

  /** The fields that name the schema, the fixed message and the fixed recipient. */
  datatype Identity = Identity(schemaVersion: int, message: int, bot: int, chat: int, purpose: int)

  const EXPECTED := Identity(1, 0, 0, -100447580288, 0)

  /** `error_category` is missing, null or a category. */
  datatype ErrorField = NoField | NoError | Category(name: string)

  /** One JSON object of the journal; a digest stands for the digested program text. */
  datatype Entry = Entry(
    identity: Identity, implementation: nat, humanAcknowledged: bool, tradingAuthority: bool, stage: Stage,
    sendAttempts: int, getMe: int, getChat: int, sendMessage: int, transportAccepted: bool,
    error: ErrorField, observedAt: Option<int>, messageId: Option<int>)

  /** A line that is not one JSON object is broken. */
  datatype Line = Full(entry: Entry) | Broken

  /** The file: its lines, and whether the last one ends with a newline. */
  datatype Journal = Journal(lines: seq<Line>, terminated: bool)

  // ---- Appending a record, torn or whole.

  /** How much of a record and its newline reached the file. */
  datatype Extent = Nothing | Part | WithoutNewline | Whole

  function Append(j: Journal, entry: Entry, extent: Extent): Journal {
    if extent == Nothing then j
    else if j.terminated then Journal(j.lines + [if extent == Part then Broken else Full(entry)], extent == Whole)
    else if j.lines == [] then j
    else Journal(j.lines[..|j.lines| - 1] + [Broken], extent == Whole)
  }

  // ---- The validator.

  const STAGES: seq<Stage> := [PrecheckStarted, IdentityVerified, SendReserved, TransportAccepted]

  /** What the `i`-th line of a successful journal must say. */
  predicate ExpectedAt(i: nat, e: Entry, messageId: int)
    requires i < 4
  {
    && e.identity == EXPECTED && !e.humanAcknowledged && !e.tradingAuthority
    && e.stage == STAGES[i]
    && e.sendAttempts == (if i >= 2 then 1 else 0)
    && e.getMe == e.getChat == (if i >= 1 then 1 else 0)
    && e.sendMessage == (if i == 3 then 1 else 0)
    && e.transportAccepted == (i == 3)
    && e.messageId == (if i == 3 then Some(messageId) else None)
    && e.error == (if i == 0 then NoField else NoError)
    && e.observedAt.Some? == (i > 0)
  }

  /** The first `k` lines are those of a successful run, in time order, by one implementation. */
  predicate Successful(lines: seq<Line>, k: nat, messageId: int)
    requires k <= 4 && k <= |lines|
  {
    && (forall i :: 0 <= i < k ==> lines[i].Full? && ExpectedAt(i, lines[i].entry, messageId))
    && (forall i :: 0 < i < k ==> lines[i].entry.implementation == lines[0].entry.implementation)
    && (forall i :: 1 < i < k ==> lines[i - 1].entry.observedAt.value <= lines[i].entry.observedAt.value)
  }

  predicate Accepts(j: Journal, messageId: int) {
    messageId > 0 && j.terminated && |j.lines| == 4 && Successful(j.lines, 4, messageId)
  }

  /** The lines of a successful run of one implementation, with the times of its three records. */
  function SuccessLines(implementation: nat, a: int, b: int, c: int, messageId: int): seq<Line> {
    [Full(Entry(EXPECTED, implementation, false, false, PrecheckStarted, 0, 0, 0, 0, false, NoField, None, None)),
     Full(Entry(EXPECTED, implementation, false, false, IdentityVerified, 0, 1, 1, 0, false, NoError, Some(a), None)),
     Full(Entry(EXPECTED, implementation, false, false, SendReserved, 1, 1, 1, 0, false, NoError, Some(b), None)),
     Full(Entry(EXPECTED, implementation, false, false, TransportAccepted, 1, 1, 1, 1, true, NoError, Some(c),
                Some(messageId)))]
  }

  /** A journal is accepted exactly if it is the journal of a successful run, its times in order. */
  lemma AcceptsExactly(j: Journal, messageId: int)
    ensures Accepts(j, messageId) <==>
              && messageId > 0 && j.terminated
              && exists implementation, a, b, c ::
                   a <= b <= c && j.lines == SuccessLines(implementation, a, b, c, messageId)
  {
    if Accepts(j, messageId) {
      AcceptedLines(j, messageId);
    }
    if implementation, a, b, c :| a <= b <= c && j.lines == SuccessLines(implementation, a, b, c, messageId) {
      forall i | 0 <= i < 4 ensures ExpectedAt(i, j.lines[i].entry, messageId) {
      }
    }
  }

  lemma AcceptedLines(j: Journal, messageId: int)
    requires Accepts(j, messageId)
    ensures exists implementation, a, b, c ::
              a <= b <= c && j.lines == SuccessLines(implementation, a, b, c, messageId)
  {
    var l := j.lines;
    forall i | 0 <= i < 4 ensures l[i].Full? && ExpectedAt(i, l[i].entry, messageId) {
    }
    var lines := SuccessLines(l[0].entry.implementation, l[1].entry.observedAt.value, l[2].entry.observedAt.value,
                              l[3].entry.observedAt.value, messageId);
    forall i | 0 <= i < 4 ensures l[i] == lines[i] {
    }
    assert l == lines;
  }

  /** `_validated_terminal_journal`. */
  method ValidatedTerminalJournal(j: Journal, messageId: int) returns (ok: bool)
    ensures ok <==> Accepts(j, messageId)
  {
    if messageId <= 0 || !j.terminated || |j.lines| != 4 {
      return false;
    }
    if exists i :: 0 <= i < 4 && j.lines[i].Broken? {
      return false;
    }
    var previous: Option<int> := None;
    for index := 0 to 4
      invariant forall i :: 0 <= i < index ==> ExpectedAt(i, j.lines[i].entry, messageId)
      invariant forall i :: 1 < i < index ==>
                  j.lines[i - 1].entry.observedAt.value <= j.lines[i].entry.observedAt.value
      invariant previous == if index <= 1 then None else j.lines[index - 1].entry.observedAt
    {
      var entry := j.lines[index].entry;
      if !ExpectedAt(index, entry, messageId) {
        return false;
      }
      if index > 0 {
        if previous.Some? && entry.observedAt.value < previous.value {
          return false;
        }
        previous := entry.observedAt;
      }
    }
    return forall i :: 1 <= i < 4 ==> j.lines[i].entry.implementation == j.lines[0].entry.implementation;
  }

  // ---- The sender as a step machine over the shared operations root.

  datatype Pc =
    | Starting | Identifying | RecordingIdentity | Reserving | Posting | AwaitingResponse
    | RecordingAcceptance(messageId: int) | RecordingFailure(sending: bool, known: Option<int>)
    | Finished | Stopped

  /** `posts` lists the invocations that called `sendMessage`; `response` is the validated answer, if any. */
  datatype World = World(
    journal: Option<Journal>, owner: Option<nat>, procs: map<nat, Pc>, implementation: nat, clock: int,
    posts: seq<nat>, response: Option<int>)

  datatype Event =
    /** Create or append a record; it may be torn, and may fail although it was written. */
    | Write(extent: Extent, ok: bool, elapsed: nat)
    /** Token, `getMe` and `getChat`. */
    | Identify(ok: bool)
    | Post
    | Respond(messageId: Option<int>)
    | Crash

  function Blank(w: World, stage: Stage): Entry {
    Entry(EXPECTED, w.implementation, false, false, stage, 0, 0, 0, 0, false, NoField, None, None)
  }

  function Observed(e: Entry, at: int, error: ErrorField): Entry {
    e.(observedAt := Some(at), error := error)
  }

  function VerifiedEntry(w: World): Entry {
    Observed(Blank(w, IdentityVerified).(getMe := 1, getChat := 1), w.clock, NoError)
  }

  function ReservedEntry(w: World): Entry {
    Observed(Blank(w, SendReserved).(getMe := 1, getChat := 1, sendAttempts := 1), w.clock, NoError)
  }

  function AcceptedEntry(w: World, messageId: int): Entry {
    Observed(Blank(w, TransportAccepted).(getMe := 1, getChat := 1, sendAttempts := 1, sendMessage := 1,
             transportAccepted := true, messageId := Some(messageId)), w.clock, NoError)
  }

  /** The counters of a failure record depend on how far the run came; only its stage matters below. */
  function FailureEntry(w: World, sending: bool, messageId: Option<int>): Entry {
    Observed(Blank(w, if sending then SendOutcomeUnknown else PrecheckFailed).(messageId := messageId),
             w.clock, Category("FAILED"))
  }

  function Go(w: World, p: nat, pc: Pc): World {
    w.(procs := w.procs[p := pc])
  }

  /** A record that fails leads to the failure record, one that succeeds to the next step. */
  function Record(w: World, p: nat, entry: Entry, extent: Extent, ok: bool, next: Pc, failed: Pc): World
    requires w.journal.Some?
  {
    Go(w.(journal := Some(Append(w.journal.value, entry, extent))), p, if ok && extent == Whole then next else failed)
  }

  /** The record, if any, that an invocation at `pc` writes next. */
  function Written(w: World, p: nat, pc: Pc, extent: Extent, ok: bool): World {
    if pc == Starting then
      // `_exclusive`: an existing journal is never touched.
      if w.journal.Some? then Go(w, p, Stopped)
      else Record(w.(journal := Some(Journal([], true)), owner := Some(p)), p, Blank(w, PrecheckStarted),
                  extent, ok, Identifying, Stopped)
    else if w.journal.None? then w
    else match pc
      case RecordingIdentity =>
        Record(w, p, VerifiedEntry(w), extent, ok, Reserving, RecordingFailure(false, None))
      case Reserving =>
        Record(w, p, ReservedEntry(w), extent, ok, Posting, RecordingFailure(false, None))
      case RecordingAcceptance(m) =>
        Record(w, p, AcceptedEntry(w, m), extent, ok, Finished, RecordingFailure(true, Some(m)))
      case RecordingFailure(sending, known) =>
        Record(w, p, FailureEntry(w, sending, known), extent, ok, Stopped, Stopped)
      case _ => w
  }

  /** One step of invocation `p`; an event that does not apply changes nothing. */
  function Step(w: World, p: nat, event: Event): World {
    var pc := if p in w.procs then w.procs[p] else Starting;
    match event
    case Crash => Go(w, p, Stopped)
    case Write(extent, ok, elapsed) => Written(w.(clock := w.clock + elapsed), p, pc, extent, ok)
    case Identify(ok) =>
      if pc == Identifying then Go(w, p, if ok then RecordingIdentity else RecordingFailure(false, None)) else w
    case Post =>
      if pc == Posting then Go(w.(posts := w.posts + [p]), p, AwaitingResponse) else w
    case Respond(messageId) =>
      if pc != AwaitingResponse then w
      else if messageId.Some? && messageId.value > 0 then
        Go(w.(response := messageId), p, RecordingAcceptance(messageId.value))
      else Go(w, p, RecordingFailure(true, None))
  }

  function Run(w: World, events: seq<(nat, Event)>): World {
    if events == [] then w
    else Step(Run(w, events[..|events| - 1]), events[|events| - 1].0, events[|events| - 1].1)
  }

  predicate Initial(w: World) {
    w.journal.None? && w.owner.None? && w.procs == map[] && w.posts == [] && w.response.None?
  }

  // ---- What every step keeps.

  /** The journal holds exactly the first `k` records of a successful run. */
  predicate Holds(w: World, k: nat, messageId: int)
    requires k <= 4
  {
    && w.journal.Some? && w.journal.value.terminated && |w.journal.value.lines| == k
    && Successful(w.journal.value.lines, k, messageId)
    && (k > 0 ==> w.journal.value.lines[0].entry.implementation == w.implementation)
    && (k > 1 ==> w.journal.value.lines[k - 1].entry.observedAt.value <= w.clock)
  }

  /** A completed reservation record, which later appends cannot touch. */
  predicate Reserved(w: World) {
    && w.journal.Some? && |w.journal.value.lines| >= 3
    && (|w.journal.value.lines| == 3 ==> w.journal.value.terminated)
    && w.journal.value.lines[2].Full? && w.journal.value.lines[2].entry.stage == SendReserved
  }

  predicate PcInvariant(w: World, pc: Pc) {
    match pc
    case Starting => true
    case Identifying => Holds(w, 1, 0) && w.posts == []
    case RecordingIdentity => Holds(w, 1, 0) && w.posts == []
    case Reserving => Holds(w, 2, 0) && w.posts == []
    case Posting => Holds(w, 3, 0) && w.posts == []
    case AwaitingResponse => Holds(w, 3, 0) && |w.posts| == 1
    case RecordingAcceptance(m) => Holds(w, 3, 0) && w.response == Some(m) && |w.posts| == 1 && m > 0
    case RecordingFailure(sending, _) => !sending ==> w.posts == []
    case Finished => w.response.Some? && w.response.value > 0 && Holds(w, 4, w.response.value)
    case Stopped => true
  }

  predicate Invariant(w: World) {
    && (w.journal.None? ==> w.owner.None? && w.posts == [])
    && (w.journal.Some? ==> w.owner.Some?)
    && (forall p :: p in w.procs && Some(p) != w.owner ==> w.procs[p] == Starting || w.procs[p] == Stopped)
    && (forall p :: p in w.procs && Some(p) == w.owner ==> PcInvariant(w, w.procs[p]) && w.procs[p] != Starting)
    && (w.owner.Some? ==> w.owner.value in w.procs)
    && |w.posts| <= 1
    && (w.posts != [] ==> Some(w.posts[0]) == w.owner && Reserved(w))
    && (w.journal.Some? ==>
          && (w.journal.value.lines == [] ==> w.journal.value.terminated)
          && forall i :: 0 <= i < |w.journal.value.lines| && Claims(w.journal.value.lines[i]) ==>
               |w.posts| == 1 && w.response == w.journal.value.lines[i].entry.messageId)
  }

  /** The line says that the transport accepted the message. */
  predicate Claims(line: Line) {
    line.Full? && line.entry.stage == TransportAccepted
  }

  lemma HoldsIgnoresMessage(w: World, k: nat, a: int, b: int)
    requires k <= 3 && Holds(w, k, a)
    ensures Holds(w, k, b)
  {
    assert forall i :: 0 <= i < k ==> ExpectedAt(i, w.journal.value.lines[i].entry, b);
  }

  /** Appending the next record of a successful run, whole. */
  lemma HoldsNext(w: World, k: nat, entry: Entry, messageId: int)
    requires k < 4 && Holds(w, k, messageId) && ExpectedAt(k, entry, messageId)
    requires entry.implementation == w.implementation && (k > 0 ==> entry.observedAt == Some(w.clock))
    ensures Holds(w.(journal := Some(Append(w.journal.value, entry, Whole))), k + 1, messageId)
  {
  }

  /** Appending anything but an acceptance keeps the reservation and every claim. */
  lemma AppendKeeps(w: World, entry: Entry, extent: Extent)
    requires w.journal.Some? && entry.stage != TransportAccepted
    requires w.journal.value.lines == [] ==> w.journal.value.terminated
    ensures var v := w.(journal := Some(Append(w.journal.value, entry, extent)));
            && (Reserved(w) ==> Reserved(v))
            && (v.journal.value.lines == [] ==> v.journal.value.terminated)
            && forall i :: 0 <= i < |v.journal.value.lines| && Claims(v.journal.value.lines[i]) ==>
                 i < |w.journal.value.lines| && v.journal.value.lines[i] == w.journal.value.lines[i]
  {
  }

  lemma CrashKeeps(w: World, p: nat)
    requires Invariant(w)
    ensures Invariant(Step(w, p, Crash))
  {
  }

  lemma IdentifyKeeps(w: World, p: nat, ok: bool)
    requires Invariant(w)
    ensures Invariant(Step(w, p, Identify(ok)))
  {
  }

  lemma PostKeeps(w: World, p: nat)
    requires Invariant(w)
    ensures Invariant(Step(w, p, Post))
    ensures Step(w, p, Post).posts != w.posts ==> w.posts == [] && Reserved(w)
  {
  }

  lemma RespondKeeps(w: World, p: nat, messageId: Option<int>)
    requires Invariant(w)
    ensures Invariant(Step(w, p, Respond(messageId)))
  {
  }

  lemma CreateKeeps(w: World, p: nat, extent: Extent, ok: bool)
    requires Invariant(w) && (p in w.procs ==> w.procs[p] == Starting)
    ensures Invariant(Written(w, p, Starting, extent, ok))
  {
    if w.journal.None? {
      var v := w.(journal := Some(Journal([], true)), owner := Some(p));
      HoldsNext(v, 0, Blank(v, PrecheckStarted), 0);
      AppendKeeps(v, Blank(v, PrecheckStarted), extent);
    }
  }

  /** The owner appends a record that claims nothing. */
  lemma RecordKeeps(w: World, p: nat, entry: Entry, extent: Extent, ok: bool, next: Pc, failed: Pc)
    requires Invariant(w) && w.journal.Some? && w.owner == Some(p) && entry.stage != TransportAccepted
    requires failed == Stopped || (failed.RecordingFailure? && !failed.sending && w.posts == [])
    requires next == Stopped
          || (next != Starting && PcInvariant(w.(journal := Some(Append(w.journal.value, entry, Whole))), next))
    ensures Invariant(Record(w, p, entry, extent, ok, next, failed))
  {
    AppendKeeps(w, entry, extent);
  }

  /** Appending an acceptance behind a completed reservation keeps it; no line before it is an acceptance. */
  lemma AppendAcceptance(w: World, messageId: int, extent: Extent)
    requires Holds(w, 3, messageId)
    ensures var v := w.(journal := Some(Append(w.journal.value, AcceptedEntry(w, messageId), extent)));
            && Reserved(v) && v.journal.value.lines != []
            && forall i :: 0 <= i < |v.journal.value.lines| && Claims(v.journal.value.lines[i]) ==>
                 v.journal.value.lines[i].entry.messageId == Some(messageId)
  {
    var lines := w.journal.value.lines;
    assert forall i :: 0 <= i < 3 ==> ExpectedAt(i, lines[i].entry, messageId);
  }

  /** The owner appends the acceptance of a validated response. */
  lemma AcceptanceKeeps(w: World, p: nat, messageId: int, extent: Extent, ok: bool)
    requires Invariant(w) && w.owner == Some(p) && w.procs[p] == RecordingAcceptance(messageId)
    ensures Invariant(Record(w, p, AcceptedEntry(w, messageId), extent, ok, Finished,
                             RecordingFailure(true, Some(messageId))))
  {
    HoldsIgnoresMessage(w, 3, 0, messageId);
    AppendAcceptance(w, messageId, extent);
    if ok && extent == Whole {
      HoldsNext(w, 3, AcceptedEntry(w, messageId), messageId);
    }
  }

  lemma ClockKeeps(w: World, elapsed: nat)
    requires Invariant(w)
    ensures Invariant(w.(clock := w.clock + elapsed))
  {
    var v := w.(clock := w.clock + elapsed);
    assert w.owner.Some? ==> PcInvariant(w, w.procs[w.owner.value]) ==> PcInvariant(v, w.procs[w.owner.value]);
  }

  /** The two records before the send. */
  lemma ProgressKeeps(w: World, p: nat, extent: Extent, ok: bool)
    requires Invariant(w) && w.owner == Some(p)
    ensures w.procs[p] == RecordingIdentity ==>
              Invariant(Record(w, p, VerifiedEntry(w), extent, ok, Reserving, RecordingFailure(false, None)))
    ensures w.procs[p] == Reserving ==>
              Invariant(Record(w, p, ReservedEntry(w), extent, ok, Posting, RecordingFailure(false, None)))
  {
    if w.procs[p] == RecordingIdentity {
      HoldsNext(w, 1, VerifiedEntry(w), 0);
      RecordKeeps(w, p, VerifiedEntry(w), extent, ok, Reserving, RecordingFailure(false, None));
    }
    if w.procs[p] == Reserving {
      HoldsNext(w, 2, ReservedEntry(w), 0);
      RecordKeeps(w, p, ReservedEntry(w), extent, ok, Posting, RecordingFailure(false, None));
    }
  }

  lemma FailureKeeps(w: World, p: nat, extent: Extent, ok: bool)
    requires Invariant(w) && w.owner == Some(p)
    ensures w.procs[p].RecordingFailure? ==>
              Invariant(Record(w, p, FailureEntry(w, w.procs[p].sending, w.procs[p].known), extent, ok,
                               Stopped, Stopped))
  {
    if w.procs[p].RecordingFailure? {
      RecordKeeps(w, p, FailureEntry(w, w.procs[p].sending, w.procs[p].known), extent, ok, Stopped, Stopped);
    }
  }

  /** A record written by an invocation that is under way. */
  lemma AppendRecordKeeps(w: World, p: nat, extent: Extent, ok: bool)
    requires Invariant(w) && p in w.procs && w.procs[p] != Starting
    ensures Invariant(Written(w, p, w.procs[p], extent, ok))
  {
    match w.procs[p]
    case RecordingIdentity => ProgressKeeps(w, p, extent, ok);
    case Reserving => ProgressKeeps(w, p, extent, ok);
    case RecordingAcceptance(m) => AcceptanceKeeps(w, p, m, extent, ok);
    case RecordingFailure(_, _) => FailureKeeps(w, p, extent, ok);
    case _ =>
  }

  lemma WrittenKeeps(w: World, p: nat, extent: Extent, ok: bool)
    requires Invariant(w)
    ensures Invariant(Written(w, p, if p in w.procs then w.procs[p] else Starting, extent, ok))
  {
    if p in w.procs && w.procs[p] != Starting {
      AppendRecordKeeps(w, p, extent, ok);
    } else {
      CreateKeeps(w, p, extent, ok);
    }
  }

  lemma WriteKeeps(w: World, p: nat, extent: Extent, ok: bool, elapsed: nat)
    requires Invariant(w)
    ensures Invariant(Step(w, p, Write(extent, ok, elapsed)))
  {
    ClockKeeps(w, elapsed);
    WrittenKeeps(w.(clock := w.clock + elapsed), p, extent, ok);
    WriteIsWritten(w, p, extent, ok, elapsed);
  }

  lemma WriteIsWritten(w: World, p: nat, extent: Extent, ok: bool, elapsed: nat)
    ensures var pc := if p in w.procs then w.procs[p] else Starting;
            Step(w, p, Write(extent, ok, elapsed)) == Written(w.(clock := w.clock + elapsed), p, pc, extent, ok)
  {
  }

  lemma StepKeeps(w: World, p: nat, event: Event)
    requires Invariant(w)
    ensures Invariant(Step(w, p, event))
  {
    match event
    case Crash => CrashKeeps(w, p);
    case Identify(ok) => IdentifyKeeps(w, p, ok);
    case Post => PostKeeps(w, p);
    case Respond(m) => RespondKeeps(w, p, m);
    case Write(extent, ok, elapsed) => WriteKeeps(w, p, extent, ok, elapsed);
  }

  lemma {:induction false} RunKeeps(w: World, events: seq<(nat, Event)>)
    requires Initial(w)
    ensures Invariant(Run(w, events))
    decreases |events|
  {
    if events != [] {
      var last := events[|events| - 1];
      RunKeeps(w, events[..|events| - 1]);
      StepKeeps(Run(w, events[..|events| - 1]), last.0, last.1);
    }
  }

  // ---- The guarantees, over every run of any number of invocations.

  /** A step that posts finds nothing posted and the reservation complete. */
  lemma PostNeedsReservation(w: World, p: nat, event: Event)
    requires Invariant(w)
    ensures Step(w, p, event).posts != w.posts ==> w.posts == [] && Reserved(w)
  {
    if event.Post? {
      PostKeeps(w, p);
    }
  }

  /**
   At most one message is ever posted, and when it is, the reservation was already complete in the journal
   before the step that posted it.
   */
  lemma AtMostOneSend(w: World, events: seq<(nat, Event)>)
    requires Initial(w)
    ensures |Run(w, events).posts| <= 1
    ensures events != [] && Run(w, events).posts != Run(w, events[..|events| - 1]).posts ==>
              Run(w, events[..|events| - 1]).posts == [] && Reserved(Run(w, events[..|events| - 1]))
  {
    RunKeeps(w, events);
    if events != [] {
      RunKeeps(w, events[..|events| - 1]);
      var before, last := Run(w, events[..|events| - 1]), events[|events| - 1];
      PostNeedsReservation(before, last.0, last.1);
    }
  }

  /** A journal the validator accepts comes from a run whose one send was answered with that message id. */
  lemma AcceptedMeansAnswered(w: World, events: seq<(nat, Event)>, messageId: int)
    requires Initial(w)
    requires var v := Run(w, events); v.journal.Some? && Accepts(v.journal.value, messageId)
    ensures |Run(w, events).posts| == 1 && Run(w, events).response == Some(messageId)
  {
    RunKeeps(w, events);
    var v := Run(w, events);
    assert ExpectedAt(3, v.journal.value.lines[3].entry, messageId);
    assert Claims(v.journal.value.lines[3]);
  }

  /** The journal of every fully recorded run is accepted, with the message id that was answered. */
  lemma FinishedIsAccepted(w: World, events: seq<(nat, Event)>, p: nat)
    requires Initial(w)
    requires var v := Run(w, events); p in v.procs && v.procs[p] == Finished
    ensures var v := Run(w, events);
            v.journal.Some? && v.response.Some? && Accepts(v.journal.value, v.response.value)
  {
    RunKeeps(w, events);
  }

  /** The journal is append-only: a completed line stays, and the file is never removed. */
  lemma JournalOnlyGrows(w: World, p: nat, event: Event)
    requires Invariant(w) && w.journal.Some?
    ensures var v := Step(w, p, event);
            && v.journal.Some? && v.owner == w.owner
            && (w.journal.value.terminated ==> w.journal.value.lines <= v.journal.value.lines)
            && (!w.journal.value.terminated ==>
                  w.journal.value.lines[..|w.journal.value.lines| - 1] <= v.journal.value.lines)
  {
  }

  // ---- The operator's acknowledgement.

  /** A receipt binds the journal, the message id and the moment; the flags are fixed. */
  datatype Receipt = Receipt(
    journal: Journal, messageId: int, humanAcknowledged: bool, userAuthenticated: bool,
    operationallyQualified: bool, tradingAuthority: bool, attestedAt: int)

  datatype ReceiptFile = Complete(receipt: Receipt) | Torn

  function TerminalTime(j: Journal): int
    requires |j.lines| == 4 && j.lines[3].Full? && j.lines[3].entry.observedAt.Some?
  {
    j.lines[3].entry.observedAt.value
  }

  /** What `read_acknowledgement` accepts. */
  predicate ReadAccepts(journal: Option<Journal>, file: Option<ReceiptFile>, expected: Journal, messageId: int) {
    && journal == Some(expected) && Accepts(expected, messageId)
    && file.Some? && file.value.Complete?
    && file.value.receipt == Receipt(expected, messageId, true, false, false, false, file.value.receipt.attestedAt)
    && TerminalTime(expected) <= file.value.receipt.attestedAt
  }

  class OpsRoot {
    var journal: Option<Journal>
    var acknowledgement: Option<ReceiptFile>

    method ReadAcknowledgement(expected: Journal, messageId: int) returns (receipt: Option<Receipt>)
      ensures receipt.Some? <==> ReadAccepts(journal, acknowledgement, expected, messageId)
      ensures receipt.Some? ==> acknowledgement == Some(Complete(receipt.value))
    {
      if messageId <= 0 || journal != Some(expected) {
        return None;
      }
      var valid := ValidatedTerminalJournal(expected, messageId);
      if !valid || acknowledgement.None? || acknowledgement.value.Torn? {
        return None;
      }
      var found := acknowledgement.value.receipt;
      if found.journal != expected || found.messageId != messageId || !found.humanAcknowledged
         || found.userAuthenticated || found.operationallyQualified || found.tradingAuthority
         || found.attestedAt < expected.lines[3].entry.observedAt.value {
        return None;
      }
      return Some(found);
    }

    /**
     A receipt is written exactly for a confirmed acknowledgement of the accepted journal, not earlier than its
     terminal record, where there is none yet. Reading a whole one back with the same binding accepts it; the
     journal is not touched.
     */
    method Acknowledge(expected: Journal, messageId: int, confirmed: bool, now: int) returns (receipt: Option<Receipt>)
      modifies this`acknowledgement
      ensures old(acknowledgement).Some? ==> acknowledgement == old(acknowledgement) && receipt.None?
      ensures receipt.Some? ==> acknowledgement == Some(Complete(receipt.value)) && confirmed
      ensures receipt.Some? ==> receipt.value.messageId == messageId && receipt.value.attestedAt == now
      ensures acknowledgement != old(acknowledgement) ==>
                acknowledgement == Some(Torn) || ReadAccepts(journal, acknowledgement, expected, messageId)
      ensures receipt.Some? ==> ReadAccepts(journal, acknowledgement, expected, messageId)
      ensures acknowledgement != old(acknowledgement) <==>
                && old(acknowledgement).None? && confirmed && journal == Some(expected) && Accepts(expected, messageId)
                && expected.lines[3].entry.observedAt.value <= now
      ensures acknowledgement != old(acknowledgement) ==> (receipt.Some? <==> acknowledgement != Some(Torn))
    {
      if !confirmed || messageId <= 0 || journal != Some(expected) {
        return None;
      }
      var valid := ValidatedTerminalJournal(expected, messageId);
      if !valid || now < expected.lines[3].entry.observedAt.value || acknowledgement.Some? {
        return None;
      }
      var whole: bool := *;
      if !whole {
        acknowledgement := Some(Torn);
        return None;
      }
      acknowledgement := Some(Complete(Receipt(expected, messageId, true, false, false, false, now)));
      receipt := ReadAcknowledgement(expected, messageId);
    }
  }
}
