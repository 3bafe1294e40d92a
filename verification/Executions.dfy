/** Execution records and events: the states of an execution, the allowed changes of state,
    and when a record or an event is well formed. */
module Executions {
  import opened Wrappers

  datatype State = Starting | Running | Cancelling | Succeeded | Failed | Cancelled | TimedOut | Crashed
  {
    predicate IsTerminal() {
      this != Starting && this != Running && this != Cancelling
    }
  }

  datatype Reason =
    | UserCancelled | ClientCancelled | ServerShutdown
    | Timeout
    | WorkspaceLimitExceeded | ArtifactLimitExceeded | ArtifactPolicyViolation | OutputLimitExceeded
    | ArtifactCollectionFailed | RuntimeStartFailed | RuntimeMonitorFailed | CleanupFailed | ServerRestarted
  {
    predicate IsCancellation() {
      this == UserCancelled || this == ClientCancelled || this == ServerShutdown
    }

    predicate IsFailure() {
      || this == WorkspaceLimitExceeded || this == ArtifactLimitExceeded
      || this == ArtifactPolicyViolation || this == OutputLimitExceeded
    }

    predicate IsCrash() {
      || this == ArtifactCollectionFailed || this == RuntimeStartFailed || this == RuntimeMonitorFailed
      || this == CleanupFailed || this == ServerRestarted
    }
  }

  datatype Kind = Task | Profile

  datatype Mode = Run | Service

  /** The transition table. */
  predicate Allowed(from: State, to: State) {
    match from
    case Starting => to == Running || to == Cancelling || to == TimedOut || to == Crashed
    case Running => to == Succeeded || to == Failed || to == Cancelling || to == TimedOut || to == Crashed
    case Cancelling => to == Cancelled || to == TimedOut || to == Crashed
    case _ => false
  }

  /** The text the server publishes about a crash. */
  function PublicSummary(state: State, reason: Option<Reason>): Option<string> {
    if state != Crashed || reason.None? then None else
      match reason.value
      case RuntimeStartFailed => Some("execution runtime failed to start")
      case RuntimeMonitorFailed => Some("execution runtime monitor failed")
      case ArtifactCollectionFailed => Some("artifact collection failed")
      case CleanupFailed => Some("execution runtime cleanup failed")
      case ServerRestarted => Some("execution interrupted by server restart")
      case _ => None
  }

  predicate IsPublic(state: State, reason: Option<Reason>, summary: Option<string>) {
    summary.Some? ==> summary == PublicSummary(state, reason)
  }

  // ----- Records

  function Growth(initial: nat, final: nat): nat {
    if final < initial then 0 else final - initial
  }

  datatype Resources = Resources(wallMillis: nat, cpuMillis: Option<nat>, peakBytes: Option<nat>,
                                 initialBytes: Option<nat>, finalBytes: Option<nat>, growthBytes: Option<nat>,
                                 stdoutBytes: nat, stderrBytes: nat, outputBytes: nat)
  {
    predicate Valid() {
      && outputBytes == stdoutBytes + stderrBytes
      && (finalBytes.None? ==> growthBytes.None?)
      && (finalBytes.Some? ==> initialBytes.Some? && growthBytes == Some(Growth(initialBytes.value, finalBytes.value)))
    }
  }

  datatype Record = Record(id: string, kind: Kind, name: string, tool: Option<string>, mode: Mode, state: State,
                           createdAt: real, updatedAt: real, startedAt: Option<real>, finishedAt: Option<real>,
                           exitCode: Option<int>, reason: Option<Reason>, summary: Option<string>,
                           resources: Option<Resources>)
  {
    predicate Valid() {
      && Named()
      && Timed()
      && Ended()
      && Explained()
      && IsPublic(state, reason, summary)
      && (resources.Some? ==> resources.value.Valid())
    }

    predicate Named() {
      1 <= |id| <= 128 && 1 <= |name| <= 256 && (tool.Some? ==> 1 <= |tool.value| <= 128)
    }

    predicate Timed() {
      && createdAt <= updatedAt
      && (startedAt.Some? ==> createdAt <= startedAt.value <= updatedAt)
      && (finishedAt.Some? ==> startedAt.GetOr(createdAt) <= finishedAt.value <= updatedAt)
    }

    predicate Ended() {
      if state.IsTerminal() then finishedAt.Some?
      else finishedAt.None? && exitCode.None? && resources.None?
    }

    predicate Explained() {
      match state
      case Starting => startedAt.None? && reason.None?
      case Running => startedAt.Some? && reason.None?
      case Cancelling => startedAt.Some? && reason.Some? && reason.value.IsCancellation()
      case Succeeded => startedAt.Some? && reason.None? && exitCode == Some(0)
      case Failed =>
        startedAt.Some? &&
        (if reason.None? then exitCode.Some? && exitCode.value != 0 else reason.value.IsFailure())
      case Cancelled => startedAt.Some? && reason.Some? && reason.value.IsCancellation()
      case TimedOut => reason == Some(Timeout)
      case Crashed =>
        && reason.Some? && reason.value.IsCrash()
        && (startedAt.None? ==> reason.value == RuntimeStartFailed || reason.value == ServerRestarted)
    }
  }

  // ----- Events

  datatype EventKind = Created | CancellationRequested | StateTransition

  datatype Event = Event(id: string, sequence: nat, timestamp: real, kind: EventKind, from: Option<State>, to: State,
                         reason: Option<Reason>, summary: Option<string>)
  {
    predicate Valid() {
      && 1 <= |id| <= 128 && sequence >= 1
      && match kind
         case Created => from.None? && to == Starting && reason.None? && summary.None?
         case CancellationRequested =>
           && from == Some(to) && (to == Starting || to == Running)
           && reason.Some? && reason.value.IsCancellation() && summary.None?
         case StateTransition => from.Some? && Allowed(from.value, to) && Explains() && IsPublic(to, reason, summary)
    }

    predicate Explains() {
      match to
      case Starting => reason.None?
      case Running => reason.None?
      case Succeeded => reason.None?
      case Cancelling => reason.Some? && reason.value.IsCancellation()
      case Cancelled => reason.Some? && reason.value.IsCancellation()
      case Failed => reason.Some? ==> reason.value.IsFailure()
      case TimedOut => reason == Some(Timeout)
      case Crashed => reason.Some? && reason.value.IsCrash()
    }
  }

  // ----- Artifacts

  datatype Artifact = Artifact(id: string, executionId: string, name: string, mediaType: string, size: nat, sha: string, createdAt: real)

  const MAX_MANIFEST_ITEMS := 100

  /** The check of a manifest handed over with a transition. */
  predicate AcceptsManifest(id: string, manifest: Option<seq<Artifact>>, terminal: bool) {
    manifest.Some? ==>
      && terminal && |manifest.value| <= MAX_MANIFEST_ITEMS
      && (forall a :: a in manifest.value ==> a.executionId == id)
      && (forall i, j :: 0 <= i < j < |manifest.value| ==> manifest.value[i].id != manifest.value[j].id)
  }

  // ----- One execution in a store

  datatype StoreError = Duplicate | Unknown | Conflict | IllegalTransition | InvalidRecord | InvalidArgument | Corrupt | Overflow | Database

  datatype Result<+T> = Ok(value: T) | Err(error: StoreError)
  {
    predicate IsFailure() {
      Err?
    }

    function PropagateFailure<U>(): Result<U>
      requires Err?
    {
      Err(error)
    }

    function Extract(): T
      requires Ok?
    {
      value
    }
  }

  datatype Entry = Entry(record: Record, events: seq<Event>, artifacts: seq<Artifact>, complete: bool)

  /** The arguments of `transition` besides the id and the expected states. */
  datatype Change = Change(state: State, reason: Option<Reason>, exitCode: Option<int>, resources: Option<Resources>,
                           manifest: Option<seq<Artifact>>, startedAt: Option<real>, finishedAt: Option<real>)

  function CreatedEvent(r: Record): Event {
    Event(r.id, 1, r.createdAt, Created, None, r.state, r.reason, r.summary)
  }

  function TransitionEvent(current: Record, updated: Record, sequence: nat): Event {
    Event(updated.id, sequence, updated.updatedAt, StateTransition, Some(current.state), updated.state, updated.reason, updated.summary)
  }

  function RequestedEvent(current: Record, reason: Reason, sequence: nat, now: real): Event {
    Event(current.id, sequence, now, CancellationRequested, Some(current.state), current.state, Some(reason), None)
  }

  /** `_transitioned_record`, where `now` is `updated_at` or the clock. */
  function Moved(current: Record, c: Change, now: real): Record {
    var started := if c.startedAt.Some? then c.startedAt else current.startedAt;
    var finished := if c.finishedAt.Some? then c.finishedAt else current.finishedAt;
    current.(
      state := c.state, updatedAt := now,
      startedAt := if (c.state == Running || c.state == Cancelling) && started.None? then Some(now) else started,
      finishedAt := if c.state.IsTerminal() && finished.None? then Some(now) else finished,
      exitCode := c.exitCode, reason := c.reason, summary := PublicSummary(c.state, c.reason), resources := c.resources)
  }

  function Cancellation(reason: Reason): Change {
    Change(Cancelling, Some(reason), None, None, None, None, None)
  }

  function CreateEntry(r: Record): Result<Entry> {
    if CreatedEvent(r).Valid() then Ok(Entry(r, [CreatedEvent(r)], [], false)) else Err(InvalidRecord)
  }

  /** The checks of a transition in their order, for an execution that exists. */
  function TransitionEntry(e: Entry, expected: set<State>, c: Change, now: real): Result<Entry> {
    var r := Moved(e.record, c, now);
    if expected == {} then Err(InvalidArgument)
    else if e.record.state !in expected then Err(Conflict)
    else if !Allowed(e.record.state, c.state) then Err(IllegalTransition)
    else if !r.Valid() then Err(InvalidRecord)
    else if !AcceptsManifest(e.record.id, c.manifest, r.state.IsTerminal()) then Err(InvalidArgument)
    else Ok(Entry(r, e.events + [TransitionEvent(e.record, r, |e.events| + 1)],
                  c.manifest.GetOr(e.artifacts), e.complete || c.manifest.Some?))
  }

  function CancelEntry(e: Entry, expected: set<State>, reason: Reason, now: real): Result<Entry> {
    var r := Moved(e.record, Cancellation(reason), now);
    if expected == {} then Err(InvalidArgument)
    else if e.record.state !in expected then Err(Conflict)
    else if !Allowed(e.record.state, Cancelling) then Err(IllegalTransition)
    else if !r.Valid() then Err(InvalidRecord)
    else Ok(e.(record := r, events := e.events + [RequestedEvent(e.record, reason, |e.events| + 1, now),
                                                  TransitionEvent(e.record, r, |e.events| + 2)]))
  }

  // ----- What is valid, field by field

  const UNFINISHED := {Starting, Running, Cancelling}

  /** From the side of the reason: the states it goes with. */
  predicate ReasonFits(reason: Option<Reason>, state: State) {
    && (reason.None? ==> state in {Starting, Running, Succeeded, Failed})
    && (reason == Some(UserCancelled) || reason == Some(ClientCancelled) || reason == Some(ServerShutdown) ==> state in {Cancelling, Cancelled})
    && (reason == Some(Timeout) ==> state == TimedOut)
    && (reason == Some(WorkspaceLimitExceeded) || reason == Some(ArtifactLimitExceeded) ==> state == Failed)
    && (reason == Some(ArtifactPolicyViolation) || reason == Some(OutputLimitExceeded) ==> state == Failed)
    && (reason == Some(ArtifactCollectionFailed) || reason == Some(CleanupFailed) ==> state == Crashed)
    && (reason == Some(RuntimeStartFailed) || reason == Some(RuntimeMonitorFailed) || reason == Some(ServerRestarted) ==> state == Crashed)
  }

  /** Usage adds up, and growth is told exactly when the final size is known. */
  lemma {:induction false} ValidResources(r: Resources)
    ensures r.Valid() <==>
      && r.stdoutBytes + r.stderrBytes == r.outputBytes
      && (r.growthBytes.Some? <==> r.finalBytes.Some?)
      && (r.growthBytes.Some? ==>
          && r.initialBytes.Some?
          && (r.initialBytes.value <= r.finalBytes.value ==> r.initialBytes.value + r.growthBytes.value == r.finalBytes.value)
          && (r.finalBytes.value < r.initialBytes.value ==> r.growthBytes.value == 0))
  {
  }

  /** Every reason is of one kind, and the kind says which states it goes with. */
  lemma {:induction false} ReasonsFit(state: State, reason: Option<Reason>)
    ensures ReasonFits(reason, state) <==>
      match state
      case Cancelling => reason.Some? && reason.value.IsCancellation()
      case Cancelled => reason.Some? && reason.value.IsCancellation()
      case Failed => reason.Some? ==> reason.value.IsFailure()
      case TimedOut => reason == Some(Timeout)
      case Crashed => reason.Some? && reason.value.IsCrash()
      case _ => reason.None?
  {
    if reason.Some? {
      match reason.value
      case UserCancelled =>
      case ClientCancelled =>
      case ServerShutdown =>
      case Timeout =>
      case _ =>
    }
  }

  /** The times of a record: nothing before its creation, nothing behind its last change, and no end before the start. */
  predicate TimesFit(r: Record) {
    && r.createdAt <= r.updatedAt
    && (r.startedAt.Some? ==> r.createdAt <= r.startedAt.value && r.startedAt.value <= r.updatedAt)
    && (r.finishedAt.Some? ==> r.createdAt <= r.finishedAt.value && r.finishedAt.value <= r.updatedAt)
    && (r.startedAt.Some? && r.finishedAt.Some? ==> r.startedAt.value <= r.finishedAt.value)
  }

  /** What only a start, an end, or a certain end brings. */
  predicate PhaseFits(r: Record) {
    && (r.finishedAt.Some? <==> r.state !in UNFINISHED) && (r.exitCode.Some? || r.resources.Some? ==> r.state !in UNFINISHED)
    && (r.startedAt.None? ==> r.state in {Starting, TimedOut} || (r.state == Crashed && (r.reason == Some(RuntimeStartFailed) || r.reason == Some(ServerRestarted))))
    && (r.state == Starting ==> r.startedAt.None?)
    && (r.state == Succeeded ==> r.exitCode == Some(0)) && (r.state == Failed && r.reason.None? ==> r.exitCode.Some? && r.exitCode != Some(0))
  }

  predicate LengthsFit(r: Record) {
    |r.id| > 0 && |r.id| < 129 && |r.name| > 0 && |r.name| < 257 && (r.tool.Some? ==> |r.tool.value| > 0 && |r.tool.value| < 129)
  }

  /** When a record is valid. */
  lemma {:induction false} ValidRecords(r: Record)
    ensures r.Valid() <==>
      && LengthsFit(r) && TimesFit(r) && PhaseFits(r) && ReasonFits(r.reason, r.state)
      && (r.summary.Some? ==> SummaryPublished(r)) && (r.resources.Some? ==> r.resources.value.Valid())
  {
    ReasonsFit(r.state, r.reason);
    if ReasonFits(r.reason, r.state) {
      SummariesFit(r);
    }
    assert r.Timed() <==> TimesFit(r);
    assert ReasonFits(r.reason, r.state) ==> (r.Ended() && r.Explained() <==> PhaseFits(r));
    assert r.Explained() ==> ReasonFits(r.reason, r.state);
  }

  lemma {:induction false} SummariesFit(r: Record)
    requires ReasonFits(r.reason, r.state)
    ensures r.summary.Some? ==> (IsPublic(r.state, r.reason, r.summary) <==> SummaryPublished(r))
  {
    SummariesArePublished(r.state, r.reason);
  }

  /** The shape of an event of each kind. */
  lemma {:induction false} ValidEvents(e: Event)
    ensures e.Valid() <==>
      && |e.id| > 0 && |e.id| < 129 && e.sequence > 0
      && (e.kind == Created ==> e.from.None? && e.to == Starting && e.reason.None? && e.summary.None?)
      && (e.kind == CancellationRequested ==>
          && e.from == Some(e.to) && (e.to == Starting || e.to == Running) && e.summary.None?
          && (e.reason == Some(UserCancelled) || e.reason == Some(ClientCancelled) || e.reason == Some(ServerShutdown)))
      && (e.kind == StateTransition ==>
          && e.from.Some? && CanFollow(e.from.value, e.to) && ReasonFits(e.reason, e.to)
          && (e.summary.Some? ==> e.to == Crashed && e.summary == PublicSummary(e.to, e.reason)))
  {
    ReasonsFit(e.to, e.reason);
    SummariesArePublished(e.to, e.reason);
    if e.from.Some? {
      FollowsIsAllowed(e.from.value, e.to);
    }
  }

  lemma {:induction false} FollowsIsAllowed(from: State, to: State)
    ensures Allowed(from, to) <==> CanFollow(from, to)
  {
  }

  // ----- What an accepted call records

  /** Who an execution is never changes. */
  predicate SameExecution(r: Record, s: Record) {
    s.id == r.id && s.kind == r.kind && s.name == r.name && s.tool == r.tool && s.mode == r.mode && s.createdAt == r.createdAt
  }

  /** A given time is recorded; without one, what was recorded stays, or else `fallback` is taken. */
  predicate TimeRecorded(given: Option<real>, before: Option<real>, fallback: Option<real>, after: Option<real>) {
    && (given.Some? ==> after == given)
    && (given.None? && before.Some? ==> after == before)
    && (given.None? && before.None? ==> after == fallback)
  }

  /** Only a crash is summarised, and each reason for one in its own words. */
  predicate SummaryPublished(r: Record) {
    && (r.state == Crashed && r.reason == Some(RuntimeStartFailed) ==> r.summary == Some("execution runtime failed to start"))
    && (r.state == Crashed && r.reason == Some(RuntimeMonitorFailed) ==> r.summary == Some("execution runtime monitor failed"))
    && (r.state == Crashed && r.reason == Some(ArtifactCollectionFailed) ==> r.summary == Some("artifact collection failed"))
    && (r.state == Crashed && r.reason == Some(CleanupFailed) ==> r.summary == Some("execution runtime cleanup failed"))
    && (r.state == Crashed && r.reason == Some(ServerRestarted) ==> r.summary == Some("execution interrupted by server restart"))
    && (r.summary.Some? ==> r.state == Crashed)
  }

  /** The event tells the change from one record to the next. */
  predicate EventTells(e: Event, sequence: nat, before: Record, after: Record) {
    && e.id == before.id && e.sequence == sequence && e.timestamp == after.updatedAt && e.kind == StateTransition
    && e.from == Some(before.state) && e.to == after.state && e.reason == after.reason && e.summary == after.summary
  }

  /** The record takes over every argument of the transition. */
  predicate TakesOver(r: Record, c: Change, now: real, s: Record) {
    && SameExecution(r, s) && SummaryPublished(s)
    && s.state == c.state && s.reason == c.reason && s.exitCode == c.exitCode && s.resources == c.resources && s.updatedAt == now
    && TimeRecorded(c.startedAt, r.startedAt, if s.state == Running || s.state == Cancelling then Some(now) else None, s.startedAt)
    && TimeRecorded(c.finishedAt, r.finishedAt,
                    if s.state == Starting || s.state == Running || s.state == Cancelling then None else Some(now), s.finishedAt)
  }

  /** What an accepted transition leaves of an execution. */
  predicate TransitionRecorded(before: Entry, c: Change, now: real, after: Entry) {
    && TakesOver(before.record, c, now, after.record)
    && |after.events| == |before.events| + 1 && before.events <= after.events
    && EventTells(after.events[|before.events|], |before.events| + 1, before.record, after.record)
    && (c.manifest.Some? ==> after.artifacts == c.manifest.value && after.complete)
    && (c.manifest.None? ==> after.artifacts == before.artifacts && after.complete == before.complete)
  }

  /** What an accepted request for cancellation leaves of it. */
  predicate CancellationRecorded(before: Entry, reason: Reason, now: real, after: Entry) {
    && SameExecution(before.record, after.record)
    && after.record.state == Cancelling && after.record.reason == Some(reason) && after.record.updatedAt == now
    && after.record.exitCode.None? && after.record.resources.None? && after.record.summary.None?
    && TimeRecorded(None, before.record.startedAt, Some(now), after.record.startedAt) && after.record.finishedAt == before.record.finishedAt
    && |after.events| == |before.events| + 2 && before.events <= after.events
    && after.events[|before.events|] ==
       Event(before.record.id, |before.events| + 1, now, CancellationRequested, Some(before.record.state), before.record.state, Some(reason), None)
    && EventTells(after.events[|before.events| + 1], |before.events| + 2, before.record, after.record)
    && after.artifacts == before.artifacts && after.complete == before.complete
  }

  lemma {:induction false} TransitionRecords(e: Entry, expected: set<State>, c: Change, now: real)
    requires TransitionEntry(e, expected, c, now).Ok?
    ensures TransitionRecorded(e, c, now, TransitionEntry(e, expected, c, now).value)
  {
    MovedTakesOver(e.record, c, now);
  }

  lemma {:induction false} MovedTakesOver(r: Record, c: Change, now: real)
    ensures TakesOver(r, c, now, Moved(r, c, now))
  {
    SummariesArePublished(c.state, c.reason);
  }

  lemma {:induction false} SummariesArePublished(state: State, reason: Option<Reason>)
    ensures state == Crashed && reason == Some(RuntimeStartFailed) ==> PublicSummary(state, reason) == Some("execution runtime failed to start")
    ensures state == Crashed && reason == Some(RuntimeMonitorFailed) ==> PublicSummary(state, reason) == Some("execution runtime monitor failed")
    ensures state == Crashed && reason == Some(ArtifactCollectionFailed) ==> PublicSummary(state, reason) == Some("artifact collection failed")
    ensures state == Crashed && reason == Some(CleanupFailed) ==> PublicSummary(state, reason) == Some("execution runtime cleanup failed")
    ensures state == Crashed && reason == Some(ServerRestarted) ==> PublicSummary(state, reason) == Some("execution interrupted by server restart")
    ensures PublicSummary(state, reason).Some? ==> state == Crashed
  {
  }

  lemma {:induction false} CancellationRecords(e: Entry, expected: set<State>, reason: Reason, now: real)
    requires CancelEntry(e, expected, reason, now).Ok?
    ensures CancellationRecorded(e, reason, now, CancelEntry(e, expected, reason, now).value)
  {
  }

  lemma {:induction false} CreationRecords(r: Record)
    requires CreateEntry(r).Ok?
    ensures CreateEntry(r).value == Entry(r, [Event(r.id, 1, r.createdAt, Created, None, Starting, None, None)], [], false)
  {
  }

  /** A hundred artifacts at most, all of this execution, and no id twice. */
  predicate ManifestFits(id: string, manifest: seq<Artifact>) {
    && |manifest| < 101 && (forall i :: 0 <= i < |manifest| ==> manifest[i].executionId == id)
    && (forall i, j :: 0 <= i < |manifest| && 0 <= j < |manifest| && manifest[i].id == manifest[j].id ==> i == j)
  }

  /** Which calls of `transition` are refused, and the first reason why. */
  lemma {:induction false} TransitionRefused(e: Entry, expected: set<State>, c: Change, now: real)
    ensures var r := TransitionEntry(e, expected, c, now);
      && (r.Ok? <==>
          && e.record.state in expected && CanFollow(e.record.state, c.state) && Moved(e.record, c, now).Valid()
          && (c.manifest.Some? ==> c.state !in UNFINISHED && ManifestFits(e.record.id, c.manifest.value)))
      && (r == Err(Conflict) <==> expected != {} && e.record.state !in expected)
      && (r == Err(IllegalTransition) <==> e.record.state in expected && !CanFollow(e.record.state, c.state))
      && (r == Err(InvalidRecord) <==> e.record.state in expected && CanFollow(e.record.state, c.state) && !Moved(e.record, c, now).Valid())
      && (r.Ok? || r.error in {InvalidArgument, Conflict, IllegalTransition, InvalidRecord})
  {
  }

  /** From the side of the later state: what it can come from. */
  predicate CanFollow(from: State, to: State) {
    match to
    case Starting => false
    case Running => from == Starting
    case Cancelling => from == Starting || from == Running
    case Succeeded => from == Running
    case Failed => from == Running
    case Cancelled => from == Cancelling
    case TimedOut => from in UNFINISHED
    case Crashed => from in UNFINISHED
  }

  /** The event a transition appends always passes its own validation. */
  lemma {:induction false} TransitionEventsAreValid(e: Entry, c: Change, now: real)
    requires Allowed(e.record.state, c.state) && Moved(e.record, c, now).Valid()
    ensures TransitionEvent(e.record, Moved(e.record, c, now), |e.events| + 1).Valid()
    ensures c.state == Cancelling ==> RequestedEvent(e.record, c.reason.value, |e.events| + 1, now).Valid()
  {
    assert Moved(e.record, c, now).Explained();
  }
}
