/** One execution raced over by the thread that runs and completes it and any number of
    threads that ask for its cancellation, interleaved at every read and every commit. */
module ExecutionRace {
  import opened Executions
  import opened ExecutionHistory
  import opened Wrappers

  /** What the running thread wants the execution to end as. */
  datatype Target = Target(state: State, reason: Option<Reason>, exitCode: Option<int>, resources: Option<Resources>, manifest: seq<Artifact>)

  /** Where the running thread is: marking the execution as running, then completing it. */
  datatype Runner =
    | Unmarked
    | Stamped(startedAt: real)
    | Marked
    | Decided(target: Target)
    | Read(target: Target, seen: Record)
    | Committing(target: Target, seen: Record, finishedAt: real)
    | Conflicted(target: Target)
    | Reread(target: Target, seen: Record)
    | Recommitting(target: Target, seen: Record, finishedAt: real)
    | Finished(record: Record)
    | Raised(target: Target, seen: Record)

  datatype Canceller = Asking(reason: Reason) | Saw(reason: Reason, state: State) | Answered(record: Record) | Refused

  /** `requested` is the reason of the first committed cancellation, `endings` how many
      transitions into a terminal state were committed. */
  datatype World = World(entry: Entry, runner: Runner, cancellers: seq<Canceller>, now: real, requested: Option<Reason>, endings: nat)

  // ----- Steps of the running thread

  function Mark(startedAt: real): Change {
    Change(Running, None, None, None, None, Some(startedAt), None)
  }

  function Ending(t: Target, finishedAt: real): Change {
    Change(t.state, t.reason, t.exitCode, t.resources, Some(t.manifest), None, Some(finishedAt))
  }

  /** A cancellation that was committed first turns every target but a timeout into it. */
  function Adjusted(t: Target, seen: Record): Target {
    if seen.state == Cancelling && t.state != TimedOut then Overruled(t, seen) else t
  }

  function Overruled(t: Target, seen: Record): Target {
    t.(state := Cancelled, reason := if seen.reason.Some? then seen.reason else t.reason)
  }

  predicate WellFormed(id: string, t: Target) {
    (t.resources.Some? ==> t.resources.value.Valid()) && AcceptsManifest(id, Some(t.manifest), true)
  }

  /** The world after the running thread asked the store for a transition; `onConflict` and
      `onError` say where the thread goes when the store refuses. */
  function Commit(w: World, attempt: Result<Entry>, onConflict: Runner, onError: Runner): World {
    if attempt.Ok? then
      var r := attempt.value.record;
      w.(entry := attempt.value, endings := w.endings + if r.state.IsTerminal() then 1 else 0,
         runner := if r.state.IsTerminal() then Finished(r) else Marked)
    else w.(runner := if attempt.error == Conflict then onConflict else onError)
  }

  /** One step of the running thread at time `w.now`; `choice` is what it decides when it decides. */
  function RunnerStep(w: World, choice: Option<Target>): World {
    var e := w.entry;
    match w.runner
    case Unmarked => w.(runner := if choice.None? then Stamped(w.now) else Marked)
    case Stamped(startedAt) => Commit(w, TransitionEntry(e, {Starting}, Mark(startedAt), w.now), Marked, Marked)
    case Marked => if choice.Some? then w.(runner := Decided(choice.value)) else w
    case Decided(t) =>
      w.(runner := if e.record.state.IsTerminal() then Finished(e.record) else Read(Adjusted(t, e.record), e.record))
    case Read(t, seen) => w.(runner := Committing(t, seen, w.now))
    case Committing(t, seen, finishedAt) =>
      Commit(w, TransitionEntry(e, {seen.state}, Ending(t, finishedAt), w.now), Conflicted(t), Raised(t, seen))
    case Conflicted(t) =>
      w.(runner := if e.record.state.IsTerminal() then Finished(e.record)
                   else if e.record.state == Cancelling then Reread(t, e.record) else Raised(t, e.record))
    case Reread(t, seen) => w.(runner := Recommitting(Overruled(t, seen), seen, w.now))
    case Recommitting(t, seen, finishedAt) =>
      Commit(w, TransitionEntry(e, {Cancelling}, Ending(t, finishedAt), w.now), Raised(t, seen), Raised(t, seen))
    case Finished(_) => w
    case Raised(_, _) => w
  }

  // ----- Steps of a cancelling thread

  function CancellerStep(w: World, i: nat): World
    requires i < |w.cancellers|
  {
    var e := w.entry;
    match w.cancellers[i]
    case Asking(reason) =>
      w.(cancellers := w.cancellers[i := if e.record.state == Starting || e.record.state == Running then Saw(reason, e.record.state)
                                         else Answered(e.record)])
    case Saw(reason, state) =>
      var attempt := CancelEntry(e, {state}, reason, w.now);
      if attempt.Ok? then w.(entry := attempt.value, requested := Some(reason), cancellers := w.cancellers[i := Answered(attempt.value.record)])
      else w.(cancellers := w.cancellers[i := if attempt.error == Conflict then Answered(e.record) else Refused])
    case Answered(_) => w
    case Refused => w
  }

  // ----- Runs

  predicate Starts(w: World) {
    && w.entry.record.Valid() && w.entry.record.updatedAt == w.entry.record.createdAt
    && CreateEntry(w.entry.record) == Ok(w.entry)
    && w.runner == Unmarked && w.requested.None? && w.endings == 0 && w.entry.record.createdAt <= w.now
    && forall i :: 0 <= i < |w.cancellers| ==> w.cancellers[i].Asking? && w.cancellers[i].reason.IsCancellation()
  }

  /** Any thread moves, after some time has passed. */
  ghost predicate Moves(w: World, v: World) {
    exists now: real :: w.now <= now && (MovesRunner(w.(now := now), v) || MovesCanceller(w.(now := now), v))
  }

  ghost predicate MovesRunner(w: World, v: World) {
    exists choice: Option<Target> :: (choice.Some? ==> WellFormed(w.entry.record.id, choice.value)) && v == RunnerStep(w, choice)
  }

  ghost predicate MovesCanceller(w: World, v: World) {
    exists i :: 0 <= i < |w.cancellers| && v == CancellerStep(w, i)
  }

  ghost predicate Run(run: seq<World>) {
    && run != [] && Starts(run[0])
    && forall i :: 0 < i < |run| ==> Moves(run[i - 1], run[i])
  }

  // ----- The invariant

  /** Whether ending the record this way is legal: what the caller can check beforehand. */
  predicate Suits(t: Target, r: Record) {
    && Allowed(r.state, t.state) && t.state.IsTerminal()
    && match t.state
       case Succeeded => t.reason.None? && t.exitCode == Some(0)
       case Failed => if t.reason.None? then t.exitCode.Some? && t.exitCode.value != 0 else t.reason.value.IsFailure()
       case Cancelled => t.reason.Some? && t.reason.value.IsCancellation()
       case TimedOut => t.reason == Some(Timeout)
       case Crashed =>
         && t.reason.Some? && t.reason.value.IsCrash()
         && (r.startedAt.None? ==> t.reason.value == RuntimeStartFailed || t.reason.value == ServerRestarted)
       case _ => false
  }

  /** The clock has passed everything recorded. */
  predicate Past(r: Record, now: real) {
    r.Valid() && r.updatedAt <= now
  }

  predicate Outcome(r: Record, requested: Option<Reason>, endings: nat) {
    && endings == (if r.state.IsTerminal() then 1 else 0)
    && match requested
       case None => r.state != Cancelling && r.state != Cancelled
       case Some(reason) => ((r.state == Cancelling || r.state == Cancelled) && r.reason == requested) || r.state == TimedOut
  }

  /** What a thread saw is what is there, or a cancellation came in between. */
  predicate Fresh(seen: Record, r: Record) {
    seen == r || ((seen.state == Starting || seen.state == Running) && r.state == Cancelling)
  }

  predicate RunnerHolds(runner: Runner, r: Record, now: real) {
    match runner
    case Unmarked => r.state == Starting || r.state == Cancelling
    case Stamped(startedAt) => (r.state == Starting || r.state == Cancelling) && r.createdAt <= startedAt <= now
    case Marked => !r.state.IsTerminal()
    case Decided(t) => !r.state.IsTerminal() && WellFormed(r.id, t)
    case Read(t, seen) => !r.state.IsTerminal() && WellFormed(r.id, t) && Fresh(seen, r) && Heeds(t, seen) && Past(seen, now)
    case Committing(t, seen, finishedAt) =>
      && !r.state.IsTerminal() && WellFormed(r.id, t) && Fresh(seen, r) && Heeds(t, seen)
      && Past(seen, finishedAt) && finishedAt <= now
    case Conflicted(t) => r.state == Cancelling && WellFormed(r.id, t)
    case Reread(t, seen) => r.state == Cancelling && WellFormed(r.id, t) && seen == r
    case Recommitting(t, seen, finishedAt) =>
      && r.state == Cancelling && WellFormed(r.id, t) && seen == r && Suits(t, r) && t.reason == r.reason && t.state == Cancelled
      && Past(r, finishedAt) && finishedAt <= now
    case Finished(record) => record == r && r.state.IsTerminal()
    case Raised(t, seen) => Fresh(seen, r) && !r.state.IsTerminal() && !Suits(t, seen)
  }

  /** Once a cancellation was seen, the target respects it. */
  predicate Heeds(t: Target, seen: Record) {
    seen.state == Cancelling ==> t.state == TimedOut || (t.state == Cancelled && t.reason == seen.reason)
  }

  predicate CancellerHolds(c: Canceller) {
    match c
    case Asking(reason) => reason.IsCancellation()
    case Saw(reason, state) => reason.IsCancellation() && (state == Starting || state == Running)
    case Answered(_) => true
    case Refused => false
  }

  /** The history is complete and ordered, and the clock has passed it. */
  predicate OnRecord(e: Entry, now: real) {
    && Traced(e) && InOrder(e.events) && Last(e.events).timestamp <= now && Past(e.record, now)
    && (|e.events| == 1 ==> e.record.updatedAt == e.record.createdAt)
  }

  predicate Holds(w: World) {
    && OnRecord(w.entry, w.now)
    && Outcome(w.entry.record, w.requested, w.endings)
    && RunnerHolds(w.runner, w.entry.record, w.now)
    && forall i :: 0 <= i < |w.cancellers| ==> CancellerHolds(w.cancellers[i])
  }

  // ----- Why it is kept

  /** With a clock that has passed everything, an ending is valid exactly when it suits. */
  lemma {:induction false} SuitableIsValid(r: Record, t: Target, finishedAt: real, now: real)
    requires Past(r, finishedAt) && finishedAt <= now && WellFormed(r.id, t) && !r.state.IsTerminal() && Allowed(r.state, t.state)
    requires t.state.IsTerminal()
    ensures Moved(r, Ending(t, finishedAt), now).Valid() <==> Suits(t, r)
  {
  }

  lemma {:induction false} MarkIsValid(r: Record, startedAt: real, now: real)
    requires r.Valid() && r.state == Starting && r.createdAt <= startedAt <= now
    ensures Moved(r, Mark(startedAt), now).Valid()
  {
  }

  lemma {:induction false} CancelIsValid(r: Record, reason: Reason, now: real)
    requires Past(r, now) && (r.state == Starting || r.state == Running) && reason.IsCancellation()
    ensures Moved(r, Cancellation(reason), now).Valid()
  {
  }

  lemma {:induction false} StartHolds(w: World)
    requires Starts(w)
    ensures Holds(w)
  {
    CreateTraces(w.entry.record);
  }

  lemma {:induction false} TimePasses(w: World, now: real)
    requires Holds(w) && w.now <= now
    ensures Holds(w.(now := now))
  {
  }

  /** The history part of the invariant after an accepted transition. */
  lemma {:induction false} StaysOnRecord(w: World, expected: set<State>, c: Change)
    requires Holds(w) && TransitionEntry(w.entry, expected, c, w.now).Ok?
    ensures var e := TransitionEntry(w.entry, expected, c, w.now).value;
      && Traced(e) && InOrder(e.events) && Last(e.events).timestamp <= w.now && Past(e.record, w.now) && |e.events| > 1
  {
    TransitionTraces(w.entry, expected, c, w.now);
  }

  lemma {:induction false} MarkHolds(w: World)
    requires Holds(w) && w.runner.Stamped?
    ensures Holds(RunnerStep(w, None))
  {
    var c := Mark(w.runner.startedAt);
    if w.entry.record.state == Starting {
      MarkIsValid(w.entry.record, w.runner.startedAt, w.now);
      StaysOnRecord(w, {Starting}, c);
    }
  }

  /** What the running thread asks the store for. */
  function CommitAttempt(w: World): Result<Entry>
    requires w.runner.Committing?
  {
    TransitionEntry(w.entry, {w.runner.seen.state}, Ending(w.runner.target, w.runner.finishedAt), w.now)
  }

  lemma {:induction false} CommitAccepted(w: World)
    requires Holds(w) && w.runner.Committing? && CommitAttempt(w).Ok?
    ensures Holds(RunnerStep(w, None))
  {
    var t, finishedAt := w.runner.target, w.runner.finishedAt;
    if !t.state.IsTerminal() {
      NoOtherEnding(w.entry.record, t, finishedAt, w.now);
    }
    StaysOnRecord(w, {w.runner.seen.state}, Ending(t, finishedAt));
  }

  lemma {:induction false} CommitRefused(w: World)
    requires Holds(w) && w.runner.Committing? && CommitAttempt(w).Err?
    ensures Holds(RunnerStep(w, None))
  {
    var t, seen, finishedAt := w.runner.target, w.runner.seen, w.runner.finishedAt;
    var r := w.entry.record;
    if r.state == seen.state && Allowed(r.state, t.state) && t.state.IsTerminal() {
      SuitableIsValid(r, t, finishedAt, w.now);
    }
    var v := RunnerStep(w, None);
    assert v == w.(runner := v.runner);
    OnlyRunner(w, v.runner);
  }

  lemma {:induction false} CommitHolds(w: World)
    requires Holds(w) && w.runner.Committing?
    ensures Holds(RunnerStep(w, None))
  {
    if CommitAttempt(w).Ok? {
      CommitAccepted(w);
    } else {
      CommitRefused(w);
    }
  }

  /** A target that is not terminal cannot be committed with the time of an ending. */
  lemma {:induction false} NoOtherEnding(r: Record, t: Target, finishedAt: real, now: real)
    requires !t.state.IsTerminal()
    ensures !Moved(r, Ending(t, finishedAt), now).Valid()
  {
  }

  lemma {:induction false} RecommitHolds(w: World)
    requires Holds(w) && w.runner.Recommitting?
    ensures Holds(RunnerStep(w, None))
  {
    var t, finishedAt := w.runner.target, w.runner.finishedAt;
    SuitableIsValid(w.entry.record, t, finishedAt, w.now);
    StaysOnRecord(w, {Cancelling}, Ending(t, finishedAt));
  }

  /** The running thread moves on by itself. */
  lemma {:induction false} OnlyRunner(w: World, runner: Runner)
    requires Holds(w) && RunnerHolds(runner, w.entry.record, w.now)
    ensures Holds(w.(runner := runner))
  {
  }

  lemma {:induction false} ChoiceHolds(w: World, choice: Option<Target>)
    requires Holds(w) && (w.runner.Unmarked? || w.runner.Marked? || w.runner.Finished? || w.runner.Raised?)
    requires choice.Some? ==> WellFormed(w.entry.record.id, choice.value)
    ensures Holds(RunnerStep(w, choice))
  {
    var v := RunnerStep(w, choice);
    assert v == w.(runner := v.runner);
    OnlyRunner(w, v.runner);
  }

  lemma {:induction false} DecideHolds(w: World)
    requires Holds(w) && (w.runner.Decided? || w.runner.Read?)
    ensures Holds(RunnerStep(w, None))
  {
    var v := RunnerStep(w, None);
    assert v == w.(runner := v.runner);
    OnlyRunner(w, v.runner);
  }

  lemma {:induction false} RereadHolds(w: World)
    requires Holds(w) && (w.runner.Conflicted? || w.runner.Reread?)
    ensures Holds(RunnerStep(w, None))
  {
    var v := RunnerStep(w, None);
    assert v == w.(runner := v.runner);
    OnlyRunner(w, v.runner);
  }

  lemma {:induction false} RunnerKeeps(w: World, choice: Option<Target>)
    requires Holds(w) && (choice.Some? ==> WellFormed(w.entry.record.id, choice.value))
    ensures Holds(RunnerStep(w, choice))
  {
    if w.runner.Stamped? {
      MarkHolds(w);
    } else if w.runner.Committing? {
      CommitHolds(w);
    } else if w.runner.Recommitting? {
      RecommitHolds(w);
    } else if w.runner.Decided? || w.runner.Read? {
      DecideHolds(w);
    } else if w.runner.Conflicted? || w.runner.Reread? {
      RereadHolds(w);
    } else {
      ChoiceHolds(w, choice);
    }
  }

  lemma {:induction false} CancelHolds(w: World, state: State, reason: Reason)
    requires Holds(w) && w.entry.record.state == state && (state == Starting || state == Running) && reason.IsCancellation()
    ensures CancelEntry(w.entry, {state}, reason, w.now).Ok?
    ensures Holds(w.(entry := CancelEntry(w.entry, {state}, reason, w.now).value, requested := Some(reason)))
  {
    CancelIsValid(w.entry.record, reason, w.now);
    CancelTraces(w.entry, {state}, reason, w.now);
  }

  /** A cancelling thread moves on by itself. */
  lemma {:induction false} OnlyCanceller(w: World, i: nat, c: Canceller)
    requires Holds(w) && i < |w.cancellers| && CancellerHolds(c)
    ensures Holds(w.(cancellers := w.cancellers[i := c]))
  {
  }

  lemma {:induction false} AskKeeps(w: World, i: nat)
    requires Holds(w) && i < |w.cancellers| && !w.cancellers[i].Saw? && CancellerHolds(w.cancellers[i])
    ensures Holds(CancellerStep(w, i))
  {
    var v := CancellerStep(w, i);
    if w.cancellers[i].Asking? {
      assert v == w.(cancellers := w.cancellers[i := v.cancellers[i]]);
      OnlyCanceller(w, i, v.cancellers[i]);
    }
  }

  /** A cancellation is refused only because the state has changed since. */
  lemma {:induction false} LateIsConflict(e: Entry, state: State, reason: Reason, now: real)
    requires e.record.state != state
    ensures CancelEntry(e, {state}, reason, now) == Err(Conflict)
  {
  }

  lemma {:induction false} CancelKeeps(w: World, i: nat)
    requires Holds(w) && i < |w.cancellers| && w.cancellers[i].Saw? && CancellerHolds(w.cancellers[i])
    ensures Holds(CancellerStep(w, i))
  {
    var state, reason := w.cancellers[i].state, w.cancellers[i].reason;
    var v := CancellerStep(w, i);
    if w.entry.record.state == state {
      CancelHolds(w, state, reason);
      var u := w.(entry := CancelEntry(w.entry, {state}, reason, w.now).value, requested := Some(reason));
      assert v == u.(cancellers := u.cancellers[i := v.cancellers[i]]);
      OnlyCanceller(u, i, v.cancellers[i]);
    } else {
      LateIsConflict(w.entry, state, reason, w.now);
      OnlyCanceller(w, i, Answered(w.entry.record));
    }
  }

  lemma {:induction false} CancellerKeeps(w: World, i: nat)
    requires Holds(w) && i < |w.cancellers|
    ensures Holds(CancellerStep(w, i))
  {
    assert CancellerHolds(w.cancellers[i]);
    if w.cancellers[i].Saw? {
      CancelKeeps(w, i);
    } else {
      AskKeeps(w, i);
    }
  }

  lemma {:induction false} MoveKeeps(w: World, v: World)
    requires Holds(w) && Moves(w, v)
    ensures Holds(v)
  {
    var now: real :| w.now <= now && (MovesRunner(w.(now := now), v) || MovesCanceller(w.(now := now), v));
    var u := w.(now := now);
    TimePasses(w, now);
    if MovesRunner(u, v) {
      var choice: Option<Target> :| (choice.Some? ==> WellFormed(u.entry.record.id, choice.value)) && v == RunnerStep(u, choice);
      RunnerKeeps(u, choice);
    } else {
      var i :| 0 <= i < |u.cancellers| && v == CancellerStep(u, i);
      CancellerKeeps(u, i);
    }
  }

  lemma {:induction false} RunHolds(run: seq<World>)
    requires Run(run)
    ensures Holds(run[|run| - 1])
  {
    if |run| == 1 {
      StartHolds(run[0]);
    } else {
      var front := run[..|run| - 1];
      RunHolds(front);
      assert Moves(run[|run| - 2], run[|run| - 1]);
      MoveKeeps(run[|run| - 2], run[|run| - 1]);
    }
  }

  // ----- What follows

  /** In every interleaving: at most one terminal transition is committed, and exactly one once the
      running thread has finished; the history stays complete; no cancelling thread fails. */
  lemma {:induction false} OneEnding(run: seq<World>)
    requires Run(run)
    ensures var w := run[|run| - 1];
      && w.endings <= 1 && (w.endings == 1 <==> w.runner.Finished?) && (w.runner.Finished? ==> w.entry.record == w.runner.record)
      && Verdict(w.entry.record, w.entry.events) == Ok(true) && |w.entry.events| <= 5
      && forall i :: 0 <= i < |w.cancellers| ==> !w.cancellers[i].Refused?
  {
    RunHolds(run);
    var w := run[|run| - 1];
    TracedIsComplete(w.entry);
    assert forall i :: 0 <= i < |w.cancellers| ==> CancellerHolds(w.cancellers[i]);
  }

  /** A committed cancellation decides the ending: cancelled for its reason, or timed out. */
  lemma {:induction false} CancellationDecides(run: seq<World>)
    requires Run(run) && run[|run| - 1].runner.Finished?
    ensures var w := run[|run| - 1];
      && (w.requested.Some? ==> w.entry.record.state == TimedOut || (w.entry.record.state == Cancelled && w.entry.record.reason == w.requested))
      && (w.requested.None? ==> w.entry.record.state != Cancelled)
  {
    RunHolds(run);
  }

  /** The running thread fails exactly on a target that does not suit the state it read, and
      then the execution is left unfinished: for instance cancelled while it was running. */
  lemma {:induction false} FailsOnlyUnsuited(run: seq<World>)
    requires Run(run) && run[|run| - 1].runner.Raised?
    ensures var w := run[|run| - 1];
      !Suits(w.runner.target, w.runner.seen) && w.endings == 0 && !w.entry.record.state.IsTerminal()
  {
    RunHolds(run);
  }

  /** Committing an unsuitable target that nobody overrules does fail. */
  lemma {:induction false} UnsuitedFails(w: World)
    requires Holds(w) && w.runner.Committing? && w.runner.seen == w.entry.record && !Suits(w.runner.target, w.runner.seen)
    ensures RunnerStep(w, None).runner == Raised(w.runner.target, w.runner.seen)
  {
    CommitHolds(w);
  }

  /** Marking an execution that is still starting records the time at which it started. */
  lemma {:induction false} StartIsRecorded(w: World)
    requires Holds(w) && w.runner.Stamped? && w.entry.record.state == Starting
    ensures var v := RunnerStep(w, None);
      && v.runner == Marked && v.entry.record.state == Running && v.entry.record.startedAt == Some(w.runner.startedAt)
      && v.entry.record.updatedAt == w.now && SameExecution(w.entry.record, v.entry.record) && v.entry.artifacts == w.entry.artifacts
  {
    MarkIsValid(w.entry.record, w.runner.startedAt, w.now);
    TransitionRecords(w.entry, {Starting}, Mark(w.runner.startedAt), w.now);
  }

  /** The record ends with what the thread wanted it to: exit code, resources, artifacts and the time it looked at. */
  predicate EndsAs(before: Entry, t: Target, finishedAt: real, after: Entry) {
    && SameExecution(before.record, after.record) && after.record.startedAt == before.record.startedAt
    && after.record.state == t.state && after.record.reason == t.reason && after.record.exitCode == t.exitCode
    && after.record.resources == t.resources && after.record.finishedAt == Some(finishedAt)
    && after.artifacts == t.manifest && after.complete
  }

  lemma {:induction false} EndingIsRecorded(w: World)
    requires Holds(w) && (w.runner.Committing? || w.runner.Recommitting?) && RunnerStep(w, None).runner.Finished?
    ensures EndsAs(w.entry, w.runner.target, w.runner.finishedAt, RunnerStep(w, None).entry)
  {
    var t, finishedAt := w.runner.target, w.runner.finishedAt;
    var expected := if w.runner.Committing? then {w.runner.seen.state} else {Cancelling};
    if TransitionEntry(w.entry, expected, Ending(t, finishedAt), w.now).Ok? {
      TransitionRecords(w.entry, expected, Ending(t, finishedAt), w.now);
    }
  }

  function StepsLeft(r: Runner): nat {
    match r
    case Unmarked => 10
    case Stamped(_) => 9
    case Marked => 8
    case Decided(_) => 7
    case Read(_, _) => 6
    case Committing(_, _, _) => 5
    case Conflicted(_) => 4
    case Reread(_, _) => 3
    case Recommitting(_, _, _) => 2
    case Finished(_) => 0
    case Raised(_, _) => 0
  }

  /** The choice matters only where one is made. */
  lemma {:induction false} ChoiceIsOnce(w: World, choice: Option<Target>)
    requires w.runner.Committing? || w.runner.Recommitting?
    ensures RunnerStep(w, choice) == RunnerStep(w, None)
  {
  }

  lemma {:induction false} CommitEnds(w: World, choice: Option<Target>)
    requires Holds(w) && w.runner.Committing?
    ensures StepsLeft(RunnerStep(w, choice).runner) < StepsLeft(w.runner)
  {
    CommitHolds(w);
    ChoiceIsOnce(w, choice);
  }

  lemma {:induction false} RecommitEnds(w: World, choice: Option<Target>)
    requires Holds(w) && w.runner.Recommitting?
    ensures StepsLeft(RunnerStep(w, choice).runner) < StepsLeft(w.runner)
  {
    RecommitHolds(w);
    ChoiceIsOnce(w, choice);
  }

  lemma {:induction false} OwnStepsEnd(w: World, t: Target)
    requires !w.runner.Committing? && !w.runner.Recommitting? && StepsLeft(w.runner) > 0
    ensures StepsLeft(RunnerStep(w, Some(t)).runner) < StepsLeft(w.runner)
  {
  }

  lemma {:induction false} CancellersLeaveRunner(w: World, i: nat)
    requires i < |w.cancellers|
    ensures CancellerStep(w, i).runner == w.runner
  {
  }

  /** The running thread needs at most ten steps, whatever the others do meanwhile. */
  lemma {:induction false} RunnerProgresses(w: World, t: Target)
    requires Holds(w) && WellFormed(w.entry.record.id, t) && StepsLeft(w.runner) > 0
    ensures StepsLeft(RunnerStep(w, Some(t)).runner) < StepsLeft(w.runner)
    ensures forall i :: 0 <= i < |w.cancellers| ==> CancellerStep(w, i).runner == w.runner
  {
    if w.runner.Committing? {
      CommitEnds(w, Some(t));
    } else if w.runner.Recommitting? {
      RecommitEnds(w, Some(t));
    } else {
      OwnStepsEnd(w, t);
    }
    forall i | 0 <= i < |w.cancellers| ensures CancellerStep(w, i).runner == w.runner {
      CancellersLeaveRunner(w, i);
    }
  }
}
