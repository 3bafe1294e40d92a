/** How a run ends: the polling loop and the choice of an outcome, and exactly which outcomes
    the record of a running execution can take. */
module RunOutcomes {
  import opened Executions
  import opened ExecutionRace
  import opened Wrappers

  /** What one round of the polling loop finds; `exit` is what waiting a moment returns, and
      `raises` says that waiting fails otherwise. */
  datatype Glance = Glance(workspaceExceeded: bool, policyViolated: bool, artifactsExceeded: bool, cancelled: bool, truncated: bool,
                           deadlinePassed: bool, exit: Option<int>, raises: bool)

  /** The flags the outcome is chosen by. */
  datatype Flags = Flags(monitorFailed: bool, cleanupFailed: bool, workspaceExceeded: bool, policyViolated: bool, artifactsExceeded: bool,
                         cancelled: bool, overflow: bool, timedOut: bool)

  const NO_FLAGS := Flags(false, false, false, false, false, false, false, false)

  /** The choice at the end of `run_execution`. */
  function Select(f: Flags, exit: Option<int>): (State, Option<Reason>) {
    if f.monitorFailed then (Crashed, Some(RuntimeMonitorFailed))
    else if f.cleanupFailed then (Crashed, Some(CleanupFailed))
    else if f.workspaceExceeded then (Failed, Some(WorkspaceLimitExceeded))
    else if f.policyViolated then (Failed, Some(ArtifactPolicyViolation))
    else if f.artifactsExceeded then (Failed, Some(ArtifactLimitExceeded))
    else if f.cancelled then (Cancelled, None)
    else if f.overflow then (Failed, Some(OutputLimitExceeded))
    else if f.timedOut then (TimedOut, Some(Timeout))
    else if exit == Some(0) then (Succeeded, None)
    else (Failed, None)
  }

  /** `_resolve_terminal_outcome`. */
  function Finalize(state: State, reason: Option<Reason>, artifactFailure: Option<Reason>, cleanupFailed: bool): (State, Option<Reason>) {
    if state != Succeeded then (state, reason)
    else if cleanupFailed then (Crashed, Some(CleanupFailed))
    else if artifactFailure == Some(ArtifactCollectionFailed) then (Crashed, artifactFailure)
    else if artifactFailure.Some? then (Failed, artifactFailure)
    else (state, reason)
  }

  /** How collecting artifacts may fail. */
  predicate CollectFailure(reason: Option<Reason>) {
    reason.None? || reason.value == ArtifactLimitExceeded || reason.value == ArtifactPolicyViolation || reason.value == ArtifactCollectionFailed
  }

  /** What the synchronous caller asks the record to become. */
  function FinalTarget(f: Flags, exit: Option<int>, cancelledBy: Reason, artifactFailure: Option<Reason>, cleanupFailed: bool,
                       resources: Option<Resources>, manifest: seq<Artifact>): Target {
    var (state, reason) := Select(f, exit);
    var (final, why) := Finalize(state, if state == Cancelled then Some(cancelledBy) else reason, artifactFailure, cleanupFailed);
    Target(final, why, exit, resources, manifest)
  }

  /** The run stopped for a reason: without an exit code some flag is up. */
  predicate Explains(f: Flags, exit: Option<int>) {
    exit.None? ==> f != NO_FLAGS
  }

  /** The first thing wrong in a round, in the order the loop looks. */
  function Stop(g: Glance): Flags {
    if g.workspaceExceeded then NO_FLAGS.(workspaceExceeded := true)
    else if g.policyViolated then NO_FLAGS.(policyViolated := true)
    else if g.artifactsExceeded then NO_FLAGS.(artifactsExceeded := true)
    else if g.cancelled then NO_FLAGS.(cancelled := true)
    else if g.truncated then NO_FLAGS.(overflow := true)
    else if g.deadlinePassed then NO_FLAGS.(timedOut := true)
    else if g.raises then NO_FLAGS.(monitorFailed := true)
    else NO_FLAGS
  }

  predicate Ends(g: Glance) {
    Stop(g) != NO_FLAGS || g.exit.Some?
  }

  /** What happens behind the loop: the final wait and what it finds, the flags seen late, the cleanup. */
  datatype Ending = Ending(exit: Option<int>, raises: bool, late: Glance, cleanedUp: bool)

  /** The first round that ends the loop. */
  ghost predicate EndsAt(glances: nat -> Glance, i: nat) {
    Ends(glances(i)) && forall j: nat :: j < i ==> !Ends(glances(j))
  }

  /** What the last round `g` and the ending leave behind: only the first thing wrong in `g` counts,
      and of what is found late everything but the deadline is added. */
  ghost predicate Concludes(g: Glance, ending: Ending, flags: Flags, exit: Option<int>, announced: bool) {
    && announced == Stop(g).cancelled
    && exit == (if Stop(g) == NO_FLAGS then g.exit else if Stop(g).monitorFailed || ending.raises then None else ending.exit)
    && (flags.cancelled <==> announced || ending.late.cancelled)
    && (flags.overflow <==> Stop(g).overflow || ending.late.truncated)
    && (flags.workspaceExceeded <==> Stop(g).workspaceExceeded || ending.late.workspaceExceeded)
    && (flags.policyViolated <==> Stop(g).policyViolated || ending.late.policyViolated)
    && (flags.artifactsExceeded <==> Stop(g).artifactsExceeded || ending.late.artifactsExceeded)
    && (flags.timedOut <==> Stop(g).timedOut)
    && (flags.monitorFailed <==> Stop(g).monitorFailed || (Stop(g) != NO_FLAGS && ending.raises))
    && (flags.cleanupFailed <==> !ending.cleanedUp)
  }

  /** The polling loop: returns the flags, the exit code and whether `on_cancelling` was called.
      The deadline has passed by the round `horizon`. */
  method RunLoop(glances: nat -> Glance, horizon: nat, ending: Ending) returns (flags: Flags, exit: Option<int>, announced: bool)
    requires glances(horizon).deadlinePassed
    ensures Explains(flags, exit)
    ensures exists i: nat :: i <= horizon && EndsAt(glances, i) && Concludes(glances(i), ending, flags, exit, announced)
  {
    var seen := NO_FLAGS;
    exit := None;
    var i: nat := 0;
    while true
      invariant i <= horizon && seen == NO_FLAGS && exit.None?
      invariant forall j: nat :: j < i ==> !Ends(glances(j))
      decreases horizon - i
    {
      var g := glances(i);
      if g.workspaceExceeded {
        seen := seen.(workspaceExceeded := true);
        break;
      }
      if g.policyViolated {
        seen := seen.(policyViolated := true);
        break;
      }
      if g.artifactsExceeded {
        seen := seen.(artifactsExceeded := true);
        break;
      }
      if g.cancelled {
        seen := seen.(cancelled := true);
        break;
      }
      if g.truncated {
        seen := seen.(overflow := true);
        break;
      }
      if g.deadlinePassed {
        seen := seen.(timedOut := true);
        break;
      }
      if g.raises {
        seen := seen.(monitorFailed := true);
        break;
      }
      if g.exit.Some? {
        exit := g.exit;
        break;
      }
      i := i + 1;
    }
    assert seen == Stop(glances(i)) && EndsAt(glances, i);
    announced := seen.cancelled;
    if exit.None? && !seen.monitorFailed {
      if ending.raises {
        seen := seen.(monitorFailed := true);
      } else {
        exit := ending.exit;
      }
    }
    var late := ending.late;
    flags := seen.(cleanupFailed := !ending.cleanedUp, overflow := seen.overflow || late.truncated, cancelled := seen.cancelled || late.cancelled,
                   workspaceExceeded := seen.workspaceExceeded || late.workspaceExceeded,
                   policyViolated := seen.policyViolated || late.policyViolated,
                   artifactsExceeded := seen.artifactsExceeded || late.artifactsExceeded);
  }

  /** The run comes out as cancelled: nothing stronger went wrong. */
  predicate ComesOutCancelled(f: Flags) {
    f.cancelled && !f.monitorFailed && !f.cleanupFailed && !f.workspaceExceeded && !f.policyViolated && !f.artifactsExceeded
  }

  /** Nothing was found behind the loop. */
  predicate QuietEnd(ending: Ending) {
    && ending.cleanedUp && !ending.late.workspaceExceeded && !ending.late.policyViolated && !ending.late.artifactsExceeded
    && !ending.late.cancelled && !ending.late.truncated
  }

  /** A cancellation that comes too late for the loop, which had ended for a smaller reason or for none. */
  predicate Overlooked(g: Glance, ending: Ending) {
    && ending.late.cancelled && QuietEnd(ending.(late := ending.late.(cancelled := false, truncated := false)))
    && (Stop(g) == NO_FLAGS || ((Stop(g).overflow || Stop(g).timedOut) && !ending.raises))
  }

  /** What a run has seen: in the last round only the first thing wrong, and whatever is found behind it. */
  datatype Seen = Seen(monitor: bool, cleanup: bool, workspace: bool, policy: bool, artifacts: bool, cancelled: bool, output: bool, deadline: bool)
  {
    predicate Nothing() {
      !monitor && !cleanup && !workspace && !policy && !artifacts && !cancelled && !output && !deadline
    }
  }

  function SeenIn(g: Glance, ending: Ending): Seen {
    var late := ending.late;
    var first := g.workspaceExceeded;
    var second := first || g.policyViolated;
    var third := second || g.artifactsExceeded;
    var fourth := third || g.cancelled;
    var fifth := fourth || g.truncated;
    var sixth := fifth || g.deadlinePassed;
    Seen((!sixth && g.raises) || ((sixth || g.raises) && ending.raises), !ending.cleanedUp, g.workspaceExceeded || late.workspaceExceeded,
         (!first && g.policyViolated) || late.policyViolated, (!second && g.artifactsExceeded) || late.artifactsExceeded,
         (!third && g.cancelled) || late.cancelled, (!fourth && g.truncated) || late.truncated, !fifth && g.deadlinePassed)
  }

  lemma {:induction false} FlagsAreSeen(g: Glance, ending: Ending, f: Flags, exit: Option<int>, announced: bool)
    requires Concludes(g, ending, f, exit, announced)
    ensures var s := SeenIn(g, ending);
      f == Flags(s.monitor, s.cleanup, s.workspace, s.policy, s.artifacts, s.cancelled, s.output, s.deadline)
  {
  }

  /** Every reason, with everything that goes before it: the monitor, the cleanup of the run, the three limits, a
      cancellation, the output, the deadline; of a success the cleanup afterwards and the collection of artifacts. */
  lemma {:induction false} ReasonsMean(g: Glance, ending: Ending, f: Flags, exit: Option<int>, announced: bool, cancelledBy: Reason,
                                       artifactFailure: Option<Reason>, cleanupFailed: bool, resources: Option<Resources>, manifest: seq<Artifact>)
    requires Concludes(g, ending, f, exit, announced) && CollectFailure(artifactFailure) && cancelledBy.IsCancellation()
    ensures var s, t := SeenIn(g, ending), FinalTarget(f, exit, cancelledBy, artifactFailure, cleanupFailed, resources, manifest);
      var ran, limited := !s.monitor && !s.cleanup, s.workspace || s.policy || s.artifacts;
      var succeeded := s.Nothing() && exit == Some(0);
      && (t.reason == Some(RuntimeMonitorFailed) <==> s.monitor)
      && (t.reason == Some(CleanupFailed) <==> !s.monitor && (s.cleanup || (succeeded && cleanupFailed)))
      && (t.reason == Some(WorkspaceLimitExceeded) <==> ran && s.workspace)
      && (t.reason == Some(ArtifactPolicyViolation) <==>
          (ran && !s.workspace && s.policy) || (succeeded && !cleanupFailed && artifactFailure == Some(ArtifactPolicyViolation)))
      && (t.reason == Some(ArtifactLimitExceeded) <==>
          (ran && !s.workspace && !s.policy && s.artifacts) || (succeeded && !cleanupFailed && artifactFailure == Some(ArtifactLimitExceeded)))
      && (t.reason == Some(ArtifactCollectionFailed) <==> succeeded && !cleanupFailed && artifactFailure == Some(ArtifactCollectionFailed))
      && (t.reason == Some(cancelledBy) <==> ran && !limited && s.cancelled)
      && (t.reason == Some(OutputLimitExceeded) <==> ran && !limited && !s.cancelled && s.output)
      && (t.reason == Some(Timeout) <==> ran && !limited && !s.cancelled && !s.output && s.deadline)
      && (t.reason.None? <==> s.Nothing() && (exit == Some(0) ==> !cleanupFailed && artifactFailure.None?))
      && t.exitCode == exit && t.resources == resources && t.manifest == manifest
  {
    FlagsAreSeen(g, ending, f, exit, announced);
  }

  /** And the state that each reason goes with. */
  lemma {:induction false} StatesOfReasons(f: Flags, exit: Option<int>, cancelledBy: Reason, artifactFailure: Option<Reason>, cleanupFailed: bool,
                                           resources: Option<Resources>, manifest: seq<Artifact>)
    requires CollectFailure(artifactFailure) && cancelledBy.IsCancellation()
    ensures var t := FinalTarget(f, exit, cancelledBy, artifactFailure, cleanupFailed, resources, manifest);
      && (t.state == Crashed <==> t.reason == Some(RuntimeMonitorFailed) || t.reason == Some(CleanupFailed) || t.reason == Some(ArtifactCollectionFailed))
      && (t.state == Cancelled <==> t.reason == Some(cancelledBy))
      && (t.state == TimedOut <==> t.reason == Some(Timeout))
      && (t.state == Succeeded <==> t.reason.None? && exit == Some(0))
      && (t.state == Failed <==>
          || t.reason == Some(WorkspaceLimitExceeded) || t.reason == Some(ArtifactPolicyViolation) || t.reason == Some(ArtifactLimitExceeded)
          || t.reason == Some(OutputLimitExceeded) || (t.reason.None? && exit != Some(0)))
  {
  }

  /** What each outcome says about the rounds of the loop and what came after. */
  lemma {:induction false} OutcomeMeans(g: Glance, ending: Ending, f: Flags, exit: Option<int>, announced: bool, cancelledBy: Reason,
                                        artifactFailure: Option<Reason>, cleanupFailed: bool, resources: Option<Resources>, manifest: seq<Artifact>)
    requires Concludes(g, ending, f, exit, announced) && CollectFailure(artifactFailure) && cancelledBy.IsCancellation()
    ensures var t := FinalTarget(f, exit, cancelledBy, artifactFailure, cleanupFailed, resources, manifest);
      && (t.state == Succeeded <==>
          Stop(g) == NO_FLAGS && g.exit == Some(0) && QuietEnd(ending) && artifactFailure.None? && !cleanupFailed)
      && (t.state == TimedOut <==> Stop(g).timedOut && !ending.raises && QuietEnd(ending))
      && (t.state == Cancelled <==> ComesOutCancelled(f))
      && (t.state == Failed && t.reason.None? <==> Stop(g) == NO_FLAGS && g.exit != Some(0) && QuietEnd(ending))
      && (t.reason == Some(RuntimeMonitorFailed) <==> f.monitorFailed)
  {
    OutcomeOfFlags(f, exit);
    FinalizeSpoilsOnlySuccess(f, exit, artifactFailure, cleanupFailed);
    FlagsMean(g, ending, f, exit, announced);
  }

  lemma {:induction false} FlagsMean(g: Glance, ending: Ending, f: Flags, exit: Option<int>, announced: bool)
    requires Concludes(g, ending, f, exit, announced)
    ensures f == NO_FLAGS <==> Stop(g) == NO_FLAGS && QuietEnd(ending)
    ensures f == NO_FLAGS.(timedOut := true) <==> Stop(g).timedOut && !ending.raises && QuietEnd(ending)
    ensures ComesOutCancelled(f) && !announced <==> Overlooked(g, ending)
  {
  }

  /** Success needs exit code zero and nothing wrong at all, a timeout nothing wrong besides, and an
      unexplained failure another exit code or none. */
  lemma {:induction false} OutcomeOfFlags(f: Flags, exit: Option<int>)
    ensures var (state, reason) := Select(f, exit);
      && (state == Succeeded <==> f == NO_FLAGS && exit == Some(0))
      && (state == TimedOut <==> f == NO_FLAGS.(timedOut := true))
      && (state == Cancelled <==> ComesOutCancelled(f))
      && (state == Crashed <==> f.monitorFailed || f.cleanupFailed)
      && (reason == Some(OutputLimitExceeded) <==> f.overflow && f.(overflow := false, timedOut := false) == NO_FLAGS)
      && (state == Failed && reason.None? <==> f == NO_FLAGS && exit != Some(0))
  {
  }

  /** Collecting artifacts and cleaning up afterwards can only spoil a success. */
  lemma {:induction false} FinalizeSpoilsOnlySuccess(f: Flags, exit: Option<int>, artifactFailure: Option<Reason>, cleanupFailed: bool)
    requires CollectFailure(artifactFailure)
    ensures var ((state, reason), (final, why)) := (Select(f, exit), Finalize(Select(f, exit).0, Select(f, exit).1, artifactFailure, cleanupFailed));
      && (final == Succeeded <==> state == Succeeded && !cleanupFailed && artifactFailure.None?)
      && (state != Succeeded ==> (final, why) == (state, reason))
      && (state == Succeeded && final != Succeeded ==> why == if cleanupFailed then Some(CleanupFailed) else artifactFailure)
  {
  }

  /** A running execution can end as its run ended, except as cancelled: that needs the cancellation
      to be recorded first. */
  lemma {:induction false} RunningTakesAllButCancelled(r: Record, f: Flags, exit: Option<int>, cancelledBy: Reason,
                                                       artifactFailure: Option<Reason>, cleanupFailed: bool,
                                                       resources: Option<Resources>, manifest: seq<Artifact>)
    requires r.Valid() && r.state == Running && Explains(f, exit) && CollectFailure(artifactFailure)
    ensures Suits(FinalTarget(f, exit, cancelledBy, artifactFailure, cleanupFailed, resources, manifest), r) <==> !ComesOutCancelled(f)
  {
  }

  /** Once the cancellation is recorded, every outcome of the run can be committed. */
  lemma {:induction false} CancellingTakesAll(r: Record, f: Flags, exit: Option<int>, cancelledBy: Reason,
                                              artifactFailure: Option<Reason>, cleanupFailed: bool,
                                              resources: Option<Resources>, manifest: seq<Artifact>)
    requires r.Valid() && r.state == Cancelling && Explains(f, exit) && CollectFailure(artifactFailure)
    ensures Suits(Adjusted(FinalTarget(f, exit, cancelledBy, artifactFailure, cleanupFailed, resources, manifest), r), r)
  {
  }

  /** An uncontested commit of a running execution: only one that comes out as cancelled is refused. */
  lemma {:induction false} RunningCommits(w: World, f: Flags, exit: Option<int>, cancelledBy: Reason, artifactFailure: Option<Reason>,
                                          cleanupFailed: bool, resources: Option<Resources>, manifest: seq<Artifact>, finishedAt: real)
    requires ExecutionRace.Holds(w) && w.entry.record.state == Running && Explains(f, exit) && CollectFailure(artifactFailure)
    requires w.runner == Committing(FinalTarget(f, exit, cancelledBy, artifactFailure, cleanupFailed, resources, manifest), w.entry.record, finishedAt)
    ensures var v := RunnerStep(w, None);
      if ComesOutCancelled(f) then v.runner.Raised? && v.entry == w.entry
      else v.runner.Finished? && v.entry.record.state == w.runner.target.state
  {
    RunningTakesAllButCancelled(w.entry.record, f, exit, cancelledBy, artifactFailure, cleanupFailed, resources, manifest);
    if ComesOutCancelled(f) {
      UnsuitedFails(w);
    } else {
      SuitableIsValid(w.entry.record, w.runner.target, finishedAt, w.now);
    }
  }

  /** An uncontested commit of a cancelling execution goes through. */
  lemma {:induction false} CancellingCommits(w: World)
    requires ExecutionRace.Holds(w) && w.entry.record.state == Cancelling && w.runner.Committing? && w.runner.seen == w.entry.record
    requires Suits(w.runner.target, w.entry.record)
    ensures var v := RunnerStep(w, None);
      v.runner.Finished? && v.entry.record.state == w.runner.target.state && v.entry.record.reason == w.runner.target.reason
  {
    SuitableIsValid(w.entry.record, w.runner.target, w.runner.finishedAt, w.now);
  }

  /** The thread completes the execution with nobody in its way: it decides, reads the record, looks
      at the clock and commits, each a little later. */
  function Completed(w: World, t: Target, read: real, stamped: real, committed: real): World {
    RunnerStep(ReadyToCommit(w, t, read, stamped).(now := committed), None)
  }

  function ReadyToCommit(w: World, t: Target, read: real, stamped: real): World {
    RunnerStep(RunnerStep(RunnerStep(w, Some(t)).(now := read), None).(now := stamped), None)
  }

  lemma {:induction false} ComesToCommit(w: World, t: Target, read: real, stamped: real, committed: real)
    requires ExecutionRace.Holds(w) && w.runner.Marked? && WellFormed(w.entry.record.id, t) && w.now <= read <= stamped <= committed
    ensures var v := ReadyToCommit(w, t, read, stamped).(now := committed);
      ExecutionRace.Holds(v) && v.entry == w.entry && v.runner == Committing(Adjusted(t, w.entry.record), w.entry.record, stamped)
  {
    var a := RunnerStep(w, Some(t));
    RunnerKeeps(w, Some(t));
    TimePasses(a, read);
    var b := RunnerStep(a.(now := read), None);
    RunnerKeeps(a.(now := read), None);
    TimePasses(b, stamped);
    var c := RunnerStep(b.(now := stamped), None);
    RunnerKeeps(b.(now := stamped), None);
    TimePasses(c, committed);
  }

  /** What a thread that nobody gets in the way of makes of an execution: a cancellation that is already recorded turns every
      ending but a timeout into it, and otherwise the ending is the one wanted, or is refused when it does not suit. */
  lemma {:induction false} UncontestedEnding(w: World, t: Target, read: real, stamped: real, committed: real)
    requires ExecutionRace.Holds(w) && w.runner.Marked? && WellFormed(w.entry.record.id, t) && w.now <= read <= stamped <= committed
    ensures var r, v := w.entry.record, Completed(w, t, read, stamped, committed);
      if r.state == Cancelling && t.state == TimedOut then t.reason == Some(Timeout) ==> v.runner.Finished? && EndsAs(w.entry, t, stamped, v.entry)
      else if r.state == Cancelling then v.runner.Finished? && EndsAs(w.entry, t.(state := Cancelled, reason := r.reason), stamped, v.entry)
      else if Suits(t, r) then v.runner.Finished? && EndsAs(w.entry, t, stamped, v.entry)
      else v.runner.Raised? && v.entry == w.entry
  {
    var r, u := w.entry.record, ReadyToCommit(w, t, read, stamped).(now := committed);
    ComesToCommit(w, t, read, stamped, committed);
    var adjusted := Adjusted(t, r);
    assert r.state == Cancelling ==> r.reason.Some? && r.reason.value.IsCancellation();
    if Suits(adjusted, r) {
      SuitedCommits(u);
      EndingIsRecorded(u);
    } else {
      UnsuitedFails(u);
      UnsuitedKeeps(u);
    }
  }

  lemma {:induction false} SuitedCommits(w: World)
    requires ExecutionRace.Holds(w) && w.runner.Committing? && w.runner.seen == w.entry.record && Suits(w.runner.target, w.entry.record)
    ensures RunnerStep(w, None).runner.Finished?
  {
    SuitableIsValid(w.entry.record, w.runner.target, w.runner.finishedAt, w.now);
  }

  lemma {:induction false} UnsuitedKeeps(w: World)
    requires w.runner.Committing? && RunnerStep(w, None).runner.Raised?
    ensures RunnerStep(w, None).entry == w.entry
  {
  }

  /** A thread that was overtaken by a cancellation ends the execution as cancelled, whatever it wanted, a timeout too. */
  lemma {:induction false} ContestedEnding(w: World, stamped: real, committed: real)
    requires ExecutionRace.Holds(w) && w.runner.Conflicted? && w.now <= stamped <= committed
    ensures var v := RunnerStep(RunnerStep(RunnerStep(w, None).(now := stamped), None).(now := committed), None);
      v.runner.Finished? && EndsAs(w.entry, w.runner.target.(state := Cancelled, reason := w.entry.record.reason), stamped, v.entry)
  {
    var a := RunnerStep(w, None);
    RunnerKeeps(w, None);
    TimePasses(a, stamped);
    var b := RunnerStep(a.(now := stamped), None);
    RunnerKeeps(a.(now := stamped), None);
    TimePasses(b, committed);
    var u := b.(now := committed);
    assert u.runner.Recommitting? && u.entry == w.entry && u.runner.finishedAt == stamped;
    assert w.entry.record.reason.Some?;
    SuitableIsValid(u.entry.record, u.runner.target, stamped, committed);
    EndingIsRecorded(u);
  }

  /** `on_cancelling`: the cancellation is recorded if the loop announced it. */
  function Announced(w: World, i: nat, announced: bool): World
    requires i < |w.cancellers|
  {
    if announced then CancellerStep(CancellerStep(w, i), i) else w
  }

  lemma {:induction false} AnnouncementIsRecorded(w: World, i: nat, reason: Reason)
    requires ExecutionRace.Holds(w) && w.entry.record.state == Running && i < |w.cancellers| && w.cancellers[i] == Asking(reason)
    ensures var v := Announced(w, i, true);
      && ExecutionRace.Holds(v) && v.runner == w.runner && v.now == w.now && v.entry.record.id == w.entry.record.id
      && v.entry.record.state == Cancelling && v.entry.record.reason == Some(reason)
      && SameExecution(w.entry.record, v.entry.record) && v.entry.record.startedAt == w.entry.record.startedAt
  {
    CancellerKeeps(w, i);
    RequestIsRecorded(CancellerStep(w, i), i, reason);
  }

  lemma {:induction false} RequestIsRecorded(w: World, i: nat, reason: Reason)
    requires ExecutionRace.Holds(w) && w.entry.record.state == Running && i < |w.cancellers| && w.cancellers[i] == Saw(reason, Running)
    ensures var v := CancellerStep(w, i);
      && ExecutionRace.Holds(v) && v.runner == w.runner && v.now == w.now && v.entry.record.id == w.entry.record.id
      && v.entry.record.state == Cancelling && v.entry.record.reason == Some(reason)
      && SameExecution(w.entry.record, v.entry.record) && v.entry.record.startedAt == w.entry.record.startedAt
  {
    CancellerKeeps(w, i);
    CancellationRecords(w.entry, {Running}, reason, w.now);
    assert CancellerHolds(w.cancellers[i]);
    CancelHolds(w, Running, reason);
  }

  /** From the polling loop to the record: a run whose cancellation the loop saw ends as cancelled for
      that reason, whatever else went wrong; one whose cancellation was overlooked leaves the execution
      running; every other run ends it as decided. */
  lemma {:induction false} LateCancellationIsStuck(w: World, i: nat, g: Glance, ending: Ending, f: Flags, exit: Option<int>, announced: bool,
                                                   cancelledBy: Reason, artifactFailure: Option<Reason>, cleanupFailed: bool,
                                                   resources: Option<Resources>, manifest: seq<Artifact>, read: real, stamped: real, committed: real)
    requires Concludes(g, ending, f, exit, announced) && Explains(f, exit) && CollectFailure(artifactFailure)
    requires ExecutionRace.Holds(w) && w.entry.record.state == Running && w.runner.Marked?
    requires i < |w.cancellers| && w.cancellers[i] == Asking(cancelledBy)
    requires w.now <= read <= stamped <= committed
    requires WellFormed(w.entry.record.id, FinalTarget(f, exit, cancelledBy, artifactFailure, cleanupFailed, resources, manifest))
    ensures var t := FinalTarget(f, exit, cancelledBy, artifactFailure, cleanupFailed, resources, manifest);
      var v := Completed(Announced(w, i, announced), t, read, stamped, committed);
      if announced then v.runner.Finished? && EndsAs(w.entry, t.(state := Cancelled, reason := Some(cancelledBy)), stamped, v.entry)
      else if Overlooked(g, ending) then v.runner.Raised? && v.entry == w.entry
      else v.runner.Finished? && EndsAs(w.entry, t, stamped, v.entry)
  {
    var t := FinalTarget(f, exit, cancelledBy, artifactFailure, cleanupFailed, resources, manifest);
    FlagsMean(g, ending, f, exit, announced);
    var u := Announced(w, i, announced);
    if announced {
      AnnouncementIsRecorded(w, i, cancelledBy);
    }
    ComesToCommit(u, t, read, stamped, committed);
    var v := ReadyToCommit(u, t, read, stamped).(now := committed);
    if announced {
      CancellingTakesAll(u.entry.record, f, exit, cancelledBy, artifactFailure, cleanupFailed, resources, manifest);
      NeverTimedOut(g, ending, f, exit, cancelledBy, artifactFailure, cleanupFailed, resources, manifest);
      CancellingCommits(v);
      EndingIsRecorded(v);
    } else {
      RunningCommits(v, f, exit, cancelledBy, artifactFailure, cleanupFailed, resources, manifest, stamped);
      if !Overlooked(g, ending) {
        EndingIsRecorded(v);
      }
    }
  }

  lemma {:induction false} NeverTimedOut(g: Glance, ending: Ending, f: Flags, exit: Option<int>, cancelledBy: Reason, artifactFailure: Option<Reason>,
                                         cleanupFailed: bool, resources: Option<Resources>, manifest: seq<Artifact>)
    requires Concludes(g, ending, f, exit, true)
    ensures FinalTarget(f, exit, cancelledBy, artifactFailure, cleanupFailed, resources, manifest).state != TimedOut
  {
  }
}
