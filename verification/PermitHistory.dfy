/** What happened in a run, and what became of the permits because of it. */
module PermitHistories {
  import opened Permits

  /** Something a run does to one execution. */
  datatype Deed = RecordCreated | RecordEvicted | MonitorRaised | ReleaseLost | RolledBack | SessionEnded | Cancelled | SessionListed | Pruned

  predicate Does(w: World, a: Action, i: nat, deed: Deed) {
    match deed
    case RecordCreated => a == Thread(i, CreateRecord)
    case RecordEvicted => a == Evict(i) && i in w.known
    case MonitorRaised => a.Thread? && a.i == i && (a.move.MonitorFails? || (a.move.Settle? && !(w.listed <= w.known)))
    case ReleaseLost => a == Thread(i, RollBackRaises) && i < |w.executions| && StarterHolds(w.executions[i])
    case RolledBack => a == Thread(i, RollBack)
    case SessionEnded =>
      a == Thread(i, MonitorReleases) || (a == Thread(i, StarterReleases) && i < |w.executions| && w.executions[i].starter.RollingBack?)
    case Cancelled => a == Ask(i, true) && i in w.known
    case SessionListed => a == Thread(i, Transfer)
    case Pruned => a.Thread? && a.move.Settle? && i in a.move.pruned && i in w.listed && w.listed <= w.known
  }

  /** It happened within the first `k` actions. */
  ghost predicate Happened(worlds: seq<World>, actions: seq<Action>, k: nat, i: nat, deed: Deed)
    requires Run(worlds, actions) && k < |worlds|
  {
    exists m: nat :: m < k && Does(worlds[m], actions[m], i, deed)
  }

  lemma {:induction false} HappenedStep(worlds: seq<World>, actions: seq<Action>, k: nat, i: nat, deed: Deed)
    requires Run(worlds, actions) && 0 < k < |worlds|
    ensures Happened(worlds, actions, k, i, deed) <==>
      Happened(worlds, actions, k - 1, i, deed) || Does(worlds[k - 1], actions[k - 1], i, deed)
  {
  }

  lemma {:induction false} Goes(worlds: seq<World>, actions: seq<Action>, k: nat)
    requires Run(worlds, actions) && 0 < k < |worlds|
    ensures Enabled(worlds[k - 1], actions[k - 1]) && worlds[k] == Next(worlds[k - 1], actions[k - 1])
  {
  }

  /** Nothing but an eviction happens to an execution before it begins. */
  lemma {:induction false} NothingBefore(worlds: seq<World>, actions: seq<Action>, k: nat, i: nat, deed: Deed)
    requires Run(worlds, actions) && k < |worlds| && i >= |worlds[k].executions|
    ensures !Happened(worlds, actions, k, i, deed) && i !in worlds[k].known
  {
    if k > 0 {
      Goes(worlds, actions, k);
      NothingBefore(worlds, actions, k - 1, i, deed);
      HappenedStep(worlds, actions, k, i, deed);
    }
  }

  /** The flags of an execution tell what happened to it. */
  predicate Tells(e: Execution, raised: bool, lost: bool, rolledBack: bool, ended: bool) {
    && (e.monitor == Raised <==> raised) && (e.lost <==> lost) && (e.sessionDone <==> ended)
    && (e.released <==> rolledBack || e.monitor.Settled? || e.monitor == Gone)
  }

  lemma {:induction false} MoveTells(e: Execution, m: Move, known: bool, raised: bool, lost: bool, rolledBack: bool, ended: bool)
    requires Consistent(e) && Ready(e, m) && Tells(e, raised, lost, rolledBack, ended)
    ensures Tells(Moved(e, m, known).0, raised || m.MonitorFails? || (m.Settle? && !known), lost || (m.RollBackRaises? && StarterHolds(e)),
                  rolledBack || m.RollBack?, ended || m.MonitorReleases? || (m.StarterReleases? && e.starter.RollingBack?))
  {
  }

  ghost predicate TellsAt(worlds: seq<World>, actions: seq<Action>, k: nat, i: nat)
    requires Run(worlds, actions) && k < |worlds| && i < |worlds[k].executions|
  {
    Tells(worlds[k].executions[i], Happened(worlds, actions, k, i, MonitorRaised), Happened(worlds, actions, k, i, ReleaseLost),
          Happened(worlds, actions, k, i, RolledBack), Happened(worlds, actions, k, i, SessionEnded))
  }

  lemma {:induction false} StepTells(w: World, a: Action, i: nat, raised: bool, lost: bool, rolledBack: bool, ended: bool)
    requires Holds(w) && Enabled(w, a) && i < |w.executions| && Tells(w.executions[i], raised, lost, rolledBack, ended)
    ensures Tells(Next(w, a).executions[i], raised || Does(w, a, i, MonitorRaised), lost || Does(w, a, i, ReleaseLost),
                  rolledBack || Does(w, a, i, RolledBack), ended || Does(w, a, i, SessionEnded))
  {
    if a.Thread? && a.i == i {
      assert ConsistentAt(w.executions, i);
      MoveTells(w.executions[i], a.move, w.listed <= w.known, raised, lost, rolledBack, ended);
    }
  }

  /** A new execution starts without a past. */
  lemma {:induction false} NewTells(worlds: seq<World>, actions: seq<Action>, k: nat, i: nat)
    requires Run(worlds, actions) && 0 < k < |worlds| && |worlds[k - 1].executions| <= i < |worlds[k].executions|
    ensures worlds[k].executions[i] == ACQUIRED && actions[k - 1] == Acquire
    ensures forall deed :: !Happened(worlds, actions, k, i, deed)
  {
    Goes(worlds, actions, k);
    forall deed ensures !Happened(worlds, actions, k, i, deed) {
      NothingBefore(worlds, actions, k - 1, i, deed);
      HappenedStep(worlds, actions, k, i, deed);
    }
  }

  lemma {:induction false} Chronicle(worlds: seq<World>, actions: seq<Action>, k: nat, i: nat)
    requires Run(worlds, actions) && k < |worlds| && i < |worlds[k].executions|
    ensures TellsAt(worlds, actions, k, i)
    decreases k, 1
  {
    if k > 0 {
      if i < |worlds[k - 1].executions| {
        ChronicleStep(worlds, actions, k, i);
      } else {
        NewTells(worlds, actions, k, i);
      }
    }
  }

  lemma {:induction false} ChronicleStep(worlds: seq<World>, actions: seq<Action>, k: nat, i: nat)
    requires Run(worlds, actions) && 0 < k < |worlds| && i < |worlds[k - 1].executions|
    ensures i < |worlds[k].executions| && TellsAt(worlds, actions, k, i)
    decreases k, 0
  {
    Goes(worlds, actions, k);
    Chronicle(worlds, actions, k - 1, i);
    RunHolds(worlds, actions, k - 1);
    StepTells(worlds[k - 1], actions[k - 1], i, Happened(worlds, actions, k - 1, i, MonitorRaised),
              Happened(worlds, actions, k - 1, i, ReleaseLost), Happened(worlds, actions, k - 1, i, RolledBack),
              Happened(worlds, actions, k - 1, i, SessionEnded));
    HappenedStep(worlds, actions, k, i, MonitorRaised);
    HappenedStep(worlds, actions, k, i, ReleaseLost);
    HappenedStep(worlds, actions, k, i, RolledBack);
    HappenedStep(worlds, actions, k, i, SessionEnded);
  }

  /** No thread of the execution will take another step. */
  predicate ThreadsGone(e: Execution) {
    e.starter == Done && (e.monitor == Idle || e.monitor == Gone || e.monitor == Raised)
  }

  /** Once the threads of an execution are gone, its permit is lost if and only if its rollback raised while
      holding it, or its monitor raised, for a missing record or in a callee, and the service was never rolled back. */
  lemma {:induction false} PermitLostExactly(worlds: seq<World>, actions: seq<Action>, k: nat, i: nat)
    requires Run(worlds, actions) && k < |worlds| && i < |worlds[k].executions| && ThreadsGone(worlds[k].executions[i])
    ensures worlds[k].executions[i].returned == 0 <==>
      || Happened(worlds, actions, k, i, ReleaseLost)
      || (Happened(worlds, actions, k, i, MonitorRaised) && !Happened(worlds, actions, k, i, RolledBack))
  {
    Chronicle(worlds, actions, k, i);
    PermitsComeBack(worlds, actions, k, i);
    PermitsConserved(worlds, actions, k, i);
  }

  /** A record is there exactly from its creation to its eviction, and retained sessions have had one. */
  predicate Recorded(w: World, i: nat, created: bool, evicted: bool) {
    && (i in w.known <==> created && !evicted) && (evicted ==> created) && (i in w.listed ==> created)
    && (i < |w.executions| && w.executions[i].starter == Creating ==> !created)
    && (i < |w.executions| && w.executions[i].starter == Starting ==> created)
  }

  lemma {:induction false} ThreadRecords(w: World, j: nat, m: Move, i: nat, created: bool, evicted: bool)
    requires Enabled(w, Thread(j, m)) && Recorded(w, i, created, evicted)
    ensures Recorded(Next(w, Thread(j, m)), i, created || (i == j && m.CreateRecord?), evicted)
  {
    if j == i {
      assert Ready(w.executions[i], m);
    }
  }

  lemma {:induction false} StepRecords(w: World, a: Action, i: nat, created: bool, evicted: bool)
    requires Enabled(w, a) && Recorded(w, i, created, evicted) && (i >= |w.executions| ==> !created)
    ensures Recorded(Next(w, a), i, created || Does(w, a, i, RecordCreated), evicted || Does(w, a, i, RecordEvicted))
  {
    if a.Thread? {
      ThreadRecords(w, a.i, a.move, i, created, evicted);
    }
  }

  lemma {:induction false} RecordsKnown(worlds: seq<World>, actions: seq<Action>, k: nat, i: nat)
    requires Run(worlds, actions) && k < |worlds|
    ensures Recorded(worlds[k], i, Happened(worlds, actions, k, i, RecordCreated), Happened(worlds, actions, k, i, RecordEvicted))
  {
    if k > 0 {
      Goes(worlds, actions, k);
      RecordsKnown(worlds, actions, k - 1, i);
      if i >= |worlds[k - 1].executions| {
        NothingBefore(worlds, actions, k - 1, i, RecordCreated);
      }
      StepRecords(worlds[k - 1], actions[k - 1], i, Happened(worlds, actions, k - 1, i, RecordCreated),
                  Happened(worlds, actions, k - 1, i, RecordEvicted));
      HappenedStep(worlds, actions, k, i, RecordCreated);
      HappenedStep(worlds, actions, k, i, RecordEvicted);
    }
  }

  /** A monitor raises exactly when the record of a retained session, its own or another's, was evicted earlier in the run. */
  lemma {:induction false} MonitorRaisesWhenEvicted(worlds: seq<World>, actions: seq<Action>, k: nat, i: nat)
    requires Run(worlds, actions) && k < |actions| && actions[k].Thread? && actions[k].i == i && actions[k].move.Settle?
    ensures worlds[k + 1].executions[i].monitor == Raised <==>
      exists j :: j in worlds[k].listed && Happened(worlds, actions, k, j, RecordEvicted)
  {
    Goes(worlds, actions, k + 1);
    forall j | j in worlds[k].listed ensures j in worlds[k].known <==> !Happened(worlds, actions, k, j, RecordEvicted) {
      RecordsKnown(worlds, actions, k, j);
    }
  }

  // ----- A run that loses a permit

  lemma {:induction false} RunSnoc(worlds: seq<World>, actions: seq<Action>, a: Action) returns (longer: seq<World>, more: seq<Action>)
    requires Run(worlds, actions) && Enabled(worlds[|actions|], a)
    ensures Run(longer, more) && longer == worlds + [Next(worlds[|actions|], a)] && more == actions + [a]
    ensures longer[|more|] == Next(worlds[|actions|], a)
  {
    longer, more := worlds + [Next(worlds[|actions|], a)], actions + [a];
    forall m | 0 <= m < |more| ensures Enabled(longer[m], more[m]) && longer[m + 1] == Next(longer[m], more[m]) {
      if m < |actions| {
        assert Enabled(worlds[m], actions[m]) && worlds[m + 1] == Next(worlds[m], actions[m]);
      }
    }
  }

  const SERVING := ACQUIRED.(starter := Done, monitor := Watching, finished := true, transferred := true, leaseDone := true)

  lemma {:induction false} Appended(es: seq<Execution>, e: Execution, f: Execution)
    ensures |es + [e]| == |es| + 1 && (es + [e])[|es|] == e && (es + [e])[|es| := f] == es + [f]
  {
  }

  lemma {:induction false} MoveOfLast(w: World, es: seq<Execution>, e: Execution, m: Move)
    requires w.executions == es + [e] && Ready(e, m) && (m.Transfer? ==> LockFree(w) && w.shutdown.Open?)
    requires m.CreateRecord? || m.Transfer? || m.StartMonitor? || m.ReturnHandle?
    ensures Enabled(w, Thread(|es|, m))
    ensures Next(w, Thread(|es|, m)) == w.(executions := es + [Moved(e, m, false).0], listed := Listed(w, |es|, m),
                                           known := if m.CreateRecord? then w.known + {|es|} else w.known)
  {
    Appended(es, e, Moved(e, m, false).0);
  }

  lemma {:induction false} StillFree(es: seq<Execution>, e: Execution, w: World)
    requires w.executions == es + [e] && !Locks(e) && forall i :: 0 <= i < |es| ==> !Locks(es[i])
    ensures LockFree(w)
  {
  }

  /** A service starts and hands its session over. */
  lemma {:induction false} ServiceStarts(worlds: seq<World>, actions: seq<Action>, i: nat) returns (longer: seq<World>, more: seq<Action>)
    requires Run(worlds, actions)
    requires var w := worlds[|actions|]; LockFree(w) && w.shutdown.Open? && w.free > 0 && i == |w.executions|
    ensures Run(longer, more) && worlds <= longer && more == actions + [Acquire, Thread(i, CreateRecord), Thread(i, Transfer), Thread(i, StartMonitor), Thread(i, ReturnHandle)]
    ensures var w := worlds[|actions|];
      longer[|more|] == w.(free := w.free - 1, executions := w.executions + [SERVING], listed := w.listed + {i}, known := w.known + {i})
  {
    var es := worlds[|actions|].executions;
    var e := ACQUIRED;
    longer, more := RunSnoc(worlds, actions, Acquire);
    MoveOfLast(longer[|more|], es, e, CreateRecord);
    longer, more := RunSnoc(longer, more, Thread(i, CreateRecord));
    e := e.(starter := Starting);
    StillFree(es, e, longer[|more|]);
    MoveOfLast(longer[|more|], es, e, Transfer);
    longer, more := RunSnoc(longer, more, Thread(i, Transfer));
    e := e.(starter := Registered, finished := true, transferred := true, leaseDone := true);
    MoveOfLast(longer[|more|], es, e, StartMonitor);
    longer, more := RunSnoc(longer, more, Thread(i, StartMonitor));
    MoveOfLast(longer[|more|], es, e.(starter := Handed, monitor := Watching), ReturnHandle);
    longer, more := RunSnoc(longer, more, Thread(i, ReturnHandle));
  }

  const SERVED := SERVING.(monitor := Gone, released := true, sessionDone := true, returned := 1)

  /** No monitor raises and nothing is rolled back. */
  predicate Peaceful(w: World, a: Action) {
    a.Thread? ==> !a.move.RollBack? && !a.move.RollBackRaises? && !a.move.MonitorFails? && (a.move.Settle? ==> w.listed <= w.known)
  }

  ghost predicate PeacefulRun(worlds: seq<World>, actions: seq<Action>) {
    Run(worlds, actions) && forall m :: 0 <= m < |actions| ==> Peaceful(worlds[m], actions[m])
  }

  lemma {:induction false} PeacefulSnoc(worlds: seq<World>, actions: seq<Action>, a: Action, after: World) returns (longer: seq<World>, more: seq<Action>)
    requires PeacefulRun(worlds, actions) && Enabled(worlds[|actions|], a) && Peaceful(worlds[|actions|], a)
    requires Next(worlds[|actions|], a) == after
    ensures PeacefulRun(longer, more) && longer[|more|] == after
  {
    longer, more := RunSnoc(worlds, actions, a);
    forall m | 0 <= m < |more| ensures Peaceful(longer[m], more[m]) {
      assert m < |actions| ==> longer[m] == worlds[m] && more[m] == actions[m];
    }
  }

  lemma {:induction false} PeacefulStart(worlds: seq<World>, actions: seq<Action>, i: nat) returns (longer: seq<World>, more: seq<Action>)
    requires PeacefulRun(worlds, actions)
    requires var w := worlds[|actions|]; LockFree(w) && w.shutdown.Open? && w.free > 0 && i == |w.executions|
    ensures PeacefulRun(longer, more)
    ensures var w := worlds[|actions|];
      longer[|more|] == w.(free := w.free - 1, executions := w.executions + [SERVING], listed := w.listed + {i}, known := w.known + {i})
  {
    longer, more := ServiceStarts(worlds, actions, i);
    forall m | 0 <= m < |more| ensures Peaceful(longer[m], more[m]) {
      assert m < |actions| ==> longer[m] == worlds[m] && more[m] == actions[m];
    }
  }

  /** One service runs and ends as it should; it stays listed. */
  lemma {:induction false} OneServiceEnds(limit: nat) returns (worlds: seq<World>, actions: seq<Action>)
    requires limit > 0
    ensures PeacefulRun(worlds, actions) && worlds[|actions|] == World(limit, limit, [SERVED], {0}, {0}, Open, 0)
  {
    var w := World(limit, limit, [], {}, {}, Open, 0);
    worlds, actions := [w], [];
    worlds, actions := PeacefulStart(worlds, actions, 0);
    w := w.(free := limit - 1, executions := [SERVING], listed := {0}, known := {0});
    assert worlds[|actions|] == w;
    var settled := w.(executions := [SERVING.(monitor := Settled(true), released := true)]);
    ServiceEnds(w, settled);
    worlds, actions := PeacefulSnoc(worlds, actions, Thread(0, Settle({})), settled);
    worlds, actions := PeacefulSnoc(worlds, actions, Thread(0, MonitorReleases), w.(free := limit, executions := [SERVED]));
  }

  lemma {:induction false} ServiceEnds(w: World, settled: World)
    requires w.executions == [SERVING] && w.listed <= w.known && settled == w.(executions := [SERVING.(monitor := Settled(true), released := true)])
    ensures Enabled(w, Thread(0, Settle({}))) && Next(w, Thread(0, Settle({}))) == settled
    ensures Enabled(settled, Thread(0, MonitorReleases))
    ensures Next(settled, Thread(0, MonitorReleases)) == w.(free := w.free + 1, executions := [SERVED])
  {
  }

  /** Then its record is evicted; the monitor of the next service raises, and the only permit is gone
      although no rollback ever raised. */
  lemma {:induction false} EvictionLosesPermit() returns (worlds: seq<World>, actions: seq<Action>)
    ensures Run(worlds, actions) && forall m :: 0 <= m < |actions| ==> !(actions[m].Thread? && (actions[m].move.RollBackRaises? || actions[m].move.MonitorFails?))
    ensures var w := worlds[|actions|];
      w.limit == 1 && w.free == 0 && |w.executions| == 2 && ThreadsGone(w.executions[1]) && w.executions[1].returned == 0
  {
    worlds, actions := OneServiceEnds(1);
    worlds, actions := ServiceStarts(worlds, actions, 1);
    assert worlds[|actions|] == World(1, 0, [SERVED, SERVING], {0, 1}, {0, 1}, Open, 0);
    worlds, actions := RunSnoc(worlds, actions, Evict(0));
    assert worlds[|actions|] == World(1, 0, [SERVED, SERVING], {0, 1}, {1}, Open, 0);
    assert 0 in {0, 1} && 0 !in {1};
    worlds, actions := RunSnoc(worlds, actions, Thread(1, Settle({})));
  }

  // ----- When shutdown returns

  /** A thread that started an execution and is gone has finished its lease, handed it over, or was refused a record. */
  predicate LeaseSettled(e: Execution, created: bool) {
    && (e.starter == Done && created && !e.transferred ==> e.leaseDone)
    && (e.starter == Creating || e.starter == Rejected ==> !created)
  }

  lemma {:induction false} MoveSettlesLease(e: Execution, m: Move, known: bool, created: bool)
    requires Consistent(e) && Ready(e, m) && LeaseSettled(e, created)
    ensures LeaseSettled(Moved(e, m, known).0, created || m.CreateRecord?)
  {
  }

  lemma {:induction false} StepSettlesLease(w: World, a: Action, i: nat, created: bool)
    requires Holds(w) && Enabled(w, a) && i < |w.executions| && LeaseSettled(w.executions[i], created)
    ensures LeaseSettled(Next(w, a).executions[i], created || Does(w, a, i, RecordCreated))
  {
    if a.Thread? && a.i == i {
      assert ConsistentAt(w.executions, i);
      MoveSettlesLease(w.executions[i], a.move, w.listed <= w.known, created);
    }
  }

  lemma {:induction false} LeasesSettle(worlds: seq<World>, actions: seq<Action>, k: nat, i: nat)
    requires Run(worlds, actions) && k < |worlds| && i < |worlds[k].executions|
    ensures LeaseSettled(worlds[k].executions[i], Happened(worlds, actions, k, i, RecordCreated))
  {
    if k > 0 {
      if i < |worlds[k - 1].executions| {
        Goes(worlds, actions, k);
        LeasesSettle(worlds, actions, k - 1, i);
        RunHolds(worlds, actions, k - 1);
        StepSettlesLease(worlds[k - 1], actions[k - 1], i, Happened(worlds, actions, k - 1, i, RecordCreated));
        HappenedStep(worlds, actions, k, i, RecordCreated);
      } else {
        NewTells(worlds, actions, k, i);
      }
    }
  }

  lemma {:induction false} AwaitedWereActive(w: World, a: Action, i: nat)
    requires Enabled(w, a) && !Next(w, a).shutdown.Open? && i in Next(w, a).shutdown.awaited
    ensures if w.shutdown.Open? then i in w.listed || (i < |w.executions| && w.executions[i].starter == Starting) else i in w.shutdown.awaited
  {
  }

  lemma {:induction false} AwaitedWereCreated(worlds: seq<World>, actions: seq<Action>, k: nat, i: nat)
    requires Run(worlds, actions) && k < |worlds| && !worlds[k].shutdown.Open? && i in worlds[k].shutdown.awaited
    ensures Happened(worlds, actions, k, i, RecordCreated)
  {
    if k > 0 {
      Goes(worlds, actions, k);
      AwaitedWereActive(worlds[k - 1], actions[k - 1], i);
      HappenedStep(worlds, actions, k, i, RecordCreated);
      if worlds[k - 1].shutdown.Open? {
        RecordsKnown(worlds, actions, k - 1, i);
      } else {
        AwaitedWereCreated(worlds, actions, k - 1, i);
      }
    }
  }

  /** Shutdown has cancelled, record by record, what it awaits and does not list as left. */
  ghost predicate Cancels(worlds: seq<World>, actions: seq<Action>, k: nat, i: nat)
    requires Run(worlds, actions) && k < |worlds|
  {
    var s := worlds[k].shutdown;
    && (i in Left(s) ==> i in s.awaited)
    && (if s.Open? then !Happened(worlds, actions, k, i, Cancelled) else i in s.awaited ==> (i in Left(s) <==> !Happened(worlds, actions, k, i, Cancelled)))
  }

  lemma {:induction false} StepCancels(w: World, a: Action, i: nat, cancelled: bool)
    requires Enabled(w, a)
    requires var s := w.shutdown;
      (i in Left(s) ==> i in s.awaited) && if s.Open? then !cancelled else i in s.awaited ==> (i in Left(s) <==> !cancelled)
    ensures var (s, after) := (Next(w, a).shutdown, cancelled || Does(w, a, i, Cancelled));
      (i in Left(s) ==> i in s.awaited) && if s.Open? then !after else i in s.awaited ==> (i in Left(s) <==> !after)
  {
  }

  lemma {:induction false} ShutdownCancels(worlds: seq<World>, actions: seq<Action>, k: nat, i: nat)
    requires Run(worlds, actions) && k < |worlds|
    ensures Cancels(worlds, actions, k, i)
  {
    if k > 0 {
      Goes(worlds, actions, k);
      ShutdownCancels(worlds, actions, k - 1, i);
      StepCancels(worlds[k - 1], actions[k - 1], i, Happened(worlds, actions, k - 1, i, Cancelled));
      HappenedStep(worlds, actions, k, i, Cancelled);
    }
  }

  /** Looking for the record of an execution that is to be cancelled fails exactly when it was evicted before. */
  lemma {:induction false} AskFailsWhenEvicted(worlds: seq<World>, actions: seq<Action>, k: nat)
    requires Run(worlds, actions) && k < |actions| && actions[k].Ask?
    ensures worlds[k + 1].shutdown.Failed? <==> Happened(worlds, actions, k, actions[k].id, RecordEvicted)
  {
    Goes(worlds, actions, k + 1);
    var i := actions[k].id;
    ShutdownCancels(worlds, actions, k, i);
    AwaitedWereCreated(worlds, actions, k, i);
    RecordsKnown(worlds, actions, k, i);
  }

  /** The m-th action asks for a record that was evicted before. */
  ghost predicate AsksEvicted(worlds: seq<World>, actions: seq<Action>, m: nat)
    requires Run(worlds, actions)
  {
    m < |actions| && actions[m].Ask? && Happened(worlds, actions, m, actions[m].id, RecordEvicted)
  }

  /** Shutdown has raised if and only if some record that it asked for had been evicted before. */
  lemma {:induction false} ShutdownRaisesWhen(worlds: seq<World>, actions: seq<Action>, k: nat)
    requires Run(worlds, actions) && k < |worlds|
    ensures worlds[k].shutdown.Failed? <==> exists m: nat :: m < k && AsksEvicted(worlds, actions, m)
  {
    if k > 0 {
      Goes(worlds, actions, k);
      ShutdownRaisesWhen(worlds, actions, k - 1);
      if actions[k - 1].Ask? {
        AskFailsWhenEvicted(worlds, actions, k - 1);
      }
      assert AsksEvicted(worlds, actions, k - 1) ==> worlds[k].shutdown.Failed?;
      if worlds[k].shutdown.Failed? && !worlds[k - 1].shutdown.Failed? {
        assert AsksEvicted(worlds, actions, k - 1);
      }
    }
  }

  /** After that it asks, stops and waits for nothing more, and no other call of shutdown ever returns. */
  lemma {:induction false} FailedForEver(worlds: seq<World>, actions: seq<Action>, k: nat, later: nat)
    requires Run(worlds, actions) && k <= later < |worlds| && worlds[k].shutdown.Failed?
    ensures worlds[later].shutdown == worlds[k].shutdown && worlds[later].waiting >= worlds[k].waiting
    ensures forall m :: k <= m < later ==> !actions[m].Ask? && !actions[m].EndShutdown? && !actions[m].LeaveShutdown?
  {
    if k < later {
      FailedForEver(worlds, actions, k, later - 1);
      Goes(worlds, actions, later);
    }
  }

  /** The threads of all executions that shutdown awaits are gone. */
  predicate AwaitedGone(w: World)
    requires !w.shutdown.Open?
  {
    forall i :: i in w.shutdown.awaited ==> i < |w.executions| && ThreadsGone(w.executions[i])
  }

  /** Every awaited session was ended, by its monitor or by its rollback. */
  ghost predicate SessionsEnded(worlds: seq<World>, actions: seq<Action>, k: nat)
    requires Run(worlds, actions) && k < |worlds| && !worlds[k].shutdown.Open? && AwaitedGone(worlds[k])
  {
    forall i :: i in worlds[k].shutdown.awaited && worlds[k].executions[i].transferred ==> Happened(worlds, actions, k, i, SessionEnded)
  }

  lemma {:induction false} OverWhenEnded(worlds: seq<World>, actions: seq<Action>, k: nat, i: nat)
    requires Run(worlds, actions) && k < |worlds| && !worlds[k].shutdown.Open? && AwaitedGone(worlds[k]) && i in worlds[k].shutdown.awaited
    ensures Over(worlds[k].executions[i]) <==> (worlds[k].executions[i].transferred ==> Happened(worlds, actions, k, i, SessionEnded))
  {
    Chronicle(worlds, actions, k, i);
    LeasesSettle(worlds, actions, k, i);
    AwaitedWereCreated(worlds, actions, k, i);
  }

  /** With the threads of all awaited executions gone and nothing left that it can ask for, shutdown has returned or
      can return exactly when every awaited record was still there when it was asked for and every awaited session was ended. */
  lemma {:induction false} ShutdownReturnsWhen(worlds: seq<World>, actions: seq<Action>, k: nat)
    requires Run(worlds, actions) && k < |worlds| && !worlds[k].shutdown.Open? && AwaitedGone(worlds[k])
    requires worlds[k].shutdown.Closing? ==> Left(worlds[k].shutdown) == {}
    ensures worlds[k].shutdown.Closed? || Enabled(worlds[k], EndShutdown) <==>
      (forall i :: i in worlds[k].shutdown.awaited ==> Happened(worlds, actions, k, i, Cancelled)) && SessionsEnded(worlds, actions, k)
  {
    RunShuts(worlds, actions, k);
    FailedLeaves(worlds, actions, k);
    forall i | i in worlds[k].shutdown.awaited
      ensures Over(worlds[k].executions[i]) <==> (worlds[k].executions[i].transferred ==> Happened(worlds, actions, k, i, SessionEnded))
      ensures i in Left(worlds[k].shutdown) <==> !Happened(worlds, actions, k, i, Cancelled)
    {
      OverWhenEnded(worlds, actions, k, i);
      ShutdownCancels(worlds, actions, k, i);
    }
  }

  /** What it raised for is left. */
  lemma {:induction false} FailedLeaves(worlds: seq<World>, actions: seq<Action>, k: nat)
    requires Run(worlds, actions) && k < |worlds|
    ensures worlds[k].shutdown.Failed? ==> exists i :: i in Left(worlds[k].shutdown) && i in worlds[k].shutdown.awaited
  {
    if k > 0 {
      Goes(worlds, actions, k);
      FailedLeaves(worlds, actions, k - 1);
      var w, a := worlds[k - 1], actions[k - 1];
      if worlds[k].shutdown.Failed? && !w.shutdown.Failed? {
        ShutdownCancels(worlds, actions, k - 1, a.id);
        assert a.id in Left(worlds[k].shutdown);
      }
    }
  }

  /** One run goes on from another. */
  predicate GoesOn(worlds: seq<World>, actions: seq<Action>, longer: seq<World>, more: seq<Action>) {
    worlds <= longer && actions <= more
  }

  /** The request that shutdown is in the middle of is one that it can go on with. */
  predicate Coherent(s: Shutdown) {
    s.Closing? && s.looks > 0 ==> s.asked in s.leases || (s.leases == {} && s.asked in s.sessions)
  }

  lemma {:induction false} RunCoherent(worlds: seq<World>, actions: seq<Action>, k: nat)
    requires Run(worlds, actions) && k < |worlds|
    ensures Coherent(worlds[k].shutdown)
  {
    if k > 0 {
      Goes(worlds, actions, k);
      RunCoherent(worlds, actions, k - 1);
    }
  }

  /** Which execution shutdown asks for next. */
  lemma {:induction false} NextToAsk(s: Shutdown) returns (i: nat)
    requires s.Closing? && Coherent(s) && Left(s) != {}
    ensures i in Left(s) && CanAsk(s, i, true)
  {
    if s.looks > 0 {
      i := s.asked;
    } else if s.leases != {} {
      i :| i in s.leases;
    } else {
      i :| i in s.sessions;
    }
  }

  lemma {:induction false} AsksOn(w: World, i: nat)
    requires w.shutdown.Closing? && i in Left(w.shutdown) && CanAsk(w.shutdown, i, true) && i in w.known
    ensures Enabled(w, Ask(i, true))
    ensures var v := Next(w, Ask(i, true));
      && v == w.(shutdown := v.shutdown) && v.shutdown.Closing? && v.shutdown.awaited == w.shutdown.awaited
      && Left(v.shutdown) == Left(w.shutdown) - {i}
  {
  }

  /** With everything awaited over and every record left still there, shutdown gets through. */
  lemma {:induction false} ShutdownGetsThrough(worlds: seq<World>, actions: seq<Action>) returns (longer: seq<World>, more: seq<Action>)
    requires Run(worlds, actions)
    requires var w := worlds[|actions|];
      && w.shutdown.Closing? && Left(w.shutdown) <= w.known
      && forall i :: i in w.shutdown.awaited ==> i < |w.executions| && Over(w.executions[i])
    ensures Run(longer, more) && GoesOn(worlds, actions, longer, more) && longer[|more|].shutdown.Closed?
    decreases |Left(worlds[|actions|].shutdown)|
  {
    var w := worlds[|actions|];
    if Left(w.shutdown) == {} {
      longer, more := RunSnoc(worlds, actions, EndShutdown);
    } else {
      RunCoherent(worlds, actions, |actions|);
      var i := NextToAsk(w.shutdown);
      AsksOn(w, i);
      longer, more := RunSnoc(worlds, actions, Ask(i, true));
      longer, more := ShutdownGetsThrough(longer, more);
    }
  }

  /** Threads that are gone do nothing any more. */
  lemma {:induction false} GoneStays(worlds: seq<World>, actions: seq<Action>, k: nat, i: nat, later: nat)
    requires Run(worlds, actions) && k <= later < |worlds| && i < |worlds[k].executions| && ThreadsGone(worlds[k].executions[i])
    ensures i < |worlds[later].executions| && worlds[later].executions[i] == worlds[k].executions[i]
  {
    if k < later {
      GoneStays(worlds, actions, k, i, later - 1);
      Goes(worlds, actions, later);
    }
  }

  lemma {:induction false} AwaitedStays(worlds: seq<World>, actions: seq<Action>, k: nat, later: nat)
    requires Run(worlds, actions) && k <= later < |worlds| && !worlds[k].shutdown.Open?
    ensures !worlds[later].shutdown.Open? && worlds[later].shutdown.awaited == worlds[k].shutdown.awaited
  {
    if k < later {
      AwaitedStays(worlds, actions, k, later - 1);
      Goes(worlds, actions, later);
    }
  }

  /** A record that is there when shutdown asks for it was there all the time since shutdown began to wait. */
  lemma {:induction false} CancelledWereKnown(worlds: seq<World>, actions: seq<Action>, k: nat, i: nat, later: nat)
    requires Run(worlds, actions) && k <= later < |worlds| && !worlds[k].shutdown.Open? && i in worlds[k].shutdown.awaited
    requires Happened(worlds, actions, later, i, Cancelled) && !Happened(worlds, actions, k, i, Cancelled)
    ensures i in worlds[k].known
  {
    var m: nat :| m < later && Does(worlds[m], actions[m], i, Cancelled);
    RecordsKnown(worlds, actions, m, i);
    RecordsKnown(worlds, actions, k, i);
    AwaitedWereCreated(worlds, actions, k, i);
  }

  /** With the threads of all awaited executions gone, shutdown can still return, by some continuation of the run, if and only
      if every record that it has yet to ask for is still there and every awaited session was ended. */
  lemma {:induction false} ShutdownCanReturn(worlds: seq<World>, actions: seq<Action>)
    requires Run(worlds, actions) && worlds[|actions|].shutdown.Closing? && AwaitedGone(worlds[|actions|])
    ensures (exists longer: seq<World>, more: seq<Action> :: Run(longer, more) && GoesOn(worlds, actions, longer, more) && longer[|more|].shutdown.Closed?) <==>
      Left(worlds[|actions|].shutdown) <= worlds[|actions|].known && SessionsEnded(worlds, actions, |actions|)
  {
    var k := |actions|;
    forall i | i in worlds[k].shutdown.awaited
      ensures Over(worlds[k].executions[i]) <==> (worlds[k].executions[i].transferred ==> Happened(worlds, actions, k, i, SessionEnded))
    {
      OverWhenEnded(worlds, actions, k, i);
    }
    if longer: seq<World>, more: seq<Action> :| Run(longer, more) && GoesOn(worlds, actions, longer, more) && longer[|more|].shutdown.Closed? {
      ReturnedNeeds(worlds, actions, longer, more);
    }
    if Left(worlds[k].shutdown) <= worlds[k].known && SessionsEnded(worlds, actions, k) {
      var longer, more := ShutdownGetsThrough(worlds, actions);
    }
  }

  lemma {:induction false} ReturnedNeeds(worlds: seq<World>, actions: seq<Action>, longer: seq<World>, more: seq<Action>)
    requires Run(worlds, actions) && worlds[|actions|].shutdown.Closing? && AwaitedGone(worlds[|actions|])
    requires Run(longer, more) && GoesOn(worlds, actions, longer, more) && longer[|more|].shutdown.Closed?
    ensures Left(worlds[|actions|].shutdown) <= worlds[|actions|].known
    ensures forall i :: i in worlds[|actions|].shutdown.awaited ==> Over(worlds[|actions|].executions[i])
  {
    var k, n := |actions|, |more|;
    assert longer[k] == worlds[k];
    AwaitedStays(longer, more, k, n);
    RunShuts(longer, more, n);
    forall i | i in worlds[k].shutdown.awaited ensures Over(worlds[k].executions[i]) {
      GoneStays(longer, more, k, i, n);
    }
    forall i | i in Left(worlds[k].shutdown) ensures i in worlds[k].known {
      ShutdownCancels(longer, more, k, i);
      ShutdownCancels(longer, more, n, i);
      CancelledWereKnown(longer, more, k, i, n);
    }
  }

  /** An awaited session whose threads are gone without ending it, because its monitor or its rollback raised, keeps shutdown
      from ever returning: it waits for ever once it has nothing more to ask for, if it does not raise before. */
  lemma {:induction false} ShutdownHangs(worlds: seq<World>, actions: seq<Action>, k: nat, i: nat, later: nat)
    requires Run(worlds, actions) && k <= later < |worlds| && !worlds[k].shutdown.Open? && i in worlds[k].shutdown.awaited
    requires i < |worlds[k].executions| && ThreadsGone(worlds[k].executions[i]) && worlds[k].executions[i].transferred
    requires !Happened(worlds, actions, k, i, SessionEnded)
    ensures worlds[later].shutdown.Closing? || worlds[later].shutdown.Failed?
    ensures worlds[k].shutdown.Closing? && Left(worlds[k].shutdown) == {} ==> worlds[later].shutdown == worlds[k].shutdown
    ensures worlds[later].waiting >= worlds[k].waiting
  {
    Chronicle(worlds, actions, k, i);
    GoneStays(worlds, actions, k, i, later);
    AwaitedStays(worlds, actions, k, later);
    RunShuts(worlds, actions, later);
    if k < later {
      ShutdownHangs(worlds, actions, k, i, later - 1);
      Goes(worlds, actions, later);
    }
  }

  // ----- What is listed, asked and waiting

  /** A session is listed from the hand-over on until it is rolled back or pruned. */
  predicate ListedSince(w: World, i: nat, listed: bool, rolledBack: bool, pruned: bool) {
    && (i in w.listed <==> listed && !rolledBack && !pruned)
    && (i < |w.executions| ==> (w.executions[i].transferred <==> listed) && (w.executions[i].starter == Starting ==> !listed))
    && (i < |w.executions| && (w.executions[i].starter == Registered || w.executions[i].starter == Handed) ==> !rolledBack)
    && (i >= |w.executions| ==> !listed) && (!listed ==> !rolledBack && !pruned)
  }

  lemma {:induction false} StepLists(w: World, a: Action, i: nat, listed: bool, rolledBack: bool, pruned: bool)
    requires Holds(w) && Enabled(w, a) && ListedSince(w, i, listed, rolledBack, pruned)
    ensures ListedSince(Next(w, a), i, listed || Does(w, a, i, SessionListed), rolledBack || Does(w, a, i, RolledBack), pruned || Does(w, a, i, Pruned))
  {
    if a.Thread? {
      assert ConsistentAt(w.executions, a.i);
      if a.i == i {
        OwnLists(w, i, a.move, listed, rolledBack, pruned);
      } else {
        OtherLists(w, a.i, a.move, i, listed, rolledBack, pruned);
      }
    }
  }

  lemma {:induction false} OwnLists(w: World, i: nat, m: Move, listed: bool, rolledBack: bool, pruned: bool)
    requires Enabled(w, Thread(i, m)) && Consistent(w.executions[i]) && ListedSince(w, i, listed, rolledBack, pruned)
    ensures ListedSince(Next(w, Thread(i, m)), i, listed || m.Transfer?, rolledBack || m.RollBack?, pruned || Does(w, Thread(i, m), i, Pruned))
  {
  }

  lemma {:induction false} OtherLists(w: World, j: nat, m: Move, i: nat, listed: bool, rolledBack: bool, pruned: bool)
    requires i != j && Enabled(w, Thread(j, m)) && ListedSince(w, i, listed, rolledBack, pruned)
    ensures ListedSince(Next(w, Thread(j, m)), i, listed, rolledBack, pruned || Does(w, Thread(j, m), i, Pruned))
  {
  }

  ghost predicate ListedAt(worlds: seq<World>, actions: seq<Action>, k: nat, i: nat)
    requires Run(worlds, actions) && k < |worlds|
  {
    ListedSince(worlds[k], i, Happened(worlds, actions, k, i, SessionListed), Happened(worlds, actions, k, i, RolledBack),
                Happened(worlds, actions, k, i, Pruned))
  }

  lemma {:induction false} ListedStep(worlds: seq<World>, actions: seq<Action>, k: nat, i: nat)
    requires Run(worlds, actions) && 0 < k < |worlds| && ListedAt(worlds, actions, k - 1, i)
    ensures ListedAt(worlds, actions, k, i)
  {
    Goes(worlds, actions, k);
    RunHolds(worlds, actions, k - 1);
    var listed, rolledBack := Happened(worlds, actions, k - 1, i, SessionListed), Happened(worlds, actions, k - 1, i, RolledBack);
    StepLists(worlds[k - 1], actions[k - 1], i, listed, rolledBack, Happened(worlds, actions, k - 1, i, Pruned));
    HappenedStep(worlds, actions, k, i, SessionListed);
    HappenedStep(worlds, actions, k, i, RolledBack);
    HappenedStep(worlds, actions, k, i, Pruned);
  }

  lemma {:induction false} ListedExactly(worlds: seq<World>, actions: seq<Action>, k: nat, i: nat)
    requires Run(worlds, actions) && k < |worlds|
    ensures ListedAt(worlds, actions, k, i)
  {
    if k > 0 {
      ListedExactly(worlds, actions, k - 1, i);
      ListedStep(worlds, actions, k, i);
    }
  }

  /** How many looks at records shutdown has taken since it last finished a request. */
  function LooksSince(actions: seq<Action>): nat {
    if actions == [] then 0 else
      var front, last := actions[..|actions| - 1], actions[|actions| - 1];
      if !last.Ask? then LooksSince(front) else if last.over then 0 else LooksSince(front) + 1
  }

  /** A request of shutdown looks its record up at most three times, and all the time the same one. */
  lemma {:induction false} ThreeLooks(worlds: seq<World>, actions: seq<Action>, k: nat)
    requires Run(worlds, actions) && k < |worlds|
    ensures worlds[k].shutdown.Open? ==> LooksSince(actions[..k]) == 0
    ensures worlds[k].shutdown.Closing? ==> worlds[k].shutdown.looks == LooksSince(actions[..k]) <= 2
    ensures k > 0 && actions[k - 1].Ask? && worlds[k].shutdown.Closing? ==> worlds[k].shutdown.asked == actions[k - 1].id
    ensures k < |actions| && actions[k].Ask? && LooksSince(actions[..k]) > 0 ==> actions[k].id == worlds[k].shutdown.asked
  {
    if k > 0 {
      Goes(worlds, actions, k);
      ThreeLooks(worlds, actions, k - 1);
      assert actions[..k][..k - 1] == actions[..k - 1];
    }
    if k < |actions| {
      Goes(worlds, actions, k + 1);
    }
  }

  function Calls(actions: seq<Action>, a: Action): nat {
    if actions == [] then 0 else Calls(actions[..|actions| - 1], a) + if actions[|actions| - 1] == a then 1 else 0
  }

  /** Every later call of shutdown that has not returned is waiting. */
  lemma {:induction false} WaitingAreCounted(worlds: seq<World>, actions: seq<Action>, k: nat)
    requires Run(worlds, actions) && k < |worlds|
    ensures worlds[k].waiting + Calls(actions[..k], LeaveShutdown) == Calls(actions[..k], JoinShutdown)
  {
    if k > 0 {
      Goes(worlds, actions, k);
      WaitingAreCounted(worlds, actions, k - 1);
      assert actions[..k][..k - 1] == actions[..k - 1];
    }
  }

  // ----- A run whose shutdown raises

  /** A service ends and its record is evicted while another one is serving; shutdown raises for the first, and the second is
      never asked to cancel nor stopped, and another call of shutdown waits. No monitor and no rollback raised. */
  lemma {:induction false} EvictionFailsShutdown() returns (worlds: seq<World>, actions: seq<Action>)
    ensures PeacefulRun(worlds, actions)
    ensures worlds[|actions|] == World(2, 1, [SERVED, SERVING], {0, 1}, {1}, Failed({0, 1}, {}, {0, 1}), 1)
  {
    worlds, actions := OneServiceEnds(2);
    worlds, actions := PeacefulStart(worlds, actions, 1);
    var w := World(2, 1, [SERVED, SERVING], {0, 1}, {0, 1}, Open, 0);
    assert worlds[|actions|] == w;
    worlds, actions := PeacefulSnoc(worlds, actions, Evict(0), w.(known := {1}));
    ShutdownFails(w.(known := {1}));
    var s := Closing({0, 1}, {}, {0, 1}, 0, 0);
    worlds, actions := PeacefulSnoc(worlds, actions, BeginShutdown, w.(known := {1}, shutdown := s));
    worlds, actions := PeacefulSnoc(worlds, actions, Ask(0, true), w.(known := {1}, shutdown := Failed({0, 1}, {}, {0, 1})));
    worlds, actions := PeacefulSnoc(worlds, actions, JoinShutdown, w.(known := {1}, shutdown := Failed({0, 1}, {}, {0, 1}), waiting := 1));
  }

  lemma {:induction false} ShutdownFails(w: World)
    requires w.executions == [SERVED, SERVING] && w.listed == {0, 1} && w.known == {1} && w.shutdown.Open?
    ensures Enabled(w, BeginShutdown)
    ensures var v := Next(w, BeginShutdown);
      && v == w.(shutdown := Closing({0, 1}, {}, {0, 1}, 0, 0)) && Enabled(v, Ask(0, true))
      && Next(v, Ask(0, true)) == w.(shutdown := Failed({0, 1}, {}, {0, 1}))
  {
    assert StartingOnes(w) == {} && w.listed + {} == {0, 1};
  }
}
