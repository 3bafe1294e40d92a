/** Who holds the permits of the concurrency limit: leases, service sessions, and releases on
    their way, in every interleaving of starts, hand-overs, rollbacks, monitor exits and shutdown. */
module Permits {

  /** The thread that starts an execution. It holds the manager's lock while `Creating` and `Rejected`;
      the flags say whether it took it upon itself to give the permit back. */
  datatype Starter =
    | Creating
    | Rejected
    | Starting
    | Registered
    | Handed
    | RollingBack(release: bool)
    | Finishing(release: bool)
    | Done

  /** The monitor thread of a service. */
  datatype Monitor = Idle | Watching | Settled(release: bool) | Gone | Raised

  /** The flags of lease and session, and how often the permit was given back. */
  datatype Execution = Execution(starter: Starter, monitor: Monitor, finished: bool, transferred: bool, released: bool,
                                 leaseDone: bool, sessionDone: bool, lost: bool, returned: nat)

  /** Of what the first call awaits, `leases` and then `sessions` are still to be cancelled: each request looks
      its record up to three times, and the call raises when it is missing. The request for `asked` has looked
      `looks` times and will look again, if that is not zero. */
  datatype Shutdown =
    | Open
    | Closing(awaited: set<nat>, leases: set<nat>, sessions: set<nat>, asked: nat, looks: nat)
    | Closed(awaited: set<nat>)
    | Failed(awaited: set<nat>, leases: set<nat>, sessions: set<nat>)

  /** Executions in the order they began; `listed` are the retained sessions, `known` the
      executions whose record the store still has, `waiting` counts the later calls of shutdown that have not returned. */
  datatype World = World(limit: nat, free: nat, executions: seq<Execution>, listed: set<nat>, known: set<nat>, shutdown: Shutdown,
                         waiting: nat)

  const ACQUIRED := Execution(Creating, Idle, false, false, false, false, false, false, 0)

  /** What a thread of one execution does next. `RollBackRaises` and `MonitorFails` stand for a callee that raises
      something which its caller does not catch. */
  datatype Move =
    | CreateRecord
    | RefuseRecord
    | Transfer
    | StartMonitor
    | ReturnHandle
    | FinishLease
    | RollBack
    | RollBackRaises
    | StarterReleases
    | MonitorFails
    | Settle(pruned: set<nat>)
    | MonitorReleases

  /** `Ask` is one look at the record of an execution that shutdown cancels; `over` says that its request needs no other. */
  datatype Action =
    | Acquire
    | Thread(i: nat, move: Move)
    | Evict(id: nat)
    | BeginShutdown
    | Ask(id: nat, over: bool)
    | EndShutdown
    | JoinShutdown
    | LeaveShutdown

  predicate Locks(e: Execution) {
    e.starter == Creating || e.starter == Rejected
  }

  predicate LockFree(w: World) {
    forall i :: 0 <= i < |w.executions| ==> !Locks(w.executions[i])
  }

  predicate Waits(s: Starter) {
    s == Rejected || s.RollingBack? || s.Finishing?
  }

  /** Whether a thread can take this action now. */
  predicate Enabled(w: World, a: Action) {
    match a
    case Acquire => LockFree(w) && w.shutdown.Open? && w.free > 0
    case Thread(i, move) => i < |w.executions| && Ready(w.executions[i], move) && (NeedsLock(move) ==> LockFree(w)) && (move.Transfer? ==> w.shutdown.Open?)
    case Evict(_) => true
    case BeginShutdown => LockFree(w) && w.shutdown.Open?
    case Ask(id, over) => w.shutdown.Closing? && CanAsk(w.shutdown, id, over)
    case EndShutdown =>
      && w.shutdown.Closing? && Left(w.shutdown) == {}
      && forall i :: i in w.shutdown.awaited ==> i < |w.executions| && Over(w.executions[i])
    case JoinShutdown => LockFree(w) && !w.shutdown.Open?
    case LeaveShutdown => w.shutdown.Closed? && w.waiting > 0
  }

  /** Leases come before sessions, and a request is finished before the next one begins. */
  predicate CanAsk(s: Shutdown, id: nat, over: bool)
    requires s.Closing?
  {
    (s.looks > 0 ==> id == s.asked) && (id in s.leases || (s.leases == {} && id in s.sessions)) && (over || s.looks < 2)
  }

  /** What shutdown has not cancelled yet, or never will. */
  function Left(s: Shutdown): set<nat> {
    if s.Closing? || s.Failed? then s.leases + s.sessions else {}
  }

  function Asked(s: Shutdown, id: nat, over: bool, known: bool): Shutdown
    requires s.Closing?
  {
    if !known then Failed(s.awaited, s.leases, s.sessions)
    else if over then s.(leases := s.leases - {id}, sessions := s.sessions - {id}, asked := id, looks := 0)
    else s.(asked := id, looks := s.looks + 1)
  }

  predicate NeedsLock(m: Move) {
    m.Transfer? || m.FinishLease? || m.RollBack? || m.Settle?
  }

  predicate Ready(e: Execution, m: Move) {
    match m
    case CreateRecord => e.starter == Creating
    case RefuseRecord => e.starter == Creating
    case Transfer => e.starter == Starting
    case StartMonitor => e.starter == Registered
    case ReturnHandle => e.starter == Handed
    case FinishLease => e.starter == Starting
    case RollBack => e.starter == Registered || e.starter == Handed
    case RollBackRaises => e.starter.RollingBack?
    case StarterReleases => Waits(e.starter)
    case MonitorFails => e.monitor == Watching
    case Settle(_) => e.monitor == Watching
    case MonitorReleases => e.monitor.Settled?
  }

  /** What shutdown waits for. */
  predicate Over(e: Execution) {
    if e.transferred then e.sessionDone else e.leaseDone
  }

  /** The execution after a move of one of its threads, and whether the permit is given back by it. */
  function Moved(e: Execution, m: Move, recordsKnown: bool): (Execution, bool) {
    match m
    case CreateRecord => (e.(starter := Starting), false)
    case RefuseRecord => (e.(starter := Rejected), false)
    case Transfer => (e.(starter := Registered, finished := true, transferred := true, leaseDone := true), false)
    case StartMonitor => (e.(starter := Handed, monitor := Watching), false)
    case ReturnHandle => (e.(starter := Done), false)
    case FinishLease => (e.(starter := Finishing(!e.transferred), finished := true), false)
    case RollBack => (e.(starter := RollingBack(!e.released), released := true), false)
    case RollBackRaises => (e.(starter := Done, lost := e.lost || StarterHolds(e)), false)
    case StarterReleases =>
      (e.(starter := Done, returned := e.returned + One(StarterHolds(e)),
          leaseDone := e.leaseDone || e.starter.Finishing?, sessionDone := e.sessionDone || e.starter.RollingBack?), StarterHolds(e))
    case MonitorFails => (e.(monitor := Raised), false)
    case Settle(_) =>
      (if recordsKnown then e.(monitor := Settled(!e.released), released := true) else e.(monitor := Raised), false)
    case MonitorReleases => (e.(monitor := Gone, returned := e.returned + One(MonitorHolds(e)), sessionDone := true), MonitorHolds(e))
  }

  /** The starting thread is about to give the permit back. */
  predicate StarterHolds(e: Execution) {
    e.starter == Rejected || ((e.starter.RollingBack? || e.starter.Finishing?) && e.starter.release)
  }

  predicate MonitorHolds(e: Execution) {
    e.monitor.Settled? && e.monitor.release
  }

  /** The retained sessions: pruning looks up the record of each and raises when one is missing. */
  function Listed(w: World, i: nat, m: Move): set<nat> {
    match m
    case Transfer => w.listed + {i}
    case RollBack => w.listed - {i}
    case Settle(pruned) => if w.listed <= w.known then w.listed - pruned else w.listed
    case _ => w.listed
  }

  function Next(w: World, a: Action): World
    requires Enabled(w, a)
  {
    match a
    case Acquire => w.(free := w.free - 1, executions := w.executions + [ACQUIRED])
    case Thread(i, m) =>
      var (e, release) := Moved(w.executions[i], m, w.listed <= w.known);
      w.(executions := w.executions[i := e], free := w.free + One(release), listed := Listed(w, i, m),
         known := if m.CreateRecord? then w.known + {i} else w.known)
    case Evict(id) => w.(known := w.known - {id})
    case BeginShutdown => w.(shutdown := Closing(w.listed + StartingOnes(w), StartingOnes(w), w.listed, 0, 0))
    case Ask(id, over) => w.(shutdown := Asked(w.shutdown, id, over, id in w.known))
    case EndShutdown => w.(shutdown := Closed(w.shutdown.awaited))
    case JoinShutdown => w.(waiting := w.waiting + 1)
    case LeaveShutdown => w.(waiting := w.waiting - 1)
  }

  function One(b: bool): nat {
    if b then 1 else 0
  }

  function StartingOnes(w: World): set<nat> {
    set i | 0 <= i < |w.executions| && w.executions[i].starter == Starting :: i
  }

  predicate Starts(w: World) {
    w.free == w.limit && w.executions == [] && w.listed == {} && w.known == {} && w.shutdown.Open? && w.waiting == 0
  }

  predicate Run(worlds: seq<World>, actions: seq<Action>) {
    && |worlds| == |actions| + 1 && Starts(worlds[0])
    && forall k :: 0 <= k < |actions| ==> Enabled(worlds[k], actions[k]) && worlds[k + 1] == Next(worlds[k], actions[k])
  }

  // ----- Permits that are out

  /** Permits of an execution that are not back: held by its lease, by its session, by a thread
      about to give it back, or lost. */
  function Out(e: Execution): nat {
    One(e.starter == Creating || e.starter == Starting) + One(e.transferred && !e.released) +
    One(StarterHolds(e)) + One(MonitorHolds(e)) + One(e.lost)
  }

  function AllOut(executions: seq<Execution>): nat {
    if executions == [] then 0 else AllOut(executions[..|executions| - 1]) + Out(executions[|executions| - 1])
  }

  /** What the flags of one execution always satisfy. */
  predicate Consistent(e: Execution) {
    && Out(e) + e.returned == 1
    && (e.starter == Creating || e.starter == Rejected || e.starter == Starting ==> !e.finished && !e.leaseDone)
    && (e.starter == Registered || e.starter == Handed || e.starter.RollingBack? ==> e.transferred)
    && (e.starter.Finishing? ==> e.finished && !e.transferred && e.starter.release)
    && (e.starter.RollingBack? ==> e.released)
    && (e.starter == Registered || !e.transferred ==> e.monitor == Idle && !e.sessionDone)
    && (e.starter == Registered || e.starter == Handed ==> !e.lost)
    && (e.starter == Handed ==> e.monitor != Idle)
    && (e.transferred ==> e.finished) && (e.released ==> e.transferred) && (e.lost ==> e.released)
    && (e.monitor.Settled? || e.monitor == Gone ==> e.released)
    && (e.leaseDone && !e.transferred ==> e.returned == 1)
  }

  ghost predicate ConsistentAt(es: seq<Execution>, i: nat) {
    i < |es| ==> Consistent(es[i])
  }

  ghost predicate AllConsistent(es: seq<Execution>) {
    forall i :: ConsistentAt(es, i)
  }

  ghost predicate Holds(w: World) {
    w.free + AllOut(w.executions) == w.limit && AllConsistent(w.executions)
  }

  lemma {:induction false} OutUpdate(es: seq<Execution>, i: nat, e: Execution)
    requires i < |es|
    ensures AllOut(es[i := e]) + Out(es[i]) == AllOut(es) + Out(e)
  {
    var n := |es| - 1;
    var after := es[i := e];
    if i == n {
      assert after[..n] == es[..n];
    } else {
      OutUpdate(es[..n], i, e);
      assert after[..n] == es[..n][i := e];
    }
  }

  lemma {:induction false} OutAppend(es: seq<Execution>, e: Execution)
    ensures AllOut(es + [e]) == AllOut(es) + Out(e)
  {
    assert (es + [e])[..|es|] == es;
  }

  lemma {:induction false} OutAtLeast(es: seq<Execution>, i: nat)
    requires i < |es|
    ensures Out(es[i]) <= AllOut(es)
  {
    if i < |es| - 1 {
      OutAtLeast(es[..|es| - 1], i);
    }
  }

  /** A move takes the permit of its execution along, and gives it back only when it is out. */
  ghost predicate Carries(e: Execution, m: Move, known: bool) {
    var (f, release) := Moved(e, m, known);
    Consistent(f) && Out(e) == Out(f) + One(release) && f.returned == e.returned + One(release)
  }

  lemma {:induction false} StartCarries(e: Execution, m: Move, known: bool)
    requires Consistent(e) && Ready(e, m) && (m.CreateRecord? || m.RefuseRecord? || m.StartMonitor? || m.ReturnHandle?)
    ensures Carries(e, m, known)
  {
  }

  lemma {:induction false} HandOverCarries(e: Execution, m: Move, known: bool)
    requires Consistent(e) && Ready(e, m) && (m.Transfer? || m.FinishLease?)
    ensures Carries(e, m, known)
  {
  }

  lemma {:induction false} RollBackCarries(e: Execution, m: Move, known: bool)
    requires Consistent(e) && Ready(e, m) && (m.RollBack? || m.RollBackRaises?)
    ensures Carries(e, m, known)
  {
  }

  lemma {:induction false} ReleaseCarries(e: Execution, known: bool)
    requires Consistent(e) && Ready(e, StarterReleases)
    ensures Carries(e, StarterReleases, known)
  {
  }

  lemma {:induction false} MonitorCarries(e: Execution, m: Move, known: bool)
    requires Consistent(e) && Ready(e, m) && m.MonitorReleases?
    ensures Carries(e, m, known)
  {
  }

  lemma {:induction false} SettleCarries(e: Execution, m: Move, known: bool)
    requires Consistent(e) && Ready(e, m) && (m.Settle? || m.MonitorFails?)
    ensures Carries(e, m, known)
  {
  }

  lemma {:induction false} MoveConsistent(e: Execution, m: Move, known: bool)
    requires Consistent(e) && Ready(e, m)
    ensures Carries(e, m, known)
  {
    match m
    case Transfer => HandOverCarries(e, m, known);
    case FinishLease => HandOverCarries(e, m, known);
    case RollBack => RollBackCarries(e, m, known);
    case RollBackRaises => RollBackCarries(e, m, known);
    case StarterReleases => ReleaseCarries(e, known);
    case Settle(_) => SettleCarries(e, m, known);
    case MonitorFails => SettleCarries(e, m, known);
    case MonitorReleases => MonitorCarries(e, m, known);
    case _ => StartCarries(e, m, known);
  }

  lemma {:induction false} UpdateConsistent(es: seq<Execution>, i: nat, e: Execution)
    requires AllConsistent(es) && i < |es| && Consistent(e)
    ensures AllConsistent(es[i := e])
  {
    var after := es[i := e];
    forall j ensures ConsistentAt(after, j) {
      assert ConsistentAt(es, j);
    }
  }

  lemma {:induction false} AppendConsistent(es: seq<Execution>)
    requires AllConsistent(es)
    ensures AllConsistent(es + [ACQUIRED])
  {
    var after := es + [ACQUIRED];
    forall j ensures ConsistentAt(after, j) {
      assert ConsistentAt(es, j);
    }
  }

  lemma {:induction false} StepHolds(w: World, a: Action)
    requires Holds(w) && Enabled(w, a)
    ensures Holds(Next(w, a))
  {
    match a
    case Acquire =>
      OutAppend(w.executions, ACQUIRED);
      AppendConsistent(w.executions);
    case Thread(i, m) =>
      assert ConsistentAt(w.executions, i);
      var (e, release) := Moved(w.executions[i], m, w.listed <= w.known);
      MoveConsistent(w.executions[i], m, w.listed <= w.known);
      OutUpdate(w.executions, i, e);
      UpdateConsistent(w.executions, i, e);
    case _ =>
  }

  lemma {:induction false} RunHolds(worlds: seq<World>, actions: seq<Action>, k: nat)
    requires Run(worlds, actions) && k < |worlds|
    ensures Holds(worlds[k])
  {
    if k > 0 {
      RunHolds(worlds, actions, k - 1);
      StepHolds(worlds[k - 1], actions[k - 1]);
    }
  }

  // ----- What follows

  /** Free permits, active leases, unreleased sessions and releases on their way always add up to
      the limit; no permit is given back twice; the bounded semaphore is never over-released. */
  lemma {:induction false} PermitsConserved(worlds: seq<World>, actions: seq<Action>, k: nat, i: nat)
    requires Run(worlds, actions) && k < |worlds| && i < |worlds[k].executions|
    ensures var w := worlds[k];
      && w.free + AllOut(w.executions) == w.limit
      && w.executions[i].returned <= 1 && (w.executions[i].returned == 1 <==> Out(w.executions[i]) == 0)
      && (StarterHolds(w.executions[i]) || MonitorHolds(w.executions[i]) ==> w.free < w.limit)
  {
    RunHolds(worlds, actions, k);
    assert ConsistentAt(worlds[k].executions, i);
    OutAtLeast(worlds[k].executions, i);
  }

  /** What the flags of a service say about its session once a thread of it is through. */
  predicate Followed(e: Execution) {
    && (e.starter == Done && e.monitor == Idle && e.transferred ==> e.released)
    && (e.sessionDone ==> e.released)
  }

  lemma {:induction false} MoveFollowed(e: Execution, m: Move, known: bool)
    requires Consistent(e) && Followed(e) && Ready(e, m)
    ensures Followed(Moved(e, m, known).0)
  {
  }

  lemma {:induction false} RunFollowed(worlds: seq<World>, actions: seq<Action>, k: nat, i: nat)
    requires Run(worlds, actions) && k < |worlds| && i < |worlds[k].executions|
    ensures Followed(worlds[k].executions[i])
  {
    if k > 0 {
      var w, a := worlds[k - 1], actions[k - 1];
      assert Enabled(w, a) && worlds[k] == Next(w, a);
      if i < |w.executions| {
        RunFollowed(worlds, actions, k - 1, i);
        if a.Thread? && a.i == i {
          RunHolds(worlds, actions, k - 1);
          assert ConsistentAt(w.executions, i);
          MoveFollowed(w.executions[i], a.move, w.listed <= w.known);
        }
      }
    }
  }

  /** Once the threads of an execution are gone, its permit is back, unless its rollback raised
      while holding it, or its monitor raised before anyone took it. */
  lemma {:induction false} PermitsComeBack(worlds: seq<World>, actions: seq<Action>, k: nat, i: nat)
    requires Run(worlds, actions) && k < |worlds| && i < |worlds[k].executions|
    requires var e := worlds[k].executions[i];
      e.starter == Done && (e.monitor == Idle || e.monitor == Gone || e.monitor == Raised)
    ensures var e := worlds[k].executions[i];
      e.returned == 1 <==> !e.lost && !(e.monitor == Raised && !e.released)
  {
    RunHolds(worlds, actions, k);
    RunFollowed(worlds, actions, k, i);
    assert ConsistentAt(worlds[k].executions, i);
  }

  /** With a store that evicts nothing, the records of all retained sessions are there. */
  lemma {:induction false} ListedAreKnown(worlds: seq<World>, actions: seq<Action>, k: nat)
    requires Run(worlds, actions) && k < |worlds| && forall m :: 0 <= m < |actions| ==> !actions[m].Evict?
    ensures worlds[k].listed <= worlds[k].known
    ensures forall i :: 0 <= i < |worlds[k].executions| && worlds[k].executions[i].starter == Starting ==> i in worlds[k].known
  {
    if k > 0 {
      ListedAreKnown(worlds, actions, k - 1);
      assert Enabled(worlds[k - 1], actions[k - 1]) && worlds[k] == Next(worlds[k - 1], actions[k - 1]);
    }
  }

  /** No record is evicted, and callees raise only what is caught. */
  predicate Undisturbed(actions: seq<Action>) {
    forall m :: 0 <= m < |actions| ==> !actions[m].Evict? && !(actions[m].Thread? && (actions[m].move.RollBackRaises? || actions[m].move.MonitorFails?))
  }

  lemma {:induction false} NothingRaises(worlds: seq<World>, actions: seq<Action>, k: nat, i: nat)
    requires Run(worlds, actions) && Undisturbed(actions) && k < |worlds| && i < |worlds[k].executions|
    ensures !worlds[k].executions[i].lost && worlds[k].executions[i].monitor != Raised
  {
    if k > 0 {
      assert Enabled(worlds[k - 1], actions[k - 1]) && worlds[k] == Next(worlds[k - 1], actions[k - 1]);
      ListedAreKnown(worlds, actions, k - 1);
      if i < |worlds[k - 1].executions| {
        NothingRaises(worlds, actions, k - 1, i);
      }
    }
  }

  /** Undisturbed, every execution whose threads are gone has given its permit back exactly once. */
  lemma {:induction false} EveryPermitReturns(worlds: seq<World>, actions: seq<Action>, k: nat, i: nat)
    requires Run(worlds, actions) && Undisturbed(actions) && k < |worlds| && i < |worlds[k].executions|
    requires var e := worlds[k].executions[i]; e.starter == Done && e.monitor != Watching && !e.monitor.Settled?
    ensures worlds[k].executions[i].returned == 1 && Out(worlds[k].executions[i]) == 0
  {
    NothingRaises(worlds, actions, k, i);
    PermitsComeBack(worlds, actions, k, i);
    PermitsConserved(worlds, actions, k, i);
  }

  // ----- Shutdown

  /** After the shutdown began, every lease that was active is awaited. */
  ghost predicate ShutHolds(w: World) {
    !w.shutdown.Open? ==>
      && (forall i :: ShutAt(w.executions, w.shutdown.awaited, i))
      && (w.shutdown.Closed? ==> forall i :: i in w.shutdown.awaited ==> i < |w.executions| && Over(w.executions[i]))
  }

  ghost predicate ShutAt(es: seq<Execution>, awaited: set<nat>, i: nat) {
    i < |es| ==> !Locks(es[i]) && (es[i].starter == Starting ==> i in awaited)
  }

  lemma {:induction false} OverStays(e: Execution, m: Move, known: bool)
    requires Consistent(e) && Ready(e, m) && Over(e)
    ensures Over(Moved(e, m, known).0)
  {
  }

  /** A move never makes a lease active, nor lets a thread take the lock that did not have it. */
  lemma {:induction false} MoveStartsNothing(e: Execution, m: Move, known: bool)
    requires Ready(e, m)
    ensures Moved(e, m, known).0.starter == Starting ==> e.starter == Starting || Locks(e)
    ensures Locks(Moved(e, m, known).0) ==> Locks(e)
  {
  }

  /** While shutting down, a move of one thread keeps every lease awaited. */
  lemma {:induction false} ShutThread(w: World, i: nat, m: Move)
    requires !w.shutdown.Open? && Enabled(w, Thread(i, m)) && forall j :: ShutAt(w.executions, w.shutdown.awaited, j)
    ensures forall j :: ShutAt(Next(w, Thread(i, m)).executions, w.shutdown.awaited, j)
  {
    var v := Next(w, Thread(i, m));
    assert ShutAt(w.executions, w.shutdown.awaited, i);
    MoveStartsNothing(w.executions[i], m, w.listed <= w.known);
    forall j ensures ShutAt(v.executions, w.shutdown.awaited, j) {
      assert ShutAt(w.executions, w.shutdown.awaited, j);
    }
  }

  /** What shutdown waited for stays over. */
  lemma {:induction false} OverThread(w: World, i: nat, m: Move, awaited: set<nat>)
    requires Holds(w) && Enabled(w, Thread(i, m))
    requires forall j :: j in awaited ==> j < |w.executions| && Over(w.executions[j])
    ensures forall j :: j in awaited ==> j < |w.executions| && Over(Next(w, Thread(i, m)).executions[j])
  {
    assert ConsistentAt(w.executions, i);
    if i in awaited {
      OverStays(w.executions[i], m, w.listed <= w.known);
    }
  }

  lemma {:induction false} ShutBegins(w: World)
    requires LockFree(w)
    ensures forall j :: ShutAt(w.executions, w.listed + StartingOnes(w), j)
  {
  }

  lemma {:induction false} ShutStep(w: World, a: Action)
    requires Holds(w) && ShutHolds(w) && Enabled(w, a)
    ensures ShutHolds(Next(w, a))
    ensures !w.shutdown.Open? ==> |Next(w, a).executions| == |w.executions|
  {
    match a
    case Thread(i, m) =>
      if !w.shutdown.Open? {
        ShutThread(w, i, m);
        if w.shutdown.Closed? {
          OverThread(w, i, m, w.shutdown.awaited);
        }
      }
    case BeginShutdown => ShutBegins(w);
    case _ =>
  }

  lemma {:induction false} RunShuts(worlds: seq<World>, actions: seq<Action>, k: nat)
    requires Run(worlds, actions) && k < |worlds|
    ensures ShutHolds(worlds[k])
  {
    if k > 0 {
      RunShuts(worlds, actions, k - 1);
      RunHolds(worlds, actions, k - 1);
      assert Enabled(worlds[k - 1], actions[k - 1]) && worlds[k] == Next(worlds[k - 1], actions[k - 1]);
      ShutStep(worlds[k - 1], actions[k - 1]);
    }
  }

  /** After shutdown returned no lease is active, and whatever it waited for has given its permit
      back, unless a rollback lost it or the slower of rollback and monitor is still to give it back. */
  lemma {:induction false} ShutdownSettles(worlds: seq<World>, actions: seq<Action>, k: nat, i: nat)
    requires Run(worlds, actions) && k < |worlds| && worlds[k].shutdown.Closed? && i < |worlds[k].executions|
    ensures worlds[k].executions[i].starter != Starting && worlds[k].executions[i].starter != Creating
    ensures i in worlds[k].shutdown.awaited ==>
      var e := worlds[k].executions[i];
      e.returned == 1 || e.lost || (e.transferred && (StarterHolds(e) || MonitorHolds(e)))
  {
    RunHolds(worlds, actions, k);
    RunShuts(worlds, actions, k);
    RunFollowed(worlds, actions, k, i);
    assert ConsistentAt(worlds[k].executions, i) && ShutAt(worlds[k].executions, worlds[k].shutdown.awaited, i);
  }
}
