/** Rows of the execution database: what is written for a record or an event, how it is read
    back, and the round trip between the two. */
module ExecutionRows {
  import opened Executions
  import opened Wrappers

  /** A signed 64-bit column. */
  predicate Fits(n: int) {
    -0x8000_0000_0000_0000 <= n < 0x8000_0000_0000_0000
  }

  predicate FitsIfAny(n: Option<int>) {
    n.Some? ==> Fits(n.value)
  }

  datatype Row = Row(kind: string, name: string, tool: Option<string>, mode: string, state: string,
                     createdAt: real, updatedAt: real, startedAt: Option<real>, finishedAt: Option<real>,
                     exitCode: Option<int>, reason: Option<string>, summary: Option<string>, counters: Counters)

  /** The nine resource columns. */
  datatype Counters = Counters(wall: Option<int>, cpu: Option<int>, peak: Option<int>, initial: Option<int>, final: Option<int>,
                               growth: Option<int>, stdout: Option<int>, stderr: Option<int>, output: Option<int>)
  {
    predicate Fit() {
      && FitsIfAny(wall) && FitsIfAny(cpu) && FitsIfAny(peak) && FitsIfAny(initial) && FitsIfAny(final)
      && FitsIfAny(growth) && FitsIfAny(stdout) && FitsIfAny(stderr) && FitsIfAny(output)
    }
  }

  const NO_COUNTERS := Counters(None, None, None, None, None, None, None, None, None)

  datatype EventRow = EventRow(kind: string, timestamp: real, from: Option<string>, to: string, reason: Option<string>, summary: Option<string>)

  predicate RowFits(row: Row) {
    FitsIfAny(row.exitCode) && row.counters.Fit()
  }

  // ----- Enumerations as text

  function StateText(s: State): string {
    match s
    case Starting => "starting"
    case Running => "running"
    case Cancelling => "cancelling"
    case Succeeded => "succeeded"
    case Failed => "failed"
    case Cancelled => "cancelled"
    case TimedOut => "timed_out"
    case Crashed => "crashed"
  }

  function StateOf(text: string): Option<State> {
    if text == "starting" then Some(Starting)
    else if text == "running" then Some(Running)
    else if text == "cancelling" then Some(Cancelling)
    else if text == "succeeded" then Some(Succeeded)
    else if text == "failed" then Some(Failed)
    else if text == "cancelled" then Some(Cancelled)
    else if text == "timed_out" then Some(TimedOut)
    else if text == "crashed" then Some(Crashed)
    else None
  }

  function ReasonText(r: Reason): string {
    match r
    case UserCancelled => "user_cancelled"
    case ClientCancelled => "client_cancelled"
    case ServerShutdown => "server_shutdown"
    case Timeout => "timeout"
    case WorkspaceLimitExceeded => "workspace_limit_exceeded"
    case ArtifactLimitExceeded => "artifact_limit_exceeded"
    case ArtifactPolicyViolation => "artifact_policy_violation"
    case OutputLimitExceeded => "output_limit_exceeded"
    case ArtifactCollectionFailed => "artifact_collection_failed"
    case RuntimeStartFailed => "runtime_start_failed"
    case RuntimeMonitorFailed => "runtime_monitor_failed"
    case CleanupFailed => "cleanup_failed"
    case ServerRestarted => "server_restarted"
  }

  function ReasonOf(text: string): Option<Reason> {
    if text == "user_cancelled" then Some(UserCancelled)
    else if text == "client_cancelled" then Some(ClientCancelled)
    else if text == "server_shutdown" then Some(ServerShutdown)
    else if text == "timeout" then Some(Timeout)
    else if text == "workspace_limit_exceeded" then Some(WorkspaceLimitExceeded)
    else if text == "artifact_limit_exceeded" then Some(ArtifactLimitExceeded)
    else if text == "artifact_policy_violation" then Some(ArtifactPolicyViolation)
    else if text == "output_limit_exceeded" then Some(OutputLimitExceeded)
    else if text == "artifact_collection_failed" then Some(ArtifactCollectionFailed)
    else if text == "runtime_start_failed" then Some(RuntimeStartFailed)
    else if text == "runtime_monitor_failed" then Some(RuntimeMonitorFailed)
    else if text == "cleanup_failed" then Some(CleanupFailed)
    else if text == "server_restarted" then Some(ServerRestarted)
    else None
  }

  function KindOf(text: string): Option<Kind> {
    if text == "task" then Some(Task) else if text == "profile" then Some(Profile) else None
  }

  function ModeOf(text: string): Option<Mode> {
    if text == "run" then Some(Run) else if text == "service" then Some(Service) else None
  }

  function EventKindText(k: EventKind): string {
    match k
    case Created => "created"
    case CancellationRequested => "cancellation_requested"
    case StateTransition => "state_transition"
  }

  function EventKindOf(text: string): Option<EventKind> {
    if text == "created" then Some(Created)
    else if text == "cancellation_requested" then Some(CancellationRequested)
    else if text == "state_transition" then Some(StateTransition)
    else None
  }

  lemma {:induction false} StateTextReads(s: State)
    ensures StateOf(StateText(s)) == Some(s)
  {
    match s
    case Starting =>
    case Running =>
    case Cancelling =>
    case Succeeded =>
    case Failed =>
    case Cancelled =>
    case TimedOut =>
    case Crashed =>
  }

  lemma {:induction false} ReasonTextReads(r: Reason)
    ensures ReasonOf(ReasonText(r)) == Some(r)
  {
    var text := ReasonText(r);
    match r
    case UserCancelled =>
    case ClientCancelled => assert |text| == 16;
    case ServerShutdown => assert |text| == 15;
    case Timeout => assert |text| == 7;
    case WorkspaceLimitExceeded => assert |text| == 24;
    case ArtifactLimitExceeded => assert |text| == 23;
    case ArtifactPolicyViolation => assert text[9] == 'p';
    case OutputLimitExceeded => assert |text| == 21;
    case ArtifactCollectionFailed => assert |text| == 26;
    case RuntimeStartFailed => assert |text| == 20;
    case RuntimeMonitorFailed => assert |text| == 22;
    case CleanupFailed => assert |text| == 14 && text[0] == 'c' && text[1] == 'l' && text[2] == 'e';
    case ServerRestarted => assert text[7] == 'r';
  }

  /** An optional enumeration: a text that is no member spoils the row. */
  function ReasonColumn(text: Option<string>): Result<Option<Reason>> {
    if text.None? then Ok(None)
    else if ReasonOf(text.value).None? then Err(Corrupt)
    else Ok(ReasonOf(text.value))
  }

  function ReasonCell(r: Option<Reason>): Option<string> {
    if r.None? then None else Some(ReasonText(r.value))
  }

  lemma {:induction false} ReasonCellReads(r: Option<Reason>)
    ensures ReasonColumn(ReasonCell(r)) == Ok(r)
  {
    if r.Some? {
      ReasonTextReads(r.value);
    }
  }

  lemma {:induction false} ReasonIsWritten(text: Option<string>)
    requires ReasonColumn(text).Ok?
    ensures ReasonCell(ReasonColumn(text).value) == text
  {
    if text.Some? {
      ReasonOfReads(text.value);
    }
  }

  lemma {:induction false} ReasonOfReads(text: string)
    ensures ReasonOf(text).Some? ==> ReasonText(ReasonOf(text).value) == text
  {
    if text == "user_cancelled" {
      assert ReasonOf(text) == Some(UserCancelled);
    } else if text == "client_cancelled" {
      assert ReasonOf(text) == Some(ClientCancelled);
    } else if text == "server_shutdown" {
      assert ReasonOf(text) == Some(ServerShutdown);
    } else if text == "timeout" {
      assert ReasonOf(text) == Some(Timeout);
    } else if text == "workspace_limit_exceeded" {
      assert ReasonOf(text) == Some(WorkspaceLimitExceeded);
    } else if text == "artifact_limit_exceeded" {
      assert ReasonOf(text) == Some(ArtifactLimitExceeded);
    } else if text == "artifact_policy_violation" {
      assert ReasonOf(text) == Some(ArtifactPolicyViolation);
    } else if text == "output_limit_exceeded" {
      assert ReasonOf(text) == Some(OutputLimitExceeded);
    } else if text == "artifact_collection_failed" {
      assert ReasonOf(text) == Some(ArtifactCollectionFailed);
    } else if text == "runtime_start_failed" {
      assert ReasonOf(text) == Some(RuntimeStartFailed);
    } else if text == "runtime_monitor_failed" {
      assert ReasonOf(text) == Some(RuntimeMonitorFailed);
    } else if text == "cleanup_failed" {
      assert ReasonOf(text) == Some(CleanupFailed);
    } else if text == "server_restarted" {
      assert ReasonOf(text) == Some(ServerRestarted);
    }
  }

  lemma {:induction false} StateIsWritten(text: string)
    requires StateOf(text).Some?
    ensures StateText(StateOf(text).value) == text
  {
  }

  // ----- Resources

  function ToColumns(r: Option<Resources>): Counters {
    if r.None? then NO_COUNTERS else
      var u := r.value;
      Counters(Some(u.wallMillis), u.cpuMillis, u.peakBytes, u.initialBytes, u.finalBytes, u.growthBytes,
               Some(u.stdoutBytes), Some(u.stderrBytes), Some(u.outputBytes))
  }

  predicate Natural(n: Option<int>) {
    n.Some? ==> n.value >= 0
  }

  function AsNat(n: Option<int>): Option<nat>
    requires Natural(n)
  {
    if n.None? then None else Some(n.value)
  }

  function FromColumns(c: Counters): Result<Option<Resources>> {
    if c.wall.None? then
      if c == NO_COUNTERS then Ok(None) else Err(Corrupt)
    else if c.stdout.None? || c.stderr.None? || c.output.None? then Err(Corrupt)
    else if !(Natural(c.wall) && Natural(c.cpu) && Natural(c.peak) && Natural(c.initial) && Natural(c.final) && Natural(c.growth) &&
              Natural(c.stdout) && Natural(c.stderr) && Natural(c.output)) then Err(Corrupt)
    else
      var u := Resources(c.wall.value, AsNat(c.cpu), AsNat(c.peak), AsNat(c.initial), AsNat(c.final), AsNat(c.growth),
                         c.stdout.value, c.stderr.value, c.output.value);
      if u.Valid() then Ok(Some(u)) else Err(Corrupt)
  }

  lemma {:induction false} ColumnsRead(r: Option<Resources>)
    requires r.Some? ==> r.value.Valid()
    ensures FromColumns(ToColumns(r)) == Ok(r)
  {
    if r.Some? {
      assert AsNat(r.value.cpuMillis) == r.value.cpuMillis;
    }
  }

  lemma {:induction false} ColumnsAreWritten(c: Counters)
    requires FromColumns(c).Ok?
    ensures ToColumns(FromColumns(c).value) == c
    ensures FromColumns(c).value.Some? ==> FromColumns(c).value.value.Valid()
  {
  }

  // ----- Records

  function ToRow(r: Record): Row {
    Row(if r.kind == Task then "task" else "profile", r.name, r.tool, if r.mode == Run then "run" else "service", StateText(r.state),
        r.createdAt, r.updatedAt, r.startedAt, r.finishedAt, r.exitCode, ReasonCell(r.reason), r.summary, ToColumns(r.resources))
  }

  function FromRow(id: string, row: Row): Result<Record> {
    var kind, mode, state := KindOf(row.kind), ModeOf(row.mode), StateOf(row.state);
    var reason, resources := ReasonColumn(row.reason), FromColumns(row.counters);
    if kind.None? || mode.None? || state.None? || reason.Err? || resources.Err? then Err(Corrupt)
    else
      var r := Record(id, kind.value, row.name, row.tool, mode.value, state.value, row.createdAt, row.updatedAt,
                      row.startedAt, row.finishedAt, row.exitCode, reason.value, row.summary, resources.value);
      if r.Valid() then Ok(r) else Err(Corrupt)
  }

  /** The texts that the tables hold for states. */
  lemma {:induction false} StateNames(s: State)
    ensures s == Starting ==> StateText(s) == "starting"
    ensures s == Running ==> StateText(s) == "running"
    ensures s == Cancelling ==> StateText(s) == "cancelling"
    ensures s == Succeeded ==> StateText(s) == "succeeded"
    ensures s == Failed ==> StateText(s) == "failed"
    ensures s == Cancelled ==> StateText(s) == "cancelled"
    ensures s == TimedOut ==> StateText(s) == "timed_out"
    ensures s == Crashed ==> StateText(s) == "crashed"
  {
  }

  /** And for reasons that end a run from outside or beyond a limit. */
  lemma {:induction false} ReasonNames(r: Reason)
    ensures r == UserCancelled ==> ReasonText(r) == "user_cancelled"
    ensures r == ClientCancelled ==> ReasonText(r) == "client_cancelled"
    ensures r == ServerShutdown ==> ReasonText(r) == "server_shutdown"
    ensures r == Timeout ==> ReasonText(r) == "timeout"
    ensures r == WorkspaceLimitExceeded ==> ReasonText(r) == "workspace_limit_exceeded"
    ensures r == ArtifactLimitExceeded ==> ReasonText(r) == "artifact_limit_exceeded"
    ensures r == ArtifactPolicyViolation ==> ReasonText(r) == "artifact_policy_violation"
    ensures r == OutputLimitExceeded ==> ReasonText(r) == "output_limit_exceeded"
  {
  }

  /** And for those of crashes. */
  lemma {:induction false} CrashNames(r: Reason)
    ensures r == ArtifactCollectionFailed ==> ReasonText(r) == "artifact_collection_failed"
    ensures r == RuntimeStartFailed ==> ReasonText(r) == "runtime_start_failed"
    ensures r == RuntimeMonitorFailed ==> ReasonText(r) == "runtime_monitor_failed"
    ensures r == CleanupFailed ==> ReasonText(r) == "cleanup_failed"
    ensures r == ServerRestarted ==> ReasonText(r) == "server_restarted"
  {
  }

  /** And for kinds of events. */
  lemma {:induction false} EventKindNames(k: EventKind)
    ensures k == Created ==> EventKindText(k) == "created"
    ensures k == CancellationRequested ==> EventKindText(k) == "cancellation_requested"
    ensures k == StateTransition ==> EventKindText(k) == "state_transition"
  {
  }

  /** A row can be written when its ten numbers are signed 64-bit numbers. */
  lemma {:induction false} RowFitsWhen(r: Record)
    ensures RowFits(ToRow(r)) <==>
      && (r.exitCode.Some? ==> -9223372036854775808 <= r.exitCode.value <= 9223372036854775807)
      && (r.resources.Some? ==>
          var u := r.resources.value;
          && Small(Some(u.wallMillis)) && Small(u.cpuMillis) && Small(u.peakBytes) && Small(u.initialBytes) && Small(u.finalBytes)
          && Small(u.growthBytes) && Small(Some(u.stdoutBytes)) && Small(Some(u.stderrBytes)) && Small(Some(u.outputBytes)))
  {
  }

  predicate Small(n: Option<nat>) {
    n.Some? ==> n.value <= 9223372036854775807
  }

  /** Every column of a row holds the field that it is named after. */
  lemma {:induction false} ColumnsHold(r: Record)
    ensures var row := ToRow(r);
      && row.name == r.name && row.tool == r.tool && row.createdAt == r.createdAt && row.updatedAt == r.updatedAt
      && row.startedAt == r.startedAt && row.finishedAt == r.finishedAt && row.exitCode == r.exitCode && row.summary == r.summary
      && row.state == StateText(r.state) && (r.reason.Some? ==> row.reason == Some(ReasonText(r.reason.value))) && (r.reason.None? ==> row.reason.None?)
      && (r.kind == Kind.Task ==> row.kind == "task") && (r.kind == Kind.Profile ==> row.kind == "profile")
      && (r.mode == Mode.Run ==> row.mode == "run") && (r.mode == Mode.Service ==> row.mode == "service")
    ensures r.resources.Some? ==> var (u, c) := (r.resources.value, ToRow(r).counters);
      && c.wall == Some(u.wallMillis) && c.cpu == u.cpuMillis && c.peak == u.peakBytes && c.initial == u.initialBytes && c.final == u.finalBytes
      && c.growth == u.growthBytes && c.stdout == Some(u.stdoutBytes) && c.stderr == Some(u.stderrBytes) && c.output == Some(u.outputBytes)
  {
  }

  lemma {:induction false} EventColumnsHold(e: Event)
    ensures var row := ToEventRow(e);
      && row.kind == EventKindText(e.kind) && row.timestamp == e.timestamp && row.to == StateText(e.to) && row.summary == e.summary
      && (e.from.Some? ==> row.from == Some(StateText(e.from.value))) && (e.from.None? ==> row.from.None?)
      && (e.reason.Some? ==> row.reason == Some(ReasonText(e.reason.value))) && (e.reason.None? ==> row.reason.None?)
  {
  }

  /** What is written for a record reads back as that record. */
  lemma {:induction false} RecordRoundTrip(r: Record)
    requires r.Valid()
    ensures FromRow(r.id, ToRow(r)) == Ok(r)
  {
    StateTextReads(r.state);
    ReasonCellReads(r.reason);
    ColumnsRead(r.resources);
  }

  /** Whatever row reads as a record is the row written for it. */
  lemma {:induction false} ReadRowsAreWritten(id: string, row: Row)
    requires FromRow(id, row).Ok?
    ensures ToRow(FromRow(id, row).value) == row && FromRow(id, row).value.id == id && FromRow(id, row).value.Valid()
  {
    ReasonIsWritten(row.reason);
    ColumnsAreWritten(row.counters);
    StateIsWritten(row.state);
  }

  // ----- Events

  function ToEventRow(e: Event): EventRow {
    EventRow(EventKindText(e.kind), e.timestamp, if e.from.None? then None else Some(StateText(e.from.value)), StateText(e.to),
             ReasonCell(e.reason), e.summary)
  }

  function FromEventRow(id: string, sequence: nat, row: EventRow): Result<Event> {
    var kind, to, reason := EventKindOf(row.kind), StateOf(row.to), ReasonColumn(row.reason);
    if kind.None? || to.None? || reason.Err? || (row.from.Some? && StateOf(row.from.value).None?) then Err(Corrupt)
    else
      var e := Event(id, sequence, row.timestamp, kind.value, if row.from.None? then None else StateOf(row.from.value), to.value,
                     reason.value, row.summary);
      if e.Valid() then Ok(e) else Err(Corrupt)
  }

  /** What is written for an event reads back as that event. */
  lemma {:induction false} EventRoundTrip(e: Event)
    requires e.Valid()
    ensures FromEventRow(e.id, e.sequence, ToEventRow(e)) == Ok(e)
  {
    StateTextReads(e.to);
    if e.from.Some? {
      StateTextReads(e.from.value);
    }
    ReasonCellReads(e.reason);
    assert EventKindOf(EventKindText(e.kind)) == Some(e.kind);
  }
}
