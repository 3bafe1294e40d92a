/** The SQLite execution store: four tables changed in transactions, representing the same
    entries as the in-memory store. */
module SqliteStores {
  import opened Executions
  import opened ExecutionHistory
  import opened ExecutionRows
  import opened ExecutionStores
  import opened Wrappers

  type EventTable = map<(string, nat), EventRow>
  type ArtifactTable = map<string, Artifact>

  // ----- What the tables represent

  ghost predicate RowsRepresent(entries: Entries, rows: map<string, Row>, flags: map<string, int>) {
    rows.Keys == entries.Keys == flags.Keys && forall id :: KeepsRow(entries, rows, flags, id)
  }

  ghost predicate KeepsRow(entries: Entries, rows: map<string, Row>, flags: map<string, int>, id: string) {
    id in entries ==>
      && id in rows && rows[id] == ToRow(entries[id].record)
      && id in flags && flags[id] == if entries[id].complete then 1 else 0
  }

  ghost predicate EventsRepresent(entries: Entries, table: EventTable) {
    forall id, n :: KeepsEvent(entries, table, id, n)
  }

  ghost predicate KeepsEvent(entries: Entries, table: EventTable, id: string, n: nat) {
    && ((id, n) in table <==> id in entries && 1 <= n <= |entries[id].events|)
    && ((id, n) in table ==> table[(id, n)] == ToEventRow(entries[id].events[n - 1]))
  }

  /** The artifact `a` belongs to the manifest of some execution. */
  ghost predicate Owned(entries: Entries, a: Artifact) {
    a.executionId in entries && a in entries[a.executionId].artifacts
  }

  ghost predicate ArtifactsRepresent(entries: Entries, table: ArtifactTable) {
    && (forall k :: k in table ==> table[k].id == k && Owned(entries, table[k]))
    && (forall a: Artifact :: Owned(entries, a) ==> a.id in table && table[a.id] == a)
  }

  ghost predicate Represents(entries: Entries, rows: map<string, Row>, flags: map<string, int>, events: EventTable, artifacts: ArtifactTable) {
    RowsRepresent(entries, rows, flags) && EventsRepresent(entries, events) && ArtifactsRepresent(entries, artifacts)
  }

  /** The ids of the artifacts of one execution. */
  function OwnIds(table: ArtifactTable, id: string): set<string> {
    set k | k in table && table[k].executionId == id
  }

  function ItemsOf(items: seq<Artifact>): set<Artifact> {
    set a | a in items
  }

  // ----- Where the database differs from memory

  /** Another execution already has an artifact of this id. */
  ghost predicate Taken(entries: Entries, id: string, artifactId: string) {
    exists a: Artifact :: Owned(entries, a) && a.executionId != id && a.id == artifactId
  }

  /** The first artifact that cannot be inserted, if any. */
  ghost function InsertProblem(entries: Entries, id: string, manifest: seq<Artifact>): Option<StoreError> {
    if manifest == [] then None
    else
      var front, last := manifest[..|manifest| - 1], manifest[|manifest| - 1];
      if InsertProblem(entries, id, front).Some? then InsertProblem(entries, id, front)
      else if !Fits(last.size) then Some(Overflow)
      else if Taken(entries, id, last.id) then Some(Database)
      else None
  }

  /** A transition in the database: as in memory, unless a number or an artifact id does not go in. */
  ghost function TransitionInTables(entries: Entries, id: string, expected: set<State>, c: Change, now: real): Result<Entry> {
    var attempt := TransitionIn(entries, id, expected, c, now);
    if attempt.Err? then attempt
    else if !RowFits(ToRow(attempt.value.record)) then Err(Overflow)
    else
      var problem := InsertProblem(entries, id, c.manifest.GetOr([]));
      if problem.Some? then Err(problem.value) else attempt
  }

  lemma {:induction false} TransitionWritten(entries: Entries, id: string, expected: set<State>, c: Change, now: real)
    ensures var attempt := TransitionInTables(entries, id, expected, c, now);
      attempt.Ok? ==> id in entries && TransitionRecorded(entries[id], c, now, attempt.value)
  {
    if TransitionInTables(entries, id, expected, c, now).Ok? {
      TransitionRecords(entries[id], expected, c, now);
    }
  }

  class SqliteExecutionStore {
    var executions: map<string, Row>
    var eventRows: EventTable
    var manifestRows: map<string, int>
    var artifactRows: ArtifactTable
    ghost var entries: Entries

    ghost predicate Valid()
      reads this
    {
      AllTraced(entries) && Represents(entries, executions, manifestRows, eventRows, artifactRows)
    }

    constructor ()
      ensures Valid() && entries == map[]
    {
      executions, eventRows, manifestRows, artifactRows, entries := map[], map[], map[], map[], map[];
    }

    method Create(r: Record) returns (result: Result<()>)
      requires Valid() && r.Valid()
      modifies this
      ensures Valid()
      ensures entries == Stored(old(entries), r.id, CreateIn(old(entries), r))
      ensures result == if CreateIn(old(entries), r).Ok? then Ok(()) else Err(CreateIn(old(entries), r).error)
      ensures result.Ok? ==> entries == old(entries)[r.id := Entry(r, [Event(r.id, 1, r.createdAt, Created, None, Starting, None, None)], [], false)]
    {
      if CreateEntry(r).Ok? {
        CreationRecords(r);
      }
      CreateKeepsTraced(entries, r);
      var event := CreatedEvent(r);
      if !event.Valid() {
        return Err(InvalidRecord);
      }
      if r.id in executions {
        return Err(Duplicate);
      }
      NewEntryRepresents(entries, executions, manifestRows, eventRows, artifactRows, r);
      Replace(executions[r.id := ToRow(r)], manifestRows[r.id := 0], eventRows[(r.id, 1) := ToEventRow(event)], artifactRows,
              entries[r.id := CreateEntry(r).value]);
      return Ok(());
    }

    method Get(id: string) returns (result: Result<Record>)
      requires Valid()
      ensures result == if id in entries then Ok(entries[id].record) else Err(Unknown)
    {
      if id !in executions {
        return Err(Unknown);
      }
      ReadsBack(entries, executions, manifestRows, id);
      return FromRow(id, executions[id]);
    }

    method Transition(id: string, expected: set<State>, c: Change, now: real) returns (result: Result<Record>)
      requires Valid()
      modifies this
      ensures Valid()
      ensures result == RecordOf(TransitionInTables(old(entries), id, expected, c, now))
      ensures entries == Stored(old(entries), id, TransitionInTables(old(entries), id, expected, c, now))
      ensures result.Ok? ==> id in old(entries) && id in entries && result.value == entries[id].record
      ensures result.Ok? ==> TransitionRecorded(old(entries)[id], c, now, entries[id])
    {
      TransitionKeepsTraced(entries, id, expected, c, now);
      TransitionWritten(entries, id, expected, c, now);
      if expected == {} {
        return Err(InvalidArgument);
      }
      var current :- Get(id);
      if current.state !in expected {
        return Err(Conflict);
      }
      if !Allowed(current.state, c.state) {
        return Err(IllegalTransition);
      }
      var updated := Moved(current, c, now);
      if !updated.Valid() {
        return Err(InvalidRecord);
      }
      if !AcceptsManifest(id, c.manifest, updated.state.IsTerminal()) {
        return Err(InvalidArgument);
      }
      var last := MaxSequence(id);
      ghost var entry := TransitionIn(entries, id, expected, c, now).value;
      var written :- WriteTransition(id, updated, TransitionEvent(current, updated, last + 1), c.manifest, entry);
      return Ok(updated);
    }

    /** The statements of a transition behind its checks; nothing is committed if one fails. */
    method WriteTransition(id: string, updated: Record, event: Event, manifest: Option<seq<Artifact>>, ghost entry: Entry) returns (result: Result<()>)
      requires Valid() && id in entries && AllTraced(entries[id := entry]) && AcceptsManifest(id, manifest, true)
      requires entry == Entry(updated, entries[id].events + [event], manifest.GetOr(entries[id].artifacts), entries[id].complete || manifest.Some?)
      requires event.sequence == |entry.events|
      modifies this
      ensures Valid()
      ensures var problem := InsertProblem(old(entries), id, manifest.GetOr([]));
        result == if !RowFits(ToRow(updated)) then Err(Overflow) else if problem.Some? then Err(problem.value) else Ok(())
      ensures entries == if result.Ok? then old(entries)[id := entry] else old(entries)
    {
      var row := ToRow(updated);
      if !RowFits(row) {
        return Err(Overflow);
      }
      var tables :- ReplaceManifest(id, manifest, entry);
      var (flags, artifacts) := tables;
      TransitionRepresents(entries, executions, manifestRows, eventRows, artifactRows, id, entry, event, flags, artifacts);
      Replace(executions[id := row], flags, eventRows[(id, event.sequence) := ToEventRow(event)], artifacts, entries[id := entry]);
      return Ok(());
    }

    /** The manifest and its flag, on copies of their tables. */
    method ReplaceManifest(id: string, manifest: Option<seq<Artifact>>, ghost entry: Entry) returns (result: Result<(map<string, int>, ArtifactTable)>)
      requires Valid() && id in entries && AcceptsManifest(id, manifest, true) && entry.artifacts == manifest.GetOr(entries[id].artifacts)
      ensures InsertProblem(entries, id, manifest.GetOr([])) == if result.Ok? then None else Some(result.error)
      ensures result.Ok? ==> ArtifactsRepresent(entries[id := entry], result.value.1)
      ensures result.Ok? ==> result.value.0 == if manifest.Some? then manifestRows[id := 1] else manifestRows
    {
      if manifest.None? {
        SameManifest(entries, artifactRows, id, entry);
        return Ok((manifestRows, artifactRows));
      }
      var artifacts :- InsertManifest(id, manifest.value, entry);
      return Ok((manifestRows[id := 1], artifacts));
    }

    method RequestCancellation(id: string, expected: set<State>, reason: Reason, now: real) returns (result: Result<Record>)
      requires Valid()
      modifies this
      ensures Valid()
      ensures result == RecordOf(CancelIn(old(entries), id, expected, reason, now))
      ensures entries == Stored(old(entries), id, CancelIn(old(entries), id, expected, reason, now))
      ensures result.Ok? ==> id in old(entries) && id in entries && result.value == entries[id].record
      ensures result.Ok? ==> CancellationRecorded(old(entries)[id], reason, now, entries[id])
    {
      CancelStays(entries, id, expected, reason, now);
      CancelKeepsTraced(entries, id, expected, reason, now);
      if expected == {} {
        return Err(InvalidArgument);
      }
      var current :- Get(id);
      if current.state !in expected {
        return Err(Conflict);
      }
      if !Allowed(current.state, Cancelling) {
        return Err(IllegalTransition);
      }
      var updated := Moved(current, Cancellation(reason), now);
      if !updated.Valid() {
        return Err(InvalidRecord);
      }
      var last := MaxSequence(id);
      var requested := RequestedEvent(current, reason, last + 1, now);
      var event := TransitionEvent(current, updated, last + 2);
      ghost var entry := CancelIn(entries, id, expected, reason, now).value;
      WriteCancellation(id, updated, requested, event, entry);
      return Ok(updated);
    }

    /** The statements of a cancellation request behind its checks. */
    method WriteCancellation(id: string, updated: Record, requested: Event, event: Event, ghost entry: Entry)
      requires Valid() && id in entries && AllTraced(entries[id := entry])
      requires entry == entries[id].(record := updated, events := entries[id].events + [requested, event])
      requires requested.sequence == |entries[id].events| + 1 && event.sequence == requested.sequence + 1
      modifies this
      ensures Valid() && entries == old(entries)[id := entry]
    {
      CancellationRepresents(entries, executions, manifestRows, eventRows, artifactRows, id, entry, requested, event);
      var rows := executions[id := ToRow(updated)];
      var events := eventRows[(id, requested.sequence) := ToEventRow(requested)][(id, event.sequence) := ToEventRow(event)];
      Replace(rows, manifestRows, events, artifactRows, entries[id := entry]);
    }

    /** The new contents of the tables. */
    method Replace(rows: map<string, Row>, flags: map<string, int>, events: EventTable, artifacts: ArtifactTable, ghost after: Entries)
      requires AllTraced(after) && Represents(after, rows, flags, events, artifacts)
      modifies this
      ensures Valid() && entries == after
    {
      executions, manifestRows, eventRows, artifactRows, entries := rows, flags, events, artifacts, after;
    }

    /** `SELECT COALESCE(MAX(sequence), 0)`. */
    method MaxSequence(id: string) returns (m: nat)
      requires Valid() && id in entries
      ensures m == |entries[id].events|
    {
      var rest := set k | k in eventRows && k.0 == id :: k.1;
      ghost var n := |entries[id].events|;
      assert forall k: nat :: k in rest <==> 1 <= k <= n by {
        forall k: nat ensures k in rest <==> 1 <= k <= n {
          assert KeepsEvent(entries, eventRows, id, k);
        }
      }
      m := 0;
      while rest != {}
        invariant forall k: nat :: k in rest ==> k <= n
        invariant m <= n && forall k: nat :: 1 <= k <= n ==> k in rest || k <= m
        decreases rest
      {
        var k :| k in rest;
        rest := rest - {k};
        m := if k > m then k else m;
      }
      assert n >= 1 ==> n in rest || n <= m;
    }

    /** `DELETE` and `INSERT` of a manifest, on a copy of the table. */
    method InsertManifest(id: string, manifest: seq<Artifact>, ghost entry: Entry) returns (result: Result<ArtifactTable>)
      requires Valid() && id in entries && AcceptsManifest(id, Some(manifest), true) && entry.artifacts == manifest
      ensures InsertProblem(entries, id, manifest) == if result.Ok? then None else Some(result.error)
      ensures result.Ok? ==> ArtifactsRepresent(entries[id := entry], result.value)
    {
      var others := artifactRows - OwnIds(artifactRows, id);
      var table := others;
      assert manifest[..0] == [];
      for i := 0 to |manifest|
        invariant InsertProblem(entries, id, manifest[..i]) == None
        invariant Inserted(others, manifest[..i], table)
        invariant forall a :: a in manifest[..i] ==> a.id !in others
      {
        assert manifest[..i + 1][..i] == manifest[..i];
        if !Fits(manifest[i].size) {
          ProblemStays(entries, id, manifest, i + 1);
          return Err(Overflow);
        }
        TakenInTable(entries, artifactRows, id, manifest[i].id);
        NotInserted(others, manifest, i, table);
        if manifest[i].id in table {
          ProblemStays(entries, id, manifest, i + 1);
          return Err(Database);
        }
        FreshItems(others, manifest, i);
        InsertsNext(others, manifest, i, table);
        table := table[manifest[i].id := manifest[i]];
      }
      assert manifest[..|manifest|] == manifest;
      ManifestRepresents(entries, artifactRows, others, table, id, entry);
      return Ok(table);
    }

    method ListUnfinished() returns (r: set<Record>)
      requires Valid()
      ensures r == Unfinished(entries)
    {
      forall id | id in entries ensures FromRow(id, executions[id]) == Ok(entries[id].record) &&
        StateOf(executions[id].state) == Some(entries[id].record.state)
      {
        ReadsBack(entries, executions, manifestRows, id);
        StateTextReads(entries[id].record.state);
      }
      r := set id | id in executions && StateOf(executions[id].state).Some? && !StateOf(executions[id].state).value.IsTerminal() &&
        FromRow(id, executions[id]).Ok? :: FromRow(id, executions[id]).value;
    }

    /** The rows of an execution in the order of their sequence numbers. */
    method SelectEvents(id: string) returns (events: seq<Event>)
      requires Valid() && id in entries
      ensures events == entries[id].events
    {
      var last := MaxSequence(id);
      events := [];
      for n := 0 to last
        invariant events == entries[id].events[..n]
      {
        assert KeepsEvent(entries, eventRows, id, n + 1);
        EventReadsBack(entries, eventRows, id, n + 1);
        events := events + [FromEventRow(id, n + 1, eventRows[(id, n + 1)]).value];
      }
      assert entries[id].events[..last] == entries[id].events;
    }

    method ListEvents(id: string, cursor: int, limit: int) returns (result: Result<(Page, bool)>)
      requires Valid()
      ensures result == ListIn(entries, id, cursor, limit)
    {
      if cursor < 0 || !(1 <= limit <= MAX_PAGE) {
        return Err(InvalidArgument);
      }
      var record :- Get(id);
      assert KeptWell(entries, id);
      var events := SelectEvents(id);
      var verdict := Validate(record, events);
      if verdict.Err? {
        return Err(verdict.error);
      }
      return Ok((PageAt(events, cursor, limit), verdict.value));
    }

    method ListArtifacts(id: string) returns (result: Result<(set<Artifact>, bool)>)
      requires Valid()
      ensures result == if id in entries then Ok((ItemsOf(entries[id].artifacts), entries[id].complete)) else Err(Unknown)
    {
      var record :- Get(id);
      assert KeptWell(entries, id);
      var artifacts := set k | k in artifactRows && artifactRows[k].executionId == id :: artifactRows[k];
      SelectsManifest(entries, artifactRows, id, artifacts);
      ReadsBack(entries, executions, manifestRows, id);
      var complete := manifestRows[id];
      if (complete != 0 && complete != 1) || |artifacts| > MAX_MANIFEST_ITEMS || (complete == 0 && artifacts != {}) ||
         (complete == 1 && !record.state.IsTerminal()) {
        return Err(Corrupt);
      }
      return Ok((artifacts, complete == 1));
    }
  }

  // ----- Reconciling what an earlier process left unfinished

  function Restart(now: real): Change {
    Change(Crashed, Some(ServerRestarted), None, None, None, None, Some(now))
  }

  function Restarted(e: Entry, now: real): Entry {
    Next(e, Timed(Transition({e.record.state}, Restart(now)), now))
  }

  /** Exactly the entries of these ids have been restarted. */
  ghost predicate AreRestarted(before: Entries, after: Entries, ids: set<string>, now: real) {
    && after.Keys == before.Keys
    && forall id :: id in before ==> after[id] == if id in ids then Restarted(before[id], now) else before[id]
  }

  function Begun(r: Record): real {
    r.startedAt.GetOr(r.createdAt)
  }

  ghost function UnfinishedIds(entries: Entries): set<string> {
    set id | id in entries && !entries[id].record.state.IsTerminal()
  }

  /** The records among `ids` as they were. */
  ghost function RecordsOf(entries: Entries, ids: set<string>): set<Record> {
    set id | id in entries && id in ids :: entries[id].record
  }

  lemma {:induction false} RestartFits(e: Entry, now: real)
    requires Traced(e) && !e.record.state.IsTerminal()
    ensures Moved(e.record, Restart(now), now).Valid() <==> Begun(e.record) <= now
    ensures RowFits(ToRow(Moved(e.record, Restart(now), now)))
  {
  }

  lemma {:induction false} RestartsNext(before: Entries, after: Entries, done: set<string>, id: string, now: real)
    requires id in before && id !in done && AreRestarted(before, after, done, now)
    ensures AreRestarted(before, after[id := Restarted(before[id], now)], done + {id}, now)
  {
  }

  lemma {:induction false} PendingNext(entries: Entries, pending: set<string>, r: Record)
    requires AllTraced(entries) && r in RecordsOf(entries, pending)
    ensures r.id in entries && r.id in pending && entries[r.id].record == r
    ensures RecordsOf(entries, pending - {r.id}) == RecordsOf(entries, pending) - {r}
  {
  }

  lemma {:induction false} NothingPending(entries: Entries, pending: set<string>)
    requires pending <= entries.Keys && RecordsOf(entries, pending) == {}
    ensures pending == {}
  {
    forall id | id in entries ensures id !in pending {
      PendingRecord(entries, pending, id);
    }
  }

  lemma {:induction false} PendingRecord(entries: Entries, pending: set<string>, id: string)
    requires id in entries
    ensures id in pending ==> RecordsOf(entries, pending) != {}
  {
    assert id in pending ==> entries[id].record in RecordsOf(entries, pending);
  }

  lemma {:induction false} RestartOutcome(entries: Entries, id: string, now: real)
    requires id in entries && Traced(entries[id]) && !entries[id].record.state.IsTerminal()
    ensures var e := entries[id];
      TransitionInTables(entries, id, {e.record.state}, Restart(now), now) ==
      if Begun(e.record) <= now then Ok(Restarted(e, now)) else Err(InvalidRecord)
  {
    RestartFits(entries[id], now);
  }

  /** One round of the loop over unfinished records. */
  method RestartOne(store: SqliteExecutionStore, r: Record, now: real, ghost before: Entries, ghost done: set<string>) returns (result: Result<Record>)
    requires store.Valid() && AreRestarted(before, store.entries, done, now)
    requires AllTraced(before) && r.id in UnfinishedIds(before) - done && before[r.id].record == r
    modifies store
    ensures store.Valid()
    ensures result.Ok? <==> Begun(r) <= now
    ensures AreRestarted(before, store.entries, if result.Ok? then done + {r.id} else done, now)
  {
    RestartsNext(before, store.entries, done, r.id, now);
    assert KeptWell(before, r.id);
    RestartOutcome(store.entries, r.id, now);
    result := store.Transition(r.id, {r.state}, Restart(now), now);
  }

  /** `reconcile_unfinished_executions`: after a restart every unfinished execution is crashed.
      It fails exactly when the clock is behind the beginning of some unfinished execution. */
  method ReconcileUnfinished(store: SqliteExecutionStore, now: real) returns (result: Result<()>)
    requires store.Valid()
    modifies store
    ensures store.Valid()
    ensures result.Ok? <==> forall id :: id in UnfinishedIds(old(store.entries)) ==> Begun(old(store.entries)[id].record) <= now
    ensures result.Ok? ==> AreRestarted(old(store.entries), store.entries, UnfinishedIds(old(store.entries)), now)
    ensures result.Err? ==> exists done :: PartlyRestarted(old(store.entries), store.entries, done, now)
  {
    ghost var before := store.entries;
    var rest := store.ListUnfinished();
    ghost var pending := UnfinishedIds(before);
    RestartBegins(before, now);
    while rest != {}
      invariant store.Valid() && Restarting(before, store.entries, rest, pending, now)
      decreases rest
    {
      var done, r := RestartAny(store, rest, now, before, pending);
      if done.Err? {
        return Err(done.error);
      }
      rest, pending := rest - {r}, pending - {r.id};
    }
    RestartEnds(before, store.entries, pending, now);
    return Ok(());
  }

  /** One round: any of the remaining records is restarted. */
  method RestartAny(store: SqliteExecutionStore, rest: set<Record>, now: real, ghost before: Entries, ghost pending: set<string>)
    returns (result: Result<Record>, r: Record)
    requires store.Valid() && AllTraced(before) && rest != {} && Restarting(before, store.entries, rest, pending, now)
    modifies store
    ensures store.Valid() && r in rest
    ensures result.Ok? ==> Restarting(before, store.entries, rest - {r}, pending - {r.id}, now)
    ensures result.Err? ==> PartlyRestarted(before, store.entries, UnfinishedIds(before) - pending, now)
    ensures result.Err? ==> exists id :: id in UnfinishedIds(before) && Begun(before[id].record) > now
  {
    r :| r in rest;
    RestartGoesOn(before, store.entries, rest, pending, r, now);
    result := RestartOne(store, r, now, before, UnfinishedIds(before) - pending);
  }

  /** Some of the unfinished executions have been restarted, none of them before it began, and no other entry changed. */
  ghost predicate PartlyRestarted(before: Entries, entries: Entries, done: set<string>, now: real) {
    && done < UnfinishedIds(before) && AreRestarted(before, entries, done, now)
    && forall id :: id in done ==> Begun(before[id].record) <= now
  }

  /** All unfinished executions but the pending ones are restarted; `rest` are the pending records. */
  ghost predicate Restarting(before: Entries, entries: Entries, rest: set<Record>, pending: set<string>, now: real) {
    var done := UnfinishedIds(before) - pending;
    && pending <= UnfinishedIds(before) && rest == RecordsOf(before, pending)
    && AreRestarted(before, entries, done, now)
    && forall id :: id in done ==> Begun(before[id].record) <= now
  }

  lemma {:induction false} RestartBegins(before: Entries, now: real)
    ensures Restarting(before, before, Unfinished(before), UnfinishedIds(before), now)
  {
    assert Unfinished(before) == RecordsOf(before, UnfinishedIds(before));
    assert UnfinishedIds(before) - UnfinishedIds(before) == {};
  }

  lemma {:induction false} RestartGoesOn(before: Entries, entries: Entries, rest: set<Record>, pending: set<string>, r: Record, now: real)
    requires AllTraced(before) && Restarting(before, entries, rest, pending, now) && r in rest
    ensures r.id in pending && before[r.id].record == r && PartlyRestarted(before, entries, UnfinishedIds(before) - pending, now)
    ensures RecordsOf(before, pending - {r.id}) == rest - {r}
    ensures (UnfinishedIds(before) - pending) + {r.id} == UnfinishedIds(before) - (pending - {r.id})
  {
    PendingNext(before, pending, r);
  }

  lemma {:induction false} RestartEnds(before: Entries, entries: Entries, pending: set<string>, now: real)
    requires Restarting(before, entries, {}, pending, now)
    ensures AreRestarted(before, entries, UnfinishedIds(before), now)
    ensures forall id :: id in UnfinishedIds(before) ==> Begun(before[id].record) <= now
  {
    NothingPending(before, pending);
    assert UnfinishedIds(before) - pending == UnfinishedIds(before);
  }

  /** Reconciling leaves nothing unfinished, and nothing that was finished changes. */
  lemma {:induction false} NothingStaysUnfinished(before: Entries, after: Entries, now: real, id: string)
    requires AllTraced(before) && id in before && AreRestarted(before, after, UnfinishedIds(before), now)
    requires forall j :: j in UnfinishedIds(before) ==> Begun(before[j].record) <= now
    ensures if before[id].record.state.IsTerminal() then after[id] == before[id]
            else
              var (r, s) := (before[id].record, after[id].record);
              && SameExecution(r, s) && s.startedAt == r.startedAt && s.state == Crashed && s.reason == Some(ServerRestarted)
              && s.finishedAt == Some(now) && s.updatedAt == now && s.exitCode.None? && s.resources.None?
              && s.summary == Some("execution interrupted by server restart")
              && after[id].artifacts == before[id].artifacts && after[id].complete == before[id].complete
  {
    assert KeptWell(before, id);
    if !before[id].record.state.IsTerminal() {
      RestartFits(before[id], now);
      RestartRecords(before[id], now);
    }
  }

  lemma {:induction false} RestartRecords(e: Entry, now: real)
    ensures Apply(e, Timed(Transition({e.record.state}, Restart(now)), now)).Ok? ==> TransitionRecorded(e, Restart(now), now, Restarted(e, now))
  {
    if Apply(e, Timed(Transition({e.record.state}, Restart(now)), now)).Ok? {
      TransitionRecords(e, {e.record.state}, Restart(now), now);
    }
  }

  // ----- Lemmas about the tables

  lemma {:induction false} ReadsBack(entries: Entries, rows: map<string, Row>, flags: map<string, int>, id: string)
    requires AllTraced(entries) && RowsRepresent(entries, rows, flags) && id in entries
    ensures rows[id] == ToRow(entries[id].record) && FromRow(id, rows[id]) == Ok(entries[id].record)
    ensures flags[id] == if entries[id].complete then 1 else 0
  {
    assert KeptWell(entries, id) && KeepsRow(entries, rows, flags, id);
    RecordRoundTrip(entries[id].record);
  }

  lemma {:induction false} EventReadsBack(entries: Entries, table: EventTable, id: string, n: nat)
    requires AllTraced(entries) && EventsRepresent(entries, table) && (id, n) in table
    ensures id in entries && 1 <= n <= |entries[id].events|
    ensures FromEventRow(id, n, table[(id, n)]) == Ok(entries[id].events[n - 1])
  {
    assert KeptWell(entries, id) && KeepsEvent(entries, table, id, n);
    var e := entries[id].events[n - 1];
    assert e in entries[id].events;
    LinkedSequence(id, entries[id].events, n - 1);
    EventRoundTrip(e);
  }

  lemma {:induction false} NewEntryRepresents(entries: Entries, rows: map<string, Row>, flags: map<string, int>, events: EventTable,
                                              artifacts: ArtifactTable, r: Record)
    requires Represents(entries, rows, flags, events, artifacts) && r.id !in entries && CreateEntry(r).Ok?
    ensures Represents(entries[r.id := CreateEntry(r).value], rows[r.id := ToRow(r)], flags[r.id := 0],
                       events[(r.id, 1) := ToEventRow(CreatedEvent(r))], artifacts)
  {
    var after := entries[r.id := CreateEntry(r).value];
    var rowsAfter, flagsAfter := rows[r.id := ToRow(r)], flags[r.id := 0];
    var eventsAfter := events[(r.id, 1) := ToEventRow(CreatedEvent(r))];
    forall id ensures KeepsRow(after, rowsAfter, flagsAfter, id) {
      assert KeepsRow(entries, rows, flags, id);
    }
    forall id, n ensures KeepsEvent(after, eventsAfter, id, n) {
      assert KeepsEvent(entries, events, id, n);
    }
    forall a: Artifact ensures Owned(after, a) <==> Owned(entries, a) {
    }
  }

  lemma {:induction false} RowUpdates(entries: Entries, rows: map<string, Row>, flags: map<string, int>, id: string, e: Entry, after: map<string, int>)
    requires RowsRepresent(entries, rows, flags) && id in entries
    requires (after == flags[id := 1] && e.complete) || (after == flags && e.complete == entries[id].complete)
    ensures RowsRepresent(entries[id := e], rows[id := ToRow(e.record)], after)
  {
    var entriesAfter, rowsAfter := entries[id := e], rows[id := ToRow(e.record)];
    forall j ensures KeepsRow(entriesAfter, rowsAfter, after, j) {
      assert KeepsRow(entries, rows, flags, j);
    }
  }

  lemma {:induction false} TransitionRepresents(entries: Entries, rows: map<string, Row>, flags: map<string, int>, events: EventTable, artifacts: ArtifactTable,
                                                id: string, e: Entry, event: Event, flagsAfter: map<string, int>, artifactsAfter: ArtifactTable)
    requires Represents(entries, rows, flags, events, artifacts) && id in entries
    requires e.events == entries[id].events + [event] && event.sequence == |e.events|
    requires (flagsAfter == flags[id := 1] && e.complete) || (flagsAfter == flags && e.complete == entries[id].complete)
    requires ArtifactsRepresent(entries[id := e], artifactsAfter)
    ensures Represents(entries[id := e], rows[id := ToRow(e.record)], flagsAfter,
                       events[(id, event.sequence) := ToEventRow(event)], artifactsAfter)
  {
    RowUpdates(entries, rows, flags, id, e, flagsAfter);
    EventAppends(entries, events, id, e, event);
  }

  lemma {:induction false} CancellationRepresents(entries: Entries, rows: map<string, Row>, flags: map<string, int>, events: EventTable, artifacts: ArtifactTable,
                                                  id: string, e: Entry, requested: Event, event: Event)
    requires Represents(entries, rows, flags, events, artifacts) && id in entries
    requires e == entries[id].(record := e.record, events := entries[id].events + [requested, event])
    requires requested.sequence == |e.events| - 1 && event.sequence == |e.events|
    ensures Represents(entries[id := e], rows[id := ToRow(e.record)], flags,
                       events[(id, requested.sequence) := ToEventRow(requested)][(id, event.sequence) := ToEventRow(event)], artifacts)
  {
    RowUpdates(entries, rows, flags, id, e, flags);
    EventsAppend(entries, events, id, e, requested, event);
    SameManifest(entries, artifacts, id, e);
  }

  lemma {:induction false} EventAppends(entries: Entries, table: EventTable, id: string, e: Entry, event: Event)
    requires EventsRepresent(entries, table) && id in entries && e.events == entries[id].events + [event]
    ensures EventsRepresent(entries[id := e], table[(id, |e.events|) := ToEventRow(event)])
  {
    var entriesAfter, after := entries[id := e], table[(id, |e.events|) := ToEventRow(event)];
    forall j, n ensures KeepsEvent(entriesAfter, after, j, n) {
      assert KeepsEvent(entries, table, j, n);
    }
  }

  lemma {:induction false} EventsAppend(entries: Entries, table: EventTable, id: string, e: Entry, first: Event, second: Event)
    requires EventsRepresent(entries, table) && id in entries && e.events == entries[id].events + [first, second]
    ensures EventsRepresent(entries[id := e], table[(id, |e.events| - 1) := ToEventRow(first)][(id, |e.events|) := ToEventRow(second)])
  {
    var half := entries[id].(events := entries[id].events + [first]);
    EventAppends(entries, table, id, half, first);
    EventAppends(entries[id := half], table[(id, |e.events| - 1) := ToEventRow(first)], id, e, second);
    assert entries[id := half][id := e] == entries[id := e];
  }

  lemma {:induction false} SameManifest(entries: Entries, table: ArtifactTable, id: string, e: Entry)
    requires ArtifactsRepresent(entries, table) && id in entries && e.artifacts == entries[id].artifacts
    ensures ArtifactsRepresent(entries[id := e], table)
  {
    forall a: Artifact ensures Owned(entries[id := e], a) <==> Owned(entries, a) {
    }
  }

  lemma {:induction false} TakenInTable(entries: Entries, table: ArtifactTable, id: string, artifactId: string)
    requires ArtifactsRepresent(entries, table)
    ensures Taken(entries, id, artifactId) <==> artifactId in table && table[artifactId].executionId != id
  {
  }

  ghost predicate Inserted(others: ArtifactTable, manifest: seq<Artifact>, table: ArtifactTable) {
    && (forall k :: k in table <==> k in others || exists a :: a in manifest && a.id == k)
    && (forall k :: k in table ==> if k in others then table[k] == others[k] else table[k] in manifest && table[k].id == k)
  }

  lemma {:induction false} InsertsNext(others: ArtifactTable, manifest: seq<Artifact>, i: nat, table: ArtifactTable)
    requires i < |manifest| && Inserted(others, manifest[..i], table) && manifest[i].id !in table
    ensures Inserted(others, manifest[..i + 1], table[manifest[i].id := manifest[i]])
  {
    assert manifest[..i + 1] == manifest[..i] + [manifest[i]];
  }

  lemma {:induction false} FreshItems(others: ArtifactTable, manifest: seq<Artifact>, i: nat)
    requires i < |manifest| && manifest[i].id !in others && forall a :: a in manifest[..i] ==> a.id !in others
    ensures forall a :: a in manifest[..i + 1] ==> a.id !in others
  {
    assert manifest[..i + 1] == manifest[..i] + [manifest[i]];
  }

  lemma {:induction false} NotInserted(others: ArtifactTable, manifest: seq<Artifact>, i: nat, table: ArtifactTable)
    requires i < |manifest| && Inserted(others, manifest[..i], table)
    requires forall j, k :: 0 <= j < k < |manifest| ==> manifest[j].id != manifest[k].id
    ensures manifest[i].id in table <==> manifest[i].id in others
  {
    forall a | a in manifest[..i] ensures a.id != manifest[i].id {
      var j :| 0 <= j < i && manifest[j] == a;
    }
  }

  lemma {:induction false} ProblemStays(entries: Entries, id: string, manifest: seq<Artifact>, i: nat)
    requires i <= |manifest| && InsertProblem(entries, id, manifest[..i]).Some?
    ensures InsertProblem(entries, id, manifest) == InsertProblem(entries, id, manifest[..i])
    decreases |manifest|
  {
    if i == |manifest| {
      assert manifest[..i] == manifest;
    } else {
      var front := manifest[..|manifest| - 1];
      assert front[..i] == manifest[..i];
      ProblemStays(entries, id, front, i);
    }
  }

  lemma {:induction false} ManifestRepresents(entries: Entries, before: ArtifactTable, others: ArtifactTable, table: ArtifactTable,
                                              id: string, e: Entry)
    requires ArtifactsRepresent(entries, before) && id in entries && AcceptsManifest(id, Some(e.artifacts), true)
    requires others == before - OwnIds(before, id)
    requires Inserted(others, e.artifacts, table)
    requires forall a :: a in e.artifacts ==> a.id !in others
    ensures ArtifactsRepresent(entries[id := e], table)
  {
    var after := entries[id := e];
    forall a: Artifact ensures Owned(after, a) <==> a in e.artifacts || (Owned(entries, a) && a.executionId != id) {
    }
    forall a: Artifact | Owned(after, a) ensures a.id in table && table[a.id] == a {
      if a in e.artifacts {
        SameIdSameItem(e.artifacts, table[a.id], a);
      }
    }
  }

  lemma {:induction false} SameIdSameItem(items: seq<Artifact>, a: Artifact, b: Artifact)
    requires forall j, k :: 0 <= j < k < |items| ==> items[j].id != items[k].id
    requires a in items && b in items && a.id == b.id
    ensures a == b
  {
    var i :| 0 <= i < |items| && items[i] == a;
    var j :| 0 <= j < |items| && items[j] == b;
  }

  lemma {:induction false} SelectsManifest(entries: Entries, table: ArtifactTable, id: string, selected: set<Artifact>)
    requires ArtifactsRepresent(entries, table) && id in entries && Traced(entries[id]) && entries[id].record.id == id
    requires selected == set k | k in table && table[k].executionId == id :: table[k]
    ensures selected == ItemsOf(entries[id].artifacts)
    ensures |selected| <= MAX_MANIFEST_ITEMS
  {
    forall a: Artifact ensures a in selected <==> a in entries[id].artifacts {
      if a in entries[id].artifacts {
        assert Owned(entries, a);
      }
    }
    AtMost(entries[id].artifacts);
  }

  lemma {:induction false} AtMost(items: seq<Artifact>)
    ensures |ItemsOf(items)| <= |items|
  {
    if items != [] {
      var front, last := items[..|items| - 1], items[|items| - 1];
      AtMost(front);
      assert ItemsOf(items) == ItemsOf(front) + {last};
    }
  }

  // ----- The two stores side by side

  /** A transition means the same in the database as in memory exactly when its numbers fit
      their columns and no other execution has one of its artifact ids. */
  lemma {:induction false} TablesAgreeUnless(entries: Entries, id: string, expected: set<State>, c: Change, now: real)
    requires TransitionIn(entries, id, expected, c, now).Ok?
    ensures TransitionInTables(entries, id, expected, c, now) == TransitionIn(entries, id, expected, c, now) <==>
      && RowFits(ToRow(Moved(entries[id].record, c, now)))
      && forall a :: a in c.manifest.GetOr([]) ==> Fits(a.size) && !Taken(entries, id, a.id)
  {
    NoProblem(entries, id, c.manifest.GetOr([]));
  }

  lemma {:induction false} NoProblem(entries: Entries, id: string, manifest: seq<Artifact>)
    ensures InsertProblem(entries, id, manifest).None? <==> forall a :: a in manifest ==> Fits(a.size) && !Taken(entries, id, a.id)
  {
    if manifest != [] {
      var front, last := manifest[..|manifest| - 1], manifest[|manifest| - 1];
      NoProblem(entries, id, front);
      assert manifest == front + [last];
    }
  }
}
