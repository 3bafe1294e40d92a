/** The in-memory execution store: five dictionaries and a queue updated together, against
    one map from ids to entries; finished executions are dropped oldest first. */
module ExecutionStores {
  import opened Executions
  import opened ExecutionHistory
  import opened Wrappers

  type Entries = map<string, Entry>

  // ----- What a store does to its entries

  function CreateIn(entries: Entries, r: Record): Result<Entry> {
    if CreateEntry(r).Err? then CreateEntry(r)
    else if r.id in entries then Err(Duplicate)
    else CreateEntry(r)
  }

  function TransitionIn(entries: Entries, id: string, expected: set<State>, c: Change, now: real): Result<Entry> {
    if expected == {} then Err(InvalidArgument)
    else if id !in entries then Err(Unknown)
    else TransitionEntry(entries[id], expected, c, now)
  }

  function CancelIn(entries: Entries, id: string, expected: set<State>, reason: Reason, now: real): Result<Entry> {
    if expected == {} then Err(InvalidArgument)
    else if id !in entries then Err(Unknown)
    else CancelEntry(entries[id], expected, reason, now)
  }

  /** A call stores its entry, or fails and leaves every entry alone. */
  function Stored(entries: Entries, id: string, result: Result<Entry>): Entries {
    if result.Ok? then entries[id := result.value] else entries
  }

  function Unfinished(entries: Entries): set<Record> {
    set id | id in entries && !entries[id].record.state.IsTerminal() :: entries[id].record
  }

  function ListIn(entries: Entries, id: string, cursor: int, limit: int): Result<(Page, bool)> {
    if cursor < 0 || !(1 <= limit <= MAX_PAGE) then Err(InvalidArgument)
    else if id !in entries then Err(Unknown)
    else
      var verdict := Verdict(entries[id].record, entries[id].events);
      if verdict.Err? then Err(verdict.error) else Ok((PageAt(entries[id].events, cursor, limit), verdict.value))
  }

  const MAX_PAGE := 100

  /** Which readings of a history are refused: pages hold one to a hundred events, and cursors are not negative. */
  lemma {:induction false} ListRefused(entries: Entries, id: string, cursor: int, limit: int)
    ensures var r := ListIn(entries, id, cursor, limit);
      && (r == Err(InvalidArgument) <==> cursor < 0 || limit < 1 || limit > 100)
      && (r == Err(Unknown) <==> 0 <= cursor && 0 < limit < 101 && id !in entries)
      && (r.Ok? ==> r.value.0 == PageAt(entries[id].events, cursor, limit) && Ok(r.value.1) == Verdict(entries[id].record, entries[id].events))
  {
  }

  /** Entries are kept under their own id, and none violates what the stores keep. */
  ghost predicate AllTraced(entries: Entries) {
    && (forall id :: id in entries ==> entries[id].record.id == id)
    && (forall id :: KeptWell(entries, id))
  }

  ghost predicate KeptWell(entries: Entries, id: string) {
    id in entries ==> Traced(entries[id])
  }

  lemma {:induction false} StoreKeepsTraced(entries: Entries, id: string, e: Entry)
    requires AllTraced(entries) && e.record.id == id && Traced(e)
    ensures AllTraced(entries[id := e])
  {
    var after := entries[id := e];
    forall j ensures KeptWell(after, j) {
      assert KeptWell(entries, j);
    }
  }

  lemma {:induction false} CreateKeepsTraced(entries: Entries, r: Record)
    requires AllTraced(entries) && r.Valid()
    ensures AllTraced(Stored(entries, r.id, CreateIn(entries, r)))
  {
    if CreateIn(entries, r).Ok? {
      CreateTraces(r);
      StoreKeepsTraced(entries, r.id, CreateEntry(r).value);
    }
  }

  lemma {:induction false} TransitionKeepsTraced(entries: Entries, id: string, expected: set<State>, c: Change, now: real)
    requires AllTraced(entries)
    ensures AllTraced(Stored(entries, id, TransitionIn(entries, id, expected, c, now)))
  {
    if TransitionIn(entries, id, expected, c, now).Ok? {
      assert KeptWell(entries, id);
      TransitionTraces(entries[id], expected, c, now);
      StoreKeepsTraced(entries, id, TransitionIn(entries, id, expected, c, now).value);
    }
  }

  lemma {:induction false} CancelKeepsTraced(entries: Entries, id: string, expected: set<State>, reason: Reason, now: real)
    requires AllTraced(entries)
    ensures AllTraced(Stored(entries, id, CancelIn(entries, id, expected, reason, now)))
  {
    if CancelIn(entries, id, expected, reason, now).Ok? {
      assert KeptWell(entries, id);
      CancelTraces(entries[id], expected, reason, now);
      StoreKeepsTraced(entries, id, CancelIn(entries, id, expected, reason, now).value);
    }
  }

  function RecordOf(result: Result<Entry>): Result<Record> {
    if result.Ok? then Ok(result.value.record) else Err(result.error)
  }

  // ----- Retention

  function IdsOf(ids: seq<string>): set<string> {
    set id | id in ids
  }

  predicate Distinct(ids: seq<string>) {
    forall i, j :: 0 <= i < j < |ids| ==> ids[i] != ids[j]
  }

  /** The finished executions in the order they finished, none twice. */
  ghost predicate Queued(entries: Entries, finished: seq<string>) {
    && Distinct(finished)
    && forall id :: id in finished <==> id in entries && entries[id].record.state.IsTerminal()
  }

  /** How many of the oldest finished executions exceed the limit. */
  function Excess(finished: seq<string>, limit: nat): nat {
    if |finished| > limit then |finished| - limit else 0
  }

  function Retained(entries: Entries, finished: seq<string>, limit: nat): Entries {
    entries - IdsOf(finished[..Excess(finished, limit)])
  }

  // ----- Four dictionaries as one

  /** The dictionaries hold these entries, part by part. */
  ghost predicate Mirrors(entries: Entries, records: map<string, Record>, events: map<string, seq<Event>>,
                          manifests: map<string, seq<Artifact>>, complete: map<string, bool>) {
    && entries.Keys == records.Keys == events.Keys == manifests.Keys == complete.Keys
    && forall id :: id in entries ==> entries[id] == Entry(records[id], events[id], manifests[id], complete[id])
  }

  lemma {:induction false} MirrorsPut(entries: Entries, records: map<string, Record>, events: map<string, seq<Event>>,
                                      manifests: map<string, seq<Artifact>>, complete: map<string, bool>, id: string, e: Entry)
    requires Mirrors(entries, records, events, manifests, complete)
    ensures Mirrors(entries[id := e], records[id := e.record], events[id := e.events], manifests[id := e.artifacts], complete[id := e.complete])
  {
  }

  lemma {:induction false} MirrorsDrop(entries: Entries, records: map<string, Record>, events: map<string, seq<Event>>,
                                       manifests: map<string, seq<Artifact>>, complete: map<string, bool>, id: string)
    requires Mirrors(entries, records, events, manifests, complete)
    ensures Mirrors(entries - {id}, records - {id}, events - {id}, manifests - {id}, complete - {id})
  {
  }

  class InMemoryExecutionStore {
    const maxRetained: nat
    var records: map<string, Record>
    var events: map<string, seq<Event>>
    var manifests: map<string, seq<Artifact>>
    var manifestComplete: map<string, bool>
    var terminalOrder: seq<string>

    ghost var entries: Entries

    ghost predicate Aligned()
      reads this
    {
      Mirrors(entries, records, events, manifests, manifestComplete)
    }

    ghost predicate Valid()
      reads this
    {
      && Aligned() && AllTraced(entries) && Queued(entries, terminalOrder)
      && 0 < maxRetained && |terminalOrder| <= maxRetained
    }

    constructor (maxRetained: nat)
      requires maxRetained > 0
      ensures Valid() && this.maxRetained == maxRetained && entries == map[]
    {
      this.maxRetained := maxRetained;
      records, events, manifests, manifestComplete, terminalOrder, entries := map[], map[], map[], map[], [], map[];
    }

    method Put(id: string, record: Record, history: seq<Event>, manifest: seq<Artifact>, complete: bool)
      requires Aligned()
      modifies this`records, this`events, this`manifests, this`manifestComplete, this`entries
      ensures Aligned() && entries == old(entries)[id := Entry(record, history, manifest, complete)]
    {
      MirrorsPut(entries, records, events, manifests, manifestComplete, id, Entry(record, history, manifest, complete));
      records, events := records[id := record], events[id := history];
      manifests, manifestComplete := manifests[id := manifest], manifestComplete[id := complete];
      entries := entries[id := Entry(record, history, manifest, complete)];
    }

    method Drop(id: string)
      requires Aligned()
      modifies this`records, this`events, this`manifests, this`manifestComplete, this`entries
      ensures Aligned() && entries == old(entries) - {id}
    {
      MirrorsDrop(entries, records, events, manifests, manifestComplete, id);
      records, events := records - {id}, events - {id};
      manifests, manifestComplete, entries := manifests - {id}, manifestComplete - {id}, entries - {id};
    }

    method Create(r: Record) returns (result: Result<()>)
      requires Valid() && r.Valid()
      modifies this
      ensures Valid() && terminalOrder == old(terminalOrder)
      ensures entries == Stored(old(entries), r.id, CreateIn(old(entries), r))
      ensures result == if CreateIn(old(entries), r).Ok? then Ok(()) else Err(CreateIn(old(entries), r).error)
      ensures result.Ok? ==> entries == old(entries)[r.id := Entry(r, [Event(r.id, 1, r.createdAt, Created, None, Starting, None, None)], [], false)]
    {
      CreateKeepsTraced(entries, r);
      if CreateEntry(r).Ok? {
        CreationRecords(r);
      }
      var event := CreatedEvent(r);
      if !event.Valid() {
        return Err(InvalidRecord);
      }
      if r.id in records {
        return Err(Duplicate);
      }
      CreateQueues(entries, terminalOrder, r.id, Entry(r, [event], [], false));
      Put(r.id, r, [event], [], false);
      return Ok(());
    }

    method Get(id: string) returns (result: Result<Record>)
      requires Valid()
      ensures result == if id in entries then Ok(entries[id].record) else Err(Unknown)
    {
      if id !in records {
        return Err(Unknown);
      }
      return Ok(records[id]);
    }

    method Transition(id: string, expected: set<State>, c: Change, now: real) returns (result: Result<Record>)
      requires Valid()
      modifies this
      ensures Valid()
      ensures var attempt := TransitionIn(old(entries), id, expected, c, now);
        var finished := old(terminalOrder) + if attempt.Ok? && c.state.IsTerminal() then [id] else [];
        && result == RecordOf(attempt)
        && entries == Retained(Stored(old(entries), id, attempt), finished, maxRetained)
        && terminalOrder == finished[Excess(finished, maxRetained)..]
      ensures result.Ok? ==> id in old(entries) && id in entries && result.value == entries[id].record
      ensures result.Ok? ==> TransitionRecorded(old(entries)[id], c, now, entries[id])
    {
      ghost var before := entries;
      TransitionKeepsTraced(before, id, expected, c, now);
      TransitionStays(before, terminalOrder, id, expected, c, now, maxRetained);
      NothingExceeds(before, terminalOrder, maxRetained);
      if expected == {} {
        return Err(InvalidArgument);
      }
      if id !in records {
        return Err(Unknown);
      }
      var current := records[id];
      if current.state !in expected {
        return Err(Conflict);
      }
      if !Allowed(current.state, c.state) {
        return Err(IllegalTransition);
      }
      var r := Moved(current, c, now);
      if !r.Valid() {
        return Err(InvalidRecord);
      }
      if !AcceptsManifest(id, c.manifest, r.state.IsTerminal()) {
        return Err(InvalidArgument);
      }
      var event := TransitionEvent(current, r, |events[id]| + 1);
      ghost var entry := TransitionIn(before, id, expected, c, now).value;
      Put(id, r, events[id] + [event], c.manifest.GetOr(manifests[id]), manifestComplete[id] || c.manifest.Some?);
      if r.state.IsTerminal() {
        FinishQueues(before, terminalOrder, id, entry);
        terminalOrder := terminalOrder + [id];
        PruneTerminal();
      } else {
        StillQueued(before, terminalOrder, id, entry);
        NothingExceeds(before[id := entry], terminalOrder, maxRetained);
      }
      return Ok(r);
    }

    method RequestCancellation(id: string, expected: set<State>, reason: Reason, now: real) returns (result: Result<Record>)
      requires Valid()
      modifies this
      ensures Valid() && terminalOrder == old(terminalOrder)
      ensures result == RecordOf(CancelIn(old(entries), id, expected, reason, now))
      ensures entries == Stored(old(entries), id, CancelIn(old(entries), id, expected, reason, now))
      ensures result.Ok? ==> id in old(entries) && id in entries && result.value == entries[id].record
      ensures result.Ok? ==> CancellationRecorded(old(entries)[id], reason, now, entries[id])
    {
      ghost var before := entries;
      CancelStays(before, id, expected, reason, now);
      CancelKeepsTraced(before, id, expected, reason, now);
      if expected == {} {
        return Err(InvalidArgument);
      }
      if id !in records {
        return Err(Unknown);
      }
      var current := records[id];
      if current.state !in expected {
        return Err(Conflict);
      }
      if !Allowed(current.state, Cancelling) {
        return Err(IllegalTransition);
      }
      var r := Moved(current, Cancellation(reason), now);
      if !r.Valid() {
        return Err(InvalidRecord);
      }
      var n := |events[id]|;
      WriteCancellation(id, r, RequestedEvent(current, reason, n + 1, now), TransitionEvent(current, r, n + 2));
      return Ok(r);
    }

    /** The writes of a cancellation request behind its checks. */
    method WriteCancellation(id: string, r: Record, requested: Event, event: Event)
      requires Valid() && id in records && !records[id].state.IsTerminal() && !r.state.IsTerminal()
      requires var e := entries[id]; AllTraced(entries[id := e.(record := r, events := e.events + [requested, event])])
      modifies this
      ensures Valid() && terminalOrder == old(terminalOrder)
      ensures var e := old(entries)[id]; entries == old(entries)[id := e.(record := r, events := e.events + [requested, event])]
    {
      ghost var before := entries;
      Put(id, r, events[id] + [requested, event], manifests[id], manifestComplete[id]);
      StillQueued(before, terminalOrder, id, before[id].(record := r, events := before[id].events + [requested, event]));
    }

    /** `_prune_terminal_locked`: drop the oldest finished executions beyond the limit. */
    method PruneTerminal()
      requires Aligned() && AllTraced(entries) && Queued(entries, terminalOrder) && 0 < maxRetained
      modifies this
      ensures Valid()
      ensures entries == Retained(old(entries), old(terminalOrder), maxRetained)
      ensures terminalOrder == old(terminalOrder)[Excess(old(terminalOrder), maxRetained)..]
    {
      ghost var all, order := entries, terminalOrder;
      ghost var k := 0;
      PruneBegins(all, order);
      while |terminalOrder| > maxRetained
        invariant k <= Excess(order, maxRetained) && Pruned(all, order, k)
      {
        PruneOldest(all, order, k);
        k := k + 1;
      }
      PrunedEnough(all, order, k);
    }

    lemma {:induction false} PrunedEnough(all: Entries, order: seq<string>, k: nat)
      requires AllTraced(all) && Queued(all, order) && Pruned(all, order, k)
      requires k <= Excess(order, maxRetained) && |terminalOrder| <= maxRetained && 0 < maxRetained
      ensures Valid() && entries == Retained(all, order, maxRetained) && terminalOrder == order[Excess(order, maxRetained)..]
    {
      RetainedQueued(all, order, k);
      RetainedTraced(all, order[..k]);
    }

    /** The `k` oldest of the finished executions are gone. */
    ghost predicate Pruned(all: Entries, order: seq<string>, k: nat)
      reads this
    {
      k <= |order| && terminalOrder == order[k..] && Aligned() && entries == all - IdsOf(order[..k])
    }

    method PruneOldest(ghost all: Entries, ghost order: seq<string>, ghost k: nat)
      requires Queued(all, order) && Pruned(all, order, k) && terminalOrder != []
      modifies this
      ensures Pruned(all, order, k + 1)
    {
      var id := terminalOrder[0];
      terminalOrder := terminalOrder[1..];
      DropsNext(all, order, k);
      assert id in entries && entries[id] == all[id];
      if id !in records || !records[id].state.IsTerminal() {
        assert false;
      }
      Drop(id);
    }

    method ListUnfinished() returns (r: set<Record>)
      requires Valid()
      ensures r == Unfinished(entries)
    {
      r := set id | id in records && !records[id].state.IsTerminal() :: records[id];
    }

    method ListEvents(id: string, cursor: int, limit: int) returns (result: Result<(Page, bool)>)
      requires Valid()
      ensures result == ListIn(entries, id, cursor, limit)
    {
      if cursor < 0 || !(1 <= limit <= MAX_PAGE) {
        return Err(InvalidArgument);
      }
      if id !in records {
        return Err(Unknown);
      }
      assert KeptWell(entries, id);
      var verdict := Validate(records[id], events[id]);
      if verdict.Err? {
        return Err(verdict.error);
      }
      return Ok((PageAt(events[id], cursor, limit), verdict.value));
    }

    method ListArtifacts(id: string) returns (result: Result<(seq<Artifact>, bool)>)
      requires Valid()
      ensures result == if id in entries then Ok((entries[id].artifacts, entries[id].complete)) else Err(Unknown)
    {
      if id !in records {
        return Err(Unknown);
      }
      return Ok((manifests[id], manifestComplete[id]));
    }
  }

  // ----- Lemmas about the queue

  lemma {:induction false} NothingExceeds(entries: Entries, finished: seq<string>, limit: nat)
    requires |finished| <= limit
    ensures Retained(entries, finished, limit) == entries
    ensures finished[Excess(finished, limit)..] == finished && finished + [] == finished
  {
    assert finished[..0] == [];
  }

  lemma {:induction false} StillQueued(entries: Entries, finished: seq<string>, id: string, e: Entry)
    requires Queued(entries, finished) && id in entries
    requires !entries[id].record.state.IsTerminal() && !e.record.state.IsTerminal()
    ensures Queued(entries[id := e], finished)
  {
  }

  lemma {:induction false} FinishQueues(entries: Entries, finished: seq<string>, id: string, e: Entry)
    requires Queued(entries, finished) && id in entries
    requires !entries[id].record.state.IsTerminal() && e.record.state.IsTerminal()
    ensures Queued(entries[id := e], finished + [id])
  {
    assert id !in finished;
  }

  /** The next id to drop is a finished execution that is still there. */
  lemma {:induction false} DropsNext(all: Entries, order: seq<string>, k: nat)
    requires Queued(all, order) && k < |order|
    ensures order[k] in all && order[k] !in order[..k] && all[order[k]].record.state.IsTerminal()
    ensures all - IdsOf(order[..k + 1]) == all - IdsOf(order[..k]) - {order[k]}
    ensures order[k..][0] == order[k] && order[k..][1..] == order[k + 1..]
  {
    assert order[k] in order;
    assert order[..k + 1] == order[..k] + [order[k]];
  }

  /** The execution of an accepted transition is still there, even if it ended just now, and has recorded it. */
  lemma {:induction false} TransitionStays(entries: Entries, order: seq<string>, id: string, expected: set<State>, c: Change, now: real, limit: nat)
    requires Queued(entries, order) && limit > 0 && |order| <= limit
    ensures var attempt := TransitionIn(entries, id, expected, c, now);
      var finished := order + if attempt.Ok? && c.state.IsTerminal() then [id] else [];
      var after := Retained(Stored(entries, id, attempt), finished, limit);
      attempt.Ok? ==> id in entries && id in after && after[id] == attempt.value && TransitionRecorded(entries[id], c, now, after[id])
  {
    if TransitionIn(entries, id, expected, c, now).Ok? {
      TransitionRecords(entries[id], expected, c, now);
      assert id !in order;
      var finished := order + if c.state.IsTerminal() then [id] else [];
      var k := Excess(finished, limit);
      assert finished[..k] == order[..k];
    }
  }

  lemma {:induction false} CancelStays(entries: Entries, id: string, expected: set<State>, reason: Reason, now: real)
    ensures var attempt := CancelIn(entries, id, expected, reason, now);
      attempt.Ok? ==> id in entries && CancellationRecorded(entries[id], reason, now, attempt.value)
  {
    if CancelIn(entries, id, expected, reason, now).Ok? {
      CancellationRecords(entries[id], expected, reason, now);
    }
  }

  lemma {:induction false} PruneBegins(all: Entries, order: seq<string>)
    ensures order[0..] == order && all - IdsOf(order[..0]) == all
  {
    assert order[..0] == [];
  }

  lemma {:induction false} RetainedTraced(all: Entries, dropped: seq<string>)
    requires AllTraced(all)
    ensures AllTraced(all - IdsOf(dropped))
  {
    var after := all - IdsOf(dropped);
    forall j ensures KeptWell(after, j) {
      assert KeptWell(all, j);
    }
  }

  lemma {:induction false} CreateQueues(entries: Entries, finished: seq<string>, id: string, e: Entry)
    requires Queued(entries, finished) && id !in entries && !e.record.state.IsTerminal()
    ensures Queued(entries[id := e], finished)
  {
  }

  lemma {:induction false} RetainedQueued(all: Entries, order: seq<string>, k: nat)
    requires Queued(all, order) && k <= |order|
    ensures Queued(all - IdsOf(order[..k]), order[k..])
  {
    assert order == order[..k] + order[k..];
    forall id ensures id in order[k..] <==> id in order && id !in order[..k] {
      if id in order[k..] {
        var i :| k <= i < |order| && order[i] == id;
      }
    }
  }

  ghost function FinishedIds(entries: Entries): set<string> {
    set id | id in entries && entries[id].record.state.IsTerminal()
  }

  lemma {:induction false} IdsAtMost(ids: seq<string>)
    ensures |IdsOf(ids)| <= |ids|
  {
    if ids != [] {
      var front, last := ids[..|ids| - 1], ids[|ids| - 1];
      IdsAtMost(front);
      assert ids == front + [last];
      assert IdsOf(ids) == IdsOf(front) + {last};
    }
  }

  /** Retention never drops an unfinished execution, keeps the latest finished ones, and no more of them than the limit. */
  lemma {:induction false} RetentionKeeps(entries: Entries, finished: seq<string>, limit: nat)
    requires Queued(entries, finished)
    ensures forall id :: id in entries ==>
      (id in Retained(entries, finished, limit) <==> !entries[id].record.state.IsTerminal() || id in finished[Excess(finished, limit)..])
    ensures FinishedIds(Retained(entries, finished, limit)) == IdsOf(finished[Excess(finished, limit)..])
    ensures |FinishedIds(Retained(entries, finished, limit))| <= limit
  {
    var kept := finished[Excess(finished, limit)..];
    RetainedQueued(entries, finished, Excess(finished, limit));
    IdsAtMost(kept);
    assert FinishedIds(Retained(entries, finished, limit)) == IdsOf(kept);
  }
}
