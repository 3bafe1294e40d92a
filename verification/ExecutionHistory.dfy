/** Event histories: what a complete one is, the validator that decides it, and why every
    history a store writes is complete as long as its clock never runs backwards. */
module ExecutionHistory {
  import opened Executions
  import opened Wrappers

  // ----- Complete histories

  /** `e` continues a history that ended with `p`. */
  predicate Continues(p: Event, e: Event) {
    && e.kind != Created && e.sequence == p.sequence + 1 && e.from == Some(p.to)
    && if e.kind == CancellationRequested then e.to == p.to else Allowed(p.to, e.to)
  }

  predicate Linked(id: string, events: seq<Event>) {
    && events != [] && events[0].kind == Created && events[0].sequence == 1
    && (forall e :: e in events ==> e.id == id && e.Valid())
    && (forall i :: 0 < i < |events| ==> Continues(events[i - 1], events[i]))
  }

  predicate InOrder(events: seq<Event>) {
    forall i :: 0 < i < |events| ==> events[i - 1].timestamp <= events[i].timestamp
  }

  /** The event that last set the state. */
  function LastChange(events: seq<Event>): Event
    requires events != []
  {
    var n := |events| - 1;
    if n == 0 || events[n].kind == StateTransition then events[n] else LastChange(events[..n])
  }

  predicate Reports(r: Record, e: Event) {
    e.to == r.state && e.timestamp == r.updatedAt && e.reason == r.reason && e.summary == r.summary
  }

  /** The history tells the whole life of the record, in order. */
  predicate IsComplete(r: Record, events: seq<Event>) {
    && Linked(r.id, events) && InOrder(events)
    && events[0].timestamp == r.createdAt && Reports(r, LastChange(events))
  }

  /** A history whose beginning is missing, as left by databases that recorded no events yet. */
  predicate IsHeadless(r: Record, events: seq<Event>) {
    forall e :: e in events ==> e.id == r.id && e.kind != Created
  }

  function Verdict(r: Record, events: seq<Event>): Result<bool> {
    if IsHeadless(r, events) then Ok(false) else if IsComplete(r, events) then Ok(true) else Err(Corrupt)
  }

  // ----- The validator

  lemma {:induction false} LastChangeStep(events: seq<Event>, i: nat)
    requires 0 < i < |events|
    ensures LastChange(events[..i + 1]) == if events[i].kind == StateTransition then events[i] else LastChange(events[..i])
  {
    assert events[..i + 1][..i] == events[..i];
  }

  /** The loop over the links: the state reached and the event that set it, if every link holds. */
  method Walk(events: seq<Event>) returns (end: Option<(State, Event)>)
    requires events != [] && events[0].Valid() && events[0].kind == Created && events[0].sequence == 1
    ensures end.Some? <==> forall k :: 0 < k < |events| ==> Steps(events[k - 1], events[k])
    ensures end.Some? ==> end.value == (Last(events).to, LastChange(events))
  {
    var state, previous, change := Starting, events[0].timestamp, events[0];
    for i := 1 to |events|
      invariant forall k :: 0 < k < i ==> Steps(events[k - 1], events[k])
      invariant state == events[i - 1].to && previous == events[i - 1].timestamp && events[i - 1].sequence == i
      invariant change == LastChange(events[..i])
    {
      var event := events[i];
      if event.sequence != i + 1 || event.timestamp < previous || event.kind == Created || event.from != Some(state) ||
         (if event.kind == CancellationRequested then event.to != state else !Allowed(state, event.to)) {
        assert !Steps(events[i - 1], event);
        return None;
      }
      LastChangeStep(events, i);
      if event.kind == StateTransition {
        change := event;
      }
      state, previous := event.to, event.timestamp;
    }
    assert events[..|events|] == events;
    return Some((state, change));
  }

  predicate Steps(p: Event, e: Event) {
    Continues(p, e) && p.timestamp <= e.timestamp
  }

  lemma {:induction false} LastChangeReaches(events: seq<Event>)
    requires events != [] && forall k :: 0 < k < |events| ==> Continues(events[k - 1], events[k])
    ensures LastChange(events).to == Last(events).to
  {
    var n := |events| - 1;
    if n > 0 && events[n].kind != StateTransition {
      LastChangeReaches(events[..n]);
      assert Continues(events[n - 1], events[n]);
    }
  }

  /** `_validate_event_history`. */
  method Validate(r: Record, events: seq<Event>) returns (verdict: Result<bool>)
    requires forall e :: e in events ==> e.Valid()
    ensures verdict == Verdict(r, events)
  {
    if events == [] {
      return Ok(false);
    }
    var foreign := Foreign(r, events);
    if foreign {
      return Err(Corrupt);
    }
    var first := events[0];
    assert first in events;
    if first.sequence != 1 || first.kind != Created {
      var begun := AnyCreated(events);
      return if begun then Err(Corrupt) else Ok(false);
    }
    if first.timestamp != r.createdAt {
      return Err(Corrupt);
    }
    var end := Walk(events);
    if end.None? {
      var k :| 0 < k < |events| && !Steps(events[k - 1], events[k]);
      return Err(Corrupt);
    }
    LastChangeReaches(events);
    var (state, change) := end.value;
    if state != r.state || change.timestamp != r.updatedAt || change.reason != r.reason || change.summary != r.summary {
      return Err(Corrupt);
    }
    return Ok(true);
  }

  method Foreign(r: Record, events: seq<Event>) returns (found: bool)
    ensures found <==> exists e :: e in events && e.id != r.id
  {
    for i := 0 to |events|
      invariant forall k :: 0 <= k < i ==> events[k].id == r.id
    {
      if events[i].id != r.id {
        assert events[i] in events;
        return true;
      }
    }
    return false;
  }

  method AnyCreated(events: seq<Event>) returns (found: bool)
    ensures found <==> exists e :: e in events && e.kind == Created
  {
    for i := 0 to |events|
      invariant forall k :: 0 <= k < i ==> events[k].kind != Created
    {
      if events[i].kind == Created {
        assert events[i] in events;
        return true;
      }
    }
    return false;
  }

  // ----- What the stores write

  /** Room for the events of an execution in this state. */
  function MostEvents(state: State): nat {
    match state
    case Starting => 1
    case Running => 2
    case Cancelling => 4
    case _ => 5
  }

  /** What every store keeps about an execution, whatever its clock does. */
  predicate Traced(e: Entry) {
    && e.record.Valid()
    && Linked(e.record.id, e.events) && e.events[0].timestamp == e.record.createdAt
    && Last(e.events).to == e.record.state
    && |e.events| <= MostEvents(e.record.state)
    && (|e.events| > 1 ==> Last(e.events).kind == StateTransition && Reports(e.record, Last(e.events)))
    && (|e.events| == 1 ==> e.record.state == Starting && e.record.reason.None? && e.record.summary.None?)
    && (e.complete ==> e.record.state.IsTerminal()) && (!e.complete ==> e.artifacts == [])
    && AcceptsManifest(e.record.id, Some(e.artifacts), true)
  }

  function Last(events: seq<Event>): Event
    requires events != []
  {
    events[|events| - 1]
  }

  lemma {:induction false} LinkedSnoc(id: string, events: seq<Event>, e: Event)
    requires Linked(id, events) && e.id == id && e.Valid() && Continues(Last(events), e)
    ensures Linked(id, events + [e])
    ensures InOrder(events + [e]) <==> InOrder(events) && Last(events).timestamp <= e.timestamp
  {
    var longer := events + [e];
    assert longer[|events|] == e && longer[|events| - 1] == Last(events);
    assert forall i :: 0 <= i < |events| ==> longer[i] == events[i];
  }

  lemma {:induction false} LinkedSequence(id: string, events: seq<Event>, i: nat)
    requires Linked(id, events) && i < |events|
    ensures events[i].sequence == i + 1
  {
    if i > 0 {
      LinkedSequence(id, events, i - 1);
      assert Continues(events[i - 1], events[i]);
    }
  }

  lemma {:induction false} CreateTraces(r: Record)
    requires r.Valid() && CreateEntry(r).Ok?
    ensures Traced(CreateEntry(r).value)
    ensures IsComplete(r, CreateEntry(r).value.events) <==> r.updatedAt == r.createdAt
  {
    var events := [CreatedEvent(r)];
    assert LastChange(events) == events[0];
  }

  lemma {:induction false} TransitionTraces(e: Entry, expected: set<State>, c: Change, now: real)
    requires Traced(e) && TransitionEntry(e, expected, c, now).Ok?
    ensures var next := TransitionEntry(e, expected, c, now).value;
      && Traced(next)
      && (InOrder(next.events) <==> InOrder(e.events) && Last(e.events).timestamp <= now)
  {
    var r := Moved(e.record, c, now);
    var event := TransitionEvent(e.record, r, |e.events| + 1);
    TransitionEventsAreValid(e, c, now);
    LinkedSequence(e.record.id, e.events, |e.events| - 1);
    LinkedSnoc(e.record.id, e.events, event);
  }

  lemma {:induction false} CancelTraces(e: Entry, expected: set<State>, reason: Reason, now: real)
    requires Traced(e) && CancelEntry(e, expected, reason, now).Ok?
    ensures var next := CancelEntry(e, expected, reason, now).value;
      && Traced(next)
      && (InOrder(next.events) <==> InOrder(e.events) && Last(e.events).timestamp <= now)
  {
    var r := Moved(e.record, Cancellation(reason), now);
    var requested := RequestedEvent(e.record, reason, |e.events| + 1, now);
    var event := TransitionEvent(e.record, r, |e.events| + 2);
    TransitionEventsAreValid(e.(events := e.events + [requested]), Cancellation(reason), now);
    TransitionEventsAreValid(e, Cancellation(reason), now);
    LinkedSequence(e.record.id, e.events, |e.events| - 1);
    LinkedSnoc(e.record.id, e.events, requested);
    LinkedSnoc(e.record.id, e.events + [requested], event);
    assert e.events + [requested, event] == e.events + [requested] + [event];
  }

  /** A traced history is complete exactly when its times are in order. */
  lemma {:induction false} TracedIsComplete(e: Entry)
    requires Traced(e)
    ensures Verdict(e.record, e.events) ==
      if InOrder(e.events) && (|e.events| == 1 ==> e.record.updatedAt == e.record.createdAt) then Ok(true) else Err(Corrupt)
  {
    assert e.events[0] in e.events;
    assert LastChange(e.events) == Last(e.events);
  }

  // ----- Whole lives

  datatype Call = Transition(expected: set<State>, change: Change) | RequestCancellation(expected: set<State>, reason: Reason)

  /** A call and the time it records. */
  datatype Timed = Timed(call: Call, now: real)

  function Apply(e: Entry, t: Timed): Result<Entry> {
    match t.call
    case Transition(expected, change) => TransitionEntry(e, expected, change, t.now)
    case RequestCancellation(expected, reason) => CancelEntry(e, expected, reason, t.now)
  }

  /** The entry after a call: a rejected call changes nothing. */
  function Next(e: Entry, t: Timed): Entry {
    if Apply(e, t).Ok? then Apply(e, t).value else e
  }

  function After(e: Entry, calls: seq<Timed>): Entry {
    if calls == [] then e else Next(After(e, calls[..|calls| - 1]), calls[|calls| - 1])
  }

  /** The times of the accepted calls. */
  function AcceptedTimes(e: Entry, calls: seq<Timed>): seq<real> {
    if calls == [] then [] else
      var front, last := calls[..|calls| - 1], calls[|calls| - 1];
      AcceptedTimes(e, front) + if Apply(After(e, front), last).Ok? then [last.now] else []
  }

  predicate NonDecreasing(times: seq<real>) {
    forall i :: 0 < i < |times| ==> times[i - 1] <= times[i]
  }

  lemma {:induction false} NextTraces(e: Entry, t: Timed)
    requires Traced(e)
    ensures Traced(Next(e, t))
    ensures Apply(e, t).Ok? ==>
      && (InOrder(Next(e, t).events) <==> InOrder(e.events) && Last(e.events).timestamp <= t.now)
      && Last(Next(e, t).events).timestamp == t.now && |Next(e, t).events| > 1
  {
    if Apply(e, t).Ok? {
      match t.call
      case Transition(expected, change) => TransitionTraces(e, expected, change, t.now);
      case RequestCancellation(expected, reason) => CancelTraces(e, expected, reason, t.now);
    }
  }

  lemma {:induction false} NonDecreasingSnoc(times: seq<real>, now: real)
    requires times != []
    ensures NonDecreasing(times + [now]) <==> NonDecreasing(times) && times[|times| - 1] <= now
  {
    var longer := times + [now];
    assert forall i :: 0 <= i < |times| ==> longer[i] == times[i];
    assert longer[|times|] == now;
  }

  /** The times of the history of `e` are those of creation and of the accepted calls. */
  predicate Tracks(created: Entry, accepted: seq<real>, e: Entry) {
    var times := [created.record.createdAt] + accepted;
    && Traced(e)
    && (InOrder(e.events) <==> NonDecreasing(times))
    && Last(e.events).timestamp == times[|accepted|]
    && (|e.events| == 1 <==> accepted == [])
    && (accepted == [] ==> e == created)
  }

  lemma {:induction false} NextTracks(created: Entry, accepted: seq<real>, e: Entry, t: Timed)
    requires Tracks(created, accepted, e)
    ensures Tracks(created, accepted + if Apply(e, t).Ok? then [t.now] else [], Next(e, t))
  {
    NextTraces(e, t);
    var times := [created.record.createdAt] + accepted;
    if Apply(e, t).Ok? {
      NonDecreasingSnoc(times, t.now);
      assert [created.record.createdAt] + (accepted + [t.now]) == times + [t.now];
    } else {
      assert accepted + [] == accepted;
    }
  }

  lemma {:induction false} LifeTracks(created: Entry, calls: seq<Timed>)
    requires Traced(created) && |created.events| == 1
    ensures Tracks(created, AcceptedTimes(created, calls), After(created, calls))
  {
    if calls != [] {
      var front := calls[..|calls| - 1];
      LifeTracks(created, front);
      NextTracks(created, AcceptedTimes(created, front), After(created, front), calls[|calls| - 1]);
    }
  }

  /** Whatever calls an execution sees, its history has at most five events, and the validator
      accepts it exactly when the accepted calls never recorded a time before an earlier one. */
  lemma {:induction false} HistoriesAreComplete(r: Record, calls: seq<Timed>)
    requires r.Valid() && CreateEntry(r).Ok?
    ensures var e := After(CreateEntry(r).value, calls);
      var accepted := AcceptedTimes(CreateEntry(r).value, calls);
      && Traced(e) && |e.events| <= 5
      && Verdict(e.record, e.events) ==
         if NonDecreasing([r.createdAt] + accepted) && (accepted == [] ==> r.updatedAt == r.createdAt) then Ok(true) else Err(Corrupt)
  {
    CreateTraces(r);
    LifeTracks(CreateEntry(r).value, calls);
    TracedIsComplete(After(CreateEntry(r).value, calls));
  }

  /** A finished execution never changes again. */
  lemma {:induction false} TerminalForever(e: Entry, calls: seq<Timed>)
    requires e.record.state.IsTerminal()
    ensures After(e, calls) == e
  {
    if calls != [] {
      TerminalForever(e, calls[..|calls| - 1]);
    }
  }

  /** How many of the calls were accepted and left the execution in a terminal state. */
  function Endings(e: Entry, calls: seq<Timed>): nat {
    if calls == [] then 0 else
      var front, last := calls[..|calls| - 1], calls[|calls| - 1];
      var r := Apply(After(e, front), last);
      Endings(e, front) + if r.Ok? && r.value.record.state.IsTerminal() then 1 else 0
  }

  /** However many threads complete and cancel an execution, and in whatever order their calls come: one ending at most
      is accepted, and exactly one if the execution has ended. */
  lemma {:induction false} EndsOnce(e: Entry, calls: seq<Timed>)
    requires !e.record.state.IsTerminal()
    ensures Endings(e, calls) == if After(e, calls).record.state.IsTerminal() then 1 else 0
  {
    if calls != [] {
      EndsOnce(e, calls[..|calls| - 1]);
      AcceptedWasOpen(After(e, calls[..|calls| - 1]), calls[|calls| - 1]);
    }
  }

  /** An accepted call found the execution unfinished. */
  lemma {:induction false} AcceptedWasOpen(e: Entry, t: Timed)
    ensures Apply(e, t).Ok? ==> !e.record.state.IsTerminal()
  {
  }

  // ----- Reading a history page by page

  datatype Page = Page(events: seq<Event>, nextCursor: nat, hasMore: bool)

  function Beyond(events: seq<Event>, cursor: nat): seq<Event> {
    if events == [] then [] else
      var front := Beyond(events[..|events| - 1], cursor);
      if Last(events).sequence > cursor then front + [Last(events)] else front
  }

  /** The page of `list_events`. */
  function PageAt(events: seq<Event>, cursor: nat, limit: nat): Page
    requires 1 <= limit
  {
    PageOf(Beyond(events, cursor), cursor, limit)
  }

  function PageOf(selected: seq<Event>, cursor: nat, limit: nat): Page
    requires 1 <= limit
  {
    var page := if |selected| <= limit then selected else selected[..limit];
    Page(page, if page == [] then cursor else Last(page).sequence, |selected| > limit)
  }

  predicate Numbered(events: seq<Event>) {
    forall i :: 0 <= i < |events| ==> events[i].sequence == i + 1
  }

  lemma {:induction false} BeyondIsSuffix(events: seq<Event>, cursor: nat)
    requires Numbered(events)
    ensures Beyond(events, cursor) == if cursor <= |events| then events[cursor..] else []
  {
    if events != [] {
      BeyondIsSuffix(events[..|events| - 1], cursor);
      if cursor < |events| {
        assert events[cursor..] == events[..|events| - 1][cursor..] + [Last(events)];
      }
    }
  }

  lemma {:induction false} PageOfSuffix(events: seq<Event>, cursor: nat, end: nat, limit: nat)
    requires Numbered(events) && 1 <= limit && cursor <= |events|
    requires end == if |events| - cursor <= limit then |events| else cursor + limit
    ensures PageOf(events[cursor..], cursor, limit) == Page(events[cursor..end], end, end < |events|)
  {
    var page := PageOf(events[cursor..], cursor, limit).events;
    assert page == events[cursor..end];
    if cursor < end {
      assert Last(page) == events[end - 1];
    }
  }

  lemma {:induction false} PageReads(events: seq<Event>, cursor: nat, limit: nat)
    requires Numbered(events) && 1 <= limit && cursor <= |events|
    ensures var end := if |events| - cursor <= limit then |events| else cursor + limit;
      PageAt(events, cursor, limit) == Page(events[cursor..end], end, end < |events|)
  {
    BeyondIsSuffix(events, cursor);
    PageOfSuffix(events, cursor, if |events| - cursor <= limit then |events| else cursor + limit, limit);
  }

  /** The events of all pages from a cursor on, following `next_cursor` while there is more. */
  function Pages(events: seq<Event>, cursor: nat, limit: nat, calls: nat): seq<Event>
    requires 1 <= limit
    decreases calls, events
  {
    var page := PageAt(events, cursor, limit);
    page.events + if page.hasMore && calls > 0 then Pages(events, page.nextCursor, limit, calls - 1) else []
  }

  lemma {:induction false} SplitTail(events: seq<Event>, a: nat, b: nat)
    requires a <= b <= |events|
    ensures events[a..b] + events[b..] == events[a..]
    ensures b == |events| ==> events[a..b] + [] == events[a..]
  {
  }

  lemma {:induction false} PagesCover(events: seq<Event>, cursor: nat, limit: nat, calls: nat)
    requires Numbered(events) && 1 <= limit && cursor <= |events| <= cursor + calls
    ensures Pages(events, cursor, limit, calls) == events[cursor..]
    decreases calls
  {
    PageReads(events, cursor, limit);
    var next := PageAt(events, cursor, limit).nextCursor;
    SplitTail(events, cursor, next);
    if next < |events| {
      PagesCover(events, next, limit, calls - 1);
    }
  }

  /** Following the cursors reads every event behind the first cursor once, in order. */
  lemma {:induction false} PagesReadAll(id: string, events: seq<Event>, cursor: nat, limit: nat, calls: nat)
    requires Linked(id, events) && 1 <= limit && cursor <= |events| <= cursor + calls
    ensures Pages(events, cursor, limit, calls) == events[cursor..]
  {
    forall i | 0 <= i < |events| ensures events[i].sequence == i + 1 {
      LinkedSequence(id, events, i);
    }
    PagesCover(events, cursor, limit, calls);
  }
}
