/** What the recycle bin guarantees over every run with crashes anywhere. */
module TrashSafety {
  import opened Trash
  import opened Wrappers

  // ----- Runs

  /** A call that was not a purge: each starts with a recovery, and may crash at any step. */
  ghost predicate Moves(env: Env, d: Disk, e: Disk) {
    || Interrupted(env, d, e)
    || (exists x, path, expected, id, k :: TrashMove(env, d, x, path, expected, id, k, e))
    || (exists x, id, expected, destination, k :: RestoreMove(env, d, x, id, expected, destination, k, e))
  }

  ghost predicate TrashMove(env: Env, d: Disk, x: Disk, path: Path, expected: Digest, id: TrashId, k: nat, e: Disk) {
    CleanPass(env, d, x) && AcceptsTrash(env, x, path, expected, id) && k < 6 && e == TrashStep(x, path, id, k)
  }

  ghost predicate RestoreMove(env: Env, d: Disk, x: Disk, id: TrashId, expected: Digest, destination: Path, k: nat, e: Disk) {
    Interrupted(env, d, x) && AcceptsRestore(env, x, id, expected, destination) && k < 8 && e == RestoreStep(x, id, destination, k)
  }

  /** A purge of `id`: recovery, the committing rename, and some of the cleanup. */
  ghost predicate Purges(env: Env, d: Disk, id: TrashId, e: Disk) {
    exists x, expected :: PurgeMove(env, d, x, id, expected, e)
  }

  ghost predicate PurgeMove(env: Env, d: Disk, x: Disk, id: TrashId, expected: Digest, e: Disk) {
    && Interrupted(env, d, x) && AcceptsPurge(env, x, id, expected)
    && (e == x ||
        var c := PurgeCommit(x, id);
        && e.files == c.files && e.staging == c.staging && e.items == c.items
        && forall j :: Cleaned(Lookup(c.purging, j), Lookup(e.purging, j)))
  }

  ghost predicate Calls(env: Env, d: Disk, e: Disk) {
    Moves(env, d, e) || exists id :: Purges(env, d, id, e)
  }

  ghost predicate FullRestore(env: Env, d: Disk, x: Disk, id: TrashId, expected: Digest, destination: Path, k: nat, e: Disk) {
    Passed(env, d, x) && RestoreMove(env, d, x, id, expected, destination, k, e)
  }

  ghost predicate FullPurge(env: Env, d: Disk, x: Disk, id: TrashId, expected: Digest, e: Disk) {
    Passed(env, d, x) && PurgeMove(env, d, x, id, expected, e)
  }

  /** A call whose recovery was not cut short by the entry limit; it may have crashed in it, though. */
  ghost predicate CallsFully(env: Env, d: Disk, e: Disk) {
    || Interrupted(env, d, e)
    || (exists x, path, expected, id, k :: TrashMove(env, d, x, path, expected, id, k, e))
    || (exists x, id, expected, destination, k :: FullRestore(env, d, x, id, expected, destination, k, e))
    || (exists x, id, expected :: FullPurge(env, d, x, id, expected, e))
  }

  ghost predicate Run(env: Env, run: seq<Disk>) {
    run != [] && forall i :: 0 < i < |run| ==> Calls(env, run[i - 1], run[i])
  }

  /** A call that does not purge an item holding `c`. */
  ghost predicate Spares(env: Env, d: Disk, e: Disk, c: Content) {
    Moves(env, d, e) ||
    exists x, id, expected :: PurgeMove(env, d, x, id, expected, e) && !Carries(Lookup(x.items, id), c)
  }

  ghost predicate SparingRun(env: Env, run: seq<Disk>, c: Content) {
    run != [] && forall i :: 0 < i < |run| ==> Spares(env, run[i - 1], run[i], c)
  }

  // ----- No content is lost

  ghost predicate Carries(item: Option<Item>, c: Content) {
    item.Some? && item.value.payload == Some(c)
  }

  ghost predicate InSlots(s: Slots, c: Content) {
    Carries(s.staged, c) || Carries(s.item, c)
  }

  ghost predicate InFiles(files: map<Path, Content>, c: Content) {
    exists p :: p in files && files[p] == c
  }

  /** The content is in a workspace file, or a payload in staging or items. */
  ghost predicate Keeps(d: Disk, c: Content) {
    InFiles(d.files, c) || exists id :: InSlots(SlotsOf(d, id), c)
  }

  lemma {:induction false} FormalKeeps(env: Env, files: map<Path, Content>, id: TrashId, item: Item, c: Content, k: nat)
    requires k < |FormalRecovery(env, files, id, item).states| && item.payload == Some(c)
    ensures Carries(FormalRecovery(env, files, id, item).states[k], c) || InFiles(files, c)
  {
  }

  lemma {:induction false} PartwayKeeps(env: Env, files: map<Path, Content>, id: TrashId, s: Slots, t: Slots, c: Content)
    requires Partway(env, files, id, s, t) && InSlots(s, c)
    ensures InSlots(t, c) || InFiles(files, c)
  {
    StagingKeeps(env, files, id, s, c);
    FormalSlotsKeep(env, files, id, s, c);
    var m := StagingRecovery(env, files, id, s).Last();
    if InSlots(m, c) {
      FormalSlotsKeep(env, files, id, m, c);
    }
  }

  lemma {:induction false} StagingKeeps(env: Env, files: map<Path, Content>, id: TrashId, s: Slots, c: Content)
    requires InSlots(s, c)
    ensures forall t :: t in StagingRecovery(env, files, id, s).states ==> InSlots(t, c)
  {
  }

  lemma {:induction false} FormalSlotsKeep(env: Env, files: map<Path, Content>, id: TrashId, s: Slots, c: Content)
    requires InSlots(s, c)
    ensures forall t :: t in FormalSlots(env, files, id, s).states ==> InSlots(t, c) || InFiles(files, c)
  {
    if s.item.Some? && Carries(s.item, c) {
      forall k | 0 <= k < |FormalRecovery(env, files, id, s.item.value).states|
        ensures Carries(FormalRecovery(env, files, id, s.item.value).states[k], c) || InFiles(files, c)
      {
        FormalKeeps(env, files, id, s.item.value, c, k);
      }
    }
  }

  lemma {:induction false} InterruptedKeeps(env: Env, d: Disk, e: Disk, c: Content)
    requires Interrupted(env, d, e) && Keeps(d, c)
    ensures Keeps(e, c)
  {
    if !InFiles(d.files, c) {
      var id :| InSlots(SlotsOf(d, id), c);
      PartwayKeeps(env, d.files, id, SlotsOf(d, id), SlotsOf(e, id), c);
    }
  }

  lemma {:induction false} PassedIsInterrupted(env: Env, d: Disk, e: Disk)
    requires Passed(env, d, e) && forall id :: Cleaned(Lookup(d.purging, id), Lookup(e.purging, id))
    ensures Interrupted(env, d, e)
  {
    forall id ensures Partway(env, d.files, id, SlotsOf(d, id), SlotsOf(e, id)) {
      var m := StagingRecovery(env, d.files, id, SlotsOf(d, id)).Last();
      assert FormalSlots(env, d.files, id, m).Last() in FormalSlots(env, d.files, id, m).states;
    }
  }

  lemma {:induction false} TrashKeeps(d: Disk, path: Path, id: TrashId, k: nat, c: Content)
    requires path in d.files && id !in d.items && id !in d.staging && k < 6 && Keeps(d, c)
    ensures Keeps(TrashStep(d, path, id, k), c)
  {
    var e := TrashStep(d, path, id, k);
    if p :| p in d.files && d.files[p] == c {
      if p in e.files {
        assert e.files[p] == c;
      } else {
        assert InSlots(SlotsOf(e, id), c);
      }
    } else {
      var j :| InSlots(SlotsOf(d, j), c);
      assert SlotsOf(e, j) == SlotsOf(d, j);
    }
  }

  lemma {:induction false} RestoreKeeps(env: Env, d: Disk, id: TrashId, expected: Digest, destination: Path, k: nat, c: Content)
    requires AcceptsRestore(env, d, id, expected, destination) && k < 8 && Keeps(d, c)
    ensures Keeps(RestoreStep(d, id, destination, k), c)
  {
    var e := RestoreStep(d, id, destination, k);
    if p :| p in d.files && d.files[p] == c {
      assert p in e.files && e.files[p] == c;
    } else {
      var j :| InSlots(SlotsOf(d, j), c);
      if j != id || k <= 2 {
        assert InSlots(SlotsOf(e, j), c);
      } else if Carries(Lookup(d.staging, id), c) {
        assert InSlots(SlotsOf(e, id), c);
      } else {
        assert destination in e.files && e.files[destination] == c;
      }
    }
  }

  /** One call, interrupted anywhere, keeps every content. */
  lemma {:induction false} MoveKeeps(env: Env, d: Disk, e: Disk, c: Content)
    requires Moves(env, d, e) && Keeps(d, c)
    ensures Keeps(e, c)
  {
    if Interrupted(env, d, e) {
      InterruptedKeeps(env, d, e, c);
    } else if exists x, path, expected, id, k :: TrashMove(env, d, x, path, expected, id, k, e) {
      var x, path, expected, id, k :| TrashMove(env, d, x, path, expected, id, k, e);
      PassedIsInterrupted(env, d, x);
      InterruptedKeeps(env, d, x, c);
      TrashKeeps(x, path, id, k, c);
    } else {
      var x, id, expected, destination, k :| RestoreMove(env, d, x, id, expected, destination, k, e);
      InterruptedKeeps(env, d, x, c);
      RestoreKeeps(env, x, id, expected, destination, k, c);
    }
  }

  /** A purge removes at most the payload of the purged item. */
  lemma {:induction false} PurgeKeeps(env: Env, d: Disk, x: Disk, id: TrashId, expected: Digest, e: Disk, c: Content)
    requires PurgeMove(env, d, x, id, expected, e) && !Carries(Lookup(x.items, id), c) && Keeps(d, c)
    ensures Keeps(e, c)
  {
    InterruptedKeeps(env, d, x, c);
    if !InFiles(x.files, c) {
      var j :| InSlots(SlotsOf(x, j), c);
      PurgeLeaves(env, d, x, id, expected, e, c, j);
      assert InSlots(SlotsOf(e, j), c);
    } else {
      assert InFiles(e.files, c);
    }
  }

  lemma {:induction false} PurgeLeaves(env: Env, d: Disk, x: Disk, id: TrashId, expected: Digest, e: Disk, c: Content, j: TrashId)
    requires PurgeMove(env, d, x, id, expected, e) && !Carries(Lookup(x.items, id), c) && InSlots(SlotsOf(x, j), c)
    ensures InSlots(SlotsOf(e, j), c)
  {
  }

  /** Over any run of trash, restore, list, purge and recovery, with crashes anywhere, a
      content on disk at the start stays there unless an item that holds it is purged. */
  lemma {:induction false} NothingIsLost(env: Env, run: seq<Disk>, c: Content)
    requires SparingRun(env, run, c) && Keeps(run[0], c)
    ensures Keeps(run[|run| - 1], c)
  {
    if |run| > 1 {
      var front := run[..|run| - 1];
      NothingIsLost(env, front, c);
      var d, e := run[|run| - 2], run[|run| - 1];
      assert Spares(env, d, e, c);
      if Moves(env, d, e) {
        MoveKeeps(env, d, e, c);
      } else {
        var x, id, expected :| PurgeMove(env, d, x, id, expected, e) && !Carries(Lookup(x.items, id), c);
        PurgeKeeps(env, d, x, id, expected, e, c);
      }
    }
  }

  // ----- Recovery converges

  /** What one pass makes of an id that is not staged. */
  function RecoveredItem(env: Env, files: map<Path, Content>, id: TrashId, item: Option<Item>): Option<Item> {
    if item.None? then None else Recovered(env, files, id, item.value)
  }

  lemma {:induction false} ItemPass(env: Env, files: map<Path, Content>, id: TrashId, item: Option<Item>)
    ensures RecoverSlots(env, files, id, Slots(None, item)) == Slots(None, RecoveredItem(env, files, id, item))
  {
  }

  /** Passes over an id that is not staged settle after the second one. */
  lemma {:induction false} UnstagedSettles(env: Env, files: map<Path, Content>, id: TrashId, item: Option<Item>, s: Slots, t: Slots)
    requires s == RecoverSlots(env, files, id, Slots(None, item)) && t == RecoverSlots(env, files, id, s)
    ensures RecoverSlots(env, files, id, t) == t
  {
    var once := RecoveredItem(env, files, id, item);
    var twice := RecoveredItem(env, files, id, once);
    ItemPass(env, files, id, item);
    ItemPass(env, files, id, once);
    ItemPass(env, files, id, twice);
    if item.Some? {
      ItemSettles(env, files, id, item.value);
    }
  }

  /** A pass over an unpublished staging entry publishes it, then passes over the item;
      or it leaves a staging entry that further passes keep, or nothing. */
  lemma {:induction false} StagedPass(env: Env, files: map<Path, Content>, id: TrashId, item: Item)
    ensures var once := RecoverSlots(env, files, id, Slots(Some(item), None));
      || once == RecoverSlots(env, files, id, Slots(None, Some(item)))
      || (once.item.None? && (once.staged.Some? ==> RecoverSlots(env, files, id, once) == once))
  {
  }

  /** Two passes settle an id that is not both staged and published. */
  lemma {:induction false} SlotsSettle(env: Env, files: map<Path, Content>, id: TrashId, s: Slots, once: Slots, twice: Slots)
    requires s.staged.None? || s.item.None?
    requires once == RecoverSlots(env, files, id, s) && twice == RecoverSlots(env, files, id, once)
    ensures RecoverSlots(env, files, id, twice) == twice
  {
    if s.staged.None? {
      UnstagedSettles(env, files, id, s.item, once, twice);
    } else {
      StagedPass(env, files, id, s.staged.value);
      if once == RecoverSlots(env, files, id, Slots(None, s.staged)) {
        UnstagedSettles(env, files, id, s.staged, once, twice);
      } else if once.staged.None? {
        ItemPass(env, files, id, None);
      }
    }
  }

  function Recovered(env: Env, files: map<Path, Content>, id: TrashId, item: Item): Option<Item> {
    FormalRecovery(env, files, id, item).Last()
  }

  const LEFTOVER := EMPTY_DIRECTORY.(temp := true)

  /** What one pass makes of an item: nothing, the same, a leftover directory, or the item without intent. */
  lemma {:induction false} RecoveredShape(env: Env, files: map<Path, Content>, id: TrashId, item: Item)
    ensures var once := Recovered(env, files, id, item);
      || once == None || once == Some(item) || once == Some(LEFTOVER)
      || (item.intent.Some? && once == Some(item.(intent := None)))
  {
  }

  lemma {:induction false} LeftoverStays(env: Env, files: map<Path, Content>, id: TrashId)
    ensures Recovered(env, files, id, LEFTOVER) == Some(LEFTOVER)
  {
  }

  /** A third pass changes nothing more. */
  lemma {:induction false} ItemSettles(env: Env, files: map<Path, Content>, id: TrashId, item: Item)
    ensures var once := Recovered(env, files, id, item);
      once.Some? ==>
        var twice := Recovered(env, files, id, once.value);
        twice.Some? ==> Recovered(env, files, id, twice.value) == twice
  {
    RecoveredShape(env, files, id, item);
    RecoveredShape(env, files, id, item.(intent := None));
    LeftoverStays(env, files, id);
  }

  ghost predicate Disjoint(d: Disk) {
    d.staging.Keys !! d.items.Keys
  }

  /** From any disk whose ids are not both staged and published, the second pass reaches a
      fixed point, and no pass changes a workspace file. */
  lemma {:induction false} RecoveryConverges(env: Env, d: Disk, e: Disk, f: Disk, g: Disk)
    requires Disjoint(d) && Passed(env, d, e) && Passed(env, e, f) && Passed(env, f, g)
    ensures g.files == d.files && g.staging == f.staging && g.items == f.items
  {
    forall id ensures SlotsOf(g, id) == SlotsOf(f, id) {
      ThirdPass(env, d, e, f, g, id);
    }
    SameSlots(g, f);
  }

  lemma {:induction false} ThirdPass(env: Env, d: Disk, e: Disk, f: Disk, g: Disk, id: TrashId)
    requires Disjoint(d) && Passed(env, d, e) && Passed(env, e, f) && Passed(env, f, g)
    ensures SlotsOf(g, id) == SlotsOf(f, id)
  {
    assert SlotsOf(d, id).staged.None? || SlotsOf(d, id).item.None?;
    SlotsSettle(env, d.files, id, SlotsOf(d, id), SlotsOf(e, id), SlotsOf(f, id));
  }

  lemma {:induction false} SameSlots(a: Disk, b: Disk)
    requires forall id :: SlotsOf(a, id) == SlotsOf(b, id)
    ensures a.staging == b.staging && a.items == b.items
  {
    forall id ensures Lookup(a.staging, id) == Lookup(b.staging, id) && Lookup(a.items, id) == Lookup(b.items, id) {
      assert SlotsOf(a, id) == SlotsOf(b, id);
    }
    SameLookups(a.staging, b.staging);
    SameLookups(a.items, b.items);
  }

  lemma {:induction false} SameLookups<K(!new), V>(a: map<K, V>, b: map<K, V>)
    requires forall k :: Lookup(a, k) == Lookup(b, k)
    ensures a == b
  {
    forall k ensures k in a <==> k in b {
      assert Lookup(a, k) == Lookup(b, k);
    }
    forall k | k in a ensures a[k] == b[k] {
      assert Lookup(a, k) == Lookup(b, k);
    }
  }

  /** Every call keeps the ids of staging and items apart. */
  lemma {:induction false} CallsKeepDisjoint(env: Env, d: Disk, e: Disk)
    requires Disjoint(d) && Calls(env, d, e)
    ensures Disjoint(e)
  {
    if Interrupted(env, d, e) {
      InterruptedDisjoint(env, d, e);
    } else if exists x, path, expected, id, k :: TrashMove(env, d, x, path, expected, id, k, e) {
      var x, path, expected, id, k :| TrashMove(env, d, x, path, expected, id, k, e);
      PassedIsInterrupted(env, d, x);
      InterruptedDisjoint(env, d, x);
      TrashDisjoint(x, path, id, k);
    } else if exists x, id, expected, destination, k :: RestoreMove(env, d, x, id, expected, destination, k, e) {
      var x, id, expected, destination, k :| RestoreMove(env, d, x, id, expected, destination, k, e);
      InterruptedDisjoint(env, d, x);
      RestoreDisjoint(x, id, destination, k);
    } else {
      var id :| Purges(env, d, id, e);
      var x, expected :| PurgeMove(env, d, x, id, expected, e);
      InterruptedDisjoint(env, d, x);
    }
  }

  lemma {:induction false} TrashDisjoint(d: Disk, path: Path, id: TrashId, k: nat)
    requires Disjoint(d) && path in d.files && id !in d.items && id !in d.staging && k < 6
    ensures Disjoint(TrashStep(d, path, id, k))
  {
  }

  lemma {:induction false} RestoreDisjoint(d: Disk, id: TrashId, destination: Path, k: nat)
    requires Disjoint(d) && id in d.items && d.items[id].payload.Some? && d.items[id].meta.Some? && k < 8
    ensures Disjoint(RestoreStep(d, id, destination, k))
  {
    var e := RestoreStep(d, id, destination, k);
    assert e.staging == d.staging && e.items.Keys <= d.items.Keys;
  }

  lemma {:induction false} InterruptedDisjoint(env: Env, d: Disk, e: Disk)
    requires Disjoint(d) && Interrupted(env, d, e)
    ensures Disjoint(e)
  {
    forall id | id in e.staging ensures id !in e.items {
      assert SlotsOf(e, id).staged.Some?;
      assert SlotsOf(d, id).staged.None? || SlotsOf(d, id).item.None?;
      PartwayApart(env, d.files, id, SlotsOf(d, id), SlotsOf(e, id));
    }
  }

  lemma {:induction false} PartwayApart(env: Env, files: map<Path, Content>, id: TrashId, s: Slots, t: Slots)
    requires (s.staged.None? || s.item.None?) && Partway(env, files, id, s, t)
    ensures t.staged.None? || t.item.None?
  {
  }

  /** One pass settles an item unless it rolls a restore back while an identical copy
      sits at the original path; the second pass then removes the item. */
  lemma {:induction false} OnePassSettlesUnless(env: Env, files: map<Path, Content>, id: TrashId, item: Item)
    ensures var once := Recovered(env, files, id, item);
      once.Some? ==>
        (Recovered(env, files, id, once.value) != once <==>
         && item.intent.Some? && ReadsRecord(env, item, id) && item.intent.value.destination !in files
         && Sha(item.payload.value) == item.meta.value.sha && OriginalMatches(env, files, item.meta.value))
  {
    RecoveredShape(env, files, id, item);
    LeftoverStays(env, files, id);
  }

  // ----- What a crash leaves, once recovered

  /** Restore targets are ordinary paths. */
  ghost predicate Coherent(env: Env) {
    forall p :: env.restores(p) ==> env.opens(p)
  }

  /** A restore that crashed anywhere ends, after two passes, with either the restored
      file or the trash item, never both and never neither. */
  lemma {:induction false} RestoreIsAllOrNothing(env: Env, d: Disk, id: TrashId, expected: Digest, destination: Path, k: nat, e: Disk, f: Disk)
    requires Coherent(env) && AcceptsRestore(env, d, id, expected, destination) && id !in d.staging
    requires !OriginalMatches(env, d.files, d.items[id].meta.value)
    requires k < 8 && Passed(env, RestoreStep(d, id, destination, k), e) && Passed(env, e, f)
    ensures (destination in f.files) != (id in f.items) && id !in f.staging
    ensures destination in f.files ==> f.files[destination] == d.items[id].payload.value
    ensures id in f.items ==> f.items[id] == if k == 1 then d.items[id].(temp := true) else d.items[id]
    ensures forall p :: p != destination ==> Lookup(f.files, p) == Lookup(d.files, p)
  {
    var item := d.items[id];
    var c := RestoreStep(d, id, destination, k);
    PartOfRestore(env, d, id, expected, destination, k);
    if k <= 2 {
      RollsBackTwice(env, c, e, f, id, item);
    } else {
      RollsForwardTwice(env, c, e, f, id, item, destination);
    }
  }

  /** What an interrupted restore leaves of its entry. */
  lemma {:induction false} PartOfRestore(env: Env, d: Disk, id: TrashId, expected: Digest, destination: Path, k: nat)
    requires AcceptsRestore(env, d, id, expected, destination) && id !in d.staging && k < 8
    ensures var (item, c) := (d.items[id], RestoreStep(d, id, destination, k));
      && c.files == (if k <= 2 then d.files else d.files[destination := item.payload.value])
      && SlotsOf(c, id).staged.None?
      && (k <= 2 ==> SlotsOf(c, id).item.Some? && BeforeLink(env, c.files, id, item, SlotsOf(c, id).item.value) &&
                     SlotsOf(c, id).item.value.(intent := None) == if k == 1 then item.(temp := true) else item)
      && (k > 2 && SlotsOf(c, id).item.Some? ==> AfterLink(id, item, destination, SlotsOf(c, id).item.value))
  {
  }

  ghost predicate BeforeLink(env: Env, files: map<Path, Content>, id: TrashId, item: Item, entry: Item) {
    || entry == item || entry == item.(temp := true)
    || (entry == item.(intent := entry.intent) && ReadsIntent(env, entry, id) && entry.intent.value.destination !in files)
  }

  ghost predicate AfterLink(id: TrashId, item: Item, destination: Path, entry: Item)
    requires item.meta.Some?
  {
    && !entry.temp && (entry.meta.None? ==> entry.payload.None?)
    && entry.meta in {None, item.meta} && entry.payload in {None, item.payload}
    && (entry.intent == Some(Intent(id, destination, item.meta.value.sha)) || entry == EMPTY_DIRECTORY)
  }

  lemma {:induction false} RollsBackTwice(env: Env, c: Disk, e: Disk, f: Disk, id: TrashId, item: Item)
    requires Passed(env, c, e) && Passed(env, e, f) && SlotsOf(c, id).staged.None? && SlotsOf(c, id).item.Some?
    requires ReadsRecord(env, item, id) && item.intent.None? && Sha(item.payload.value) == item.meta.value.sha
    requires !OriginalMatches(env, c.files, item.meta.value) && BeforeLink(env, c.files, id, item, SlotsOf(c, id).item.value)
    ensures f.files == c.files && SlotsOf(f, id) == Slots(None, Some(SlotsOf(c, id).item.value.(intent := None)))
  {
    var entry := SlotsOf(c, id).item.value;
    RollsBack(env, c.files, id, item, entry);
    RollsBack(env, c.files, id, item, entry.(intent := None));
    assert SlotsOf(e, id) == RecoverSlots(env, c.files, id, SlotsOf(c, id));
    assert SlotsOf(f, id) == RecoverSlots(env, e.files, id, SlotsOf(e, id));
  }

  lemma {:induction false} RollsForwardTwice(env: Env, c: Disk, e: Disk, f: Disk, id: TrashId, item: Item, destination: Path)
    requires Coherent(env) && Passed(env, c, e) && Passed(env, e, f) && SlotsOf(c, id).staged.None?
    requires ReadsRecord(env, item, id) && Sha(item.payload.value) == item.meta.value.sha
    requires env.restores(destination) && destination in c.files && c.files[destination] == item.payload.value
    requires SlotsOf(c, id).item.Some? ==> AfterLink(id, item, destination, SlotsOf(c, id).item.value)
    ensures f.files == c.files && SlotsOf(f, id) == Slots(None, None)
  {
    if SlotsOf(c, id).item.Some? {
      RollsForward(env, c.files, id, item.meta.value, destination, item, SlotsOf(c, id).item.value);
    }
    assert SlotsOf(e, id) == RecoverSlots(env, c.files, id, SlotsOf(c, id));
    assert SlotsOf(f, id) == RecoverSlots(env, e.files, id, SlotsOf(e, id));
  }

  /** Before the link, an entry loses at most its intent. */
  lemma {:induction false} RollsBack(env: Env, files: map<Path, Content>, id: TrashId, item: Item, entry: Item)
    requires ReadsRecord(env, item, id) && item.intent.None? && Sha(item.payload.value) == item.meta.value.sha
    requires !OriginalMatches(env, files, item.meta.value)
    requires BeforeLink(env, files, id, item, entry)
    ensures RecoverSlots(env, files, id, Slots(None, Some(entry))) == Slots(None, Some(entry.(intent := None)))
  {
  }

  /** After the link, whatever is left of the entry goes away. */
  lemma {:induction false} RollsForward(env: Env, files: map<Path, Content>, id: TrashId, meta: Meta, destination: Path, item: Item, entry: Item)
    requires Coherent(env) && ReadsRecord(env, item, id) && item.meta == Some(meta) && Sha(item.payload.value) == meta.sha
    requires env.restores(destination) && destination in files && files[destination] == item.payload.value
    requires AfterLink(id, item, destination, entry)
    ensures RecoverSlots(env, files, id, Slots(None, Some(entry))) == Slots(None, None)
  {
  }

  /** A trash that crashed anywhere ends, after one pass, with the file in place or its
      payload in the bin; the payload is published as a readable record exactly when
      metadata may name the path. */
  lemma {:induction false} TrashIsAllOrNothing(env: Env, d: Disk, path: Path, expected: Digest, id: TrashId, k: nat, e: Disk)
    requires AcceptsTrash(env, d, path, expected, id) && k < 6 && Passed(env, TrashStep(d, path, id, k), e)
    ensures if k <= 3 then e.files == d.files && id !in e.items && (id in e.staging ==> e.staging[id].payload.None?)
            else e.files == d.files - {path} && InSlots(SlotsOf(e, id), d.files[path])
    ensures k >= 4 ==> ((id in e.items && ReadsRecord(env, e.items[id], id)) <==> env.names(path))
    ensures id in e.staging <==> k == 1 || k == 2 || (!env.names(path) && (k == 3 || k == 4))
  {
    var c := TrashStep(d, path, id, k);
    PartOfTrash(d, path, id, k);
    assert SlotsOf(e, id) == RecoverSlots(env, c.files, id, SlotsOf(c, id));
    if k <= 3 {
      UnmovedRecovers(env, c.files, id, SlotsOf(c, id), NewMeta(d, path, id));
    } else {
      MovedRecovers(env, c.files, id, SlotsOf(c, id), Whole(d, path, id));
    }
  }

  /** A trash that completes moves the file, with its path, its digest and its length, and nothing else. */
  lemma {:induction false} CompletedTrash(d: Disk, path: Path, id: TrashId)
    requires path in d.files
    ensures var content := d.files[path];
      TrashStep(d, path, id, 5) ==
      Disk(d.files - {path}, d.staging, d.items[id := Item(Some(Meta(id, path, Sha(content), |content|)), Some(content), None, false)], d.purging)
  {
  }

  function Bit(b: bool): nat {
    if b then 1 else 0
  }

  /** How many things differ: the directory, its metadata, its payload, what says that it is being written or restored. */
  function Changes(a: Option<Item>, b: Option<Item>): nat {
    if a.None? || b.None? then Bit(a != b) + Bit(a.Some? && a.value != EMPTY_DIRECTORY) + Bit(b.Some? && b.value != EMPTY_DIRECTORY)
    else
      Bit(a.value.meta != b.value.meta) + Bit(a.value.payload != b.value.payload) + Bit(a.value.intent != b.value.intent || a.value.temp != b.value.temp)
  }

  /** The steps of a restore, seen from its entry; `linked` says whether the file is in its place. */
  ghost predicate RestoreGoesOn(item: Item, intent: Intent, linked: bool, a: Option<Item>, linkedThen: bool, b: Option<Item>) {
    && Bit(linked != linkedThen) + Changes(a, b) == 1 && (linked ==> linkedThen) && (a.None? ==> b.None?)
    && (!linked && linkedThen ==> a == Some(item.(intent := Some(intent))))
    && (a.Some? && (b.None? || a.value.payload != b.value.payload) ==> linkedThen)
    && (a.Some? && b.Some? && a.value.meta != b.value.meta ==> b.value.meta.None? && b.value.payload.None?)
    && (a.Some? && b.Some? && a.value.intent.Some? && b.value.intent.None? ==> b.value.meta.None?)
  }

  function EntryAfter(d: Disk, id: TrashId, destination: Path, k: nat): Option<Item>
    requires id in d.items && d.items[id].payload.Some? && d.items[id].meta.Some? && k < 8
  {
    Lookup(RestoreStep(d, id, destination, k).items, id)
  }

  /** Every step of a restore is one change. The intent comes first; the payload goes only when the file is in its place,
      the metadata behind the payload, the intent behind the metadata, and the empty directory last; nothing comes back. */
  lemma {:induction false} RestoreOrder(env: Env, d: Disk, id: TrashId, expected: Digest, destination: Path, k: nat)
    requires AcceptsRestore(env, d, id, expected, destination) && k < 7
    ensures RestoreGoesOn(d.items[id], Intent(id, destination, expected), destination in RestoreStep(d, id, destination, k).files,
                          EntryAfter(d, id, destination, k), destination in RestoreStep(d, id, destination, k + 1).files,
                          EntryAfter(d, id, destination, k + 1))
  {
    match k
    case 0 =>
    case 1 =>
    case 2 =>
    case 3 =>
    case 4 =>
    case 5 =>
    case _ =>
  }

  /** And it touches nothing but its entry and the file at its destination, which is the payload. */
  lemma {:induction false} RestoreTouches(env: Env, d: Disk, id: TrashId, expected: Digest, destination: Path, k: nat)
    requires AcceptsRestore(env, d, id, expected, destination) && k < 8
    ensures var e := RestoreStep(d, id, destination, k);
      && (e.files == d.files || e.files == d.files[destination := expected.of]) && e.staging == d.staging && e.purging == d.purging
      && forall j :: j != id ==> Lookup(e.items, j) == Lookup(d.items, j)
  {
  }

  function StagedAfter(d: Disk, path: Path, id: TrashId, k: nat): Option<Item>
    requires path in d.files && k < 6
  {
    Lookup(TrashStep(d, path, id, k).staging, id)
  }

  /** The steps of a trash, seen from its staging entry. */
  ghost predicate TrashGoesOn(meta: Meta, content: Content, there: bool, a: Option<Item>, thereThen: bool, b: Option<Item>) {
    && (a.None? ==> b == Some(EMPTY_DIRECTORY)) && (a == Some(EMPTY_DIRECTORY) ==> b == Some(EMPTY_DIRECTORY.(temp := true)))
    && (a.Some? && a.value.temp ==> b == Some(EMPTY_DIRECTORY.(meta := Some(meta))))
    && (there && !thereThen <==> a.Some? && b.Some? && a.value.payload != b.value.payload)
    && (there && !thereThen ==> a.value == EMPTY_DIRECTORY.(meta := Some(meta)) && b.value == a.value.(payload := Some(content)))
    && (!there ==> !thereThen && b.None?)
  }

  /** A trash writes the metadata first, moves the file into the described directory, and only then publishes it. */
  lemma {:induction false} TrashOrder(env: Env, d: Disk, path: Path, expected: Digest, id: TrashId, k: nat)
    requires AcceptsTrash(env, d, path, expected, id) && k < 5
    ensures TrashGoesOn(Meta(id, path, expected, |expected.of|), expected.of, path in TrashStep(d, path, id, k).files,
                        StagedAfter(d, path, id, k), path in TrashStep(d, path, id, k + 1).files, StagedAfter(d, path, id, k + 1))
    ensures id in TrashStep(d, path, id, k + 1).items <==> k == 4
  {
    match k
    case 0 =>
    case 1 =>
    case 2 =>
    case 3 =>
    case _ =>
  }

  /** A restore that completes moves the payload to its destination, and nothing else. */
  lemma {:induction false} CompletedRestore(env: Env, d: Disk, id: TrashId, expected: Digest, destination: Path)
    requires AcceptsRestore(env, d, id, expected, destination)
    ensures RestoreStep(d, id, destination, 7) == Disk(d.files[destination := expected.of], d.staging, d.items - {id}, d.purging)
  {
  }

  /** A file with its entry, taken out and put back. */
  lemma {:induction false} TakenAndBack<K, V, L, W>(files: map<K, V>, path: K, items: map<L, W>, id: L, item: W)
    requires path in files && id !in items
    ensures (files - {path})[path := files[path]] == files && items[id := item] - {id} == items
  {
  }

  function Trashed(path: Path, id: TrashId, sha: Digest): Item {
    Item(Some(Meta(id, path, sha, |sha.of|)), Some(sha.of), None, false)
  }

  lemma {:induction false} TrashedIsReadable(env: Env, path: Path, id: TrashId, sha: Digest)
    requires env.names(path) && |sha.of| <= env.maxFile
    ensures ReadsRecord(env, Trashed(path, id, sha), id)
  {
  }

  /** What was trashed can be restored, and then everything is as it was. */
  lemma {:induction false} TrashThenRestore(env: Env, d: Disk, path: Path, expected: Digest, id: TrashId)
    requires AcceptsTrash(env, d, path, expected, id) && env.names(path) && env.restores(path)
    ensures AcceptsRestore(env, TrashStep(d, path, id, 5), id, expected, path)
    ensures RestoreStep(TrashStep(d, path, id, 5), id, path, 7) == d
  {
    CompletedTrash(d, path, id);
    TrashedIsReadable(env, path, id, expected);
    TrashedIsAccepted(env, Disk(d.files - {path}, d.staging, d.items[id := Trashed(path, id, expected)], d.purging), path, expected, id);
    CompletedRestore(env, TrashStep(d, path, id, 5), id, expected, path);
    TakenAndBack(d.files, path, d.items, id, Trashed(path, id, expected));
  }

  lemma {:induction false} TrashedIsAccepted(env: Env, e: Disk, path: Path, expected: Digest, id: TrashId)
    requires id in e.items && e.items[id] == Trashed(path, id, expected) && ReadsRecord(env, e.items[id], id)
    ensures env.restores(path) && path !in e.files ==> AcceptsRestore(env, e, id, expected, path)
    ensures id !in e.purging ==> AcceptsPurge(env, e, id, expected)
  {
  }

  /** Or purged, and then only the file is gone, once the directory in purging is cleaned up. */
  lemma {:induction false} TrashThenPurge(env: Env, d: Disk, path: Path, expected: Digest, id: TrashId)
    requires AcceptsTrash(env, d, path, expected, id) && env.names(path) && id !in d.purging
    ensures AcceptsPurge(env, TrashStep(d, path, id, 5), id, expected)
    ensures var e := PurgeCommit(TrashStep(d, path, id, 5), id);
      e.files == d.files - {path} && e.staging == d.staging && e.items == d.items && e.purging - {id} == d.purging
  {
    CompletedTrash(d, path, id);
    TrashedIsReadable(env, path, id, expected);
    TrashedIsAccepted(env, Disk(d.files - {path}, d.staging, d.items[id := Trashed(path, id, expected)], d.purging), path, expected, id);
    TakenAndBack(d.files, path, d.items, id, Trashed(path, id, expected));
    TakenAndBack(d.files, path, d.purging, id, Trashed(path, id, expected));
  }

  function Whole(d: Disk, path: Path, id: TrashId): Item
    requires path in d.files
  {
    Item(Some(NewMeta(d, path, id)), Some(d.files[path]), None, false)
  }

  function WholeAfter(d: Disk, path: Path, id: TrashId, k: nat): Slots
    requires path in d.files
  {
    match k
    case 0 => Slots(None, None)
    case 1 => Slots(Some(EMPTY_DIRECTORY), None)
    case 2 => Slots(Some(LEFTOVER), None)
    case 3 => Slots(Some(Whole(d, path, id).(payload := None)), None)
    case 4 => Slots(Some(Whole(d, path, id)), None)
    case _ => Slots(None, Some(Whole(d, path, id)))
  }

  /** What an interrupted trash leaves of its entry. */
  lemma {:induction false} PartOfTrash(d: Disk, path: Path, id: TrashId, k: nat)
    requires path in d.files && id !in d.items && id !in d.staging && k < 6
    ensures TrashStep(d, path, id, k).files == (if k <= 3 then d.files else d.files - {path})
    ensures SlotsOf(TrashStep(d, path, id, k), id) == WholeAfter(d, path, id, k)
  {
  }

  lemma {:induction false} OthersKept(d: Disk, path: Path, id: TrashId, k: nat, j: TrashId)
    requires path in d.files && k < 6 && j != id
    ensures SlotsOf(TrashStep(d, path, id, k), j) == SlotsOf(d, j)
  {
  }

  lemma {:induction false} UnmovedRecovers(env: Env, files: map<Path, Content>, id: TrashId, s: Slots, meta: Meta)
    requires s.item.None? && meta.id == id && meta.size <= env.maxFile && OriginalMatches(env, files, meta)
    requires s.staged in {None, Some(EMPTY_DIRECTORY), Some(LEFTOVER), Some(Item(Some(meta), None, None, false))}
    ensures var t := RecoverSlots(env, files, id, s);
      && t.item.None? && (t.staged.Some? ==> t.staged.value.payload.None?)
      && (t.staged.Some? <==> s.staged.Some? && (s.staged.value.meta.None? || !env.names(meta.original)))
  {
  }

  lemma {:induction false} MovedRecovers(env: Env, files: map<Path, Content>, id: TrashId, s: Slots, full: Item)
    requires s == Slots(Some(full), None) || s == Slots(None, Some(full))
    requires full.meta.Some? && full.payload.Some? && full.intent.None? && !full.temp
    requires full.meta.value.id == id && full.meta.value.size == |full.payload.value| <= env.maxFile
    requires full.meta.value.original !in files
    ensures var t := RecoverSlots(env, files, id, s);
      if env.names(full.meta.value.original) then t == Slots(None, Some(full)) else t == s
  {
  }
}
