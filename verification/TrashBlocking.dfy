/** Which crashes leave an entry that recovery keeps and reports for ever, so that `trash_file` is refused
    from then on, and why everything else mends itself in one pass. */
module TrashBlocking {
  import opened Trash
  import opened TrashSafety
  import opened Wrappers

  // ----- Entries that block the bin

  /** Recovery keeps the staging entry and reports it, whatever the workspace and the items hold. */
  ghost predicate StuckStaged(env: Env, id: TrashId, x: Item) {
    forall files, i: Option<Item> :: StagingRecovery(env, files, id, Slots(Some(x), i)) == Keep(Slots(Some(x), i), true)
  }

  /** Recovery keeps the item and reports it, whatever the workspace holds. */
  ghost predicate StuckItem(env: Env, id: TrashId, x: Item) {
    forall files :: FormalRecovery(env, files, id, x) == Keep(Some(x), true)
  }

  ghost predicate Stuck(env: Env, id: TrashId, s: Slots) {
    (s.staged.Some? && StuckStaged(env, id, s.staged.value)) || (s.item.Some? && StuckItem(env, id, s.item.value))
  }

  ghost predicate Blocked(env: Env, d: Disk) {
    exists id :: Stuck(env, id, SlotsOf(d, id))
  }

  /** Some file of this digest could be read at this path. */
  predicate Findable(env: Env, p: Path, sha: Digest) {
    env.opens(p) && |sha.of| <= env.maxFile
  }

  predicate OriginalFindable(env: Env, m: Meta) {
    Findable(env, m.original, m.sha) && |m.sha.of| == m.size
  }

  /** What makes a staging entry stuck: no metadata, metadata that cannot be read, a record that cannot be
      read, or an original that could never be found. */
  predicate HopelessStaged(env: Env, id: TrashId, x: Item) {
    || !ReadsMeta(env, x, id)
    || (if x.payload.Some? then !ReadsRecord(env, x, id) else !OriginalFindable(env, x.meta.value))
  }

  lemma {:induction false} StuckStagedIs(env: Env, id: TrashId, x: Item)
    ensures StuckStaged(env, id, x) <==> HopelessStaged(env, id, x)
  {
    if HopelessStaged(env, id, x) {
      forall files, i: Option<Item> ensures StagingRecovery(env, files, id, Slots(Some(x), i)) == Keep(Slots(Some(x), i), true) {
      }
    } else {
      var files := map[x.meta.value.original := x.meta.value.sha.of];
      assert OriginalFindable(env, x.meta.value) ==> OriginalMatches(env, files, x.meta.value);
      assert |StagingRecovery(env, files, id, Slots(Some(x), None)).states| > 1;
    }
  }

  /** The same for an item: what its recovery waits for cannot come. */
  predicate HopelessItem(env: Env, id: TrashId, x: Item) {
    if x.meta.None? then
      if x.payload.Some? then true
      else if x.intent.Some? then !(env.restores(x.intent.value.destination) && Findable(env, x.intent.value.destination, x.intent.value.sha))
      else x.temp
    else if !ReadsMeta(env, x, id) then true
    else if x.intent.Some? then
      || !ReadsIntent(env, x, id)
      || (if x.payload.Some? then !ReadsRecord(env, x, id) || Sha(x.payload.value) != x.meta.value.sha
          else !(Findable(env, x.intent.value.destination, x.meta.value.sha) && |x.meta.value.sha.of| == x.meta.value.size))
    else if x.payload.None? then !OriginalFindable(env, x.meta.value)
    else !ReadsRecord(env, x, id)
  }

  lemma {:induction false} HopelessIsStuck(env: Env, id: TrashId, x: Item)
    requires HopelessItem(env, id, x)
    ensures StuckItem(env, id, x)
  {
    forall files ensures FormalRecovery(env, files, id, x) == Keep(Some(x), true) {
    }
  }

  /** The workspace that gives an item a chance. */
  function Chance(x: Item): map<Path, Content> {
    if x.meta.Some? && x.intent.None? then (if x.payload.Some? then map[] else map[x.meta.value.original := x.meta.value.sha.of])
    else if x.intent.Some? && x.payload.None? then map[x.intent.value.destination := x.intent.value.sha.of]
    else map[]
  }

  lemma {:induction false} HopefulIsNotStuck(env: Env, id: TrashId, x: Item)
    requires !HopelessItem(env, id, x)
    ensures !StuckItem(env, id, x)
  {
    var p := FormalRecovery(env, Chance(x), id, x);
    assert |p.states| > 1 || !p.reported;
  }

  lemma {:induction false} StuckItemIs(env: Env, id: TrashId, x: Item)
    ensures StuckItem(env, id, x) <==> HopelessItem(env, id, x)
  {
    if HopelessItem(env, id, x) {
      HopelessIsStuck(env, id, x);
    } else {
      HopefulIsNotStuck(env, id, x);
    }
  }

  lemma {:induction false} StuckStays(env: Env, files: map<Path, Content>, id: TrashId, s: Slots, t: Slots)
    requires Stuck(env, id, s) && Partway(env, files, id, s, t)
    ensures Stuck(env, id, t) && ReportsSlots(env, files, id, s)
  {
    if s.staged.Some? && StuckStaged(env, id, s.staged.value) {
      assert StagingRecovery(env, files, id, s) == Keep(s, true);
      assert t.staged == s.staged;
    } else {
      assert FormalRecovery(env, files, id, s.item.value) == Keep(Some(s.item.value), true);
      assert StagingRecovery(env, files, id, s).Last().item == s.item;
      assert t.item == s.item;
    }
  }

  // ----- Blocked for ever

  lemma {:induction false} InterruptedBlocked(env: Env, d: Disk, e: Disk) returns (id: TrashId)
    requires Blocked(env, d) && Interrupted(env, d, e)
    ensures Stuck(env, id, SlotsOf(e, id))
  {
    id :| Stuck(env, id, SlotsOf(d, id));
    StuckStays(env, d.files, id, SlotsOf(d, id), SlotsOf(e, id));
  }

  lemma {:induction false} NoCleanPass(env: Env, d: Disk)
    requires Blocked(env, d)
    ensures forall x :: !CleanPass(env, d, x)
  {
    var j :| Stuck(env, j, SlotsOf(d, j));
    assert SlotsOf(d, j) in StagingRecovery(env, d.files, j, SlotsOf(d, j)).states;
    StuckStays(env, d.files, j, SlotsOf(d, j), SlotsOf(d, j));
  }

  lemma {:induction false} ReadableIsNotStuck(env: Env, id: TrashId, x: Item)
    requires ReadsRecord(env, x, id) && x.intent.None?
    ensures !StuckItem(env, id, x)
  {
    StuckItemIs(env, id, x);
  }

  lemma {:induction false} RestoreStaysStuck(env: Env, d: Disk, id: TrashId, expected: Digest, destination: Path, k: nat, j: TrashId)
    requires AcceptsRestore(env, d, id, expected, destination) && k < 8 && Stuck(env, j, SlotsOf(d, j))
    ensures Stuck(env, j, SlotsOf(RestoreStep(d, id, destination, k), j))
  {
    var e := RestoreStep(d, id, destination, k);
    assert e.staging == d.staging;
    if j != id {
      assert Lookup(e.items, j) == Lookup(d.items, j);
    } else {
      ReadableIsNotStuck(env, id, d.items[id]);
    }
  }

  lemma {:induction false} PurgeStaysStuck(env: Env, x: Disk, id: TrashId, expected: Digest, e: Disk, j: TrashId)
    requires AcceptsPurge(env, x, id, expected) && Stuck(env, j, SlotsOf(x, j))
    requires e.staging == x.staging && (e.items == x.items || e.items == x.items - {id})
    ensures Stuck(env, j, SlotsOf(e, j))
  {
    if j != id {
      assert Lookup(e.items, j) == Lookup(x.items, j);
    } else {
      ReadableIsNotStuck(env, id, x.items[id]);
    }
  }

  lemma {:induction false} PurgeBlocked(env: Env, d: Disk, id: TrashId, e: Disk)
    requires Blocked(env, d) && Purges(env, d, id, e)
    ensures Blocked(env, e)
  {
    var x, expected :| PurgeMove(env, d, x, id, expected, e);
    var j := InterruptedBlocked(env, d, x);
    PurgeStaysStuck(env, x, id, expected, e, j);
  }

  /** A blocked bin stays blocked through every call, and `trash_file` refuses in it. */
  lemma {:induction false} BlockedForever(env: Env, d: Disk, e: Disk)
    requires Blocked(env, d) && Calls(env, d, e)
    ensures Blocked(env, e)
    ensures !exists x, path, expected, id, k :: TrashMove(env, d, x, path, expected, id, k, e)
  {
    NoCleanPass(env, d);
    if Interrupted(env, d, e) {
      var j := InterruptedBlocked(env, d, e);
    } else if exists x, id, expected, destination, k :: RestoreMove(env, d, x, id, expected, destination, k, e) {
      var x, id, expected, destination, k :| RestoreMove(env, d, x, id, expected, destination, k, e);
      var j := InterruptedBlocked(env, d, x);
      RestoreStaysStuck(env, x, id, expected, destination, k, j);
    } else {
      var id :| Purges(env, d, id, e);
      PurgeBlocked(env, d, id, e);
    }
  }

  // ----- Entries that one pass mends

  /** A record that recovery has nothing to do about. */
  predicate Sound(env: Env, id: TrashId, x: Item) {
    ReadsRecord(env, x, id) && x.intent.None? && Sha(x.payload.value) == x.meta.value.sha
  }

  predicate TidySlots(env: Env, id: TrashId, s: Slots) {
    s.staged.None? && (s.item.Some? ==> Sound(env, id, s.item.value))
  }

  ghost predicate AllTidy(env: Env, d: Disk) {
    forall id :: TidySlots(env, id, SlotsOf(d, id))
  }

  /** The restored file is where the intent says. */
  predicate Landed(env: Env, files: map<Path, Content>, x: Item)
    requires x.meta.Some? && x.intent.Some?
  {
    var p := x.intent.value.destination;
    FileMatches(env, files, p, x.meta.value.sha) && |files[p]| == x.meta.value.size
  }

  /** What an interrupted trash leaves in staging. */
  predicate MendableStaged(env: Env, files: map<Path, Content>, id: TrashId, x: Item) {
    || Sound(env, id, x)
    || (x == Item(x.meta, None, None, false) && ReadsMeta(env, x, id) && OriginalMatches(env, files, x.meta.value))
  }

  /** What an interrupted restore or recovery leaves of an item. */
  predicate MendableItem(env: Env, files: map<Path, Content>, id: TrashId, x: Item) {
    || Sound(env, id, x)
    || (!x.temp && (x.payload.Some? ==> x.meta.Some?) &&
        if x.payload.Some? then
          && x.intent.Some? && Sound(env, id, x.(intent := None)) && ReadsIntent(env, x, id)
          && (x.intent.value.destination !in files || Landed(env, files, x))
        else if x.meta.Some? then
          && ReadsMeta(env, x, id)
          && (if x.intent.Some? then ReadsIntent(env, x, id) && Landed(env, files, x) else OriginalMatches(env, files, x.meta.value))
        else
          x.intent.Some? ==>
            env.restores(x.intent.value.destination) && FileMatches(env, files, x.intent.value.destination, x.intent.value.sha))
  }

  predicate Mendable(env: Env, files: map<Path, Content>, id: TrashId, s: Slots) {
    && (s.staged.None? || s.item.None?)
    && (s.staged.Some? ==> MendableStaged(env, files, id, s.staged.value))
    && (s.item.Some? ==> MendableItem(env, files, id, s.item.value))
  }

  ghost predicate AllMendable(env: Env, d: Disk) {
    forall id :: Mendable(env, d.files, id, SlotsOf(d, id))
  }

  /** What an interrupted pass must not leave: a staging directory that has just lost its metadata. */
  const UNPACKED := Slots(Some(EMPTY_DIRECTORY), None)

  /** One pass over an item that can be mended removes it or makes it sound, through items that can be mended. */
  lemma {:induction false} ItemMends(env: Env, files: map<Path, Content>, id: TrashId, x: Item)
    requires MendableItem(env, files, id, x)
    ensures var p := FormalRecovery(env, files, id, x);
      && (p.Last().Some? ==> Sound(env, id, p.Last().value))
      && forall y :: y in p.states ==> y.Some? ==> MendableItem(env, files, id, y.value)
  {
  }

  lemma {:induction false} SoundIsQuiet(env: Env, files: map<Path, Content>, id: TrashId, x: Item)
    requires Sound(env, id, x)
    ensures !FormalRecovery(env, files, id, x).reported
  {
  }

  lemma {:induction false} SlotsMend(env: Env, files: map<Path, Content>, id: TrashId, s: Slots)
    requires Mendable(env, files, id, s)
    ensures TidySlots(env, id, RecoverSlots(env, files, id, s))
  {
    if s.item.Some? {
      assert s == Slots(None, Some(s.item.value));
      ItemMends(env, files, id, s.item.value);
      ItemRecovers(env, files, id, s.item.value);
    } else if s.staged.Some? && Sound(env, id, s.staged.value) {
      ItemMends(env, files, id, s.staged.value);
      StagedRecovers(env, files, id, s.staged.value);
    }
  }

  lemma {:induction false} ItemRecovers(env: Env, files: map<Path, Content>, id: TrashId, x: Item)
    ensures RecoverSlots(env, files, id, Slots(None, Some(x))) == Slots(None, FormalRecovery(env, files, id, x).Last())
  {
  }

  lemma {:induction false} StagedRecovers(env: Env, files: map<Path, Content>, id: TrashId, x: Item)
    requires Sound(env, id, x)
    ensures RecoverSlots(env, files, id, Slots(Some(x), None)) == Slots(None, FormalRecovery(env, files, id, x).Last())
  {
    assert StagingRecovery(env, files, id, Slots(Some(x), None)).Last() == Slots(None, Some(x));
  }

  lemma {:induction false} PartwayMends(env: Env, files: map<Path, Content>, id: TrashId, s: Slots, t: Slots)
    requires Mendable(env, files, id, s) && Partway(env, files, id, s, t)
    ensures Mendable(env, files, id, t) || t == UNPACKED
  {
    if s.item.Some? {
      ItemMends(env, files, id, s.item.value);
      assert StagingRecovery(env, files, id, s).Last() == s;
      ItemPartway(env, files, id, s, s.item.value, t);
    } else if s.staged.Some? && Sound(env, id, s.staged.value) {
      ItemMends(env, files, id, s.staged.value);
      var u := Slots(None, s.staged);
      assert StagingRecovery(env, files, id, s).states == [s, u];
      if t in FormalSlots(env, files, id, u).states {
        ItemPartway(env, files, id, u, s.staged.value, t);
      }
    }
  }

  lemma {:induction false} ItemPartway(env: Env, files: map<Path, Content>, id: TrashId, s: Slots, x: Item, t: Slots)
    requires s == Slots(None, Some(x)) && MendableItem(env, files, id, x)
    requires t in StagingRecovery(env, files, id, s).states || t in FormalSlots(env, files, id, s).states
    ensures Mendable(env, files, id, t)
  {
    ItemMends(env, files, id, x);
    var p := FormalRecovery(env, files, id, x);
    if t in FormalSlots(env, files, id, s).states {
      var k :| 0 <= k < |FormalSlots(env, files, id, s).states| && FormalSlots(env, files, id, s).states[k] == t;
      assert t == s.(item := p.states[k]);
      assert p.states[k] in p.states;
    }
  }

  /** What can be mended is not stuck. */
  lemma {:induction false} MendableIsNotStuck(env: Env, files: map<Path, Content>, id: TrashId, s: Slots)
    requires Mendable(env, files, id, s)
    ensures !Stuck(env, id, s)
  {
    if s.staged.Some? {
      StuckStagedIs(env, id, s.staged.value);
    }
    if s.item.Some? {
      StuckItemIs(env, id, s.item.value);
    }
  }

  // ----- Step by step

  lemma {:induction false} TidyMends(env: Env, files: map<Path, Content>, id: TrashId, s: Slots)
    requires TidySlots(env, id, s)
    ensures Mendable(env, files, id, s)
  {
  }

  /** Interrupted trashes that leave a stuck entry: around the first metadata write, or with an unnameable path. */
  predicate BadTrash(env: Env, path: Path, k: nat) {
    k == 1 || k == 2 || (k >= 3 && !env.names(path))
  }

  lemma {:induction false} TrashedEntry(env: Env, d: Disk, path: Path, expected: Digest, id: TrashId, k: nat)
    requires AcceptsTrash(env, d, path, expected, id) && k < 6
    ensures var e := TrashStep(d, path, id, k);
      if BadTrash(env, path, k) then Stuck(env, id, SlotsOf(e, id)) else Mendable(env, e.files, id, SlotsOf(e, id))
  {
    var e := TrashStep(d, path, id, k);
    PartOfTrash(d, path, id, k);
    if k == 5 {
      StuckItemIs(env, id, Whole(d, path, id));
    } else if k > 0 {
      StuckStagedIs(env, id, SlotsOf(e, id).staged.value);
    }
  }

  /** A trash from a tidy bin that crashed after any step leaves a stuck entry exactly in the bad cases;
      in all others every entry mends. */
  lemma {:induction false} HowBlockingHappens(env: Env, d: Disk, path: Path, expected: Digest, id: TrashId, k: nat)
    requires AllTidy(env, d) && AcceptsTrash(env, d, path, expected, id) && k < 6
    ensures Blocked(env, TrashStep(d, path, id, k)) <==> BadTrash(env, path, k)
    ensures !BadTrash(env, path, k) ==> AllMendable(env, TrashStep(d, path, id, k))
  {
    var e := TrashStep(d, path, id, k);
    TrashedEntry(env, d, path, expected, id, k);
    forall j | j != id ensures Mendable(env, e.files, j, SlotsOf(e, j)) {
      OthersKept(d, path, id, k, j);
      TidyMends(env, e.files, j, SlotsOf(d, j));
    }
    OneDecides(env, e, id);
    if Mendable(env, e.files, id, SlotsOf(e, id)) {
      MendableIsNotStuck(env, e.files, id, SlotsOf(e, id));
    }
  }

  /** Whether a disk is blocked is decided by the one entry that may not mend. */
  lemma {:induction false} OneDecides(env: Env, e: Disk, id: TrashId)
    requires forall j :: j != id ==> Mendable(env, e.files, j, SlotsOf(e, j))
    ensures Blocked(env, e) <==> Stuck(env, id, SlotsOf(e, id))
  {
    forall j | j != id ensures !Stuck(env, j, SlotsOf(e, j)) {
      MendableIsNotStuck(env, e.files, j, SlotsOf(e, j));
    }
  }

  /** The only bad crash of a restore is the one in the write of its intent. */
  lemma {:induction false} RestoredEntry(env: Env, d: Disk, id: TrashId, expected: Digest, destination: Path, k: nat)
    requires AcceptsRestore(env, d, id, expected, destination) && TidySlots(env, id, SlotsOf(d, id)) && env.opens(destination) && k < 8
    ensures var e := RestoreStep(d, id, destination, k);
      if k == 1 then Stuck(env, id, SlotsOf(e, id)) else Mendable(env, e.files, id, SlotsOf(e, id))
  {
    var e := RestoreStep(d, id, destination, k);
    if k == 1 {
      StuckItemIs(env, id, d.items[id].(temp := true));
    }
  }

  lemma {:induction false} HowRestoreBlocks(env: Env, d: Disk, id: TrashId, expected: Digest, destination: Path, k: nat)
    requires AllTidy(env, d) && AcceptsRestore(env, d, id, expected, destination) && env.opens(destination) && k < 8
    ensures Blocked(env, RestoreStep(d, id, destination, k)) <==> k == 1
    ensures k != 1 ==> AllMendable(env, RestoreStep(d, id, destination, k))
  {
    var e := RestoreStep(d, id, destination, k);
    assert TidySlots(env, id, SlotsOf(d, id));
    RestoredEntry(env, d, id, expected, destination, k);
    forall j | j != id ensures Mendable(env, e.files, j, SlotsOf(e, j)) {
      assert SlotsOf(e, j) == SlotsOf(d, j);
      TidyMends(env, e.files, j, SlotsOf(d, j));
    }
    OneDecides(env, e, id);
    if Mendable(env, e.files, id, SlotsOf(e, id)) {
      MendableIsNotStuck(env, e.files, id, SlotsOf(e, id));
    }
  }

  /** A purge never blocks. */
  lemma {:induction false} PurgeStaysTidy(env: Env, d: Disk, x: Disk, id: TrashId, expected: Digest, e: Disk)
    requires AllTidy(env, x) && PurgeMove(env, d, x, id, expected, e)
    ensures AllTidy(env, e)
  {
    forall j ensures TidySlots(env, j, SlotsOf(e, j)) {
      assert TidySlots(env, j, SlotsOf(x, j));
      assert SlotsOf(e, j) == SlotsOf(x, j) || SlotsOf(e, j) == Slots(None, None);
    }
  }

  lemma {:induction false} TidyIsMendable(env: Env, d: Disk)
    requires AllTidy(env, d)
    ensures AllMendable(env, d)
  {
    forall id ensures Mendable(env, d.files, id, SlotsOf(d, id)) {
      TidyMends(env, d.files, id, SlotsOf(d, id));
    }
  }

  lemma {:induction false} MendableIsNotBlocked(env: Env, d: Disk)
    requires AllMendable(env, d)
    ensures !Blocked(env, d)
  {
    forall id ensures !Stuck(env, id, SlotsOf(d, id)) {
      MendableIsNotStuck(env, d.files, id, SlotsOf(d, id));
    }
  }

  /** A full pass over entries that mend leaves a tidy bin. */
  lemma {:induction false} PassTidies(env: Env, d: Disk, e: Disk)
    requires AllMendable(env, d) && Passed(env, d, e)
    ensures AllTidy(env, e)
  {
    forall id ensures TidySlots(env, id, SlotsOf(e, id)) {
      SlotsMend(env, d.files, id, SlotsOf(d, id));
    }
  }

  /** And a full pass over a tidy bin reports nothing. */
  lemma {:induction false} TidyPassIsClean(env: Env, d: Disk, e: Disk)
    requires AllTidy(env, d) && Passed(env, d, e) && forall j :: Cleaned(Lookup(d.purging, j), Lookup(e.purging, j))
    ensures CleanPass(env, d, e)
  {
    forall id ensures !ReportsSlots(env, d.files, id, SlotsOf(d, id)) {
      if SlotsOf(d, id).item.Some? {
        SoundIsQuiet(env, d.files, id, SlotsOf(d, id).item.value);
      }
    }
  }

  /** Where every entry mends, the second full pass is clean, so that `trash_file` goes through again. */
  lemma {:induction false} MendedBinIsClean(env: Env, d: Disk, e: Disk, f: Disk)
    requires AllMendable(env, d) && Passed(env, d, e) && Passed(env, e, f)
    requires forall j :: Cleaned(Lookup(e.purging, j), Lookup(f.purging, j))
    ensures CleanPass(env, e, f) && AllTidy(env, f)
  {
    PassTidies(env, d, e);
    TidyPassIsClean(env, e, f);
    TidyIsMendable(env, e);
    PassTidies(env, e, f);
  }

  // ----- Run by run

  /** A recovery crashed between unlinking the metadata of an incomplete staging entry and removing its directory. */
  ghost predicate Unpacks(env: Env, d: Disk, e: Disk) {
    Interrupted(env, d, e) && exists id :: SlotsOf(e, id) == UNPACKED && SlotsOf(d, id) != UNPACKED
  }

  ghost predicate BadTrashMove(env: Env, d: Disk, x: Disk, path: Path, expected: Digest, id: TrashId, k: nat, e: Disk) {
    TrashMove(env, d, x, path, expected, id, k, e) && BadTrash(env, path, k)
  }

  /** The steps after which the bin is blocked. */
  ghost predicate Blocks(env: Env, d: Disk, e: Disk) {
    || Unpacks(env, d, e)
    || (exists x, path, expected, id, k :: BadTrashMove(env, d, x, path, expected, id, k, e))
    || (exists x, id, expected, destination :: FullRestore(env, d, x, id, expected, destination, 1, e))
  }

  lemma {:induction false} RecoveryBlocks(env: Env, d: Disk, e: Disk)
    requires AllMendable(env, d) && Interrupted(env, d, e)
    ensures if Unpacks(env, d, e) then Blocked(env, e) else AllMendable(env, e)
  {
    if Unpacks(env, d, e) {
      var id :| SlotsOf(e, id) == UNPACKED && SlotsOf(d, id) != UNPACKED;
      StuckStagedIs(env, id, EMPTY_DIRECTORY);
      assert Stuck(env, id, SlotsOf(e, id));
    } else {
      forall id ensures Mendable(env, e.files, id, SlotsOf(e, id)) {
        PartwayMends(env, d.files, id, SlotsOf(d, id), SlotsOf(e, id));
        assert SlotsOf(d, id) != UNPACKED;
      }
    }
  }

  lemma {:induction false} TrashMoveBlocks(env: Env, d: Disk, x: Disk, path: Path, expected: Digest, id: TrashId, k: nat, e: Disk)
    requires AllMendable(env, d) && TrashMove(env, d, x, path, expected, id, k, e)
    ensures if BadTrash(env, path, k) then Blocked(env, e) else AllMendable(env, e)
  {
    PassTidies(env, d, x);
    HowBlockingHappens(env, x, path, expected, id, k);
  }

  lemma {:induction false} RestoreMoveBlocks(env: Env, d: Disk, x: Disk, id: TrashId, expected: Digest, destination: Path, k: nat, e: Disk)
    requires Coherent(env) && AllMendable(env, d) && FullRestore(env, d, x, id, expected, destination, k, e)
    ensures if k == 1 then Blocked(env, e) else AllMendable(env, e)
  {
    PassTidies(env, d, x);
    HowRestoreBlocks(env, x, id, expected, destination, k);
  }

  /** From a bin whose entries mend, a call either blocks it or leaves entries that mend. */
  lemma {:induction false} CallBlocks(env: Env, d: Disk, e: Disk)
    requires Coherent(env) && AllMendable(env, d) && CallsFully(env, d, e)
    ensures Blocks(env, d, e) ==> Blocked(env, e)
    ensures !Blocks(env, d, e) ==> AllMendable(env, e)
  {
    if Unpacks(env, d, e) {
      RecoveryBlocks(env, d, e);
    } else if exists x, path, expected, id, k :: BadTrashMove(env, d, x, path, expected, id, k, e) {
      var x, path, expected, id, k :| BadTrashMove(env, d, x, path, expected, id, k, e);
      TrashMoveBlocks(env, d, x, path, expected, id, k, e);
    } else if exists x, id, expected, destination :: FullRestore(env, d, x, id, expected, destination, 1, e) {
      var x, id, expected, destination :| FullRestore(env, d, x, id, expected, destination, 1, e);
      RestoreMoveBlocks(env, d, x, id, expected, destination, 1, e);
    } else {
      GoodCallMends(env, d, e);
    }
  }

  lemma {:induction false} GoodCallMends(env: Env, d: Disk, e: Disk)
    requires Coherent(env) && AllMendable(env, d) && CallsFully(env, d, e) && !Blocks(env, d, e)
    ensures AllMendable(env, e)
  {
    if Interrupted(env, d, e) {
      RecoveryBlocks(env, d, e);
    } else if exists x, path, expected, id, k :: TrashMove(env, d, x, path, expected, id, k, e) {
      var x, path, expected, id, k :| TrashMove(env, d, x, path, expected, id, k, e);
      assert !BadTrashMove(env, d, x, path, expected, id, k, e);
      TrashMoveBlocks(env, d, x, path, expected, id, k, e);
    } else if exists x, id, expected, destination, k :: FullRestore(env, d, x, id, expected, destination, k, e) {
      var x, id, expected, destination, k :| FullRestore(env, d, x, id, expected, destination, k, e);
      RestoreMoveBlocks(env, d, x, id, expected, destination, k, e);
    } else {
      var x, id, expected :| FullPurge(env, d, x, id, expected, e);
      PassTidies(env, d, x);
      PurgeStaysTidy(env, d, x, id, expected, e);
      TidyIsMendable(env, e);
    }
  }

  lemma {:induction false} FullCallIsCall(env: Env, d: Disk, e: Disk)
    requires CallsFully(env, d, e)
    ensures Calls(env, d, e)
  {
    if x, id, expected, destination, k :| FullRestore(env, d, x, id, expected, destination, k, e) {
      assert RestoreMove(env, d, x, id, expected, destination, k, e);
    }
    if x, id, expected :| FullPurge(env, d, x, id, expected, e) {
      assert PurgeMove(env, d, x, id, expected, e);
      assert Purges(env, d, id, e);
    }
  }

  ghost predicate FullRun(env: Env, run: seq<Disk>) {
    run != [] && forall i :: 0 < i < |run| ==> CallsFully(env, run[i - 1], run[i])
  }

  /** Some step of the run blocks. */
  ghost predicate EverBlocks(env: Env, run: seq<Disk>)
    decreases run, env
  {
    |run| > 1 && (EverBlocks(env, run[..|run| - 1]) || Blocks(env, run[|run| - 2], run[|run| - 1]))
  }

  /** In every run from a tidy bin: the bin is blocked if and only if some call crashed in a bad step, or trashed
      a path that metadata may not name; until then all entries mend, and two full passes make it clean. */
  lemma {:induction false} BlockedExactly(env: Env, run: seq<Disk>)
    requires Coherent(env) && FullRun(env, run) && AllTidy(env, run[0])
    ensures Blocked(env, run[|run| - 1]) <==> EverBlocks(env, run)
    ensures !Blocked(env, run[|run| - 1]) ==> AllMendable(env, run[|run| - 1])
  {
    var n := |run| - 1;
    if n == 0 {
      TidyIsMendable(env, run[0]);
      MendableIsNotBlocked(env, run[0]);
    } else {
      var front := run[..n];
      BlockedExactly(env, front);
      assert CallsFully(env, run[n - 1], run[n]);
      if Blocked(env, run[n - 1]) {
        FullCallIsCall(env, run[n - 1], run[n]);
        BlockedForever(env, run[n - 1], run[n]);
      } else {
        CallBlocks(env, run[n - 1], run[n]);
        if !Blocks(env, run[n - 1], run[n]) {
          MendableIsNotBlocked(env, run[n]);
        }
      }
    }
  }
}
