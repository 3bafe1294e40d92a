/** The recycle bin at work: each operation is a sequence of atomic steps on the disk,
    any of which may turn out to be the last one before a crash. */
module TrashManagers {
  import opened Trash
  import opened Wrappers
  import opened TrashSafety
  import opened TrashQuota

  datatype Code = VersionConflict | OperationConflict | QuotaExceeded | ItemNotFound | ItemCorrupt | DestinationInvalid | DestinationExists | SourceInvalid

  datatype Status = Done | Crashed | Refused(code: Code)

  // ----- Why a call is refused

  /** What `trash_file` finds wrong behind a clean pass, check by check. */
  predicate RefusesTrash(env: Env, d: Disk, path: Path, expected: Digest, code: Code) {
    var readable := path in d.files && env.opens(path) && |d.files[path]| <= env.maxFile;
    match code
    case SourceInvalid => !readable
    case VersionConflict => readable && Sha(d.files[path]) != expected
    case _ => readable && Sha(d.files[path]) == expected
  }

  /** And its quota check, behind readable records. */
  ghost predicate ExceedsQuota(env: Env, d: Disk, path: Path)
    requires path in d.files
  {
    && (forall j :: j in d.items ==> ReadsRecord(env, d.items[j], j))
    && (|d.items| >= env.maxItems || ClaimedBytes(d.items) + |d.files[path]| > env.maxBytes)
  }

  predicate Verified(env: Env, d: Disk, id: TrashId, expected: Digest) {
    && id in d.items && ReadsRecord(env, d.items[id], id)
    && Sha(d.items[id].payload.value) == d.items[id].meta.value.sha == expected
  }

  function Target(d: Disk, id: TrashId, destination: Option<Path>): Path
    requires id in d.items && d.items[id].meta.Some?
  {
    destination.GetOr(d.items[id].meta.value.original)
  }

  /** What `restore_trashed_file` finds wrong, check by check. */
  predicate RefusesRestore(env: Env, d: Disk, id: TrashId, expected: Digest, destination: Option<Path>, code: Code) {
    match code
    case ItemNotFound => id !in d.items
    case ItemCorrupt => id in d.items && !ReadsRecord(env, d.items[id], id)
    case OperationConflict => id in d.items && ReadsRecord(env, d.items[id], id) && d.items[id].intent.Some?
    case VersionConflict =>
      id in d.items && ReadsRecord(env, d.items[id], id) && d.items[id].intent.None? && !Verified(env, d, id, expected)
    case DestinationInvalid => Verified(env, d, id, expected) && d.items[id].intent.None? && !env.restores(Target(d, id, destination))
    case DestinationExists =>
      && Verified(env, d, id, expected) && d.items[id].intent.None?
      && env.restores(Target(d, id, destination)) && Target(d, id, destination) in d.files
    case _ => false
  }

  /** What `purge_trashed_file` finds wrong, check by check. */
  predicate RefusesPurge(env: Env, d: Disk, id: TrashId, expected: Digest, code: Code) {
    match code
    case ItemNotFound => id !in d.items
    case ItemCorrupt => id in d.items && !ReadsRecord(env, d.items[id], id)
    case VersionConflict => id in d.items && ReadsRecord(env, d.items[id], id) && !Verified(env, d, id, expected)
    case OperationConflict => Verified(env, d, id, expected) && (d.items[id].intent.Some? || id in d.purging)
    case _ => false
  }

  /** Restore and purge are refused with one code exactly when they are not accepted. */
  lemma {:induction false} RefusedUnlessAccepted(env: Env, d: Disk, id: TrashId, expected: Digest, destination: Option<Path>)
    ensures (exists code :: RefusesRestore(env, d, id, expected, destination, code)) <==>
      !(id in d.items && d.items[id].meta.Some? && AcceptsRestore(env, d, id, expected, Target(d, id, destination)))
    ensures (exists code :: RefusesPurge(env, d, id, expected, code)) <==> !AcceptsPurge(env, d, id, expected)
    ensures forall a, b :: RefusesRestore(env, d, id, expected, destination, a) && RefusesRestore(env, d, id, expected, destination, b) ==> a == b
    ensures forall a, b :: RefusesPurge(env, d, id, expected, a) && RefusesPurge(env, d, id, expected, b) ==> a == b
  {
    if id !in d.items {
      assert RefusesRestore(env, d, id, expected, destination, ItemNotFound) && RefusesPurge(env, d, id, expected, ItemNotFound);
    } else if !ReadsRecord(env, d.items[id], id) {
      assert RefusesRestore(env, d, id, expected, destination, ItemCorrupt) && RefusesPurge(env, d, id, expected, ItemCorrupt);
    } else {
      assert d.items[id].intent.Some? ==> RefusesRestore(env, d, id, expected, destination, OperationConflict);
      if Verified(env, d, id, expected) {
        var target := Target(d, id, destination);
        assert d.items[id].intent.None? && !env.restores(target) ==> RefusesRestore(env, d, id, expected, destination, DestinationInvalid);
        assert d.items[id].intent.None? && env.restores(target) && target in d.files ==>
          RefusesRestore(env, d, id, expected, destination, DestinationExists);
        assert d.items[id].intent.Some? || id in d.purging ==> RefusesPurge(env, d, id, expected, OperationConflict);
      } else {
        assert d.items[id].intent.None? ==> RefusesRestore(env, d, id, expected, destination, VersionConflict);
        assert RefusesPurge(env, d, id, expected, VersionConflict);
      }
    }
  }

  /** What the report of purge cleanup really says: an entry was cleaned up for good, or there were too many. */
  ghost predicate PurgeReports(env: Env, d: Disk) {
    |d.purging| > env.maxItems || exists j :: j in d.purging && !d.purging[j].temp
  }

  /** Purge cleanup has touched nothing else, and not yet the entries of `todo`. */
  ghost predicate Cleaning(d: Disk, e: Disk, todo: set<TrashId>) {
    && e.files == d.files && e.staging == d.staging && e.items == d.items && todo <= d.purging.Keys
    && (forall j :: Cleaned(Lookup(d.purging, j), Lookup(e.purging, j)))
    && forall j :: j in todo ==> Lookup(e.purging, j) == Lookup(d.purging, j)
  }

  /** What the report says about the entries that are not in `todo` any more. */
  ghost predicate SaysCleaned(env: Env, d: Disk, todo: set<TrashId>, reported: bool) {
    reported <==> |d.purging| > env.maxItems || exists j :: j in d.purging && j !in todo && !d.purging[j].temp
  }

  lemma {:induction false} SaysNext(env: Env, d: Disk, todo: set<TrashId>, id: TrashId, reported: bool)
    requires id in todo && todo <= d.purging.Keys && SaysCleaned(env, d, todo, reported)
    ensures SaysCleaned(env, d, todo - {id}, reported || !d.purging[id].temp)
  {
  }

  lemma {:induction false} CleaningGoesOn(d: Disk, before: Disk, after: Disk, todo: set<TrashId>, id: TrashId)
    requires Cleaning(d, before, todo) && id in todo
    requires after.files == before.files && after.staging == before.staging && after.items == before.items
    requires forall j :: j != id ==> Lookup(after.purging, j) == Lookup(before.purging, j)
    requires Cleaned(Lookup(before.purging, id), Lookup(after.purging, id))
    ensures Cleaning(d, after, todo - {id})
  {
    forall j ensures Cleaned(Lookup(d.purging, j), Lookup(after.purging, j)) {
      assert j != id ==> Lookup(after.purging, j) == Lookup(before.purging, j);
    }
  }

  /** Which entries a loop treats, and the states each goes along. */
  datatype Plan = Plan(ids: set<TrashId>, of: TrashId -> Progress<Slots>)

  /** Only the slots of `id` differ, and they are `s`. */
  ghost predicate OnlySlots(before: Disk, after: Disk, id: TrashId, s: Slots) {
    && after.files == before.files && after.purging == before.purging
    && SlotsOf(after, id) == s
    && forall j :: j != id ==> SlotsOf(after, j) == SlotsOf(before, j)
  }

  /** The disk went along the states of one entry, to the last one if still alive. */
  ghost predicate WentAlong(before: Disk, after: Disk, id: TrashId, p: Progress<Slots>, alive: bool, reported: bool) {
    && (exists k :: 0 <= k < |p.states| && OnlySlots(before, after, id, p.states[k]) && (alive ==> k == |p.states| - 1))
    && (alive ==> reported == p.reported)
  }

  /** The disk is at the `k`-th of these states. */
  ghost predicate At(before: Disk, now: Disk, id: TrashId, p: Progress<Slots>, k: nat) {
    k < |p.states| && OnlySlots(before, now, id, p.states[k])
  }

  lemma {:induction false} Advances(before: Disk, mid: Disk, after: Disk, id: TrashId, p: Progress<Slots>, k: nat, alive: bool)
    requires At(before, mid, id, p, k) && OnlySlots(mid, after, id, SlotsOf(after, id)) && k + 1 < |p.states|
    requires SlotsOf(after, id) == if alive then p.states[k + 1] else p.states[k]
    ensures At(before, after, id, p, if alive then k + 1 else k)
  {
  }

  lemma {:induction false} Arrived(before: Disk, now: Disk, id: TrashId, p: Progress<Slots>, k: nat, alive: bool, reported: bool)
    requires At(before, now, id, p, k) && (alive ==> k == |p.states| - 1 && reported == p.reported)
    ensures WentAlong(before, now, id, p, alive, reported)
  {
  }

  /** The states of a removal, one by one. */
  lemma {:induction false} RemovalStates(s: Slots, item: Item)
    requires s.item == Some(item)
    ensures var p := ItemSlots(s, Removal(item));
      var (m, i) := (if item.payload.Some? then 2 else 1, if item.payload.Some? then 3 else 2);
      var last := if item.intent.Some? then i else m;
      && |p.states| == last + (if item.temp then 1 else 2) && p.reported == item.temp
      && p.states[0] == s && (item.payload.Some? ==> p.states[1] == s.(item := Some(item.(payload := None))))
      && p.states[m] == s.(item := Some(item.(payload := None, meta := None)))
      && (item.intent.Some? ==> p.states[i] == s.(item := Some(item.(payload := None, meta := None, intent := None))))
      && (!item.temp ==> p.states[last + 1] == s.(item := None))
  {
  }

  class TrashManager {
    const env: Env
    var disk: Disk
    /** How many atomic steps are left before the crash. */
    var left: nat

    constructor (env: Env, disk: Disk, left: nat)
      ensures this.env == env && this.disk == disk && this.left == left
    {
      this.env, this.disk, this.left := env, disk, left;
    }

    /** One atomic file-system step. */
    method Commit(next: Disk) returns (alive: bool)
      modifies this
      ensures alive <==> old(left) > 0
      ensures disk == if alive then next else old(disk)
      ensures left == if alive then old(left) - 1 else 0
    {
      if left == 0 {
        return false;
      }
      disk, left := next, left - 1;
      return true;
    }

    method SetItem(id: TrashId, item: Option<Item>) returns (alive: bool)
      modifies this
      ensures OnlySlots(old(disk), disk, id, SlotsOf(disk, id))
      ensures SlotsOf(disk, id) == if alive then SlotsOf(old(disk), id).(item := item) else SlotsOf(old(disk), id)
      ensures alive <==> old(left) > 0
      ensures alive ==> left == old(left) - 1
    {
      alive := Commit(WithSlots(disk, id, SlotsOf(disk, id).(item := item)));
    }

    /** rmdir of an item directory, which fails on leftovers. */
    method RemoveDirectory(id: TrashId) returns (alive: bool, reported: bool)
      requires id in disk.items
      modifies this
      ensures WentAlong(old(disk), disk, id, ItemSlots(SlotsOf(old(disk), id), CloseDirectory(old(disk).items[id])), alive, reported)
    {
      var item := disk.items[id];
      ghost var p := ItemSlots(SlotsOf(disk, id), CloseDirectory(item));
      assert p.states[0] == SlotsOf(disk, id);
      if item.temp {
        return true, true;
      }
      assert p.states[1] == SlotsOf(disk, id).(item := None);
      alive := SetItem(id, None);
      reported := false;
    }

    /** Unlink payload, metadata and intent, then the directory. */
    method RemoveEntry(id: TrashId) returns (alive: bool, reported: bool)
      requires id in disk.items
      modifies this
      ensures WentAlong(old(disk), disk, id, ItemSlots(SlotsOf(old(disk), id), Removal(old(disk).items[id])), alive, reported)
    {
      ghost var before := disk;
      var item := disk.items[id];
      ghost var p := ItemSlots(SlotsOf(disk, id), Removal(item));
      RemovalStates(SlotsOf(disk, id), item);
      reported := false;
      ghost var k := 0;
      if item.payload.Some? {
        alive, k := UnlinkTo(id, item.(payload := None), before, p, k);
        if !alive {
          return;
        }
      }
      alive, k := UnlinkTo(id, item.(payload := None, meta := None), before, p, k);
      if !alive {
        return;
      }
      if item.intent.Some? {
        alive, k := UnlinkTo(id, item.(payload := None, meta := None, intent := None), before, p, k);
        if !alive {
          return;
        }
      }
      alive, reported := CloseAfter(id, item.temp, before, p, k);
    }

    /** The rmdir at the end of the way, which fails on leftovers. */
    method CloseAfter(id: TrashId, temp: bool, ghost before: Disk, ghost p: Progress<Slots>, ghost k: nat) returns (alive: bool, reported: bool)
      requires At(before, disk, id, p, k) && p.reported == temp
      requires if temp then |p.states| == k + 1 else |p.states| == k + 2 && p.states[k + 1] == p.states[k].(item := None)
      modifies this
      ensures WentAlong(before, disk, id, p, alive, reported)
    {
      if temp {
        Arrived(before, disk, id, p, k, true, true);
        return true, true;
      }
      ghost var mid := disk;
      alive := SetItem(id, None);
      reported := false;
      Advances(before, mid, disk, id, p, k, alive);
      Arrived(before, disk, id, p, if alive then k + 1 else k, alive, reported);
    }

    /** One unlink on the way along the states of an entry. */
    method UnlinkTo(id: TrashId, item: Item, ghost before: Disk, ghost p: Progress<Slots>, ghost k: nat) returns (alive: bool, ghost j: nat)
      requires At(before, disk, id, p, k) && k + 1 < |p.states| && p.states[k + 1] == p.states[k].(item := Some(item))
      modifies this
      ensures j == (if alive then k + 1 else k) && At(before, disk, id, p, j)
      ensures !alive ==> WentAlong(before, disk, id, p, false, false)
    {
      ghost var mid := disk;
      alive := SetItem(id, Some(item));
      j := if alive then k + 1 else k;
      Advances(before, mid, disk, id, p, k, alive);
      if !alive {
        Arrived(before, disk, id, p, j, false, false);
      }
    }

    /** `_recover_without_metadata`. */
    method RecoverWithoutMetadata(id: TrashId) returns (alive: bool, reported: bool)
      requires id in disk.items && disk.items[id].meta.None? && disk.items[id].intent.Some? && disk.items[id].payload.None?
      modifies this
      ensures WentAlong(old(disk), disk, id, FormalSlots(env, old(disk).files, id, SlotsOf(old(disk), id)), alive, reported)
    {
      var item := disk.items[id];
      var intent := item.intent.value;
      if env.restores(intent.destination) && FileMatches(env, disk.files, intent.destination, intent.sha) {
        alive, reported := UnlinkThenClose(id, item.(intent := None));
      } else {
        return true, true;
      }
    }

    /** Unlinks the last known file of an item, which leaves `bare`, then the directory. */
    method UnlinkThenClose(id: TrashId, bare: Item) returns (alive: bool, reported: bool)
      requires id in disk.items && bare.meta.None? && bare.payload.None? && bare.intent.None?
      modifies this
      ensures var s := SlotsOf(old(disk), id);
        WentAlong(old(disk), disk, id,
                  ItemSlots(s, Progress([s.item] + CloseDirectory(bare).states, CloseDirectory(bare).reported)), alive, reported)
    {
      ghost var before, s := disk, SlotsOf(disk, id);
      ghost var p := ItemSlots(s, Progress([s.item] + CloseDirectory(bare).states, CloseDirectory(bare).reported));
      assert p.states[0] == s && p.states[1] == s.(item := Some(bare)) && (!bare.temp ==> p.states[2] == s.(item := None));
      ghost var k;
      reported := false;
      alive, k := UnlinkTo(id, bare, before, p, 0);
      if alive {
        alive, reported := CloseAfter(id, bare.temp, before, p, k);
      }
    }

    /** `_recover_restore_intent`. */
    method RecoverRestoreIntent(id: TrashId) returns (alive: bool, reported: bool)
      requires id in disk.items && ReadsMeta(env, disk.items[id], id) && disk.items[id].intent.Some?
      modifies this
      ensures WentAlong(old(disk), disk, id, FormalSlots(env, old(disk).files, id, SlotsOf(old(disk), id)), alive, reported)
    {
      var item := disk.items[id];
      var meta, intent := item.meta.value, item.intent.value;
      if !ReadsIntent(env, item, id) {
        return true, true;
      }
      if item.payload.Some? {
        if !ReadsRecord(env, item, id) || Sha(item.payload.value) != meta.sha {
          return true, true;
        }
      }
      if intent.destination !in disk.files {
        if item.payload.Some? {
          ghost var p := FormalSlots(env, disk.files, id, SlotsOf(disk, id));
          assert p.states[0] == SlotsOf(disk, id) && p.states[1] == SlotsOf(disk, id).(item := Some(item.(intent := None)));
          alive := SetItem(id, Some(item.(intent := None)));
          return alive, false;
        }
        return true, true;
      }
      if !FileMatches(env, disk.files, intent.destination, meta.sha) || |disk.files[intent.destination]| != meta.size {
        return true, true;
      }
      alive, reported := RemoveEntry(id);
    }

    /** `_recover_formal_item`. */
    method RecoverFormalItem(id: TrashId) returns (alive: bool, reported: bool)
      requires id in disk.items
      modifies this
      ensures WentAlong(old(disk), disk, id, FormalSlots(env, old(disk).files, id, SlotsOf(old(disk), id)), alive, reported)
    {
      var item := disk.items[id];
      if item.meta.None? {
        if item.intent.Some? && item.payload.None? {
          alive, reported := RecoverWithoutMetadata(id);
        } else if item.payload.None? {
          alive, reported := RemoveDirectory(id);
        } else {
          return true, true;
        }
        return;
      }
      if !ReadsMeta(env, item, id) {
        return true, true;
      }
      if item.intent.Some? {
        alive, reported := RecoverRestoreIntent(id);
        return;
      }
      if item.payload.None? {
        if OriginalMatches(env, disk.files, item.meta.value) {
          alive, reported := UnlinkThenClose(id, item.(meta := None));
        } else {
          return true, true;
        }
        return;
      }
      if !ReadsRecord(env, item, id) {
        return true, true;
      }
      if OriginalMatches(env, disk.files, item.meta.value) {
        if Sha(item.payload.value) == item.meta.value.sha {
          alive, reported := RemoveEntry(id);
        } else {
          return true, true;
        }
        return;
      }
      return true, false;
    }

    /** `_recover_staging_item`. */
    method RecoverStagingItem(id: TrashId) returns (alive: bool, reported: bool)
      requires id in disk.staging
      modifies this
      ensures WentAlong(old(disk), disk, id, StagingRecovery(env, old(disk).files, id, SlotsOf(old(disk), id)), alive, reported)
    {
      var item := disk.staging[id];
      ghost var before, s := disk, SlotsOf(disk, id);
      ghost var p := StagingRecovery(env, disk.files, id, s);
      if item.meta.Some? && item.payload.Some? {
        if !ReadsRecord(env, item, id) || id in disk.items {
          return true, true;
        }
        assert p.states == [s, Slots(None, Some(item))];
        alive := Commit(WithSlots(disk, id, Slots(None, Some(item))));
        assert OnlySlots(before, disk, id, p.states[if alive then 1 else 0]);
        return alive, false;
      }
      if item.meta.Some? {
        if ReadsMeta(env, item, id) && OriginalMatches(env, disk.files, item.meta.value) {
          var bare := item.(meta := None);
          assert p.states[1] == s.(staged := Some(bare));
          alive := Commit(WithSlots(disk, id, SlotsOf(disk, id).(staged := Some(bare))));
          if !alive {
            return false, false;
          }
          if bare != EMPTY_DIRECTORY {
            return true, true;
          }
          assert p.states[2] == s.(staged := None);
          alive := Commit(WithSlots(disk, id, SlotsOf(disk, id).(staged := None)));
          assert OnlySlots(before, disk, id, p.states[if alive then 2 else 1]);
          return alive, false;
        }
        return true, true;
      }
      return true, true;
    }

    /** `_cleanup_purging_item`: known files in directory order, then the directory. */
    method CleanupPurgingItem(id: TrashId) returns (alive: bool, pending: bool)
      requires id in disk.purging
      modifies this
      ensures disk.files == old(disk).files && disk.staging == old(disk).staging && disk.items == old(disk).items
      ensures forall j :: j != id ==> Lookup(disk.purging, j) == Lookup(old(disk).purging, j)
      ensures Cleaned(Lookup(old(disk).purging, id), Lookup(disk.purging, id))
      ensures alive ==> pending == old(disk).purging[id].temp
      ensures alive ==> Lookup(disk.purging, id) == if pending then Some(LEFTOVER) else None
    {
      pending := disk.purging[id].temp;
      var names: set<FileName> := {PayloadFile, MetadataFile, IntentFile};
      while names != {}
        invariant Unlinking(old(disk), disk, id, names)
        decreases names
      {
        var name :| name in names;
        alive := UnlinkKnown(id, name, names, old(disk));
        if !alive {
          return;
        }
        names := names - {name};
      }
      NothingKnownLeft(old(disk), disk, id);
      alive := true;
      if !pending {
        alive := Commit(disk.(purging := Store(disk.purging, id, None)));
      }
    }

    /** One known file of a directory in purging. */
    method UnlinkKnown(id: TrashId, name: FileName, ghost names: set<FileName>, ghost before: Disk) returns (alive: bool)
      requires Unlinking(before, disk, id, names) && name in names
      modifies this
      ensures Unlinking(before, disk, id, if alive then names - {name} else names)
    {
      var item := disk.purging[id];
      var next := Unlinked(item, name);
      alive := true;
      if next != item {
        alive := Commit(disk.(purging := disk.purging[id := next]));
      }
    }

    /** `_recover_purging`, with its inverted report. */
    method RecoverPurging() returns (alive: bool, reported: bool)
      modifies this
      ensures disk.files == old(disk).files && disk.staging == old(disk).staging && disk.items == old(disk).items
      ensures forall j :: Cleaned(Lookup(old(disk).purging, j), Lookup(disk.purging, j))
      ensures alive ==> (reported <==> PurgeReports(env, old(disk)))
    {
      ghost var d := disk;
      var todo := disk.purging.Keys;
      var count := 0;
      assert |todo| == |d.purging|;
      reported := |todo| > env.maxItems;
      alive := true;
      assert SaysCleaned(env, d, todo, reported);
      while todo != {} && count < env.maxItems
        invariant Cleaning(d, disk, todo) && count + |todo| == |d.purging| && SaysCleaned(env, d, todo, reported)
        decreases todo
      {
        var id :| id in todo;
        alive, reported := CleanNext(id, d, todo, reported);
        if !alive {
          return;
        }
        todo, count := todo - {id}, count + 1;
      }
    }

    method CleanNext(id: TrashId, ghost d: Disk, ghost todo: set<TrashId>, reported: bool) returns (alive: bool, report: bool)
      requires id in todo && Cleaning(d, disk, todo) && SaysCleaned(env, d, todo, reported)
      modifies this
      ensures Cleaning(d, disk, todo - {id}) && (alive ==> SaysCleaned(env, d, todo - {id}, report))
    {
      ghost var before := disk;
      assert Lookup(disk.purging, id) == Lookup(d.purging, id);
      var pending;
      alive, pending := CleanupPurgingItem(id);
      CleaningGoesOn(d, before, disk, todo, id);
      SaysNext(env, d, todo, id, reported);
      report := reported || !pending;
    }

    /** The loop over staging entries, up to the entry limit. */
    method RecoverStaging() returns (alive: bool, reported: bool)
      modifies this
      ensures Phase(old(disk), disk, StagingPlan(env, old(disk)), alive, reported)
      ensures alive && |StagingPlan(env, old(disk)).ids| <= env.maxItems ==> Through(old(disk), disk, StagingPlan(env, old(disk)), reported)
    {
      ghost var d := disk;
      ghost var plan := StagingPlan(env, d);
      var todo := disk.staging.Keys;
      var count := 0;
      reported, alive := false, true;
      while todo != {} && count < env.maxItems
        invariant alive && todo <= plan.ids && count + |todo| == |plan.ids|
        invariant Underway(d, disk, plan, todo, reported)
        decreases todo
      {
        var id :| id in todo;
        alive, reported := RecoverNextStaging(id, d, plan, todo, reported);
        if !alive {
          return;
        }
        todo, count := todo - {id}, count + 1;
      }
      UnderwayEnds(d, disk, plan, todo, reported);
      if todo != {} {
        reported := true;
      }
    }

    method RecoverNextStaging(id: TrashId, ghost d: Disk, ghost plan: Plan, ghost todo: set<TrashId>, reported: bool)
      returns (alive: bool, report: bool)
      requires plan == StagingPlan(env, d) && id in todo && id in plan.ids && Underway(d, disk, plan, todo, reported)
      modifies this
      ensures if alive then Underway(d, disk, plan, todo - {id}, report) else Phase(d, disk, plan, false, report)
    {
      ghost var before := disk;
      UntouchedPlans(env, d, before, plan, todo, id, reported);
      alive, report := RecoverStagingItem(id);
      UnderwayStep(d, before, disk, plan, todo, id, reported, alive, report);
      report := reported || report;
    }

    /** The loop over items, up to the entry limit. */
    method RecoverItems() returns (alive: bool, reported: bool)
      modifies this
      ensures Phase(old(disk), disk, FormalPlan(env, old(disk)), alive, reported)
      ensures alive && |FormalPlan(env, old(disk)).ids| <= env.maxItems ==> Through(old(disk), disk, FormalPlan(env, old(disk)), reported)
    {
      ghost var d := disk;
      ghost var plan := FormalPlan(env, d);
      var todo := disk.items.Keys;
      var count := 0;
      reported, alive := false, true;
      while todo != {} && count < env.maxItems
        invariant alive && todo <= plan.ids && count + |todo| == |plan.ids|
        invariant Underway(d, disk, plan, todo, reported)
        decreases todo
      {
        var id :| id in todo;
        alive, reported := RecoverNextItem(id, d, plan, todo, reported);
        if !alive {
          return;
        }
        todo, count := todo - {id}, count + 1;
      }
      UnderwayEnds(d, disk, plan, todo, reported);
      if todo != {} {
        reported := true;
      }
    }

    method RecoverNextItem(id: TrashId, ghost d: Disk, ghost plan: Plan, ghost todo: set<TrashId>, reported: bool)
      returns (alive: bool, report: bool)
      requires plan == FormalPlan(env, d) && id in todo && id in plan.ids && Underway(d, disk, plan, todo, reported)
      modifies this
      ensures if alive then Underway(d, disk, plan, todo - {id}, report) else Phase(d, disk, plan, false, report)
    {
      ghost var before := disk;
      UntouchedPlans(env, d, before, plan, todo, id, reported);
      alive, report := RecoverFormalItem(id);
      UnderwayStep(d, before, disk, plan, todo, id, reported, alive, report);
      report := reported || report;
    }

    /** `_recover`: purge cleanup, then staging, then items. */
    method Recover() returns (alive: bool, reported: bool)
      modifies this
      ensures Interrupted(env, old(disk), disk)
      ensures alive && !reported ==> CleanPass(env, old(disk), disk)
      ensures alive && PurgeReports(env, old(disk)) ==> reported
      ensures alive && Quota(env, old(disk)) ==>
        Passed(env, old(disk), disk) && (reported <==> PurgeReports(env, old(disk)) || EntriesReport(env, old(disk)))
    {
      ghost var d := disk;
      var purgeReport, stagingReport, itemsReport;
      alive, purgeReport := RecoverPurging();
      if !alive {
        StartsPartway(env, d, disk);
        return false, false;
      }
      ghost var d1 := disk;
      alive, stagingReport := RecoverStaging();
      if !alive {
        StagingPartway(env, d, d1, disk);
        return false, false;
      }
      ghost var m := disk;
      alive, itemsReport := RecoverItems();
      BothPartway(env, d, d1, m, disk, alive, stagingReport, itemsReport);
      FullPass(env, d, d1, m, disk, alive, stagingReport, itemsReport);
      reported := purgeReport || stagingReport || itemsReport;
    }

    /** `_load_records` and the sum of the recorded sizes. */
    method LoadRecords() returns (valid: bool, used: nat)
      ensures valid <==> |disk.items| <= env.maxItems && forall j :: j in disk.items ==> ReadsRecord(env, disk.items[j], j)
      ensures valid ==> used == ClaimedBytes(disk.items)
    {
      used := 0;
      if |disk.items| > env.maxItems {
        return false, 0;
      }
      var todo := disk.items.Keys;
      while todo != {}
        invariant todo <= disk.items.Keys
        invariant forall j :: j in disk.items && j !in todo ==> ReadsRecord(env, disk.items[j], j)
        invariant used + Sum(todo, Claims(disk.items)) == ClaimedBytes(disk.items)
        decreases todo
      {
        var id :| id in todo;
        SumPick(todo, Claims(disk.items), id);
        todo := todo - {id};
        if !ReadsRecord(env, disk.items[id], id) {
          return false, 0;
        }
        used := used + disk.items[id].meta.value.size;
      }
      valid := true;
    }

    /** `trash_file`, with the id that was drawn. */
    method TrashFile(path: Path, expected: Digest, id: TrashId) returns (status: Status)
      modifies this
      ensures Moves(env, old(disk), disk)
      ensures status.Refused? ==> Interrupted(env, old(disk), disk)
      ensures status.Done? ==> exists x ::
        CleanPass(env, old(disk), x) && AcceptsTrash(env, x, path, expected, id) && disk == TrashStep(x, path, id, 5)
      ensures Quota(env, old(disk)) ==> CallsFully(env, old(disk), disk)
      ensures PurgeReports(env, old(disk)) ==> status == Crashed || status == Refused(OperationConflict)
      ensures Quota(env, old(disk)) && status == Refused(OperationConflict) ==>
        || PurgeReports(env, old(disk)) || EntriesReport(env, old(disk))
        || (exists j :: j in disk.items && !ReadsRecord(env, disk.items[j], j)) || id in disk.items || id in disk.staging
      ensures status.Refused? && status.code != OperationConflict ==>
        && CleanPass(env, old(disk), disk) && RefusesTrash(env, disk, path, expected, status.code)
        && (status.code == SourceInvalid || status.code == VersionConflict ||
            (status.code == QuotaExceeded && ExceedsQuota(env, disk, path)))
    {
      ghost var d := disk;
      var alive, reported := Recover();
      if !alive {
        return Crashed;
      }
      if reported {
        return Refused(OperationConflict);
      }
      ghost var x := disk;
      if path !in disk.files || !env.opens(path) || |disk.files[path]| > env.maxFile {
        return Refused(SourceInvalid);
      }
      if Sha(disk.files[path]) != expected {
        return Refused(VersionConflict);
      }
      var valid, used := LoadRecords();
      if !valid {
        if |disk.items| > env.maxItems {
          RefusedOverLimit(env, d, disk);
        }
        return Refused(OperationConflict);
      }
      if |disk.items| >= env.maxItems || used + |disk.files[path]| > env.maxBytes {
        return Refused(QuotaExceeded);
      }
      if id in disk.items || id in disk.staging {
        return Refused(OperationConflict);
      }
      assert AcceptsTrash(env, x, path, expected, id);
      ghost var k;
      status, k := StageAndPublish(path, id);
      assert TrashMove(env, d, x, path, expected, id, k, disk);
    }

    /** The transaction of `trash_file` once every check has passed. */
    method StageAndPublish(path: Path, id: TrashId) returns (status: Status, ghost k: nat)
      requires path in disk.files && id !in disk.staging && id !in disk.items
      modifies this
      ensures status == if k == 5 then Done else Crashed
      ensures k < 6 && disk == TrashStep(old(disk), path, id, k)
    {
      ghost var x := disk;
      var meta, content := NewMeta(disk, path, id), disk.files[path];
      var described := Item(Some(meta), None, None, false);
      status, k := Crashed, 0;
      var alive := Commit(disk.(staging := disk.staging[id := EMPTY_DIRECTORY]));
      if !alive { return; }
      k := 1;
      Overwrites(x.staging, id, EMPTY_DIRECTORY, EMPTY_DIRECTORY.(temp := true));
      alive := Commit(disk.(staging := disk.staging[id := EMPTY_DIRECTORY.(temp := true)]));
      if !alive { return; }
      k := 2;
      Overwrites(x.staging, id, EMPTY_DIRECTORY.(temp := true), described);
      alive := Commit(disk.(staging := disk.staging[id := described]));
      if !alive { return; }
      k := 3;
      Overwrites(x.staging, id, described, described.(payload := Some(content)));
      alive := Commit(disk.(files := disk.files - {path}, staging := disk.staging[id := described.(payload := Some(content))]));
      if !alive { return; }
      k := 4;
      TakesBack(x.staging, id, described.(payload := Some(content)));
      alive := Commit(disk.(staging := disk.staging - {id}, items := disk.items[id := disk.staging[id]]));
      if !alive { return; }
      return Done, 5;
    }

    /** `restore_trashed_file`; without a destination the item goes back to its original path. */
    method RestoreTrashedFile(id: TrashId, expected: Digest, destination: Option<Path>) returns (status: Status)
      modifies this
      ensures Moves(env, old(disk), disk)
      ensures status.Refused? ==> Interrupted(env, old(disk), disk)
      ensures status.Done? ==> exists x, target ::
        && Interrupted(env, old(disk), x) && AcceptsRestore(env, x, id, expected, target)
        && target == destination.GetOr(x.items[id].meta.value.original) && disk == RestoreStep(x, id, target, 7)
      ensures Quota(env, old(disk)) ==> CallsFully(env, old(disk), disk)
      ensures status.Refused? ==> RefusesRestore(env, disk, id, expected, destination, status.code)
    {
      ghost var d := disk;
      var alive, reported := Recover();
      if !alive {
        return Crashed;
      }
      if id !in disk.items {
        return Refused(ItemNotFound);
      }
      var item := disk.items[id];
      if !ReadsRecord(env, item, id) {
        return Refused(ItemCorrupt);
      }
      if item.intent.Some? {
        return Refused(OperationConflict);
      }
      if Sha(item.payload.value) != item.meta.value.sha || expected != item.meta.value.sha {
        return Refused(VersionConflict);
      }
      var target := destination.GetOr(item.meta.value.original);
      if !env.restores(target) {
        return Refused(DestinationInvalid);
      }
      if target in disk.files {
        return Refused(DestinationExists);
      }
      ghost var x, k := disk, 0;
      status, k := LinkAndRemove(id, target);
      assert RestoreMove(env, d, x, id, expected, target, k, disk);
      assert Quota(env, d) ==> FullRestore(env, d, x, id, expected, target, k, disk);
    }

    /** The transaction of `restore_trashed_file` once every check has passed. */
    method LinkAndRemove(id: TrashId, target: Path) returns (status: Status, ghost k: nat)
      requires id in disk.items && disk.items[id].payload.Some? && disk.items[id].meta.Some? && disk.items[id].intent.None?
      modifies this
      ensures status == if k == 7 then Done else Crashed
      ensures k < 8 && disk == RestoreStep(old(disk), id, target, k)
    {
      ghost var x := disk;
      var item := disk.items[id];
      var pending := item.(intent := Some(Intent(id, target, item.meta.value.sha)));
      status, k := Crashed, 0;
      var alive := Commit(disk.(items := disk.items[id := item.(temp := true)]));
      if !alive { return; }
      k := 1;
      Overwrites(x.items, id, item.(temp := true), pending);
      alive := Commit(disk.(items := disk.items[id := pending]));
      if !alive { return; }
      k := 2;
      alive := Commit(disk.(files := disk.files[target := item.payload.value]));
      if !alive { return; }
      k := 3;
      Overwrites(x.items, id, pending, pending.(payload := None));
      alive := Commit(disk.(items := disk.items[id := pending.(payload := None)]));
      if !alive { return; }
      k := 4;
      Overwrites(x.items, id, pending.(payload := None), pending.(payload := None, meta := None));
      alive := Commit(disk.(items := disk.items[id := pending.(payload := None, meta := None)]));
      if !alive { return; }
      k := 5;
      Overwrites(x.items, id, pending.(payload := None, meta := None), EMPTY_DIRECTORY);
      alive := Commit(disk.(items := disk.items[id := EMPTY_DIRECTORY]));
      if !alive { return; }
      k := 6;
      RemovesUpdated(x.items, id, EMPTY_DIRECTORY);
      alive := Commit(disk.(items := disk.items - {id}));
      if !alive { return; }
      return Done, 7;
    }

    /** `purge_trashed_file`; `pending` is its `cleanup_pending`. */
    method PurgeTrashedFile(id: TrashId, expected: Digest) returns (status: Status, pending: bool)
      modifies this
      ensures status.Done? ==> (pending <==> id in disk.purging)
      ensures Interrupted(env, old(disk), disk) || Purges(env, old(disk), id, disk)
      ensures status.Refused? ==> Interrupted(env, old(disk), disk) && RefusesPurge(env, disk, id, expected, status.code)
      ensures status.Done? ==> id !in disk.items && Purges(env, old(disk), id, disk)
      ensures Quota(env, old(disk)) ==> CallsFully(env, old(disk), disk)
    {
      ghost var d := disk;
      pending := false;
      var alive, reported := Recover();
      if !alive {
        return Crashed, false;
      }
      if id !in disk.items {
        return Refused(ItemNotFound), false;
      }
      var item := disk.items[id];
      if !ReadsRecord(env, item, id) {
        return Refused(ItemCorrupt), false;
      }
      if Sha(item.payload.value) != item.meta.value.sha || expected != item.meta.value.sha {
        return Refused(VersionConflict), false;
      }
      if item.intent.Some? || id in disk.purging {
        return Refused(OperationConflict), false;
      }
      ghost var x := disk;
      assert PurgeMove(env, d, x, id, expected, x);
      assert Quota(env, d) ==> FullPurge(env, d, x, id, expected, x);
      alive := Commit(PurgeCommit(disk, id));
      if !alive {
        return Crashed, false;
      }
      ghost var c := disk;
      alive, pending := CleanupPurgingItem(id);
      assert forall j :: j != id ==> Lookup(disk.purging, j) == Lookup(c.purging, j);
      assert PurgeMove(env, d, x, id, expected, disk);
      assert Quota(env, d) ==> FullPurge(env, d, x, id, expected, disk);
      if !alive {
        return Crashed, false;
      }
      return Done, pending;
    }
  }

  lemma {:induction false} Overwrites<K, V>(m: map<K, V>, k: K, a: V, b: V)
    ensures m[k := a][k := b] == m[k := b]
  {
  }

  lemma {:induction false} TakesBack<K, V>(m: map<K, V>, k: K, a: V)
    requires k !in m
    ensures m[k := a] - {k} == m
  {
  }

  lemma {:induction false} RemovesUpdated<K, V>(m: map<K, V>, k: K, a: V)
    ensures m[k := a] - {k} == m - {k}
  {
  }

  // ----- The phases of a pass put together

  lemma {:induction false} StartsPartway(env: Env, d: Disk, e: Disk)
    requires e.files == d.files && e.staging == d.staging && e.items == d.items
    requires forall j :: Cleaned(Lookup(d.purging, j), Lookup(e.purging, j))
    ensures Interrupted(env, d, e)
  {
    forall id ensures Partway(env, d.files, id, SlotsOf(d, id), SlotsOf(e, id)) {
      assert StagingRecovery(env, d.files, id, SlotsOf(d, id)).states[0] == SlotsOf(d, id);
    }
  }

  lemma {:induction false} StagingPartway(env: Env, d: Disk, d1: Disk, e: Disk)
    requires d1.files == d.files && d1.staging == d.staging && d1.items == d.items
    requires forall j :: Cleaned(Lookup(d.purging, j), Lookup(d1.purging, j))
    requires Phase(d1, e, StagingPlan(env, d1), false, false) || Phase(d1, e, StagingPlan(env, d1), false, true)
    ensures Interrupted(env, d, e)
  {
    forall id ensures Partway(env, d.files, id, SlotsOf(d, id), SlotsOf(e, id)) {
      assert SlotsOf(d1, id) == SlotsOf(d, id);
      assert StagingRecovery(env, d.files, id, SlotsOf(d, id)).states[0] == SlotsOf(d, id);
    }
  }

  lemma {:induction false} BothPartway(env: Env, d: Disk, d1: Disk, m: Disk, e: Disk, alive: bool, stagingReport: bool, itemsReport: bool)
    requires d1.files == d.files && d1.staging == d.staging && d1.items == d.items
    requires forall j :: Cleaned(Lookup(d.purging, j), Lookup(d1.purging, j))
    requires Phase(d1, m, StagingPlan(env, d1), true, stagingReport) && Phase(m, e, FormalPlan(env, m), alive, itemsReport)
    ensures Interrupted(env, d, e)
    ensures alive && !stagingReport && !itemsReport ==> CleanPass(env, d, e)
  {
    forall id
      ensures Partway(env, d.files, id, SlotsOf(d, id), SlotsOf(e, id))
      ensures alive && !stagingReport && !itemsReport ==>
        SlotsOf(e, id) == RecoverSlots(env, d.files, id, SlotsOf(d, id)) && !ReportsSlots(env, d.files, id, SlotsOf(d, id))
    {
      assert SlotsOf(d1, id) == SlotsOf(d, id);
      SlotPhases(env, d, d1, m, e, id, alive, stagingReport, itemsReport);
    }
  }

  lemma {:induction false} SlotPhases(env: Env, d: Disk, d1: Disk, m: Disk, e: Disk, id: TrashId, alive: bool, stagingReport: bool, itemsReport: bool)
    requires d1.files == d.files && SlotsOf(d1, id) == SlotsOf(d, id)
    requires Phase(d1, m, StagingPlan(env, d1), true, stagingReport) && Phase(m, e, FormalPlan(env, m), alive, itemsReport)
    ensures Partway(env, d.files, id, SlotsOf(d, id), SlotsOf(e, id))
    ensures alive && !stagingReport && !itemsReport ==>
      SlotsOf(e, id) == RecoverSlots(env, d.files, id, SlotsOf(d, id)) && !ReportsSlots(env, d.files, id, SlotsOf(d, id))
  {
    var s, t := SlotsOf(d, id), SlotsOf(m, id);
    StagingPhase(env, d, d1, m, id, stagingReport);
    FormalPhase(env, d, m, e, id, alive, itemsReport);
    assert t == s || t == StagingRecovery(env, d.files, id, s).Last();
  }

  lemma {:induction false} StagingPhase(env: Env, d: Disk, d1: Disk, m: Disk, id: TrashId, reported: bool)
    requires d1.files == d.files && SlotsOf(d1, id) == SlotsOf(d, id) && Phase(d1, m, StagingPlan(env, d1), true, reported)
    ensures var (s, t, p) := (SlotsOf(d, id), SlotsOf(m, id), StagingRecovery(env, d.files, id, SlotsOf(d, id)));
      m.files == d.files && (t == s || t == p.Last()) && (!reported ==> t == p.Last() && !p.reported)
  {
    assert id in StagingPlan(env, d1).ids <==> SlotsOf(d, id).staged.Some?;
  }

  lemma {:induction false} FormalPhase(env: Env, d: Disk, m: Disk, e: Disk, id: TrashId, alive: bool, reported: bool)
    requires m.files == d.files && Phase(m, e, FormalPlan(env, m), alive, reported)
    ensures var p := FormalSlots(env, d.files, id, SlotsOf(m, id));
      SlotsOf(e, id) in p.states && (alive && !reported ==> SlotsOf(e, id) == p.Last() && !p.reported)
  {
    assert id in FormalPlan(env, m).ids <==> SlotsOf(m, id).item.Some?;
    assert FormalSlots(env, d.files, id, SlotsOf(m, id)).states[0] == SlotsOf(m, id);
  }

  /** Some entry reports a problem in a full pass. */
  ghost predicate EntriesReport(env: Env, d: Disk) {
    exists id :: ReportsSlots(env, d.files, id, SlotsOf(d, id))
  }

  /** Within the quotas no listing is cut short. */
  lemma {:induction false} FullPass(env: Env, d: Disk, d1: Disk, m: Disk, e: Disk, alive: bool, stagingReport: bool, itemsReport: bool)
    requires d1.files == d.files && d1.staging == d.staging && d1.items == d.items
    requires m.files == d.files && e.files == d.files
    requires |StagingPlan(env, d1).ids| <= env.maxItems ==> Through(d1, m, StagingPlan(env, d1), stagingReport)
    requires alive && |FormalPlan(env, m).ids| <= env.maxItems ==> Through(m, e, FormalPlan(env, m), itemsReport)
    ensures alive && Quota(env, d) ==> Passed(env, d, e) && (stagingReport || itemsReport <==> EntriesReport(env, d))
  {
    if alive && Quota(env, d) {
      PlanSizes(env, d1);
      StagingThrough(env, d, d1, m, stagingReport);
      PlanSizes(env, m);
      ItemsThrough(env, d, m, e, itemsReport);
    }
  }

  lemma {:induction false} PlanSizes(env: Env, d: Disk)
    ensures |StagingPlan(env, d).ids| == |d.staging| && |FormalPlan(env, d).ids| == |d.items|
  {
    assert |d.staging| == |d.staging.Keys| && |d.items| == |d.items.Keys|;
  }

  lemma {:induction false} StagingThrough(env: Env, d: Disk, d1: Disk, m: Disk, reported: bool)
    requires d1.files == d.files && d1.staging == d.staging && d1.items == d.items
    requires Through(d1, m, StagingPlan(env, d1), reported) && Quota(env, d)
    ensures forall id :: SlotsOf(m, id) == StagingRecovery(env, d.files, id, SlotsOf(d, id)).Last()
    ensures reported <==> exists id :: StagingRecovery(env, d.files, id, SlotsOf(d, id)).reported
    ensures |m.items| <= env.maxItems
  {
    forall id
      ensures SlotsOf(m, id) == StagingRecovery(env, d.files, id, SlotsOf(d, id)).Last()
      ensures NoLarger(SlotsOf(m, id), SlotsOf(d, id))
    {
      assert SlotsOf(d1, id) == SlotsOf(d, id);
      assert id in StagingPlan(env, d1).ids <==> SlotsOf(d, id).staged.Some?;
      StagingNoLarger(env, d.files, id, SlotsOf(d, id));
    }
    StagingReported(env, d, d1);
    PointwiseQuota(env, d, m);
  }

  lemma {:induction false} StagingReported(env: Env, d: Disk, d1: Disk)
    requires d1.files == d.files && d1.staging == d.staging && d1.items == d.items
    ensures (exists id :: id in StagingPlan(env, d1).ids && StagingPlan(env, d1).of(id).reported) <==>
      exists id :: StagingRecovery(env, d.files, id, SlotsOf(d, id)).reported
  {
    if id :| StagingRecovery(env, d.files, id, SlotsOf(d, id)).reported {
      assert SlotsOf(d1, id) == SlotsOf(d, id);
      assert id in StagingPlan(env, d1).ids && StagingPlan(env, d1).of(id).reported;
    }
    if id :| id in StagingPlan(env, d1).ids && StagingPlan(env, d1).of(id).reported {
      assert SlotsOf(d1, id) == SlotsOf(d, id);
    }
  }

  lemma {:induction false} FormalReported(env: Env, m: Disk)
    ensures (exists id :: id in FormalPlan(env, m).ids && FormalPlan(env, m).of(id).reported) <==>
      exists id :: FormalSlots(env, m.files, id, SlotsOf(m, id)).reported
  {
    if id :| FormalSlots(env, m.files, id, SlotsOf(m, id)).reported {
      assert id in FormalPlan(env, m).ids && FormalPlan(env, m).of(id).reported;
    }
  }

  lemma {:induction false} ItemsThrough(env: Env, d: Disk, m: Disk, e: Disk, reported: bool)
    requires m.files == d.files && e.files == d.files && Through(m, e, FormalPlan(env, m), reported)
    requires forall id :: SlotsOf(m, id) == StagingRecovery(env, d.files, id, SlotsOf(d, id)).Last()
    ensures Passed(env, d, e)
    ensures reported || (exists id :: StagingRecovery(env, d.files, id, SlotsOf(d, id)).reported) <==> EntriesReport(env, d)
  {
    forall id ensures SlotsOf(e, id) == RecoverSlots(env, d.files, id, SlotsOf(d, id)) {
      assert id in FormalPlan(env, m).ids <==> SlotsOf(m, id).item.Some?;
    }
    FormalReported(env, m);
    forall id ensures ReportsSlots(env, d.files, id, SlotsOf(d, id)) <==>
      StagingRecovery(env, d.files, id, SlotsOf(d, id)).reported || FormalSlots(env, m.files, id, SlotsOf(m, id)).reported
    {
    }
  }

  /** Recovery never lets the items exceed the quotas. */
  lemma {:induction false} RefusedOverLimit(env: Env, d: Disk, e: Disk)
    requires Interrupted(env, d, e) && |e.items| > env.maxItems
    ensures !Quota(env, d)
  {
    if Quota(env, d) {
      InterruptedQuota(env, d, e);
    }
  }

  /** A bin in which `trash_file` would be accepted but for the inverted report: all that was left to do
      was to remove the empty directory of a crashed purge. */
  lemma {:induction false} InvertedReportRefuses() returns (env: Env, d: Disk, path: Path, id: TrashId)
    ensures path in d.files && CleanPass(env, d, d) && AcceptsTrash(env, d, path, Sha(d.files[path]), id) && Quota(env, d)
    ensures PurgeReports(env, d) && !EntriesReport(env, d)
  {
    env := Env(1, 1, 1, _ => true, _ => true, _ => true);
    path, id := "a", "i";
    d := Disk(map[path := []], map[], map[], map["p" := EMPTY_DIRECTORY]);
    assert "p" in d.purging && !d.purging["p"].temp;
    assert d.items.Keys == {} && d.staging.Keys == {};
    forall j ensures SlotsOf(d, j) == Slots(None, None) {
    }
  }

  datatype FileName = PayloadFile | MetadataFile | IntentFile

  function Unlinked(item: Item, name: FileName): Item {
    match name
    case PayloadFile => item.(payload := None)
    case MetadataFile => item.(meta := None)
    case IntentFile => item.(intent := None)
  }

  /** Of one directory in purging all known files but `names` are gone. */
  ghost predicate Unlinking(d: Disk, e: Disk, id: TrashId, names: set<FileName>) {
    && e.files == d.files && e.staging == d.staging && e.items == d.items
    && (forall j :: j != id ==> Lookup(e.purging, j) == Lookup(d.purging, j))
    && id in e.purging && id in d.purging && Cleaned(Some(d.purging[id]), Some(e.purging[id]))
    && (forall name :: name !in names ==> Unlinked(e.purging[id], name) == e.purging[id])
  }

  lemma {:induction false} NothingKnownLeft(d: Disk, e: Disk, id: TrashId)
    requires Unlinking(d, e, id, {})
    ensures e.purging[id] == EMPTY_DIRECTORY.(temp := d.purging[id].temp)
  {
    var item := e.purging[id];
    assert Unlinked(item, PayloadFile) == item && Unlinked(item, MetadataFile) == item && Unlinked(item, IntentFile) == item;
  }

  /** A phase in progress: the ids not in `todo` are through with their plan, the others untouched. */
  ghost predicate Underway(d: Disk, e: Disk, plan: Plan, todo: set<TrashId>, reported: bool) {
    && e.files == d.files && e.purging == d.purging
    && (forall id :: id in plan.ids ==> plan.of(id).states != [])
    && (forall id :: SlotsOf(e, id) == if id in plan.ids && id !in todo then plan.of(id).Last() else SlotsOf(d, id))
    && (reported <==> exists id :: id in plan.ids && id !in todo && plan.of(id).reported)
  }

  /** The outcome of a phase: every id somewhere in its plan, and without crash or report at its end. */
  ghost predicate Phase(d: Disk, e: Disk, plan: Plan, alive: bool, reported: bool) {
    && e.files == d.files && e.purging == d.purging
    && (forall id :: id in plan.ids ==> plan.of(id).states != [])
    && (forall id :: SlotsOf(e, id) == SlotsOf(d, id) ||
                     (id in plan.ids && SlotsOf(e, id) in plan.of(id).states && (alive ==> SlotsOf(e, id) == plan.of(id).Last())))
    && (alive && !reported ==> forall id :: id in plan.ids ==> SlotsOf(e, id) == plan.of(id).Last() && !plan.of(id).reported)
  }

  ghost function StagingPlan(env: Env, d: Disk): Plan {
    Plan(d.staging.Keys, id => StagingRecovery(env, d.files, id, SlotsOf(d, id)))
  }

  ghost function FormalPlan(env: Env, d: Disk): Plan {
    Plan(d.items.Keys, id => FormalSlots(env, d.files, id, SlotsOf(d, id)))
  }

  /** Every planned id is at its end, no other id moved, and what is reported is what some plan reports. */
  ghost predicate Through(d: Disk, e: Disk, plan: Plan, reported: bool)
    requires forall id :: id in plan.ids ==> plan.of(id).states != []
  {
    && (forall id :: SlotsOf(e, id) == if id in plan.ids then plan.of(id).Last() else SlotsOf(d, id))
    && (reported <==> exists id :: id in plan.ids && plan.of(id).reported)
  }

  /** An id still to be treated is as it was, so its plan is what its recovery does now. */
  lemma {:induction false} UntouchedPlans(env: Env, d: Disk, e: Disk, plan: Plan, todo: set<TrashId>, id: TrashId, reported: bool)
    requires Underway(d, e, plan, todo, reported) && id in todo
    ensures SlotsOf(e, id) == SlotsOf(d, id) && e.files == d.files
    ensures id in e.staging <==> id in d.staging
    ensures id in e.items <==> id in d.items
    ensures id in d.staging ==> StagingPlan(env, d).of(id) == StagingRecovery(env, e.files, id, SlotsOf(e, id))
    ensures id in d.items ==> FormalPlan(env, d).of(id) == FormalSlots(env, e.files, id, SlotsOf(e, id))
  {
    assert SlotsOf(e, id) == SlotsOf(d, id);
    assert id in e.staging <==> SlotsOf(e, id).staged.Some?;
    assert id in e.items <==> SlotsOf(e, id).item.Some?;
  }

  lemma {:induction false} UnderwayEnds(d: Disk, e: Disk, plan: Plan, todo: set<TrashId>, reported: bool)
    requires Underway(d, e, plan, todo, reported)
    ensures Phase(d, e, plan, true, reported || todo != {})
    ensures todo == {} ==> Through(d, e, plan, reported)
  {
  }

  lemma {:induction false} UnderwayStep(d: Disk, before: Disk, after: Disk, plan: Plan, todo: set<TrashId>, id: TrashId,
                                        reported: bool, alive: bool, report: bool)
    requires Underway(d, before, plan, todo, reported) && id in todo && id in plan.ids
    requires WentAlong(before, after, id, plan.of(id), alive, report)
    ensures alive ==> Underway(d, after, plan, todo - {id}, reported || report)
    ensures !alive ==> Phase(d, after, plan, false, reported || report)
  {
    var k :| 0 <= k < |plan.of(id).states| && OnlySlots(before, after, id, plan.of(id).states[k]) && (alive ==> k == |plan.of(id).states| - 1);
    forall j | j != id ensures SlotsOf(after, j) == SlotsOf(before, j) {
    }
  }
}
