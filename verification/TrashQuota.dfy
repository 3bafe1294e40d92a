/** The quotas hold in every run, whatever crashes. */
module TrashQuota {
  import opened Trash
  import opened Wrappers
  import opened TrashSafety

  ghost function Room(i: Option<Item>): nat {
    if i.Some? && i.value.payload.Some? then |i.value.payload.value| else 0
  }

  ghost function Payloads(m: map<TrashId, Item>): TrashId -> nat {
    id => Room(Lookup(m, id))
  }

  ghost function PayloadBytes(m: map<TrashId, Item>): nat {
    Sum(m.Keys, Payloads(m))
  }

  /** Entries in staging and items, and their payload bytes, within the settings. */
  ghost predicate Quota(env: Env, d: Disk) {
    && |d.staging| + |d.items| <= env.maxItems
    && PayloadBytes(d.staging) + PayloadBytes(d.items) <= env.maxBytes
  }

  // ----- Sums

  lemma {:induction false} SumPick(ids: set<TrashId>, w: TrashId -> nat, x: TrashId)
    requires x in ids
    ensures Sum(ids, w) == w(x) + Sum(ids - {x}, w)
    decreases ids
  {
    var y :| y in ids && Sum(ids, w) == w(y) + Sum(ids - {y}, w);
    if x != y {
      SumPick(ids - {y}, w, x);
      SumPick(ids - {x}, w, y);
      assert ids - {y} - {x} == ids - {x} - {y};
    }
  }

  lemma {:induction false} SumLe(ids: set<TrashId>, v: TrashId -> nat, w: TrashId -> nat)
    requires forall x :: x in ids ==> v(x) <= w(x)
    ensures Sum(ids, v) <= Sum(ids, w)
    decreases ids
  {
    if x :| x in ids {
      SumPick(ids, v, x);
      SumPick(ids, w, x);
      SumLe(ids - {x}, v, w);
    }
  }

  lemma {:induction false} SumPlus(ids: set<TrashId>, v: TrashId -> nat, w: TrashId -> nat, u: TrashId -> nat)
    requires forall x :: x in ids ==> u(x) == v(x) + w(x)
    ensures Sum(ids, u) == Sum(ids, v) + Sum(ids, w)
    decreases ids
  {
    if x :| x in ids {
      SumPick(ids, u, x);
      SumPick(ids, v, x);
      SumPick(ids, w, x);
      SumPlus(ids - {x}, v, w, u);
    }
  }

  /** Ids without weight do not count. */
  lemma {:induction false} SumWiden(ids: set<TrashId>, more: set<TrashId>, w: TrashId -> nat)
    requires ids <= more && forall x :: x in more - ids ==> w(x) == 0
    ensures Sum(ids, w) == Sum(more, w)
    decreases more
  {
    if more <= ids {
      assert ids == more;
    } else {
      var x :| x in more && x !in ids;
      SumPick(more, w, x);
      SumWiden(ids, more - {x}, w);
    }
  }

  ghost function Present(m: map<TrashId, Item>): TrashId -> nat {
    id => if id in m then 1 else 0
  }

  lemma {:induction false} SumCounts(ids: set<TrashId>, m: map<TrashId, Item>)
    requires ids <= m.Keys
    ensures Sum(ids, Present(m)) == |ids|
    decreases ids
  {
    if x :| x in ids {
      SumPick(ids, Present(m), x);
      SumCounts(ids - {x}, m);
    }
  }

  // ----- Recovery never takes more room

  ghost function Entries(d: Disk): TrashId -> nat {
    id => (if id in d.staging then 1 else 0) + (if id in d.items then 1 else 0)
  }

  ghost function Bytes(d: Disk): TrashId -> nat {
    id => Room(Lookup(d.staging, id)) + Room(Lookup(d.items, id))
  }

  lemma {:induction false} TotalsOver(d: Disk, ids: set<TrashId>)
    requires d.staging.Keys + d.items.Keys <= ids
    ensures Sum(ids, Entries(d)) == |d.staging| + |d.items|
    ensures Sum(ids, Bytes(d)) == PayloadBytes(d.staging) + PayloadBytes(d.items)
  {
    SumWiden(d.staging.Keys, ids, Present(d.staging));
    SumWiden(d.items.Keys, ids, Present(d.items));
    SumCounts(d.staging.Keys, d.staging);
    SumCounts(d.items.Keys, d.items);
    assert |d.staging.Keys| == |d.staging| && |d.items.Keys| == |d.items|;
    SumPlus(ids, Present(d.staging), Present(d.items), Entries(d));
    SumWiden(d.staging.Keys, ids, Payloads(d.staging));
    SumWiden(d.items.Keys, ids, Payloads(d.items));
    SumPlus(ids, Payloads(d.staging), Payloads(d.items), Bytes(d));
  }

  ghost predicate NoLarger(t: Slots, s: Slots) {
    && (if t.staged.Some? then 1 else 0) + (if t.item.Some? then 1 else 0) <=
       (if s.staged.Some? then 1 else 0) + (if s.item.Some? then 1 else 0)
    && Room(t.staged) + Room(t.item) <= Room(s.staged) + Room(s.item)
  }

  lemma {:induction false} PartwayNoLarger(env: Env, files: map<Path, Content>, id: TrashId, s: Slots, t: Slots)
    requires Partway(env, files, id, s, t)
    ensures NoLarger(t, s)
  {
    StagingNoLarger(env, files, id, s);
    FormalNoLarger(env, files, id, s);
    FormalNoLarger(env, files, id, StagingRecovery(env, files, id, s).Last());
  }

  lemma {:induction false} StagingNoLarger(env: Env, files: map<Path, Content>, id: TrashId, s: Slots)
    ensures forall t :: t in StagingRecovery(env, files, id, s).states ==> NoLarger(t, s)
  {
  }

  lemma {:induction false} FormalNoLarger(env: Env, files: map<Path, Content>, id: TrashId, s: Slots)
    ensures forall t :: t in FormalSlots(env, files, id, s).states ==> NoLarger(t, s)
  {
    if s.item.Some? {
      var states := FormalRecovery(env, files, id, s.item.value).states;
      forall k | 0 <= k < |states| ensures Room(states[k]) <= Room(s.item) {
        ItemNoLarger(env, files, id, s.item.value, k);
      }
    }
  }

  lemma {:induction false} ItemNoLarger(env: Env, files: map<Path, Content>, id: TrashId, item: Item, k: nat)
    requires k < |FormalRecovery(env, files, id, item).states|
    ensures Room(FormalRecovery(env, files, id, item).states[k]) <= Room(Some(item))
  {
  }

  /** A disk whose ids are each no larger takes no more room in all. */
  lemma {:induction false} PointwiseQuota(env: Env, d: Disk, e: Disk)
    requires Quota(env, d) && forall id :: NoLarger(SlotsOf(e, id), SlotsOf(d, id))
    ensures Quota(env, e)
  {
    var ids := d.staging.Keys + d.items.Keys + e.staging.Keys + e.items.Keys;
    TotalsOver(d, ids);
    TotalsOver(e, ids);
    PointwiseTotals(d, e, ids);
  }

  lemma {:induction false} PointwiseTotals(d: Disk, e: Disk, ids: set<TrashId>)
    requires forall id :: NoLarger(SlotsOf(e, id), SlotsOf(d, id))
    ensures Sum(ids, Entries(e)) <= Sum(ids, Entries(d)) && Sum(ids, Bytes(e)) <= Sum(ids, Bytes(d))
  {
    forall id ensures Entries(e)(id) <= Entries(d)(id) && Bytes(e)(id) <= Bytes(d)(id) {
      assert NoLarger(SlotsOf(e, id), SlotsOf(d, id));
    }
    SumLe(ids, Entries(e), Entries(d));
    SumLe(ids, Bytes(e), Bytes(d));
  }

  lemma {:induction false} InterruptedQuota(env: Env, d: Disk, e: Disk)
    requires Quota(env, d) && Interrupted(env, d, e)
    ensures Quota(env, e)
  {
    forall id ensures NoLarger(SlotsOf(e, id), SlotsOf(d, id)) {
      PartwayNoLarger(env, d.files, id, SlotsOf(d, id), SlotsOf(e, id));
    }
    PointwiseQuota(env, d, e);
  }

  // ----- Trashing stays within the quotas

  /** A pass without reports leaves nothing in staging. */
  lemma {:induction false} CleanEmptiesStaging(env: Env, d: Disk, e: Disk)
    requires CleanPass(env, d, e)
    ensures e.staging == map[]
  {
    forall id ensures id !in e.staging {
      assert !ReportsSlots(env, d.files, id, SlotsOf(d, id));
      assert SlotsOf(e, id) == RecoverSlots(env, d.files, id, SlotsOf(d, id));
      CleanUnstages(env, d.files, id, SlotsOf(d, id));
    }
  }

  lemma {:induction false} CleanUnstages(env: Env, files: map<Path, Content>, id: TrashId, s: Slots)
    requires !ReportsSlots(env, files, id, s)
    ensures RecoverSlots(env, files, id, s).staged.None?
  {
  }

  lemma {:induction false} ClaimedMore(d: Disk, path: Path, id: TrashId)
    requires path in d.files && id !in d.items
    ensures var e := TrashStep(d, path, id, 5);
      |e.items| == |d.items| + 1 && ClaimedBytes(e.items) == ClaimedBytes(d.items) + |d.files[path]|
  {
    CompletedTrash(d, path, id);
    var content := d.files[path];
    ClaimsAdded(d.items, id, Item(Some(Meta(id, path, Sha(content), |content|)), Some(content), None, false));
  }

  lemma {:induction false} ClaimsAdded(m: map<TrashId, Item>, id: TrashId, item: Item)
    requires id !in m && item.meta.Some?
    ensures |m[id := item]| == |m| + 1 && ClaimedBytes(m[id := item]) == ClaimedBytes(m) + item.meta.value.size
  {
    var n := m[id := item];
    assert n.Keys - {id} == m.Keys;
    SumPick(n.Keys, Claims(n), id);
    SumLe(m.Keys, Claims(m), Claims(n));
    SumLe(m.Keys, Claims(n), Claims(m));
    SizeAdded(m, id, item);
  }

  lemma {:induction false} SizeAdded(m: map<TrashId, Item>, id: TrashId, item: Item)
    requires id !in m
    ensures |m[id := item]| == |m| + 1
  {
    assert m[id := item].Keys == m.Keys + {id};
  }

  /** A file is accepted when it is the one expected, every record can be read, the id is new, and the bin is within its
      two limits afterwards: it may be filled up to both of them. */
  lemma {:induction false} TrashFillsUp(env: Env, d: Disk, path: Path, expected: Digest, id: TrashId)
    ensures AcceptsTrash(env, d, path, expected, id) <==>
      && path in d.files && env.opens(path) && |d.files[path]| <= env.maxFile && d.files[path] == expected.of
      && (forall j :: j in d.items ==> ReadsRecord(env, d.items[j], j)) && id !in d.items && id !in d.staging
      && |TrashStep(d, path, id, 5).items| <= env.maxItems && ClaimedBytes(TrashStep(d, path, id, 5).items) <= env.maxBytes
  {
    if path in d.files && id !in d.items {
      ClaimedMore(d, path, id);
    }
  }

  lemma {:induction false} TrashWithinQuota(env: Env, d: Disk, path: Path, expected: Digest, id: TrashId, k: nat)
    requires d.staging == map[] && AcceptsTrash(env, d, path, expected, id) && k < 6 && Quota(env, d)
    ensures Quota(env, TrashStep(d, path, id, k))
  {
    ClaimedIsPayload(env, d);
    var entry := TrashAdds(d, path, id, k);
    if 0 < k < 5 {
      StagedQuota(env, d, TrashStep(d, path, id, k), id, entry);
    } else if k == 5 {
      PublishedQuota(env, d, TrashStep(d, path, id, k), id, entry);
    }
  }

  lemma {:induction false} StagedQuota(env: Env, d: Disk, e: Disk, id: TrashId, entry: Item)
    requires d.staging == map[] && |d.items| < env.maxItems && PayloadBytes(d.items) + Room(Some(entry)) <= env.maxBytes
    requires e.items == d.items && e.staging == d.staging[id := entry]
    ensures Quota(env, e)
  {
    AddedBytes(d.staging, id, entry);
    assert PayloadBytes(d.staging) == 0;
  }

  lemma {:induction false} PublishedQuota(env: Env, d: Disk, e: Disk, id: TrashId, entry: Item)
    requires d.staging == map[] && |d.items| < env.maxItems && PayloadBytes(d.items) + Room(Some(entry)) <= env.maxBytes
    requires id !in d.items && e.staging == d.staging && e.items == d.items[id := entry]
    ensures Quota(env, e)
  {
    AddedBytes(d.items, id, entry);
    assert PayloadBytes(d.staging) == 0;
  }

  lemma {:induction false} TrashAdds(d: Disk, path: Path, id: TrashId, k: nat) returns (entry: Item)
    requires path in d.files && k < 6
    ensures var e := TrashStep(d, path, id, k);
      && Room(Some(entry)) <= |d.files[path]|
      && (k == 0 ==> e == d)
      && (0 < k < 5 ==> e.items == d.items && e.staging == d.staging[id := entry])
      && (k == 5 ==> e.staging == d.staging && e.items == d.items[id := entry])
  {
    var e := TrashStep(d, path, id, k);
    entry := if k == 0 then EMPTY_DIRECTORY else if k == 5 then e.items[id] else e.staging[id];
  }

  lemma {:induction false} AddedBytes(m: map<TrashId, Item>, id: TrashId, item: Item)
    requires id !in m
    ensures PayloadBytes(m[id := item]) == PayloadBytes(m) + Room(Some(item))
    ensures |m[id := item]| == |m| + 1
  {
    var n := m[id := item];
    assert n.Keys - {id} == m.Keys;
    SumPick(n.Keys, Payloads(n), id);
    SumLe(m.Keys, Payloads(m), Payloads(n));
    SumLe(m.Keys, Payloads(n), Payloads(m));
  }

  lemma {:induction false} ClaimedIsPayload(env: Env, d: Disk)
    requires forall j :: j in d.items ==> ReadsRecord(env, d.items[j], j)
    ensures ClaimedBytes(d.items) == PayloadBytes(d.items)
  {
    SumLe(d.items.Keys, Claims(d.items), Payloads(d.items));
    SumLe(d.items.Keys, Payloads(d.items), Claims(d.items));
  }

  // ----- Every call, every run

  lemma {:induction false} CallKeepsQuota(env: Env, d: Disk, e: Disk)
    requires Quota(env, d) && Calls(env, d, e)
    ensures Quota(env, e)
  {
    if Interrupted(env, d, e) {
      InterruptedQuota(env, d, e);
    } else if exists x, path, expected, id, k :: TrashMove(env, d, x, path, expected, id, k, e) {
      var x, path, expected, id, k :| TrashMove(env, d, x, path, expected, id, k, e);
      PassedIsInterrupted(env, d, x);
      InterruptedQuota(env, d, x);
      CleanEmptiesStaging(env, d, x);
      TrashWithinQuota(env, x, path, expected, id, k);
    } else if exists x, id, expected, destination, k :: RestoreMove(env, d, x, id, expected, destination, k, e) {
      var x, id, expected, destination, k :| RestoreMove(env, d, x, id, expected, destination, k, e);
      InterruptedQuota(env, d, x);
      RestoreNoLarger(env, x, id, expected, destination, k);
      PointwiseQuota(env, x, e);
    } else {
      var id :| Purges(env, d, id, e);
      var x, expected :| PurgeMove(env, d, x, id, expected, e);
      InterruptedQuota(env, d, x);
      PurgeNoLarger(env, d, x, id, expected, e);
      PointwiseQuota(env, x, e);
    }
  }

  lemma {:induction false} RestoreNoLarger(env: Env, d: Disk, id: TrashId, expected: Digest, destination: Path, k: nat)
    requires AcceptsRestore(env, d, id, expected, destination) && k < 8
    ensures forall j :: NoLarger(SlotsOf(RestoreStep(d, id, destination, k), j), SlotsOf(d, j))
  {
    var e := RestoreStep(d, id, destination, k);
    forall j ensures NoLarger(SlotsOf(e, j), SlotsOf(d, j)) {
      assert e.staging == d.staging;
      if j != id {
        assert Lookup(e.items, j) == Lookup(d.items, j);
      }
    }
  }

  lemma {:induction false} PurgeNoLarger(env: Env, d: Disk, x: Disk, id: TrashId, expected: Digest, e: Disk)
    requires PurgeMove(env, d, x, id, expected, e)
    ensures forall j :: NoLarger(SlotsOf(e, j), SlotsOf(x, j))
  {
  }

  lemma {:induction false} RunEnds(env: Env, run: seq<Disk>)
    requires Run(env, run) && |run| > 1
    ensures Run(env, run[..|run| - 1]) && Calls(env, run[|run| - 2], run[|run| - 1])
  {
  }

  /** With fixed settings, entries and payload bytes never exceed the limits in any run. */
  lemma {:induction false} QuotaHolds(env: Env, run: seq<Disk>)
    requires Run(env, run) && Quota(env, run[0])
    ensures Quota(env, run[|run| - 1])
  {
    if |run| > 1 {
      var front := run[..|run| - 1];
      RunEnds(env, run);
      QuotaHolds(env, front);
      CallKeepsQuota(env, front[|front| - 1], run[|run| - 1]);
    }
  }
}
