/** The ephemeral artifact store: executions in least-recently-used order, an index of their
    artifacts, the files on disk and a byte counter, all kept in step. */
module ArtifactStores {
  import opened LruOrder
  import opened Wrappers

  type Byte = bv8
  type Digest = string

  datatype Record = Record(id: string, executionId: string, name: string, size: nat, sha: Digest, createdAt: real)

  /** An artifact copied into the store's directory but not published yet. */
  datatype Pending = Pending(id: string, name: string, content: seq<Byte>, sha: Digest, createdAt: real)

  type Executions = seq<Slot<seq<Record>>>

  datatype Error = AlreadyAdmitted | ExceedsCapacity | PublishFailed | Miss | TooLarge

  datatype Outcome<+T> = Success(value: T) | Failure(error: Error)

  const MAX_RESOURCE_BYTES := 16 * 1024 * 1024

  function Published(executionId: string, p: Pending): Record {
    Record(p.id, executionId, p.name, |p.content|, p.sha, p.createdAt)
  }

  /** The record tells which execution the artifact belongs to, its name, its length, its digest and its age. */
  predicate Describes(executionId: string, p: Pending, r: Record) {
    r.id == p.id && r.executionId == executionId && r.name == p.name && r.size == |p.content| && r.sha == p.sha && r.createdAt == p.createdAt
  }

  function PublishedAll(executionId: string, pending: seq<Pending>): (r: seq<Record>)
    ensures |r| == |pending|
  {
    seq(|pending|, i requires 0 <= i < |pending| => Published(executionId, pending[i]))
  }

  function Sizes(pending: seq<Pending>): nat {
    if pending == [] then 0 else Sizes(pending[..|pending| - 1]) + |pending[|pending| - 1].content|
  }

  function RecordBytes(records: seq<Record>): nat {
    if records == [] then 0 else RecordBytes(records[..|records| - 1]) + records[|records| - 1].size
  }

  // ----- What the index says

  /** The execution `e` has the artifact `r`. */
  ghost predicate Has(executions: Executions, e: string, r: Record) {
    exists s :: s in executions && s.id == e && r in s.value
  }

  ghost predicate IndexedAt(executions: Executions, index: map<string, (string, Record)>, files: map<string, seq<Byte>>, a: string) {
    && (a in index <==> a in files)
    && (a in index ==> Has(executions, index[a].0, index[a].1) && index[a].1.id == a && index[a].1.size == |files[a]|)
  }

  ghost predicate Lists(index: map<string, (string, Record)>, e: string, r: Record) {
    r.id in index && index[r.id] == (e, r)
  }

  /** Index, executions and files describe the same artifacts. */
  ghost predicate Indexed(executions: Executions, index: map<string, (string, Record)>, files: map<string, seq<Byte>>) {
    && (forall a :: IndexedAt(executions, index, files, a))
    && (forall e, r :: Has(executions, e, r) ==> Lists(index, e, r))
  }

  ghost predicate Counted(s: Slot<seq<Record>>) {
    s.size == RecordBytes(s.value)
  }

  /** Files were at most removed: those that are left hold what they held. */
  ghost predicate KeptFiles(before: map<string, seq<Byte>>, after: map<string, seq<Byte>>) {
    forall a :: a in after ==> a in before && after[a] == before[a]
  }

  /** Every file holds what it held, or is new and holds what was pending for it. */
  ghost predicate AddedFiles(before: map<string, seq<Byte>>, after: map<string, seq<Byte>>, pending: seq<Pending>) {
    forall a :: a in after ==> (a in before && after[a] == before[a]) || (a !in before && exists p :: p in pending && p.id == a && p.content == after[a])
  }

  class EphemeralArtifactStore {
    const maxExecutions: nat
    const maxBytes: nat
    const ttl: real
    var executions: Executions
    var index: map<string, (string, Record)>
    var files: map<string, seq<Byte>>
    var totalBytes: nat

    ghost predicate Aligned()
      reads this
    {
      && Unique(executions) && Indexed(executions, index, files) && totalBytes == Total(executions)
      && forall s :: s in executions ==> Counted(s)
    }

    ghost predicate Valid()
      reads this
    {
      Aligned() && |executions| <= maxExecutions && totalBytes <= maxBytes
    }

    constructor (maxExecutions: nat, maxBytes: nat, ttl: real)
      requires maxExecutions > 0 && maxBytes > 0 && ttl > 0.0
      ensures Valid() && executions == [] && this.maxExecutions == maxExecutions && this.maxBytes == maxBytes && this.ttl == ttl
    {
      this.maxExecutions, this.maxBytes, this.ttl := maxExecutions, maxBytes, ttl;
      executions, index, files, totalBytes := [], map[], map[], 0;
    }

    /** `_remove_execution_locked`. */
    method Remove(id: string)
      requires Aligned() && Holds(executions, id)
      modifies this
      ensures Aligned() && executions == Keep(old(executions), {id}) && |executions| + 1 == |old(executions)|
      ensures totalBytes <= old(totalBytes) && index.Keys <= old(index).Keys && KeptFiles(old(files), files)
    {
      var slot := Find(executions, id);
      ghost var indexBefore, filesBefore := index, files;
      TotalWithout(executions, id);
      totalBytes := totalBytes - slot.size;
      assert RecordIds(slot.value[..0]) == {};
      for i := 0 to |slot.value|
        invariant executions == old(executions) && totalBytes + slot.size == old(totalBytes)
        invariant index == indexBefore - RecordIds(slot.value[..i]) && files == filesBefore - RecordIds(slot.value[..i])
      {
        RecordIdsSnoc(slot.value, i);
        index := index - {slot.value[i].id};
        files := files - {slot.value[i].id};
      }
      assert slot.value[..|slot.value|] == slot.value;
      RemovedIndexed(executions, indexBefore, filesBefore, id);
      KeptCounted(executions, {id});
      executions := Keep(executions, {id});
    }

    /** `_evict_expired_locked`. */
    method EvictExpired(now: real)
      requires Aligned()
      modifies this
      ensures Aligned() && executions == Alive(old(executions), now)
      ensures totalBytes <= old(totalBytes) && |executions| <= |old(executions)| && index.Keys <= old(index).Keys && KeptFiles(old(files), files)
    {
      ghost var before := executions;
      var expired := Expired(executions, now);
      NothingGone(before);
      assert expired[..0] == [];
      for i := 0 to |expired|
        invariant Aligned() && executions == Keep(before, Ids(expired[..i]))
        invariant totalBytes <= old(totalBytes) && |executions| <= |before| && index.Keys <= old(index).Keys && KeptFiles(old(files), files)
      {
        StillHeld(before, now, i);
        Remove(expired[i]);
      }
      assert expired[..|expired|] == expired;
      AllExpired(before, now);
    }

    /** Whole executions go, least recently used first, and no more of them than needed. */
    method MakeRoom(size: nat) returns (ghost dropped: nat)
      requires Aligned() && size <= maxBytes && maxExecutions > 0
      modifies this
      ensures Aligned() && Fits(executions, size, maxExecutions, maxBytes) && index.Keys <= old(index).Keys && KeptFiles(old(files), files)
      ensures Minimal(old(executions), dropped, size, maxExecutions, maxBytes) && executions == old(executions)[dropped..]
    {
      ghost var before := executions;
      dropped := 0;
      ShrinkStart(before, size, maxExecutions, maxBytes);
      while |executions| >= maxExecutions || totalBytes + size > maxBytes
        invariant Aligned() && index.Keys <= old(index).Keys && KeptFiles(old(files), files)
        invariant Shrunk(before, executions, dropped, size, maxExecutions, maxBytes)
        decreases |executions|
      {
        ShrinkStep(before, executions, dropped, size, maxExecutions, maxBytes);
        Remove(executions[0].id);
        dropped := dropped + 1;
      }
      ShrunkFits(before, executions, dropped, size, maxExecutions, maxBytes);
    }

    /** The publishing half of `collect`; `renames(i)` says whether the i-th rename succeeds. */
    method Publish(executionId: string, pending: seq<Pending>, owner: Option<string>, now: real, renames: nat -> bool)
      returns (r: Outcome<seq<Record>>, ghost dropped: nat)
      requires Valid() && maxExecutions > 0 && Reserved(index, pending)
      modifies this
      ensures Valid()
      ensures var (alive, size) := (Alive(old(executions), now), Sizes(pending));
        if Holds(alive, executionId) then r == Failure(AlreadyAdmitted) && executions == alive
        else if size > maxBytes then r == Failure(ExceedsCapacity) && executions == alive
        else
          && Minimal(alive, dropped, size, maxExecutions, maxBytes)
          && (r.Success? <==> forall i :: 0 <= i < |pending| ==> renames(i))
          && (if r.Success? then executions == alive[dropped..] + [Slot(executionId, size, now + ttl, owner, PublishedAll(executionId, pending))]
              else executions == alive[dropped..])
      ensures r.Success? ==> r.value == PublishedAll(executionId, pending) && forall p :: p in pending ==> p.id in files && files[p.id] == p.content
      ensures if r.Success? then AddedFiles(old(files), files, pending) else KeptFiles(old(files), files)
      ensures r.Success? ==> |r.value| == |pending| && forall i :: 0 <= i < |pending| ==> Describes(executionId, pending[i], r.value[i])
    {
      EvictExpired(now);
      dropped := 0;
      if Holds(executions, executionId) {
        return Failure(AlreadyAdmitted), 0;
      }
      var size := Sizes(pending);
      if size > maxBytes {
        return Failure(ExceedsCapacity), 0;
      }
      ghost var alive, filesBefore := executions, old(files);
      ReservedFiles(old(executions), old(index), filesBefore, pending);
      dropped := MakeRoom(size);
      ghost var filesKept := files;
      NotHeldLater(alive, dropped, executionId);
      for i := 0 to |pending|
        invariant forall j :: 0 <= j < i ==> renames(j)
      {
        if !renames(i) {
          return Failure(PublishFailed), dropped;
        }
      }
      Admit(executionId, pending, owner, now);
      AddedBehindKept(filesBefore, filesKept, files, pending);
      return Success(PublishedAll(executionId, pending)), dropped;
    }

    /** The last step of `collect`: execution, counter and index entries are added. */
    method Admit(executionId: string, pending: seq<Pending>, owner: Option<string>, now: real)
      requires Aligned() && !Holds(executions, executionId) && Reserved(index, pending)
      requires Fits(executions, Sizes(pending), maxExecutions, maxBytes)
      modifies this
      ensures Valid()
      ensures executions == old(executions) + [Slot(executionId, Sizes(pending), now + ttl, owner, PublishedAll(executionId, pending))]
      ensures forall p :: p in pending ==> p.id in files && files[p.id] == p.content
      ensures AddedFiles(old(files), files, pending)
    {
      var slot := Slot(executionId, Sizes(pending), now + ttl, owner, PublishedAll(executionId, pending));
      ghost var indexBefore, filesBefore := index, files;
      ReservedFiles(executions, index, files, pending);
      SlotCounted(executionId, pending);
      TotalSnoc(executions, slot);
      AdmittedUnique(executions, slot);
      AdmittedIndexed(executions, index, files, slot, pending);
      FilesAdded(filesBefore, pending);
      Enlist(executionId, pending);
      executions, totalBytes := executions + [slot], totalBytes + slot.size;
    }

    /** The loop over the published artifacts: each gets its file and its index entry. */
    method Enlist(executionId: string, pending: seq<Pending>)
      modifies this`index, this`files
      ensures index == IndexWith(old(index), executionId, pending) && files == FilesWith(old(files), pending)
    {
      assert pending[..0] == [];
      for i := 0 to |pending|
        invariant index == IndexWith(old(index), executionId, pending[..i]) && files == FilesWith(old(files), pending[..i])
      {
        assert pending[..i + 1][..i] == pending[..i];
        index := index[pending[i].id := (executionId, Published(executionId, pending[i]))];
        files := files[pending[i].id := pending[i].content];
      }
      assert pending[..|pending|] == pending;
    }

    /** `list_execution`: nothing for another owner; otherwise the execution becomes the most recent. */
    method ListExecution(executionId: string, owner: Option<string>, now: real) returns (r: seq<Record>)
      requires Valid()
      modifies this
      ensures Valid()
      ensures var alive := Alive(old(executions), now);
        if Holds(alive, executionId) && Find(alive, executionId).owner == owner
        then r == Find(alive, executionId).value && executions == Touched(alive, executionId)
        else r == [] && executions == alive
      ensures KeptFiles(old(files), files)
    {
      EvictExpired(now);
      if !Holds(executions, executionId) || Find(executions, executionId).owner != owner {
        return [];
      }
      r := Find(executions, executionId).value;
      Touch(executionId);
    }

    /** `read`: the bytes of an artifact of a live execution of this owner. A malformed id is refused before
        anything expires. */
    method ReadArtifact(artifactId: string, owner: Option<string>, now: real, wellFormed: string -> bool) returns (r: Outcome<seq<Byte>>)
      requires Valid()
      modifies this
      ensures Valid()
      ensures KeptFiles(old(files), files)
      ensures !wellFormed(artifactId) ==> r == Failure(Miss) && executions == old(executions) && index == old(index) && files == old(files)
      ensures r.Success? ==> artifactId in files && r.value == files[artifactId]
      ensures r.Success? ==> exists e, record ::
        Has(Alive(old(executions), now), e, record) && record.id == artifactId && |r.value| == record.size <= MAX_RESOURCE_BYTES &&
        Holds(Alive(old(executions), now), e) && Find(Alive(old(executions), now), e).owner == owner && executions == Touched(Alive(old(executions), now), e)
      ensures r.Failure? && wellFormed(artifactId) ==> executions == Alive(old(executions), now)
      ensures r == Failure(Miss) && wellFormed(artifactId) ==> forall e, record :: Has(executions, e, record) && record.id == artifactId ==>
        Holds(executions, e) && Find(executions, e).owner != owner
    {
      if !wellFormed(artifactId) {
        return Failure(Miss);
      }
      EvictExpired(now);
      assert IndexedAt(executions, index, files, artifactId);
      if artifactId !in index {
        MissesEverywhere(executions, index, files, artifactId);
        return Failure(Miss);
      }
      var (executionId, record) := index[artifactId];
      HasHolds(executions, executionId, record);
      OnlyOwner(executions, index, files, artifactId);
      if Find(executions, executionId).owner != owner {
        return Failure(Miss);
      }
      if record.size > MAX_RESOURCE_BYTES {
        return Failure(TooLarge);
      }
      var content := files[artifactId];
      ghost var alive := executions;
      Touch(executionId);
      assert Has(alive, executionId, record);
      return Success(content);
    }

    method Touch(id: string)
      requires Valid() && Holds(executions, id)
      modifies this`executions
      ensures Valid() && executions == Touched(old(executions), id)
    {
      TouchedKeeps(executions, id);
      TouchedIndexed(executions, index, files, id);
      executions := Keep(executions, {id}) + [Find(executions, id)];
    }
  }

  // ----- Lemmas about removal

  function RecordIds(records: seq<Record>): set<string> {
    set r | r in records :: r.id
  }

  lemma {:induction false} RecordIdsSnoc(records: seq<Record>, i: nat)
    requires i < |records|
    ensures RecordIds(records[..i + 1]) == RecordIds(records[..i]) + {records[i].id}
  {
    assert records[..i + 1] == records[..i] + [records[i]];
  }

  lemma {:induction false} HasHolds(executions: Executions, e: string, r: Record)
    requires Unique(executions) && Has(executions, e, r)
    ensures Holds(executions, e) && r in Find(executions, e).value
  {
    var s :| s in executions && s.id == e && r in s.value;
    FindUnique(executions, s);
  }

  lemma {:induction false} HasKept(executions: Executions, gone: set<string>, e: string, r: Record)
    ensures Has(Keep(executions, gone), e, r) <==> Has(executions, e, r) && e !in gone
  {
    if s :| s in Keep(executions, gone) && s.id == e && r in s.value {
      Kept(executions, gone, s);
    }
    if s :| s in executions && s.id == e && r in s.value {
      Kept(executions, gone, s);
    }
  }

  lemma {:induction false} RemovedIndexed(executions: Executions, index: map<string, (string, Record)>, files: map<string, seq<Byte>>, id: string)
    requires Unique(executions) && Indexed(executions, index, files) && Holds(executions, id)
    ensures var gone := RecordIds(Find(executions, id).value);
      Indexed(Keep(executions, {id}), index - gone, files - gone)
  {
    var slot := Find(executions, id);
    var gone := RecordIds(slot.value);
    var executionsAfter, indexAfter, filesAfter := Keep(executions, {id}), index - gone, files - gone;
    forall a ensures IndexedAt(executionsAfter, indexAfter, filesAfter, a) {
      assert IndexedAt(executions, index, files, a);
      if a in indexAfter {
        var (e, r) := index[a];
        HasHolds(executions, e, r);
        HasKept(executions, {id}, e, r);
      }
    }
    forall e, r | Has(executionsAfter, e, r) ensures Lists(indexAfter, e, r) {
      HasKept(executions, {id}, e, r);
      assert Lists(index, e, r);
      NotAmong(executions, index, slot, e, r);
    }
  }

  /** An artifact of another execution is not among those removed. */
  lemma {:induction false} NotAmong(executions: Executions, index: map<string, (string, Record)>, slot: Slot<seq<Record>>, e: string, r: Record)
    requires slot in executions && e != slot.id && Lists(index, e, r)
    requires forall f, x :: Has(executions, f, x) ==> Lists(index, f, x)
    ensures r.id !in RecordIds(slot.value)
  {
    forall x | x in slot.value ensures x.id != r.id {
      assert Has(executions, slot.id, x);
      assert Lists(index, slot.id, x);
    }
  }

  lemma {:induction false} KeptCounted(executions: Executions, gone: set<string>)
    requires Unique(executions) && forall s :: s in executions ==> Counted(s)
    ensures Unique(Keep(executions, gone)) && forall s :: s in Keep(executions, gone) ==> Counted(s)
  {
    KeptUnique(executions, gone);
    forall s | s in Keep(executions, gone) ensures Counted(s) {
      Kept(executions, gone, s);
    }
  }

  // ----- Lemmas about admission and use

  predicate Reserved(index: map<string, (string, Record)>, pending: seq<Pending>) {
    && (forall p :: p in pending ==> p.id !in index)
    && (forall i, j :: 0 <= i < j < |pending| ==> pending[i].id != pending[j].id)
  }

  ghost function IndexWith(index: map<string, (string, Record)>, e: string, pending: seq<Pending>): map<string, (string, Record)> {
    if pending == [] then index else
      var last := pending[|pending| - 1];
      IndexWith(index, e, pending[..|pending| - 1])[last.id := (e, Published(e, last))]
  }

  ghost function FilesWith(files: map<string, seq<Byte>>, pending: seq<Pending>): map<string, seq<Byte>> {
    if pending == [] then files else
      var last := pending[|pending| - 1];
      FilesWith(files, pending[..|pending| - 1])[last.id := last.content]
  }

  /** Reserved ids name no file yet. */
  lemma {:induction false} ReservedFiles(executions: Executions, index: map<string, (string, Record)>, files: map<string, seq<Byte>>, pending: seq<Pending>)
    requires Indexed(executions, index, files) && Reserved(index, pending)
    ensures forall p :: p in pending ==> p.id !in files
  {
    forall p | p in pending ensures p.id !in files {
      var k :| 0 <= k < |pending| && pending[k] == p;
      assert IndexedAt(executions, index, files, p.id);
    }
  }

  lemma {:induction false} FilesAdded(files: map<string, seq<Byte>>, pending: seq<Pending>)
    requires forall p :: p in pending ==> p.id !in files
    ensures AddedFiles(files, FilesWith(files, pending), pending)
  {
    if pending != [] {
      var front, last := pending[..|pending| - 1], pending[|pending| - 1];
      FilesAdded(files, front);
      assert pending == front + [last];
    }
  }

  lemma {:induction false} AddedBehindKept(before: map<string, seq<Byte>>, kept: map<string, seq<Byte>>, after: map<string, seq<Byte>>, pending: seq<Pending>)
    requires KeptFiles(before, kept) && AddedFiles(kept, after, pending) && forall p :: p in pending ==> p.id !in before
    ensures AddedFiles(before, after, pending)
  {
    forall a | a in after
      ensures (a in before && after[a] == before[a]) || (a !in before && exists p :: p in pending && p.id == a && p.content == after[a])
    {
      if a !in kept {
        var p :| p in pending && p.id == a && p.content == after[a];
      }
    }
  }

  /** Whatever is published, listed, read or evicted meanwhile: as long as a published artifact is there, its file
      holds the published bytes, which are what a read returns. */
  lemma {:induction false} PublishedStays(run: seq<map<string, seq<Byte>>>, pendings: seq<seq<Pending>>, p: Pending)
    requires |run| == |pendings| + 1
    requires forall k :: 0 <= k < |pendings| ==> AddedFiles(run[k], run[k + 1], pendings[k]) || KeptFiles(run[k], run[k + 1])
    requires p.id in run[0] && run[0][p.id] == p.content && forall k :: 0 <= k < |run| ==> p.id in run[k]
    ensures run[|run| - 1][p.id] == p.content
  {
    if |run| > 1 {
      var n := |pendings| - 1;
      PublishedStays(run[..n + 1], pendings[..n], p);
      assert AddedFiles(run[n], run[n + 1], pendings[n]) || KeptFiles(run[n], run[n + 1]);
    }
  }

  /** The size kept for an execution is the sum of its artifacts' sizes. */
  lemma {:induction false} SlotCounted(e: string, pending: seq<Pending>)
    ensures Sizes(pending) == RecordBytes(PublishedAll(e, pending))
  {
    if pending != [] {
      var front := pending[..|pending| - 1];
      SlotCounted(e, front);
      assert PublishedAll(e, pending)[..|pending| - 1] == PublishedAll(e, front);
    }
  }

  /** Other keys are untouched; the new keys are those of the pending artifacts. */
  lemma {:induction false} IndexWithAt(index: map<string, (string, Record)>, files: map<string, seq<Byte>>, e: string, pending: seq<Pending>, a: string)
    ensures (forall p :: p in pending ==> p.id != a) ==>
      && (a in IndexWith(index, e, pending) <==> a in index) && (a in FilesWith(files, pending) <==> a in files)
      && (a in index ==> IndexWith(index, e, pending)[a] == index[a]) && (a in files ==> FilesWith(files, pending)[a] == files[a])
  {
    if pending != [] {
      IndexWithAt(index, files, e, pending[..|pending| - 1], a);
    }
  }

  lemma {:induction false} IndexWithNew(index: map<string, (string, Record)>, files: map<string, seq<Byte>>, e: string, pending: seq<Pending>, k: nat)
    requires k < |pending| && forall i, j :: 0 <= i < j < |pending| ==> pending[i].id != pending[j].id
    ensures var p := pending[k];
      && p.id in IndexWith(index, e, pending) && IndexWith(index, e, pending)[p.id] == (e, Published(e, p))
      && p.id in FilesWith(files, pending) && FilesWith(files, pending)[p.id] == p.content
    decreases |pending|
  {
    if k < |pending| - 1 {
      IndexWithNew(index, files, e, pending[..|pending| - 1], k);
    }
  }

  lemma {:induction false} AdmittedIndexed(executions: Executions, index: map<string, (string, Record)>, files: map<string, seq<Byte>>,
                                           slot: Slot<seq<Record>>, pending: seq<Pending>)
    requires Indexed(executions, index, files) && Reserved(index, pending) && slot.value == PublishedAll(slot.id, pending)
    ensures Indexed(executions + [slot], IndexWith(index, slot.id, pending), FilesWith(files, pending))
    ensures forall p :: p in pending ==> p.id in FilesWith(files, pending) && FilesWith(files, pending)[p.id] == p.content
  {
    var after, indexAfter, filesAfter := executions + [slot], IndexWith(index, slot.id, pending), FilesWith(files, pending);
    forall p | p in pending
      ensures p.id in indexAfter && indexAfter[p.id] == (slot.id, Published(slot.id, p)) && p.id in filesAfter && filesAfter[p.id] == p.content
    {
      var k :| 0 <= k < |pending| && pending[k] == p;
      IndexWithNew(index, files, slot.id, pending, k);
    }
    forall a ensures IndexedAt(after, indexAfter, filesAfter, a) {
      assert IndexedAt(executions, index, files, a);
      IndexWithAt(index, files, slot.id, pending, a);
      if p :| p in pending && p.id == a {
        var k :| 0 <= k < |pending| && pending[k] == p;
        assert slot.value[k] == Published(slot.id, p);
        assert Has(after, slot.id, Published(slot.id, p));
      } else if a in index {
        assert Has(after, index[a].0, index[a].1);
      }
    }
    forall e, r | Has(after, e, r) ensures Lists(indexAfter, e, r) {
      var s :| s in after && s.id == e && r in s.value;
      if s in executions {
        assert Has(executions, e, r);
        assert Lists(index, e, r);
        IndexWithAt(index, files, slot.id, pending, r.id);
      } else {
        var k :| 0 <= k < |slot.value| && slot.value[k] == r;
        assert pending[k] in pending;
      }
    }
  }

  lemma {:induction false} TouchedKeeps(executions: Executions, id: string)
    requires Unique(executions) && Holds(executions, id) && forall s :: s in executions ==> Counted(s)
    ensures Unique(Touched(executions, id)) && |Touched(executions, id)| == |executions| && Total(Touched(executions, id)) == Total(executions)
    ensures forall s :: s in Touched(executions, id) ==> Counted(s)
  {
    TouchedTotal(executions, id);
    KeptCounted(executions, {id});
  }

  lemma {:induction false} TouchedHas(executions: Executions, id: string, e: string, r: Record)
    requires Unique(executions) && Holds(executions, id)
    ensures Has(Touched(executions, id), e, r) <==> Has(executions, e, r)
  {
    var kept, slot := Keep(executions, {id}), Find(executions, id);
    HasKept(executions, {id}, e, r);
    if Has(executions, e, r) && e == id {
      HasHolds(executions, e, r);
      assert slot in kept + [slot];
    }
    if Has(executions, e, r) && e != id {
      var s :| s in kept && s.id == e && r in s.value;
      assert s in kept + [slot];
    }
    if s :| s in kept + [slot] && s.id == e && r in s.value {
      if s in kept {
        assert Has(kept, e, r);
      } else {
        assert s == slot;
      }
    }
  }

  lemma {:induction false} TouchedIndexed(executions: Executions, index: map<string, (string, Record)>, files: map<string, seq<Byte>>, id: string)
    requires Unique(executions) && Indexed(executions, index, files) && Holds(executions, id)
    ensures Indexed(Touched(executions, id), index, files)
  {
    var after := Touched(executions, id);
    forall a ensures IndexedAt(after, index, files, a) {
      assert IndexedAt(executions, index, files, a);
      if a in index {
        TouchedHas(executions, id, index[a].0, index[a].1);
      }
    }
    forall e, r | Has(after, e, r) ensures Lists(index, e, r) {
      TouchedHas(executions, id, e, r);
    }
  }

  lemma {:induction false} MissesEverywhere(executions: Executions, index: map<string, (string, Record)>, files: map<string, seq<Byte>>, a: string)
    requires Indexed(executions, index, files) && a !in index
    ensures forall e, r :: Has(executions, e, r) ==> r.id != a
  {
    forall e, r | Has(executions, e, r) ensures r.id != a {
      assert Lists(index, e, r);
    }
  }

  /** An artifact id belongs to one execution. */
  lemma {:induction false} OnlyOwner(executions: Executions, index: map<string, (string, Record)>, files: map<string, seq<Byte>>, a: string)
    requires Indexed(executions, index, files) && a in index
    ensures forall e, r :: Has(executions, e, r) && r.id == a ==> (e, r) == index[a]
  {
    forall e, r | Has(executions, e, r) && r.id == a ensures (e, r) == index[a] {
      assert Lists(index, e, r);
    }
  }
}
