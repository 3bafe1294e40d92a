/** The recycle bin as data: what is on disk, what one recovery pass does to each
    entry step by step, and the steps of trashing, restoring and purging. */
module Trash {
  import opened Wrappers

  type Path = string
  type TrashId = string
  type Content = seq<bv8>

  /** A digest without collisions. */
  datatype Digest = Sha(of: Content)

  datatype Meta = Meta(id: TrashId, original: Path, sha: Digest, size: nat)

  datatype Intent = Intent(id: TrashId, destination: Path, sha: Digest)

  /** An entry directory; `temp` is a leftover of an interrupted metadata write. */
  datatype Item = Item(meta: Option<Meta>, payload: Option<Content>, intent: Option<Intent>, temp: bool)

  const EMPTY_DIRECTORY := Item(None, None, None, false)

  datatype Disk = Disk(files: map<Path, Content>, staging: map<TrashId, Item>, items: map<TrashId, Item>, purging: map<TrashId, Item>)

  /** Limits, and what the workspace says about paths: whether a regular file there may be
      opened, whether it may be a restore target, and whether metadata may name it. */
  datatype Env = Env(maxItems: nat, maxBytes: nat, maxFile: nat,
                     opens: Path -> bool, restores: Path -> bool, names: Path -> bool)

  function Lookup<K(!new), V>(m: map<K, V>, k: K): Option<V> {
    if k in m then Some(m[k]) else None
  }

  function Store<K(!new), V>(m: map<K, V>, k: K, v: Option<V>): (r: map<K, V>)
    ensures Lookup(r, k) == v
    ensures forall j :: j != k ==> Lookup(r, j) == Lookup(m, j)
    ensures r.Keys == if v.Some? then m.Keys + {k} else m.Keys - {k}
  {
    if v.Some? then m[k := v.value] else m - {k}
  }

  /** Where one id lives outside the purge directory. */
  datatype Slots = Slots(staged: Option<Item>, item: Option<Item>)

  function SlotsOf(d: Disk, id: TrashId): Slots {
    Slots(Lookup(d.staging, id), Lookup(d.items, id))
  }

  function WithSlots(d: Disk, id: TrashId, s: Slots): (r: Disk)
    ensures SlotsOf(r, id) == s && r.files == d.files && r.purging == d.purging
    ensures forall j :: j != id ==> SlotsOf(r, j) == SlotsOf(d, j)
  {
    d.(staging := Store(d.staging, id, s.staged), items := Store(d.items, id, s.item))
  }

  // ----- Reading entries

  predicate ReadsMeta(env: Env, item: Item, id: TrashId) {
    item.meta.Some? &&
    var m := item.meta.value;
    m.id == id && env.names(m.original) && m.size <= env.maxFile
  }

  predicate ReadsIntent(env: Env, item: Item, id: TrashId) {
    item.meta.Some? && item.intent.Some? &&
    var i := item.intent.value;
    i.id == id && i.sha == item.meta.value.sha && env.restores(i.destination)
  }

  predicate ReadsRecord(env: Env, item: Item, id: TrashId) {
    && !item.temp
    && ReadsMeta(env, item, id)
    && (item.intent.Some? ==> ReadsIntent(env, item, id))
    && item.payload.Some? && |item.payload.value| == item.meta.value.size
  }

  predicate FileMatches(env: Env, files: map<Path, Content>, p: Path, sha: Digest) {
    p in files && env.opens(p) && |files[p]| <= env.maxFile && Sha(files[p]) == sha
  }

  predicate OriginalMatches(env: Env, files: map<Path, Content>, m: Meta) {
    FileMatches(env, files, m.original, m.sha) && |files[m.original]| == m.size
  }

  // ----- Recovery of one entry

  /** The successive states of an interruptible action, and whether it reports a problem. */
  datatype Progress<T> = Progress(states: seq<T>, reported: bool)
  {
    function Last(): T
      requires states != []
    {
      states[|states| - 1]
    }
  }

  /** Removing a directory without known files: it fails when a temporary file remains. */
  function CloseDirectory(item: Item): (r: Progress<Option<Item>>)
    ensures |r.states| >= 1 && r.states[0] == Some(item)
  {
    if item.temp then Progress([Some(item)], true) else Progress([Some(item), None], false)
  }

  /** Unlinking payload, metadata and intent in this order, then the directory. */
  function Removal(item: Item): (r: Progress<Option<Item>>)
    ensures |r.states| >= 1 && r.states[0] == Some(item)
  {
    var noPayload := item.(payload := None);
    var noMeta := noPayload.(meta := None);
    var close := CloseDirectory(noMeta.(intent := None));
    Progress([Some(item)] + (if item.payload.Some? then [Some(noPayload)] else []) +
             (if item.intent.Some? then [Some(noMeta)] else []) + close.states,
             close.reported)
  }

  function Keep<T>(state: T, reported: bool): Progress<T> {
    Progress([state], reported)
  }

  function FormalRecovery(env: Env, files: map<Path, Content>, id: TrashId, item: Item): (r: Progress<Option<Item>>)
    ensures |r.states| >= 1 && r.states[0] == Some(item)
  {
    if item.meta.None? then
      if item.intent.Some? && item.payload.None? then RecoveryWithoutMeta(env, files, item)
      else if item.payload.None? then CloseDirectory(item)
      else Keep(Some(item), true)
    else if !ReadsMeta(env, item, id) then Keep(Some(item), true)
    else if item.intent.Some? then IntentRecovery(env, files, id, item)
    else if item.payload.None? then
      if OriginalMatches(env, files, item.meta.value) then
        var close := CloseDirectory(item.(meta := None));
        Progress([Some(item)] + close.states, close.reported)
      else Keep(Some(item), true)
    else if !ReadsRecord(env, item, id) then Keep(Some(item), true)
    else if OriginalMatches(env, files, item.meta.value) then
      if Sha(item.payload.value) == item.meta.value.sha then Removal(item) else Keep(Some(item), true)
    else Keep(Some(item), false)
  }

  function RecoveryWithoutMeta(env: Env, files: map<Path, Content>, item: Item): (r: Progress<Option<Item>>)
    requires item.intent.Some? && item.payload.None? && item.meta.None?
    ensures |r.states| >= 1 && r.states[0] == Some(item)
  {
    var i := item.intent.value;
    if env.restores(i.destination) && FileMatches(env, files, i.destination, i.sha) then
      var close := CloseDirectory(item.(intent := None));
      Progress([Some(item)] + close.states, close.reported)
    else Keep(Some(item), true)
  }

  function IntentRecovery(env: Env, files: map<Path, Content>, id: TrashId, item: Item): (r: Progress<Option<Item>>)
    requires ReadsMeta(env, item, id) && item.intent.Some?
    ensures |r.states| >= 1 && r.states[0] == Some(item)
  {
    var m, i := item.meta.value, item.intent.value;
    if !ReadsIntent(env, item, id) then Keep(Some(item), true)
    else if item.payload.Some? && (!ReadsRecord(env, item, id) || Sha(item.payload.value) != m.sha) then Keep(Some(item), true)
    else if i.destination !in files then
      if item.payload.Some? then Progress([Some(item), Some(item.(intent := None))], false)
      else Keep(Some(item), true)
    else if !FileMatches(env, files, i.destination, m.sha) || |files[i.destination]| != m.size then Keep(Some(item), true)
    else Removal(item)
  }

  function StagingRecovery(env: Env, files: map<Path, Content>, id: TrashId, s: Slots): (r: Progress<Slots>)
    ensures |r.states| >= 1 && r.states[0] == s
  {
    if s.staged.None? then Keep(s, false)
    else
      var item := s.staged.value;
      if item.meta.Some? && item.payload.Some? then
        if !ReadsRecord(env, item, id) || s.item.Some? then Keep(s, true)
        else Progress([s, Slots(None, Some(item))], false)
      else if item.meta.Some? then
        if ReadsMeta(env, item, id) && OriginalMatches(env, files, item.meta.value) then
          var bare := item.(meta := None);
          if bare == EMPTY_DIRECTORY then Progress([s, s.(staged := Some(bare)), s.(staged := None)], false)
          else Progress([s, s.(staged := Some(bare))], true)
        else Keep(s, true)
      else Keep(s, true)
  }

  function FormalSlots(env: Env, files: map<Path, Content>, id: TrashId, s: Slots): (r: Progress<Slots>)
    ensures |r.states| >= 1 && r.states[0] == s
  {
    if s.item.None? then Keep(s, false) else ItemSlots(s, FormalRecovery(env, files, id, s.item.value))
  }

  /** The progress of an item as the progress of its slots. */
  function ItemSlots(s: Slots, p: Progress<Option<Item>>): (r: Progress<Slots>)
    ensures |r.states| == |p.states| && r.reported == p.reported
    ensures forall k :: 0 <= k < |p.states| ==> r.states[k] == s.(item := p.states[k])
  {
    Progress(seq(|p.states|, k requires 0 <= k < |p.states| => s.(item := p.states[k])), p.reported)
  }

  /** What a whole pass makes of one id: its staging entry first, then its item. */
  function RecoverSlots(env: Env, files: map<Path, Content>, id: TrashId, s: Slots): Slots {
    FormalSlots(env, files, id, StagingRecovery(env, files, id, s).Last()).Last()
  }

  predicate ReportsSlots(env: Env, files: map<Path, Content>, id: TrashId, s: Slots) {
    StagingRecovery(env, files, id, s).reported ||
    FormalSlots(env, files, id, StagingRecovery(env, files, id, s).Last()).reported
  }

  /** Any state an interrupted or size-limited pass can leave one id in. */
  ghost predicate Partway(env: Env, files: map<Path, Content>, id: TrashId, s: Slots, t: Slots) {
    || t in StagingRecovery(env, files, id, s).states
    || t in FormalSlots(env, files, id, s).states
    || t in FormalSlots(env, files, id, StagingRecovery(env, files, id, s).Last()).states
  }

  /** Purge cleanup unlinks known files in any order, and the directory when nothing is left. */
  ghost predicate Cleaned(before: Option<Item>, after: Option<Item>) {
    || before == after
    || (before.Some? && after.None? && !before.value.temp)
    || (before.Some? && after.Some? &&
        var (b, a) := (before.value, after.value);
        && a.temp == b.temp
        && (a.meta == b.meta || a.meta.None?) && (a.payload == b.payload || a.payload.None?)
        && (a.intent == b.intent || a.intent.None?))
  }

  /** A recovery that crashed somewhere, or was cut short by the entry limit. */
  ghost predicate Interrupted(env: Env, d: Disk, e: Disk) {
    && e.files == d.files
    && (forall id :: Partway(env, d.files, id, SlotsOf(d, id), SlotsOf(e, id)))
    && (forall id :: Cleaned(Lookup(d.purging, id), Lookup(e.purging, id)))
  }

  /** A full pass over every entry. */
  ghost predicate Passed(env: Env, d: Disk, e: Disk) {
    && e.files == d.files
    && (forall id :: SlotsOf(e, id) == RecoverSlots(env, d.files, id, SlotsOf(d, id)))
  }

  /** A full pass that had nothing to report. */
  ghost predicate CleanPass(env: Env, d: Disk, e: Disk) {
    && Passed(env, d, e)
    && (forall id :: Cleaned(Lookup(d.purging, id), Lookup(e.purging, id)))
    && (forall id :: !ReportsSlots(env, d.files, id, SlotsOf(d, id)))
  }

  // ----- The three operations, as the disks they leave behind step by step

  ghost function Claims(items: map<TrashId, Item>): TrashId -> nat {
    id => if id in items && items[id].meta.Some? then items[id].meta.value.size else 0
  }

  /** The sizes that the records of the items claim. */
  ghost function ClaimedBytes(items: map<TrashId, Item>): nat {
    Sum(items.Keys, Claims(items))
  }

  /** The sum of a weight over a set of ids. */
  ghost function Sum(ids: set<TrashId>, weight: TrashId -> nat): nat {
    if ids == {} then 0 else
      var id :| id in ids;
      weight(id) + Sum(ids - {id}, weight)
  }

  /** The checks of `trash_file` once recovery reported nothing. */
  ghost predicate AcceptsTrash(env: Env, d: Disk, path: Path, expected: Digest, id: TrashId) {
    && FileMatches(env, d.files, path, expected)
    && (forall j :: j in d.items ==> ReadsRecord(env, d.items[j], j))
    && |d.items| < env.maxItems
    && ClaimedBytes(d.items) + |d.files[path]| <= env.maxBytes
    && id !in d.items && id !in d.staging
  }

  function NewMeta(d: Disk, path: Path, id: TrashId): Meta
    requires path in d.files
  {
    Meta(id, path, Sha(d.files[path]), |d.files[path]|)
  }

  /** The disk after `k` steps of a trash: mkdir, temporary metadata file, its rename, the
      move of the file, the publishing rename. */
  function TrashStep(d: Disk, path: Path, id: TrashId, k: nat): Disk
    requires path in d.files && k < 6
  {
    var meta := NewMeta(d, path, id);
    var described := Item(Some(meta), None, None, false);
    var full := described.(payload := Some(d.files[path]));
    match k
    case 0 => d
    case 1 => d.(staging := d.staging[id := EMPTY_DIRECTORY])
    case 2 => d.(staging := d.staging[id := EMPTY_DIRECTORY.(temp := true)])
    case 3 => d.(staging := d.staging[id := described])
    case 4 => d.(files := d.files - {path}, staging := d.staging[id := full])
    case _ => d.(files := d.files - {path}, items := d.items[id := full])
  }

  /** The checks of `restore_trashed_file`. */
  predicate AcceptsRestore(env: Env, d: Disk, id: TrashId, expected: Digest, destination: Path) {
    && id in d.items && ReadsRecord(env, d.items[id], id) && d.items[id].intent.None?
    && Sha(d.items[id].payload.value) == d.items[id].meta.value.sha == expected
    && env.restores(destination) && destination !in d.files
  }

  /** The disk after `k` steps of a restore: temporary intent file, its rename, the link,
      and the four removals. */
  function RestoreStep(d: Disk, id: TrashId, destination: Path, k: nat): Disk
    requires id in d.items && d.items[id].payload.Some? && d.items[id].meta.Some? && k < 8
  {
    var item := d.items[id];
    var pending := item.(intent := Some(Intent(id, destination, item.meta.value.sha)));
    var linked := d.files[destination := item.payload.value];
    match k
    case 0 => d
    case 1 => d.(items := d.items[id := item.(temp := true)])
    case 2 => d.(items := d.items[id := pending])
    case 3 => d.(files := linked, items := d.items[id := pending])
    case 4 => d.(files := linked, items := d.items[id := pending.(payload := None)])
    case 5 => d.(files := linked, items := d.items[id := pending.(payload := None, meta := None)])
    case 6 => d.(files := linked, items := d.items[id := EMPTY_DIRECTORY])
    case _ => d.(files := linked, items := d.items - {id})
  }

  predicate AcceptsPurge(env: Env, d: Disk, id: TrashId, expected: Digest) {
    && id in d.items && ReadsRecord(env, d.items[id], id) && d.items[id].intent.None?
    && Sha(d.items[id].payload.value) == d.items[id].meta.value.sha == expected
    && id !in d.purging
  }

  /** The rename that commits a purge. */
  function PurgeCommit(d: Disk, id: TrashId): Disk
    requires id in d.items
  {
    d.(items := d.items - {id}, purging := d.purging[id := d.items[id]])
  }
}
