/** Copying the allowed regular files of a workspace: two walks that prune as they go, against
    the files that may be seen, with budgets for entries and bytes. */
module Snapshots {
  import opened AccessPolicies
  import opened Wrappers

  type Byte = bv8

  datatype Node = File(content: seq<Byte>) | Directory(entries: seq<Entry>) | Link | Special

  datatype Entry = Entry(name: string, node: Node)

  /** Something created in the snapshot. */
  datatype Item = Folder(path: Path) | Copy(path: Path, content: seq<Byte>)

  /** What the walks decide by: the rules of the policy and the directory names to ignore. */
  datatype Policy = Policy(rules: seq<Rule>, ignored: set<string>)

  datatype Status = Done | TooManyEntries | TooManyBytes | Interrupted

  // ----- What a pruned walk creates

  /** The items of one entry of the directory at `at`. */
  ghost function EntryItems(p: Policy, e: Entry, at: Path): multiset<Item>
    decreases e.node, 1, at
  {
    if Blocked(p.rules, at + [e.name]) then multiset{} else
      match e.node
      case File(content) => multiset{Copy(at + [e.name], content)}
      case Directory(entries) =>
        if e.name in p.ignored then multiset{} else multiset{Folder(at + [e.name])} + Items(p, entries, at + [e.name])
      case _ => multiset{}
  }

  ghost function Items(p: Policy, entries: seq<Entry>, at: Path): multiset<Item>
    decreases entries, 0, at
  {
    if entries == [] then multiset{}
    else Items(p, entries[..|entries| - 1], at) + EntryItems(p, entries[|entries| - 1], at)
  }

  ghost function EntryBytes(p: Policy, e: Entry, at: Path): nat
    decreases e.node, 1, at
  {
    if Blocked(p.rules, at + [e.name]) then 0 else
      match e.node
      case File(content) => |content|
      case Directory(entries) => if e.name in p.ignored then 0 else Bytes(p, entries, at + [e.name])
      case _ => 0
  }

  ghost function Bytes(p: Policy, entries: seq<Entry>, at: Path): nat
    decreases entries, 0, at
  {
    if entries == [] then 0
    else Bytes(p, entries[..|entries| - 1], at) + EntryBytes(p, entries[|entries| - 1], at)
  }

  // ----- What the bytes are

  function WeightOf(x: Item): nat {
    match x
    case Copy(_, content) => |content|
    case Folder(_) => 0
  }

  /** The length of all copies together. */
  ghost function Weight(items: multiset<Item>): nat
    decreases |items|
  {
    if items == multiset{} then 0 else
      var x :| x in items;
      WeightOf(x) + Weight(items - multiset{x})
  }

  lemma {:induction false} WeightPick(items: multiset<Item>, x: Item)
    requires x in items
    ensures Weight(items) == WeightOf(x) + Weight(items - multiset{x})
    decreases |items|
  {
    var y :| y in items && Weight(items) == WeightOf(y) + Weight(items - multiset{y});
    if x != y {
      WeightPick(items - multiset{y}, x);
      WeightPick(items - multiset{x}, y);
      assert items - multiset{y} - multiset{x} == items - multiset{x} - multiset{y};
    }
  }

  lemma {:induction false} WeightUnion(a: multiset<Item>, b: multiset<Item>)
    ensures Weight(a + b) == Weight(a) + Weight(b)
    decreases |b|
  {
    if b == multiset{} {
      assert a + b == a;
    } else {
      var x :| x in b;
      WeightPick(b, x);
      WeightPick(a + b, x);
      assert a + b - multiset{x} == a + (b - multiset{x});
      WeightUnion(a, b - multiset{x});
    }
  }

  lemma {:induction false} WeightOne(x: Item)
    ensures Weight(multiset{x}) == WeightOf(x)
  {
    WeightPick(multiset{x}, x);
    assert multiset{x} - multiset{x} == multiset{};
  }

  /** The bytes of a walk are the length of everything that it copies. */
  lemma {:induction false} BytesAreCopied(p: Policy, entries: seq<Entry>, at: Path)
    ensures Bytes(p, entries, at) == Weight(Items(p, entries, at))
    decreases entries, 0
  {
    if entries != [] {
      var front, last := entries[..|entries| - 1], entries[|entries| - 1];
      BytesAreCopied(p, front, at);
      EntryBytesAreCopied(p, last, at);
      WeightUnion(Items(p, front, at), EntryItems(p, last, at));
    }
  }

  lemma {:induction false} EntryBytesAreCopied(p: Policy, e: Entry, at: Path)
    ensures EntryBytes(p, e, at) == Weight(EntryItems(p, e, at))
    decreases e.node, 1
  {
    if !Blocked(p.rules, at + [e.name]) {
      match e.node
      case File(content) => WeightOne(Copy(at + [e.name], content));
      case Directory(entries) =>
        if e.name !in p.ignored {
          BytesAreCopied(p, entries, at + [e.name]);
          WeightOne(Folder(at + [e.name]));
          WeightUnion(multiset{Folder(at + [e.name])}, Items(p, entries, at + [e.name]));
        }
      case _ =>
    }
  }

  // ----- What may be seen

  /** A path of real directories that are not ignored leads to the node. */
  ghost predicate Leads(p: Policy, entries: seq<Entry>, path: Path, node: Node)
    decreases |path|, entries
  {
    path != [] && exists k :: 0 <= k < |entries| && LeadsThrough(p, entries[k], path, node)
  }

  ghost predicate LeadsThrough(p: Policy, e: Entry, path: Path, node: Node)
    requires path != []
    decreases |path|, e
  {
    && e.name == path[0] && (e.node.Directory? ==> e.name !in p.ignored)
    && if |path| == 1 then e.node == node else e.node.Directory? && Leads(p, e.node.entries, path[1..], node)
  }

  /** The item the node makes at this path. */
  function ItemOf(path: Path, node: Node): Option<Item> {
    match node
    case File(content) => Some(Copy(path, content))
    case Directory(_) => Some(Folder(path))
    case _ => None
  }

  ghost predicate Visible(p: Policy, entries: seq<Entry>, at: Path, path: Path, node: Node, x: Item) {
    Leads(p, entries, path, node) && !Blocked(p.rules, at + path) && ItemOf(at + path, node) == Some(x)
  }

  lemma {:induction false} LeadsFurther(p: Policy, entries: seq<Entry>, n: nat, path: Path, node: Node)
    requires n <= |entries| && Leads(p, entries[..n], path, node)
    ensures Leads(p, entries, path, node)
  {
    var k :| 0 <= k < n && LeadsThrough(p, entries[..n][k], path, node);
    assert entries[k] == entries[..n][k];
  }

  /** Everything a pruned walk creates may be seen. */
  lemma {:induction false} CreatedIsVisible(p: Policy, entries: seq<Entry>, at: Path, x: Item) returns (path: Path, node: Node)
    requires x in Items(p, entries, at)
    ensures Visible(p, entries, at, path, node, x)
    decreases entries, 0
  {
    var n := |entries| - 1;
    if x in Items(p, entries[..n], at) {
      path, node := CreatedIsVisible(p, entries[..n], at, x);
      LeadsFurther(p, entries, n, path, node);
    } else {
      path, node := EntryIsVisible(p, entries[n], at, x);
      assert LeadsThrough(p, entries[n], path, node);
    }
  }

  lemma {:induction false} EntryIsVisible(p: Policy, e: Entry, at: Path, x: Item) returns (path: Path, node: Node)
    requires x in EntryItems(p, e, at)
    ensures path != [] && LeadsThrough(p, e, path, node) && !Blocked(p.rules, at + path) && ItemOf(at + path, node) == Some(x)
    decreases e.node, 1
  {
    var child := at + [e.name];
    path, node := [e.name], e.node;
    if e.node.Directory? && x != Folder(child) {
      var deeper;
      deeper, node := CreatedIsVisible(p, e.node.entries, child, x);
      path := [e.name] + deeper;
      assert path[1..] == deeper && child + deeper == at + path;
    }
  }

  /** Everything that may be seen is created: nothing below a blocked directory is unblocked. */
  lemma {:induction false} VisibleIsCreated(p: Policy, entries: seq<Entry>, at: Path, path: Path, node: Node, x: Item)
    requires Visible(p, entries, at, path, node, x)
    ensures x in Items(p, entries, at)
    decreases |path|, |entries|, 0
  {
    var n := |entries| - 1;
    var k :| 0 <= k < |entries| && LeadsThrough(p, entries[k], path, node);
    if k < n {
      assert entries[..n][k] == entries[k];
      assert Leads(p, entries[..n], path, node);
      VisibleIsCreated(p, entries[..n], at, path, node, x);
    } else {
      VisibleEntry(p, entries[n], at, path, node, x);
    }
  }

  lemma {:induction false} VisibleEntry(p: Policy, e: Entry, at: Path, path: Path, node: Node, x: Item)
    requires path != [] && LeadsThrough(p, e, path, node) && !Blocked(p.rules, at + path) && ItemOf(at + path, node) == Some(x)
    ensures x in EntryItems(p, e, at)
    decreases |path|, 0, 0
  {
    var child, deeper := at + [e.name], path[1..];
    assert child + deeper == at + path;
    if Blocked(p.rules, child) {
      BlockingInherits(p.rules, child, deeper);
    }
    if |path| > 1 {
      VisibleIsCreated(p, e.node.entries, child, deeper, node, x);
    } else {
      assert child == at + path;
    }
  }

  /** The pruned walk creates exactly the directories and regular files that are not blocked and have
      only real directories above them that are not ignored. */
  lemma {:induction false} WalkSeesExactly(p: Policy, entries: seq<Entry>, x: Item)
    ensures x in Items(p, entries, []) <==> exists path, node :: Visible(p, entries, [], path, node, x)
  {
    if x in Items(p, entries, []) {
      var path, node := CreatedIsVisible(p, entries, [], x);
    }
    if path, node :| Visible(p, entries, [], path, node, x) {
      VisibleIsCreated(p, entries, [], path, node, x);
    }
  }

  // ----- The walks

  /** A directory that the worklist walk has created but not scanned. */
  datatype Task = Task(entries: seq<Entry>, at: Path)

  ghost function TaskItems(p: Policy, tasks: seq<Task>): multiset<Item> {
    if tasks == [] then multiset{} else
      var last := tasks[|tasks| - 1];
      TaskItems(p, tasks[..|tasks| - 1]) + Items(p, last.entries, last.at)
  }

  ghost function TaskBytes(p: Policy, tasks: seq<Task>): nat {
    if tasks == [] then 0 else
      var last := tasks[|tasks| - 1];
      TaskBytes(p, tasks[..|tasks| - 1]) + Bytes(p, last.entries, last.at)
  }

  /** How many directories and entries there are to scan. */
  ghost function Size(entries: seq<Entry>, at: Path): nat
    decreases entries, 0, at
  {
    if entries == [] then 0 else Size(entries[..|entries| - 1], at) + EntrySize(entries[|entries| - 1], at)
  }

  ghost function EntrySize(e: Entry, at: Path): nat
    decreases e.node, 1, at
  {
    if e.node.Directory? then 1 + Size(e.node.entries, at) else 1
  }

  ghost function TaskSize(tasks: seq<Task>, at: Path): nat {
    if tasks == [] then 0 else TaskSize(tasks[..|tasks| - 1], at) + 1 + Size(tasks[|tasks| - 1].entries, at)
  }

  lemma {:induction false} TasksSnoc(p: Policy, tasks: seq<Task>, t: Task)
    ensures TaskItems(p, tasks + [t]) == TaskItems(p, tasks) + Items(p, t.entries, t.at)
    ensures TaskBytes(p, tasks + [t]) == TaskBytes(p, tasks) + Bytes(p, t.entries, t.at)
    ensures TaskSize(tasks + [t], []) == TaskSize(tasks, []) + 1 + Size(t.entries, [])
  {
    assert (tasks + [t])[..|tasks|] == tasks;
  }

  /** The first entries of a directory, and one more. */
  lemma {:induction false} EntriesSnoc(p: Policy, entries: seq<Entry>, i: nat, at: Path)
    requires i < |entries|
    ensures Items(p, entries[..i + 1], at) == Items(p, entries[..i], at) + EntryItems(p, entries[i], at)
    ensures Bytes(p, entries[..i + 1], at) == Bytes(p, entries[..i], at) + EntryBytes(p, entries[i], at)
    ensures Size(entries[..i + 1], []) == Size(entries[..i], []) + EntrySize(entries[i], [])
  {
    var longer := entries[..i + 1];
    assert longer[..|longer| - 1] == entries[..i] && longer[|longer| - 1] == entries[i];
  }

  /** The first entries make no more than all of them. */
  lemma {:induction false} EntriesPrefix(p: Policy, entries: seq<Entry>, i: nat, at: Path)
    requires i <= |entries|
    ensures Items(p, entries[..i], at) <= Items(p, entries, at)
    ensures |Items(p, entries[..i], at)| <= |Items(p, entries, at)| && Bytes(p, entries[..i], at) <= Bytes(p, entries, at)
    decreases |entries| - i
  {
    if i == |entries| {
      assert entries[..i] == entries;
    } else {
      EntriesSnoc(p, entries, i, at);
      EntriesPrefix(p, entries, i + 1, at);
    }
  }

  class SnapshotBuilder {
    const policy: Policy
    const maxEntries: nat
    const maxBytes: nat
    /** Whether cancellation or deadline is seen at each poll. */
    const interrupts: nat -> bool
    var polls: nat
    var entries: nat
    var bytes: nat
    ghost var created: seq<Item>

    ghost predicate Valid()
      reads this
    {
      entries == |created| <= maxEntries && bytes <= maxBytes
    }

    constructor (policy: Policy, maxEntries: nat, maxBytes: nat, interrupts: nat -> bool)
      ensures Valid() && created == [] && bytes == 0
      ensures this.policy == policy && this.maxEntries == maxEntries && this.maxBytes == maxBytes
    {
      this.policy, this.maxEntries, this.maxBytes, this.interrupts := policy, maxEntries, maxBytes, interrupts;
      polls, entries, bytes, created := 0, 0, 0, [];
    }

    method CheckActive() returns (active: bool)
      modifies this`polls
    {
      active := !interrupts(polls);
      polls := polls + 1;
    }

    /** `_claim_entry`. */
    method ClaimEntry() returns (status: Status)
      modifies this`polls, this`entries
      ensures status == Done ==> entries == old(entries) + 1 <= maxEntries
      ensures status == TooManyEntries ==> old(entries) + 1 > maxEntries
      ensures status != TooManyBytes
    {
      var active := CheckActive();
      if !active {
        return Interrupted;
      }
      entries := entries + 1;
      return if entries > maxEntries then TooManyEntries else Done;
    }

    /** `_copy_open_descriptor`: the byte budget is checked before every chunk is written. */
    method CopyContent(content: seq<Byte>) returns (status: Status)
      requires bytes <= maxBytes
      modifies this`polls, this`bytes
      ensures status == Done ==> bytes == old(bytes) + |content| <= maxBytes
      ensures status == TooManyBytes ==> old(bytes) + |content| > maxBytes
      ensures status != TooManyEntries
    {
      var read := 0;
      while true
        invariant read <= |content| && bytes == old(bytes) + read <= maxBytes
        decreases |content| - read
      {
        var active := CheckActive();
        if !active {
          return Interrupted;
        }
        if read == |content| {
          return Done;
        }
        var chunk := if |content| - read < 65536 then |content| - read else 65536;
        if bytes + chunk > maxBytes {
          return TooManyBytes;
        }
        bytes, read := bytes + chunk, read + chunk;
      }
    }

    /** The outcome of creating these items and bytes. */
    ghost predicate Copied(status: Status, before: seq<Item>, bytesBefore: nat, items: multiset<Item>, size: nat)
      reads this
    {
      match status
      case Done => Valid() && multiset(created) == multiset(before) + items && bytes == bytesBefore + size
      case TooManyEntries => |before| + |items| > maxEntries
      case TooManyBytes => bytesBefore + size > maxBytes
      case Interrupted => true
    }

    /** One entry of the recursive walk. */
    method CopyEntry(e: Entry, at: Path) returns (status: Status)
      requires Valid()
      modifies this
      ensures Copied(status, old(created), old(bytes), EntryItems(policy, e, at), EntryBytes(policy, e, at))
      decreases e.node, 1
    {
      var active := CheckActive();
      if !active {
        return Interrupted;
      }
      var child := at + [e.name];
      var blocking := BlockingPattern(policy.rules, child);
      if blocking.Some? {
        return Done;
      }
      match e.node
      case File(content) =>
        status := ClaimEntry();
        if status != Done { return; }
        status := CopyContent(content);
        if status != Done { return; }
        created := created + [Copy(child, content)];
      case Directory(entries) =>
        if e.name in policy.ignored {
          return Done;
        }
        status := ClaimEntry();
        if status != Done { return; }
        created := created + [Folder(child)];
        status := CopyDirectory(entries, child);
      case _ => status := Done;
    }

    /** `_copy_directory_fd`. */
    method CopyDirectory(dir: seq<Entry>, at: Path) returns (status: Status)
      requires Valid()
      modifies this
      ensures Copied(status, old(created), old(bytes), Items(policy, dir, at), Bytes(policy, dir, at))
      decreases dir, 0
    {
      assert dir[..0] == [];
      for i := 0 to |dir|
        invariant Copied(Done, old(created), old(bytes), Items(policy, dir[..i], at), Bytes(policy, dir[..i], at))
      {
        EntriesSnoc(policy, dir, i, at);
        EntriesPrefix(policy, dir, i + 1, at);
        status := CopyEntry(dir[i], at);
        if status != Done { return; }
      }
      assert dir[..|dir|] == dir;
      return Done;
    }

    method PortableFile(child: Path, content: seq<Byte>) returns (status: Status)
      requires Valid()
      modifies this
      ensures status == Done ==> Valid() && created == old(created) + [Copy(child, content)] && bytes == old(bytes) + |content|
      ensures status == TooManyEntries ==> |old(created)| + 1 > maxEntries
      ensures status == TooManyBytes ==> old(bytes) + |content| > maxBytes
    {
      status := ClaimEntry();
      if status != Done { return; }
      status := CopyContent(content);
      if status != Done { return; }
      created := created + [Copy(child, content)];
    }

    /** One entry of the worklist walk: a directory is created and scheduled. */
    method PortableEntry(e: Entry, at: Path, pending: seq<Task>) returns (status: Status, rest: seq<Task>)
      requires Valid()
      modifies this
      ensures status == Done ==> Valid() && Queued(policy, old(created), old(bytes), pending, e, at, created, bytes, rest)
      ensures status == TooManyEntries ==> |old(created)| + |EntryItems(policy, e, at)| > maxEntries
      ensures status == TooManyBytes ==> old(bytes) + EntryBytes(policy, e, at) > maxBytes
    {
      rest := pending;
      var active := CheckActive();
      if !active {
        return Interrupted, pending;
      }
      var child := at + [e.name];
      var blocking := BlockingPattern(policy.rules, child);
      if blocking.Some? || e.node.Link? || (e.node.Directory? && e.name in policy.ignored) {
        QueuedNothing(policy, created, bytes, pending, e, at);
        return Done, pending;
      }
      if e.node.Directory? {
        ghost var before := created;
        status := ClaimEntry();
        if status != Done { return; }
        created := created + [Folder(child)];
        rest := pending + [Task(e.node.entries, child)];
        QueuedFolder(policy, before, bytes, pending, e, at);
      } else if e.node.File? {
        QueuedFile(policy, created, bytes, pending, e, at);
        status := PortableFile(child, e.node.content);
      } else {
        QueuedNothing(policy, created, bytes, pending, e, at);
        status := Done;
      }
    }

    /** Scanning one directory of the worklist walk. */
    method PortableDirectory(dir: seq<Entry>, at: Path, pending: seq<Task>) returns (status: Status, rest: seq<Task>)
      requires Valid()
      modifies this
      ensures status == Done ==> Valid() && TaskSize(rest, []) <= TaskSize(pending, []) + Size(dir, [])
      ensures status == Done ==>
        multiset(created) + TaskItems(policy, rest) == multiset(old(created)) + TaskItems(policy, pending) + Items(policy, dir, at)
      ensures status == Done ==> bytes + TaskBytes(policy, rest) == old(bytes) + TaskBytes(policy, pending) + Bytes(policy, dir, at)
      ensures status == TooManyEntries ==> |old(created)| + |TaskItems(policy, pending)| + |Items(policy, dir, at)| > maxEntries
      ensures status == TooManyBytes ==> old(bytes) + TaskBytes(policy, pending) + Bytes(policy, dir, at) > maxBytes
    {
      rest := pending;
      assert dir[..0] == [];
      for i := 0 to |dir|
        invariant Valid() && TaskSize(rest, []) <= TaskSize(pending, []) + Size(dir[..i], [])
        invariant multiset(created) + TaskItems(policy, rest) == multiset(old(created)) + TaskItems(policy, pending) + Items(policy, dir[..i], at)
        invariant bytes + TaskBytes(policy, rest) == old(bytes) + TaskBytes(policy, pending) + Bytes(policy, dir[..i], at)
      {
        EntriesSnoc(policy, dir, i, at);
        EntriesPrefix(policy, dir, i + 1, at);
        Sizes(multiset(created), TaskItems(policy, rest), multiset(old(created)), TaskItems(policy, pending), Items(policy, dir[..i], at));
        status, rest := PortableEntry(dir[i], at, rest);
        if status != Done { return; }
      }
      assert dir[..|dir|] == dir;
      status := Done;
    }

    /** `_copy_portable`. */
    method CopyPortable(root: seq<Entry>) returns (status: Status)
      requires Valid() && created == [] && bytes == 0
      modifies this
      ensures Copied(status, [], 0, Items(policy, root, []), Bytes(policy, root, []))
    {
      var pending := [Task(root, [])];
      StartTotals(policy, root);
      while pending != []
        invariant Valid() && Adds(policy, created, bytes, pending, root)
        decreases TaskSize(pending, [])
      {
        var active := CheckActive();
        if !active {
          return Interrupted;
        }
        var task := pending[|pending| - 1];
        var others := pending[..|pending| - 1];
        PopTotals(policy, created, bytes, pending, root);
        status, pending := PortableDirectory(task.entries, task.at, others);
        if status != Done { return; }
      }
      return Done;
    }
  }

  /** One entry was created, or left to the pending directories, as it should be. */
  ghost predicate Queued(p: Policy, before: seq<Item>, spent: nat, pending: seq<Task>, e: Entry, at: Path,
                         created: seq<Item>, bytes: nat, rest: seq<Task>)
  {
    && TaskSize(rest, []) <= TaskSize(pending, []) + EntrySize(e, [])
    && multiset(created) + TaskItems(p, rest) == multiset(before) + TaskItems(p, pending) + EntryItems(p, e, at)
    && bytes + TaskBytes(p, rest) == spent + TaskBytes(p, pending) + EntryBytes(p, e, at)
  }

  ghost predicate Leaves(p: Policy, e: Entry, at: Path) {
    || Blocked(p.rules, at + [e.name]) || e.node.Link? || (e.node.Directory? && e.name in p.ignored)
    || (!e.node.Directory? && !e.node.File?)
  }

  lemma {:induction false} QueuedNothing(p: Policy, created: seq<Item>, bytes: nat, pending: seq<Task>, e: Entry, at: Path)
    requires Leaves(p, e, at)
    ensures Queued(p, created, bytes, pending, e, at, created, bytes, pending)
  {
  }

  lemma {:induction false} QueuedFolder(p: Policy, created: seq<Item>, bytes: nat, pending: seq<Task>, e: Entry, at: Path)
    requires !Leaves(p, e, at) && e.node.Directory?
    ensures |EntryItems(p, e, at)| >= 1
    ensures Queued(p, created, bytes, pending, e, at, created + [Folder(at + [e.name])], bytes, pending + [Task(e.node.entries, at + [e.name])])
  {
    TasksSnoc(p, pending, Task(e.node.entries, at + [e.name]));
  }

  lemma {:induction false} QueuedFile(p: Policy, created: seq<Item>, bytes: nat, pending: seq<Task>, e: Entry, at: Path)
    requires !Leaves(p, e, at) && e.node.File?
    ensures |EntryItems(p, e, at)| == 1 && EntryBytes(p, e, at) == |e.node.content|
    ensures Queued(p, created, bytes, pending, e, at, created + [Copy(at + [e.name], e.node.content)], bytes + |e.node.content|, pending)
  {
  }

  /** What has been created and what the pending directories will create make up everything. */
  ghost predicate Adds(p: Policy, created: seq<Item>, bytes: nat, pending: seq<Task>, root: seq<Entry>) {
    && multiset(created) + TaskItems(p, pending) == Items(p, root, [])
    && bytes + TaskBytes(p, pending) == Bytes(p, root, [])
  }

  lemma {:induction false} StartTotals(p: Policy, root: seq<Entry>)
    ensures Adds(p, [], 0, [Task(root, [])], root)
  {
    TasksSnoc(p, [], Task(root, []));
    assert [] + [Task(root, [])] == [Task(root, [])];
  }

  lemma {:induction false} PopTotals(p: Policy, created: seq<Item>, bytes: nat, pending: seq<Task>, root: seq<Entry>)
    requires Adds(p, created, bytes, pending, root) && pending != []
    ensures var (others, task) := (pending[..|pending| - 1], pending[|pending| - 1]);
      && multiset(created) + TaskItems(p, others) + Items(p, task.entries, task.at) == Items(p, root, [])
      && |created| + |TaskItems(p, others)| + |Items(p, task.entries, task.at)| == |Items(p, root, [])|
      && bytes + TaskBytes(p, others) + Bytes(p, task.entries, task.at) == Bytes(p, root, [])
      && TaskSize(others, []) + Size(task.entries, []) < TaskSize(pending, [])
  {
    var others, task := pending[..|pending| - 1], pending[|pending| - 1];
    assert pending == others + [task];
    TasksSnoc(p, others, task);
    Sizes(Items(p, root, []), multiset{}, multiset(created), TaskItems(p, others), Items(p, task.entries, task.at));
  }

  /** Equal multisets have equally many elements. */
  lemma {:induction false} Sizes(a: multiset<Item>, b: multiset<Item>, c: multiset<Item>, d: multiset<Item>, e: multiset<Item>)
    requires a + b == c + d + e
    ensures |a| + |b| == |c| + |d| + |e|
  {
    assert |a + b| == |a| + |b| && |c + d + e| == |c + d| + |e| && |c + d| == |c| + |d|;
  }
}
