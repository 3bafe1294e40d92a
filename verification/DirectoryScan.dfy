/** Listing directories under a scan budget: the bounded scan keeps the smallest entries, and the
    worklist over directories yields every file that may be seen unless it is cut short. */
module DirectoryScans {
  import opened Wrappers

  type Path = seq<string>

  /** A folder's listing may break off with an error behind its entries. */
  datatype Node = Regular | Link(usable: bool) | Folder(entries: seq<Raw>, broken: bool)

  /** Classifying an entry shows it, hides it as blocked, or fails. */
  datatype Fate = Shown | Hidden | Failing

  datatype Raw = Raw(name: string, node: Node, fate: Fate)

  datatype Setup = Setup(fold: string -> string, ignored: set<string>, maxScan: nat)

  // ----- The order of entries

  predicate Precedes(a: string, b: string)
    decreases |a|, b
  {
    b != "" && (a == "" || a[0] < b[0] || (a[0] == b[0] && Precedes(a[1..], b[1..])))
  }

  /** Folders first, then by folded name, then by name. */
  predicate Less(s: Setup, a: Raw, b: Raw) {
    || (a.node.Folder? && !b.node.Folder?)
    || (a.node.Folder? == b.node.Folder? &&
        (Precedes(s.fold(a.name), s.fold(b.name)) || (s.fold(a.name) == s.fold(b.name) && Precedes(a.name, b.name))))
  }

  lemma {:induction false} PrecedesOrders(a: string, b: string, c: string)
    ensures Precedes(a, b) ==> !Precedes(b, a)
    ensures Precedes(a, b) || a == b || Precedes(b, a)
    ensures Precedes(a, b) && Precedes(b, c) ==> Precedes(a, c)
    decreases |a|, b
  {
    if a != "" && b != "" {
      PrecedesOrders(a[1..], b[1..], if c == "" then c else c[1..]);
      assert a == [a[0]] + a[1..] && b == [b[0]] + b[1..];
    }
  }

  lemma {:induction false} LessOrders(s: Setup, a: Raw, b: Raw, c: Raw)
    ensures Less(s, a, b) ==> !Less(s, b, a)
    ensures Less(s, a, b) && Less(s, b, c) ==> Less(s, a, c)
    ensures Less(s, a, c) ==> Less(s, a, b) || Less(s, b, c)
  {
    PrecedesOrders(s.fold(a.name), s.fold(b.name), s.fold(c.name));
    PrecedesOrders(s.fold(b.name), s.fold(c.name), s.fold(a.name));
    PrecedesOrders(a.name, b.name, c.name);
    PrecedesOrders(b.name, c.name, a.name);
    PrecedesOrders(s.fold(b.name), s.fold(a.name), s.fold(c.name));
    PrecedesOrders(b.name, a.name, c.name);
  }

  ghost predicate Ordered(s: Setup, es: seq<Raw>) {
    forall i, j :: 0 <= i < j < |es| ==> !Less(s, es[j], es[i])
  }

  /** `bisect.insort`: behind everything that is not greater. */
  function Insert(s: Setup, x: Raw, es: seq<Raw>): (r: seq<Raw>)
    ensures |r| == |es| + 1
    decreases es, x
  {
    if es == [] || Less(s, x, es[0]) then [x] + es else [es[0]] + Insert(s, x, es[1..])
  }

  lemma {:induction false} InsertPermutes(s: Setup, x: Raw, es: seq<Raw>)
    ensures multiset(Insert(s, x, es)) == multiset(es) + multiset{x}
  {
    if es != [] && !Less(s, x, es[0]) {
      InsertPermutes(s, x, es[1..]);
      assert es == [es[0]] + es[1..];
    }
  }

  lemma {:induction false} InsertOrders(s: Setup, x: Raw, es: seq<Raw>)
    requires Ordered(s, es)
    ensures Ordered(s, Insert(s, x, es))
  {
    if es != [] && !Less(s, x, es[0]) {
      var tail := Insert(s, x, es[1..]);
      InsertOrders(s, x, es[1..]);
      InsertPermutes(s, x, es[1..]);
      forall j | 0 <= j < |tail| ensures !Less(s, tail[j], es[0]) {
        assert tail[j] in multiset(tail);
        if tail[j] != x {
          assert tail[j] in es[1..];
        }
      }
    } else if es != [] {
      forall j | 0 <= j < |es| ensures !Less(s, es[j], x) {
        LessOrders(s, es[j], x, es[0]);
        LessOrders(s, x, es[0], x);
      }
    }
  }

  function Sorted(s: Setup, es: seq<Raw>): (r: seq<Raw>)
    ensures |r| == |es|
    decreases es, s.maxScan
  {
    if es == [] then [] else Insert(s, es[|es| - 1], Sorted(s, es[..|es| - 1]))
  }

  lemma {:induction false} SortedOrders(s: Setup, es: seq<Raw>)
    ensures Ordered(s, Sorted(s, es)) && multiset(Sorted(s, es)) == multiset(es)
  {
    if es != [] {
      var front, last := es[..|es| - 1], es[|es| - 1];
      SortedOrders(s, front);
      InsertOrders(s, last, Sorted(s, front));
      InsertPermutes(s, last, Sorted(s, front));
      assert es == front + [last];
    }
  }

  // ----- The bounded scan

  /** The first `limit` of the entries in their order. */
  function Smallest(s: Setup, es: seq<Raw>, limit: nat): (r: seq<Raw>)
    ensures |r| == if |es| <= limit then |es| else limit
  {
    if |es| <= limit then Sorted(s, es) else Sorted(s, es)[..limit]
  }

  /** What is kept is in order, and nothing that is left out comes before it. */
  lemma {:induction false} SmallestMeaning(s: Setup, es: seq<Raw>, limit: nat) returns (rest: seq<Raw>)
    ensures var kept := Smallest(s, es, limit);
      && Ordered(s, kept) && multiset(kept) + multiset(rest) == multiset(es)
      && forall i, j :: 0 <= i < |kept| && 0 <= j < |rest| ==> !Less(s, rest[j], kept[i])
  {
    var sorted, n := Sorted(s, es), if |es| <= limit then |es| else limit;
    SortedOrders(s, es);
    rest := sorted[n..];
    assert n == |es| ==> sorted[..n] == sorted;
    OrderedCut(s, sorted, n);
  }

  lemma {:induction false} OrderedCut(s: Setup, es: seq<Raw>, n: nat)
    requires n <= |es| && Ordered(s, es)
    ensures Ordered(s, es[..n]) && multiset(es[..n]) + multiset(es[n..]) == multiset(es)
    ensures forall i, j :: 0 <= i < n && 0 <= j < |es[n..]| ==> !Less(s, es[n..][j], es[..n][i])
  {
    assert es[..n] + es[n..] == es;
  }

  /** One text comes before another when it is a beginning of it, or has the smaller character where they first differ. */
  ghost predicate Lexicographic(a: string, b: string) {
    exists k: nat :: DiffersAt(a, b, k)
  }

  predicate DiffersAt(a: string, b: string, k: nat) {
    k <= |a| && k < |b| && a[..k] == b[..k] && (k == |a| || a[k] < b[k])
  }

  lemma {:induction false} PrecedesMeans(a: string, b: string)
    ensures Precedes(a, b) <==> Lexicographic(a, b)
    decreases |a|
  {
    if b != "" && (a == "" || a[0] < b[0]) {
      assert DiffersAt(a, b, 0);
    } else if b != "" && a[0] == b[0] {
      PrecedesMeans(a[1..], b[1..]);
      if k: nat :| DiffersAt(a[1..], b[1..], k) {
        assert a[..k + 1] == [a[0]] + a[1..][..k] && b[..k + 1] == [b[0]] + b[1..][..k];
        assert DiffersAt(a, b, k + 1);
      }
      if k: nat :| DiffersAt(a, b, k) {
        assert k > 0;
        assert a[1..][..k - 1] == a[..k][1..] && b[1..][..k - 1] == b[..k][1..];
        assert DiffersAt(a[1..], b[1..], k - 1);
      }
    } else if b != "" {
      forall k: nat ensures !DiffersAt(a, b, k) {
        if 0 < k <= |a| && k < |b| {
          assert a[..k][0] == a[0] && b[..k][0] == b[0];
        }
      }
    }
  }

  /** In what is kept folders come first, then folded names go upwards, and names where those are equal. */
  lemma {:induction false} KeptInOrder(s: Setup, es: seq<Raw>, limit: nat, i: nat, j: nat)
    requires i < j < |Smallest(s, es, limit)|
    ensures var (a, b) := (Smallest(s, es, limit)[i], Smallest(s, es, limit)[j]);
      && (b.node.Folder? ==> a.node.Folder?)
      && (a.node.Folder? == b.node.Folder? ==> !Lexicographic(s.fold(b.name), s.fold(a.name)))
      && (a.node.Folder? == b.node.Folder? && s.fold(a.name) == s.fold(b.name) ==> !Lexicographic(b.name, a.name))
  {
    var a, b := Smallest(s, es, limit)[i], Smallest(s, es, limit)[j];
    var rest := SmallestMeaning(s, es, limit);
    PrecedesMeans(s.fold(b.name), s.fold(a.name));
    PrecedesMeans(b.name, a.name);
  }

  lemma {:induction false} InsertBeyond(s: Setup, x: Raw, es: seq<Raw>, k: nat)
    requires 0 < k <= |es| && Ordered(s, es) && !Less(s, x, es[k - 1])
    ensures Insert(s, x, es)[..k] == es[..k]
  {
    if k > 1 {
      LessOrders(s, x, es[k - 1], es[0]);
      InsertBeyond(s, x, es[1..], k - 1);
      assert es[..k] == [es[0]] + es[1..][..k - 1];
    }
  }

  lemma {:induction false} InsertWithin(s: Setup, x: Raw, es: seq<Raw>, k: nat)
    requires 0 < k <= |es| && Less(s, x, es[k - 1])
    ensures Insert(s, x, es)[..k] == Insert(s, x, es[..k])[..k]
  {
    if !Less(s, x, es[0]) {
      InsertWithin(s, x, es[1..], k - 1);
      assert es[..k][1..] == es[1..][..k - 1];
    } else {
      assert ([x] + es)[..k] == ([x] + es[..k])[..k];
    }
  }

  /** What the scan does with one more candidate. */
  function Offer(s: Setup, kept: seq<Raw>, x: Raw, limit: nat): seq<Raw>
    requires |kept| <= limit
  {
    if |kept| < limit then Insert(s, x, kept)
    else if limit > 0 && Less(s, x, kept[limit - 1]) then Insert(s, x, kept)[..limit]
    else kept
  }

  /** Offering one candidate after the other keeps the smallest. */
  lemma {:induction false} SmallestSnoc(s: Setup, es: seq<Raw>, x: Raw, limit: nat)
    ensures Smallest(s, es + [x], limit) == Offer(s, Smallest(s, es, limit), x, limit)
  {
    assert (es + [x])[..|es|] == es;
    var sorted := Sorted(s, es);
    if 0 < limit <= |es| {
      SortedOrders(s, es);
      assert sorted[..|sorted|] == sorted;
      if Less(s, x, sorted[limit - 1]) {
        InsertWithin(s, x, sorted, limit);
      } else {
        InsertBeyond(s, x, sorted, limit);
      }
    }
  }

  /** Whether a scan considers an entry. */
  predicate IsCandidate(s: Setup, skipIgnored: bool, e: Raw) {
    e.fate.Shown? && !(skipIgnored && e.node.Folder? && e.name in s.ignored)
  }

  /** The candidates among the first `n` entries. */
  function Candidates(s: Setup, skipIgnored: bool, es: seq<Raw>, n: nat): (r: seq<Raw>)
    requires n <= |es|
    ensures |r| <= n
    decreases n, es
  {
    if n == 0 then []
    else Candidates(s, skipIgnored, es, n - 1) + if IsCandidate(s, skipIgnored, es[n - 1]) then [es[n - 1]] else []
  }

  lemma {:induction false} CandidatesAre(s: Setup, skipIgnored: bool, es: seq<Raw>, n: nat, e: Raw)
    requires n <= |es|
    ensures e in Candidates(s, skipIgnored, es, n) <==> IsCandidate(s, skipIgnored, e) && exists k :: 0 <= k < n && es[k] == e
  {
    if n > 0 {
      CandidatesAre(s, skipIgnored, es, n - 1, e);
    }
  }

  /** The scan has kept the smallest of the first `i` entries and dropped `excess` of them. */
  ghost predicate HasKept(s: Setup, skipIgnored: bool, es: seq<Raw>, i: nat, limit: nat, kept: seq<Raw>, excess: int) {
    i <= |es| && kept == Smallest(s, Candidates(s, skipIgnored, es, i), limit) && excess == |Candidates(s, skipIgnored, es, i)| - |kept|
  }

  lemma {:induction false} KeepsNext(s: Setup, skipIgnored: bool, es: seq<Raw>, i: nat, limit: nat, kept: seq<Raw>, excess: int)
    requires i < |es| && HasKept(s, skipIgnored, es, i, limit, kept, excess)
    ensures |kept| <= limit
    ensures !IsCandidate(s, skipIgnored, es[i]) ==> HasKept(s, skipIgnored, es, i + 1, limit, kept, excess)
    ensures IsCandidate(s, skipIgnored, es[i]) ==>
      HasKept(s, skipIgnored, es, i + 1, limit, Offer(s, kept, es[i], limit), excess + if |kept| < limit then 0 else 1)
  {
    var c := Candidates(s, skipIgnored, es, i);
    SmallestSnoc(s, c, es[i], limit);
    assert c + [] == c;
  }

  // ----- Walking all directories

  /** A directory that is still to be scanned. */
  datatype Task = Task(at: Path, entries: seq<Raw>, broken: bool)

  /** The files of a scanned directory, in their order. */
  function Files(at: Path, kept: seq<Raw>): seq<Path> {
    if kept == [] then [] else
      var e := kept[|kept| - 1];
      Files(at, kept[..|kept| - 1]) + if Yields(e) then [at + [e.name]] else []
  }

  predicate Yields(e: Raw) {
    e.node == Regular || (e.node.Link? && e.node.usable)
  }

  function Folders(at: Path, kept: seq<Raw>): seq<Task> {
    if kept == [] then [] else
      var e := kept[|kept| - 1];
      Folders(at, kept[..|kept| - 1]) + if e.node.Folder? then [Task(at + [e.name], e.node.entries, e.node.broken)] else []
  }

  ghost function Size(e: Raw): nat
    decreases e, 0
  {
    1 + if e.node.Folder? then Sizes(e.node.entries) else 0
  }

  ghost function Sizes(es: seq<Raw>): nat
    decreases es, 1
  {
    if es == [] then 0 else Size(es[0]) + Sizes(es[1..])
  }

  ghost function TaskSizes(tasks: seq<Task>): nat {
    if tasks == [] then 0 else 1 + Sizes(tasks[0].entries) + TaskSizes(tasks[1..])
  }

  lemma {:induction false} SizesAppend(a: seq<Raw>, b: seq<Raw>)
    ensures Sizes(a + b) == Sizes(a) + Sizes(b)
  {
    if a == [] {
      assert a + b == b;
    } else {
      SizesAppend(a[1..], b);
      assert (a + b)[1..] == a[1..] + b;
    }
  }

  lemma {:induction false} TaskSizesAppend(a: seq<Task>, b: seq<Task>)
    ensures TaskSizes(a + b) == TaskSizes(a) + TaskSizes(b)
  {
    if a == [] {
      assert a + b == b;
    } else {
      TaskSizesAppend(a[1..], b);
      assert (a + b)[1..] == a[1..] + b;
    }
  }

  lemma {:induction false} InsertSizes(s: Setup, x: Raw, es: seq<Raw>)
    ensures Sizes(Insert(s, x, es)) == Size(x) + Sizes(es)
  {
    if es != [] && !Less(s, x, es[0]) {
      InsertSizes(s, x, es[1..]);
    }
  }

  lemma {:induction false} SortedSizes(s: Setup, es: seq<Raw>)
    ensures Sizes(Sorted(s, es)) == Sizes(es)
  {
    if es != [] {
      var front, last := es[..|es| - 1], es[|es| - 1];
      SortedSizes(s, front);
      InsertSizes(s, last, Sorted(s, front));
      SizesAppend(front, [last]);
      assert es == front + [last];
    }
  }

  lemma {:induction false} CandidateSizes(s: Setup, skipIgnored: bool, es: seq<Raw>, n: nat)
    requires n <= |es|
    ensures Sizes(Candidates(s, skipIgnored, es, n)) <= Sizes(es[..n])
  {
    if n > 0 {
      var e := es[n - 1];
      CandidateSizes(s, skipIgnored, es, n - 1);
      SizesAppend(es[..n - 1], [e]);
      SizesAppend(Candidates(s, skipIgnored, es, n - 1), if IsCandidate(s, skipIgnored, e) then [e] else []);
      assert es[..n] == es[..n - 1] + [e];
    }
  }

  lemma {:induction false} FolderSizes(at: Path, kept: seq<Raw>)
    ensures TaskSizes(Folders(at, kept)) <= Sizes(kept)
  {
    if kept != [] {
      var front, last := kept[..|kept| - 1], kept[|kept| - 1];
      FolderSizes(at, front);
      SizesAppend(front, [last]);
      TaskSizesAppend(Folders(at, front), if last.node.Folder? then [Task(at + [last.name], last.node.entries, last.node.broken)] else []);
      assert kept == front + [last];
    }
  }

  /** What a scan without a limit on what it keeps has kept after `n` entries. */
  function Listed(s: Setup, es: seq<Raw>, n: nat): seq<Raw>
    requires n <= |es|
  {
    Sorted(s, Candidates(s, true, es, n))
  }

  /** All that a scan without limits keeps of a directory. */
  function Listing(s: Setup, t: Task): seq<Raw> {
    Listed(s, t.entries, |t.entries|)
  }

  lemma {:induction false} Shrinks(s: Setup, t: Task, rest: seq<Task>)
    ensures TaskSizes(Folders(t.at, Listing(s, t)) + rest) < TaskSizes([t] + rest)
  {
    CandidateSizes(s, true, t.entries, |t.entries|);
    assert t.entries[..|t.entries|] == t.entries;
    SortedSizes(s, Candidates(s, true, t.entries, |t.entries|));
    FolderSizes(t.at, Listing(s, t));
    TaskSizesAppend(Folders(t.at, Listing(s, t)), rest);
    assert ([t] + rest)[1..] == rest;
  }

  /** The files of a row of directories: each directory's own first, then those of its folders. */
  ghost function Walk(s: Setup, tasks: seq<Task>): seq<Path>
    decreases TaskSizes(tasks), s.maxScan
  {
    if tasks == [] then [] else
      var (t, rest) := (tasks[0], tasks[1..]);
      assert tasks == [t] + rest;
      Shrinks(s, t, rest);
      Files(t.at, Listing(s, t)) + Walk(s, Folders(t.at, Listing(s, t)) + rest)
  }

  /** A path of shown folders that are not ignored leads to a file. */
  ghost predicate Reaches(s: Setup, es: seq<Raw>, path: Path)
    decreases |path|, 1, es
  {
    path != [] && exists e :: e in es && ReachesThrough(s, e, path)
  }

  ghost predicate ReachesThrough(s: Setup, e: Raw, path: Path)
    requires path != []
    decreases |path|, 0, e
  {
    e.name == path[0] && IsCandidate(s, true, e) &&
    if |path| == 1 then Yields(e) else e.node.Folder? && Reaches(s, e.node.entries, path[1..])
  }

  lemma {:induction false} FilesAre(at: Path, kept: seq<Raw>, p: Path)
    ensures p in Files(at, kept) <==> exists e :: e in kept && Yields(e) && p == at + [e.name]
  {
    if kept != [] {
      FilesAre(at, kept[..|kept| - 1], p);
      assert kept == kept[..|kept| - 1] + [kept[|kept| - 1]];
    }
  }

  lemma {:induction false} FoldersAre(at: Path, kept: seq<Raw>, t: Task)
    ensures t in Folders(at, kept) <==>
      exists e :: e in kept && e.node.Folder? && t == Task(at + [e.name], e.node.entries, e.node.broken)
  {
    if kept != [] {
      FoldersAre(at, kept[..|kept| - 1], t);
      assert kept == kept[..|kept| - 1] + [kept[|kept| - 1]];
    }
  }

  lemma {:induction false} ListedAre(s: Setup, es: seq<Raw>, n: nat, e: Raw)
    requires n <= |es|
    ensures e in Listed(s, es, n) <==> IsCandidate(s, true, e) && exists k :: 0 <= k < n && es[k] == e
  {
    var c := Candidates(s, true, es, n);
    CandidatesAre(s, true, es, n, e);
    SortedOrders(s, c);
    assert e in c <==> e in multiset(c);
    assert e in Listed(s, es, n) <==> e in multiset(Listed(s, es, n));
  }

  lemma {:induction false} ListingIs(s: Setup, t: Task, e: Raw)
    ensures e in Listing(s, t) <==> e in t.entries && IsCandidate(s, true, e)
  {
    ListedAre(s, t.entries, |t.entries|, e);
  }

  ghost predicate ReachedFrom(s: Setup, t: Task, p: Path, rest: Path) {
    p == t.at + rest && Reaches(s, t.entries, rest)
  }

  /** One more directory on the way to a file. */
  lemma {:induction false} Extends(s: Setup, t: Task, e: Raw, rest: Path)
    requires e in t.entries && IsCandidate(s, true, e) && e.node.Folder? && Reaches(s, e.node.entries, rest)
    ensures ReachedFrom(s, t, t.at + [e.name] + rest, [e.name] + rest)
  {
    var path := [e.name] + rest;
    assert path[1..] == rest && t.at + [e.name] + rest == t.at + path;
    assert ReachesThrough(s, e, path);
  }

  /** What a directory reaches is a file of its own, or reached from one of its folders. */
  lemma {:induction false} ReachedOnce(s: Setup, t: Task, p: Path, rest: Path)
    requires ReachedFrom(s, t, p, rest)
    ensures p in Files(t.at, Listing(s, t)) || exists f, later :: f in Folders(t.at, Listing(s, t)) && ReachedFrom(s, f, p, later)
  {
    var e :| e in t.entries && ReachesThrough(s, e, rest);
    ListingIs(s, t, e);
    if |rest| == 1 {
      assert rest == [e.name];
      FilesAre(t.at, Listing(s, t), p);
    } else {
      var f := Task(t.at + [e.name], e.node.entries, e.node.broken);
      FoldersAre(t.at, Listing(s, t), f);
      assert rest == [e.name] + rest[1..];
      assert ReachedFrom(s, f, p, rest[1..]);
    }
  }

  lemma {:induction false} FileReached(s: Setup, t: Task, p: Path) returns (rest: Path)
    requires p in Files(t.at, Listing(s, t))
    ensures ReachedFrom(s, t, p, rest)
  {
    FilesAre(t.at, Listing(s, t), p);
    var e :| e in Listing(s, t) && Yields(e) && p == t.at + [e.name];
    ListingIs(s, t, e);
    rest := [e.name];
    assert ReachesThrough(s, e, rest);
  }

  lemma {:induction false} FolderReached(s: Setup, t: Task, f: Task, p: Path, later: Path) returns (rest: Path)
    requires f in Folders(t.at, Listing(s, t)) && ReachedFrom(s, f, p, later)
    ensures ReachedFrom(s, t, p, rest)
  {
    FoldersAre(t.at, Listing(s, t), f);
    var e :| e in Listing(s, t) && e.node.Folder? && f == Task(t.at + [e.name], e.node.entries, e.node.broken);
    ListingIs(s, t, e);
    Extends(s, t, e, later);
    rest := [e.name] + later;
  }

  /** The walk yields exactly the files that can be reached from one of its directories. */
  lemma {:induction false} WalkReaches(s: Setup, tasks: seq<Task>, p: Path)
    ensures p in Walk(s, tasks) <==> exists t, rest :: t in tasks && ReachedFrom(s, t, p, rest)
    decreases TaskSizes(tasks)
  {
    if tasks != [] {
      var t, later := tasks[0], tasks[1..];
      var folders := Folders(t.at, Listing(s, t));
      assert tasks == [t] + later;
      Shrinks(s, t, later);
      WalkReaches(s, folders + later, p);
      if u, rest :| u in tasks && ReachedFrom(s, u, p, rest) {
        if u == t {
          ReachedOnce(s, t, p, rest);
        } else {
          assert u in later;
        }
      }
      if p in Files(t.at, Listing(s, t)) {
        var rest := FileReached(s, t, p);
      } else if u, rest :| u in folders + later && ReachedFrom(s, u, p, rest) {
        if u in folders {
          var longer := FolderReached(s, t, u, p, rest);
        }
      }
    }
  }

  // ----- The scan at work

  function Reversed(tasks: seq<Task>): seq<Task> {
    if tasks == [] then [] else [tasks[|tasks| - 1]] + Reversed(tasks[..|tasks| - 1])
  }

  lemma {:induction false} ReversedAppend(a: seq<Task>, b: seq<Task>)
    ensures Reversed(a + b) == Reversed(b) + Reversed(a)
  {
    if b == [] {
      assert a + b == a;
    } else {
      ReversedAppend(a, b[..|b| - 1]);
      assert (a + b)[..|a + b| - 1] == a + b[..|b| - 1];
    }
  }

  lemma {:induction false} ReversedTwice(tasks: seq<Task>)
    ensures Reversed(Reversed(tasks)) == tasks
  {
    if tasks != [] {
      var front, last := tasks[..|tasks| - 1], tasks[|tasks| - 1];
      ReversedTwice(front);
      ReversedAppend([last], Reversed(front));
      assert Reversed([last]) == [last];
    }
  }

  /** Scanning the top of the stack and pushing its folders, the first one on top. */
  lemma {:induction false} WalkPops(s: Setup, front: seq<Task>, top: Task)
    ensures var folders := Folders(top.at, Listing(s, top));
      Walk(s, Reversed(front + [top])) == Files(top.at, Listing(s, top)) + Walk(s, Reversed(front + Reversed(folders)))
  {
    var folders := Folders(top.at, Listing(s, top));
    ReversedAppend(front, [top]);
    assert Reversed([top]) == [top];
    ReversedAppend(front, Reversed(folders));
    ReversedTwice(folders);
    assert ([top] + Reversed(front))[1..] == Reversed(front);
  }

  /** A scan that was cut short yields nothing that a full one does not. */
  lemma {:induction false} CutYieldsLess(s: Setup, t: Task, seen: nat, p: Path)
    requires seen <= |t.entries| && p in Files(t.at, Listed(s, t.entries, seen))
    ensures p in Files(t.at, Listing(s, t))
  {
    FilesAre(t.at, Listed(s, t.entries, seen), p);
    var e :| e in Listed(s, t.entries, seen) && Yields(e) && p == t.at + [e.name];
    ListedAre(s, t.entries, seen, e);
    ListingIs(s, t, e);
    FilesAre(t.at, Listing(s, t), p);
  }

  /** What has been yielded, and the walk over what is pending, make up everything. */
  ghost predicate Covers(s: Setup, yielded: seq<Path>, pending: seq<Task>, all: seq<Path>) {
    yielded + Walk(s, Reversed(pending)) == all
  }

  lemma {:induction false} RoundCovers(s: Setup, yielded: seq<Path>, front: seq<Task>, top: Task, all: seq<Path>)
    requires Covers(s, yielded, front + [top], all)
    ensures var files := Files(top.at, Listing(s, top));
      && Covers(s, yielded + files, front + Reversed(Folders(top.at, Listing(s, top))), all)
      && forall p :: p in files ==> p in all
  {
    WalkPops(s, front, top);
    Regroup(yielded, Files(top.at, Listing(s, top)), Walk(s, Reversed(front + Reversed(Folders(top.at, Listing(s, top))))));
  }

  lemma {:induction false} RoundNext(s: Setup, yielded: seq<Path>, pending: seq<Task>, all: seq<Path>)
    requires pending != [] && Covers(s, yielded, pending, all)
    ensures var (front, top) := (pending[..|pending| - 1], pending[|pending| - 1]);
      && Covers(s, yielded + Files(top.at, Listing(s, top)), front + Reversed(Folders(top.at, Listing(s, top))), all)
      && (forall p :: p in Files(top.at, Listing(s, top)) ==> p in all)
      && TaskSizes(front + Reversed([])) < TaskSizes(pending)
  {
    var front, top := pending[..|pending| - 1], pending[|pending| - 1];
    assert pending == front + [top] && front + Reversed([]) == front;
    RoundCovers(s, yielded, front, top, all);
    PopShrinks(front, top);
  }

  lemma {:induction false} StillWithin(yielded: seq<Path>, files: seq<Path>, listed: seq<Path>, all: seq<Path>)
    requires forall p :: p in yielded ==> p in all
    requires forall p :: p in files ==> p in listed
    requires forall p :: p in listed ==> p in all
    ensures forall p :: p in yielded + files ==> p in all
  {
  }

  lemma {:induction false} Regroup(a: seq<Path>, b: seq<Path>, c: seq<Path>)
    ensures a + (b + c) == (a + b) + c
    ensures forall p :: p in b ==> p in a + (b + c)
  {
  }

  /** Entries whose type could not be read. */
  function FailingAmong(entries: seq<Raw>): nat {
    if entries == [] then 0
    else FailingAmong(entries[..|entries| - 1]) + if entries[|entries| - 1].fate.Failing? then 1 else 0
  }

  lemma {:induction false} FailingNext(entries: seq<Raw>, i: nat)
    requires i < |entries|
    ensures FailingAmong(entries[..i + 1]) == FailingAmong(entries[..i]) + if entries[i].fate.Failing? then 1 else 0
  {
    assert entries[..i + 1][..i] == entries[..i];
  }

  class Scanner {
    const setup: Setup
    /** The poll from which on the stop callback says stop. */
    const stopsAt: Option<nat>
    var polls: nat
    var scanned: nat
    var skipped: nat
    var dropped: nat
    var exhausted: bool

    constructor (setup: Setup, stopsAt: Option<nat>)
      ensures this.setup == setup && this.stopsAt == stopsAt && polls == 0 && scanned == 0 && dropped == 0 && !exhausted
    {
      this.setup, this.stopsAt := setup, stopsAt;
      polls, scanned, skipped, dropped, exhausted := 0, 0, 0, 0, false;
    }

    /** Some poll has said stop. */
    predicate Stopped()
      reads this
    {
      stopsAt.Some? && polls > stopsAt.value
    }

    method Poll() returns (stop: bool)
      modifies this`polls
      ensures polls == old(polls) + 1 && stop == Stopped()
    {
      stop := stopsAt.Some? && polls >= stopsAt.value;
      polls := polls + 1;
    }

    /** After `i` entries: what is kept, and how many were dropped and skipped since the start. */
    ghost predicate Scanning(entries: seq<Raw>, i: nat, keepLimit: nat, skipIgnored: bool, kept: seq<Raw>, droppedThen: nat, skippedThen: nat)
      reads this`skipped, this`dropped
    {
      i <= |entries| && HasKept(setup, skipIgnored, entries, i, keepLimit, kept, dropped - droppedThen) && skipped == skippedThen + FailingAmong(entries[..i])
    }

    lemma {:induction false} NothingScanned(entries: seq<Raw>, keepLimit: nat, skipIgnored: bool)
      ensures Scanning(entries, 0, keepLimit, skipIgnored, [], dropped, skipped)
    {
    }

    method ScanEntry(entries: seq<Raw>, i: nat, keepLimit: nat, skipIgnored: bool, kept: seq<Raw>, ghost droppedThen: nat, ghost skippedThen: nat)
      returns (r: seq<Raw>)
      requires i < |entries| && Scanning(entries, i, keepLimit, skipIgnored, kept, droppedThen, skippedThen)
      modifies this`skipped, this`dropped
      ensures Scanning(entries, i + 1, keepLimit, skipIgnored, r, droppedThen, skippedThen)
    {
      KeepsNext(setup, skipIgnored, entries, i, keepLimit, kept, dropped - droppedThen);
      FailingNext(entries, i);
      r := Consider(entries[i], kept, keepLimit, skipIgnored);
    }

    /** The loop over the listing; it ends before the end only for the budget or the callback. */
    method ScanEntries(entries: seq<Raw>, keepLimit: nat, skipIgnored: bool) returns (kept: seq<Raw>, i: nat, ended: bool)
      modifies this`skipped, this`dropped, this`scanned, this`polls
      ensures i <= |entries| && scanned == old(scanned) + i && polls >= old(polls)
      ensures old(scanned) <= setup.maxScan ==> scanned <= setup.maxScan
      ensures Scanning(entries, i, keepLimit, skipIgnored, kept, old(dropped), old(skipped))
      ensures if ended then i == |entries| && scanned < setup.maxScan else scanned >= setup.maxScan || Stopped()
    {
      kept, i := [], 0;
      NothingScanned(entries, keepLimit, skipIgnored);
      while true
        invariant i <= |entries| && scanned == old(scanned) + i && polls >= old(polls)
        invariant old(scanned) <= setup.maxScan ==> scanned <= setup.maxScan
        invariant Scanning(entries, i, keepLimit, skipIgnored, kept, old(dropped), old(skipped))
        decreases |entries| - i
      {
        var next;
        ended, next := ScanRound(entries, i, keepLimit, skipIgnored, kept, old(dropped), old(skipped));
        if next.None? {
          return;
        }
        kept, i := next.value, i + 1;
      }
    }

    /** One round of it: nothing when the loop is over. */
    method ScanRound(entries: seq<Raw>, i: nat, keepLimit: nat, skipIgnored: bool, kept: seq<Raw>, ghost droppedThen: nat, ghost skippedThen: nat)
      returns (ended: bool, next: Option<seq<Raw>>)
      requires Scanning(entries, i, keepLimit, skipIgnored, kept, droppedThen, skippedThen)
      modifies this`skipped, this`dropped, this`scanned, this`polls
      ensures polls >= old(polls) && (old(scanned) <= setup.maxScan ==> scanned <= setup.maxScan)
      ensures next.None? ==> scanned == old(scanned) && Scanning(entries, i, keepLimit, skipIgnored, kept, droppedThen, skippedThen)
      ensures next.None? ==> if ended then i == |entries| && scanned < setup.maxScan else scanned >= setup.maxScan || Stopped()
      ensures next.Some? ==>
        i < |entries| && scanned == old(scanned) + 1 && Scanning(entries, i + 1, keepLimit, skipIgnored, next.value, droppedThen, skippedThen)
    {
      if scanned >= setup.maxScan {
        return false, None;
      }
      var stop := Poll();
      if stop || i == |entries| {
        return !stop, None;
      }
      var more := ScanEntry(entries, i, keepLimit, skipIgnored, kept, droppedThen, skippedThen);
      scanned := scanned + 1;
      return false, Some(more);
    }

    /** `_scan_directory`: of what it saw it keeps the smallest, and counts the rest as dropped. */
    method ScanDirectory(entries: seq<Raw>, broken: bool, keepLimit: nat, skipIgnored: bool, strict: bool)
      returns (r: Option<seq<Raw>>, seen: nat)
      modifies this
      ensures seen <= |entries| && scanned == old(scanned) + seen && polls >= old(polls)
      ensures old(scanned) <= setup.maxScan ==> scanned <= setup.maxScan
      ensures r.None? ==> strict && broken
      ensures var c := Candidates(setup, skipIgnored, entries, seen);
        && (r.Some? ==> r.value == Smallest(setup, c, keepLimit))
        && dropped == old(dropped) + (if |c| <= keepLimit then 0 else |c| - keepLimit)
      ensures r.Some? ==> (exhausted <==> old(exhausted) || scanned >= setup.maxScan)
      ensures r.Some? && seen < |entries| ==> exhausted || Stopped()
      ensures var ends := skipped - old(skipped) - FailingAmong(entries[..seen]);
        && (ends == 0 || (ends == 1 && broken && !strict && seen == |entries|))
        && (r.Some? && broken && !exhausted && !Stopped() ==> ends == 1)
    {
      var kept, ended;
      kept, seen, ended := ScanEntries(entries, keepLimit, skipIgnored);
      if ended && broken {
        skipped := if strict then skipped else skipped + 1;
        return if strict then None else Some(kept), seen;
      }
      exhausted := exhausted || scanned >= setup.maxScan;
      return Some(kept), seen;
    }

    /** One entry of a scan. */
    method Consider(e: Raw, kept: seq<Raw>, keepLimit: nat, skipIgnored: bool) returns (r: seq<Raw>)
      requires |kept| <= keepLimit
      modifies this`skipped, this`dropped
      ensures r == if IsCandidate(setup, skipIgnored, e) then Offer(setup, kept, e, keepLimit) else kept
      ensures dropped == old(dropped) + if IsCandidate(setup, skipIgnored, e) && |kept| == keepLimit then 1 else 0
      ensures skipped == old(skipped) + if e.fate.Failing? then 1 else 0
    {
      if e.fate.Failing? {
        skipped := skipped + 1;
        return kept;
      }
      if e.fate.Hidden? || (skipIgnored && e.node.Folder? && e.name in setup.ignored) {
        return kept;
      }
      if |kept| < keepLimit {
        return Insert(setup, e, kept);
      }
      dropped := dropped + 1;
      return if keepLimit > 0 && Less(setup, e, kept[|kept| - 1]) then Insert(setup, e, kept)[..keepLimit] else kept;
    }

    /** One directory of the walk; nothing is dropped because as much is kept as may be scanned. */
    method ScanNext(top: Task, strict: bool) returns (failed: bool, files: seq<Path>, folders: seq<Task>)
      requires scanned < setup.maxScan && !exhausted
      modifies this
      ensures scanned <= setup.maxScan && dropped == old(dropped) && polls >= old(polls)
      ensures failed ==> strict && top.broken
      ensures !failed ==> forall p :: p in files ==> p in Files(top.at, Listing(setup, top))
      ensures !failed && !exhausted && !Stopped() ==>
        files == Files(top.at, Listing(setup, top)) && folders == Folders(top.at, Listing(setup, top))
      ensures scanned > old(scanned) || (scanned == old(scanned) && folders == [])
    {
      var listed, seen := ScanDirectory(top.entries, top.broken, setup.maxScan - scanned, true, strict);
      if listed.None? {
        return true, [], [];
      }
      failed, files, folders := false, Files(top.at, listed.value), Folders(top.at, listed.value);
      forall p | p in files ensures p in Files(top.at, Listing(setup, top)) {
        CutYieldsLess(setup, top, seen, p);
      }
    }

    /** Nothing but files of the walk was yielded, and nothing is missing unless the scan was cut off. */
    ghost predicate Walking(yielded: seq<Path>, pending: seq<Task>, all: seq<Path>)
      reads this
    {
      && (!exhausted && !Stopped() ==> Covers(setup, yielded, pending, all))
      && forall p :: p in yielded ==> p in all
    }

    /** One round of the walk: the last pending directory is replaced by its folders, in reverse. */
    method WalkRound(yielded: seq<Path>, pending: seq<Task>, strict: bool, ghost all: seq<Path>)
      returns (failed: bool, found: seq<Path>, left: seq<Task>)
      requires pending != [] && scanned < setup.maxScan && !exhausted && !Stopped() && Walking(yielded, pending, all)
      modifies this
      ensures scanned <= setup.maxScan && dropped == old(dropped)
      ensures failed ==> strict && pending[|pending| - 1].broken
      ensures !failed ==> Walking(found, left, all)
      ensures scanned > old(scanned) || (!failed && scanned == old(scanned) ==> TaskSizes(left) < TaskSizes(pending))
      ensures scanned >= old(scanned)
    {
      var top := pending[|pending| - 1];
      RoundNext(setup, yielded, pending, all);
      var files, folders;
      failed, files, folders := ScanNext(top, strict);
      found, left := yielded + files, pending[..|pending| - 1] + Reversed(folders);
      if !failed {
        StillWithin(yielded, files, Files(top.at, Listing(setup, top)), all);
      }
    }

    /** `_iter_files` from a directory: only files that can be reached, and all of them in the order of
        the walk unless the budget ran out or the callback said stop; no entry is ever dropped. */
    method IterFiles(root: seq<Raw>, broken: bool) returns (r: Option<seq<Path>>)
      requires scanned <= setup.maxScan && !exhausted
      modifies this
      ensures scanned <= setup.maxScan && dropped == old(dropped)
      ensures r.None? ==> broken
      ensures r.Some? ==> forall p :: p in r.value ==> p in Walk(setup, [Task([], root, broken)])
      ensures r.Some? && !exhausted && !Stopped() ==> r.value == Walk(setup, [Task([], root, broken)])
    {
      var target := Task([], root, broken);
      ghost var all := Walk(setup, [target]);
      var pending := [target];
      var yielded: seq<Path> := [];
      var first := true;
      assert Reversed(pending) == [target];
      while pending != [] && !exhausted
        invariant scanned <= setup.maxScan && dropped == old(dropped)
        invariant first ==> pending == [target]
        invariant Walking(yielded, pending, all)
        decreases setup.maxScan - scanned, TaskSizes(pending)
      {
        var stop := Poll();
        if stop {
          break;
        }
        if setup.maxScan - scanned <= 0 {
          exhausted := true;
          break;
        }
        var failed;
        failed, yielded, pending := WalkRound(yielded, pending, first, all);
        if failed {
          return None;
        }
        first := false;
      }
      return Some(yielded);
    }
  }

  lemma {:induction false} PopShrinks(front: seq<Task>, top: Task)
    ensures TaskSizes(front) < TaskSizes(front + [top])
  {
    TaskSizesAppend(front, [top]);
  }
}
