/** Compiled character classes: folded literals plus sorted, merged code-point ranges.

    A character is compared through its key: the character itself, or its case
    folding when case is ignored. A folding may be several characters long. */
module CharSets {

  type Keying = char -> string

  /** A character class as the pattern spells it. */
  datatype ClassItems = ClassItems(literals: set<char>, ranges: seq<(char, char)>, negated: bool)

  datatype Interval = Interval(lo: int, hi: int)

  datatype CharSet = CharSet(literals: set<string>, ranges: seq<Interval>, starts: seq<int>, negated: bool)
  {
    /** Membership with one bisection of the range starts. */
    predicate Matches(key: string) {
      var matched := key in literals ||
        (|key| == 1 && starts != [] &&
         var index := BisectRight(starts, key[0] as int) - 1;
         0 <= index < |ranges| && key[0] as int <= ranges[index].hi);
      if negated then !matched else matched
    }

    ghost predicate Valid() {
      && Separated(ranges)
      && |starts| == |ranges|
      && forall i :: 0 <= i < |starts| ==> starts[i] == ranges[i].lo
    }
  }

  ghost predicate Covers(ranges: seq<Interval>, x: int) {
    exists r :: r in ranges && r.lo <= x <= r.hi
  }

  /** The folded endpoints of a written range that still delimit something. */
  ghost predicate KeptRange(range: (char, char), key: Keying, x: int) {
    var (a, b) := (key(range.0), key(range.1));
    |a| == 1 && |b| == 1 && a[0] as int <= x <= b[0] as int
  }

  /** What a class means: the key of a listed literal, or inside any kept range. */
  ghost predicate Denotes(items: ClassItems, key: Keying, k: string) {
    items.negated !=
    ((exists c :: c in items.literals && key(c) == k) ||
     (|k| == 1 && exists r :: r in items.ranges && KeptRange(r, key, k[0] as int)))
  }

  ghost predicate Separated(ranges: seq<Interval>) {
    && (forall r :: r in ranges ==> r.lo <= r.hi)
    && (forall i, j :: 0 <= i < j < |ranges| ==> ranges[i].hi + 1 < ranges[j].lo)
  }

  predicate Before(a: Interval, b: Interval) {
    a.lo < b.lo || (a.lo == b.lo && a.hi <= b.hi)
  }

  ghost predicate Ordered(ranges: seq<Interval>) {
    forall i, j :: 0 <= i < j < |ranges| ==> Before(ranges[i], ranges[j])
  }

  function Insert(x: Interval, ranges: seq<Interval>): seq<Interval> {
    if ranges == [] || Before(x, ranges[0]) then [x] + ranges
    else [ranges[0]] + Insert(x, ranges[1..])
  }

  lemma {:induction false} InsertOrders(x: Interval, ranges: seq<Interval>)
    requires Ordered(ranges)
    ensures Ordered(Insert(x, ranges))
    ensures forall y :: y in Insert(x, ranges) <==> y == x || y in ranges
  {
    if ranges != [] && !Before(x, ranges[0]) {
      var tail := Insert(x, ranges[1..]);
      InsertOrders(x, ranges[1..]);
      forall j | 0 <= j < |tail| ensures Before(ranges[0], tail[j]) {
        assert tail[j] in tail;
      }
    }
  }

  /** The built-in sort of a list of pairs. */
  function Sorted(ranges: seq<Interval>): seq<Interval> {
    if ranges == [] then [] else Insert(ranges[0], Sorted(ranges[1..]))
  }

  lemma {:induction false} SortedOrders(ranges: seq<Interval>)
    ensures Ordered(Sorted(ranges))
    ensures forall y :: y in Sorted(ranges) <==> y in ranges
  {
    if ranges != [] {
      SortedOrders(ranges[1..]);
      InsertOrders(ranges[0], Sorted(ranges[1..]));
    }
  }

  /** The usable ranges of a class, folded, in the order they are written. */
  function Normalized(ranges: seq<(char, char)>, key: Keying): seq<Interval> {
    if ranges == [] then [] else
      var (a, b) := (key(ranges[0].0), key(ranges[0].1));
      if |a| == 1 && |b| == 1 && a[0] <= b[0] then
        [Interval(a[0] as int, b[0] as int)] + Normalized(ranges[1..], key)
      else
        Normalized(ranges[1..], key)
  }

  lemma {:induction false} NormalizedProper(ranges: seq<(char, char)>, key: Keying)
    ensures forall r :: r in Normalized(ranges, key) ==> r.lo <= r.hi
  {
    if ranges != [] {
      NormalizedProper(ranges[1..], key);
    }
  }

  /** One step of the merge: extend the last range when it overlaps or touches. */
  function MergeInto(merged: seq<Interval>, cur: Interval): seq<Interval> {
    if merged != [] && cur.lo <= merged[|merged| - 1].hi + 1 then
      var last := merged[|merged| - 1];
      merged[|merged| - 1 := Interval(last.lo, if last.hi < cur.hi then cur.hi else last.hi)]
    else
      merged + [cur]
  }

  function Merged(ranges: seq<Interval>): seq<Interval> {
    if ranges == [] then [] else
      MergeInto(Merged(ranges[..|ranges| - 1]), ranges[|ranges| - 1])
  }

  function Starts(ranges: seq<Interval>): seq<int> {
    seq(|ranges|, i requires 0 <= i < |ranges| => ranges[i].lo)
  }

  function Compiled(items: ClassItems, key: Keying): CharSet {
    var ranges := Merged(Sorted(Normalized(items.ranges, key)));
    CharSet(set c | c in items.literals :: key(c), ranges, Starts(ranges), items.negated)
  }

  /** `_CharacterSet.compile`. */
  method Compile(items: ClassItems, key: Keying) returns (r: CharSet)
    ensures r == Compiled(items, key)
  {
    var normalized := Normalize(items.ranges, key);
    var merged := Merge(Sorted(normalized));
    r := CharSet(set c | c in items.literals :: key(c), merged, Starts(merged), items.negated);
  }

  /** The loop that folds the endpoints and drops unusable ranges. */
  method Normalize(ranges: seq<(char, char)>, key: Keying) returns (normalized: seq<Interval>)
    ensures normalized == Normalized(ranges, key)
  {
    normalized := [];
    for n := 0 to |ranges|
      invariant normalized == Normalized(ranges[..n], key)
    {
      NormalizedSnoc(ranges[..n], ranges[n], key);
      assert ranges[..n + 1] == ranges[..n] + [ranges[n]];
      var (a, b) := (key(ranges[n].0), key(ranges[n].1));
      if |a| != 1 || |b| != 1 {
        continue;
      }
      if a[0] <= b[0] {
        normalized := normalized + [Interval(a[0] as int, b[0] as int)];
      }
    }
    assert ranges[..|ranges|] == ranges;
  }

  /** The loop that merges overlapping and touching ranges. */
  method Merge(ordered: seq<Interval>) returns (merged: seq<Interval>)
    ensures merged == Merged(ordered)
  {
    merged := [];
    for n := 0 to |ordered|
      invariant merged == Merged(ordered[..n])
    {
      var cur := ordered[n];
      assert ordered[..n + 1][..n] == ordered[..n];
      if merged != [] && cur.lo <= merged[|merged| - 1].hi + 1 {
        var last := merged[|merged| - 1];
        merged := merged[|merged| - 1 := Interval(last.lo, if last.hi < cur.hi then cur.hi else last.hi)];
      } else {
        merged := merged + [cur];
      }
    }
    assert ordered[..|ordered|] == ordered;
  }

  lemma {:induction false} NormalizedSnoc(ranges: seq<(char, char)>, last: (char, char), key: Keying)
    ensures Normalized(ranges + [last], key) == Normalized(ranges, key) + Normalized([last], key)
  {
    if ranges != [] {
      NormalizedSnoc(ranges[1..], last, key);
      assert (ranges + [last])[1..] == ranges[1..] + [last];
    }
  }

  lemma {:induction false} NormalizedCovers(ranges: seq<(char, char)>, key: Keying, x: int)
    ensures Covers(Normalized(ranges, key), x) <==> exists r :: r in ranges && KeptRange(r, key, x)
  {
    if ranges != [] {
      NormalizedCovers(ranges[1..], key, x);
      assert forall r :: r in ranges <==> r == ranges[0] || r in ranges[1..];
      var head := Normalized([ranges[0]], key);
      NormalizedSnoc([], ranges[0], key);
      assert Normalized(ranges, key) == head + Normalized(ranges[1..], key);
      assert Covers(head, x) <==> KeptRange(ranges[0], key, x) by {
        if KeptRange(ranges[0], key, x) {
          assert head[0] in head;
        }
      }
    }
  }

  lemma {:induction false} CoversSnoc(front: seq<Interval>, cur: Interval, x: int)
    ensures Covers(front + [cur], x) <==> Covers(front, x) || cur.lo <= x <= cur.hi
  {
    assert (front + [cur])[|front|] == cur;
    if Covers(front, x) {
      var r :| r in front && r.lo <= x <= r.hi;
      assert r in front + [cur];
    }
  }

  /** The last merged range starts no later than the last range. */
  ghost predicate EndsBy(merged: seq<Interval>, lo: int) {
    merged != [] && merged[|merged| - 1].lo <= lo
  }

  /** Merging leaves gaps between ranges. */
  lemma {:induction false} MergedSeparated(ranges: seq<Interval>)
    requires Ordered(ranges)
    requires forall r :: r in ranges ==> r.lo <= r.hi
    ensures Separated(Merged(ranges))
    ensures ranges != [] ==> EndsBy(Merged(ranges), ranges[|ranges| - 1].lo)
  {
    if ranges != [] {
      var front, cur := ranges[..|ranges| - 1], ranges[|ranges| - 1];
      MergedSeparated(front);
      if front != [] {
        assert Before(ranges[|ranges| - 2], cur);
      }
      MergeSeparates(Merged(front), cur);
    }
  }

  lemma {:induction false} MergeSeparates(merged: seq<Interval>, cur: Interval)
    requires Separated(merged) && cur.lo <= cur.hi
    requires merged != [] ==> EndsBy(merged, cur.lo)
    ensures Separated(MergeInto(merged, cur)) && EndsBy(MergeInto(merged, cur), cur.lo)
  {
    if merged != [] {
      assert merged[|merged| - 1] in merged;
    }
  }

  /** Merging keeps exactly the covered code points. */
  lemma {:induction false} MergedCovers(ranges: seq<Interval>, x: int)
    requires Ordered(ranges)
    requires forall r :: r in ranges ==> r.lo <= r.hi
    ensures Covers(Merged(ranges), x) <==> Covers(ranges, x)
  {
    if ranges != [] {
      var front, cur := ranges[..|ranges| - 1], ranges[|ranges| - 1];
      MergedCovers(front, x);
      MergedEndsBy(ranges);
      assert Merged(ranges) == MergeInto(Merged(front), cur);
      MergeCovers(Merged(front), cur, x);
      CoversSnoc(front, cur, x);
      assert ranges == front + [cur];
    }
  }

  lemma {:induction false} MergedEndsBy(ranges: seq<Interval>)
    requires ranges != [] && Ordered(ranges) && forall r :: r in ranges ==> r.lo <= r.hi
    ensures var merged := Merged(ranges[..|ranges| - 1]); merged != [] ==> EndsBy(merged, ranges[|ranges| - 1].lo)
  {
    var front := ranges[..|ranges| - 1];
    MergedSeparated(front);
    if front != [] {
      assert Before(ranges[|ranges| - 2], ranges[|ranges| - 1]);
    }
  }

  lemma {:induction false} MergeCovers(merged: seq<Interval>, cur: Interval, x: int)
    requires cur.lo <= cur.hi && (merged != [] ==> EndsBy(merged, cur.lo))
    ensures Covers(MergeInto(merged, cur), x) <==> Covers(merged, x) || cur.lo <= x <= cur.hi
  {
    if merged != [] && cur.lo <= merged[|merged| - 1].hi + 1 {
      var front, last := merged[..|merged| - 1], merged[|merged| - 1];
      var grown := Interval(last.lo, if last.hi < cur.hi then cur.hi else last.hi);
      assert merged == front + [last] && MergeInto(merged, cur) == front + [grown];
      CoversSnoc(front, last, x);
      CoversSnoc(front, grown, x);
    } else {
      CoversSnoc(merged, cur, x);
    }
  }

  /** Python's `bisect_right`: how many starts are at most `x`. */
  function BisectRight(starts: seq<int>, x: int): (k: nat)
    ensures k <= |starts|
  {
    BisectBetween(starts, x, 0, |starts|)
  }

  function BisectBetween(starts: seq<int>, x: int, lo: nat, hi: nat): (k: nat)
    requires lo <= hi <= |starts|
    ensures lo <= k <= hi
    decreases hi - lo
  {
    if lo == hi then lo else
      var mid := (lo + hi) / 2;
      if x < starts[mid] then BisectBetween(starts, x, lo, mid)
      else BisectBetween(starts, x, mid + 1, hi)
  }

  lemma {:induction false} BisectSplits(starts: seq<int>, x: int, lo: nat, hi: nat)
    requires lo <= hi <= |starts|
    requires forall i, j :: 0 <= i < j < |starts| ==> starts[i] <= starts[j]
    requires forall i :: 0 <= i < lo ==> starts[i] <= x
    requires forall i :: hi <= i < |starts| ==> x < starts[i]
    ensures forall i :: 0 <= i < |starts| ==> (starts[i] <= x <==> i < BisectBetween(starts, x, lo, hi))
    decreases hi - lo
  {
    if lo < hi {
      var mid := (lo + hi) / 2;
      if x < starts[mid] {
        BisectSplits(starts, x, lo, mid);
      } else {
        BisectSplits(starts, x, mid + 1, hi);
      }
    }
  }

  lemma {:induction false} GapBetween(ranges: seq<Interval>, i: nat, j: nat)
    requires Separated(ranges) && i < |ranges| && j < |ranges|
    ensures i < j ==> ranges[i].hi + 1 < ranges[j].lo
  {
  }

  /** Bisection finds the only separated range that can contain a code point. */
  lemma {:induction false} BisectFinds(cs: CharSet, x: int)
    requires cs.Valid() && cs.starts != []
    ensures var index := BisectRight(cs.starts, x) - 1;
      Covers(cs.ranges, x) <==> 0 <= index < |cs.ranges| && x <= cs.ranges[index].hi
  {
    BisectPlaces(cs, x);
    var index := BisectRight(cs.starts, x) - 1;
    if Covers(cs.ranges, x) {
      var r :| r in cs.ranges && r.lo <= x <= r.hi;
      var i :| 0 <= i < |cs.ranges| && cs.ranges[i] == r;
      GapBetween(cs.ranges, i, index);
    }
    if 0 <= index < |cs.ranges| && x <= cs.ranges[index].hi {
      assert cs.ranges[index] in cs.ranges;
    }
  }

  lemma {:induction false} BisectPlaces(cs: CharSet, x: int)
    requires cs.Valid()
    ensures 0 <= BisectRight(cs.starts, x) <= |cs.ranges|
    ensures forall i :: 0 <= i < |cs.ranges| ==> (cs.ranges[i].lo <= x <==> i < BisectRight(cs.starts, x))
  {
    forall i, j | 0 <= i < j < |cs.starts| ensures cs.starts[i] <= cs.starts[j] {
      assert cs.ranges[i] in cs.ranges;
      GapBetween(cs.ranges, i, j);
    }
    BisectSplits(cs.starts, x, 0, |cs.starts|);
  }

  lemma {:induction false} CompiledCovers(items: ClassItems, key: Keying)
    ensures Compiled(items, key).Valid()
    ensures forall x :: Covers(Compiled(items, key).ranges, x) <==>
      exists r :: r in items.ranges && KeptRange(r, key, x)
  {
    var normalized := Normalized(items.ranges, key);
    var ordered := Sorted(normalized);
    NormalizedProper(items.ranges, key);
    SortedOrders(normalized);
    MergedSeparated(ordered);
    forall x ensures Covers(Merged(ordered), x) <==> exists r :: r in items.ranges && KeptRange(r, key, x) {
      NormalizedCovers(items.ranges, key, x);
      MergedCovers(ordered, x);
      assert Covers(ordered, x) <==> Covers(normalized, x);
    }
  }

  /** A valid set accepts a key by bisection exactly when a literal or a range has it. */
  lemma {:induction false} MatchesMeaning(cs: CharSet, k: string)
    requires cs.Valid()
    ensures cs.Matches(k) <==> (cs.negated != (k in cs.literals || (|k| == 1 && Covers(cs.ranges, k[0] as int))))
  {
    if |k| == 1 && cs.starts != [] {
      BisectFinds(cs, k[0] as int);
    }
  }

  /** A compiled class accepts exactly the keys its source items denote. */
  lemma {:induction false} CompiledMeaning(items: ClassItems, key: Keying, k: string)
    ensures Compiled(items, key).Matches(k) <==> Denotes(items, key, k)
  {
    CompiledCovers(items, key);
    MatchesMeaning(Compiled(items, key), k);
  }
}
