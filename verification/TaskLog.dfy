/** The log of a service: a ring of chunks bounded in bytes, read page by page with absolute cursors. */
module TaskLogs {

  type Byte = bv8

  datatype Stream = Stdout | Stderr

  /** One byte of the history, with the stream it came from. */
  datatype Tagged = Tagged(stream: Stream, byte: Byte)

  datatype Chunk = Chunk(start: nat, end: nat, stream: Stream, data: seq<Byte>)

  datatype Page = Page(cursor: nat, nextCursor: nat, stdout: seq<Byte>, stderr: seq<Byte>, truncated: bool, hasMore: bool)

  datatype ReadResult = Read(page: Page) | NegativeCursor | BeyondEnd

  const PAGE := 65536

  // ----- The history and its streams

  function Tag(stream: Stream, data: seq<Byte>): (r: seq<Tagged>)
    ensures |r| == |data|
  {
    seq(|data|, i requires 0 <= i < |data| => Tagged(stream, data[i]))
  }

  /** The bytes of one stream, in order. */
  function Of(history: seq<Tagged>, stream: Stream): seq<Byte> {
    if history == [] then [] else
      var last := history[|history| - 1];
      Of(history[..|history| - 1], stream) + if last.stream == stream then [last.byte] else []
  }

  function Flat(chunks: seq<Chunk>): seq<Tagged> {
    if chunks == [] then [] else
      var last := chunks[|chunks| - 1];
      Flat(chunks[..|chunks| - 1]) + Tag(last.stream, last.data)
  }

  function Min(a: nat, b: nat): nat {
    if a < b then a else b
  }

  function Max(a: nat, b: nat): nat {
    if a < b then b else a
  }

  /** What a read at `cursor` returns when the bytes before `base` are gone. */
  function PageAt(history: seq<Tagged>, base: nat, cursor: nat): Page
    requires base <= |history| && cursor <= |history|
  {
    var from := Max(cursor, base);
    var to := Min(from + PAGE, |history|);
    Page(from, to, Of(history[from..to], Stdout), Of(history[from..to], Stderr), cursor < base, to < |history|)
  }

  /** A page holds the bytes from the first one on that is behind the cursor and still there, in order, each with its stream,
      as many as fit; it says that it is truncated when a byte behind the cursor is gone, and that there is more when there is. */
  lemma {:induction false} PageMeans(history: seq<Tagged>, base: nat, cursor: nat, i: nat)
    requires base <= |history| && cursor <= |history| && i < |history|
    ensures var page := PageAt(history, base, cursor);
      && (page.cursor <= i < page.nextCursor <==> cursor <= i && base <= i && i - (if cursor < base then base else cursor) < 65536)
      && |page.stdout| + |page.stderr| == page.nextCursor - page.cursor
      && (page.truncated <==> base - cursor > 0) && (page.hasMore <==> page.nextCursor != |history|)
      && page.cursor <= page.nextCursor <= |history|
  {
    var page := PageAt(history, base, cursor);
    Streams(history[page.cursor..page.nextCursor]);
  }

  /** A byte belongs to the stream that it is tagged with, in its place. */
  lemma {:induction false} StreamsKeepOrder(history: seq<Tagged>, i: nat)
    requires i < |history|
    ensures var t := history[i];
      && Of(history[..i + 1], t.stream) == Of(history[..i], t.stream) + [t.byte]
      && (t.stream == Stdout ==> Of(history[..i + 1], Stderr) == Of(history[..i], Stderr))
      && (t.stream == Stderr ==> Of(history[..i + 1], Stdout) == Of(history[..i], Stdout))
  {
    assert history[..i + 1][..i] == history[..i];
  }

  lemma {:induction false} Streams(bytes: seq<Tagged>)
    ensures |Of(bytes, Stdout)| + |Of(bytes, Stderr)| == |bytes|
  {
    if bytes != [] {
      Streams(bytes[..|bytes| - 1]);
    }
  }

  lemma {:induction false} OfAppend(a: seq<Tagged>, b: seq<Tagged>, stream: Stream)
    ensures Of(a + b, stream) == Of(a, stream) + Of(b, stream)
    decreases |b|
  {
    if b == [] {
      assert a + b == a;
    } else {
      var front, last := b[..|b| - 1], b[|b| - 1];
      OfAppend(a, front, stream);
      assert (a + b)[..|a + b| - 1] == a + front && (a + b)[|a + b| - 1] == last;
    }
  }

  lemma {:induction false} OfTag(stream: Stream, data: seq<Byte>, other: Stream)
    ensures Of(Tag(stream, data), other) == if stream == other then data else []
  {
    if data != [] {
      var front := data[..|data| - 1];
      OfTag(stream, front, other);
      TagSlice(stream, data, 0, |data| - 1);
      assert Tag(stream, data)[..|data| - 1] == Tag(stream, data)[0..|data| - 1] && data[0..|data| - 1] == front;
      assert data == front + [data[|data| - 1]];
    }
  }

  lemma {:induction false} SliceSlice<T>(s: seq<T>, a: nat, b: nat, i: nat, j: nat)
    requires a <= b <= |s| && i <= j <= b - a
    ensures s[a..b][i..j] == s[a + i..a + j]
  {
    forall k | 0 <= k < j - i ensures s[a..b][i..j][k] == s[a + i..a + j][k] {
      assert s[a..b][i + k] == s[a + i + k];
    }
  }

  lemma {:induction false} DropDrop<T>(s: seq<T>, a: nat, n: nat)
    requires a + n <= |s|
    ensures s[a..][n..] == s[a + n..]
  {
  }

  lemma {:induction false} JoinSlices<T>(s: seq<T>, a: nat, b: nat, c: nat)
    requires a <= b <= c <= |s|
    ensures s[a..b] + s[b..c] == s[a..c]
  {
  }

  lemma {:induction false} DropAppend<T>(a: seq<T>, b: seq<T>, n: nat)
    requires n <= |a|
    ensures (a + b)[n..] == a[n..] + b && (a + b)[|a|..] == b
  {
  }

  lemma {:induction false} EndOfAppend<T>(a: seq<T>, b: seq<T>, n: nat)
    requires n <= |b|
    ensures (a + b)[|a| + n..] == b[n..]
  {
  }

  lemma {:induction false} TagSlice(stream: Stream, data: seq<Byte>, i: nat, j: nat)
    requires i <= j <= |data|
    ensures Tag(stream, data)[i..j] == Tag(stream, data[i..j]) && Tag(stream, data)[i..] == Tag(stream, data[i..])
  {
  }

  lemma {:induction false} FlatOne(c: Chunk)
    ensures Flat([c]) == Tag(c.stream, c.data)
    ensures c.data != [] && c.end == c.start + |c.data| ==> Placed([c], c.start, c.end)
  {
    FlatSnoc([], c);
    if c.data != [] && c.end == c.start + |c.data| {
      PlacedSnoc([], c.start, c);
    }
    assert [] + [c] == [c];
    assert Flat([]) + Tag(c.stream, c.data) == Tag(c.stream, c.data);
  }

  lemma {:induction false} FlatSnoc(chunks: seq<Chunk>, c: Chunk)
    ensures Flat(chunks + [c]) == Flat(chunks) + Tag(c.stream, c.data)
  {
    assert (chunks + [c])[..|chunks|] == chunks;
  }

  lemma {:induction false} Regroup<T>(a: seq<T>, b: seq<T>, c: seq<T>)
    ensures a + (b + c) == (a + b) + c
  {
  }

  lemma {:induction false} LastBehind<T>(s: seq<T>)
    requires s != []
    ensures s == s[..|s| - 1] + [s[|s| - 1]]
  {
  }

  lemma {:induction false} FlatCons(c: Chunk, chunks: seq<Chunk>)
    ensures Flat([c] + chunks) == Tag(c.stream, c.data) + Flat(chunks)
    decreases |chunks|
  {
    if chunks == [] {
      FlatOne(c);
      assert [c] + chunks == [c];
    } else {
      var front, last := chunks[..|chunks| - 1], chunks[|chunks| - 1];
      FlatCons(c, front);
      LastBehind(chunks);
      Regroup([c], front, [last]);
      FlatSnoc([c] + front, last);
      Regroup(Tag(c.stream, c.data), Flat(front), Tag(last.stream, last.data));
    }
  }

  /** The chunks cover `base..next` without a gap, and none is empty. */
  predicate Placed(chunks: seq<Chunk>, base: nat, next: nat) {
    if chunks == [] then base == next else
      var last := chunks[|chunks| - 1];
      last.data != [] && last.end == next == last.start + |last.data| && Placed(chunks[..|chunks| - 1], base, last.start)
  }

  lemma {:induction false} PlacedSnoc(chunks: seq<Chunk>, base: nat, c: Chunk)
    requires Placed(chunks, base, c.start) && c.data != [] && c.end == c.start + |c.data|
    ensures Placed(chunks + [c], base, c.end)
  {
    assert (chunks + [c])[..|chunks|] == chunks;
  }

  lemma {:induction false} PlacedTail(c: Chunk, chunks: seq<Chunk>, base: nat, next: nat)
    requires Placed([c] + chunks, base, next)
    ensures c.start == base && c.end == base + |c.data| && c.data != [] && Placed(chunks, c.end, next)
    decreases |chunks|
  {
    var all := [c] + chunks;
    if chunks == [] {
      assert all[..0] == [];
    } else {
      assert all[..|all| - 1] == [c] + chunks[..|chunks| - 1];
      PlacedTail(c, chunks[..|chunks| - 1], base, chunks[|chunks| - 1].start);
    }
  }

  lemma {:induction false} PlacedCons(c: Chunk, chunks: seq<Chunk>, base: nat, next: nat)
    requires Placed(chunks, c.end, next) && c.start == base && c.end == base + |c.data| && c.data != []
    ensures Placed([c] + chunks, base, next)
    decreases |chunks|
  {
    var all := [c] + chunks;
    if chunks == [] {
      assert all[..0] == [];
    } else {
      assert all[..|all| - 1] == [c] + chunks[..|chunks| - 1];
      PlacedCons(c, chunks[..|chunks| - 1], base, chunks[|chunks| - 1].start);
    }
  }

  /** Dropping the first chunk drops its bytes of the history. */
  lemma {:induction false} DropFlat(history: seq<Tagged>, first: Chunk, rest: seq<Chunk>)
    requires first.end == first.start + |first.data| <= |history|
    requires Tag(first.stream, first.data) + Flat(rest) == history[first.start..]
    ensures Flat(rest) == history[first.end..]
  {
    DropDrop(history, first.start, |first.data|);
    DropAppend(Tag(first.stream, first.data), Flat(rest), 0);
  }

  lemma {:induction false} TrimFlat(history: seq<Tagged>, first: Chunk, rest: seq<Chunk>, n: nat)
    requires first.start + |first.data| <= |history| && n <= |first.data|
    requires Tag(first.stream, first.data) + Flat(rest) == history[first.start..]
    ensures Tag(first.stream, first.data[n..]) + Flat(rest) == history[first.start + n..]
  {
    DropDrop(history, first.start, n);
    DropAppend(Tag(first.stream, first.data), Flat(rest), n);
    TagSlice(first.stream, first.data, n, |first.data|);
  }

  /** The chunks are the end of the history, from `base` on. */
  ghost predicate Tails(chunks: seq<Chunk>, base: nat, next: nat, history: seq<Tagged>) {
    base <= next == |history| && Flat(chunks) == history[base..] && Placed(chunks, base, next)
  }

  lemma {:induction false} PushTails(chunks: seq<Chunk>, base: nat, next: nat, history: seq<Tagged>, stream: Stream, data: seq<Byte>)
    requires Tails(chunks, base, next, history) && data != []
    ensures Tails(chunks + [Chunk(next, next + |data|, stream, data)], base, next + |data|, history + Tag(stream, data))
  {
    var c := Chunk(next, next + |data|, stream, data);
    FlatSnoc(chunks, c);
    PlacedSnoc(chunks, base, c);
    DropAppend(history, Tag(stream, data), base);
  }

  /** The chunk of the last `n` of some new bytes, when these end at `next`. */
  function EndChunk(next: nat, stream: Stream, data: seq<Byte>, n: nat): (c: Chunk)
    requires n <= |data| <= next
    ensures c.end == next && c.start + n == next && |c.data| == n
  {
    Chunk(next - n, next, stream, data[|data| - n..])
  }

  lemma {:induction false} EndTails(history: seq<Tagged>, stream: Stream, data: seq<Byte>, n: nat, longer: seq<Tagged>)
    requires 0 < n <= |data| && longer == history + Tag(stream, data)
    ensures var c := EndChunk(|longer|, stream, data, n); Tails([c], c.start, |longer|, longer)
  {
    FlatOne(EndChunk(|longer|, stream, data, n));
    EndOfAppend(history, Tag(stream, data), |data| - n);
    TagSlice(stream, data, |data| - n, |data|);
  }

  lemma {:induction false} FirstChunk(chunks: seq<Chunk>, base: nat, next: nat, history: seq<Tagged>)
    requires Tails(chunks, base, next, history) && base < next
    ensures chunks != []
    ensures var first := chunks[0];
      && first.start == base && first.end == base + |first.data| <= next && first.data != [] && chunks == [first] + chunks[1..]
      && Placed(chunks[1..], first.end, next) && Tag(first.stream, first.data) + Flat(chunks[1..]) == history[base..]
  {
    var first, rest := chunks[0], chunks[1..];
    assert chunks == [first] + rest;
    FlatCons(first, rest);
    PlacedTail(first, rest, base, next);
    StartsLater(rest, first.end, next);
  }

  lemma {:induction false} DropTails(chunks: seq<Chunk>, base: nat, next: nat, history: seq<Tagged>)
    requires Tails(chunks, base, next, history) && base < next
    ensures Tails(chunks[1..], chunks[0].end, next, history)
  {
    FirstChunk(chunks, base, next, history);
    DropFlat(history, chunks[0], chunks[1..]);
  }

  lemma {:induction false} CutTails(chunks: seq<Chunk>, base: nat, next: nat, history: seq<Tagged>, n: nat)
    requires Tails(chunks, base, next, history) && base < next && n < |chunks[0].data|
    ensures var first := chunks[0];
      Tails(chunks[0 := Chunk(first.start + n, first.end, first.stream, first.data[n..])], base + n, next, history)
  {
    FirstChunk(chunks, base, next, history);
    var first, rest := chunks[0], chunks[1..];
    var kept := Chunk(first.start + n, first.end, first.stream, first.data[n..]);
    assert chunks[0 := kept] == [kept] + rest;
    FlatCons(kept, rest);
    PlacedCons(kept, rest, kept.start, next);
    TrimFlat(history, first, rest, n);
  }

  class TaskLogBuffer {
    const capacity: nat
    var chunks: seq<Chunk>
    var baseCursor: nat
    var nextCursor: nat
    var size: nat
    var dropped: bool
    var runtimeStdout: nat
    var runtimeStderr: nat
    ghost var history: seq<Tagged>

    /** The chunks are the tail of the history from `baseCursor` on. */
    ghost predicate Holds()
      reads this
    {
      capacity > 0 && baseCursor + size == nextCursor && Tails(chunks, baseCursor, nextCursor, history)
    }

    /** And they are exactly the last `capacity` bytes, or all of them. Something counts as dropped
        once a byte is gone, but also when a single chunk filled the empty buffer to the brim. */
    ghost predicate Valid()
      reads this
    {
      && Holds() && size == Min(capacity, |history|)
      && (dropped <==> baseCursor > 0 || (|chunks| == 1 && size == capacity))
    }

    constructor (capacity: nat)
      requires capacity > 0
      ensures Valid() && this.capacity == capacity && history == [] && runtimeStdout == 0 && runtimeStderr == 0
    {
      this.capacity := capacity;
      chunks, baseCursor, nextCursor, size, dropped, history := [], 0, 0, 0, false, [];
      runtimeStdout, runtimeStderr := 0, 0;
    }

    /** `_append`; only output of the runtime is counted. */
    method Append(stream: Stream, data: seq<Byte>, runtime: bool)
      requires Valid()
      modifies this
      ensures Valid() && history == old(history) + Tag(stream, data)
      ensures runtimeStdout == old(runtimeStdout) + if runtime && stream == Stdout then |data| else 0
      ensures runtimeStderr == old(runtimeStderr) + if runtime && stream == Stderr then |data| else 0
    {
      if data == [] {
        assert history + Tag(stream, data) == history;
        return;
      }
      if runtime {
        if stream == Stdout {
          runtimeStdout := runtimeStdout + |data|;
        } else {
          runtimeStderr := runtimeStderr + |data|;
        }
      }
      if |data| >= capacity {
        KeepEnd(stream, data);
      } else {
        Push(stream, data);
        Trim();
      }
    }

    /** A chunk goes to the end. */
    method Push(stream: Stream, data: seq<Byte>)
      requires Holds() && data != []
      modifies this`chunks, this`nextCursor, this`size, this`history
      ensures Holds() && history == old(history) + Tag(stream, data)
      ensures size == old(size) + |data| && |chunks| == |old(chunks)| + 1
    {
      PushTails(chunks, baseCursor, nextCursor, history, stream, data);
      var end := nextCursor + |data|;
      chunks, size, nextCursor := chunks + [Chunk(nextCursor, end, stream, data)], size + |data|, end;
      history := history + Tag(stream, data);
    }

    /** A chunk that fills the buffer replaces everything. */
    method KeepEnd(stream: Stream, data: seq<Byte>)
      requires Holds() && |data| >= capacity
      modifies this`chunks, this`baseCursor, this`nextCursor, this`size, this`dropped, this`history
      ensures Valid() && history == old(history) + Tag(stream, data)
    {
      ghost var longer := history + Tag(stream, data);
      var next := nextCursor + |data|;
      var kept := EndChunk(next, stream, data, capacity);
      EndTails(history, stream, data, capacity, longer);
      chunks, baseCursor, nextCursor, size, dropped := [kept], kept.start, next, capacity, true;
      history := longer;
    }

    /** `_trim_locked`: whole chunks go from the front, then a part of one. */
    method Trim()
      requires Holds() && baseCursor + Min(capacity, |history|) <= |history|
      requires dropped ==> baseCursor > 0 || size > capacity
      requires baseCursor > 0 ==> dropped
      requires |chunks| == 1 ==> size < capacity
      requires size >= Min(capacity, |history|)
      modifies this`chunks, this`baseCursor, this`size, this`dropped
      ensures Valid()
    {
      while size > capacity
        invariant Holds() && size >= Min(capacity, |history|)
        invariant baseCursor > 0 ==> dropped
        invariant dropped ==> baseCursor > 0 || size > capacity
        invariant |chunks| == 1 && baseCursor == 0 ==> size < capacity
        decreases size
      {
        TrimFirst();
      }
    }

    /** One round: the first chunk goes if it is no longer than the overflow, else its beginning does. */
    method TrimFirst()
      requires Holds() && size > capacity
      modifies this`chunks, this`baseCursor, this`size, this`dropped
      ensures Holds() && capacity <= size < old(size) && baseCursor > 0 && dropped
    {
      var overflow := size - capacity;
      FirstChunk(chunks, baseCursor, nextCursor, history);
      var first := chunks[0];
      if |first.data| <= overflow {
        DropTails(chunks, baseCursor, nextCursor, history);
        chunks, size, baseCursor := chunks[1..], size - |first.data|, first.end;
      } else {
        CutTails(chunks, baseCursor, nextCursor, history, overflow);
        var kept := Chunk(first.start + overflow, first.end, first.stream, first.data[overflow..]);
        chunks, size, baseCursor := chunks[0 := kept], size - overflow, first.start + overflow;
      }
      dropped := true;
    }

    /** `read`: at most one page from `cursor` on. */
    method ReadAt(cursor: int) returns (r: ReadResult)
      requires Valid()
      ensures r == if cursor < 0 then NegativeCursor else if cursor > |history| then BeyondEnd else Read(PageAt(history, baseCursor, cursor))
    {
      if cursor < 0 {
        return NegativeCursor;
      }
      if cursor > nextCursor {
        return BeyondEnd;
      }
      var from := Max(cursor, baseCursor);
      var got := Collected(from, [], []);
      assert history[from..from] == [];
      var i := 0;
      while i < |chunks| && got.next < from + PAGE
        invariant i <= |chunks| && Reads(history, chunks, baseCursor, from, got, i)
      {
        ChunkIsHistory(history, chunks, baseCursor, i);
        got := TakeFrom(chunks[i], from, got, history);
        i := i + 1;
      }
      PageRead(history, chunks, baseCursor, cursor, from, got, i);
      return Read(Page(from, got.next, got.stdout, got.stderr, cursor < baseCursor, got.next < nextCursor));
    }
  }

  /** A read has been through the first `i` chunks, or its page is full. */
  ghost predicate Reads(history: seq<Tagged>, chunks: seq<Chunk>, base: nat, from: nat, got: Collected, i: nat) {
    i <= |chunks| && Collects(history, from, got) && (got.next < from + PAGE ==> got.next == Max(from, Reached(chunks, base, i)))
  }

  lemma {:induction false} PageRead(history: seq<Tagged>, chunks: seq<Chunk>, base: nat, cursor: nat, from: nat, got: Collected, i: nat)
    requires base <= |history| && cursor <= |history| && Placed(chunks, base, |history|) && from == Max(cursor, base)
    requires Reads(history, chunks, base, from, got, i) && (i == |chunks| || got.next >= from + PAGE)
    ensures PageAt(history, base, cursor) == Page(from, got.next, got.stdout, got.stderr, cursor < base, got.next < |history|)
  {
    ReachedEnd(chunks, base, |history|);
  }

  /** What a read has collected before `next`. */
  datatype Collected = Collected(next: nat, stdout: seq<Byte>, stderr: seq<Byte>)

  ghost predicate Collects(history: seq<Tagged>, from: nat, got: Collected) {
    && from <= got.next <= |history| && got.next <= from + PAGE
    && got.stdout == Of(history[from..got.next], Stdout) && got.stderr == Of(history[from..got.next], Stderr)
  }

  /** The chunk is the history between its cursors. */
  ghost predicate HoldsHistory(c: Chunk, history: seq<Tagged>) {
    c.data != [] && c.end == c.start + |c.data| <= |history| && history[c.start..c.end] == Tag(c.stream, c.data)
  }

  /** The bytes of a chunk that a read takes: behind its cursor and within its page. */
  function Taken(c: Chunk, from: nat, next: nat): (r: seq<Byte>)
    requires from <= next < from + PAGE && c.end == c.start + |c.data| && c.end > from && next == Max(from, c.start)
    ensures |r| == Min(c.end - next, from + PAGE - next)
    ensures r == c.data[next - c.start..next - c.start + |r|]
  {
    var offset := if from > c.start then from - c.start else 0;
    var available := |c.data| - offset;
    var remaining := from + PAGE - next;
    c.data[offset..offset + if available > remaining then remaining else available]
  }

  lemma {:induction false} TakenContinues(c: Chunk, from: nat, got: Collected, history: seq<Tagged>, accepted: seq<Byte>, stream: Stream)
    requires Collects(history, from, got) && got.next < from + PAGE && HoldsHistory(c, history) && got.next == Max(from, c.start)
    requires c.end > from && accepted == Taken(c, from, got.next)
    ensures got.next + |accepted| <= |history|
    ensures Of(history[from..got.next + |accepted|], stream) ==
      Of(history[from..got.next], stream) + if c.stream == stream then accepted else []
  {
    AcceptedIsHistory(history, c, got.next - c.start, got.next - c.start + |accepted|);
    PageGrows(history, from, got.next, c.stream, accepted, stream);
  }

  /** One round of the loop of a read. */
  method TakeFrom(c: Chunk, from: nat, got: Collected, ghost history: seq<Tagged>) returns (r: Collected)
    requires Collects(history, from, got) && got.next < from + PAGE && HoldsHistory(c, history) && got.next == Max(from, c.start)
    ensures Collects(history, from, r) && (r.next < from + PAGE ==> r.next == Max(from, c.end))
  {
    if c.end <= from {
      return got;
    }
    var accepted := Taken(c, from, got.next);
    TakenContinues(c, from, got, history, accepted, Stdout);
    TakenContinues(c, from, got, history, accepted, Stderr);
    r := Collected(got.next + |accepted|,
                   got.stdout + if c.stream == Stdout then accepted else [],
                   got.stderr + if c.stream == Stderr then accepted else []);
  }

  /** How far the first `i` chunks reach. */
  function Reached(chunks: seq<Chunk>, base: nat, i: nat): nat
    requires i <= |chunks|
  {
    if i == 0 then base else chunks[i - 1].end
  }

  lemma {:induction false} ReachedEnd(chunks: seq<Chunk>, base: nat, next: nat)
    requires Placed(chunks, base, next)
    ensures Reached(chunks, base, |chunks|) == next
  {
  }

  lemma {:induction false} ChunkIsHistory(history: seq<Tagged>, chunks: seq<Chunk>, base: nat, i: nat)
    requires i < |chunks| && base <= |history| && Placed(chunks, base, |history|) && Flat(chunks) == history[base..]
    ensures chunks[i].start == Reached(chunks, base, i) && base <= chunks[i].start && HoldsHistory(chunks[i], history)
    decreases |chunks|
  {
    var front, last := chunks[..|chunks| - 1], chunks[|chunks| - 1];
    StartsLater(front, base, last.start);
    FlatLength(front, base, last.start);
    LastIsHistory(history, Flat(front), Tag(last.stream, last.data), base, last.start);
    if i < |front| {
      ChunkIsHistory(history[..last.start], front, base, i);
      assert history[..last.start][front[i].start..front[i].end] == history[front[i].start..front[i].end];
    } else {
      ReachedEnd(front, base, last.start);
    }
  }

  lemma {:induction false} LastIsHistory(history: seq<Tagged>, front: seq<Tagged>, last: seq<Tagged>, base: nat, start: nat)
    requires base <= |history| && history[base..] == front + last && base + |front| == start
    ensures start <= |history| && history[start..] == history[start..|history|] == last && history[..start][base..] == front
  {
    DropDrop(history, base, |front|);
    DropAppend(front, last, 0);
    assert history[..start][base..] == history[base..][..|front|];
  }

  lemma {:induction false} StartsLater(chunks: seq<Chunk>, base: nat, next: nat)
    requires Placed(chunks, base, next)
    ensures base <= next
  {
    if chunks != [] {
      StartsLater(chunks[..|chunks| - 1], base, chunks[|chunks| - 1].start);
    }
  }

  lemma {:induction false} FlatLength(chunks: seq<Chunk>, base: nat, next: nat)
    requires Placed(chunks, base, next)
    ensures base + |Flat(chunks)| == next
  {
    if chunks != [] {
      FlatLength(chunks[..|chunks| - 1], base, chunks[|chunks| - 1].start);
    }
  }

  lemma {:induction false} AcceptedIsHistory(history: seq<Tagged>, c: Chunk, i: nat, j: nat)
    requires HoldsHistory(c, history) && i <= j <= |c.data|
    ensures history[c.start + i..c.start + j] == Tag(c.stream, c.data[i..j])
  {
    SliceSlice(history, c.start, c.end, i, j);
    TagSlice(c.stream, c.data, i, j);
  }

  /** Accepted bytes extend the page of either stream as the history does. */
  lemma {:induction false} PageGrows(history: seq<Tagged>, from: nat, next: nat, source: Stream, accepted: seq<Byte>, stream: Stream)
    requires from <= next <= next + |accepted| <= |history| && history[next..next + |accepted|] == Tag(source, accepted)
    ensures Of(history[from..next + |accepted|], stream) == Of(history[from..next], stream) + if source == stream then accepted else []
  {
    var to := next + |accepted|;
    OfTag(source, accepted, stream);
    OfAppend(history[from..next], history[next..to], stream);
    JoinSlices(history, from, next, to);
  }

  // ----- Following the cursor

  /** What the buffer had seen and dropped when it was read. */
  datatype Snapshot = Snapshot(history: seq<Tagged>, base: nat)

  /** Later snapshots see more. */
  predicate Grows(snapshots: seq<Snapshot>) {
    && (forall i :: 0 <= i < |snapshots| ==> snapshots[i].base <= |snapshots[i].history|)
    && (forall i :: 0 < i < |snapshots| ==> Extends(snapshots[i - 1].history, snapshots[i].history))
  }

  predicate Extends(a: seq<Tagged>, b: seq<Tagged>) {
    |a| <= |b| && b[..|a|] == a
  }

  /** Reading each snapshot in turn where the read before it ended. */
  function CursorAfter(snapshots: seq<Snapshot>, cursor: nat): (r: nat)
    requires Grows(snapshots) && (snapshots != [] ==> cursor <= |snapshots[0].history|)
    ensures snapshots != [] ==> r <= |snapshots[|snapshots| - 1].history|
    ensures snapshots == [] ==> r == cursor
  {
    if snapshots == [] then cursor else
      var n := |snapshots| - 1;
      assert n > 0 ==> Extends(snapshots[n - 1].history, snapshots[n].history);
      var at := CursorAfter(snapshots[..n], cursor);
      PageAt(snapshots[n].history, snapshots[n].base, at).nextCursor
  }

  function ReadSoFar(snapshots: seq<Snapshot>, cursor: nat, stream: Stream): seq<Byte>
    requires Grows(snapshots) && (snapshots != [] ==> cursor <= |snapshots[0].history|)
  {
    if snapshots == [] then [] else
      var n := |snapshots| - 1;
      assert n > 0 ==> Extends(snapshots[n - 1].history, snapshots[n].history);
      var page := PageAt(snapshots[n].history, snapshots[n].base, CursorAfter(snapshots[..n], cursor));
      ReadSoFar(snapshots[..n], cursor, stream) + if stream == Stdout then page.stdout else page.stderr
  }

  /** No read found its cursor behind what was dropped. */
  predicate NeverTruncated(snapshots: seq<Snapshot>, cursor: nat)
    requires Grows(snapshots) && (snapshots != [] ==> cursor <= |snapshots[0].history|)
  {
    snapshots != [] ==>
      var n := |snapshots| - 1;
      assert n > 0 ==> Extends(snapshots[n - 1].history, snapshots[n].history);
      NeverTruncated(snapshots[..n], cursor) && !PageAt(snapshots[n].history, snapshots[n].base, CursorAfter(snapshots[..n], cursor)).truncated
  }

  lemma {:induction false} FollowStep(a: seq<Tagged>, b: seq<Tagged>, cursor: nat, at: nat, to: nat, stream: Stream)
    requires Extends(a, b) && cursor <= at <= |a| && at <= to <= |b|
    ensures Of(a[cursor..at], stream) + Of(b[at..to], stream) == Of(b[cursor..to], stream)
  {
    SliceSlice(b, 0, |a|, cursor, at);
    assert b[0..|a|] == a;
    OfAppend(b[cursor..at], b[at..to], stream);
    JoinSlices(b, cursor, at, to);
  }

  /** Following the cursor while the log grows reads every byte of each stream once and in order,
      from the first cursor to the last, unless a read reports truncation. */
  lemma {:induction false} FollowingReadsAll(snapshots: seq<Snapshot>, cursor: nat, stream: Stream)
    requires snapshots != [] && Grows(snapshots) && cursor <= |snapshots[0].history| && NeverTruncated(snapshots, cursor)
    ensures var (last, end) := (snapshots[|snapshots| - 1].history, CursorAfter(snapshots, cursor));
      cursor <= end <= |last| && ReadSoFar(snapshots, cursor, stream) == Of(last[cursor..end], stream)
  {
    var n := |snapshots| - 1;
    var history := snapshots[n].history;
    var page := PageAt(history, snapshots[n].base, CursorAfter(snapshots[..n], cursor));
    if n == 0 {
      assert [] + Of(history[cursor..page.nextCursor], stream) == Of(history[cursor..page.nextCursor], stream);
    } else {
      FollowingReadsAll(snapshots[..n], cursor, stream);
      assert Extends(snapshots[n - 1].history, history);
      var at := CursorAfter(snapshots[..n], cursor);
      FollowStep(snapshots[n - 1].history, history, cursor, at, page.nextCursor, stream);
    }
  }

  /** In a log that stands still every read gets one page further, so that following the cursor comes to the
      end after as many reads as there are pages left and not before, and only then is there no more. */
  lemma {:induction false} PagesCatchUp(snapshots: seq<Snapshot>, history: seq<Tagged>, base: nat, cursor: nat)
    requires snapshots != [] && base <= |history| && cursor <= |history|
    requires forall i :: 0 <= i < |snapshots| ==> snapshots[i] == Snapshot(history, base)
    ensures Grows(snapshots)
    ensures var reach := Max(cursor, base) + |snapshots| * PAGE;
      && CursorAfter(snapshots, cursor) == Min(reach, |history|)
      && (PageAt(history, base, CursorAfter(snapshots[..|snapshots| - 1], cursor)).hasMore <==> reach < |history|)
    decreases |snapshots|
  {
    var n := |snapshots| - 1;
    if n > 0 {
      PagesCatchUp(snapshots[..n], history, base, cursor);
    }
  }
}
