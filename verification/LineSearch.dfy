/** Searching a file line by line while it is read in chunks, against splitting the whole
    decoded text: the same matches for every chunking, and a prefix of them when it stops early. */
module LineSearches {
  import opened Wrappers

  type Byte = bv8

  /** The bytes an incremental decoder still holds back. */
  type Tail = seq<Byte>

  /** An incremental decoder: fed byte by byte, and what is left to say at the end. */
  datatype Decoder = Decoder(feed: (Tail, Byte) -> (Tail, string), flush: Tail -> string)
  {
    /** What is left at the end never holds a line break. */
    ghost predicate Valid() {
      forall s :: '\n' !in flush(s)
    }
  }

  function Decode(d: Decoder, from: Tail, bytes: seq<Byte>): (Tail, string)
    decreases bytes, d
  {
    if bytes == [] then (from, "") else
      var (s, text) := Decode(d, from, bytes[..|bytes| - 1]);
      var (t, more) := d.feed(s, bytes[|bytes| - 1]);
      (t, text + more)
  }

  /** The decoded text of a whole file. */
  function WholeText(d: Decoder, bytes: seq<Byte>): string {
    var (s, text) := Decode(d, [], bytes);
    text + d.flush(s)
  }

  lemma {:induction false} DecodeChunks(d: Decoder, from: Tail, a: seq<Byte>, b: seq<Byte>)
    ensures var (s, text) := Decode(d, from, a);
      var (t, more) := Decode(d, s, b);
      Decode(d, from, a + b) == (t, text + more)
    decreases |b|
  {
    if b == [] {
      assert a + b == a;
      assert Decode(d, from, a).1 + "" == Decode(d, from, a).1;
    } else {
      var front := b[..|b| - 1];
      DecodeChunks(d, from, a, front);
      assert (a + b)[..|a + b| - 1] == a + front;
      assert (a + b)[|a + b| - 1] == b[|b| - 1];
      var (s, text) := Decode(d, from, a);
      var (t, more) := Decode(d, s, front);
      var (u, last) := d.feed(t, b[|b| - 1]);
      assert (text + more) + last == text + (more + last);
    }
  }

  // ----- Lines

  function Front(pieces: seq<string>): seq<string>
    requires pieces != []
  {
    pieces[..|pieces| - 1]
  }

  function Last(pieces: seq<string>): string
    requires pieces != []
  {
    pieces[|pieces| - 1]
  }

  /** `text.split("\n")`. */
  function Split(text: string): (pieces: seq<string>)
    ensures pieces != []
  {
    if text == "" then [""] else Grow(Split(text[..|text| - 1]), text[|text| - 1])
  }

  function Join(pieces: seq<string>): string
    requires pieces != []
  {
    if |pieces| == 1 then pieces[0] else Join(Front(pieces)) + "\n" + Last(pieces)
  }

  lemma {:induction false} JoinSnoc(front: seq<string>, piece: string)
    requires front != []
    ensures Join(front + [piece]) == Join(front) + "\n" + piece
  {
    assert Front(front + [piece]) == front;
  }

  lemma {:induction false} JoinExtends(pieces: seq<string>, c: char)
    requires pieces != []
    ensures Join(Front(pieces) + [Last(pieces) + [c]]) == Join(pieces) + [c]
  {
    var front, last := Front(pieces), Last(pieces);
    assert pieces == front + [last];
    if front != [] {
      JoinSnoc(front, last);
      JoinSnoc(front, last + [c]);
    }
  }

  /** The pieces are what the newlines separate. */
  lemma {:induction false} SplitSeparates(text: string)
    ensures Join(Split(text)) == text
    ensures forall p :: p in Split(text) ==> '\n' !in p
  {
    if text == "" {
      assert Split(text) == [""];
    } else {
      var front, c := text[..|text| - 1], text[|text| - 1];
      SplitSeparates(front);
      GrowSeparates(Split(front), c);
      assert Split(text) == Grow(Split(front), c);
      assert text == front + [c];
    }
  }

  lemma {:induction false} GrowSeparates(pieces: seq<string>, c: char)
    requires pieces != [] && forall p :: p in pieces ==> '\n' !in p
    ensures Join(Grow(pieces, c)) == Join(pieces) + [c]
    ensures forall p :: p in Grow(pieces, c) ==> '\n' !in p
  {
    if c == '\n' {
      JoinSnoc(pieces, "");
      assert Join(pieces) + "\n" + "" == Join(pieces) + [c];
    } else {
      JoinExtends(pieces, c);
    }
  }

  lemma {:induction false} SplitStep(text: string, c: char)
    ensures Split(text + [c]) == Grow(Split(text), c)
  {
    assert (text + [c])[..|text|] == text;
  }

  lemma {:induction false} Regroup(a: seq<string>, b: seq<string>, last: string)
    requires b != []
    ensures Front(a + b) == a + Front(b) && Last(a + b) == Last(b)
    ensures (a + b) + [last] == a + (b + [last]) && (a + Front(b)) + [last] == a + (Front(b) + [last])
  {
  }

  ghost predicate GoesOnFrom(a: string, b: string) {
    Split(a + b) == Front(Split(a)) + Split(Last(Split(a)) + b)
  }

  lemma {:induction false} GoesOnFromNothing(a: string)
    ensures GoesOnFrom(a, "")
  {
    var pending := Last(Split(a));
    assert a + "" == a && pending + "" == pending;
    NoNewline(a);
    SplitUnbroken(pending);
  }

  lemma {:induction false} GoesOnFurther(a: string, b: string, c: char)
    requires GoesOnFrom(a, b)
    ensures GoesOnFrom(a, b + [c])
  {
    var pending := Last(Split(a));
    assert a + (b + [c]) == (a + b) + [c] && pending + (b + [c]) == (pending + b) + [c];
    SplitStep(a + b, c);
    SplitStep(pending + b, c);
    GrowsAlike(Front(Split(a)), Split(pending + b), c);
  }

  /** Splitting a longer text goes on from the unfinished last piece. */
  lemma {:induction false} SplitContinues(a: string, b: string)
    ensures Split(a + b) == Front(Split(a)) + Split(Last(Split(a)) + b)
    decreases |b|
  {
    if b == "" {
      GoesOnFromNothing(a);
    } else {
      var front, c := b[..|b| - 1], b[|b| - 1];
      assert b == front + [c];
      SplitContinues(a, front);
      GoesOnFurther(a, front, c);
    }
  }

  /** What one more character does to the pieces. */
  function Grow(pieces: seq<string>, c: char): (r: seq<string>)
    requires pieces != []
    ensures r != []
  {
    if c == '\n' then pieces + [""] else Front(pieces) + [Last(pieces) + [c]]
  }

  lemma {:induction false} GrowsAlike(done: seq<string>, pieces: seq<string>, c: char)
    requires pieces != []
    ensures Grow(done + pieces, c) == done + Grow(pieces, c)
  {
    Regroup(done, pieces, "");
    Regroup(done, pieces, Last(pieces) + [c]);
  }

  lemma {:induction false} NoNewline(text: string)
    ensures '\n' !in Last(Split(text))
  {
    SplitSeparates(text);
    assert Last(Split(text)) in Split(text);
  }

  lemma {:induction false} SplitUnbroken(piece: string)
    requires '\n' !in piece
    ensures Split(piece) == [piece]
  {
    if piece != "" {
      var front, c := piece[..|piece| - 1], piece[|piece| - 1];
      SplitUnbroken(front);
      assert piece == front + [c];
      assert c in piece;
    }
  }

  /** The lines of a text: its pieces, without an empty piece behind the last newline. */
  function LinesOf(text: string): seq<string> {
    var pieces := Split(text);
    if Last(pieces) == "" then Front(pieces) else pieces
  }

  /** Trailing carriage returns removed. */
  function StripReturns(line: string): string {
    if line != "" && line[|line| - 1] == '\r' then StripReturns(line[..|line| - 1]) else line
  }

  /** Trailing white space removed. */
  function StripSpace(line: string, space: char -> bool): string {
    if line != "" && space(line[|line| - 1]) then StripSpace(line[..|line| - 1], space) else line
  }

  lemma {:induction false} StripTwice(line: string, space: char -> bool)
    requires space('\r')
    ensures StripSpace(StripReturns(line), space) == StripSpace(line, space)
  {
    if line != "" && line[|line| - 1] == '\r' {
      StripTwice(line[..|line| - 1], space);
    }
  }

  datatype Match = Match(number: nat, text: string)

  /** What a search looks for, and how often it looks at the clock while it does. */
  datatype Matcher = Matcher(accepts: string -> bool, polls: string -> nat, space: char -> bool)
  {
    /** A plain search never polls; a pattern search polls on every line. */
    ghost predicate Valid() {
      space('\r') && ((forall line :: polls(line) == 0) || (forall line :: polls(line) > 0))
    }

    function Of(number: nat, line: string): seq<Match> {
      if accepts(StripReturns(line)) then [Match(number, StripSpace(line, space))] else []
    }
  }

  /** The matches among the lines, numbered from one. */
  function Found(m: Matcher, lines: seq<string>): seq<Match> {
    if lines == [] then [] else Found(m, Front(lines)) + m.Of(|lines|, Last(lines))
  }

  lemma {:induction false} FoundSnoc(m: Matcher, lines: seq<string>, line: string)
    ensures Found(m, lines + [line]) == Found(m, lines) + m.Of(|lines| + 1, line)
  {
    assert Front(lines + [line]) == lines;
  }

  /** Lines that are complete after some of the text are the first lines of all of it. */
  lemma {:induction false} CompleteLinesStay(a: string, b: string, n: nat)
    requires n <= |Split(a)| - 1
    ensures n <= |LinesOf(a + b)| && Split(a)[..n] == LinesOf(a + b)[..n]
  {
    SplitContinues(a, b);
    assert Front(Split(a + b))[..n] == Split(a)[..n];
  }

  // ----- The search

  datatype StopReason = Cancelled | Timeout | Bytes

  const CHUNK := 65536

  /** Where the reading loop is: bytes read, bytes held back by the decoder, the piece still
      pending, and its line number. */
  datatype Cursor = Cursor(read: nat, state: Tail, pending: string, number: nat)

  class LineSearch {
    const matcher: Matcher
    const resultLimit: nat
    const maxBytes: nat
    /** Whether the output has reached its size limit. */
    const overflows: seq<Match> -> bool
    /** Whether the cancellation event is set, and the deadline passed, at each poll. */
    const cancelled: nat -> bool
    const late: nat -> bool
    var bytesRead: nat
    var stopReason: Option<StopReason>
    var polls: nat
    var results: seq<Match>
    /** How many lines of the current file count as searched. */
    ghost var searched: nat

    constructor (matcher: Matcher, resultLimit: nat, maxBytes: nat, overflows: seq<Match> -> bool, cancelled: nat -> bool, late: nat -> bool)
      ensures this.matcher == matcher && this.resultLimit == resultLimit && this.maxBytes == maxBytes
      ensures bytesRead == 0 && stopReason == None && results == [] && Honest()
    {
      this.matcher, this.resultLimit, this.maxBytes := matcher, resultLimit, maxBytes;
      this.overflows, this.cancelled, this.late := overflows, cancelled, late;
      bytesRead, stopReason, polls, results, searched := 0, None, 0, [], 0;
    }

    /** No poll before this one had a reason to stop. */
    ghost predicate Quiet(polls: nat) {
      forall k :: 0 <= k < polls ==> !cancelled(k) && !late(k)
    }

    /** The search has stopped for the first reason there was, or there was none; but a budget used
        up by a chunk also replaces what a poll said while that chunk was searched. */
    ghost predicate Honest()
      reads this`stopReason, this`polls, this`bytesRead
    {
      && bytesRead <= maxBytes
      && match stopReason
         case None => Quiet(polls)
         case Some(Cancelled) => polls > 0 && Quiet(polls - 1) && cancelled(polls - 1)
         case Some(Timeout) => polls > 0 && Quiet(polls - 1) && !cancelled(polls - 1) && late(polls - 1)
         case Some(Bytes) => bytesRead == maxBytes && (polls > 0 ==> Quiet(polls - 1))
    }

    /** `_SearchBudget.should_stop`: a reason to stop stays one; otherwise the event, the clock and
        the bytes are looked at in this order. */
    method ShouldStop() returns (stop: bool)
      requires Honest()
      modifies this`stopReason, this`polls
      ensures Honest() && (stop <==> stopReason.Some?)
      ensures polls == old(polls) + if old(stopReason).Some? then 0 else 1
      ensures stopReason == if old(stopReason).Some? then old(stopReason)
                            else if cancelled(old(polls)) then Some(StopReason.Cancelled)
                            else if late(old(polls)) then Some(Timeout)
                            else if bytesRead >= maxBytes then Some(Bytes) else None
    {
      if stopReason.Some? {
        return true;
      }
      polls := polls + 1;
      if cancelled(polls - 1) {
        stopReason := Some(StopReason.Cancelled);
      } else if late(polls - 1) {
        stopReason := Some(Timeout);
      } else if bytesRead >= maxBytes {
        stopReason := Some(Bytes);
      }
      return stopReason.Some?;
    }

    /** A line is accepted when it matches and no poll said stop. */
    method Accepts(line: string) returns (accepted: bool)
      requires matcher.Valid()
      requires Honest()
      modifies this`stopReason, this`polls
      ensures Honest()
      ensures accepted ==> matcher.accepts(line) && stopReason == old(stopReason)
      ensures stopReason == None ==> accepted == matcher.accepts(line)
      ensures old(stopReason).Some? ==> stopReason == old(stopReason)
      ensures (forall l :: matcher.polls(l) == 0) ==> stopReason == old(stopReason) && accepted == matcher.accepts(line)
      ensures (forall l :: matcher.polls(l) > 0) && stopReason.Some? ==> !accepted
    {
      for i := 0 to matcher.polls(line)
        invariant Honest() && stopReason == old(stopReason) && (i > 0 ==> stopReason == None)
      {
        var stop := ShouldStop();
        if stop {
          return false;
        }
      }
      return matcher.accepts(line);
    }

    ghost predicate NeverPolls() {
      forall line :: matcher.polls(line) == 0
    }

    /** The results beyond `before` are the matches of the first `searched` pieces; these are the
        first `n` unless a poll of the matcher said stop. */
    ghost predicate Reflects(before: seq<Match>, pieces: seq<string>, n: nat)
      reads this
    {
      && searched <= n <= |pieces| && results == before + Found(matcher, pieces[..searched])
      && (NeverPolls() || stopReason == None ==> searched == n)
    }

    /** One line of the inner loop: it is searched and, if accepted, reported. */
    method SearchLine(line: string, number: nat, ghost before: seq<Match>, ghost pieces: seq<string>, ghost n: nat) returns (accepted: bool)
      requires matcher.Valid() && n < |pieces| && pieces[n] == line && number == n + 1 && Reflects(before, pieces, n)
      requires Honest()
      modifies this`stopReason, this`polls, this`results, this`searched
      ensures Honest()
      ensures Reflects(before, pieces, n + 1)
      ensures old(stopReason).Some? ==> stopReason == old(stopReason)
    {
      FoundSnoc(matcher, pieces[..n], line);
      assert pieces[..n] + [line] == pieces[..n + 1];
      StripTwice(line, matcher.space);
      var rendered := StripReturns(line);
      accepted := Accepts(rendered);
      if accepted {
        results := results + [Match(number, StripSpace(rendered, matcher.space))];
      }
      if NeverPolls() || stopReason == None {
        searched := n + 1;
      }
    }

    /** The inner loop over the lines that a chunk completed; `n` lines of the text are searched in the end. */
    method SearchLines(lines: seq<string>, number: nat, ghost before: seq<Match>, ghost pieces: seq<string>) returns (limited: bool, ghost n: nat)
      requires matcher.Valid() && 1 <= number && Follow(pieces, number - 1, lines)
      requires Reflects(before, pieces, number - 1)
      requires Honest()
      modifies this`stopReason, this`polls, this`results, this`searched
      ensures Honest()
      ensures n <= number - 1 + |lines| && Reflects(before, pieces, n)
      ensures if limited then |results| >= resultLimit || overflows(results) else n == number - 1 + |lines|
      ensures old(stopReason).Some? ==> stopReason == old(stopReason)
    {
      for i := 0 to |lines|
        invariant Honest() && Reflects(before, pieces, number - 1 + i)
        invariant old(stopReason).Some? ==> stopReason == old(stopReason)
      {
        assert lines[i] == pieces[number - 1 + i];
        var reported := SearchLine(lines[i], number + i, before, pieces, number - 1 + i);
        if reported {
          if |results| >= resultLimit || overflows(results) {
            return true, number + i;
          }
        }
      }
      return false, number - 1 + |lines|;
    }

    /** The results are the matches of the pieces completed at this point of the outer loop. */
    ghost predicate Progress(before: seq<Match>, d: Decoder, file: seq<Byte>, at: Cursor)
      reads this
    {
      at.read <= |file| &&
      var text := Decode(d, [], file[..at.read]).1;
      Reached(d, file, at, text) && Reflects(before, Split(text), at.number - 1)
    }

    /** The results beyond `before` are the matches of the first lines of the whole file. */
    ghost predicate Prefixes(before: seq<Match>, d: Decoder, file: seq<Byte>)
      reads this`results, this`searched
    {
      var lines := LinesOf(WholeText(d, file));
      searched <= |lines| && results == before + Found(matcher, lines[..searched])
    }

    lemma {:induction false} ProgressPrefixes(before: seq<Match>, d: Decoder, file: seq<Byte>, at: Cursor)
      requires Progress(before, d, file, at)
      ensures Prefixes(before, d, file)
    {
      ReflectsPrefixes(before, d, file, at, Decode(d, [], file[..at.read]).1, at.number - 1);
    }

    lemma {:induction false} ReachedProgress(before: seq<Match>, d: Decoder, file: seq<Byte>, at: Cursor, text: string)
      requires Reached(d, file, at, text) && Reflects(before, Split(text), at.number - 1)
      ensures Progress(before, d, file, at)
    {
    }

    lemma {:induction false} ReflectsPrefixes(before: seq<Match>, d: Decoder, file: seq<Byte>, at: Cursor, text: string, n: nat)
      requires Reached(d, file, at, text) && n < at.number && Reflects(before, Split(text), n)
      ensures Prefixes(before, d, file)
    {
      PrefixOfWhole(d, file, at.read, at.state, text, n);
      Shorter(Split(text), LinesOf(WholeText(d, file)), n, searched);
    }

    lemma {:induction false} SamePrefix(before: seq<Match>, pieces: seq<string>, longer: seq<string>, n: nat)
      requires n <= |pieces| && n <= |longer| && pieces[..n] == longer[..n] && Reflects(before, pieces, n)
      ensures Reflects(before, longer, n)
    {
      Shorter(pieces, longer, n, searched);
    }

    /** A chunk is decoded and cut into lines; the last piece stays pending. */
    method CutChunk(d: Decoder, ghost file: seq<Byte>, chunk: seq<Byte>, at: Cursor, ghost before: seq<Match>)
      returns (next: Cursor, complete: seq<string>, ghost text: string)
      requires Progress(before, d, file, at) && Advances(d, file, at.read, chunk)
      ensures complete != [] && next.read == at.read + |chunk| && next.number == at.number + |complete| - 1
      ensures Reached(d, file, next, text)
      ensures Follow(Split(text), at.number - 1, Front(complete)) && Reflects(before, Split(text), at.number - 1)
    {
      var (state, more) := Decode(d, at.state, chunk);
      complete := Split(at.pending + more);
      ghost var earlier := Decode(d, [], file[..at.read]).1;
      text := GrownText(d, file, at.read, chunk, earlier, more);
      ReflectsOn(before, Split(earlier), Split(text), complete);
      next := Cursor(at.read + |chunk|, state, Last(complete), at.number + |complete| - 1);
    }

    lemma {:induction false} ReflectsOn(before: seq<Match>, pieces: seq<string>, longer: seq<string>, complete: seq<string>)
      requires pieces != [] && complete != [] && GoesOn(pieces, longer, complete) && Reflects(before, pieces, |pieces| - 1)
      ensures |longer| == |pieces| + |complete| - 1 && Last(longer) == Last(complete)
      ensures Follow(longer, |pieces| - 1, Front(complete)) && Reflects(before, longer, |pieces| - 1)
    {
      SamePrefix(before, pieces, longer, |pieces| - 1);
    }

    /** The lines a chunk completes are searched. */
    method SearchChunk(d: Decoder, ghost file: seq<Byte>, chunk: seq<Byte>, at: Cursor, ghost before: seq<Match>) returns (limited: bool, next: Cursor)
      requires matcher.Valid() && Progress(before, d, file, at) && Advances(d, file, at.read, chunk)
      requires Honest()
      modifies this`stopReason, this`polls, this`results, this`searched
      ensures Honest()
      ensures next.read == at.read + |chunk| && Prefixes(before, d, file)
      ensures limited ==> |results| >= resultLimit || overflows(results)
      ensures !limited ==> Progress(before, d, file, next)
      ensures old(stopReason).Some? ==> stopReason == old(stopReason)
    {
      var complete;
      ghost var text, n;
      next, complete, text := CutChunk(d, file, chunk, at, before);
      limited, n := SearchLines(Front(complete), at.number, before, Split(text));
      ReflectsPrefixes(before, d, file, next, text, n);
      if !limited {
        ReachedProgress(before, d, file, next, text);
      }
    }

    /** The end of the file: what is pending is a line unless it is empty. */
    method FinishFile(d: Decoder, ghost file: seq<Byte>, at: Cursor, ghost before: seq<Match>) returns (limited: bool)
      requires matcher.Valid() && d.Valid() && Progress(before, d, file, at) && at.read == |file|
      requires Honest()
      modifies this`stopReason, this`polls, this`results, this`searched
      ensures Honest()
      ensures Prefixes(before, d, file) && limited == (|results| >= resultLimit)
      ensures stopReason == None ==> results == before + Found(matcher, LinesOf(WholeText(d, file)))
      ensures old(stopReason).Some? ==> stopReason == old(stopReason)
    {
      var last := at.pending + d.flush(at.state);
      ghost var lines := ReachedEnd(before, d, file, at);
      if last != "" {
        var reported := SearchLine(last, at.number, before, lines, at.number - 1);
      }
      assert lines[..|lines|] == lines;
      return |results| >= resultLimit;
    }

    lemma {:induction false} ReachedEnd(before: seq<Match>, d: Decoder, file: seq<Byte>, at: Cursor) returns (lines: seq<string>)
      requires d.Valid() && Progress(before, d, file, at) && at.read == |file|
      ensures var last := at.pending + d.flush(at.state);
        && lines == LinesOf(WholeText(d, file)) && |lines| == (if last == "" then at.number - 1 else at.number)
        && (last != "" ==> lines[at.number - 1] == last) && Reflects(before, lines, at.number - 1)
    {
      var text := Decode(d, [], file).1;
      assert file[..|file|] == file;
      lines := LinesOf(text + d.flush(at.state));
      EndOfText(text, d.flush(at.state));
      SamePrefix(before, Split(text), lines, at.number - 1);
    }

    /** The reading loop; a round ends it when there is nothing more to read or to look for. */
    method SearchRound(d: Decoder, file: seq<Byte>, at: Cursor, size: nat, ghost before: seq<Match>) returns (over: bool, limited: bool, next: Cursor)
      requires matcher.Valid() && d.Valid() && Honest() && Progress(before, d, file, at)
      modifies this
      ensures Honest() && Prefixes(before, d, file)
      ensures !over ==> Progress(before, d, file, next) && next.read > at.read && !limited
      ensures limited ==> |results| >= resultLimit || overflows(results)
      ensures bytesRead > old(bytesRead) && bytesRead == maxBytes && !limited ==> stopReason == Some(Bytes)
      ensures over && !limited && stopReason == None ==> results == before + Found(matcher, LinesOf(WholeText(d, file)))
      ensures old(stopReason).Some? ==> over && !limited && stopReason == old(stopReason) && results == old(results)
    {
      ProgressPrefixes(before, d, file, at);
      next := at;
      var stop := ShouldStop();
      if stop {
        return true, false, at;
      }
      var remaining := maxBytes - bytesRead;
      var chunk := ReadChunk(d, file, at.read, if remaining < CHUNK then remaining else CHUNK, size);
      if chunk == [] {
        limited := FinishFile(d, file, at, before);
        return true, limited, at;
      }
      over, limited, next := SpendChunk(d, file, chunk, at, before);
    }

    method ReadChunk(ghost d: Decoder, file: seq<Byte>, read: nat, wanted: nat, size: nat) returns (chunk: seq<Byte>)
      requires read <= |file| && wanted > 0
      ensures |chunk| <= wanted && (chunk == [] <==> read == |file|) && Advances(d, file, read, chunk)
    {
      chunk := Chunk(file, read, wanted, size);
      ChunkDecodes(d, file, read, chunk);
    }

    /** A chunk counts against the budget before it is searched. */
    method SpendChunk(d: Decoder, ghost file: seq<Byte>, chunk: seq<Byte>, at: Cursor, ghost before: seq<Match>)
      returns (over: bool, limited: bool, next: Cursor)
      requires matcher.Valid() && Progress(before, d, file, at) && Advances(d, file, at.read, chunk)
      requires Honest() && stopReason == None && bytesRead + |chunk| <= maxBytes
      modifies this
      ensures Honest() && bytesRead == old(bytesRead) + |chunk| && Prefixes(before, d, file)
      ensures !over ==> Progress(before, d, file, next) && next.read == at.read + |chunk| && !limited
      ensures limited ==> |results| >= resultLimit || overflows(results)
      ensures bytesRead == maxBytes && !limited ==> stopReason == Some(Bytes)
      ensures over && !limited ==> stopReason.Some?
    {
      bytesRead := bytesRead + |chunk|;
      limited, next := SearchChunk(d, file, chunk, at, before);
      over := limited;
      if !limited && bytesRead >= maxBytes {
        stopReason := Some(Bytes);
        over := true;
      }
    }

    /** `_stream_search_file`; `sizes(i)` bounds what the i-th read returns. */
    method SearchFile(d: Decoder, file: seq<Byte>, sizes: nat -> nat) returns (limited: bool)
      requires matcher.Valid() && d.Valid() && Honest()
      modifies this
      ensures searched <= |LinesOf(WholeText(d, file))|
      ensures results == old(results) + Found(matcher, LinesOf(WholeText(d, file))[..searched])
      ensures !limited && stopReason == None ==> results == old(results) + Found(matcher, LinesOf(WholeText(d, file)))
      ensures limited ==> |results| >= resultLimit || overflows(results)
      ensures Honest()
      ensures old(stopReason).Some? ==> !limited && stopReason == old(stopReason) && results == old(results)
    {
      ghost var before := results;
      var at := Cursor(0, [], "", 1);
      searched := 0;
      assert file[..0] == [] && Split("")[..0] == [] && results == before + [];
      ProgressPrefixes(before, d, file, at);
      var over, turn := false, 0;
      limited := false;
      while !over
        invariant Honest() && Prefixes(before, d, file)
        invariant !over ==> Progress(before, d, file, at) && !limited && (old(stopReason).Some? ==> turn == 0)
        invariant turn == 0 ==> !over && results == before && stopReason == old(stopReason)
        invariant limited ==> |results| >= resultLimit || overflows(results)
        invariant over && !limited && stopReason == None ==> results == before + Found(matcher, LinesOf(WholeText(d, file)))
        invariant old(stopReason).Some? ==> !limited && stopReason == old(stopReason) && results == before
        decreases !over, |file| - at.read
      {
        over, limited, at := SearchRound(d, file, at, sizes(turn), before);
        turn := turn + 1;
      }
    }
  }

  /** What one read returns: something, unless the file is at its end. */
  function Chunk(file: seq<Byte>, read: nat, wanted: nat, size: nat): (chunk: seq<Byte>)
    requires read <= |file| && wanted > 0
    ensures read + |chunk| <= |file| && chunk == file[read..read + |chunk|] && |chunk| <= wanted
    ensures chunk == [] <==> read == |file|
  {
    var most := if size == 0 || size > wanted then wanted else size;
    if read + most <= |file| then file[read..read + most] else file[read..]
  }

  /** From position `n` on the pieces are these lines. */
  ghost predicate Follow(pieces: seq<string>, n: nat, lines: seq<string>) {
    n + |lines| <= |pieces| && forall i :: 0 <= i < |lines| ==> lines[i] == pieces[n + i]
  }

  /** The longer list of pieces replaces the last piece by these. */
  ghost predicate GoesOn(pieces: seq<string>, longer: seq<string>, complete: seq<string>)
    requires pieces != [] && complete != []
  {
    var n := |pieces| - 1;
    && |longer| == n + |complete| && Last(longer) == Last(complete)
    && longer[..n] == pieces[..n] && Follow(longer, n, Front(complete))
  }

  /** The cursor stands behind the part of the file that decodes to this text. */
  ghost predicate Reached(d: Decoder, file: seq<Byte>, at: Cursor, text: string) {
    && at.read <= |file| && at.number > 0 && Decode(d, [], file[..at.read]) == (at.state, text)
    && at.pending == Last(Split(text)) && at.number == |Split(text)|
  }

  /** Decoding the file goes on with this chunk. */
  ghost predicate Advances(d: Decoder, file: seq<Byte>, read: nat, chunk: seq<Byte>) {
    read + |chunk| <= |file| &&
    var (state, text) := Decode(d, [], file[..read]);
    var (next, more) := Decode(d, state, chunk);
    Decode(d, [], file[..read + |chunk|]) == (next, text + more)
  }

  lemma {:induction false} ChunkDecodes(d: Decoder, file: seq<Byte>, read: nat, chunk: seq<Byte>)
    requires read + |chunk| <= |file| && chunk == file[read..read + |chunk|]
    ensures Advances(d, file, read, chunk)
  {
    DecodeChunks(d, [], file[..read], chunk);
    assert file[..read] + chunk == file[..read + |chunk|];
  }

  /** Splitting the pending piece with the new text continues the pieces. */
  lemma {:induction false} Grown(text: string, more: string)
    ensures GoesOn(Split(text), Split(text + more), Split(Last(Split(text)) + more))
  {
    SplitContinues(text, more);
  }

  /** The text after a chunk, and how its pieces continue those before. */
  lemma {:induction false} GrownText(d: Decoder, file: seq<Byte>, read: nat, chunk: seq<Byte>, text: string, more: string) returns (longer: string)
    requires Advances(d, file, read, chunk) && Decode(d, [], file[..read]).1 == text
    requires Decode(d, Decode(d, [], file[..read]).0, chunk).1 == more
    ensures Decode(d, [], file[..read + |chunk|]) == (Decode(d, Decode(d, [], file[..read]).0, chunk).0, longer)
    ensures GoesOn(Split(text), Split(longer), Split(Last(Split(text)) + more))
  {
    longer := text + more;
    Grown(text, more);
  }

  lemma {:induction false} EndOfText(text: string, rest: string)
    requires '\n' !in rest
    ensures var (lines, pending, n) := (LinesOf(text + rest), Last(Split(text)) + rest, |Split(text)| - 1);
      && |lines| == (if pending == "" then n else n + 1)
      && lines[..n] == Split(text)[..n] && (pending != "" ==> lines[n] == pending)
  {
    SplitContinues(text, rest);
    NoNewline(text);
    SplitUnbroken(Last(Split(text)) + rest);
  }

  lemma {:induction false} PrefixOfWhole(d: Decoder, file: seq<Byte>, read: nat, s: Tail, text: string, n: nat)
    requires read <= |file| && Decode(d, [], file[..read]) == (s, text) && n <= |Split(text)| - 1
    ensures n <= |LinesOf(WholeText(d, file))| && Split(text)[..n] == LinesOf(WholeText(d, file))[..n]
  {
    var (t, rest) := Decode(d, s, file[read..]);
    DecodeChunks(d, [], file[..read], file[read..]);
    assert file[..read] + file[read..] == file;
    assert (text + rest) + d.flush(t) == text + (rest + d.flush(t));
    CompleteLinesStay(text, rest + d.flush(t), n);
  }

  lemma {:induction false} Shorter(a: seq<string>, b: seq<string>, n: nat, m: nat)
    requires m <= n <= |a| && n <= |b| && a[..n] == b[..n]
    ensures a[..m] == b[..m]
  {
    assert a[..m] == a[..n][..m];
  }

  /** `r` is the line without its longest ending of such characters. */
  ghost predicate Stripped(line: string, r: string, p: char -> bool) {
    && r <= line && (forall i :: |r| <= i < |line| ==> p(line[i]))
    && (r != "" ==> !p(r[|r| - 1]))
  }

  lemma {:induction false} StripsReturns(line: string)
    ensures Stripped(line, StripReturns(line), c => c == '\r')
  {
    if line != "" && line[|line| - 1] == '\r' {
      StripsReturns(line[..|line| - 1]);
    }
  }

  lemma {:induction false} StripsSpace(line: string, space: char -> bool)
    ensures Stripped(line, StripSpace(line, space), space)
  {
    if line != "" && space(line[|line| - 1]) {
      StripsSpace(line[..|line| - 1], space);
    }
  }

  lemma {:induction false} StrippedOnce(line: string, r: string, q: string, p: char -> bool)
    requires Stripped(line, r, p) && Stripped(line, q, p)
    ensures r == q
  {
    assert r == line[..|r|] && q == line[..|q|];
    assert r != "" ==> r[|r| - 1] == line[|r| - 1];
    assert q != "" ==> q[|q| - 1] == line[|q| - 1];
  }

  /** The match reports line `i`: the line without its carriage returns is accepted, and is shown without white space at its end. */
  ghost predicate ReportsLine(m: Matcher, lines: seq<string>, i: nat, match_: Match) {
    && i < |lines| && match_.number == i + 1
    && (exists bare :: Stripped(lines[i], bare, c => c == '\r') && m.accepts(bare))
    && Stripped(lines[i], match_.text, m.space)
  }

  /** What is found are the lines that are accepted, under their numbers. */
  lemma {:induction false} FoundMeans(m: Matcher, lines: seq<string>, match_: Match)
    requires m.Valid()
    ensures match_ in Found(m, lines) <==> exists i: nat :: ReportsLine(m, lines, i, match_)
    decreases |lines|
  {
    if lines != [] {
      var front, n := Front(lines), |lines| - 1;
      FoundMeans(m, front, match_);
      LineMeans(m, lines, match_);
      if i: nat :| ReportsLine(m, lines, i, match_) {
        assert i < n ==> front[i] == lines[i];
        assert i < n ==> ReportsLine(m, front, i, match_);
      }
      if i: nat :| ReportsLine(m, front, i, match_) {
        assert front[i] == lines[i];
        assert ReportsLine(m, lines, i, match_);
      }
    }
  }

  lemma {:induction false} LineMeans(m: Matcher, lines: seq<string>, match_: Match)
    requires m.Valid() && lines != []
    ensures match_ in m.Of(|lines|, Last(lines)) <==> ReportsLine(m, lines, |lines| - 1, match_)
  {
    var line := Last(lines);
    StripsReturns(line);
    StripsSpace(line, m.space);
    if bare :| Stripped(line, bare, c => c == '\r') && m.accepts(bare) {
      StrippedOnce(line, bare, StripReturns(line), c => c == '\r');
    }
    if Stripped(line, match_.text, m.space) {
      StrippedOnce(line, match_.text, StripSpace(line, m.space), m.space);
    }
  }

  /** And they are reported from the first line to the last, each once. */
  lemma {:induction false} FoundInOrder(m: Matcher, lines: seq<string>, i: nat, j: nat)
    requires i < j < |Found(m, lines)|
    ensures Found(m, lines)[i].number < Found(m, lines)[j].number
    decreases |lines|
  {
    NumbersWithin(m, Front(lines));
    if j < |Found(m, Front(lines))| {
      FoundInOrder(m, Front(lines), i, j);
    }
  }

  lemma {:induction false} NumbersWithin(m: Matcher, lines: seq<string>)
    ensures forall k :: 0 <= k < |Found(m, lines)| ==> Found(m, lines)[k].number <= |lines|
  {
    if lines != [] {
      NumbersWithin(m, Front(lines));
    }
  }

  /** The matches of the first lines are the first of all matches. */
  lemma {:induction false} FoundPrefix(m: Matcher, lines: seq<string>, n: nat)
    requires n <= |lines|
    ensures Found(m, lines[..n]) <= Found(m, lines)
    decreases |lines|
  {
    if n < |lines| {
      FoundPrefix(m, Front(lines), n);
      assert Front(lines)[..n] == lines[..n];
    } else {
      assert lines[..n] == lines;
    }
  }
}
