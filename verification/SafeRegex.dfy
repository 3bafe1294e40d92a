/** The compiled regex: parse, build by patching states in place, then search. */
module SafeRegexes {
  import opened CharSets
  import opened RegexSyntax
  import opened RegexParser
  import opened RegexGrammar
  import opened RegexMeanings
  import opened Nfa
  import opened Wrappers
  import opened LiteralPatterns

  const MAX_PATTERN_CHARACTERS: nat := 1024
  const MAX_PATTERN_BYTES: nat := 4096
  const MAX_NFA_STATES: nat := 4096

  function Utf8Length(s: string): nat {
    if s == "" then 0 else
      (if s[0] as int < 0x80 then 1 else if s[0] as int < 0x800 then 2 else if s[0] as int < 0x10000 then 3 else 4) +
      Utf8Length(s[1..])
  }

  /** Bytes add up, and a character takes one to four of them. */
  lemma {:induction false} Utf8Adds(a: string, b: string)
    ensures Utf8Length(a + b) == Utf8Length(a) + Utf8Length(b)
    ensures |a| <= Utf8Length(a) <= 4 * |a|
    ensures (forall k :: 0 <= k < |a| ==> a[k] < '\U{80}') ==> Utf8Length(a) == |a|
    ensures (forall k :: 0 <= k < |a| ==> '\U{80}' <= a[k] <= '\U{7FF}') ==> Utf8Length(a) == 2 * |a|
    ensures (forall k :: 0 <= k < |a| ==> '\U{800}' <= a[k] <= '\U{FFFF}') ==> Utf8Length(a) == 3 * |a|
    ensures (forall k :: 0 <= k < |a| ==> '\U{10000}' <= a[k]) ==> Utf8Length(a) == 4 * |a|
    decreases |a|
  {
    if a == "" {
      assert a + b == b;
    } else {
      Utf8Adds(a[1..], b);
      assert (a + b)[1..] == a[1..] + b;
    }
  }

  predicate TooLongPattern(p: string) {
    |p| > MAX_PATTERN_CHARACTERS || Utf8Length(p) > MAX_PATTERN_BYTES
  }

  /** Comparing characters through their folding, or as they are. */
  function KeyOf(ignoreCase: bool, casefold: Keying): Keying {
    if ignoreCase then casefold else c => [c]
  }

  /** Without case folding a character is only like itself; with it, like those that fold alike. */
  lemma {:induction false} LikeCharacters(casefold: Keying, c: char, d: char)
    ensures KeyOf(false, casefold)(c) == KeyOf(false, casefold)(d) <==> c == d
    ensures KeyOf(true, casefold)(c) == KeyOf(true, casefold)(d) <==> casefold(c) == casefold(d)
  {
    assert [c][0] == c && [d][0] == d;
  }

  datatype Fragment = Fragment(start: nat, outs: seq<Exit>)

  /** The n-th poll of the stop callback, if there is one. */
  type StopCallback = Option<nat -> bool>

  ghost predicate NeverStops(stop: StopCallback) {
    stop.Some? ==> forall n: nat :: !stop.value(n)
  }

  predicate Polls(stop: StopCallback, n: nat) {
    stop.Some? && stop.value(n)
  }

  // ----- Epsilon moves

  /** Where a non-consuming state leads at this position. */
  function Moves(s: State, position: nat, length: nat): seq<nat>
    requires s.kind != Match ==> s.out.Some?
    requires s.kind == Split ==> s.out1.Some?
  {
    match s.kind
    case Split => [s.out.value, s.out1.value]
    case Jump => [s.out.value]
    case Start => if position == 0 then [s.out.value] else []
    case End => if position == length then [s.out.value] else []
    case _ => []
  }

  predicate IsLeaf(s: State) {
    s.kind == Match || IsConsuming(s.kind)
  }

  ghost predicate AllWired(states: seq<State>) {
    forall q :: 0 <= q < |states| ==> Wired(states[q], |states|)
  }

  /** Some state of the set reaches the match state from this position. */
  ghost predicate Live(states: seq<State>, key: Keying, text: string, set_: set<nat>, position: nat) {
    exists q :: q in set_ && Reaches(states, key, text, q, position)
  }

  lemma {:induction false} MoveAccepts(states: seq<State>, key: Keying, text: string, q: nat, i: nat, k: nat)
    requires AllWired(states) && q < |states| && !IsLeaf(states[q]) && i <= |text|
    ensures Accepts(states, key, text, q, i, k) <==>
      k > 0 && exists r :: r in Moves(states[q], i, |text|) && Accepts(states, key, text, r, i, k - 1)
  {
    var s := states[q];
    var moves := Moves(s, i, |text|);
    assert Follows(states, key, text, s.out, i, k) <==> k > 0 && Accepts(states, key, text, s.out.value, i, k - 1);
    if s.kind == Split {
      assert Follows(states, key, text, s.out1, i, k) <==> k > 0 && Accepts(states, key, text, s.out1.value, i, k - 1);
      assert moves[0] in moves && moves[1] in moves;
    } else if moves != [] {
      assert moves[0] in moves;
    }
  }

  /** Epsilon moves only lead to states that the origin can reach. */
  lemma {:induction false} MoveReaches(states: seq<State>, key: Keying, text: string, q: nat, r: nat, i: nat)
    requires AllWired(states) && q < |states| && !IsLeaf(states[q]) && i <= |text|
    requires r in Moves(states[q], i, |text|)
    ensures Reaches(states, key, text, r, i) ==> Reaches(states, key, text, q, i)
  {
    if Reaches(states, key, text, r, i) {
      var k: nat :| Accepts(states, key, text, r, i, k);
      MoveAccepts(states, key, text, q, i, k + 1);
    }
  }

  /** A set closed under epsilon moves is live exactly through its leaves. */
  lemma {:induction false} ClosedLive(states: seq<State>, key: Keying, text: string, seen: set<nat>, q: nat, i: nat, k: nat)
    returns (leaf: nat)
    requires AllWired(states) && i <= |text|
    requires forall s :: s in seen ==> s < |states|
    requires forall s, r :: s in seen && r in Moves(states[s], i, |text|) ==> r in seen
    requires q in seen && Accepts(states, key, text, q, i, k)
    ensures leaf in seen && IsLeaf(states[leaf]) && Reaches(states, key, text, leaf, i)
    decreases k
  {
    if IsLeaf(states[q]) {
      return q;
    }
    MoveAccepts(states, key, text, q, i, k);
    var r :| r in Moves(states[q], i, |text|) && Accepts(states, key, text, r, i, k - 1);
    leaf := ClosedLive(states, key, text, seen, r, i, k - 1);
  }

  /** Reading one character from a consuming state. */
  lemma {:induction false} TakeReaches(states: seq<State>, key: Keying, text: string, q: nat, i: nat)
    requires q < |states| && IsConsuming(states[q].kind) && states[q].out.Some?
    ensures Reaches(states, key, text, q, i) <==>
      i < |text| && Takes(states[q].kind, key(text[i])) && Reaches(states, key, text, states[q].out.value, i + 1)
  {
    var r := states[q].out.value;
    if Reaches(states, key, text, q, i) {
      var k: nat :| Accepts(states, key, text, q, i, k);
      assert Follows(states, key, text, states[q].out, i + 1, k);
      assert Accepts(states, key, text, r, i + 1, k - 1);
    }
    if i < |text| && Takes(states[q].kind, key(text[i])) && Reaches(states, key, text, r, i + 1) {
      assert states[q].out == Some(r);
      var k: nat :| Accepts(states, key, text, r, i + 1, k);
      assert Follows(states, key, text, states[q].out, i + 1, k + 1);
      assert Accepts(states, key, text, q, i, k + 1);
    }
  }

  method ToSequence(s: set<nat>) returns (r: seq<nat>)
    ensures forall x :: x in r <==> x in s
  {
    r := [];
    var left := s;
    while left != {}
      invariant left <= s && forall x :: x in s <==> x in r || x in left
      decreases left
    {
      var x :| x in left;
      r, left := r + [x], left - {x};
    }
  }

  ghost function Indices(n: nat): (r: set<nat>)
    ensures forall q: nat :: q in r <==> q < n
  {
    if n == 0 then {} else Indices(n - 1) + {n - 1}
  }

  class SafeRegex {
    const pattern: string
    const ignoreCase: bool
    const casefold: Keying
    var states: seq<State>
    var ast: Node
    var literalPattern: Option<LiteralPattern>
    var start: nat

    function Key(): Keying {
      KeyOf(ignoreCase, casefold)
    }

    ghost predicate Valid()
      reads this
    {
      && FoldsAscii(casefold)
      && pattern != "" && !TooLongPattern(pattern)
      && ReadPattern(pattern, Key()) == Ok(ast, |pattern|)
      && Shaped(ast)
      && states == Program(ast, Key()) && start == StartOf(ast, 0)
      && literalPattern == ExtractLiteral(ast)
    }

    constructor Blank(pattern: string, ignoreCase: bool, casefold: Keying)
      ensures this.pattern == pattern && this.ignoreCase == ignoreCase && this.casefold == casefold
      ensures states == []
    {
      this.pattern, this.ignoreCase, this.casefold := pattern, ignoreCase, casefold;
      states, ast, literalPattern, start := [], Empty, None, 0;
    }

    /** The constructor of the source, which either raises or yields a usable regex. */
    static method Compile(pattern: string, ignoreCase: bool, casefold: Keying) returns (o: Outcome<SafeRegex>)
      requires FoldsAscii(casefold)
      ensures o.Success? ==> fresh(o.value) && o.value.Valid() && o.value.pattern == pattern &&
                             o.value.ignoreCase == ignoreCase && o.value.casefold == casefold
      ensures var r := ReadPattern(pattern, KeyOf(ignoreCase, casefold));
        if pattern == "" then o == Failure(EmptyPattern)
        else if TooLongPattern(pattern) then o == Failure(TooLong)
        else if r.Ok? then o.Success?
        else o == Failure(r.error)
      ensures o.Success? <==> pattern != "" && !TooLongPattern(pattern) && exists branches :: Spells(branches, pattern)
    {
      if pattern == "" {
        return Failure(EmptyPattern);
      }
      ParserDecidesGrammar(pattern, KeyOf(ignoreCase, casefold));
      if TooLongPattern(pattern) {
        return Failure(TooLong);
      }
      var regex := new SafeRegex.Blank(pattern, ignoreCase, casefold);
      var parser := new Parser(pattern, regex.Key());
      var ast :- parser.Parse();
      assert Shaped(ast) && Size(ast) <= |pattern| by {
        ParsedIsSolid(pattern, regex.Key());
        SolidShaped(ast);
      }
      regex.ast := ast;
      regex.literalPattern := ExtractLiteral(ast);
      regex.Assemble();
      return Success(regex);
    }

    /** Builds the parsed node, adds the match state and patches the dangling exits to it. A pattern within
        its limits needs no more states than there may be, so neither call can fail. */
    method Assemble()
      requires states == [] && Shaped(ast) && Size(ast) < MAX_NFA_STATES
      modifies this`states, this`start
      ensures states == Program(ast, Key()) && start == StartOf(ast, 0)
    {
      var built := Build(ast);
      var fragment := built.value;
      assert states == Emit(ast, Key(), 0, None);
      var added := Add(State(Match, None, None));
      var index := added.value;
      EmitCloses(ast, Key(), 0, index);
      PatchedEnd(Emit(ast, Key(), 0, None), [State(Match, None, None)], fragment.outs, index, Emit(ast, Key(), 0, Some(index)));
      Patch(fragment.outs, index);
      start := fragment.start;
    }

    method Add(state: State) returns (o: Outcome<nat>)
      modifies this`states
      ensures if |old(states)| >= MAX_NFA_STATES then o == Failure(TooComplex) && states == old(states)
              else o == Success(|old(states)|) && states == old(states) + [state]
    {
      if |states| >= MAX_NFA_STATES {
        return Failure(TooComplex);
      }
      states := states + [state];
      return Success(|states| - 1);
    }

    method Patch(outs: seq<Exit>, target: nat)
      requires forall e :: e in outs ==> e.index < |states|
      modifies this`states
      ensures states == Patched(old(states), outs, target)
    {
      for n := 0 to |outs|
        invariant |states| == |old(states)|
        invariant states == Patched(old(states), outs[..n], target)
      {
        var e := outs[n];
        assert outs[..n + 1] == outs[..n] + [e];
        states := if e.second then states[e.index := states[e.index].(out1 := Some(target))]
                  else states[e.index := states[e.index].(out := Some(target))];
      }
      assert outs[..|outs|] == outs;
    }

    /** Appends the states of a node and reports its entry and its dangling exits. */
    method Build(n: Node) returns (o: Outcome<Fragment>)
      requires Shaped(n) && |states| <= MAX_NFA_STATES
      modifies this`states
      ensures Appended(old(states), states, n, Key(), o)
      decreases n, 1
    {
      match n {
        case Concat(parts) => o := BuildConcat(parts);
        case Alt(branches) => o := BuildAlt(branches);
        case Star(body) => o := BuildStar(body);
        case Plus(body) => o := BuildPlus(body);
        case Optional(body) => o := BuildOptional(body);
        case Literal(c) => o := BuildSimple(n, Kind.Literal(Key()(c)));
        case Class(chars) => o := BuildSimple(n, Kind.Class(chars));
        case AnyChar => o := BuildSimple(n, Any);
        case Start => o := BuildSimple(n, Kind.Start);
        case End => o := BuildSimple(n, Kind.End);
        case Empty => o := BuildSimple(n, Jump);
      }
    }

    method BuildSimple(ghost n: Node, kind: Kind) returns (o: Outcome<Fragment>)
      requires Simple(n) && Emit(n, Key(), |states|, None) == [State(kind, None, None)] && |states| <= MAX_NFA_STATES
      modifies this`states
      ensures Appended(old(states), states, n, Key(), o)
    {
      var index :- Add(State(kind, None, None));
      return Success(Fragment(index, [Exit(index, false)]));
    }

    method BuildOptional(body: Node) returns (o: Outcome<Fragment>)
      requires Shaped(body) && |states| <= MAX_NFA_STATES
      modifies this`states
      ensures Appended(old(states), states, Optional(body), Key(), o)
      decreases body, 2
    {
      var child :- Build(body);
      var split :- Add(State(Split, Some(child.start), None));
      return Success(Fragment(split, child.outs + [Exit(split, true)]));
    }

    method BuildStar(body: Node) returns (o: Outcome<Fragment>)
      requires Shaped(body) && |states| <= MAX_NFA_STATES
      modifies this`states
      ensures Appended(old(states), states, Star(body), Key(), o)
      decreases body, 3
    {
      var loop :- BuildLoop(body);
      return Success(Fragment(loop.1, [Exit(loop.1, true)]));
    }

    method BuildPlus(body: Node) returns (o: Outcome<Fragment>)
      requires Shaped(body) && |states| <= MAX_NFA_STATES
      modifies this`states
      ensures Appended(old(states), states, Plus(body), Key(), o)
      decreases body, 3
    {
      PlusIsStar(body, Key(), |states|);
      var loop :- BuildLoop(body);
      return Success(Fragment(loop.0, [Exit(loop.1, true)]));
    }

    /** The common part of star and plus: a split behind the child, closed into a loop. */
    method BuildLoop(body: Node) returns (o: Outcome<(nat, nat)>)
      requires Shaped(body) && |states| <= MAX_NFA_STATES
      modifies this`states
      ensures |states| <= MAX_NFA_STATES && (o.Success? <==> |old(states)| + Size(body) + 1 <= MAX_NFA_STATES)
      ensures o.Failure? ==> o.error == TooComplex
      ensures o.Success? ==> var base := |old(states)|;
        && states == old(states) + Emit(Star(body), Key(), base, None)
        && o.value == (StartOf(body, base), base + Size(body))
      decreases body, 2
    {
      ghost var before := states;
      var child :- Build(body);
      var split :- Add(State(Split, Some(child.start), None));
      LoopStep(before, body, Key(), split);
      Patch(child.outs, split);
      return Success((child.start, split));
    }

    method BuildConcat(parts: seq<Node>) returns (o: Outcome<Fragment>)
      requires parts != [] && ShapedAll(parts) && |states| <= MAX_NFA_STATES
      modifies this`states
      ensures Appended(old(states), states, Concat(parts), Key(), o)
      decreases parts, 0
    {
      ghost var before, key := states, Key();
      FirstPart(before, parts, key);
      var result :- Build(parts[0]);
      for n := 1 to |parts|
        invariant |states| <= MAX_NFA_STATES
        invariant states == WithParts(before, parts, n, key)
        invariant result == Fragment(StartOf(parts[0], |before|), ExitsLast(parts[..n], |before|))
      {
        result :- BuildFollowing(before, parts, n, result);
      }
      ConcatIsRow(before, parts, key);
      return Success(result);
    }

    /** One round of the loop over parts: build the part, patch the previous exits to it. */
    method BuildFollowing(ghost before: seq<State>, parts: seq<Node>, n: nat, previous: Fragment) returns (o: Outcome<Fragment>)
      requires 0 < n < |parts| && ShapedAll(parts) && |states| <= MAX_NFA_STATES
      requires states == WithParts(before, parts, n, Key())
      requires previous == Fragment(StartOf(parts[0], |before|), ExitsLast(parts[..n], |before|))
      modifies this`states
      ensures |states| <= MAX_NFA_STATES
      ensures o.Failure? ==> o.error == TooComplex && |before| + SizeAll(parts) > MAX_NFA_STATES
      ensures o.Success? ==>
        && states == WithParts(before, parts, n + 1, Key())
        && o.value == Fragment(StartOf(parts[0], |before|), ExitsLast(parts[..n + 1], |before|))
      decreases parts, 0, 0
    {
      ListStep(parts, n);
      var following :- Build(parts[n]);
      ConcatStep(before, parts, n, Key());
      Patch(previous.outs, following.start);
      return Success(Fragment(previous.start, following.outs));
    }

    method BuildAlt(branches: seq<Node>) returns (o: Outcome<Fragment>)
      requires branches != [] && ShapedAll(branches) && |states| <= MAX_NFA_STATES
      modifies this`states
      ensures Appended(old(states), states, Alt(branches), Key(), o)
      decreases branches, 0
    {
      ghost var before, key := states, Key();
      var fragments: seq<Fragment> := [];
      for n := 0 to |branches|
        invariant |states| <= MAX_NFA_STATES && |fragments| == n
        invariant states == WithBranches(before, branches, n, key)
        invariant forall b :: 0 <= b < n ==> fragments[b] == BranchFragment(branches, |before|, b)
      {
        var fragment :- BuildBranch(before, branches, n);
        fragments := fragments + [fragment];
      }
      ChoiceAppends(before, branches, key);
      o := BuildSplits(branches, fragments, |before|);
    }

    /** One round of the loop over branches. */
    method BuildBranch(ghost before: seq<State>, branches: seq<Node>, n: nat) returns (o: Outcome<Fragment>)
      requires n < |branches| && ShapedAll(branches) && |states| <= MAX_NFA_STATES
      requires states == WithBranches(before, branches, n, Key())
      modifies this`states
      ensures |states| <= MAX_NFA_STATES
      ensures o.Failure? ==> o.error == TooComplex && |before| + SizeAll(branches) > MAX_NFA_STATES
      ensures o.Success? ==>
        states == WithBranches(before, branches, n + 1, Key()) && o.value == BranchFragment(branches, |before|, n)
      decreases branches, 0, 0
    {
      ListStep(branches, n);
      o := Build(branches[n]);
      EachAppends(before, branches, n, Key());
    }

    /** The loop that joins the branches with a chain of splits. */
    method BuildSplits(ghost branches: seq<Node>, fragments: seq<Fragment>, ghost base: nat) returns (o: Outcome<Fragment>)
      requires branches != [] && |fragments| == |branches| && |states| == base + SizeAll(branches) <= MAX_NFA_STATES
      requires forall b :: 0 <= b < |branches| ==> fragments[b] == BranchFragment(branches, base, b)
      modifies this`states
      ensures |states| <= MAX_NFA_STATES && (o.Success? <==> |old(states)| + |branches| - 1 <= MAX_NFA_STATES)
      ensures o.Failure? ==> o.error == TooComplex
      ensures o.Success? ==>
        && states == old(states) + Splits(branches, base)
        && o.value == Fragment(Entry(branches, base, |branches| - 1), ExitsEach(branches, base))
    {
      ghost var before := states;
      var result := fragments[0];
      FirstExits(before, branches, base);
      for t := 1 to |fragments|
        invariant |states| <= MAX_NFA_STATES
        invariant states == WithSplits(before, branches, base, t - 1)
        invariant result == Fragment(Entry(branches, base, t - 1), ExitsEach(branches[..t], base))
      {
        var split :- Add(State(Split, Some(result.start), Some(fragments[t].start)));
        SplitsStep(before, branches, base, t);
        result := Fragment(split, result.outs + fragments[t].outs);
      }
      assert branches[..|branches|] == branches;
      assert Splits(branches, base)[..|branches| - 1] == Splits(branches, base);
      return Success(result);
    }

    // ----- Searching

    ghost predicate Ready()
      reads this
    {
      AllWired(states) && start < |states|
    }

    /** The non-epsilon states reachable from `initial` by epsilon moves. */
    method Closure(initial: set<nat>, position: nat, ghost text: string, length: nat) returns (active: set<nat>)
      requires Ready() && length == |text| && position <= length
      requires forall q :: q in initial ==> q < |states|
      ensures forall q :: q in active ==> q < |states| && IsLeaf(states[q])
      ensures Live(states, Key(), text, active, position) <==> Live(states, Key(), text, initial, position)
    {
      active := {};
      var seen: set<nat> := {};
      var pending := ToSequence(initial);
      ghost var all := Indices(|states|);
      while pending != []
        invariant seen <= all && forall q :: q in pending ==> q in all
        invariant active == set q | q in seen && IsLeaf(states[q])
        invariant forall q :: q in initial ==> q in seen || q in pending
        invariant forall q, r :: q in seen && r in Moves(states[q], position, length) ==> r in seen || r in pending
        invariant forall q :: q in seen || q in pending ==>
          (Reaches(states, Key(), text, q, position) ==> Live(states, Key(), text, initial, position))
        decreases all - seen, |pending|
      {
        var index := pending[|pending| - 1];
        ghost var before := pending;
        pending := pending[..|pending| - 1];
        assert forall q :: q in before ==> q in pending || q == index;
        if index in seen {
          continue;
        }
        ghost var wasSeen := seen;
        seen := seen + {index};
        assert index in all && index !in wasSeen;
        var state := states[index];
        if IsLeaf(state) {
          active := active + {index};
        } else {
          var moves := Moves(state, position, length);
          forall r | r in moves
            ensures r in all
            ensures Reaches(states, Key(), text, r, position) ==> Live(states, Key(), text, initial, position)
          {
            assert Wired(states[index], |states|);
            MoveReaches(states, Key(), text, index, r, position);
          }
          pending := pending + moves;
        }
      }
      if Live(states, Key(), text, initial, position) {
        var q :| q in initial && Reaches(states, Key(), text, q, position);
        var k: nat :| Accepts(states, Key(), text, q, position, k);
        var leaf := ClosedLive(states, Key(), text, seen, q, position, k);
        assert leaf in active;
      }
    }

    /** One character: the targets of the states that take it, and a fresh start. */
    method Step(active: set<nat>, position: nat, text: string) returns (following: set<nat>)
      requires Ready() && position < |text|
      requires forall q :: q in active ==> q < |states| && IsLeaf(states[q])
      requires forall q :: q in active ==> states[q].kind != Match
      ensures forall q :: q in following ==> q < |states|
      ensures Live(states, Key(), text, following, position + 1) <==>
        Reaches(states, Key(), text, start, position + 1) || Live(states, Key(), text, active, position)
    {
      var candidate := Key()(text[position]);
      following := {start};
      var left := active;
      while left != {}
        invariant left <= active
        invariant forall q :: q in following ==> q < |states|
        invariant start in following
        invariant forall r :: r in following ==> r == start || exists q ::
          q in active && Takes(states[q].kind, candidate) && states[q].out == Some(r)
        invariant forall q :: q in active && q !in left && Takes(states[q].kind, candidate) ==>
          states[q].out.Some? && states[q].out.value in following
        decreases left
      {
        var index :| index in left;
        left := left - {index};
        assert Wired(states[index], |states|);
        if Takes(states[index].kind, candidate) {
          following := following + {states[index].out.value};
        }
      }
      forall q | q in active ensures Reaches(states, Key(), text, q, position) <==>
        Takes(states[q].kind, candidate) && states[q].out.Some? && Reaches(states, Key(), text, states[q].out.value, position + 1)
      {
        assert Wired(states[q], |states|);
        TakeReaches(states, Key(), text, q, position);
      }
    }

    /** Whether the pattern, as it is written, matches somewhere in the text. Without a stop callback
        the answer is exact; with one, a positive answer is still right. */
    method Search(text: string, stop: StopCallback) returns (found: bool)
      requires Valid()
      ensures found ==> PatternMatches(pattern, Key(), text)
      ensures NeverStops(stop) ==> (found <==> PatternMatches(pattern, Key(), text))
    {
      OccursMeansMatches(pattern, Key(), text, ast);
      if literalPattern.Some? && (!ignoreCase || (IsAscii(literalPattern.value.needle) && IsAscii(text))) {
        if Polls(stop, 0) {
          return false;
        }
        found := FastSearch(literalPattern.value, text);
        return;
      }
      found := Simulate(text, stop);
    }

    method FastSearch(p: LiteralPattern, text: string) returns (found: bool)
      requires Valid() && literalPattern == Some(p)
      requires !ignoreCase || (IsAscii(p.needle) && IsAscii(text))
      ensures found <==> Occurs(ast, Key(), text)
    {
      var needle, haystack := p.needle, text;
      if ignoreCase {
        needle, haystack := Lower(needle), Lower(haystack);
      }
      LiteralDecides(ast, Key(), text);
      FoundDecides(p, text, haystack, needle, Key());
      if p.anchoredStart && p.anchoredEnd {
        return haystack == needle;
      }
      if p.anchoredStart {
        return needle <= haystack;
      }
      if p.anchoredEnd {
        return EndsWith(haystack, needle);
      }
      return Contains(haystack, needle);
    }

    /** The set simulation; the callback is polled at every 256th position. */
    method Simulate(text: string, stop: StopCallback) returns (found: bool)
      requires Valid()
      ensures found ==> Occurs(ast, Key(), text)
      ensures NeverStops(stop) ==> (found <==> Occurs(ast, Key(), text))
    {
      ProgramWired(ast, Key());
      OccursStarts(ast, Key(), text);
      assert Ready();
      var active: set<nat> := Closure({start}, 0, text, |text|);
      ghost var answer := StartsFrom(states, Key(), text, start, 0);
      StartsSplit(states, Key(), text, start, 0);
      var polls := 0;
      for position := 0 to |text| + 1
        invariant forall q :: q in active ==> q < |states| && IsLeaf(states[q])
        invariant position <= |text| ==>
          (answer <==> Live(states, Key(), text, active, position) || StartsFrom(states, Key(), text, start, position + 1))
        invariant position == |text| + 1 ==> !answer
      {
        if position % 256 == 0 {
          if Polls(stop, polls) {
            return false;
          }
          polls := polls + 1;
        }
        if exists index :: index in active && states[index].kind == Match {
          var index :| index in active && states[index].kind == Match;
          assert Accepts(states, Key(), text, index, position, 0);
          return true;
        }
        if position == |text| {
          EndIsDead(states, Key(), text, active);
          assert !StartsFrom(states, Key(), text, start, |text| + 1);
          break;
        }
        var following := Step(active, position, text);
        active := Closure(following, position + 1, text, |text|);
        StartsSplit(states, Key(), text, start, position + 1);
      }
      return false;
    }
  }

  /** Some run from a state, started at or after a position, accepts. */
  ghost predicate StartsFrom(states: seq<State>, key: Keying, text: string, start: nat, position: nat) {
    exists i :: position <= i <= |text| && Reaches(states, key, text, start, i)
  }

  lemma {:induction false} StartsSplit(states: seq<State>, key: Keying, text: string, start: nat, position: nat)
    requires position <= |text|
    ensures StartsFrom(states, key, text, start, position) <==>
      Live(states, key, text, {start}, position) || StartsFrom(states, key, text, start, position + 1)
  {
    assert start in {start};
  }

  lemma {:induction false} OccursStarts(n: Node, key: Keying, text: string)
    requires Shaped(n)
    ensures Occurs(n, key, text) <==> StartsFrom(Program(n, key), key, text, StartOf(n, 0), 0)
  {
    forall i: nat ensures Reaches(Program(n, key), key, text, StartOf(n, 0), i) <==> exists j :: Spans(n, key, text, i, j) {
      ProgramDecides(n, key, text, i);
    }
    if Occurs(n, key, text) {
      var i, j :| Spans(n, key, text, i, j);
      assert 0 <= i <= |text| && Reaches(Program(n, key), key, text, StartOf(n, 0), i);
    }
  }

  /** At the end of the text only a match state is live. */
  lemma {:induction false} EndIsDead(states: seq<State>, key: Keying, text: string, active: set<nat>)
    requires forall q :: q in active ==> q < |states| && IsConsuming(states[q].kind)
    ensures !Live(states, key, text, active, |text|)
  {
  }

  /** Patching what is at the beginning leaves what is behind it alone. */
  lemma {:induction false} PatchedEnd(open: seq<State>, behind: seq<State>, exits: seq<Exit>, target: nat, closed: seq<State>)
    requires Closes(open, 0, exits, target, closed)
    ensures Patched(open + behind, exits, target) == closed + behind
    ensures forall e :: e in exits ==> e.index < |open + behind|
  {
    PatchedSegment([], open, behind, exits, target, closed);
    assert [] + open + behind == open + behind && [] + closed + behind == closed + behind;
  }

  /** The node's states were appended, or the limit on states was hit. */
  ghost predicate Appended(before: seq<State>, after: seq<State>, n: Node, key: Keying, o: Outcome<Fragment>) {
    var base := |before|;
    && |after| <= MAX_NFA_STATES
    && (o.Success? <==> base + Size(n) <= MAX_NFA_STATES)
    && (o.Failure? ==> o.error == TooComplex)
    && (o.Success? ==> after == before + Emit(n, key, base, None) && o.value == Fragment(StartOf(n, base), Exits(n, base)))
  }

  ghost function BranchFragment(branches: seq<Node>, base: nat, b: nat): Fragment
    requires b < |branches|
  {
    var at := base + SizeAll(branches[..b]);
    Fragment(StartOf(branches[b], at), Exits(branches[b], at))
  }

  // ----- Appending one node to a list

  lemma {:induction false} SizeAllPrefix(nodes: seq<Node>, k: nat)
    requires k <= |nodes|
    ensures SizeAll(nodes[..k]) <= SizeAll(nodes)
  {
    if k < |nodes| {
      assert Front(nodes)[..k] == nodes[..k];
      SizeAllPrefix(Front(nodes), k);
    } else {
      assert nodes[..k] == nodes;
    }
  }

  lemma {:induction false} FirstPart(before: seq<State>, parts: seq<Node>, key: Keying)
    requires parts != []
    ensures WithParts(before, parts, 1, key) == before + Emit(parts[0], key, |before|, None)
    ensures ExitsLast(parts[..1], |before|) == Exits(parts[0], |before|)
    ensures SizeAll(parts[..1]) == Size(parts[0]) <= SizeAll(parts) == Size(Concat(parts))
  {
    SizeAllPrefix(parts, 1);
    assert Front(parts[..1]) == [] && Last(parts[..1]) == parts[0];
  }

  ghost function WithSplits(before: seq<State>, branches: seq<Node>, base: nat, t: nat): seq<State>
    requires t < |branches|
  {
    before + Splits(branches, base)[..t]
  }

  lemma {:induction false} FirstExits(before: seq<State>, branches: seq<Node>, base: nat)
    requires branches != []
    ensures BranchFragment(branches, base, 0) == Fragment(Entry(branches, base, 0), ExitsEach(branches[..1], base))
    ensures WithSplits(before, branches, base, 0) == before
  {
    assert Front(branches[..1]) == [] && Last(branches[..1]) == branches[0];
    assert [] + Exits(branches[0], base) == Exits(branches[0], base);
    assert before + [] == before;
  }

  /** One more split extends the chain by one branch. */
  lemma {:induction false} SplitsStep(before: seq<State>, branches: seq<Node>, base: nat, t: nat)
    requires 0 < t < |branches|
    ensures var fragment := BranchFragment(branches, base, t);
      && WithSplits(before, branches, base, t) ==
         WithSplits(before, branches, base, t - 1) + [State(Split, Some(Entry(branches, base, t - 1)), Some(fragment.start))]
      && ExitsEach(branches[..t + 1], base) == ExitsEach(branches[..t], base) + fragment.outs
  {
    SplitsGrow(before, Splits(branches, base), t);
    ExitsGrow(branches, base, t);
  }

  lemma {:induction false} SplitsGrow(before: seq<State>, splits: seq<State>, t: nat)
    requires 0 < t <= |splits|
    ensures before + splits[..t] == before + splits[..t - 1] + [splits[t - 1]]
  {
  }

  lemma {:induction false} ExitsGrow(branches: seq<Node>, base: nat, t: nat)
    requires t < |branches|
    ensures ExitsEach(branches[..t + 1], base) == ExitsEach(branches[..t], base) + Exits(branches[t], base + SizeAll(branches[..t]))
  {
    ListStep(branches, t);
  }

  /** The first `k + 1` nodes of a list against the first `k`. */
  lemma {:induction false} ListStep(nodes: seq<Node>, k: nat)
    requires k < |nodes|
    ensures Front(nodes[..k + 1]) == nodes[..k] && Last(nodes[..k + 1]) == nodes[k] && nodes[..k + 1] == nodes[..k] + [nodes[k]]
    ensures SizeAll(nodes[..k + 1]) == SizeAll(nodes[..k]) + Size(nodes[k]) <= SizeAll(nodes)
  {
    SizeAllPrefix(nodes, k + 1);
    assert Front(nodes[..k + 1]) == nodes[..k];
  }

  lemma {:induction false} LoopStep(before: seq<State>, body: Node, key: Keying, split: nat)
    requires Shaped(body) && split == |before| + Size(body)
    ensures var base, s := |before|, State(Split, Some(StartOf(body, |before|)), None);
      && Patched(before + Emit(body, key, base, None) + [s], Exits(body, base), split) ==
         before + Emit(Star(body), key, base, None)
      && forall e :: e in Exits(body, base) ==> e.index < split
  {
    var s := State(Split, Some(StartOf(body, |before|)), None);
    EmitCloses(body, key, |before|, split);
    PatchedRow(before, Emit(body, key, |before|, None), Emit(body, key, |before|, Some(split)), [s],
               Emit(Star(body), key, |before|, None), Exits(body, |before|), split);
  }

  lemma {:induction false} PlusIsStar(body: Node, key: Keying, base: nat)
    ensures Emit(Plus(body), key, base, None) == Emit(Star(body), key, base, None)
    ensures Size(Plus(body)) == Size(body) + 1 && Exits(Plus(body), base) == [Exit(base + Size(body), true)]
  {
    var loop := Emit(body, key, base, Some(base + Size(body))) + [State(Split, Some(StartOf(body, base)), None)];
    assert Emit(Plus(body), key, base, None) == loop;
  }

  ghost function WithParts(before: seq<State>, parts: seq<Node>, n: nat, key: Keying): (r: seq<State>)
    requires n <= |parts|
    ensures |r| == |before| + SizeAll(parts[..n])
  {
    before + EmitAll(parts[..n], key, |before|, None)
  }

  ghost function WithBranches(before: seq<State>, branches: seq<Node>, n: nat, key: Keying): (r: seq<State>)
    requires n <= |branches|
    ensures |r| == |before| + SizeAll(branches[..n])
  {
    before + EmitEach(branches[..n], key, |before|, None)
  }

  lemma {:induction false} ConcatIsRow(before: seq<State>, parts: seq<Node>, key: Keying)
    requires parts != []
    ensures WithParts(before, parts, |parts|, key) == before + Emit(Concat(parts), key, |before|, None)
    ensures Size(Concat(parts)) == SizeAll(parts[..|parts|]) == SizeAll(parts)
    ensures Fragment(StartOf(Concat(parts), |before|), Exits(Concat(parts), |before|)) ==
      Fragment(StartOf(parts[0], |before|), ExitsLast(parts[..|parts|], |before|))
  {
    assert parts[..|parts|] == parts;
  }

  lemma {:induction false} EachAppends(before: seq<State>, branches: seq<Node>, k: nat, key: Keying)
    requires k < |branches|
    ensures WithBranches(before, branches, k, key) + Emit(branches[k], key, |before| + SizeAll(branches[..k]), None) ==
      WithBranches(before, branches, k + 1, key)
  {
    ListStep(branches, k);
  }

  lemma {:induction false} ChoiceAppends(before: seq<State>, branches: seq<Node>, key: Keying)
    requires branches != []
    ensures WithBranches(before, branches, |branches|, key) + Splits(branches, |before|) ==
      before + Emit(Alt(branches), key, |before|, None)
    ensures Size(Alt(branches)) == SizeAll(branches) + |branches| - 1 && SizeAll(branches[..|branches|]) == SizeAll(branches)
    ensures Fragment(StartOf(Alt(branches), |before|), Exits(Alt(branches), |before|)) ==
      Fragment(Entry(branches, |before|, |branches| - 1), ExitsEach(branches, |before|))
  {
    assert branches[..|branches|] == branches;
  }

  lemma {:induction false} RowExits(parts: seq<Node>, k: nat, base: nat)
    requires k < |parts|
    ensures ExitsLast(parts[..k + 1], base) == Exits(parts[k], base + SizeAll(parts[..k]))
  {
    ListStep(parts, k);
  }

  lemma {:induction false} PatchedRow(before: seq<State>, open: seq<State>, closed: seq<State>, next: seq<State>, grown: seq<State>, exits: seq<Exit>, target: nat)
    requires Closes(open, |before|, exits, target, closed) && grown == closed + next
    ensures Patched(before + open + next, exits, target) == before + grown
  {
    PatchedSegment(before, open, next, exits, target, closed);
    assert before + closed + next == before + grown;
  }

  /** Patching the exits of the first parts to the next one's entry continues the row. */
  lemma {:induction false} ConcatStep(before: seq<State>, parts: seq<Node>, k: nat, key: Keying)
    requires 0 < k < |parts| && ShapedAll(parts)
    ensures var at := |before| + SizeAll(parts[..k]);
      Patched(WithParts(before, parts, k, key) + Emit(parts[k], key, at, None),
              ExitsLast(parts[..k], |before|), StartOf(parts[k], at)) ==
      WithParts(before, parts, k + 1, key)
    ensures forall e :: e in ExitsLast(parts[..k], |before|) ==> e.index < |before| + SizeAll(parts[..k])
    ensures ExitsLast(parts[..k + 1], |before|) == Exits(parts[k], |before| + SizeAll(parts[..k]))
  {
    var at := |before| + SizeAll(parts[..k]);
    var target := StartOf(parts[k], at);
    var closed, next := EmitAll(parts[..k], key, |before|, Some(target)), Emit(parts[k], key, at, None);
    assert ShapedAll(parts[..k]);
    EmitAllCloses(parts[..k], key, |before|, target);
    ListStep(parts, k);
    RowEnds(parts[..k + 1], parts[..k], parts[k], key, |before|, None);
    RowExits(parts, k, |before|);
    PatchedRow(before, EmitAll(parts[..k], key, |before|, None), closed, next, EmitAll(parts[..k + 1], key, |before|, None),
               ExitsLast(parts[..k], |before|), target);
  }
}
