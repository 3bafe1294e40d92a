/** Thompson automata: the states a node compiles to, what it means to accept,
    and the proof that the two agree with the denotation of the node. */
module Nfa {
  import opened CharSets
  import opened RegexSyntax
  import opened Wrappers

  datatype Kind = Match | Literal(value: string) | Any | Class(chars: CharSet) | Start | End | Jump | Split

  datatype State = State(kind: Kind, out: Option<nat>, out1: Option<nat>)

  predicate IsConsuming(kind: Kind) {
    kind.Literal? || kind.Any? || kind.Class?
  }

  /** Whether a consuming state may read a character with this key. */
  predicate Takes(kind: Kind, k: string) {
    match kind
    case Literal(value) => value == k
    case Any => true
    case Class(chars) => chars.Matches(k)
    case _ => false
  }

  // ----- The states of a node placed at `base`, with its exits leading to `next`

  function StartOf(n: Node, base: nat): nat
    decreases n, base
  {
    match n
    case Concat(parts) => if parts == [] then base else StartOf(parts[0], base)
    case Alt(branches) =>
      if branches == [] then base else if |branches| == 1 then StartOf(branches[0], base)
      else base + SizeAll(branches) + |branches| - 2
    case Star(body) => base + Size(body)
    case Plus(body) => StartOf(body, base)
    case Optional(body) => base + Size(body)
    case _ => base
  }

  function Emit(n: Node, key: Keying, base: nat, next: Option<nat>): (r: seq<State>)
    ensures |r| == Size(n)
    decreases n, base
  {
    match n
    case Empty => [State(Jump, next, None)]
    case Literal(c) => [State(Kind.Literal(key(c)), next, None)]
    case AnyChar => [State(Any, next, None)]
    case Class(chars) => [State(Kind.Class(chars), next, None)]
    case Start => [State(Kind.Start, next, None)]
    case End => [State(Kind.End, next, None)]
    case Concat(parts) => EmitAll(parts, key, base, next)
    case Alt(branches) => EmitEach(branches, key, base, next) + Splits(branches, base)
    case Star(body) =>
      Emit(body, key, base, Some(base + Size(body))) + [State(Split, Some(StartOf(body, base)), next)]
    case Plus(body) =>
      Emit(body, key, base, Some(base + Size(body))) + [State(Split, Some(StartOf(body, base)), next)]
    case Optional(body) =>
      Emit(body, key, base, next) + [State(Split, Some(StartOf(body, base)), next)]
  }

  /** Parts in a row, each leading to the start of the following one. */
  function EmitAll(parts: seq<Node>, key: Keying, base: nat, next: Option<nat>): (r: seq<State>)
    ensures |r| == SizeAll(parts)
    decreases parts, base
  {
    if parts == [] then [] else
      var at := base + SizeAll(Front(parts));
      EmitAll(Front(parts), key, base, Some(StartOf(Last(parts), at))) + Emit(Last(parts), key, at, next)
  }

  /** A row ends with its last part. */
  lemma {:induction false} RowEnds(row: seq<Node>, front: seq<Node>, last: Node, key: Keying, base: nat, next: Option<nat>)
    requires row == front + [last]
    ensures var at := base + SizeAll(front);
      EmitAll(row, key, base, next) == EmitAll(front, key, base, Some(StartOf(last, at))) + Emit(last, key, at, next)
  {
    assert Front(row) == front && Last(row) == last;
  }

  /** Branches in a row, all leading to `next`. */
  function EmitEach(branches: seq<Node>, key: Keying, base: nat, next: Option<nat>): (r: seq<State>)
    ensures |r| == SizeAll(branches)
    decreases branches, base
  {
    if branches == [] then [] else
      EmitEach(Front(branches), key, base, next) + Emit(Last(branches), key, base + SizeAll(Front(branches)), next)
  }

  /** The entry of the first `t + 1` branches taken together. */
  function Entry(branches: seq<Node>, base: nat, t: nat): nat
    requires t < |branches|
  {
    if t == 0 then StartOf(branches[0], base) else base + SizeAll(branches) + t - 1
  }

  function SplitAt(branches: seq<Node>, base: nat, t: nat): State
    requires t + 1 < |branches|
  {
    State(Split, Some(Entry(branches, base, t)), Some(StartOf(branches[t + 1], base + SizeAll(branches[..t + 1]))))
  }

  /** The chain of splits behind the branches. */
  function Splits(branches: seq<Node>, base: nat): (r: seq<State>)
    ensures |r| == if branches == [] then 0 else |branches| - 1
  {
    if branches == [] then []
    else seq(|branches| - 1, t requires 0 <= t < |branches| - 1 => SplitAt(branches, base, t))
  }

  // ----- Acceptance

  /** From state `q` at position `i`, a match state is at most `k` moves away. */
  ghost predicate Accepts(states: seq<State>, key: Keying, text: string, q: nat, i: nat, k: nat)
    decreases k, 1, states
  {
    q < |states| && i <= |text| &&
    var s := states[q];
    match s.kind
    case Match => true
    case Split => Follows(states, key, text, s.out, i, k) || Follows(states, key, text, s.out1, i, k)
    case Jump => Follows(states, key, text, s.out, i, k)
    case Start => i == 0 && Follows(states, key, text, s.out, i, k)
    case End => i == |text| && Follows(states, key, text, s.out, i, k)
    case _ => i < |text| && Takes(s.kind, key(text[i])) && Follows(states, key, text, s.out, i + 1, k)
  }

  ghost predicate Follows(states: seq<State>, key: Keying, text: string, q: Option<nat>, i: nat, k: nat)
    decreases k, 0, states
  {
    k > 0 && q.Some? && Accepts(states, key, text, q.value, i, k - 1)
  }

  /** From state `q` at position `i`, a match state can be reached. */
  ghost predicate Reaches(states: seq<State>, key: Keying, text: string, q: nat, i: nat) {
    exists k :: Accepts(states, key, text, q, i, k)
  }

  lemma {:induction false} AcceptsMore(states: seq<State>, key: Keying, text: string, q: nat, i: nat, k: nat, m: nat)
    requires Accepts(states, key, text, q, i, k) && k <= m
    ensures Accepts(states, key, text, q, i, m)
    decreases k, 1
  {
    var s := states[q];
    FollowsMore(states, key, text, s.out, i, k, m);
    FollowsMore(states, key, text, s.out1, i, k, m);
    FollowsMore(states, key, text, s.out, i + 1, k, m);
  }

  lemma {:induction false} FollowsMore(states: seq<State>, key: Keying, text: string, q: Option<nat>, i: nat, k: nat, m: nat)
    requires k <= m
    ensures Follows(states, key, text, q, i, k) ==> Follows(states, key, text, q, i, m)
    decreases k, 0
  {
    if Follows(states, key, text, q, i, k) {
      AcceptsMore(states, key, text, q.value, i, k - 1, m - 1);
    }
  }

  lemma {:induction false} AcceptsSplit(states: seq<State>, key: Keying, text: string, q: nat, a: nat, b: nat, i: nat, k: nat)
    requires q < |states| && states[q] == State(Split, Some(a), Some(b))
    ensures Accepts(states, key, text, q, i, k) <==>
      i <= |text| && k > 0 && (Accepts(states, key, text, a, i, k - 1) || Accepts(states, key, text, b, i, k - 1))
  {
    assert Follows(states, key, text, Some(a), i, k) <==> k > 0 && Accepts(states, key, text, a, i, k - 1);
    assert Follows(states, key, text, Some(b), i, k) <==> k > 0 && Accepts(states, key, text, b, i, k - 1);
  }

  // ----- Placing a segment

  ghost predicate Placed(states: seq<State>, base: nat, segment: seq<State>) {
    base + |segment| <= |states| && forall k :: 0 <= k < |segment| ==> segment[k] == states[base + k]
  }

  lemma {:induction false} PlacedAt(states: seq<State>, base: nat, segment: seq<State>, k: nat)
    requires Placed(states, base, segment) && k < |segment|
    ensures base + k < |states| && states[base + k] == segment[k]
  {
    assert segment[k] == states[base + k];
  }

  lemma {:induction false} PlacedAppend(states: seq<State>, base: nat, a: seq<State>, b: seq<State>)
    requires Placed(states, base, a + b)
    ensures Placed(states, base, a) && Placed(states, base + |a|, b)
  {
    assert forall k :: 0 <= k < |a| ==> a[k] == (a + b)[k];
    forall k | 0 <= k < |b| ensures b[k] == states[base + |a| + k] {
      assert (a + b)[|a| + k] == states[base + (|a| + k)];
    }
  }

  lemma {:induction false} PlacedLast(states: seq<State>, base: nat, a: seq<State>, s: State)
    requires Placed(states, base, a + [s])
    ensures Placed(states, base, a) && base + |a| < |states| && states[base + |a|] == s
  {
    PlacedAppend(states, base, a, [s]);
    assert [s][0] == s;
  }

  lemma {:induction false} PlacedEach(states: seq<State>, key: Keying, branches: seq<Node>, base: nat, next: Option<nat>, b: nat)
    requires b < |branches| && Placed(states, base, EmitEach(branches, key, base, next))
    ensures Placed(states, base + SizeAll(branches[..b]), Emit(branches[b], key, base + SizeAll(branches[..b]), next))
    decreases |branches|
  {
    var front, last := Front(branches), Last(branches);
    PlacedAppend(states, base, EmitEach(front, key, base, next), Emit(last, key, base + SizeAll(front), next));
    if b < |front| {
      assert front[..b] == branches[..b];
      PlacedEach(states, key, front, base, next, b);
    }
  }

  // The segments of a placed node, by the kind of node.

  lemma {:induction false} PlacedParts(states: seq<State>, key: Keying, front: seq<Node>, last: Node, base: nat, next: Option<nat>, row: seq<State>)
    requires Placed(states, base, row)
    requires row == EmitAll(front, key, base, Some(StartOf(last, base + SizeAll(front)))) + Emit(last, key, base + SizeAll(front), next)
    ensures var at := base + SizeAll(front);
      && Placed(states, base, Emit(Concat(front), key, base, Some(StartOf(last, at))))
      && Placed(states, at, Emit(last, key, at, next))
  {
    var at := base + SizeAll(front);
    PlacedAppend(states, base, EmitAll(front, key, base, Some(StartOf(last, at))), Emit(last, key, at, next));
  }

  lemma {:induction false} PlacedRow(states: seq<State>, key: Keying, parts: seq<Node>, base: nat, next: Option<nat>)
    requires parts != [] && Placed(states, base, Emit(Concat(parts), key, base, next))
    ensures var at := base + SizeAll(Front(parts));
      && Placed(states, base, Emit(Concat(Front(parts)), key, base, Some(StartOf(Last(parts), at))))
      && Placed(states, at, Emit(Last(parts), key, at, next))
  {
    PlacedParts(states, key, Front(parts), Last(parts), base, next, EmitAll(parts, key, base, next));
  }

  lemma {:induction false} PlacedBranch(states: seq<State>, key: Keying, branches: seq<Node>, base: nat, next: Option<nat>, b: nat)
    requires b < |branches| && Placed(states, base, Emit(Alt(branches), key, base, next))
    ensures var at := base + SizeAll(branches[..b]);
      Placed(states, at, Emit(branches[b], key, at, next))
  {
    PlacedAppend(states, base, EmitEach(branches, key, base, next), Splits(branches, base));
    PlacedEach(states, key, branches, base, next, b);
  }

  lemma {:induction false} PlacedSplit(states: seq<State>, key: Keying, branches: seq<Node>, base: nat, next: Option<nat>, t: nat)
    requires 0 < t < |branches| && Placed(states, base, Emit(Alt(branches), key, base, next))
    ensures Entry(branches, base, t) < |states|
    ensures states[Entry(branches, base, t)] ==
      State(Split, Some(Entry(branches, base, t - 1)), Some(StartOf(branches[t], base + SizeAll(branches[..t]))))
  {
    PlacedAppend(states, base, EmitEach(branches, key, base, next), Splits(branches, base));
    PlacedAt(states, base + SizeAll(branches), Splits(branches, base), t - 1);
  }

  /** Both loops are laid out alike; only where they are entered differs. */
  lemma {:induction false} LoopsAlike(body: Node, key: Keying, base: nat, next: Option<nat>)
    ensures Emit(Plus(body), key, base, next) == Emit(Star(body), key, base, next)
  {
  }

  /** A loop is its body leading to the split behind it. */
  lemma {:induction false} PlacedLoop(states: seq<State>, key: Keying, body: Node, base: nat, next: Option<nat>)
    requires Placed(states, base, Emit(Star(body), key, base, next))
    ensures var split := base + Size(body);
      && Placed(states, base, Emit(body, key, base, Some(split)))
      && split < |states| && states[split] == State(Split, Some(StartOf(body, base)), next)
  {
    PlacedLast(states, base, Emit(body, key, base, Some(base + Size(body))), State(Split, Some(StartOf(body, base)), next));
  }

  lemma {:induction false} PlacedOption(states: seq<State>, key: Keying, body: Node, base: nat, next: Option<nat>)
    requires Placed(states, base, Emit(Optional(body), key, base, next))
    ensures var split := base + Size(body);
      && Placed(states, base, Emit(body, key, base, next))
      && split < |states| && states[split] == State(Split, Some(StartOf(body, base)), next)
  {
    PlacedLast(states, base, Emit(body, key, base, next), State(Split, Some(StartOf(body, base)), next));
  }

  predicate Simple(n: Node) {
    n.Empty? || n.Literal? || n.AnyChar? || n.Class? || n.Start? || n.End?
  }

  // ----- Every accepting run passes through an instance of the node

  /** An automaton at work on a text. */
  datatype Machine = Machine(states: seq<State>, key: Keying, text: string)
  {
    ghost predicate Runs(q: nat, i: nat, k: nat) {
      Accepts(states, key, text, q, i, k)
    }

    ghost predicate Holds(n: Node, base: nat, next: nat) {
      Placed(states, base, Emit(n, key, base, Some(next)))
    }

    ghost predicate Is(n: Node, i: int, j: int) {
      Spans(n, key, text, i, j)
    }

    lemma {:induction false} Sound(n: Node, base: nat, next: nat, i: nat, k: nat) returns (j: nat, rest: nat)
      requires Shaped(n) && Holds(n, base, next) && Runs(StartOf(n, base), i, k)
      ensures Is(n, i, j) && rest <= k && Runs(next, j, rest)
      decreases n, k, 1
    {
      match n
      case Concat(parts) => j, rest := SoundConcat(parts, base, next, i, k);
      case Alt(branches) => j, rest := SoundAlt(branches, base, next, i, k, |branches| - 1);
      case Star(body) => j, rest := SoundStar(body, base, next, i, k);
      case Plus(body) => j, rest := SoundPlus(body, base, next, i, k);
      case Optional(body) => j, rest := SoundOptional(body, base, next, i, k);
      case _ => j, rest := SoundSimple(n, base, next, i, k);
    }

    lemma {:induction false} SoundSimple(n: Node, base: nat, next: nat, i: nat, k: nat) returns (j: nat, rest: nat)
      requires Simple(n) && Holds(n, base, next) && Runs(base, i, k)
      ensures Is(n, i, j) && rest <= k && Runs(next, j, rest)
    {
      assert Emit(n, key, base, Some(next))[0] == states[base + 0];
      assert states[base].out == Some(next);
      j := if IsConsuming(states[base].kind) then i + 1 else i;
      assert Follows(states, key, text, Some(next), j, k);
      rest := k - 1;
    }

    lemma {:induction false} SoundConcat(parts: seq<Node>, base: nat, next: nat, i: nat, k: nat) returns (j: nat, rest: nat)
      requires parts != [] && ShapedAll(parts) && Holds(Concat(parts), base, next) && Runs(StartOf(parts[0], base), i, k)
      ensures Is(Concat(parts), i, j) && rest <= k && Runs(next, j, rest)
      decreases parts, k
    {
      var front, last := Front(parts), Last(parts);
      var at := base + SizeAll(front);
      PlacedRow(states, key, parts, base, Some(next));
      var m, left := i, k;
      if front != [] {
        m, left := SoundConcat(front, base, StartOf(last, at), i, k);
      }
      assert SpansAll(front, key, text, i, m);
      j, rest := Sound(last, at, next, m, left);
    }

    lemma {:induction false} SoundAlt(branches: seq<Node>, base: nat, next: nat, i: nat, k: nat, t: nat) returns (j: nat, rest: nat)
      requires t < |branches| && ShapedAll(branches) && Holds(Alt(branches), base, next) && Runs(Entry(branches, base, t), i, k)
      ensures Is(Alt(branches), i, j) && rest <= k && Runs(next, j, rest)
      decreases branches, k, t
    {
      if t == 0 {
        PlacedBranch(states, key, branches, base, Some(next), 0);
        j, rest := Sound(branches[0], base, next, i, k);
      } else {
        PlacedSplit(states, key, branches, base, Some(next), t);
        var at := base + SizeAll(branches[..t]);
        AcceptsSplit(states, key, text, Entry(branches, base, t), Entry(branches, base, t - 1), StartOf(branches[t], at), i, k);
        if Runs(Entry(branches, base, t - 1), i, k - 1) {
          j, rest := SoundAlt(branches, base, next, i, k - 1, t - 1);
        } else {
          PlacedBranch(states, key, branches, base, Some(next), t);
          j, rest := Sound(branches[t], at, next, i, k - 1);
        }
      }
    }

    lemma {:induction false} SoundStar(body: Node, base: nat, next: nat, i: nat, k: nat) returns (j: nat, rest: nat)
      requires Shaped(body) && Holds(Star(body), base, next) && Runs(base + Size(body), i, k)
      ensures Is(Star(body), i, j) && rest <= k && Runs(next, j, rest)
      decreases body, k, 3
    {
      var c;
      j, rest, c := SoundLoop(body, base, next, i, k);
    }

    lemma {:induction false} SoundPlus(body: Node, base: nat, next: nat, i: nat, k: nat) returns (j: nat, rest: nat)
      requires Shaped(body) && Holds(Plus(body), base, next) && Runs(StartOf(body, base), i, k)
      ensures Is(Plus(body), i, j) && rest <= k && Runs(next, j, rest)
      decreases body, k, 3
    {
      PlusHolds(body, base, next);
      var m, left := Sound(body, base, base + Size(body), i, k);
      var c;
      j, rest, c := SoundLoop(body, base, next, m, left);
      OneMore(body, c, i, m, j);
    }

    /** A plus is laid out like a star, entered through its body. */
    lemma {:induction false} PlusHolds(body: Node, base: nat, next: nat)
      requires Holds(Plus(body), base, next)
      ensures Holds(Star(body), base, next) && Holds(body, base, base + Size(body))
    {
      LoopsAlike(body, key, base, Some(next));
      PlacedLoop(states, key, body, base, Some(next));
    }

    lemma {:induction false} OneMore(body: Node, c: nat, i: nat, m: nat, j: nat)
      requires Is(body, i, m) && Repeats(body, key, text, c, m, j)
      ensures Is(Plus(body), i, j)
    {
      assert Repeats(body, key, text, c + 1, i, j);
    }

    lemma {:induction false} SoundOptional(body: Node, base: nat, next: nat, i: nat, k: nat) returns (j: nat, rest: nat)
      requires Shaped(body) && Holds(Optional(body), base, next) && Runs(base + Size(body), i, k)
      ensures Is(Optional(body), i, j) && rest <= k && Runs(next, j, rest)
      decreases body, k, 3
    {
      PlacedOption(states, key, body, base, Some(next));
      AcceptsSplit(states, key, text, base + Size(body), StartOf(body, base), next, i, k);
      if Runs(next, i, k - 1) {
        j, rest := i, k - 1;
      } else {
        j, rest := Sound(body, base, next, i, k - 1);
      }
    }

    /** From the split of a loop, an accepting run goes through some number of instances. */
    lemma {:induction false} SoundLoop(body: Node, base: nat, next: nat, i: nat, k: nat) returns (j: nat, rest: nat, c: nat)
      requires Shaped(body) && Holds(Star(body), base, next) && Runs(base + Size(body), i, k)
      ensures Repeats(body, key, text, c, i, j) && rest <= k && Runs(next, j, rest)
      decreases body, k, 2
    {
      PlacedLoop(states, key, body, base, Some(next));
      AcceptsSplit(states, key, text, base + Size(body), StartOf(body, base), next, i, k);
      if Runs(next, i, k - 1) {
        j, rest, c := i, k - 1, 0;
      } else {
        var m, left := Sound(body, base, base + Size(body), i, k - 1);
        j, rest, c := SoundLoop(body, base, next, m, left);
        assert Spans(body, key, text, i, m) && Repeats(body, key, text, c, m, j);
        c := c + 1;
      }
    }

    // ----- Every instance of the node can be run through

    lemma {:induction false} Complete(n: Node, base: nat, next: nat, i: nat, j: nat, k: nat) returns (r: nat)
      requires Shaped(n) && Holds(n, base, next) && Is(n, i, j) && Runs(next, j, k)
      ensures Runs(StartOf(n, base), i, r)
      decreases n, 1
    {
      match n
      case Concat(parts) => r := CompleteConcat(parts, base, next, i, j, k);
      case Alt(branches) => r := CompleteAlt(branches, base, next, i, j, k);
      case Star(body) => r := CompleteStar(body, base, next, i, j, k);
      case Plus(body) => r := CompletePlus(body, base, next, i, j, k);
      case Optional(body) => r := CompleteOptional(body, base, next, i, j, k);
      case _ => r := CompleteSimple(n, base, next, i, j, k);
    }

    lemma {:induction false} CompleteSimple(n: Node, base: nat, next: nat, i: nat, j: nat, k: nat) returns (r: nat)
      requires Simple(n) && Holds(n, base, next) && Is(n, i, j) && Runs(next, j, k)
      ensures Runs(base, i, r)
    {
      assert Emit(n, key, base, Some(next))[0] == states[base + 0];
      assert Follows(states, key, text, Some(next), j, k + 1);
      r := k + 1;
    }

    lemma {:induction false} CompleteConcat(parts: seq<Node>, base: nat, next: nat, i: nat, j: nat, k: nat) returns (r: nat)
      requires parts != [] && ShapedAll(parts) && Holds(Concat(parts), base, next)
      requires Is(Concat(parts), i, j) && Runs(next, j, k)
      ensures Runs(StartOf(parts[0], base), i, r)
      decreases parts
    {
      var front, last := Front(parts), Last(parts);
      var at := base + SizeAll(front);
      PlacedRow(states, key, parts, base, Some(next));
      assert SpansAll(parts, key, text, i, j);
      var m: nat :| SpansAll(front, key, text, i, m) && Spans(last, key, text, m, j);
      r := Complete(last, at, next, m, j, k);
      if front != [] {
        r := CompleteConcat(front, base, StartOf(last, at), i, m, r);
      }
    }

    lemma {:induction false} CompleteAlt(branches: seq<Node>, base: nat, next: nat, i: nat, j: nat, k: nat) returns (r: nat)
      requires branches != [] && ShapedAll(branches) && Holds(Alt(branches), base, next)
      requires Is(Alt(branches), i, j) && Runs(next, j, k)
      ensures Runs(Entry(branches, base, |branches| - 1), i, r)
      decreases branches
    {
      var b := SomeBranch(branches, i, j);
      PlacedBranch(states, key, branches, base, Some(next), b);
      r := Complete(branches[b], base + SizeAll(branches[..b]), next, i, j, k);
      if b > 0 {
        r := ThroughSplit(branches, base, next, i, r, b);
      }
      r := ThroughChain(branches, base, next, i, r, b, |branches| - 1);
    }

    /** Up the chain of splits, from the entry of one branch to that of a later one. */
    lemma {:induction false} ThroughChain(branches: seq<Node>, base: nat, next: nat, i: nat, k: nat, b: nat, t: nat) returns (r: nat)
      requires b <= t < |branches| && Holds(Alt(branches), base, next) && Runs(Entry(branches, base, b), i, k)
      ensures Runs(Entry(branches, base, t), i, r)
      decreases t
    {
      r := k;
      if b < t {
        r := ThroughChain(branches, base, next, i, k, b, t - 1);
        r := ThroughSplit(branches, base, next, i, r, t);
      }
    }

    lemma {:induction false} SomeBranch(branches: seq<Node>, i: nat, j: nat) returns (b: nat)
      requires Is(Alt(branches), i, j)
      ensures b < |branches| && Is(branches[b], i, j)
    {
      assert SpansAny(branches, key, text, i, j);
      b :| 0 <= b < |branches| && Spans(branches[b], key, text, i, j);
    }

    /** A split of the chain leads to its branch and to the entry before it. */
    lemma {:induction false} ThroughSplit(branches: seq<Node>, base: nat, next: nat, i: nat, k: nat, t: nat) returns (r: nat)
      requires 0 < t < |branches| && Holds(Alt(branches), base, next)
      requires Runs(Entry(branches, base, t - 1), i, k) || Runs(StartOf(branches[t], base + SizeAll(branches[..t])), i, k)
      ensures Runs(Entry(branches, base, t), i, r)
    {
      PlacedSplit(states, key, branches, base, Some(next), t);
      r := k + 1;
      AcceptsSplit(states, key, text, Entry(branches, base, t), Entry(branches, base, t - 1),
                   StartOf(branches[t], base + SizeAll(branches[..t])), i, r);
    }

    lemma {:induction false} CompleteStar(body: Node, base: nat, next: nat, i: nat, j: nat, k: nat) returns (r: nat)
      requires Shaped(body) && Holds(Star(body), base, next) && Is(Star(body), i, j) && Runs(next, j, k)
      ensures Runs(base + Size(body), i, r)
      decreases body, 3
    {
      assert Spans(Star(body), key, text, i, j);
      var c: nat :| Repeats(body, key, text, c, i, j);
      r := CompleteLoop(body, base, next, i, j, k, c);
    }

    lemma {:induction false} CompletePlus(body: Node, base: nat, next: nat, i: nat, j: nat, k: nat) returns (r: nat)
      requires Shaped(body) && Holds(Plus(body), base, next) && Is(Plus(body), i, j) && Runs(next, j, k)
      ensures Runs(StartOf(body, base), i, r)
      decreases body, 3
    {
      var c := PlusCount(body, i, j);
      var m := FirstRepeat(body, c, i, j);
      PlusHolds(body, base, next);
      var left := CompleteLoop(body, base, next, m, j, k, c - 1);
      r := Complete(body, base, base + Size(body), i, m, left);
    }

    lemma {:induction false} PlusCount(body: Node, i: nat, j: nat) returns (c: nat)
      requires Is(Plus(body), i, j)
      ensures c > 0 && Repeats(body, key, text, c, i, j)
    {
      assert Spans(Plus(body), key, text, i, j);
      c :| c > 0 && Repeats(body, key, text, c, i, j);
    }

    lemma {:induction false} FirstRepeat(body: Node, c: nat, i: nat, j: nat) returns (m: nat)
      requires c > 0 && Repeats(body, key, text, c, i, j)
      ensures Is(body, i, m) && Repeats(body, key, text, c - 1, m, j)
    {
      m :| Spans(body, key, text, i, m) && Repeats(body, key, text, c - 1, m, j);
    }

    lemma {:induction false} CompleteOptional(body: Node, base: nat, next: nat, i: nat, j: nat, k: nat) returns (r: nat)
      requires Shaped(body) && Holds(Optional(body), base, next) && Is(Optional(body), i, j) && Runs(next, j, k)
      ensures Runs(base + Size(body), i, r)
      decreases body, 3
    {
      PlacedOption(states, key, body, base, Some(next));
      var left := k;
      if i != j {
        left := Complete(body, base, next, i, j, k);
      }
      r := left + 1;
      AcceptsSplit(states, key, text, base + Size(body), StartOf(body, base), next, i, r);
    }

    lemma {:induction false} CompleteLoop(body: Node, base: nat, next: nat, i: nat, j: nat, k: nat, c: nat) returns (r: nat)
      requires Shaped(body) && Holds(Star(body), base, next) && Repeats(body, key, text, c, i, j) && Runs(next, j, k)
      ensures Runs(base + Size(body), i, r)
      decreases body, 2, c
    {
      PlacedLoop(states, key, body, base, Some(next));
      var left := k;
      if c > 0 {
        var m: nat :| Spans(body, key, text, i, m) && Repeats(body, key, text, c - 1, m, j);
        left := CompleteLoop(body, base, next, m, j, k, c - 1);
        left := Complete(body, base, base + Size(body), i, m, left);
      }
      r := left + 1;
      AcceptsSplit(states, key, text, base + Size(body), StartOf(body, base), next, i, r);
    }
  }

  // ----- The whole automaton

  /** The automaton of a pattern: the node's states and one match state behind them. */
  function Program(n: Node, key: Keying): seq<State> {
    Emit(n, key, 0, Some(Size(n))) + [State(Match, None, None)]
  }

  /** The automaton reaches its match state from position `i` exactly when an
      instance of the node starts there. */
  lemma {:induction false} ProgramDecides(n: Node, key: Keying, text: string, i: nat)
    requires Shaped(n)
    ensures Reaches(Program(n, key), key, text, StartOf(n, 0), i) <==> exists j :: Spans(n, key, text, i, j)
  {
    var states := Program(n, key);
    var m := Machine(states, key, text);
    assert Placed(states, 0, Emit(n, key, 0, Some(Size(n)))) && states[Size(n)].kind == Match;
    if Reaches(states, key, text, StartOf(n, 0), i) {
      var k :| Accepts(states, key, text, StartOf(n, 0), i, k);
      var j, rest := m.Sound(n, 0, Size(n), i, k);
      assert Spans(n, key, text, i, j);
    }
    if exists j :: Spans(n, key, text, i, j) {
      var j: int :| Spans(n, key, text, i, j);
      assert Accepts(states, key, text, Size(n), j, 0);
      var k := m.Complete(n, 0, Size(n), i, j, 0);
      assert Reaches(states, key, text, StartOf(n, 0), i);
    }
  }

  // ----- Edges stay inside

  ghost predicate Wired(s: State, bound: nat) {
    && (s.out.Some? ==> s.out.value < bound)
    && (s.out1.Some? ==> s.out1.value < bound)
    && (s.kind != Match ==> s.out.Some?)
    && (s.kind == Split ==> s.out1.Some?)
  }

  ghost predicate WiredWithin(states: seq<State>, bound: nat) {
    forall s :: s in states ==> Wired(s, bound)
  }

  lemma {:induction false} WiredBoth(a: seq<State>, b: seq<State>, bound: nat)
    requires WiredWithin(a, bound) && WiredWithin(b, bound)
    ensures WiredWithin(a + b, bound)
  {
  }

  lemma {:induction false} StartWithin(n: Node, base: nat)
    requires Shaped(n)
    ensures base <= StartOf(n, base) < base + Size(n)
    decreases n
  {
    match n
    case Concat(parts) =>
      StartWithin(parts[0], base);
      SizeAllFirst(parts);
    case Alt(branches) => StartWithin(branches[0], base);
    case Plus(body) => StartWithin(body, base);
    case _ =>
  }

  lemma {:induction false} EmitWired(n: Node, key: Keying, base: nat, next: nat, bound: nat)
    requires Shaped(n) && base + Size(n) <= bound && next < bound
    ensures WiredWithin(Emit(n, key, base, Some(next)), bound)
    decreases n
  {
    match n
    case Concat(parts) => EmitAllWired(parts, key, base, next, bound);
    case Alt(branches) =>
      EmitEachWired(branches, key, base, next, bound);
      SplitsWired(branches, base, bound);
      WiredBoth(EmitEach(branches, key, base, Some(next)), Splits(branches, base), bound);
    case Star(body) =>
      StartWithin(body, base);
      EmitWired(body, key, base, base + Size(body), bound);
    case Plus(body) =>
      StartWithin(body, base);
      EmitWired(body, key, base, base + Size(body), bound);
    case Optional(body) =>
      StartWithin(body, base);
      EmitWired(body, key, base, next, bound);
    case _ =>
  }

  lemma {:induction false} SplitWired(branches: seq<Node>, base: nat, bound: nat, t: nat)
    requires t + 1 < |branches| && ShapedAll(branches) && base + SizeAll(branches) + |branches| - 1 <= bound
    ensures Wired(SplitAt(branches, base, t), bound)
  {
    StartWithin(branches[0], base);
    OffsetWithin(branches, 0);
    OffsetWithin(branches, t + 1);
    StartWithin(branches[t + 1], base + SizeAll(branches[..t + 1]));
  }

  lemma {:induction false} SplitsWired(branches: seq<Node>, base: nat, bound: nat)
    requires branches != [] && ShapedAll(branches) && base + SizeAll(branches) + |branches| - 1 <= bound
    ensures WiredWithin(Splits(branches, base), bound)
  {
    forall s | s in Splits(branches, base) ensures Wired(s, bound) {
      var t :| 0 <= t < |branches| - 1 && Splits(branches, base)[t] == s;
      SplitWired(branches, base, bound, t);
    }
  }

  lemma {:induction false} OffsetWithin(nodes: seq<Node>, b: nat)
    requires b < |nodes|
    ensures SizeAll(nodes[..b]) + Size(nodes[b]) <= SizeAll(nodes)
    decreases |nodes|
  {
    if b < |nodes| - 1 {
      assert Front(nodes)[..b] == nodes[..b];
      OffsetWithin(Front(nodes), b);
    }
  }

  lemma {:induction false} EmitAllWired(parts: seq<Node>, key: Keying, base: nat, next: nat, bound: nat)
    requires ShapedAll(parts) && base + SizeAll(parts) <= bound && next < bound
    ensures WiredWithin(EmitAll(parts, key, base, Some(next)), bound)
    decreases parts
  {
    if parts != [] {
      var at := base + SizeAll(Front(parts));
      StartWithin(Last(parts), at);
      EmitAllWired(Front(parts), key, base, StartOf(Last(parts), at), bound);
      EmitWired(Last(parts), key, at, next, bound);
      WiredBoth(EmitAll(Front(parts), key, base, Some(StartOf(Last(parts), at))), Emit(Last(parts), key, at, Some(next)), bound);
    }
  }

  lemma {:induction false} EmitEachWired(branches: seq<Node>, key: Keying, base: nat, next: nat, bound: nat)
    requires ShapedAll(branches) && base + SizeAll(branches) <= bound && next < bound
    ensures WiredWithin(EmitEach(branches, key, base, Some(next)), bound)
    decreases branches
  {
    if branches != [] {
      EmitEachWired(Front(branches), key, base, next, bound);
      EmitWired(Last(branches), key, base + SizeAll(Front(branches)), next, bound);
      WiredBoth(EmitEach(Front(branches), key, base, Some(next)),
                   Emit(Last(branches), key, base + SizeAll(Front(branches)), Some(next)), bound);
    }
  }

  /** Every edge of a whole automaton leads to one of its states. */
  lemma {:induction false} ProgramWired(n: Node, key: Keying)
    requires Shaped(n)
    ensures WiredWithin(Program(n, key), |Program(n, key)|)
    ensures StartOf(n, 0) < |Program(n, key)|
  {
    EmitWired(n, key, 0, Size(n), Size(n) + 1);
    StartWithin(n, 0);
  }

  // ----- Exits and patching

  /** A dangling edge: the state it leaves and whether it is the second edge. */
  datatype Exit = Exit(index: nat, second: bool)

  function Exits(n: Node, base: nat): seq<Exit>
    decreases n, base
  {
    match n
    case Concat(parts) => ExitsLast(parts, base)
    case Alt(branches) => ExitsEach(branches, base)
    case Star(body) => [Exit(base + Size(body), true)]
    case Plus(body) => [Exit(base + Size(body), true)]
    case Optional(body) => Exits(body, base) + [Exit(base + Size(body), true)]
    case _ => [Exit(base, false)]
  }

  function ExitsLast(parts: seq<Node>, base: nat): seq<Exit>
    decreases parts, base
  {
    if parts == [] then [] else Exits(Last(parts), base + SizeAll(Front(parts)))
  }

  function ExitsEach(branches: seq<Node>, base: nat): seq<Exit>
    decreases branches, base
  {
    if branches == [] then []
    else ExitsEach(Front(branches), base) + Exits(Last(branches), base + SizeAll(Front(branches)))
  }

  function PatchState(s: State, index: nat, exits: seq<Exit>, target: nat): State {
    State(s.kind,
          if Exit(index, false) in exits then Some(target) else s.out,
          if Exit(index, true) in exits then Some(target) else s.out1)
  }

  /** The states with every listed exit redirected to `target`. */
  function Patched(states: seq<State>, exits: seq<Exit>, target: nat): (r: seq<State>)
    ensures |r| == |states|
  {
    seq(|states|, i requires 0 <= i < |states| => PatchState(states[i], i, exits, target))
  }

  /** The segment `a`, placed at `base`, becomes `b` when its exits are redirected. */
  ghost predicate Closes(a: seq<State>, base: nat, exits: seq<Exit>, target: nat, b: seq<State>) {
    && |a| == |b|
    && (forall e :: e in exits ==> base <= e.index < base + |a|)
    && forall i :: 0 <= i < |a| ==> b[i] == PatchState(a[i], base + i, exits, target)
  }

  lemma {:induction false} ClosesUnchanged(a: seq<State>, base: nat, target: nat)
    ensures Closes(a, base, [], target, a)
  {
  }

  lemma {:induction false} ClosesAppend(a: seq<State>, b: seq<State>, x: seq<Exit>, a': seq<State>, b': seq<State>, x': seq<Exit>, base: nat, target: nat)
    requires Closes(a, base, x, target, b) && Closes(a', base + |a|, x', target, b')
    ensures Closes(a + a', base, x + x', target, b + b')
  {
    forall i | 0 <= i < |a + a'|
      ensures (b + b')[i] == PatchState((a + a')[i], base + i, x + x', target)
    {
      if i >= |a| {
        assert b'[i - |a|] == PatchState(a'[i - |a|], base + |a| + (i - |a|), x', target);
      }
    }
  }

  lemma {:induction false} ClosesJoin(a: seq<State>, b: seq<State>, x: seq<Exit>, a': seq<State>, b': seq<State>, x': seq<Exit>, base: nat, at: nat, target: nat,
                                      open: seq<State>, closed: seq<State>, exits: seq<Exit>)
    requires at == base + |a| && Closes(a, base, x, target, b) && Closes(a', at, x', target, b')
    requires open == a + a' && closed == b + b' && exits == x + x'
    ensures Closes(open, base, exits, target, closed)
  {
    ClosesAppend(a, b, x, a', b', x', base, target);
  }

  /** Redirecting the exits of a compiled node is compiling it with that target. */
  lemma {:induction false} EmitCloses(n: Node, key: Keying, base: nat, target: nat)
    requires Shaped(n)
    ensures Closes(Emit(n, key, base, None), base, Exits(n, base), target, Emit(n, key, base, Some(target)))
    decreases n
  {
    match n
    case Concat(parts) => RowCloses(parts, key, base, target);
    case Alt(branches) =>
      EmitEachCloses(branches, key, base, target);
      ChoiceCloses(branches, key, base, target);
    case Star(body) => LoopCloses(body, key, base, target);
    case Plus(body) => LoopCloses(body, key, base, target);
    case Optional(body) =>
      EmitCloses(body, key, base, target);
      OptionCloses(body, key, base, target);
    case _ => SimpleCloses(n, key, base, target);
  }

  lemma {:induction false} SimpleCloses(n: Node, key: Keying, base: nat, target: nat)
    requires Simple(n)
    ensures Closes(Emit(n, key, base, None), base, Exits(n, base), target, Emit(n, key, base, Some(target)))
  {
  }

  lemma {:induction false} RowCloses(parts: seq<Node>, key: Keying, base: nat, target: nat)
    requires parts != [] && ShapedAll(parts)
    ensures Closes(Emit(Concat(parts), key, base, None), base, Exits(Concat(parts), base), target,
                   Emit(Concat(parts), key, base, Some(target)))
    decreases parts
  {
    EmitAllCloses(parts, key, base, target);
  }

  lemma {:induction false} ChoiceCloses(branches: seq<Node>, key: Keying, base: nat, target: nat)
    requires Closes(EmitEach(branches, key, base, None), base, ExitsEach(branches, base), target,
                    EmitEach(branches, key, base, Some(target)))
    ensures Closes(Emit(Alt(branches), key, base, None), base, Exits(Alt(branches), base), target,
                   Emit(Alt(branches), key, base, Some(target)))
  {
    var tail := Splits(branches, base);
    ClosesUnchanged(tail, base + SizeAll(branches), target);
    ClosesAppend(EmitEach(branches, key, base, None), EmitEach(branches, key, base, Some(target)),
                 ExitsEach(branches, base), tail, tail, [], base, target);
    assert ExitsEach(branches, base) + [] == ExitsEach(branches, base);
  }

  lemma {:induction false} OptionCloses(body: Node, key: Keying, base: nat, target: nat)
    requires Closes(Emit(body, key, base, None), base, Exits(body, base), target, Emit(body, key, base, Some(target)))
    ensures Closes(Emit(Optional(body), key, base, None), base, Exits(Optional(body), base), target,
                   Emit(Optional(body), key, base, Some(target)))
  {
    SplitCloses(Emit(body, key, base, None), Emit(body, key, base, Some(target)), Exits(body, base), StartOf(body, base), base, target,
                Emit(Optional(body), key, base, None), Emit(Optional(body), key, base, Some(target)), Exits(Optional(body), base));
  }

  /** A split behind a segment adds its own exit. */
  lemma {:induction false} SplitCloses(a: seq<State>, b: seq<State>, x: seq<Exit>, entry: nat, base: nat, target: nat,
                                       open: seq<State>, closed: seq<State>, exits: seq<Exit>)
    requires Closes(a, base, x, target, b)
    requires open == a + [State(Split, Some(entry), None)] && closed == b + [State(Split, Some(entry), Some(target))]
    requires exits == x + [Exit(base + |a|, true)]
    ensures Closes(open, base, exits, target, closed)
  {
    var exit := Exit(base + |a|, true);
    assert [exit][0] == exit;
    assert Closes([State(Split, Some(entry), None)], base + |a|, [exit], target, [State(Split, Some(entry), Some(target))]);
    ClosesAppend(a, b, x, [State(Split, Some(entry), None)], [State(Split, Some(entry), Some(target))], [exit], base, target);
  }

  lemma {:induction false} LoopCloses(body: Node, key: Keying, base: nat, target: nat)
    ensures Closes(Emit(Star(body), key, base, None), base, [Exit(base + Size(body), true)], target,
                   Emit(Star(body), key, base, Some(target)))
  {
    var inner := Emit(body, key, base, Some(base + Size(body)));
    ClosesUnchanged(inner, base, target);
    SplitCloses(inner, inner, [], StartOf(body, base), base, target,
                Emit(Star(body), key, base, None), Emit(Star(body), key, base, Some(target)), [Exit(base + Size(body), true)]);
  }

  lemma {:induction false} EmitAllCloses(parts: seq<Node>, key: Keying, base: nat, target: nat)
    requires parts != [] && ShapedAll(parts)
    ensures Closes(EmitAll(parts, key, base, None), base, ExitsLast(parts, base), target,
                   EmitAll(parts, key, base, Some(target)))
    decreases parts, 0
  {
    var front, last := Front(parts), Last(parts);
    var at := base + SizeAll(front);
    EmitCloses(last, key, at, target);
    ClosesBehind(EmitAll(front, key, base, Some(StartOf(last, at))), Emit(last, key, at, None),
                 Emit(last, key, at, Some(target)), Exits(last, at), base, target);
  }

  lemma {:induction false} ClosesBehind(head: seq<State>, a: seq<State>, b: seq<State>, x: seq<Exit>, base: nat, target: nat)
    requires Closes(a, base + |head|, x, target, b)
    ensures Closes(head + a, base, x, target, head + b)
  {
    ClosesUnchanged(head, base, target);
    ClosesAppend(head, head, [], a, b, x, base, target);
    assert [] + x == x;
  }

  lemma {:induction false} EmitEachCloses(branches: seq<Node>, key: Keying, base: nat, target: nat)
    requires ShapedAll(branches)
    ensures Closes(EmitEach(branches, key, base, None), base, ExitsEach(branches, base), target,
                   EmitEach(branches, key, base, Some(target)))
    decreases branches
  {
    if branches != [] {
      EmitEachCloses(Front(branches), key, base, target);
      EmitCloses(Last(branches), key, base + SizeAll(Front(branches)), target);
      EachStep(branches, key, base, target);
    }
  }

  lemma {:induction false} EachStep(branches: seq<Node>, key: Keying, base: nat, target: nat)
    requires branches != []
    requires Closes(EmitEach(Front(branches), key, base, None), base, ExitsEach(Front(branches), base), target,
                    EmitEach(Front(branches), key, base, Some(target)))
    requires var at := base + SizeAll(Front(branches));
      Closes(Emit(Last(branches), key, at, None), at, Exits(Last(branches), at), target, Emit(Last(branches), key, at, Some(target)))
    ensures Closes(EmitEach(branches, key, base, None), base, ExitsEach(branches, base), target,
                   EmitEach(branches, key, base, Some(target)))
  {
    var front, last := Front(branches), Last(branches);
    var at := base + SizeAll(front);
    ClosesJoin(EmitEach(front, key, base, None), EmitEach(front, key, base, Some(target)), ExitsEach(front, base),
               Emit(last, key, at, None), Emit(last, key, at, Some(target)), Exits(last, at), base, at, target,
               EmitEach(branches, key, base, None), EmitEach(branches, key, base, Some(target)), ExitsEach(branches, base));
  }

  /** Patching a segment in place touches nothing else. */
  lemma {:induction false} PatchedSegment(before: seq<State>, a: seq<State>, after: seq<State>, exits: seq<Exit>, target: nat, b: seq<State>)
    requires Closes(a, |before|, exits, target, b)
    ensures Patched(before + a + after, exits, target) == before + b + after
  {
  }
}
