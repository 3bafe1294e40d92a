/** What a written pattern means, said of its text alone: no abstract syntax, no compiled classes,
    no automaton. */
module RegexMeanings {
  import opened CharSets
  import opened RegexSyntax
  import opened RegexGrammar
  import RegexParser

  // ----- Meaning of the concrete syntax

  ghost predicate InPart(part: ClassPart, key: Keying, k: string) {
    match part
    case Single(c) => key(CharOf(c)) == k
    case Through(lo, hi) => |k| == 1 && KeptRange((CharOf(lo), CharOf(hi)), key, k[0] as int)
  }

  ghost predicate InBrackets(negated: bool, parts: seq<ClassPart>, key: Keying, k: string) {
    negated != exists part :: part in parts && InPart(part, key, k)
  }

  /** `text[i..j]` is what the atom stands for; the anchors look at the whole text. */
  ghost predicate AtomMatches(a: Atom, key: Keying, text: string, i: int, j: int)
    decreases a, 0, i
  {
    0 <= i <= j <= |text| &&
    match a
    case Dot => j == i + 1
    case Caret => i == j == 0
    case Dollar => i == j == |text|
    case Bare(c) => j == i + 1 && key(c) == key(text[i])
    case Escaped(code) => j == i + 1 && key(Decode(code)) == key(text[i])
    case Bracket(negated, parts) => j == i + 1 && InBrackets(negated, parts, key, key(text[i]))
    case Group(branches) => BranchesMatch(branches, key, text, i, j)
  }

  /** `n` times the atom, one after the other. */
  ghost predicate TimesMatch(a: Atom, n: nat, key: Keying, text: string, i: int, j: int)
    decreases a, n + 1
  {
    0 <= i <= j <= |text| &&
    if n == 0 then i == j
    else exists m :: AtomMatches(a, key, text, i, m) && TimesMatch(a, n - 1, key, text, m, j)
  }

  ghost predicate PieceMatches(p: Piece, key: Keying, text: string, i: int, j: int)
    decreases p, 0, i
  {
    0 <= i <= j <= |text| &&
    match p.quantifier
    case Once => AtomMatches(p.atom, key, text, i, j)
    case ZeroOrMore => exists n: nat :: TimesMatch(p.atom, n, key, text, i, j)
    case OneOrMore => exists n: nat :: n > 0 && TimesMatch(p.atom, n, key, text, i, j)
    case ZeroOrOne => i == j || AtomMatches(p.atom, key, text, i, j)
  }

  ghost predicate PiecesMatch(pieces: seq<Piece>, key: Keying, text: string, i: int, j: int)
    decreases pieces, 0, i
  {
    0 <= i <= j <= |text| &&
    if pieces == [] then i == j
    else exists m :: PieceMatches(pieces[0], key, text, i, m) && PiecesMatch(pieces[1..], key, text, m, j)
  }

  ghost predicate BranchesMatch(branches: seq<Branch>, key: Keying, text: string, i: int, j: int)
    decreases branches, 0, i
  {
    exists b :: 0 <= b < |branches| && PiecesMatch(branches[b].pieces, key, text, i, j)
  }

  ghost predicate MatchesSomewhere(branches: seq<Branch>, key: Keying, text: string) {
    exists i, j :: BranchesMatch(branches, key, text, i, j)
  }

  /** The pattern is spelled from a tree that matches somewhere in the text. */
  ghost predicate PatternMatches(p: string, key: Keying, text: string) {
    exists branches :: Spells(branches, p) && MatchesSomewhere(branches, key, text)
  }

  // ----- Classes

  ghost predicate Listed(items: ClassItems, key: Keying, k: string) {
    || (exists c :: c in items.literals && key(c) == k)
    || KeptListed(items.ranges, key, k)
  }

  ghost predicate KeptListed(ranges: seq<(char, char)>, key: Keying, k: string) {
    |k| == 1 && exists r :: r in ranges && KeptRange(r, key, k[0] as int)
  }

  lemma {:induction false} ItemListed(items: ClassItems, part: ClassPart, key: Keying, k: string)
    ensures AddItem(items, ItemOf(part)).negated == items.negated
    ensures Listed(AddItem(items, ItemOf(part)), key, k) <==> Listed(items, key, k) || InPart(part, key, k)
  {
    var more := AddItem(items, ItemOf(part));
    match part
    case Single(c) =>
      assert forall d :: d in more.literals <==> d in items.literals || d == CharOf(c);
    case Through(lo, hi) =>
      var added := (CharOf(lo), CharOf(hi));
      assert forall r :: r in more.ranges <==> r in items.ranges || r == added;
      assert KeptListed(more.ranges, key, k) <==> KeptListed(items.ranges, key, k) || InPart(part, key, k) by {
        assert added in more.ranges;
      }
  }

  lemma {:induction false} PartsListed(items: ClassItems, parts: seq<ClassPart>, key: Keying, k: string)
    ensures AddParts(items, parts).negated == items.negated
    ensures Listed(AddParts(items, parts), key, k) <==> Listed(items, key, k) || exists part :: part in parts && InPart(part, key, k)
    decreases |parts|
  {
    if parts != [] {
      ItemListed(items, parts[0], key, k);
      PartsListed(AddItem(items, ItemOf(parts[0])), parts[1..], key, k);
      assert forall part :: part in parts <==> part == parts[0] || part in parts[1..];
    }
  }

  /** A bracket expression accepts what its parts list, or what they do not. */
  lemma {:induction false} BracketMeaning(negated: bool, parts: seq<ClassPart>, key: Keying, k: string)
    ensures Compiled(AddParts(ClassItems({}, [], negated), parts), key).Matches(k) <==> InBrackets(negated, parts, key, k)
  {
    var items := AddParts(ClassItems({}, [], negated), parts);
    CompiledMeaning(items, key, k);
    PartsListed(ClassItems({}, [], negated), parts, key, k);
    assert Denotes(items, key, k) <==> items.negated != Listed(items, key, k);
  }

  // ----- Nodes mean what they were written as

  lemma {:induction false} AtomMeaning(a: Atom, key: Keying, text: string, i: int, j: int)
    requires WfAtom(a)
    ensures Spans(AtomNode(a, key), key, text, i, j) <==> AtomMatches(a, key, text, i, j)
    decreases a, 0
  {
    match a
    case Bracket(negated, parts) =>
      if 0 <= i < |text| {
        BracketMeaning(negated, parts, key, key(text[i]));
      }
    case Group(branches) => BranchesMeaning(branches, key, text, i, j);
    case _ =>
  }

  lemma {:induction false} TimesMeaning(a: Atom, n: nat, key: Keying, text: string, i: int, j: int)
    requires WfAtom(a)
    ensures Repeats(AtomNode(a, key), key, text, n, i, j) <==> TimesMatch(a, n, key, text, i, j)
    decreases a, 1, n
  {
    if n > 0 {
      forall m ensures Spans(AtomNode(a, key), key, text, i, m) <==> AtomMatches(a, key, text, i, m) {
        AtomMeaning(a, key, text, i, m);
      }
      var less: nat := n - 1;
      forall m ensures Repeats(AtomNode(a, key), key, text, less, m, j) <==> TimesMatch(a, less, key, text, m, j) {
        TimesMeaning(a, less, key, text, m, j);
      }
    }
  }

  lemma {:induction false} PieceMeaning(p: Piece, key: Keying, text: string, i: int, j: int)
    requires WfPiece(p)
    ensures Spans(PieceNode(p, key), key, text, i, j) <==> PieceMatches(p, key, text, i, j)
    decreases p
  {
    AtomMeaning(p.atom, key, text, i, j);
    forall n: nat ensures Repeats(AtomNode(p.atom, key), key, text, n, i, j) <==> TimesMatch(p.atom, n, key, text, i, j) {
      TimesMeaning(p.atom, n, key, text, i, j);
    }
  }

  lemma {:induction false} SingleRow(n: Node, key: Keying, text: string, i: int, j: int)
    ensures SpansAll([n], key, text, i, j) <==> Spans(n, key, text, i, j)
  {
    assert Front([n]) == [] && Last([n]) == n;
    if Spans(n, key, text, i, j) {
      assert SpansAll([], key, text, i, i);
    }
  }

  /** A row of nodes can as well be read from its first node on. */
  lemma {:induction false} RowSplits(n: Node, rest: seq<Node>, key: Keying, text: string, i: int, j: int) returns (m: int)
    requires SpansAll([n] + rest, key, text, i, j)
    ensures Spans(n, key, text, i, m) && SpansAll(rest, key, text, m, j)
    decreases |rest|
  {
    var row := [n] + rest;
    if rest == [] {
      assert row == [n];
      SingleRow(n, key, text, i, j);
      m := j;
    } else {
      assert Front(row) == [n] + Front(rest) && Last(row) == Last(rest);
      var o :| SpansAll(Front(row), key, text, i, o) && Spans(Last(row), key, text, o, j);
      m := RowSplits(n, Front(rest), key, text, i, o);
    }
  }

  lemma {:induction false} RowJoins(n: Node, rest: seq<Node>, key: Keying, text: string, i: int, m: int, j: int)
    requires Spans(n, key, text, i, m) && SpansAll(rest, key, text, m, j)
    ensures SpansAll([n] + rest, key, text, i, j)
    decreases |rest|
  {
    var row := [n] + rest;
    if rest == [] {
      assert row == [n];
      SingleRow(n, key, text, i, j);
    } else {
      assert Front(row) == [n] + Front(rest) && Last(row) == Last(rest);
      var o :| SpansAll(Front(rest), key, text, m, o) && Spans(Last(rest), key, text, o, j);
      RowJoins(n, Front(rest), key, text, i, m, o);
    }
  }

  lemma {:induction false} FirstPiece(pieces: seq<Piece>, key: Keying, text: string, i: int, j: int) returns (m: int)
    requires pieces != [] && PiecesMatch(pieces, key, text, i, j)
    ensures PieceMatches(pieces[0], key, text, i, m) && PiecesMatch(pieces[1..], key, text, m, j)
  {
    m :| PieceMatches(pieces[0], key, text, i, m) && PiecesMatch(pieces[1..], key, text, m, j);
  }

  lemma {:induction false} PiecesMeaning(pieces: seq<Piece>, key: Keying, text: string, i: int, j: int)
    requires WfPieces(pieces)
    ensures SpansAll(PieceNodes(pieces, key), key, text, i, j) <==> PiecesMatch(pieces, key, text, i, j)
    decreases pieces
  {
    if pieces != [] {
      var piece, rest := pieces[0], pieces[1..];
      if SpansAll(PieceNodes(pieces, key), key, text, i, j) {
        var m := RowSplits(PieceNode(piece, key), PieceNodes(rest, key), key, text, i, j);
        PieceMeaning(piece, key, text, i, m);
        PiecesMeaning(rest, key, text, m, j);
      }
      if PiecesMatch(pieces, key, text, i, j) {
        var m := FirstPiece(pieces, key, text, i, j);
        PieceMeaning(piece, key, text, i, m);
        PiecesMeaning(rest, key, text, m, j);
        RowJoins(PieceNode(piece, key), PieceNodes(rest, key), key, text, i, m, j);
      }
    }
  }

  lemma {:induction false} JoinedMeaning(nodes: seq<Node>, key: Keying, text: string, i: int, j: int)
    ensures Spans(Joined(nodes), key, text, i, j) <==> SpansAll(nodes, key, text, i, j)
  {
    if |nodes| == 1 {
      SingleRow(nodes[0], key, text, i, j);
      assert nodes == [nodes[0]];
    }
  }

  lemma {:induction false} BranchNodeAt(branches: seq<Branch>, key: Keying, b: nat)
    requires b < |branches|
    ensures BranchNodes(branches, key)[b] == Joined(PieceNodes(branches[b].pieces, key))
    decreases b
  {
    if b > 0 {
      BranchNodeAt(branches[1..], key, b - 1);
    }
  }

  lemma {:induction false} EitherMeaning(nodes: seq<Node>, key: Keying, text: string, i: int, j: int)
    requires nodes != []
    ensures Spans(Either(nodes), key, text, i, j) <==> exists b :: 0 <= b < |nodes| && Spans(nodes[b], key, text, i, j)
  {
    if Spans(nodes[0], key, text, i, j) {
      assert 0 <= 0 < |nodes| && Spans(nodes[0], key, text, i, j);
    }
  }

  /** The node of a written pattern has exactly the instances that the pattern matches. */
  lemma {:induction false} BranchesMeaning(branches: seq<Branch>, key: Keying, text: string, i: int, j: int)
    requires WfBranches(branches)
    ensures Spans(PatternNode(branches, key), key, text, i, j) <==> BranchesMatch(branches, key, text, i, j)
    decreases branches
  {
    var nodes := BranchNodes(branches, key);
    EitherMeaning(nodes, key, text, i, j);
    forall b | 0 <= b < |branches|
      ensures Spans(nodes[b], key, text, i, j) <==> PiecesMatch(branches[b].pieces, key, text, i, j)
    {
      BranchNodeAt(branches, key, b);
      JoinedMeaning(PieceNodes(branches[b].pieces, key), key, text, i, j);
      PiecesMeaning(branches[b].pieces, key, text, i, j);
    }
  }

  /** Whatever tree spells an accepted pattern, the parsed node occurs in a text exactly when the pattern matches there. */
  lemma {:induction false} OccursMeansMatches(p: string, key: Keying, text: string, n: Node)
    requires p != "" && RegexParser.ReadPattern(p, key) == RegexParser.Read.Ok(n, |p|)
    ensures Occurs(n, key, text) <==> PatternMatches(p, key, text)
    ensures forall branches :: Spells(branches, p) ==> (Occurs(n, key, text) <==> MatchesSomewhere(branches, key, text))
  {
    ParserDecidesGrammar(p, key);
    forall branches | Spells(branches, p) ensures Occurs(n, key, text) <==> MatchesSomewhere(branches, key, text) {
      forall i, j ensures Spans(n, key, text, i, j) <==> BranchesMatch(branches, key, text, i, j) {
        BranchesMeaning(branches, key, text, i, j);
      }
    }
    var branches :| Spells(branches, p);
    assert Occurs(n, key, text) <==> MatchesSomewhere(branches, key, text);
  }
}
