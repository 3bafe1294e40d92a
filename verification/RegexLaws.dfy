/** What patterns of every construct match, said of their characters and of the text alone. */
module RegexLaws {
  import opened CharSets
  import opened RegexSyntax
  import opened RegexGrammar
  import opened RegexMeanings
  import RegexParser

  // ----- From a tree to its pattern

  lemma {:induction false} TreeDecides(branches: seq<Branch>, p: string, key: Keying, text: string)
    requires Spells(branches, p) && p != ""
    ensures PatternMatches(p, key, text) <==> MatchesSomewhere(branches, key, text)
  {
    ParserDecidesGrammar(p, key);
    OccursMeansMatches(p, key, text, PatternNode(branches, key));
  }

  function Lone(a: Atom): seq<Branch> {
    [Branch([Piece(a, Once)])]
  }

  lemma {:induction false} LoneSpells(a: Atom)
    requires WfAtom(a)
    ensures Spells(Lone(a), RenderAtom(a))
  {
    var pieces := [Piece(a, Once)];
    assert RenderPieces(pieces) == RenderPiece(pieces[0]) + RenderPieces([]) == RenderAtom(a);
    assert RenderBranches(Lone(a)) == RenderPieces(pieces) + RenderTail([]) == RenderAtom(a);
    assert forall p :: p in pieces ==> WfPiece(p);
  }

  lemma {:induction false} SoleBranch(pieces: seq<Piece>, key: Keying, text: string, i: int, j: int)
    ensures BranchesMatch([Branch(pieces)], key, text, i, j) <==> PiecesMatch(pieces, key, text, i, j)
  {
    assert [Branch(pieces)][0].pieces == pieces;
  }

  lemma {:induction false} SolePiece(p: Piece, key: Keying, text: string, i: int, j: int)
    ensures PiecesMatch([p], key, text, i, j) <==> PieceMatches(p, key, text, i, j)
  {
    assert [p][0] == p && [p][1..] == [];
    if PieceMatches(p, key, text, i, j) {
      assert PiecesMatch([], key, text, j, j);
    }
    if PiecesMatch([p], key, text, i, j) {
      var m := FirstPiece([p], key, text, i, j);
    }
  }

  ghost predicate AtomSomewhere(a: Atom, key: Keying, text: string) {
    exists i, j :: AtomMatches(a, key, text, i, j)
  }

  lemma {:induction false} Somewhere(branches: seq<Branch>, key: Keying, text: string, i: int, j: int)
    requires BranchesMatch(branches, key, text, i, j)
    ensures MatchesSomewhere(branches, key, text)
  {
  }

  lemma {:induction false} AtomAt(a: Atom, key: Keying, text: string, i: int, j: int)
    requires AtomMatches(a, key, text, i, j)
    ensures AtomSomewhere(a, key, text)
  {
  }

  /** A pattern of one atom matches where the atom does. */
  lemma {:induction false} LoneMatches(a: Atom, key: Keying, text: string)
    requires WfAtom(a) && RenderAtom(a) != ""
    ensures PatternMatches(RenderAtom(a), key, text) <==> AtomSomewhere(a, key, text)
  {
    LoneSpells(a);
    TreeDecides(Lone(a), RenderAtom(a), key, text);
    if i, j :| BranchesMatch(Lone(a), key, text, i, j) {
      LoneAt(a, key, text, i, j);
    }
    if i, j :| AtomMatches(a, key, text, i, j) {
      LoneAt(a, key, text, i, j);
    }
  }

  lemma {:induction false} LoneAt(a: Atom, key: Keying, text: string, i: int, j: int)
    ensures BranchesMatch(Lone(a), key, text, i, j) <==> AtomMatches(a, key, text, i, j)
  {
    SoleBranch([Piece(a, Once)], key, text, i, j);
    SolePiece(Piece(a, Once), key, text, i, j);
  }

  // ----- Characters and escapes

  predicate HasLike(key: Keying, text: string, c: char) {
    exists i :: 0 <= i < |text| && key(text[i]) == key(c)
  }

  lemma {:induction false} AtomIsCharacter(a: Atom, c: char, key: Keying, text: string, i: int, j: int)
    requires (a == Atom.Bare(c)) || (a.Escaped? && Decode(a.code) == c)
    ensures AtomMatches(a, key, text, i, j) <==> 0 <= i < |text| && j == i + 1 && key(text[i]) == key(c)
  {
    if a.Escaped? {
      assert a == Atom.Escaped(a.code);
    }
  }

  lemma {:induction false} CharacterLaw(a: Atom, c: char, key: Keying, text: string)
    requires WfAtom(a) && RenderAtom(a) != ""
    requires (a == Atom.Bare(c)) || (a.Escaped? && Decode(a.code) == c)
    ensures PatternMatches(RenderAtom(a), key, text) <==> HasLike(key, text, c)
  {
    LoneMatches(a, key, text);
    if i :| 0 <= i < |text| && key(text[i]) == key(c) {
      AtomIsCharacter(a, c, key, text, i, i + 1);
      AtomAt(a, key, text, i, i + 1);
    }
    if i, j :| AtomMatches(a, key, text, i, j) {
      AtomIsCharacter(a, c, key, text, i, j);
    }
  }

  /** A backslash and a letter stand for a newline, a carriage return and a tab. */
  lemma {:induction false} ControlEscapes(key: Keying, text: string)
    ensures PatternMatches("\\n", key, text) <==> HasLike(key, text, '\n')
    ensures PatternMatches("\\r", key, text) <==> HasLike(key, text, '\r')
    ensures PatternMatches("\\t", key, text) <==> HasLike(key, text, '\t')
  {
    assert RenderAtom(Atom.Escaped('n')) == "\\n";
    assert RenderAtom(Atom.Escaped('r')) == "\\r";
    assert RenderAtom(Atom.Escaped('t')) == "\\t";
    CharacterLaw(Atom.Escaped('n'), '\n', key, text);
    CharacterLaw(Atom.Escaped('r'), '\r', key, text);
    CharacterLaw(Atom.Escaped('t'), '\t', key, text);
  }

  /** A backslash takes the meaning from every other character that may be quoted. */
  lemma {:induction false} QuotingEscapes(c: char, key: Keying, text: string)
    requires c in "\\.^$|*+?()[]{}-"
    ensures PatternMatches(['\\', c], key, text) <==> HasLike(key, text, c)
  {
    assert RenderAtom(Atom.Escaped(c)) == ['\\', c];
    CharacterLaw(Atom.Escaped(c), c, key, text);
  }

  /** Every other character but those that need quoting stands for itself. */
  lemma {:induction false} PlainCharacters(c: char, key: Keying, text: string)
    requires c == '-' || c !in "\\.^$|*+?()[]{}-"
    ensures PatternMatches([c], key, text) <==> HasLike(key, text, c)
  {
    assert forall k :: 0 <= k < |"\\.^$|*+?()[]{}-"| ==> "\\.^$|*+?()[]{}-"[k] in "\\.^$|*+?()[]{}-";
    assert RenderAtom(Atom.Bare(c)) == [c];
    CharacterLaw(Atom.Bare(c), c, key, text);
  }

  // ----- Classes

  function Brackets(negated: bool, part: ClassPart): Atom {
    Bracket(negated, [part])
  }

  lemma {:induction false} BracketsSpell(negated: bool, part: ClassPart)
    requires WfPart(part) && (!negated ==> First(part) != ClassChar.Bare('^'))
    ensures WfAtom(Brackets(negated, part))
    ensures RenderAtom(Brackets(negated, part)) == (if negated then "[^" else "[") + RenderPart(part) + "]"
  {
    assert RenderParts([part]) == RenderPart([part][0]) + RenderParts([]) == RenderPart(part);
    assert [part][1..] == [];
  }

  lemma {:induction false} BracketsMatch(negated: bool, part: ClassPart, key: Keying, text: string)
    requires WfPart(part) && (!negated ==> First(part) != ClassChar.Bare('^'))
    ensures PatternMatches((if negated then "[^" else "[") + RenderPart(part) + "]", key, text) <==>
      exists i :: 0 <= i < |text| && (negated != InPart(part, key, key(text[i])))
  {
    var a := Brackets(negated, part);
    BracketsSpell(negated, part);
    LoneMatches(a, key, text);
    assert part in [part];
    if i, j :| AtomMatches(a, key, text, i, j) {
      assert negated != InPart(part, key, key(text[i]));
    }
    if i :| 0 <= i < |text| && (negated != InPart(part, key, key(text[i]))) {
      AtomAt(a, key, text, i, i + 1);
    }
  }

  /** The escapes mean the same between brackets; a leading '^' there asks for any other character. */
  lemma {:induction false} EscapesInBrackets(code: char, c: char, key: Keying, text: string)
    requires (code == 'n' && c == '\n') || (code == 'r' && c == '\r') || (code == 't' && c == '\t') || (c == code && c in "\\.^$|*+?()[]{}-")
    ensures PatternMatches(['[', '\\', code, ']'], key, text) <==> HasLike(key, text, c)
    ensures PatternMatches(['[', '^', '\\', code, ']'], key, text) <==> exists i :: 0 <= i < |text| && key(text[i]) != key(c)
  {
    var part := Single(ClassChar.Escaped(code));
    assert CharOf(ClassChar.Escaped(code)) == c;
    assert "[" + RenderPart(part) + "]" == ['[', '\\', code, ']'];
    assert "[^" + RenderPart(part) + "]" == ['[', '^', '\\', code, ']'];
    BracketsMatch(false, part, key, text);
    BracketsMatch(true, part, key, text);
  }

  /** A range of plain characters accepts those between its ends, and negated the others. */
  lemma {:induction false} RangeLaw(lo: char, hi: char, text: string)
    requires lo <= hi && lo !in "\\]^" && hi !in "\\]"
    ensures PatternMatches(['[', lo, '-', hi, ']'], c => [c], text) <==> exists i :: 0 <= i < |text| && lo <= text[i] <= hi
    ensures PatternMatches(['[', '^', lo, '-', hi, ']'], c => [c], text) <==> exists i :: 0 <= i < |text| && !(lo <= text[i] <= hi)
  {
    var part, key := Through(ClassChar.Bare(lo), ClassChar.Bare(hi)), c => [c];
    assert '\\' in "\\]" && ']' in "\\]" && "\\]^"[0] == '\\' && "\\]^"[1] == ']' && "\\]^"[2] == '^';
    assert "[" + RenderPart(part) + "]" == ['[', lo, '-', hi, ']'];
    assert "[^" + RenderPart(part) + "]" == ['[', '^', lo, '-', hi, ']'];
    forall i | 0 <= i < |text| ensures InPart(part, key, key(text[i])) <==> lo <= text[i] <= hi {
    }
    BracketsMatch(false, part, key, text);
    BracketsMatch(true, part, key, text);
  }

  // ----- Anchors and sequences

  function Anchored(p: Piece): seq<Piece> {
    [Piece(Caret, Once), p, Piece(Dollar, Once)]
  }

  lemma {:induction false} PiecesSpell(pieces: seq<Piece>)
    requires pieces != [] && WfPieces(pieces)
    ensures Spells([Branch(pieces)], RenderPieces(pieces))
  {
    var branches := [Branch(pieces)];
    assert branches[1..] == [] && branches[0].pieces == pieces;
    assert RenderBranches(branches) == RenderPieces(pieces) + RenderTail([]) == RenderPieces(pieces);
  }

  lemma {:induction false} Renders(p: Piece, rest: seq<Piece>)
    ensures RenderPieces([p] + rest) == RenderPiece(p) + RenderPieces(rest)
    ensures WfPieces([p] + rest) <==> WfPiece(p) && WfPieces(rest)
  {
    PiecesCons(p, rest, c => [c]);
  }

  lemma {:induction false} PiecesFrom(p: Piece, rest: seq<Piece>, key: Keying, text: string, i: int, m: int, j: int)
    requires PieceMatches(p, key, text, i, m) && PiecesMatch(rest, key, text, m, j)
    ensures PiecesMatch([p] + rest, key, text, i, j)
  {
    var pieces := [p] + rest;
    assert pieces[0] == p && pieces[1..] == rest;
  }

  lemma {:induction false} PiecesTo(p: Piece, rest: seq<Piece>, key: Keying, text: string, i: int, j: int) returns (m: int)
    requires PiecesMatch([p] + rest, key, text, i, j)
    ensures PieceMatches(p, key, text, i, m) && PiecesMatch(rest, key, text, m, j)
  {
    var pieces := [p] + rest;
    assert pieces[0] == p && pieces[1..] == rest;
    m := FirstPiece(pieces, key, text, i, j);
  }

  lemma {:induction false} AnchoredSpells(p: Piece)
    requires WfPiece(p)
    ensures WfPieces(Anchored(p)) && RenderPieces(Anchored(p)) == "^" + RenderPiece(p) + "$"
  {
    var caret, dollar := Piece(Caret, Once), Piece(Dollar, Once);
    Renders(dollar, []);
    Renders(p, [dollar] + []);
    Renders(caret, [p] + ([dollar] + []));
    assert Anchored(p) == [caret] + ([p] + ([dollar] + []));
    assert RenderPiece(dollar) == "$" && RenderPiece(caret) == "^";
  }

  /** Between '^' and '$' a piece has to match the whole text. */
  lemma {:induction false} AnchoredMatches(p: Piece, key: Keying, text: string)
    requires WfPiece(p)
    ensures PatternMatches("^" + RenderPiece(p) + "$", key, text) <==> PieceMatches(p, key, text, 0, |text|)
  {
    var pieces, n := Anchored(p), |text|;
    AnchoredSpells(p);
    PiecesSpell(pieces);
    TreeDecides([Branch(pieces)], RenderPieces(pieces), key, text);
    var caret, dollar := Piece(Caret, Once), Piece(Dollar, Once);
    assert pieces == [caret] + ([p] + [dollar]);
    if i, j :| BranchesMatch([Branch(pieces)], key, text, i, j) {
      SoleBranch(pieces, key, text, i, j);
      var m := PiecesTo(caret, [p] + [dollar], key, text, i, j);
      var o := PiecesTo(p, [dollar], key, text, m, j);
      SolePiece(dollar, key, text, o, j);
      AnchorsAt(key, text, i, m, o, j);
    }
    if PieceMatches(p, key, text, 0, n) {
      AnchorsAt(key, text, 0, 0, n, n);
      SolePiece(dollar, key, text, n, n);
      PiecesFrom(p, [dollar], key, text, 0, n, n);
      PiecesFrom(caret, [p] + [dollar], key, text, 0, 0, n);
      SoleBranch(pieces, key, text, 0, n);
      Somewhere([Branch(pieces)], key, text, 0, n);
    }
  }

  lemma {:induction false} AnchorsAt(key: Keying, text: string, i: int, m: int, o: int, j: int)
    ensures PieceMatches(Piece(Caret, Once), key, text, i, m) <==> i == m == 0
    ensures PieceMatches(Piece(Dollar, Once), key, text, o, j) <==> o == j == |text|
  {
  }

  ghost predicate BeginsWith(p: Piece, key: Keying, text: string) {
    exists j :: PieceMatches(p, key, text, 0, j)
  }

  ghost predicate EndsWith(p: Piece, key: Keying, text: string) {
    exists i :: PieceMatches(p, key, text, i, |text|)
  }

  /** '^' alone asks for the beginning and '$' alone for the end of the text. */
  lemma {:induction false} HalfAnchored(p: Piece, key: Keying, text: string)
    requires WfPiece(p)
    ensures PatternMatches("^" + RenderPiece(p), key, text) <==> BeginsWith(p, key, text)
    ensures PatternMatches(RenderPiece(p) + "$", key, text) <==> EndsWith(p, key, text)
  {
    StartAnchored(p, key, text);
    EndAnchored(p, key, text);
  }

  lemma {:induction false} StartAnchored(p: Piece, key: Keying, text: string)
    requires WfPiece(p)
    ensures PatternMatches("^" + RenderPiece(p), key, text) <==> BeginsWith(p, key, text)
  {
    var caret := Piece(Caret, Once);
    var pieces := [caret] + [p];
    Renders(p, []);
    assert [p] + [] == [p];
    Renders(caret, [p]);
    assert RenderPiece(caret) == "^" && RenderPieces(pieces) == "^" + RenderPiece(p);
    PiecesSpell(pieces);
    TreeDecides([Branch(pieces)], RenderPieces(pieces), key, text);
    if i, j :| BranchesMatch([Branch(pieces)], key, text, i, j) {
      SoleBranch(pieces, key, text, i, j);
      var m := PiecesTo(caret, [p], key, text, i, j);
      SolePiece(p, key, text, m, j);
      AnchorsAt(key, text, i, m, 0, 0);
    }
    if BeginsWith(p, key, text) {
      var j :| PieceMatches(p, key, text, 0, j);
      AnchorsAt(key, text, 0, 0, 0, 0);
      SolePiece(p, key, text, 0, j);
      PiecesFrom(caret, [p], key, text, 0, 0, j);
      SoleBranch(pieces, key, text, 0, j);
      Somewhere([Branch(pieces)], key, text, 0, j);
    }
  }

  lemma {:induction false} EndAnchored(p: Piece, key: Keying, text: string)
    requires WfPiece(p)
    ensures PatternMatches(RenderPiece(p) + "$", key, text) <==> EndsWith(p, key, text)
  {
    var dollar, n := Piece(Dollar, Once), |text|;
    var pieces := [p] + [dollar];
    Renders(dollar, []);
    assert [dollar] + [] == [dollar];
    Renders(p, [dollar]);
    assert RenderPiece(dollar) == "$" && RenderPieces(pieces) == RenderPiece(p) + "$";
    PiecesSpell(pieces);
    TreeDecides([Branch(pieces)], RenderPieces(pieces), key, text);
    if i, j :| BranchesMatch([Branch(pieces)], key, text, i, j) {
      SoleBranch(pieces, key, text, i, j);
      var m := PiecesTo(p, [dollar], key, text, i, j);
      SolePiece(dollar, key, text, m, j);
      AnchorsAt(key, text, 0, 0, m, j);
    }
    if EndsWith(p, key, text) {
      var i :| PieceMatches(p, key, text, i, |text|);
      AnchorsAt(key, text, 0, 0, n, n);
      SolePiece(dollar, key, text, n, n);
      PiecesFrom(p, [dollar], key, text, i, n, n);
      SoleBranch(pieces, key, text, i, n);
      Somewhere([Branch(pieces)], key, text, i, n);
    }
  }

  // ----- Repetition

  predicate AllLike(key: Keying, text: string, c: char) {
    forall i :: 0 <= i < |text| ==> key(text[i]) == key(c)
  }

  predicate Plain(c: char) {
    c == '-' || c !in "\\.^$|*+?()[]{}-"
  }

  lemma {:induction false} TimesCharacter(c: char, n: nat, key: Keying, text: string, i: int, j: int)
    ensures TimesMatch(Atom.Bare(c), n, key, text, i, j) <==>
      0 <= i <= j <= |text| && j == i + n && forall k :: i <= k < j ==> key(text[k]) == key(c)
    decreases n
  {
    if n > 0 {
      var less: nat := n - 1;
      forall m ensures TimesMatch(Atom.Bare(c), less, key, text, m, j) <==>
        0 <= m <= j <= |text| && j == m + less && forall k :: m <= k < j ==> key(text[k]) == key(c) {
        TimesCharacter(c, less, key, text, m, j);
      }
      forall m ensures AtomMatches(Atom.Bare(c), key, text, i, m) <==> 0 <= i < |text| && m == i + 1 && key(text[i]) == key(c) {
        AtomIsCharacter(Atom.Bare(c), c, key, text, i, m);
      }
      if 0 <= i < j <= |text| && j == i + n && forall k :: i <= k < j ==> key(text[k]) == key(c) {
        assert AtomMatches(Atom.Bare(c), key, text, i, i + 1) && TimesMatch(Atom.Bare(c), less, key, text, i + 1, j);
      }
    }
  }

  lemma {:induction false} PlainIsWf(c: char, q: Quantifier)
    requires Plain(c)
    ensures WfPiece(Piece(Atom.Bare(c), q)) && RenderPiece(Piece(Atom.Bare(c), q)) == [c] + RenderQuantifier(q)
  {
    assert forall k :: 0 <= k < |"\\.^$|*+?()[]{}-"| ==> "\\.^$|*+?()[]{}-"[k] in "\\.^$|*+?()[]{}-";
  }

  /** A star takes any number of repetitions, a plus at least one, a question mark at most one. */
  lemma {:induction false} RepetitionLaws(c: char, key: Keying, text: string)
    requires Plain(c)
    ensures PatternMatches("^" + [c] + "*" + "$", key, text) <==> AllLike(key, text, c)
    ensures PatternMatches("^" + [c] + "+" + "$", key, text) <==> AllLike(key, text, c) && text != ""
    ensures PatternMatches("^" + [c] + "?" + "$", key, text) <==> AllLike(key, text, c) && |text| <= 1
    ensures PatternMatches("^" + [c] + "$", key, text) <==> AllLike(key, text, c) && |text| == 1
  {
    StarLaw(c, key, text);
    PlusLaw(c, key, text);
    OptionLaw(c, key, text);
    WholeCharacter(c, key, text);
  }

  lemma {:induction false} StarLaw(c: char, key: Keying, text: string)
    requires Plain(c)
    ensures PatternMatches("^" + [c] + "*" + "$", key, text) <==> AllLike(key, text, c)
  {
    var p := Piece(Atom.Bare(c), ZeroOrMore);
    PlainIsWf(c, ZeroOrMore);
    AnchoredMatches(p, key, text);
    assert "^" + RenderPiece(p) + "$" == "^" + [c] + "*" + "$";
    if n: nat :| TimesMatch(Atom.Bare(c), n, key, text, 0, |text|) {
      TimesCharacter(c, n, key, text, 0, |text|);
    }
    TimesCharacter(c, |text|, key, text, 0, |text|);
  }

  lemma {:induction false} PlusLaw(c: char, key: Keying, text: string)
    requires Plain(c)
    ensures PatternMatches("^" + [c] + "+" + "$", key, text) <==> AllLike(key, text, c) && text != ""
  {
    var p := Piece(Atom.Bare(c), OneOrMore);
    PlainIsWf(c, OneOrMore);
    AnchoredMatches(p, key, text);
    assert "^" + RenderPiece(p) + "$" == "^" + [c] + "+" + "$";
    if n: nat :| n > 0 && TimesMatch(Atom.Bare(c), n, key, text, 0, |text|) {
      TimesCharacter(c, n, key, text, 0, |text|);
    }
    TimesCharacter(c, |text|, key, text, 0, |text|);
  }

  lemma {:induction false} OptionLaw(c: char, key: Keying, text: string)
    requires Plain(c)
    ensures PatternMatches("^" + [c] + "?" + "$", key, text) <==> AllLike(key, text, c) && |text| <= 1
  {
    var p := Piece(Atom.Bare(c), ZeroOrOne);
    PlainIsWf(c, ZeroOrOne);
    AnchoredMatches(p, key, text);
    assert "^" + RenderPiece(p) + "$" == "^" + [c] + "?" + "$";
    AtomIsCharacter(Atom.Bare(c), c, key, text, 0, |text|);
  }

  lemma {:induction false} WholeCharacter(c: char, key: Keying, text: string)
    requires Plain(c)
    ensures PatternMatches("^" + [c] + "$", key, text) <==> AllLike(key, text, c) && |text| == 1
  {
    var p := Piece(Atom.Bare(c), Once);
    PlainIsWf(c, Once);
    AnchoredMatches(p, key, text);
    assert "^" + RenderPiece(p) + "$" == "^" + [c] + "$";
    AtomIsCharacter(Atom.Bare(c), c, key, text, 0, |text|);
  }

  // ----- Dot, anchored characters, sequence and choice

  /** A dot takes any one character. */
  lemma {:induction false} DotLaw(key: Keying, text: string)
    ensures PatternMatches("^.$", key, text) <==> |text| == 1
    ensures PatternMatches(".", key, text) <==> text != ""
  {
    var p := Piece(Dot, Once);
    AnchoredMatches(p, key, text);
    assert RenderPiece(p) == "." && "^" + RenderPiece(p) + "$" == "^.$";
    LoneMatches(Dot, key, text);
    assert RenderAtom(Dot) == ".";
    if text != "" {
      AtomAt(Dot, key, text, 0, 1);
    }
  }

  lemma {:induction false} AnchoredCharacters(c: char, key: Keying, text: string)
    requires Plain(c)
    ensures PatternMatches("^" + [c], key, text) <==> text != "" && key(text[0]) == key(c)
    ensures PatternMatches([c] + "$", key, text) <==> text != "" && key(text[|text| - 1]) == key(c)
  {
    var p := Piece(Atom.Bare(c), Once);
    PlainIsWf(c, Once);
    assert RenderPiece(p) == [c];
    HalfAnchored(p, key, text);
    forall i, j ensures PieceMatches(p, key, text, i, j) <==> 0 <= i < |text| && j == i + 1 && key(text[i]) == key(c) {
      AtomIsCharacter(Atom.Bare(c), c, key, text, i, j);
    }
    if text != "" {
      assert PieceMatches(p, key, text, 0, 1) <==> key(text[0]) == key(c);
      assert PieceMatches(p, key, text, |text| - 1, |text|) <==> key(text[|text| - 1]) == key(c);
    }
  }

  /** Two characters in a row match side by side. */
  lemma {:induction false} SequenceLaw(c: char, d: char, key: Keying, text: string)
    requires Plain(c) && Plain(d)
    ensures PatternMatches([c, d], key, text) <==> exists i :: 0 <= i < |text| - 1 && key(text[i]) == key(c) && key(text[i + 1]) == key(d)
  {
    var p, q := Piece(Atom.Bare(c), Once), Piece(Atom.Bare(d), Once);
    var pieces := [p] + [q];
    PlainIsWf(c, Once);
    PlainIsWf(d, Once);
    Renders(q, []);
    assert [q] + [] == [q];
    Renders(p, [q]);
    assert RenderPieces(pieces) == [c, d];
    PiecesSpell(pieces);
    TreeDecides([Branch(pieces)], RenderPieces(pieces), key, text);
    if i, j :| BranchesMatch([Branch(pieces)], key, text, i, j) {
      SoleBranch(pieces, key, text, i, j);
      var m := PiecesTo(p, [q], key, text, i, j);
      SolePiece(q, key, text, m, j);
      AtomIsCharacter(Atom.Bare(c), c, key, text, i, m);
      AtomIsCharacter(Atom.Bare(d), d, key, text, m, j);
      assert 0 <= i < |text| - 1 && key(text[i]) == key(c) && key(text[i + 1]) == key(d);
    }
    if i :| 0 <= i < |text| - 1 && key(text[i]) == key(c) && key(text[i + 1]) == key(d) {
      AtomIsCharacter(Atom.Bare(c), c, key, text, i, i + 1);
      AtomIsCharacter(Atom.Bare(d), d, key, text, i + 1, i + 2);
      SolePiece(q, key, text, i + 1, i + 2);
      PiecesFrom(p, [q], key, text, i, i + 1, i + 2);
      SoleBranch(pieces, key, text, i, i + 2);
      Somewhere([Branch(pieces)], key, text, i, i + 2);
    }
  }

  function Choice(c: char, d: char): seq<Branch> {
    [Branch([Piece(Atom.Bare(c), Once)]), Branch([Piece(Atom.Bare(d), Once)])]
  }

  lemma {:induction false} ChoiceSpells(c: char, d: char)
    requires Plain(c) && Plain(d)
    ensures Spells(Choice(c, d), [c, '|', d])
  {
    var p, q := Piece(Atom.Bare(c), Once), Piece(Atom.Bare(d), Once);
    var branches := Choice(c, d);
    PlainIsWf(c, Once);
    PlainIsWf(d, Once);
    Renders(p, []);
    Renders(q, []);
    assert [p] + [] == [p] && [q] + [] == [q];
    assert branches[1..] == [Branch([q])] && branches[1..][1..] == [];
    assert RenderTail(branches[1..]) == "|" + RenderPieces([q]) + RenderTail([]) == ['|', d];
    assert RenderBranches(branches) == RenderPieces([p]) + RenderTail(branches[1..]) == [c, '|', d];
  }

  lemma {:induction false} ChoiceAt(c: char, d: char, key: Keying, text: string, i: int, j: int)
    ensures BranchesMatch(Choice(c, d), key, text, i, j) <==>
      0 <= i < |text| && j == i + 1 && (key(text[i]) == key(c) || key(text[i]) == key(d))
  {
    var branches := Choice(c, d);
    SolePiece(Piece(Atom.Bare(c), Once), key, text, i, j);
    SolePiece(Piece(Atom.Bare(d), Once), key, text, i, j);
    AtomIsCharacter(Atom.Bare(c), c, key, text, i, j);
    AtomIsCharacter(Atom.Bare(d), d, key, text, i, j);
    assert branches[0].pieces == [Piece(Atom.Bare(c), Once)] && branches[1].pieces == [Piece(Atom.Bare(d), Once)];
  }

  /** A bar offers a choice, also inside a group. */
  lemma {:induction false} ChoiceLaw(c: char, d: char, key: Keying, text: string)
    requires Plain(c) && Plain(d)
    ensures PatternMatches([c, '|', d], key, text) <==> HasLike(key, text, c) || HasLike(key, text, d)
    ensures PatternMatches("^(" + [c, '|', d] + ")$", key, text) <==> |text| == 1 && (key(text[0]) == key(c) || key(text[0]) == key(d))
  {
    ChoiceSpells(c, d);
    TreeDecides(Choice(c, d), [c, '|', d], key, text);
    if i, j :| BranchesMatch(Choice(c, d), key, text, i, j) {
      ChoiceAt(c, d, key, text, i, j);
    }
    if i :| 0 <= i < |text| && (key(text[i]) == key(c) || key(text[i]) == key(d)) {
      ChoiceAt(c, d, key, text, i, i + 1);
      Somewhere(Choice(c, d), key, text, i, i + 1);
    }
    var p := Piece(Group(Choice(c, d)), Once);
    assert RenderPiece(p) == "(" + [c, '|', d] + ")";
    assert "^" + RenderPiece(p) + "$" == "^(" + [c, '|', d] + ")$";
    AnchoredMatches(p, key, text);
    ChoiceAt(c, d, key, text, 0, |text|);
  }

  // ----- What is no pattern

  /** What stops the parser at once, whatever follows. */
  lemma {:induction false} RefusedAtOnce(rest: string, key: Keying)
    ensures RegexParser.ReadPattern("*" + rest, key) == RegexParser.Read.Err(RegexParser.DanglingQuantifier)
    ensures RegexParser.ReadPattern("+" + rest, key) == RegexParser.Read.Err(RegexParser.DanglingQuantifier)
    ensures RegexParser.ReadPattern("?" + rest, key) == RegexParser.Read.Err(RegexParser.DanglingQuantifier)
    ensures RegexParser.ReadPattern("{" + rest, key) == RegexParser.Read.Err(RegexParser.CountedRepetition)
    ensures RegexParser.ReadPattern("}" + rest, key) == RegexParser.Read.Err(RegexParser.CountedRepetition)
    ensures RegexParser.ReadPattern("]" + rest, key) == RegexParser.Read.Err(RegexParser.UnmatchedBracket)
    ensures RegexParser.ReadPattern(")" + rest, key) == RegexParser.Read.Err(RegexParser.UnmatchedParenthesis)
  {
    FirstAtom("*" + rest, key);
    FirstAtom("+" + rest, key);
    FirstAtom("?" + rest, key);
    FirstAtom("{" + rest, key);
    FirstAtom("}" + rest, key);
    FirstAtom("]" + rest, key);
    NothingRead(")" + rest, key);
  }

  lemma {:induction false} FirstAtom(p: string, key: Keying)
    requires p != "" && !RegexParser.Stops(p, 0)
    ensures RegexParser.ReadAtom(p, 0, key).Err? ==> RegexParser.ReadPattern(p, key) == RegexParser.Read.Err(RegexParser.ReadAtom(p, 0, key).error)
  {
    if RegexParser.ReadAtom(p, 0, key).Err? {
      var e := RegexParser.ReadAtom(p, 0, key).error;
      assert RegexParser.ReadRepetition(p, 0, key) == RegexParser.Read.Err(e);
      assert RegexParser.ReadPieces(p, 0, key) == RegexParser.Read.Err(e);
      assert RegexParser.ReadSequence(p, 0, key) == RegexParser.Read.Err(e);
      assert RegexParser.ReadAlternation(p, 0, key) == RegexParser.Read.Err(e);
    }
  }

  lemma {:induction false} NothingRead(p: string, key: Keying)
    requires RegexParser.At(p, 0, ')')
    ensures RegexParser.ReadPattern(p, key) == RegexParser.Read.Err(RegexParser.UnmatchedParenthesis)
  {
    assert RegexParser.ReadPieces(p, 0, key) == RegexParser.Read.Ok([], 0);
    assert RegexParser.ReadSequence(p, 0, key) == RegexParser.Read.Ok(Empty, 0);
    assert RegexParser.ReadBranches(p, 0, key) == RegexParser.Read.Ok([], 0);
    assert RegexParser.ReadAlternation(p, 0, key) == RegexParser.Read.Ok(Empty, 0);
  }

  /** Escapes that are cut off or that quote what has no need of it. */
  lemma {:induction false} RefusedEscapes(c: char, rest: string, key: Keying)
    ensures RegexParser.ReadPattern("\\", key) == RegexParser.Read.Err(RegexParser.IncompleteEscape)
    ensures c !in "nrt\\.^$|*+?()[]{}-" ==> RegexParser.ReadPattern("\\" + [c] + rest, key) == RegexParser.Read.Err(RegexParser.UnsupportedEscape)
  {
    FirstAtom("\\", key);
    assert RegexParser.ReadEscape("\\", 1) == RegexParser.Read.Err(RegexParser.IncompleteEscape);
    var p, known := "\\" + [c] + rest, "nrt\\.^$|*+?()[]{}-";
    if c !in known {
      assert forall k :: 0 <= k < |known| ==> known[k] in known;
      assert p[0] == '\\' && p[1] == c;
      assert RegexParser.ReadEscape(p, 1) == RegexParser.Read.Err(RegexParser.UnsupportedEscape);
      FirstAtom(p, key);
    }
  }

  lemma {:induction false} CharacterReads(p: string, i: nat, c: char, key: Keying)
    requires Plain(c) && i < |p| && p[i] == c
    ensures RegexParser.ReadAtom(p, i, key) == RegexParser.Read.Ok(Literal(c), i + 1) && !RegexParser.Stops(p, i) && !IsQuantifier(c)
  {
    assert forall k :: 0 <= k < |"\\.^$|*+?()[]{}-"| ==> "\\.^$|*+?()[]{}-"[k] in "\\.^$|*+?()[]{}-";
  }

  /** A second quantifier, a missing branch, a group that is empty or left open. */
  lemma {:induction false} RefusedInside(c: char, q: char, r: char, key: Keying)
    requires Plain(c) && IsQuantifier(q) && IsQuantifier(r)
    ensures RegexParser.ReadPattern([c, q, r], key) == RegexParser.Read.Err(RegexParser.RepeatedQuantifier)
    ensures RegexParser.ReadPattern([c, '|'], key) == RegexParser.Read.Err(RegexParser.EmptyBranch)
    ensures RegexParser.ReadPattern("()", key) == RegexParser.Read.Err(RegexParser.EmptyGroup)
    ensures RegexParser.ReadPattern(['(', c], key) == RegexParser.Read.Err(RegexParser.UnclosedParenthesis)
  {
    QuantifiedTwice(c, q, r, key);
    LacksBranch(c, key);
    GroupsRefused(c, key);
  }

  lemma {:induction false} QuantifiedTwice(c: char, q: char, r: char, key: Keying)
    requires Plain(c) && IsQuantifier(q) && IsQuantifier(r)
    ensures RegexParser.ReadPattern([c, q, r], key) == RegexParser.Read.Err(RegexParser.RepeatedQuantifier)
  {
    var p := [c, q, r];
    CharacterReads(p, 0, c, key);
    assert RegexParser.ReadRepetition(p, 0, key) == RegexParser.Read.Err(RegexParser.RepeatedQuantifier);
    assert RegexParser.ReadPieces(p, 0, key) == RegexParser.Read.Err(RegexParser.RepeatedQuantifier);
    assert RegexParser.ReadSequence(p, 0, key) == RegexParser.Read.Err(RegexParser.RepeatedQuantifier);
  }

  lemma {:induction false} LoneCharacter(p: string, i: nat, c: char, key: Keying)
    requires Plain(c) && i < |p| && p[i] == c && RegexParser.Stops(p, i + 1)
    ensures RegexParser.ReadSequence(p, i, key) == RegexParser.Read.Ok(Literal(c), i + 1)
  {
    CharacterReads(p, i, c, key);
    assert RegexParser.ReadRepetition(p, i, key) == RegexParser.Read.Ok(Literal(c), i + 1);
    assert RegexParser.ReadPieces(p, i + 1, key) == RegexParser.Read.Ok([], i + 1);
    assert RegexParser.ReadPieces(p, i, key) == RegexParser.Read.Ok([Literal(c)] + [], i + 1);
  }

  lemma {:induction false} NoSequence(p: string, i: nat, key: Keying)
    requires i <= |p| && RegexParser.Stops(p, i)
    ensures RegexParser.ReadSequence(p, i, key) == RegexParser.Read.Ok(Empty, i)
  {
    assert RegexParser.ReadPieces(p, i, key) == RegexParser.Read.Ok([], i);
  }

  lemma {:induction false} LacksBranch(c: char, key: Keying)
    requires Plain(c)
    ensures RegexParser.ReadPattern([c, '|'], key) == RegexParser.Read.Err(RegexParser.EmptyBranch)
  {
    var p := [c, '|'];
    LoneCharacter(p, 0, c, key);
    NoSequence(p, 2, key);
    assert RegexParser.ReadBranches(p, 1, key) == RegexParser.Read.Err(RegexParser.EmptyBranch);
    assert RegexParser.ReadAlternation(p, 0, key) == RegexParser.Read.Err(RegexParser.EmptyBranch);
  }

  lemma {:induction false} GroupsRefused(c: char, key: Keying)
    requires Plain(c)
    ensures RegexParser.ReadPattern("()", key) == RegexParser.Read.Err(RegexParser.EmptyGroup)
    ensures RegexParser.ReadPattern(['(', c], key) == RegexParser.Read.Err(RegexParser.UnclosedParenthesis)
  {
    NoSequence("()", 1, key);
    assert RegexParser.ReadBranches("()", 1, key) == RegexParser.Read.Ok([], 1);
    assert RegexParser.ReadAlternation("()", 1, key) == RegexParser.Read.Ok(Empty, 1);
    FirstAtom("()", key);
    var p := ['(', c];
    LoneCharacter(p, 1, c, key);
    assert RegexParser.ReadBranches(p, 2, key) == RegexParser.Read.Ok([], 2);
    assert RegexParser.ReadAlternation(p, 1, key) == RegexParser.Read.Ok(Literal(c), 2);
    FirstAtom(p, key);
  }

  /** A class that is empty, left open, or runs backwards. */
  lemma {:induction false} RefusedClasses(lo: char, hi: char, key: Keying)
    requires lo > hi && lo !in "\\]^" && hi !in "\\]"
    ensures RegexParser.ReadPattern("[]", key) == RegexParser.Read.Err(RegexParser.EmptyClass)
    ensures RegexParser.ReadPattern("[", key) == RegexParser.Read.Err(RegexParser.UnclosedBracket)
    ensures RegexParser.ReadPattern(['[', lo, '-', hi, ']'], key) == RegexParser.Read.Err(RegexParser.ReversedRange)
  {
    assert RegexParser.ReadClass("[]", 1) == RegexParser.Read.Err(RegexParser.EmptyClass);
    FirstAtom("[]", key);
    assert RegexParser.ReadClass("[", 1) == RegexParser.Read.Err(RegexParser.UnclosedBracket);
    FirstAtom("[", key);
    var p := ['[', lo, '-', hi, ']'];
    assert '\\' in "\\]" && ']' in "\\]" && "\\]^"[0] == '\\' && "\\]^"[1] == ']' && "\\]^"[2] == '^';
    assert RegexParser.ReadItem(p, 1) == RegexParser.Read.Err(RegexParser.ReversedRange);
    assert RegexParser.ReadItems(p, 1, ClassItems({}, [], false), false) == RegexParser.Read.Err(RegexParser.ReversedRange);
    assert RegexParser.ReadClass(p, 1) == RegexParser.Read.Err(RegexParser.ReversedRange);
    FirstAtom(p, key);
  }
}
