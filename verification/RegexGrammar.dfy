/** The parser decides the grammar: it accepts a pattern exactly when the pattern
    spells a well-formed tree, and returns the node of that tree. */
module RegexGrammar {
  import opened CharSets
  import opened RegexSyntax
  import opened RegexParser

  /** `r` is spelled out in `p` from `i` on. */
  ghost predicate Spelled(p: string, i: nat, r: string) {
    i + |r| <= |p| && forall k :: 0 <= k < |r| ==> r[k] == p[i + k]
  }

  lemma {:induction false} SpelledAppend(p: string, i: nat, a: string, b: string)
    ensures Spelled(p, i, a + b) <==> Spelled(p, i, a) && Spelled(p, i + |a|, b)
  {
    assert forall k :: 0 <= k < |a| ==> a[k] == (a + b)[k];
    assert forall k :: 0 <= k < |b| ==> b[k] == (a + b)[|a| + k];
    if Spelled(p, i, a + b) {
      forall k | 0 <= k < |b| ensures b[k] == p[i + |a| + k] {
        assert (a + b)[|a| + k] == p[i + (|a| + k)];
      }
    }
  }

  lemma {:induction false} SpelledChar(p: string, i: nat, c: char)
    ensures Spelled(p, i, [c]) <==> At(p, i, c)
  {
    assert [c][0] == c;
  }

  lemma {:induction false} SpelledStart(p: string, i: nat, r: string)
    requires Spelled(p, i, r) && r != ""
    ensures At(p, i, r[0])
  {
    assert r[0] == p[i + 0];
  }

  // ----- Soundness: what is read is spelled

  lemma {:induction false} ClassCharSound(p: string, i: nat) returns (c: ClassChar)
    requires i < |p| && p[i] != ']' && ReadClassChar(p, i).Ok?
    ensures WfClassChar(c) && CharOf(c) == ReadClassChar(p, i).value
    ensures Spelled(p, i, RenderChar(c)) && i + |RenderChar(c)| == ReadClassChar(p, i).next
    ensures c == ClassChar.Bare(p[i]) || (p[i] == '\\' && c.Escaped?)
  {
    c := if p[i] == '\\' then ClassChar.Escaped(p[i + 1]) else ClassChar.Bare(p[i]);
  }

  lemma {:induction false} ItemSound(p: string, i: nat) returns (part: ClassPart)
    requires i < |p| && p[i] != ']' && ReadItem(p, i).Ok?
    ensures WfPart(part) && ItemOf(part) == ReadItem(p, i).value
    ensures Spelled(p, i, RenderPart(part)) && i + |RenderPart(part)| == ReadItem(p, i).next
    ensures First(part) == ClassChar.Bare(p[i]) || (p[i] == '\\' && First(part).Escaped?)
    ensures part.Single? ==> var k := ReadItem(p, i).next; At(p, k, '-') ==> k + 1 >= |p| || p[k + 1] == ']'
  {
    var k := ReadClassChar(p, i).next;
    var lo := ClassCharSound(p, i);
    if At(p, k, '-') && k + 1 < |p| && p[k + 1] != ']' {
      var hi := ClassCharSound(p, k + 1);
      ThroughSpelled(p, i, lo, hi);
      return Through(lo, hi);
    }
    return Single(lo);
  }

  lemma {:induction false} ItemsSound(p: string, i: nat, items: ClassItems, sawItem: bool)
    returns (parts: seq<ClassPart>)
    requires ReadItems(p, i, items, sawItem).Ok?
    ensures WfParts(parts) && AddParts(items, parts) == ReadItems(p, i, items, sawItem).value
    ensures PartsAt(p, i, parts) && i + |RenderParts(parts)| + 1 == ReadItems(p, i, items, sawItem).next
    ensures parts == [] ==> sawItem
    decreases |p| - i
  {
    if p[i] == ']' {
      return [];
    }
    var part := ItemSound(p, i);
    ItemsRead(p, i, items, sawItem, ItemOf(part), ReadItem(p, i).next);
    var rest := ItemsSound(p, ReadItem(p, i).next, AddItem(items, ItemOf(part)), true);
    parts := [part] + rest;
    PartsCons(items, part, rest);
    PartsFollow(p, i, part, rest);
  }

  /** What is known of the place where class parts are spelled: how they begin, and a closing '-'. */
  ghost predicate PartsAt(p: string, i: nat, parts: seq<ClassPart>) {
    && i < |p| && Spelled(p, i, RenderParts(parts) + "]")
    && (p[i] == ']' <==> parts == [])
    && (parts != [] ==> First(parts[0]) == ClassChar.Bare(p[i]) || (p[i] == '\\' && First(parts[0]).Escaped?))
    && (p[i] == '-' && At(p, i + 1, ']') ==> |parts| == 1 && parts[0].Single?)
  }

  lemma {:induction false} PartsFollow(p: string, i: nat, part: ClassPart, rest: seq<ClassPart>)
    requires i < |p| && p[i] != ']' && Spelled(p, i, RenderPart(part)) && PartsAt(p, i + |RenderPart(part)|, rest)
    requires First(part) == ClassChar.Bare(p[i]) || (p[i] == '\\' && First(part).Escaped?)
    ensures PartsAt(p, i, [part] + rest)
    ensures |RenderParts([part] + rest)| == |RenderPart(part)| + |RenderParts(rest)|
  {
    var parts := [part] + rest;
    assert parts[0] == part && parts[1..] == rest;
    PartsSpelled(p, i, parts);
    if p[i] == '-' && At(p, i + 1, ']') && part.Through? {
      ThroughSpelled(p, i, part.lo, part.hi);
      assert false;
    }
  }

  lemma {:induction false} ThroughSpelled(p: string, i: nat, lo: ClassChar, hi: ClassChar)
    ensures Spelled(p, i, RenderPart(Through(lo, hi))) <==>
      var k := i + |RenderChar(lo)|;
      Spelled(p, i, RenderChar(lo)) && At(p, k, '-') && Spelled(p, k + 1, RenderChar(hi))
  {
    assert RenderPart(Through(lo, hi)) == RenderChar(lo) + "-" + RenderChar(hi);
    DashSpelled(p, i, RenderChar(lo), RenderChar(hi));
  }

  lemma {:induction false} PartsCons(items: ClassItems, part: ClassPart, rest: seq<ClassPart>)
    requires WfPart(part) && WfParts(rest)
    requires part.Single? && rest != [] && First(rest[0]) == ClassChar.Bare('-') ==> |rest| == 1 && rest[0].Single?
    ensures var parts := [part] + rest;
      parts[0] == part && parts[1..] == rest && WfParts(parts) && AddParts(items, parts) == AddParts(AddItem(items, ItemOf(part)), rest)
  {
    var parts := [part] + rest;
    assert parts[0] == part && parts[1..] == rest;
    assert rest != [] ==> parts[1] == rest[0];
  }

  lemma {:induction false} DashSpelled(p: string, i: nat, lo: string, hi: string)
    ensures Spelled(p, i, lo + "-" + hi) <==> Spelled(p, i, lo) && At(p, i + |lo|, '-') && Spelled(p, i + |lo| + 1, hi)
  {
    SpelledAppend(p, i, lo + "-", hi);
    SpelledAppend(p, i, lo, "-");
    SpelledChar(p, i + |lo|, '-');
  }

  lemma {:induction false} PartsSpelled(p: string, i: nat, parts: seq<ClassPart>)
    requires parts != []
    ensures RenderParts(parts) + "]" == RenderPart(parts[0]) + (RenderParts(parts[1..]) + "]")
    ensures Spelled(p, i, RenderParts(parts) + "]") <==>
      Spelled(p, i, RenderPart(parts[0])) &&
      Spelled(p, i + |RenderPart(parts[0])|, RenderParts(parts[1..]) + "]")
  {
    assert RenderParts(parts) + "]" == RenderPart(parts[0]) + (RenderParts(parts[1..]) + "]");
    SpelledAppend(p, i, RenderPart(parts[0]), RenderParts(parts[1..]) + "]");
  }

  lemma {:induction false} AtomSound(p: string, i: nat, key: Keying) returns (a: Atom)
    requires !Stops(p, i) && ReadAtom(p, i, key).Ok?
    ensures WfAtom(a) && AtomNode(a, key) == ReadAtom(p, i, key).value
    ensures Spelled(p, i, RenderAtom(a)) && i + |RenderAtom(a)| == ReadAtom(p, i, key).next
    decreases |p| - i, 0
  {
    match p[i]
    case '.' => a := Dot;
    case '^' => a := Caret;
    case '$' => a := Dollar;
    case '\\' => a := Atom.Escaped(p[i + 1]);
    case '[' => a := BracketSound(p, i);
    case '(' =>
      var branches := AlternationSound(p, i + 1, key);
      a := Group(branches);
      GroupSpelled(p, i, branches);
    case c => a := Atom.Bare(c);
  }

  lemma {:induction false} BracketSound(p: string, i: nat) returns (a: Atom)
    requires At(p, i, '[') && ReadClass(p, i + 1).Ok?
    ensures a.Bracket? && WfAtom(a)
    ensures AddParts(ClassItems({}, [], a.negated), a.parts) == ReadClass(p, i + 1).value
    ensures Spelled(p, i, RenderAtom(a)) && i + |RenderAtom(a)| == ReadClass(p, i + 1).next
  {
    var negated := At(p, i + 1, '^');
    var open := if negated then "[^" else "[";
    var parts := ItemsSound(p, i + |open|, ClassItems({}, [], negated), false);
    a := Bracket(negated, parts);
    BracketSpelled(p, i, negated, parts);
  }

  lemma {:induction false} BracketSpelled(p: string, i: nat, negated: bool, parts: seq<ClassPart>)
    ensures var open := if negated then "[^" else "[";
      && RenderAtom(Bracket(negated, parts)) == open + (RenderParts(parts) + "]")
      && (Spelled(p, i, RenderAtom(Bracket(negated, parts))) <==>
          At(p, i, '[') && (negated ==> At(p, i + 1, '^')) && Spelled(p, i + |open|, RenderParts(parts) + "]"))
  {
    var open := if negated then "[^" else "[";
    assert RenderAtom(Bracket(negated, parts)) == open + (RenderParts(parts) + "]");
    SpelledAppend(p, i, open, RenderParts(parts) + "]");
    SpelledAppend(p, i, "[", "^");
    SpelledChar(p, i, '[');
    SpelledChar(p, i + 1, '^');
    assert "[" + "^" == "[^";
  }

  lemma {:induction false} PieceSound(p: string, i: nat, key: Keying) returns (piece: Piece)
    requires !Stops(p, i) && ReadRepetition(p, i, key).Ok?
    ensures WfPiece(piece) && PieceNode(piece, key) == ReadRepetition(p, i, key).value
    ensures Spelled(p, i, RenderPiece(piece)) && i + |RenderPiece(piece)| == ReadRepetition(p, i, key).next
    decreases |p| - i, 1
  {
    RepetitionRead(p, i, key);
    var atom := AtomSound(p, i, key);
    piece := Piece(atom, QuantifierAt(p, ReadAtom(p, i, key).next));
    SpelledAppend(p, i, RenderAtom(atom), RenderQuantifier(piece.quantifier));
  }

  function QuantifierAt(p: string, k: nat): Quantifier {
    if At(p, k, '*') then ZeroOrMore else if At(p, k, '+') then OneOrMore else if At(p, k, '?') then ZeroOrOne else Once
  }

  lemma {:induction false} RepetitionRead(p: string, i: nat, key: Keying)
    requires i <= |p| && ReadRepetition(p, i, key).Ok?
    ensures var (atom, r) := (ReadAtom(p, i, key), ReadRepetition(p, i, key));
      atom.Ok? && var q := QuantifierAt(p, atom.next);
      r.value == Quantified(q, atom.value) && r.next == atom.next + |RenderQuantifier(q)| && Spelled(p, atom.next, RenderQuantifier(q))
  {
  }

  lemma {:induction false} PiecesSound(p: string, i: nat, key: Keying) returns (pieces: seq<Piece>)
    requires i <= |p| && ReadPieces(p, i, key).Ok?
    ensures WfPieces(pieces) && PieceNodes(pieces, key) == ReadPieces(p, i, key).value
    ensures Spelled(p, i, RenderPieces(pieces)) && i + |RenderPieces(pieces)| == ReadPieces(p, i, key).next
    decreases |p| - i, 2
  {
    if Stops(p, i) {
      return [];
    }
    var piece := PieceSound(p, i, key);
    var rest := PiecesSound(p, ReadRepetition(p, i, key).next, key);
    pieces := [piece] + rest;
    PiecesCons(piece, rest, key);
    SpelledAppend(p, i, RenderPiece(piece), RenderPieces(rest));
  }

  lemma {:induction false} PiecesCons(piece: Piece, rest: seq<Piece>, key: Keying)
    ensures var pieces := [piece] + rest;
      && (WfPieces(pieces) <==> WfPiece(piece) && WfPieces(rest))
      && PieceNodes(pieces, key) == [PieceNode(piece, key)] + PieceNodes(rest, key)
      && RenderPieces(pieces) == RenderPiece(piece) + RenderPieces(rest)
  {
    var pieces := [piece] + rest;
    assert pieces[0] == piece && pieces[1..] == rest;
  }

  lemma {:induction false} BranchesCons(pieces: seq<Piece>, rest: seq<Branch>, key: Keying)
    requires pieces != [] && WfPieces(pieces) && (rest != [] ==> WfBranches(rest))
    ensures var branches := [Branch(pieces)] + rest;
      && WfBranches(branches) && BranchNodes(branches, key) == [Joined(PieceNodes(pieces, key))] + BranchNodes(rest, key)
  {
    var branches := [Branch(pieces)] + rest;
    assert branches[0] == Branch(pieces) && branches[1..] == rest;
  }

  lemma {:induction false} BranchesRead(p: string, i: nat, key: Keying)
    requires At(p, i, '|') && ReadBranches(p, i, key).Ok?
    ensures var r := ReadPieces(p, i + 1, key);
      && r.Ok? && r.value != [] && ReadBranches(p, r.next, key).Ok?
      && ReadBranches(p, i, key).value == [Joined(r.value)] + ReadBranches(p, r.next, key).value
      && ReadBranches(p, i, key).next == ReadBranches(p, r.next, key).next
  {
  }

  lemma {:induction false} BranchesSound(p: string, i: nat, key: Keying) returns (branches: seq<Branch>)
    requires i <= |p| && ReadBranches(p, i, key).Ok?
    ensures branches != [] ==> WfBranches(branches)
    ensures BranchNodes(branches, key) == ReadBranches(p, i, key).value
    ensures Spelled(p, i, RenderTail(branches)) && i + |RenderTail(branches)| == ReadBranches(p, i, key).next
    decreases |p| - i, 4
  {
    if !At(p, i, '|') {
      return [];
    }
    BranchesRead(p, i, key);
    var pieces := PiecesSound(p, i + 1, key);
    var rest := BranchesSound(p, ReadPieces(p, i + 1, key).next, key);
    branches := [Branch(pieces)] + rest;
    BranchesCons(pieces, rest, key);
    TailCons(p, i, pieces, rest);
  }

  lemma {:induction false} TailCons(p: string, i: nat, pieces: seq<Piece>, rest: seq<Branch>)
    requires var k := i + 1 + |RenderPieces(pieces)|;
      At(p, i, '|') && Spelled(p, i + 1, RenderPieces(pieces)) && Spelled(p, k, RenderTail(rest))
    ensures var branches := [Branch(pieces)] + rest;
      Spelled(p, i, RenderTail(branches)) && |RenderTail(branches)| == 1 + |RenderPieces(pieces)| + |RenderTail(rest)|
  {
    var branches := [Branch(pieces)] + rest;
    assert branches[0].pieces == pieces && branches[1..] == rest;
    TailSpelled(p, i, branches);
  }

  lemma {:induction false} AlternationSound(p: string, i: nat, key: Keying) returns (branches: seq<Branch>)
    requires i <= |p| && ReadAlternation(p, i, key).Ok? && !ReadAlternation(p, i, key).value.Empty?
    ensures WfBranches(branches) && PatternNode(branches, key) == ReadAlternation(p, i, key).value
    ensures Spelled(p, i, RenderBranches(branches))
    ensures i + |RenderBranches(branches)| == ReadAlternation(p, i, key).next
    decreases |p| - i, 5
  {
    var pieces := PiecesSound(p, i, key);
    var rest := BranchesSound(p, ReadPieces(p, i, key).next, key);
    branches := [Branch(pieces)] + rest;
    SpelledAppend(p, i, RenderPieces(pieces), RenderTail(rest));
  }

  // ----- Completeness: what is spelled is read

  lemma {:induction false} ClassCharComplete(p: string, i: nat, c: ClassChar)
    requires WfClassChar(c) && Spelled(p, i, RenderChar(c))
    ensures ReadClassChar(p, i) == Ok(CharOf(c), i + |RenderChar(c)|)
    ensures p[i] == RenderChar(c)[0] != ']'
  {
    SpelledStart(p, i, RenderChar(c));
    if c.Escaped? {
      assert RenderChar(c)[1] == p[i + 1];
    }
  }

  lemma {:induction false} ItemComplete(p: string, i: nat, part: ClassPart)
    requires WfPart(part) && Spelled(p, i, RenderPart(part))
    requires var k := i + |RenderPart(part)|; part.Single? && At(p, k, '-') ==> At(p, k + 1, ']')
    ensures p[i] != ']' && ReadItem(p, i) == Ok(ItemOf(part), i + |RenderPart(part)|)
  {
    match part {
      case Through(lo, hi) =>
        ThroughSpelled(p, i, lo, hi);
        ClassCharComplete(p, i, lo);
        ClassCharComplete(p, i + |RenderChar(lo)| + 1, hi);
      case Single(c) =>
        ClassCharComplete(p, i, c);
    }
  }

  lemma {:induction false} ItemsComplete(p: string, i: nat, items: ClassItems, sawItem: bool, parts: seq<ClassPart>)
    requires WfParts(parts) && Spelled(p, i, RenderParts(parts) + "]") && (parts == [] ==> sawItem)
    ensures ReadItems(p, i, items, sawItem) == Ok(AddParts(items, parts), i + |RenderParts(parts)| + 1)
    decreases parts
  {
    if parts == [] {
      assert p[i] == ']' by {
        assert RenderParts(parts) + "]" == "]";
        SpelledChar(p, i, ']');
      }
    } else {
      var k, more := i + |RenderPart(parts[0])|, AddItem(items, ItemOf(parts[0]));
      FirstItemComplete(p, i, parts);
      ItemsComplete(p, k, more, true, parts[1..]);
      ItemsRead(p, i, items, sawItem, ItemOf(parts[0]), k);
    }
  }

  lemma {:induction false} ItemsRead(p: string, i: nat, items: ClassItems, sawItem: bool, item: Item, k: nat)
    requires i < |p| && p[i] != ']' && ReadItem(p, i) == Ok(item, k)
    ensures ReadItems(p, i, items, sawItem) == ReadItems(p, k, AddItem(items, item), true)
  {
  }

  lemma {:induction false} FirstItemComplete(p: string, i: nat, parts: seq<ClassPart>)
    requires parts != [] && WfParts(parts) && Spelled(p, i, RenderParts(parts) + "]")
    ensures p[i] != ']' && ReadItem(p, i) == Ok(ItemOf(parts[0]), i + |RenderPart(parts[0])|)
    ensures Spelled(p, i + |RenderPart(parts[0])|, RenderParts(parts[1..]) + "]")
  {
    PartsSpelled(p, i, parts);
    if parts[0].Single? {
      SingleEnds(p, i + |RenderPart(parts[0])|, parts);
    }
    ItemComplete(p, i, parts[0]);
  }

  /** A '-' after a single character is followed by the closing bracket. */
  lemma {:induction false} SingleEnds(p: string, k: nat, parts: seq<ClassPart>)
    requires parts != [] && parts[0].Single? && WfParts(parts)
    requires Spelled(p, k, RenderParts(parts[1..]) + "]")
    ensures p[k] == '-' ==> k + 1 < |p| && p[k + 1] == ']'
  {
    var rest := parts[1..];
    var r := RenderParts(rest) + "]";
    SpelledStart(p, k, r);
    if p[k] == '-' {
      assert rest != [];
      assert r[0] == RenderPart(rest[0])[0] == RenderChar(First(rest[0]))[0];
      assert First(parts[1]) == ClassChar.Bare('-');
      assert rest == [Single(ClassChar.Bare('-'))];
      assert RenderParts(rest[1..]) == "";
      assert RenderParts(rest) == RenderPart(rest[0]) + RenderParts(rest[1..]) == "-";
      assert r[1] == p[k + 1];
    }
  }

  lemma {:induction false} AtomComplete(p: string, i: nat, a: Atom, key: Keying)
    requires WfAtom(a) && Spelled(p, i, RenderAtom(a))
    ensures ReadAtom(p, i, key) == Ok(AtomNode(a, key), i + |RenderAtom(a)|)
    decreases a
  {
    SpelledStart(p, i, RenderAtom(a));
    match a
    case Escaped(code) =>
      assert RenderAtom(a)[1] == p[i + 1];
    case Bracket(negated, parts) => BracketComplete(p, i, negated, parts);
    case Group(branches) =>
      GroupSpelled(p, i, branches);
      AlternationComplete(p, i + 1, branches, key);
      PatternNodeSolid(branches, key);
    case _ =>
  }

  lemma {:induction false} GroupSpelled(p: string, i: nat, branches: seq<Branch>)
    ensures Spelled(p, i, RenderAtom(Group(branches))) <==>
      At(p, i, '(') && Spelled(p, i + 1, RenderBranches(branches)) && At(p, i + 1 + |RenderBranches(branches)|, ')')
  {
    SpelledAppend(p, i, "(" + RenderBranches(branches), ")");
    SpelledAppend(p, i, "(", RenderBranches(branches));
    SpelledChar(p, i, '(');
    SpelledChar(p, i + 1 + |RenderBranches(branches)|, ')');
  }

  lemma {:induction false} BracketComplete(p: string, i: nat, negated: bool, parts: seq<ClassPart>)
    requires WfAtom(Bracket(negated, parts)) && Spelled(p, i, RenderAtom(Bracket(negated, parts)))
    ensures ReadClass(p, i + 1) ==
      Ok(AddParts(ClassItems({}, [], negated), parts), i + |RenderAtom(Bracket(negated, parts))|)
  {
    var open := if negated then "[^" else "[";
    BracketSpelled(p, i, negated, parts);
    ItemsComplete(p, i + |open|, ClassItems({}, [], negated), false, parts);
    if !negated {
      SpelledStart(p, i + 1, RenderParts(parts) + "]");
      assert (RenderParts(parts) + "]")[0] == RenderChar(First(parts[0]))[0];
    }
  }

  lemma {:induction false} PieceStart(piece: Piece)
    requires WfPiece(piece)
    ensures RenderPiece(piece) != "" && !IsQuantifier(RenderPiece(piece)[0])
    ensures RenderPiece(piece)[0] != ')' && RenderPiece(piece)[0] != '|'
  {
    assert RenderAtom(piece.atom) != "";
  }

  lemma {:induction false} PieceComplete(p: string, i: nat, piece: Piece, key: Keying)
    requires WfPiece(piece) && Spelled(p, i, RenderPiece(piece)) && !AtQuantifier(p, i + |RenderPiece(piece)|)
    ensures ReadRepetition(p, i, key) == Ok(PieceNode(piece, key), i + |RenderPiece(piece)|)
    decreases piece
  {
    SpelledAppend(p, i, RenderAtom(piece.atom), RenderQuantifier(piece.quantifier));
    AtomComplete(p, i, piece.atom, key);
    var k := i + |RenderAtom(piece.atom)|;
    QuantifierSpelled(p, k, piece.quantifier);
    QuantifierReads(p, i, key, AtomNode(piece.atom, key), k, piece.quantifier);
  }

  lemma {:induction false} QuantifierSpelled(p: string, k: nat, q: Quantifier)
    requires Spelled(p, k, RenderQuantifier(q)) && !AtQuantifier(p, k + |RenderQuantifier(q)|)
    ensures QuantifierAt(p, k) == q
  {
    if !q.Once? {
      SpelledStart(p, k, RenderQuantifier(q));
    }
  }

  lemma {:induction false} QuantifierReads(p: string, i: nat, key: Keying, n: Node, k: nat, q: Quantifier)
    requires i <= |p| && ReadAtom(p, i, key) == Ok(n, k) && QuantifierAt(p, k) == q && !AtQuantifier(p, k + |RenderQuantifier(q)|)
    ensures ReadRepetition(p, i, key) == Ok(Quantified(q, n), k + |RenderQuantifier(q)|)
  {
  }

  lemma {:induction false} PiecesComplete(p: string, i: nat, pieces: seq<Piece>, key: Keying)
    requires WfPieces(pieces) && Spelled(p, i, RenderPieces(pieces)) && Stops(p, i + |RenderPieces(pieces)|)
    ensures ReadPieces(p, i, key) == Ok(PieceNodes(pieces, key), i + |RenderPieces(pieces)|)
    decreases pieces, 0
  {
    if pieces != [] {
      var k := i + |RenderPiece(pieces[0])|;
      PiecesBegin(p, i, pieces, key);
      PieceComplete(p, i, pieces[0], key);
      PiecesComplete(p, k, pieces[1..], key);
      PiecesRead(p, i, key, PieceNode(pieces[0], key), k, PieceNodes(pieces[1..], key), k + |RenderPieces(pieces[1..])|);
    }
  }

  lemma {:induction false} PiecesBegin(p: string, i: nat, pieces: seq<Piece>, key: Keying)
    requires pieces != [] && WfPieces(pieces) && Spelled(p, i, RenderPieces(pieces)) && Stops(p, i + |RenderPieces(pieces)|)
    ensures WfPiece(pieces[0]) && WfPieces(pieces[1..]) && i <= |p| && !Stops(p, i)
    ensures PieceNodes(pieces, key) == [PieceNode(pieces[0], key)] + PieceNodes(pieces[1..], key)
    ensures var k := i + |RenderPiece(pieces[0])|;
      && i + |RenderPieces(pieces)| == k + |RenderPieces(pieces[1..])| && !AtQuantifier(p, k)
      && Spelled(p, i, RenderPiece(pieces[0])) && Spelled(p, k, RenderPieces(pieces[1..]))
  {
    PiecesHead(p, i, pieces, key);
    PiecesStart(p, i, pieces);
    PiecesStart(p, i + |RenderPiece(pieces[0])|, pieces[1..]);
  }

  lemma {:induction false} PiecesHead(p: string, i: nat, pieces: seq<Piece>, key: Keying)
    requires pieces != [] && WfPieces(pieces)
    ensures WfPiece(pieces[0]) && WfPieces(pieces[1..])
    ensures PieceNodes(pieces, key) == [PieceNode(pieces[0], key)] + PieceNodes(pieces[1..], key)
    ensures var k := i + |RenderPiece(pieces[0])|;
      && i + |RenderPieces(pieces)| == k + |RenderPieces(pieces[1..])|
      && (Spelled(p, i, RenderPieces(pieces)) <==> Spelled(p, i, RenderPiece(pieces[0])) && Spelled(p, k, RenderPieces(pieces[1..])))
  {
    PiecesCons(pieces[0], pieces[1..], key);
    assert pieces == [pieces[0]] + pieces[1..];
    SpelledAppend(p, i, RenderPiece(pieces[0]), RenderPieces(pieces[1..]));
  }

  lemma {:induction false} PiecesRead(p: string, i: nat, key: Keying, n: Node, k: nat, rest: seq<Node>, m: nat)
    requires i <= |p| && !Stops(p, i) && ReadRepetition(p, i, key) == Ok(n, k) && ReadPieces(p, k, key) == Ok(rest, m)
    ensures ReadPieces(p, i, key) == Ok([n] + rest, m)
  {
  }

  /** Pieces never start with a quantifier, nor where a sequence stops. */
  lemma {:induction false} PiecesStart(p: string, i: nat, pieces: seq<Piece>)
    requires WfPieces(pieces) && Spelled(p, i, RenderPieces(pieces)) && Stops(p, i + |RenderPieces(pieces)|)
    ensures !AtQuantifier(p, i) && (Stops(p, i) <==> pieces == [])
  {
    if pieces != [] {
      assert WfPiece(pieces[0]);
      PieceStart(pieces[0]);
      SpelledStart(p, i, RenderPieces(pieces));
    }
  }

  lemma {:induction false} SequenceComplete(p: string, i: nat, pieces: seq<Piece>, key: Keying)
    requires pieces != [] && WfPieces(pieces) && Spelled(p, i, RenderPieces(pieces)) && Stops(p, i + |RenderPieces(pieces)|)
    ensures ReadSequence(p, i, key) == Ok(Joined(PieceNodes(pieces, key)), i + |RenderPieces(pieces)|)
    ensures !Joined(PieceNodes(pieces, key)).Empty?
    decreases pieces, 1
  {
    PiecesComplete(p, i, pieces, key);
    assert WfPiece(pieces[0]);
    PieceStart(pieces[0]);
  }

  lemma {:induction false} BranchesComplete(p: string, i: nat, branches: seq<Branch>, key: Keying)
    requires branches != [] ==> WfBranches(branches)
    requires Spelled(p, i, RenderTail(branches))
    requires var j := i + |RenderTail(branches)|; Stops(p, j) && !At(p, j, '|')
    ensures ReadBranches(p, i, key) == Ok(BranchNodes(branches, key), i + |RenderTail(branches)|)
    decreases branches
  {
    if branches != [] {
      var pieces, rest := branches[0].pieces, branches[1..];
      var k := i + 1 + |RenderPieces(pieces)|;
      TailSpelled(p, i, branches);
      TailStops(p, k, rest);
      SequenceComplete(p, i + 1, pieces, key);
      BranchesComplete(p, k, rest, key);
    }
  }

  lemma {:induction false} TailSpelled(p: string, i: nat, branches: seq<Branch>)
    requires branches != []
    ensures var k := i + 1 + |RenderPieces(branches[0].pieces)|;
      && i + |RenderTail(branches)| == k + |RenderTail(branches[1..])|
      && (Spelled(p, i, RenderTail(branches)) <==>
          At(p, i, '|') && Spelled(p, i + 1, RenderPieces(branches[0].pieces)) && Spelled(p, k, RenderTail(branches[1..])))
  {
    BarSpelled(p, i, RenderPieces(branches[0].pieces), RenderTail(branches[1..]));
  }

  lemma {:induction false} BarSpelled(p: string, i: nat, a: string, b: string)
    ensures Spelled(p, i, "|" + a + b) <==> At(p, i, '|') && Spelled(p, i + 1, a) && Spelled(p, i + 1 + |a|, b)
  {
    SpelledAppend(p, i, "|" + a, b);
    SpelledAppend(p, i, "|", a);
    SpelledChar(p, i, '|');
  }

  lemma {:induction false} TailStops(p: string, k: nat, branches: seq<Branch>)
    requires Spelled(p, k, RenderTail(branches)) && Stops(p, k + |RenderTail(branches)|)
    ensures Stops(p, k)
  {
    if branches != [] {
      SpelledStart(p, k, RenderTail(branches));
    }
  }

  lemma {:induction false} AlternationReads(p: string, i: nat, key: Keying, n: Node, k: nat, rest: seq<Node>, m: nat)
    requires i <= |p| && ReadSequence(p, i, key) == Ok(n, k) && !n.Empty? && ReadBranches(p, k, key) == Ok(rest, m)
    ensures ReadAlternation(p, i, key) == Ok(Either([n] + rest), m)
  {
  }

  lemma {:induction false} AlternationComplete(p: string, i: nat, branches: seq<Branch>, key: Keying)
    requires WfBranches(branches) && Spelled(p, i, RenderBranches(branches))
    requires var j := i + |RenderBranches(branches)|; Stops(p, j) && !At(p, j, '|')
    ensures ReadAlternation(p, i, key) == Ok(PatternNode(branches, key), i + |RenderBranches(branches)|)
    decreases branches
  {
    var pieces, rest := branches[0].pieces, branches[1..];
    SpelledAppend(p, i, RenderPieces(pieces), RenderTail(rest));
    var k := i + |RenderPieces(pieces)|;
    TailStops(p, k, rest);
    SequenceComplete(p, i, pieces, key);
    BranchesComplete(p, k, rest, key);
    AlternationReads(p, i, key, Joined(PieceNodes(pieces, key)), k, BranchNodes(rest, key), k + |RenderTail(rest)|);
  }

  // ----- Shape of the node

  lemma {:induction false} AtomNodeSolid(a: Atom, key: Keying)
    requires WfAtom(a)
    ensures Solid(AtomNode(a, key)) && Size(AtomNode(a, key)) <= |RenderAtom(a)|
    decreases a
  {
    if a.Group? {
      PatternNodeSolid(a.branches, key);
    }
  }

  lemma {:induction false} PieceNodesSolid(pieces: seq<Piece>, key: Keying)
    requires WfPieces(pieces)
    ensures SolidAll(PieceNodes(pieces, key)) && SizeAll(PieceNodes(pieces, key)) <= |RenderPieces(pieces)|
    decreases pieces
  {
    if pieces != [] {
      PieceNodeSolid(pieces[0], key);
      PieceNodesSolid(pieces[1..], key);
      ConsSolid(PieceNodes(pieces, key), PieceNode(pieces[0], key), PieceNodes(pieces[1..], key));
    }
  }

  lemma {:induction false} PieceNodeSolid(piece: Piece, key: Keying)
    requires WfPiece(piece)
    ensures Solid(PieceNode(piece, key)) && Size(PieceNode(piece, key)) <= |RenderPiece(piece)|
    decreases piece
  {
    AtomNodeSolid(piece.atom, key);
  }

  lemma {:induction false} BranchNodesSolid(branches: seq<Branch>, key: Keying)
    requires branches != [] ==> WfBranches(branches)
    ensures SolidAll(BranchNodes(branches, key))
    ensures SizeAll(BranchNodes(branches, key)) + |branches| <= |RenderTail(branches)|
    decreases branches
  {
    if branches != [] {
      var pieces := branches[0].pieces;
      PieceNodesSolid(pieces, key);
      JoinedSolid(PieceNodes(pieces, key));
      BranchNodesSolid(branches[1..], key);
      ConsSolid(BranchNodes(branches, key), Joined(PieceNodes(pieces, key)), BranchNodes(branches[1..], key));
    }
  }

  lemma {:induction false} JoinedSolid(nodes: seq<Node>)
    requires nodes != [] && SolidAll(nodes)
    ensures Solid(Joined(nodes)) && Size(Joined(nodes)) == SizeAll(nodes)
  {
    if |nodes| == 1 {
      assert Front(nodes) == [];
    }
  }

  lemma {:induction false} ConsSolid(nodes: seq<Node>, head: Node, rest: seq<Node>)
    requires nodes == [head] + rest && Solid(head) && SolidAll(rest)
    ensures SolidAll(nodes) && SizeAll(nodes) == Size(head) + SizeAll(rest)
  {
    SizeAllFirst(nodes);
    assert nodes[1..] == rest;
  }

  /** No empty node anywhere, and no more states than the pattern has characters. */
  lemma {:induction false} PatternNodeSolid(branches: seq<Branch>, key: Keying)
    requires WfBranches(branches)
    ensures Solid(PatternNode(branches, key)) && Size(PatternNode(branches, key)) <= |RenderBranches(branches)|
    decreases branches
  {
    var pieces := branches[0].pieces;
    PieceNodesSolid(pieces, key);
    JoinedSolid(PieceNodes(pieces, key));
    BranchNodesSolid(branches[1..], key);
    ConsSolid(BranchNodes(branches, key), Joined(PieceNodes(pieces, key)), BranchNodes(branches[1..], key));
    if |branches| == 1 {
      assert branches[1..] == [];
      assert BranchNodes(branches[1..], key) == [];
    }
  }

  // ----- The parser decides the grammar

  ghost predicate Spells(branches: seq<Branch>, p: string) {
    WfBranches(branches) && RenderBranches(branches) == p
  }

  /** A non-empty pattern is accepted exactly when it spells some tree; whatever
      tree it spells, the result is that tree's node. */
  lemma {:induction false} ParserDecidesGrammar(p: string, key: Keying)
    requires p != ""
    ensures ReadPattern(p, key).Ok? <==> exists branches :: Spells(branches, p)
    ensures forall branches :: Spells(branches, p) ==> ReadPattern(p, key) == Ok(PatternNode(branches, key), |p|)
  {
    forall branches | Spells(branches, p)
      ensures ReadPattern(p, key) == Ok(PatternNode(branches, key), |p|)
    {
      AlternationComplete(p, 0, branches, key);
    }
    if ReadPattern(p, key).Ok? {
      var branches := AlternationSound(p, 0, key);
      assert RenderBranches(branches) == p;
      assert Spells(branches, p);
    }
  }

  /** Every accepted pattern compiles within its own length. */
  lemma {:induction false} ParsedIsSolid(p: string, key: Keying)
    requires p != "" && ReadPattern(p, key).Ok?
    ensures Solid(ReadPattern(p, key).value) && Size(ReadPattern(p, key).value) <= |p|
  {
    ParserDecidesGrammar(p, key);
    var branches :| Spells(branches, p);
    PatternNodeSolid(branches, key);
  }
}
