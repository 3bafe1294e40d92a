/** The pattern language: abstract syntax, its meaning, and its concrete grammar. */
module RegexSyntax {
  import opened CharSets

  datatype Node =
    | Empty
    | Literal(c: char)
    | AnyChar
    | Class(chars: CharSet)
    | Start
    | End
    | Concat(parts: seq<Node>)
    | Alt(branches: seq<Node>)
    | Star(body: Node)
    | Plus(body: Node)
    | Optional(body: Node)

  function Front(nodes: seq<Node>): seq<Node>
    requires nodes != []
  {
    nodes[..|nodes| - 1]
  }

  function Last(nodes: seq<Node>): Node
    requires nodes != []
  {
    nodes[|nodes| - 1]
  }

  // ----- Meaning

  /** `text[i..j]` is an instance of `n`; the anchors look at the whole text. */
  ghost predicate Spans(n: Node, key: Keying, text: string, i: int, j: int)
    decreases n, 0, i
  {
    0 <= i <= j <= |text| &&
    match n
    case Empty => i == j
    case Literal(c) => j == i + 1 && key(c) == key(text[i])
    case AnyChar => j == i + 1
    case Class(chars) => j == i + 1 && chars.Matches(key(text[i]))
    case Start => i == j == 0
    case End => i == j == |text|
    case Concat(parts) => SpansAll(parts, key, text, i, j)
    case Alt(branches) => SpansAny(branches, key, text, i, j)
    case Star(body) => exists k: nat :: Repeats(body, key, text, k, i, j)
    case Plus(body) => exists k: nat :: k > 0 && Repeats(body, key, text, k, i, j)
    case Optional(body) => i == j || Spans(body, key, text, i, j)
  }

  ghost predicate SpansAll(parts: seq<Node>, key: Keying, text: string, i: int, j: int)
    decreases parts, 0, i
  {
    0 <= i <= j <= |text| &&
    if parts == [] then i == j
    else exists m :: SpansAll(Front(parts), key, text, i, m) && Spans(Last(parts), key, text, m, j)
  }

  ghost predicate SpansAny(branches: seq<Node>, key: Keying, text: string, i: int, j: int)
    decreases branches, 0, i
  {
    exists b :: 0 <= b < |branches| && Spans(branches[b], key, text, i, j)
  }

  /** `k` instances of `body`, one after the other. */
  ghost predicate Repeats(body: Node, key: Keying, text: string, k: nat, i: int, j: int)
    decreases body, k + 1
  {
    0 <= i <= j <= |text| &&
    if k == 0 then i == j
    else exists m :: Spans(body, key, text, i, m) && Repeats(body, key, text, k - 1, m, j)
  }

  /** Some substring of the text is an instance of `n`. */
  ghost predicate Occurs(n: Node, key: Keying, text: string) {
    exists i, j :: Spans(n, key, text, i, j)
  }

  // ----- Grammar

  datatype Quantifier = Once | ZeroOrMore | OneOrMore | ZeroOrOne

  /** One character of a class: itself, or a backslash and a code letter. */
  datatype ClassChar = Bare(c: char) | Escaped(code: char)

  datatype ClassPart = Single(c: ClassChar) | Through(lo: ClassChar, hi: ClassChar)

  datatype Atom =
    | Dot
    | Caret
    | Dollar
    | Bare(c: char)
    | Escaped(code: char)
    | Bracket(negated: bool, parts: seq<ClassPart>)
    | Group(branches: seq<Branch>)

  datatype Piece = Piece(atom: Atom, quantifier: Quantifier)

  /** A branch of an alternation: a juxtaposition of pieces. */
  datatype Branch = Branch(pieces: seq<Piece>)

  predicate IsQuantifier(c: char) {
    c == '*' || c == '+' || c == '?'
  }

  /** Characters that a backslash may quote. */
  predicate IsQuotable(c: char) {
    || c == '\\' || c == '.' || c == '^' || c == '$' || c == '|' || IsQuantifier(c)
    || c == '(' || c == ')' || c == '[' || c == ']' || c == '{' || c == '}' || c == '-'
  }

  predicate IsCode(c: char) {
    c == 'n' || c == 'r' || c == 't' || IsQuotable(c)
  }

  /** Characters that stand for themselves outside a class. */
  predicate IsPlain(c: char) {
    !IsQuotable(c) || c == '-'
  }

  function Decode(code: char): char {
    match code
    case 'n' => '\n'
    case 'r' => '\r'
    case 't' => '\t'
    case _ => code
  }

  ghost predicate WfClassChar(c: ClassChar) {
    match c
    case Bare(c) => c != ']' && c != '\\'
    case Escaped(code) => IsCode(code)
  }

  function CharOf(c: ClassChar): char {
    match c
    case Bare(c) => c
    case Escaped(code) => Decode(code)
  }

  function First(p: ClassPart): ClassChar {
    match p
    case Single(c) => c
    case Through(lo, _) => lo
  }

  ghost predicate WfPart(p: ClassPart) {
    match p
    case Single(c) => WfClassChar(c)
    case Through(lo, hi) => WfClassChar(lo) && WfClassChar(hi) && CharOf(lo) <= CharOf(hi)
  }

  /** A bare '-' after a single character reads as a range unless it closes the class. */
  ghost predicate WfParts(parts: seq<ClassPart>) {
    parts != [] ==>
    && WfPart(parts[0])
    && WfParts(parts[1..])
    && (parts[0].Single? && |parts| > 1 && First(parts[1]) == ClassChar.Bare('-') ==>
        |parts| == 2 && parts[1].Single?)
  }

  ghost predicate WfAtom(a: Atom)
    decreases a
  {
    match a
    case Bare(c) => IsPlain(c)
    case Escaped(code) => IsCode(code)
    case Bracket(negated, parts) =>
      parts != [] && WfParts(parts) && (!negated ==> First(parts[0]) != ClassChar.Bare('^'))
    case Group(branches) => WfBranches(branches)
    case _ => true
  }

  ghost predicate WfPieces(pieces: seq<Piece>)
    decreases pieces
  {
    forall p :: p in pieces ==> WfPiece(p)
  }

  ghost predicate WfPiece(p: Piece)
    decreases p
  {
    WfAtom(p.atom)
  }

  ghost predicate WfBranches(branches: seq<Branch>)
    decreases branches
  {
    branches != [] && forall b :: b in branches ==> b.pieces != [] && WfPieces(b.pieces)
  }

  function RenderChar(c: ClassChar): string {
    match c
    case Bare(c) => [c]
    case Escaped(code) => ['\\', code]
  }

  function RenderPart(p: ClassPart): string {
    match p
    case Single(c) => RenderChar(c)
    case Through(lo, hi) => RenderChar(lo) + "-" + RenderChar(hi)
  }

  function RenderParts(parts: seq<ClassPart>): string {
    if parts == [] then "" else RenderPart(parts[0]) + RenderParts(parts[1..])
  }

  function RenderQuantifier(q: Quantifier): string {
    match q
    case Once => ""
    case ZeroOrMore => "*"
    case OneOrMore => "+"
    case ZeroOrOne => "?"
  }

  function RenderAtom(a: Atom): string
    decreases a
  {
    match a
    case Dot => "."
    case Caret => "^"
    case Dollar => "$"
    case Bare(c) => [c]
    case Escaped(code) => ['\\', code]
    case Bracket(negated, parts) => (if negated then "[^" else "[") + RenderParts(parts) + "]"
    case Group(branches) => "(" + RenderBranches(branches) + ")"
  }

  function RenderPieces(pieces: seq<Piece>): string
    decreases pieces
  {
    if pieces == [] then ""
    else RenderPiece(pieces[0]) + RenderPieces(pieces[1..])
  }

  function RenderPiece(p: Piece): string
    decreases p
  {
    RenderAtom(p.atom) + RenderQuantifier(p.quantifier)
  }

  /** The branches separated by bars. */
  function RenderBranches(branches: seq<Branch>): string
    decreases branches
  {
    if branches == [] then ""
    else RenderPieces(branches[0].pieces) + RenderTail(branches[1..])
  }

  function RenderTail(branches: seq<Branch>): string
    decreases branches
  {
    if branches == [] then ""
    else "|" + RenderPieces(branches[0].pieces) + RenderTail(branches[1..])
  }

  // ----- From grammar to abstract syntax

  /** One item of a class: a character or a range of characters. */
  datatype Item = One(c: char) | Range(lo: char, hi: char)

  function ItemOf(p: ClassPart): Item {
    match p
    case Single(c) => One(CharOf(c))
    case Through(lo, hi) => Range(CharOf(lo), CharOf(hi))
  }

  function AddItem(items: ClassItems, item: Item): ClassItems {
    match item
    case One(c) => items.(literals := items.literals + {c})
    case Range(lo, hi) => items.(ranges := items.ranges + [(lo, hi)])
  }

  function AddParts(items: ClassItems, parts: seq<ClassPart>): ClassItems
    decreases parts, items
  {
    if parts == [] then items else AddParts(AddItem(items, ItemOf(parts[0])), parts[1..])
  }

  function Quantified(q: Quantifier, n: Node): Node {
    match q
    case Once => n
    case ZeroOrMore => Star(n)
    case OneOrMore => Plus(n)
    case ZeroOrOne => Optional(n)
  }

  /** A sequence of no nodes is empty, of one node is that node. */
  function Joined(nodes: seq<Node>): Node {
    if nodes == [] then Empty else if |nodes| == 1 then nodes[0] else Concat(nodes)
  }

  function Either(nodes: seq<Node>): Node
    requires nodes != []
  {
    if |nodes| == 1 then nodes[0] else Alt(nodes)
  }

  function AtomNode(a: Atom, key: Keying): Node
    decreases a, key
  {
    match a
    case Dot => AnyChar
    case Caret => Start
    case Dollar => End
    case Bare(c) => Literal(c)
    case Escaped(code) => Literal(Decode(code))
    case Bracket(negated, parts) => Class(Compiled(AddParts(ClassItems({}, [], negated), parts), key))
    case Group(branches) => if branches == [] then Empty else Either(BranchNodes(branches, key))
  }

  function PieceNodes(pieces: seq<Piece>, key: Keying): (r: seq<Node>)
    ensures |r| == |pieces|
    decreases pieces, key
  {
    if pieces == [] then []
    else [PieceNode(pieces[0], key)] + PieceNodes(pieces[1..], key)
  }

  function PieceNode(p: Piece, key: Keying): Node
    decreases p, key
  {
    Quantified(p.quantifier, AtomNode(p.atom, key))
  }

  function BranchNodes(branches: seq<Branch>, key: Keying): (r: seq<Node>)
    ensures |r| == |branches|
    decreases branches, key
  {
    if branches == [] then []
    else [Joined(PieceNodes(branches[0].pieces, key))] + BranchNodes(branches[1..], key)
  }

  /** The node of a whole pattern. */
  function PatternNode(branches: seq<Branch>, key: Keying): Node
    requires branches != []
  {
    Either(BranchNodes(branches, key))
  }

  // ----- Shape

  /** How many automaton states a node needs. */
  function Size(n: Node): nat
    decreases n
  {
    match n
    case Concat(parts) => SizeAll(parts)
    case Alt(branches) => SizeAll(branches) + (if |branches| > 0 then |branches| - 1 else 0)
    case Star(body) => Size(body) + 1
    case Plus(body) => Size(body) + 1
    case Optional(body) => Size(body) + 1
    case _ => 1
  }

  function SizeAll(nodes: seq<Node>): nat
    decreases nodes
  {
    if nodes == [] then 0 else SizeAll(Front(nodes)) + Size(Last(nodes))
  }

  lemma {:induction false} SizeAllFirst(nodes: seq<Node>)
    requires nodes != []
    ensures SizeAll(nodes) == Size(nodes[0]) + SizeAll(nodes[1..])
  {
    if |nodes| > 1 {
      assert Front(nodes)[1..] == Front(nodes[1..]);
      SizeAllFirst(Front(nodes));
    }
  }

  /** What the parser delivers: no empty node, at least two parts or branches, valid classes. */
  predicate Solid(n: Node)
    decreases n
  {
    match n
    case Empty => false
    case Concat(parts) => |parts| >= 2 && SolidAll(parts)
    case Alt(branches) => |branches| >= 2 && SolidAll(branches)
    case Star(body) => Solid(body)
    case Plus(body) => Solid(body)
    case Optional(body) => Solid(body)
    case _ => true
  }

  predicate SolidAll(nodes: seq<Node>)
    decreases nodes
  {
    forall k :: 0 <= k < |nodes| ==> Solid(nodes[k])
  }

  /** What the builder needs: every concatenation has a part, every alternation a branch. */
  predicate Shaped(n: Node)
    decreases n
  {
    match n
    case Concat(parts) => parts != [] && ShapedAll(parts)
    case Alt(branches) => branches != [] && ShapedAll(branches)
    case Star(body) => Shaped(body)
    case Plus(body) => Shaped(body)
    case Optional(body) => Shaped(body)
    case _ => true
  }

  predicate ShapedAll(nodes: seq<Node>)
    decreases nodes
  {
    forall k :: 0 <= k < |nodes| ==> Shaped(nodes[k])
  }

  lemma {:induction false} SolidShaped(n: Node)
    requires Solid(n)
    ensures Shaped(n)
    decreases n
  {
    match n
    case Concat(parts) =>
      forall k | 0 <= k < |parts| ensures Shaped(parts[k]) { SolidShaped(parts[k]); }
    case Alt(branches) =>
      forall k | 0 <= k < |branches| ensures Shaped(branches[k]) { SolidShaped(branches[k]); }
    case Star(body) => SolidShaped(body);
    case Plus(body) => SolidShaped(body);
    case Optional(body) => SolidShaped(body);
    case _ =>
  }
}
