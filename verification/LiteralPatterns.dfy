/** The literal fast path: patterns that are plain text between optional anchors. */
module LiteralPatterns {
  import opened CharSets
  import opened RegexSyntax
  import opened Nfa
  import opened Wrappers

  datatype LiteralPattern = LiteralPattern(needle: string, anchoredStart: bool, anchoredEnd: bool)

  function Parts(n: Node): seq<Node> {
    if n.Concat? then n.parts else [n]
  }

  predicate AllLiterals(nodes: seq<Node>) {
    forall n :: n in nodes ==> n.Literal?
  }

  function Text(nodes: seq<Node>): string
    requires AllLiterals(nodes)
  {
    if nodes == [] then "" else Text(Front(nodes)) + [Last(nodes).c]
  }

  predicate AnchoredStart(nodes: seq<Node>) {
    nodes != [] && nodes[0].Start?
  }

  predicate AnchoredEnd(nodes: seq<Node>) {
    nodes != [] && nodes[|nodes| - 1].End?
  }

  function WithoutStart(nodes: seq<Node>): seq<Node> {
    if AnchoredStart(nodes) then nodes[1..] else nodes
  }

  function WithoutEnd(nodes: seq<Node>): seq<Node> {
    if AnchoredEnd(nodes) then nodes[..|nodes| - 1] else nodes
  }

  /** `_extract_literal_pattern`. */
  function ExtractLiteral(n: Node): Option<LiteralPattern> {
    var rest := WithoutStart(Parts(n));
    var body := WithoutEnd(rest);
    if AllLiterals(body) then Some(LiteralPattern(Text(body), AnchoredStart(Parts(n)), AnchoredEnd(rest))) else None
  }

  /** The needle reads, key by key, at position `i`. */
  ghost predicate ReadsAt(needle: string, key: Keying, text: string, i: int) {
    0 <= i && i + |needle| <= |text| && forall k :: 0 <= k < |needle| ==> key(needle[k]) == key(text[i + k])
  }

  ghost predicate FoundAt(p: LiteralPattern, key: Keying, text: string, i: int) {
    && ReadsAt(p.needle, key, text, i)
    && (p.anchoredStart ==> i == 0)
    && (p.anchoredEnd ==> i + |p.needle| == |text|)
  }

  lemma {:induction false} ReadsStep(needle: string, c: char, key: Keying, text: string, i: int)
    ensures ReadsAt(needle + [c], key, text, i) <==>
      ReadsAt(needle, key, text, i) && i + |needle| < |text| && key(c) == key(text[i + |needle|])
  {
    var longer := needle + [c];
    assert longer[|needle|] == c;
    assert forall k :: 0 <= k < |needle| ==> longer[k] == needle[k];
  }

  /** The last part of a sequence spans the characters behind the others. */
  lemma {:induction false} LastStep(front: seq<Node>, last: Node, key: Keying, text: string, i: int, j: int)
    requires last.Literal? || last.End? || last.Start?
    ensures var m := if last.Literal? then j - 1 else j;
      SpansAll(front + [last], key, text, i, j) <==> SpansAll(front, key, text, i, m) && Spans(last, key, text, m, j)
  {
    var all := front + [last];
    assert Front(all) == front && Last(all) == last;
    assert SpansAll(all, key, text, i, j) <==>
      0 <= i <= j <= |text| && exists m :: SpansAll(Front(all), key, text, i, m) && Spans(Last(all), key, text, m, j);
  }

  lemma {:induction false} Reassociate(head: seq<Node>, front: seq<Node>, last: Node, whole: seq<Node>)
    requires whole == front + [last]
    ensures head + whole == (head + front) + [last]
  {
  }

  function Opening(anchored: bool): seq<Node> {
    if anchored then [Node.Start] else []
  }

  lemma {:induction false} OpeningSpans(anchored: bool, key: Keying, text: string, i: int, j: int)
    ensures SpansAll(Opening(anchored), key, text, i, j) <==> 0 <= i == j <= |text| && (anchored ==> i == 0)
  {
    if anchored {
      assert Opening(true) == [] + [Node.Start];
      LastStep([], Node.Start, key, text, i, j);
    }
  }

  lemma {:induction false} LiteralsSpan(nodes: seq<Node>, anchored: bool, key: Keying, text: string, i: int, j: int)
    requires AllLiterals(nodes)
    ensures SpansAll(Opening(anchored) + nodes, key, text, i, j) <==>
      ReadsAt(Text(nodes), key, text, i) && j == i + |Text(nodes)| && (anchored ==> i == 0)
  {
    if nodes == [] {
      assert Opening(anchored) + nodes == Opening(anchored);
      OpeningSpans(anchored, key, text, i, j);
    } else {
      var front, last := Front(nodes), Last(nodes);
      assert last in nodes;
      Reassociate(Opening(anchored), front, last, nodes);
      LastStep(Opening(anchored) + front, last, key, text, i, j);
      LiteralsSpan(front, anchored, key, text, i, j - 1);
      ReadsStep(Text(front), last.c, key, text, i);
    }
  }

  /** A row of parts with the closing anchor behind it. */
  function Closed(row: seq<Node>, anchored: bool): seq<Node> {
    if anchored then row + [Node.End] else row
  }

  /** Plain text between optional anchors, as a row of parts. */
  lemma {:induction false} RowSpans(row: seq<Node>, body: seq<Node>, anchoredStart: bool, anchoredEnd: bool, key: Keying, text: string, i: int, j: int)
    requires AllLiterals(body) && row == Opening(anchoredStart) + body
    ensures SpansAll(Closed(row, anchoredEnd), key, text, i, j) <==>
      FoundAt(LiteralPattern(Text(body), anchoredStart, anchoredEnd), key, text, i) && j == i + |Text(body)|
  {
    LiteralsSpan(body, anchoredStart, key, text, i, j);
    if anchoredEnd {
      LastStep(row, Node.End, key, text, i, j);
    }
  }

  lemma {:induction false} StartRemoved(nodes: seq<Node>)
    ensures nodes == Opening(AnchoredStart(nodes)) + WithoutStart(nodes)
  {
  }

  lemma {:induction false} EndRemoved(nodes: seq<Node>)
    ensures nodes == Closed(WithoutEnd(nodes), AnchoredEnd(nodes))
  {
  }

  lemma {:induction false} ClosedBehind(opening: seq<Node>, row: seq<Node>, anchored: bool)
    ensures opening + Closed(row, anchored) == Closed(opening + row, anchored)
  {
  }

  /** A row is its parts without the anchors between the anchors. */
  lemma {:induction false} AnchorsRemoved(nodes: seq<Node>, rest: seq<Node>, body: seq<Node>)
    requires rest == WithoutStart(nodes) && body == WithoutEnd(rest)
    ensures nodes == Closed(Opening(AnchoredStart(nodes)) + body, AnchoredEnd(rest))
  {
    StartRemoved(nodes);
    EndRemoved(rest);
    ClosedBehind(Opening(AnchoredStart(nodes)), body, AnchoredEnd(rest));
  }

  lemma {:induction false} LiteralSpans(n: Node, key: Keying, text: string, i: int, j: int)
    requires ExtractLiteral(n).Some?
    ensures var p := ExtractLiteral(n).value;
      Spans(n, key, text, i, j) <==> FoundAt(p, key, text, i) && j == i + |p.needle|
  {
    var p := ExtractLiteral(n).value;
    var rest := WithoutStart(Parts(n));
    AnchorsRemoved(Parts(n), rest, WithoutEnd(rest));
    PartsSpan(n, key, text, i, j);
    RowSpans(Opening(p.anchoredStart) + WithoutEnd(rest), WithoutEnd(rest), p.anchoredStart, p.anchoredEnd, key, text, i, j);
  }

  /** Plain text between anchors occurs exactly where its characters read. */
  lemma {:induction false} LiteralDecides(n: Node, key: Keying, text: string)
    requires ExtractLiteral(n).Some?
    ensures Occurs(n, key, text) <==> exists i :: FoundAt(ExtractLiteral(n).value, key, text, i)
  {
    var p := ExtractLiteral(n).value;
    if Occurs(n, key, text) {
      var i, j :| Spans(n, key, text, i, j);
      LiteralSpans(n, key, text, i, j);
    }
    if i :| FoundAt(p, key, text, i) {
      LiteralSpans(n, key, text, i, i + |p.needle|);
    }
  }

  lemma {:induction false} PartsSpan(n: Node, key: Keying, text: string, i: int, j: int)
    ensures Spans(n, key, text, i, j) <==> SpansAll(Parts(n), key, text, i, j)
  {
    if n.Concat? {
      assert Spans(n, key, text, i, j) ==> SpansAll(n.parts, key, text, i, j);
    } else {
      assert Front([n]) == [] && Last([n]) == n;
      if Spans(n, key, text, i, j) {
        assert SpansAll(Front([n]), key, text, i, i);
      }
    }
  }

  // ----- The string operations of the fast path

  predicate SliceAt(haystack: string, needle: string, i: int) {
    0 <= i && i + |needle| <= |haystack| && haystack[i..i + |needle|] == needle
  }

  predicate Contains(haystack: string, needle: string) {
    exists i :: 0 <= i <= |haystack| && SliceAt(haystack, needle, i)
  }

  predicate EndsWith(haystack: string, needle: string) {
    |needle| <= |haystack| && haystack[|haystack| - |needle|..] == needle
  }

  predicate IsAscii(s: string) {
    forall k :: 0 <= k < |s| ==> s[k] as int < 128
  }

  /** `str.lower` of an ASCII character. */
  function LowerChar(c: char): (r: char)
    requires c as int < 128
    ensures r as int < 128
  {
    if 'A' <= c <= 'Z' then (c as int + 32) as char else c
  }

  /** Lower case takes the Latin capitals to their small letters and nothing else. */
  lemma {:induction false} LowersCapitals(c: char, k: nat)
    ensures k < 26 ==> LowerChar("ABCDEFGHIJKLMNOPQRSTUVWXYZ"[k]) == "abcdefghijklmnopqrstuvwxyz"[k]
    ensures c as int < 128 && c !in "ABCDEFGHIJKLMNOPQRSTUVWXYZ" ==> LowerChar(c) == c
  {
    var capitals := "ABCDEFGHIJKLMNOPQRSTUVWXYZ";
    if k < 26 {
      assert capitals[k] as int == 'A' as int + k && "abcdefghijklmnopqrstuvwxyz"[k] as int == 'a' as int + k;
    }
    if 'A' <= c <= 'Z' {
      assert capitals[c as int - 'A' as int] == c;
    }
  }

  function Lower(s: string): (r: string)
    requires IsAscii(s)
    ensures |r| == |s|
  {
    seq(|s|, k requires 0 <= k < |s| => LowerChar(s[k]))
  }

  /** Case folding of ASCII is lower-casing; of other characters nothing is assumed. */
  ghost predicate FoldsAscii(casefold: Keying) {
    forall c: char :: c as int < 128 ==> casefold(c) == [LowerChar(c)]
  }

  /** The needle and the text are compared through these single characters. */
  ghost predicate Represents(source: string, shown: string, key: Keying) {
    |source| == |shown| && forall k :: 0 <= k < |source| ==> key(source[k]) == [shown[k]]
  }

  lemma {:induction false} ReadsShown(needle: string, text: string, n': string, t': string, key: Keying, i: int)
    requires Represents(needle, n', key) && Represents(text, t', key)
    ensures ReadsAt(needle, key, text, i) <==> SliceAt(t', n', i)
  {
    if 0 <= i && i + |n'| <= |t'| {
      forall k | 0 <= k < |n'| ensures key(needle[k]) == key(text[i + k]) <==> t'[i..i + |n'|][k] == n'[k] {
        assert key(needle[k])[0] == n'[k] && key(text[i + k])[0] == t'[i + k];
      }
    }
  }

  /** Which of the four string tests applies. */
  predicate Found(p: LiteralPattern, haystack: string, needle: string) {
    if p.anchoredStart && p.anchoredEnd then haystack == needle
    else if p.anchoredStart then needle <= haystack
    else if p.anchoredEnd then EndsWith(haystack, needle)
    else Contains(haystack, needle)
  }

  lemma {:induction false} FoundDecides(p: LiteralPattern, text: string, haystack: string, needle: string, key: Keying)
    requires Represents(p.needle, needle, key) && Represents(text, haystack, key)
    ensures Found(p, haystack, needle) <==> exists i :: FoundAt(p, key, text, i)
  {
    forall i ensures ReadsAt(p.needle, key, text, i) <==>
      SliceAt(haystack, needle, i)
    {
      ReadsShown(p.needle, text, needle, haystack, key, i);
    }
    assert |needle| <= |haystack| ==> haystack[..|needle|] == haystack[0..0 + |needle|];
    assert |needle| == |haystack| ==> haystack[0..0 + |needle|] == haystack;
    if Found(p, haystack, needle) {
      var at := if p.anchoredStart then 0 else if p.anchoredEnd then |haystack| - |needle|
                else var i :| 0 <= i <= |haystack| && SliceAt(haystack, needle, i); i;
      assert FoundAt(p, key, text, at);
    }
    if i :| FoundAt(p, key, text, i) {
      assert SliceAt(haystack, needle, i);
      assert p.anchoredEnd ==> haystack[i..i + |needle|] == haystack[|haystack| - |needle|..];
    }
  }
}
