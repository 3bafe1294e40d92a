/** The recursive-descent parser: a one-character-lookahead reader over an index.

    The functions say what each method of `Parser` returns and where it leaves
    the index; RegexGrammar proves that they decide the grammar of RegexSyntax. */
module RegexParser {
  import opened CharSets
  import opened RegexSyntax

  datatype PatternError =
    | EmptyPattern
    | TooLong
    | TooComplex
    | UnmatchedParenthesis
    | UnsupportedSyntax
    | EmptyBranch
    | RepeatedQuantifier
    | UnexpectedEnd
    | DanglingQuantifier
    | CountedRepetition
    | UnmatchedBracket
    | UnclosedParenthesis
    | EmptyGroup
    | UnclosedBracket
    | EmptyClass
    | ReversedRange
    | IncompleteEscape
    | UnsupportedEscape

  /** A value together with the index after it, or the first error. */
  datatype Read<+T> = Ok(value: T, next: nat) | Err(error: PatternError)
  {
    predicate IsFailure() { Err? }

    function PropagateFailure<U>(): Read<U>
      requires Err?
    {
      Err(error)
    }

    function Extract(): (T, nat)
      requires Ok?
    {
      (value, next)
    }
  }

  predicate At(p: string, i: nat, c: char) {
    i < |p| && p[i] == c
  }

  predicate AtQuantifier(p: string, i: nat) {
    i < |p| && IsQuantifier(p[i])
  }

  /** A sequence ends at the end of the pattern, a ')' or a '|'. */
  predicate Stops(p: string, i: nat) {
    i >= |p| || p[i] == ')' || p[i] == '|'
  }

  function ReadEscape(p: string, i: nat): (r: Read<char>)
    ensures r.Ok? ==> r.next == i + 1 <= |p|
  {
    if i >= |p| then Err(IncompleteEscape)
    else if IsCode(p[i]) then Ok(Decode(p[i]), i + 1)
    else Err(UnsupportedEscape)
  }

  function ReadClassChar(p: string, i: nat): (r: Read<char>)
    requires i < |p|
    ensures r.Ok? ==> i < r.next <= |p|
  {
    if p[i] == '\\' then ReadEscape(p, i + 1) else Ok(p[i], i + 1)
  }

  function ReadItem(p: string, i: nat): (r: Read<Item>)
    requires i < |p|
    ensures r.Ok? ==> i < r.next <= |p|
  {
    var (lo, k) :- ReadClassChar(p, i);
    if At(p, k, '-') && k + 1 < |p| && p[k + 1] != ']' then
      var (hi, m) :- ReadClassChar(p, k + 1);
      if lo > hi then Err(ReversedRange) else Ok(Range(lo, hi), m)
    else Ok(One(lo), k)
  }

  function ReadItems(p: string, i: nat, items: ClassItems, sawItem: bool): (r: Read<ClassItems>)
    ensures r.Ok? ==> i < r.next <= |p|
    decreases |p| - i
  {
    if i >= |p| then Err(UnclosedBracket)
    else if p[i] == ']' then (if sawItem then Ok(items, i + 1) else Err(EmptyClass))
    else
      var (item, k) :- ReadItem(p, i);
      ReadItems(p, k, AddItem(items, item), true)
  }

  function ReadClass(p: string, i: nat): (r: Read<ClassItems>)
    ensures r.Ok? ==> i < r.next <= |p|
  {
    if At(p, i, '^') then ReadItems(p, i + 1, ClassItems({}, [], true), false)
    else ReadItems(p, i, ClassItems({}, [], false), false)
  }

  function ReadAtom(p: string, i: nat, key: Keying): (r: Read<Node>)
    requires i <= |p|
    ensures r.Ok? ==> i < r.next <= |p| && !r.value.Empty?
    decreases |p| - i, 0
  {
    if i >= |p| then Err(UnexpectedEnd) else
    match p[i]
    case '*' => Err(DanglingQuantifier)
    case '+' => Err(DanglingQuantifier)
    case '?' => Err(DanglingQuantifier)
    case '{' => Err(CountedRepetition)
    case '}' => Err(CountedRepetition)
    case ']' => Err(UnmatchedBracket)
    case '.' => Ok(AnyChar, i + 1)
    case '^' => Ok(Start, i + 1)
    case '$' => Ok(End, i + 1)
    case '[' =>
      var (items, k) :- ReadClass(p, i + 1);
      Ok(Class(Compiled(items, key)), k)
    case '(' =>
      var (n, k) :- ReadAlternation(p, i + 1, key);
      if !At(p, k, ')') then Err(UnclosedParenthesis)
      else if n.Empty? then Err(EmptyGroup)
      else Ok(n, k + 1)
    case '\\' =>
      var (c, k) :- ReadEscape(p, i + 1);
      Ok(Literal(c), k)
    case c => Ok(Literal(c), i + 1)
  }

  function ReadRepetition(p: string, i: nat, key: Keying): (r: Read<Node>)
    requires i <= |p|
    ensures r.Ok? ==> i < r.next <= |p| && !r.value.Empty?
    decreases |p| - i, 1
  {
    var (n, k) :- ReadAtom(p, i, key);
    if AtQuantifier(p, k) then
      if AtQuantifier(p, k + 1) then Err(RepeatedQuantifier)
      else Ok(if p[k] == '*' then Star(n) else if p[k] == '+' then Plus(n) else Optional(n), k + 1)
    else Ok(n, k)
  }

  function ReadPieces(p: string, i: nat, key: Keying): (r: Read<seq<Node>>)
    requires i <= |p|
    ensures r.Ok? ==> i <= r.next <= |p| && Stops(p, r.next)
    ensures r.Ok? ==> (r.value == [] <==> r.next == i) && (|r.value| == 1 ==> !r.value[0].Empty?)
    decreases |p| - i, 2
  {
    if Stops(p, i) then Ok([], i)
    else
      var (n, k) :- ReadRepetition(p, i, key);
      var (rest, m) :- ReadPieces(p, k, key);
      Ok([n] + rest, m)
  }

  function ReadSequence(p: string, i: nat, key: Keying): (r: Read<Node>)
    requires i <= |p|
    ensures r.Ok? ==> i <= r.next <= |p| && Stops(p, r.next) && (r.value.Empty? <==> r.next == i)
    decreases |p| - i, 3
  {
    var (nodes, k) :- ReadPieces(p, i, key);
    Ok(Joined(nodes), k)
  }

  /** The branches after the first one, each behind a '|'. */
  function ReadBranches(p: string, i: nat, key: Keying): (r: Read<seq<Node>>)
    requires i <= |p|
    ensures r.Ok? ==> i <= r.next <= |p| && !At(p, r.next, '|') && (r.value == [] <==> r.next == i)
    decreases |p| - i, 4
  {
    if !At(p, i, '|') then Ok([], i)
    else
      var (n, k) :- ReadSequence(p, i + 1, key);
      if n.Empty? then Err(EmptyBranch)
      else
        var (rest, m) :- ReadBranches(p, k, key);
        Ok([n] + rest, m)
  }

  function ReadAlternation(p: string, i: nat, key: Keying): (r: Read<Node>)
    requires i <= |p|
    ensures r.Ok? ==> i <= r.next <= |p| && (r.value.Empty? <==> r.next == i)
    decreases |p| - i, 5
  {
    var (n, k) :- ReadSequence(p, i, key);
    var (rest, m) :- ReadBranches(p, k, key);
    if rest == [] then Ok(n, m)
    else if n.Empty? then Err(EmptyBranch)
    else Ok(Alt([n] + rest), m)
  }

  function ReadPattern(p: string, key: Keying): (r: Read<Node>)
    ensures r.Ok? ==> r.next == |p|
  {
    var (n, k) :- ReadAlternation(p, 0, key);
    if k != |p| then
      if p[k] == ')' then Err(UnmatchedParenthesis) else Err(UnsupportedSyntax)
    else Ok(n, k)
  }

  /** What is left to read, after some values have been read already. */
  function After<T>(done: seq<T>, r: Read<seq<T>>): (a: Read<seq<T>>)
    ensures done == [] ==> a == r
    ensures r.Ok? && r.value == [] ==> a == Ok(done, r.next)
  {
    if r.Ok? then
      assert done == [] ==> done + r.value == r.value;
      assert r.value == [] ==> done + r.value == done;
      Ok(done + r.value, r.next)
    else r
  }

  lemma {:induction false} AfterStep<T>(done: seq<T>, x: T, r: Read<seq<T>>)
    ensures After(done + [x], r) == After(done, After([x], r))
  {
    if r.Ok? {
      assert done + [x] + r.value == done + ([x] + r.value);
    }
  }

  datatype Outcome<+T> = Success(value: T) | Failure(error: PatternError)
  {
    predicate IsFailure() { Failure? }

    function PropagateFailure<U>(): Outcome<U>
      requires Failure?
    {
      Failure(error)
    }

    function Extract(): T
      requires Success?
    {
      value
    }
  }

  /** A method's outcome and final index agree with a reading. */
  predicate Agrees<T(==)>(o: Outcome<T>, index: nat, r: Read<T>) {
    match r
    case Ok(value, next) => o == Success(value) && index == next
    case Err(error) => o == Failure(error)
  }

  class Parser {
    const pattern: string
    const key: Keying
    var index: nat

    constructor (pattern: string, key: Keying)
      ensures this.pattern == pattern && this.key == key && index == 0
    {
      this.pattern, this.key, index := pattern, key, 0;
    }

    predicate Peek(c: char)
      reads this
    {
      At(pattern, index, c)
    }

    predicate PeekQuantifier()
      reads this
    {
      AtQuantifier(pattern, index)
    }

    method Parse() returns (o: Outcome<Node>)
      requires index == 0
      modifies this
      ensures Agrees(o, index, ReadPattern(pattern, key))
    {
      var expression :- Alternation();
      if index != |pattern| {
        if pattern[index] == ')' {
          return Failure(UnmatchedParenthesis);
        }
        return Failure(UnsupportedSyntax);
      }
      return Success(expression);
    }

    method Alternation() returns (o: Outcome<Node>)
      requires index <= |pattern|
      modifies this
      ensures Agrees(o, index, ReadAlternation(pattern, old(index), key))
      decreases |pattern| - index, 5
    {
      var first :- Sequence();
      var start := index;
      var rest: seq<Node> := [];
      while Peek('|')
        invariant start <= index <= |pattern|
        invariant ReadBranches(pattern, start, key) == After(rest, ReadBranches(pattern, index, key))
        decreases |pattern| - index
      {
        index := index + 1;
        var branch :- Sequence();
        if branch.Empty? {
          return Failure(EmptyBranch);
        }
        rest := rest + [branch];
        AfterStep(rest[..|rest| - 1], branch, ReadBranches(pattern, index, key));
      }
      if rest == [] {
        return Success(first);
      }
      if first.Empty? {
        return Failure(EmptyBranch);
      }
      return Success(Alt([first] + rest));
    }

    method Sequence() returns (o: Outcome<Node>)
      requires index <= |pattern|
      modifies this
      ensures Agrees(o, index, ReadSequence(pattern, old(index), key))
      decreases |pattern| - index, 3
    {
      var start := index;
      var nodes: seq<Node> := [];
      while index < |pattern| && !Peek(')') && !Peek('|')
        invariant start <= index <= |pattern|
        invariant ReadPieces(pattern, start, key) == After(nodes, ReadPieces(pattern, index, key))
        decreases |pattern| - index
      {
        var node :- Repetition();
        nodes := nodes + [node];
        AfterStep(nodes[..|nodes| - 1], node, ReadPieces(pattern, index, key));
      }
      return Success(if nodes == [] then Empty else if |nodes| == 1 then nodes[0] else Concat(nodes));
    }

    method Repetition() returns (o: Outcome<Node>)
      requires index <= |pattern|
      modifies this
      ensures Agrees(o, index, ReadRepetition(pattern, old(index), key))
      decreases |pattern| - index, 1
    {
      var node :- Atom();
      if PeekQuantifier() {
        var quantifier := pattern[index];
        index := index + 1;
        if PeekQuantifier() {
          return Failure(RepeatedQuantifier);
        }
        return Success(if quantifier == '*' then Star(node) else if quantifier == '+' then Plus(node) else Optional(node));
      }
      return Success(node);
    }

    method Atom() returns (o: Outcome<Node>)
      requires index <= |pattern|
      modifies this
      ensures Agrees(o, index, ReadAtom(pattern, old(index), key))
      decreases |pattern| - index, 0
    {
      if index >= |pattern| {
        return Failure(UnexpectedEnd);
      }
      var character := pattern[index];
      index := index + 1;
      if IsQuantifier(character) {
        return Failure(DanglingQuantifier);
      }
      if character == '{' || character == '}' {
        return Failure(CountedRepetition);
      }
      match character {
        case ']' => return Failure(UnmatchedBracket);
        case '.' => return Success(AnyChar);
        case '^' => return Success(Start);
        case '$' => return Success(End);
        case '[' =>
          var items :- CharacterClass();
          var chars := Compile(items, key);
          return Success(Class(chars));
        case '(' =>
          var expression :- Alternation();
          if !Peek(')') {
            return Failure(UnclosedParenthesis);
          }
          index := index + 1;
          if expression.Empty? {
            return Failure(EmptyGroup);
          }
          return Success(expression);
        case '\\' =>
          var literal :- Escape();
          return Success(Literal(literal));
        case _ => return Success(Literal(character));
      }
    }

    method CharacterClass() returns (o: Outcome<ClassItems>)
      requires index <= |pattern|
      modifies this
      ensures Agrees(o, index, ReadClass(pattern, old(index)))
    {
      var negated := Peek('^');
      if negated {
        index := index + 1;
      }
      var start := index;
      var items := ClassItems({}, [], negated);
      var sawItem := false;
      while true
        invariant start <= index <= |pattern|
        invariant ReadItems(pattern, start, ClassItems({}, [], negated), false) ==
                  ReadItems(pattern, index, items, sawItem)
        decreases |pattern| - index
      {
        if index >= |pattern| {
          return Failure(UnclosedBracket);
        }
        if pattern[index] == ']' {
          index := index + 1;
          if !sawItem {
            return Failure(EmptyClass);
          }
          return Success(items);
        }
        var lo :- ClassCharacter();
        sawItem := true;
        if Peek('-') && index + 1 < |pattern| && pattern[index + 1] != ']' {
          index := index + 1;
          var hi :- ClassCharacter();
          if lo > hi {
            return Failure(ReversedRange);
          }
          items := items.(ranges := items.ranges + [(lo, hi)]);
        } else {
          items := items.(literals := items.literals + {lo});
        }
      }
    }

    method ClassCharacter() returns (o: Outcome<char>)
      requires index < |pattern|
      modifies this
      ensures Agrees(o, index, ReadClassChar(pattern, old(index)))
    {
      var character := pattern[index];
      index := index + 1;
      if character == '\\' {
        o := Escape();
        return;
      }
      return Success(character);
    }

    method Escape() returns (o: Outcome<char>)
      requires index <= |pattern|
      modifies this
      ensures Agrees(o, index, ReadEscape(pattern, old(index)))
    {
      if index >= |pattern| {
        return Failure(IncompleteEscape);
      }
      var character := pattern[index];
      index := index + 1;
      match character {
        case 'n' => return Success('\n');
        case 'r' => return Success('\r');
        case 't' => return Success('\t');
        case _ =>
      }
      if IsQuotable(character) {
        return Success(character);
      }
      return Failure(UnsupportedEscape);
    }
  }
}
