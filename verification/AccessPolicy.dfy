/** Which workspace paths the access policy blocks. */
module AccessPolicies {
  import opened Wrappers

  /** The parts of a path relative to the workspace. */
  type Path = seq<string>

  /** A rule with its compiled expression; without a slash it looks at single names. */
  datatype Rule = Rule(pattern: string, basenameOnly: bool, matches: string -> bool)

  const SAFE_ENV_EXAMPLE_NAMES := {".env.example", ".env.sample", ".env.template"}

  function JoinPath(parts: Path): string
    requires parts != []
  {
    if |parts| == 1 then parts[0] else JoinPath(parts[..|parts| - 1]) + "/" + parts[|parts| - 1]
  }

  /** Example files of an environment are no match for `.env.*`, but only as the last name of a path. */
  predicate Excepted(rule: Rule, parts: Path, i: nat)
    requires i < |parts|
  {
    rule.pattern == ".env.*" && parts[i] in SAFE_ENV_EXAMPLE_NAMES && i == |parts| - 1
  }

  predicate NameBlocks(rule: Rule, parts: Path, i: nat) {
    i < |parts| && !Excepted(rule, parts, i) && rule.matches(parts[i])
  }

  predicate PrefixBlocks(rule: Rule, parts: Path, n: nat) {
    1 <= n <= |parts| && rule.matches(JoinPath(parts[..n]))
  }

  ghost predicate RuleBlocks(rule: Rule, parts: Path) {
    if rule.basenameOnly then exists i: nat :: NameBlocks(rule, parts, i) else exists n: nat :: PrefixBlocks(rule, parts, n)
  }

  ghost predicate Blocked(rules: seq<Rule>, parts: Path) {
    exists k :: 0 <= k < |rules| && RuleBlocks(rules[k], parts)
  }

  ghost predicate FirstBlocking(rules: seq<Rule>, parts: Path, k: nat) {
    k < |rules| && RuleBlocks(rules[k], parts) && !Blocked(rules[..k], parts)
  }

  /** `blocking_pattern`: the first rule that matches the path or one of its ancestors. */
  method BlockingPattern(rules: seq<Rule>, parts: Path) returns (pattern: Option<string>)
    ensures pattern.Some? <==> Blocked(rules, parts)
    ensures pattern.Some? ==> exists k: nat :: FirstBlocking(rules, parts, k) && pattern.value == rules[k].pattern
  {
    for k := 0 to |rules|
      invariant !Blocked(rules[..k], parts)
    {
      BlockedSnoc(rules, k, parts);
      var rule := rules[k];
      if rule.basenameOnly {
        for i := 0 to |parts|
          invariant forall j: nat :: j < i ==> !NameBlocks(rule, parts, j)
        {
          if rule.pattern == ".env.*" && parts[i] in SAFE_ENV_EXAMPLE_NAMES && i == |parts| - 1 {
            continue;
          }
          if rule.matches(parts[i]) {
            assert NameBlocks(rule, parts, i) && FirstBlocking(rules, parts, k);
            return Some(rule.pattern);
          }
        }
      } else {
        for n := 1 to |parts| + 1
          invariant forall j: nat :: j < n ==> !PrefixBlocks(rule, parts, j)
        {
          if rule.matches(JoinPath(parts[..n])) {
            assert PrefixBlocks(rule, parts, n) && FirstBlocking(rules, parts, k);
            return Some(rule.pattern);
          }
        }
      }
    }
    assert rules[..|rules|] == rules;
    return None;
  }

  lemma {:induction false} BlockedSnoc(rules: seq<Rule>, k: nat, parts: Path)
    requires k < |rules|
    ensures Blocked(rules[..k + 1], parts) <==> Blocked(rules[..k], parts) || RuleBlocks(rules[k], parts)
    ensures RuleBlocks(rules[k], parts) ==> Blocked(rules, parts)
  {
    var shorter, longer := rules[..k], rules[..k + 1];
    assert longer == shorter + [rules[k]];
    if j :| 0 <= j < |shorter| && RuleBlocks(shorter[j], parts) {
      assert longer[j] == shorter[j];
    }
    if j :| 0 <= j < |longer| && RuleBlocks(longer[j], parts) {
      assert j < k ==> shorter[j] == longer[j];
    }
    assert longer[k] == rules[k];
  }

  // ----- What a rule with a slash looks at

  /** A path is written from the top, with a slash between two parts. */
  lemma {:induction false} JoinedPaths(a: Path, b: Path, x: string)
    requires a != [] && b != []
    ensures JoinPath([x]) == x
    ensures JoinPath(a + b) == JoinPath(a) + "/" + JoinPath(b)
    decreases |b|
  {
    var whole, n := a + b, |b| - 1;
    assert whole[|whole| - 1] == b[n];
    if n == 0 {
      assert whole[..|whole| - 1] == a;
    } else {
      assert whole[..|whole| - 1] == a + b[..n];
      JoinedPaths(a, b[..n], x);
      assert JoinPath(a) + "/" + JoinPath(b[..n]) + "/" + b[n] == JoinPath(a) + "/" + (JoinPath(b[..n]) + "/" + b[n]);
    }
  }

  /** The parts between the slashes. */
  function SplitPath(text: string): (parts: Path)
    ensures parts != []
    decreases |text|
  {
    if text == "" then [""]
    else if text[0] == '/' then [""] + SplitPath(text[1..])
    else
      var rest := SplitPath(text[1..]);
      [[text[0]] + rest[0]] + rest[1..]
  }

  predicate Plain(name: string) {
    '/' !in name
  }

  lemma {:induction false} SplitName(name: string, rest: string)
    requires Plain(name)
    ensures SplitPath(name) == [name]
    ensures SplitPath(name + "/" + rest) == [name] + SplitPath(rest)
    decreases |name|
  {
    var text := name + "/" + rest;
    if name == "" {
      assert text[1..] == rest;
    } else {
      SplitName(name[1..], rest);
      assert text[1..] == name[1..] + "/" + rest;
      assert name == [name[0]] + name[1..];
    }
  }

  /** Splitting a written path gives back its parts. */
  lemma {:induction false} SplitJoined(parts: Path)
    requires parts != [] && forall x :: x in parts ==> Plain(x)
    ensures SplitPath(JoinPath(parts)) == parts
    decreases |parts|
  {
    if |parts| == 1 {
      SplitName(parts[0], "");
    } else {
      var rest := parts[1..];
      assert parts == [parts[0]] + rest;
      JoinedPaths([parts[0]], rest, parts[0]);
      SplitName(parts[0], JoinPath(rest));
      SplitJoined(rest);
    }
  }

  predicate AllPlain(parts: Path) {
    forall x :: x in parts ==> Plain(x)
  }

  /** A rule that matches the text of one path and no other blocks that path and what is below it. */
  lemma {:induction false} ExactRuleBlocks(rule: Rule, target: Path, parts: Path)
    requires !rule.basenameOnly && target != [] && AllPlain(target) && AllPlain(parts)
    requires forall text :: rule.matches(text) <==> text == JoinPath(target)
    ensures Blocked([rule], parts) <==> target <= parts
  {
    if target <= parts {
      assert parts[..|target|] == target;
      assert PrefixBlocks(rule, parts, |target|);
      assert RuleBlocks([rule][0], parts);
    }
    if Blocked([rule], parts) {
      var n: nat :| PrefixBlocks(rule, parts, n);
      assert AllPlain(parts[..n]);
      SplitJoined(parts[..n]);
      SplitJoined(target);
    }
  }

  /** A rule for one name, without a slash, blocks every path in which the name occurs; but `.env.*` spares an example file. */
  lemma {:induction false} ExactNameBlocks(rule: Rule, name: string, parts: Path)
    requires rule.basenameOnly && forall text :: rule.matches(text) <==> text == name
    requires rule.pattern != ".env.*" || name !in SAFE_ENV_EXAMPLE_NAMES
    ensures Blocked([rule], parts) <==> name in parts
  {
    if name in parts {
      var i :| 0 <= i < |parts| && parts[i] == name;
      assert NameBlocks(rule, parts, i);
      assert RuleBlocks([rule][0], parts);
    }
  }

  /** What blocks a path blocks everything below it, whatever the exception for example files says. */
  lemma {:induction false} BlockingInherits(rules: seq<Rule>, parts: Path, below: Path)
    requires Blocked(rules, parts)
    ensures Blocked(rules, parts + below)
  {
    var k :| 0 <= k < |rules| && RuleBlocks(rules[k], parts);
    var rule, whole := rules[k], parts + below;
    if rule.basenameOnly {
      var i: nat :| NameBlocks(rule, parts, i);
      assert whole[i] == parts[i];
      assert NameBlocks(rule, whole, i);
    } else {
      var n: nat :| PrefixBlocks(rule, parts, n);
      assert whole[..n] == parts[..n];
      assert PrefixBlocks(rule, whole, n);
    }
  }

  /** A directory named like an example file is itself not blocked by `.env.*`, but all its contents are. */
  lemma {:induction false} ExceptionEndsAtDirectories(rules: seq<Rule>, k: nat, parts: Path, name: string, child: string)
    requires k < |rules| && rules[k].pattern == ".env.*" && rules[k].basenameOnly && rules[k].matches(name)
    requires name in SAFE_ENV_EXAMPLE_NAMES && forall i :: 0 <= i < |parts| ==> !rules[k].matches(parts[i])
    ensures !RuleBlocks(rules[k], parts + [name]) && Blocked(rules, parts + [name, child])
  {
    var whole := parts + [name, child];
    assert NameBlocks(rules[k], whole, |parts|);
    forall i: nat ensures !NameBlocks(rules[k], parts + [name], i) {
      assert i < |parts| ==> (parts + [name])[i] == parts[i];
    }
  }
}
