/** Execution profiles inherit from each other: memoised resolution with a stack, against the
    composition along the parent chain. */
module Profiles {
  import opened Wrappers

  datatype Access = ReadOnly | Writable

  datatype RawProfile = RawProfile(name: string, parent: Option<string>, image: Option<string>, tools: Option<set<string>>,
                                   toolsAdd: Option<set<string>>, access: Option<Access>, allow: Option<bool>)

  datatype Profile = Profile(name: string, image: string, tools: set<string>, access: Access, allow: bool)

  datatype ProfileError = Cycle(names: seq<string>) | TooDeep(name: string) | UnknownParent(name: string) | IncompleteRoot(name: string)
    | InheritedTwice(name: string) | NoTools(name: string) | NeedsPermission(name: string)

  datatype Outcome<+T> = Success(value: T) | Failure(error: ProfileError)

  type Raws = map<string, RawProfile>

  const MAX_DEPTH := 128

  const ARBITRARY := {"run_command", "start_command"}

  // ----- One profile

  function BuildRoot(raw: RawProfile): Outcome<Profile> {
    if raw.image.None? || raw.tools.None? then Failure(IncompleteRoot(raw.name))
    else Success(Profile(raw.name, raw.image.value, raw.tools.value, raw.access.GetOr(ReadOnly), raw.allow.GetOr(false)))
  }

  function Compose(parent: Profile, raw: RawProfile): Outcome<Profile> {
    if raw.tools.None? && raw.toolsAdd.Some? && parent.tools * raw.toolsAdd.value != {} then Failure(InheritedTwice(raw.name))
    else
      var tools := if raw.tools.Some? then raw.tools.value else parent.tools + raw.toolsAdd.GetOr({});
      Success(Profile(raw.name, raw.image.GetOr(parent.image), tools, raw.access.GetOr(parent.access), raw.allow.GetOr(parent.allow)))
  }

  function Validate(p: Profile): Outcome<Profile> {
    if p.tools == {} then Failure(NoTools(p.name))
    else if ARBITRARY * p.tools != {} && !p.allow then Failure(NeedsPermission(p.name))
    else Success(p)
  }

  function Then(p: Outcome<Profile>): Outcome<Profile> {
    if p.Success? then Validate(p.value) else p
  }

  // ----- The parent chain

  /** A chain of `n` parents leads from the profile to a root. */
  ghost predicate Rooted(raws: Raws, name: string, n: nat)
    decreases n, raws
  {
    name in raws &&
    match raws[name].parent
    case None => n == 0
    case Some(parent) => n > 0 && Rooted(raws, parent, n - 1)
  }

  /** The profile composed along its chain. */
  ghost function Meaning(raws: Raws, name: string, n: nat): Outcome<Profile>
    requires Rooted(raws, name, n)
    decreases n, raws
  {
    if n == 0 then Then(BuildRoot(raws[name]))
    else
      var parent := Meaning(raws, raws[name].parent.value, n - 1);
      if parent.Failure? then parent else Then(Compose(parent.value, raws[name]))
  }

  /** The profile stands on a chain that composes. */
  ghost predicate Stands(raws: Raws, name: string, n: nat) {
    Rooted(raws, name, n) && Meaning(raws, name, n).Success?
  }

  lemma {:induction false} RootedOnce(raws: Raws, name: string, n: nat, m: nat)
    requires Rooted(raws, name, n) && Rooted(raws, name, m)
    ensures n == m
    decreases n
  {
    if n > 0 {
      RootedOnce(raws, raws[name].parent.value, n - 1, m - 1);
    }
  }

  /** Each name of the path extends the following one. */
  predicate IsPath(raws: Raws, path: seq<string>) {
    && (forall i :: 0 <= i < |path| ==> path[i] in raws)
    && (forall i :: 0 < i < |path| ==> raws[path[i - 1]].parent == Some(path[i]))
  }

  lemma {:induction false} RootedBehind(raws: Raws, path: seq<string>, i: nat, n: nat)
    requires IsPath(raws, path) && i < |path| && Rooted(raws, path[0], n)
    ensures n >= i && Rooted(raws, path[i], n - i)
  {
    if i > 0 {
      RootedBehind(raws, path, i - 1, n);
      assert raws[path[i - 1]].parent == Some(path[i]);
    }
  }

  /** Nobody on a cycle has a root. */
  lemma {:induction false} CyclesHaveNoRoot(raws: Raws, path: seq<string>, n: nat)
    requires IsPath(raws, path) && |path| > 1 && path[0] == path[|path| - 1]
    ensures !Rooted(raws, path[0], n)
  {
    if Rooted(raws, path[0], n) {
      RootedBehind(raws, path, |path| - 1, n);
      RootedOnce(raws, path[0], n, n - (|path| - 1));
    }
  }

  // ----- What a chain composes to

  ghost function Ancestor(raws: Raws, name: string, n: nat, k: nat): string
    requires Rooted(raws, name, n) && k <= n
    ensures Ancestor(raws, name, n, k) in raws
    decreases n, raws
  {
    if k == 0 then name else Ancestor(raws, raws[name].parent.value, n - 1, k - 1)
  }

  predicate Grants(raw: RawProfile, tool: string) {
    (raw.tools.Some? && tool in raw.tools.value) || (raw.tools.None? && raw.toolsAdd.Some? && tool in raw.toolsAdd.value)
  }

  /** The `k`-th ancestor grants the tool and nobody nearer starts the list afresh. */
  ghost predicate GrantedBy(raws: Raws, name: string, n: nat, k: nat, tool: string)
    requires Rooted(raws, name, n)
  {
    k <= n && Grants(raws[Ancestor(raws, name, n, k)], tool) && forall j: nat :: j < k ==> raws[Ancestor(raws, name, n, j)].tools.None?
  }

  /** The tools of a profile are those of the nearest list in its chain and of every addition since. */
  lemma {:induction false} ToolsOfChain(raws: Raws, name: string, n: nat, tool: string)
    requires Stands(raws, name, n)
    ensures tool in Meaning(raws, name, n).value.tools <==> exists k: nat :: GrantedBy(raws, name, n, k, tool)
    decreases n
  {
    var raw := raws[name];
    if n == 0 {
      assert tool in Meaning(raws, name, n).value.tools ==> GrantedBy(raws, name, n, 0, tool);
    } else {
      var parent := raw.parent.value;
      ToolsOfChain(raws, parent, n - 1, tool);
      GrantsShift(raws, name, n, parent, n - 1, tool);
    }
  }

  lemma {:induction false} GrantsShift(raws: Raws, name: string, n: nat, parent: string, m: nat, tool: string)
    requires Rooted(raws, name, n) && n == m + 1 && raws[name].parent == Some(parent)
    ensures (exists k: nat :: GrantedBy(raws, name, n, k, tool)) <==>
      Grants(raws[name], tool) || (raws[name].tools.None? && exists k: nat :: GrantedBy(raws, parent, m, k, tool))
  {
    if k: nat :| GrantedBy(raws, name, n, k, tool) {
      assert Ancestor(raws, name, n, 0) == name;
      if k > 0 {
        forall j: nat | j < k - 1 ensures raws[Ancestor(raws, parent, m, j)].tools.None? {
          assert Ancestor(raws, name, n, j + 1) == Ancestor(raws, parent, m, j);
        }
        assert GrantedBy(raws, parent, m, k - 1, tool);
      }
    }
    if Grants(raws[name], tool) {
      assert GrantedBy(raws, name, n, 0, tool);
    }
    if raws[name].tools.None? {
      if k: nat :| GrantedBy(raws, parent, m, k, tool) {
        forall j: nat | j < k + 1 ensures raws[Ancestor(raws, name, n, j)].tools.None? {
          assert j > 0 ==> Ancestor(raws, name, n, j) == Ancestor(raws, parent, m, j - 1);
        }
        assert GrantedBy(raws, name, n, k + 1, tool);
      }
    }
  }

  /** The `k`-th ancestor is the nearest one that sets the field. */
  ghost predicate SetBy<T>(raws: Raws, name: string, n: nat, k: nat, field: RawProfile -> Option<T>)
    requires Rooted(raws, name, n)
  {
    k <= n && field(raws[Ancestor(raws, name, n, k)]).Some? && forall j: nat :: j < k ==> field(raws[Ancestor(raws, name, n, j)]).None?
  }

  ghost predicate NeverSet<T>(raws: Raws, name: string, n: nat, field: RawProfile -> Option<T>)
    requires Rooted(raws, name, n)
  {
    forall k: nat :: k <= n ==> field(raws[Ancestor(raws, name, n, k)]).None?
  }

  /** The nearest profile in the chain that sets the field gives it this value, or nobody does and this is the default. */
  ghost predicate Inherits<T(!new)>(raws: Raws, name: string, n: nat, field: RawProfile -> Option<T>, default: Option<T>, value: T)
    requires Rooted(raws, name, n)
  {
    || (exists k: nat :: SetBy(raws, name, n, k, field) && field(raws[Ancestor(raws, name, n, k)]) == Some(value))
    || (NeverSet(raws, name, n, field) && default == Some(value))
  }

  lemma {:induction false} OwnValue<T(!new)>(raws: Raws, name: string, n: nat, field: RawProfile -> Option<T>, default: Option<T>, value: T)
    requires Rooted(raws, name, n) && (field(raws[name]) == Some(value) || (n == 0 && field(raws[name]).None? && default == Some(value)))
    ensures Inherits(raws, name, n, field, default, value)
  {
    assert Ancestor(raws, name, n, 0) == name;
    if field(raws[name]).Some? {
      assert SetBy(raws, name, n, 0, field);
    }
  }

  lemma {:induction false} ParentValue<T(!new)>(raws: Raws, name: string, n: nat, field: RawProfile -> Option<T>, default: Option<T>, value: T)
    requires Rooted(raws, name, n) && n > 0 && field(raws[name]).None?
    requires Inherits(raws, raws[name].parent.value, n - 1, field, default, value)
    ensures Inherits(raws, name, n, field, default, value)
  {
    var parent, m := raws[name].parent.value, n - 1;
    assert Ancestor(raws, name, n, 0) == name;
    if k: nat :| SetBy(raws, parent, m, k, field) && field(raws[Ancestor(raws, parent, m, k)]) == Some(value) {
      assert Ancestor(raws, name, n, k + 1) == Ancestor(raws, parent, m, k);
      forall j: nat | j < k + 1 ensures field(raws[Ancestor(raws, name, n, j)]).None? {
        assert j > 0 ==> Ancestor(raws, name, n, j) == Ancestor(raws, parent, m, j - 1);
      }
      assert SetBy(raws, name, n, k + 1, field);
    } else {
      forall k: nat | k <= n ensures field(raws[Ancestor(raws, name, n, k)]).None? {
        assert k > 0 ==> Ancestor(raws, name, n, k) == Ancestor(raws, parent, m, k - 1);
      }
    }
  }

  /** What a profile does not set itself comes from the nearest ancestor that does; without one it is read-only and runs no
      arbitrary commands, while some ancestor has to name an image. Its name is its own. */
  lemma {:induction false} ValuesOfChain(raws: Raws, name: string, n: nat)
    requires Stands(raws, name, n)
    ensures var p := Meaning(raws, name, n).value;
      && p.name == raws[name].name
      && Inherits(raws, name, n, (raw: RawProfile) => raw.image, None, p.image)
      && Inherits(raws, name, n, (raw: RawProfile) => raw.access, Some(ReadOnly), p.access)
      && Inherits(raws, name, n, (raw: RawProfile) => raw.allow, Some(false), p.allow)
  {
    ImageOfChain(raws, name, n);
    AccessOfChain(raws, name, n);
    AllowOfChain(raws, name, n);
  }

  lemma {:induction false} ImageOfChain(raws: Raws, name: string, n: nat)
    requires Stands(raws, name, n)
    ensures Inherits(raws, name, n, (raw: RawProfile) => raw.image, None, Meaning(raws, name, n).value.image)
    decreases n
  {
    var field := (raw: RawProfile) => raw.image;
    if raws[name].image.Some? || n == 0 {
      OwnValue(raws, name, n, field, None, Meaning(raws, name, n).value.image);
    } else {
      ImageOfChain(raws, raws[name].parent.value, n - 1);
      ParentValue(raws, name, n, field, None, Meaning(raws, name, n).value.image);
    }
  }

  lemma {:induction false} AccessOfChain(raws: Raws, name: string, n: nat)
    requires Stands(raws, name, n)
    ensures Inherits(raws, name, n, (raw: RawProfile) => raw.access, Some(ReadOnly), Meaning(raws, name, n).value.access)
    decreases n
  {
    var field := (raw: RawProfile) => raw.access;
    if raws[name].access.Some? || n == 0 {
      OwnValue(raws, name, n, field, Some(ReadOnly), Meaning(raws, name, n).value.access);
    } else {
      AccessOfChain(raws, raws[name].parent.value, n - 1);
      ParentValue(raws, name, n, field, Some(ReadOnly), Meaning(raws, name, n).value.access);
    }
  }

  lemma {:induction false} AllowOfChain(raws: Raws, name: string, n: nat)
    requires Stands(raws, name, n)
    ensures Inherits(raws, name, n, (raw: RawProfile) => raw.allow, Some(false), Meaning(raws, name, n).value.allow)
    decreases n
  {
    var field := (raw: RawProfile) => raw.allow;
    if raws[name].allow.Some? || n == 0 {
      OwnValue(raws, name, n, field, Some(false), Meaning(raws, name, n).value.allow);
    } else {
      AllowOfChain(raws, raws[name].parent.value, n - 1);
      ParentValue(raws, name, n, field, Some(false), Meaning(raws, name, n).value.allow);
    }
  }

  /** The two tools that run arbitrary commands need a permission. */
  predicate Permitted(tools: set<string>, allow: bool) {
    "run_command" in tools || "start_command" in tools ==> allow
  }

  /** A root stands when it names an image and some tools and needs no permission that it does not give. */
  lemma {:induction false} RootStands(raws: Raws, name: string)
    requires Rooted(raws, name, 0)
    ensures var raw := raws[name];
      Stands(raws, name, 0) <==>
      raw.image.Some? && raw.tools.Some? && raw.tools.value != {} && Permitted(raw.tools.value, raw.allow == Some(true))
  {
    var raw := raws[name];
    if raw.tools.Some? {
      NeedsPermissionFor(raw.tools.value);
    }
  }

  /** A profile that extends another one stands when that one does, it adds no tool that it inherits anyway, and the
      outcome has tools and the permission for them. */
  lemma {:induction false} ChildStands(raws: Raws, name: string, n: nat)
    requires Rooted(raws, name, n) && n > 0 && Stands(raws, raws[name].parent.value, n - 1)
    ensures var raw, parent := raws[name], Meaning(raws, raws[name].parent.value, n - 1).value;
      var tools := if raw.tools.Some? then raw.tools.value else parent.tools + (if raw.toolsAdd.Some? then raw.toolsAdd.value else {});
      Stands(raws, name, n) <==>
      && (raw.tools.None? && raw.toolsAdd.Some? ==> forall tool :: tool in raw.toolsAdd.value ==> tool !in parent.tools)
      && tools != {} && Permitted(tools, if raw.allow.Some? then raw.allow.value else parent.allow)
  {
    var raw, parent := raws[name], Meaning(raws, raws[name].parent.value, n - 1).value;
    var tools := if raw.tools.Some? then raw.tools.value else parent.tools + (if raw.toolsAdd.Some? then raw.toolsAdd.value else {});
    NeedsPermissionFor(tools);
    if raw.toolsAdd.Some? {
      assert parent.tools * raw.toolsAdd.value == {} <==> forall tool :: tool in raw.toolsAdd.value ==> tool !in parent.tools by {
        forall tool | tool in raw.toolsAdd.value && tool in parent.tools ensures tool in parent.tools * raw.toolsAdd.value {
        }
      }
    }
  }

  /** Nothing stands on a parent that does not. */
  lemma {:induction false} StandsOnParent(raws: Raws, name: string, n: nat)
    requires Stands(raws, name, n) && n > 0
    ensures Stands(raws, raws[name].parent.value, n - 1)
  {
  }

  lemma {:induction false} NeedsPermissionFor(tools: set<string>)
    ensures ARBITRARY * tools != {} <==> "run_command" in tools || "start_command" in tools
  {
    assert "run_command" in tools ==> "run_command" in ARBITRARY * tools;
    assert "start_command" in tools ==> "start_command" in ARBITRARY * tools;
  }

  /** Whatever resolves authorises a tool, and arbitrary commands only where they are allowed. */
  lemma {:induction false} ResolvedObeysRule(raws: Raws, name: string, n: nat)
    requires Stands(raws, name, n)
    ensures var p := Meaning(raws, name, n).value;
      p.tools != {} && (("run_command" in p.tools || "start_command" in p.tools) ==> p.allow)
  {
    var p := Meaning(raws, name, n).value;
    assert Validate(p).Success?;
    assert "run_command" in p.tools ==> "run_command" in ARBITRARY * p.tools;
    assert "start_command" in p.tools ==> "start_command" in ARBITRARY * p.tools;
  }

  // ----- Resolution

  /** How many profiles from this one upwards are not resolved yet. */
  ghost function Pending(raws: Raws, resolved: set<string>, name: string, n: nat): (r: nat)
    requires Rooted(raws, name, n)
    ensures r <= n + 1
    decreases n, raws
  {
    if name in resolved then 0 else 1 + if n == 0 then 0 else Pending(raws, resolved, raws[name].parent.value, n - 1)
  }

  ghost predicate Correct(raws: Raws, resolved: map<string, Profile>, name: string) {
    name in resolved ==>
      && (exists n: nat :: Stands(raws, name, n) && resolved[name] == Meaning(raws, name, n).value)
      && (raws[name].parent.Some? ==> raws[name].parent.value in resolved)
  }

  ghost predicate AllCorrect(raws: Raws, resolved: map<string, Profile>) {
    resolved.Keys <= raws.Keys && forall name :: Correct(raws, resolved, name)
  }

  /** Resolving `name` now ends well. */
  ghost predicate Resolves(raws: Raws, resolved: set<string>, depth: nat, name: string, n: nat) {
    Stands(raws, name, n) && depth + Pending(raws, resolved, name, n) <= MAX_DEPTH
  }

  function IndexOf(names: seq<string>, name: string): (i: nat)
    requires name in names
    ensures i < |names| && names[i] == name
  {
    if names[|names| - 1] == name && name !in names[..|names| - 1] then |names| - 1
    else
      assert names == names[..|names| - 1] + [names[|names| - 1]];
      IndexOf(names[..|names| - 1], name)
  }

  /** Every declared profile composes along a chain of parents that ends in a root. */
  ghost predicate AllStand(raws: Raws) {
    forall name :: name in raws ==> exists n: nat :: Stands(raws, name, n)
  }

  ghost predicate ShortChains(raws: Raws) {
    forall name, n: nat :: Rooted(raws, name, n) ==> n < MAX_DEPTH
  }

  /** Parents are declared before the profiles that extend them. */
  ghost predicate ParentsFirst(raws: Raws, order: seq<string>) {
    forall i :: 0 <= i < |order| && order[i] in raws && raws[order[i]].parent.Some? && raws[order[i]].parent.value in raws ==>
      raws[order[i]].parent.value in order[..i]
  }

  /** Exactly the profiles that are there, each once, in some order. */
  ghost predicate Declares(raws: Raws, order: seq<string>) {
    (forall name :: name in order <==> name in raws) && Distinct(order)
  }

  predicate Distinct(order: seq<string>) {
    forall i, j :: 0 <= i < j < |order| ==> order[i] != order[j]
  }

  class ProfileResolver {
    const raws: Raws
    var resolved: map<string, Profile>
    var resolving: seq<string>

    constructor (raws: Raws)
      ensures Valid() && this.raws == raws && resolved == map[] && resolving == []
    {
      this.raws := raws;
      resolved, resolving := map[], [];
    }

    ghost predicate Valid()
      reads this
    {
      && AllCorrect(raws, resolved) && |resolving| <= MAX_DEPTH && IsPath(raws, resolving)
      && forall i :: 0 <= i < |resolving| ==> resolving[i] !in resolved
    }

    /** `resolve`, called for a declared profile or for the parent of the last one on the stack. */
    method Resolve(name: string) returns (r: Outcome<Profile>)
      requires Valid() && IsPath(raws, resolving + [name])
      modifies this
      ensures Valid() && resolving == old(resolving)
      ensures r.Success? <==> exists n: nat :: Resolves(raws, old(resolved).Keys, |resolving|, name, n)
      ensures r.Success? ==> name in resolved && resolved[name] == r.value
      ensures old(resolved).Keys <= resolved.Keys
      ensures r.Success? ==> Grown(raws, old(resolved).Keys, resolved.Keys, name)
      decreases MAX_DEPTH - |resolving|
    {
      ghost var before, depth := resolved.Keys, |resolving|;
      assert (resolving + [name])[depth] == name;
      if name in resolved {
        AlreadyResolves(raws, resolved, depth, name);
        GrownAlready(raws, resolved, name);
        return Success(resolved[name]);
      }
      if name in resolving {
        StackCycles(raws, resolving, name, IndexOf(resolving, name));
        return Failure(Cycle(resolving[IndexOf(resolving, name)..] + [name]));
      }
      if |resolving| >= MAX_DEPTH {
        return Failure(TooDeep(name));
      }
      var raw := raws[name];
      if raw.parent.None? {
        RootResolves(raws, before, depth, name);
        r := Then(BuildRoot(raw));
      } else if raw.parent.value !in raws {
        NeedsParent(raws, name);
        r := Failure(UnknownParent(name));
      } else {
        r := ResolveChild(name, raw.parent.value);
      }
      if r.Success? {
        NowCorrect(raws, before, depth, resolved, name, r.value);
        GrownNow(raws, before, resolved.Keys, name);
        resolved := resolved[name := r.value];
      }
    }

    /** The profile waits on the stack while its parent is resolved. */
    method ResolveChild(name: string, parent: string) returns (r: Outcome<Profile>)
      requires Valid() && IsPath(raws, resolving + [name]) && name in raws && raws[name].parent == Some(parent) && parent in raws
      requires name !in resolved && name !in resolving && |resolving| < MAX_DEPTH
      modifies this
      ensures Valid() && resolving == old(resolving) && name !in resolved && old(resolved).Keys <= resolved.Keys
      ensures r.Success? <==> exists n: nat :: Resolves(raws, old(resolved).Keys, |resolving|, name, n)
      ensures r.Success? ==> parent in resolved && Grown(raws, old(resolved).Keys, resolved.Keys, parent)
      ensures r.Success? ==> forall n: nat :: Resolves(raws, old(resolved).Keys, |resolving|, name, n) ==> Meaning(raws, name, n) == r
      decreases MAX_DEPTH - |resolving|, 0
    {
      ghost var before, depth := resolved.Keys, |resolving|;
      PathGrows(raws, resolving, name, parent);
      resolving := resolving + [name];
      r := Resolve(parent);
      assert resolving[depth] == name;
      assert resolving[..depth] == old(resolving);
      resolving := resolving[..|resolving| - 1];
      if r.Success? {
        ParentMeaning(raws, resolved, parent, before, depth + 1);
        ChildResolves(raws, before, depth, depth + 1, name, parent, r.value);
        r := Then(Compose(r.value, raws[name]));
      } else {
        ChildNeedsParent(raws, before, depth, depth + 1, name, parent);
      }
    }

    /** `_resolve_execution_profiles`, with the declared names in their order. */
    method ResolveAll(order: seq<string>) returns (r: Outcome<map<string, Profile>>)
      requires Valid() && resolved == map[] && resolving == [] && Declares(raws, order)
      modifies this
      ensures r.Success? <==> AllStand(raws) && Fits(raws, order)
      ensures r.Success? ==> r.value.Keys == raws.Keys && AllCorrect(raws, r.value)
    {
      NothingThrough(raws, resolved, order);
      for i := 0 to |order|
        invariant Valid() && resolving == [] && Through(raws, resolved, order, i)
      {
        var p := ResolveNext(order, i);
        if p.Failure? {
          return Failure(p.error);
        }
      }
      AllResolved(raws, resolved, order);
      return Success(resolved);
    }

    /** One round: the next declared profile is resolved. */
    method ResolveNext(order: seq<string>, i: nat) returns (r: Outcome<Profile>)
      requires Valid() && resolving == [] && i < |order| && Declares(raws, order) && Through(raws, resolved, order, i)
      modifies this
      ensures Valid() && resolving == []
      ensures r.Success? ==> Through(raws, resolved, order, i + 1)
      ensures r.Failure? ==> !(AllStand(raws) && Fits(raws, order))
    {
      assert order[i] in order && IsPath(raws, resolving + [order[i]]);
      ResolvesWhen(raws, resolved, order, i);
      ghost var before := resolved;
      r := Resolve(order[i]);
      if r.Success? {
        ThroughNext(raws, before, resolved, order, i);
      } else {
        assert !(exists n: nat :: Stands(raws, order[i], n)) || !FitsAt(raws, order, i);
      }
    }
  }

  /** The first `i` declared profiles are resolved, with all they need and nothing else. */
  ghost predicate Through(raws: Raws, resolved: map<string, Profile>, order: seq<string>, i: nat) {
    && i <= |order| && resolved.Keys == Earlier(raws, order, i)
    && forall j :: 0 <= j < i ==> order[j] in resolved && FitsAt(raws, order, j)
  }

  lemma {:induction false} NothingThrough(raws: Raws, resolved: map<string, Profile>, order: seq<string>)
    requires resolved == map[]
    ensures Through(raws, resolved, order, 0)
  {
    assert resolved.Keys == {};
  }

  lemma {:induction false} ThroughNext(raws: Raws, before: map<string, Profile>, after: map<string, Profile>, order: seq<string>, i: nat)
    requires i < |order| && Through(raws, before, order, i) && before.Keys <= after.Keys && order[i] in after
    requires Grown(raws, before.Keys, after.Keys, order[i]) && FitsAt(raws, order, i) && exists n: nat :: Stands(raws, order[i], n)
    ensures Through(raws, after, order, i + 1)
  {
    EarlierNext(raws, order, i, before.Keys, after.Keys);
  }

  // ----- Which profiles a resolution adds

  /** The profile and all its ancestors. */
  ghost function Lineage(raws: Raws, name: string, n: nat): set<string>
    requires Rooted(raws, name, n)
    decreases n, raws
  {
    {name} + if n == 0 then {} else Lineage(raws, raws[name].parent.value, n - 1)
  }

  /** The same, or nothing for a profile without a root. */
  ghost function Family(raws: Raws, name: string): set<string> {
    if exists n: nat :: Rooted(raws, name, n) then (var n: nat :| Rooted(raws, name, n); Lineage(raws, name, n)) else {}
  }

  lemma {:induction false} FamilyIs(raws: Raws, name: string, n: nat)
    requires Rooted(raws, name, n)
    ensures Family(raws, name) == Lineage(raws, name, n)
  {
    var m: nat :| Rooted(raws, name, m) && Family(raws, name) == Lineage(raws, name, m);
    RootedOnce(raws, name, n, m);
  }

  /** Everything that the first `i` declared profiles need. */
  ghost function Earlier(raws: Raws, order: seq<string>, i: nat): set<string>
    requires i <= |order|
    decreases i, order
  {
    if i == 0 then {} else Earlier(raws, order, i - 1) + Family(raws, order[i - 1])
  }

  /** What the profile needs and no earlier one did is within the depth limit. */
  ghost predicate FitsAt(raws: Raws, order: seq<string>, i: nat) {
    i < |order| ==> |Family(raws, order[i]) - Earlier(raws, order, i)| <= MAX_DEPTH
  }

  ghost predicate Fits(raws: Raws, order: seq<string>) {
    forall i :: FitsAt(raws, order, i)
  }

  ghost predicate Grown(raws: Raws, before: set<string>, after: set<string>, name: string) {
    forall n: nat :: Rooted(raws, name, n) ==> after == before + Lineage(raws, name, n)
  }

  /** With every profile its parent is there too. */
  ghost predicate Closed(raws: Raws, resolved: set<string>) {
    forall name :: name in resolved && name in raws && raws[name].parent.Some? ==> raws[name].parent.value in resolved
  }

  lemma {:induction false} CorrectIsClosed(raws: Raws, resolved: map<string, Profile>)
    requires AllCorrect(raws, resolved)
    ensures Closed(raws, resolved.Keys)
  {
    forall name | name in resolved.Keys && name in raws && raws[name].parent.Some? ensures raws[name].parent.value in resolved.Keys {
      assert Correct(raws, resolved, name);
    }
  }

  lemma {:induction false} LineageResolved(raws: Raws, resolved: set<string>, name: string, n: nat)
    requires Closed(raws, resolved) && name in resolved && Rooted(raws, name, n)
    ensures Lineage(raws, name, n) <= resolved
    decreases n
  {
    if n > 0 {
      LineageResolved(raws, resolved, raws[name].parent.value, n - 1);
    }
  }

  lemma {:induction false} GrownAlready(raws: Raws, resolved: map<string, Profile>, name: string)
    requires AllCorrect(raws, resolved) && name in resolved
    ensures Grown(raws, resolved.Keys, resolved.Keys, name)
  {
    forall n: nat | Rooted(raws, name, n) ensures resolved.Keys == resolved.Keys + Lineage(raws, name, n) {
      CorrectIsClosed(raws, resolved);
      LineageResolved(raws, resolved.Keys, name, n);
    }
  }

  lemma {:induction false} GrownNow(raws: Raws, before: set<string>, mid: set<string>, name: string)
    requires name in raws
    requires if raws[name].parent.Some? then Grown(raws, before, mid, raws[name].parent.value) else mid == before
    ensures Grown(raws, before, mid + {name}, name)
  {
    forall n: nat | Rooted(raws, name, n) ensures mid + {name} == before + Lineage(raws, name, n) {
      if n > 0 {
        assert Rooted(raws, raws[name].parent.value, n - 1);
      }
    }
  }

  lemma {:induction false} LineageRooted(raws: Raws, name: string, n: nat, x: string) returns (m: nat)
    requires Rooted(raws, name, n) && x in Lineage(raws, name, n)
    ensures m <= n && Rooted(raws, x, m)
    decreases n
  {
    if x == name {
      m := n;
    } else {
      m := LineageRooted(raws, raws[name].parent.value, n - 1, x);
    }
  }

  /** A profile is no ancestor of its parent. */
  lemma {:induction false} NotAbove(raws: Raws, name: string, n: nat)
    requires Rooted(raws, name, n) && n > 0
    ensures name !in Lineage(raws, raws[name].parent.value, n - 1)
  {
    if name in Lineage(raws, raws[name].parent.value, n - 1) {
      var m := LineageRooted(raws, raws[name].parent.value, n - 1, name);
      RootedOnce(raws, name, n, m);
    }
  }

  lemma {:induction false} OneMore(a: set<string>, b: set<string>, x: string)
    requires x !in a && x !in b
    ensures |({x} + a) - b| == 1 + |a - b|
  {
    assert ({x} + a) - b == {x} + (a - b);
  }

  /** What is still to be resolved is what of the lineage is not resolved yet. */
  lemma {:induction false} PendingIs(raws: Raws, resolved: set<string>, name: string, n: nat)
    requires Closed(raws, resolved) && Rooted(raws, name, n)
    ensures Pending(raws, resolved, name, n) == |Lineage(raws, name, n) - resolved|
    decreases n
  {
    if name in resolved {
      LineageResolved(raws, resolved, name, n);
      assert Lineage(raws, name, n) - resolved == {};
    } else if n == 0 {
      assert Lineage(raws, name, n) - resolved == {name};
    } else {
      PendingIs(raws, resolved, raws[name].parent.value, n - 1);
      NotAbove(raws, name, n);
      OneMore(Lineage(raws, raws[name].parent.value, n - 1), resolved, name);
    }
  }

  /** A declared profile resolves exactly when it stands and what it needs in addition fits. */
  lemma {:induction false} ResolvesWhen(raws: Raws, resolved: map<string, Profile>, order: seq<string>, i: nat)
    requires AllCorrect(raws, resolved) && i < |order| && resolved.Keys == Earlier(raws, order, i)
    ensures (exists n: nat :: Resolves(raws, resolved.Keys, 0, order[i], n)) <==>
      (exists n: nat :: Stands(raws, order[i], n)) && FitsAt(raws, order, i)
  {
    var name := order[i];
    forall n: nat | Stands(raws, name, n) ensures Resolves(raws, resolved.Keys, 0, name, n) <==> FitsAt(raws, order, i) {
      CorrectIsClosed(raws, resolved);
      PendingIs(raws, resolved.Keys, name, n);
      FamilyIs(raws, name, n);
    }
    if n: nat :| Resolves(raws, resolved.Keys, 0, name, n) {
      assert Stands(raws, name, n);
    }
  }

  lemma {:induction false} EarlierNext(raws: Raws, order: seq<string>, i: nat, before: set<string>, after: set<string>)
    requires i < |order| && before == Earlier(raws, order, i) && Grown(raws, before, after, order[i])
    requires exists n: nat :: Stands(raws, order[i], n)
    ensures after == Earlier(raws, order, i + 1)
  {
    var n: nat :| Stands(raws, order[i], n);
    FamilyIs(raws, order[i], n);
  }

  lemma {:induction false} AllResolved(raws: Raws, resolved: map<string, Profile>, order: seq<string>)
    requires AllCorrect(raws, resolved) && Declares(raws, order)
    requires Through(raws, resolved, order, |order|)
    ensures resolved.Keys == raws.Keys && AllStand(raws) && Fits(raws, order)
  {
    forall name | name in raws ensures name in resolved && exists n: nat :: Stands(raws, name, n) {
      var j :| 0 <= j < |order| && order[j] == name;
      assert Correct(raws, resolved, name);
    }
  }

  // ----- Lemmas about one step of the resolution

  lemma {:induction false} AlreadyResolves(raws: Raws, resolved: map<string, Profile>, depth: nat, name: string)
    requires AllCorrect(raws, resolved) && name in resolved && depth <= MAX_DEPTH
    ensures exists n: nat :: Resolves(raws, resolved.Keys, depth, name, n)
  {
    assert Correct(raws, resolved, name);
    var n: nat :| Stands(raws, name, n);
    assert Resolves(raws, resolved.Keys, depth, name, n);
  }

  lemma {:induction false} StackCycles(raws: Raws, resolving: seq<string>, name: string, i: nat)
    requires IsPath(raws, resolving + [name]) && i < |resolving| && resolving[i] == name
    ensures forall n: nat :: !Rooted(raws, name, n)
  {
    var whole := resolving + [name];
    var cycle := whole[i..];
    forall k | 0 < k < |cycle| ensures raws[cycle[k - 1]].parent == Some(cycle[k]) {
      assert cycle[k - 1] == whole[i + k - 1] && cycle[k] == whole[i + k];
    }
    forall n: nat ensures !Rooted(raws, name, n) {
      CyclesHaveNoRoot(raws, cycle, n);
    }
  }

  lemma {:induction false} RootResolves(raws: Raws, before: set<string>, depth: nat, name: string)
    requires name in raws && raws[name].parent.None? && name !in before && depth < MAX_DEPTH
    ensures Then(BuildRoot(raws[name])).Success? <==> exists n: nat :: Resolves(raws, before, depth, name, n)
    ensures forall n: nat :: Resolves(raws, before, depth, name, n) ==> Meaning(raws, name, n) == Then(BuildRoot(raws[name]))
  {
    assert Rooted(raws, name, 0);
    assert Then(BuildRoot(raws[name])).Success? <==> Resolves(raws, before, depth, name, 0);
  }

  lemma {:induction false} PathGrows(raws: Raws, resolving: seq<string>, name: string, parent: string)
    requires IsPath(raws, resolving + [name]) && name in raws && raws[name].parent == Some(parent) && parent in raws
    ensures IsPath(raws, (resolving + [name]) + [parent])
  {
  }

  /** The value of a resolved profile is its meaning, however long its chain. */
  lemma {:induction false} ParentMeaning(raws: Raws, resolved: map<string, Profile>, parent: string, before: set<string>, depth: nat)
    requires AllCorrect(raws, resolved) && parent in resolved
    ensures forall m: nat :: Resolves(raws, before, depth, parent, m) ==> Meaning(raws, parent, m).value == resolved[parent]
  {
    assert Correct(raws, resolved, parent);
    var n: nat :| Stands(raws, parent, n) && resolved[parent] == Meaning(raws, parent, n).value;
    forall m: nat | Resolves(raws, before, depth, parent, m) ensures Meaning(raws, parent, m).value == resolved[parent] {
      RootedOnce(raws, parent, n, m);
    }
  }

  lemma {:induction false} ChildResolves(raws: Raws, before: set<string>, depth: nat, deeper: nat, name: string, parent: string, p: Profile)
    requires name in raws && raws[name].parent == Some(parent) && name !in before && deeper == depth + 1
    requires exists m: nat :: Resolves(raws, before, deeper, parent, m)
    requires forall m: nat :: Resolves(raws, before, deeper, parent, m) ==> Meaning(raws, parent, m).value == p
    ensures Then(Compose(p, raws[name])).Success? <==> exists n: nat :: Resolves(raws, before, depth, name, n)
    ensures forall n: nat :: Resolves(raws, before, depth, name, n) ==> Meaning(raws, name, n) == Then(Compose(p, raws[name]))
  {
    var m: nat :| Resolves(raws, before, deeper, parent, m);
    assert Rooted(raws, name, m + 1);
    assert Meaning(raws, name, m + 1) == Then(Compose(p, raws[name]));
    assert Then(Compose(p, raws[name])).Success? ==> Resolves(raws, before, depth, name, m + 1);
    forall n: nat | Resolves(raws, before, depth, name, n) ensures n == m + 1 {
      RootedOnce(raws, name, n, m + 1);
    }
  }

  lemma {:induction false} NeedsParent(raws: Raws, name: string)
    requires name in raws && raws[name].parent.Some? && raws[name].parent.value !in raws
    ensures forall n: nat :: !Rooted(raws, name, n)
  {
    var parent := raws[name].parent.value;
    forall n: nat ensures !Rooted(raws, name, n) {
      assert n > 0 ==> !Rooted(raws, parent, n - 1);
    }
  }

  lemma {:induction false} ParentResolves(raws: Raws, before: set<string>, depth: nat, deeper: nat, name: string, parent: string, n: nat)
    requires name in raws && raws[name].parent == Some(parent) && name !in before && deeper == depth + 1
    requires Resolves(raws, before, depth, name, n)
    ensures exists m: nat :: Resolves(raws, before, deeper, parent, m)
  {
    assert Resolves(raws, before, deeper, parent, n - 1);
  }

  lemma {:induction false} ChildNeedsParent(raws: Raws, before: set<string>, depth: nat, deeper: nat, name: string, parent: string)
    requires name in raws && raws[name].parent == Some(parent) && name !in before && deeper == depth + 1
    requires !exists m: nat :: Resolves(raws, before, deeper, parent, m)
    ensures !exists n: nat :: Resolves(raws, before, depth, name, n)
  {
    if n: nat :| Resolves(raws, before, depth, name, n) {
      ParentResolves(raws, before, depth, deeper, name, parent, n);
    }
  }

  lemma {:induction false} NowCorrect(raws: Raws, before: set<string>, depth: nat, resolved: map<string, Profile>, name: string, p: Profile)
    requires AllCorrect(raws, resolved) && name in raws && (raws[name].parent.Some? ==> raws[name].parent.value in resolved)
    requires exists n: nat :: Resolves(raws, before, depth, name, n)
    requires forall n: nat :: Resolves(raws, before, depth, name, n) ==> Meaning(raws, name, n) == Success(p)
    ensures AllCorrect(raws, resolved[name := p])
  {
    var n: nat :| Resolves(raws, before, depth, name, n);
    assert Stands(raws, name, n);
    var after := resolved[name := p];
    forall other ensures Correct(raws, after, other) {
      assert Correct(raws, resolved, other);
    }
  }

  // ----- When the order of declaration matters

  lemma {:induction false} LineageSize(raws: Raws, name: string, n: nat)
    requires Rooted(raws, name, n)
    ensures |Lineage(raws, name, n)| == n + 1
    decreases n
  {
    if n > 0 {
      LineageSize(raws, raws[name].parent.value, n - 1);
      NotAbove(raws, name, n);
    }
  }

  lemma {:induction false} Fewer(a: set<string>, b: set<string>)
    ensures |a - b| <= |a|
  {
    assert a == (a - b) + (a * b);
  }

  /** With chains of at most 128 profiles every order is accepted. */
  lemma {:induction false} ShortChainsFit(raws: Raws, order: seq<string>)
    requires ShortChains(raws)
    ensures Fits(raws, order)
  {
    forall i: nat ensures FitsAt(raws, order, i) {
      if i < |order| {
        Fewer(Family(raws, order[i]), Earlier(raws, order, i));
        if n: nat :| Rooted(raws, order[i], n) {
          FamilyIs(raws, order[i], n);
          LineageSize(raws, order[i], n);
        }
      }
    }
  }

  lemma {:induction false} EarlierHolds(raws: Raws, order: seq<string>, i: nat, j: nat)
    requires j < i <= |order|
    ensures Family(raws, order[j]) <= Earlier(raws, order, i)
  {
    if j < i - 1 {
      EarlierHolds(raws, order, i - 1, j);
    }
  }

  lemma {:induction false} OnlyItself(raws: Raws, order: seq<string>, i: nat)
    requires ParentsFirst(raws, order) && i < |order|
    ensures Family(raws, order[i]) - Earlier(raws, order, i) <= {order[i]}
  {
    var name := order[i];
    if n: nat :| Rooted(raws, name, n) {
      FamilyIs(raws, name, n);
      if n > 0 {
        var parent := raws[name].parent.value;
        assert Rooted(raws, parent, n - 1);
        FamilyIs(raws, parent, n - 1);
        assert parent in order[..i];
        var j :| 0 <= j < i && order[..i][j] == parent;
        EarlierHolds(raws, order, i, j);
      }
    }
  }

  /** With parents declared first every length of chain is accepted. */
  lemma {:induction false} ParentsFirstFits(raws: Raws, order: seq<string>)
    requires ParentsFirst(raws, order)
    ensures Fits(raws, order)
  {
    forall i: nat ensures FitsAt(raws, order, i) {
      if i < |order| {
        OnlyItself(raws, order, i);
        AtMostOne(Family(raws, order[i]) - Earlier(raws, order, i), order[i]);
      }
    }
  }

  lemma {:induction false} AtMostOne(s: set<string>, x: string)
    requires s <= {x}
    ensures |s| <= 1
  {
    assert s == {} || s == {x};
  }

  /** With the far end of a chain of more than 128 profiles declared first, it is refused. */
  lemma {:induction false} DeepFirstFails(raws: Raws, order: seq<string>, n: nat)
    requires order != [] && Rooted(raws, order[0], n) && n >= MAX_DEPTH
    ensures !Fits(raws, order)
  {
    FamilyIs(raws, order[0], n);
    LineageSize(raws, order[0], n);
    assert Family(raws, order[0]) - Earlier(raws, order, 0) == Family(raws, order[0]);
    assert !FitsAt(raws, order, 0);
  }

  /** The `k`-th profile of a long chain. */
  function Link(k: nat): string {
    seq(k, _ => 'x')
  }

  function LinkRaw(k: nat): RawProfile {
    if k == 0 then RawProfile(Link(0), None, Some("image"), Some({"run_pytest"}), None, None, None)
    else RawProfile(Link(k), Some(Link(k - 1)), None, None, None, None, None)
  }

  function LongChain(n: nat): Raws
    decreases n, ARBITRARY
  {
    if n == 0 then map[Link(0) := LinkRaw(0)] else LongChain(n - 1)[Link(n) := LinkRaw(n)]
  }

  function Links(n: nat): (r: seq<string>)
    ensures |r| == n
    decreases n, ARBITRARY
  {
    if n == 0 then [] else Links(n - 1) + [Link(n - 1)]
  }

  lemma {:induction false} LinkDiffers(j: nat, k: nat)
    ensures Link(j) == Link(k) <==> j == k
  {
    assert |Link(j)| == j && |Link(k)| == k;
  }

  lemma {:induction false} LongChainHas(n: nat, k: nat)
    requires k <= n
    ensures Link(k) in LongChain(n) && LongChain(n)[Link(k)] == LinkRaw(k)
  {
    LinkDiffers(n, k);
    if k < n {
      LongChainHas(n - 1, k);
    }
  }

  lemma {:induction false} LongChainOnly(n: nat, name: string) returns (k: nat)
    requires name in LongChain(n)
    ensures k <= n && name == Link(k)
  {
    if n == 0 || name == Link(n) {
      k := n;
    } else {
      k := LongChainOnly(n - 1, name);
    }
  }

  lemma {:induction false} LinkStands(n: nat, k: nat)
    requires k <= n
    ensures Rooted(LongChain(n), Link(k), k)
    ensures Meaning(LongChain(n), Link(k), k) == Success(Profile(Link(k), "image", {"run_pytest"}, ReadOnly, false))
    decreases k
  {
    LongChainHas(n, k);
    if k > 0 {
      LinkStands(n, k - 1);
      assert {"run_pytest"} + {} == {"run_pytest"};
    }
    assert ARBITRARY * {"run_pytest"} == {};
  }

  lemma {:induction false} LinksAt(n: nat, i: nat)
    requires i < n
    ensures Links(n)[i] == Link(i)
  {
    if i < n - 1 {
      LinksAt(n - 1, i);
    }
  }

  lemma {:induction false} LinksAreAll(n: nat, name: string)
    ensures name in Links(n + 1) <==> name in LongChain(n)
  {
    if name in LongChain(n) {
      var k := LongChainOnly(n, name);
      LinksAt(n + 1, k);
    }
    if name in Links(n + 1) {
      var i :| 0 <= i < n + 1 && Links(n + 1)[i] == name;
      LinksAt(n + 1, i);
      LongChainHas(n, i);
    }
  }

  lemma {:induction false} LinksParentsFirst(n: nat)
    ensures ParentsFirst(LongChain(n), Links(n + 1))
  {
    var order := Links(n + 1);
    forall i | 0 <= i < |order| && order[i] in LongChain(n) && LongChain(n)[order[i]].parent.Some?
      ensures LongChain(n)[order[i]].parent.value in order[..i]
    {
      LinksAt(n + 1, i);
      LongChainHas(n, i);
      LinksAt(n + 1, i - 1);
      assert order[..i][i - 1] == Link(i - 1);
    }
  }

  lemma {:induction false} LinksDiffer(n: nat)
    ensures Distinct(Links(n + 1)) && Distinct([Link(n)] + Links(n))
    ensures forall name :: name in [Link(n)] + Links(n) <==> name in Links(n + 1)
  {
    forall i | 0 <= i < n + 1 ensures Links(n + 1)[i] == Link(i) && (i < n ==> Links(n)[i] == Link(i)) {
      LinksAt(n + 1, i);
    }
    var refused := [Link(n)] + Links(n);
    forall i, j | 0 <= i < j < n + 1 ensures Links(n + 1)[i] != Links(n + 1)[j] && refused[i] != refused[j] {
      LinkDiffers(i, j);
      LinkDiffers(if i == 0 then n else i - 1, j - 1);
    }
    assert Links(n + 1) == Links(n) + [Link(n)];
  }

  /** The same 129 profiles are accepted from the root on and refused from the far end on. */
  lemma {:induction false} OrderMatters() returns (raws: Raws, accepted: seq<string>, refused: seq<string>)
    ensures Declares(raws, accepted) && Declares(raws, refused)
    ensures AllStand(raws) && Fits(raws, accepted) && !Fits(raws, refused)
  {
    var n := MAX_DEPTH;
    raws, accepted := LongChain(n), Links(n + 1);
    refused := [Link(n)] + Links(n);
    LinksDiffer(n);
    forall name ensures name in accepted <==> name in raws {
      LinksAreAll(n, name);
    }
    forall name | name in raws ensures exists k: nat :: Stands(raws, name, k) {
      var k := LongChainOnly(n, name);
      LinkStands(n, k);
      assert Stands(raws, name, k);
    }
    LinksParentsFirst(n);
    ParentsFirstFits(raws, accepted);
    LinkStands(n, n);
    DeepFirstFails(raws, refused, n);
  }
}
