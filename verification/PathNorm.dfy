/** Lexical path normalization, against a walk through a symlink-free file tree. */
module PathNorm {
  import opened Common

  datatype BadPath = NotAbsolute | EmbeddedNul

  /** Rust's `path.split('/')`: always at least one component. */
  function Components(path: string): (r: seq<string>)
    ensures r != []
  {
    if path == [] then [""]
    else
      var rest := Components(path[1..]);
      if path[0] == '/' then [""] + rest
      else [[path[0]] + rest[0]] + rest[1..]
  }

  /** What one component does to the stack of names. */
  function Push(stack: seq<string>, component: string): seq<string> {
    if component == "" || component == "." then stack
    else if component == ".." then (if stack == [] then stack else stack[..|stack| - 1])
    else stack + [component]
  }

  /** The names left after all components. */
  function Resolve(components: seq<string>): seq<string> {
    if components == [] then [] else
      Push(Resolve(components[..|components| - 1]), components[|components| - 1])
  }

  function Render(names: seq<string>): string {
    if names == [] then "" else Render(names[..|names| - 1]) + "/" + names[|names| - 1]
  }

  function Canonical(names: seq<string>): string {
    if names == [] then "/" else Render(names)
  }

  predicate Accepted(path: string) {
    path != [] && path[0] == '/' && '\0' !in path
  }

  /** The names of the node a path denotes. */
  function NamesOf(path: string): seq<string> {
    Resolve(Components(path))
  }

  function Normalized(path: string): Result<string, BadPath> {
    if path == [] || path[0] != '/' then Err(NotAbsolute)
    else if '\0' in path then Err(EmbeddedNul)
    else Ok(Canonical(NamesOf(path)))
  }

  /** One loop pushes and pops components, a second prints what is left. */
  method NormalizeAbsolute(path: string) returns (r: Result<string, BadPath>)
    ensures r == Normalized(path)
  {
    if path == [] || path[0] != '/' {
      return Err(NotAbsolute);
    }
    if '\0' in path {
      return Err(EmbeddedNul);
    }
    var components := Components(path);
    var stack: seq<string> := [];
    for i := 0 to |components|
      invariant stack == Resolve(components[..i])
    {
      assert components[..i + 1][..i] == components[..i];
      match components[i] {
        case "" =>
        case "." =>
        case ".." => stack := if stack == [] then stack else stack[..|stack| - 1];
        case name => stack := stack + [name];
      }
    }
    assert components[..|components|] == components;
    if stack == [] {
      return Ok("/");
    }
    var out := "";
    for i := 0 to |stack|
      invariant out == Render(stack[..i])
    {
      assert stack[..i + 1][..i] == stack[..i];
      out := out + "/";
      out := out + stack[i];
    }
    assert stack[..|stack|] == stack;
    r := Ok(out);
  }

  // ----- Names ------------------------------------------------------------------

  predicate IsName(s: string) {
    s != "" && s != "." && s != ".." && '/' !in s
  }

  ghost predicate AreNames(names: seq<string>) {
    forall i :: 0 <= i < |names| ==> IsName(names[i])
  }

  ghost predicate Without(parts: seq<string>, c: char) {
    forall i :: 0 <= i < |parts| ==> c !in parts[i]
  }

  lemma {:induction false} ComponentsWithout(path: string, c: char)
    requires c == '/' || c !in path
    ensures Without(Components(path), c)
  {
    if path != [] {
      ComponentsWithout(path[1..], c);
    }
  }

  lemma {:induction false} ResolveGivesNames(components: seq<string>)
    requires Without(components, '/')
    ensures AreNames(Resolve(components))
  {
    if components != [] {
      ResolveGivesNames(components[..|components| - 1]);
    }
  }

  lemma {:induction false} ResolveKeepsWithout(components: seq<string>, c: char)
    requires Without(components, c)
    ensures Without(Resolve(components), c)
  {
    if components != [] {
      ResolveKeepsWithout(components[..|components| - 1], c);
    }
  }

  lemma {:induction false} ResolveOfNames(names: seq<string>)
    requires AreNames(names)
    ensures Resolve(names) == names
  {
    if names != [] {
      ResolveOfNames(names[..|names| - 1]);
    }
  }

  lemma {:induction false} ResolveSkipsEmpty(components: seq<string>)
    ensures Resolve([""] + components) == Resolve(components)
  {
    var all := [""] + components;
    if components == [] {
      assert all[..0] == [];
    } else {
      assert all[..|all| - 1] == [""] + components[..|components| - 1];
      ResolveSkipsEmpty(components[..|components| - 1]);
    }
  }

  lemma {:induction false} ComponentsAppend(path: string, name: string)
    requires '/' !in name
    ensures Components(path + "/" + name) == Components(path) + [name]
  {
    var whole := path + "/" + name;
    if path == [] {
      assert whole[1..] == name;
      ComponentsOfName(name);
    } else {
      assert whole[1..] == path[1..] + "/" + name;
      ComponentsAppend(path[1..], name);
    }
  }

  lemma {:induction false} ComponentsOfName(name: string)
    requires '/' !in name
    ensures Components(name) == [name]
  {
    if name != [] {
      ComponentsOfName(name[1..]);
      assert name == [name[0]] + name[1..];
    }
  }

  /** Splitting a rendered path gives its names back. */
  lemma {:induction false} ComponentsOfRender(names: seq<string>)
    requires AreNames(names)
    ensures Components(Render(names)) == [""] + names
  {
    if names != [] {
      var n := |names| - 1;
      ComponentsOfRender(names[..n]);
      ComponentsAppend(Render(names[..n]), names[n]);
    }
  }

  lemma NamesOfCanonical(names: seq<string>)
    requires AreNames(names)
    ensures NamesOf(Canonical(names)) == names
  {
    if names == [] {
      assert Components("/") == ["", ""];
      ResolveSkipsEmpty([""]);
      ResolveSkipsEmpty([]);
    } else {
      ComponentsOfRender(names);
      ResolveSkipsEmpty(names);
      ResolveOfNames(names);
    }
  }

  lemma NamesOfAreNames(path: string)
    ensures AreNames(NamesOf(path))
  {
    ComponentsWithout(path, '/');
    ResolveGivesNames(Components(path));
  }

  // ----- Canonical form -----------------------------------------------------------

  /** Absolute, without NUL, and either the root or made of real names only. */
  ghost predicate IsCanonical(path: string) {
    && Accepted(path)
    && (path == "/" || AreNames(Components(path)[1..]))
  }

  lemma {:induction false} RenderWithout(names: seq<string>, c: char)
    requires c != '/' && Without(names, c)
    ensures c !in Render(names)
  {
    if names != [] {
      RenderWithout(names[..|names| - 1], c);
    }
  }

  lemma {:induction false} RenderStartsWithSlash(names: seq<string>)
    requires names != []
    ensures Render(names) != [] && Render(names)[0] == '/'
  {
    if |names| > 1 {
      RenderStartsWithSlash(names[..|names| - 1]);
    }
  }

  /** Every accepted path normalizes to canonical form. */
  lemma NormalizedIsCanonical(path: string)
    requires Accepted(path)
    ensures IsCanonical(Canonical(NamesOf(path)))
  {
    var names := NamesOf(path);
    NamesOfAreNames(path);
    ComponentsWithout(path, '\0');
    ResolveKeepsWithout(Components(path), '\0');
    if names != [] {
      RenderWithout(names, '\0');
      RenderStartsWithSlash(names);
      ComponentsOfRender(names);
    }
  }

  lemma {:induction false} RenderInvertsComponents(path: string)
    ensures path == Components(path)[0] + Render(Components(path)[1..])
  {
    if path != [] {
      var rest := Components(path[1..]);
      RenderInvertsComponents(path[1..]);
      if path[0] == '/' {
        assert Components(path)[1..] == rest;
        RenderCons(rest[0], rest[1..]);
        assert rest == [rest[0]] + rest[1..];
      } else {
        assert Components(path)[1..] == rest[1..];
      }
    }
  }

  lemma {:induction false} RenderCons(name: string, names: seq<string>)
    ensures Render([name] + names) == "/" + name + Render(names)
  {
    var all := [name] + names;
    if names == [] {
      assert all[..0] == [];
    } else {
      assert all[..|all| - 1] == [name] + names[..|names| - 1];
      RenderCons(name, names[..|names| - 1]);
    }
  }

  /** The canonical paths are exactly the fixed points of normalization. */
  lemma CanonicalIffFixed(path: string)
    ensures IsCanonical(path) <==> Normalized(path) == Ok(path)
  {
    if Normalized(path) == Ok(path) {
      NormalizedIsCanonical(path);
    } else if IsCanonical(path) {
      if path == "/" {
        NamesOfCanonical([]);
      } else {
        var parts := Components(path);
        RenderInvertsComponents(path);
        assert parts[0] == "";
        assert path == Render(parts[1..]);
        assert Render([]) == "";
        NamesOfCanonical(parts[1..]);
      }
    }
  }

  /** Normalizing twice is normalizing once. */
  lemma NormalizeIsIdempotent(path: string)
    requires Normalized(path).Ok?
    ensures Normalized(Normalized(path).value) == Normalized(path)
  {
    NormalizedIsCanonical(path);
    CanonicalIffFixed(Normalized(path).value);
  }

  // ----- The walk through a file tree ------------------------------------------------

  /** A file tree without symlinks: going to a child and back up leads back. */
  datatype Tree<!N> = Tree(root: N, child: (N, string) -> N, parent: N -> N)

  ghost predicate Lawful<N(!new)>(t: Tree<N>) {
    && t.parent(t.root) == t.root
    && forall n, name :: t.parent(t.child(n, name)) == n
  }

  function Enter<N>(t: Tree<N>, at: N, component: string): N {
    if component == "" || component == "." then at
    else if component == ".." then t.parent(at)
    else t.child(at, component)
  }

  /** Where walking the components from the root leads. */
  ghost function Walk<N>(t: Tree<N>, components: seq<string>): N {
    if components == [] then t.root else
      Enter(t, Walk(t, components[..|components| - 1]), components[|components| - 1])
  }

  /** The node with the given names. */
  ghost function NodeAt<N>(t: Tree<N>, names: seq<string>): N {
    if names == [] then t.root else
      t.child(NodeAt(t, names[..|names| - 1]), names[|names| - 1])
  }

  lemma {:induction false} WalkReachesNode<N(!new)>(t: Tree<N>, components: seq<string>)
    requires Lawful(t)
    ensures Walk(t, components) == NodeAt(t, Resolve(components))
  {
    if components != [] {
      WalkReachesNode(t, components[..|components| - 1]);
    }
  }

  /** In every lawful tree a path and its normal form lead to the same node. */
  lemma NormalizeKeepsTarget<N(!new)>(t: Tree<N>, path: string)
    requires Lawful(t) && Normalized(path).Ok?
    ensures Walk(t, Components(path)) == Walk(t, Components(Normalized(path).value))
  {
    WalkReachesNode(t, Components(path));
    WalkReachesNode(t, Components(Normalized(path).value));
    NamesOfAreNames(path);
    NamesOfCanonical(NamesOf(path));
  }

  /** The tree in which every node is its list of names. */
  ghost function FreeTree(): Tree<seq<string>> {
    Tree([], (n: seq<string>, name: string) => n + [name],
         (n: seq<string>) => if n == [] then n else n[..|n| - 1])
  }

  lemma {:induction false} FreeNode(names: seq<string>)
    ensures NodeAt(FreeTree(), names) == names
  {
    if names != [] {
      FreeNode(names[..|names| - 1]);
    }
  }

  lemma CanonicalInjective(a: seq<string>, b: seq<string>)
    requires AreNames(a) && AreNames(b) && Canonical(a) == Canonical(b)
    ensures a == b
  {
    NamesOfCanonical(a);
    NamesOfCanonical(b);
  }

  ghost predicate SameTarget(t: Tree<seq<string>>, p: string, q: string) {
    Walk(t, Components(p)) == Walk(t, Components(q))
  }

  /** Two accepted paths normalize alike if and only if they lead to the same node of every lawful tree. */
  lemma NormalizeEqualIffSameTarget(p: string, q: string)
    requires Accepted(p) && Accepted(q)
    ensures Normalized(p) == Normalized(q)
       <==> forall t: Tree<seq<string>> :: Lawful(t) ==> SameTarget(t, p, q)
  {
    NamesOfAreNames(p);
    NamesOfAreNames(q);
    if Normalized(p) == Normalized(q) {
      CanonicalInjective(NamesOf(p), NamesOf(q));
      forall t: Tree<seq<string>> | Lawful(t) ensures SameTarget(t, p, q) {
        WalkReachesNode(t, Components(p));
        WalkReachesNode(t, Components(q));
      }
    } else {
      var t := FreeTree();
      assert Lawful(t) by {
        forall n: seq<string>, name: string ensures t.parent(t.child(n, name)) == n {
          assert (n + [name])[..|n|] == n;
        }
      }
      WalkReachesNode(t, Components(p));
      WalkReachesNode(t, Components(q));
      FreeNode(NamesOf(p));
      FreeNode(NamesOf(q));
      assert !SameTarget(t, p, q);
    }
  }
}
