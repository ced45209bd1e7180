/** The compiled-in path denylist and the deny-first policy decision. */
module Denylist {
  import opened Common
  import opened PathNorm

  datatype Category = SelfProtection | Ssh | Firewall | Destruction | MassDeletion | Identity | Kernel | Exfiltration

  /** What a rule is about: every access, or changes only. */
  datatype Scope = Modify | Any

  datatype Access = Read | Write

  datatype Rule = Rule(id: string, category: Category, patterns: seq<string>, scope: Scope)

  // The suffix of a directory pattern: everything below.
  const BELOW: string := "/**"

  /** The rule table with its path patterns; a rule's position is its identity. */
  const RULES: seq<Rule> := [
    Rule("self-protection", SelfProtection, [
           "/etc/archangel" + BELOW,
           "/var/lib/archangel" + BELOW,
           "/var/lib/archangel-exec" + BELOW,
           "/var/log/archangel" + BELOW,
           "/usr/bin/archangel*",
           "/usr/lib/systemd/system/archangel*.service",
           "/etc/systemd/system/archangel*.service",
           "/etc/systemd/system/archangel*.service.d" + BELOW], Modify),
    Rule("ssh", Ssh, [
           "/etc/ssh" + BELOW,
           "/root/.ssh/authorized_keys",
           "/home/*/.ssh/authorized_keys"], Any),
    Rule("firewall", Firewall, [], Modify),
    Rule("destruction", Destruction, [], Modify),
    Rule("mass-deletion", MassDeletion, [], Modify),
    Rule("identity", Identity, [
           "/etc/shadow",
           "/etc/gshadow",
           "/etc/sudoers",
           "/etc/sudoers.d" + BELOW,
           "/etc/pam.d" + BELOW,
           "/etc/security" + BELOW], Any),
    Rule("kernel", Kernel, ["/boot" + BELOW, "/etc/default/grub", "/etc/grub.d" + BELOW], Modify),
    Rule("exfiltration", Exfiltration, [], Modify)
  ]

  /** A compiled pattern and the position of the rule that owns it. */
  datatype Glob = Glob(pattern: string, owner: nat)

  // A pattern `dir/**` also covers the directory node itself.
  function ExpandDirGlob(pattern: string): seq<string> {
    if |pattern| >= 3 && pattern[|pattern| - 3..] == BELOW then [pattern, pattern[..|pattern| - 3]] else [pattern]
  }

  /** The globs of the rules of one scope, in table order. */
  function Compiled(rules: seq<Rule>, scope: Scope): seq<Glob> {
    if rules == [] then [] else
      var n := |rules| - 1;
      Compiled(rules[..n], scope) + if rules[n].scope == scope then Globs(rules[n].patterns, n) else []
  }

  function Globs(patterns: seq<string>, owner: nat): seq<Glob> {
    if patterns == [] then [] else
      var n := |patterns| - 1;
      Globs(patterns[..n], owner) + Own(ExpandDirGlob(patterns[n]), owner)
  }

  function Own(patterns: seq<string>, owner: nat): seq<Glob> {
    seq(|patterns|, i requires 0 <= i < |patterns| => Glob(patterns[i], owner))
  }

  // The patterns of the table: `*` stays within a component, a final `/**` matches everything below.
  predicate Matches(pattern: string, path: string)
    decreases |pattern| + |path|
  {
    if pattern == BELOW then path != "" && path[0] == '/'
    else if pattern == "" then path == ""
    else if pattern[0] == '*' then
      Matches(pattern[1..], path) || (path != "" && path[0] != '/' && Matches(pattern, path[1..]))
    else path != "" && path[0] == pattern[0] && Matches(pattern[1..], path[1..])
  }

  /** The compiled table. */
  datatype Table = Table(anyGlobs: seq<Glob>, modifyGlobs: seq<Glob>)

  lemma CompiledSnoc(rules: seq<Rule>, n: nat, scope: Scope)
    requires n < |rules|
    ensures Compiled(rules[..n + 1], scope)
         == Compiled(rules[..n], scope) + if rules[n].scope == scope then Globs(rules[n].patterns, n) else []
  {
    assert rules[..n + 1][..n] == rules[..n];
  }

  lemma GlobsSnoc(patterns: seq<string>, n: nat, owner: nat)
    requires n < |patterns|
    ensures Globs(patterns[..n + 1], owner) == Globs(patterns[..n], owner) + Own(ExpandDirGlob(patterns[n]), owner)
  {
    assert patterns[..n + 1][..n] == patterns[..n];
  }

  lemma NothingCompiled(scope: Scope, owner: nat)
    ensures Compiled([], scope) == [] && Globs([], owner) == []
  {
  }

  /** The globs of one rule, each pattern expanded. */
  method CompileRule(patterns: seq<string>, owner: nat) returns (own: seq<Glob>)
    ensures own == Globs(patterns, owner)
  {
    own := [];
    for k := 0 to |patterns|
      invariant own == Globs(patterns[..k], owner)
    {
      GlobsSnoc(patterns, k, owner);
      own := own + Own(ExpandDirGlob(patterns[k]), owner);
    }
    assert patterns[..|patterns|] == patterns;
  }

  /** Compile the rules once: every pattern, expanded, goes to the list of its rule's scope. */
  method Build(rules: seq<Rule>) returns (t: Table)
    ensures t == Table(Compiled(rules, Any), Compiled(rules, Modify))
  {
    hide Compiled, Globs, Own, ExpandDirGlob;
    var anyGlobs, modifyGlobs: seq<Glob> := [], [];
    NothingCompiled(Any, 0);
    NothingCompiled(Modify, 0);
    for r := 0 to |rules|
      invariant anyGlobs == Compiled(rules[..r], Any) && modifyGlobs == Compiled(rules[..r], Modify)
    {
      CompiledSnoc(rules, r, Any);
      CompiledSnoc(rules, r, Modify);
      var own := CompileRule(rules[r].patterns, r);
      match rules[r].scope {
        case Any => anyGlobs := anyGlobs + own;
        case Modify => modifyGlobs := modifyGlobs + own;
      }
    }
    assert rules[..|rules|] == rules;
    t := Table(anyGlobs, modifyGlobs);
  }

  /** The owner of the first glob that matches. */
  function FirstOwner(globs: seq<Glob>, path: string): (r: Option<nat>)
    ensures r.Some? <==> exists i :: 0 <= i < |globs| && Matches(globs[i].pattern, path)
    ensures r.Some? ==> exists i :: 0 <= i < |globs| && globs[i].owner == r.value && Matches(globs[i].pattern, path)
                                    && forall j :: 0 <= j < i ==> !Matches(globs[j].pattern, path)
  {
    if globs == [] then None
    else if Matches(globs[0].pattern, path) then Some(globs[0].owner)
    else
      var r := FirstOwner(globs[1..], path);
      assert forall i :: 1 <= i < |globs| ==> globs[i] == globs[1..][i - 1];
      r
  }

  /** What matched: a rule of the table, or the synthetic denial of a path that cannot be normalized. */
  datatype DenyMatch = ByRule(rule: nat) | FailClosed(why: BadPath) | ByCommand(command: string)

  function CheckPath(rules: seq<Rule>, path: string, access: Access): Option<DenyMatch> {
    match Normalized(path)
    case Err(why) => Some(FailClosed(why))
    case Ok(normal) =>
      match FirstOwner(Compiled(rules, Any), normal)
      case Some(owner) => Some(ByRule(owner))
      case None =>
        if access == Read then None else
          match FirstOwner(Compiled(rules, Modify), normal)
          case Some(owner) => Some(ByRule(owner))
          case None => None
  }

  /** Normalize, then look in the compiled table: first the Any rules, for a write also the Modify rules. */
  method CheckPathIn(t: Table, ghost rules: seq<Rule>, path: string, access: Access) returns (r: Option<DenyMatch>)
    requires t == Table(Compiled(rules, Any), Compiled(rules, Modify))
    ensures r == CheckPath(rules, path, access)
  {
    var normalized := NormalizeAbsolute(path);
    if normalized.Err? {
      return Some(FailClosed(normalized.error));
    }
    var owner := FirstOwner(t.anyGlobs, normalized.value);
    if owner.Some? {
      return Some(ByRule(owner.value));
    }
    if access == Write {
      owner := FirstOwner(t.modifyGlobs, normalized.value);
      if owner.Some? {
        return Some(ByRule(owner.value));
      }
    }
    r := None;
  }

  // ----- What the compiled table means -------------------------------------------

  ghost predicate PatternCovers(pattern: string, path: string) {
    exists i :: 0 <= i < |ExpandDirGlob(pattern)| && Matches(ExpandDirGlob(pattern)[i], path)
  }

  /** Rule `r` speaks about `access` and one of its patterns covers the normalized path. */
  ghost predicate Covers(rules: seq<Rule>, r: nat, scope: Scope, path: string) {
    && r < |rules| && rules[r].scope == scope
    && SomeCovers(rules[r].patterns, path)
  }

  ghost predicate HasMatch(globs: seq<Glob>, owner: nat, path: string) {
    exists i :: 0 <= i < |globs| && globs[i].owner == owner && Matches(globs[i].pattern, path)
  }

  lemma HasMatchAppend(a: seq<Glob>, b: seq<Glob>, owner: nat, path: string)
    ensures HasMatch(a + b, owner, path) <==> HasMatch(a, owner, path) || HasMatch(b, owner, path)
  {
    var all := a + b;
    if HasMatch(a, owner, path) {
      var i :| 0 <= i < |a| && a[i].owner == owner && Matches(a[i].pattern, path);
      assert all[i] == a[i];
    }
    if HasMatch(b, owner, path) {
      var i :| 0 <= i < |b| && b[i].owner == owner && Matches(b[i].pattern, path);
      assert all[|a| + i] == b[i];
    }
  }

  lemma OwnMatches(patterns: seq<string>, owner: nat, o: nat, path: string)
    ensures HasMatch(Own(patterns, owner), o, path)
       <==> o == owner && exists i :: 0 <= i < |patterns| && Matches(patterns[i], path)
  {
    var globs := Own(patterns, owner);
    if o == owner && exists i :: 0 <= i < |patterns| && Matches(patterns[i], path) {
      var i :| 0 <= i < |patterns| && Matches(patterns[i], path);
      assert globs[i].owner == owner && Matches(globs[i].pattern, path);
    }
  }

  lemma {:induction false} GlobsMatch(patterns: seq<string>, owner: nat, o: nat, path: string)
    ensures HasMatch(Globs(patterns, owner), o, path) <==> o == owner && SomeCovers(patterns, path)
  {
    hide Matches, ExpandDirGlob, PatternCovers, SomeCovers, HasMatch, Own;
    if patterns == [] {
      NothingCovers(owner, o, path);
    } else {
      var n := |patterns| - 1;
      GlobsMatch(patterns[..n], owner, o, path);
      OwnGlobsMatch(patterns[n], owner, o, path);
      HasMatchAppend(Globs(patterns[..n], owner), Own(ExpandDirGlob(patterns[n]), owner), o, path);
      SomeCoversSnoc(patterns, path);
    }
  }

  ghost predicate SomeCovers(patterns: seq<string>, path: string) {
    exists k :: 0 <= k < |patterns| && PatternCovers(patterns[k], path)
  }

  lemma NothingMatches(owner: nat, path: string)
    ensures !HasMatch([], owner, path)
  {
  }

  lemma NothingCovers(owner: nat, o: nat, path: string)
    ensures !HasMatch(Globs([], owner), o, path) && !SomeCovers([], path)
  {
  }

  lemma SomeCoversSnoc(patterns: seq<string>, path: string)
    requires patterns != []
    ensures var n := |patterns| - 1;
            SomeCovers(patterns, path) <==> SomeCovers(patterns[..n], path) || PatternCovers(patterns[n], path)
  {
    hide PatternCovers;
    var n := |patterns| - 1;
    if SomeCovers(patterns[..n], path) {
      var k :| 0 <= k < n && PatternCovers(patterns[..n][k], path);
      assert patterns[k] == patterns[..n][k];
    }
    if k :| 0 <= k < n && PatternCovers(patterns[k], path) {
      assert patterns[..n][k] == patterns[k];
    }
  }

  /** The globs of one pattern match what the pattern covers. */
  lemma OwnGlobsMatch(pattern: string, owner: nat, o: nat, path: string)
    ensures HasMatch(Own(ExpandDirGlob(pattern), owner), o, path) <==> o == owner && PatternCovers(pattern, path)
  {
    hide Matches, ExpandDirGlob, HasMatch, Own;
    OwnMatches(ExpandDirGlob(pattern), owner, o, path);
  }

  /** Compiling the table loses no rule, invents none, and keeps each in its scope. */
  lemma {:induction false} CompiledMatches(rules: seq<Rule>, scope: Scope, o: nat, path: string)
    ensures HasMatch(Compiled(rules, scope), o, path) <==> Covers(rules, o, scope, path)
  {
    hide HasMatch, SomeCovers, Globs;
    NothingCompiled(scope, o);
    NothingMatches(o, path);
    if rules != [] {
      var n := |rules| - 1;
      CompiledMatches(rules[..n], scope, o, path);
      GlobsMatch(rules[n].patterns, n, o, path);
      HasMatchAppend(Compiled(rules[..n], scope), Globs(rules[n].patterns, n), o, path);
      assert Compiled(rules[..n], scope) + [] == Compiled(rules[..n], scope);
    }
  }

  lemma FirstOwnerCovers(rules: seq<Rule>, scope: Scope, path: string)
    ensures var r := FirstOwner(Compiled(rules, scope), path);
            && (r.Some? <==> exists o: nat :: Covers(rules, o, scope, path))
            && (r.Some? ==> Covers(rules, r.value, scope, path))
  {
    hide Covers, Matches;
    var globs := Compiled(rules, scope);
    var r := FirstOwner(globs, path);
    if r.Some? {
      assert HasMatch(globs, r.value, path);
      CompiledMatches(rules, scope, r.value, path);
    }
    if o: nat :| Covers(rules, o, scope, path) {
      CompiledMatches(rules, scope, o, path);
      var i :| 0 <= i < |globs| && globs[i].owner == o && Matches(globs[i].pattern, path);
    }
  }

  /**
   A path is denied if and only if it cannot be normalized or its normal form is
   covered by a rule for that access; a denial by rule names a rule that covers it.
   */
  lemma CheckPathMeaning(rules: seq<Rule>, path: string, access: Access)
    ensures CheckPath(rules, path, access).Some?
       <==> (!Accepted(path)
             || (exists o: nat :: Covers(rules, o, Any, Canonical(NamesOf(path))))
             || (access == Write && exists o: nat :: Covers(rules, o, Modify, Canonical(NamesOf(path)))))
    ensures CheckPath(rules, path, access).Some? && CheckPath(rules, path, access).value.ByRule? ==>
              var o := CheckPath(rules, path, access).value.rule;
              && o < |rules| && Covers(rules, o, rules[o].scope, Canonical(NamesOf(path)))
              && (rules[o].scope == Any || access == Write)
  {
    hide Matches, Compiled;
    FirstOwnerCovers(rules, Any, Canonical(NamesOf(path)));
    FirstOwnerCovers(rules, Modify, Canonical(NamesOf(path)));
  }

  // ----- Directory rules cover whole subtrees ---------------------------------------

  ghost predicate Literal(s: string) { '*' !in s }

  lemma {:induction false} LiteralMatch(pattern: string, path: string)
    requires Literal(pattern)
    ensures Matches(pattern, path) <==> path == pattern
  {
    if pattern != "" {
      assert pattern[0] in pattern;
      assert pattern != BELOW by {
        assert BELOW[1] == '*';
      }
      if path != "" {
        LiteralMatch(pattern[1..], path[1..]);
        assert path == [path[0]] + path[1..] && pattern == [pattern[0]] + pattern[1..];
      }
    }
  }

  lemma {:induction false} BelowMatch(prefix: string, path: string)
    requires Literal(prefix)
    ensures Matches(prefix + BELOW, path) <==> prefix + "/" <= path
  {
    var pattern := prefix + BELOW;
    if prefix == "" {
      assert pattern == BELOW;
    } else {
      assert prefix[0] in prefix;
      assert |pattern| > |BELOW|;
      assert pattern[1..] == prefix[1..] + BELOW;
      if path != "" {
        BelowMatch(prefix[1..], path[1..]);
        assert path == [path[0]] + path[1..] && prefix + "/" == [prefix[0]] + (prefix[1..] + "/");
      }
    }
  }

  lemma {:induction false} RenderAppend(a: seq<string>, b: seq<string>)
    ensures Render(a + b) == Render(a) + Render(b)
  {
    if b == [] {
      assert a + b == a;
    } else {
      var n := |b| - 1;
      assert (a + b)[..|a + b| - 1] == a + b[..n];
      RenderAppend(a, b[..n]);
    }
  }

  lemma {:induction false} ComponentsConcat(a: string, b: string)
    ensures Components(a + "/" + b) == Components(a) + Components(b)
  {
    var whole := a + "/" + b;
    if a == [] {
      assert whole[1..] == b;
    } else {
      assert whole[1..] == a[1..] + "/" + b;
      ComponentsConcat(a[1..], b);
    }
  }

  /** In rendered form, being at or below a directory is being that string or continuing it with a slash. */
  lemma AtOrBelow(dir: seq<string>, names: seq<string>)
    requires dir != [] && AreNames(dir) && AreNames(names)
    ensures dir <= names
       <==> (Canonical(names) == Render(dir) || Render(dir) + "/" <= Canonical(names))
  {
    hide Render;
    RenderStartsWithSlash(dir);
    var path := Canonical(names);
    if dir <= names {
      NamesBelow(dir, names[|dir|..]);
      assert names == dir + names[|dir|..];
    } else if path == Render(dir) {
      CanonicalInjective(dir, names);
    } else if Render(dir) + "/" <= path {
      var rest := path[|Render(dir)| + 1..];
      assert path == Render(dir) + "/" + rest;
      PrefixNamesDirectory(dir, names, rest);
    }
  }

  lemma NamesBelow(dir: seq<string>, more: seq<string>)
    ensures Render(dir + more) == Render(dir) || Render(dir) + "/" <= Render(dir + more)
  {
    RenderAppend(dir, more);
    if more != [] {
      RenderStartsWithSlash(more);
    }
  }

  lemma PrefixNamesDirectory(dir: seq<string>, names: seq<string>, rest: string)
    requires AreNames(dir) && AreNames(names) && names != []
    requires Render(names) == Render(dir) + "/" + rest
    ensures dir <= names
  {
    hide Render, Components;
    ComponentsConcat(Render(dir), rest);
    ComponentsOfRender(dir);
    ComponentsOfRender(names);
    assert [""] + names == [""] + (dir + Components(rest));
    assert ([""] + names)[1..] == names;
  }

  /** A literal directory rule covers exactly the directory and everything below it. */
  lemma DirectoryPatternCovers(dir: seq<string>, names: seq<string>)
    requires dir != [] && AreNames(dir) && AreNames(names) && Literal(Render(dir))
    ensures PatternCovers(Render(dir) + BELOW, Canonical(names)) <==> dir <= names
  {
    hide Matches, ExpandDirGlob, Render;
    var d, path := Render(dir), Canonical(names);
    ExpandBelow(d);
    assert PatternCovers(d + BELOW, path) <==> Matches(d + BELOW, path) || Matches(d, path) by {
      assert [d + BELOW, d][0] == d + BELOW && [d + BELOW, d][1] == d;
    }
    LiteralMatch(d, path);
    BelowMatch(d, path);
    AtOrBelow(dir, names);
  }

  lemma ExpandBelow(d: string)
    ensures ExpandDirGlob(d + BELOW) == [d + BELOW, d]
  {
    var pattern := d + BELOW;
    assert pattern[|pattern| - 3..] == BELOW && pattern[..|pattern| - 3] == d;
  }

  lemma ExpandLiteral(pattern: string)
    requires Literal(pattern)
    ensures ExpandDirGlob(pattern) == [pattern]
  {
    assert BELOW[1] == '*';
    assert |pattern| >= 3 ==> pattern[|pattern| - 3..][1] in pattern;
  }

  /** A rule without a wildcard covers exactly the one node. */
  lemma ExactPatternCovers(file: seq<string>, names: seq<string>)
    requires AreNames(file) && AreNames(names) && Literal(Canonical(file))
    ensures PatternCovers(Canonical(file), Canonical(names)) <==> names == file
  {
    hide Matches, ExpandDirGlob, Canonical;
    ExpandLiteral(Canonical(file));
    LiteralMatch(Canonical(file), Canonical(names));
    assert PatternCovers(Canonical(file), Canonical(names)) <==> Matches(Canonical(file), Canonical(names)) by {
      assert [Canonical(file)][0] == Canonical(file);
    }
    if Canonical(names) == Canonical(file) {
      CanonicalInjective(names, file);
    }
  }

  /** Every spelling of a path with an exact rule is denied for writing, and for reading under an Any rule. */
  lemma ExactRuleDenies(rules: seq<Rule>, r: nat, k: nat, path: string, access: Access)
    requires r < |rules| && k < |rules[r].patterns|
    requires Accepted(path) && rules[r].patterns[k] == Canonical(NamesOf(path)) && Literal(rules[r].patterns[k])
    requires access == Write || rules[r].scope == Any
    ensures CheckPath(rules, path, access).Some?
  {
    hide CheckPath, PatternCovers, Canonical, Literal;
    NamesOfAreNames(path);
    ExactPatternCovers(NamesOf(path), NamesOf(path));
    assert SomeCovers(rules[r].patterns, Canonical(NamesOf(path)));
    assert Covers(rules, r, rules[r].scope, Canonical(NamesOf(path)));
    CheckPathMeaning(rules, path, access);
  }

  /**
   Every spelling of a path at or below a literal directory rule of the table is denied for
   writing, and for reading too when the rule is of scope Any.
   */
  lemma DirectoryRuleDenies(rules: seq<Rule>, r: nat, k: nat, dir: seq<string>, path: string, access: Access)
    requires r < |rules| && k < |rules[r].patterns| && rules[r].patterns[k] == Render(dir) + BELOW
    requires dir != [] && AreNames(dir) && Literal(Render(dir))
    requires Accepted(path) && dir <= NamesOf(path)
    requires access == Write || rules[r].scope == Any
    ensures CheckPath(rules, path, access).Some?
  {
    NamesOfAreNames(path);
    DirectoryPatternCovers(dir, NamesOf(path));
    assert SomeCovers(rules[r].patterns, Canonical(NamesOf(path)));
    assert Covers(rules, r, rules[r].scope, Canonical(NamesOf(path)));
    CheckPathMeaning(rules, path, access);
  }

  /** A literal directory of the table: as spelled there, as names, and the scope of its rule. */
  datatype Protected = Protected(spelling: string, names: seq<string>, scope: Scope)

  const PROTECTED: seq<Protected> := [
    Protected("/etc/archangel", ["etc", "archangel"], Modify),
    Protected("/var/lib/archangel", ["var", "lib", "archangel"], Modify),
    Protected("/var/lib/archangel-exec", ["var", "lib", "archangel-exec"], Modify),
    Protected("/var/log/archangel", ["var", "log", "archangel"], Modify),
    Protected("/etc/ssh", ["etc", "ssh"], Any),
    Protected("/etc/sudoers.d", ["etc", "sudoers.d"], Any),
    Protected("/etc/pam.d", ["etc", "pam.d"], Any),
    Protected("/etc/security", ["etc", "security"], Any),
    Protected("/boot", ["boot"], Modify),
    Protected("/etc/grub.d", ["etc", "grub.d"], Modify)
  ]

  /** Where a protected directory stands in the table. */
  function RuleOf(i: nat): (nat, nat)
    requires i < |PROTECTED|
  {
    [(0, 0), (0, 1), (0, 2), (0, 3), (1, 0), (5, 3), (5, 4), (5, 5), (6, 0), (6, 2)][i]
  }

  lemma RenderFew(a: string, b: string, c: string)
    ensures Render([a]) == "/" + a
    ensures Render([a, b]) == "/" + a + "/" + b
    ensures Render([a, b, c]) == "/" + a + "/" + b + "/" + c
  {
    assert [a][..0] == [] && [a, b][..1] == [a] && [a, b, c][..2] == [a, b];
  }

  lemma SpellingIsRendered(i: nat)
    requires i < |PROTECTED|
    ensures PROTECTED[i].spelling == Render(PROTECTED[i].names)
  {
    if i < 2 {
      SpelledUpTo2(i);
    } else if i < 4 {
      SpelledUpTo4(i);
    } else {
      SpelledLast(i);
    }
  }

  lemma SpelledUpTo2(i: nat)
    requires i < 2
    ensures PROTECTED[i].spelling == Render(PROTECTED[i].names)
  {
    hide Render;
    RenderFew("etc", "archangel", "");
    RenderFew("var", "lib", "archangel");
  }

  lemma SpelledUpTo4(i: nat)
    requires 2 <= i < 4
    ensures PROTECTED[i].spelling == Render(PROTECTED[i].names)
  {
    hide Render;
    if i == 2 {
      SpelledThird();
    } else {
      SpelledFourth();
    }
  }

  lemma SpelledThird()
    ensures PROTECTED[2].spelling == Render(PROTECTED[2].names)
  {
    hide Render;
    RenderFew("var", "lib", "archangel-exec");
  }

  lemma SpelledFourth()
    ensures PROTECTED[3].spelling == Render(PROTECTED[3].names)
  {
    hide Render;
    RenderFew("var", "log", "archangel");
  }

  lemma SpelledLast(i: nat)
    requires 4 <= i < |PROTECTED|
    ensures PROTECTED[i].spelling == Render(PROTECTED[i].names)
  {
    hide Render;
    RenderFew("etc", "ssh", "");
    RenderFew("etc", "sudoers.d", "");
    RenderFew("etc", "pam.d", "");
    RenderFew("etc", "security", "");
    RenderFew("boot", "", "");
    RenderFew("etc", "grub.d", "");
  }

  ghost predicate InTable(i: nat)
    requires i < |PROTECTED|
  {
    var (r, k) := RuleOf(i);
    && r < |RULES| && k < |RULES[r].patterns|
    && RULES[r].patterns[k] == PROTECTED[i].spelling + BELOW
    && RULES[r].scope == PROTECTED[i].scope
  }

  lemma SelfProtectionInTable()
    ensures InTable(0) && InTable(1) && InTable(2) && InTable(3)
  {
  }

  lemma SshAndIdentityInTable()
    ensures InTable(4) && InTable(5) && InTable(6) && InTable(7)
  {
  }

  lemma KernelInTable()
    ensures InTable(8) && InTable(9)
  {
  }

  lemma InTableMeans(i: nat)
    requires i < |PROTECTED| && InTable(i)
    ensures var (r, k) := RuleOf(i);
            && r < |RULES| && k < |RULES[r].patterns|
            && RULES[r].patterns[k] == PROTECTED[i].spelling + BELOW
            && RULES[r].scope == PROTECTED[i].scope
  {
  }

  lemma ProtectedAreNames(i: nat)
    requires i < |PROTECTED|
    ensures AreNames(PROTECTED[i].names) && PROTECTED[i].names != []
  {
  }

  lemma ProtectedHaveNoStar(i: nat)
    requires i < |PROTECTED|
    ensures Without(PROTECTED[i].names, '*')
  {
  }

  /** The shipped table: no spelling of a path reaches into a protected directory. */
  lemma ProtectedDirectories(i: nat, path: string, access: Access)
    requires i < |PROTECTED|
    requires Accepted(path) && PROTECTED[i].names <= NamesOf(path)
    requires access == Write || PROTECTED[i].scope == Any
    ensures CheckPath(RULES, path, access).Some?
  {
    hide Render, InTable, CheckPath;
    SelfProtectionInTable();
    SshAndIdentityInTable();
    KernelInTable();
    ProtectedAreNames(i);
    ProtectedHaveNoStar(i);
    RenderWithout(PROTECTED[i].names, '*');
    SpellingIsRendered(i);
    InTableMeans(i);
    var (r, k) := RuleOf(i);
    DirectoryRuleDenies(RULES, r, k, PROTECTED[i].names, path, access);
  }

  // ----- Exact rules of the shipped table --------------------------------------------

  const FILES: seq<Protected> := [
    Protected("/root/.ssh/authorized_keys", ["root", ".ssh", "authorized_keys"], Any),
    Protected("/etc/shadow", ["etc", "shadow"], Any),
    Protected("/etc/gshadow", ["etc", "gshadow"], Any),
    Protected("/etc/sudoers", ["etc", "sudoers"], Any),
    Protected("/etc/default/grub", ["etc", "default", "grub"], Modify)
  ]

  function RuleOfFile(i: nat): (nat, nat)
    requires i < |FILES|
  {
    [(1, 1), (5, 0), (5, 1), (5, 2), (6, 1)][i]
  }

  lemma FilesInTable(i: nat)
    requires i < |FILES|
    ensures var (r, k) := RuleOfFile(i);
            && r < |RULES| && k < |RULES[r].patterns|
            && RULES[r].patterns[k] == FILES[i].spelling
            && RULES[r].scope == FILES[i].scope
  {
  }

  lemma FileIsRendered(i: nat)
    requires i < |FILES|
    ensures FILES[i].spelling == Canonical(FILES[i].names) && FILES[i].names != []
  {
    hide Render;
    if i < 2 {
      FirstFilesAreRendered(i);
    } else {
      OtherFilesAreRendered(i);
    }
  }

  lemma FirstFilesAreRendered(i: nat)
    requires i < 2
    ensures FILES[i].spelling == Canonical(FILES[i].names) && FILES[i].names != []
  {
    hide Render;
    RenderFew("root", ".ssh", "authorized_keys");
    RenderFew("etc", "shadow", "");
  }

  lemma OtherFilesAreRendered(i: nat)
    requires 2 <= i < |FILES|
    ensures FILES[i].spelling == Canonical(FILES[i].names) && FILES[i].names != []
  {
    hide Render;
    RenderFew("etc", "gshadow", "");
    RenderFew("etc", "sudoers", "");
    RenderFew("etc", "default", "grub");
  }

  lemma FileIsLiteral(i: nat)
    requires i < |FILES|
    ensures Literal(FILES[i].spelling)
  {
    hide Render;
    FilesHaveNoStar(i);
    FileIsRendered(i);
    RenderWithout(FILES[i].names, '*');
  }

  lemma FilesHaveNoStar(i: nat)
    requires i < |FILES|
    ensures Without(FILES[i].names, '*')
  {
    if i < 2 {
      FirstFilesHaveNoStar(i);
    }
  }

  lemma FirstFilesHaveNoStar(i: nat)
    requires i < 2
    ensures Without(FILES[i].names, '*')
  {
  }

  /** The shipped table: no spelling reaches a file it names. */
  lemma ProtectedFiles(i: nat, path: string, access: Access)
    requires i < |FILES|
    requires Accepted(path) && NamesOf(path) == FILES[i].names
    requires access == Write || FILES[i].scope == Any
    ensures CheckPath(RULES, path, access).Some?
  {
    hide CheckPath, Canonical, Literal;
    FilesInTable(i);
    FileIsRendered(i);
    FileIsLiteral(i);
    var (r, k) := RuleOfFile(i);
    ExactRuleDenies(RULES, r, k, path, access);
  }
}
