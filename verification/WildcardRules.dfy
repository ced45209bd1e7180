/** The denylist rules with a star: what one star stands for, and what the shipped ones keep out of reach. */
module WildcardRules {
  import opened Common
  import opened PathNorm
  import opened Denylist

  // ----- One star ------------------------------------------------------------------------

  ghost predicate Fills(mid: string, before: string, after: string, path: string) {
    '/' !in mid && path == before + mid + after
  }

  lemma {:induction false} StarTail(after: string, path: string)
    requires Literal(after)
    ensures Matches("*" + after, path) <==> exists mid :: Fills(mid, "", after, path)
  {
    var pattern := "*" + after;
    assert pattern[1..] == after && pattern[0] == '*';
    LiteralMatch(after, path);
    if path == after {
      assert Fills("", "", after, path);
    }
    if path != "" {
      StarTail(after, path[1..]);
      if path[0] != '/' {
        forall mid | Fills(mid, "", after, path[1..]) ensures Fills([path[0]] + mid, "", after, path) {
          OneMoreFilled([path[0]] + mid, after, path);
          assert ([path[0]] + mid)[1..] == mid;
        }
      }
      forall mid | Fills(mid, "", after, path) && mid != "" ensures path[0] != '/' && Fills(mid[1..], "", after, path[1..]) {
        assert mid[0] in mid;
        OneMoreFilled(mid, after, path);
      }
    }
    forall mid | Fills(mid, "", after, path) && mid == "" ensures path == after {
    }
  }

  /** A star stands for any text without a slash. */
  lemma {:induction false} StarMatch(before: string, after: string, path: string)
    requires Literal(before) && Literal(after)
    ensures Matches(before + "*" + after, path) <==> exists mid :: Fills(mid, before, after, path)
  {
    hide Literal;
    var pattern := before + "*" + after;
    if before == "" {
      StarTail(after, path);
      assert pattern == "*" + after;
    } else {
      LiteralParts(before);
      assert pattern[0] == before[0] && pattern[1..] == before[1..] + "*" + after;
      OneStarIsNotBelow(before, after);
      if path != "" {
        StarMatch(before[1..], after, path[1..]);
        forall mid | Fills(mid, before[1..], after, path[1..]) && path[0] == before[0] ensures Fills(mid, before, after, path) {
          OneMoreBefore(before, mid, after, path);
        }
        forall mid | Fills(mid, before, after, path) ensures path[0] == before[0] && Fills(mid, before[1..], after, path[1..]) {
          OneMoreBefore(before, mid, after, path);
        }
      }
    }
  }

  lemma OneMoreFilled(mid: string, after: string, path: string)
    requires mid != "" && path != ""
    ensures path == "" + mid + after <==> path[0] == mid[0] && path[1..] == "" + mid[1..] + after
  {
    assert "" + mid + after == [mid[0]] + ("" + mid[1..] + after);
    assert path == [path[0]] + path[1..];
  }

  lemma OneMoreBefore(before: string, mid: string, after: string, path: string)
    requires before != "" && path != ""
    ensures path == before + mid + after <==> path[0] == before[0] && path[1..] == before[1..] + mid + after
  {
    assert before + mid + after == [before[0]] + (before[1..] + mid + after);
    assert path == [path[0]] + path[1..];
  }

  /** A pattern with one star does not end in two. */
  lemma OneStarIsNotBelow(before: string, after: string)
    requires Literal(before) && Literal(after)
    ensures var pattern := before + "*" + after;
            |pattern| >= 3 ==> pattern[|pattern| - 3..] != BELOW
  {
    var pattern := before + "*" + after;
    var n := |pattern|;
    assert forall i :: 0 <= i < n && i != |before| ==> pattern[i] in before || pattern[i] in after;
    assert BELOW[1] == '*' && BELOW[2] == '*';
    if n >= 3 {
      assert pattern[n - 3..][1] == pattern[n - 2] && pattern[n - 3..][2] == pattern[n - 1];
    }
  }

  /** A rule with one star covers exactly what the star can be filled in to. */
  lemma StarPatternCovers(before: string, after: string, path: string)
    requires Literal(before) && Literal(after)
    ensures PatternCovers(before + "*" + after, path) <==> exists mid :: Fills(mid, before, after, path)
  {
    hide Matches;
    var pattern := before + "*" + after;
    OneStarIsNotBelow(before, after);
    StarMatch(before, after, path);
    assert ExpandDirGlob(pattern) == [pattern];
    assert PatternCovers(pattern, path) <==> Matches(pattern, path) by {
      assert [pattern][0] == pattern;
    }
  }

  /** Every spelling of a path that fills a rule's star is denied for writing, and for reading under an Any rule. */
  lemma StarRuleDenies(rules: seq<Rule>, r: nat, k: nat, before: string, after: string, mid: string, path: string, access: Access)
    requires r < |rules| && k < |rules[r].patterns| && rules[r].patterns[k] == before + "*" + after
    requires Literal(before) && Literal(after)
    requires Accepted(path) && Fills(mid, before, after, Canonical(NamesOf(path)))
    requires access == Write || rules[r].scope == Any
    ensures CheckPath(rules, path, access).Some?
  {
    hide CheckPath, PatternCovers, Canonical, Literal, Fills;
    StarPatternCovers(before, after, Canonical(NamesOf(path)));
    assert SomeCovers(rules[r].patterns, Canonical(NamesOf(path)));
    assert Covers(rules, r, rules[r].scope, Canonical(NamesOf(path)));
    CheckPathMeaning(rules, path, access);
  }

  // ----- One star in a directory rule ------------------------------------------------------

  ghost predicate FillsBelow(mid: string, before: string, after: string, path: string) {
    '/' !in mid && before + mid + after + "/" <= path
  }

  lemma {:induction false} StarTailBelow(after: string, path: string)
    requires Literal(after)
    ensures Matches("*" + after + BELOW, path) <==> exists mid :: FillsBelow(mid, "", after, path)
  {
    var pattern := "*" + after + BELOW;
    assert pattern[1..] == after + BELOW && pattern[0] == '*';
    BelowMatch(after, path);
    if after + "/" <= path {
      assert "" + "" + after + "/" == after + "/";
      assert FillsBelow("", "", after, path);
    }
    if path != "" {
      StarTailBelow(after, path[1..]);
      if path[0] != '/' {
        forall mid | FillsBelow(mid, "", after, path[1..]) ensures FillsBelow([path[0]] + mid, "", after, path) {
          assert "" + ([path[0]] + mid) + after + "/" == [path[0]] + ("" + mid + after + "/");
        }
      }
      forall mid | FillsBelow(mid, "", after, path) && mid != ""
        ensures path[0] != '/' && FillsBelow(mid[1..], "", after, path[1..])
      {
        assert mid[0] in mid;
        assert "" + mid + after + "/" == [mid[0]] + ("" + mid[1..] + after + "/");
      }
    }
    forall mid | FillsBelow(mid, "", after, path) && mid == "" ensures after + "/" <= path {
      assert "" + "" + after + "/" == after + "/";
    }
  }

  lemma {:induction false} StarBelowMatch(before: string, after: string, path: string)
    requires Literal(before) && Literal(after)
    ensures Matches(before + "*" + after + BELOW, path) <==> exists mid :: FillsBelow(mid, before, after, path)
  {
    hide Literal;
    var pattern := before + "*" + after + BELOW;
    if before == "" {
      StarTailBelow(after, path);
      assert pattern == "*" + after + BELOW;
    } else {
      LiteralParts(before);
      assert pattern[0] == before[0] && pattern[1..] == before[1..] + "*" + after + BELOW;
      assert |pattern| > |BELOW|;
      if path != "" {
        StarBelowMatch(before[1..], after, path[1..]);
        forall mid | FillsBelow(mid, before[1..], after, path[1..]) && path[0] == before[0]
          ensures FillsBelow(mid, before, after, path)
        {
          OneMore(before, mid, after, path);
        }
        forall mid | FillsBelow(mid, before, after, path)
          ensures path[0] == before[0] && FillsBelow(mid, before[1..], after, path[1..])
        {
          OneMore(before, mid, after, path);
        }
      }
    }
  }

  lemma LiteralParts(s: string)
    requires Literal(s) && s != ""
    ensures s[0] != '*' && Literal(s[1..])
  {
    assert s[0] in s;
  }

  lemma OneMore(before: string, mid: string, after: string, path: string)
    requires before != "" && path != ""
    ensures before + mid + after + "/" <= path <==> path[0] == before[0] && before[1..] + mid + after + "/" <= path[1..]
  {
    var whole := before + mid + after + "/";
    assert whole == [before[0]] + (before[1..] + mid + after + "/");
    assert path == [path[0]] + path[1..];
  }

  /** A directory rule with one star covers each directory it can be filled in to, and all below. */
  lemma StarBelowCovers(before: string, after: string, path: string)
    requires Literal(before) && Literal(after)
    ensures PatternCovers(before + "*" + after + BELOW, path)
       <==> (exists mid :: Fills(mid, before, after, path)) || (exists mid :: FillsBelow(mid, before, after, path))
  {
    hide Matches, ExpandDirGlob, Fills, FillsBelow;
    var d := before + "*" + after;
    ExpandBelow(d);
    StarMatch(before, after, path);
    StarBelowMatch(before, after, path);
    assert PatternCovers(d + BELOW, path) <==> Matches(d + BELOW, path) || Matches(d, path) by {
      assert [d + BELOW, d][0] == d + BELOW && [d + BELOW, d][1] == d;
    }
  }

  lemma DropInsInTable()
    ensures RULES[0].patterns[7] == "/etc/systemd/system/archangel" + "*" + ".service.d" + BELOW && RULES[0].scope == Modify
  {
  }

  lemma DropInIsLiteral()
    ensures Literal(".service.d")
  {
  }

  /** The shipped table: no spelling writes a drop-in directory of the service units, or below one. */
  lemma ProtectedDropIns(mid: string, path: string)
    requires Accepted(path)
    requires Fills(mid, "/etc/systemd/system/archangel", ".service.d", Canonical(NamesOf(path)))
          || FillsBelow(mid, "/etc/systemd/system/archangel", ".service.d", Canonical(NamesOf(path)))
    ensures CheckPath(RULES, path, Write).Some?
  {
    hide CheckPath, PatternCovers, Canonical, Literal, Fills, FillsBelow;
    EtcUnitIsLiteral();
    DropInIsLiteral();
    DropInsInTable();
    StarBelowCovers("/etc/systemd/system/archangel", ".service.d", Canonical(NamesOf(path)));
    assert SomeCovers(RULES[0].patterns, Canonical(NamesOf(path)));
    assert Covers(RULES, 0, RULES[0].scope, Canonical(NamesOf(path)));
    CheckPathMeaning(RULES, path, Write);
  }

  // ----- The rules with a star in the shipped table ------------------------------------------

  datatype Starred = Starred(before: string, after: string, scope: Scope)

  const STARRED: seq<Starred> := [
    Starred("/usr/bin/archangel", "", Modify),
    Starred("/usr/lib/systemd/system/archangel", ".service", Modify),
    Starred("/etc/systemd/system/archangel", ".service", Modify),
    Starred("/home/", "/.ssh/authorized_keys", Any)
  ]

  function RuleOfStarred(i: nat): (nat, nat)
    requires i < |STARRED|
  {
    [(0, 4), (0, 5), (0, 6), (1, 2)][i]
  }

  lemma BinaryInTable()
    ensures RULES[0].patterns[4] == STARRED[0].before + "*" + STARRED[0].after && RULES[0].scope == Modify
  {
  }

  lemma UnitsInTable()
    ensures RULES[0].patterns[5] == STARRED[1].before + "*" + STARRED[1].after
    ensures RULES[0].patterns[6] == STARRED[2].before + "*" + STARRED[2].after
  {
  }

  lemma KeysInTable()
    ensures RULES[1].patterns[2] == STARRED[3].before + "*" + STARRED[3].after && RULES[1].scope == Any
  {
  }

  lemma StarredAreLiteral(i: nat)
    requires i < |STARRED|
    ensures Literal(STARRED[i].before) && Literal(STARRED[i].after)
  {
    if i == 1 {
      LibUnitIsLiteral();
    } else if i == 2 {
      EtcUnitIsLiteral();
    }
  }

  lemma LibUnitIsLiteral()
    ensures Literal("/usr/lib/systemd/system/archangel")
  {
  }

  lemma EtcUnitIsLiteral()
    ensures Literal("/etc/systemd/system/archangel")
  {
  }

  /**
   The shipped table: no spelling reaches the program, its service units, or the login keys
   of any home directory.
   */
  lemma ProtectedByStar(i: nat, mid: string, path: string, access: Access)
    requires i < |STARRED|
    requires Accepted(path) && '/' !in mid && Canonical(NamesOf(path)) == STARRED[i].before + mid + STARRED[i].after
    requires access == Write || STARRED[i].scope == Any
    ensures CheckPath(RULES, path, access).Some?
  {
    hide CheckPath, Canonical, Literal;
    StarredAreLiteral(i);
    BinaryInTable();
    UnitsInTable();
    KeysInTable();
    var (r, k) := RuleOfStarred(i);
    StarRuleDenies(RULES, r, k, STARRED[i].before, STARRED[i].after, mid, path, access);
  }
}
