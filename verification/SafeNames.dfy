/** Which executable names are safe, and why: the bundle's path stays one file in the bundle directory. */
module SafeNames {
  import opened Common
  import opened PathNorm
  import opened Execd
  import Prompt

  const LETTERS: string := "abcdefghijklmnopqrstuvwxyz"
  const CAPITALS: string := "ABCDEFGHIJKLMNOPQRSTUVWXYZ"
  const OTHERS: string := "0123456789._-"

  lemma LettersAre(c: char)
    ensures c in LETTERS <==> 'a' <= c <= 'z'
  {
    if 'a' <= c <= 'z' {
      assert LETTERS[c as int - 'a' as int] == c;
    }
  }

  lemma CapitalsAre(c: char)
    ensures c in CAPITALS <==> 'A' <= c <= 'Z'
  {
    if 'A' <= c <= 'Z' {
      assert CAPITALS[c as int - 'A' as int] == c;
    }
  }

  lemma OthersAre(c: char)
    ensures c in OTHERS <==> '0' <= c <= '9' || c == '.' || c == '_' || c == '-'
  {
    if '0' <= c <= '9' {
      assert OTHERS[c as int - '0' as int] == c;
    }
    assert OTHERS[10] == '.' && OTHERS[11] == '_' && OTHERS[12] == '-';
  }

  /** Safe are the names of 1 to 128 of these characters in which no two dots follow each other, but the dot alone. */
  lemma SafeNameMeaning(name: string)
    ensures SafeExecName(name)
       <==> && 1 <= |name| <= 128 && name != "." && !Prompt.Occurs(name, "..")
            && forall i :: 0 <= i < |name| ==> name[i] in LETTERS || name[i] in CAPITALS || name[i] in OTHERS
  {
    forall i | 0 <= i < |name|
      ensures SafeChar(name[i]) <==> name[i] in LETTERS || name[i] in CAPITALS || name[i] in OTHERS
    {
      LettersAre(name[i]);
      CapitalsAre(name[i]);
      OthersAre(name[i]);
    }
    forall i: nat ensures DotDotAt(name, i) <==> Prompt.OccursAt(name, "..", i) {
      if i + 2 <= |name| {
        assert name[i..i + 2] == [name[i], name[i + 1]];
      }
    }
    if name == ".." {
      assert DotDotAt(name, 0);
    }
  }

  /** The file of a safe name is a direct child of the bundle directory: no spelling of the name leads elsewhere. */
  lemma BundleStaysInside(dir: seq<string>, name: string)
    requires AreNames(dir) && SafeExecName(name)
    ensures NamesOf(Render(dir) + "/" + (name + ".exec")) == dir + [name + ".exec"]
  {
    var file := name + ".exec";
    assert '/' !in file by {
      assert forall i :: 0 <= i < |name| ==> SafeChar(name[i]);
      assert forall i :: |name| <= i < |file| ==> file[i] == ".exec"[i - |name|];
    }
    assert |file| > 5;
    assert AreNames(dir + [file]);
    ComponentsOfRender(dir + [file]);
    assert (dir + [file])[..|dir|] == dir;
    ResolveSkipsEmpty(dir + [file]);
    ResolveOfNames(dir + [file]);
  }
}
