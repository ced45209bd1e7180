/** The filesystem a path is on: a search of the mount table for the longest mount-point prefix. */
module Mounts {
  import opened Common
  import opened Text
  import opened PathNorm

  datatype Mount = Mount(point: string, fstype: string)

  /** One line of the mount table; a line with fewer than three fields is skipped. */
  function ParseLine(line: string): (r: Option<Mount>)
    ensures r.Some? ==> r.value.point != ""
  {
    var fields := Fields(line);
    if |fields| < 3 then None else Some(Mount(fields[1], fields[2]))
  }

  /** The mounts the lines list, in order. */
  function Table(lines: seq<string>): (r: seq<Mount>)
    ensures forall i :: 0 <= i < |r| ==> r[i].point != ""
  {
    if lines == [] then [] else
      var before := Table(lines[..|lines| - 1]);
      match ParseLine(lines[|lines| - 1])
      case Some(m) => before + [m]
      case None => before
  }

  predicate IsPathPrefix(prefix: string, path: string) {
    if prefix == "/" then path != "" && path[0] == '/'
    else prefix <= path && (|path| == |prefix| || path[|prefix|] == '/')
  }

  /** `j` is the first of the longest mount points that are prefixes of the path. */
  ghost predicate IsBest(mounts: seq<Mount>, path: string, j: int) {
    && 0 <= j < |mounts|
    && IsPathPrefix(mounts[j].point, path)
    && (forall i :: 0 <= i < |mounts| && IsPathPrefix(mounts[i].point, path) ==>
          |mounts[i].point| <= |mounts[j].point|)
    && (forall i :: 0 <= i < j && IsPathPrefix(mounts[i].point, path) ==>
          |mounts[i].point| < |mounts[j].point|)
  }

  ghost predicate NoneMatches(mounts: seq<Mount>, path: string) {
    forall i :: 0 <= i < |mounts| ==> !IsPathPrefix(mounts[i].point, path)
  }

  /** The filesystem of the first mount with exactly this mount point. */
  function MountedAt(mounts: seq<Mount>, point: string): Option<string> {
    if mounts == [] then None
    else if mounts[0].point == point then Some(mounts[0].fstype)
    else MountedAt(mounts[1..], point)
  }

  /** Looks a node up, then its parent, and so on up to the root. */
  function Nearest(mounts: seq<Mount>, names: seq<string>): Option<string> {
    match MountedAt(mounts, Canonical(names))
    case Some(fstype) => Some(fstype)
    case None => if names == [] then None else Nearest(mounts, names[..|names| - 1])
  }

  /**
   One pass over the lines keeps the longest mount point so far, the earlier one on a tie.
   Both points compared are prefixes of the path, so characters order them as bytes do.
   */
  method FsTypeFor(lines: seq<string>, path: string) returns (fstype: Option<string>)
    ensures fstype == None <==> NoneMatches(Table(lines), path)
    ensures fstype.Some? ==>
      exists j :: IsBest(Table(lines), path, j) && Table(lines)[j].fstype == fstype.value
    ensures forall names :: AreNames(names) && path == Canonical(names) ==>
      fstype == Nearest(Table(lines), names)
  {
    hide ParseLine, IsPathPrefix, Canonical, AreNames, Nearest;
    var best: Option<Mount> := None;
    ghost var at := 0;
    for n := 0 to |lines|
      invariant best == None ==> NoneMatches(Table(lines[..n]), path)
      invariant best.Some? ==> IsBest(Table(lines[..n]), path, at) && Table(lines[..n])[at] == best.value
    {
      TableSnoc(lines, n);
      var entry := ParseLine(lines[n]);
      if entry.Some? && IsPathPrefix(entry.value.point, path) {
        if best.None? || |best.value.point| < |entry.value.point| {
          best := entry;
          at := |Table(lines[..n])|;
        }
      }
    }
    assert lines[..|lines|] == lines;
    fstype := match best case Some(m) => Some(m.fstype) case None => None;
    forall names | AreNames(names) && path == Canonical(names)
      ensures fstype == Nearest(Table(lines), names)
    {
      if best.Some? {
        BestIsNearest(Table(lines), names, at);
      } else {
        NoMatchNoAncestor(Table(lines), names);
      }
    }
  }

  lemma TableSnoc(lines: seq<string>, n: nat)
    requires n < |lines|
    ensures Table(lines[..n + 1]) == Table(lines[..n]) +
              match ParseLine(lines[n]) case Some(m) => [m] case None => []
  {
    assert lines[..n + 1][..n] == lines[..n];
  }

  // ----- Prefixes are ancestors --------------------------------------------------------

  lemma {:induction false} RenderSplit(names: seq<string>, k: nat)
    requires k <= |names|
    ensures Render(names) == Render(names[..k]) + Render(names[k..])
  {
    if k == |names| {
      assert names[..k] == names;
    } else {
      var n := |names| - 1;
      RenderSplit(names[..n], k);
      assert names[..n][..k] == names[..k];
      assert names[..n][k..] == names[k..][..|names[k..]| - 1];
    }
  }

  lemma AncestorIsPrefix(names: seq<string>, k: nat)
    requires AreNames(names) && k <= |names|
    ensures IsPathPrefix(Canonical(names[..k]), Canonical(names))
  {
    hide Render;
    if names != [] {
      RenderStartsWithSlash(names);
    }
    if k > 0 {
      RenderSplit(names, k);
      RenderStartsWithSlash(names[..k]);
      NotRoot(names[..k]);
      if k < |names| {
        RenderStartsWithSlash(names[k..]);
      } else {
        assert names[..k] == names;
      }
    }
  }

  lemma NotRoot(names: seq<string>)
    requires AreNames(names) && names != []
    ensures |Render(names)| > 1
  {
    RenderSplit(names, |names| - 1);
    assert IsName(names[|names| - 1]);
  }

  /** A nonempty prefix that ends where a component ends is the canonical path of an ancestor. */
  lemma {:induction false} PrefixIsAncestor(point: string, names: seq<string>) returns (k: nat)
    requires AreNames(names) && point != "" && IsPathPrefix(point, Canonical(names))
    ensures k <= |names| && point == Canonical(names[..k])
  {
    var path := Canonical(names);
    if point == "/" {
      k := 0;
    } else if point == path {
      k := |names|;
      assert names[..k] == names;
    } else {
      var n := |names| - 1;
      var parent, last := names[..n], names[n];
      assert path == Render(parent) + ("/" + last);
      assert IsName(last);
      assert |point| <= |Render(parent)|;
      assert parent != [];
      assert Render(parent)[..|point|] == point;
      k := PrefixIsAncestor(point, parent);
      assert parent[..k] == names[..k];
    }
  }

  lemma {:induction false} MountedAtFirst(mounts: seq<Mount>, point: string, j: nat)
    requires j < |mounts| && mounts[j].point == point
    requires forall i :: 0 <= i < j ==> mounts[i].point != point
    ensures MountedAt(mounts, point) == Some(mounts[j].fstype)
  {
    if j > 0 {
      MountedAtFirst(mounts[1..], point, j - 1);
    }
  }

  lemma {:induction false} MountedNowhere(mounts: seq<Mount>, point: string)
    requires forall i :: 0 <= i < |mounts| ==> mounts[i].point != point
    ensures MountedAt(mounts, point) == None
  {
    if mounts != [] {
      MountedNowhere(mounts[1..], point);
    }
  }

  lemma {:induction false} LongerAncestor(names: seq<string>, k: nat, l: nat)
    requires AreNames(names) && k < l <= |names|
    ensures |Canonical(names[..k])| < |Canonical(names[..l])|
  {
    hide Render;
    NotRoot(names[..l]);
    if k > 0 {
      RenderSplit(names[..l], k);
      assert names[..l][..k] == names[..k];
      RenderStartsWithSlash(names[..l][k..]);
    }
  }

  /** The first of the longest prefixes is the nearest ancestor, first listed. */
  lemma BestIsNearest(mounts: seq<Mount>, names: seq<string>, j: nat)
    requires AreNames(names) && IsBest(mounts, Canonical(names), j) && mounts[j].point != ""
    ensures Nearest(mounts, names) == Some(mounts[j].fstype)
  {
    hide IsPathPrefix, Canonical, Nearest, MountedAt;
    var k := PrefixIsAncestor(mounts[j].point, names);
    MountedAtFirst(mounts, mounts[j].point, j);
    forall l | k < l <= |names| ensures MountedAt(mounts, Canonical(names[..l])) == None {
      AncestorIsPrefix(names, l);
      LongerAncestor(names, k, l);
      MountedNowhere(mounts, Canonical(names[..l]));
    }
    NearestIs(mounts, names, k);
  }

  /** The lookup skips ancestors that are not mount points. */
  lemma {:induction false} NearestIs(mounts: seq<Mount>, names: seq<string>, k: nat)
    requires k <= |names|
    requires forall l :: k < l <= |names| ==> MountedAt(mounts, Canonical(names[..l])) == None
    requires MountedAt(mounts, Canonical(names[..k])).Some? || k == 0
    ensures Nearest(mounts, names) == MountedAt(mounts, Canonical(names[..k]))
  {
    hide Canonical, MountedAt;
    assert names[..|names|] == names;
    if k < |names| {
      var parent := names[..|names| - 1];
      forall l | 0 <= l <= |parent| ensures parent[..l] == names[..l] {
      }
      NearestIs(mounts, parent, k);
    }
  }

  lemma NoMatchNoAncestor(mounts: seq<Mount>, names: seq<string>)
    requires AreNames(names) && NoneMatches(mounts, Canonical(names))
    ensures Nearest(mounts, names) == None
  {
    hide IsPathPrefix, Canonical, Nearest, MountedAt;
    forall l | 0 <= l <= |names| ensures MountedAt(mounts, Canonical(names[..l])) == None {
      AncestorIsPrefix(names, l);
      MountedNowhere(mounts, Canonical(names[..l]));
    }
    NearestIs(mounts, names, 0);
  }

  // ----- Reading the table back ---------------------------------------------------------

  predicate IsField(s: string) {
    s != "" && NoWhite(s)
  }

  /** A line written as device, mount point, type and anything after a space is read back. */
  lemma LineReadsBack(device: string, m: Mount, rest: string)
    requires IsField(device) && IsField(m.point) && IsField(m.fstype)
    requires rest != "" ==> IsWhite(rest[0])
    ensures ParseLine(device + " " + m.point + " " + m.fstype + rest) == Some(m)
  {
    hide Fields;
    var after := m.fstype + rest;
    var tail := m.point + (" " + after);
    assert device + " " + m.point + " " + m.fstype + rest == device + (" " + tail);
    FirstField(device, " " + tail);
    FieldsSkipWhite(" ", tail);
    FirstField(m.point, " " + after);
    FieldsSkipWhite(" ", after);
    FirstField(m.fstype, rest);
  }

  /** The exact meaning of the prefix test on canonical paths: at or below the mount point. */
  lemma PrefixIffAtOrBelow(point: string, names: seq<string>)
    requires AreNames(names) && point != ""
    ensures IsPathPrefix(point, Canonical(names))
       <==> exists k: nat :: k <= |names| && point == Canonical(names[..k])
  {
    hide IsPathPrefix, Canonical;
    if IsPathPrefix(point, Canonical(names)) {
      var k := PrefixIsAncestor(point, names);
    }
    forall k: nat | k <= |names| && point == Canonical(names[..k])
      ensures IsPathPrefix(point, Canonical(names))
    {
      AncestorIsPrefix(names, k);
    }
  }
}
