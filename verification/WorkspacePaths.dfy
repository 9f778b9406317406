/** The workspace guard: paths as strings, and what the string test means for their components. */
module WorkspacePaths {

  // ---- components ---------------------------------------------------------------------

  /** `path.split("/")`. */
  function Split(s: string): (parts: seq<string>)
    ensures |parts| >= 1
  {
    if s == "" then [""]
    else
      var rest := Split(s[1..]);
      if s[0] == '/' then [""] + rest else [[s[0]] + rest[0]] + rest[1..]
  }

  /** A component of a normalised path. */
  predicate IsName(c: string) {
    c != "" && c != "." && c != ".." && '/' !in c
  }

  predicate IsNormal(names: seq<string>) {
    forall i :: 0 <= i < |names| ==> IsName(names[i])
  }

  function Slashed(names: seq<string>): string {
    if names == [] then "" else "/" + names[0] + Slashed(names[1..])
  }

  /** The absolute path with these components. */
  function Render(names: seq<string>): string {
    if names == [] then "/" else Slashed(names)
  }

  /** How `normpath` folds the parts of an absolute path: blanks and dots vanish, `..` drops the last
      name, if there is one. */
  function Fold(names: seq<string>, parts: seq<string>): seq<string>
    decreases |parts|
  {
    if parts == [] then names
    else if parts[0] == "" || parts[0] == "." then Fold(names, parts[1..])
    else if parts[0] == ".." then Fold(if names == [] then [] else names[..|names| - 1], parts[1..])
    else Fold(names + [parts[0]], parts[1..])
  }

  /** Exactly two slashes in front, which POSIX keeps apart from one. */
  predicate DoubleSlashed(path: string) {
    |path| >= 2 && path[0] == '/' && path[1] == '/' && (|path| == 2 || path[2] != '/')
  }

  /** `os.path.normpath` of an absolute path. */
  function NormPath(path: string): string {
    (if DoubleSlashed(path) then "/" else "") + Render(Fold([], Split(path)))
  }

  function LStrip(s: string): (t: string)
    ensures t == "" || t[0] != '/'
  {
    if s != "" && s[0] == '/' then LStrip(s[1..]) else s
  }

  function Slashes(n: nat): string {
    if n == 0 then "" else "/" + Slashes(n - 1)
  }

  /** What is stripped are slashes in front, all of them and nothing else. */
  lemma {:induction false} LStripStripsSlashes(s: string) returns (n: nat)
    ensures s == Slashes(n) + LStrip(s)
    decreases |s|
  {
    if s != "" && s[0] == '/' {
      var m := LStripStripsSlashes(s[1..]);
      n := m + 1;
      assert s == "/" + s[1..];
    } else {
      n := 0;
    }
  }

  /** `os.path.join` with a relative second part. */
  function JoinPath(base: string, rel: string): string {
    if base != "" && base[|base| - 1] == '/' then base + rel else base + "/" + rel
  }

  datatype Joined = Inside(path: string) | Escapes

  /** `safe_join`; `realpath` is what the file system makes of a path. */
  function SafeJoin(realpath: string -> string, workspace: string, rel: string): Joined {
    var base := realpath(workspace);
    var candidate := NormPath(JoinPath(base, LStrip(rel)));
    var actual := realpath(candidate);
    if actual != base && !(base + "/" <= actual) then Escapes else Inside(candidate)
  }

  // ---- splitting what was joined --------------------------------------------------------

  lemma {:induction false} SplitJoin(a: string, b: string)
    ensures Split(a + "/" + b) == Split(a) + Split(b)
    decreases |a|
  {
    var s := a + "/" + b;
    if a == "" {
      assert s == "/" + b && s[1..] == b;
    } else {
      assert s[1..] == a[1..] + "/" + b;
      SplitJoin(a[1..], b);
    }
  }

  lemma {:induction false} SplitPlain(c: string)
    requires '/' !in c
    ensures Split(c) == [c]
    decreases |c|
  {
    if c != "" {
      SplitPlain(c[1..]);
      assert [c[0]] + c[1..] == c;
    }
  }

  lemma {:induction false} SlashedAppend(a: seq<string>, b: seq<string>)
    ensures Slashed(a + b) == Slashed(a) + Slashed(b)
    decreases |a|
  {
    if a == [] {
      assert a + b == b;
    } else {
      assert (a + b)[1..] == a[1..] + b;
      SlashedAppend(a[1..], b);
    }
  }

  lemma {:induction false} SplitSlashed(names: seq<string>)
    requires IsNormal(names)
    ensures Split(Slashed(names)) == [""] + names
    decreases |names|
  {
    if names != [] {
      var init, last := names[..|names| - 1], names[|names| - 1];
      assert names == init + [last];
      SlashedAppend(init, [last]);
      assert Slashed([last]) == "/" + last;
      assert Slashed(names) == Slashed(init) + "/" + last;
      SplitJoin(Slashed(init), last);
      SplitSlashed(init);
      SplitPlain(last);
    }
  }

  lemma {:induction false} FoldAppend(names: seq<string>, a: seq<string>, b: seq<string>)
    ensures Fold(names, a + b) == Fold(Fold(names, a), b)
    decreases |a|
  {
    if a == [] {
      assert a + b == b;
    } else {
      assert (a + b)[1..] == a[1..] + b;
      FoldAppend(if a[0] == "" || a[0] == "." then names else if a[0] == ".." then (if names == [] then [] else names[..|names| - 1])
                 else names + [a[0]], a[1..], b);
    }
  }

  lemma {:induction false} FoldNames(base: seq<string>, names: seq<string>)
    requires IsNormal(names)
    ensures Fold(base, names) == base + names
    decreases |names|
  {
    if names == [] {
      assert base + names == base;
    } else {
      FoldNames(base + [names[0]], names[1..]);
      assert base + [names[0]] + names[1..] == base + names;
    }
  }

  lemma {:induction false} SplitHasNoSlash(s: string)
    ensures forall i :: 0 <= i < |Split(s)| ==> '/' !in Split(s)[i]
    decreases |s|
  {
    if s != "" {
      SplitHasNoSlash(s[1..]);
    }
  }

  lemma {:induction false} FoldIsNormal(names: seq<string>, parts: seq<string>)
    requires IsNormal(names) && forall i :: 0 <= i < |parts| ==> '/' !in parts[i]
    ensures IsNormal(Fold(names, parts))
    decreases |parts|
  {
    if parts != [] {
      FoldIsNormal(if parts[0] == "" || parts[0] == "." then names else if parts[0] == ".." then (if names == [] then [] else names[..|names| - 1])
                   else names + [parts[0]], parts[1..]);
    }
  }

  /** A rendered path reads back as its own components. */
  lemma ReadBack(names: seq<string>)
    requires IsNormal(names)
    ensures Fold([], Split(Render(names))) == names
  {
    if names == [] {
      assert Split("/") == [""] + Split("");
    } else {
      SplitSlashed(names);
      assert ([""] + names)[1..] == names;
      FoldNames([], names);
      assert [] + names == names;
    }
  }

  /** Normalising an absolute path twice is normalising it once. */
  lemma NormPathIdempotent(path: string)
    requires path != "" && path[0] == '/'
    ensures NormPath(NormPath(path)) == NormPath(path)
  {
    var names := Fold([], Split(path));
    SplitHasNoSlash(path);
    FoldIsNormal([], Split(path));
    ReadBack(names);
    NoDoubleSlash(names);
    assert ("/" + Render(names))[1..] == Render(names);
    assert NormPath(path) == if DoubleSlashed(path) then "/" + Render(names) else Render(names);
  }

  lemma NoDoubleSlash(path: seq<string>)
    requires IsNormal(path)
    ensures Render(path)[0] == '/' && (|Render(path)| == 1 || Render(path)[1] != '/')
  {
    if path != [] { assert Render(path)[1] == path[0][0]; }
  }

  // ---- the string test --------------------------------------------------------------------

  /** The containment test on strings. */
  predicate StringInside(base: string, path: string) {
    path == base || base + "/" <= path
  }

  /** On normalised absolute paths the string test says that the components extend those of the base,
      names that merely share a prefix being refused. At the root it accepts the root alone. */
  lemma StringTestMeansPrefix(base: seq<string>, path: seq<string>)
    requires IsNormal(base) && IsNormal(path)
    ensures StringInside(Render(base), Render(path)) <==> base <= path && (base != [] || path == [])
  {
    if StringInside(Render(base), Render(path)) {
      ReadBack(base);
      ReadBack(path);
      if Render(path) != Render(base) {
        StrictlyInside(base, path);
      }
    }
    if base <= path && base != [] && base != path {
      var rest := path[|base|..];
      assert path == base + rest;
      SlashedAppend(base, rest);
      assert Slashed(rest) == "/" + (rest[0] + Slashed(rest[1..]));
      assert Render(path) == (Render(base) + "/") + (rest[0] + Slashed(rest[1..]));
    }
  }

  lemma SplitInside(base: seq<string>, path: seq<string>, tail: string)
    requires IsNormal(base) && IsNormal(path) && Slashed(path) == Slashed(base) + "/" + tail
    ensures path == base + Split(tail)
  {
    SplitJoin(Slashed(base), tail);
    SplitSlashed(base);
    SplitSlashed(path);
    SameTail("", path, base, Split(tail));
  }

  lemma SameTail(x: string, a: seq<string>, b: seq<string>, c: seq<string>)
    requires [x] + a == ([x] + b) + c
    ensures a == b + c
  {
    assert a == ([x] + a)[1..];
    assert b + c == (([x] + b) + c)[1..];
  }

  lemma StrictlyInside(base: seq<string>, path: seq<string>)
    requires IsNormal(base) && IsNormal(path) && Render(base) + "/" <= Render(path)
    ensures base <= path && base != []
  {
    if base == [] {
      NoDoubleSlash(path);
    } else {
      var tail := Render(path)[|Slashed(base)| + 1..];
      assert Render(path) == Slashed(base) + "/" + tail;
      if path != [] {
        SplitInside(base, path, tail);
      }
    }
  }

  // ---- what the guard guarantees ------------------------------------------------------------

  ghost predicate Resolves(realpath: string -> string, path: string, names: seq<string>) {
    IsNormal(names) && realpath(path) == Render(names)
  }

  lemma FoldRooted(base: seq<string>)
    requires IsNormal(base)
    ensures Fold([], [""] + base) == base
  {
    FoldAppend([], [""], base);
    assert Fold([], [""]) == [];
    FoldNames([], base);
    assert [] + base == base;
  }

  /** The parts of a path below an absolute one are its own parts after those. */
  lemma JoinedParts(base: seq<string>, r: string)
    requires IsNormal(base) && (r == "" || r[0] != '/')
    ensures !DoubleSlashed(JoinPath(Render(base), r))
    ensures Split(JoinPath(Render(base), r)) == [""] + base + Split(r)
  {
    NoDoubleSlash(base);
    if base == [] {
      assert JoinPath(Render(base), r) == "/" + r == "" + "/" + r;
      SplitJoin("", r);
      SplitPlain("");
      assert [""] + [] == [""];
    } else {
      LastChar(base);
      SplitJoin(Render(base), r);
      SplitSlashed(base);
    }
  }

  lemma CandidateComponents(base: seq<string>, rel: string)
    requires IsNormal(base)
    ensures NormPath(JoinPath(Render(base), LStrip(rel))) == Render(Fold(base, Split(LStrip(rel))))
    ensures IsNormal(Fold(base, Split(LStrip(rel))))
  {
    hide Split, Fold, Render, JoinPath, DoubleSlashed;
    var r := LStrip(rel);
    SplitHasNoSlash(r);
    FoldIsNormal(base, Split(r));
    JoinedParts(base, r);
    FoldAppend([], [""] + base, Split(r));
    FoldRooted(base);
  }

  lemma LastChar(base: seq<string>)
    requires IsNormal(base) && base != []
    ensures Render(base) != "" && Render(base)[|Render(base)| - 1] != '/'
  {
    var init, last := base[..|base| - 1], base[|base| - 1];
    assert base == init + [last];
    SlashedAppend(init, [last]);
    assert Slashed([last]) == "/" + last;
    assert Render(base)[|Render(base)| - 1] == last[|last| - 1];
  }

  /** The guard in terms of the fold. */
  lemma GuardDecides(realpath: string -> string, workspace: string, base: seq<string>, rel: string, actual: seq<string>)
    requires Resolves(realpath, workspace, base)
    requires Resolves(realpath, Render(Fold(base, Split(LStrip(rel)))), actual)
    ensures SafeJoin(realpath, workspace, rel) ==
            if base <= actual && (base != [] || actual == []) then Inside(Render(Fold(base, Split(LStrip(rel))))) else Escapes
  {
    CandidateComponents(base, rel);
    StringTestMeansPrefix(base, actual);
  }

  // ---- two other ways of reading a path --------------------------------------------------------

  /** Reading the parts from the end: each `..` is owed one name, and names pay what is owed. */
  function Back(parts: seq<string>, owed: nat): seq<string>
    decreases |parts|
  {
    if parts == [] then []
    else
      var before, last := parts[..|parts| - 1], parts[|parts| - 1];
      if last == "" || last == "." then Back(before, owed)
      else if last == ".." then Back(before, owed + 1)
      else if owed > 0 then Back(before, owed - 1)
      else Back(before, 0) + [last]
  }

  /** Walking the parts from some depth below the start: how often the walk climbs above its start, each
      time going on from where it then is. */
  function Climb(parts: seq<string>, depth: nat): nat
    decreases |parts|
  {
    if parts == [] then 0
    else if parts[0] == "" || parts[0] == "." then Climb(parts[1..], depth)
    else if parts[0] == ".." then (if depth > 0 then Climb(parts[1..], depth - 1) else Climb(parts[1..], 0) + 1)
    else Climb(parts[1..], depth + 1)
  }

  function Less(a: nat, b: nat): (m: nat)
    ensures m == if a < b then a else b
  {
    if a < b then a else b
  }

  lemma {:induction false} FoldIsBack(parts: seq<string>, owed: nat)
    ensures var names := Fold([], parts); Back(parts, owed) == names[..|names| - Less(owed, |names|)]
    decreases |parts|
  {
    if parts != [] {
      var before, last := parts[..|parts| - 1], parts[|parts| - 1];
      assert parts == before + [last];
      FoldAppend([], before, [last]);
      var names := Fold([], before);
      if last == "" || last == "." {
        FoldIsBack(before, owed);
      } else if last == ".." {
        FoldIsBack(before, owed + 1);
      } else {
        assert Fold(names, [last]) == names + [last];
        FoldIsBack(before, if owed > 0 then owed - 1 else 0);
      }
    }
  }

  /** Folding above some names: what the walk climbs above its start is lost from them, and the rest is
      the path's own. */
  lemma {:induction false} FoldAbove(base: seq<string>, names: seq<string>, parts: seq<string>)
    ensures Fold(base + names, parts) == base[..|base| - Less(Climb(parts, |names|), |base|)] + Fold(names, parts)
    decreases |parts|
  {
    if parts == [] {
      assert base[..|base|] == base;
    } else if parts[0] == "" || parts[0] == "." {
      FoldAbove(base, names, parts[1..]);
    } else if parts[0] == ".." {
      if names != [] {
        assert (base + names)[..|base + names| - 1] == base + names[..|names| - 1];
        FoldAbove(base, names[..|names| - 1], parts[1..]);
      } else {
        var up := if base == [] then [] else base[..|base| - 1];
        assert base + [] == base && up + [] == up;
        FoldAbove(up, [], parts[1..]);
      }
    } else {
      assert base + names + [parts[0]] == base + (names + [parts[0]]);
      FoldAbove(base, names + [parts[0]], parts[1..]);
    }
  }

  /** The components a path names: of the workspace's, as many are lost as the path climbs above its start;
      then come its own names, read from the end. */
  function Target(base: seq<string>, rel: string): seq<string> {
    var parts := Split(LStrip(rel));
    base[..|base| - Less(Climb(parts, 0), |base|)] + Back(parts, 0)
  }

  lemma TargetIsFold(base: seq<string>, rel: string)
    ensures Fold(base, Split(LStrip(rel))) == Target(base, rel)
  {
    var parts := Split(LStrip(rel));
    FoldAbove(base, [], parts);
    FoldIsBack(parts, 0);
    assert base + [] == base;
    assert Fold([], parts)[..|Fold([], parts)|] == Fold([], parts);
  }

  /** Containment, whatever symbolic links there are: a path is let through, as the place it names, exactly
      when the file that really is there lies in the workspace (at a root workspace: is the root). */
  lemma {:induction false} NothingEscapes(
    realpath: string -> string, workspace: string, base: seq<string>, rel: string, actual: seq<string>)
    requires Resolves(realpath, workspace, base)
    requires Resolves(realpath, Render(Target(base, rel)), actual)
    ensures SafeJoin(realpath, workspace, rel) ==
            if base <= actual && (base != [] || actual == []) then Inside(Render(Target(base, rel))) else Escapes
  {
    hide SafeJoin, Target, Fold;
    TargetIsFold(base, rel);
    GuardDecides(realpath, workspace, base, rel, actual);
  }

  /** Without symbolic links, exactly: of the workspace's components, as many are lost as the path climbs
      above its start; it is accepted exactly if its own names, read from the end, begin with the lost
      ones; and it then names what is left followed by its own. At the root only the root is accepted. */
  lemma {:induction false} AcceptedExactlyWhen(realpath: string -> string, workspace: string, base: seq<string>, rel: string)
    requires Resolves(realpath, workspace, base)
    requires forall names :: IsNormal(names) ==> realpath(Render(names)) == Render(names)
    ensures var parts := Split(LStrip(rel));
            var left := |base| - Less(Climb(parts, 0), |base|);
            var own := Back(parts, 0);
            SafeJoin(realpath, workspace, rel) ==
            if (if base == [] then own == [] else base[left..] <= own) then Inside(Render(base[..left] + own)) else Escapes
  {
    var parts := Split(LStrip(rel));
    var left := |base| - Less(Climb(parts, 0), |base|);
    FoldAbove(base, [], parts);
    FoldIsBack(parts, 0);
    assert base + [] == base;
    CandidateComponents(base, rel);
    var actual := Fold(base, parts);
    GuardDecides(realpath, workspace, base, rel, actual);
    assert actual == base[..left] + Back(parts, 0);
    PrefixRest(base, left, Back(parts, 0));
  }

  lemma PrefixRest(base: seq<string>, left: nat, own: seq<string>)
    requires left <= |base|
    ensures base <= base[..left] + own <==> base[left..] <= own
  {
    assert base == base[..left] + base[left..];
    if base <= base[..left] + own {
      assert forall i :: 0 <= i < |base[left..]| ==> base[left..][i] == (base[..left] + own)[left + i] == own[i];
    }
  }

  /** Going into a directory and back is going nowhere, whatever symbolic links there are. */
  lemma {:induction false} BackAndForth(realpath: string -> string, workspace: string, base: seq<string>, p: string, name: string, q: string)
    requires Resolves(realpath, workspace, base) && IsName(name) && p != "" && p[0] != '/'
    ensures SafeJoin(realpath, workspace, p + "/" + name + "/" + ".." + "/" + q) == SafeJoin(realpath, workspace, p + "/" + q)
  {
    var long, short := p + "/" + name + "/" + ".." + "/" + q, p + "/" + q;
    assert LStrip(long) == long && LStrip(short) == short;
    CandidateComponents(base, long);
    CandidateComponents(base, short);
    SplitJoin(p, q);
    SplitJoin(p + "/" + name + "/" + "..", q);
    SplitJoin(p + "/" + name, "..");
    SplitJoin(p, name);
    SplitPlain(name);
    SplitPlain("..");
    FoldIntoAndBack(base, Split(p), name, Split(q));
    assert Split(long) == Split(p) + [name] + [".."] + Split(q);
  }

  lemma FoldIntoAndBack(base: seq<string>, p: seq<string>, name: string, q: seq<string>)
    requires IsName(name)
    ensures Fold(base, p + [name] + [".."] + q) == Fold(base, p + q)
  {
    var here := Fold(base, p);
    FoldAppend(base, p + [name] + [".."], q);
    FoldAppend(base, p + [name], [".."]);
    FoldAppend(base, p, [name]);
    FoldAppend(base, p, q);
    assert Fold(here, [name]) == here + [name];
    assert (here + [name])[..|here + [name]| - 1] == here;
  }

  const TRAVERSAL: seq<string> := ["..", "..", "etc", "passwd"]

  lemma TraversalParts()
    ensures Split(LStrip("../../etc/passwd")) == TRAVERSAL
  {
    hide Split;
    assert LStrip("../../etc/passwd") == "../../etc/passwd";
    assert "../../etc/passwd" == "../../etc" + "/" + "passwd" && "../../etc" == "../.." + "/" + "etc" && "../.." == ".." + "/" + "..";
    SplitJoin("../../etc", "passwd");
    SplitJoin("../..", "etc");
    SplitJoin("..", "..");
    SplitPlain("..");
    SplitPlain("etc");
    SplitPlain("passwd");
  }

  lemma AbsoluteParts()
    ensures Split(LStrip("/etc/passwd")) == ["etc", "passwd"]
  {
    hide Split;
    assert "/etc/passwd"[1..] == "etc/passwd" == "etc" + "/" + "passwd";
    assert LStrip("/etc/passwd") == LStrip("etc/passwd") == "etc/passwd";
    SplitJoin("etc", "passwd");
    SplitPlain("etc");
    SplitPlain("passwd");
  }

  lemma TraversalReads()
    ensures Climb(TRAVERSAL, 0) == 2 && Back(TRAVERSAL, 0) == ["etc", "passwd"]
  {
    var a, b, c := TRAVERSAL[..1], TRAVERSAL[..2], TRAVERSAL[..3];
    assert c[..2] == b && b[..1] == a && a[..0] == [];
    assert Back(b, 0) == Back(a, 1) == Back([], 2) == [];
    assert Back(c, 0) == Back(b, 0) + ["etc"];
    var x, y, z := TRAVERSAL[1..], TRAVERSAL[2..], TRAVERSAL[3..];
    assert x[1..] == y && y[1..] == z && z[1..] == [];
    assert z[0] == "passwd" && Climb(z, 1) == Climb(z[1..], 2) == 0;
    assert y[0] == "etc" && Climb(y, 0) == Climb(y[1..], 1);
    assert x[0] == ".." && Climb(x, 0) == Climb(x[1..], 0) + 1;
    assert TRAVERSAL[0] == ".." && Climb(TRAVERSAL, 0) == Climb(TRAVERSAL[1..], 0) + 1;
  }

  /** The traversal that the guard is tested on is refused in every workspace but those it names itself. */
  lemma TraversalIsRefused(realpath: string -> string, workspace: string, base: seq<string>)
    requires Resolves(realpath, workspace, base) && base != []
    requires forall names :: IsNormal(names) ==> realpath(Render(names)) == Render(names)
    ensures SafeJoin(realpath, workspace, "../../etc/passwd") == Escapes
            <==> !(base[|base| - Less(2, |base|)..] <= ["etc", "passwd"])
  {
    hide Split, SafeJoin, Back, Climb;
    TraversalParts();
    TraversalReads();
    AcceptedExactlyWhen(realpath, workspace, base, "../../etc/passwd");
  }

  lemma AbsoluteReads()
    ensures Climb(["etc", "passwd"], 0) == 0 && Back(["etc", "passwd"], 0) == ["etc", "passwd"]
    ensures Climb(["."], 0) == 0 && Back(["."], 0) == []
  {
    var parts := ["etc", "passwd"];
    assert parts[..1] == ["etc"] && ["etc"][..0] == [] && Back(["etc"], 0) == ["etc"];
    assert parts[1..] == ["passwd"] && ["passwd"][1..] == [] && Climb(["passwd"], 1) == 0;
    assert ["."][1..] == [] && ["."][..0] == [];
  }

  /** An absolute path is read below the workspace, and a dot is the workspace itself. */
  lemma AbsoluteIsRelative(realpath: string -> string, workspace: string, base: seq<string>)
    requires Resolves(realpath, workspace, base) && base != []
    requires forall names :: IsNormal(names) ==> realpath(Render(names)) == Render(names)
    ensures SafeJoin(realpath, workspace, "/etc/passwd") == Inside(Render(base + ["etc", "passwd"]))
    ensures SafeJoin(realpath, workspace, ".") == Inside(Render(base))
  {
    AbsoluteReads();
    AbsoluteParts();
    DotParts();
    hide *;
    AcceptedExactlyWhen(realpath, workspace, base, "/etc/passwd");
    AcceptedExactlyWhen(realpath, workspace, base, ".");
    assert base[..|base|] == base && base + [] == base;
  }

  lemma DotParts()
    ensures Split(LStrip(".")) == ["."]
  {
    SplitPlain(".");
  }

  /** Without symbolic links, a path that never climbs above where it starts is always accepted below a
      workspace other than the root, and names the workspace followed by its own normalised components.
      Leading slashes make no difference. */
  lemma {:induction false} ModestPathsAreAccepted(realpath: string -> string, workspace: string, base: seq<string>, rel: string)
    requires Resolves(realpath, workspace, base) && base != []
    requires forall names :: IsNormal(names) ==> realpath(Render(names)) == Render(names)
    requires Climb(Split(LStrip(rel)), 0) == 0
    ensures SafeJoin(realpath, workspace, rel) == Inside(Render(base + Back(Split(LStrip(rel)), 0)))
    ensures SafeJoin(realpath, workspace, "/" + rel) == SafeJoin(realpath, workspace, rel)
  {
    hide SafeJoin, Split, Back, Climb, Render;
    AcceptedExactlyWhen(realpath, workspace, base, rel);
    assert base[..|base|] == base && base[|base|..] == [];
    LeadingSlash(realpath, workspace, rel);
  }

  lemma LeadingSlash(realpath: string -> string, workspace: string, rel: string)
    ensures SafeJoin(realpath, workspace, "/" + rel) == SafeJoin(realpath, workspace, rel)
  {
    assert ("/" + rel)[1..] == rel;
  }
}
