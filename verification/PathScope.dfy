/**
 The deletion scope of `agent_sys/env_mgr/sync.py`: string tests on normalised
 paths, against containment by path component.
 */
module PathScope {
  import opened Options
  import opened Text

  // ---- posixpath ----

  predicate IsSlash(c: char) { c == '/' }

  /** `s.split("/")` */
  function Parts(s: string): (r: seq<string>) { Split(IsSlash, s) }

  /** `"/".join(c)` */
  function Join(c: seq<string>): (s: string)
  {
    if c == [] then "" else if |c| == 1 then c[0] else c[0] + "/" + Join(c[1..])
  }

  /** Leading slashes `normpath` keeps: POSIX gives exactly two a meaning of their own. */
  function Slashes(p: string): (n: nat)
    ensures n <= 2
  {
    if p == "" || p[0] != '/' then 0
    else if |p| >= 2 && p[1] == '/' && !(|p| >= 3 && p[2] == '/') then 2
    else 1
  }

  /** One turn of the loop in `normpath`. */
  function Add(abs: bool, acc: seq<string>, part: string): (r: seq<string>)
  {
    if part == "" || part == "." then acc
    else if part != ".." || (!abs && acc == []) || (acc != [] && acc[|acc| - 1] == "..") then acc + [part]
    else if acc != [] then acc[..|acc| - 1]
    else acc
  }

  function Fold(abs: bool, acc: seq<string>, parts: seq<string>): (r: seq<string>)
    decreases |parts|
  {
    if parts == [] then acc else Fold(abs, Add(abs, acc, parts[0]), parts[1..])
  }

  function Comps(p: string): (c: seq<string>) { Fold(Slashes(p) > 0, [], Parts(p)) }

  function Lead(n: nat): (s: string)
    requires n <= 2
  {
    if n == 0 then "" else if n == 1 then "/" else "//"
  }

  /** `os.path.normpath` */
  function Norm(p: string): (s: string)
  {
    var s := Lead(Slashes(p)) + Join(Comps(p));
    if s == "" then "." else s
  }

  /** `s.rstrip("/")` */
  function RStrip(s: string): (r: string)
    ensures r <= s && (r == "" || r[|r| - 1] != '/') && forall i | |r| <= i < |s| :: s[i] == '/'
  {
    if s != "" && s[|s| - 1] == '/' then RStrip(s[..|s| - 1]) else s
  }

  /** `_under` */
  predicate Under(path: string, root: string)
  {
    Norm(path) == Norm(root) || RStrip(Norm(root)) + "/" <= Norm(path)
  }

  // ---- splitting and joining ----

  predicate Plain(c: string) { c != "" && c != "." && '/' !in c }

  predicate AllPlain(cs: seq<string>) { forall c | c in cs :: Plain(c) }

  lemma PartsSplit(a: string, b: string)
    ensures Parts(a + "/" + b) == Parts(a) + Parts(b)
  {
    SplitAt(IsSlash, a, '/', b);
  }

  lemma PartsOfPlain(s: string)
    requires '/' !in s
    ensures Parts(s) == [s]
  {
    SplitWhole(IsSlash, s);
  }

  lemma {:induction false} PartsOfJoin(c: seq<string>)
    requires c != [] && AllPlain(c)
    ensures Parts(Join(c)) == c && Join(c) != "" && Join(c)[0] != '/' && Join(c)[|Join(c)| - 1] != '/'
  {
    assert c[0] in c && c[0][0] in c[0];
    PartsOfPlain(c[0]);
    if |c| == 1 {
      assert c[0][|c[0]| - 1] in c[0];
      assert c == [c[0]];
    } else {
      PartsOfJoin(c[1..]);
      PartsSplit(c[0], Join(c[1..]));
      assert c == [c[0]] + c[1..];
    }
  }

  lemma {:induction false} JoinConcat(a: seq<string>, b: seq<string>)
    requires a != [] && b != []
    ensures Join(a + b) == Join(a) + "/" + Join(b)
  {
    assert (a + b)[0] == a[0] && (a + b)[1..] == a[1..] + b;
    if |a| > 1 { JoinConcat(a[1..], b); }
    else { assert (a + b)[1..] == b; }
  }

  /** Prefix of the string, up to a separator, is prefix of the components. */
  lemma JoinPrefix(c: seq<string>, d: seq<string>)
    requires AllPlain(c) && AllPlain(d) && d != [] && c != []
    ensures (Join(c) == Join(d) || Join(d) + "/" <= Join(c)) <==> d <= c
  {
    PartsOfJoin(c);
    PartsOfJoin(d);
    if Join(d) + "/" <= Join(c) {
      var x := Join(c)[|Join(d)| + 1..];
      assert Join(c) == Join(d) + "/" + x;
      PartsSplit(Join(d), x);
    }
    if d <= c && d != c {
      var rest := c[|d|..];
      assert c == d + rest;
      JoinConcat(d, rest);
    }
  }

  // ---- what normalising leaves ----

  lemma {:induction false} FoldPlain(abs: bool, acc: seq<string>, parts: seq<string>)
    requires AllPlain(acc) && (forall c | c in parts :: '/' !in c) && (abs ==> ".." !in acc)
    ensures AllPlain(Fold(abs, acc, parts)) && (abs ==> ".." !in Fold(abs, acc, parts))
    decreases |parts|
  {
    if parts != [] {
      assert parts[0] in parts;
      FoldPlain(abs, Add(abs, acc, parts[0]), parts[1..]);
    }
  }

  /** Components are non-empty, slash-free and never `.`; in an absolute path none is `..`. */
  lemma CompsPlain(p: string)
    ensures AllPlain(Comps(p)) && (Slashes(p) > 0 ==> ".." !in Comps(p))
  {
    PartsHaveNoSeparator(IsSlash, p);
    assert forall c | c in Parts(p) :: '/' in c ==> IsSlash('/');
    FoldPlain(Slashes(p) > 0, [], Parts(p));
  }

  lemma {:induction false} FoldConcat(abs: bool, acc: seq<string>, a: seq<string>, b: seq<string>)
    ensures Fold(abs, acc, a + b) == Fold(abs, Fold(abs, acc, a), b)
    decreases |a|
  {
    if a == [] { assert a + b == b; }
    else {
      FoldConcat(abs, Add(abs, acc, a[0]), a[1..], b);
      assert (a + b)[0] == a[0] && (a + b)[1..] == a[1..] + b;
    }
  }

  /** What normalising an absolute path comes to, piece by piece: an empty piece and `.` stay, `..`
      goes up, at the root nowhere, and a name goes down. */
  lemma CompsStep(p: string, part: string)
    requires Slashes(p) > 0 && '/' !in part
    ensures Slashes(p + "/" + part) > 0
    ensures Comps(p + "/" + part) ==
      if part == "" || part == "." then Comps(p)
      else if part == ".." then (if Comps(p) == [] then [] else Comps(p)[..|Comps(p)| - 1])
      else Comps(p) + [part]
    ensures Comps("/") == []
  {
    PartsOfPlain("");
    assert "/" == "" + "/" + "";
    PartsSplit("", "");
    assert Fold(true, [], ["", ""]) == Fold(true, [], ["", ""][1..]) == Fold(true, [], ["", ""][1..][1..]);
    PartsSplit(p, part);
    PartsOfPlain(part);
    FoldConcat(true, [], Parts(p), [part]);
    assert Fold(true, Comps(p), [part]) == Fold(true, Add(true, Comps(p), part), []);
    CompsPlain(p);
    assert forall i | 0 <= i < |Comps(p)| :: Comps(p)[i] in Comps(p);
  }

  // ---- main theorem ----

  /** Containment by component: the leads agree, where for a root with no component any absolute
      lead will do, and the root's components begin the path's. */
  predicate Contains(root: string, path: string)
  {
    && (if Comps(root) == [] && Slashes(root) > 0 then Slashes(path) > 0 else Slashes(path) == Slashes(root))
    && Comps(root) <= Comps(path)
  }

  /** A root that is the current directory, and a relative path that is not. */
  predicate BesideDot(root: string, path: string)
  {
    Norm(root) == "." && Slashes(path) == 0 && Comps(path) != []
  }

  /** What `_under` turns out to decide, by the shape of the root. */
  predicate Holds(root: string, path: string)
  {
    if Comps(root) != [] then Slashes(path) == Slashes(root) && Comps(root) <= Comps(path)
    else if Slashes(root) > 0 then Slashes(path) > 0
    else Slashes(path) == 0 && Comps(path) == []
  }

  lemma RStripNorm(r: string)
    ensures RStrip(Norm(r)) == if Comps(r) != [] then Norm(r) else if Slashes(r) > 0 then "" else "."
  {
    CompsPlain(r);
    var n := Norm(r);
    if Comps(r) != [] {
      PartsOfJoin(Comps(r));
      assert n[|n| - 1] == Join(Comps(r))[|Join(Comps(r))| - 1];
    } else if Slashes(r) == 1 {
      assert n == "/" && n[..0] == "";
    } else if Slashes(r) == 2 {
      assert n == "//" && n[..1] == "/" && "/"[..0] == "";
    } else {
      assert n == ".";
    }
  }

  lemma NormShape(p: string)
    ensures Comps(p) != [] ==>
      Norm(p) == Lead(Slashes(p)) + Join(Comps(p)) && Join(Comps(p)) != "" && Join(Comps(p))[0] != '/'
    ensures Comps(p) == [] ==> Norm(p) == if Slashes(p) == 0 then "." else Lead(Slashes(p))
  {
    CompsPlain(p);
    if Comps(p) != [] { PartsOfJoin(Comps(p)); }
  }

  lemma UnderHolds(path: string, root: string)
    ensures Under(path, root) <==> Holds(root, path)
  {
    NormShape(path);
    NormShape(root);
    RStripNorm(root);
    CompsPlain(path);
    CompsPlain(root);
    if Comps(root) == [] { UnderTop(path, root); }
    else if Comps(path) == [] { UnderNothing(path, root); }
    else { UnderBelow(Comps(path), Slashes(path), Comps(root), Slashes(root)); }
  }

  lemma NormBegins(p: string)
    ensures Norm(p) != "" && (Norm(p)[0] == '/' <==> Slashes(p) > 0)
  {
    NormShape(p);
  }

  lemma UnderTop(path: string, root: string)
    requires Comps(root) == []
    ensures Under(path, root) <==> Holds(root, path)
  {
    NormBegins(path);
    NormBegins(root);
    RStripNorm(root);
    if Slashes(root) > 0 {
      assert "" + "/" == "/";
    } else {
      NormShape(root);
      UnderDot(path);
    }
  }

  lemma UnderDot(path: string)
    ensures Norm(path) == "." || "./" <= Norm(path) <==> Slashes(path) == 0 && Comps(path) == []
  {
    NormBegins(path);
    NormShape(path);
    if Slashes(path) == 0 && Comps(path) != [] {
      CompsPlain(path);
      FirstPart(Comps(path));
      assert Norm(path) == Join(Comps(path));
    }
  }

  lemma DotFirst(s: string)
    ensures "./" <= s ==> Parts(s)[0] == "."
  {
    if "./" <= s {
      assert s == "." + "/" + s[2..];
      PartsSplit(".", s[2..]);
      PartsOfPlain(".");
    }
  }

  /** A joined path never begins with `./` and is never `.` itself. */
  lemma FirstPart(c: seq<string>)
    requires c != [] && AllPlain(c)
    ensures !("./" <= Join(c)) && Join(c) != "."
  {
    assert Plain(c[0]);
    PartsOfJoin(c);
    PartsOfPlain(".");
    DotFirst(Join(c));
  }

  lemma UnderNothing(path: string, root: string)
    requires Comps(root) != [] && Comps(path) == []
    ensures !Under(path, root)
  {
    NormShape(path);
    NormShape(root);
    RStripNorm(root);
    CompsPlain(root);
    FirstPart(Comps(root));
    NoneBelow(Norm(path), Slashes(root), Join(Comps(root)));
  }

  lemma NoneBelow(n: string, j: nat, t: string)
    requires n == "." || n == "/" || n == "//"
    requires j <= 2 && t != "" && t[0] != '/' && t != "."
    ensures Lead(j) + t != n && !(Lead(j) + t + "/" <= n)
  {
    var r := Lead(j) + t;
    assert |r| == j + |t| && r[j] == t[0];
    assert r[j..] == t;
    assert |r + "/"| == |r| + 1 && (r + "/")[j] == t[0];
  }

  lemma UnderBelow(c: seq<string>, i: nat, d: seq<string>, j: nat)
    requires c != [] && d != [] && AllPlain(c) && AllPlain(d) && i <= 2 && j <= 2
    ensures (Lead(i) + Join(c) == Lead(j) + Join(d) || Lead(j) + Join(d) + "/" <= Lead(i) + Join(c)) <==>
      i == j && d <= c
  {
    PartsOfJoin(c);
    PartsOfJoin(d);
    JoinPrefix(c, d);
    if i == j { SameLead(i, Join(c), Join(d)); } else { OtherLead(i, Join(c), j, Join(d)); }
  }

  lemma SamePrefix<T>(l: seq<T>, a: seq<T>, b: seq<T>)
    ensures l + a == l + b <==> a == b
    ensures l + a <= l + b <==> a <= b
  {
    assert (l + a)[|l|..] == a && (l + b)[|l|..] == b;
    if a <= b { assert l + b == (l + a) + b[|a|..]; }
    if l + a <= l + b { assert (l + b)[..|l + a|] == l + b[..|a|]; }
  }

  lemma SameLead(i: nat, s: string, t: string)
    requires i <= 2
    ensures Lead(i) + s == Lead(i) + t <==> s == t
    ensures Lead(i) + t + "/" <= Lead(i) + s <==> t + "/" <= s
  {
    SamePrefix(Lead(i), s, t);
    SamePrefix(Lead(i), t + "/", s);
    assert Lead(i) + t + "/" == Lead(i) + (t + "/");
  }

  function Leading(s: string): (n: nat)
    ensures n <= |s|
  {
    if s != "" && s[0] == '/' then 1 + Leading(s[1..]) else 0
  }

  lemma LeadingOf(i: nat, s: string)
    requires i <= 2 && s != "" && s[0] != '/'
    ensures Leading(Lead(i) + s) == i
  {
    assert Leading(s) == 0;
    assert ("/" + s)[1..] == s && Leading("/" + s) == 1;
    if i == 0 { assert Lead(0) + s == s; }
    else if i == 2 { assert ("//" + s)[1..] == "/" + s; }
  }

  lemma {:induction false} LeadingOfPrefix(y: string, x: string)
    requires Leading(y) < |y|
    ensures y <= x ==> Leading(x) == Leading(y)
  {
    if y <= x && y[0] == '/' { LeadingOfPrefix(y[1..], x[1..]); }
  }

  lemma OtherLead(i: nat, s: string, j: nat, t: string)
    requires i <= 2 && j <= 2 && i != j && s != "" && t != "" && s[0] != '/' && t[0] != '/'
    ensures Lead(i) + s != Lead(j) + t && !(Lead(j) + t + "/" <= Lead(i) + s)
  {
    LeadingOf(i, s);
    LeadingOf(j, t);
    LeadingOf(j, t + "/");
    assert Lead(j) + t + "/" == Lead(j) + (t + "/");
    LeadingOfPrefix(Lead(j) + t + "/", Lead(i) + s);
  }

  lemma DotNorm(root: string)
    ensures Norm(root) == "." <==> Comps(root) == [] && Slashes(root) == 0
  {
    NormShape(root);
    CompsPlain(root);
    if Comps(root) != [] {
      FirstPart(Comps(root));
      if Slashes(root) == 0 { assert Norm(root) == Join(Comps(root)); } else { assert Norm(root)[0] == '/'; }
    }
  }

  /** The string test after normalisation is component containment, `..`, repeated separators and
      the root directory included, except that the root `.` holds only itself; and there it
      always differs. */
  lemma UnderIsContainment(path: string, root: string)
    ensures Under(path, root) <==> Contains(root, path) && !BesideDot(root, path)
    ensures (Under(path, root) <==> Contains(root, path)) <==> !BesideDot(root, path)
  {
    UnderHolds(path, root);
    DotNorm(root);
  }

  /** The input: `a` lies in the current directory, and `_under` denies it. */
  lemma DotHoldsNothing()
    ensures Contains(".", "a") && !Under("a", ".")
  {
    PartsOfPlain(".");
    PartsOfPlain("a");
    assert Fold(false, [], ["."]) == Fold(false, [], []);
    assert Fold(false, [], ["a"]) == Fold(false, ["a"], []);
    assert BesideDot(".", "a") by { DotNorm("."); }
    UnderIsContainment("a", ".");
  }

  // ---- check_delete_scope ----

  datatype Mapping = Mapping(local: string, far: string)

  predicate Allowed(far: string, roots: seq<string>)
  {
    exists r | r in roots :: r != "" && Under(far, r)
  }

  /** `check_delete_scope` over the sorted items: the mapping it refuses, if any. */
  function CheckDeleteScope(items: seq<Mapping>, roots: seq<string>): (refused: Option<Mapping>)
  {
    if items == [] then None
    else if Allowed(items[0].far, roots) then CheckDeleteScope(items[1..], roots)
    else Some(items[0])
  }

  /** Accepted exactly when every far root lies, by component, at or below a declared root, and
      not only below one that is the current directory. */
  lemma {:induction false} ScopeIsContainment(items: seq<Mapping>, roots: seq<string>)
    ensures CheckDeleteScope(items, roots).None? <==>
      forall m | m in items :: exists r | r in roots :: r != "" && Contains(r, m.far) && !BesideDot(r, m.far)
    ensures CheckDeleteScope(items, roots).Some? ==>
      CheckDeleteScope(items, roots).value in items &&
      forall r | r in roots :: r != "" && Contains(r, CheckDeleteScope(items, roots).value.far) ==>
        BesideDot(r, CheckDeleteScope(items, roots).value.far)
  {
    if items != [] {
      ScopeIsContainment(items[1..], roots);
      forall r | r in roots { UnderIsContainment(items[0].far, r); }
      forall m ensures m in items <==> m == items[0] || m in items[1..] {}
    }
  }

  /** The mapping refused is the first, in the order looked at, that no declared root allows. */
  lemma {:induction false} FirstRefused(items: seq<Mapping>, roots: seq<string>) returns (i: nat)
    ensures i <= |items| && forall j | 0 <= j < i :: Allowed(items[j].far, roots)
    ensures i < |items| ==> !Allowed(items[i].far, roots)
    ensures CheckDeleteScope(items, roots) == if i == |items| then None else Some(items[i])
  {
    if items == [] || !Allowed(items[0].far, roots) { i := 0; }
    else {
      var k := FirstRefused(items[1..], roots);
      i := k + 1;
      assert forall j | 1 <= j < |items| :: items[j] == items[1..][j - 1];
    }
  }

  /** For absolute paths with one leading slash, containment is extension of the component list. */
  lemma AbsoluteContainment(path: string, root: string)
    requires Slashes(path) == 1 && Slashes(root) == 1
    ensures Under(path, root) <==> Comps(root) <= Comps(path)
    ensures ".." !in Comps(path) && ".." !in Comps(root)
  {
    UnderHolds(path, root);
    CompsPlain(path);
    CompsPlain(root);
  }

  /** A relative root of `..` contains what lies above it, so there the components do not
      keep a path from climbing out. */
  lemma RelativeRootClimbs()
    ensures Under("../..", "..") && Comps("../..") == ["..", ".."] && Comps("..") == [".."]
  {
    PartsOfPlain("..");
    PartsSplit("..", "..");
    assert "../.." == ".." + "/" + "..";
    assert Fold(false, [], [".."]) == Fold(false, [".."], []);
    assert [".."] + [".."] == ["..", ".."] && ["..", ".."][1..] == [".."];
    assert Fold(false, [], ["..", ".."]) == Fold(false, [".."], [".."]) == Fold(false, ["..", ".."], []);
    UnderHolds("../..", "..");
  }

  /** Does `path` go up again below `root`? */
  predicate Climbs(root: string, path: string)
  {
    |Comps(root)| <= |Comps(path)| && ".." in Comps(path)[|Comps(root)|..]
  }

  /** Every `..` comes before every name. */
  predicate UpsFirst(c: seq<string>)
  {
    forall i, j | 0 <= i < j < |c| :: c[j] == ".." ==> c[i] == ".."
  }

  lemma {:induction false} FoldUpsFirst(abs: bool, acc: seq<string>, parts: seq<string>)
    requires UpsFirst(acc)
    ensures UpsFirst(Fold(abs, acc, parts))
    decreases |parts|
  {
    if parts != [] { FoldUpsFirst(abs, Add(abs, acc, parts[0]), parts[1..]); }
  }

  /** So a declared root keeps every accepted path from climbing out of it exactly when it is not
      made of one or more `..` alone. */
  lemma RootHoldsExactly(root: string)
    ensures (forall path | Under(path, root) :: !Climbs(root, path)) <==>
      Comps(root) == [] || exists c | c in Comps(root) :: c != ".."
  {
    CompsPlain(root);
    if Comps(root) == [] {
      forall path | Under(path, root) ensures !Climbs(root, path) { TopHolds(root, path); }
    } else if c :| c in Comps(root) && c != ".." {
      forall path | Under(path, root) ensures !Climbs(root, path) { NamedRootHolds(root, path, c); }
    } else {
      var path := JoinPath(root, Join([".."]));
      assert Comps(root)[|Comps(root)| - 1] in Comps(root);
      CompsOfJoinPath(root, [".."]);
      assert Fold(false, Comps(root), [".."]) == Fold(false, Comps(root) + [".."], []);
      assert Comps(path)[|Comps(root)|..] == [".."];
      UnderHolds(path, root);
      assert Climbs(root, path);
    }
  }

  lemma TopHolds(root: string, path: string)
    requires Under(path, root) && Comps(root) == []
    ensures !Climbs(root, path)
  {
    UnderHolds(path, root);
    CompsPlain(path);
    assert Comps(path)[0..] == Comps(path);
  }

  lemma NamedRootHolds(root: string, path: string, c: string)
    requires Under(path, root) && c in Comps(root) && c != ".."
    ensures !Climbs(root, path)
  {
    UnderHolds(path, root);
    FoldUpsFirst(Slashes(path) > 0, [], Parts(path));
    var i :| 0 <= i < |Comps(root)| && Comps(root)[i] == c;
    assert Comps(path)[i] == c;
    var below := Comps(path)[|Comps(root)|..];
    forall j | 0 <= j < |below| ensures below[j] != ".." { assert below[j] == Comps(path)[|Comps(root)| + j]; }
  }

  // ---- match, remote_root ----

  /** Components of `os.path.abspath(p)`. */
  function AbsComps(cwd: string, p: string): (c: seq<string>)
  {
    if Slashes(p) > 0 then Comps(p) else Comps(cwd + "/" + p)
  }

  function Common(a: seq<string>, b: seq<string>): (n: nat)
    ensures n <= |a| && n <= |b| && a[..n] == b[..n]
    ensures n == |a| <==> a <= b
    ensures n < |a| && n < |b| ==> a[n] != b[n]
  {
    if a == [] || b == [] || a[0] != b[0] then 0 else
      assert a == [a[0]] + a[1..] && b == [b[0]] + b[1..];
      1 + Common(a[1..], b[1..])
  }

  function Ups(k: nat): (c: seq<string>)
    ensures |c| == k && forall i | 0 <= i < k :: c[i] == ".."
  {
    seq(k, _ => "..")
  }

  /** Components of `os.path.relpath(path, start)`. */
  function RelComps(z: seq<string>, s: seq<string>): (c: seq<string>)
  {
    Ups(|s| - Common(s, z)) + z[Common(s, z)..]
  }

  /** `os.path.join(far, rel)` for a relative `rel`. */
  function JoinPath(far: string, rel: string): (p: string)
  {
    if far == "" || far[|far| - 1] == '/' then far + rel else far + "/" + rel
  }

  /** `relpath` raises for an empty path. */
  datatype Match = NoMatch | NoPath | Matched(m: Mapping, far: string)

  predicate Covers(local: string, zone: string)
  {
    zone == RStrip(local) || RStrip(local) + "/" <= zone
  }

  function FarPath(cwd: string, zone: string, m: Mapping): (far: string)
  {
    var rel := RelComps(AbsComps(cwd, zone), AbsComps(cwd, RStrip(m.local)));
    if rel == [] then m.far else JoinPath(m.far, Join(rel))
  }

  /** `match`: the first mapping that covers the zone, and where the zone lives over there. */
  function FindMatch(cwd: string, zone: string, items: seq<Mapping>): (r: Match)
    ensures r.Matched? ==> r.m in items && Covers(r.m.local, zone) && r.far == FarPath(cwd, zone, r.m)
  {
    if items == [] then NoMatch
    else if Covers(items[0].local, zone) then
      if zone == "" then NoPath else Matched(items[0], FarPath(cwd, zone, items[0]))
    else FindMatch(cwd, zone, items[1..])
  }

  lemma {:induction false} JoinParts(s: string)
    ensures Join(Parts(s)) == s
  {
    if s != "" {
      JoinParts(s[1..]);
      var rest := Parts(s[1..]);
      assert s == [s[0]] + s[1..];
      if IsSlash(s[0]) { assert Parts(s) == [""] + rest && Parts(s)[1..] == rest; }
      else if |rest| > 1 { assert Push(s[0], rest)[1..] == rest[1..]; }
    }
  }

  /** A local root covers a zone exactly when the pieces between its slashes, trailing ones apart,
      begin the zone's. */
  lemma CoversByParts(local: string, zone: string)
    ensures Covers(local, zone) <==> Parts(RStrip(local)) <= Parts(zone)
  {
    var p := RStrip(local);
    if p + "/" <= zone {
      assert zone == p + "/" + zone[|p| + 1..];
      PartsSplit(p, zone[|p| + 1..]);
    }
    if Parts(p) <= Parts(zone) && Parts(p) != Parts(zone) {
      var rest := Parts(zone)[|Parts(p)|..];
      assert Parts(zone) == Parts(p) + rest;
      JoinConcat(Parts(p), rest);
      JoinParts(p);
      JoinParts(zone);
    }
    if Parts(p) == Parts(zone) {
      JoinParts(p);
      JoinParts(zone);
    }
  }

  lemma PartsOfNormal(p: string)
    requires Norm(p) == p && Slashes(p) == 1
    ensures Parts(p) == if Comps(p) == [] then ["", ""] else [""] + Comps(p)
    ensures Parts(RStrip(p)) == [""] + Comps(p)
  {
    NormShape(p);
    CompsPlain(p);
    RStripNorm(p);
    PartsOfPlain("");
    if Comps(p) == [] {
      assert p == "" + "/" + "";
      PartsSplit("", "");
    } else {
      assert p == "" + "/" + Join(Comps(p));
      PartsSplit("", Join(Comps(p)));
      PartsOfJoin(Comps(p));
    }
  }

  /** So for absolute paths as `normpath` writes them it is containment by component. */
  lemma CoversIsContainment(local: string, zone: string)
    requires Norm(local) == local && Norm(zone) == zone && Slashes(local) == 1 && Slashes(zone) == 1
    ensures Covers(local, zone) <==> Comps(local) <= Comps(zone)
  {
    CoversByParts(local, zone);
    PartsOfNormal(local);
    PartsOfNormal(zone);
    SamePrefix([""], Comps(local), Comps(zone));
  }

  /** What is found is the first mapping that covers the zone, and nothing exactly when none does. */
  lemma {:induction false} FirstCovering(cwd: string, zone: string, items: seq<Mapping>) returns (i: nat)
    ensures i <= |items| && forall j | 0 <= j < i :: !Covers(items[j].local, zone)
    ensures i < |items| ==> Covers(items[i].local, zone)
    ensures FindMatch(cwd, zone, items) ==
      if i == |items| then NoMatch else if zone == "" then NoPath else Matched(items[i], FarPath(cwd, zone, items[i]))
  {
    if items == [] || Covers(items[0].local, zone) { i := 0; }
    else {
      var k := FirstCovering(cwd, zone, items[1..]);
      i := k + 1;
      assert forall j | 1 <= j < |items| :: items[j] == items[1..][j - 1];
    }
  }

  /** Without `..` a path only goes down. */
  lemma {:induction false} FoldDown(abs: bool, acc: seq<string>, parts: seq<string>)
    requires ".." !in parts
    ensures acc <= Fold(abs, acc, parts)
    ensures AllPlain(parts) ==> Fold(abs, acc, parts) == acc + parts
    decreases |parts|
  {
    if parts != [] {
      assert parts[0] in parts;
      FoldDown(abs, Add(abs, acc, parts[0]), parts[1..]);
      if AllPlain(parts) {
        assert Plain(parts[0]);
        assert acc + [parts[0]] + parts[1..] == acc + parts;
      }
    }
  }

  /** How many components after the last `..`. */
  function Names(f: seq<string>): (n: nat)
    ensures n <= |f|
  {
    if f == [] || f[|f| - 1] == ".." then 0 else 1 + Names(f[..|f| - 1])
  }

  lemma {:induction false} NamesAreNames(f: seq<string>, i: nat)
    requires |f| - Names(f) <= i < |f|
    ensures f[i] != ".."
  {
    if i < |f| - 1 { NamesAreNames(f[..|f| - 1], i); }
  }

  /** What is left of `f` after `k` steps up: names go first; above them an absolute path stops
      at the root, and a relative one goes on upwards. */
  function Climb(abs: bool, f: seq<string>, k: nat): (c: seq<string>) { ClimbPast(abs, f, Names(f), k) }

  function ClimbPast(abs: bool, f: seq<string>, n: nat, k: nat): (c: seq<string>)
    requires n <= |f|
  {
    if k <= n then f[..|f| - k] else if abs then [] else f[..|f| - n] + Ups(k - n)
  }

  lemma {:induction false} FoldUps(abs: bool, f: seq<string>, k: nat)
    requires abs ==> ".." !in f
    ensures Fold(abs, f, Ups(k)) == Climb(abs, f, k)
    decreases k
  {
    if k == 0 { assert f[..|f|] == f; }
    else {
      var g := Add(abs, f, "..");
      assert Ups(k)[0] == ".." && Ups(k)[1..] == Ups(k - 1);
      assert f != [] ==> f[|f| - 1] in f;
      FoldUps(abs, g, k - 1);
      ClimbOne(abs, f, k);
    }
  }

  lemma ClimbOne(abs: bool, f: seq<string>, k: nat)
    requires k > 0 && (abs ==> ".." !in f)
    ensures Climb(abs, Add(abs, f, ".."), k - 1) == Climb(abs, f, k)
  {
    if k <= Names(f) { DropName(abs, f, k); }
    else if Names(f) > 0 { DropNames(abs, f, k); }
    else if !abs { UpMore(f, k); }
    else { assert f == []; }
  }

  lemma TakeTake<T>(f: seq<T>, i: nat)
    requires i < |f|
    ensures f[..|f| - 1][..i] == f[..i]
  {
  }

  lemma DropName(abs: bool, f: seq<string>, k: nat)
    requires 0 < k <= Names(f)
    ensures Climb(abs, f[..|f| - 1], k - 1) == Climb(abs, f, k)
  {
    TakeTake(f, |f| - k);
  }

  lemma DropNames(abs: bool, f: seq<string>, k: nat)
    requires 0 < Names(f) < k
    ensures Climb(abs, f[..|f| - 1], k - 1) == Climb(abs, f, k)
  {
    TakeTake(f, |f| - Names(f));
  }

  lemma Regroup<T>(a: seq<T>, b: seq<T>, c: seq<T>)
    ensures (a + b) + c == a + (b + c)
  {
  }

  lemma ClimbUp(f: seq<string>, k: nat)
    requires Names(f) == 0
    ensures Climb(false, f, k) == f + Ups(k)
  {
    assert f[..|f|] == f;
  }

  lemma UpMore(f: seq<string>, k: nat)
    requires k > 0 && Names(f) == 0
    ensures Climb(false, Add(false, f, ".."), k - 1) == Climb(false, f, k)
  {
    ClimbUp(f, k);
    ClimbUp(f + [".."], k - 1);
    Regroup(f, [".."], Ups(k - 1));
  }

  lemma SlashesKept(far: string, rel: string)
    requires rel != "" && rel[0] != '/'
    ensures Slashes(JoinPath(far, rel)) == Slashes(far)
  {
  }

  lemma CompsOfJoinPath(far: string, c: seq<string>)
    requires c != [] && AllPlain(c)
    ensures Slashes(JoinPath(far, Join(c))) == Slashes(far)
    ensures Comps(JoinPath(far, Join(c))) == Fold(Slashes(far) > 0, Comps(far), c)
  {
    PartsOfJoin(c);
    SlashesKept(far, Join(c));
    var abs := Slashes(far) > 0;
    if far == "" {
      assert JoinPath(far, Join(c)) == Join(c);
      assert Parts("") == [""];
    } else if far[|far| - 1] == '/' {
      var f := far[..|far| - 1];
      assert far == f + "/" + "" && far + Join(c) == f + "/" + Join(c);
      PartsSplit(f, "");
      PartsSplit(f, Join(c));
      FoldConcat(abs, [], Parts(f), [""]);
      FoldConcat(abs, [], Parts(f), c);
    } else {
      PartsSplit(far, Join(c));
      FoldConcat(abs, [], Parts(far), c);
    }
  }

  lemma FoldRel(abs: bool, f: seq<string>, k: nat, down: seq<string>)
    requires (abs ==> ".." !in f) && AllPlain(down) && ".." !in down
    ensures AllPlain(Ups(k) + down) && Fold(abs, f, Ups(k) + down) == Climb(abs, f, k) + down
  {
    FoldConcat(abs, f, Ups(k), down);
    FoldUps(abs, f, k);
    FoldDown(abs, Climb(abs, f, k), down);
  }

  /** How many components of the local root the zone is not under, and what of the zone's path
      is left below the part they share. */
  function Above(cwd: string, zone: string, local: string): (k: nat)
  {
    var z, s := AbsComps(cwd, zone), AbsComps(cwd, RStrip(local));
    |s| - Common(s, z)
  }

  function Below(cwd: string, zone: string, local: string): (t: seq<string>)
  {
    var z, s := AbsComps(cwd, zone), AbsComps(cwd, RStrip(local));
    z[Common(s, z)..]
  }

  /** Where a zone ends up: the far root, as many steps up as the zone lies above the local root,
      and then the rest of the zone's path. */
  lemma FarPathComps(cwd: string, zone: string, m: Mapping)
    requires Slashes(cwd) > 0
    ensures Slashes(FarPath(cwd, zone, m)) == Slashes(m.far)
    ensures Comps(FarPath(cwd, zone, m)) ==
      Climb(Slashes(m.far) > 0, Comps(m.far), Above(cwd, zone, m.local)) + Below(cwd, zone, m.local)
  {
    var z, s := AbsComps(cwd, zone), AbsComps(cwd, RStrip(m.local));
    var k, t := Above(cwd, zone, m.local), Below(cwd, zone, m.local);
    CompsPlain(m.far);
    AbsPlain(cwd, zone);
    FoldRel(Slashes(m.far) > 0, Comps(m.far), k, t);
    assert RelComps(z, s) == Ups(k) + t;
    if RelComps(z, s) != [] { CompsOfJoinPath(m.far, RelComps(z, s)); }
    else { assert k == 0 && t == [] && Climb(Slashes(m.far) > 0, Comps(m.far), 0) == Comps(m.far); }
  }

  lemma AbsPlain(cwd: string, p: string)
    requires Slashes(cwd) > 0
    ensures AllPlain(AbsComps(cwd, p)) && ".." !in AbsComps(cwd, p)
  {
    if Slashes(p) > 0 { CompsPlain(p); }
    else {
      CompsPlain(cwd + "/" + p);
    }
  }

  /** When `k` steps up from the components `f` and then `t` down is at or below `f`: the names
      given up are the first that come back.  A path of `..` alone is above anything above it. */
  predicate ComesBack(abs: bool, f: seq<string>, k: nat, t: seq<string>)
  {
    if k <= Names(f) then f[|f| - k..] <= t else if abs then f <= t else Names(f) == 0
  }

  predicate Returns(far: string, k: nat, t: seq<string>)
  {
    if Slashes(far) == 0 && Comps(far) == [] then k == 0 && t == [] else ComesBack(Slashes(far) > 0, Comps(far), k, t)
  }

  lemma Resplit<T>(f: seq<T>, i: nat, t: seq<T>)
    requires i <= |f|
    ensures f <= f[..i] + t <==> f[i..] <= t
  {
    assert f == f[..i] + f[i..];
    SamePrefix(f[..i], f[i..], t);
  }

  /** A name does not come back once a path has gone up past it. */
  lemma NoneComesBack(f: seq<string>, n: nat, up: nat, t: seq<string>)
    requires n <= |f| && up > 0 && (n > 0 ==> f[|f| - n] != "..")
    ensures f <= f[..|f| - n] + Ups(up) + t <==> n == 0
  {
    Regroup(f[..|f| - n], Ups(up), t);
    Resplit(f, |f| - n, Ups(up) + t);
    assert (Ups(up) + t)[0] == "..";
  }

  lemma ComesBackPast(abs: bool, f: seq<string>, n: nat, k: nat, t: seq<string>)
    requires n <= |f| && (n > 0 ==> f[|f| - n] != "..")
    ensures f <= ClimbPast(abs, f, n, k) + t <==> if k <= n then f[|f| - k..] <= t else if abs then f <= t else n == 0
  {
    if k <= n { Resplit(f, |f| - k, t); }
    else if abs { EmptyFirst(t); }
    else { NoneComesBack(f, n, k - n, t); }
  }

  lemma EmptyFirst<T>(t: seq<T>)
    ensures [] + t == t
  {
  }

  lemma ComesBackExactly(abs: bool, f: seq<string>, k: nat, t: seq<string>)
    ensures f <= Climb(abs, f, k) + t <==> ComesBack(abs, f, k, t)
  {
    if Names(f) > 0 { NamesAreNames(f, |f| - Names(f)); }
    ComesBackPast(abs, f, Names(f), k, t);
  }

  /** The far path of a zone lies under the far root exactly when the zone gives up no component of
      the far root that it does not name again, in the same order. */
  lemma FarPathInsideExactly(cwd: string, zone: string, m: Mapping)
    requires Slashes(cwd) > 0
    ensures Under(FarPath(cwd, zone, m), m.far) <==>
      Returns(m.far, Above(cwd, zone, m.local), Below(cwd, zone, m.local))
  {
    var k, t := Above(cwd, zone, m.local), Below(cwd, zone, m.local);
    FarPathComps(cwd, zone, m);
    UnderHolds(FarPath(cwd, zone, m), m.far);
    ComesBackExactly(Slashes(m.far) > 0, Comps(m.far), k, t);
    if Comps(m.far) == [] {
      assert Climb(Slashes(m.far) > 0, [], k) == if Slashes(m.far) > 0 || k == 0 then [] else Ups(k);
    }
  }

  /** A zone written without `..` lies under any local root that covers it, except the root
      directory: there the code measures from the current directory instead. */
  lemma CoveredIsUnder(cwd: string, zone: string, local: string)
    requires Covers(local, zone) && Slashes(zone) > 0 && RStrip(local) != "" && ".." !in Parts(zone)
    ensures Above(cwd, zone, local) == 0
  {
    var p := RStrip(local);
    if zone != p {
      var tail := zone[|p| + 1..];
      assert zone == p + "/" + tail && p[0] == zone[0];
      PartsSplit(p, tail);
      FoldConcat(true, [], Parts(p), Parts(tail));
      FoldDown(true, Fold(true, [], Parts(p)), Parts(tail));
    }
  }

  /** When `k` steps up from `far` and then `t` down is at or below `root`: what is kept of `far`
      already is, or it leads to `root` and `t` names the rest of it. */
  predicate Reaches(root: string, far: string, k: nat, t: seq<string>)
  {
    var g, kept := Comps(root), Climb(Slashes(far) > 0, Comps(far), k);
    if g == [] then (if Slashes(root) > 0 then Slashes(far) > 0 else Slashes(far) == 0 && kept == [] && t == [])
    else Slashes(far) == Slashes(root) && if |g| <= |kept| then g <= kept else kept <= g && g[|kept|..] <= t
  }

  lemma PrefixOfTwo<T>(g: seq<T>, kept: seq<T>, t: seq<T>)
    ensures g <= kept + t <==> if |g| <= |kept| then g <= kept else kept <= g && g[|kept|..] <= t
  {
    if |g| <= |kept| {
      assert g <= kept ==> kept + t == g + (kept[|g|..] + t);
      assert (kept + t)[..|g|] == kept[..|g|];
    } else {
      assert g == g[..|kept|] + g[|kept|..];
      assert g <= kept + t ==> g[..|kept|] == (kept + t)[..|kept|] == kept;
      SamePrefix(kept, g[|kept|..], t);
    }
  }

  lemma FarPathUnderExactly(cwd: string, zone: string, m: Mapping, root: string)
    requires Slashes(cwd) > 0
    ensures Under(FarPath(cwd, zone, m), root) <==>
      Reaches(root, m.far, Above(cwd, zone, m.local), Below(cwd, zone, m.local))
  {
    var k, t := Above(cwd, zone, m.local), Below(cwd, zone, m.local);
    FarPathComps(cwd, zone, m);
    UnderHolds(FarPath(cwd, zone, m), root);
    PrefixOfTwo(Comps(root), Climb(Slashes(m.far) > 0, Comps(m.far), k), t);
  }

  /** What `sync` is aimed at by an accepted configuration lies under a declared root exactly when
      it reaches one; and it does when the zone lies, by component, under the local root, unless
      the far root is the current directory over there. */
  lemma DeletionStaysInScope(cwd: string, zone: string, items: seq<Mapping>, roots: seq<string>)
    requires CheckDeleteScope(items, roots).None? && FindMatch(cwd, zone, items).Matched? && Slashes(cwd) > 0
    ensures
      var hit := FindMatch(cwd, zone, items);
      var k, t := Above(cwd, zone, hit.m.local), Below(cwd, zone, hit.m.local);
      && (Allowed(hit.far, roots) <==> exists r | r in roots :: r != "" && Reaches(r, hit.m.far, k, t))
      && (k == 0 && (Slashes(hit.m.far) > 0 || Comps(hit.m.far) != []) ==> Allowed(hit.far, roots))
  {
    var hit := FindMatch(cwd, zone, items);
    var k, t := Above(cwd, zone, hit.m.local), Below(cwd, zone, hit.m.local);
    forall r | r in roots ensures Under(hit.far, r) <==> Reaches(r, hit.m.far, k, t) {
      FarPathUnderExactly(cwd, zone, hit.m, r);
    }
    if k == 0 && (Slashes(hit.m.far) > 0 || Comps(hit.m.far) != []) {
      var r := RootOf(items, roots, hit.m);
      DownStays(r, hit.m.far, t);
    }
  }

  lemma RootOf(items: seq<Mapping>, roots: seq<string>, m: Mapping) returns (r: string)
    requires CheckDeleteScope(items, roots).None? && m in items
    ensures r in roots && r != "" && Holds(r, m.far)
  {
    ScopeIsContainment(items, roots);
    r :| r in roots && r != "" && Contains(r, m.far) && !BesideDot(r, m.far);
    UnderIsContainment(m.far, r);
    UnderHolds(m.far, r);
  }

  lemma DownStays(root: string, far: string, t: seq<string>)
    requires Holds(root, far) && (Slashes(far) > 0 || Comps(far) != [])
    ensures Reaches(root, far, 0, t)
  {
    assert Climb(Slashes(far) > 0, Comps(far), 0) == Comps(far);
  }

  /** The exception is real: with the local root `/`, a zone beside the current directory is
      sent outside the far root it is mapped to. */
  lemma RootMappingEscapes(cwd: string, zone: string, far: string)
    requires Slashes(cwd) == 1 && Slashes(zone) == 1 && Slashes(far) == 1
    requires |Comps(cwd)| == |Comps(zone)| == |Comps(far)| == 1
    requires Comps(cwd)[0] != Comps(zone)[0] && Comps(far)[0] != Comps(zone)[0]
    ensures
      var hit := FindMatch(cwd, zone, [Mapping("/", far)]);
      CheckDeleteScope([Mapping("/", far)], [far]).None? && hit.Matched? && !Allowed(hit.far, [far])
  {
    var m := Mapping("/", far);
    assert "/"[..0] == "";
    assert RStrip("/") == "";
    assert "" + "/" <= zone;
    assert cwd + "/" + "" == cwd + "/";
    PartsSplit(cwd, "");
    FoldConcat(true, [], Parts(cwd), [""]);
    assert AbsComps(cwd, "") == Comps(cwd);
    FarPathComps(cwd, zone, m);
    UnderHolds(FarPath(cwd, zone, m), far);
    UnderHolds(far, far);
    assert far in [far] && Under(far, far);
  }
}
