/**
 The version-lineage check of `agent_sys/kernel_registry/registry.py`: a kernel's
 versions name their parents, and the check accepts exactly the finite forests.
 */
module VersionLineage {

  /** A version record; an absent or falsy `id` or `parent` is the empty string. */
  datatype Version = Version(id: string, hasFiles: bool, parent: string)

  /** What the check raises, with what its message names. */
  datatype Verdict =
    | Accepted
    | BadId(id: string)
    | NoSources(id: string)
    | UnknownParent(id: string, parent: string)
    | Cycle(at: string)

  /** Known versions, each with its parent. */
  type Parents = map<string, string>

  /** From `v`, at most `n` steps through known versions lead to one without a parent. */
  predicate Ends(p: Parents, v: string, n: nat)
    decreases n
  {
    v == "" || (n > 0 && v in p && Ends(p, p[v], n - 1))
  }

  ghost predicate Rooted(p: Parents, v: string) { exists n: nat :: Ends(p, v, n) }

  /** Every parent chain passes only through known versions and ends. */
  ghost predicate Forest(p: Parents) { forall v | v in p :: Rooted(p, v) }

  lemma {:induction false} EndsLonger(p: Parents, v: string, n: nat, m: nat)
    requires Ends(p, v, n) && n <= m
    ensures Ends(p, v, m)
    decreases n
  {
    if v != "" { EndsLonger(p, p[v], n - 1, m - 1); }
  }

  // ---- acyclicity, said with a rank ----

  /** Each parent is known and ranks below its child. */
  ghost predicate Ranked(p: Parents, rank: map<string, nat>)
  {
    forall v | v in p :: v in rank && (p[v] != "" ==> p[v] in p && p[v] in rank && rank[p[v]] < rank[v])
  }

  function Steps(p: Parents, v: string, n: nat): (k: nat)
    requires Ends(p, v, n)
    decreases n
  {
    if v == "" then 0 else 1 + Steps(p, p[v], n - 1)
  }

  lemma {:induction false} StepsSame(p: Parents, v: string, n: nat, m: nat)
    requires Ends(p, v, n) && Ends(p, v, m)
    ensures Steps(p, v, n) == Steps(p, v, m)
    decreases n
  {
    if v != "" { StepsSame(p, p[v], n - 1, m - 1); }
  }

  ghost function Depth(p: Parents, v: string): (k: nat)
    requires Rooted(p, v)
  {
    var n: nat :| Ends(p, v, n);
    Steps(p, v, n)
  }

  lemma DepthOfParent(p: Parents, v: string)
    requires "" !in p && v in p && Rooted(p, v)
    ensures Rooted(p, p[v]) && Depth(p, v) == Depth(p, p[v]) + 1 && (p[v] != "" ==> p[v] in p)
  {
    var n: nat :| Ends(p, v, n) && Depth(p, v) == Steps(p, v, n);
    var up: string, less: nat := p[v], n - 1;
    assert Ends(p, up, less);
    assert Rooted(p, up);
    var m: nat :| Ends(p, up, m) && Depth(p, up) == Steps(p, up, m);
    StepsSame(p, up, less, m);
    assert Steps(p, v, n) == 1 + Steps(p, up, less);
  }

  lemma {:induction false} RankEnds(p: Parents, rank: map<string, nat>, v: string)
    requires Ranked(p, rank) && v in p
    ensures Ends(p, v, rank[v] + 1)
    decreases rank[v]
  {
    if p[v] != "" {
      RankEnds(p, rank, p[v]);
      EndsLonger(p, p[v], rank[p[v]] + 1, rank[v]);
    }
  }

  /** The chains all end exactly when the parent relation has a rank: no version is its own ancestor. */
  lemma ForestIffRanked(p: Parents)
    requires "" !in p
    ensures Forest(p) <==> exists rank :: Ranked(p, rank)
  {
    if Forest(p) {
      var rank := map v | v in p :: Depth(p, v);
      forall v | v in p ensures p[v] != "" ==> p[v] in p && rank[p[v]] < rank[v] { DepthOfParent(p, v); }
      assert Ranked(p, rank);
    }
    if rank :| Ranked(p, rank) {
      forall v | v in p ensures Rooted(p, v) { RankEnds(p, rank, v); }
    }
  }

  // ---- one chain ----

  /** `path` follows the parents from its first element. */
  predicate Follows(p: Parents, path: seq<string>)
  {
    && (forall i | 0 <= i < |path| :: path[i] in p)
    && (forall i | 0 <= i < |path| - 1 :: p[path[i]] == path[i + 1])
  }

  predicate Climbs(p: Parents, v: string, path: seq<string>)
  {
    Follows(p, path) && path != [] && path[0] == v
  }

  lemma {:induction false} EndsAlong(p: Parents, path: seq<string>, n: nat)
    requires "" !in p && Follows(p, path) && path != []
    ensures Ends(p, path[0], |path| + n) <==> Ends(p, p[path[|path| - 1]], n)
  {
    if |path| > 1 {
      assert Follows(p, path[1..]);
      EndsAlong(p, path[1..], n);
    }
  }

  lemma {:induction false} CycleNeverEnds(p: Parents, path: seq<string>, j: nat, i: nat, n: nat)
    requires "" !in p && Follows(p, path) && j <= i < |path| && p[path[|path| - 1]] == path[j]
    ensures !Ends(p, path[i], n)
    decreases n
  {
    if n > 0 { CycleNeverEnds(p, path, j, if i + 1 < |path| then i + 1 else j, n - 1); }
  }

  lemma RootedAlong(p: Parents, path: seq<string>)
    requires "" !in p && Follows(p, path) && path != []
    ensures Rooted(p, path[0]) <==> Rooted(p, p[path[|path| - 1]])
  {
    if n: nat :| Ends(p, path[0], n) {
      EndsLonger(p, path[0], n, |path| + n);
      EndsAlong(p, path, n);
    }
    var last := p[path[|path| - 1]];
    if n: nat :| Ends(p, last, n) { EndsAlong(p, path, n); }
  }

  /** The chain of `v` leads to `out`, which is not a version. */
  ghost predicate LeadsOut(p: Parents, v: string, out: string)
  {
    out !in p && out != "" && exists path :: Climbs(p, v, path) && p[path[|path| - 1]] == out
  }

  /** The chain of `v` comes back to `at`. */
  ghost predicate LeadsRound(p: Parents, v: string, at: string)
  {
    exists path :: Climbs(p, v, path) && p[path[|path| - 1]] == at && at in path
  }

  /** The inner `while`: walks up from one version; terminates because `seen` only grows
      within the known versions. */
  method WalkUp(p: Parents, vid: string) returns (r: Verdict)
    requires "" !in p && vid in p
    ensures r.Accepted? <==> Rooted(p, vid)
    ensures r.Accepted? || (r.UnknownParent? && r.id == vid && LeadsOut(p, vid, r.parent)) ||
      (r.Cycle? && LeadsRound(p, vid, r.at))
  {
    var seen, parent := {vid}, p[vid];
    ghost var path := [vid];
    while parent != ""
      invariant Climbs(p, vid, path) && p[path[|path| - 1]] == parent
      invariant seen <= p.Keys && forall v :: v in seen <==> v in path
      decreases p.Keys - seen
    {
      RootedAlong(p, path);
      if parent !in p { return UnknownParent(vid, parent); }
      if parent in seen {
        ghost var j :| 0 <= j < |path| && path[j] == parent;
        forall n: nat ensures !Ends(p, parent, n) { CycleNeverEnds(p, path, j, j, n); }
        return Cycle(parent);
      }
      seen, path := seen + {parent}, path + [parent];
      parent := p[parent];
    }
    RootedAlong(p, path);
    assert Ends(p, "", 0);
    r := Accepted;
  }

  /** The ids of the first `n` are present and unique. */
  predicate NamedTo(vs: seq<Version>, n: nat)
    requires n <= |vs|
  {
    && (forall i | 0 <= i < n :: vs[i].id != "")
    && (forall i, j | 0 <= i < j < n :: vs[i].id != vs[j].id)
  }

  predicate SourcedTo(vs: seq<Version>, n: nat)
    requires n <= |vs|
  {
    forall i | 0 <= i < n :: vs[i].hasFiles
  }

  predicate Named(vs: seq<Version>) { NamedTo(vs, |vs|) }

  predicate Sourced(vs: seq<Version>) { SourcedTo(vs, |vs|) }

  function ParentsOf(vs: seq<Version>): (p: Parents)
    ensures forall v :: v in p <==> exists i :: 0 <= i < |vs| && vs[i].id == v
  {
    if vs == [] then map[] else
      assert forall i | 0 <= i < |vs| - 1 :: vs[..|vs| - 1][i] == vs[i];
      ParentsOf(vs[..|vs| - 1])[vs[|vs| - 1].id := vs[|vs| - 1].parent]
  }

  lemma {:induction false} ParentsAt(vs: seq<Version>, i: nat)
    requires Named(vs) && i < |vs|
    ensures ParentsOf(vs)[vs[i].id] == vs[i].parent
  {
    if i < |vs| - 1 { ParentsAt(vs[..|vs| - 1], i); }
  }

  /** The first version with something wrong is number `i`, and `r` says what; its id is looked at
      before its sources. */
  predicate Complains(vs: seq<Version>, i: nat, r: Verdict)
    requires i < |vs|
  {
    && NamedTo(vs, i) && SourcedTo(vs, i)
    && if NamedTo(vs, i + 1) then !vs[i].hasFiles && r == NoSources(vs[i].id) else r == BadId(vs[i].id)
  }

  lemma OneMore(vs: seq<Version>, i: nat)
    requires i < |vs| && NamedTo(vs, i)
    ensures NamedTo(vs, i + 1) <==> vs[i].id != "" && vs[i].id !in ParentsOf(vs[..i])
    ensures ParentsOf(vs[..i + 1]) == ParentsOf(vs[..i])[vs[i].id := vs[i].parent]
  {
    assert vs[..i + 1][..i] == vs[..i];
    if k :| 0 <= k < i && vs[k].id == vs[i].id { assert vs[..i][k].id == vs[i].id; }
  }

  /** `by_id`, or the first complaint. */
  method IndexById(vs: seq<Version>) returns (r: Verdict, p: Parents)
    ensures r.Accepted? <==> Named(vs) && Sourced(vs)
    ensures r.Accepted? || exists i | 0 <= i < |vs| :: Complains(vs, i, r)
    ensures r.Accepted? ==> p == ParentsOf(vs) && "" !in p
  {
    p := map[];
    for i := 0 to |vs|
      invariant NamedTo(vs, i) && SourcedTo(vs, i) && p == ParentsOf(vs[..i])
    {
      var v := vs[i];
      OneMore(vs, i);
      assert Named(vs) ==> NamedTo(vs, i + 1);
      if v.id == "" || v.id in p {
        assert Complains(vs, i, BadId(v.id));
        return BadId(v.id), p;
      }
      if !v.hasFiles {
        assert Complains(vs, i, NoSources(v.id));
        return NoSources(v.id), p;
      }
      p := p[v.id := v.parent];
    }
    assert vs[..|vs|] == vs;
    r := Accepted;
  }

  /** Version `i` is the first whose chain does not end, and `r` says where it leads. */
  ghost predicate FirstLost(p: Parents, vs: seq<Version>, i: nat, r: Verdict)
    requires i < |vs|
  {
    && (forall k | 0 <= k < i :: Rooted(p, vs[k].id)) && !Rooted(p, vs[i].id)
    && (|| (r.UnknownParent? && r.id == vs[i].id && LeadsOut(p, vs[i].id, r.parent))
        || (r.Cycle? && LeadsRound(p, vs[i].id, r.at)))
  }

  /** The whole check accepts exactly the well-named version lists whose parents form a forest. */
  method CheckVersions(vs: seq<Version>) returns (r: Verdict)
    ensures r.Accepted? <==> Named(vs) && Sourced(vs) && Forest(ParentsOf(vs))
    ensures r.BadId? || r.NoSources? ==> exists i | 0 <= i < |vs| :: Complains(vs, i, r)
    ensures r.UnknownParent? || r.Cycle? ==>
      Named(vs) && Sourced(vs) && exists i | 0 <= i < |vs| :: FirstLost(ParentsOf(vs), vs, i, r)
  {
    var p: Parents;
    r, p := IndexById(vs);
    if !r.Accepted? { return; }
    for i := 0 to |vs|
      invariant forall k | 0 <= k < i :: Rooted(p, vs[k].id)
    {
      assert vs[i].id in p;
      r := WalkUp(p, vs[i].id);
      if !r.Accepted? {
        assert FirstLost(p, vs, i, r);
        return;
      }
    }
    r := Accepted;
  }
}
