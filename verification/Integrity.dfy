/**
 End to end: the publication protocol with the real digest, and `copy_out`.
 */
module StoreIntegrity {
  import opened Options
  import opened TreeDigest
  import opened HandoffStore

  /** A directory as a filesystem holds one. */
  type Directory = es: seq<Entry> | DirOk(es) witness []

  function TreeWalk(H: Sha): (w: Walk<Directory>)
  {
    var nothing: Directory := [];
    Walk<Directory>.Walk((es: Directory) => if Clean(es) then Some(Digest(H, es)) else None, nothing)
  }

  datatype CopyResult = Copied(tree: Directory) | Unpublished | Unwalkable | DigestMismatch

  /** `copy_out`, given what the copy on disk turned out to be. */
  function CopyOut(H: Sha, s: State<Directory>, n: nat, copy: Directory): (r: CopyResult)
  {
    match Here(s.vers, n).manifest
    case Manifest(d) =>
      if !Clean(copy) then Unwalkable else if Digest(H, copy) == d then Copied(copy) else DigestMismatch
    case _ => Unpublished
  }

  /** When `copy_out` returns, the copy is the tree that was hashed when the version was
      published, however much later it is asked and whatever was done to the content
      since, unless the two walks hashed a collision. */
  lemma CopyIsWhatWasPublished(H: Sha, acts: seq<Action<Directory>>, s: State<Directory>,
                               more: seq<Action<Directory>>, t: State<Directory>, n: nat, copy: Directory)
    requires Runs(TreeWalk(H), Init(), acts, s) && Published(s, n)
    requires Runs(TreeWalk(H), s, more, t)
    requires CopyOut(H, t, n, copy).Copied?
    ensures n in s.hashed && Clean(s.hashed[n]) && Clean(copy)
    ensures ViewAll(copy) == ViewAll(s.hashed[n]) || Collide(H, Inputs(H, copy), Inputs(H, s.hashed[n]))
  {
    var W := TreeWalk(H);
    RunKeepsInv(W, Init(), acts, s);
    RunPreserves(W, s, more, t);
    assert Vouched(W, s, n);
    DigestIsIdentity(H, copy, s.hashed[n]);
  }

  /** And it does return for a faithful copy of a version nobody wrote to since. */
  lemma FaithfulCopyReturns(H: Sha, acts: seq<Action<Directory>>, t: State<Directory>, n: nat, copy: Directory)
    requires Runs(TreeWalk(H), Init(), acts, t) && Published(t, n) && n !in t.touched
    requires Clean(copy) && t.vers[n].content.Some? && ViewAll(copy) == ViewAll(t.vers[n].content.value)
    ensures CopyOut(H, t, n, copy).Copied?
  {
    var W := TreeWalk(H);
    RunKeepsInv(W, Init(), acts, t);
    assert Vouched(W, t, n);
    DigestIsIdentity(H, copy, t.hashed[n]);
  }

  /** Each answer of `copy_out`, by what was published and what the copy is: it returns the copy
      itself exactly when its digest is that of the tree hashed at publication. */
  lemma CopyOutExactly(H: Sha, acts: seq<Action<Directory>>, t: State<Directory>, n: nat, copy: Directory)
    requires Runs(TreeWalk(H), Init(), acts, t)
    ensures var r := CopyOut(H, t, n, copy);
      && (r.Unpublished? <==> !Published(t, n))
      && (r.Unwalkable? <==> Published(t, n) && !Clean(copy))
      && (Published(t, n) ==> n in t.hashed && Clean(t.hashed[n]))
      && (r == Copied(copy) <==> Published(t, n) && Clean(copy) && Digest(H, copy) == Digest(H, t.hashed[n]))
      && (r.DigestMismatch? <==> Published(t, n) && Clean(copy) && Digest(H, copy) != Digest(H, t.hashed[n]))
  {
    RunKeepsInv(TreeWalk(H), Init(), acts, t);
    if Published(t, n) { assert Vouched(TreeWalk(H), t, n); }
  }

  // ---- what `seal` does with what it finds ----

  /** In every run: once `seal` has found its version unpublished it goes on to publish exactly the
      content that is not empty, is admitted and can be walked, with the digest of what lies
      there; it refuses exactly the content that is empty or not admitted; and it raises
      exactly for the rest, where a special file lies somewhere below. */
  lemma SealDecidesExactly(H: Sha, acts: seq<Action<Directory>>, s: State<Directory>, p: nat, admitted: bool)
    requires Runs(TreeWalk(H), Init(), acts, s) && p in s.calls && s.calls[p].SealOpen?
    ensures Here(s.vers, s.calls[p].n).content.Some?
    ensures var n, es, next := s.calls[p].n, Here(s.vers, s.calls[p].n).content.value,
                               Step(TreeWalk(H), s, HashContent(p, admitted)).calls[p];
      && (next.SealHashed? <==> es != [] && admitted && Clean(es))
      && (next.SealHashed? ==> next == SealHashed(n, es, Digest(H, es)))
      && (next == SealRefused(n) <==> es == [] || !admitted)
      && (next.Raised? <==> es != [] && admitted && !Clean(es))
  {
    RunKeepsInv(TreeWalk(H), Init(), acts, s);
    assert CallOk(TreeWalk(H), s, s.calls[p]);
  }

  /** In every run: a `seal` that is left alone and whose content is not empty, is admitted and holds
      no special file publishes its version with the digest of that content. */
  lemma SealPublishes(H: Sha, acts: seq<Action<Directory>>, s: State<Directory>, p: nat)
    returns (more: seq<Action<Directory>>, t: State<Directory>)
    requires Runs(TreeWalk(H), Init(), acts, s) && p in s.calls && s.calls[p].SealStart?
    requires !Published(s, s.calls[p].n)
    requires var c := Here(s.vers, s.calls[p].n).content; c.Some? ==> c.value != [] && Clean(c.value)
    ensures var n := s.calls[p].n;
      && Runs(TreeWalk(H), s, more, t) && t.calls == s.calls[p := SealReturned(n)] && Published(t, n)
      && n in s.vers && s.vers[n].content.Some? && t.vers[n].content == s.vers[n].content
      && t.vers[n].manifest == Manifest(Digest(H, s.vers[n].content.value)) && t.vers[n].verdict == EmptyVerdicts
  {
    RunKeepsInv(TreeWalk(H), Init(), acts, s);
    assert CallOk(TreeWalk(H), s, s.calls[p]);
    more, t := SealAlone(H, s, p);
  }

  lemma SealAlone(H: Sha, s: State<Directory>, p: nat) returns (acts: seq<Action<Directory>>, t: State<Directory>)
    requires p in s.calls && s.calls[p].SealStart? && !Published(s, s.calls[p].n) && s.calls[p].n in s.vers
    requires var c := s.vers[s.calls[p].n].content; c.Some? && c.value != [] && Clean(c.value)
    ensures var n, was := s.calls[p].n, s.vers[s.calls[p].n];
      && Runs(TreeWalk(H), s, acts, t) && t.calls == s.calls[p := SealReturned(n)]
      && t.vers == s.vers[n := VDir(was.content, was.claim, EmptyVerdicts, NoManifest,
                                    Manifest(Digest(H, was.content.value)))]
  {
    var first, u := HashedAlone(H, s, p);
    var rest, v := SealFinishes(TreeWalk(H), u, p);
    RunsOn(TreeWalk(H), s, first, u, rest, v);
    acts, t := first + rest, v;
  }

  lemma HashedAlone(H: Sha, s: State<Directory>, p: nat) returns (acts: seq<Action<Directory>>, t: State<Directory>)
    requires p in s.calls && s.calls[p].SealStart? && !Published(s, s.calls[p].n) && s.calls[p].n in s.vers
    requires var c := s.vers[s.calls[p].n].content; c.Some? && c.value != [] && Clean(c.value)
    ensures var n, es := s.calls[p].n, s.vers[s.calls[p].n].content.value;
      && Runs(TreeWalk(H), s, acts, t) && t.vers == s.vers
      && t.calls == s.calls[p := SealHashed(n, es, Digest(H, es))]
  {
    var W := TreeWalk(H);
    acts, t := Stay(W, s);
    acts, t := On(W, s, acts, t, CheckUnpublished(p));
    assert t.calls == s.calls[p := SealOpen(s.calls[p].n)];
    acts, t := On(W, s, acts, t, HashContent(p, true));
  }

  /** A directory with one FIFO in it. */
  function Fifo(): (d: Directory)
    ensures d != [] && !Clean(d)
  {
    var e := Entry([120], Special);
    assert e in [e] && NodeOk(e.node) && DirOk([e]);
    [e]
  }

  lemma Allocated(H: Sha) returns (acts: seq<Action<Directory>>, s: State<Directory>)
    ensures Runs(TreeWalk(H), Init(), acts, s)
    ensures s.calls == map[0 := Returned(false, 0, {})] && 0 in s.vers && s.vers[0].content.Some? && !Published(s, 0)
  {
    var W := TreeWalk(H);
    acts, s := [], Init();
    assert s.vers.Keys == {};
    acts, s := Then(W, acts, s, Start(0, OpAllocate));
    acts, s := Then(W, acts, s, Guess(0, {}));
    acts, s := Then(W, acts, s, TryMkdir(0));
    acts, s := Then(W, acts, s, MkContent(0));
    acts, s := Then(W, acts, s, MkClaim(0));
  }

  lemma SealStarted(H: Sha) returns (acts: seq<Action<Directory>>, s: State<Directory>)
    ensures Runs(TreeWalk(H), Init(), acts, s)
    ensures 1 in s.calls && s.calls[1] == SealStart(0) && Here(s.vers, 0).content == Some(Fifo()) && !Published(s, 0)
  {
    var W := TreeWalk(H);
    acts, s := Allocated(H);
    acts, s := Then(W, acts, s, AgentWrite(0, Fifo()));
    assert s.calls[0].Returned? && s.calls[0].n == 0;
    acts, s := Then(W, acts, s, Start(1, OpSeal(0)));
  }

  /** The agent leaves a FIFO in its grant: `seal` raises instead of giving a reason. */
  lemma SpecialFileRaises(H: Sha) returns (acts: seq<Action<Directory>>, s: State<Directory>)
    ensures Runs(TreeWalk(H), Init(), acts, s)
    ensures 1 in s.calls && s.calls[1] == Raised && Here(s.vers, 0).content == Some(Fifo()) && !Published(s, 0)
  {
    var W := TreeWalk(H);
    acts, s := SealStarted(H);
    acts, s := Then(W, acts, s, CheckUnpublished(1));
    acts, s := Then(W, acts, s, HashContent(1, true));
  }
}
