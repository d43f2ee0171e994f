/**
 The publication protocol of `agent_sys/handoff/store.py` for one handoff
 directory, at the granularity of single filesystem calls.  Any number of
 `allocate`, `put` and `seal` calls interleave; a call may die between any two
 of its steps, and a file write may die half way.

 The filesystem steps follow POSIX.1 `mkdir()` and `rename()`: `mkdir` fails on
 an existing name; renaming a directory onto an empty directory replaces it,
 onto a non-empty one fails.

 The protocol never looks inside a content tree, so the type `C` of trees is a
 parameter, and so is the walk that hashes one.
 */
module HandoffStore {
  import opened Options
  import opened TreeDigest

  /** `hash` is `tree_digest`, `None` where it raises; `nothing` is the empty directory. */
  datatype Walk<!C> = Walk(hash: C -> Option<Digest32>, nothing: C)

  datatype VerdictFile = NoVerdict | TornVerdict | EmptyVerdicts
  datatype ManifestFile = NoManifest | TornManifest | Manifest(digest: Digest32)

  /** What lies in a `v<N>/` or a `.staging-v<N>/`. */
  datatype VDir<C> = VDir(
    content: Option<C>,
    claim: bool,
    verdict: VerdictFile,
    pending: ManifestFile,
    manifest: ManifestFile)

  /** A running or finished call.  `before` is the set of version directories present when it guessed. */
  datatype Call<C> =
    | Guessing(put: bool, before: set<nat>)
    | Trying(put: bool, n: nat, before: set<nat>)
    | AllocWon(n: nat, before: set<nat>)       // v<n>/ made
    | AllocFilled(n: nat, before: set<nat>)    // v<n>/content/ made
    | Copying(n: nat, before: set<nat>)        // .staging-v<n>/ made
    | Hashed(n: nat, before: set<nat>, c: C, d: Digest32)
    | Signed(n: nat, before: set<nat>, c: C, d: Digest32)    // manifest.yaml staged
    | Complete(n: nat, before: set<nat>, c: C, d: Digest32)  // validation.yaml staged
    | Cleaning(n: nat)
    | Returned(put: bool, n: nat, before: set<nat>)
    | SealStart(n: nat)
    | SealOpen(n: nat)                         // saw no manifest
    | SealHashed(n: nat, c: C, d: Digest32)
    | SealJudged(n: nat, c: C, d: Digest32)    // validation.yaml written
    | SealPending(n: nat, c: C, d: Digest32)   // .manifest.yaml.pending written
    | SealReturned(n: nat)                     // published
    | SealRefused(n: nat)                      // returned a reason
    | Raised
    | Dead

  /** `hashed` and `touched` are history: the tree hashed for each published version's
      manifest, and the versions whose content was written after that hash. */
  datatype State<C> = State(
    vers: map<nat, VDir<C>>,
    stages: map<nat, VDir<C>>,
    calls: map<nat, Call<C>>,
    hashed: map<nat, C>,
    touched: set<nat>)

  function Init<C>(): State<C> { State(map[], map[], map[], map[], {}) }

  datatype Op = OpAllocate | OpPut | OpSeal(n: nat)

  datatype Action<C> =
    | Start(p: nat, op: Op)
    | Guess(p: nat, seen: set<nat>)
    | TryMkdir(p: nat)
    | MkContent(p: nat)
    | MkClaim(p: nat)
    | CopyIn(p: nat, c: C)
    | HashStage(p: nat)
    | SignStage(p: nat, whole: bool)
    | JudgeStage(p: nat, whole: bool)
    | RenameStage(p: nat)
    | Fail(p: nat)
    | RemoveSome(p: nat, left: VDir<C>)
    | RemoveStage(p: nat, gone: bool)
    | CheckUnpublished(p: nat)
    | HashContent(p: nat, admitted: bool)
    | Judge(p: nat, whole: bool)
    | WritePending(p: nat, whole: bool)
    | RenameManifest(p: nat)
    | AgentWrite(n: nat, c: C)
    | Crash(p: nat)

  // ---- what readers see ----

  function Bare<C>(): VDir<C> { VDir(None, false, NoVerdict, NoManifest, NoManifest) }

  function Here<C>(m: map<nat, VDir<C>>, n: nat): (d: VDir<C>) { if n in m then m[n] else Bare() }

  /** The token `list_versions` and `exists` read: a `manifest.yaml` in `v<n>/`. */
  predicate Published<C>(s: State<C>, n: nat) { !Here(s.vers, n).manifest.NoManifest? }

  /** A `seal` of `n` has hashed it and not yet published, or it is published. */
  predicate Hot<C>(s: State<C>, n: nat)
  {
    Published(s, n) || exists p | p in s.calls :: SealsHashed(s.calls[p]) && s.calls[p].n == n
  }

  // ---- classes of calls ----

  predicate Active<C>(c: Call<C>)
  {
    !c.Returned? && !c.SealReturned? && !c.SealRefused? && !c.Raised? && !c.Dead?
  }

  predicate Numbered<C>(c: Call<C>)
  {
    c.Trying? || c.AllocWon? || c.AllocFilled? || c.Copying? || c.Hashed? || c.Signed? || c.Complete? || c.Returned?
  }

  /** Won `mkdir v<n>`. */
  predicate MadeVersion<C>(c: Call<C>) { c.AllocWon? || c.AllocFilled? || (c.Returned? && !c.put) }

  /** Nothing can take the number from this call any more. */
  predicate Owns<C>(c: Call<C>) { c.AllocFilled? || c.Returned? }

  predicate HasStage<C>(c: Call<C>) { c.Copying? || c.Hashed? || c.Signed? || c.Complete? || c.Cleaning? }

  predicate Seals<C>(c: Call<C>) { c.SealStart? || c.SealOpen? || SealsHashed(c) }

  predicate SealsHashed<C>(c: Call<C>) { c.SealHashed? || c.SealJudged? || c.SealPending? }

  function Successor(seen: set<nat>): (n: nat)
    ensures forall m | m in seen :: m < n
    ensures n == 0 || n - 1 in seen
  {
    if seen == {} then 0 else
      MaxExists(seen);
      var m :| m in seen && forall k | k in seen :: k <= m;
      m + 1
  }

  lemma {:induction false} MaxExists(seen: set<nat>)
    requires seen != {}
    ensures exists m :: m in seen && forall k | k in seen :: k <= m
  {
    var x :| x in seen;
    var rest := seen - {x};
    if rest == {} {
      assert forall k | k in seen :: k in rest || k == x;
      assert x in seen && forall k | k in seen :: k <= x;
    } else {
      MaxExists(rest);
      var m :| m in rest && forall k | k in rest :: k <= m;
      MaxOfTwo(seen, rest, x, m);
    }
  }

  lemma MaxOfTwo(seen: set<nat>, rest: set<nat>, x: nat, m: nat)
    requires x in seen && rest == seen - {x} && m in rest && forall k | k in rest :: k <= m
    ensures exists t :: t in seen && forall k | k in seen :: k <= t
  {
    var top := if x <= m then m else x;
    forall k | k in seen ensures k <= top { assert k == x || k in rest; }
    assert top in seen;
  }

  // ---- the steps ----

  /** The callers' discipline: a version is sealed after the call that made it
      returned it, and by one caller at a time. */
  predicate MaySeal<C>(s: State<C>, n: nat)
  {
    && (exists p | p in s.calls :: s.calls[p].Returned? && s.calls[p].n == n)
    && (forall p | p in s.calls :: Seals(s.calls[p]) ==> s.calls[p].n != n)
  }

  predicate Enabled<C>(s: State<C>, a: Action<C>)
  {
    match a
    case Start(p, op) => p !in s.calls && (op.OpSeal? ==> MaySeal(s, op.n))
    case Guess(p, seen) => p in s.calls && s.calls[p].Guessing? && s.calls[p].before <= seen <= s.vers.Keys
    case TryMkdir(p) => p in s.calls && s.calls[p].Trying?
    case MkContent(p) => p in s.calls && s.calls[p].AllocWon?
    case MkClaim(p) => p in s.calls && s.calls[p].AllocFilled?
    case CopyIn(p, c) => p in s.calls && s.calls[p].Copying?
    case HashStage(p) => p in s.calls && s.calls[p].Copying?
    case SignStage(p, _) => p in s.calls && s.calls[p].Hashed?
    case JudgeStage(p, _) => p in s.calls && s.calls[p].Signed?
    case RenameStage(p) => p in s.calls && s.calls[p].Complete?
    case Fail(p) => p in s.calls && HasStage(s.calls[p])
    case RemoveSome(p, _) => p in s.calls && s.calls[p].Cleaning?
    case RemoveStage(p, _) => p in s.calls && s.calls[p].Cleaning?
    case CheckUnpublished(p) => p in s.calls && s.calls[p].SealStart?
    case HashContent(p, _) => p in s.calls && s.calls[p].SealOpen?
    case Judge(p, _) => p in s.calls && s.calls[p].SealHashed?
    case WritePending(p, _) => p in s.calls && s.calls[p].SealJudged?
    case RenameManifest(p) => p in s.calls && s.calls[p].SealPending?
    case AgentWrite(n, c) => Here(s.vers, n).content.Some?
    case Crash(p) => p in s.calls && Active(s.calls[p])
  }

  function At<C>(s: State<C>, p: nat, c: Call<C>): (t: State<C>) { s.(calls := s.calls[p := c]) }

  function InVer<C>(s: State<C>, n: nat, d: VDir<C>): (t: State<C>) { s.(vers := s.vers[n := d]) }

  function InStage<C>(s: State<C>, n: nat, d: VDir<C>): (t: State<C>) { s.(stages := s.stages[n := d]) }

  function DoStart<C>(s: State<C>, p: nat, op: Op): (t: State<C>)
  {
    At(s, p, match op
             case OpAllocate => Guessing(false, s.vers.Keys)
             case OpPut => Guessing(true, s.vers.Keys)
             case OpSeal(n) => SealStart(n))
  }

  /** `_next_guess`: one more than the highest directory seen, holes included.  The scan is
      not atomic: `seen` has what was there when it began, and may have what came later. */
  function DoGuess<C>(s: State<C>, p: nat, seen: set<nat>): (t: State<C>)
    requires p in s.calls && s.calls[p].Guessing?
  {
    At(s, p, Trying(s.calls[p].put, Successor(seen), s.calls[p].before))
  }

  /** `os.mkdir` as the allocator: `FileExistsError` means try the next number. */
  function DoTryMkdir<C>(s: State<C>, p: nat): (t: State<C>)
    requires p in s.calls && s.calls[p].Trying?
  {
    var k := s.calls[p];
    if k.n in (if k.put then s.stages else s.vers) then At(s, p, Trying(k.put, k.n + 1, k.before))
    else if k.put then At(InStage(s, k.n, Bare()), p, Copying(k.n, k.before))
    else At(InVer(s, k.n, Bare()), p, AllocWon(k.n, k.before))
  }

  function DoMkContent<C>(W: Walk<C>, s: State<C>, p: nat): (t: State<C>)
    requires p in s.calls && s.calls[p].AllocWon?
  {
    var k := s.calls[p];
    var d := Here(s.vers, k.n);
    if d.content.Some? then At(s, p, Raised)
    else At(InVer(s, k.n, d.(content := Some(W.nothing))), p, AllocFilled(k.n, k.before))
  }

  function DoMkClaim<C>(s: State<C>, p: nat): (t: State<C>)
    requires p in s.calls && s.calls[p].AllocFilled?
  {
    var k := s.calls[p];
    var d := Here(s.vers, k.n);
    if d.claim then At(s, p, Raised)
    else At(InVer(s, k.n, d.(claim := true)), p, Returned(false, k.n, k.before))
  }

  function DoCopyIn<C>(s: State<C>, p: nat, c: C): (t: State<C>)
    requires p in s.calls && s.calls[p].Copying?
  {
    InStage(s, s.calls[p].n, Here(s.stages, s.calls[p].n).(content := Some(c)))
  }

  function DoHashStage<C>(W: Walk<C>, s: State<C>, p: nat): (t: State<C>)
    requires p in s.calls && s.calls[p].Copying?
  {
    var k := s.calls[p];
    match Here(s.stages, k.n).content
    case None => At(s, p, Cleaning(k.n))
    case Some(c) =>
      match W.hash(c)
      case None => At(s, p, Cleaning(k.n))
      case Some(d) => At(s, p, Hashed(k.n, k.before, c, d))
  }

  function DoSignStage<C>(s: State<C>, p: nat, whole: bool): (t: State<C>)
    requires p in s.calls && s.calls[p].Hashed?
  {
    var k := s.calls[p];
    var d := Here(s.stages, k.n);
    if whole then At(InStage(s, k.n, d.(manifest := Manifest(k.d))), p, Signed(k.n, k.before, k.c, k.d))
    else InStage(s, k.n, d.(manifest := TornManifest))
  }

  function DoJudgeStage<C>(s: State<C>, p: nat, whole: bool): (t: State<C>)
    requires p in s.calls && s.calls[p].Signed?
  {
    var k := s.calls[p];
    var d := Here(s.stages, k.n);
    if whole then At(InStage(s, k.n, d.(verdict := EmptyVerdicts)), p, Complete(k.n, k.before, k.c, k.d))
    else InStage(s, k.n, d.(verdict := TornVerdict))
  }

  predicate Empty<C>(d: VDir<C>)
  {
    d.content.None? && !d.claim && d.verdict.NoVerdict? && d.pending.NoManifest? && d.manifest.NoManifest?
  }

  /** `os.rename(stage, v<n>)` */
  function DoRenameStage<C>(s: State<C>, p: nat): (t: State<C>)
    requires p in s.calls && s.calls[p].Complete?
  {
    var k := s.calls[p];
    if !Empty(Here(s.vers, k.n)) then At(s, p, Cleaning(k.n))
    else
      State(s.vers[k.n := Here(s.stages, k.n)], s.stages - {k.n}, s.calls[p := Returned(true, k.n, k.before)],
            s.hashed[k.n := k.c], s.touched - {k.n})
  }

  /** `shutil.rmtree(stage, ignore_errors=True)`, then the exception goes on. */
  function DoRemoveStage<C>(s: State<C>, p: nat, gone: bool): (t: State<C>)
    requires p in s.calls && s.calls[p].Cleaning?
  {
    At(if gone then s.(stages := s.stages - {s.calls[p].n}) else s, p, Raised)
  }

  function DoCheckUnpublished<C>(s: State<C>, p: nat): (t: State<C>)
    requires p in s.calls && s.calls[p].SealStart?
  {
    At(s, p, if Published(s, s.calls[p].n) then Raised else SealOpen(s.calls[p].n))
  }

  ghost function DoHashContent<C>(W: Walk<C>, s: State<C>, p: nat, admitted: bool): (t: State<C>)
    requires p in s.calls && s.calls[p].SealOpen?
  {
    var k := s.calls[p];
    match Here(s.vers, k.n).content
    case None => At(s, p, SealRefused(k.n))
    case Some(c) =>
      if c == W.nothing || !admitted then At(s, p, SealRefused(k.n))
      else match W.hash(c)
           case None => At(s, p, Raised)
           case Some(d) => At(s, p, SealHashed(k.n, c, d)).(touched := s.touched - {k.n})
  }

  function DoJudge<C>(s: State<C>, p: nat, whole: bool): (t: State<C>)
    requires p in s.calls && s.calls[p].SealHashed?
  {
    var k := s.calls[p];
    var d := Here(s.vers, k.n);
    if whole then At(InVer(s, k.n, d.(verdict := EmptyVerdicts)), p, SealJudged(k.n, k.c, k.d))
    else InVer(s, k.n, d.(verdict := TornVerdict))
  }

  function DoWritePending<C>(s: State<C>, p: nat, whole: bool): (t: State<C>)
    requires p in s.calls && s.calls[p].SealJudged?
  {
    var k := s.calls[p];
    var d := Here(s.vers, k.n);
    if whole then At(InVer(s, k.n, d.(pending := Manifest(k.d))), p, SealPending(k.n, k.c, k.d))
    else InVer(s, k.n, d.(pending := TornManifest))
  }

  function DoRenameManifest<C>(s: State<C>, p: nat): (t: State<C>)
    requires p in s.calls && s.calls[p].SealPending?
  {
    var k := s.calls[p];
    var d := Here(s.vers, k.n);
    State(s.vers[k.n := d.(manifest := d.pending, pending := NoManifest)], s.stages,
          s.calls[p := SealReturned(k.n)], s.hashed[k.n := k.c], s.touched)
  }

  /** The agent's grant is `v<n>/content/`, and nothing revokes it. */
  function DoAgentWrite<C>(s: State<C>, n: nat, c: C): (t: State<C>)
  {
    InVer(s, n, Here(s.vers, n).(content := Some(c))).(touched := if Hot(s, n) then s.touched + {n} else s.touched)
  }

  ghost function Step<C>(W: Walk<C>, s: State<C>, a: Action<C>): (t: State<C>)
    requires Enabled(s, a)
  {
    match a
    case Start(p, op) => DoStart(s, p, op)
    case Guess(p, seen) => DoGuess(s, p, seen)
    case TryMkdir(p) => DoTryMkdir(s, p)
    case MkContent(p) => DoMkContent(W, s, p)
    case MkClaim(p) => DoMkClaim(s, p)
    case CopyIn(p, c) => DoCopyIn(s, p, c)
    case HashStage(p) => DoHashStage(W, s, p)
    case SignStage(p, whole) => DoSignStage(s, p, whole)
    case JudgeStage(p, whole) => DoJudgeStage(s, p, whole)
    case RenameStage(p) => DoRenameStage(s, p)
    case Fail(p) => At(s, p, Cleaning(s.calls[p].n))
    case RemoveSome(p, left) => InStage(s, s.calls[p].n, left)
    case RemoveStage(p, gone) => DoRemoveStage(s, p, gone)
    case CheckUnpublished(p) => DoCheckUnpublished(s, p)
    case HashContent(p, admitted) => DoHashContent(W, s, p, admitted)
    case Judge(p, whole) => DoJudge(s, p, whole)
    case WritePending(p, whole) => DoWritePending(s, p, whole)
    case RenameManifest(p) => DoRenameManifest(s, p)
    case AgentWrite(n, c) => DoAgentWrite(s, n, c)
    case Crash(p) => At(s, p, Dead)
  }

  // ---- the invariant ----

  /** No two calls hold one thing. */
  predicate Apart<C>(b: Call<C>, c: Call<C>)
  {
    && (MadeVersion(b) && MadeVersion(c) ==> b.n != c.n)
    && (Owns(b) && Owns(c) ==> b.n != c.n)
    && (HasStage(b) && HasStage(c) ==> b.n != c.n)
    && (Seals(b) && (Seals(c) || c.AllocFilled?) ==> b.n != c.n)
    && (Seals(c) && b.AllocFilled? ==> b.n != c.n)
  }

  /** What a call may rely on about the disk while others run. */
  ghost predicate CallOk<C>(W: Walk<C>, s: State<C>, c: Call<C>)
  {
    && (Numbered(c) ==> forall m | m in c.before :: m < c.n)
    && (MadeVersion(c) ==> c.n in s.vers)
    && (c.AllocWon? ==> Empty(s.vers[c.n]) || Published(s, c.n))
    && (c.AllocFilled? ==> !s.vers[c.n].claim)
    && (Owns(c) || Seals(c) ==> c.n in s.vers && s.vers[c.n].content.Some?)
    && (HasStage(c) ==> c.n in s.stages)
    && (c.Hashed? || c.Signed? || c.Complete? ==> W.hash(c.c) == Some(c.d) && s.stages[c.n].content == Some(c.c))
    && (c.Signed? || c.Complete? ==> s.stages[c.n].manifest == Manifest(c.d))
    && (c.Complete? ==> s.stages[c.n].verdict.EmptyVerdicts?)
    && (c.Returned? && c.put ==> Published(s, c.n))
    && (c.AllocFilled? || c.SealOpen? || SealsHashed(c) ==> !Published(s, c.n))
    && (SealsHashed(c) ==> W.hash(c.c) == Some(c.d) && (c.n !in s.touched ==> s.vers[c.n].content == Some(c.c)))
    && (c.SealJudged? || c.SealPending? ==> s.vers[c.n].verdict.EmptyVerdicts?)
    && (c.SealPending? ==> s.vers[c.n].pending == Manifest(c.d))
  }

  /** What the manifest of a published version vouches for: a whole manifest carrying the
      digest of the tree that was hashed, a verdict file, and that tree unless written since. */
  ghost predicate Vouched<C>(W: Walk<C>, s: State<C>, n: nat)
  {
    && n in s.vers && n in s.hashed
    && s.vers[n].manifest.Manifest? && W.hash(s.hashed[n]) == Some(s.vers[n].manifest.digest)
    && s.vers[n].verdict.EmptyVerdicts?
    && s.vers[n].content.Some?
    && (n !in s.touched ==> s.vers[n].content == Some(s.hashed[n]))
  }

  ghost predicate Inv<C>(W: Walk<C>, s: State<C>)
  {
    && (forall p | p in s.calls :: CallOk(W, s, s.calls[p]))
    && (forall p, q | p in s.calls && q in s.calls && p != q :: Apart(s.calls[p], s.calls[q]))
    && (forall n | Published(s, n) :: Vouched(W, s, n))
  }

  lemma InvMove<C>(W: Walk<C>, s: State<C>, p: nat, c: Call<C>)
    requires Inv(W, s) && CallOk(W, s, c)
    requires forall q | q in s.calls && q != p :: Apart(c, s.calls[q])
    ensures Inv(W, At(s, p, c))
  {
    var t := At(s, p, c);
    forall q | q in t.calls ensures CallOk(W, t, t.calls[q]) {}
    forall n | Published(t, n) ensures Vouched(W, t, n) { assert Published(s, n); }
  }

  lemma InvEdit<C>(W: Walk<C>, s: State<C>, t: State<C>, p: nat, c: Call<C>)
    requires Inv(W, s) && p in s.calls && t.calls == s.calls[p := c] && CallOk(W, t, c)
    requires forall q | q in s.calls && q != p :: CallOk(W, t, s.calls[q]) && Apart(c, s.calls[q])
    requires forall n | Published(t, n) :: Vouched(W, t, n)
    ensures Inv(W, t)
  {
  }

  lemma InvStart<C>(W: Walk<C>, s: State<C>, p: nat, op: Op)
    requires Inv(W, s) && p !in s.calls && (op.OpSeal? ==> MaySeal(s, op.n))
    ensures Inv(W, DoStart(s, p, op))
  {
    match op
    case OpAllocate => InvMove(W, s, p, Guessing(false, s.vers.Keys));
    case OpPut => InvMove(W, s, p, Guessing(true, s.vers.Keys));
    case OpSeal(n) => InvMove(W, s, p, SealStart(n));
  }

  lemma InvGuess<C>(W: Walk<C>, s: State<C>, p: nat, seen: set<nat>)
    requires Inv(W, s) && p in s.calls && s.calls[p].Guessing? && s.calls[p].before <= seen
    ensures Inv(W, DoGuess(s, p, seen))
  {
    InvMove(W, s, p, Trying(s.calls[p].put, Successor(seen), s.calls[p].before));
  }

  lemma InvStaged<C>(W: Walk<C>, s: State<C>, p: nat)
    requires Inv(W, s) && p in s.calls && s.calls[p].Trying? && s.calls[p].put && s.calls[p].n !in s.stages
    ensures Inv(W, DoTryMkdir(s, p))
  {
    var t := DoTryMkdir(s, p);
    forall q | q in s.calls && q != p ensures CallOk(W, t, s.calls[q]) && Apart(t.calls[p], s.calls[q]) {
      assert CallOk(W, s, s.calls[q]);
    }
    forall n | Published(t, n) ensures Vouched(W, t, n) { assert Published(s, n); }
    InvEdit(W, s, t, p, t.calls[p]);
  }

  lemma InvWon<C>(W: Walk<C>, s: State<C>, p: nat)
    requires Inv(W, s) && p in s.calls && s.calls[p].Trying? && !s.calls[p].put && s.calls[p].n !in s.vers
    ensures Inv(W, DoTryMkdir(s, p))
  {
    var t := DoTryMkdir(s, p);
    forall q | q in s.calls && q != p ensures CallOk(W, t, s.calls[q]) && Apart(t.calls[p], s.calls[q]) {
      assert CallOk(W, s, s.calls[q]);
    }
    forall n | Published(t, n) ensures Vouched(W, t, n) { assert Published(s, n); }
    InvEdit(W, s, t, p, t.calls[p]);
  }

  lemma InvTaken<C>(W: Walk<C>, s: State<C>, p: nat)
    requires Inv(W, s) && p in s.calls && s.calls[p].Trying?
    ensures Inv(W, At(s, p, Trying(s.calls[p].put, s.calls[p].n + 1, s.calls[p].before)))
  {
    var c := Trying(s.calls[p].put, s.calls[p].n + 1, s.calls[p].before);
    assert CallOk(W, s, s.calls[p]);
    assert CallOk(W, s, c);
    InvMove(W, s, p, c);
  }

  lemma InvTryMkdir<C>(W: Walk<C>, s: State<C>, p: nat)
    requires Inv(W, s) && p in s.calls && s.calls[p].Trying?
    ensures Inv(W, DoTryMkdir(s, p))
  {
    var k := s.calls[p];
    if k.n in (if k.put then s.stages else s.vers) {
      InvTaken(W, s, p);
      assert DoTryMkdir(s, p) == At(s, p, Trying(k.put, k.n + 1, k.before));
    }
    else if k.put { InvStaged(W, s, p); }
    else { InvWon(W, s, p); }
  }

  lemma InvMkContent<C>(W: Walk<C>, s: State<C>, p: nat)
    requires Inv(W, s) && p in s.calls && s.calls[p].AllocWon?
    ensures Inv(W, DoMkContent(W, s, p))
  {
    if s.vers[s.calls[p].n].content.Some? { InvMove(W, s, p, Raised); }
    else {
      var t := DoMkContent(W, s, p);
      assert Published(s, s.calls[p].n) ==> Vouched(W, s, s.calls[p].n);
      forall q | q in s.calls && q != p ensures CallOk(W, t, s.calls[q]) && Apart(t.calls[p], s.calls[q]) {
        assert CallOk(W, s, s.calls[q]) && Apart(s.calls[p], s.calls[q]);
      }
      forall n | Published(t, n) ensures Vouched(W, t, n) { assert Published(s, n); }
      InvEdit(W, s, t, p, t.calls[p]);
    }
  }

  lemma InvMkClaim<C>(W: Walk<C>, s: State<C>, p: nat)
    requires Inv(W, s) && p in s.calls && s.calls[p].AllocFilled?
    ensures Inv(W, DoMkClaim(s, p))
  {
    var t := DoMkClaim(s, p);
    forall q | q in s.calls && q != p ensures CallOk(W, t, s.calls[q]) && Apart(t.calls[p], s.calls[q]) {
      assert CallOk(W, s, s.calls[q]) && Apart(s.calls[p], s.calls[q]);
    }
    forall n | Published(t, n) ensures Vouched(W, t, n) { assert Published(s, n); }
    InvEdit(W, s, t, p, t.calls[p]);
  }

  lemma InvCopyIn<C>(W: Walk<C>, s: State<C>, p: nat, c: C)
    requires Inv(W, s) && p in s.calls && s.calls[p].Copying?
    ensures Inv(W, DoCopyIn(s, p, c))
  {
    var t := DoCopyIn(s, p, c);
    forall q | q in t.calls ensures CallOk(W, t, t.calls[q]) {}
    forall n | Published(t, n) ensures Vouched(W, t, n) { assert Published(s, n); }
  }

  lemma InvHashStage<C>(W: Walk<C>, s: State<C>, p: nat)
    requires Inv(W, s) && p in s.calls && s.calls[p].Copying?
    ensures Inv(W, DoHashStage(W, s, p))
  {
    InvMove(W, s, p, DoHashStage(W, s, p).calls[p]);
  }

  lemma InvSignStage<C>(W: Walk<C>, s: State<C>, p: nat, whole: bool)
    requires Inv(W, s) && p in s.calls && s.calls[p].Hashed?
    ensures Inv(W, DoSignStage(s, p, whole))
  {
    var t := DoSignStage(s, p, whole);
    forall q | q in t.calls ensures CallOk(W, t, t.calls[q]) {}
    forall n | Published(t, n) ensures Vouched(W, t, n) { assert Published(s, n); }
  }

  lemma InvJudgeStage<C>(W: Walk<C>, s: State<C>, p: nat, whole: bool)
    requires Inv(W, s) && p in s.calls && s.calls[p].Signed?
    ensures Inv(W, DoJudgeStage(s, p, whole))
  {
    var t := DoJudgeStage(s, p, whole);
    forall q | q in t.calls ensures CallOk(W, t, t.calls[q]) {}
    forall n | Published(t, n) ensures Vouched(W, t, n) { assert Published(s, n); }
  }

  lemma InvRenamed<C>(W: Walk<C>, s: State<C>, p: nat)
    requires Inv(W, s) && p in s.calls && s.calls[p].Complete? && Empty(Here(s.vers, s.calls[p].n))
    ensures Inv(W, DoRenameStage(s, p))
  {
    var k, t := s.calls[p], DoRenameStage(s, p);
    assert CallOk(W, s, k);
    forall q | q in s.calls && q != p ensures CallOk(W, t, s.calls[q]) && Apart(t.calls[p], s.calls[q]) {
      assert CallOk(W, s, s.calls[q]) && Apart(k, s.calls[q]);
    }
    forall n | Published(t, n) ensures Vouched(W, t, n) { assert n != k.n ==> Published(s, n); }
    InvEdit(W, s, t, p, t.calls[p]);
  }

  lemma InvRenameStage<C>(W: Walk<C>, s: State<C>, p: nat)
    requires Inv(W, s) && p in s.calls && s.calls[p].Complete?
    ensures Inv(W, DoRenameStage(s, p))
  {
    if Empty(Here(s.vers, s.calls[p].n)) { InvRenamed(W, s, p); } else { InvMove(W, s, p, Cleaning(s.calls[p].n)); }
  }

  lemma InvRemoveSome<C>(W: Walk<C>, s: State<C>, p: nat, left: VDir<C>)
    requires Inv(W, s) && p in s.calls && s.calls[p].Cleaning?
    ensures Inv(W, InStage(s, s.calls[p].n, left))
  {
    var t := InStage(s, s.calls[p].n, left);
    forall q | q in t.calls ensures CallOk(W, t, t.calls[q]) {}
    forall n | Published(t, n) ensures Vouched(W, t, n) { assert Published(s, n); }
  }

  lemma InvRemoveStage<C>(W: Walk<C>, s: State<C>, p: nat, gone: bool)
    requires Inv(W, s) && p in s.calls && s.calls[p].Cleaning?
    ensures Inv(W, DoRemoveStage(s, p, gone))
  {
    var t := DoRemoveStage(s, p, gone);
    forall q | q in t.calls ensures CallOk(W, t, t.calls[q]) {}
    forall n | Published(t, n) ensures Vouched(W, t, n) { assert Published(s, n); }
  }

  lemma InvCheckUnpublished<C>(W: Walk<C>, s: State<C>, p: nat)
    requires Inv(W, s) && p in s.calls && s.calls[p].SealStart?
    ensures Inv(W, DoCheckUnpublished(s, p))
  {
    InvMove(W, s, p, DoCheckUnpublished(s, p).calls[p]);
  }

  lemma InvHashed<C>(W: Walk<C>, s: State<C>, p: nat, c: C, d: Digest32)
    requires Inv(W, s) && p in s.calls && s.calls[p].SealOpen?
    requires Here(s.vers, s.calls[p].n).content == Some(c) && W.hash(c) == Some(d)
    ensures Inv(W, At(s, p, SealHashed(s.calls[p].n, c, d)).(touched := s.touched - {s.calls[p].n}))
  {
    var k := s.calls[p];
    var t := At(s, p, SealHashed(k.n, c, d)).(touched := s.touched - {k.n});
    assert CallOk(W, s, k);
    forall q | q in s.calls && q != p ensures CallOk(W, t, s.calls[q]) && Apart(t.calls[p], s.calls[q]) {
      assert CallOk(W, s, s.calls[q]) && Apart(k, s.calls[q]);
    }
    forall n | Published(t, n) ensures Vouched(W, t, n) { assert Published(s, n); }
    InvEdit(W, s, t, p, t.calls[p]);
  }

  lemma InvHashContent<C>(W: Walk<C>, s: State<C>, p: nat, admitted: bool)
    requires Inv(W, s) && p in s.calls && s.calls[p].SealOpen?
    ensures Inv(W, DoHashContent(W, s, p, admitted))
  {
    var k := DoHashContent(W, s, p, admitted).calls[p];
    if k.SealHashed? { InvHashed(W, s, p, k.c, k.d); } else { InvMove(W, s, p, k); }
  }

  lemma InvJudge<C>(W: Walk<C>, s: State<C>, p: nat, whole: bool)
    requires Inv(W, s) && p in s.calls && s.calls[p].SealHashed?
    ensures Inv(W, DoJudge(s, p, whole))
  {
    var t := DoJudge(s, p, whole);
    forall q | q in s.calls && q != p ensures CallOk(W, t, s.calls[q]) && Apart(t.calls[p], s.calls[q]) {
      assert CallOk(W, s, s.calls[q]) && Apart(s.calls[p], s.calls[q]);
    }
    forall n | Published(t, n) ensures Vouched(W, t, n) { assert Published(s, n); }
    InvEdit(W, s, t, p, t.calls[p]);
  }

  lemma InvWritePending<C>(W: Walk<C>, s: State<C>, p: nat, whole: bool)
    requires Inv(W, s) && p in s.calls && s.calls[p].SealJudged?
    ensures Inv(W, DoWritePending(s, p, whole))
  {
    var t := DoWritePending(s, p, whole);
    forall q | q in s.calls && q != p ensures CallOk(W, t, s.calls[q]) && Apart(t.calls[p], s.calls[q]) {
      assert CallOk(W, s, s.calls[q]) && Apart(s.calls[p], s.calls[q]);
    }
    forall n | Published(t, n) ensures Vouched(W, t, n) { assert Published(s, n); }
    InvEdit(W, s, t, p, t.calls[p]);
  }

  lemma InvRenameManifest<C>(W: Walk<C>, s: State<C>, p: nat)
    requires Inv(W, s) && p in s.calls && s.calls[p].SealPending?
    ensures Inv(W, DoRenameManifest(s, p))
  {
    var t := DoRenameManifest(s, p);
    forall q | q in t.calls ensures CallOk(W, t, t.calls[q]) {}
    forall n | Published(t, n) ensures Vouched(W, t, n) { assert n != s.calls[p].n ==> Published(s, n); }
  }

  lemma InvAgentWrite<C>(W: Walk<C>, s: State<C>, n: nat, c: C)
    requires Inv(W, s) && Here(s.vers, n).content.Some?
    ensures Inv(W, DoAgentWrite(s, n, c))
  {
    var t := DoAgentWrite(s, n, c);
    forall q | q in t.calls ensures CallOk(W, t, t.calls[q]) { assert CallOk(W, s, s.calls[q]); }
    forall m | Published(t, m) ensures Vouched(W, t, m) { assert Published(s, m); }
  }

  lemma StepKeepsInv<C>(W: Walk<C>, s: State<C>, a: Action<C>)
    requires Inv(W, s) && Enabled(s, a)
    ensures Inv(W, Step(W, s, a))
  {
    match a
    case Start(p, op) => InvStart(W, s, p, op);
    case Guess(p, seen) => InvGuess(W, s, p, seen);
    case TryMkdir(p) => InvTryMkdir(W, s, p);
    case MkContent(p) => InvMkContent(W, s, p);
    case MkClaim(p) => InvMkClaim(W, s, p);
    case CopyIn(p, c) => InvCopyIn(W, s, p, c);
    case HashStage(p) => InvHashStage(W, s, p);
    case SignStage(p, whole) => InvSignStage(W, s, p, whole);
    case JudgeStage(p, whole) => InvJudgeStage(W, s, p, whole);
    case RenameStage(p) => InvRenameStage(W, s, p);
    case Fail(p) => InvMove(W, s, p, Cleaning(s.calls[p].n));
    case RemoveSome(p, left) => InvRemoveSome(W, s, p, left);
    case RemoveStage(p, gone) => InvRemoveStage(W, s, p, gone);
    case CheckUnpublished(p) => InvCheckUnpublished(W, s, p);
    case HashContent(p, admitted) => InvHashContent(W, s, p, admitted);
    case Judge(p, whole) => InvJudge(W, s, p, whole);
    case WritePending(p, whole) => InvWritePending(W, s, p, whole);
    case RenameManifest(p) => InvRenameManifest(W, s, p);
    case AgentWrite(n, c) => InvAgentWrite(W, s, n, c);
    case Crash(p) => InvMove(W, s, p, Dead);
  }

  // ---- whole runs ----

  /** `s` leads to `t` by the actions `as` in turn. */
  ghost predicate Runs<C>(W: Walk<C>, s: State<C>, acts: seq<Action<C>>, t: State<C>)
    decreases acts
  {
    if acts == [] then s == t
    else Enabled(s, acts[0]) && Runs(W, Step(W, s, acts[0]), acts[1..], t)
  }

  lemma {:induction false} RunKeepsInv<C>(W: Walk<C>, s: State<C>, acts: seq<Action<C>>, t: State<C>)
    requires Inv(W, s) && Runs(W, s, acts, t)
    ensures Inv(W, t)
    decreases acts
  {
    if acts != [] {
      StepKeepsInv(W, s, acts[0]);
      RunKeepsInv(W, Step(W, s, acts[0]), acts[1..], t);
    }
  }

  /** In every interleaving, no two `allocate` or `put` calls return one number, and a
      number returned exceeds every version directory present when it was guessed. */
  lemma NumbersAreUnique<C>(W: Walk<C>, acts: seq<Action<C>>, t: State<C>, p: nat, q: nat)
    requires Runs(W, Init(), acts, t)
    requires p in t.calls && q in t.calls && t.calls[p].Returned? && t.calls[q].Returned?
    ensures p != q ==> t.calls[p].n != t.calls[q].n
    ensures forall m | m in t.calls[p].before :: m < t.calls[p].n
  {
    RunKeepsInv(W, Init(), acts, t);
    assert CallOk(W, t, t.calls[p]);
  }

  /** A version a reader can see is complete, whatever crashed on the way. */
  lemma VisibleIsComplete<C>(W: Walk<C>, acts: seq<Action<C>>, t: State<C>, n: nat)
    requires Runs(W, Init(), acts, t) && Published(t, n)
    ensures Vouched(W, t, n)
  {
    RunKeepsInv(W, Init(), acts, t);
  }

  /** One step leaves every published version as it is; only `content/` can be written. */
  ghost predicate Preserves<C>(s: State<C>, t: State<C>)
  {
    forall n | Published(s, n) ::
      && Published(t, n)
      && t.vers[n].manifest == s.vers[n].manifest
      && n in s.hashed && n in t.hashed && t.hashed[n] == s.hashed[n]
      && (n in s.touched ==> n in t.touched)
      && (n !in t.touched ==> t.vers[n] == s.vers[n])
  }

  lemma PreservesSame<C>(W: Walk<C>, s: State<C>, t: State<C>)
    requires Inv(W, s) && t.vers == s.vers && t.hashed == s.hashed && t.touched == s.touched
    ensures Preserves(s, t)
  {
    forall n | Published(s, n) ensures Vouched(W, s, n) {}
  }

  /** A change confined to one unpublished version. */
  lemma PreservesOff<C>(W: Walk<C>, s: State<C>, t: State<C>, m: nat)
    requires Inv(W, s) && !Published(s, m)
    requires forall n | n in s.vers && n != m :: n in t.vers && t.vers[n] == s.vers[n]
    requires forall n | n in s.hashed && n != m :: n in t.hashed && t.hashed[n] == s.hashed[n]
    requires forall n | n != m :: n in t.touched <==> n in s.touched
    ensures Preserves(s, t)
  {
    forall n | Published(s, n) ensures Vouched(W, s, n) {}
  }

  lemma PreservesAgentWrite<C>(W: Walk<C>, s: State<C>, n: nat, c: C)
    requires Inv(W, s)
    ensures Preserves(s, DoAgentWrite(s, n, c))
  {
    forall m | Published(s, m) ensures Vouched(W, s, m) {}
  }

  lemma PreservesTryMkdir<C>(W: Walk<C>, s: State<C>, p: nat)
    requires Inv(W, s) && p in s.calls && s.calls[p].Trying?
    ensures Preserves(s, DoTryMkdir(s, p))
  {
    if s.calls[p].put || s.calls[p].n in s.vers { PreservesSame(W, s, DoTryMkdir(s, p)); }
    else { PreservesOff(W, s, DoTryMkdir(s, p), s.calls[p].n); }
  }

  lemma PreservesMkContent<C>(W: Walk<C>, s: State<C>, p: nat)
    requires Inv(W, s) && p in s.calls && s.calls[p].AllocWon?
    ensures Preserves(s, DoMkContent(W, s, p))
  {
    var n := s.calls[p].n;
    assert Published(s, n) ==> Vouched(W, s, n);
    if Here(s.vers, n).content.Some? { PreservesSame(W, s, DoMkContent(W, s, p)); }
    else { PreservesOff(W, s, DoMkContent(W, s, p), n); }
  }

  lemma PreservesRenameStage<C>(W: Walk<C>, s: State<C>, p: nat)
    requires Inv(W, s) && p in s.calls && s.calls[p].Complete?
    ensures Preserves(s, DoRenameStage(s, p))
  {
    if Empty(Here(s.vers, s.calls[p].n)) { PreservesOff(W, s, DoRenameStage(s, p), s.calls[p].n); }
    else { PreservesSame(W, s, DoRenameStage(s, p)); }
  }

  /** The steps of an allocation after `content/`, and of a `seal`: their version is unpublished. */
  lemma PreservesOwn<C>(W: Walk<C>, s: State<C>, a: Action<C>)
    requires Inv(W, s) && Enabled(s, a)
    requires a.MkClaim? || a.HashContent? || a.Judge? || a.WritePending? || a.RenameManifest?
    ensures Preserves(s, Step(W, s, a))
  {
    assert CallOk(W, s, s.calls[a.p]);
    PreservesOff(W, s, Step(W, s, a), s.calls[a.p].n);
  }

  lemma StepPreserves<C>(W: Walk<C>, s: State<C>, a: Action<C>)
    requires Inv(W, s) && Enabled(s, a)
    ensures Preserves(s, Step(W, s, a))
  {
    if a.AgentWrite? { PreservesAgentWrite(W, s, a.n, a.c); }
    else if a.TryMkdir? { PreservesTryMkdir(W, s, a.p); }
    else if a.MkContent? { PreservesMkContent(W, s, a.p); }
    else if a.RenameStage? { PreservesRenameStage(W, s, a.p); }
    else if a.MkClaim? || a.HashContent? || a.Judge? || a.WritePending? || a.RenameManifest? { PreservesOwn(W, s, a); }
    else { PreservesSame(W, s, Step(W, s, a)); }
  }

  lemma {:induction false} RunPreserves<C>(W: Walk<C>, s: State<C>, acts: seq<Action<C>>, t: State<C>)
    requires Inv(W, s) && Runs(W, s, acts, t)
    ensures Preserves(s, t)
    decreases acts
  {
    if acts == [] {
      forall n | Published(s, n) ensures Vouched(W, s, n) {}
    } else {
      var u := Step(W, s, acts[0]);
      StepPreserves(W, s, acts[0]);
      StepKeepsInv(W, s, acts[0]);
      RunPreserves(W, u, acts[1..], t);
      forall n | Published(s, n) ensures Published(u, n) {}
    }
  }

  // ---- reads over a run ----

  ghost function PublishedSet<C>(s: State<C>): (r: set<nat>)
    ensures forall n :: n in r <==> Published(s, n)
  {
    set n | n in s.vers && Published(s, n)
  }

  /** The members of a set in ascending order: what `sorted` makes of it. */
  function Ascend(ns: set<nat>): (r: seq<nat>)
    ensures forall n :: n in r <==> n in ns
    ensures forall i, j | 0 <= i < j < |r| :: r[i] < r[j]
    decreases |ns|
  {
    if ns == {} then [] else
      var top := Successor(ns) - 1;
      var rest := Ascend(ns - {top});
      assert forall i | 0 <= i < |rest| :: rest[i] in rest;
      rest + [top]
  }

  ghost function ListVersions<C>(s: State<C>): (r: seq<nat>) { Ascend(PublishedSet(s)) }

  ghost function Latest<C>(s: State<C>): (r: Option<nat>)
  {
    var all := ListVersions(s);
    if all == [] then None else Some(all[|all| - 1])
  }

  /** `list_versions` has exactly the versions with a manifest, ascending, and `latest` is the
      highest of them, `None` exactly when there is none. */
  lemma LatestIsHighest<C>(s: State<C>)
    ensures forall n: nat :: n in ListVersions(s) <==> Published(s, n)
    ensures forall i, j | 0 <= i < j < |ListVersions(s)| :: ListVersions(s)[i] < ListVersions(s)[j]
    ensures Latest(s).None? <==> forall n: nat :: !Published(s, n)
    ensures Latest(s).Some? ==> Published(s, Latest(s).value) && forall n: nat | Published(s, n) :: n <= Latest(s).value
  {
    var all := ListVersions(s);
    if all != [] {
      assert all[|all| - 1] in all;
      forall n: nat | Published(s, n) ensures n <= all[|all| - 1] {
        assert n in all;
        var i :| 0 <= i < |all| && all[i] == n;
      }
    }
  }

  lemma LastGrows(a: seq<nat>, b: seq<nat>)
    requires forall n | n in a :: n in b
    requires forall i, j | 0 <= i < j < |b| :: b[i] < b[j]
    ensures a != [] ==> b != [] && a[|a| - 1] <= b[|b| - 1]
  {
    if a != [] {
      assert a[|a| - 1] in b;
      var i :| 0 <= i < |b| && b[i] == a[|a| - 1];
    }
  }

  /** The ascending list of published versions only gains members, and `latest` never
      goes back; each keeps its manifest. */
  lemma ListingOnlyGrows<C>(W: Walk<C>, acts: seq<Action<C>>, s: State<C>, more: seq<Action<C>>, t: State<C>)
    requires Runs(W, Init(), acts, s) && Runs(W, s, more, t)
    ensures forall n | n in ListVersions(s) :: n in ListVersions(t) && t.vers[n].manifest == s.vers[n].manifest
    ensures Latest(s).Some? ==> Latest(t).Some? && Latest(s).value <= Latest(t).value
  {
    RunKeepsInv(W, Init(), acts, s);
    RunPreserves(W, s, more, t);
    forall n | n in ListVersions(s) ensures n in ListVersions(t) && t.vers[n].manifest == s.vers[n].manifest {
      assert Published(s, n);
    }
    LastGrows(ListVersions(s), ListVersions(t));
  }

  lemma {:induction false} RunsThen<C>(W: Walk<C>, s: State<C>, acts: seq<Action<C>>, t: State<C>, a: Action<C>)
    requires Runs(W, s, acts, t) && Enabled(t, a)
    ensures Runs(W, s, acts + [a], Step(W, t, a))
    decreases acts
  {
    if acts == [] { assert Runs(W, Step(W, t, a), [], Step(W, t, a)); }
    else {
      RunsThen(W, Step(W, s, acts[0]), acts[1..], t, a);
      assert (acts + [a])[1..] == acts[1..] + [a];
    }
  }

  lemma Then<C>(W: Walk<C>, acts: seq<Action<C>>, t: State<C>, a: Action<C>) returns (more: seq<Action<C>>, u: State<C>)
    requires Runs(W, Init(), acts, t) && Enabled(t, a)
    ensures u == Step(W, t, a) && more == acts + [a] && Runs(W, Init(), more, u)
  {
    RunsThen(W, Init(), acts, t, a);
    more, u := acts + [a], Step(W, t, a);
  }

  lemma BothGuess<C>(W: Walk<C>) returns (acts: seq<Action<C>>, t: State<C>)
    ensures Runs(W, Init(), acts, t)
    ensures t.vers == map[] && t.stages == map[]
    ensures t.calls == map[0 := Trying(false, 0, {}), 1 := Trying(true, 0, {})]
  {
    acts, t := [], Init();
    assert t.vers.Keys == {};
    acts, t := Then(W, acts, t, Start(0, OpAllocate));
    acts, t := Then(W, acts, t, Start(1, OpPut));
    acts, t := Then(W, acts, t, Guess(0, {}));
    acts, t := Then(W, acts, t, Guess(1, {}));
  }

  lemma PutHashes<C>(W: Walk<C>, c: C) returns (acts: seq<Action<C>>, t: State<C>)
    requires W.hash(c).Some?
    ensures Runs(W, Init(), acts, t)
    ensures t.vers == map[] && 0 in t.stages && t.stages[0].content == Some(c)
    ensures t.calls == map[0 := Trying(false, 0, {}), 1 := Hashed(0, {}, c, W.hash(c).value)]
  {
    acts, t := BothGuess(W);
    acts, t := Then(W, acts, t, TryMkdir(1));
    acts, t := Then(W, acts, t, CopyIn(1, c));
    acts, t := Then(W, acts, t, HashStage(1));
  }

  lemma PutStages<C>(W: Walk<C>, c: C) returns (acts: seq<Action<C>>, t: State<C>)
    requires W.hash(c).Some?
    ensures Runs(W, Init(), acts, t)
    ensures t.vers == map[] && 0 in t.stages && t.stages[0].content == Some(c)
    ensures t.calls == map[0 := Trying(false, 0, {}), 1 := Complete(0, {}, c, W.hash(c).value)]
  {
    acts, t := PutHashes(W, c);
    acts, t := Then(W, acts, t, SignStage(1, true));
    acts, t := Then(W, acts, t, JudgeStage(1, true));
  }

  /** In every run: an `allocate` that has made `v<n>/` raises at its next step exactly when a `put`
      has published that number meanwhile, and past that step it does not raise. */
  lemma AllocateRaisesExactly<C>(W: Walk<C>, acts: seq<Action<C>>, s: State<C>, p: nat)
    requires Runs(W, Init(), acts, s) && p in s.calls
    ensures s.calls[p].AllocWon? ==> (Step(W, s, MkContent(p)).calls[p].Raised? <==> Published(s, s.calls[p].n))
    ensures s.calls[p].AllocFilled? ==>
      Step(W, s, MkClaim(p)).calls[p] == Returned(false, s.calls[p].n, s.calls[p].before)
  {
    RunKeepsInv(W, Init(), acts, s);
    assert CallOk(W, s, s.calls[p]);
    if s.calls[p].AllocWon? && Published(s, s.calls[p].n) { assert Vouched(W, s, s.calls[p].n); }
  }

  /** The race the allocator survives: a `put` renames onto the directory an `allocate` has
      just made and not yet filled.  The `put` gets the number and the `allocate` raises. */
  lemma RenameBetweenMkdirs<C>(W: Walk<C>, c: C) returns (acts: seq<Action<C>>, t: State<C>)
    requires W.hash(c).Some?
    ensures Runs(W, Init(), acts, t)
    ensures 0 in t.calls && t.calls[0] == Raised
    ensures 1 in t.calls && t.calls[1] == Returned(true, 0, {})
  {
    acts, t := PutStages(W, c);
    acts, t := Then(W, acts, t, TryMkdir(0));
    acts, t := Then(W, acts, t, RenameStage(1));
    acts, t := Then(W, acts, t, MkContent(0));
  }

  // ---- calls left alone ----

  lemma On<C>(W: Walk<C>, s: State<C>, acts: seq<Action<C>>, t: State<C>, a: Action<C>)
    returns (more: seq<Action<C>>, u: State<C>)
    requires Runs(W, s, acts, t) && Enabled(t, a)
    ensures u == Step(W, t, a) && more == acts + [a] && Runs(W, s, more, u)
  {
    RunsThen(W, s, acts, t, a);
    more, u := acts + [a], Step(W, t, a);
  }

  lemma Stay<C>(W: Walk<C>, s: State<C>) returns (acts: seq<Action<C>>, t: State<C>)
    ensures acts == [] && t == s && Runs(W, s, acts, t)
  {
    acts, t := [], s;
  }

  /** A call that starts and guesses with nobody else moving tries one above the highest version
      directory. */
  lemma GuessAlone<C>(W: Walk<C>, s: State<C>, p: nat, op: Op) returns (acts: seq<Action<C>>, t: State<C>)
    requires p !in s.calls && !op.OpSeal?
    ensures Runs(W, s, acts, t)
    ensures t == At(s, p, Trying(op.OpPut?, Successor(s.vers.Keys), s.vers.Keys))
  {
    acts, t := Stay(W, s);
    acts, t := On(W, s, acts, t, Start(p, op));
    assert t.calls[p] == Guessing(op.OpPut?, s.vers.Keys);
    acts, t := On(W, s, acts, t, Guess(p, s.vers.Keys));
    assert t.calls == s.calls[p := Trying(op.OpPut?, Successor(s.vers.Keys), s.vers.Keys)];
  }

  lemma MakeAlone<C>(W: Walk<C>, s: State<C>, p: nat) returns (acts: seq<Action<C>>, t: State<C>)
    requires p !in s.calls
    ensures var n := Successor(s.vers.Keys);
      Runs(W, s, acts, t) && t == At(InVer(s, n, Bare()), p, AllocWon(n, s.vers.Keys))
  {
    acts, t := GuessAlone(W, s, p, OpAllocate);
    acts, t := On(W, s, acts, t, TryMkdir(p));
    assert t.calls == s.calls[p := AllocWon(Successor(s.vers.Keys), s.vers.Keys)];
  }

  lemma ClaimAlone<C>(W: Walk<C>, s: State<C>, p: nat) returns (acts: seq<Action<C>>, t: State<C>)
    requires p in s.calls && s.calls[p].AllocWon? && Here(s.vers, s.calls[p].n) == Bare()
    ensures var k := s.calls[p];
      && Runs(W, s, acts, t)
      && t == At(InVer(s, k.n, VDir(Some(W.nothing), true, NoVerdict, NoManifest, NoManifest)), p,
                 Returned(false, k.n, k.before))
  {
    var k := s.calls[p];
    acts, t := Stay(W, s);
    acts, t := On(W, s, acts, t, MkContent(p));
    assert t.vers == s.vers[k.n := Bare().(content := Some(W.nothing))];
    acts, t := On(W, s, acts, t, MkClaim(p));
    assert t.calls == s.calls[p := Returned(false, k.n, k.before)];
    assert t.vers == s.vers[k.n := VDir(Some(W.nothing), true, NoVerdict, NoManifest, NoManifest)];
  }

  /** `allocate` alone returns one above the highest version directory, holes included, and leaves
      there an empty `content/`, a claim directory and no manifest; nothing else changes. */
  lemma AllocateAlone<C>(W: Walk<C>, s: State<C>, p: nat) returns (acts: seq<Action<C>>, t: State<C>)
    requires p !in s.calls
    ensures var n := Successor(s.vers.Keys);
      && Runs(W, s, acts, t)
      && t.calls == s.calls[p := Returned(false, n, s.vers.Keys)]
      && t.vers == s.vers[n := VDir(Some(W.nothing), true, NoVerdict, NoManifest, NoManifest)]
      && t.stages == s.stages && n !in s.vers && (n == 0 || n - 1 in s.vers) && forall m | m in s.vers :: m < n
  {
    var first, u := MakeAlone(W, s, p);
    var more, v := ClaimAlone(W, u, p);
    RunsOn(W, s, first, u, more, v);
    acts, t := first + more, v;
  }

  /** A `put` goes past staging directories left by others, one number at a time. */
  lemma {:induction false} StageAlone<C>(W: Walk<C>, s: State<C>, p: nat, n: nat)
    returns (acts: seq<Action<C>>, t: State<C>)
    requires p in s.calls && s.calls[p].Trying? && s.calls[p].put && s.calls[p].n <= n
    requires n !in s.stages && forall m | s.calls[p].n <= m < n :: m in s.stages
    ensures Runs(W, s, acts, t) && t == At(InStage(s, n, Bare()), p, Copying(n, s.calls[p].before))
    decreases n - s.calls[p].n
  {
    var k := s.calls[p];
    acts, t := Stay(W, s);
    acts, t := On(W, s, acts, t, TryMkdir(p));
    if k.n < n {
      assert t == At(s, p, Trying(true, k.n + 1, k.before));
      var more, u := StageAlone(W, t, p, n);
      RunsOn(W, s, acts, t, more, u);
      acts, t := acts + more, u;
      assert t.calls == s.calls[p := Copying(n, k.before)];
    }
  }

  lemma {:induction false} RunsOn<C>(W: Walk<C>, s: State<C>, acts: seq<Action<C>>, t: State<C>,
                                     more: seq<Action<C>>, u: State<C>)
    requires Runs(W, s, acts, t) && Runs(W, t, more, u)
    ensures Runs(W, s, acts + more, u)
    decreases acts
  {
    if acts == [] { assert acts + more == more; }
    else {
      RunsOn(W, Step(W, s, acts[0]), acts[1..], t, more, u);
      assert (acts + more)[1..] == acts[1..] + more;
    }
  }

  lemma HashAlone<C>(W: Walk<C>, s: State<C>, p: nat, c: C, d: Digest32) returns (acts: seq<Action<C>>, t: State<C>)
    requires p in s.calls && s.calls[p].Copying? && W.hash(c) == Some(d) && Here(s.stages, s.calls[p].n) == Bare()
    ensures var k := s.calls[p];
      && Runs(W, s, acts, t)
      && t == At(InStage(s, k.n, Bare().(content := Some(c))), p, Hashed(k.n, k.before, c, d))
  {
    var k := s.calls[p];
    acts, t := Stay(W, s);
    acts, t := On(W, s, acts, t, CopyIn(p, c));
    assert t.stages == s.stages[k.n := Bare().(content := Some(c))];
    acts, t := On(W, s, acts, t, HashStage(p));
  }

  lemma SignAlone<C>(W: Walk<C>, s: State<C>, p: nat) returns (acts: seq<Action<C>>, t: State<C>)
    requires p in s.calls && s.calls[p].Hashed? && s.calls[p].n in s.stages
    ensures var k := s.calls[p];
      && Runs(W, s, acts, t) && t.vers == s.vers && t.hashed == s.hashed
      && t.stages == s.stages[k.n := s.stages[k.n].(manifest := Manifest(k.d), verdict := EmptyVerdicts)]
      && t.calls == s.calls[p := Complete(k.n, k.before, k.c, k.d)]
  {
    var k := s.calls[p];
    acts, t := Stay(W, s);
    acts, t := On(W, s, acts, t, SignStage(p, true));
    assert t.calls == s.calls[p := Signed(k.n, k.before, k.c, k.d)];
    acts, t := On(W, s, acts, t, JudgeStage(p, true));
  }

  /** The steps of a `put` from its staging directory to the rename. */
  lemma FillAlone<C>(W: Walk<C>, s: State<C>, p: nat, c: C, d: Digest32) returns (acts: seq<Action<C>>, t: State<C>)
    requires p in s.calls && s.calls[p].Copying? && W.hash(c) == Some(d) && Here(s.stages, s.calls[p].n) == Bare()
    ensures var k := s.calls[p];
      && Runs(W, s, acts, t) && t.vers == s.vers && t.hashed == s.hashed
      && t.stages == s.stages[k.n := VDir(Some(c), false, EmptyVerdicts, NoManifest, Manifest(d))]
      && t.calls == s.calls[p := Complete(k.n, k.before, c, d)]
  {
    var first, u := HashAlone(W, s, p, c, d);
    var more, v := SignAlone(W, u, p);
    RunsOn(W, s, first, u, more, v);
    acts, t := first + more, v;
  }

  lemma RenameAlone<C>(W: Walk<C>, s: State<C>, p: nat) returns (acts: seq<Action<C>>, t: State<C>)
    requires p in s.calls && s.calls[p].Complete? && s.calls[p].n !in s.vers && s.calls[p].n in s.stages
    ensures var k := s.calls[p];
      && Runs(W, s, acts, t) && t.calls == s.calls[p := Returned(true, k.n, k.before)]
      && t.vers == s.vers[k.n := s.stages[k.n]] && t.stages == s.stages - {k.n} && t.hashed == s.hashed[k.n := k.c]
  {
    acts, t := Stay(W, s);
    acts, t := On(W, s, acts, t, RenameStage(p));
  }

  lemma StagedAlone<C>(W: Walk<C>, s: State<C>, p: nat, n: nat) returns (acts: seq<Action<C>>, t: State<C>)
    requires p !in s.calls && Successor(s.vers.Keys) <= n
    requires n !in s.stages && forall m | Successor(s.vers.Keys) <= m < n :: m in s.stages
    ensures Runs(W, s, acts, t) && t == At(InStage(s, n, Bare()), p, Copying(n, s.vers.Keys))
  {
    var first, u := GuessAlone(W, s, p, OpPut);
    var more, v := StageAlone(W, u, p, n);
    RunsOn(W, s, first, u, more, v);
    acts, t := first + more, v;
    assert t.calls == s.calls[p := Copying(n, s.vers.Keys)];
  }

  lemma PublishAlone<C>(W: Walk<C>, s: State<C>, p: nat, c: C, d: Digest32) returns (acts: seq<Action<C>>, t: State<C>)
    requires p in s.calls && s.calls[p].Copying? && W.hash(c) == Some(d)
    requires Here(s.stages, s.calls[p].n) == Bare() && s.calls[p].n !in s.vers
    ensures var k := s.calls[p];
      && Runs(W, s, acts, t) && t.calls == s.calls[p := Returned(true, k.n, k.before)]
      && t.vers == s.vers[k.n := VDir(Some(c), false, EmptyVerdicts, NoManifest, Manifest(d))]
      && t.stages == s.stages - {k.n} && t.hashed == s.hashed[k.n := c]
  {
    var first, u := FillAlone(W, s, p, c, d);
    var more, v := RenameAlone(W, u, p);
    RunsOn(W, s, first, u, more, v);
    acts, t := first + more, v;
  }

  /** `put` alone publishes its content under the first number above the highest version directory
      whose staging name is free, with a whole manifest and an empty verdict file, and returns
      that number; nothing else changes. */
  lemma PutAlone<C>(W: Walk<C>, s: State<C>, p: nat, c: C, d: Digest32, n: nat)
    returns (acts: seq<Action<C>>, t: State<C>)
    requires p !in s.calls && W.hash(c) == Some(d) && Successor(s.vers.Keys) <= n
    requires n !in s.stages && forall m | Successor(s.vers.Keys) <= m < n :: m in s.stages
    ensures
      && Runs(W, s, acts, t)
      && t.calls == s.calls[p := Returned(true, n, s.vers.Keys)]
      && t.vers == s.vers[n := VDir(Some(c), false, EmptyVerdicts, NoManifest, Manifest(d))]
      && t.stages == s.stages && n !in s.vers && t.hashed == s.hashed[n := c]
  {
    var first, u := StagedAlone(W, s, p, n);
    var more, v := PublishAlone(W, u, p, c, d);
    RunsOn(W, s, first, u, more, v);
    acts, t := first + more, v;
  }

  /** A `put` whose content cannot be hashed raises, and leaves no trace of itself. */
  lemma PutRaises<C>(W: Walk<C>, s: State<C>, p: nat, c: C) returns (acts: seq<Action<C>>, t: State<C>)
    requires p in s.calls && s.calls[p].Copying? && W.hash(c).None?
    ensures var k := s.calls[p];
      && Runs(W, s, acts, t) && t.calls == s.calls[p := Raised]
      && t.vers == s.vers && t.stages == s.stages - {k.n} && t.hashed == s.hashed
  {
    var k := s.calls[p];
    acts, t := Stay(W, s);
    acts, t := On(W, s, acts, t, CopyIn(p, c));
    acts, t := On(W, s, acts, t, HashStage(p));
    assert t.calls == s.calls[p := Cleaning(k.n)];
    acts, t := On(W, s, acts, t, RemoveStage(p, true));
    assert t.stages == s.stages - {k.n};
  }

  lemma JudgeAlone<C>(W: Walk<C>, s: State<C>, p: nat) returns (acts: seq<Action<C>>, t: State<C>)
    requires p in s.calls && s.calls[p].SealHashed? && s.calls[p].n in s.vers
    ensures var k := s.calls[p];
      && Runs(W, s, acts, t) && t.calls == s.calls[p := SealPending(k.n, k.c, k.d)]
      && t.vers == s.vers[k.n := s.vers[k.n].(verdict := EmptyVerdicts, pending := Manifest(k.d))]
  {
    var k := s.calls[p];
    acts, t := Stay(W, s);
    acts, t := On(W, s, acts, t, Judge(p, true));
    assert t.calls == s.calls[p := SealJudged(k.n, k.c, k.d)];
    acts, t := On(W, s, acts, t, WritePending(p, true));
  }

  /** From the hash on, `seal` alone writes the verdict file and the manifest of that hash, and
      returns with the version published; its content is left as it lies. */
  lemma SealFinishes<C>(W: Walk<C>, s: State<C>, p: nat) returns (acts: seq<Action<C>>, t: State<C>)
    requires p in s.calls && s.calls[p].SealHashed? && s.calls[p].n in s.vers
    ensures var k, was := s.calls[p], s.vers[s.calls[p].n];
      && Runs(W, s, acts, t) && t.calls == s.calls[p := SealReturned(k.n)]
      && t.vers == s.vers[k.n := VDir(was.content, was.claim, EmptyVerdicts, NoManifest, Manifest(k.d))]
      && Published(t, k.n) && k.n in t.hashed && t.hashed[k.n] == k.c
  {
    acts, t := JudgeAlone(W, s, p);
    acts, t := On(W, s, acts, t, RenameManifest(p));
  }
}
