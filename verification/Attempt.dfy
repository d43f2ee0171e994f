/**
 The two seals of a task attempt: the phase half of `TaskAttempt` in
 `agent_sys/agent/runner.py`.  The store seal publishes a pinned version before the
 gate; the model seal closes the handoff slot after output validation.
 */
module AttemptLog {

  type Hid = nat

  datatype Status = InputValidating | Running | OutputValidating | AnyOther

  /** What the attempt did and met, in order. */
  datatype Event =
    | Opened(h: Hid)                   // `open_next` on the slot
    | OpenRaised                       // that, or the `persist` after it, raised
    | AllOpened                        // `_open_outputs` completed
    | StoreSealed(h: Hid)              // `FilesystemStore.seal` published the pinned version
    | Phase(status: Status)            // `_one_phase` read the task's status
    | BodyRan                          // the executor ran and was waited for
    | GateFailed
    | GatePassed
    | Validated                        // output validation passed
    | SlotSealed(h: Hid, valid: bool)  // `HandoffVersion.seal` on the slot
    | SlotRaised                       // that, or the `persist` after it, raised
    | DoneCalled(ok: bool)             // `on_done`
    | DoneRaised                       // the report of success raised
    | Raised                           // anything else outside raised
    | PhaseEnded                       // `_one_phase` returned false
    | HaltSeen                         // the loop of `run` found the attempt halted
    | Finally                          // the `finally` of `run`

  /** What the rules below need to know about a log.  `poisoned`: some pass published an output
      and failed the gate.  `checked`: a passed validation, and only slot seals since. */
  datatype Summary = Summary(open: set<Hid>, stored: set<Hid>, poisoned: bool, checked: bool, raised: bool)

  const NOTHING := Summary({}, {}, false, false, false)

  function After(s: Summary, e: Event): (t: Summary)
  {
    match e
    case Opened(h) => s.(open := s.open + {h}, checked := false)
    case OpenRaised => s.(raised := true, checked := false)
    case StoreSealed(h) => s.(stored := s.stored + {h}, checked := false)
    case GateFailed => s.(poisoned := s.poisoned || s.stored != {}, checked := false)
    case Validated => s.(checked := true)
    case SlotSealed(h, _) => s.(open := s.open - {h})
    case SlotRaised => s.(raised := true, checked := false)
    case _ => s.(checked := false)
  }

  function Sum(log: seq<Event>): (s: Summary)
  {
    if log == [] then NOTHING else After(Sum(log[..|log| - 1]), log[|log| - 1])
  }

  /** May `e` come next?  A slot is opened when closed and sealed when open; VALID needs this
      attempt's own publication, a validation just passed and no poisoned pass; success is
      reported right after a passed validation, with every slot sealed. */
  predicate MayFollow(outputs: seq<Hid>, s: Summary, e: Event)
  {
    match e
    case Opened(h) => h !in s.open
    case StoreSealed(h) => h !in s.stored
    case SlotSealed(h, valid) => h in s.open && (valid ==> h in s.stored && s.checked && !s.poisoned)
    case DoneCalled(ok) => ok ==> s.checked && (!s.raised ==> forall h | h in outputs :: h !in s.open)
    case _ => true
  }

  /** Every event was allowed by what came before it. */
  predicate Lawful(outputs: seq<Hid>, log: seq<Event>)
  {
    forall i | 0 <= i < |log| :: MayFollow(outputs, Sum(log[..i]), log[i])
  }

  lemma LawfulPrefix(outputs: seq<Hid>, log: seq<Event>, n: nat)
    requires Lawful(outputs, log) && n <= |log|
    ensures Lawful(outputs, log[..n])
  {
    forall i | 0 <= i < n ensures MayFollow(outputs, Sum(log[..n][..i]), log[..n][i]) {
      assert log[..n][..i] == log[..i];
    }
  }

  // ---- what a lawful log promises, in terms of the log alone ----

  /** Times opened minus times sealed. */
  function OpenCount(log: seq<Event>, h: Hid): (n: int)
  {
    if log == [] then 0 else
      OpenCount(log[..|log| - 1], h) + Opens(log[|log| - 1], h)
  }

  function Opens(e: Event, h: Hid): (n: int)
  {
    if e == Opened(h) then 1 else if e.SlotSealed? && e.h == h then -1 else 0
  }

  lemma OpenStep(outputs: seq<Hid>, s: Summary, e: Event, h: Hid)
    requires MayFollow(outputs, s, e)
    ensures (if h in After(s, e).open then 1 else 0) == (if h in s.open then 1 else 0) + Opens(e, h)
  {
  }

  /** No slot is sealed twice for one opening, and none is sealed unopened. */
  lemma {:induction false} SealedAtMostOnce(outputs: seq<Hid>, log: seq<Event>, h: Hid)
    requires Lawful(outputs, log)
    ensures OpenCount(log, h) == if h in Sum(log).open then 1 else 0
  {
    if log != [] {
      var pre, e := log[..|log| - 1], log[|log| - 1];
      LawfulPrefix(outputs, log, |log| - 1);
      SealedAtMostOnce(outputs, pre, h);
      OpenStep(outputs, Sum(pre), e, h);
    }
  }

  lemma {:induction false} StoredMeansSealed(log: seq<Event>, h: Hid)
    ensures h in Sum(log).stored <==> StoreSealed(h) in log
  {
    if log != [] {
      StoredMeansSealed(log[..|log| - 1], h);
      assert log == log[..|log| - 1] + [log[|log| - 1]];
    }
  }

  lemma {:induction false} CheckedMeansValidated(log: seq<Event>) returns (k: nat)
    requires Sum(log).checked
    ensures k < |log| && log[k].Validated? && forall j | k < j < |log| :: log[j].SlotSealed?
  {
    if log[|log| - 1].Validated? { k := |log| - 1; }
    else { k := CheckedMeansValidated(log[..|log| - 1]); }
  }

  lemma {:induction false} RaisedMeansLogged(log: seq<Event>)
    ensures Sum(log).raised <==> OpenRaised in log || SlotRaised in log
  {
    if log != [] {
      RaisedMeansLogged(log[..|log| - 1]);
      assert log == log[..|log| - 1] + [log[|log| - 1]];
    }
  }

  lemma {:induction false} PoisonedFrom(log: seq<Event>, k: nat, i: nat)
    requires k < i < |log| && log[k].StoreSealed? && log[i].GateFailed?
    ensures Sum(log).poisoned
  {
    var pre := log[..|log| - 1];
    if i < |log| - 1 { PoisonedFrom(pre, k, i); }
    else {
      StoredMeansSealed(pre, log[k].h);
      assert pre[k] == log[k];
    }
  }

  // ---- the same, said of the log alone ----

  /** Output validation passed before event `i`, with nothing but slot seals in between. */
  ghost predicate JustValidated(log: seq<Event>, i: nat)
    requires i <= |log|
  {
    exists k | 0 <= k < i :: log[k].Validated? && forall j | k < j < i :: log[j].SlotSealed?
  }

  /** A slot is sealed VALID only after this attempt published that output itself and output
      validation passed. */
  ghost predicate ValidIsEarned(log: seq<Event>)
  {
    forall i | 0 <= i < |log| && log[i].SlotSealed? && log[i].valid ::
      StoreSealed(log[i].h) in log[..i] && JustValidated(log, i)
  }

  /** Success is reported only after a passed validation, and by then every slot that was opened
      is sealed, unless a slot call raised. */
  ghost predicate SealedBeforeDone(outputs: seq<Hid>, log: seq<Event>)
  {
    forall i | 0 <= i < |log| && log[i] == DoneCalled(true) ::
      && JustValidated(log, i)
      && (OpenRaised !in log[..i] && SlotRaised !in log[..i] ==> forall h | h in outputs :: OpenCount(log[..i], h) == 0)
  }

  /** Once a pass has published an output and failed the gate, nothing is sealed VALID again. */
  predicate NothingValidAfterPoison(log: seq<Event>)
  {
    forall k, i, j | 0 <= k < i < j < |log| && log[k].StoreSealed? && log[i].GateFailed? ::
      !(log[j].SlotSealed? && log[j].valid)
  }

  lemma CheckedIsValidated(log: seq<Event>, i: nat)
    requires i <= |log| && Sum(log[..i]).checked
    ensures JustValidated(log, i)
  {
    var k := CheckedMeansValidated(log[..i]);
    assert log[k].Validated?;
    forall j | k < j < i ensures log[j].SlotSealed? { assert log[j] == log[..i][j]; }
  }

  lemma LawfulEarns(outputs: seq<Hid>, log: seq<Event>)
    requires Lawful(outputs, log)
    ensures ValidIsEarned(log)
  {
    forall i | 0 <= i < |log| && log[i].SlotSealed? && log[i].valid
      ensures StoreSealed(log[i].h) in log[..i] && JustValidated(log, i)
    {
      StoredMeansSealed(log[..i], log[i].h);
      CheckedIsValidated(log, i);
    }
  }

  lemma LawfulSeals(outputs: seq<Hid>, log: seq<Event>)
    requires Lawful(outputs, log)
    ensures SealedBeforeDone(outputs, log)
  {
    forall i | 0 <= i < |log| && log[i] == DoneCalled(true)
      ensures JustValidated(log, i)
      ensures OpenRaised !in log[..i] && SlotRaised !in log[..i] ==>
        forall h | h in outputs :: OpenCount(log[..i], h) == 0
    {
      CheckedIsValidated(log, i);
      RaisedMeansLogged(log[..i]);
      LawfulPrefix(outputs, log, i);
      forall h | h in outputs && h !in Sum(log[..i]).open ensures OpenCount(log[..i], h) == 0 {
        SealedAtMostOnce(outputs, log[..i], h);
      }
    }
  }

  lemma LawfulPoison(outputs: seq<Hid>, log: seq<Event>)
    requires Lawful(outputs, log)
    ensures NothingValidAfterPoison(log)
  {
    forall k, i, j | 0 <= k < i < j < |log| && log[k].StoreSealed? && log[i].GateFailed?
      ensures !(log[j].SlotSealed? && log[j].valid)
    {
      PoisonedFrom(log[..j], k, i);
    }
  }

  // ---- what one thread did ----

  /** An exception that leaves `run`'s `try`, or one on the way out. */
  predicate IsRaise(e: Event) { e.Raised? || e.OpenRaised? || e.SlotRaised? || e.DoneRaised? }

  /** How far a thread has come: at work; leaving by a phase that ended or a halt; an exception on its
      way, and then reported; in the `finally`; or against the rules. */
  datatype Course = Calm | Leaving | Broke | Told | Over | Wrong

  function NextCourse(c: Course, inPhase: bool, e: Event): (d: Course)
  {
    match c
    case Calm =>
      if IsRaise(e) then Broke
      else if e.HaltSeen? || (e.PhaseEnded? && inPhase) then Leaving
      else if e.PhaseEnded? || e.Finally? || e == DoneCalled(false) then Wrong
      else Calm
    case Broke => if e == DoneCalled(false) then Told else Wrong
    case Leaving => if e.Finally? then Over else Wrong
    case Told => if e.Finally? then Over else Wrong
    case Over => if e.SlotSealed? || e.SlotRaised? then Over else Wrong
    case Wrong => Wrong
  }

  /** Of the events of one thread: were all slots opened, did closing one raise, how often was
      `on_done` called, did its success call raise, did output validation pass, was success
      reported, has a phase begun, and how far did it come? */
  datatype Tally = Tally(
    complete: bool,
    slotRaised: bool,
    dones: nat,
    doneRaised: bool,
    validated: bool,
    succeeded: bool,
    inPhase: bool,
    course: Course)

  const FRESH := Tally(false, false, 0, false, false, false, false, Calm)

  function Plus(t: Tally, e: Event): (u: Tally)
  {
    Tally(
      t.complete || e.AllOpened?,
      t.slotRaised || e.SlotRaised?,
      t.dones + (if e.DoneCalled? then 1 else 0),
      t.doneRaised || e.DoneRaised?,
      t.validated || e.Validated?,
      t.succeeded || e == DoneCalled(true),
      t.inPhase || e.Phase?,
      NextCourse(t.course, t.inPhase, e))
  }

  function Count(mine: seq<Event>): (t: Tally)
  {
    if mine == [] then FRESH else Plus(Count(mine[..|mine| - 1]), mine[|mine| - 1])
  }

  function DoneCount(mine: seq<Event>): (n: nat)
  {
    if mine == [] then 0 else DoneCount(mine[..|mine| - 1]) + (if mine[|mine| - 1].DoneCalled? then 1 else 0)
  }

  lemma {:induction false} CountMeans(mine: seq<Event>)
    ensures var t := Count(mine);
      && (t.complete <==> AllOpened in mine) && (t.slotRaised <==> SlotRaised in mine)
      && t.dones == DoneCount(mine) && (t.doneRaised <==> DoneRaised in mine)
      && (t.validated <==> Validated in mine) && (t.succeeded <==> DoneCalled(true) in mine)
  {
    if mine != [] {
      CountMeans(mine[..|mine| - 1]);
      assert mine == mine[..|mine| - 1] + [mine[|mine| - 1]];
    }
  }

  /** Up to `n`, nothing but work: no exception, no report of failure, no `finally`. */
  predicate CalmUpTo(mine: seq<Event>, n: int)
    requires n <= |mine|
  {
    forall i | 0 <= i < n :: !IsRaise(mine[i]) && mine[i] != DoneCalled(false) && !mine[i].Finally?
  }

  /** The course of a thread that has ended, with its `finally` at `f`: work; then a phase that ended or
      a halt seen, or else an exception and right after it the report of failure; then the
      `finally`, and in it slot seals at most. */
  predicate EndsAt(mine: seq<Event>, f: int)
  {
    && 0 < f < |mine| && mine[f].Finally?
    && (forall i | f < i < |mine| :: mine[i].SlotSealed? || mine[i].SlotRaised?)
    && (|| ((mine[f - 1].PhaseEnded? || mine[f - 1].HaltSeen?) && CalmUpTo(mine, f - 1))
        || (f > 1 && mine[f - 1] == DoneCalled(false) && IsRaise(mine[f - 2]) && CalmUpTo(mine, f - 2)))
  }

  lemma {:induction false} CalmMeans(mine: seq<Event>)
    requires Count(mine).course.Calm?
    ensures CalmUpTo(mine, |mine|)
  {
    if mine != [] { CalmMeans(mine[..|mine| - 1]); }
  }

  lemma LeavingMeans(mine: seq<Event>)
    requires Count(mine).course.Leaving?
    ensures mine != [] && (mine[|mine| - 1].PhaseEnded? || mine[|mine| - 1].HaltSeen?) && CalmUpTo(mine, |mine| - 1)
  {
    var pre := mine[..|mine| - 1];
    CalmMeans(pre);
    assert forall i | 0 <= i < |pre| :: mine[i] == pre[i];
  }

  lemma BrokeMeans(mine: seq<Event>)
    requires Count(mine).course.Broke?
    ensures mine != [] && IsRaise(mine[|mine| - 1]) && CalmUpTo(mine, |mine| - 1)
  {
    var pre := mine[..|mine| - 1];
    CalmMeans(pre);
    assert forall i | 0 <= i < |pre| :: mine[i] == pre[i];
  }

  lemma ToldMeans(mine: seq<Event>)
    requires Count(mine).course.Told?
    ensures |mine| > 1 && mine[|mine| - 1] == DoneCalled(false)
    ensures IsRaise(mine[|mine| - 2]) && CalmUpTo(mine, |mine| - 2)
  {
    var pre := mine[..|mine| - 1];
    BrokeMeans(pre);
    assert forall i | 0 <= i < |pre| :: mine[i] == pre[i];
  }

  lemma {:induction false} OverMeans(mine: seq<Event>) returns (f: nat)
    requires Count(mine).course.Over?
    ensures EndsAt(mine, f)
  {
    var pre := mine[..|mine| - 1];
    assert mine != [] ==> forall i | 0 <= i < |pre| :: mine[i] == pre[i];
    if Count(pre).course.Over? { f := OverMeans(pre); }
    else {
      f := |mine| - 1;
      if Count(pre).course.Leaving? { LeavingMeans(pre); } else { ToldMeans(pre); }
    }
  }

  /** In a thread that ended, failure was reported exactly when an exception was raised at work. */
  lemma TellsFailure(mine: seq<Event>, f: int)
    requires EndsAt(mine, f)
    ensures DoneCalled(false) in mine <==> exists i | 0 <= i < f :: IsRaise(mine[i])
  {
    if mine[f - 1] == DoneCalled(false) {
      assert DoneCalled(false) in mine && IsRaise(mine[f - 2]);
    } else {
      assert forall i | 0 <= i < |mine| :: mine[i] != DoneCalled(false);
      assert forall i | 0 <= i < f :: !IsRaise(mine[i]);
    }
  }

  /** The log, split where the running thread began, with both summaries. */
  datatype Book = Book(before: seq<Event>, mine: seq<Event>, sum: Summary, tally: Tally)

  function Log(b: Book): (log: seq<Event>) { b.before + b.mine }

  /** Event `i` was allowed by what came before it; after the last, the summaries are the log's. */
  ghost predicate Accounted(outputs: seq<Hid>, b: Book, i: int)
  {
    var log := Log(b);
    && (0 <= i < |log| ==> MayFollow(outputs, Sum(log[..i]), log[i]))
    && (i == |log| ==> b.sum == Sum(log) && b.tally == Count(b.mine))
  }

  ghost predicate BookOk(outputs: seq<Hid>, b: Book)
  {
    forall i {:trigger Accounted(outputs, b, i)} :: Accounted(outputs, b, i)
  }

  lemma BookMeans(outputs: seq<Hid>, b: Book)
    requires BookOk(outputs, b)
    ensures Lawful(outputs, Log(b)) && b.sum == Sum(Log(b)) && b.tally == Count(b.mine)
  {
    forall i | 0 <= i < |Log(b)| ensures MayFollow(outputs, Sum(Log(b)[..i]), Log(b)[i]) {
      assert Accounted(outputs, b, i);
    }
    assert Accounted(outputs, b, |Log(b)|);
  }

  function Noted(b: Book, e: Event): (c: Book)
  {
    Book(b.before, b.mine + [e], After(b.sum, e), Plus(b.tally, e))
  }

  lemma NotedOk(outputs: seq<Hid>, b: Book, e: Event)
    requires BookOk(outputs, b) && MayFollow(outputs, b.sum, e)
    ensures BookOk(outputs, Noted(b, e)) && Log(Noted(b, e)) == Log(b) + [e]
  {
    var c, log := Noted(b, e), Log(b);
    BookMeans(outputs, b);
    assert Log(c) == log + [e];
    assert (log + [e])[..|log|] == log && (b.mine + [e])[..|b.mine|] == b.mine;
    forall i ensures Accounted(outputs, c, i) {
      if 0 <= i < |log| { assert (log + [e])[..i] == log[..i]; }
    }
  }

  /** A new thread: what came before is history. */
  function Turned(b: Book): (c: Book) { Book(Log(b), [], b.sum, FRESH) }

  lemma TurnedOk(outputs: seq<Hid>, b: Book)
    requires BookOk(outputs, b)
    ensures BookOk(outputs, Turned(b)) && Log(Turned(b)) == Log(b)
  {
    assert Log(b) + [] == Log(b);
    BookMeans(outputs, b);
    forall i ensures Accounted(outputs, Turned(b), i) { assert Accounted(outputs, b, i); }
  }

  /** `b` is `a` with `e` written into it. */
  predicate Wrote(a: Book, b: Book, e: Event) { b.before == a.before && b.mine == a.mine + [e] }

  predicate SameThread(a: Book, b: Book) { b.before == a.before && a.mine <= b.mine }

  /** What an exception does to a thread's course. */
  function Thrown(c: Course): (d: Course) { if c.Over? then Over else Broke }

  /** `on_done` was called at most once; and if an exception is on its way, not yet, unless the
      report of success raised it. */
  predicate Reported(b: Book, threw: bool)
  {
    b.tally.dones <= 1 && (threw && b.tally.dones == 1 ==> b.tally.doneRaised)
  }

  predicate Last(b: Book, e: Event) { b.mine != [] && b.mine[|b.mine| - 1] == e }
}

/**
 The attempt itself.  Everything outside it is arbitrary: the task's status, what the
 body, the store, the gate, the validators and the monitor answer and whether a call
 raises are parameters, and a `halt` may come at any moment.
 */
module TaskAttempts {
  import opened Order
  import opened AttemptLog

  datatype Slot = Created | Generating | Sealed(valid: bool)

  /** What `store.seal` comes to for a version not yet published. */
  datatype Reply = Publishes | Refuses | Raises

  function ReplyFor(replies: map<Hid, Reply>, h: Hid): (r: Reply) { if h in replies then replies[h] else Refuses }

  /** What one pass of the body meets. */
  datatype Pass = Pass(
    bodyRaises: bool,
    replies: map<Hid, Reply>,
    gateRaises: bool,
    gatePasses: bool,
    reportRaises: bool)

  /** What one phase meets: the status it finds, the validation, the slots whose `persist` raises,
      `on_done`, and in `_main` the deployment and the passes. */
  datatype Answers = Answers(
    status: Status,
    raises: bool,
    passes: bool,
    bad: set<Hid>,
    doneRaises: bool,
    deployRaises: bool,
    body: seq<Pass>)

  /** What a phase finds: the store, the slots, and whether the attempt holds them. */
  datatype Held = Held(published: set<Hid>, slots: map<Hid, Slot>, open: bool)

  /** How a step of the attempt ends: with a value, by raising, or not yet. */
  datatype Flow = Went(onward: bool) | Threw | StillParked

  /** How many slots a closing loop gets through when `persist` raises for the slots in `bad`. */
  function SealedCount(outputs: seq<Hid>, bad: set<Hid>): (n: nat)
    ensures n <= |outputs|
  {
    if outputs == [] then 0 else if outputs[0] in bad then 1 else 1 + SealedCount(outputs[1..], bad)
  }

  predicate NoneOf(hs: seq<Hid>, bad: set<Hid>) { forall h | h in hs :: h !in bad }

  lemma NoneOfThen(hs: seq<Hid>, i: nat, bad: set<Hid>)
    requires i < |hs|
    ensures NoneOf(hs[..i + 1], bad) <==> NoneOf(hs[..i], bad) && hs[i] !in bad
    ensures hs[i] in bad ==> !NoneOf(hs, bad)
  {
    assert hs[..i + 1] == hs[..i] + [hs[i]] && hs[i] in hs;
  }

  /** The first slot whose `persist` raises is the last one closed. */
  lemma {:induction false} CountAt(outputs: seq<Hid>, bad: set<Hid>, i: nat)
    requires i <= |outputs| && NoneOf(outputs[..i], bad) && (i < |outputs| ==> outputs[i] in bad)
    ensures SealedCount(outputs, bad) == if i < |outputs| then i + 1 else i
  {
    if i > 0 {
      assert outputs[..i][0] == outputs[0] && outputs[0] in outputs[..i];
      assert forall h | h in outputs[1..][..i - 1] :: h in outputs[..i];
      CountAt(outputs[1..], bad, i - 1);
    }
  }

  /** Every slot is closed exactly when no `persist` but the last raises. */
  lemma {:induction false} AllSealedExactly(outputs: seq<Hid>, bad: set<Hid>)
    ensures SealedCount(outputs, bad) == |outputs| <==> forall i | 0 <= i < |outputs| - 1 :: outputs[i] !in bad
  {
    if |outputs| > 1 {
      AllSealedExactly(outputs[1..], bad);
      if SealedCount(outputs, bad) == |outputs| {
        forall i | 0 <= i < |outputs| - 1 ensures outputs[i] !in bad {
          if i > 0 { assert outputs[i] == outputs[1..][i - 1]; }
        }
      } else if outputs[0] !in bad {
        var i :| 0 <= i < |outputs[1..]| - 1 && outputs[1..][i] in bad;
        assert outputs[i + 1] in bad;
      }
    }
  }

  /** The slots in `hs` are closed, VALID for the ones in `valid`. */
  predicate AreSealed(slots: map<Hid, Slot>, hs: seq<Hid>, valid: set<Hid>)
  {
    forall h | h in hs :: h in slots && slots[h] == Sealed(h in valid)
  }

  function Left(open: set<Hid>, hs: seq<Hid>): (r: set<Hid>) { set h | h in open && h !in hs }

  lemma OneLess(open: set<Hid>, hs: seq<Hid>, k: nat)
    requires k < |hs| && Distinct(hs) && forall h | h in hs :: h in open
    ensures hs[..k + 1] == hs[..k] + [hs[k]]
    ensures hs[k] in Left(open, hs[..k]) && Left(open, hs[..k]) - {hs[k]} == Left(open, hs[..k + 1])
  {
    assert hs[..k + 1] == hs[..k] + [hs[k]] && hs[k] in hs;
  }

  /** Slots `hs[..n]` were closed, the others not. */
  ghost predicate Closed(slots: map<Hid, Slot>, open: set<Hid>, hs: seq<Hid>, valid: set<Hid>, n: nat)
  {
    && (forall i | 0 <= i < n && i < |hs| :: hs[i] in slots && slots[hs[i]] == Sealed(hs[i] in valid))
    && (forall i | 0 <= i < |hs| :: hs[i] in open <==> n <= i)
  }

  lemma ClosedMeans(slots: map<Hid, Slot>, open: set<Hid>, hs: seq<Hid>, valid: set<Hid>, k: nat)
    requires k <= |hs| && Distinct(hs) && forall h | h in hs :: h in open
    requires AreSealed(slots, hs[..k], valid)
    ensures Closed(slots, Left(open, hs[..k]), hs, valid, k)
  {
    forall i | 0 <= i < |hs| ensures hs[i] in Left(open, hs[..k]) <==> k <= i {
      assert hs[i] in hs;
      if i < k { assert hs[..k][i] == hs[i]; }
    }
    forall i | 0 <= i < k ensures hs[i] in slots && slots[hs[i]] == Sealed(hs[i] in valid) {
      assert hs[..k][i] == hs[i];
    }
  }

  /** The closing loop stopped after `n` slots, by a raise or at the end. */
  ghost predicate StopsAt(hs: seq<Hid>, bad: set<Hid>, threw: bool, n: nat)
  {
    if threw then 0 < n <= |hs| && hs[n - 1] in bad && NoneOf(hs[..n - 1], bad) else n == |hs| && NoneOf(hs, bad)
  }

  lemma StopsMeans(hs: seq<Hid>, bad: set<Hid>, threw: bool, n: nat)
    requires StopsAt(hs, bad, threw, n)
    ensures n == SealedCount(hs, bad) && (threw <==> !NoneOf(hs, bad)) && (!threw ==> n == |hs|)
  {
    if threw {
      assert hs[n - 1] in hs;
      CountAt(hs, bad, n - 1);
    } else {
      assert hs[..n] == hs;
      CountAt(hs, bad, n);
    }
  }

  function Opening(slots: map<Hid, Slot>, hs: seq<Hid>): (r: map<Hid, Slot>)
  {
    map h | h in slots :: if h in hs then Generating else slots[h]
  }

  lemma OpeningOne(slots: map<Hid, Slot>, hs: seq<Hid>, k: nat)
    requires k < |hs|
    ensures hs[..k + 1] == hs[..k] + [hs[k]]
    ensures hs[k] in slots ==> Opening(slots, hs[..k])[hs[k] := Generating] == Opening(slots, hs[..k + 1])
  {
    assert hs[..k + 1] == hs[..k] + [hs[k]];
  }

  /** The outputs in `hs` that are pinned and that the store takes. */
  ghost function Taken(hs: seq<Hid>, pinned: set<Hid>, replies: map<Hid, Reply>): (t: set<Hid>)
  {
    set h | h in hs && h in pinned && ReplyFor(replies, h).Publishes?
  }

  lemma TakenStep(hs: seq<Hid>, k: nat, pinned: set<Hid>, replies: map<Hid, Reply>)
    requires k < |hs|
    ensures hs[k] in hs && hs[..k + 1] == hs[..k] + [hs[k]]
    ensures hs[k] in pinned ==>
      (hs[k] in Taken(hs[..k], pinned, replies) <==> hs[k] in hs[..k] && ReplyFor(replies, hs[k]).Publishes?)
    ensures Taken(hs[..k + 1], pinned, replies) == Taken(hs[..k], pinned, replies) +
      if hs[k] in pinned && ReplyFor(replies, hs[k]).Publishes? then {hs[k]} else {}
  {
    assert hs[..k + 1] == hs[..k] + [hs[k]];
  }

  class TaskAttempt {
    const outputs: seq<Hid>
    const pinned: set<Hid>     // outputs with a version in `Execution.output_versions`
    const hasSubgraph: bool
    const hasStore: bool
    const hasMgr: bool

    var halted: bool
    var modelOpen: bool
    var storeSealed: set<Hid>

    var published: set<Hid>    // the store: pinned versions that carry a manifest
    var slots: map<Hid, Slot>  // the handoff manager: status of each slot's latest version
    ghost var book: Book       // what the attempt did

    constructor (outputs: seq<Hid>, pinned: set<Hid>, hasSubgraph: bool, hasStore: bool, hasMgr: bool,
                 published: set<Hid>, slots: map<Hid, Slot>)
      ensures Valid() && Log(book) == [] && !modelOpen
    {
      this.outputs, this.pinned := outputs, pinned;
      this.hasSubgraph, this.hasStore, this.hasMgr := hasSubgraph, hasStore, hasMgr;
      this.published, this.slots := published, slots;
      halted, modelOpen, storeSealed := false, false, {};
      book := Book([], [], NOTHING, FRESH);
      new;
      forall i ensures Accounted(outputs, book, i) {}
    }

    /** Everything but which slots are open. */
    ghost predicate Sound()
      reads this
    {
      && BookOk(outputs, book)
      && book.sum.stored == storeSealed
      && (book.sum.poisoned ==> storeSealed != {})
      && (forall h | h in storeSealed :: h in published && h in pinned && h in outputs && hasStore)
      && (forall h | h in book.sum.open :: h in slots && slots[h].Generating?)
    }

    /** The slots are held, or this thread has nothing open that it should have closed: no slot
        call ever raised, or it opened them all and no closing raised. */
    ghost predicate Valid()
      reads this
    {
      && Sound()
      && (modelOpen ==> hasMgr && Distinct(outputs) && forall h | h in outputs :: h in book.sum.open)
      && (!modelOpen && (!book.sum.raised || (book.tally.complete && !book.tally.slotRaised)) ==>
            forall h | h in outputs :: h !in book.sum.open)
    }

    /** The thread is at work and has told nobody anything yet. */
    ghost predicate AtWork()
      reads this
    {
      && book.tally.course.Calm? && book.tally.dones == 0 && !book.tally.validated
      && (modelOpen ==> !book.sum.poisoned) && (book.tally.complete ==> modelOpen)
    }

    ghost method Note(e: Event)
      requires BookOk(outputs, book) && MayFollow(outputs, book.sum, e)
      modifies `book
      ensures BookOk(outputs, book) && book == Noted(old(book), e)
    {
      NotedOk(outputs, book, e);
      book := Noted(book, e);
    }

    // ---- one event in the book ----

    ghost method NoteRaise(e: Event)
      requires BookOk(outputs, book) && IsRaise(e)
      requires book.tally.course.Calm? || (book.tally.course.Over? && e.SlotRaised?)
      modifies `book
      ensures BookOk(outputs, book) && Wrote(old(book), book, e)
      ensures book.sum == old(book.sum).(checked := false,
                                         raised := old(book.sum.raised) || e.OpenRaised? || e.SlotRaised?)
      ensures book.tally == old(book.tally).(course := Thrown(old(book.tally.course)),
                                             slotRaised := old(book.tally.slotRaised) || e.SlotRaised?,
                                             doneRaised := old(book.tally.doneRaised) || e.DoneRaised?)
      ensures old(Valid()) && (e.Raised? || e.DoneRaised?) ==> Valid()
    {
      Note(e);
    }

    ghost method NotePlain(e: Event)
      requires BookOk(outputs, book) && book.tally.course.Calm?
      requires e.Phase? || e.AllOpened? || e.BodyRan? || e.GatePassed?
      modifies `book
      ensures BookOk(outputs, book) && Wrote(old(book), book, e) && book.sum == old(book.sum).(checked := false)
      ensures book.tally == old(book.tally).(complete := old(book.tally.complete) || e.AllOpened?,
                                             inPhase := old(book.tally.inPhase) || e.Phase?)
      ensures old(Valid()) && (e.AllOpened? ==> modelOpen) ==> Valid()
    {
      Note(e);
    }

    ghost method NoteGateFailed()
      requires BookOk(outputs, book) && book.tally.course.Calm?
      modifies `book
      ensures BookOk(outputs, book) && Wrote(old(book), book, GateFailed) && book.tally == old(book.tally)
      ensures book.sum == old(book.sum).(checked := false,
                                         poisoned := old(book.sum.poisoned) || old(book.sum.stored) != {})
      ensures old(Valid()) ==> Valid()
    {
      Note(GateFailed);
    }

    ghost method NoteOpened(h: Hid)
      requires BookOk(outputs, book) && book.tally.course.Calm? && h !in book.sum.open
      modifies `book
      ensures BookOk(outputs, book) && Wrote(old(book), book, Opened(h)) && book.tally == old(book.tally)
      ensures book.sum == old(book.sum).(checked := false, open := old(book.sum.open) + {h})
    {
      Note(Opened(h));
    }

    ghost method NoteStored(h: Hid)
      requires BookOk(outputs, book) && book.tally.course.Calm? && h !in book.sum.stored
      modifies `book
      ensures BookOk(outputs, book) && Wrote(old(book), book, StoreSealed(h)) && book.tally == old(book.tally)
      ensures book.sum == old(book.sum).(checked := false, stored := old(book.sum.stored) + {h})
    {
      Note(StoreSealed(h));
    }

    ghost method NoteSealed(h: Hid, valid: bool)
      requires BookOk(outputs, book) && (book.tally.course.Calm? || book.tally.course.Over?)
      requires MayFollow(outputs, book.sum, SlotSealed(h, valid))
      modifies `book
      ensures BookOk(outputs, book) && Wrote(old(book), book, SlotSealed(h, valid)) && book.tally == old(book.tally)
      ensures book.sum == old(book.sum).(open := old(book.sum.open) - {h})
    {
      Note(SlotSealed(h, valid));
    }

    ghost method NoteValidated()
      requires BookOk(outputs, book) && book.tally.course.Calm?
      modifies `book
      ensures BookOk(outputs, book) && Wrote(old(book), book, Validated)
      ensures book.sum == old(book.sum).(checked := true) && book.tally == old(book.tally).(validated := true)
      ensures old(Valid()) ==> Valid()
    {
      Note(Validated);
    }

    ghost method NoteDone(ok: bool)
      requires BookOk(outputs, book) && MayFollow(outputs, book.sum, DoneCalled(ok))
      requires if ok then book.tally.course.Calm? else book.tally.course.Broke?
      modifies `book
      ensures BookOk(outputs, book) && Wrote(old(book), book, DoneCalled(ok))
      ensures book.sum == old(book.sum).(checked := false)
      ensures book.tally == old(book.tally).(dones := old(book.tally.dones) + 1, course := if ok then Calm else Told,
                                             succeeded := old(book.tally.succeeded) || ok)
      ensures old(Valid()) ==> Valid()
    {
      Note(DoneCalled(ok));
    }

    ghost method NoteEnd(e: Event)
      requires BookOk(outputs, book)
      requires || (e.HaltSeen? && book.tally.course.Calm?)
               || (e.PhaseEnded? && book.tally.course.Calm? && book.tally.inPhase)
               || (e.Finally? && (book.tally.course.Leaving? || book.tally.course.Told?))
      modifies `book
      ensures BookOk(outputs, book) && Wrote(old(book), book, e) && book.sum == old(book.sum).(checked := false)
      ensures book.tally == old(book.tally).(course := if e.Finally? then Over else Leaving)
      ensures old(Valid()) ==> Valid()
    {
      Note(e);
    }

    ghost function Now(): (held: Held)
      reads this
    {
      Held(published, slots, modelOpen)
    }

    // ---- the attempt's own methods ----

    /** A `halt` may have come. */
    method Halts()
      modifies `halted
      ensures old(halted) ==> halted
    {
      var stopped: bool := *;
      halted := halted || stopped;
    }

    /** `mgr.get(hid).latest.seal(status)` and `mgr.persist(hid)` */
    method SealSlot(h: Hid, valid: bool, raises: bool)
      requires Sound() && MayFollow(outputs, book.sum, SlotSealed(h, valid))
      requires book.tally.course.Calm? || book.tally.course.Over?
      modifies `slots, `book
      ensures Sound() && slots == old(slots)[h := Sealed(valid)] && SameThread(old(book), book)
      ensures book.sum.open == old(book.sum.open) - {h} && book.sum.poisoned == old(book.sum.poisoned)
      ensures if raises then Last(book, SlotRaised) && book.sum.raised
        else book.sum == old(book.sum).(open := old(book.sum.open) - {h})
      ensures book.tally == if raises
        then old(book.tally).(slotRaised := true, course := Thrown(old(book.tally.course))) else old(book.tally)
    {
      slots := slots[h := Sealed(valid)];
      NoteSealed(h, valid);
      if raises { NoteRaise(SlotRaised); }
    }

    /** One turn of the loop in `_seal_model_versions`. */
    method SealNext(k: nat, passed: bool, raises: bool, ghost was: set<Hid>, ghost valid: set<Hid>)
      requires Sound() && (book.tally.course.Calm? || book.tally.course.Over?)
      requires k < |outputs| && Distinct(outputs) && forall h | h in outputs :: h in was
      requires book.sum.open == Left(was, outputs[..k]) && AreSealed(slots, outputs[..k], valid)
      requires valid == (if passed then storeSealed else {}) && (passed ==> book.sum.checked && !book.sum.poisoned)
      modifies `slots, `book
      ensures Sound() && SameThread(old(book), book) && book.sum.poisoned == old(book.sum.poisoned)
      ensures book.sum.open == Left(was, outputs[..k + 1]) && AreSealed(slots, outputs[..k + 1], valid)
      ensures if raises then Last(book, SlotRaised) && book.sum.raised
        else book.sum == old(book.sum).(open := book.sum.open)
      ensures book.tally == if raises
        then old(book.tally).(slotRaised := true, course := Thrown(old(book.tally.course))) else old(book.tally)
    {
      OneLess(was, outputs, k);
      SealSlot(outputs[k], passed && outputs[k] in storeSealed, raises);
    }

    /** The loop of `_seal_model_versions`.  `bad` are the slots whose `persist` raises. */
    method SealSlots(passed: bool, bad: set<Hid>) returns (threw: bool, sealed: nat)
      requires Sound() && (book.tally.course.Calm? || book.tally.course.Over?)
      requires Distinct(outputs) && forall h | h in outputs :: h in book.sum.open
      requires passed ==> book.sum.checked && !book.sum.poisoned
      modifies `slots, `book
      ensures Sound() && SameThread(old(book), book) && book.sum.poisoned == old(book.sum.poisoned)
      ensures if threw then Last(book, SlotRaised) && book.sum.raised else
        book.sum.checked == old(book.sum.checked) && book.sum.raised == old(book.sum.raised)
      ensures book.tally == if threw
        then old(book.tally).(slotRaised := true, course := Thrown(old(book.tally.course))) else old(book.tally)
      ensures StopsAt(outputs, bad, threw, sealed) && sealed <= |outputs|
      ensures AreSealed(slots, outputs[..sealed], if passed then storeSealed else {})
      ensures book.sum.open == Left(old(book.sum.open), outputs[..sealed])
    {
      threw, sealed := false, 0;
      ghost var valid := if passed then storeSealed else {};
      while sealed < |outputs|
        invariant 0 <= sealed <= |outputs| && Sound() && SameThread(old(book), book)
        invariant book.sum == old(book.sum).(open := book.sum.open) && book.tally == old(book.tally)
        invariant AreSealed(slots, outputs[..sealed], valid)
        invariant book.sum.open == Left(old(book.sum.open), outputs[..sealed])
        invariant NoneOf(outputs[..sealed], bad)
      {
        NoneOfThen(outputs, sealed, bad);
        SealNext(sealed, passed, outputs[sealed] in bad, old(book.sum.open), valid);
        sealed := sealed + 1;
        if outputs[sealed - 1] in bad { return true, sealed; }
      }
      assert outputs[..sealed] == outputs;
    }

    /** What the loop has come to. */
    method CloseSlots(passed: bool, bad: set<Hid>) returns (threw: bool, sealed: nat)
      requires Sound() && (book.tally.course.Calm? || book.tally.course.Over?)
      requires Distinct(outputs) && forall h | h in outputs :: h in book.sum.open
      requires passed ==> book.sum.checked && !book.sum.poisoned
      modifies `slots, `book
      ensures Sound() && SameThread(old(book), book) && book.sum.poisoned == old(book.sum.poisoned)
      ensures if threw then Last(book, SlotRaised) && book.sum.raised else
        book.sum.checked == old(book.sum.checked) && book.sum.raised == old(book.sum.raised)
      ensures book.tally == if threw
        then old(book.tally).(slotRaised := true, course := Thrown(old(book.tally.course))) else old(book.tally)
      ensures sealed == SealedCount(outputs, bad) && (!threw ==> sealed == |outputs|)
      ensures threw <==> !NoneOf(outputs, bad)
      ensures Closed(slots, book.sum.open, outputs, if passed then storeSealed else {}, sealed)
    {
      threw, sealed := SealSlots(passed, bad);
      StopsMeans(outputs, bad, threw, sealed);
      ClosedMeans(slots, old(book.sum.open), outputs, if passed then storeSealed else {}, sealed);
    }

    /** `_seal_model_versions`: closes every slot, VALID where earned.  A `persist` that raises leaves
        exactly the slots after it open, since the attempt has already let go of them. */
    method SealModelVersions(passed: bool, bad: set<Hid>) returns (threw: bool, sealed: nat)
      requires Valid() && (book.tally.course.Calm? || book.tally.course.Over?)
      requires passed ==> book.sum.checked && (modelOpen ==> !book.sum.poisoned)
      modifies `modelOpen, `slots, `book
      ensures Valid() && !modelOpen && SameThread(old(book), book) && book.sum.poisoned == old(book.sum.poisoned)
      ensures if threw then Last(book, SlotRaised) else
        book.sum.checked == old(book.sum.checked) && book.sum.raised == old(book.sum.raised)
      ensures book.tally == if threw
        then old(book.tally).(slotRaised := true, course := Thrown(old(book.tally.course))) else old(book.tally)
      ensures sealed <= |outputs| && (threw <==> old(modelOpen) && !NoneOf(outputs, bad))
      ensures old(modelOpen) ==>
        && sealed == SealedCount(outputs, bad) && (!threw ==> sealed == |outputs|)
        && Closed(slots, book.sum.open, outputs, if passed then storeSealed else {}, sealed)
    {
      threw, sealed := false, 0;
      if !hasMgr || !modelOpen { return; }
      modelOpen := false;
      threw, sealed := CloseSlots(passed, bad);
    }

    /** `mgr.get(hid).open_next(...)` on a slot that is not open, and `mgr.persist(hid)` */
    method OpenFree(h: Hid, raises: bool)
      requires Sound() && book.tally.course.Calm? && h in slots && !slots[h].Generating?
      modifies `slots, `book
      ensures Sound() && book.sum.poisoned == old(book.sum.poisoned) && SameThread(old(book), book)
      ensures slots == old(slots)[h := Generating] && book.sum.open == old(book.sum.open) + {h}
      ensures book.sum.raised == (old(book.sum.raised) || raises)
      ensures book.tally == if raises then old(book.tally).(course := Broke) else old(book.tally)
    {
      slots := slots[h := Generating];
      NoteOpened(h);
      if raises { NoteRaise(OpenRaised); }
    }

    /** `open_next`, which raises for a slot that is open, and `persist` */
    method OpenSlot(h: Hid, raises: bool) returns (threw: bool)
      requires Sound() && book.tally.course.Calm?
      modifies `slots, `book
      ensures Sound() && book.sum.poisoned == old(book.sum.poisoned) && SameThread(old(book), book)
      ensures threw <==> old(h !in slots || slots[h].Generating?) || raises
      ensures if threw then book.sum.raised else
        && slots == old(slots)[h := Generating] && book.sum.open == old(book.sum.open) + {h}
        && book.sum.raised == old(book.sum.raised)
      ensures old(book.sum.open) <= book.sum.open
      ensures book.tally == if threw then old(book.tally).(course := Broke) else old(book.tally)
    {
      if h !in slots || slots[h].Generating? {
        NoteRaise(OpenRaised);
        return true;
      }
      OpenFree(h, raises);
      return raises;
    }

    /** `_open_outputs` does not raise at slot number `k`: it is neither missing nor open, nor opened
        by its name earlier in the list, and its `persist` does not raise. */
    ghost predicate OpensAt(slots: map<Hid, Slot>, bad: set<Hid>, k: nat)
      requires k < |outputs|
    {
      var h := outputs[k];
      h in slots && !slots[h].Generating? && h !in bad && h !in outputs[..k]
    }

    ghost predicate Openable(slots: map<Hid, Slot>, bad: set<Hid>)
    {
      forall k | 0 <= k < |outputs| :: OpensAt(slots, bad, k)
    }

    lemma OpenableMeans(slots: map<Hid, Slot>, bad: set<Hid>)
      requires Openable(slots, bad)
      ensures Distinct(outputs)
    {
      forall i, j | 0 <= i < j < |outputs| ensures outputs[i] != outputs[j] {
        assert OpensAt(slots, bad, j) && outputs[..j][i] == outputs[i];
      }
    }

    /** The loop of `_open_outputs`; `bad` are the slots whose `persist` raises. */
    method OpenSlots(bad: set<Hid>) returns (threw: bool)
      requires Sound() && book.tally.course.Calm?
      modifies `slots, `book
      ensures Sound() && SameThread(old(book), book) && book.sum.poisoned == old(book.sum.poisoned)
      ensures book.tally == if threw then old(book.tally).(course := Broke) else old(book.tally)
      ensures threw <==> !Openable(old(slots), bad)
      ensures old(book.sum.open) <= book.sum.open && (threw ==> book.sum.raised)
      ensures !threw ==> slots == Opening(old(slots), outputs) && forall h | h in outputs :: h in book.sum.open
    {
      for k := 0 to |outputs|
        invariant Sound() && book.sum.poisoned == old(book.sum.poisoned) && old(book.sum.open) <= book.sum.open
        invariant SameThread(old(book), book) && book.tally == old(book.tally)
        invariant slots == Opening(old(slots), outputs[..k])
        invariant forall h | h in outputs[..k] :: h in book.sum.open
        invariant forall i | 0 <= i < k :: OpensAt(old(slots), bad, i)
      {
        OpeningOne(old(slots), outputs, k);
        threw := OpenSlot(outputs[k], outputs[k] in bad);
        if threw {
          assert !OpensAt(old(slots), bad, k);
          return;
        }
      }
      assert outputs[..|outputs|] == outputs;
      threw := false;
    }

    /** `_open_outputs` */
    method OpenOutputs(bad: set<Hid>) returns (threw: bool)
      requires Valid() && book.tally.course.Calm? && (book.tally.complete ==> modelOpen)
      modifies `modelOpen, `slots, `book
      ensures Valid() && SameThread(old(book), book) && book.sum.poisoned == old(book.sum.poisoned)
      ensures book.tally == if threw then old(book.tally).(course := Broke)
        else old(book.tally).(complete := old(book.tally.complete) || hasMgr)
      ensures book.tally.complete ==> modelOpen
      ensures threw <==> hasMgr && !Openable(old(slots), bad)
      ensures !threw && hasMgr ==> modelOpen
    {
      threw := false;
      if !hasMgr { return; }
      threw := OpenSlots(bad);
      if threw { return; }
      OpenableMeans(old(slots), bad);
      modelOpen := true;
      NotePlain(AllOpened);
    }

    /** `store.seal(hid, version, ...)`: raises `NotSealable` for a published version. */
    method StoreSeal(h: Hid, reply: Reply) returns (threw: bool)
      requires Sound() && hasStore && h in pinned && h in outputs && book.tally.course.Calm?
      modifies `storeSealed, `published, `book
      ensures Sound() && book.sum.open == old(book.sum.open) && book.sum.raised == old(book.sum.raised)
      ensures book.sum.poisoned == old(book.sum.poisoned) && SameThread(old(book), book)
      ensures book.tally == if threw then old(book.tally).(course := Broke) else old(book.tally)
      ensures threw <==> h in old(published) || reply.Raises?
      ensures storeSealed == old(storeSealed) + (if !threw && reply.Publishes? then {h} else {})
      ensures published == old(published) + (if !threw && reply.Publishes? then {h} else {})
    {
      if h in published || reply.Raises? {
        NoteRaise(Raised);
        return true;
      }
      if reply.Publishes? {
        published, storeSealed := published + {h}, storeSealed + {h};
        NoteStored(h);
      }
      return false;
    }

    /** The store does not raise for output number `k`: it is not pinned, or it is neither published
        already, nor by its name earlier in the list, and the store does not raise by itself. */
    ghost predicate SealsAt(published: set<Hid>, replies: map<Hid, Reply>, k: nat)
      requires k < |outputs|
    {
      var h, r := outputs[k], ReplyFor(replies, outputs[k]);
      h in pinned ==> h !in published && !r.Raises? && (h in outputs[..k] ==> !r.Publishes?)
    }

    ghost predicate Sealable(published: set<Hid>, replies: map<Hid, Reply>)
    {
      forall k | 0 <= k < |outputs| :: SealsAt(published, replies, k)
    }

    /** What is published after `_seal_outputs`. */
    ghost function Sent(was: set<Hid>, replies: map<Hid, Reply>): (now: set<Hid>)
    {
      was + if hasStore then Taken(outputs, pinned, replies) else {}
    }

    /** The loop of `_seal_outputs`. */
    method SealEach(replies: map<Hid, Reply>) returns (threw: bool)
      requires Sound() && hasStore && book.tally.course.Calm?
      modifies `storeSealed, `published, `book
      ensures Sound() && book.sum.open == old(book.sum.open) && book.sum.raised == old(book.sum.raised)
      ensures book.sum.poisoned == old(book.sum.poisoned) && SameThread(old(book), book)
      ensures book.tally == if threw then old(book.tally).(course := Broke) else old(book.tally)
      ensures threw <==> !Sealable(old(published), replies)
      ensures !threw ==> published == old(published) + Taken(outputs, pinned, replies)
      ensures !threw ==> storeSealed == old(storeSealed) + Taken(outputs, pinned, replies)
    {
      threw := false;
      for k := 0 to |outputs|
        invariant Sound() && book.sum.open == old(book.sum.open) && book.sum.raised == old(book.sum.raised)
        invariant book.sum.poisoned == old(book.sum.poisoned)
        invariant book.tally == old(book.tally) && SameThread(old(book), book)
        invariant published == old(published) + Taken(outputs[..k], pinned, replies)
        invariant storeSealed == old(storeSealed) + Taken(outputs[..k], pinned, replies)
        invariant forall i | 0 <= i < k :: SealsAt(old(published), replies, i)
      {
        TakenStep(outputs, k, pinned, replies);
        if outputs[k] in pinned {
          threw := StoreSeal(outputs[k], ReplyFor(replies, outputs[k]));
          if threw {
            assert !SealsAt(old(published), replies, k);
            return;
          }
        }
      }
      assert outputs[..|outputs|] == outputs;
    }

    /** `_seal_outputs`: comes back only if no pinned output was published before it, and then the
        attempt has published exactly those the store took. */
    method SealOutputs(replies: map<Hid, Reply>) returns (threw: bool)
      requires Valid() && book.tally.course.Calm?
      modifies `storeSealed, `published, `book
      ensures Valid() && book.sum.poisoned == old(book.sum.poisoned) && SameThread(old(book), book)
      ensures book.tally == if threw then old(book.tally).(course := Broke) else old(book.tally)
      ensures threw <==> hasStore && !Sealable(old(published), replies)
      ensures !threw ==> published == Sent(old(published), replies)
      ensures !threw && hasStore ==> forall h | h in outputs && h in pinned ::
        h !in old(published) && (h in storeSealed <==> ReplyFor(replies, h).Publishes?)
    {
      threw := false;
      if hasStore {
        threw := SealEach(replies);
        if !threw { SealableMeans(old(published), replies); }
      }
    }

    lemma SealableMeans(was: set<Hid>, replies: map<Hid, Reply>)
      requires Sealable(was, replies)
      ensures forall h | h in outputs && h in pinned :: h !in was
    {
      forall h | h in outputs && h in pinned ensures h !in was {
        var k :| 0 <= k < |outputs| && outputs[k] == h;
        assert SealsAt(was, replies, k);
      }
    }

    /** How a pass goes that finds `was` published. */
    ghost function PassFlow(was: set<Hid>, p: Pass): (f: Flow)
    {
      if p.bodyRaises || (hasStore && !Sealable(was, p.replies)) || p.gateRaises || p.reportRaises then Threw
      else Went(p.gatePasses)
    }

    /** One turn of the loop in `_main`: run the body, publish, ask the gate, report.  It goes on
        only if no earlier pass was poisoned, because `_seal_outputs` after one raises. */
    method OnePass(p: Pass) returns (f: Flow)
      requires Valid() && book.tally.course.Calm?
      modifies `storeSealed, `published, `book
      ensures Valid() && SameThread(old(book), book)
      ensures book.tally == if f == Threw then old(book.tally).(course := Broke) else old(book.tally)
      ensures f == PassFlow(old(published), p)
      ensures f != Threw ==> old(book.mine) + [BodyRan] <= book.mine && published == Sent(old(published), p.replies)
      ensures f != Threw && hasStore ==>
        forall h | h in outputs && h in pinned :: h in storeSealed <==> ReplyFor(p.replies, h).Publishes?
      ensures f == Went(true) ==> !book.sum.poisoned && Last(book, GatePassed)
      ensures f == Went(false) ==> Last(book, GateFailed)
    {
      if p.bodyRaises {
        NoteRaise(Raised);
        return Threw;
      }
      NotePlain(BodyRan);
      f := Deliver(p);
    }

    /** What follows the body in a pass. */
    method Deliver(p: Pass) returns (f: Flow)
      requires Valid() && book.tally.course.Calm?
      modifies `storeSealed, `published, `book
      ensures Valid() && SameThread(old(book), book)
      ensures book.tally == if f == Threw then old(book.tally).(course := Broke) else old(book.tally)
      ensures f == PassFlow(old(published), p.(bodyRaises := false))
      ensures f != Threw ==> published == Sent(old(published), p.replies)
      ensures f != Threw && hasStore ==>
        forall h | h in outputs && h in pinned :: h in storeSealed <==> ReplyFor(p.replies, h).Publishes?
      ensures f == Went(true) ==> !book.sum.poisoned && Last(book, GatePassed)
      ensures f == Went(false) ==> Last(book, GateFailed)
    {
      var threw := SealOutputs(p.replies);
      if threw { return Threw; }
      assert !book.sum.poisoned;
      f := Gate(p.gateRaises, p.gatePasses, p.reportRaises);
    }

    /** The gate, and what is reported of it. */
    method Gate(gateRaises: bool, gatePasses: bool, reportRaises: bool) returns (f: Flow)
      requires Valid() && book.tally.course.Calm?
      modifies `book
      ensures Valid() && SameThread(old(book), book)
      ensures f == if gateRaises || reportRaises then Threw else Went(gatePasses)
      ensures book.tally == if f == Threw then old(book.tally).(course := Broke) else old(book.tally)
      ensures f == Went(true) ==> book.sum.poisoned == old(book.sum.poisoned) && Last(book, GatePassed)
      ensures f == Went(false) ==> Last(book, GateFailed)
    {
      if gateRaises {
        NoteRaise(Raised);
        return Threw;
      }
      if gatePasses { NotePlain(GatePassed); } else { NoteGateFailed(); }
      if reportRaises {
        NoteRaise(Raised);
        return Threw;
      }
      return Went(gatePasses);
    }

    /** What is published after these passes. */
    ghost function SentBy(was: set<Hid>, ps: seq<Pass>): (now: set<Hid>)
    {
      if ps == [] then was else Sent(SentBy(was, ps[..|ps| - 1]), ps[|ps| - 1].replies)
    }

    ghost function FlowAt(was: set<Hid>, ps: seq<Pass>, i: nat): (f: Flow)
      requires i < |ps|
    {
      PassFlow(SentBy(was, ps[..i]), ps[i])
    }

    /** The gate failed each of the first `n` passes. */
    ghost predicate Failed(was: set<Hid>, ps: seq<Pass>, n: nat)
      requires n <= |ps|
    {
      forall i | 0 <= i < n :: FlowAt(was, ps, i) == Went(false)
    }

    lemma OneMorePass(was: set<Hid>, ps: seq<Pass>, n: nat)
      requires n < |ps| && Failed(was, ps, n)
      ensures SentBy(was, ps[..n + 1]) == Sent(SentBy(was, ps[..n]), ps[n].replies)
      ensures FlowAt(was, ps, n) == Went(false) ==> Failed(was, ps, n + 1)
    {
      assert ps[..n + 1][..n] == ps[..n];
    }

    /** The loop of `_main`: pass after pass, parked after each one the gate failed.  As far as it is
        observed the passes are `ps`, and it has come through `used` of them. */
    method Passes(ps: seq<Pass>) returns (f: Flow, used: nat)
      requires Valid() && book.tally.course.Calm?
      modifies `halted, `storeSealed, `published, `book
      ensures Valid() && SameThread(old(book), book) && used <= |ps|
      ensures book.tally == if f == Threw then old(book.tally).(course := Broke) else old(book.tally)
      ensures f == Went(true) ==> !book.sum.poisoned && Last(book, GatePassed)
      ensures f == Threw || f == Went(true) ==>
        used > 0 && FlowAt(old(published), ps, used - 1) == f && Failed(old(published), ps, used - 1)
      ensures f == Went(false) ==> halted && Failed(old(published), ps, used)
      ensures f.StillParked? ==> used == |ps| && Failed(old(published), ps, used)
    {
      used := 0;
      Halts();
      while !halted
        invariant Valid() && SameThread(old(book), book) && used <= |ps| && book.tally == old(book.tally)
        invariant published == SentBy(old(published), ps[..used]) && Failed(old(published), ps, used)
        decreases |ps| - used
      {
        if used == |ps| { return StillParked, used; }
        OneMorePass(old(published), ps, used);
        f := OnePass(ps[used]);
        used := used + 1;
        if f != Went(false) { return; }
        Halts();
      }
      return Went(false), used;
    }

    /** Some pass comes to `f`, and the gate failed those before it. */
    ghost predicate ComesTo(was: set<Hid>, ps: seq<Pass>, f: Flow)
    {
      exists i | 0 <= i < |ps| :: FlowAt(was, ps, i) == f && Failed(was, ps, i)
    }

    /** How `_main` can raise: in the deployment, for a slot, or in a pass that follows failed ones. */
    ghost predicate MainRaises(was: Held, a: Answers)
    {
      && !hasSubgraph
      && (|| a.deployRaises
          || (hasMgr && !Openable(was.slots, a.bad))
          || ComesTo(was.published, a.body, Threw))
    }

    /** `_main`: deploy, open the slots, and the passes.  It gives the thread up only when halted, or
        for a non-leaf. */
    method MainPhase(a: Answers) returns (f: Flow)
      requires Valid() && AtWork()
      modifies this
      ensures Valid() && SameThread(old(book), book)
      ensures book.tally == old(book.tally).(complete := book.tally.complete,
                                             course := if f == Threw then Broke else Calm)
      ensures f == Went(true) ==> AtWork() && (hasMgr ==> modelOpen) && Last(book, GatePassed)
      ensures f == Went(false) ==> halted
      ensures hasSubgraph ==> f == Went(false) && book == old(book) && modelOpen == old(modelOpen)
      ensures f == Threw ==> MainRaises(old(Now()), a)
      ensures f == Went(true) ==> ComesTo(old(published), a.body, f) && !MainRaises(old(Now()), a)
      ensures f.StillParked? ==> Failed(old(published), a.body, |a.body|) && !MainRaises(old(Now()), a)
    {
      if hasSubgraph {
        halted := true;
        return Went(false);
      }
      if a.deployRaises {
        NoteRaise(Raised);
        return Threw;
      }
      var threw := OpenOutputs(a.bad);
      if threw { return Threw; }
      f := Body(a.body);
    }

    /** The passes of `_main`, by what they come to. */
    method Body(ps: seq<Pass>) returns (f: Flow)
      requires Valid() && book.tally.course.Calm?
      modifies `halted, `storeSealed, `published, `book
      ensures Valid() && SameThread(old(book), book)
      ensures book.tally == if f == Threw then old(book.tally).(course := Broke) else old(book.tally)
      ensures f == Went(true) ==> !book.sum.poisoned && Last(book, GatePassed) && !ComesTo(old(published), ps, Threw)
      ensures f == Threw || f == Went(true) ==> ComesTo(old(published), ps, f)
      ensures f == Went(false) ==> halted
      ensures f.StillParked? ==> Failed(old(published), ps, |ps|) && !ComesTo(old(published), ps, Threw)
    {
      var used;
      f, used := Passes(ps);
    }

    /** `_validation`: a report or the runner raises, or the phase passes or does not. */
    method Validation(output: bool, raises: bool, passes: bool) returns (f: Flow)
      requires Valid() && book.tally.course.Calm?
      modifies `book
      ensures Valid() && SameThread(old(book), book) && book.sum.poisoned == old(book.sum.poisoned)
      ensures f == if raises then Threw else Went(passes)
      ensures book.tally == old(book.tally).(course := if raises then Broke else Calm,
                                             validated := old(book.tally.validated) || (!raises && passes && output))
      ensures output && f == Went(true) ==> book.sum.checked
    {
      if raises {
        NoteRaise(Raised);
        return Threw;
      }
      if passes && output { NoteValidated(); }
      return Went(passes);
    }

    /** `_close`: validate, seal the slots, then report success. */
    method Close(raises: bool, passes: bool, bad: set<Hid>, doneRaises: bool) returns (f: Flow)
      requires Valid() && AtWork()
      modifies `modelOpen, `slots, `book
      ensures Valid() && SameThread(old(book), book)
      ensures f == if raises || (old(modelOpen) && !NoneOf(outputs, bad)) || (passes && doneRaises)
        then Threw else Went(false)
      ensures book.tally.course == if f == Threw then Broke else Calm
      ensures book.tally.validated == (!raises && passes)
      ensures f == Went(false) && passes ==> Last(book, DoneCalled(true)) && book.tally.succeeded
      ensures f == Went(false) ==> !modelOpen
      ensures book.tally.inPhase == old(book.tally.inPhase)
      ensures f == Went(false) && old(modelOpen) ==>
        forall h | h in outputs :: h in slots && slots[h] == Sealed(passes && h in storeSealed)
      ensures Reported(book, f == Threw)
    {
      f := Validation(true, raises, passes);
      if raises { return; }
      var threw, _ := SealModelVersions(passes, bad);
      if threw { return Threw; }
      if passes {
        threw := Report(doneRaises);
        if threw { return Threw; }
      }
      return Went(false);
    }

    /** `self.on_done(self.task.id, TaskStatus.SUCCEEDED, ...)` */
    method Report(raises: bool) returns (threw: bool)
      requires Valid() && !modelOpen && book.sum.checked && book.tally.course.Calm?
      modifies `book
      ensures Valid() && SameThread(old(book), book) && threw == raises
      ensures book.tally == old(book.tally).(dones := old(book.tally.dones) + 1, succeeded := true,
                                             doneRaised := old(book.tally.doneRaised) || raises,
                                             course := if raises then Broke else Calm)
      ensures Last(book, if raises then DoneRaised else DoneCalled(true))
    {
      NoteDone(true);
      threw := raises;
      if threw { NoteRaise(DoneRaised); }
    }

    /** How `_close` can raise. */
    ghost predicate CloseRaises(open: bool, a: Answers)
    {
      a.raises || (open && !NoneOf(outputs, a.bad)) || (a.passes && a.doneRaises)
    }

    /** How a phase can raise. */
    ghost predicate PhaseRaises(was: Held, a: Answers)
    {
      match a.status
      case InputValidating => a.raises
      case Running => MainRaises(was, a)
      case OutputValidating => CloseRaises(was.open, a)
      case AnyOther => false
    }

    /** A phase of the body that parks after every pass it is observed in. */
    ghost predicate Parked(was: Held, a: Answers)
    {
      a.status.Running? && Failed(was.published, a.body, |a.body|)
    }

    /** `_one_phase` */
    method OnePhase(a: Answers) returns (f: Flow)
      requires Valid() && AtWork()
      modifies this
      ensures Valid() && book.before == old(book.before) && book.tally.inPhase
      ensures old(book.mine) + [Phase(a.status)] <= book.mine
      ensures book.tally.course == if f == Threw then Broke else Calm
      ensures f == Went(true) ==> AtWork()
      ensures f == Went(false) && book.tally.validated ==> book.tally.succeeded
      ensures f == Threw ==> PhaseRaises(old(Now()), a)
      ensures PhaseRaises(old(Now()), a) ==> f == Threw || (a.status.Running? && f == Went(false) && halted)
      ensures f.StillParked? ==> Parked(old(Now()), a)
      ensures a.status.InputValidating? && !a.raises ==> f == Went(a.passes)
      ensures a.status.Running? ==> (f == Went(true) ==> Last(book, GatePassed)) && (f == Went(false) ==> halted)
      ensures a.status.OutputValidating? && f != Threw ==>
        f == Went(false) && !modelOpen && (a.passes ==> Last(book, DoneCalled(true)))
      ensures a.status.AnyOther? ==> f == Went(false)
      ensures Reported(book, f == Threw)
    {
      NotePlain(Phase(a.status));
      match a.status
      case InputValidating => f := Validation(false, a.raises, a.passes);
      case Running => f := MainPhase(a);
      case OutputValidating => f := Close(a.raises, a.passes, a.bad, a.doneRaises);
      case AnyOther => f := Went(false);
    }

    /** The loop of `run`, until a phase ends the thread, it is halted, or something raises.  As far
        as it is observed the phases meet `script`; the last one begun found `was`. */
    method Phases(recorderRaises: bool, script: seq<Answers>)
      returns (threw: bool, ended: bool, used: nat, ghost was: Held)
      requires Valid() && !modelOpen && book.mine == [] && book.tally == FRESH
      modifies this
      ensures Valid() && book.before == old(book.before) && Reported(book, threw) && used <= |script|
      ensures ended ==> book.tally.course == if threw then Broke else Leaving
      ensures ended && !threw && book.tally.validated ==> book.tally.succeeded
      ensures recorderRaises ==> threw && ended
      ensures threw && !recorderRaises ==> used > 0 && PhaseRaises(was, script[used - 1])
      ensures !ended ==> used == |script| || (used > 0 && Parked(was, script[used - 1]))
    {
      was, used := Now(), 0;
      if recorderRaises {
        NoteRaise(Raised);
        return true, true, used, was;
      }
      var going := true;
      threw := false;
      Halts();
      while going && !halted
        invariant Valid() && book.before == old(book.before) && Reported(book, threw) && used <= |script|
        invariant going ==> AtWork() && !threw
        invariant !going ==> book.tally.course == if threw then Broke else Leaving
        invariant !threw && book.tally.validated ==> book.tally.succeeded
        invariant threw ==> used > 0 && PhaseRaises(was, script[used - 1])
        decreases |script| - used, going
      {
        if used == |script| { return false, false, used, was; }
        was := Now();
        var f := OnePhase(script[used]);
        used := used + 1;
        if f.StillParked? { return false, false, used, was; }
        threw, going := f == Threw, f == Went(true);
        if f == Went(false) { NoteEnd(PhaseEnded); }
        if going { Halts(); }
      }
      if going { NoteEnd(HaltSeen); }
      return threw, true, used, was;
    }

    /** `run`, by a thread that begins now.  However it ends it holds no slot.  If `_open_outputs`
        completed and no closing raised, or if no slot call ever raised, every opening is sealed
        exactly once.  An exception is reported right away, as a failure; nothing else is; and
        a passed validation is reported as success unless something raised.  `on_done` is
        called at most once, or a second time after its report of success raised. */
    method Run(recorderRaises: bool, script: seq<Answers>)
      returns (threw: bool, ended: bool, used: nat, ghost was: Held)
      requires Valid() && !modelOpen
      modifies this
      ensures Valid() && Log(book) == old(Log(book)) + book.mine
      ensures ended ==> !modelOpen && exists f :: EndsAt(book.mine, f)
      ensures ended && threw ==> DoneCalled(false) in book.mine
      ensures recorderRaises ==> threw && ended
      ensures used <= |script| && (threw && !recorderRaises ==> used > 0 && PhaseRaises(was, script[used - 1]))
      ensures !ended ==> used == |script| || (used > 0 && Parked(was, script[used - 1]))
      ensures ended && Validated in book.mine && !threw ==> DoneCalled(true) in book.mine
      ensures DoneCount(book.mine) <= 1 || (DoneCount(book.mine) == 2 && DoneRaised in book.mine)
      ensures ended && AllOpened in book.mine && SlotRaised !in book.mine ==>
        forall h | h in outputs :: OpenCount(Log(book), h) == 0
      ensures ended && OpenRaised !in Log(book) && SlotRaised !in Log(book) ==>
        forall h | h in outputs :: OpenCount(Log(book), h) == 0
      ensures ValidIsEarned(Log(book)) && SealedBeforeDone(outputs, Log(book)) && NothingValidAfterPoison(Log(book))
    {
      TurnedOk(outputs, book);
      book := Turned(book);
      threw, ended, used, was := Phases(recorderRaises, script);
      if ended { Leave(threw); }
      Accounts();
    }

    /** The `except` and the `finally` of `run`. */
    method Leave(threw: bool)
      requires Valid() && Reported(book, threw) && book.tally.course == if threw then Broke else Leaving
      modifies `modelOpen, `slots, `book
      ensures Valid() && !modelOpen && book.before == old(book.before) && book.tally.course.Over?
      ensures book.tally.dones == old(book.tally.dones) + (if threw then 1 else 0)
      ensures book.tally.doneRaised == old(book.tally.doneRaised) && (threw ==> DoneCalled(false) in book.mine)
      ensures book.tally.validated == old(book.tally.validated) && book.tally.succeeded == old(book.tally.succeeded)
    {
      if threw { NoteDone(false); }
      ghost var told := |book.mine| - 1;
      NoteEnd(Finally);
      var bad: set<Hid> := *;
      var _, _ := SealModelVersions(false, bad);
      if threw { assert book.mine[told] == DoneCalled(false); }
    }

    lemma Accounts()
      requires Valid()
      ensures !modelOpen && AllOpened in book.mine && SlotRaised !in book.mine ==>
        forall h | h in outputs :: OpenCount(Log(book), h) == 0
      ensures !modelOpen && OpenRaised !in Log(book) && SlotRaised !in Log(book) ==>
        forall h | h in outputs :: OpenCount(Log(book), h) == 0
      ensures book.tally.dones == DoneCount(book.mine) && (book.tally.doneRaised <==> DoneRaised in book.mine)
      ensures book.tally.validated <==> Validated in book.mine
      ensures book.tally.succeeded <==> DoneCalled(true) in book.mine
      ensures book.tally.course.Over? ==> exists f :: EndsAt(book.mine, f)
      ensures ValidIsEarned(Log(book)) && SealedBeforeDone(outputs, Log(book)) && NothingValidAfterPoison(Log(book))
    {
      var log := Log(book);
      BookMeans(outputs, book);
      CountMeans(book.mine);
      if book.tally.course.Over? { var f := OverMeans(book.mine); }
      RaisedMeansLogged(log);
      forall h | h in outputs && h !in book.sum.open ensures OpenCount(log, h) == 0 {
        SealedAtMostOnce(outputs, log, h);
      }
      LawfulEarns(outputs, log);
      LawfulSeals(outputs, log);
      LawfulPoison(outputs, log);
    }

    /** The closing of one dispatch and the opening of the next: a `persist` that raised before the
        last slot makes the next `_open_outputs` raise. */
    method Redispatch(bad: set<Hid>, more: set<Hid>) returns (threw: bool)
      requires Valid() && modelOpen && book.tally.course.Calm?
      modifies `modelOpen, `slots, `book
      ensures Valid() && ((exists i | 0 <= i < |outputs| - 1 :: outputs[i] in bad) ==> threw)
    {
      var _, sealed := SealModelVersions(false, bad);
      AllSealedExactly(outputs, bad);
      if sealed < |outputs| { assert outputs[sealed] in book.sum.open && !OpensAt(slots, more, sealed); }
      TurnedOk(outputs, book);
      book := Turned(book);
      threw := OpenOutputs(more);
    }
  }

  /** Two outputs, and the `persist` of the first raises: the second slot stays GENERATING. */
  method OneSlotLeftOpen(a: TaskAttempt)
    requires a.Valid() && a.modelOpen && a.outputs == [0, 1] && a.book.tally.course.Calm?
    modifies a
    ensures !a.modelOpen && 0 in a.slots && a.slots[0] == Sealed(false) && 1 in a.slots && a.slots[1] == Generating
  {
    assert SealedCount([0, 1], {0}) == 1;
    var _, sealed := a.SealModelVersions(false, {0});
    assert a.outputs[0] == 0 && a.outputs[1] == 1;
  }
}
