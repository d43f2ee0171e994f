/**
 The loop every executor inherits: `ExecutorBase` in `agent_sys/agent/backend.py`, as
 a machine whose steps are the single reads and writes of the thread in `mainloop`
 and of the threads beside it.
 */
module ExecutorRuns {
  import opened Options

  datatype Status = Pending | Deploying | Running | Finished | Failed | Interrupted

  predicate Terminal(s: Status) { s.Finished? || s.Failed? || s.Interrupted? }

  datatype Op = Start | Instruct(message: string) | Stop

  /** Where the thread in `mainloop` stands.  `raised` tells how it left the loop. */
  datatype Pc =
    | Outside
    | Top                                  // about to `get`
    | FoundEmpty                           // `get` raised `Empty`
    | Serving(op: Op)                      // has taken `op`
    | InDeploy                             // inside `_deploy`
    | InRun                                // inside `_on_started` or `_run`
    | Finishing(s: Status, raises: bool)   // `_finish` has set the result, not yet the status
    | Served                               // at the test after an operation
    | FoundTerminal                        // that test found a terminal status; about to look into the inbox
    | Leaving(raised: bool)                // at the `finally`
    | Down(raised: bool)                   // `_looping` is down; about to read the status for `_settle`
    | SettleStatus(raised: bool)           // `_settle` was given a status that is not terminal
    | SettleResult(raised: bool)
    | SettleFlag(raised: bool)
    | Ended(raised: bool)

  /** `queued` is every operation ever put and `serviced` every operation taken, in order;
      `mark` is how many had been put when the loop last looked into the inbox; `runs` counts
      entries of `_run`; `restarted` tells that `_settled` was cleared since `_settle` set it. */
  datatype Exec = Exec(
    status: Status,
    inbox: seq<Op>,
    settled: bool,
    result: Option<Status>,
    looping: bool,
    stopping: bool,
    pc: Pc,
    queued: seq<Op>,
    serviced: seq<Op>,
    mark: nat,
    runs: nat,
    restarted: bool)

  const FRESH := Exec(Pending, [], false, None, false, false, Outside, [], [], 0, 0, false)

  /** What the harness answers where the loop asks it something. */
  datatype Answer = Goes(outcome: Status) | Throws

  datatype Event =
    | Enter                     // `mainloop` is called
    | Move(a: Answer)           // its thread takes one step
    | Interrupt                 // an exception of another kind, anywhere inside the `try`
    | Instructed(message: string)  // `_enqueue_instruction`
    | Put(op: Op)               // any other `put`, also one whose check is already behind it
    | ClearSettled              // `start_async`, write by write
    | ClearResult
    | AskStop                   // `stop`, write by write; a stale look at `_looping` lets these come at any time
    | WriteResult(s: Status)
    | WriteStatus(s: Status)
    | SetSettled

  predicate InTry(pc: Pc)
  {
    || pc.Top? || pc.FoundEmpty? || pc.Serving? || pc.InDeploy? || pc.InRun? || pc.Finishing?
    || pc.Served? || pc.FoundTerminal?
  }

  function Queue(s: Exec, op: Op): (t: Exec) { s.(inbox := s.inbox + [op], queued := s.queued + [op]) }

  /** Does the next step of the loop take an operation off the inbox? */
  predicate Takes(s: Exec) { s.pc.Top? && s.inbox != [] }

  /** Does it ask whether the inbox is empty, to leave if it is? */
  predicate Looks(s: Exec) { (s.pc.Top? && s.inbox == []) || s.pc.FoundTerminal? }

  function NextPc(s: Exec, a: Answer): (pc: Pc)
  {
    match s.pc
    case Outside => Outside
    case Top => if s.inbox == [] then FoundEmpty else Serving(s.inbox[0])
    case FoundEmpty => if Terminal(s.status) || s.stopping then Leaving(false) else Top
    case Serving(op) =>
      (match op
       case Start => if s.stopping then Served else InDeploy
       case Instruct(_) => if a.Throws? then Leaving(true) else Served
       case Stop => if Terminal(s.status) then Served else Finishing(Interrupted, false))
    case InDeploy => if a.Throws? then Finishing(Failed, true) else InRun
    case InRun => if a.Throws? then Leaving(true) else Finishing(a.outcome, false)
    case Finishing(_, raises) => if raises then Leaving(true) else Served
    case Served => if Terminal(s.status) then FoundTerminal else Top
    case FoundTerminal => if s.inbox == [] then Leaving(false) else Top
    case Leaving(r) => Down(r)
    case Down(r) => if Terminal(s.status) then SettleFlag(r) else SettleStatus(r)
    case SettleStatus(r) => SettleResult(r)
    case SettleResult(r) => SettleFlag(r)
    case SettleFlag(r) => Ended(r)
    case Ended(r) => Ended(r)
  }

  function NextStatus(s: Exec, a: Answer): (x: Status)
  {
    if s.pc == Serving(Start) && !s.stopping then Deploying
    else if s.pc.InDeploy? && !a.Throws? then Running
    else if s.pc.Finishing? then s.pc.s
    else if s.pc.SettleStatus? then Failed
    else s.status
  }

  /** `_finish` writes the result as the loop comes to `Finishing`. */
  function NextResult(s: Exec, a: Answer): (r: Option<Status>)
  {
    if s.pc.SettleResult? && s.result.None? then Some(Failed)
    else if !s.pc.Finishing? && NextPc(s, a).Finishing? then Some(NextPc(s, a).s)
    else s.result
  }

  /** One step of the thread in `mainloop`, variable by variable. */
  function DoMove(s: Exec, a: Answer): (t: Exec)
  {
    Exec(
      NextStatus(s, a),
      if Takes(s) then s.inbox[1..] else s.inbox,
      s.settled || s.pc.SettleFlag?,
      NextResult(s, a),
      s.looping && !s.pc.Leaving?,
      s.stopping,
      NextPc(s, a),
      s.queued,
      if Takes(s) then s.serviced + [s.inbox[0]] else s.serviced,
      if Looks(s) then |s.queued| else s.mark,
      s.runs + (if s.pc.InDeploy? && !a.Throws? then 1 else 0),
      s.restarted && !s.pc.SettleFlag?)
  }

  function Step(s: Exec, e: Event): (t: Exec)
  {
    match e
    case Enter => if s.pc.Outside? || s.pc.Ended? then s.(looping := true, restarted := false, pc := Top) else s
    case Move(a) => DoMove(s, a)
    case Interrupt => if InTry(s.pc) then s.(pc := Leaving(true)) else s
    case Instructed(m) => if s.settled then s else Queue(s, Instruct(m))
    case Put(op) => Queue(s, op)
    case ClearSettled => s.(settled := false, restarted := true)
    case ClearResult => s.(result := None)
    case AskStop => s.(stopping := true)
    case WriteResult(x) => if Terminal(x) then s.(result := Some(x)) else s
    case WriteStatus(x) => if Terminal(x) then s.(status := x) else s
    case SetSettled => s.(settled := true)
  }

  // ---- runs ----

  predicate Link(states: seq<Exec>, es: seq<Event>, i: int)
    requires |states| == |es| + 1
  {
    0 <= i < |es| ==> states[i + 1] == Step(states[i], es[i])
  }

  /** The events `es`, in any interleaving, led through `states`. */
  ghost predicate IsRun(states: seq<Exec>, es: seq<Event>)
  {
    |states| == |es| + 1 && states[0] == FRESH && forall i {:trigger Link(states, es, i)} :: Link(states, es, i)
  }

  lemma RunThen(states: seq<Exec>, es: seq<Event>, e: Event)
    requires IsRun(states, es)
    ensures IsRun(states + [Step(states[|es|], e)], es + [e])
  {
    var more, on := states + [Step(states[|es|], e)], es + [e];
    forall i ensures Link(more, on, i) { assert Link(states, es, i); }
  }

  // ---- what every run keeps ----

  /** The loop looked into an empty inbox and has not looked again. */
  predicate PastCheck(pc: Pc)
  {
    || pc.FoundEmpty?
    || ((pc.Leaving? || pc.Down? || pc.SettleStatus? || pc.SettleResult? || pc.SettleFlag? || pc.Ended?) && !pc.raised)
  }

  predicate Inv(s: Exec)
  {
    && s.serviced + s.inbox == s.queued
    && (PastCheck(s.pc) ==> |s.serviced| == s.mark)
    && (s.pc.SettleResult? || s.pc.SettleFlag? || s.pc.Ended? ==> Terminal(s.status))
    && (s.pc.Ended? ==> s.settled || s.restarted)
    && (s.pc.FoundTerminal? ==> Terminal(s.status))
    && (PastCheck(s.pc) && !s.pc.FoundEmpty? ==> Terminal(s.status) || s.stopping)
    && (s.looping <==> InTry(s.pc) || s.pc.Leaving?)
  }

  lemma MoveAccounts(s: Exec, a: Answer)
    requires Inv(s)
    ensures var t := DoMove(s, a); t.serviced + t.inbox == t.queued && (PastCheck(t.pc) ==> |t.serviced| == t.mark)
  {
    if Takes(s) { assert s.inbox == [s.inbox[0]] + s.inbox[1..]; }
  }

  lemma MoveKeepsInv(s: Exec, a: Answer)
    requires Inv(s)
    ensures Inv(DoMove(s, a))
  {
    MoveAccounts(s, a);
  }

  lemma StepKeepsInv(s: Exec, e: Event)
    requires Inv(s)
    ensures Inv(Step(s, e))
  {
    if e.Move? { MoveKeepsInv(s, e.a); }
  }

  lemma {:induction false} RunKeepsInv(states: seq<Exec>, es: seq<Event>, n: nat)
    requires IsRun(states, es) && n <= |es|
    ensures Inv(states[n])
  {
    if n > 0 {
      RunKeepsInv(states, es, n - 1);
      StepKeepsInv(states[n - 1], es[n - 1]);
      assert Link(states, es, n - 1);
    }
  }

  // ---- however it ends, it has settled ----

  /** Whatever the harness and the other threads do, once `mainloop` has ended the status is
      terminal and the flag is set, and instructions are refused, until someone restarts. */
  lemma EndsSettled(states: seq<Exec>, es: seq<Event>, message: string)
    requires IsRun(states, es) && states[|es|].pc.Ended?
    ensures var s := states[|es|];
      Terminal(s.status) && !s.looping && (!s.restarted ==> s.settled && Step(s, Instructed(message)) == s)
  {
    RunKeepsInv(states, es, |es|);
  }

  /** `wait`: blocks until settled. */
  function Wait(s: Exec): (r: Option<Status>)
  {
    if !s.settled then None else Some(if s.result.Some? then s.result.value else s.status)
  }

  /** The result that event `e` records: what `_run` returned, FAILED for a `_deploy` that raised,
      INTERRUPTED for a stop of an unfinished agent, FAILED for a loop that ends with none, or
      what another thread's `stop` writes. */
  function Records(s: Exec, e: Event): (r: Option<Status>)
  {
    match e
    case Move(a) =>
      (match s.pc
       case InRun => if a.Goes? then Some(a.outcome) else None
       case InDeploy => if a.Throws? then Some(Failed) else None
       case Serving(op) => if op.Stop? && !Terminal(s.status) then Some(Interrupted) else None
       case SettleResult(_) => if s.result.None? then Some(Failed) else None
       case _ => None)
    case WriteResult(x) => if Terminal(x) then Some(x) else None
    case _ => None
  }

  lemma MoveRecords(s: Exec, a: Answer)
    ensures NextResult(s, a) == if Records(s, Move(a)).Some? then Records(s, Move(a)) else s.result
  {
  }

  lemma StepRecords(s: Exec, e: Event)
    ensures Step(s, e).result ==
      if Records(s, e).Some? then Records(s, e) else if e.ClearResult? then None else s.result
  {
    if e.Move? { MoveRecords(s, e.a); }
  }

  /** From event `k` on nothing records a result or clears it. */
  predicate KeptSince(states: seq<Exec>, es: seq<Event>, k: int, n: int)
    requires |states| == |es| + 1 && 0 <= k <= n <= |es|
  {
    forall j | k <= j < n :: Records(states[j], es[j]).None? && !es[j].ClearResult?
  }

  lemma {:induction false} ResultStays(states: seq<Exec>, es: seq<Event>, k: nat, n: nat)
    requires IsRun(states, es) && k <= n <= |es| && KeptSince(states, es, k, n)
    ensures forall j | k <= j <= n :: states[j].result == states[k].result
    decreases n
  {
    if k < n {
      ResultStays(states, es, k, n - 1);
      StepRecords(states[n - 1], es[n - 1]);
      assert Link(states, es, n - 1);
    }
  }

  /** A result was recorded at some event and neither changed nor cleared after it. */
  lemma {:induction false} RecordedAt(states: seq<Exec>, es: seq<Event>, n: nat) returns (k: nat)
    requires IsRun(states, es) && n <= |es| && states[n].result.Some?
    ensures k < n && Records(states[k], es[k]) == states[n].result && KeptSince(states, es, k + 1, n)
  {
    StepRecords(states[n - 1], es[n - 1]);
    assert Link(states, es, n - 1);
    if Records(states[n - 1], es[n - 1]).Some? { k := n - 1; } else { k := RecordedAt(states, es, n - 1); }
  }

  /** What `wait` answers once settled: the result recorded last, if none cleared it since. */
  lemma AnswerIsLast(states: seq<Exec>, es: seq<Event>, k: nat)
    requires IsRun(states, es) && k < |es| && states[|es|].settled
    requires Records(states[k], es[k]).Some? && KeptSince(states, es, k + 1, |es|)
    ensures Wait(states[|es|]) == Records(states[k], es[k])
  {
    StepRecords(states[k], es[k]);
    assert Link(states, es, k);
    ResultStays(states, es, k + 1, |es|);
  }

  /** A recorded FINISHED, which `wait` then answers, was returned by a run or written by a `stop`
      from another thread, and nothing was recorded after it. */
  lemma FinishedIsEarned(states: seq<Exec>, es: seq<Event>) returns (k: nat)
    requires IsRun(states, es) && states[|es|].result == Some(Finished)
    ensures k < |es| && KeptSince(states, es, k + 1, |es|)
    ensures (states[k].pc.InRun? && es[k] == Move(Goes(Finished))) || es[k] == WriteResult(Finished)
  {
    k := RecordedAt(states, es, |es|);
  }

  /** A `_deploy` that raises makes `wait` answer FAILED, unless something is recorded after it. */
  lemma DeployFailureAnswers(states: seq<Exec>, es: seq<Event>, k: nat)
    requires IsRun(states, es) && k < |es| && states[|es|].settled && KeptSince(states, es, k + 1, |es|)
    requires states[k].pc.InDeploy? && es[k] == Move(Throws)
    ensures Wait(states[|es|]) == Some(Failed)
  {
    AnswerIsLast(states, es, k);
  }

  /** What `_run` returned is what `wait` answers, on the same terms. */
  lemma RunAnswers(states: seq<Exec>, es: seq<Event>, k: nat)
    requires IsRun(states, es) && k < |es| && states[|es|].settled && KeptSince(states, es, k + 1, |es|)
    requires states[k].pc.InRun? && es[k].Move? && es[k].a.Goes?
    ensures Wait(states[|es|]) == Some(es[k].a.outcome)
  {
    AnswerIsLast(states, es, k);
  }

  /** A stop of an agent that is not finished makes `wait` answer INTERRUPTED, on the same terms. */
  lemma StopAnswers(states: seq<Exec>, es: seq<Event>, k: nat)
    requires IsRun(states, es) && k < |es| && states[|es|].settled && KeptSince(states, es, k + 1, |es|)
    requires states[k].pc == Serving(Stop) && es[k].Move? && !Terminal(states[k].status)
    ensures Wait(states[|es|]) == Some(Interrupted)
  {
    AnswerIsLast(states, es, k);
  }

  /** With no result, as after a run that raised, the loop's end answers FAILED. */
  lemma NoResultAnswers(states: seq<Exec>, es: seq<Event>, k: nat)
    requires IsRun(states, es) && k < |es| && states[|es|].settled && KeptSince(states, es, k + 1, |es|)
    requires states[k].pc.SettleResult? && es[k].Move? && states[k].result.None?
    ensures Wait(states[|es|]) == Some(Failed)
  {
    AnswerIsLast(states, es, k);
  }

  /** At event `k` `_run` returned a status that is not terminal, and it is the result ever since. */
  predicate Unfinished(states: seq<Exec>, es: seq<Event>, k: int)
    requires |states| == |es| + 1
  {
    && 0 <= k < |es| && es[k].Move? && states[k].pc.InRun? && es[k].a.Goes? && !Terminal(es[k].a.outcome)
    && forall j | k < j <= |es| :: states[j].result == Some(es[k].a.outcome)
  }

  /** After the loop `wait` answers, unless someone restarted since; and the answer is not terminal
      exactly when `_run` once returned it and no result was written or cleared after that. */
  lemma WaitIsTerminalExactly(states: seq<Exec>, es: seq<Event>)
    requires IsRun(states, es) && states[|es|].pc.Ended? && states[|es|].settled
    ensures Wait(states[|es|]).Some?
    ensures !Terminal(Wait(states[|es|]).value) <==> exists k :: Unfinished(states, es, k)
  {
    RunKeepsInv(states, es, |es|);
    var r := states[|es|].result;
    if r.Some? && !Terminal(r.value) {
      var k := RecordedAt(states, es, |es|);
      ResultStays(states, es, k + 1, |es|);
      assert Unfinished(states, es, k);
    }
    if k :| Unfinished(states, es, k) { assert r == Some(es[k].a.outcome); }
  }

  // ---- the status ----

  /** The status that event `e` writes: the course of a submission, the end of a `_finish`, FAILED for
      a loop that ends without a terminal one, or what another thread's `stop` writes. */
  function Writes(s: Exec, e: Event): (r: Option<Status>)
  {
    match e
    case Move(a) =>
      (match s.pc
       case Serving(op) => if op.Start? && !s.stopping then Some(Deploying) else None
       case InDeploy => if a.Goes? then Some(Running) else None
       case Finishing(x, _) => Some(x)
       case SettleStatus(_) => Some(Failed)
       case _ => None)
    case WriteStatus(x) => if Terminal(x) then Some(x) else None
    case _ => None
  }

  lemma StepWrites(s: Exec, e: Event)
    ensures Step(s, e).status == if Writes(s, e).Some? then Writes(s, e).value else s.status
  {
  }

  lemma {:induction false} StatusStays(states: seq<Exec>, es: seq<Event>, k: nat, n: nat)
    requires IsRun(states, es) && k <= n <= |es| && forall j | k <= j < n :: Writes(states[j], es[j]).None?
    ensures states[n].status == states[k].status
    decreases n
  {
    if k < n {
      StatusStays(states, es, k, n - 1);
      StepWrites(states[n - 1], es[n - 1]);
      assert Link(states, es, n - 1);
    }
  }

  lemma StepFinishing(s: Exec, e: Event)
    requires s.pc.Finishing? && !e.Move? && !e.Interrupt?
    ensures Step(s, e).pc == s.pc
  {
  }

  lemma {:induction false} StillFinishing(states: seq<Exec>, es: seq<Event>, k: nat, m: nat)
    requires IsRun(states, es) && k <= m <= |es| && states[k].pc.Finishing?
    requires forall j | k <= j < m :: !es[j].Move? && !es[j].Interrupt?
    ensures states[m].pc == states[k].pc
    decreases m
  {
    if k < m {
      StillFinishing(states, es, k, m - 1);
      StepFinishing(states[m - 1], es[m - 1]);
      assert Link(states, es, m - 1);
    }
  }

  lemma MoveFinishes(s: Exec, a: Answer)
    requires (s.pc.InRun? || s.pc.InDeploy? || s.pc.Serving?) && Records(s, Move(a)).Some?
    ensures NextPc(s, a).Finishing? && Some(NextPc(s, a).s) == Records(s, Move(a))
  {
  }

  /** Where the loop itself records a result, its next step makes that the status; and the status
      stays until something else writes it. */
  lemma StatusFollows(states: seq<Exec>, es: seq<Event>, k: nat, m: nat)
    requires IsRun(states, es) && k < m < |es| && es[k].Move? && es[m].Move?
    requires states[k].pc.InRun? || states[k].pc.InDeploy? || states[k].pc.Serving?
    requires Records(states[k], es[k]).Some?
    requires forall j | k < j < m :: !es[j].Move? && !es[j].Interrupt?
    requires forall j | m < j < |es| :: Writes(states[j], es[j]).None?
    ensures Some(states[|es|].status) == Records(states[k], es[k])
  {
    MoveFinishes(states[k], es[k].a);
    assert Link(states, es, k);
    StillFinishing(states, es, k + 1, m);
    StepWrites(states[m], es[m]);
    assert Link(states, es, m);
    StatusStays(states, es, m + 1, |es|);
  }

  // ---- what is serviced ----

  lemma MovePastCheck(s: Exec, a: Answer)
    requires Inv(s) && PastCheck(NextPc(s, a))
    ensures !Takes(s) && (PastCheck(s.pc) || (Looks(s) && s.inbox == [] && s.serviced == s.queued))
  {
  }

  lemma StepPastCheck(s: Exec, e: Event)
    requires Inv(s) && PastCheck(Step(s, e).pc)
    ensures Step(s, e).serviced == s.serviced
    ensures PastCheck(s.pc) || (e.Move? && Looks(s) && s.inbox == [] && s.serviced == s.queued)
  {
    if e.Move? { MovePastCheck(s, e.a); }
  }

  /** The loop breaks only with a terminal status or a stop asked for. */
  lemma BreakIsDue(states: seq<Exec>, es: seq<Event>, n: nat)
    requires IsRun(states, es) && n <= |es| && states[n].pc == Leaving(false)
    ensures Terminal(states[n].status) || states[n].stopping
  {
    RunKeepsInv(states, es, n);
  }

  /** An exception is on its way out of the loop, or has left it. */
  predicate OutByRaise(pc: Pc)
  {
    || pc == Finishing(Failed, true)
    || ((pc.Leaving? || pc.Down? || pc.SettleStatus? || pc.SettleResult? || pc.SettleFlag? || pc.Ended?) && pc.raised)
  }

  lemma MoveOut(s: Exec, a: Answer)
    requires OutByRaise(s.pc)
    ensures OutByRaise(NextPc(s, a)) && !Takes(s)
  {
  }

  lemma StepOut(s: Exec, e: Event)
    requires OutByRaise(s.pc) && !e.Enter?
    ensures OutByRaise(Step(s, e).pc) && Step(s, e).serviced == s.serviced
  {
    MoveOut(s, Throws);
    if e.Move? { MoveOut(s, e.a); }
  }

  /** A deployment, a run or an instruction that raises ends the loop: nothing more is taken. */
  lemma {:induction false} RaiseLeaves(states: seq<Exec>, es: seq<Event>, k: nat, j: nat)
    requires IsRun(states, es) && k < j <= |es| && es[k] == Move(Throws)
    requires states[k].pc.InDeploy? || states[k].pc.InRun? || (states[k].pc.Serving? && states[k].pc.op.Instruct?)
    requires forall i | k < i < j :: !es[i].Enter?
    ensures OutByRaise(states[j].pc) && states[j].serviced == states[k].serviced
    decreases j
  {
    assert Link(states, es, j - 1);
    if k < j - 1 {
      RaiseLeaves(states, es, k, j - 1);
      StepOut(states[j - 1], es[j - 1]);
    }
  }

  /** A run that left by a `break`, seen without the bookkeeping: at event `k` the loop looked
      into the inbox and found it empty, it never looked again, and it had serviced exactly
      what was queued at that moment, once each and in order. */
  lemma {:induction false} ExitCheck(states: seq<Exec>, es: seq<Event>, n: nat) returns (k: nat)
    requires IsRun(states, es) && n <= |es| && PastCheck(states[n].pc)
    ensures k < n && es[k].Move? && Looks(states[k]) && states[k].inbox == []
    ensures forall j | k < j <= n :: PastCheck(states[j].pc)
    ensures states[n].serviced == states[k].queued
    decreases n
  {
    RunKeepsInv(states, es, n - 1);
    StepPastCheck(states[n - 1], es[n - 1]) by { assert Link(states, es, n - 1); }
    assert states[n].serviced == states[n - 1].serviced by { assert Link(states, es, n - 1); }
    if PastCheck(states[n - 1].pc) { k := ExitCheck(states, es, n - 1); } else { k := n - 1; }
  }

  predicate PastRaise(pc: Pc)
  {
    (pc.Leaving? || pc.Down? || pc.SettleStatus? || pc.SettleResult? || pc.SettleFlag? || pc.Ended?) && pc.raised
  }

  lemma MovePastRaise(s: Exec, a: Answer)
    requires PastRaise(NextPc(s, a))
    ensures (PastRaise(s.pc) || InTry(s.pc)) && !Takes(s)
  {
  }

  lemma StepPastRaise(s: Exec, e: Event)
    requires PastRaise(Step(s, e).pc)
    ensures (PastRaise(s.pc) || InTry(s.pc)) && Step(s, e).serviced == s.serviced
  {
    if e.Move? { MovePastRaise(s, e.a); }
  }

  /** A run that left by an exception: event `k` raised it inside the `try` and nothing was taken
      after that, so what was behind the operation then in hand is left. */
  lemma {:induction false} ExitRaise(states: seq<Exec>, es: seq<Event>, n: nat) returns (k: nat)
    requires IsRun(states, es) && n <= |es| && PastRaise(states[n].pc)
    ensures k < n && InTry(states[k].pc)
    ensures forall j | k < j <= n :: PastRaise(states[j].pc)
    ensures states[n].serviced == states[k].serviced
    decreases n
  {
    StepPastRaise(states[n - 1], es[n - 1]) by { assert Link(states, es, n - 1); }
    assert states[n].serviced == states[n - 1].serviced by { assert Link(states, es, n - 1); }
    if PastRaise(states[n - 1].pc) { k := ExitRaise(states, es, n - 1); } else { k := n - 1; }
  }

  lemma StepQueues(s: Exec, e: Event)
    ensures s.queued <= Step(s, e).queued
  {
  }

  lemma {:induction false} QueuedGrows(states: seq<Exec>, es: seq<Event>, i: nat, j: nat)
    requires IsRun(states, es) && i <= j <= |es|
    ensures states[i].queued <= states[j].queued
    decreases j
  {
    if i < j {
      QueuedGrows(states, es, i, j - 1);
      StepQueues(states[j - 1], es[j - 1]);
      assert Link(states, es, j - 1);
    }
  }

  /** What `e` puts into the inbox: an accepted instruction, or any other operation. */
  function Adds(s: Exec, e: Event): (op: Option<Op>)
  {
    if e.Put? then Some(e.op) else if e.Instructed? && !s.settled then Some(Instruct(e.message)) else None
  }

  /** Once the loop has left by a `break`, an operation that was put or an instruction that was
      accepted is still in the inbox exactly when it came after that last look. */
  lemma LostExactly(states: seq<Exec>, es: seq<Event>, j: nat) returns (k: nat)
    requires IsRun(states, es) && states[|es|].pc == Ended(false) && j < |es| && Adds(states[j], es[j]).Some?
    ensures k < |es| && es[k].Move? && Looks(states[k]) && states[k].inbox == []
    ensures forall i | k < i <= |es| :: PastCheck(states[i].pc)
    ensures var s, i := states[|es|], |states[j].queued|;
      && s.serviced + s.inbox == s.queued && i < |s.queued| && Some(s.queued[i]) == Adds(states[j], es[j])
      && (|s.serviced| <= i <==> k < j)
  {
    k := ExitCheck(states, es, |es|);
    RunKeepsInv(states, es, |es|);
    assert states[j + 1].queued == states[j].queued + [Adds(states[j], es[j]).value] by { assert Link(states, es, j); }
    QueuedGrows(states, es, j + 1, |es|);
    if j < k { QueuedGrows(states, es, j + 1, k); } else { QueuedGrows(states, es, k, j); }
  }

  lemma StepServices(s: Exec, e: Event)
    ensures Step(s, e).serviced == if e.Move? && Takes(s) then s.serviced + [s.inbox[0]] else s.serviced
  {
  }

  /** The loop took operation number `i` at event `t`. */
  predicate TookAt(states: seq<Exec>, es: seq<Event>, t: int, i: nat)
    requires |states| == |es| + 1
  {
    0 <= t < |es| && es[t].Move? && Takes(states[t]) && |states[t].serviced| == i
  }

  lemma {:induction false} Took(states: seq<Exec>, es: seq<Event>, n: nat, i: nat) returns (t: nat)
    requires IsRun(states, es) && n <= |es| && i < |states[n].serviced|
    ensures t < n && TookAt(states, es, t, i)
  {
    StepServices(states[n - 1], es[n - 1]);
    assert Link(states, es, n - 1);
    if i < |states[n - 1].serviced| { t := Took(states, es, n - 1, i); } else { t := n - 1; }
  }

  lemma {:induction false} ServicedGrows(states: seq<Exec>, es: seq<Event>, i: nat, j: nat)
    requires IsRun(states, es) && i <= j <= |es|
    ensures |states[i].serviced| <= |states[j].serviced|
    decreases j
  {
    if i < j {
      ServicedGrows(states, es, i, j - 1);
      StepServices(states[j - 1], es[j - 1]);
      assert Link(states, es, j - 1);
    }
  }

  /** Once the loop has left by an exception, an operation is still in the inbox exactly when the
      loop had not taken it before the event that raised. */
  lemma LostByRaiseExactly(states: seq<Exec>, es: seq<Event>, j: nat) returns (k: nat)
    requires IsRun(states, es) && states[|es|].pc == Ended(true) && j < |es| && Adds(states[j], es[j]).Some?
    ensures k < |es| && InTry(states[k].pc) && forall i | k < i <= |es| :: PastRaise(states[i].pc)
    ensures var s, i := states[|es|], |states[j].queued|;
      && s.serviced + s.inbox == s.queued && i < |s.queued| && Some(s.queued[i]) == Adds(states[j], es[j])
      && (|s.serviced| <= i <==> forall t | 0 <= t < k :: !TookAt(states, es, t, i))
  {
    k := ExitRaise(states, es, |es|);
    RunKeepsInv(states, es, |es|);
    assert states[j + 1].queued == states[j].queued + [Adds(states[j], es[j]).value] by { assert Link(states, es, j); }
    QueuedGrows(states, es, j + 1, |es|);
    var i := |states[j].queued|;
    if i < |states[|es|].serviced| { var t := Took(states, es, k, i); }
    forall t | 0 <= t < k && TookAt(states, es, t, i) ensures i < |states[|es|].serviced| {
      StepServices(states[t], es[t]);
      assert Link(states, es, t);
      ServicedGrows(states, es, t + 1, |es|);
    }
  }

  // ---- some runs ----

  lemma Then(states: seq<Exec>, es: seq<Event>, e: Event) returns (more: seq<Exec>, on: seq<Event>)
    requires IsRun(states, es)
    ensures IsRun(more, on) && states <= more && es <= on && |on| == |es| + 1 && on[|es|] == e
    ensures more[|on|] == Step(states[|es|], e)
  {
    RunThen(states, es, e);
    more, on := states + [Step(states[|es|], e)], es + [e];
  }

  lemma Nothing() returns (states: seq<Exec>, es: seq<Event>)
    ensures IsRun(states, es) && es == [] && states == [FRESH]
  {
    states, es := [FRESH], [];
    forall i ensures Link(states, es, i) {}
  }

  /** From the `finally` to the end, nobody else moving. */
  lemma Finally(states: seq<Exec>, es: seq<Event>) returns (more: seq<Exec>, on: seq<Event>)
    requires IsRun(states, es) && states[|es|].pc.Leaving? && !Terminal(states[|es|].status)
    ensures IsRun(more, on) && states <= more && es <= on
    ensures var s, t := states[|es|], more[|on|];
      && t.pc == Ended(s.pc.raised) && t.settled && t.status == Failed && t.inbox == s.inbox
      && (s.result.Some? ==> t.result == s.result)
  {
    more, on := SettleBegins(states, es);
    more, on := Then(more, on, Move(Throws));
    more, on := Then(more, on, Move(Throws));
    more, on := Then(more, on, Move(Throws));
  }

  lemma SettleBegins(states: seq<Exec>, es: seq<Event>) returns (more: seq<Exec>, on: seq<Event>)
    requires IsRun(states, es) && states[|es|].pc.Leaving? && !Terminal(states[|es|].status)
    ensures IsRun(more, on) && states <= more && es <= on
    ensures var s, t := states[|es|], more[|on|];
      t.pc == SettleStatus(s.pc.raised) && t.inbox == s.inbox && t.result == s.result
  {
    more, on := Then(states, es, Move(Throws));
    more, on := Then(more, on, Move(Throws));
  }

  /** The window is wider than the two lines of the `finally`: an instruction accepted while the
      loop is still up is left behind. */
  lemma LostWhileLooping() returns (states: seq<Exec>, es: seq<Event>, j: nat)
    ensures IsRun(states, es) && j < |es| && es[j].Instructed?
    ensures states[j].looping && !states[j].settled && states[j].pc.FoundEmpty?
    ensures states[|es|].pc == Ended(false) && states[|es|].inbox == [Instruct(es[j].message)]
  {
    states, es := Nothing();
    states, es := Then(states, es, Enter);
    states, es := Then(states, es, AskStop);
    states, es := Then(states, es, Move(Throws));
    j := |es|;
    states, es := Then(states, es, Instructed("continue"));
    states, es := Then(states, es, Move(Throws));
    assert states[|es|].inbox == [Instruct("continue")];
    states, es := Finally(states, es);
  }

  lemma StartTaken() returns (states: seq<Exec>, es: seq<Event>)
    ensures IsRun(states, es)
    ensures var s := states[|es|]; s.pc == Serving(Start) && !s.stopping && s.inbox == []
  {
    states, es := Nothing();
    states, es := Then(states, es, Put(Start));
    assert states[|es|].inbox == [Start];
    states, es := Then(states, es, Enter);
    states, es := Then(states, es, Move(Throws));
  }

  lemma RunReturned() returns (states: seq<Exec>, es: seq<Event>)
    ensures IsRun(states, es)
    ensures var s := states[|es|]; s.pc == Finishing(Running, false) && s.result == Some(Running) && s.status == Running
  {
    states, es := StartTaken();
    states, es := Then(states, es, Move(Throws));
    states, es := Then(states, es, Move(Goes(Running)));
    states, es := Then(states, es, Move(Goes(Running)));
  }

  /** `_settle` repairs a status and keeps a result: when `_run` returns a status that is not
      terminal, `wait` hands it on. */
  lemma UnfinishedAnswer() returns (states: seq<Exec>, es: seq<Event>)
    ensures IsRun(states, es)
    ensures var s := states[|es|]; s.pc.Ended? && s.status == Failed && Wait(s) == Some(Running)
  {
    states, es := RunReturned();
    states, es := Then(states, es, Move(Throws));
    states, es := Then(states, es, Move(Throws));
    states, es := Then(states, es, Interrupt);
    states, es := Finally(states, es);
  }

  lemma RunFinished() returns (states: seq<Exec>, es: seq<Event>)
    ensures IsRun(states, es)
    ensures var s := states[|es|]; s.pc == Finishing(Finished, false) && s.result == Some(Finished) && s.inbox == []
  {
    states, es := StartTaken();
    states, es := Then(states, es, Move(Throws));
    states, es := Then(states, es, Move(Goes(Finished)));
    states, es := Then(states, es, Move(Goes(Finished)));
  }

  lemma RunLeft() returns (states: seq<Exec>, es: seq<Event>)
    ensures IsRun(states, es)
    ensures var s := states[|es|]; s.pc == Leaving(false) && s.status == Finished && s.inbox == []
  {
    states, es := RunFinished();
    states, es := Then(states, es, Move(Throws));
    states, es := Then(states, es, Move(Throws));
    states, es := Then(states, es, Move(Throws));
  }

  /** A `start_async` whose writes land after the last look: its submission is left in the inbox, and
      `wait` answers with the status of the one before. */
  lemma SubmissionLeft() returns (states: seq<Exec>, es: seq<Event>)
    ensures IsRun(states, es)
    ensures var s := states[|es|]; s.pc == Ended(false) && s.inbox == [Start] && Wait(s) == Some(Finished)
  {
    states, es := RunLeft();
    states, es := Then(states, es, ClearSettled);
    states, es := Then(states, es, ClearResult);
    states, es := Then(states, es, Put(Start));
    assert states[|es|].inbox == [Start];
    states, es := Then(states, es, Move(Throws));
    states, es := Then(states, es, Move(Throws));
    states, es := Then(states, es, Move(Throws));
  }

  // ---- a stop takes effect ----

  function Rank(pc: Pc): (n: nat)
  {
    match pc
    case Outside => 0
    case Ended(_) => 0
    case SettleFlag(_) => 1
    case SettleResult(_) => 2
    case SettleStatus(_) => 3
    case Down(_) => 4
    case Leaving(_) => 5
    case FoundEmpty => 6
    case Top => 7
    case FoundTerminal => 8
    case Served => 9
    case Finishing(_, _) => 10
    case InRun => 11
    case InDeploy => 12
    case Serving(_) => 13
  }

  function Work(s: Exec): (n: nat) { if s.pc.Outside? || s.pc.Ended? then 0 else 8 * |s.inbox| + Rank(s.pc) }

  function Moves(es: seq<Event>, i: nat, j: nat): (n: nat)
    requires i <= j <= |es|
    decreases j
  {
    if i == j then 0 else Moves(es, i, j - 1) + (if es[j - 1].Move? then 1 else 0)
  }

  function Puts(es: seq<Event>, i: nat, j: nat): (n: nat)
    requires i <= j <= |es|
    decreases j
  {
    if i == j then 0 else Puts(es, i, j - 1) + (if es[j - 1].Put? || es[j - 1].Instructed? then 1 else 0)
  }

  /** Submissions begun: those that entered `_run`, and one still in `_deploy`. */
  function Begun(s: Exec): (n: nat) { s.runs + (if s.pc.InDeploy? then 1 else 0) }

  lemma MoveWorks(s: Exec, a: Answer)
    requires s.stopping && !s.pc.Outside? && !s.pc.Ended?
    ensures var t := DoMove(s, a);
      !t.pc.Outside? && Begun(t) <= Begun(s) && (t.pc.Ended? || 1 + Work(t) <= Work(s))
  {
    assert Rank(NextPc(s, a)) < Rank(s.pc) + if Takes(s) then 8 else 0;
  }

  lemma StepWorks(s: Exec, e: Event)
    requires s.stopping && !s.pc.Outside? && !e.Enter?
    ensures var t := Step(s, e);
      && t.stopping && !t.pc.Outside? && Begun(t) <= Begun(s) && (s.pc.Ended? ==> t.pc.Ended?)
      && (t.pc.Ended? || (if e.Move? then 1 else 0) + Work(t) <= Work(s) + (if e.Put? || e.Instructed? then 8 else 0))
  {
    if e.Move? && !s.pc.Ended? { MoveWorks(s, e.a); }
  }

  /** Once a stop is asked for, no further submission is begun, and the loop ends after a number
      of its own steps that only the operations still put can raise, however others interleave. */
  lemma {:induction false} StopTakesEffect(states: seq<Exec>, es: seq<Event>, i: nat, j: nat)
    requires IsRun(states, es) && i <= j <= |es|
    requires states[i].stopping && !states[i].pc.Outside? && forall k | i <= k < j :: !es[k].Enter?
    ensures var s, t := states[i], states[j];
      && t.stopping && !t.pc.Outside?
      && Begun(t) <= Begun(s)
      && (t.pc.Ended? || Moves(es, i, j) + Work(t) <= Work(s) + 8 * Puts(es, i, j))
    decreases j
  {
    if i < j {
      StopTakesEffect(states, es, i, j - 1);
      StepWorks(states[j - 1], es[j - 1]);
      assert Link(states, es, j - 1);
    }
  }

  /** The agent is done and no submission waits: the status stays terminal. */
  predicate Quiet(s: Exec)
  {
    && Terminal(s.status) && Start !in s.inbox
    && !s.pc.Outside? && !s.pc.InDeploy? && !s.pc.InRun? && !s.pc.Finishing? && s.pc != Serving(Start)
  }

  lemma MoveQuiets(s: Exec, a: Answer)
    requires Quiet(s) && !s.pc.Ended?
    ensures var t := DoMove(s, a); Quiet(t) && (t.pc.Ended? || 1 + Work(t) <= Work(s))
  {
    assert Rank(NextPc(s, a)) < Rank(s.pc) + if Takes(s) then 8 else 0;
    if Takes(s) { assert s.inbox[0] in s.inbox; }
  }

  lemma StepQuiets(s: Exec, e: Event)
    requires Quiet(s) && !e.Enter? && e != Put(Start)
    ensures var t := Step(s, e);
      && Quiet(t) && (s.pc.Ended? ==> t.pc.Ended?)
      && (t.pc.Ended? || (if e.Move? then 1 else 0) + Work(t) <= Work(s) + (if e.Put? || e.Instructed? then 8 else 0))
  {
    if e.Move? && !s.pc.Ended? { MoveQuiets(s, e.a); }
  }

  /** Once the agent is done and no submission is put, the loop ends after a number of its own steps
      that only the operations still put can raise, however others interleave. */
  lemma {:induction false} DoneTakesEffect(states: seq<Exec>, es: seq<Event>, i: nat, j: nat)
    requires IsRun(states, es) && i <= j <= |es| && Quiet(states[i])
    requires forall k | i <= k < j :: !es[k].Enter? && es[k] != Put(Start)
    ensures var s, t := states[i], states[j];
      Quiet(t) && (t.pc.Ended? || Moves(es, i, j) + Work(t) <= Work(s) + 8 * Puts(es, i, j))
    decreases j
  {
    if i < j {
      DoneTakesEffect(states, es, i, j - 1);
      StepQuiets(states[j - 1], es[j - 1]);
      assert Link(states, es, j - 1);
    }
  }
}

/** The code of the loop.  Every state it reaches is one the machine reaches. */
module ExecutorLoop {
  import opened Options
  import opened ExecutorRuns

  /** How a call of `mainloop` stands: left by a `break`, by an exception, or not yet. */
  datatype End = Broke | Raised | StillTurning

  /** Where a turn that came to `end` leaves the loop. */
  function PcAfter(end: End): (pc: Pc)
  {
    match end case StillTurning => Top case Broke => Leaving(false) case Raised => Leaving(true)
  }

  /** Nothing was taken off the inbox meanwhile. */
  predicate Kept(a: Exec, b: Exec)
  {
    b.serviced == a.serviced && a.queued <= b.queued && (a.stopping ==> b.stopping)
  }

  class Executor {
    var status: Status
    var inbox: seq<Op>
    var settled: bool
    var result: Option<Status>
    var looping: bool
    var stopping: bool

    ghost var at: Exec            // the machine's state
    ghost var trace: seq<Event>   // the run that led to it
    ghost var states: seq<Exec>

    /** The fields are the machine's, and the machine came here by a run. */
    ghost predicate Valid()
      reads this
    {
      && status == at.status && inbox == at.inbox && settled == at.settled
      && result == at.result && looping == at.looping && stopping == at.stopping
      && IsRun(states, trace) && at == states[|trace|]
    }

    constructor ()
      ensures Valid() && at == FRESH
    {
      status, inbox, settled, result, looping, stopping := Pending, [], false, None, false, false;
      at, trace, states := FRESH, [], [FRESH];
      new;
      forall i ensures Link(states, trace, i) {}
    }

    /** The machine takes the step the fields have taken. */
    ghost method Follow(e: Event)
      requires IsRun(states, trace) && at == states[|trace|]
      requires var t := Step(at, e);
        && status == t.status && inbox == t.inbox && settled == t.settled
        && result == t.result && looping == t.looping && stopping == t.stopping
      modifies `at, `trace, `states
      ensures Valid() && at == Step(old(at), e) && trace == old(trace) + [e]
    {
      RunThen(states, trace, e);
      at, trace := Step(at, e), trace + [e];
      states := states + [at];
    }

    /** A `put` by another thread. */
    method OtherPut(op: Op, ghost e: Event)
      requires Valid() && Adds(at, e) == Some(op)
      modifies this
      ensures Valid() && at.pc == old(at.pc) && at.runs == old(at.runs) && Kept(old(at), at)
    {
      inbox := inbox + [op];
      Follow(e);
    }

    /** One write of another thread. */
    method OtherWrite(e: Event)
      requires Valid() && !e.Enter? && !e.Move? && !e.Interrupt? && Adds(at, e).None?
      modifies this
      ensures Valid() && at.pc == old(at.pc) && at.runs == old(at.runs) && Kept(old(at), at)
    {
      match e {
        case ClearSettled => settled := false;
        case ClearResult => result := None;
        case AskStop => stopping := true;
        case WriteResult(x) => if Terminal(x) { result := Some(x); }
        case WriteStatus(x) => if Terminal(x) { status := x; }
        case SetSettled => settled := true;
        case _ =>
      }
      Follow(e);
    }

    /** One step of another thread. */
    method Other(e: Event)
      requires Valid() && !e.Enter? && !e.Move? && !e.Interrupt?
      modifies this
      ensures Valid() && at.pc == old(at.pc) && at.runs == old(at.runs) && Kept(old(at), at)
    {
      if e.Put? { OtherPut(e.op, e); }
      else if e.Instructed? && !settled { OtherPut(Instruct(e.message), e); }
      else { OtherWrite(e); }
    }

    /** Any number of them. */
    method Others()
      requires Valid()
      modifies this
      ensures Valid() && at.pc == old(at.pc) && at.runs == old(at.runs) && Kept(old(at), at)
    {
      var es: seq<Event> := *;
      for i := 0 to |es|
        invariant Valid() && at.pc == old(at.pc) && at.runs == old(at.runs) && Kept(old(at), at)
      {
        if !es[i].Enter? && !es[i].Move? && !es[i].Interrupt? { Other(es[i]); }
      }
    }

    // ---- the loop's own steps ----

    /** `self._looping = True` */
    method Called()
      requires Valid() && (at.pc.Outside? || at.pc.Ended?)
      modifies this
      ensures Valid() && at.pc == Top && at.runs == old(at.runs) && Kept(old(at), at)
    {
      looping := true;
      Follow(Enter);
    }

    /** `_inbox.get(timeout=TICK)` */
    method Get() returns (op: Option<Op>)
      requires Valid() && at.pc == Top
      modifies this
      ensures Valid() && at.pc == match op case None => FoundEmpty case Some(x) => Serving(x)
      ensures at.queued == old(at.queued) && at.stopping == old(at.stopping) && at.runs == old(at.runs)
      ensures |at.serviced| == |old(at.serviced)| + if op.Some? then 1 else 0
    {
      if inbox == [] { op := None; }
      else { op, inbox := Some(inbox[0]), inbox[1..]; }
      Follow(Move(Throws));
    }

    /** `self.status in TERMINAL or self._stopping`, when there was nothing to get. */
    method IdleTest() returns (leave: bool)
      requires Valid() && at.pc == FoundEmpty
      modifies `at, `trace, `states
      ensures Valid() && at.pc == (if leave then Leaving(false) else Top) && (at.stopping ==> leave)
      ensures at.runs == old(at.runs) && Kept(old(at), at)
    {
      leave := Terminal(status) || stopping;
      Follow(Move(Throws));
    }

    /** `self.status in TERMINAL` after an operation. */
    method StatusTest() returns (terminal: bool)
      requires Valid() && at.pc == Served
      modifies `at, `trace, `states
      ensures Valid() && at.pc == if terminal then FoundTerminal else Top
      ensures at.runs == old(at.runs) && Kept(old(at), at)
    {
      terminal := Terminal(status);
      Follow(Move(Throws));
    }

    /** `and self._inbox.empty()` */
    method InboxTest() returns (leave: bool)
      requires Valid() && at.pc == FoundTerminal
      modifies `at, `trace, `states
      ensures Valid() && at.pc == if leave then Leaving(false) else Top
      ensures at.runs == old(at.runs) && Kept(old(at), at)
    {
      leave := inbox == [];
      Follow(Move(Throws));
    }

    /** `_deliver` */
    method Deliver(message: string) returns (raised: bool)
      requires Valid() && at.pc == Serving(Instruct(message))
      modifies `at, `trace, `states
      ensures Valid() && at.pc == if raised then Leaving(true) else Served
      ensures at.runs == old(at.runs) && Kept(old(at), at)
    {
      raised := *;
      Follow(Move(if raised then Throws else Goes(status)));
    }

    /** The guard of `_service_start`. */
    method BeginStart() returns (goes: bool)
      requires Valid() && at.pc == Serving(Start)
      modifies this
      ensures Valid() && goes == !old(at.stopping) && at.pc == if goes then InDeploy else Served
      ensures at.runs == old(at.runs) && Kept(old(at), at)
    {
      goes := !stopping;
      if goes { status := Deploying; }
      Follow(Move(Throws));
    }

    /** `_deploy`: a failure is recorded before it is raised. */
    method Deploy() returns (raised: bool)
      requires Valid() && at.pc == InDeploy
      modifies this
      ensures Valid() && at.pc == (if raised then Finishing(Failed, true) else InRun) && Kept(old(at), at)
    {
      raised := *;
      if raised { result := Some(Failed); } else { status := Running; }
      Follow(Move(if raised then Throws else Goes(status)));
    }

    /** `_on_started` and `_run`, and the first write of `_finish`. */
    method RunAgent() returns (raised: bool, outcome: Status)
      requires Valid() && at.pc == InRun
      modifies this
      ensures Valid() && at.pc == (if raised then Leaving(true) else Finishing(outcome, false)) && Kept(old(at), at)
    {
      raised, outcome := *, *;
      if !raised { result := Some(outcome); }
      Follow(Move(if raised then Throws else Goes(outcome)));
    }

    /** The guard of `_service_stop`, and the first write of its `_finish`. */
    method BeginStop() returns (done: bool)
      requires Valid() && at.pc == Serving(Stop)
      modifies this
      ensures Valid() && at.pc == if done then Served else Finishing(Interrupted, false)
      ensures at.runs == old(at.runs) && Kept(old(at), at)
    {
      done := Terminal(status);
      if !done { result := Some(Interrupted); }
      Follow(Move(Throws));
    }

    /** The second write of `_finish`. */
    method Finish(s: Status, ghost raises: bool)
      requires Valid() && at.pc == Finishing(s, raises)
      modifies this
      ensures Valid() && at.pc == if raises then Leaving(true) else Served
      ensures at.runs == old(at.runs) && Kept(old(at), at)
    {
      status := s;
      Follow(Move(Throws));
    }

    /** `self._looping = False` */
    method LowerFlag()
      requires Valid() && at.pc.Leaving?
      modifies this
      ensures Valid() && at.pc == Down(old(at.pc.raised)) && at.runs == old(at.runs) && Kept(old(at), at)
    {
      looping := false;
      Follow(Move(Throws));
    }

    /** The argument of `_settle`. */
    method ReadStatus() returns (given: Status)
      requires Valid() && at.pc.Down?
      modifies `at, `trace, `states
      ensures Valid()
      ensures at.pc == if Terminal(given) then SettleFlag(old(at.pc.raised)) else SettleStatus(old(at.pc.raised))
      ensures at.runs == old(at.runs) && Kept(old(at), at)
    {
      given := status;
      Follow(Move(Throws));
    }

    method FailStatus()
      requires Valid() && at.pc.SettleStatus?
      modifies this
      ensures Valid() && at.pc == SettleResult(old(at.pc.raised)) && at.runs == old(at.runs) && Kept(old(at), at)
    {
      status := Failed;
      Follow(Move(Throws));
    }

    method FailResult()
      requires Valid() && at.pc.SettleResult?
      modifies this
      ensures Valid() && at.pc == SettleFlag(old(at.pc.raised)) && at.runs == old(at.runs) && Kept(old(at), at)
    {
      if result.None? { result := Some(Failed); }
      Follow(Move(Throws));
    }

    method RaiseFlag()
      requires Valid() && at.pc.SettleFlag?
      modifies this
      ensures Valid() && settled && at.pc == Ended(old(at.pc.raised)) && at.runs == old(at.runs) && Kept(old(at), at)
    {
      settled := true;
      Follow(Move(Throws));
    }

    // ---- the code, with other threads between any two steps ----

    /** `_service_start` */
    method ServiceStart() returns (raised: bool)
      requires Valid() && at.pc == Serving(Start)
      modifies this
      ensures Valid() && at.pc == (if raised then Leaving(true) else Served) && Kept(old(at), at)
      ensures old(at.stopping) ==> at.runs == old(at.runs)
    {
      var goes := BeginStart();
      if !goes { return false; }
      Others();
      raised := Deploy();
      Others();
      if raised { Finish(Failed, true); } else { raised := Submit(); }
    }

    /** `self._finish(self._run())` */
    method Submit() returns (raised: bool)
      requires Valid() && at.pc == InRun
      modifies this
      ensures Valid() && at.pc == (if raised then Leaving(true) else Served) && Kept(old(at), at)
    {
      var outcome;
      raised, outcome := RunAgent();
      if raised { return; }
      Others();
      Finish(outcome, false);
    }

    /** `_service_stop` */
    method ServiceStop()
      requires Valid() && at.pc == Serving(Stop)
      modifies this
      ensures Valid() && at.pc == Served && at.runs == old(at.runs) && Kept(old(at), at)
    {
      var done := BeginStop();
      if done { return; }
      Others();
      Finish(Interrupted, false);
    }

    method Service(op: Op) returns (raised: bool)
      requires Valid() && at.pc == Serving(op)
      modifies this
      ensures Valid() && at.pc == (if raised then Leaving(true) else Served) && Kept(old(at), at)
      ensures old(at.stopping) ==> at.runs == old(at.runs)
    {
      match op
      case Start => raised := ServiceStart();
      case Instruct(m) => raised := Deliver(m);
      case Stop =>
        ServiceStop();
        raised := false;
    }

    /** `self.status in TERMINAL and self._inbox.empty()` */
    method ExitTest() returns (leave: bool)
      requires Valid() && at.pc == Served
      modifies this
      ensures Valid() && at.pc == (if leave then Leaving(false) else Top)
      ensures at.runs == old(at.runs) && Kept(old(at), at)
    {
      leave := StatusTest();
      if !leave { return; }
      Others();
      leave := InboxTest();
    }

    /** The `finally`, with `_settle(self.status)`. */
    method Settle()
      requires Valid() && at.pc.Leaving?
      modifies this
      ensures Valid() && settled && at.pc == Ended(old(at.pc.raised)) && at.runs == old(at.runs) && Kept(old(at), at)
    {
      LowerFlag();
      Others();
      var given := ReadStatus();
      Others();
      if !Terminal(given) { Fail(); }
      RaiseFlag();
    }

    /** `_settle` for a status that is not terminal. */
    method Fail()
      requires Valid() && at.pc.SettleStatus?
      modifies this
      ensures Valid() && at.pc == SettleFlag(old(at.pc.raised)) && at.runs == old(at.runs) && Kept(old(at), at)
    {
      FailStatus();
      Others();
      FailResult();
      Others();
    }

    /** One turn of the loop. */
    method Turn() returns (end: End)
      requires Valid() && at.pc == Top
      modifies this
      ensures Valid() && at.pc == PcAfter(end) && old(at.queued) <= at.queued
      ensures old(at.stopping) ==>
        at.stopping && at.runs == old(at.runs) && (end.StillTurning? ==> |at.serviced| == |old(at.serviced)| + 1)
    {
      var op := Get();
      Others();
      if op.None? {
        var leave := IdleTest();
        return if leave then Broke else StillTurning;
      }
      var raised := Service(op.value);
      if raised { return Raised; }
      Others();
      var leave := ExitTest();
      return if leave then Broke else StillTurning;
    }

    /** `mainloop`, observed for `turns` turns.  However it ends it has settled; by a `break` it
        leaves in the inbox exactly what was put after its last look; and with a stop asked for
        before it was entered, it ends within a turn of the last operation. */
    method MainLoop(turns: nat) returns (end: End)
      requires Valid() && (at.pc.Outside? || at.pc.Ended?)
      modifies this
      ensures Valid() && old(at.queued) <= at.queued
      ensures end.StillTurning? || at.pc == Ended(end.Raised?)
      ensures !end.StillTurning? ==> Terminal(status) && !looping && settled
      ensures end.Broke? ==>
        at.mark <= |at.queued| && at.serviced == at.queued[..at.mark] && inbox == at.queued[at.mark..]
      ensures old(stopping) ==> at.runs == old(at.runs)
      ensures old(stopping) && turns > |at.queued| - |old(at.serviced)| ==> !end.StillTurning?
    {
      Called();
      end := StillTurning;
      var left := turns;
      while end.StillTurning?
        invariant Valid() && at.pc == PcAfter(end) && old(at.queued) <= at.queued
        invariant old(at.stopping) ==> at.stopping && at.runs == old(at.runs)
        invariant old(at.stopping) && end.StillTurning? ==> turns - left == |at.serviced| - |old(at.serviced)|
        decreases left, end.StillTurning?
      {
        if left == 0 {
          Accounted();
          return;
        }
        left := left - 1;
        Others();
        end := Turn();
      }
      Others();
      Settle();
      Accounted();
    }

    /** What the machine promises of every run holds here. */
    lemma Accounted()
      requires Valid()
      ensures Inv(at)
    {
      RunKeepsInv(states, trace, |trace|);
    }
  }
}
