/**
 The unplanned-event buffer of `agent_sys/monitor/buffer.py`: a deduplicating,
 merging work queue.  Every method runs under one lock, so a method is one step
 and a concurrent history is a sequence of steps.
 */
module EventBuffer {
  import opened Options
  import opened Order

  datatype Record<T, R> = Record(task: T, event: R)
  datatype Unit<T, R> = Unit(task: T, records: seq<R>)

  datatype Queue<!T(==), R> = Queue(
    order: seq<T>,
    dirty: set<T>,
    processing: set<T>,
    records: map<T, seq<R>>,
    closed: bool)

  /** The documented invariant, and what the code keeps beside it. */
  ghost predicate Inv<T(!new), R>(s: Queue<T, R>)
  {
    && Distinct(s.order)
    && (forall t :: t in s.order <==> t in s.dirty && t !in s.processing)
    && s.records.Keys == s.dirty
    && (forall t | t in s.records :: s.records[t] != [])
  }

  // ---- what each method does to the state ----

  function Pending<T(==), R>(s: Queue<T, R>, t: T): (r: seq<R>) { if t in s.records then s.records[t] else [] }

  function AfterAdd<T(==), R>(s: Queue<T, R>, r: Record<T, R>): (s': Queue<T, R>)
  {
    if s.closed then s else
      var merged := s.(records := s.records[r.task := Pending(s, r.task) + [r.event]]);
      if r.task in s.dirty then merged
      else if r.task in s.processing then merged.(dirty := s.dirty + {r.task})
      else merged.(dirty := s.dirty + {r.task}, order := s.order + [r.task])
  }

  function AfterGet<T(==), R>(s: Queue<T, R>): (s': Queue<T, R>)
  {
    if s.order == [] then s else
      var t := s.order[0];
      s.(order := s.order[1..], dirty := s.dirty - {t}, processing := s.processing + {t}, records := s.records - {t})
  }

  function Taken<T(==), R>(s: Queue<T, R>): (u: Option<Unit<T, R>>)
  {
    if s.order == [] then None else Some(Unit(s.order[0], Pending(s, s.order[0])))
  }

  function AfterDone<T(==), R>(s: Queue<T, R>, t: T): (s': Queue<T, R>)
  {
    s.(processing := s.processing - {t}, order := if t in s.dirty then s.order + [t] else s.order)
  }

  // ---- the invariant, step by step ----

  lemma AddKeepsInv<T(!new), R>(s: Queue<T, R>, r: Record<T, R>)
    ensures Inv(s) ==> Inv(AfterAdd(s, r))
  {
  }

  lemma GetKeepsInv<T(!new), R>(s: Queue<T, R>)
    ensures Inv(s) ==> Inv(AfterGet(s))
    ensures Inv(s) && Taken(s).Some? ==> Taken(s).value.records != [] && Taken(s).value.task !in s.processing
  {
    if Inv(s) && s.order != [] {
      var t := s.order[0];
      assert t in s.order;
      forall x ensures x in s.order[1..] <==> x in s.order && x != t {}
    }
  }

  /** `done` for a task that is not out breaks the queue exactly when the task is queued. */
  lemma DoneKeepsInvExactly<T(!new), R>(s: Queue<T, R>, t: T)
    requires Inv(s)
    ensures Inv(AfterDone(s, t)) <==> t in s.processing || t !in s.dirty
  {
    var s' := AfterDone(s, t);
    if t in s.dirty && t !in s.processing {
      assert t in s.order;
      var i :| 0 <= i < |s.order| && s.order[i] == t;
      assert s'.order[i] == s'.order[|s.order|];
    } else if t in s.dirty {
      forall x ensures x in s'.order <==> x in s'.dirty && x !in s'.processing {}
    }
  }

  // ---- draining ----

  /** One `get` and its `done`. */
  ghost function Round<T, R>(s: Queue<T, R>): (s': Queue<T, R>)
    requires s.order != []
  {
    AfterDone(AfterGet(s), s.order[0])
  }

  lemma RoundOf<T(!new), R>(s: Queue<T, R>)
    requires Inv(s) && s.order != []
    ensures Inv(Round(s)) && Round(s).order == s.order[1..] && Round(s).processing == s.processing
    ensures Round(s).closed == s.closed
    ensures forall t | t in s.order[1..] || t in s.processing :: Pending(Round(s), t) == Pending(s, t)
  {
    var t := s.order[0];
    assert t in s.order;
    GetKeepsInv(s);
    DoneKeepsInvExactly(AfterGet(s), t);
    forall x | x in s.order[1..] ensures x != t {}
  }

  /** `s` is what `n` rounds leave of `before`. */
  ghost predicate Drained<T(!new), R>(before: Queue<T, R>, s: Queue<T, R>, n: nat)
  {
    && Inv(s) && s.closed && s.processing == before.processing
    && n <= |before.order| && s.order == before.order[n..]
    && forall t | t in s.order || t in s.processing :: Pending(s, t) == Pending(before, t)
  }

  lemma DrainTurn<T(!new), R>(before: Queue<T, R>, s: Queue<T, R>, n: nat)
    requires Drained(before, s, n) && s.order != []
    ensures Drained(before, Round(s), n + 1)
    ensures Taken(s) == Some(Unit(before.order[n], Pending(before, before.order[n])))
  {
    RoundOf(s);
    assert s.order[0] in s.order;
    assert before.order[n..][1..] == before.order[n + 1..];
    forall t | t in s.order[1..] ensures t in s.order {}
  }

  /** The units are those of the first tasks in line, each with all its records. */
  ghost predicate Delivered<T, R>(before: Queue<T, R>, units: seq<Unit<T, R>>)
  {
    && |units| <= |before.order|
    && forall i | 0 <= i < |units| :: units[i] == Unit(before.order[i], Pending(before, before.order[i]))
  }

  lemma DeliverOne<T, R>(before: Queue<T, R>, units: seq<Unit<T, R>>, u: Unit<T, R>)
    requires Delivered(before, units) && |units| < |before.order|
    requires u == Unit(before.order[|units|], Pending(before, before.order[|units|]))
    ensures Delivered(before, units + [u])
  {
  }

  lemma {:induction false} SizeOfOrder<T>(order: seq<T>, dirty: set<T>)
    requires Distinct(order) && forall t :: t in order <==> t in dirty
    ensures |order| == |dirty|
  {
    if order != [] {
      assert order[0] in dirty && order[0] !in order[1..];
      SizeOfOrder(order[1..], dirty - {order[0]});
    } else {
      assert dirty == {};
    }
  }

  lemma DrainStart<T(!new), R>(s: Queue<T, R>)
    requires Inv(s) && s.closed
    ensures Drained(s, s, 0) && Delivered(s, []) && (s.processing == {} ==> |s.order| == |s.dirty|)
  {
    if s.processing == {} { SizeOfOrder(s.order, s.dirty); }
    assert s.order[0..] == s.order;
  }

  /** What a drained buffer still holds: the reports of the tasks that are out. */
  function OutOnly<T(==), R>(s: Queue<T, R>): (r: Queue<T, R>)
  {
    Queue([], s.dirty * s.processing, s.processing, map t | t in s.records && t in s.processing :: s.records[t], true)
  }

  lemma OutIsLeft<T(!new), R>(before: Queue<T, R>, s: Queue<T, R>, n: nat)
    requires Inv(before) && Drained(before, s, n) && s.order == []
    ensures s == OutOnly(before) && n == |before.order|
    ensures before.processing == {} ==> s == Queue([], {}, {}, map[], true)
  {
    var left := OutOnly(before);
    forall t ensures t in s.dirty <==> t in left.dirty {
      if t in s.processing { assert Pending(s, t) == Pending(before, t); }
    }
    assert s.dirty == left.dirty && s.records.Keys == left.records.Keys;
    forall t | t in s.records ensures s.records[t] == left.records[t] { assert Pending(s, t) == Pending(before, t); }
    assert s.records == left.records;
  }

  // ---- the class ----

  class ExceptionBuffer<T(==, !new), R(!new)> {
    var order: seq<T>
    var dirty: set<T>
    var processing: set<T>
    var records: map<T, seq<R>>
    var closed: bool

    ghost function View(): Queue<T, R> reads this
    {
      Queue(order, dirty, processing, records, closed)
    }

    constructor ()
      ensures View() == Queue([], {}, {}, map[], false) && Inv(View())
    {
      order, dirty, processing, records, closed := [], {}, {}, map[], false;
    }

    /** Refused only after `shutdown`. */
    method Add(r: Record<T, R>) returns (accepted: bool)
      modifies this
      ensures accepted == !old(closed)
      ensures View() == AfterAdd(old(View()), r)
      ensures old(Inv(View())) ==> Inv(View())
    {
      ghost var before := View();
      AddKeepsInv(before, r);
      if closed { return false; }
      var bucket := if r.task in records then records[r.task] else [];
      records := records[r.task := bucket + [r.event]];
      accepted := true;
      if r.task in dirty { return; }
      dirty := dirty + {r.task};
      if r.task in processing { return; }
      order := order + [r.task];
    }

    /** The step taken once the wait is over; `None` when there is nothing to do. */
    method Get() returns (u: Option<Unit<T, R>>)
      modifies this
      ensures u == Taken(old(View()))
      ensures View() == AfterGet(old(View()))
      ensures old(Inv(View())) ==> Inv(View()) && (u.Some? ==> u.value.records != [])
    {
      ghost var before := View();
      GetKeepsInv(before);
      if order == [] { return None; }
      var t := order[0];
      order := order[1..];
      dirty := dirty - {t};
      processing := processing + {t};
      u := Some(Unit(t, if t in records then records[t] else []));
      records := records - {t};
    }

    method Done(t: T)
      modifies this
      ensures View() == AfterDone(old(View()), t)
      ensures old(Inv(View())) ==> (Inv(View()) <==> old(t in processing || t !in dirty))
    {
      ghost var before := View();
      if Inv(before) { DoneKeepsInvExactly(before, t); }
      processing := processing - {t};
      if t in dirty { order := order + [t]; }
    }

    method Shutdown()
      modifies this
      ensures View() == old(View()).(closed := true)
    {
      closed := true;
    }

    /** `get`, then `done` for the unit it returned. */
    method Turn() returns (u: Unit<T, R>)
      requires Inv(View()) && order != []
      modifies this
      ensures View() == Round(old(View())) && Some(u) == Taken(old(View()))
    {
      var got := Get();
      u := got.value;
      Done(u.task);
    }

    /** One round of a consumer that has had `units`. */
    method DrainOne(ghost before: Queue<T, R>, units: seq<Unit<T, R>>) returns (more: seq<Unit<T, R>>)
      requires Drained(before, View(), |units|) && Delivered(before, units) && order != []
      modifies this
      ensures Drained(before, View(), |more|) && Delivered(before, more) && |more| == |units| + 1
    {
      DrainTurn(before, View(), |units|);
      var u := Turn();
      DeliverOne(before, units, u);
      more := units + [u];
    }

    /** A consumer after `shutdown`: `get` and `done` in turn.  It delivers every queued task once,
        in queue order, in as many rounds as there were, and leaves exactly the reports of tasks
        that others have out.  With none out that is nothing, after as many rounds as there
        were dirty tasks. */
    method Drain() returns (units: seq<Unit<T, R>>)
      requires Inv(View()) && closed
      modifies this
      ensures Inv(View()) && View() == OutOnly(old(View()))
      ensures |units| == old(|order|) && Delivered(old(View()), units)
      ensures old(processing) == {} ==> View() == Queue([], {}, {}, map[], true) && |units| == old(|dirty|)
    {
      ghost var before := View();
      units := [];
      DrainStart(before);
      while order != []
        invariant Drained(before, View(), |units|) && Delivered(before, units)
        decreases |before.order| - |units|
      {
        units := DrainOne(before, units);
      }
      OutIsLeft(before, View(), |units|);
    }
  }
}

/** Whole histories of the buffer. */
module BufferRuns {
  import opened EventBuffer

  datatype Op<T, R> = OpAdd(r: Record<T, R>) | OpGet | OpDone(t: T) | OpShutdown

  /** The buffer, and what its clients have seen: records it accepted, units it
      handed out, and which of those units are still out. */
  datatype World<!T(==), R> = World(
    q: Queue<T, R>,
    accepted: seq<Record<T, R>>,
    units: seq<Unit<T, R>>,
    out: multiset<T>)

  function Start<T(==), R>(): World<T, R> { World(Queue([], {}, {}, map[], false), [], [], multiset{}) }

  function Step<T(==), R>(w: World<T, R>, op: Op<T, R>): (w': World<T, R>)
  {
    match op
    case OpAdd(r) => w.(q := AfterAdd(w.q, r), accepted := if w.q.closed then w.accepted else w.accepted + [r])
    case OpGet =>
      (match Taken(w.q)
       case None => w
       case Some(u) => w.(q := AfterGet(w.q), units := w.units + [u], out := w.out + multiset{u.task}))
    case OpDone(t) => w.(q := AfterDone(w.q, t), out := w.out - multiset{t})
    case OpShutdown => w.(q := w.q.(closed := true))
  }

  function Run<T(==), R>(w: World<T, R>, ops: seq<Op<T, R>>): (w': World<T, R>)
    decreases |ops|
  {
    if ops == [] then w else Run(Step(w, ops[0]), ops[1..])
  }

  /** The client discipline: `done` once for each unit `get` returned. */
  predicate Disciplined<T(==), R>(w: World<T, R>, ops: seq<Op<T, R>>)
    decreases |ops|
  {
    ops == [] || ((ops[0].OpDone? ==> ops[0].t in w.out) && Disciplined(Step(w, ops[0]), ops[1..]))
  }

  function EventsOf<T(==), R>(rs: seq<Record<T, R>>, t: T): (es: seq<R>)
  {
    if rs == [] then [] else
      EventsOf(rs[..|rs| - 1], t) + (if rs[|rs| - 1].task == t then [rs[|rs| - 1].event] else [])
  }

  function HandedOut<T(==), R>(us: seq<Unit<T, R>>, t: T): (es: seq<R>)
  {
    if us == [] then [] else
      HandedOut(us[..|us| - 1], t) + (if us[|us| - 1].task == t then us[|us| - 1].records else [])
  }

  // ---- nothing lost, repeated or reordered: for every history, disciplined or not ----

  ghost predicate Conserved<T(!new), R>(w: World<T, R>)
  {
    forall t :: HandedOut(w.units, t) + Pending(w.q, t) == EventsOf(w.accepted, t)
  }

  lemma AddConserves<T(!new), R>(w: World<T, R>, r: Record<T, R>, t: T)
    requires HandedOut(w.units, t) + Pending(w.q, t) == EventsOf(w.accepted, t) && !w.q.closed
    ensures HandedOut(w.units, t) + Pending(AfterAdd(w.q, r), t) == EventsOf(w.accepted + [r], t)
  {
    var news := if t == r.task then [r.event] else [];
    assert (w.accepted + [r])[..|w.accepted|] == w.accepted;
    assert EventsOf(w.accepted + [r], t) == EventsOf(w.accepted, t) + news;
    assert Pending(AfterAdd(w.q, r), t) == Pending(w.q, t) + news;
    assert HandedOut(w.units, t) + (Pending(w.q, t) + news) == (HandedOut(w.units, t) + Pending(w.q, t)) + news;
  }

  lemma GetConserves<T(!new), R>(w: World<T, R>, t: T)
    requires w.q.order != []
    ensures HandedOut(w.units + [Taken(w.q).value], t) + Pending(AfterGet(w.q), t) ==
      HandedOut(w.units, t) + Pending(w.q, t)
  {
    var us := w.units + [Taken(w.q).value];
    assert us[..|us| - 1] == w.units;
  }

  lemma StepConserves<T(!new), R>(w: World<T, R>, op: Op<T, R>)
    requires Conserved(w)
    ensures Conserved(Step(w, op))
  {
    match op
    case OpAdd(r) =>
      if !w.q.closed { forall t { AddConserves(w, r, t); } }
    case OpGet =>
      if w.q.order != [] { forall t { GetConserves(w, t); } }
    case OpDone(d) =>
      assert forall t :: Pending(AfterDone(w.q, d), t) == Pending(w.q, t);
    case OpShutdown =>
      assert forall t :: Pending(w.q.(closed := true), t) == Pending(w.q, t);
  }

  lemma {:induction false} RunConserves<T(!new), R>(w: World<T, R>, ops: seq<Op<T, R>>)
    requires Conserved(w)
    ensures Conserved(Run(w, ops))
    decreases |ops|
  {
    if ops != [] {
      StepConserves(w, ops[0]);
      RunConserves(Step(w, ops[0]), ops[1..]);
    }
  }

  /** Whatever the interleaving, the records of a task across the units handed out,
      followed by its pending ones, are the records accepted for it, in order. */
  lemma NoRecordLost<T(!new), R>(ops: seq<Op<T, R>>, t: T)
    ensures var w := Run(Start(), ops);
      HandedOut(w.units, t) + Pending(w.q, t) == EventsOf(w.accepted, t)
  {
    RunConserves(Start(), ops);
  }

  // ---- one unit per task ----

  ghost predicate Good<T(!new), R>(w: World<T, R>)
  {
    && Inv(w.q)
    && w.out == multiset(w.q.processing)
    && (forall u | u in w.units :: u.records != [])
  }

  lemma StepGood<T(!new), R>(w: World<T, R>, op: Op<T, R>)
    requires Good(w) && (op.OpDone? ==> op.t in w.out)
    ensures Good(Step(w, op))
  {
    match op
    case OpAdd(r) => AddKeepsInv(w.q, r);
    case OpGet =>
      GetKeepsInv(w.q);
      if w.q.order != [] {
        var t := w.q.order[0];
        assert t in w.q.order;
        assert multiset(w.q.processing + {t}) == multiset(w.q.processing) + multiset{t};
      }
    case OpDone(t) => DoneKeepsInvExactly(w.q, t);
    case OpShutdown =>
  }

  lemma {:induction false} RunGood<T(!new), R>(w: World<T, R>, ops: seq<Op<T, R>>)
    requires Good(w) && Disciplined(w, ops)
    ensures Good(Run(w, ops))
    decreases |ops|
  {
    if ops != [] {
      StepGood(w, ops[0]);
      RunGood(Step(w, ops[0]), ops[1..]);
    }
  }

  /** In every reachable state the queue is the dirty tasks that are not out, once each;
      every unit is non-empty; no task is out twice. */
  lemma OneUnitPerTask<T(!new), R>(ops: seq<Op<T, R>>, t: T)
    requires Disciplined(Start(), ops)
    ensures var w := Run(Start(), ops);
      && Inv(w.q) && w.out[t] <= 1 && (w.out[t] == 1 <==> t in w.q.processing)
      && forall u | u in w.units :: u.records != []
  {
    RunGood(Start(), ops);
  }

  // ---- first in, first out: for every history ----

  /** Between `w` and `w'`: the task at position `i` is the `(i+1)`-th handed out, or has
      moved up one place for each unit handed out. */
  predicate InLine<T(==), R>(w: World<T, R>, w': World<T, R>, i: nat)
    requires i < |w.q.order|
  {
    var k := |w'.units| - |w.units|;
    && 0 <= k
    && (i < k ==> w'.units[|w.units| + i].task == w.q.order[i])
    && (k <= i ==> i - k < |w'.q.order| && w'.q.order[i - k] == w.q.order[i])
  }

  lemma StepInLine<T, R>(w: World<T, R>, op: Op<T, R>)
    requires w.q.order != []
    ensures var v := Step(w, op);
      if op.OpGet? then
        |v.units| == |w.units| + 1 && v.units[|w.units|].task == w.q.order[0] && v.q.order == w.q.order[1..]
      else v.units == w.units && w.q.order <= v.q.order
  {
  }

  lemma {:induction false} FirstInFirstOut<T, R>(w: World<T, R>, ops: seq<Op<T, R>>, i: nat)
    requires i < |w.q.order|
    ensures InLine(w, Run(w, ops), i)
    decreases |ops|
  {
    if ops != [] {
      StepInLine(w, ops[0]);
      var v := Step(w, ops[0]);
      if !ops[0].OpGet? { FirstInFirstOut(v, ops[1..], i); }
      else if i > 0 { FirstInFirstOut(v, ops[1..], i - 1); }
      else { UnitsOnlyGrow(v, ops[1..]); }
    }
  }

  lemma {:induction false} UnitsOnlyGrow<T, R>(w: World<T, R>, ops: seq<Op<T, R>>)
    ensures w.units <= Run(w, ops).units
    decreases |ops|
  {
    if ops != [] { UnitsOnlyGrow(Step(w, ops[0]), ops[1..]); }
  }

  // ---- a task that is out ----

  /** From `w` to `w'` the task `t` was handed out no more, and its reports accumulated. */
  ghost predicate Held<T, R>(w: World<T, R>, w': World<T, R>, t: T)
  {
    && w.units <= w'.units
    && (forall i | |w.units| <= i < |w'.units| :: w'.units[i].task != t)
    && Pending(w.q, t) <= Pending(w'.q, t)
  }

  lemma StepHolds<T(!new), R>(w: World<T, R>, op: Op<T, R>, t: T)
    requires Good(w) && t in w.out && op != OpDone(t)
    ensures Held(w, Step(w, op), t) && t in Step(w, op).out
  {
    if op.OpGet? && w.q.order != [] { assert w.q.order[0] in w.q.order; }
  }

  lemma HeldOn<T, R>(u: World<T, R>, v: World<T, R>, w: World<T, R>, t: T)
    requires Held(u, v, t) && Held(v, w, t)
    ensures Held(u, w, t)
  {
    forall i | |u.units| <= i < |w.units| ensures w.units[i].task != t {
      if i < |v.units| { assert w.units[i] == v.units[i]; }
    }
  }

  /** Until its own `done`, a task that is out is not handed out again and is not queued;
      what is reported of it meanwhile accumulates. */
  lemma {:induction false} OutUntilDone<T(!new), R>(w: World<T, R>, ops: seq<Op<T, R>>, t: T)
    requires Good(w) && Disciplined(w, ops) && t in w.out
    requires OpDone(t) !in ops
    ensures var w' := Run(w, ops); Good(w') && t in w'.out && t !in w'.q.order && Held(w, w', t)
    decreases |ops|
  {
    if ops != [] {
      var v := Step(w, ops[0]);
      assert ops[0] in ops;
      StepGood(w, ops[0]);
      StepHolds(w, ops[0], t);
      OutUntilDone(v, ops[1..], t);
      HeldOn(w, v, Run(w, ops), t);
    }
  }

  /** A task reported while it is out goes back to the end of the queue with its `done`,
      and the unit it then gets carries the report. */
  lemma ReportedWhileOut<T(!new), R>(w: World<T, R>, r: Record<T, R>, ops: seq<Op<T, R>>)
    requires Good(w) && r.task in w.out && !w.q.closed
    requires Disciplined(w, [OpAdd(r)] + ops) && OpDone(r.task) !in ops
    ensures var w' := Step(Run(w, [OpAdd(r)] + ops), OpDone(r.task));
      && w'.q.order != [] && w'.q.order[|w'.q.order| - 1] == r.task
      && r.event in Pending(w'.q, r.task)
  {
    var all := [OpAdd(r)] + ops;
    assert all[1..] == ops;
    StepGood(w, OpAdd(r));
    var v := Step(w, OpAdd(r));
    assert Pending(v.q, r.task)[|Pending(v.q, r.task)| - 1] == r.event;
    OutUntilDone(v, ops, r.task);
  }
}
