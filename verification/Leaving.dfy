/** Shutting down: what the three reads of stopping() are worth, and who is still there when a thread ends. */
module Leaving {
  import opened Bytes
  import opened Sequences
  import opened Scheduling
  import opened Runtime
  import opened RuntimeRuns
  import R = Readiness

  // ---------- nothing to do ----------

  /**
   * How much the workers have in hand on the way to the run queue: drained callbacks, and fibers that are ready again.
   */
  function Carried(ws: seq<Worker>): nat {
    if ws == [] then 0 else |Held(ws[0])| + Carried(ws[1..])
  }

  lemma {:induction false} CarriedUpdate(ws: seq<Worker>, i: nat, d: Worker)
    requires i < |ws|
    ensures Carried(ws[i := d]) + |Held(ws[i])| == Carried(ws) + |Held(d)|
    decreases i
  {
    if i > 0 {
      CarriedUpdate(ws[1..], i - 1, d);
      assert ws[i := d][1..] == ws[1..][i - 1 := d];
    } else {
      assert ws[i := d][1..] == ws[1..];
    }
  }

  lemma {:induction false} NobodyCarries(ws: seq<Worker>)
    ensures Carried(ws) == 0 <==> forall i :: 0 <= i < |ws| ==> Held(ws[i]) == []
    decreases |ws|
  {
    if ws != [] {
      NobodyCarries(ws[1..]);
      assert forall i :: 1 <= i < |ws| ==> ws[i] == ws[1..][i - 1];
      assert forall i :: 0 <= i < |ws[1..]| ==> ws[1..][i] == ws[i + 1];
    }
  }

  /** Nothing to do, and nobody who could make something to do. */
  predicate Calm(w: World) {
    w.timers == [] && w.table.pending == 0 && w.queue == [] && w.active == 0 && Carried(w.workers) == 0
  }

  /** Nothing to do, and stop requested. */
  predicate Over(w: World) {
    w.stop && Calm(w)
  }

  lemma {:induction false} NobodyBusy(ws: seq<Worker>, i: nat)
    requires Busy(ws) == 0 && i < |ws|
    ensures !ws[i].doing.Claimed? && !ws[i].doing.Inside?
    decreases i
  {
    if i > 0 {
      NobodyBusy(ws[1..], i - 1);
    }
  }

  lemma {:induction false} NoBits(ctxs: seq<R.FdContext>, fd: nat)
    requires R.Bits(ctxs) == 0 && fd < |ctxs|
    ensures ctxs[fd].events == R.NONE
    decreases fd
  {
    if fd > 0 {
      NoBits(ctxs[1..], fd - 1);
    }
  }

  /** Then no worker has a task or anything in hand, and nobody waits in the table. */
  lemma CalmMeansIdle(w: World)
    requires Inv(w) && Calm(w)
    ensures forall i :: 0 <= i < |w.workers| ==> EmptyHanded(w.workers[i])
    ensures forall fd: nat, e :: R.Waiting(w.table, fd, e) == []
    ensures forall fd :: 0 <= fd < |w.table.ctxs| ==> w.table.ctxs[fd].events == R.NONE
  {
    NobodyCarries(w.workers);
    forall i | 0 <= i < |w.workers|
      ensures EmptyHanded(w.workers[i])
    {
      NobodyBusy(w.workers, i);
      assert WorkerOk(w.workers[i]);
    }
    forall fd | 0 <= fd < |w.table.ctxs|
      ensures w.table.ctxs[fd].events == R.NONE
    {
      NoBits(w.table.ctxs, fd);
    }
  }

  /** A step of a worker, or the request to stop. */
  predicate FromWithin(s: Step) {
    s.Outside? ==> s.act.RequestStop?
  }

  predicate AllFromWithin(steps: seq<Step>) {
    forall k :: 0 <= k < |steps| ==> FromWithin(steps[k])
  }

  /** What a worker does in a task, in its loop, and in its idle fiber. */
  predicate InTask(s: Step) {
    s.CallWake? || s.Does? || s.WaitEvent? || s.Sleep? || s.Requeue? || s.End?
  }

  predicate InLoop(s: Step) {
    s.Claim? || s.Begin? || s.Leave?
  }

  predicate InIdle(s: Step) {
    s.ReadTimers? || s.ReadEvents? || s.ReadScheduler? || s.Expire? || s.Deliver? || s.Report?
  }

  lemma CalmReport(w: World, s: Step)
    requires Inv(w) && Calm(w) && s.Report?
    ensures Then(w, s) == w
  {
    CalmMeansIdle(w);
  }

  /** Of the steps of a worker only those that move it from one empty-handed place to another are left. */
  lemma CalmMove(w: World, s: Step)
    requires Inv(w) && Calm(w) && !s.Outside? && !s.Report? && Go(w, s).Next?
    ensures var u := Go(w, s).world;
            && s.i < |w.workers| == |u.workers| && u == w.(workers := w.workers[s.i := u.workers[s.i]])
            && Held(w.workers[s.i]) == Held(u.workers[s.i]) == []
            && (w.stop ==> Rank(u.workers[s.i]) < Rank(w.workers[s.i]))
  {
    CalmMeansIdle(w);
    assert EmptyHanded(w.workers[s.i]);
  }

  /** From within, nothing becomes of nothing: only the workers move. */
  lemma CalmStep(w: World, s: Step)
    requires Inv(w) && Calm(w) && FromWithin(s)
    ensures var u := Then(w, s);
            u == w.(workers := u.workers, stop := u.stop) && Calm(u) && (w.stop ==> u.stop)
  {
    if s.Report? {
      CalmReport(w, s);
    } else if !s.Outside? && Go(w, s).Next? {
      CalmMove(w, s);
      CarriedUpdate(w.workers, s.i, Go(w, s).world.workers[s.i]);
    }
  }

  lemma {:induction false} CalmForever(w: World, steps: seq<Step>)
    requires Inv(w) && Calm(w) && AllFromWithin(steps)
    ensures Inv(Run(w, steps)) && Calm(Run(w, steps)) && Run(w, steps).fibers == w.fibers
            && (w.stop ==> Run(w, steps).stop)
    decreases |steps|
  {
    if steps != [] {
      RunCons(w, steps);
      StepGood(w, steps[0]);
      CalmStep(w, steps[0]);
      CalmForever(Then(w, steps[0]), steps[1..]);
    }
  }

  /** How far a worker is from leaving. */
  function Rank(d: Worker): nat {
    match d.doing
    case Polling => 6
    case Scan => if d.idleDone then 1 else 5
    case IdleTop => 4
    case SawNoTimer => 3
    case SawNoEvent => 2
    case Gone => 0
    case _ => 7
  }

  function Ranks(ws: seq<Worker>): nat {
    if ws == [] then 0 else Rank(ws[0]) + Ranks(ws[1..])
  }

  lemma {:induction false} RanksUpdate(ws: seq<Worker>, i: nat, d: Worker)
    requires i < |ws|
    ensures Ranks(ws[i := d]) + Rank(ws[i]) == Ranks(ws) + Rank(d)
    decreases i
  {
    if i > 0 {
      RanksUpdate(ws[1..], i - 1, d);
      assert ws[i := d][1..] == ws[1..][i - 1 := d];
    } else {
      assert ws[i := d][1..] == ws[1..];
    }
  }

  /**
   * Once stop is requested and there is nothing to do, every step of a worker, each read of stopping() by itself too,
   * brings it closer to leaving; only a stale report of the kernel changes nothing.
   */
  lemma QuietStep(w: World, s: Step)
    requires Inv(w) && Over(w) && !s.Outside? && Go(w, s).Next?
    ensures var u := Go(w, s).world;
            && Over(u) && u == w.(workers := u.workers)
            && (if s.Report? then u == w else Ranks(u.workers) < Ranks(w.workers))
  {
    var u := Go(w, s).world;
    if s.Report? {
      CalmReport(w, s);
    } else {
      CalmMove(w, s);
      RanksUpdate(w.workers, s.i, u.workers[s.i]);
      CarriedUpdate(w.workers, s.i, u.workers[s.i]);
    }
  }

  predicate Moves(w: World, s: Step) {
    !s.Outside? && !s.Report? && Go(w, s).Next?
  }

  /** And as long as a worker is left it has such a step. */
  lemma QuietProgress(w: World, i: nat)
    requires Inv(w) && Over(w) && i < |w.workers| && w.workers[i].doing != Gone
    ensures exists s :: Moves(w, s)
  {
    CalmMeansIdle(w);
    assert EmptyHanded(w.workers[i]);
    match w.workers[i].doing
    case Scan => assert Moves(w, Claim(i));
    case IdleTop => assert Moves(w, ReadTimers(i));
    case SawNoTimer => assert Moves(w, ReadEvents(i));
    case SawNoEvent => assert Moves(w, ReadScheduler(i));
    case Polling => assert Moves(w, Leave(i));
  }

  /** How many steps of a run are possible and not a report. */
  function Effective(w: World, steps: seq<Step>): nat
    decreases |steps|
  {
    if steps == [] then 0
    else (if Moves(w, steps[0]) then 1 else 0) + Effective(Then(w, steps[0]), steps[1..])
  }

  /** So shutting down is bounded by the ranks of the workers, at most seven steps each. */
  lemma {:induction false} QuietEnds(w: World, steps: seq<Step>)
    requires Inv(w) && Over(w) && forall k :: 0 <= k < |steps| ==> !steps[k].Outside?
    ensures Effective(w, steps) + Ranks(Run(w, steps).workers) <= Ranks(w.workers)
    decreases |steps|
  {
    if steps != [] {
      RunCons(w, steps);
      StepGood(w, steps[0]);
      if Go(w, steps[0]).Next? {
        QuietStep(w, steps[0]);
      }
      QuietEnds(Then(w, steps[0]), steps[1..]);
    }
  }

  // ---------- what comes and goes ----------

  /** What the step asks of the runtime on behalf of others. */
  function ActOf(s: Step): Option<Act> {
    match s
    case Outside(act) => Some(act)
    case Does(_, act) => Some(act)
    case _ => None
  }

  /** Timers that a step puts into the set, and takes out for good. */
  function TimersIn(w: World, s: Step): nat {
    if Go(w, s).Next? && (s.Sleep? || (ActOf(s).Some? && ActOf(s).value.AddTimer?)) then 1 else 0
  }

  function TimersOut(w: World, s: Step): nat {
    if !Go(w, s).Next? then 0
    else
      match s
      case Expire(_, k) => if k < |w.timers| && !w.timers[k].recurring then 1 else 0
      case _ => One(ActOf(s).Some? && ActOf(s).value.CancelTimer?)
  }

  /** Events that a step arms, and those whose bit it clears. */
  function EventsIn(w: World, s: Step): nat {
    if !Go(w, s).Next? then 0
    else
      match s
      case WaitEvent(_, _, _, ctl) => One(ctl)
      case _ => One(ActOf(s).Some? && ActOf(s).value.ArmCallback? && ActOf(s).value.ctl)
  }

  function OutOf(o: R.Outcome): nat {
    match o
    case Asserted => 0
    case Done(_, _, dropped, sent) => |dropped| + |sent|
  }

  function EventsOut(w: World, s: Step): nat {
    if !Go(w, s).Next? then 0
    else
      match s
      case Report(_, fd, ep, ctl) => if fd < |w.table.ctxs| then OutOf(R.Dispatch(w.table, fd, ep, ctl)) else 0
      case _ =>
        match ActOf(s)
        case Some(Touch(call)) =>
          if |w.table.ctxs| >= R.INITIAL && !call.Idle? then OutOf(R.Apply(w.table, call)) else 0
        case _ => 0
  }

  /** What a step takes in hand, and what it hands to the run queue. */
  function HandIn(w: World, s: Step): nat {
    One(Go(w, s).Next? && (s.Expire? || (s.End? && s.how.ToReady?)))
  }

  function HandOut(w: World, s: Step): nat {
    if s.Deliver? && s.i < |w.workers| && Go(w, s).Next? then |Held(w.workers[s.i])| else 0
  }

  /** Only the drain, the end of a fiber that is ready again and the delivery change what a worker has in hand. */
  lemma HeldStep(w: World, s: Step)
    requires InIdle(s) && s.i < |w.workers| && Go(w, s).Next?
    ensures var u := Go(w, s).world;
            s.i < |u.workers| && |Held(u.workers[s.i])| + HandOut(w, s) == |Held(w.workers[s.i])| + HandIn(w, s)
  {
  }

  lemma LoopHandStep(w: World, s: Step)
    requires InLoop(s) && s.i < |w.workers| && Go(w, s).Next?
    ensures var u := Go(w, s).world;
            s.i < |u.workers| && Held(u.workers[s.i]) == [] && Held(w.workers[s.i]) == []
  {
  }

  lemma TaskHandStep(w: World, s: Step)
    requires InTask(s) && s.i < |w.workers| && Go(w, s).Next?
    ensures var u := Go(w, s).world;
            s.i < |u.workers| && |Held(u.workers[s.i])| == HandIn(w, s) && Held(w.workers[s.i]) == []
  {
  }

  lemma CarriedStep(w: World, s: Step)
    ensures Carried(Then(w, s).workers) + HandOut(w, s) == Carried(w.workers) + HandIn(w, s)
  {
    OneWorkerSteps(w, s);
    if !s.Outside? && s.i < |w.workers| && Go(w, s).Next? {
      if InIdle(s) {
        HeldStep(w, s);
      } else if InLoop(s) {
        LoopHandStep(w, s);
      } else {
        TaskHandStep(w, s);
      }
      CarriedOne(w.workers, Then(w, s).workers, s.i);
    }
  }

  lemma CarriedOne(ws: seq<Worker>, us: seq<Worker>, i: nat)
    requires i < |ws| == |us| && (us == ws || us == ws[i := us[i]])
    ensures Carried(us) + |Held(ws[i])| == Carried(ws) + |Held(us[i])|
  {
    CarriedUpdate(ws, i, us[i]);
  }

  lemma PerformBalance(w: World, act: Act)
    requires Inv(w) && Perform(w, act).Next?
    ensures var u := Perform(w, act).world;
            && |u.timers| + One(act.CancelTimer?) == |w.timers| + One(act.AddTimer?)
            && u.table.pending + (if act.Touch? then OutOf(R.Apply(w.table, act.call)) else 0)
            == w.table.pending + One(act.ArmCallback? && act.ctl)
  {
    match act
    case ArmCallback(fd, e, cb, ctl) => R.AddSpec(w.table, fd, e, Some(cb), 0, SELF, ctl);
    case Touch(call) =>
      match call {
        case Del(fd, e, ctl) => R.DelSpec(w.table, fd, e, ctl);
        case Cancel(fd, e, ctl) => R.CancelSpec(w.table, fd, e, ctl);
        case CancelEvery(fd, ctl) => R.CancelAllSpec(w.table, fd, ctl);
        case _ =>
      }
    case _ =>
  }

  lemma StepBalance(w: World, s: Step)
    requires Inv(w)
    ensures var u := Then(w, s);
            && |u.timers| + TimersOut(w, s) == |w.timers| + TimersIn(w, s)
            && u.table.pending + EventsOut(w, s) == w.table.pending + EventsIn(w, s)
  {
    if Go(w, s).Next? {
      if ActOf(s).Some? {
        PerformBalance(w, ActOf(s).value);
        assert Go(w, s) == Perform(w, ActOf(s).value);
      } else {
        OwnBalance(w, s);
      }
    }
  }

  lemma ReportBalance(w: World, s: Step)
    requires Inv(w) && Go(w, s).Next? && s.Report?
    ensures var u := Go(w, s).world;
            u.timers == w.timers && u.table.pending + EventsOut(w, s) == w.table.pending
  {
    R.DispatchSpec(w.table, s.fd, s.ep, s.ctl);
  }

  lemma WaitBalance(w: World, s: Step)
    requires Inv(w) && Go(w, s).Next? && s.WaitEvent?
    ensures var u := Go(w, s).world;
            u.timers == w.timers && u.table.pending == w.table.pending + EventsIn(w, s)
  {
    R.AddSpec(w.table, s.fd, s.e, None, w.workers[s.i].doing.fiber, SELF, s.ctl);
  }

  lemma OwnBalance(w: World, s: Step)
    requires Inv(w) && Go(w, s).Next? && ActOf(s).None?
    ensures var u := Go(w, s).world;
            && |u.timers| + TimersOut(w, s) == |w.timers| + TimersIn(w, s)
            && u.table.pending + EventsOut(w, s) == w.table.pending + EventsIn(w, s)
  {
    match s
    case WaitEvent(_, _, _, _) => WaitBalance(w, s);
    case Report(_, _, _, _) => ReportBalance(w, s);
    case _ =>
  }

  /** The sum of something over the steps of a run. */
  function Sum(w: World, steps: seq<Step>, f: (World, Step) -> nat): nat
    decreases |steps|
  {
    if steps == [] then 0 else f(w, steps[0]) + Sum(Then(w, steps[0]), steps[1..], f)
  }

  lemma {:induction false} RunBalance(w: World, steps: seq<Step>)
    requires Inv(w)
    ensures var u := Run(w, steps);
            && Inv(u)
            && |u.timers| + Sum(w, steps, TimersOut) == |w.timers| + Sum(w, steps, TimersIn)
            && u.table.pending + Sum(w, steps, EventsOut) == w.table.pending + Sum(w, steps, EventsIn)
            && Carried(u.workers) + Sum(w, steps, HandOut) == Carried(w.workers) + Sum(w, steps, HandIn)
    decreases |steps|
  {
    if steps != [] {
      RunCons(w, steps);
      StepGood(w, steps[0]);
      StepBalance(w, steps[0]);
      CarriedStep(w, steps[0]);
      RunBalance(Then(w, steps[0]), steps[1..]);
    }
  }

  // ---------- what a yes is worth ----------

  predicate By(i: nat, s: Step) {
    !s.Outside? && s.i == i
  }

  predicate NotBy(i: nat, steps: seq<Step>) {
    forall k :: 0 <= k < |steps| ==> !By(i, steps[k])
  }

  /** The step changes the worker that takes it and no other. */
  predicate OnlyMoves(w: World, u: World, i: nat) {
    i < |w.workers| == |u.workers| && u.workers == w.workers[i := u.workers[i]]
  }

  lemma TaskMoves(w: World, s: Step)
    requires InTask(s) && s.i < |w.workers| && Go(w, s).Next?
    ensures OnlyMoves(w, Go(w, s).world, s.i)
  {
  }

  lemma IdleMoves(w: World, s: Step)
    requires InIdle(s) && s.i < |w.workers| && Go(w, s).Next?
    ensures OnlyMoves(w, Go(w, s).world, s.i)
  {
  }

  lemma LoopMoves(w: World, s: Step)
    requires InLoop(s) && s.i < |w.workers| && Go(w, s).Next?
    ensures OnlyMoves(w, Go(w, s).world, s.i)
  {
  }

  lemma OneWorkerSteps(w: World, s: Step)
    ensures var u := Then(w, s);
            u.workers == w.workers || (!s.Outside? && OnlyMoves(w, u, s.i))
  {
    if !s.Outside? && Go(w, s).Next? {
      if InTask(s) {
        TaskMoves(w, s);
      } else if InIdle(s) {
        IdleMoves(w, s);
      } else {
        LoopMoves(w, s);
      }
    }
  }

  lemma {:induction false} OthersLeaveAlone(w: World, steps: seq<Step>, i: nat)
    requires i < |w.workers| && NotBy(i, steps)
    ensures |Run(w, steps).workers| == |w.workers| && Run(w, steps).workers[i] == w.workers[i]
    decreases |steps|
  {
    if steps != [] {
      RunCons(w, steps);
      OneWorkerSteps(w, steps[0]);
      assert !By(i, steps[0]);
      OthersLeaveAlone(Then(w, steps[0]), steps[1..], i);
    }
  }

  /** The three reads of worker `i` answer yes, while others take the steps `first` and then `second` between them. */
  ghost predicate SaysYes(w: World, i: nat, first: seq<Step>, second: seq<Step>) {
    && Inv(w) && i < |w.workers| && w.workers[i].doing == IdleTop && NotBy(i, first) && NotBy(i, second)
    && w.timers == []
    && var v := Run(w, [ReadTimers(i)] + first);
       v.table.pending == 0 && SchedulerStopping(Run(v, [ReadEvents(i)] + second))
  }

  /** The world at the last read. */
  ghost function AtLast(w: World, i: nat, first: seq<Step>, second: seq<Step>): World {
    Run(Run(w, [ReadTimers(i)] + first), [ReadEvents(i)] + second)
  }

  lemma ReadsPass(w: World, i: nat, first: seq<Step>, second: seq<Step>)
    requires SaysYes(w, i, first, second)
    ensures var v, u := Run(w, [ReadTimers(i)] + first), AtLast(w, i, first, second);
            && Inv(v) && Inv(u) && i < |v.workers| && v.workers[i].doing == SawNoTimer
            && i < |u.workers| && u.workers[i].doing == SawNoEvent
  {
    var a := [ReadTimers(i)] + first;
    RunGood(w, a);
    RunCons(w, a);
    assert a[1..] == first;
    OthersLeaveAlone(Then(w, ReadTimers(i)), first, i);
    var v := Run(w, a);
    var b := [ReadEvents(i)] + second;
    RunGood(v, b);
    RunCons(v, b);
    assert b[1..] == second;
    OthersLeaveAlone(Then(v, ReadEvents(i)), second, i);
  }

  /** What came, went and changed hands over the reads. */
  datatype Ledger = Ledger(came: nat, went: nat, armed: nat, cleared: nat, taken: nat, given: nat)

  /** Timers and what is in hand since the first read, events since the second. */
  ghost function Books(w: World, i: nat, first: seq<Step>, second: seq<Step>): Ledger {
    var all, late := [ReadTimers(i)] + first + ([ReadEvents(i)] + second), [ReadEvents(i)] + second;
    var v := Run(w, [ReadTimers(i)] + first);
    Ledger(Sum(w, all, TimersIn), Sum(w, all, TimersOut), Sum(v, late, EventsIn), Sum(v, late, EventsOut),
           Sum(w, all, HandIn), Sum(w, all, HandOut))
  }

  lemma BooksBalance(w: World, i: nat, first: seq<Step>, second: seq<Step>)
    requires SaysYes(w, i, first, second)
    ensures var b, u := Books(w, i, first, second), AtLast(w, i, first, second);
            && |u.timers| + b.went == b.came
            && u.table.pending + b.cleared == b.armed
            && Carried(u.workers) + b.given == Carried(w.workers) + b.taken
            && SchedulerStopping(u)
  {
    var all, late := [ReadTimers(i)] + first + ([ReadEvents(i)] + second), [ReadEvents(i)] + second;
    RunGood(w, [ReadTimers(i)] + first);
    RunAppend(w, [ReadTimers(i)] + first, late);
    RunBalance(w, all);
    RunBalance(Run(w, [ReadTimers(i)] + first), late);
  }

  /** After three yes the idle fiber ends. */
  lemma YesEnds(w: World, i: nat, first: seq<Step>, second: seq<Step>)
    requires SaysYes(w, i, first, second)
    ensures var u := AtLast(w, i, first, second);
            Go(u, ReadScheduler(i)).Next? && i < |u.workers|
              && Go(u, ReadScheduler(i)).world == Set(u, i, Worker(Scan, u.workers[i].spare, true))
  {
    ReadsPass(w, i, first, second);
  }

  /**
   * After three yes the idle fiber ends. It was right to, nothing is left to do at the last read, exactly when as many
   * timers went as came since the first read, as many events since the second, and all that workers had or took in hand
   * on the way to the run queue was handed over. If nothing went that is exactly when nothing came and all was handed
   * over.
   */
  lemma YesIsRightIff(w: World, i: nat, first: seq<Step>, second: seq<Step>)
    requires SaysYes(w, i, first, second)
    ensures var u := AtLast(w, i, first, second);
            Go(u, ReadScheduler(i)).Next? && i < |u.workers|
              && Go(u, ReadScheduler(i)).world == Set(u, i, Worker(Scan, u.workers[i].spare, true))
    ensures var b, held, right := Books(w, i, first, second), Carried(w.workers), Over(AtLast(w, i, first, second));
            && (right <==> b.came == b.went && b.armed == b.cleared && held + b.taken == b.given)
            && (b.went == 0 && b.cleared == 0 ==> (right <==> b.came == 0 && b.armed == 0 && held + b.taken == b.given))
            && (Stopping(AtLast(w, i, first, second)) <==> b.came == b.went && b.armed == b.cleared)
  {
    YesEnds(w, i, first, second);
    BooksBalance(w, i, first, second);
  }

  /** A guard that suffices: if there was nothing to do at the first read, a yes is right whatever the workers do. */
  lemma CalmGuard(w: World, i: nat, first: seq<Step>, second: seq<Step>)
    requires SaysYes(w, i, first, second) && Calm(w) && AllFromWithin(first) && AllFromWithin(second)
    ensures Over(AtLast(w, i, first, second))
  {
    CalmForever(w, [ReadTimers(i)] + first);
    RunGood(w, [ReadTimers(i)] + first);
    CalmForever(Run(w, [ReadTimers(i)] + first), [ReadEvents(i)] + second);
  }

  /** Two workers, stop requested, no event pending. */
  function Pair(fibers: map<nat, FiberState>, q: seq<Entry>, t: R.Table, ts: seq<Timer>, a: Worker, b: Worker,
                active: int, lost: set<nat>): World {
    World(fibers, q, t, ts, [a, b], active, true, lost)
  }

  lemma PairSet(a: Worker, b: Worker, d: Worker)
    ensures [a, b][0 := d] == [d, b] && [a, b][1 := d] == [a, d]
  {
  }

  lemma OneEntryTaken(e: Entry, me: nat, exec: set<nat>)
    requires e.thread.None? && e.Holds() && !Running(e, exec)
    ensures Search([e], me, exec) == Take(0, false) && Without([e], 0) == []
  {
  }

  /** A worker with the callback of one timer in hand. */
  function Drained(job: Job): Doing {
    Carrying([Entry(None, Some(job), None)], true)
  }

  lemma Idles(w: World, i: nat)
    requires i < |w.workers| && w.workers[i].doing == Scan && w.queue == []
    ensures Then(w, Claim(i)) == Set(w, i, GoIdle(w.workers[i]))
  {
  }

  lemma Run5(w: World, a: Step, b: Step, c: Step, d: Step, e: Step)
    ensures Run(w, [a, b, c, d, e]) == Then(Then(Then(Then(Then(w, a), b), c), d), e)
  {
    assert [a, b, c, d, e][1..] == [b, c, d, e] && [b, c, d, e][1..] == [c, d, e];
    assert [c, d, e][1..] == [d, e] && [d, e][1..] == [e] && [e][1..] == [];
    RunCons(w, [a, b, c, d, e]);
    RunCons(Then(w, a), [b, c, d, e]);
    RunCons(Then(Then(w, a), b), [c, d, e]);
    RunCons(Then(Then(Then(w, a), b), c), [d, e]);
    RunCons(Then(Then(Then(Then(w, a), b), c), d), [e]);
  }

  /** The world when another worker is inside a fiber while this one begins to ask. */
  ghost predicate Race(w: World, i: nat, j: nat) {
    && i < |w.workers| && j < |w.workers| && i != j && w.workers[i].doing == IdleTop
    && Free(w.workers[j]) && !w.workers[j].doing.registered
    && w.timers == [] && w.table.pending == 0 && w.stop && w.queue == [] && w.active == 1
  }

  /** stopping() is not true at any moment of the run. */
  predicate NeverStopping(w: World, steps: seq<Step>)
    decreases |steps|
  {
    !Stopping(w) && (steps != [] ==> NeverStopping(Then(w, steps[0]), steps[1..]))
  }

  lemma {:induction false} NeverStoppingCons(w: World, s: Step, rest: seq<Step>)
    requires !Stopping(w) && NeverStopping(Then(w, s), rest)
    ensures NeverStopping(w, [s] + rest) && Run(w, [s] + rest) == Run(Then(w, s), rest)
  {
    assert ([s] + rest)[1..] == rest;
    RunCons(w, [s] + rest);
  }

  /** Something is left to do. */
  predicate LeftToDo(w: World) {
    w.timers != [] || w.table.pending != 0
  }

  /** The fiber holds, and the last read says yes although something is left to do. */
  lemma {:induction false} RaceEnds(w: World, i: nat, j: nat)
    requires i < |w.workers| && j < |w.workers| && i != j && w.workers[i].doing == SawNoEvent && Free(w.workers[j])
    requires w.stop && w.queue == [] && w.active == 1 && LeftToDo(w)
    ensures var steps := [End(j, ToHold), ReadScheduler(i)];
            && NeverStopping(w, steps)
            && var u := Run(w, steps);
               i < |u.workers| && u.workers[i].idleDone && LeftToDo(u)
  {
    var w1 := Then(w, End(j, ToHold));
    assert w1.queue == [] + [];
    assert NeverStopping(Then(w1, ReadScheduler(i)), []);
    NeverStoppingCons(w1, ReadScheduler(i), []);
    NeverStoppingCons(w, End(j, ToHold), [ReadScheduler(i)]);
    assert [End(j, ToHold)] + [ReadScheduler(i)] == [End(j, ToHold), ReadScheduler(i)];
  }

  /** In a race the fiber makes something to do by one step. */
  lemma {:induction false} RaceGoesOn(w: World, i: nat, j: nat, makes: Step)
    requires Race(w, i, j)
    requires var u := Then(Then(Then(w, ReadTimers(i)), ReadEvents(i)), makes);
             && i < |u.workers| && j < |u.workers| && u.workers[i].doing == SawNoEvent && Free(u.workers[j])
             && u.stop && u.queue == [] && u.active == 1 && LeftToDo(u)
    ensures var steps := [ReadTimers(i), ReadEvents(i), makes, End(j, ToHold), ReadScheduler(i)];
            && NeverStopping(w, steps)
            && var u := Run(w, steps);
               i < |u.workers| && u.workers[i].idleDone && LeftToDo(u)
  {
    var w1 := Then(w, ReadTimers(i));
    var w2 := Then(w1, ReadEvents(i));
    var rest := [End(j, ToHold), ReadScheduler(i)];
    RaceEnds(Then(w2, makes), i, j);
    NeverStoppingCons(w2, makes, rest);
    NeverStoppingCons(w1, ReadEvents(i), [makes] + rest);
    NeverStoppingCons(w, ReadTimers(i), [ReadEvents(i)] + ([makes] + rest));
    assert [ReadTimers(i)] + ([ReadEvents(i)] + ([makes] + rest))
      == [ReadTimers(i), ReadEvents(i), makes, End(j, ToHold), ReadScheduler(i)];
  }

  /** A thread goes to its end though a timer is left, and stopping() was never true: its reads saw three moments. */
  lemma LeavesWithTimer(w: World, i: nat, j: nat)
    requires Race(w, i, j)
    ensures var steps := [ReadTimers(i), ReadEvents(i), Sleep(j), End(j, ToHold), ReadScheduler(i)];
            && NeverStopping(w, steps)
            && var u := Run(w, steps);
               i < |u.workers| && u.workers[i].idleDone && LeftToDo(u)
  {
    RaceGoesOn(w, i, j, Sleep(j));
  }

  /** The same with a fiber that waits on a descriptor. */
  lemma LeavesWithWaiter(w: World, i: nat, j: nat, fd: nat, e: R.Event)
    requires Inv(w) && Race(w, i, j) && R.Waiting(w.table, fd, e) == []
    ensures var steps := [ReadTimers(i), ReadEvents(i), WaitEvent(j, fd, e, true), End(j, ToHold), ReadScheduler(i)];
            && NeverStopping(w, steps)
            && var u := Run(w, steps);
               i < |u.workers| && u.workers[i].idleDone && LeftToDo(u)
  {
    WaiterWaits(Then(Then(w, ReadTimers(i)), ReadEvents(i)), j, fd, e);
    RaceGoesOn(w, i, j, WaitEvent(j, fd, e, true));
  }

  lemma WaiterWaits(w: World, j: nat, fd: nat, e: R.Event)
    requires R.TableOk(w.table) && j < |w.workers| && Free(w.workers[j]) && !w.workers[j].doing.registered
             && |w.table.ctxs| >= R.INITIAL && w.table.pending == 0 && R.Waiting(w.table, fd, e) == []
    ensures var u := Then(w, WaitEvent(j, fd, e, true));
            u == Set(w, j, Registered(w.workers[j])).(table := u.table) && u.table.pending == 1
  {
    R.AddSpec(w.table, fd, e, None, w.workers[j].doing.fiber, SELF, true);
  }

  /**
   * And such a race can come about: a callback is posted, one worker runs it, the other finds nothing, stop is
   * requested.
   */
  lemma RaceIsReachable(cb: nat, f: nat)
    ensures var w := Run(Start(2), RaceSetUp(cb, f));
            Race(w, 0, 1) && w == Racing(cb, f, R.Init())
  {
    var steps := RaceSetUp(cb, f);
    var e := Entry(None, Some(User(cb)), None);
    var idle := Worker(Scan, None, false);
    var w0 := Start(2);
    assert w0.workers == [idle, idle];
    var w1 := Then(w0, steps[0]);
    assert w1.queue == [] + [e] == [e];
    OneEntryTaken(e, 1, Exec(w1.fibers));
    PairSet(idle, idle, idle.(doing := Claimed(e)));
    var w2 := Then(w1, steps[1]);
    assert w2.queue == [] && w2.workers == [idle, idle.(doing := Claimed(e))];
    var w3 := Then(w2, steps[2]);
    PairSet(idle, idle.(doing := Claimed(e)), idle.(doing := Inside(f, Some(User(cb)), true, false)));
    var w4 := Then(w3, steps[3]);
    Idles(w3, 0);
    PairSet(idle, idle.(doing := Inside(f, Some(User(cb)), true, false)), idle.(doing := IdleTop));
    assert Then(w4, steps[4]) == Racing(cb, f, R.Init());
    Run5(w0, steps[0], steps[1], steps[2], steps[3], steps[4]);
  }

  function RaceSetUp(cb: nat, f: nat): seq<Step> {
    [Outside(Post(cb, None)), Claim(1), Begin(1, f), Claim(0), Outside(RequestStop)]
  }

  function Racing(cb: nat, f: nat, t: R.Table): World {
    Pair(map[][f := EXEC], [], t, [], Worker(IdleTop, None, false),
         Worker(Inside(f, Some(User(cb)), true, false), None, false), 1, {})
  }

  /**
   * Even with the conjunction true at all three reads, a yes can come too early: what a worker has in hand is in none
   * of the three, and it hands it over afterwards.
   */
  lemma CarriedEscapes(w: World, i: nat, j: nat)
    requires Inv(w) && Stopping(w) && i < |w.workers| && j < |w.workers| && i != j && w.workers[i].doing == IdleTop
             && w.workers[j].doing.Carrying?
    ensures var v1 := Then(w, ReadTimers(i));
            var v2 := Then(v1, ReadEvents(i));
            var u := Then(Then(v2, ReadScheduler(i)), Deliver(j));
            && Stopping(v1) && Stopping(v2)
            && i < |u.workers| && u.workers[i].idleDone && u.queue == w.workers[j].doing.entries != []
  {
    assert WorkerOk(w.workers[j]);
    var v1 := Then(w, ReadTimers(i));
    var v2 := Then(v1, ReadEvents(i));
    var v3 := Then(v2, ReadScheduler(i));
    assert v3.workers[j] == w.workers[j] && v3.queue == [];
  }

  function CarrySetUp(cb: nat): seq<Step> {
    [Outside(AddTimer(cb, false)), Claim(1), ReadTimers(1), Expire(1, 0), Claim(0)] + [Outside(RequestStop)]
  }

  /** Two workers, no request to stop. */
  function Two(t: R.Table, ts: seq<Timer>, a: Worker, b: Worker): World {
    World(map[], [], t, ts, [a, b], 0, false, {})
  }

  /** The timer is made, and the second worker sees it. */
  lemma {:induction false} SeesTimer(t: R.Table, cb: nat)
    ensures var idle, ts := Worker(Scan, None, false), [Timer(User(cb), false)];
            Then(Then(Then(Two(t, [], idle, idle), Outside(AddTimer(cb, false))), Claim(1)), ReadTimers(1))
            == Two(t, ts, idle, idle.(doing := Polling))
  {
    var idle, ts := Worker(Scan, None, false), [Timer(User(cb), false)];
    var w1, w2 := Two(t, ts, idle, idle), Two(t, ts, idle, idle.(doing := IdleTop));
    assert [] + ts == ts;
    assert Then(Two(t, [], idle, idle), Outside(AddTimer(cb, false))) == w1;
    PairSet(idle, idle, idle.(doing := IdleTop));
    assert Then(w1, Claim(1)) == w2;
    PairSet(idle, idle.(doing := IdleTop), idle.(doing := Polling));
  }

  /** It drains the timer, and the first finds nothing. */
  lemma {:induction false} DrainsTimer(t: R.Table, cb: nat)
    ensures var idle, ts := Worker(Scan, None, false), [Timer(User(cb), false)];
            Then(Then(Two(t, ts, idle, idle.(doing := Polling)), Expire(1, 0)), Claim(0))
            == Two(t, [], idle.(doing := IdleTop), idle.(doing := Drained(User(cb))))
  {
    var idle, ts, e := Worker(Scan, None, false), [Timer(User(cb), false)], Entry(None, Some(User(cb)), None);
    var w4 := Two(t, [], idle, idle.(doing := Drained(User(cb))));
    PairSet(idle, idle.(doing := Polling), idle.(doing := Drained(User(cb))));
    assert [] + [e] == [e] && Without(ts, 0) == [];
    assert Then(Two(t, ts, idle, idle.(doing := Polling)), Expire(1, 0)) == w4;
    PairSet(idle, idle.(doing := Drained(User(cb))), idle.(doing := IdleTop));
  }

  lemma {:induction false} CarryFrom(t: R.Table, cb: nat)
    ensures var idle := Worker(Scan, None, false);
            Run(Two(t, [], idle, idle), CarrySetUp(cb))
            == Two(t, [], idle.(doing := IdleTop), idle.(doing := Drained(User(cb)))).(stop := true)
  {
    var five := [Outside(AddTimer(cb, false)), Claim(1), ReadTimers(1), Expire(1, 0), Claim(0)];
    var w0 := Two(t, [], Worker(Scan, None, false), Worker(Scan, None, false));
    SeesTimer(t, cb);
    DrainsTimer(t, cb);
    Run5(w0, five[0], five[1], five[2], five[3], five[4]);
    RunAppend(w0, five, [Outside(RequestStop)]);
    RunCons(Run(w0, five), [Outside(RequestStop)]);
    assert [Outside(RequestStop)][1..] == [];
  }

  /** And that can come about: a worker drains the only timer, the other finds nothing, stop is requested. */
  lemma CarryIsReachable(cb: nat)
    ensures var w := Run(Start(2), CarrySetUp(cb));
            && Inv(w) && Stopping(w) && |w.workers| == 2 && w.workers[0].doing == IdleTop
            && w.workers[1].doing == Drained(User(cb))
  {
    StartGood(2);
    RunGood(Start(2), CarrySetUp(cb));
    CarryFrom(R.Init(), cb);
    assert Start(2).workers == [Worker(Scan, None, false), Worker(Scan, None, false)];
  }

  // ---------- how a thread ends ----------

  /** Which step brings a worker past each read, and that its thread ends only after its idle fiber. */
  predicate Entered(w: World, s: Step, i: nat, d: Worker, d': Worker) {
    && (d'.doing == SawNoTimer && d.doing != SawNoTimer ==> s == ReadTimers(i) && w.timers == [])
    && (d'.doing == SawNoEvent && d.doing != SawNoEvent ==>
          s == ReadEvents(i) && d.doing == SawNoTimer && w.table.pending == 0)
    && (d'.idleDone && !d.idleDone ==> s == ReadScheduler(i) && d.doing == SawNoEvent && SchedulerStopping(w))
    && (d'.doing == Gone && d.doing != Gone ==> d.idleDone)
  }

  lemma IdleEnters(w: World, s: Step)
    requires InIdle(s) && s.i < |w.workers| && Go(w, s).Next?
    ensures var u := Go(w, s).world;
            s.i < |u.workers| && Entered(w, s, s.i, w.workers[s.i], u.workers[s.i])
  {
  }

  lemma LoopEnters(w: World, s: Step)
    requires InLoop(s) && s.i < |w.workers| && Go(w, s).Next?
    ensures var u := Go(w, s).world;
            s.i < |u.workers| && Entered(w, s, s.i, w.workers[s.i], u.workers[s.i])
  {
  }

  lemma TaskEnters(w: World, s: Step)
    requires InTask(s) && s.i < |w.workers| && Go(w, s).Next?
    ensures var u := Go(w, s).world;
            s.i < |u.workers| && Entered(w, s, s.i, w.workers[s.i], u.workers[s.i])
  {
  }

  lemma EntersBy(w: World, s: Step, i: nat)
    requires i < |w.workers|
    ensures var u := Then(w, s);
            |u.workers| == |w.workers| && Entered(w, s, i, w.workers[i], u.workers[i])
  {
    OneWorkerSteps(w, s);
    if By(i, s) && Go(w, s).Next? {
      if InTask(s) {
        TaskEnters(w, s);
      } else if InIdle(s) {
        IdleEnters(w, s);
      } else {
        LoopEnters(w, s);
      }
    }
  }

  lemma {:induction false} RunWorkers(w: World, steps: seq<Step>)
    ensures |Run(w, steps).workers| == |w.workers|
    decreases |steps|
  {
    if steps != [] {
      RunCons(w, steps);
      OneWorkerSteps(w, steps[0]);
      RunWorkers(Then(w, steps[0]), steps[1..]);
    }
  }

  /** The run up to its last step, and that step. */
  lemma {:induction false} RunLast(w: World, steps: seq<Step>)
    requires steps != []
    ensures var n := |steps| - 1;
            Run(w, steps) == Then(Run(w, steps[..n]), steps[n]) && |Run(w, steps[..n]).workers| == |w.workers|
  {
    var n := |steps| - 1;
    assert steps == steps[..n] + [steps[n]];
    RunAppend(w, steps[..n], [steps[n]]);
    RunCons(Run(w, steps[..n]), [steps[n]]);
    RunWorkers(w, steps[..n]);
  }

  /** From after step `k` up to before step `m` of the run, worker `i` is there. */
  ghost predicate Stays(w: World, steps: seq<Step>, i: nat, k: nat, m: nat, doing: Doing) {
    forall x :: k < x <= m ==> IsAt(w, steps, i, x, doing)
  }

  predicate IsAt(w: World, steps: seq<Step>, i: nat, x: nat, doing: Doing) {
    x <= |steps| && i < |Run(w, steps[..x]).workers| && Run(w, steps[..x]).workers[i].doing == doing
  }

  lemma StaysLonger(w: World, steps: seq<Step>, l: nat, i: nat, k: nat, m: nat, doing: Doing)
    requires m <= l <= |steps| && Stays(w, steps[..l], i, k, m, doing)
    ensures Stays(w, steps, i, k, m, doing)
  {
    forall x | k < x <= m
      ensures IsAt(w, steps, i, x, doing)
    {
      assert IsAt(w, steps[..l], i, x, doing) && steps[..l][..x] == steps[..x];
    }
  }

  lemma StaysOneMore(w: World, steps: seq<Step>, i: nat, k: nat, doing: Doing)
    requires steps != [] && Stays(w, steps[..|steps| - 1], i, k, |steps| - 1, doing)
    requires i < |Run(w, steps).workers| && Run(w, steps).workers[i].doing == doing
    ensures Stays(w, steps, i, k, |steps|, doing)
  {
    StaysLonger(w, steps, |steps| - 1, i, k, |steps| - 1, doing);
    assert steps[..|steps|] == steps;
  }

  /** Who is past the first read has made it, and the set was empty then. */
  lemma {:induction false} PassedTimers(w: World, steps: seq<Step>, i: nat) returns (k: nat)
    requires i < |w.workers| && w.workers[i].doing != SawNoTimer
    requires i < |Run(w, steps).workers| && Run(w, steps).workers[i].doing == SawNoTimer
    ensures k < |steps| && steps[k] == ReadTimers(i) && Run(w, steps[..k]).timers == []
    ensures Stays(w, steps, i, k, |steps|, SawNoTimer)
    decreases |steps|
  {
    var n := |steps| - 1;
    RunLast(w, steps);
    EntersBy(Run(w, steps[..n]), steps[n], i);
    if Run(w, steps[..n]).workers[i].doing == SawNoTimer {
      k := PassedTimers(w, steps[..n], i);
      assert steps[..n][..k] == steps[..k];
    } else {
      k := n;
    }
    StaysOneMore(w, steps, i, k, SawNoTimer);
  }

  /** Who is past the second read has made it after the first, and no event was pending then. */
  lemma {:induction false} PassedEvents(w: World, steps: seq<Step>, i: nat) returns (k: nat, m: nat)
    requires i < |w.workers| && w.workers[i].doing != SawNoTimer && w.workers[i].doing != SawNoEvent
    requires i < |Run(w, steps).workers| && Run(w, steps).workers[i].doing == SawNoEvent
    ensures k < m < |steps| && steps[k] == ReadTimers(i) && Run(w, steps[..k]).timers == []
    ensures steps[m] == ReadEvents(i) && Run(w, steps[..m]).table.pending == 0
    ensures Stays(w, steps, i, k, m, SawNoTimer) && Stays(w, steps, i, m, |steps|, SawNoEvent)
    decreases |steps|
  {
    var n := |steps| - 1;
    RunLast(w, steps);
    EntersBy(Run(w, steps[..n]), steps[n], i);
    if Run(w, steps[..n]).workers[i].doing == SawNoEvent {
      k, m := PassedEvents(w, steps[..n], i);
      assert steps[..n][..k] == steps[..k] && steps[..n][..m] == steps[..m];
    } else {
      k := PassedTimers(w, steps[..n], i);
      m := n;
      assert steps[..n][..k] == steps[..k];
    }
    StaysLonger(w, steps, n, i, k, m, SawNoTimer);
    StaysOneMore(w, steps, i, m, SawNoEvent);
  }

  /** Steps `k`, `m` and `n` of the run are three reads of worker `i` in a row that each said yes. */
  ghost predicate ThreeReads(w: World, steps: seq<Step>, i: nat, k: nat, m: nat, n: nat) {
    && k < m < n < |steps| && steps[k] == ReadTimers(i) && steps[m] == ReadEvents(i) && steps[n] == ReadScheduler(i)
    && Run(w, steps[..k]).timers == [] && Run(w, steps[..m]).table.pending == 0
    && SchedulerStopping(Run(w, steps[..n]))
    && Stays(w, steps, i, k, m, SawNoTimer) && Stays(w, steps, i, m, n, SawNoEvent)
  }

  /**
   * An idle fiber ends only after three reads of its own in a row that each said yes: no timer at the first, no event
   * at the second, and nothing in the scheduler at the third; but at three moments.
   */
  lemma {:induction false} EndsAfterThreeReads(w: World, steps: seq<Step>, i: nat) returns (k: nat, m: nat, n: nat)
    requires i < |w.workers| && !w.workers[i].idleDone && w.workers[i].doing != SawNoTimer
             && w.workers[i].doing != SawNoEvent
    requires i < |Run(w, steps).workers| && Run(w, steps).workers[i].idleDone
    ensures ThreeReads(w, steps, i, k, m, n)
    decreases |steps|
  {
    var l := |steps| - 1;
    RunLast(w, steps);
    EntersBy(Run(w, steps[..l]), steps[l], i);
    if Run(w, steps[..l]).workers[i].idleDone {
      k, m, n := EndsAfterThreeReads(w, steps[..l], i);
      assert steps[..l][..k] == steps[..k] && steps[..l][..m] == steps[..m] && steps[..l][..n] == steps[..n];
    } else {
      k, m := PassedEvents(w, steps[..l], i);
      n := l;
      assert steps[..l][..k] == steps[..k] && steps[..l][..m] == steps[..m];
    }
    StaysLonger(w, steps, l, i, k, m, SawNoTimer);
    StaysLonger(w, steps, l, i, m, n, SawNoEvent);
  }

  // ---------- who is still there ----------

  /** The idle fiber has ended, or is between the reads. */
  predicate DoneOrReading(d: Worker) {
    d.idleDone || d.doing == SawNoTimer || d.doing == SawNoEvent
  }

  predicate DoneOrLate(d: Worker) {
    d.idleDone || d.doing == SawNoEvent
  }

  /**
   * No worker whose idle fiber has ended has anything to run; if all workers that have not ended are between the reads
   * there is no timer, and if all of those are past the second no event.
   */
  ghost predicate Watched(w: World) {
    && (forall i :: 0 <= i < |w.workers| && w.workers[i].idleDone ==>
          w.workers[i].doing == Scan || w.workers[i].doing == Gone)
    && ((forall i :: 0 <= i < |w.workers| ==> DoneOrReading(w.workers[i])) ==> w.timers == [])
    && ((forall i :: 0 <= i < |w.workers| ==> DoneOrLate(w.workers[i])) ==> w.table.pending == 0)
  }

  /**
   * Foreign threads make no timers and arm no events, and a worker whose idle fiber has ended takes nothing any more.
   */
  predicate Restful(w: World, s: Step) {
    && (s.Outside? ==> !s.act.AddTimer? && !s.act.ArmCallback?)
    && (s.Claim? && s.i < |w.workers| && w.workers[s.i].idleDone ==>
          s.i < |Then(w, s).workers| && !Then(w, s).workers[s.i].doing.Claimed?)
  }

  /** Who comes between the reads saw an empty set, and only a worker inside a fiber makes something. */
  predicate StaysWatched(w: World, s: Step, u: World)
    requires !s.Outside? && s.i < |w.workers|
  {
    && s.i < |u.workers|
    && var d, d' := w.workers[s.i], u.workers[s.i];
       && (d'.idleDone ==> d'.doing == Scan || d'.doing == Gone)
       && (DoneOrReading(d') ==> TimersIn(w, s) == 0 && (DoneOrReading(d) || w.timers == []))
       && (DoneOrLate(d') ==> EventsIn(w, s) == 0 && (DoneOrLate(d) || w.table.pending == 0))
  }

  lemma InsideStays(w: World, s: Step)
    requires Watched(w) && !s.Outside? && s.i < |w.workers| && Go(w, s).Next?
    requires InTask(s)
    ensures StaysWatched(w, s, Go(w, s).world)
  {
    assert w.workers[s.i].doing.Inside? && !w.workers[s.i].idleDone;
  }

  lemma BetweenStays(w: World, s: Step)
    requires Watched(w) && Restful(w, s) && !s.Outside? && s.i < |w.workers| && Go(w, s).Next?
    requires InLoop(s)
    ensures StaysWatched(w, s, Go(w, s).world)
  {
  }

  lemma IdleStays(w: World, s: Step)
    requires Watched(w) && !s.Outside? && s.i < |w.workers| && Go(w, s).Next?
    requires InIdle(s)
    ensures StaysWatched(w, s, Go(w, s).world)
  {
  }

  lemma StepStays(w: World, s: Step)
    requires Watched(w) && Restful(w, s) && !s.Outside? && s.i < |w.workers| && Go(w, s).Next?
    ensures StaysWatched(w, s, Go(w, s).world)
  {
    if InTask(s) {
      InsideStays(w, s);
    } else if InIdle(s) {
      IdleStays(w, s);
    } else {
      BetweenStays(w, s);
    }
  }

  lemma WatchedStep(w: World, s: Step)
    requires Inv(w) && Watched(w) && Restful(w, s)
    ensures Watched(Then(w, s))
  {
    StepGood(w, s);
    StepBalance(w, s);
    OneWorkerSteps(w, s);
    if !s.Outside? && Go(w, s).Next? {
      StepStays(w, s);
      WatchedAgain(w, s, Then(w, s));
    }
  }

  lemma WatchedAgain(w: World, s: Step, u: World)
    requires Watched(w) && !s.Outside? && s.i < |w.workers| == |u.workers|
             && u.workers == w.workers[s.i := u.workers[s.i]]
    requires StaysWatched(w, s, u) && |u.timers| <= |w.timers| + TimersIn(w, s)
    requires 0 <= u.table.pending <= w.table.pending + EventsIn(w, s)
    ensures Watched(u)
  {
    MovedOn(w.workers, u.workers, s.i);
  }

  /** If all workers meet one of the conditions afterwards, those that did not move met it before. */
  lemma {:induction false} MovedOn(ws: seq<Worker>, us: seq<Worker>, i: nat)
    requires i < |ws| == |us| && us == ws[i := us[i]]
    ensures (forall k :: 0 <= k < |us| ==> DoneOrReading(us[k])) ==>
              DoneOrReading(us[i]) && (DoneOrReading(ws[i]) ==> forall k :: 0 <= k < |ws| ==> DoneOrReading(ws[k]))
    ensures (forall k :: 0 <= k < |us| ==> DoneOrLate(us[k])) ==>
              DoneOrLate(us[i]) && (DoneOrLate(ws[i]) ==> forall k :: 0 <= k < |ws| ==> DoneOrLate(ws[k]))
  {
    assert forall k :: 0 <= k < |ws| && k != i ==> us[k] == ws[k];
  }

  /** A run in which every step is restful where it is taken. */
  ghost predicate AllRestful(w: World, steps: seq<Step>)
    decreases |steps|
  {
    steps != [] ==> Restful(w, steps[0]) && AllRestful(Then(w, steps[0]), steps[1..])
  }

  /**
   * As long as a timer or an event is left, the idle fiber of some worker has not ended, over every run in which the
   * work comes from within and no worker takes a task after its idle fiber has ended.
   */
  lemma {:induction false} SomeoneStays(w: World, steps: seq<Step>)
    requires Inv(w) && Watched(w) && AllRestful(w, steps)
    ensures var u := Run(w, steps);
            && Watched(u)
            && (LeftToDo(u) || Carried(u.workers) != 0 ==> exists i :: 0 <= i < |u.workers| && !u.workers[i].idleDone)
    decreases |steps|
  {
    if steps == [] {
      NobodyCarries(w.workers);
    } else {
      RunCons(w, steps);
      StepGood(w, steps[0]);
      WatchedStep(w, steps[0]);
      SomeoneStays(Then(w, steps[0]), steps[1..]);
    }
  }

  lemma StartWatched(n: nat)
    ensures Watched(Start(n))
  {
  }

  // ---------- the last one out ----------

  predicate AllEnded(w: World) {
    forall i :: 0 <= i < |w.workers| ==> w.workers[i].idleDone
  }

  /** A worker whose idle fiber has ended is out of its idle branch for good. */
  predicate PastIdle(d: Worker) {
    d.idleDone ==> d.doing == Scan || d.doing.Claimed? || d.doing.Inside? || d.doing == Gone
                   || (d.doing.Carrying? && !d.doing.polled)
  }

  predicate AllPastIdle(w: World) {
    forall i :: 0 <= i < |w.workers| ==> PastIdle(w.workers[i])
  }

  lemma PastIdleStep(w: World, s: Step)
    requires AllPastIdle(w)
    ensures AllPastIdle(Then(w, s))
  {
    OneWorkerSteps(w, s);
    if !s.Outside? && s.i < |w.workers| && Go(w, s).Next? {
      assert PastIdle(w.workers[s.i]);
      if InTask(s) {
        TaskPastIdle(w, s);
      } else if InIdle(s) {
        IdlePastIdle(w, s);
      } else {
        LoopPastIdle(w, s);
      }
    }
  }

  lemma TaskPastIdle(w: World, s: Step)
    requires InTask(s) && s.i < |w.workers| && Go(w, s).Next? && PastIdle(w.workers[s.i])
    ensures s.i < |Go(w, s).world.workers| && PastIdle(Go(w, s).world.workers[s.i])
  {
  }

  lemma IdlePastIdle(w: World, s: Step)
    requires InIdle(s) && s.i < |w.workers| && Go(w, s).Next? && PastIdle(w.workers[s.i])
    ensures s.i < |Go(w, s).world.workers| && PastIdle(Go(w, s).world.workers[s.i])
  {
  }

  lemma LoopPastIdle(w: World, s: Step)
    requires InLoop(s) && s.i < |w.workers| && Go(w, s).Next? && PastIdle(w.workers[s.i])
    ensures s.i < |Go(w, s).world.workers| && PastIdle(Go(w, s).world.workers[s.i])
  {
  }

  lemma {:induction false} PastIdleRun(w: World, steps: seq<Step>)
    requires AllPastIdle(w)
    ensures AllPastIdle(Run(w, steps))
    decreases |steps|
  {
    if steps != [] {
      RunCons(w, steps);
      PastIdleStep(w, steps[0]);
      PastIdleRun(Then(w, steps[0]), steps[1..]);
    }
  }

  /** Nobody is left to do anything. */
  ghost predicate Deserted(w: World) {
    Inv(w) && AllEnded(w) && AllPastIdle(w) && w.queue == [] && w.active == 0 && Carried(w.workers) == 0
  }

  /** A worker there has no step but the one out of its loop. */
  lemma DesertedMove(w: World, s: Step)
    requires Deserted(w) && !s.Outside? && Go(w, s).Next?
    ensures s.Claim? && s.i < |w.workers| && Go(w, s).world == Set(w, s.i, w.workers[s.i].(doing := Gone))
  {
    NobodyBusy(w.workers, s.i);
    NobodyCarries(w.workers);
    assert WorkerOk(w.workers[s.i]) && Held(w.workers[s.i]) == [];
    assert w.workers[s.i].idleDone && PastIdle(w.workers[s.i]);
    if s.Claim? {
      Idles(w, s.i);
    }
  }

  /** Then what is left is left for good: from within only the threads end. */
  lemma DesertedStep(w: World, s: Step)
    requires Deserted(w) && FromWithin(s)
    ensures var u := Then(w, s);
            Deserted(u) && u == w.(workers := u.workers, stop := u.stop)
  {
    StepGood(w, s);
    if !s.Outside? && Go(w, s).Next? {
      DesertedMove(w, s);
      CarriedUpdate(w.workers, s.i, w.workers[s.i].(doing := Gone));
    }
  }

  lemma {:induction false} DesertedForGood(w: World, steps: seq<Step>)
    requires Deserted(w) && AllFromWithin(steps)
    ensures Run(w, steps).timers == w.timers && Run(w, steps).table == w.table && Run(w, steps).fibers == w.fibers
    decreases |steps|
  {
    if steps != [] {
      RunCons(w, steps);
      DesertedStep(w, steps[0]);
      DesertedForGood(Then(w, steps[0]), steps[1..]);
    }
  }

  /** The last idle fiber to end: all others have ended before its last read. */
  ghost predicate LastToEnd(w: World, steps: seq<Step>, i: nat, n: nat) {
    && n < |steps| && steps[n] == ReadScheduler(i) && i < |w.workers| == |Run(w, steps[..n]).workers|
    && SchedulerStopping(Run(w, steps[..n])) && IsAt(w, steps, i, n, SawNoEvent)
    && !Run(w, steps[..n]).workers[i].idleDone
    && (forall j :: 0 <= j < |w.workers| && j != i ==> Run(w, steps[..n]).workers[j].idleDone)
  }

  /** How the last idle fiber goes: one read of a yes, and only its worker moves. */
  lemma EndsLast(w: World, s: Step)
    requires !AllEnded(w) && AllEnded(Then(w, s))
    ensures !s.Outside? && s == ReadScheduler(s.i) && s.i < |w.workers| && w.workers[s.i].doing == SawNoEvent
            && SchedulerStopping(w) && !w.workers[s.i].idleDone
    ensures forall j :: 0 <= j < |w.workers| && j != s.i ==> w.workers[j].idleDone
  {
    OneWorkerSteps(w, s);
    var i :| 0 <= i < |w.workers| && !w.workers[i].idleDone;
    EntersBy(w, s, i);
    assert forall j :: 0 <= j < |w.workers| && j != i ==> Then(w, s).workers[j] == w.workers[j];
  }

  lemma {:induction false} SomebodyLast(w: World, steps: seq<Step>) returns (i: nat, n: nat)
    requires !AllEnded(w) && AllEnded(Run(w, steps))
    ensures LastToEnd(w, steps, i, n)
    decreases |steps|
  {
    var l := |steps| - 1;
    RunLast(w, steps);
    if AllEnded(Run(w, steps[..l])) {
      i, n := SomebodyLast(w, steps[..l]);
      assert steps[..l][..n] == steps[..n] && IsAt(w, steps[..l], i, n, SawNoEvent);
    } else {
      EndsLast(Run(w, steps[..l]), steps[l]);
      i, n := steps[l].i, l;
    }
  }

  /** With the last yes the place is deserted, unless somebody still has something in hand. */
  lemma DesertedThen(w: World, i: nat)
    requires Inv(w) && AllPastIdle(w) && Carried(w.workers) == 0 && SchedulerStopping(w)
    requires i < |w.workers| && w.workers[i].doing == SawNoEvent
    requires forall j :: 0 <= j < |w.workers| && j != i ==> w.workers[j].idleDone
    ensures var u := Then(w, ReadScheduler(i));
            Deserted(u) && u.timers == w.timers && u.table == w.table
  {
    StepGood(w, ReadScheduler(i));
    PastIdleStep(w, ReadScheduler(i));
    CarriedStep(w, ReadScheduler(i));
  }

  /** What is left at the end is what was left at the last yes. */
  lemma LeftAtLastYes(w: World, steps: seq<Step>, i: nat, n: nat)
    requires Inv(w) && AllPastIdle(w) && AllFromWithin(steps) && LastToEnd(w, steps, i, n)
             && Carried(Run(w, steps[..n]).workers) == 0
    ensures LeftToDo(Run(w, steps)) <==> LeftToDo(Run(w, steps[..n]))
  {
    var v := Run(w, steps[..n]);
    RunGood(w, steps[..n]);
    PastIdleRun(w, steps[..n]);
    DesertedThen(v, i);
    assert steps == steps[..n] + steps[n..];
    RunAppend(w, steps[..n], steps[n..]);
    RunCons(v, steps[n..]);
    assert steps[n..][1..] == steps[n + 1..];
    DesertedForGood(Then(v, steps[n]), steps[n + 1..]);
  }

  /** What steps `k` to `n` of the run add up to. */
  ghost function Between(w: World, steps: seq<Step>, k: nat, n: nat, f: (World, Step) -> nat): nat
    requires k <= n <= |steps|
  {
    Sum(Run(w, steps[..k]), steps[k..n], f)
  }

  lemma BetweenBalance(w: World, steps: seq<Step>, k: nat, n: nat)
    requires Inv(w) && k <= n <= |steps|
    ensures var v, u := Run(w, steps[..k]), Run(w, steps[..n]);
            && |u.timers| + Between(w, steps, k, n, TimersOut) == |v.timers| + Between(w, steps, k, n, TimersIn)
            && u.table.pending + Between(w, steps, k, n, EventsOut)
               == v.table.pending + Between(w, steps, k, n, EventsIn)
            && u.table.pending >= 0
  {
    RunGood(w, steps[..k]);
    RunBalance(Run(w, steps[..k]), steps[k..n]);
    RunAppend(w, steps[..k], steps[k..n]);
    assert steps[..n] == steps[..k] + steps[k..n];
  }

  /** More timers came than went from step `k` to step `n` of the run, or more events from step `m`. */
  ghost predicate MoreCame(w: World, steps: seq<Step>, k: nat, m: nat, n: nat)
    requires k <= m <= n <= |steps|
  {
    || Between(w, steps, k, n, TimersIn) > Between(w, steps, k, n, TimersOut)
    || Between(w, steps, m, n, EventsIn) > Between(w, steps, m, n, EventsOut)
  }

  lemma MoreCameIff(w: World, steps: seq<Step>, k: nat, m: nat, n: nat)
    requires Inv(w) && k <= m <= n <= |steps|
    requires Run(w, steps[..k]).timers == [] && Run(w, steps[..m]).table.pending == 0
    ensures LeftToDo(Run(w, steps[..n])) <==> MoreCame(w, steps, k, m, n)
  {
    BetweenBalance(w, steps, k, n);
    BetweenBalance(w, steps, m, n);
  }

  /**
   * Exactly when all threads leave something behind: over every run at whose end all idle fibers have ended, a timer or
   * an event is left if and only if more timers came than went since the first read of the one that ended last, or more
   * events since its second. If nobody had anything in hand at its last read, and all is from within, what counts is
   * over by then: what is left there is left for good.
   */
  lemma LastOneOutIff(w: World, steps: seq<Step>) returns (i: nat, k: nat, m: nat, n: nat)
    requires Inv(w) && w.workers != []
    requires forall j :: 0 <= j < |w.workers| ==>
               !w.workers[j].idleDone && w.workers[j].doing != SawNoTimer && w.workers[j].doing != SawNoEvent
    requires AllEnded(Run(w, steps))
    ensures LastToEnd(w, steps, i, n) && ThreeReads(w, steps, i, k, m, n)
    ensures LeftToDo(Run(w, steps)) <==> MoreCame(w, steps, k, m, |steps|)
    ensures Carried(Run(w, steps[..n]).workers) == 0 && AllFromWithin(steps) ==>
              (LeftToDo(Run(w, steps)) <==> MoreCame(w, steps, k, m, n))
  {
    assert !w.workers[0].idleDone;
    i, n := SomebodyLast(w, steps);
    k, m := PassedEvents(w, steps[..n], i);
    assert steps[..n][..k] == steps[..k] && steps[..n][..m] == steps[..m];
    StaysLonger(w, steps, n, i, k, m, SawNoTimer);
    StaysLonger(w, steps, n, i, m, n, SawNoEvent);
    assert steps[..|steps|] == steps;
    MoreCameIff(w, steps, k, m, |steps|);
    MoreCameIff(w, steps, k, m, n);
    if Carried(Run(w, steps[..n]).workers) == 0 && AllFromWithin(steps) {
      LeftAtLastYes(w, steps, i, n);
    }
  }

  /** The second worker drains the one timer and hands its callback over. */
  lemma {:induction false} DrainsAndDelivers(fibers: map<nat, FiberState>, t: R.Table, f: nat, a: Worker, b: Worker,
                                             lost: set<nat>)
    requires b.doing == Polling
    ensures Then(Then(Pair(fibers, [], t, [Timer(Wake(f), false)], a, b, 0, lost), Expire(1, 0)), Deliver(1))
         == Pair(fibers, [Entry(None, Some(Wake(f)), None)], t, [], a, b, 0, lost)
  {
    var ts, e := [Timer(Wake(f), false)], Entry(None, Some(Wake(f)), None);
    var b' := b.(doing := Drained(Wake(f)));
    var w := Pair(fibers, [], t, ts, a, b, 0, lost);
    var w1 := Pair(fibers, [], t, [], a, b', 0, lost);
    PairSet(a, b, b');
    assert [] + [e] == [e] && Without(ts, 0) == [];
    assert Then(w, Expire(1, 0)) == w1;
    PairSet(a, b', b);
  }

  /**
   * First stretch: the second worker sees the timer and drains it; the first, past its yes, takes what comes of it.
   */
  lemma {:induction false} TakesAfterYes(fibers: map<nat, FiberState>, t: R.Table, f: nat, b: Worker, lost: set<nat>)
    requires b.doing == Scan && !b.idleDone && t.pending == 0
    ensures var done, e := Worker(Scan, None, true), Entry(None, Some(Wake(f)), None);
            Run(Pair(fibers, [], t, [Timer(Wake(f), false)], done, b, 0, lost),
                [Claim(1), ReadTimers(1), Expire(1, 0), Deliver(1), Claim(0), Leave(1)])
            == Pair(fibers, [], t, [], done.(doing := Claimed(e)), b, 1, lost)
  {
    var done, e := Worker(Scan, None, true), Entry(None, Some(Wake(f)), None);
    var ts := [Timer(Wake(f), false)];
    var w0 := Pair(fibers, [], t, ts, done, b, 0, lost);
    var w1 := Pair(fibers, [], t, ts, done, b.(doing := IdleTop), 0, lost);
    var w2 := Pair(fibers, [], t, ts, done, b.(doing := Polling), 0, lost);
    PairSet(done, b, b.(doing := IdleTop));
    assert Then(w0, Claim(1)) == w1;
    PairSet(done, b.(doing := IdleTop), b.(doing := Polling));
    assert Then(w1, ReadTimers(1)) == w2;
    DrainsAndDelivers(fibers, t, f, done, b.(doing := Polling), lost);
    TakesAndLeaves(fibers, t, e, b, lost);
    var steps := [Claim(1), ReadTimers(1), Expire(1, 0), Deliver(1), Claim(0), Leave(1)];
    RunCons(w0, steps);
    assert steps[1..] == [ReadTimers(1), Expire(1, 0), Deliver(1), Claim(0), Leave(1)];
    Run5(w1, ReadTimers(1), Expire(1, 0), Deliver(1), Claim(0), Leave(1));
  }

  lemma {:induction false} TakesAndLeaves(fibers: map<nat, FiberState>, t: R.Table, e: Entry, b: Worker, lost: set<nat>)
    requires b.doing == Scan && e.thread.None? && e.Holds() && e.fiber.None?
    ensures var done := Worker(Scan, None, true);
            Then(Then(Pair(fibers, [e], t, [], done, b.(doing := Polling), 0, lost), Claim(0)), Leave(1))
            == Pair(fibers, [], t, [], done.(doing := Claimed(e)), b, 1, lost)
  {
    var done := Worker(Scan, None, true);
    OneEntryTaken(e, 0, Exec(fibers));
    PairSet(done, b.(doing := Polling), done.(doing := Claimed(e)));
    assert Then(Pair(fibers, [e], t, [], done, b.(doing := Polling), 0, lost), Claim(0))
        == Pair(fibers, [], t, [], done.(doing := Claimed(e)), b.(doing := Polling), 1, lost);
    PairSet(done.(doing := Claimed(e)), b.(doing := Polling), b);
  }

  /** The race up to the fiber's sleep. */
  lemma {:induction false} RaceSleeps(cb: nat, f: nat, t: R.Table)
    requires t.pending == 0
    ensures Then(Then(Then(Racing(cb, f, t), ReadTimers(0)), ReadEvents(0)), Sleep(1))
         == Pair(map[][f := EXEC], [], t, [Timer(Wake(f), false)], Worker(SawNoEvent, None, false),
                 Worker(Inside(f, Some(User(cb)), true, true), None, false), 1, {})
  {
    var m, ts := map[][f := EXEC], [Timer(Wake(f), false)];
    var a := Worker(IdleTop, None, false);
    var b := Worker(Inside(f, Some(User(cb)), true, false), None, false);
    var w1 := Pair(m, [], t, [], a.(doing := SawNoTimer), b, 1, {});
    var w2 := Pair(m, [], t, [], a.(doing := SawNoEvent), b, 1, {});
    PairSet(a, b, a.(doing := SawNoTimer));
    assert Then(Racing(cb, f, t), ReadTimers(0)) == w1;
    PairSet(a.(doing := SawNoTimer), b, a.(doing := SawNoEvent));
    assert Then(w1, ReadEvents(0)) == w2;
    PairSet(a.(doing := SawNoEvent), b, Registered(b));
    assert [] + ts == ts;
  }

  /** The fiber holds, and the last read says yes. */
  lemma {:induction false} HoldsAndYes(m: map<nat, FiberState>, t: R.Table, ts: seq<Timer>, a: Worker, b: Worker)
    requires a.doing == SawNoEvent && Free(b) && b.doing.registered
    ensures var f := b.doing.fiber;
            Then(Then(Pair(m, [], t, ts, a, b, 1, {}), End(1, ToHold)), ReadScheduler(0))
            == Pair(m[f := HOLD], [], t, ts, Worker(Scan, a.spare, true), b.(doing := Scan), 0, {})
  {
    var w := Pair(m, [], t, ts, a, b, 1, {});
    var w1 := Pair(m[b.doing.fiber := HOLD], [], t, ts, a, b.(doing := Scan), 0, {});
    PairSet(a, b, b.(doing := Scan));
    assert w.queue + [] == [];
    assert Then(w, End(1, ToHold)) == w1;
    PairSet(a, b.(doing := Scan), Worker(Scan, a.spare, true));
  }

  /** What a race leaves behind when the fiber sleeps. */
  lemma {:induction false} RaceLeaves(cb: nat, f: nat, t: R.Table)
    requires t.pending == 0
    ensures Run(Racing(cb, f, t), [ReadTimers(0), ReadEvents(0), Sleep(1), End(1, ToHold), ReadScheduler(0)])
         == Pair(map[][f := EXEC][f := HOLD], [], t, [Timer(Wake(f), false)], Worker(Scan, None, true),
                 Worker(Scan, None, false), 0, {})
  {
    RaceSleeps(cb, f, t);
    HoldsAndYes(map[][f := EXEC], t, [Timer(Wake(f), false)], Worker(SawNoEvent, None, false),
                Worker(Inside(f, Some(User(cb)), true, true), None, false));
    Run5(Racing(cb, f, t), ReadTimers(0), ReadEvents(0), Sleep(1), End(1, ToHold), ReadScheduler(0));
  }

  /** Second stretch: the second worker begins to ask, and sees no timer; the first calls what it took. */
  lemma {:induction false} AsksMeanwhile(fibers: map<nat, FiberState>, t: R.Table, f: nat, g: nat, b: Worker,
                                         lost: set<nat>)
    requires b.doing == Scan && !b.idleDone && t.pending == 0 && g !in fibers
    ensures var done, e := Worker(Scan, None, true), Entry(None, Some(Wake(f)), None);
            Run(Pair(fibers, [], t, [], done.(doing := Claimed(e)), b, 1, lost),
                [Claim(1), ReadTimers(1), ReadEvents(1), Begin(0, g), CallWake(0)])
            == Pair(fibers[g := EXEC], [Entry(Some(f), None, None)], t, [],
                    done.(doing := Inside(g, None, true, false)), b.(doing := SawNoEvent), 1, lost)
  {
    var done, e := Worker(Scan, None, true), Entry(None, Some(Wake(f)), None);
    var a := done.(doing := Claimed(e));
    var a' := done.(doing := Inside(g, Some(Wake(f)), true, false));
    var b' := b.(doing := SawNoEvent);
    var w0 := Pair(fibers, [], t, [], a, b, 1, lost);
    var w1 := Pair(fibers, [], t, [], a, b.(doing := IdleTop), 1, lost);
    var w2 := Pair(fibers, [], t, [], a, b.(doing := SawNoTimer), 1, lost);
    var w3 := Pair(fibers, [], t, [], a, b', 1, lost);
    var w4 := Pair(fibers[g := EXEC], [], t, [], a', b', 1, lost);
    var w5 := Pair(fibers[g := EXEC], [Entry(Some(f), None, None)], t, [], done.(doing := Inside(g, None, true, false)),
                   b', 1, lost);
    PairSet(a, b, b.(doing := IdleTop));
    assert Then(w0, Claim(1)) == w1;
    PairSet(a, b.(doing := IdleTop), b.(doing := SawNoTimer));
    assert Then(w1, ReadTimers(1)) == w2;
    PairSet(a, b.(doing := SawNoTimer), b');
    assert Then(w2, ReadEvents(1)) == w3;
    PairSet(a, b', a');
    assert Then(w3, Begin(0, g)) == w4;
    PairSet(a', b', done.(doing := Inside(g, None, true, false)));
    assert [] + [Entry(Some(f), None, None)] == [Entry(Some(f), None, None)];
    assert Then(w4, CallWake(0)) == w5;
    Run5(w0, Claim(1), ReadTimers(1), ReadEvents(1), Begin(0, g), CallWake(0));
  }

  /** Third stretch: the first worker runs the fiber that was woken, which sleeps again. */
  lemma {:induction false} SleepsAgain(fibers: map<nat, FiberState>, t: R.Table, f: nat, g: nat, b: Worker,
                                       lost: set<nat>)
    requires f != g && f in fibers && fibers[f] == HOLD && g in fibers
    ensures var done := Worker(Scan, None, true);
            Run(Pair(fibers, [Entry(Some(f), None, None)], t, [], done.(doing := Inside(g, None, true, false)), b, 1,
                     lost),
                [End(0, Returns), Claim(0), Begin(0, g), Sleep(0), End(0, ToHold)])
            == Pair(fibers[g := INIT][f := EXEC][f := HOLD], [], t, [Timer(Wake(f), false)], done.(spare := Some(g)), b,
                    0, lost)
  {
    var e, ts := Entry(Some(f), None, None), [Timer(Wake(f), false)];
    var done := Worker(Scan, None, true);
    var a0 := done.(doing := Inside(g, None, true, false));
    var a1 := done.(spare := Some(g));
    var a3 := a1.(doing := Inside(f, None, false, false));
    var m := fibers[g := INIT];
    var w0 := Pair(fibers, [e], t, [], a0, b, 1, lost);
    var w1 := Pair(m, [e], t, [], a1, b, 0, lost);
    var w2 := Pair(m, [], t, [], a1.(doing := Claimed(e)), b, 1, lost);
    var w3 := Pair(m[f := EXEC], [], t, [], a3, b, 1, lost);
    var w4 := Pair(m[f := EXEC], [], t, ts, Registered(a3), b, 1, lost);
    var w5 := Pair(m[f := EXEC][f := HOLD], [], t, ts, a1, b, 0, lost);
    PairSet(a0, b, a1);
    assert [e] + [] == [e];
    assert Then(w0, End(0, Returns)) == w1;
    OneEntryTaken(e, 0, Exec(m));
    PairSet(a1, b, a1.(doing := Claimed(e)));
    assert Then(w1, Claim(0)) == w2;
    PairSet(a1.(doing := Claimed(e)), b, a3);
    assert Then(w2, Begin(0, g)) == w3;
    PairSet(a3, b, Registered(a3));
    assert [] + ts == ts;
    assert Then(w3, Sleep(0)) == w4;
    PairSet(Registered(a3), b, a1);
    assert w4.queue + [] == [];
    assert Then(w4, End(0, ToHold)) == w5;
    Run5(w0, End(0, Returns), Claim(0), Begin(0, g), Sleep(0), End(0, ToHold));
  }

  /** Last stretch: the second worker's last read says yes, and both threads end. */
  lemma {:induction false} BothEnd(fibers: map<nat, FiberState>, t: R.Table, ts: seq<Timer>, a: Worker, b: Worker,
                                   lost: set<nat>)
    requires a.doing == Scan && a.idleDone && b.doing == SawNoEvent
    ensures Run(Pair(fibers, [], t, ts, a, b, 0, lost), [ReadScheduler(1), Claim(0), Claim(1)])
         == Pair(fibers, [], t, ts, a.(doing := Gone), Worker(Gone, b.spare, true), 0, lost)
  {
    var b' := Worker(Scan, b.spare, true);
    var w0 := Pair(fibers, [], t, ts, a, b, 0, lost);
    var w1 := Pair(fibers, [], t, ts, a, b', 0, lost);
    var w2 := Pair(fibers, [], t, ts, a.(doing := Gone), b', 0, lost);
    PairSet(a, b, b');
    assert Then(w0, ReadScheduler(1)) == w1;
    PairSet(a, b', a.(doing := Gone));
    assert Then(w1, Claim(0)) == w2;
    PairSet(a.(doing := Gone), b', b'.(doing := Gone));
    var steps := [ReadScheduler(1), Claim(0), Claim(1)];
    RunCons(w0, steps);
    RunCons(w1, steps[1..]);
    RunCons(w2, steps[2..]);
    assert steps[1..][1..] == steps[2..] && steps[2..][1..] == [];
  }

  /** The stretches in a row, after the set-up. */
  function AllLeave(g: nat): seq<Step> {
    [ReadTimers(0), ReadEvents(0), Sleep(1), End(1, ToHold), ReadScheduler(0)]
    + ([Claim(1), ReadTimers(1), Expire(1, 0), Deliver(1), Claim(0), Leave(1)]
       + ([Claim(1), ReadTimers(1), ReadEvents(1), Begin(0, g), CallWake(0)]
          + ([End(0, Returns), Claim(0), Begin(0, g), Sleep(0), End(0, ToHold)]
             + [ReadScheduler(1), Claim(0), Claim(1)])))
  }

  /**
   * Without that restriction it is not so: from a started scheduler with two threads, all steps after the set-up being
   * the workers' own, both threads end with a timer in the set and the fiber that sleeps on it never woken. A worker
   * whose idle fiber has ended takes a task on its way out.
   */
  lemma AllLeaveWithTimer(cb: nat, f: nat, g: nat)
    requires f != g
    ensures AllFromWithin(AllLeave(g))
    ensures var u := Run(Start(2), RaceSetUp(cb, f) + AllLeave(g));
            && (forall i :: 0 <= i < |u.workers| ==> u.workers[i].doing == Gone)
            && u.timers == [Timer(Wake(f), false)] && StateOf(u, f) == Some(HOLD)
  {
    RaceIsReachable(cb, f);
    RunAppend(Start(2), RaceSetUp(cb, f), AllLeave(g));
    AllLeaveFromRace(cb, f, g, R.Init());
  }

  lemma {:induction false} AllLeaveFromRace(cb: nat, f: nat, g: nat, t: R.Table)
    requires f != g && t.pending == 0
    ensures Run(Racing(cb, f, t), AllLeave(g))
         == Pair(map[][f := EXEC][f := HOLD][g := EXEC][g := INIT][f := EXEC][f := HOLD], [], t,
                 [Timer(Wake(f), false)],
                 Worker(Gone, Some(g), true), Worker(Gone, None, true), 0, {})
  {
    var m, idle, w := map[][f := EXEC][f := HOLD], Worker(Scan, None, false), Racing(cb, f, t);
    var s1 := [ReadTimers(0), ReadEvents(0), Sleep(1), End(1, ToHold), ReadScheduler(0)];
    var s2 := [Claim(1), ReadTimers(1), Expire(1, 0), Deliver(1), Claim(0), Leave(1)];
    var s3 := [Claim(1), ReadTimers(1), ReadEvents(1), Begin(0, g), CallWake(0)];
    var s4 := [End(0, Returns), Claim(0), Begin(0, g), Sleep(0), End(0, ToHold)];
    var s5 := [ReadScheduler(1), Claim(0), Claim(1)];
    RaceLeaves(cb, f, t);
    TakesAfterYes(m, t, f, idle, {});
    AsksMeanwhile(m, t, f, g, idle, {});
    SleepsAgain(m[g := EXEC], t, f, g, idle.(doing := SawNoEvent), {});
    BothEnd(m[g := EXEC][g := INIT][f := EXEC][f := HOLD], t, [Timer(Wake(f), false)], Worker(Scan, Some(g), true),
            idle.(doing := SawNoEvent), {});
    RunAppend(w, s1, s2 + (s3 + (s4 + s5)));
    RunAppend(Run(w, s1), s2, s3 + (s4 + s5));
    RunAppend(Run(Run(w, s1), s2), s3, s4 + s5);
    RunAppend(Run(Run(Run(w, s1), s2), s3), s4, s5);
  }
}
