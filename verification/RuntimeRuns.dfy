/** What the fiber runtime guarantees over whole runs. */
module RuntimeRuns {
  import opened Bytes
  import opened Sequences
  import opened Scheduling
  import opened Runtime
  import R = Readiness

  // ---------- runs ----------

  /** A started scheduler with `n` threads and nothing to do. */
  function Start(n: nat): World {
    World(map[], [], R.Init(), [], seq(n, i => Worker(Scan, None, false)), 0, false, {})
  }

  lemma {:induction false} FreshWorkers(ws: seq<Worker>, f: nat, c: Column)
    requires forall i :: 0 <= i < |ws| ==> ws[i] == Worker(Scan, None, false)
    ensures OfWorkers(ws, f, c) == 0
    decreases |ws|
  {
    if ws != [] {
      FreshWorkers(ws[1..], f, c);
    }
  }

  lemma {:induction false} FreshNotBusy(ws: seq<Worker>)
    requires forall i :: 0 <= i < |ws| ==> ws[i] == Worker(Scan, None, false)
    ensures Busy(ws) == 0
    decreases |ws|
  {
    if ws != [] {
      FreshNotBusy(ws[1..]);
    }
  }

  lemma StartGood(n: nat)
    ensures Inv(Start(n))
  {
    var w := Start(n);
    R.InitOk();
    FreshNotBusy(w.workers);
    forall f
      ensures Owned(w, f)
    {
      forall c
        ensures Total(w, f, c) == 0
      {
        FreshWorkers(w.workers, f, c);
      }
    }
  }

  /** A step that is not possible where it is tried is passed over. */
  function Run(w: World, steps: seq<Step>): World
    decreases |steps|
  {
    if steps == [] then w
    else
      match Go(w, steps[0])
      case Next(u) => Run(u, steps[1..])
      case _ => Run(w, steps[1..])
  }

  /** The world after a step, or the same if it is not possible. */
  function Then(w: World, s: Step): World {
    match Go(w, s)
    case Next(u) => u
    case _ => w
  }

  lemma {:induction false} RunCons(w: World, steps: seq<Step>)
    requires steps != []
    ensures Run(w, steps) == Run(Then(w, steps[0]), steps[1..])
  {
  }

  lemma {:induction false} RunAppend(w: World, a: seq<Step>, b: seq<Step>)
    ensures Run(w, a + b) == Run(Run(w, a), b)
    decreases |a|
  {
    if a == [] {
      assert a + b == b;
    } else {
      assert (a + b)[0] == a[0] && (a + b)[1..] == a[1..] + b;
      RunCons(w, a + b);
      RunCons(w, a);
      RunAppend(Then(w, a[0]), a[1..], b);
    }
  }

  predicate Breaks(w: World, steps: seq<Step>)
    decreases |steps|
  {
    steps != [] && match Go(w, steps[0])
                   case Next(u) => Breaks(u, steps[1..])
                   case Disabled => Breaks(w, steps[1..])
                   case Broken => true
  }

  /** Over every run the invariant holds and no assertion of reset, swapIn or the search fails. */
  lemma {:induction false} RunGood(w: World, steps: seq<Step>)
    requires Inv(w)
    ensures Inv(Run(w, steps)) && !Breaks(w, steps)
    decreases |steps|
  {
    if steps != [] {
      StepGood(w, steps[0]);
      match Go(w, steps[0])
      case Next(u) => RunGood(u, steps[1..]);
      case Disabled => RunGood(w, steps[1..]);
    }
  }

  // ---------- who holds a fiber ----------

  lemma TwoWorkers(ws: seq<Worker>, i: nat, j: nat, f: nat, c: Column)
    requires i < j < |ws|
    ensures OfWorker(ws[i], f, c) + OfWorker(ws[j], f, c) <= OfWorkers(ws, f, c)
  {
    var none := Worker(Gone, None, false);
    WorkersUpdate(ws, i, none, f, c);
    WorkersUpdate(ws[i := none], j, none, f, c);
  }

  /** No fiber is inside two workers, claimed by two, or claimed by one while it is inside another. */
  lemma MutualExclusion(w: World, i: nat, j: nat, f: nat)
    requires Inv(w) && i < j < |w.workers|
    ensures !(Has(w.workers[i].doing, f) && Has(w.workers[j].doing, f))
  {
    assert Owned(w, f);
    TwoWorkers(w.workers, i, j, f, Runs);
    TwoWorkers(w.workers, i, j, f, Claims);
    TwoWorkers(w.workers, i, j, f, ReadyRefs);
    var none := Worker(Gone, None, false);
    WorkersUpdate(w.workers, i, none, f, Runs);
    WorkersUpdate(w.workers, j, none, f, Runs);
    WorkersUpdate(w.workers, i, none, f, Claims);
    WorkersUpdate(w.workers, j, none, f, Claims);
  }

  predicate Has(d: Doing, f: nat) {
    match d
    case Claimed(e) => e.fiber == Some(f)
    case Inside(g, _, _, _) => g == f
    case _ => false
  }

  /**
   * In how many places a fiber can be found to be run again: in the queue, claimed by a worker or in its hands on the
   * way to the queue; behind a callback in the queue or with a worker; behind a timer; in the table.
   */
  function Places(w: World, f: nat): nat {
    OfQueue(w.queue, f, ReadyRefs) + OfWorkers(w.workers, f, ReadyRefs) + OfQueue(w.queue, f, ParkedRefs)
      + OfWorkers(w.workers, f, ParkedRefs)
    + Sleepers(w.timers, f) + Waiters(w.table, f)
  }

  /** It held without arranging to be woken, or somebody deleted its event. */
  predicate Lost(w: World, f: nat) {
    f in w.lost
  }

  /**
   * The queue, the workers, the timers, the callbacks on their way and the readiness table hold a fiber at most once
   * together: exactly once while it is ready or waits and nobody deleted its event, and never once it has ended.
   */
  lemma OnePlace(w: World, f: nat)
    requires Inv(w)
    ensures Places(w, f) <= 1
    ensures StateOf(w, f) == Some(READY) ==>
              Places(w, f) == 1 == OfQueue(w.queue, f, ReadyRefs) + OfWorkers(w.workers, f, ReadyRefs)
    ensures StateOf(w, f) == Some(HOLD) ==> Places(w, f) == One(!Lost(w, f))
    ensures f !in w.fibers || Dead(w.fibers[f]) ==> Places(w, f) == 0
  {
    assert Owned(w, f);
  }

  /** The worker that runs a fiber finds it nowhere, unless it has arranged to be woken. */
  lemma RunningPlace(w: World, i: nat)
    requires Inv(w) && i < |w.workers| && w.workers[i].doing.Inside?
    ensures var d := w.workers[i].doing;
            StateOf(w, d.fiber) == Some(EXEC) && Places(w, d.fiber) == One(d.registered && !Lost(w, d.fiber))
  {
    var f := w.workers[i].doing.fiber;
    assert Owned(w, f);
    RunsAlone(w, i);
  }

  // ---------- nobody is forgotten ----------

  /** A run in which every fiber that holds has arranged to be woken, and nobody deletes an event. */
  ghost predicate Careful(w: World, steps: seq<Step>)
    decreases |steps|
  {
    steps != [] ==>
      && CarefulStep(w, steps[0])
      && match Go(w, steps[0])
         case Next(u) => Careful(u, steps[1..])
         case _ => Careful(w, steps[1..])
  }

  predicate CarefulStep(w: World, s: Step) {
    match s
    case End(i, how) => how.ToHold? && i < |w.workers| && w.workers[i].doing.Inside? ==> w.workers[i].doing.registered
    case Does(_, act) => !Deletes(act)
    case Outside(act) => !Deletes(act)
    case _ => true
  }

  predicate Deletes(act: Act) {
    act.Touch? && act.call.Del?
  }

  lemma PerformForgetsNobody(w: World, act: Act)
    requires Inv(w) && !Deletes(act) && Perform(w, act).Next?
    ensures Perform(w, act).world.lost == w.lost
  {
    match act
    case Touch(call) =>
      match call {
        case Cancel(fd, e, ctl) => R.CancelSpec(w.table, fd, e, ctl);
        case CancelEvery(fd, ctl) => R.CancelAllSpec(w.table, fd, ctl);
        case _ =>
      }
    case ArmCallback(fd, e, cb, ctl) => R.AddSpec(w.table, fd, e, Some(cb), 0, SELF, ctl);
    case _ =>
  }

  lemma StepForgetsNobody(w: World, s: Step)
    requires Inv(w) && CarefulStep(w, s) && Go(w, s).Next?
    ensures Go(w, s).world.lost == w.lost
  {
    match s
    case Outside(act) => PerformForgetsNobody(w, act);
    case Does(i, act) => PerformForgetsNobody(w, act);
    case Report(i, fd, ep, ctl) => R.DispatchSpec(w.table, fd, ep, ctl);
    case _ =>
  }

  /** Over such a run no continuation is lost: a fiber on hold is in exactly one place where it is going to be found. */
  lemma {:induction false} NobodyIsForgotten(w: World, steps: seq<Step>, f: nat)
    requires Inv(w) && w.lost == {} && Careful(w, steps)
    ensures StateOf(Run(w, steps), f) == Some(HOLD) ==> Places(Run(w, steps), f) == 1
    decreases |steps|
  {
    if steps == [] {
      OnePlace(w, f);
    } else {
      StepGood(w, steps[0]);
      match Go(w, steps[0])
      case Next(u) =>
        StepForgetsNobody(w, steps[0]);
        NobodyIsForgotten(u, steps[1..], f);
      case Disabled => NobodyIsForgotten(w, steps[1..], f);
    }
  }
}
