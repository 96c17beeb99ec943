/**
 * The fiber runtime as a transition system: the run queue of myhttp/scheduler.cpp, the fibers of myhttp/fiber.cpp, the
 * readiness table of myhttp/iomanager.cpp, the timers that hold continuations, and any number of worker threads. A step
 * is one section under a lock, or a switch of fibers together with the worker's book-keeping up to its next lock.
 */
module Runtime {
  import opened Bytes
  import opened Sequences
  import opened Scheduling
  import R = Readiness

  /** This scheduler among all that may appear in the table. */
  const SELF: nat := 0

  /** A timer in the set and what its callback does. */
  datatype Timer = Timer(job: Job, recurring: bool)

  /**
   * Where a worker is. Inside a fiber: `job` is a callback still to be called, `viaCb` says that the fiber is the
   * worker's cb_fiber, `registered` that the fiber has already arranged to be woken. The idle fiber asks stopping(),
   * which reads the timers, then the count of events, then the scheduler, each in a section of its own: SawNoTimer and
   * SawNoEvent are between those reads. Carrying has in hand what it schedules next: the
   * callbacks it has drained, or, past the count of active workers, the fiber it ran and that is ready again.
   */
  datatype Doing =
    | Scan
    | Claimed(entry: Entry)
    | Inside(fiber: nat, job: Option<Job>, viaCb: bool, registered: bool)
    | IdleTop
    | SawNoTimer
    | SawNoEvent
    | Polling
    | Carrying(entries: seq<Entry>, polled: bool)
    | Gone

  /** `spare` is cb_fiber while it waits for the next callback; idleDone is an idle fiber in TERM. */
  datatype Worker = Worker(doing: Doing, spare: Option<nat>, idleDone: bool)

  /** `lost` is history: the fibers that held without arranging to be woken, or whose waiting somebody deleted. */
  datatype World = World(
    fibers: map<nat, FiberState>, queue: seq<Entry>, table: R.Table, timers: seq<Timer>,
    workers: seq<Worker>, active: int, stop: bool, lost: set<nat>)

  /** Broken is a failed assertion of reset, swapIn or the search; Disabled a step that cannot be taken here. */
  datatype Result = Next(world: World) | Disabled | Broken

  // ---------- what anybody may do ----------

  /** What a running fiber or a foreign thread asks of the runtime on behalf of others. */
  datatype Act =
    | Spawn(id: nat, thread: Option<nat>)
    | Post(cb: nat, thread: Option<nat>)
    | ArmCallback(fd: nat, e: R.Event, cb: nat, ctl: bool)
    | Touch(call: R.Call)
    | AddTimer(cb: nat, recurring: bool)
    | CancelTimer(at: nat)
    | RequestStop

  function EntryOf(task: R.Task): seq<Entry> {
    if task.scheduler != SELF then []
    else match task.cont
         case FiberCont(f) => [Entry(Some(f), None, None)]
         case CbCont(cb) => [Entry(None, Some(User(cb)), None)]
  }

  /** What the table sent to this scheduler, as queue entries. */
  function Entries(sent: seq<R.Task>): (r: seq<Entry>)
    ensures forall k :: 0 <= k < |r| ==> EntryOk(r[k])
  {
    if sent == [] then [] else EntryOf(sent[0]) + Entries(sent[1..])
  }

  function Enqueue(w: World, es: seq<Entry>): World {
    w.(queue := w.queue + es)
  }

  /** The fibers of this scheduler among some tasks. */
  function FibersOf(tasks: seq<R.Task>): set<nat> {
    set t | t in tasks && t.scheduler == SELF && t.cont.FiberCont? :: t.cont.id
  }

  function Moved(w: World, table: R.Table, dropped: seq<R.Task>, sent: seq<R.Task>): World {
    Enqueue(w.(table := table, lost := w.lost + FibersOf(dropped)), Entries(sent))
  }

  /** A call that fails the table's own assertions is not a step of this system. */
  function Tabled(w: World, o: R.Outcome): Result {
    match o
    case Asserted => Disabled
    case Done(table, _, dropped, sent) =>
      Next(Moved(w, table, dropped, sent))
  }

  function Perform(w: World, act: Act): Result {
    match act
    case Spawn(id, thread) =>
      if id in w.fibers then Disabled
        else Next(Enqueue(w.(fibers := w.fibers[id := INIT]), [Entry(Some(id), None, thread)]))
    case Post(cb, thread) => Next(Enqueue(w, [Entry(None, Some(User(cb)), thread)]))
    case ArmCallback(fd, e, cb, ctl) =>
      if |w.table.ctxs| < R.INITIAL then Disabled else Tabled(w, R.AddEvent(w.table, fd, e, Some(cb), 0, SELF, ctl))
    case Touch(call) =>
      if |w.table.ctxs| < R.INITIAL || call.Add? || call.Idle? then Disabled else Tabled(w, R.Apply(w.table, call))
    case AddTimer(cb, recurring) => Next(w.(timers := w.timers + [Timer(User(cb), recurring)]))
    case CancelTimer(at) =>
      if at >= |w.timers| || w.timers[at].job.Wake? then Disabled else Next(w.(timers := Without(w.timers, at)))
    case RequestStop => Next(w.(stop := true))
  }

  // ---------- what a worker does ----------

  datatype Step =
    | Outside(act: Act)
    | Claim(i: nat)
    | Begin(i: nat, id: nat)
    | CallWake(i: nat)
    | Does(i: nat, act: Act)
    | WaitEvent(i: nat, fd: nat, e: R.Event, ctl: bool)
    | Sleep(i: nat)
    | Requeue(i: nat)
    | End(i: nat, how: Ending)
    | ReadTimers(i: nat)
    | ReadEvents(i: nat)
    | ReadScheduler(i: nat)
    | Expire(i: nat, k: nat)
    | Deliver(i: nat)
    | Report(i: nat, fd: nat, ep: R.Epoll, ctl: bool)
    | Leave(i: nat)

  function Exec(fibers: map<nat, FiberState>): set<nat> {
    set id | id in fibers && fibers[id] == EXEC
  }

  function Set(w: World, i: nat, d: Worker): World
    requires i < |w.workers|
  {
    w.(workers := w.workers[i := d])
  }

  /** The world after worker `i` took the entry at `k`. */
  function Taken(w: World, i: nat, k: nat): World
    requires i < |w.workers| && k < |w.queue|
  {
    Set(w, i, w.workers[i].(doing := Claimed(w.queue[k]))).(queue := Without(w.queue, k), active := w.active + 1)
  }

  /** The world after worker `i` switched to the fiber it claimed. */
  function Begun(w: World, i: nat, g: nat): World
    requires i < |w.workers|
  {
    Set(w, i, w.workers[i].(doing := Inside(g, None, false, false))).(fibers := w.fibers[g := EXEC])
  }

  function GoIdle(d: Worker): Worker {
    d.(doing := if d.idleDone then Gone else IdleTop)
  }

  function DoClaim(w: World, i: nat): Result
    requires i < |w.workers|
  {
    var d := w.workers[i];
    if d.doing != Scan then Disabled
    else
      match Search(w.queue, i, Exec(w.fibers))
      case Asserted => Broken
      case Nothing(_) => Next(Set(w, i, GoIdle(d)))
      case Take(k, _) =>
        Next(Taken(w, i, k))
  }

  /** The claimed entry is run; a dead fiber falls through to the idle branch. */
  function DoBegin(w: World, i: nat, id: nat): Result
    requires i < |w.workers|
  {
    var d := w.workers[i];
    if !d.doing.Claimed? then Disabled
    else
      var e := d.doing.entry;
      if e.fiber.Some? then
        var f := e.fiber.value;
        if f !in w.fibers || w.fibers[f] == EXEC then Broken
        else if Dead(w.fibers[f]) then Next(Set(w, i, GoIdle(d)))
        else Next(Begun(w, i, f))
      else if e.cb.Some? then
        if d.spare.Some? then
          var g := d.spare.value;
          if g !in w.fibers || !Resettable(w.fibers[g]) then Broken
          else Next(Set(w, i, d.(doing := Inside(g, e.cb, true, false), spare := None)).(fibers := w.fibers[g := EXEC]))
        else if id in w.fibers then Disabled
        else Next(Set(w, i, d.(doing := Inside(id, e.cb, true, false))).(fibers := w.fibers[id := EXEC]))
      else
        Next(Set(w, i, GoIdle(d)))
  }

  /** The world after the bound function of a sleep scheduled fiber `g`. */
  function Awake(w: World, i: nat, g: nat): World
    requires i < |w.workers| && w.workers[i].doing.Inside?
  {
    var d := w.workers[i];
    Enqueue(Set(w, i, d.(doing := d.doing.(job := None))), [Entry(Some(g), None, None)])
  }

  /** The function that sleep binds only schedules its fiber. */
  function DoWake(w: World, i: nat): Result
    requires i < |w.workers|
  {
    var d := w.workers[i];
    if !d.doing.Inside? || d.doing.job.None? || !d.doing.job.value.Wake? then Disabled
    else Next(Awake(w, i, d.doing.job.value.fiber))
  }

  /** In user code, with the bound function of a sleep behind it. */
  predicate Free(d: Worker) {
    d.doing.Inside? && !(d.doing.job.Some? && d.doing.job.value.Wake?)
  }

  function Registered(d: Worker): Worker
    requires d.doing.Inside?
  {
    d.(doing := d.doing.(registered := true))
  }

  /** The fiber arranges to be woken: at most once before it yields. */
  function DoWait(w: World, i: nat, fd: nat, e: R.Event, ctl: bool): Result
    requires i < |w.workers|
  {
    var d := w.workers[i];
    if !Free(d) || d.doing.registered || |w.table.ctxs| < R.INITIAL then Disabled
    else
      match R.AddEvent(w.table, fd, e, None, d.doing.fiber, SELF, ctl)
      case Asserted => Disabled
      case Done(table, yes, _, _) => Next((if yes then Set(w, i, Registered(d)) else w).(table := table))
  }

  /** The world after the fiber inside worker `i` set a timer for itself. */
  function Asleep(w: World, i: nat): World
    requires i < |w.workers| && w.workers[i].doing.Inside?
  {
    Set(w, i, Registered(w.workers[i])).(timers := w.timers + [Timer(Wake(w.workers[i].doing.fiber), false)])
  }

  function DoSleep(w: World, i: nat): Result
    requires i < |w.workers|
  {
    var d := w.workers[i];
    if !Free(d) || d.doing.registered then Disabled
    else Next(Asleep(w, i))
  }

  function DoRequeue(w: World, i: nat): Result
    requires i < |w.workers|
  {
    var d := w.workers[i];
    if !Free(d) || d.doing.registered then Disabled
    else Next(Enqueue(Set(w, i, Registered(d)), [Entry(Some(d.doing.fiber), None, None)]))
  }

  /** The worker it ends on: one that yielded ready is still to be queued. */
  function Ended(d: Worker, how: Ending): Worker
    requires d.doing.Inside?
  {
    var f := d.doing.fiber;
    d.(doing := if how.ToReady? then Carrying([Entry(Some(f), None, None)], false) else Scan,
       spare := if d.doing.viaCb && Dead(Left(how)) then Some(f) else d.spare)
  }

  /** A fiber that has arranged to be woken may only hold. */
  function DoEnd(w: World, i: nat, how: Ending): Result
    requires i < |w.workers|
  {
    var d := w.workers[i];
    if !Free(d) || (d.doing.registered && !how.ToHold?) then Disabled
    else
      var f := d.doing.fiber;
      var kept := d.doing.viaCb && Dead(Left(how));
      Next(Set(w, i, Ended(d, how))
             .(fibers := w.fibers[f := if kept then INIT else Left(how)], active := w.active - 1,
               lost := if how.ToHold? && !d.doing.registered then w.lost + {f} else w.lost))
  }

  /** What the three reads of IOManager::stopping are about, at one moment. */
  predicate Stopping(w: World) {
    w.timers == [] && w.table.pending == 0 && SchedulerStopping(w)
  }

  /** Scheduler::stopping. */
  predicate SchedulerStopping(w: World) {
    w.stop && w.queue == [] && w.active == 0
  }

  function DoReadTimers(w: World, i: nat): Result
    requires i < |w.workers|
  {
    var d := w.workers[i];
    if d.doing != IdleTop then Disabled
    else Next(Set(w, i, d.(doing := if w.timers == [] then SawNoTimer else Polling)))
  }

  function DoReadEvents(w: World, i: nat): Result
    requires i < |w.workers|
  {
    var d := w.workers[i];
    if d.doing != SawNoTimer then Disabled
    else Next(Set(w, i, d.(doing := if w.table.pending == 0 then SawNoEvent else Polling)))
  }

  /** With the last yes the idle fiber ends. */
  function DoReadScheduler(w: World, i: nat): Result
    requires i < |w.workers|
  {
    var d := w.workers[i];
    if d.doing != SawNoEvent then Disabled
    else Next(Set(w, i, if SchedulerStopping(w) then Worker(Scan, d.spare, true) else d.(doing := Polling)))
  }

  function Held(d: Worker): seq<Entry> {
    if d.doing.Carrying? then d.doing.entries else []
  }

  /** Between epoll_wait and the schedule of what is drained. */
  predicate Drains(d: Worker) {
    d.doing == Polling || (d.doing.Carrying? && d.doing.polled)
  }

  /** The world after worker `i` took the callback of the timer at `k` in hand. */
  function Collected(w: World, i: nat, k: nat): World
    requires i < |w.workers| && k < |w.timers|
  {
    var d, t := w.workers[i], w.timers[k];
    Set(w, i, d.(doing := Carrying(Held(d) + [Entry(None, Some(t.job), None)], true)))
      .(timers := if t.recurring then w.timers else Without(w.timers, k))
  }

  /** The drain, timer by timer: any of them may be due, in any order. */
  function DoExpire(w: World, i: nat, k: nat): Result
    requires i < |w.workers|
  {
    if !Drains(w.workers[i]) || k >= |w.timers| then Disabled else Next(Collected(w, i, k))
  }

  /** What the worker has in hand goes to the run queue in one section of the scheduler. */
  function DoDeliver(w: World, i: nat): Result
    requires i < |w.workers|
  {
    var d := w.workers[i];
    if !d.doing.Carrying? then Disabled
    else Next(Enqueue(Set(w, i, d.(doing := if d.doing.polled then Polling else Scan)), d.doing.entries))
  }

  function DoReport(w: World, i: nat, fd: nat, ep: R.Epoll, ctl: bool): Result
    requires i < |w.workers|
  {
    if w.workers[i].doing != Polling || fd >= |w.table.ctxs| then Disabled
    else Tabled(w, R.Dispatch(w.table, fd, ep, ctl))
  }

  function DoLeave(w: World, i: nat): Result
    requires i < |w.workers|
  {
    if w.workers[i].doing != Polling then Disabled else Next(Set(w, i, w.workers[i].(doing := Scan)))
  }

  function Go(w: World, s: Step): Result {
    if s.Outside? then Perform(w, s.act)
    else if s.i >= |w.workers| then Disabled
    else
      match s
      case Claim(i) => DoClaim(w, i)
      case Begin(i, id) => DoBegin(w, i, id)
      case CallWake(i) => DoWake(w, i)
      case Does(i, act) => if Free(w.workers[i]) then Perform(w, act) else Disabled
      case WaitEvent(i, fd, e, ctl) => DoWait(w, i, fd, e, ctl)
      case Sleep(i) => DoSleep(w, i)
      case Requeue(i) => DoRequeue(w, i)
      case End(i, how) => DoEnd(w, i, how)
      case ReadTimers(i) => DoReadTimers(w, i)
      case ReadEvents(i) => DoReadEvents(w, i)
      case ReadScheduler(i) => DoReadScheduler(w, i)
      case Expire(i, k) => DoExpire(w, i, k)
      case Deliver(i) => DoDeliver(w, i)
      case Report(i, fd, ep, ctl) => DoReport(w, i, fd, ep, ctl)
      case Leave(i) => DoLeave(w, i)
  }

  // ---------- counting who holds a fiber ----------

  /**
   * What is counted for one fiber: the queue entries and claimed entries that are the fiber, what will put it into the
   * queue, the workers that claimed it, the workers inside it, those of them where it has arranged to be woken, and the
   * workers that keep it.
   */
  datatype Column = ReadyRefs | ParkedRefs | Claims | Runs | Regs | Spares

  function OfEntry(e: Entry, f: nat, c: Column): nat {
    match c
    case ReadyRefs => One(e.fiber == Some(f))
    case ParkedRefs => One(e.cb == Some(Wake(f)))
    case _ => 0
  }

  function OfDoing(d: Doing, f: nat, c: Column): nat {
    match d
    case Carrying(es, _) => OfQueue(es, f, c)
    case Claimed(e) => if c.Claims? then One(e.fiber == Some(f)) else OfEntry(e, f, c)
    case Inside(g, job, _, registered) =>
      (match c
       case ParkedRefs => One(job == Some(Wake(f)))
       case Runs => One(g == f)
       case Regs => One(g == f && registered)
       case _ => 0)
    case _ => 0
  }

  function OfWorker(d: Worker, f: nat, c: Column): nat {
    OfDoing(d.doing, f, c) + if c.Spares? then One(d.spare == Some(f)) else 0
  }

  function OfQueue(q: seq<Entry>, f: nat, c: Column): nat {
    if q == [] then 0 else OfEntry(q[0], f, c) + OfQueue(q[1..], f, c)
  }

  function OfWorkers(ws: seq<Worker>, f: nat, c: Column): nat {
    if ws == [] then 0 else OfWorker(ws[0], f, c) + OfWorkers(ws[1..], f, c)
  }

  function Sleepers(ts: seq<Timer>, f: nat): nat {
    if ts == [] then 0 else One(ts[0].job == Wake(f)) + Sleepers(ts[1..], f)
  }

  function Waiters(t: R.Table, f: nat): nat {
    R.Armed(t.ctxs, R.Task(SELF, R.FiberCont(f)))
  }

  function Total(w: World, f: nat, c: Column): nat {
    OfQueue(w.queue, f, c) + OfWorkers(w.workers, f, c)
    + if c.ParkedRefs? then Sleepers(w.timers, f) + Waiters(w.table, f) else 0
  }

  function Busy(ws: seq<Worker>): nat {
    if ws == [] then 0 else BusyOne(ws[0]) + Busy(ws[1..])
  }

  function StateOf(w: World, f: nat): Option<FiberState> {
    if f in w.fibers then Some(w.fibers[f]) else None
  }

  /** What the state of a fiber says about who holds it. */
  predicate FiberOk(s: Option<FiberState>, lost: bool, ready: nat, parked: nat, claims: nat, runs: nat, regs: nat,
                    spares: nat) {
    match s
    case Some(INIT) => ready + spares == 1 && parked == 0 && runs == 0 && regs == 0 && !lost
    case Some(EXEC) => runs == 1 && spares == 0 && claims == 0 && regs <= 1 && (lost ==> regs == 1)
      && ready + parked == if lost then 0 else regs
    case Some(HOLD) => ready + parked == One(!lost) && runs == 0 && regs == 0 && spares == 0
    case Some(READY) => ready == 1 && parked == 0 && runs == 0 && regs == 0 && spares == 0 && !lost
    case _ => ready == 0 && parked == 0 && runs == 0 && regs == 0 && spares == 0 && !lost
  }

  predicate Owned(w: World, f: nat) {
    FiberOk(StateOf(w, f), f in w.lost, Total(w, f, ReadyRefs), Total(w, f, ParkedRefs), Total(w, f, Claims),
            Total(w, f, Runs), Total(w, f, Regs), Total(w, f, Spares))
  }

  /** A fiber or a callback, not both. */
  predicate EntryOk(e: Entry) {
    e.fiber.Some? <==> e.cb.None?
  }

  predicate WorkerOk(d: Worker) {
    && (d.doing.Claimed? ==> EntryOk(d.doing.entry))
    && (d.doing.Inside? && d.doing.viaCb ==> d.spare.None?)
    && (d.doing.Carrying? ==> d.doing.entries != [])
    && (d.doing.Carrying? ==> forall k :: 0 <= k < |d.doing.entries| ==> EntryOk(d.doing.entries[k]))
  }

  /** A sleep is over once. */
  predicate TimerOk(t: Timer) {
    t.recurring ==> t.job.User?
  }

  ghost predicate Sound(w: World) {
    && R.TableOk(w.table)
    && (forall k :: 0 <= k < |w.queue| ==> EntryOk(w.queue[k]))
    && (forall i :: 0 <= i < |w.workers| ==> WorkerOk(w.workers[i]))
    && (forall k :: 0 <= k < |w.timers| ==> TimerOk(w.timers[k]))
    && w.active == Busy(w.workers)
  }

  ghost predicate Inv(w: World) {
    Sound(w) && forall f :: Owned(w, f)
  }

  // ---------- sums ----------

  lemma {:induction false} QueueAppend(a: seq<Entry>, b: seq<Entry>, f: nat, c: Column)
    ensures OfQueue(a + b, f, c) == OfQueue(a, f, c) + OfQueue(b, f, c)
    decreases |a|
  {
    if a == [] {
      assert a + b == b;
    } else {
      assert (a + b)[1..] == a[1..] + b;
      QueueAppend(a[1..], b, f, c);
    }
  }

  lemma QueuePush(q: seq<Entry>, e: Entry, f: nat, c: Column)
    ensures OfQueue(q + [e], f, c) == OfQueue(q, f, c) + OfEntry(e, f, c)
  {
    QueueAppend(q, [e], f, c);
    assert [e][1..] == [];
  }

  lemma QueueWithout(q: seq<Entry>, k: nat, f: nat, c: Column)
    requires k < |q|
    ensures OfQueue(q, f, c) == OfQueue(Without(q, k), f, c) + OfEntry(q[k], f, c)
  {
    assert q == q[..k] + [q[k]] + q[k + 1..];
    QueueAppend(q[..k] + [q[k]], q[k + 1..], f, c);
    QueuePush(q[..k], q[k], f, c);
    QueueAppend(q[..k], q[k + 1..], f, c);
  }

  lemma {:induction false} WorkersUpdate(ws: seq<Worker>, i: nat, d: Worker, f: nat, c: Column)
    requires i < |ws|
    ensures OfWorkers(ws[i := d], f, c) + OfWorker(ws[i], f, c) == OfWorkers(ws, f, c) + OfWorker(d, f, c)
    decreases i
  {
    if i > 0 {
      WorkersUpdate(ws[1..], i - 1, d, f, c);
      assert ws[i := d][1..] == ws[1..][i - 1 := d];
    } else {
      assert ws[i := d][1..] == ws[1..];
    }
  }

  function BusyOne(d: Worker): nat {
    One(d.doing.Claimed? || d.doing.Inside?)
  }

  lemma {:induction false} BusyUpdate(ws: seq<Worker>, i: nat, d: Worker)
    requires i < |ws|
    ensures Busy(ws[i := d]) + BusyOne(ws[i]) == Busy(ws) + BusyOne(d)
    decreases i
  {
    if i > 0 {
      BusyUpdate(ws[1..], i - 1, d);
      assert ws[i := d][1..] == ws[1..][i - 1 := d];
    } else {
      assert ws[i := d][1..] == ws[1..];
    }
  }

  lemma {:induction false} SleepersAppend(a: seq<Timer>, b: seq<Timer>, f: nat)
    ensures Sleepers(a + b, f) == Sleepers(a, f) + Sleepers(b, f)
    decreases |a|
  {
    if a == [] {
      assert a + b == b;
    } else {
      assert (a + b)[1..] == a[1..] + b;
      SleepersAppend(a[1..], b, f);
    }
  }

  lemma SleepersPush(ts: seq<Timer>, t: Timer, f: nat)
    ensures Sleepers(ts + [t], f) == Sleepers(ts, f) + One(t.job == Wake(f))
  {
    SleepersAppend(ts, [t], f);
    assert [t][1..] == [];
  }

  lemma SleepersDrop(ts: seq<Timer>, k: nat, f: nat)
    requires k < |ts|
    ensures Sleepers(ts, f) == Sleepers(Without(ts, k), f) + One(ts[k].job == Wake(f))
  {
    assert ts == ts[..k] + [ts[k]] + ts[k + 1..];
    SleepersAppend(ts[..k] + [ts[k]], ts[k + 1..], f);
    SleepersPush(ts[..k], ts[k], f);
    SleepersAppend(ts[..k], ts[k + 1..], f);
  }

  /** What the table sends is queued as often as it was sent. */
  lemma {:induction false} EntriesCount(sent: seq<R.Task>, f: nat, c: Column)
    ensures OfQueue(Entries(sent), f, c) == if c.ReadyRefs? then R.Times(sent, R.Task(SELF, R.FiberCont(f))) else 0
    decreases |sent|
  {
    if sent != [] {
      EntriesCount(sent[1..], f, c);
      var one := EntryOf(sent[0]);
      QueueAppend(one, Entries(sent[1..]), f, c);
      assert one != [] ==> one[1..] == [];
    }
  }

  lemma SetTotals(w: World, i: nat, d: Worker, f: nat)
    requires i < |w.workers|
    ensures forall c :: Total(Set(w, i, d), f, c) + OfWorker(w.workers[i], f, c) == Total(w, f, c) + OfWorker(d, f, c)
  {
    forall c
      ensures Total(Set(w, i, d), f, c) + OfWorker(w.workers[i], f, c) == Total(w, f, c) + OfWorker(d, f, c)
    {
      WorkersUpdate(w.workers, i, d, f, c);
    }
  }

  lemma EnqueueTotals(w: World, es: seq<Entry>, f: nat)
    ensures forall c :: Total(Enqueue(w, es), f, c) == Total(w, f, c) + OfQueue(es, f, c)
  {
    forall c
      ensures Total(Enqueue(w, es), f, c) == Total(w, f, c) + OfQueue(es, f, c)
    {
      QueueAppend(w.queue, es, f, c);
    }
  }

  lemma OneEntry(e: Entry, f: nat, c: Column)
    ensures OfQueue([e], f, c) == OfEntry(e, f, c)
  {
    assert [e][1..] == [];
  }

  lemma EnqueueOne(w: World, e: Entry, f: nat)
    ensures forall c :: Total(Enqueue(w, [e]), f, c) == Total(w, f, c) + OfEntry(e, f, c)
  {
    forall c
      ensures Total(Enqueue(w, [e]), f, c) == Total(w, f, c) + OfEntry(e, f, c)
    {
      QueuePush(w.queue, e, f, c);
    }
  }

  // ---------- every step keeps who holds a fiber ----------

  lemma TakenTotals(w: World, i: nat, k: nat, f: nat, c: Column)
    requires i < |w.workers| && w.workers[i].doing == Scan && k < |w.queue|
    ensures Total(Taken(w, i, k), f, c) == Total(w, f, c) + if c.Claims? then One(w.queue[k].fiber == Some(f)) else 0
  {
    WorkersUpdate(w.workers, i, w.workers[i].(doing := Claimed(w.queue[k])), f, c);
    QueueWithout(w.queue, k, f, c);
  }

  lemma TakenOwned(w: World, i: nat, k: nat, f: nat)
    requires Owned(w, f) && i < |w.workers| && w.workers[i].doing == Scan && k < |w.queue|
    requires !(w.queue[k].fiber == Some(f) && StateOf(w, f) == Some(EXEC))
    ensures Owned(Taken(w, i, k), f)
  {
    forall c
      ensures Total(Taken(w, i, k), f, c) == Total(w, f, c) + if c.Claims? then One(w.queue[k].fiber == Some(f)) else 0
    {
      TakenTotals(w, i, k, f, c);
    }
  }

  lemma {:induction false} ClaimsWithinReady(ws: seq<Worker>, f: nat)
    ensures OfWorkers(ws, f, Claims) <= OfWorkers(ws, f, ReadyRefs)
    decreases |ws|
  {
    if ws != [] {
      ClaimsWithinReady(ws[1..], f);
      QueueHasNone(Held(ws[0]), f);
    }
  }

  lemma {:induction false} QueueHasNone(q: seq<Entry>, f: nat)
    ensures OfQueue(q, f, Claims) == 0 && OfQueue(q, f, Runs) == 0 && OfQueue(q, f, Regs) == 0
    decreases |q|
  {
    if q != [] {
      QueueHasNone(q[1..], f);
    }
  }

  lemma ClaimsWithin(w: World, f: nat)
    ensures Total(w, f, Claims) <= Total(w, f, ReadyRefs)
  {
    ClaimsWithinReady(w.workers, f);
    QueueHasNone(w.queue, f);
  }

  lemma BegunTotals(w: World, i: nat, g: nat, f: nat, c: Column)
    requires i < |w.workers| && w.workers[i].doing.Claimed? && w.workers[i].doing.entry.fiber == Some(g)
    requires EntryOk(w.workers[i].doing.entry)
    ensures Total(Begun(w, i, g), f, c) + (if c.ReadyRefs? || c.Claims? then One(g == f) else 0)
         == Total(w, f, c) + if c.Runs? then One(g == f) else 0
  {
    WorkersUpdate(w.workers, i, w.workers[i].(doing := Inside(g, None, false, false)), f, c);
  }

  lemma BeginFiberOwned(w: World, i: nat, g: nat, f: nat)
    requires Owned(w, f) && i < |w.workers| && w.workers[i].doing.Claimed? && w.workers[i].doing.entry.fiber == Some(g)
    requires EntryOk(w.workers[i].doing.entry) && g in w.fibers && !Dead(w.fibers[g]) && w.fibers[g] != EXEC
    ensures Owned(Begun(w, i, g), f)
  {
    ClaimsWithin(w, f);
    BegunTotals(w, i, g, f, ReadyRefs);
    BegunTotals(w, i, g, f, ParkedRefs);
    BegunTotals(w, i, g, f, Claims);
    BegunTotals(w, i, g, f, Runs);
    BegunTotals(w, i, g, f, Regs);
    BegunTotals(w, i, g, f, Spares);
  }

  lemma BeginSpareOwned(w: World, i: nat, g: nat, e: Entry, f: nat)
    requires Owned(w, f) && Owned(w, g) && i < |w.workers| && w.workers[i].doing == Claimed(e) && g in w.fibers
    requires e.cb.Some? && EntryOk(e) && w.workers[i].spare == Some(g)
    ensures w.fibers[g] == INIT
    ensures var d := w.workers[i].(doing := Inside(g, e.cb, true, false), spare := None);
            Owned(Set(w, i, d).(fibers := w.fibers[g := EXEC]), f)
  {
    ClaimsWithin(w, g);
    SetTotals(w, i, w.workers[i].(doing := Inside(g, e.cb, true, false), spare := None), f);
    SetTotals(w, i, w.workers[i].(doing := Inside(g, e.cb, true, false), spare := None), g);
  }

  lemma BeginNewOwned(w: World, i: nat, g: nat, e: Entry, f: nat)
    requires Owned(w, f) && i < |w.workers| && w.workers[i].doing == Claimed(e) && g !in w.fibers && e.cb.Some?
             && EntryOk(e)
    requires w.workers[i].spare.None?
    ensures Owned(Set(w, i, w.workers[i].(doing := Inside(g, e.cb, true, false))).(fibers := w.fibers[g := EXEC]), f)
  {
    ClaimsWithin(w, g);
    SetTotals(w, i, w.workers[i].(doing := Inside(g, e.cb, true, false)), f);
  }

  lemma AwakeTotals(w: World, i: nat, g: nat, f: nat, c: Column)
    requires i < |w.workers| && w.workers[i].doing.Inside? && w.workers[i].doing.job == Some(Wake(g))
    ensures Total(Awake(w, i, g), f, c) + (if c.ParkedRefs? then One(g == f) else 0)
         == Total(w, f, c) + if c.ReadyRefs? then One(g == f) else 0
  {
    var d := w.workers[i];
    WorkersUpdate(w.workers, i, d.(doing := d.doing.(job := None)), f, c);
    QueuePush(w.queue, Entry(Some(g), None, None), f, c);
  }

  lemma WakeOwned(w: World, i: nat, g: nat, f: nat)
    requires Owned(w, f) && i < |w.workers| && w.workers[i].doing.Inside? && w.workers[i].doing.job == Some(Wake(g))
    ensures Owned(Awake(w, i, g), f)
  {
    AwakeTotals(w, i, g, f, ReadyRefs);
    AwakeTotals(w, i, g, f, ParkedRefs);
    AwakeTotals(w, i, g, f, Claims);
    AwakeTotals(w, i, g, f, Runs);
    AwakeTotals(w, i, g, f, Regs);
    AwakeTotals(w, i, g, f, Spares);
  }

  /** Entries that are nobody's continuation change nobody's totals. */
  lemma ForeignOwned(w: World, u: World, e: Entry, f: nat)
    requires Owned(w, f) && u.workers == w.workers && u.timers == w.timers && u.table == w.table
             && u.queue == w.queue + [e] && u.lost == w.lost
    requires e.cb.Some? ==> e.cb.value.User?
    requires if e.fiber == Some(f) then f !in w.fibers && StateOf(u, f) == Some(INIT)
             else StateOf(u, f) == StateOf(w, f)
    ensures Owned(u, f)
  {
    forall c
      ensures Total(u, f, c) == Total(w, f, c) + OfEntry(e, f, c)
    {
      QueuePush(w.queue, e, f, c);
    }
  }

  lemma {:induction false} DroppedCount(tasks: seq<R.Task>, f: nat)
    ensures f in FibersOf(tasks) <==> R.Times(tasks, R.Task(SELF, R.FiberCont(f))) > 0
    decreases |tasks|
  {
    if tasks != [] {
      DroppedCount(tasks[1..], f);
      assert tasks == [tasks[0]] + tasks[1..];
    }
  }

  /** A table step that moves continuations from the table to the queue. */
  lemma SentOwned(w: World, table: R.Table, sent: seq<R.Task>, dropped: seq<R.Task>, f: nat)
    requires Owned(w, f)
    requires var task := R.Task(SELF, R.FiberCont(f));
             R.Armed(w.table.ctxs, task) == R.Armed(table.ctxs, task) + R.Times(dropped, task) + R.Times(sent, task)
    ensures Owned(Moved(w, table, dropped, sent), f)
  {
    var u := w.(table := table, lost := w.lost + FibersOf(dropped));
    DroppedCount(dropped, f);
    EnqueueTotals(u, Entries(sent), f);
    forall c
      ensures Total(Enqueue(u, Entries(sent)), f, c)
           == Total(u, f, c) + if c.ReadyRefs? then R.Times(sent, R.Task(SELF, R.FiberCont(f))) else 0
    {
      EntriesCount(sent, f, c);
    }
  }

  lemma {:induction false} RegsWithinRuns(ws: seq<Worker>, f: nat)
    ensures OfWorkers(ws, f, Regs) <= OfWorkers(ws, f, Runs)
    decreases |ws|
  {
    if ws != [] {
      RegsWithinRuns(ws[1..], f);
      QueueHasNone(Held(ws[0]), f);
    }
  }

  /** Only the worker inside a fiber knows whether it has arranged to be woken. */
  lemma RunsAlone(w: World, i: nat)
    requires i < |w.workers| && w.workers[i].doing.Inside? && Owned(w, w.workers[i].doing.fiber)
    ensures var d := w.workers[i].doing;
            StateOf(w, d.fiber) == Some(EXEC) && Total(w, d.fiber, Regs) == One(d.registered)
  {
    var d := w.workers[i];
    var f := d.doing.fiber;
    var ws := w.workers[i := d.(doing := Scan)];
    WorkersUpdate(w.workers, i, d.(doing := Scan), f, Runs);
    WorkersUpdate(w.workers, i, d.(doing := Scan), f, Regs);
    RegsWithinRuns(ws, f);
    QueueHasNone(w.queue, f);
  }

  lemma WaitOwned(w: World, i: nat, table: R.Table, f: nat)
    requires Owned(w, f) && i < |w.workers| && w.workers[i].doing.Inside? && Owned(w, w.workers[i].doing.fiber)
             && !w.workers[i].doing.registered
    requires Waiters(table, f) == Waiters(w.table, f) + One(f == w.workers[i].doing.fiber)
    ensures Owned(Set(w, i, Registered(w.workers[i])).(table := table), f)
  {
    RunsAlone(w, i);
    SetTotals(w, i, Registered(w.workers[i]), f);
  }

  lemma SleepTotals(w: World, i: nat, f: nat, c: Column)
    requires i < |w.workers| && w.workers[i].doing.Inside? && !w.workers[i].doing.registered
    ensures var g := w.workers[i].doing.fiber;
            Total(Asleep(w, i), f, c) == Total(w, f, c) + if c.ParkedRefs? || c.Regs? then One(g == f) else 0
  {
    WorkersUpdate(w.workers, i, Registered(w.workers[i]), f, c);
    SleepersPush(w.timers, Timer(Wake(w.workers[i].doing.fiber), false), f);
  }

  lemma SleepOwned(w: World, i: nat, f: nat)
    requires Owned(w, f) && i < |w.workers| && w.workers[i].doing.Inside? && !w.workers[i].doing.registered
    requires Owned(w, w.workers[i].doing.fiber)
    ensures Owned(Asleep(w, i), f)
  {
    RunsAlone(w, i);
    SleepTotals(w, i, f, ReadyRefs);
    SleepTotals(w, i, f, ParkedRefs);
    SleepTotals(w, i, f, Claims);
    SleepTotals(w, i, f, Runs);
    SleepTotals(w, i, f, Regs);
    SleepTotals(w, i, f, Spares);
  }

  lemma RequeueOwned(w: World, i: nat, f: nat)
    requires Owned(w, f) && i < |w.workers| && w.workers[i].doing.Inside? && Owned(w, w.workers[i].doing.fiber)
             && !w.workers[i].doing.registered
    ensures Owned(Enqueue(Set(w, i, Registered(w.workers[i])), [Entry(Some(w.workers[i].doing.fiber), None, None)]), f)
  {
    RunsAlone(w, i);
    var e := Entry(Some(w.workers[i].doing.fiber), None, None);
    SetTotals(w, i, Registered(w.workers[i]), f);
    EnqueueOne(Set(w, i, Registered(w.workers[i])), e, f);
  }

  lemma EndTotals(w: World, i: nat, how: Ending, f: nat)
    requires i < |w.workers| && DoEnd(w, i, how).Next?
    ensures var u, d := DoEnd(w, i, how).world, w.workers[i];
            forall c :: Total(u, f, c) + OfWorker(d, f, c) == Total(w, f, c) + OfWorker(Ended(d, how), f, c)
    ensures how.ToReady? ==>
              forall c :: OfDoing(Ended(w.workers[i], how).doing, f, c)
                       == if c.ReadyRefs? then One(w.workers[i].doing.fiber == f) else 0
  {
    var u, d := DoEnd(w, i, how).world, w.workers[i];
    SetTotals(w, i, Ended(d, how), f);
    forall c
      ensures Total(u, f, c) == Total(Set(w, i, Ended(d, how)), f, c)
    {
    }
    if how.ToReady? {
      forall c
        ensures OfDoing(Ended(d, how).doing, f, c) == if c.ReadyRefs? then One(d.doing.fiber == f) else 0
      {
        OneEntry(Entry(Some(d.doing.fiber), None, None), f, c);
      }
    }
  }

  lemma EndOwnOwned(w: World, i: nat, how: Ending)
    requires i < |w.workers| && DoEnd(w, i, how).Next? && WorkerOk(w.workers[i]) && Owned(w, w.workers[i].doing.fiber)
    ensures Owned(DoEnd(w, i, how).world, w.workers[i].doing.fiber)
  {
    RunsAlone(w, i);
    EndTotals(w, i, how, w.workers[i].doing.fiber);
  }

  lemma EndOthersOwned(w: World, i: nat, how: Ending, f: nat)
    requires Owned(w, f) && i < |w.workers| && DoEnd(w, i, how).Next? && WorkerOk(w.workers[i])
             && f != w.workers[i].doing.fiber
    ensures Owned(DoEnd(w, i, how).world, f)
  {
    EndTotals(w, i, how, f);
  }

  lemma CollectedTotals(w: World, i: nat, k: nat, f: nat, c: Column)
    requires i < |w.workers| && k < |w.timers| && TimerOk(w.timers[k]) && Drains(w.workers[i])
    ensures Total(Collected(w, i, k), f, c) == Total(w, f, c)
  {
    var d, e := w.workers[i], Entry(None, Some(w.timers[k].job), None);
    WorkersUpdate(w.workers, i, d.(doing := Carrying(Held(d) + [e], true)), f, c);
    QueuePush(Held(d), e, f, c);
    SleepersDrop(w.timers, k, f);
  }

  lemma ExpireOwned(w: World, i: nat, k: nat, f: nat)
    requires Owned(w, f) && i < |w.workers| && k < |w.timers| && TimerOk(w.timers[k]) && Drains(w.workers[i])
    ensures Owned(Collected(w, i, k), f)
  {
    forall c
      ensures Total(Collected(w, i, k), f, c) == Total(w, f, c)
    {
      CollectedTotals(w, i, k, f, c);
    }
  }

  lemma DeliveredTotals(w: World, i: nat, f: nat, c: Column)
    requires i < |w.workers| && w.workers[i].doing.Carrying?
    ensures Total(DoDeliver(w, i).world, f, c) == Total(w, f, c)
  {
    var d := w.workers[i];
    WorkersUpdate(w.workers, i, d.(doing := if d.doing.polled then Polling else Scan), f, c);
    QueueAppend(w.queue, d.doing.entries, f, c);
  }

  lemma DeliverOwned(w: World, i: nat, f: nat)
    requires Owned(w, f) && i < |w.workers| && w.workers[i].doing.Carrying?
    ensures Owned(DoDeliver(w, i).world, f)
  {
    DeliveredTotals(w, i, f, ReadyRefs);
    DeliveredTotals(w, i, f, ParkedRefs);
    DeliveredTotals(w, i, f, Claims);
    DeliveredTotals(w, i, f, Runs);
    DeliveredTotals(w, i, f, Regs);
    DeliveredTotals(w, i, f, Spares);
  }

  /** Neither a task nor drained callbacks in hand. */
  predicate EmptyHanded(d: Worker) {
    !d.doing.Claimed? && !d.doing.Inside? && !d.doing.Carrying?
  }

  /** A worker that holds no fiber may go anywhere where it holds none. */
  lemma MoveOwned(w: World, i: nat, d: Worker, f: nat)
    requires Owned(w, f) && i < |w.workers| && EmptyHanded(w.workers[i]) && EmptyHanded(d)
             && d.spare == w.workers[i].spare
    ensures Owned(Set(w, i, d), f)
  {
    SetTotals(w, i, d, f);
  }

  // ---------- every step keeps the invariant ----------

  /** No assertion failed, and the invariant holds again. */
  ghost predicate Good(r: Result) {
    !r.Broken? && (r.Next? ==> Inv(r.world))
  }

  lemma ClaimGood(w: World, i: nat)
    requires Inv(w) && i < |w.workers|
    ensures Good(DoClaim(w, i))
  {
    var d := w.workers[i];
    if d.doing == Scan {
      SearchSpec(w.queue, i, Exec(w.fibers));
      match Search(w.queue, i, Exec(w.fibers))
      case Nothing(_) => MoveGood(w, i, GoIdle(d));
      case Take(k, _) => TakeGood(w, i, k);
    }
  }

  lemma TakeGood(w: World, i: nat, k: nat)
    requires Inv(w) && i < |w.workers| && w.workers[i].doing == Scan && k < |w.queue|
             && Eligible(w.queue[k], i, Exec(w.fibers))
    ensures Inv(Taken(w, i, k))
  {
    BusyUpdate(w.workers, i, Taken(w, i, k).workers[i]);
    forall f
      ensures Owned(Taken(w, i, k), f)
    {
      assert Owned(w, f);
      TakenOwned(w, i, k, f);
    }
  }

  lemma MoveGood(w: World, i: nat, d: Worker)
    requires Inv(w) && i < |w.workers| && EmptyHanded(w.workers[i]) && EmptyHanded(d) && d.spare == w.workers[i].spare
    ensures Inv(Set(w, i, d))
  {
    BusyUpdate(w.workers, i, d);
    forall f
      ensures Owned(Set(w, i, d), f)
    {
      MoveOwned(w, i, d, f);
    }
  }

  /** A step that only moves an idle worker. */
  lemma IdleGood(w: World, i: nat, r: Result)
    requires Inv(w) && i < |w.workers| && !r.Broken?
    requires r.Next? ==> var u := r.world;
             && i < |u.workers| && u == Set(w, i, u.workers[i]) && u.workers[i].spare == w.workers[i].spare
             && EmptyHanded(w.workers[i]) && EmptyHanded(u.workers[i])
    ensures Good(r)
  {
    if r.Next? {
      MoveGood(w, i, r.world.workers[i]);
    }
  }

  /** A claimed fiber is alive and not running, so neither assertion nor the branch for dead fibers is reached. */
  lemma ClaimedIsFree(w: World, i: nat)
    requires Inv(w) && i < |w.workers| && w.workers[i].doing.Claimed? && w.workers[i].doing.entry.fiber.Some?
    ensures var f := w.workers[i].doing.entry.fiber.value;
            && f in w.fibers && w.fibers[f] != EXEC && !Dead(w.fibers[f])
            && Total(w, f, ReadyRefs) == 1 && Total(w, f, ParkedRefs) == 0
            && OfQueue(w.queue, f, ReadyRefs) == 0 && OfQueue(w.queue, f, ParkedRefs) == 0
            && Waiters(w.table, f) == 0 && Sleepers(w.timers, f) == 0
  {
    var d := w.workers[i];
    var f := d.doing.entry.fiber.value;
    assert Owned(w, f);
    WorkersUpdate(w.workers, i, d.(doing := Scan), f, ReadyRefs);
    WorkersUpdate(w.workers, i, d.(doing := Scan), f, Claims);
  }

  lemma BeginGood(w: World, i: nat, id: nat)
    requires Inv(w) && i < |w.workers|
    ensures Good(DoBegin(w, i, id))
  {
    var d := w.workers[i];
    if d.doing.Claimed? && DoBegin(w, i, id) != Disabled {
      var e := d.doing.entry;
      assert WorkerOk(d);
      if e.fiber.Some? {
        ClaimedIsFree(w, i);
        var u := DoBegin(w, i, id).world;
        BusyUpdate(w.workers, i, u.workers[i]);
        forall f
          ensures Owned(u, f)
        {
          BeginFiberOwned(w, i, e.fiber.value, f);
        }
      } else if d.spare.Some? {
        BeginSpareGood(w, i, d.spare.value, id);
      } else {
        var u := DoBegin(w, i, id).world;
        BusyUpdate(w.workers, i, u.workers[i]);
        forall f
          ensures Owned(u, f)
        {
          BeginNewOwned(w, i, id, e, f);
        }
      }
    }
  }

  /** The kept fiber is known and INIT, so it can be reset. */
  lemma SpareIsFresh(w: World, i: nat)
    requires Inv(w) && i < |w.workers| && w.workers[i].spare.Some? && !w.workers[i].doing.Inside?
    ensures var g := w.workers[i].spare.value;
            g in w.fibers && w.fibers[g] == INIT && Total(w, g, ReadyRefs) == 0
  {
    var d := w.workers[i];
    assert Owned(w, d.spare.value);
    WorkersUpdate(w.workers, i, d.(spare := None), d.spare.value, Spares);
  }

  lemma BeginSpareGood(w: World, i: nat, g: nat, id: nat)
    requires Inv(w) && i < |w.workers| && w.workers[i].doing.Claimed? && w.workers[i].doing.entry.fiber.None?
             && w.workers[i].spare == Some(g)
    ensures Good(DoBegin(w, i, id))
  {
    var e := w.workers[i].doing.entry;
    assert WorkerOk(w.workers[i]);
    SpareIsFresh(w, i);
    var u := DoBegin(w, i, id).world;
    BusyUpdate(w.workers, i, u.workers[i]);
    forall f
      ensures Owned(u, f)
    {
      BeginSpareOwned(w, i, g, e, f);
    }
  }

  lemma WakeGood(w: World, i: nat)
    requires Inv(w) && i < |w.workers|
    ensures Good(DoWake(w, i))
  {
    if DoWake(w, i).Next? {
      var u := DoWake(w, i).world;
      assert WorkerOk(w.workers[i]);
      BusyUpdate(w.workers, i, u.workers[i]);
      forall f
        ensures Owned(u, f)
      {
        WakeOwned(w, i, w.workers[i].doing.job.value.fiber, f);
      }
    }
  }

  /** A table call by anybody that registers no fiber of this scheduler. */
  lemma TabledGood(w: World, o: R.Outcome)
    requires Inv(w) && (o.Done? ==> R.TableOk(o.table))
    requires o.Done? ==>
               forall f :: Waiters(w.table, f)
                 == Waiters(o.table, f) + R.Times(o.dropped, R.Task(SELF, R.FiberCont(f)))
                   + R.Times(o.sent, R.Task(SELF, R.FiberCont(f)))
    ensures Good(Tabled(w, o))
  {
    if o.Done? {
      var u := Moved(w, o.table, o.dropped, o.sent);
      forall f
        ensures Owned(u, f)
      {
        assert Owned(w, f) && Waiters(w.table, f) == R.Armed(w.table.ctxs, R.Task(SELF, R.FiberCont(f)));
        SentOwned(w, o.table, o.sent, o.dropped, f);
      }
      assert Sound(u);
    }
  }

  lemma TouchGood(w: World, call: R.Call)
    requires Inv(w) && !call.Add? && (call.Idle? ==> call.fd < |w.table.ctxs|)
    ensures Good(Tabled(w, R.Apply(w.table, call)))
  {
    var o := R.Apply(w.table, call);
    if o.Done? {
      R.ApplyConserves(w.table, call, R.TaskOf(None, 0, 0));
      forall f
        ensures Waiters(w.table, f)
                == Waiters(o.table, f) + R.Times(o.dropped, R.Task(SELF, R.FiberCont(f)))
                  + R.Times(o.sent, R.Task(SELF, R.FiberCont(f)))
      {
        R.ApplyConserves(w.table, call, R.Task(SELF, R.FiberCont(f)));
      }
    }
    TabledGood(w, o);
  }

  lemma ArmGood(w: World, fd: nat, e: R.Event, cb: nat, ctl: bool)
    requires Inv(w)
    ensures Good(Tabled(w, R.AddEvent(w.table, fd, e, Some(cb), 0, SELF, ctl)))
  {
    R.AddSpec(w.table, fd, e, Some(cb), 0, SELF, ctl);
    TabledGood(w, R.AddEvent(w.table, fd, e, Some(cb), 0, SELF, ctl));
  }

  lemma {:induction false} TimersGood(w: World, timers: seq<Timer>)
    requires Inv(w) && (forall k :: 0 <= k < |timers| ==> TimerOk(timers[k]))
    requires forall f :: Sleepers(timers, f) == Sleepers(w.timers, f)
    ensures Inv(w.(timers := timers))
  {
    forall f
      ensures Owned(w.(timers := timers), f)
    {
      assert Owned(w, f);
    }
  }

  lemma PerformGood(w: World, act: Act)
    requires Inv(w)
    ensures Good(Perform(w, act))
  {
    match act
    case Spawn(id, thread) =>
      if id !in w.fibers {
        var u := Perform(w, act).world;
        forall f
          ensures Owned(u, f)
        {
          assert Owned(w, f);
          ForeignOwned(w, u, Entry(Some(id), None, thread), f);
        }
      }
    case Post(cb, thread) =>
      var u := Perform(w, act).world;
      forall f
        ensures Owned(u, f)
      {
        assert Owned(w, f);
        ForeignOwned(w, u, Entry(None, Some(User(cb)), thread), f);
      }
    case ArmCallback(fd, e, cb, ctl) => ArmGood(w, fd, e, cb, ctl);
    case Touch(call) =>
      if !call.Add? && !call.Idle? {
        TouchGood(w, call);
      }
    case AddTimer(cb, recurring) =>
      forall f
        ensures Sleepers(w.timers + [Timer(User(cb), recurring)], f) == Sleepers(w.timers, f)
      {
        SleepersPush(w.timers, Timer(User(cb), recurring), f);
      }
      TimersGood(w, w.timers + [Timer(User(cb), recurring)]);
    case CancelTimer(at) =>
      if at < |w.timers| && w.timers[at].job.User? {
        forall f
          ensures Sleepers(Without(w.timers, at), f) == Sleepers(w.timers, f)
        {
          SleepersDrop(w.timers, at, f);
        }
        TimersGood(w, Without(w.timers, at));
      }
    case RequestStop =>
      forall f
        ensures Owned(w.(stop := true), f)
      {
        assert Owned(w, f);
      }
  }

  /** A table that holds the same fibers of this scheduler. */
  lemma SameWaitersGood(w: World, table: R.Table)
    requires Inv(w) && R.TableOk(table) && forall f :: Waiters(table, f) == Waiters(w.table, f)
    ensures Inv(w.(table := table))
  {
    forall f
      ensures Owned(w.(table := table), f)
    {
      assert Owned(w, f);
    }
  }

  lemma RegisterGood(w: World, i: nat, table: R.Table)
    requires Inv(w) && i < |w.workers| && w.workers[i].doing.Inside? && !w.workers[i].doing.registered
             && R.TableOk(table)
    requires forall f :: Waiters(table, f) == Waiters(w.table, f) + One(f == w.workers[i].doing.fiber)
    ensures Inv(Set(w, i, Registered(w.workers[i])).(table := table))
  {
    var d := w.workers[i];
    BusyUpdate(w.workers, i, Registered(d));
    assert WorkerOk(d);
    forall f
      ensures Owned(Set(w, i, Registered(d)).(table := table), f)
    {
      assert Owned(w, d.doing.fiber);
      WaitOwned(w, i, table, f);
    }
  }

  lemma WaitGood(w: World, i: nat, fd: nat, e: R.Event, ctl: bool)
    requires Inv(w) && i < |w.workers|
    ensures Good(DoWait(w, i, fd, e, ctl))
  {
    var d := w.workers[i];
    if DoWait(w, i, fd, e, ctl).Next? {
      R.AddSpec(w.table, fd, e, None, d.doing.fiber, SELF, ctl);
      var table := DoWait(w, i, fd, e, ctl).world.table;
      if ctl {
        RegisterGood(w, i, table);
      } else {
        SameWaitersGood(w, table);
      }
    }
  }

  lemma SleepGood(w: World, i: nat)
    requires Inv(w) && i < |w.workers|
    ensures Good(DoSleep(w, i))
  {
    if DoSleep(w, i).Next? {
      var u := DoSleep(w, i).world;
      assert WorkerOk(w.workers[i]);
      BusyUpdate(w.workers, i, u.workers[i]);
      forall f
        ensures Owned(u, f)
      {
        assert Owned(w, w.workers[i].doing.fiber);
        SleepOwned(w, i, f);
      }
    }
  }

  lemma RequeueGood(w: World, i: nat)
    requires Inv(w) && i < |w.workers|
    ensures Good(DoRequeue(w, i))
  {
    if DoRequeue(w, i).Next? {
      var u := DoRequeue(w, i).world;
      assert WorkerOk(w.workers[i]);
      BusyUpdate(w.workers, i, u.workers[i]);
      forall f
        ensures Owned(u, f)
      {
        assert Owned(w, w.workers[i].doing.fiber);
        RequeueOwned(w, i, f);
      }
    }
  }

  lemma EndGood(w: World, i: nat, how: Ending)
    requires Inv(w) && i < |w.workers|
    ensures Good(DoEnd(w, i, how))
  {
    if DoEnd(w, i, how).Next? {
      var u := DoEnd(w, i, how).world;
      assert WorkerOk(w.workers[i]);
      BusyUpdate(w.workers, i, u.workers[i]);
      forall f
        ensures Owned(u, f)
      {
        assert Owned(w, f);
        if f == w.workers[i].doing.fiber {
          EndOwnOwned(w, i, how);
        } else {
          EndOthersOwned(w, i, how, f);
        }
      }
    }
  }

  lemma ExpireGood(w: World, i: nat, k: nat)
    requires Inv(w) && i < |w.workers|
    ensures Good(DoExpire(w, i, k))
  {
    if DoExpire(w, i, k).Next? {
      BusyUpdate(w.workers, i, Collected(w, i, k).workers[i]);
      forall f
        ensures Owned(Collected(w, i, k), f)
      {
        assert Owned(w, f);
        ExpireOwned(w, i, k, f);
      }
    }
  }

  lemma DeliverGood(w: World, i: nat)
    requires Inv(w) && i < |w.workers|
    ensures Good(DoDeliver(w, i))
  {
    if DoDeliver(w, i).Next? {
      var u := DoDeliver(w, i).world;
      BusyUpdate(w.workers, i, u.workers[i]);
      forall f
        ensures Owned(u, f)
      {
        assert Owned(w, f);
        DeliverOwned(w, i, f);
      }
    }
  }

  lemma ReportGood(w: World, i: nat, fd: nat, ep: R.Epoll, ctl: bool)
    requires Inv(w) && i < |w.workers|
    ensures Good(DoReport(w, i, fd, ep, ctl))
  {
    if DoReport(w, i, fd, ep, ctl).Next? {
      TouchGood(w, R.Idle(fd, ep, ctl));
    }
  }

  /** Every step of every run keeps the invariant, and no assertion of reset, swapIn or the search fails. */
  lemma StepGood(w: World, s: Step)
    requires Inv(w)
    ensures Good(Go(w, s))
  {
    if s.Outside? {
      PerformGood(w, s.act);
    } else if s.i < |w.workers| {
      match s
      case Claim(i) => ClaimGood(w, i);
      case Begin(i, id) => BeginGood(w, i, id);
      case CallWake(i) => WakeGood(w, i);
      case Does(i, act) => PerformGood(w, act);
      case WaitEvent(i, fd, e, ctl) => WaitGood(w, i, fd, e, ctl);
      case Sleep(i) => SleepGood(w, i);
      case Requeue(i) => RequeueGood(w, i);
      case End(i, how) => EndGood(w, i, how);
      case ReadTimers(i) => IdleGood(w, i, DoReadTimers(w, i));
      case ReadEvents(i) => IdleGood(w, i, DoReadEvents(w, i));
      case ReadScheduler(i) => IdleGood(w, i, DoReadScheduler(w, i));
      case Expire(i, k) => ExpireGood(w, i, k);
      case Deliver(i) => DeliverGood(w, i);
      case Report(i, fd, ep, ctl) => ReportGood(w, i, fd, ep, ctl);
      case Leave(i) => IdleGood(w, i, DoLeave(w, i));
    }
  }
}
