/** Fibers, the scheduler and one turn of a worker as objects, proved against the functions of Scheduling.dfy. */
module Schedulers {
  import opened Bytes
  import opened Sequences
  import opened Scheduling

  /** The methods answer ok == false where an assertion of the source fails. */
  class Fiber {
    const id: nat
    var state: FiberState
    var cb: Option<Job>

    constructor (id: nat, cb: Option<Job>)
      ensures this.id == id && state == INIT && this.cb == cb
    {
      this.id, state, this.cb := id, INIT, cb;
    }

    method Reset(cb: Option<Job>) returns (ok: bool)
      modifies this
      ensures ok <==> Resettable(old(state))
      ensures ok ==> state == INIT && this.cb == cb
    {
      ok := state == TERM || state == EXCEPT || state == INIT;
      if ok {
        this.cb := cb;
        state := INIT;
      }
    }

    method SwapIn() returns (ok: bool)
      modifies `state
      ensures ok <==> old(state) != EXEC
      ensures state == EXEC
    {
      ok := state != EXEC;
      state := EXEC;
    }

    method YieldToReady()
      modifies `state
      ensures state == READY
    {
      state := READY;
    }

    method YieldToHold()
      modifies `state
      ensures state == HOLD
    {
      state := HOLD;
    }

    /** The end of MainFunc; an exception leaves the function where it is. */
    method Finish(threw: bool)
      modifies this
      ensures state == (if threw then EXCEPT else TERM) && cb == if threw then old(cb) else None
    {
      if threw {
        state := EXCEPT;
      } else {
        cb := None;
        state := TERM;
      }
    }

    /** From the switch to the fiber until the worker has control again. */
    method Run(how: Ending) returns (ok: bool)
      modifies this
      ensures ok <==> old(state) != EXEC
      ensures ok ==> state == Left(how) && cb == if how.Returns? then None else old(cb)
    {
      ok := SwapIn();
      if ok {
        match how
        case ToReady => YieldToReady();
        case ToHold => YieldToHold();
        case Returns => Finish(false);
        case Throws => Finish(true);
      }
    }
  }

  /** FiberAndThread with the fiber itself. */
  datatype Task = Task(fiber: Fiber?, cb: Option<Job>, thread: Option<nat>)
  {
    function Value(): Entry {
      Entry(if fiber == null then None else Some(fiber.id), cb, thread)
    }
  }

  const NoTask: Task := Task(null, None, None)

  function Values(ts: seq<Task>): (r: seq<Entry>)
    ensures |r| == |ts|
  {
    seq(|ts|, i requires 0 <= i < |ts| => ts[i].Value())
  }

  class Scheduler {
    var fibers: seq<Task>
    var active: int
    var autoStop: bool
    var stopping: bool
    ghost var known: map<nat, Fiber>  // ids are handed out once

    /** No constructor of FiberAndThread sets both a fiber and a function. */
    ghost predicate Knows(t: Task)
      reads this
    {
      t.fiber != null ==> t.cb.None? && t.fiber.id in known && known[t.fiber.id] == t.fiber
    }

    ghost predicate Valid()
      reads this
    {
      && (forall id :: id in known ==> known[id].id == id)
      && (forall i :: 0 <= i < |fibers| ==> Knows(fibers[i]) && fibers[i].Value().Holds())
    }

    ghost function Queue(): seq<Entry>
      reads this
    {
      Values(fibers)
    }

    ghost function Exec(): set<nat>
      reads this, known.Values
    {
      set id | id in known && known[id].state == EXEC
    }

    constructor ()
      ensures Valid() && Queue() == [] && active == 0 && !autoStop && stopping
    {
      fibers, active, autoStop, stopping, known := [], 0, false, true, map[];
    }

    /** scheduleNoLock; an emptied fiber or function is not queued. */
    method ScheduleNoLock(t: Task) returns (needTickle: bool)
      requires Valid() && Knows(t)
      modifies `fibers
      ensures Valid() && (Queue(), needTickle) == Schedule(old(Queue()), t.Value())
    {
      needTickle := fibers == [];
      if t.fiber != null || t.cb.Some? {
        ghost var q := Queue();
        fibers := fibers + [t];
        assert Queue() == q + [t.Value()];
      }
    }

    method ScheduleBatch(ts: seq<Task>) returns (needTickle: bool)
      requires Valid() && forall i :: 0 <= i < |ts| ==> Knows(ts[i])
      modifies `fibers
      ensures Valid() && Queue() == old(Queue()) + Kept(Values(ts))
      ensures needTickle <==> old(Queue()) == [] && ts != []
    {
      ghost var all := Values(ts);
      ghost var want := ScheduleAll(Queue(), all);
      ScheduleAllSpec(Queue(), all);
      needTickle := false;
      var i := 0;
      assert all[0..] == all;
      while i < |ts|
        invariant i <= |ts| && Valid()
        invariant want.0 == ScheduleAll(Queue(), all[i..]).0
        invariant want.1 <==> needTickle || ScheduleAll(Queue(), all[i..]).1
      {
        assert all[i..][0] == ts[i].Value() && all[i..][1..] == all[i + 1..];
        var more := ScheduleNoLock(ts[i]);
        needTickle := more || needTickle;
        i := i + 1;
      }
    }

    /** The search of run under the lock; `ft` is NoTask when there is nothing for this thread. */
    method Claim(me: nat) returns (ok: bool, ft: Task, tickleMe: bool)
      requires Valid()
      modifies `fibers, `active
      ensures Valid() && ok && (ft == NoTask || (Knows(ft) && ft.Value().Holds()))
      ensures ft.fiber != null ==> ft.fiber.state != EXEC
      ensures var s := Search(old(Queue()), me, old(Exec()));
              && !s.Asserted? && tickleMe == s.tickle
              && (s.Take? <==> ft != NoTask)
              && (s.Take? ==>
                    s.k < |old(Queue())| && ft.Value() == old(Queue())[s.k] && Queue() == Without(old(Queue()), s.k)
                      && active == old(active) + 1)
              && (s.Nothing? ==> Queue() == old(Queue()) && active == old(active))
    {
      ok, ft, tickleMe := true, NoTask, false;
      var it := 0;
      ghost var q, exec := Queue(), Exec();
      SearchSpec(q, me, exec);
      assert q[0..] == q;
      while it < |fibers|
        invariant it <= |fibers| && fibers == old(fibers) && active == old(active)
        invariant Search(q, me, exec) == Moved(Search(q[it..], me, exec), it, tickleMe)
      {
        assert q[it] == fibers[it].Value() && Knows(fibers[it]);
        SearchTurn(q, it, me, exec, tickleMe);
        if fibers[it].thread.Some? && fibers[it].thread.value != me {
          it := it + 1;
          tickleMe := true;
          continue;
        }
        if fibers[it].fiber == null && fibers[it].cb.None? {
          return false, NoTask, tickleMe;
        }
        if fibers[it].fiber != null && fibers[it].fiber.state == EXEC {
          it := it + 1;
          continue;
        }
        ft := TakeAt(it);
        break;
      }
    }

    method TakeAt(it: nat) returns (ft: Task)
      requires Valid() && it < |fibers|
      modifies `fibers, `active
      ensures Valid() && ft == old(fibers)[it] && Queue() == Without(old(Queue()), it) && active == old(active) + 1
    {
      ft := fibers[it];
      active := active + 1;
      fibers := Without(fibers, it);
    }

    method Stop()
      modifies `autoStop, `stopping
      ensures autoStop && stopping
    {
      autoStop := true;
      stopping := true;
    }

    method Stopping() returns (yes: bool)
      ensures yes <==> autoStop && stopping && Queue() == [] && active == 0
    {
      yes := autoStop && stopping && fibers == [] && active == 0;
    }
  }

  /** A search resumed after `n` entries. */
  function Moved(s: Found, n: nat, tickle: bool): Found {
    match s
    case Take(k, t) => Take(k + n, t || tickle)
    case Nothing(t) => Nothing(t || tickle)
    case Asserted => Asserted
  }

  lemma SearchTurn(q: seq<Entry>, n: nat, me: nat, exec: set<nat>, tickle: bool)
    requires n < |q|
    ensures Moved(Search(q[n..], me, exec), n, tickle)
         == if Elsewhere(q[n], me) then Moved(Search(q[n + 1..], me, exec), n + 1, true)
            else if !q[n].Holds() then Asserted
            else if Running(q[n], exec) then Moved(Search(q[n + 1..], me, exec), n + 1, tickle)
            else Take(n, tickle)
  {
    assert q[n..][0] == q[n] && q[n..][1..] == q[n + 1..];
  }

  class Worker {
    const thread: nat
    const idleFiber: Fiber
    var cbFiber: Fiber?

    constructor (thread: nat, idleFiber: Fiber)
      ensures this.thread == thread && this.idleFiber == idleFiber && cbFiber == null
    {
      this.thread, this.idleFiber, cbFiber := thread, idleFiber, null;
    }

    /** What makes the assertion of reset hold: a fiber kept for callbacks is always a fresh one. */
    ghost predicate SpareOk(s: Scheduler)
      reads this, s, cbFiber
    {
      cbFiber != null ==> cbFiber.state == INIT && s.Knows(Task(cbFiber, None, None))
    }

    method RunFiber(s: Scheduler, f: Fiber, how: Ending) returns (ok: bool)
      requires s.Valid() && s.Knows(Task(f, None, None))
      modifies s`fibers, s`active, f
      ensures s.Valid() && (ok <==> old(f.state) != EXEC)
      ensures ok ==> f.state == Left(how) && s.active == old(s.active) - 1
      ensures ok ==> s.Queue() == old(s.Queue()) + if how.ToReady? then [Entry(Some(f.id), None, None)] else []
    {
      ok := f.Run(how);
      if !ok {
        return;
      }
      s.active := s.active - 1;
      if f.state == READY {
        var _ := s.ScheduleNoLock(Task(f, None, None));
      } else if f.state != TERM && f.state != EXCEPT {
        f.state := HOLD;
      }
    }

    /** A callback runs on the kept fiber, or on a new one with the unused id `id`. */
    method RunCallback(s: Scheduler, job: Job, id: nat, how: Ending) returns (ok: bool, used: Fiber)
      requires s.Valid() && SpareOk(s) && id !in s.known
      modifies this`cbFiber, s`fibers, s`active, s`known, cbFiber
      ensures s.Valid() && SpareOk(s) && ok
      ensures if old(cbFiber) != null then used == old(cbFiber) else fresh(used) && used.id == id
      ensures s.active == old(s.active) - 1
      ensures s.Queue() == old(s.Queue()) + if how.ToReady? then [Entry(Some(used.id), None, None)] else []
      ensures if how.ToReady? || how.ToHold? then cbFiber == null && used.state == Left(how) else cbFiber == used
    {
      if cbFiber != null {
        used := cbFiber;
        ok := used.Reset(Some(job));
      } else {
        used := new Fiber(id, Some(job));
        cbFiber := used;
        s.known := s.known[id := used];
      }
      ok := used.Run(how);
      s.active := s.active - 1;
      if used.state == READY {
        var _ := s.ScheduleNoLock(Task(used, None, None));
        cbFiber := null;
      } else if used.state == EXCEPT || used.state == TERM {
        ok := used.Reset(None);
      } else {
        used.state := HOLD;
        cbFiber := null;
      }
    }

    /** `done` says that the idle function returned instead of switching out. */
    method RunIdle(done: bool) returns (ok: bool, leave: bool)
      requires idleFiber != cbFiber
      modifies idleFiber
      ensures leave <==> old(idleFiber.state) == TERM
      ensures leave ==> ok && idleFiber.state == TERM
      ensures !leave ==>
                (ok <==> old(idleFiber.state) != EXEC) && (ok ==> idleFiber.state == if done then TERM else HOLD)
    {
      if idleFiber.state == TERM {
        return true, true;
      }
      ok := idleFiber.SwapIn();
      leave := false;
      if !ok {
        return;
      }
      if done {
        idleFiber.Finish(false);
      }
      if idleFiber.state != TERM && idleFiber.state != EXCEPT {
        idleFiber.state := HOLD;
      }
    }

    /**
     * One turn of run. The count of active workers is as before, except after a dead fiber was taken from the queue,
     * and no assertion fails.
     */
    method Turn(s: Scheduler, id: nat, how: Ending, done: bool) returns (ok: bool, leave: bool, ft: Task, dead: bool)
      requires s.Valid() && SpareOk(s) && id !in s.known
      requires idleFiber != cbFiber && idleFiber !in s.known.Values && idleFiber.state != EXEC
      modifies this`cbFiber, s`fibers, s`active, s`known, s.known.Values, idleFiber
      ensures ok && s.Valid()
      ensures s.active == old(s.active) + if dead then 1 else 0
      ensures dead ==> exists i :: i in old(s.known) && Dead(old(s.known[i].state))
      ensures leave ==> (ft == NoTask || dead) && old(idleFiber.state) == TERM
      ensures var r := Search(old(s.Queue()), thread, old(s.Exec()));
              if r.Take? then r.k < |old(s.Queue())| && ft.Value() == old(s.Queue())[r.k] else ft == NoTask
    {
      var tickleMe;
      leave := false;
      ok, ft, tickleMe := s.Claim(thread);
      dead := ft.fiber != null && (ft.fiber.state == TERM || ft.fiber.state == EXCEPT);
      if ft.fiber != null && !dead {
        ok := RunFiber(s, ft.fiber, how);
      } else if ft.cb.Some? {
        var used;
        ok, used := RunCallback(s, ft.cb.value, id, how);
      } else {
        ok, leave := RunIdle(done);
      }
    }
  }
}
