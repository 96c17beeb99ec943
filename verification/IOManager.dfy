/** The descriptor contexts of myhttp/iomanager.cpp as objects, proved against the functions of Readiness.dfy. */
module IOManagers {
  import opened Bytes
  import opened Sequences
  import opened Readiness

  class Context {
    const fd: nat
    var events: Mask
    var read: EventContext
    var write: EventContext

    constructor (fd: nat)
      ensures Value() == Fresh(fd)
    {
      this.fd, events, read, write := fd, NONE, Empty, Empty;
    }

    function Value(): (c: FdContext)
      reads this
    {
      FdContext(fd, events, read, write)
    }

    method Put(e: Event, slot: EventContext)
      modifies `read, `write
      ensures Value() == old(Value()).Set(e, slot)
    {
      match e
      case READ => read := slot;
      case WRITE => write := slot;
    }

    /** `sent` is what the scheduler gets. */
    method TriggerEvent(e: Event) returns (ok: bool, sent: seq<Task>)
      modifies this
      ensures ok == Readiness.TriggerEvent(old(Value()), e).Some?
      ensures ok ==> Readiness.TriggerEvent(old(Value()), e) == Some((Value(), sent))
    {
      sent := [];
      if !events.Has(e) {
        return false, sent;
      }
      events := events.Minus(Only(e));
      var slot := Value().Get(e);
      if slot.scheduler.None? {
        return false, sent;
      }
      if slot.cb.Some? {
        sent := [Task(slot.scheduler.value, CbCont(slot.cb.value))];
        slot := slot.(cb := None);
      } else {
        sent := if slot.fiber.Some? then [Task(slot.scheduler.value, FiberCont(slot.fiber.value))] else [];
        slot := slot.(fiber := None);
      }
      Put(e, slot.(scheduler := None));
      ok := true;
    }

    /** READ and then WRITE; the bits are the caller's. */
    method TriggerBoth(which: Mask) returns (ok: bool, sent: seq<Task>)
      modifies this
      ensures ok == Readiness.TriggerBoth(old(Value()), which).Some?
      ensures ok ==> Readiness.TriggerBoth(old(Value()), which) == Some((Value(), sent))
    {
      ok, sent := true, [];
      if which.read {
        ok, sent := TriggerEvent(READ);
      }
      if ok && which.write {
        var more: seq<Task>;
        ok, more := TriggerEvent(WRITE);
        sent := sent + more;
      } else {
        assert sent + [] == sent;
      }
    }
  }

  function Values(cs: seq<Context>): seq<FdContext>
    reads cs
  {
    seq(|cs|, i requires 0 <= i < |cs| reads cs => cs[i].Value())
  }

  /** `scheduled` is everything ever handed to a scheduler; the methods answer ok == false where the program ends. */
  class IOManager {
    var fdContexts: seq<Context>
    var kernel: Kernel
    var pending: int
    var scheduled: seq<Task>

    ghost predicate Valid()
      reads this
    {
      |fdContexts| >= INITIAL && forall i, j :: 0 <= i < j < |fdContexts| ==> fdContexts[i] != fdContexts[j]
    }

    ghost function State(): (t: Table)
      reads this, fdContexts
      ensures |t.ctxs| == |fdContexts|
    {
      Table(Values(fdContexts), kernel, pending)
    }

    constructor ()
      ensures Valid() && State() == Init() && scheduled == []
    {
      fdContexts, kernel, pending, scheduled := [], map[], 0, [];
      new;
      ContextResize(INITIAL);
    }

    method ContextResize(size: nat)
      requires forall i, j :: 0 <= i < j < |fdContexts| ==> fdContexts[i] != fdContexts[j]
      modifies `fdContexts
      ensures forall i, j :: 0 <= i < j < |fdContexts| ==> fdContexts[i] != fdContexts[j]
      ensures |fdContexts| == size && forall i :: 0 <= i < size ==>
                if i < |old(fdContexts)| then fdContexts[i] == old(fdContexts)[i] else fresh(fdContexts[i])
      ensures Values(fdContexts) == Resize(old(Values(fdContexts)), size)
    {
      ghost var was := fdContexts;
      if size <= |fdContexts| {
        fdContexts := fdContexts[..size];
      }
      while |fdContexts| < size
        invariant |was| <= |fdContexts| <= size || |fdContexts| == size
        invariant forall i :: 0 <= i < |fdContexts| ==>
                    if i < |was| then fdContexts[i] == was[i] else fresh(fdContexts[i])
        invariant forall i :: 0 <= i < |fdContexts| ==>
                    fdContexts[i].Value() == if i < |was| then old(was[i].Value()) else Fresh(i)
        invariant forall i, j :: 0 <= i < j < |fdContexts| ==> fdContexts[i] != fdContexts[j]
      {
        var c := new Context(|fdContexts|);
        fdContexts := fdContexts + [c];
      }
    }

    twostate lemma OneChanged(fd: nat)
      requires old(Valid()) && fdContexts == old(fdContexts) && fd < |fdContexts|
      requires forall i :: 0 <= i < |fdContexts| && i != fd ==> unchanged(fdContexts[i])
      ensures Values(fdContexts) == old(Values(fdContexts))[fd := fdContexts[fd].Value()]
    {
      forall i | 0 <= i < |fdContexts|
        ensures Values(fdContexts)[i] == old(Values(fdContexts))[fd := fdContexts[fd].Value()][i]
      {
        assert i != fd ==> fdContexts[i].Value() == old(fdContexts[i].Value());
      }
    }

    method EpollCtl(op: CtlOp, fd: nat, mask: Mask, ctl: bool) returns (ok: bool)
      modifies `kernel
      ensures var r := Readiness.EpollCtl(old(kernel), op, fd, mask, ctl);
              ok == r.Some? && kernel == if ok then r.value else old(kernel)
    {
      ok := ctl && (op.ADD? <==> fd !in kernel);
      if ok {
        kernel := if op.DEL? then kernel - {fd} else kernel[fd := mask];
      }
    }

    method AddEvent(fd: nat, e: Event, cb: Option<nat>, fiber: nat, scheduler: nat, ctl: bool)
      returns (ok: bool, yes: bool)
      requires Valid()
      modifies this, fdContexts
      ensures ok <==> Readiness.AddEvent(old(State()), fd, e, cb, fiber, scheduler, ctl).Done?
      ensures ok ==>
                Valid() && Readiness.AddEvent(old(State()), fd, e, cb, fiber, scheduler, ctl)
                  == Done(State(), yes, [], [])
      ensures scheduled == old(scheduled)
    {
      if |fdContexts| <= fd {
        ContextResize(fd * 3 / 2);
      }
      ok, yes := Register(fd, e, cb, fiber, scheduler, ctl);
    }

    method Register(fd: nat, e: Event, cb: Option<nat>, fiber: nat, scheduler: nat, ctl: bool)
      returns (ok: bool, yes: bool)
      requires Valid() && fd < |fdContexts|
      modifies `kernel, `pending, fdContexts[fd]
      ensures ok <==> Readiness.AddEvent(old(State()), fd, e, cb, fiber, scheduler, ctl).Done?
      ensures ok ==> Readiness.AddEvent(old(State()), fd, e, cb, fiber, scheduler, ctl) == Done(State(), yes, [], [])
    {
      var c := fdContexts[fd];
      if c.events.Has(e) {
        return false, false;
      }
      var rt := EpollCtl(if c.events != NONE then MOD else ADD, fd, c.events.With(e), ctl);
      if !rt {
        return true, false;
      }
      pending := pending + 1;
      c.events := c.events.With(e);
      if c.Value().Get(e) != Empty {
        return false, false;
      }
      c.Put(e, EventContext(Some(scheduler), if cb.Some? then None else Some(fiber), cb));
      OneChanged(fd);
      return true, true;
    }

    method DelEvent(fd: nat, e: Event, ctl: bool) returns (yes: bool)
      requires Valid()
      modifies `kernel, `pending, fdContexts
      ensures Valid() && var o := Readiness.DelEvent(old(State()), fd, e, ctl);
              o.Done? && o.table == State() && o.yes == yes
    {
      if |fdContexts| <= fd {
        return false;
      }
      var c := fdContexts[fd];
      if !c.events.Has(e) {
        return false;
      }
      var left := c.events.Minus(Only(e));
      var rt := EpollCtl(if left != NONE then MOD else DEL, fd, left, ctl);
      if !rt {
        return false;
      }
      pending := pending - 1;
      c.events := left;
      c.Put(e, Empty);
      OneChanged(fd);
      return true;
    }

    method CancelEvent(fd: nat, e: Event, ctl: bool) returns (ok: bool, yes: bool)
      requires Valid()
      modifies `kernel, `pending, `scheduled, fdContexts
      ensures ok <==> Readiness.CancelEvent(old(State()), fd, e, ctl).Done?
      ensures ok ==> Valid() && var o := Readiness.CancelEvent(old(State()), fd, e, ctl);
                     o.table == State() && o.yes == yes && scheduled == old(scheduled) + o.sent
    {
      if |fdContexts| <= fd {
        return true, false;
      }
      var c := fdContexts[fd];
      if !c.events.Has(e) {
        return true, false;
      }
      var left := c.events.Minus(Only(e));
      var rt := EpollCtl(if left != NONE then MOD else DEL, fd, left, ctl);
      if !rt {
        return true, false;
      }
      var sent;
      ok, sent := c.TriggerEvent(e);
      scheduled := scheduled + sent;
      pending := pending - 1;
      yes := true;
      OneChanged(fd);
    }

    method CancelAll(fd: nat, ctl: bool) returns (ok: bool, yes: bool)
      requires Valid()
      modifies `kernel, `pending, `scheduled, fdContexts
      ensures ok <==> Readiness.CancelAll(old(State()), fd, ctl).Done?
      ensures ok ==> Valid() && var o := Readiness.CancelAll(old(State()), fd, ctl);
                     o.table == State() && o.yes == yes && scheduled == old(scheduled) + o.sent
    {
      if |fdContexts| <= fd {
        return true, false;
      }
      var c := fdContexts[fd];
      if c.events == NONE {
        return true, false;
      }
      var rt := EpollCtl(DEL, fd, NONE, ctl);
      if !rt {
        return true, false;
      }
      var which := c.events;
      var sent;
      ok, sent := c.TriggerBoth(which);
      scheduled := scheduled + sent;
      pending := pending - which.Count();
      ok := ok && c.events == NONE;
      yes := true;
      OneChanged(fd);
    }

    method Dispatch(fd: nat, ep: Epoll, ctl: bool) returns (ok: bool, ghost sent: seq<Task>)
      requires Valid() && fd < |fdContexts|
      modifies `kernel, `pending, `scheduled, fdContexts[fd]
      ensures ok <==> Readiness.Dispatch(old(State()), fd, ep, ctl).Done?
      ensures ok ==> var o := Readiness.Dispatch(old(State()), fd, ep, ctl);
                     o.table == State() && o.sent == sent && scheduled == old(scheduled) + sent
    {
      var c := fdContexts[fd];
      var which := RealEvents(ep);
      if !c.events.Meets(which) {
        return true, [];
      }
      var left := c.events.Minus(which);
      var rt := EpollCtl(if left != NONE then MOD else DEL, fd, left, ctl);
      if !rt {
        return true, [];
      }
      var out;
      ok, out := c.TriggerBoth(which);
      sent := out;
      scheduled := scheduled + out;
      pending := pending - which.Count();
      OneChanged(fd);
    }

    method DispatchOne(r: Ready) returns (ok: bool, ghost sent: seq<Task>)
      requires Valid() && (r.Ready? ==> r.fd < |fdContexts|)
      modifies `kernel, `pending, `scheduled, fdContexts
      ensures ok == Readiness.DispatchOne(old(State()), r).1
      ensures ok ==>
                Readiness.DispatchOne(old(State()), r) == (State(), true, sent) && scheduled == old(scheduled) + sent
    {
      if r.Pipe? {
        return true, [];
      }
      ok, sent := Dispatch(r.fd, r.ep, r.ctl);
    }

    /** What the dispatch loop still owes: `all` is its whole effect, and it scheduled `sent` after `before` so far. */
    ghost predicate Owes(before: seq<Task>, sent: seq<Task>, rest: seq<Ready>, all: (Table, bool, seq<Task>))
      reads this, fdContexts
    {
      && Valid() && (forall r :: r in rest && r.Ready? ==> r.fd < |fdContexts|)
      && scheduled == before + sent && all == Prepend(sent, DispatchAll(State(), rest))
    }

    lemma OwesAll(answer: seq<Ready>)
      requires Valid() && forall r :: r in answer && r.Ready? ==> r.fd < |fdContexts|
      ensures Owes(scheduled, [], answer, DispatchAll(State(), answer))
    {
      PrependNone(DispatchAll(State(), answer));
      assert scheduled + [] == scheduled;
    }

    lemma OwesNothing(before: seq<Task>, sent: seq<Task>, rest: seq<Ready>, all: (Table, bool, seq<Task>))
      requires Owes(before, sent, rest, all) && rest == []
      ensures Valid() && all == (State(), true, sent) && scheduled == before + sent
    {
      assert sent + [] == sent;
    }

    method Turn(r: Ready, ghost before: seq<Task>, ghost sent: seq<Task>, ghost rest: seq<Ready>,
                ghost all: (Table, bool, seq<Task>))
      returns (ok: bool, ghost sent': seq<Task>)
      requires rest != [] && rest[0] == r && Owes(before, sent, rest, all)
      modifies `kernel, `pending, `scheduled, fdContexts
      ensures if ok then Owes(before, sent', rest[1..], all) else !all.1
    {
      DispatchTurn(sent, State(), rest);
      assert r in rest;
      ghost var out;
      ok, out := DispatchOne(r);
      sent' := sent + out;
      assert before + sent + out == before + sent';
    }

    /** The dispatch loop of idle. */
    method DispatchLoop(answer: seq<Ready>) returns (ok: bool)
      requires Valid() && forall r :: r in answer && r.Ready? ==> r.fd < |fdContexts|
      modifies `kernel, `pending, `scheduled, fdContexts
      ensures ok == DispatchAll(old(State()), answer).1
      ensures ok ==> Valid() && State() == DispatchAll(old(State()), answer).0
      ensures ok ==> scheduled == old(scheduled) + DispatchAll(old(State()), answer).2
    {
      ghost var before, all := scheduled, DispatchAll(State(), answer);
      OwesAll(answer);
      ghost var sent, rest;
      ok, sent, rest := Turns(answer, before, all);
      if ok {
        OwesNothing(before, sent, rest, all);
      }
    }

    method Turns(answer: seq<Ready>, ghost before: seq<Task>, ghost all: (Table, bool, seq<Task>))
      returns (ok: bool, ghost sent: seq<Task>, ghost rest: seq<Ready>)
      requires Owes(before, [], answer, all)
      modifies `kernel, `pending, `scheduled, fdContexts
      ensures if ok then rest == [] && Owes(before, sent, rest, all) else !all.1
    {
      ok, sent, rest := true, [], answer;
      var i := 0;
      while ok && i < |answer|
        invariant i <= |answer| && rest == answer[i..]
        invariant if ok then Owes(before, sent, rest, all) else !all.1
      {
        ok, sent := Turn(answer[i], before, sent, rest, all);
        rest := rest[1..];
        i := i + 1;
      }
    }
  }

  /** One turn of the loop. */
  lemma {:induction false} DispatchTurn(sent: seq<Task>, t: Table, answer: seq<Ready>)
    requires (forall r :: r in answer && r.Ready? ==> r.fd < |t.ctxs|) && answer != []
    ensures var all, one := Prepend(sent, DispatchAll(t, answer)), Readiness.DispatchOne(t, answer[0]);
            if one.1 then all == Prepend(sent + one.2, DispatchAll(one.0, answer[1..])) else !all.1
  {
    var one := Readiness.DispatchOne(t, answer[0]);
    if one.1 {
      var rest := DispatchAll(one.0, answer[1..]);
      assert sent + one.2 + rest.2 == sent + (one.2 + rest.2);
    }
  }
}
