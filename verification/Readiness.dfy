/**
 * The readiness table of myhttp/iomanager.cpp on values: who waits for which descriptor to become readable or writable,
 * and the epoll interest list that must agree with it. Every function is one call, or one event handled by idle, under
 * the lock of its FdContext; `ctl` says whether the kernel accepts a legal epoll_ctl.
 */
module Readiness {
  import opened Bytes
  import opened Sequences

  /** IOManager::Event and a mask of events. */
  datatype Event = READ | WRITE

  datatype Mask = Mask(read: bool, write: bool)
  {
    predicate Has(e: Event) {
      match e
      case READ => read
      case WRITE => write
    }

    function With(e: Event): Mask {
      match e
      case READ => Mask(true, write)
      case WRITE => Mask(read, true)
    }

    function Minus(m: Mask): Mask {
      Mask(read && !m.read, write && !m.write)
    }

    predicate Meets(m: Mask) {
      (read && m.read) || (write && m.write)
    }

    predicate Within(m: Mask) {
      (read ==> m.read) && (write ==> m.write)
    }

    function Count(): nat {
      (if read then 1 else 0) + (if write then 1 else 0)
    }
  }

  const NONE: Mask := Mask(false, false)
  const BOTH: Mask := Mask(true, true)

  function Only(e: Event): Mask {
    NONE.With(e)
  }

  /** What waits: a suspended fiber or a callback. A task is one of them and the scheduler it goes back to. */
  datatype Cont = FiberCont(id: nat) | CbCont(id: nat)
  datatype Task = Task(scheduler: nat, cont: Cont)

  datatype EventContext = EventContext(scheduler: Option<nat>, fiber: Option<nat>, cb: Option<nat>)
  const Empty: EventContext := EventContext(None, None, None)

  datatype FdContext = FdContext(fd: nat, events: Mask, read: EventContext, write: EventContext)
  {
    function Get(e: Event): EventContext {
      match e
      case READ => read
      case WRITE => write
    }

    function Set(e: Event, slot: EventContext): FdContext {
      match e
      case READ => this.(read := slot)
      case WRITE => this.(write := slot)
    }
  }

  type Kernel = map<nat, Mask>
  datatype Table = Table(ctxs: seq<FdContext>, kernel: Kernel, pending: int)

  /** What a call did: `dropped` was forgotten, `sent` went to schedulers in this order. Asserted ends the program. */
  datatype Outcome = Done(table: Table, yes: bool, dropped: seq<Task>, sent: seq<Task>) | Asserted

  datatype CtlOp = ADD | MOD | DEL

  /** The kernel refuses to add a descriptor twice and to modify or delete one it does not have. */
  predicate Legal(kernel: Kernel, op: CtlOp, fd: nat) {
    op.ADD? <==> fd !in kernel
  }

  function EpollCtl(kernel: Kernel, op: CtlOp, fd: nat, mask: Mask, ctl: bool): Option<Kernel> {
    if !ctl || !Legal(kernel, op, fd) then None
    else if op.DEL? then Some(kernel - {fd})
    else Some(kernel[fd := mask])
  }

  function Fresh(fd: nat): FdContext {
    FdContext(fd, NONE, Empty, Empty)
  }

  /** contextResize: it also cuts. */
  function Resize(ctxs: seq<FdContext>, size: nat): (r: seq<FdContext>)
    ensures |r| == size
    ensures forall i :: 0 <= i < size ==> r[i] == if i < |ctxs| then ctxs[i] else Fresh(i)
  {
    seq(size, i requires 0 <= i < size => if i < |ctxs| then ctxs[i] else Fresh(i))
  }

  const INITIAL: nat := 32

  function Init(): Table {
    Table(Resize([], INITIAL), map[], 0)
  }

  function Grown(t: Table, fd: nat): (u: Table)
    requires |t.ctxs| >= INITIAL
    ensures fd < |u.ctxs| && |u.ctxs| >= INITIAL
  {
    if fd < |t.ctxs| then t else t.(ctxs := Resize(t.ctxs, fd * 3 / 2))
  }

  /** addEvent by fiber `fiber` of scheduler `scheduler`. */
  function AddEvent(t: Table, fd: nat, e: Event, cb: Option<nat>, fiber: nat, scheduler: nat, ctl: bool): Outcome
    requires |t.ctxs| >= INITIAL
  {
    var u := Grown(t, fd);
    var c := u.ctxs[fd];
    if c.events.Has(e) then
      Asserted
    else
      match EpollCtl(u.kernel, if c.events != NONE then MOD else ADD, fd, c.events.With(e), ctl)
      case None => Done(u, false, [], [])
      case Some(kernel) =>
        if c.Get(e) != Empty then
          Asserted
        else
          var slot := EventContext(Some(scheduler), if cb.Some? then None else Some(fiber), cb);
          Done(Table(u.ctxs[fd := c.(events := c.events.With(e)).Set(e, slot)], kernel, u.pending + 1), true, [], [])
  }

  function Held(slot: EventContext): seq<Task> {
    if slot.scheduler.None? then []
    else if slot.cb.Some? then [Task(slot.scheduler.value, CbCont(slot.cb.value))]
    else if slot.fiber.Some? then [Task(slot.scheduler.value, FiberCont(slot.fiber.value))]
    else []
  }

  /** What triggerEvent leaves and what it hands to the scheduler; None is its assertion, or no scheduler to call. */
  function TriggerEvent(c: FdContext, e: Event): Option<(FdContext, seq<Task>)> {
    var slot := c.Get(e);
    if !c.events.Has(e) || slot.scheduler.None? then
      None
    else
      var left := if slot.cb.Some? then slot.(scheduler := None, cb := None)
        else slot.(scheduler := None, fiber := None);
      Some((c.(events := c.events.Minus(Only(e))).Set(e, left), Held(slot)))
  }

  function DelEvent(t: Table, fd: nat, e: Event, ctl: bool): Outcome {
    if |t.ctxs| <= fd || !t.ctxs[fd].events.Has(e) then
      Done(t, false, [], [])
    else
      var c := t.ctxs[fd];
      var left := c.events.Minus(Only(e));
      match EpollCtl(t.kernel, if left != NONE then MOD else DEL, fd, left, ctl)
      case None => Done(t, false, [], [])
      case Some(kernel) =>
        Done(Table(t.ctxs[fd := c.(events := left).Set(e, Empty)], kernel, t.pending - 1), true, Held(c.Get(e)), [])
  }

  function CancelEvent(t: Table, fd: nat, e: Event, ctl: bool): Outcome {
    if |t.ctxs| <= fd || !t.ctxs[fd].events.Has(e) then
      Done(t, false, [], [])
    else
      var c := t.ctxs[fd];
      var left := c.events.Minus(Only(e));
      match EpollCtl(t.kernel, if left != NONE then MOD else DEL, fd, left, ctl)
      case None => Done(t, false, [], [])
      case Some(kernel) =>
        match TriggerEvent(c, e)
        case None => Asserted
        case Some(r) => Done(Table(t.ctxs[fd := r.0], kernel, t.pending - 1), true, [], r.1)
  }

  /** Triggers READ and then WRITE where `which` says so. */
  function TriggerBoth(c: FdContext, which: Mask): Option<(FdContext, seq<Task>)> {
    match if which.read then TriggerEvent(c, READ) else Some((c, []))
    case None => None
    case Some(r) =>
      match if which.write then TriggerEvent(r.0, WRITE) else Some((r.0, []))
      case None => None
      case Some(w) => Some((w.0, r.1 + w.1))
  }

  function CancelAll(t: Table, fd: nat, ctl: bool): Outcome {
    if |t.ctxs| <= fd || t.ctxs[fd].events == NONE then
      Done(t, false, [], [])
    else
      match EpollCtl(t.kernel, DEL, fd, NONE, ctl)
      case None => Done(t, false, [], [])
      case Some(kernel) =>
        var which := t.ctxs[fd].events;
        match TriggerBoth(t.ctxs[fd], which)
        case None => Asserted
        case Some(r) =>
          if r.0.events != NONE then Asserted
            else Done(Table(t.ctxs[fd := r.0], kernel, t.pending - which.Count()), true, [], r.1)
  }

  /** The bits of one epoll_event. */
  datatype Epoll = Epoll(readable: bool, writable: bool, err: bool, hup: bool)

  /** An error or a hang-up counts as both. */
  function RealEvents(ep: Epoll): Mask {
    Mask(ep.readable || ep.err || ep.hup, ep.writable || ep.err || ep.hup)
  }

  /** What idle does with one event of epoll_wait. */
  function Dispatch(t: Table, fd: nat, ep: Epoll, ctl: bool): Outcome
    requires fd < |t.ctxs|
  {
    var c := t.ctxs[fd];
    var which := RealEvents(ep);
    if !c.events.Meets(which) then
      Done(t, false, [], [])
    else
      var left := c.events.Minus(which);
      match EpollCtl(t.kernel, if left != NONE then MOD else DEL, fd, left, ctl)
      case None => Done(t, false, [], [])
      case Some(kernel) =>
        match TriggerBoth(c, which)
        case None => Asserted
        case Some(r) => Done(Table(t.ctxs[fd := r.0], kernel, t.pending - which.Count()), true, [], r.1)
  }

  /**
   * One entry of epoll_wait's answer: the tickle pipe, or a descriptor; `ctl` is what the kernel says to its epoll_ctl.
   */
  datatype Ready = Pipe | Ready(fd: nat, ep: Epoll, ctl: bool)

  /** One turn of idle's loop over the answer; false where its assertion fails. */
  function DispatchOne(t: Table, r: Ready): (o: (Table, bool, seq<Task>))
    requires r.Ready? ==> r.fd < |t.ctxs|
    ensures |o.0.ctxs| == |t.ctxs|
  {
    if r.Pipe? then (t, true, [])
    else
      match Dispatch(t, r.fd, r.ep, r.ctl)
      case Asserted => (t, false, [])
      case Done(u, _, _, sent) => (u, true, sent)
  }

  function DispatchAll(t: Table, answer: seq<Ready>): (r: (Table, bool, seq<Task>))
    requires forall r :: r in answer && r.Ready? ==> r.fd < |t.ctxs|
    decreases |answer|
  {
    if answer == [] then (t, true, [])
    else
      var one := DispatchOne(t, answer[0]);
      if !one.1 then one
      else Prepend(one.2, DispatchAll(one.0, answer[1..]))
  }

  // ---------- what the table means ----------

  /** Who waits for the event: the table as a function of its slots. */
  function Waiting(t: Table, fd: nat, e: Event): seq<Task> {
    if fd < |t.ctxs| && t.ctxs[fd].events.Has(e) then Held(t.ctxs[fd].Get(e)) else []
  }

  /** A clear bit has an empty context, a set one a scheduler and exactly one of fiber and callback. */
  predicate SlotOk(on: bool, slot: EventContext) {
    if on then slot.scheduler.Some? && (slot.fiber.Some? <==> slot.cb.None?) else slot == Empty
  }

  predicate CtxOk(c: FdContext) {
    SlotOk(c.events.read, c.read) && SlotOk(c.events.write, c.write)
  }

  predicate KernelAgrees(t: Table, fd: nat) {
    if fd < |t.ctxs| && t.ctxs[fd].events != NONE then
      fd in t.kernel && t.kernel[fd] == t.ctxs[fd].events
    else
      fd !in t.kernel
  }

  /** How often a task is in a list. */
  function Times(s: seq<Task>, task: Task): nat {
    if s == [] then 0 else (if s[0] == task then 1 else 0) + Times(s[1..], task)
  }

  function HeldBy(c: FdContext, task: Task): nat {
    Times(Held(c.read), task) + Times(Held(c.write), task)
  }

  /** How many slots a task waits in. */
  function Armed(ctxs: seq<FdContext>, task: Task): nat {
    if ctxs == [] then 0 else HeldBy(ctxs[0], task) + Armed(ctxs[1..], task)
  }

  /** How many bits are set over all descriptors. */
  function Bits(ctxs: seq<FdContext>): nat {
    if ctxs == [] then 0 else ctxs[0].events.Count() + Bits(ctxs[1..])
  }

  ghost predicate TableOk(t: Table) {
    && |t.ctxs| >= INITIAL
    && (forall i :: 0 <= i < |t.ctxs| ==> t.ctxs[i].fd == i && CtxOk(t.ctxs[i]))
    && (forall fd: nat :: KernelAgrees(t, fd))
    && t.pending == Bits(t.ctxs)
  }

  // ---------- sums over the table ----------

  lemma {:induction false} BitsUpdate(ctxs: seq<FdContext>, i: nat, c: FdContext)
    requires i < |ctxs|
    ensures Bits(ctxs[i := c]) + ctxs[i].events.Count() == Bits(ctxs) + c.events.Count()
    decreases i
  {
    if i > 0 {
      BitsUpdate(ctxs[1..], i - 1, c);
      assert ctxs[i := c][1..] == ctxs[1..][i - 1 := c];
    } else {
      assert ctxs[i := c][1..] == ctxs[1..];
    }
  }

  lemma {:induction false} ArmedUpdate(ctxs: seq<FdContext>, i: nat, c: FdContext, task: Task)
    requires i < |ctxs|
    ensures Armed(ctxs[i := c], task) + HeldBy(ctxs[i], task) == Armed(ctxs, task) + HeldBy(c, task)
    decreases i
  {
    if i > 0 {
      ArmedUpdate(ctxs[1..], i - 1, c, task);
      assert ctxs[i := c][1..] == ctxs[1..][i - 1 := c];
    } else {
      assert ctxs[i := c][1..] == ctxs[1..];
    }
  }

  /** Contexts nobody waits in add nothing. */
  lemma {:induction false} BitsGrow(ctxs: seq<FdContext>, longer: seq<FdContext>)
    requires |ctxs| <= |longer| && longer[..|ctxs|] == ctxs
    requires forall i :: |ctxs| <= i < |longer| ==> Unused(longer[i])
    ensures Bits(longer) == Bits(ctxs)
    decreases |longer|
  {
    if ctxs != [] {
      assert longer[1..][..|ctxs| - 1] == ctxs[1..];
      BitsGrow(ctxs[1..], longer[1..]);
    } else if longer != [] {
      assert Unused(longer[0]);
      BitsGrow([], longer[1..]);
    }
  }

  lemma {:induction false} ArmedGrow(ctxs: seq<FdContext>, longer: seq<FdContext>, task: Task)
    requires |ctxs| <= |longer| && longer[..|ctxs|] == ctxs
    requires forall i :: |ctxs| <= i < |longer| ==> Unused(longer[i])
    ensures Armed(longer, task) == Armed(ctxs, task)
    decreases |longer|
  {
    if ctxs != [] {
      assert longer[1..][..|ctxs| - 1] == ctxs[1..];
      ArmedGrow(ctxs[1..], longer[1..], task);
    } else if longer != [] {
      assert Unused(longer[0]);
      ArmedGrow([], longer[1..], task);
    }
  }

  /** Growing is invisible. */
  ghost predicate SameSlots(t: Table, u: Table) {
    && TableOk(u) && u.pending == t.pending && u.kernel == t.kernel
    && (forall task :: Armed(u.ctxs, task) == Armed(t.ctxs, task))
    && (forall fd: nat, e :: Waiting(u, fd, e) == Waiting(t, fd, e))
  }

  predicate Unused(c: FdContext) {
    c == Fresh(c.fd)
  }

  lemma LongerOk(t: Table, u: Table)
    requires TableOk(t) && u.kernel == t.kernel && u.pending == t.pending
    requires |t.ctxs| <= |u.ctxs| && u.ctxs[..|t.ctxs|] == t.ctxs
    requires forall i :: |t.ctxs| <= i < |u.ctxs| ==> Unused(u.ctxs[i]) && u.ctxs[i].fd == i
    ensures SameSlots(t, u)
  {
    forall task
      ensures Armed(u.ctxs, task) == Armed(t.ctxs, task)
    {
      ArmedGrow(t.ctxs, u.ctxs, task);
    }
    BitsGrow(t.ctxs, u.ctxs);
    forall i | 0 <= i < |u.ctxs|
      ensures u.ctxs[i].fd == i && CtxOk(u.ctxs[i])
    {
      assert i < |t.ctxs| ==> u.ctxs[i] == t.ctxs[i];
    }
    forall fd: nat
      ensures KernelAgrees(u, fd)
    {
      assert KernelAgrees(t, fd);
      assert fd < |t.ctxs| ==> u.ctxs[fd] == t.ctxs[fd];
    }
    forall fd: nat, e
      ensures Waiting(u, fd, e) == Waiting(t, fd, e)
    {
      assert fd < |t.ctxs| ==> u.ctxs[fd] == t.ctxs[fd];
    }
  }

  lemma GrownOk(t: Table, fd: nat)
    requires TableOk(t)
    ensures SameSlots(t, Grown(t, fd))
  {
    if fd >= |t.ctxs| {
      LongerOk(t, Grown(t, fd));
    }
  }

  /** What addEvent makes of the table under the write lock, when it saw `looked` contexts under the read lock. */
  function GrownLate(t: Table, looked: nat, fd: nat): Table {
    if fd < looked then t else t.(ctxs := Resize(t.ctxs, fd * 3 / 2))
  }

  /**
   * If others grew the table in between, the growth can cut it. That forgets nobody exactly when nothing is armed at or
   * beyond the new length.
   */
  lemma LateGrowthIff(t: Table, looked: nat, fd: nat)
    requires TableOk(t)
    ensures (forall fd': nat, e :: Waiting(GrownLate(t, looked, fd), fd', e) == Waiting(t, fd', e)) <==>
            fd < looked || forall i :: fd * 3 / 2 <= i < |t.ctxs| ==> t.ctxs[i].events == NONE
  {
    var u := GrownLate(t, looked, fd);
    if i :| fd >= looked && fd * 3 / 2 <= i < |t.ctxs| && t.ctxs[i].events != NONE {
      var e := if t.ctxs[i].events.Has(READ) then READ else WRITE;
      assert Waiting(u, i, e) != Waiting(t, i, e);
    }
  }

  lemma {:induction false} EmptyTableOk(ctxs: seq<FdContext>)
    requires |ctxs| >= INITIAL && forall i :: 0 <= i < |ctxs| ==> Unused(ctxs[i]) && ctxs[i].fd == i
    ensures TableOk(Table(ctxs, map[], 0)) && forall task :: Armed(ctxs, task) == 0
  {
    forall task
      ensures Armed(ctxs, task) == 0
    {
      ArmedGrow([], ctxs, task);
    }
    BitsGrow([], ctxs);
  }

  lemma InitOk()
    ensures TableOk(Init()) && forall task :: Armed(Init().ctxs, task) == 0
  {
    EmptyTableOk(Init().ctxs);
  }

  // ---------- one context replaced ----------

  /** u is t with the context of fd replaced, and the kernel and the counter follow. */
  ghost predicate Replaced(t: Table, u: Table, fd: nat, c: FdContext) {
    && fd < |t.ctxs| && u.ctxs == t.ctxs[fd := c] && c.fd == fd && CtxOk(c)
    && u.kernel == (if c.events == NONE then t.kernel - {fd} else t.kernel[fd := c.events])
    && u.pending == t.pending + c.events.Count() - t.ctxs[fd].events.Count()
  }

  lemma ReplacedOk(t: Table, u: Table, fd: nat, c: FdContext)
    requires TableOk(t) && Replaced(t, u, fd, c)
    ensures TableOk(u)
    ensures forall task :: Armed(u.ctxs, task) + HeldBy(t.ctxs[fd], task) == Armed(t.ctxs, task) + HeldBy(c, task)
    ensures forall fd': nat, e :: fd' != fd ==> Waiting(u, fd', e) == Waiting(t, fd', e)
  {
    BitsUpdate(t.ctxs, fd, c);
    forall task
      ensures Armed(u.ctxs, task) + HeldBy(t.ctxs[fd], task) == Armed(t.ctxs, task) + HeldBy(c, task)
    {
      ArmedUpdate(t.ctxs, fd, c, task);
    }
    forall fd': nat
      ensures KernelAgrees(u, fd')
    {
      assert KernelAgrees(t, fd');
    }
  }

  // ---------- what each call does to the slots ----------

  /**
   * Only the slots of one descriptor in `gone` changed, each of them to nobody, the counter went down by one for each
   * task in `out`, and no other task is lost.
   */
  ghost predicate Emptied(t: Table, u: Table, fd: nat, gone: Mask, out: seq<Task>) {
    && TableOk(u)
    && (forall fd': nat, e :: Waiting(u, fd', e) == if fd' == fd && gone.Has(e) then [] else Waiting(t, fd', e))
    && u.pending == t.pending - |out|
    && (forall task :: Armed(u.ctxs, task) + Times(out, task) == Armed(t.ctxs, task))
  }

  lemma TimesAppend(a: seq<Task>, b: seq<Task>, task: Task)
    ensures Times(a + b, task) == Times(a, task) + Times(b, task)
  {
    if a == [] {
      assert a + b == b;
    } else {
      assert (a + b)[1..] == a[1..] + b;
      TimesAppend(a[1..], b, task);
    }
  }

  function TaskOf(cb: Option<nat>, fiber: nat, scheduler: nat): Task {
    Task(scheduler, if cb.Some? then CbCont(cb.value) else FiberCont(fiber))
  }

  /** A new task waits in one slot, and nothing else changed. */
  ghost predicate Taken(t: Table, u: Table, fd: nat, e: Event, task: Task) {
    && TableOk(u) && u.pending == t.pending + 1
    && (forall fd': nat, e' :: Waiting(u, fd', e') == if fd' == fd && e' == e then [task] else Waiting(t, fd', e'))
    && (forall x :: Armed(u.ctxs, x) == Armed(t.ctxs, x) + if x == task then 1 else 0)
  }

  lemma SlotFilled(c: FdContext, e: Event, slot: EventContext, task: Task)
    requires c.Get(e) == Empty && Held(slot) == [task]
    ensures forall x ::
              HeldBy(c.(events := c.events.With(e)).Set(e, slot), x) == HeldBy(c, x) + if x == task then 1 else 0
  {
    assert [task][1..] == [];
  }

  lemma FillOk(t: Table, u: Table, fd: nat, e: Event, slot: EventContext, task: Task)
    requires TableOk(t) && fd < |t.ctxs| && !t.ctxs[fd].events.Has(e) && SlotOk(true, slot) && Held(slot) == [task]
    requires Replaced(t, u, fd, t.ctxs[fd].(events := t.ctxs[fd].events.With(e)).Set(e, slot))
    ensures Taken(t, u, fd, e, task)
  {
    var c := t.ctxs[fd];
    ReplacedOk(t, u, fd, c.(events := c.events.With(e)).Set(e, slot));
    SlotFilled(c, e, slot, task);
  }

  /**
   * addEvent fails its assertion exactly on a slot that is taken. Otherwise it succeeds exactly when the kernel takes
   * it, so the operation it chose was legal, and then the task waits in that slot and nothing else changed.
   */
  lemma AddSpec(t: Table, fd: nat, e: Event, cb: Option<nat>, fiber: nat, scheduler: nat, ctl: bool)
    requires TableOk(t)
    ensures AddEvent(t, fd, e, cb, fiber, scheduler, ctl).Asserted? <==> Waiting(t, fd, e) != []
    ensures Waiting(t, fd, e) == [] ==>
              var o := AddEvent(t, fd, e, cb, fiber, scheduler, ctl);
              && o.yes == ctl && o.sent == [] && o.dropped == []
              && if ctl then Taken(t, o.table, fd, e, TaskOf(cb, fiber, scheduler))
                 else Emptied(t, o.table, fd, NONE, [])
  {
    GrownOk(t, fd);
    var u := Grown(t, fd);
    var c := u.ctxs[fd];
    assert KernelAgrees(u, fd) && CtxOk(c);
    assert Waiting(u, fd, e) == Waiting(t, fd, e);
    if !c.events.Has(e) && ctl {
      var o := AddEvent(t, fd, e, cb, fiber, scheduler, ctl);
      var slot := EventContext(Some(scheduler), if cb.Some? then None else Some(fiber), cb);
      FillOk(u, o.table, fd, e, slot, TaskOf(cb, fiber, scheduler));
    }
  }

  lemma DelSpec(t: Table, fd: nat, e: Event, ctl: bool)
    requires TableOk(t)
    ensures DelEvent(t, fd, e, ctl).Done?
    ensures var o := DelEvent(t, fd, e, ctl);
            && o.sent == [] && o.yes == (ctl && Waiting(t, fd, e) != [])
               && o.dropped == (if o.yes then Waiting(t, fd, e) else [])
            && Emptied(t, o.table, fd, if o.yes then Only(e) else NONE, o.dropped)
  {
    var o := DelEvent(t, fd, e, ctl);
    if fd < |t.ctxs| && t.ctxs[fd].events.Has(e) {
      assert KernelAgrees(t, fd) && CtxOk(t.ctxs[fd]);
      if ctl {
        ReplacedOk(t, o.table, fd, o.table.ctxs[fd]);
      }
    }
  }

  /** cancelEvent sends exactly who waits in that slot. */
  lemma CancelSpec(t: Table, fd: nat, e: Event, ctl: bool)
    requires TableOk(t)
    ensures CancelEvent(t, fd, e, ctl).Done?
    ensures var o := CancelEvent(t, fd, e, ctl);
            && o.dropped == [] && o.yes == (ctl && Waiting(t, fd, e) != [])
               && o.sent == (if o.yes then Waiting(t, fd, e) else [])
            && Emptied(t, o.table, fd, if o.yes then Only(e) else NONE, o.sent)
  {
    var o := CancelEvent(t, fd, e, ctl);
    if fd < |t.ctxs| && t.ctxs[fd].events.Has(e) {
      assert KernelAgrees(t, fd) && CtxOk(t.ctxs[fd]);
      if ctl {
        ReplacedOk(t, o.table, fd, o.table.ctxs[fd]);
      }
    }
  }

  function HeldIn(c: FdContext, which: Mask): seq<Task> {
    (if which.read then Held(c.read) else []) + (if which.write then Held(c.write) else [])
  }

  /** Triggering works exactly for registered events; it empties their slots and sends who held them, READ first. */
  lemma TriggerBothSpec(c: FdContext, which: Mask)
    requires CtxOk(c)
    ensures TriggerBoth(c, which).Some? <==> which.Within(c.events)
    ensures which.Within(c.events) ==>
              var r := TriggerBoth(c, which).value;
              && r.0 == FdContext(c.fd, c.events.Minus(which), if which.read then Empty else c.read,
                                  if which.write then Empty else c.write)
              && CtxOk(r.0) && r.1 == HeldIn(c, which)
              && |r.1| == which.Count() && r.0.events.Count() == c.events.Count() - which.Count()
              && forall task :: HeldBy(r.0, task) + Times(r.1, task) == HeldBy(c, task)
  {
    forall task
      ensures Times(HeldIn(c, which), task)
              == Times(if which.read then Held(c.read) else [], task)
                + Times(if which.write then Held(c.write) else [], task)
    {
      TimesAppend(if which.read then Held(c.read) else [], if which.write then Held(c.write) else [], task);
    }
  }

  /** cancelAll sends who waits for the descriptor, READ first. */
  lemma CancelAllSpec(t: Table, fd: nat, ctl: bool)
    requires TableOk(t)
    ensures CancelAll(t, fd, ctl).Done?
    ensures var o := CancelAll(t, fd, ctl);
            var all := Waiting(t, fd, READ) + Waiting(t, fd, WRITE);
            && o.dropped == [] && o.yes == (ctl && all != []) && o.sent == (if o.yes then all else [])
            && Emptied(t, o.table, fd, if o.yes then BOTH else NONE, o.sent)
  {
    var o := CancelAll(t, fd, ctl);
    if fd < |t.ctxs| && t.ctxs[fd].events != NONE {
      var c := t.ctxs[fd];
      assert KernelAgrees(t, fd) && CtxOk(c);
      TriggerBothSpec(c, c.events);
      if ctl {
        ReplacedOk(t, o.table, fd, o.table.ctxs[fd]);
      }
    }
  }

  /**
   * idle's handling of one event fails its assertion exactly when the event is for some registered direction and also
   * for one that is not registered, and the kernel agreed. Otherwise it sends who waits for the reported directions.
   */
  lemma DispatchSpec(t: Table, fd: nat, ep: Epoll, ctl: bool)
    requires TableOk(t) && fd < |t.ctxs|
    ensures var which, events := RealEvents(ep), t.ctxs[fd].events;
            Dispatch(t, fd, ep, ctl).Asserted? <==> ctl && events.Meets(which) && !which.Within(events)
    ensures var o := Dispatch(t, fd, ep, ctl);
            o.Done? ==>
              var which := RealEvents(ep);
              && o.dropped == [] && o.yes == (ctl && t.ctxs[fd].events.Meets(which))
              && o.sent == (if o.yes && which.read then Waiting(t, fd, READ) else [])
                 + (if o.yes && which.write then Waiting(t, fd, WRITE) else [])
              && Emptied(t, o.table, fd, if o.yes then which else NONE, o.sent)
  {
    var o := Dispatch(t, fd, ep, ctl);
    var c := t.ctxs[fd];
    var which := RealEvents(ep);
    if c.events.Meets(which) && ctl {
      assert KernelAgrees(t, fd) && CtxOk(c);
      TriggerBothSpec(c, which);
      if which.Within(c.events) {
        ReplacedOk(t, o.table, fd, o.table.ctxs[fd]);
      }
    }
  }

  /** A reader alone on a descriptor that reports an error ends the program. */
  lemma LoneReaderAndError(fiber: nat, scheduler: nat)
    ensures var o := AddEvent(Init(), 3, READ, None, fiber, scheduler, true);
            o.Done? && o.yes && Dispatch(o.table, 3, Epoll(true, false, true, false), true).Asserted?
  {
    InitOk();
    AddSpec(Init(), 3, READ, None, fiber, scheduler, true);
    DispatchSpec(AddEvent(Init(), 3, READ, None, fiber, scheduler, true).table, 3, Epoll(true, false, true, false),
                 true);
  }

  // ---------- runs ----------

  datatype Call =
    | Add(fd: nat, e: Event, cb: Option<nat>, fiber: nat, scheduler: nat, ctl: bool)
    | Del(fd: nat, e: Event, ctl: bool)
    | Cancel(fd: nat, e: Event, ctl: bool)
    | CancelEvery(fd: nat, ctl: bool)
    | Idle(fd: nat, ep: Epoll, ctl: bool)

  function Apply(t: Table, call: Call): Outcome
    requires |t.ctxs| >= INITIAL && (call.Idle? ==> call.fd < |t.ctxs|)
  {
    match call
    case Add(fd, e, cb, fiber, scheduler, ctl) => AddEvent(t, fd, e, cb, fiber, scheduler, ctl)
    case Del(fd, e, ctl) => DelEvent(t, fd, e, ctl)
    case Cancel(fd, e, ctl) => CancelEvent(t, fd, e, ctl)
    case CancelEvery(fd, ctl) => CancelAll(t, fd, ctl)
    case Idle(fd, ep, ctl) => Dispatch(t, fd, ep, ctl)
  }

  /** The task a call registers if it succeeds. */
  function Offered(call: Call): seq<Task> {
    if call.Add? then [TaskOf(call.cb, call.fiber, call.scheduler)] else []
  }

  /** What a run took in and let out. `ended` is a failed assertion. */
  datatype Log = Log(table: Table, accepted: seq<Task>, dropped: seq<Task>, sent: seq<Task>, ended: bool)

  const Start: Log := Log(Init(), [], [], [], false)

  /** The kernel reports only descriptors it was given. */
  function Next(l: Log, call: Call): Log
    requires |l.table.ctxs| >= INITIAL
  {
    if l.ended || (call.Idle? && call.fd >= |l.table.ctxs|) then l
    else
      match Apply(l.table, call)
      case Asserted => l.(ended := true)
      case Done(table, yes, dropped, sent) =>
        Log(table, l.accepted + (if yes then Offered(call) else []), l.dropped + dropped, l.sent + sent, false)
  }

  ghost predicate LogOk(l: Log) {
    && TableOk(l.table)
    && forall task ::
         Times(l.accepted, task) == Armed(l.table.ctxs, task) + Times(l.dropped, task) + Times(l.sent, task)
  }

  /** What goes in and what comes out of the slots in one call. */
  lemma ApplyConserves(t: Table, call: Call, task: Task)
    requires TableOk(t) && (call.Idle? ==> call.fd < |t.ctxs|) && Apply(t, call).Done?
    ensures var o := Apply(t, call);
            && TableOk(o.table)
            && Armed(t.ctxs, task) + Times(if o.yes then Offered(call) else [], task)
            == Armed(o.table.ctxs, task) + Times(o.dropped, task) + Times(o.sent, task)
  {
    match call
    case Add(fd, e, cb, fiber, scheduler, ctl) => AddSpec(t, fd, e, cb, fiber, scheduler, ctl);
    case Del(fd, e, ctl) => DelSpec(t, fd, e, ctl);
    case Cancel(fd, e, ctl) => CancelSpec(t, fd, e, ctl);
    case CancelEvery(fd, ctl) => CancelAllSpec(t, fd, ctl);
    case Idle(fd, ep, ctl) => DispatchSpec(t, fd, ep, ctl);
  }

  lemma NextOk(l: Log, call: Call)
    requires LogOk(l)
    ensures LogOk(Next(l, call))
  {
    var r := Next(l, call);
    if !(l.ended || (call.Idle? && call.fd >= |l.table.ctxs|)) && Apply(l.table, call).Done? {
      var o := Apply(l.table, call);
      ApplyConserves(l.table, call, TaskOf(None, 0, 0));
      forall task
        ensures Times(r.accepted, task) == Armed(r.table.ctxs, task) + Times(r.dropped, task) + Times(r.sent, task)
      {
        ApplyConserves(l.table, call, task);
        TimesAppend(l.accepted, if o.yes then Offered(call) else [], task);
        TimesAppend(l.dropped, o.dropped, task);
        TimesAppend(l.sent, o.sent, task);
      }
    }
  }

  ghost function Run(l: Log, calls: seq<Call>): (r: Log)
    requires LogOk(l)
    decreases |calls|
  {
    if calls == [] then l else
      NextOk(l, calls[0]);
      Run(Next(l, calls[0]), calls[1..])
  }

  /**
   * After any run the table agrees with itself and with the kernel, and every task ever accepted is waiting, was
   * dropped by delEvent, or was sent to its scheduler, each as often as it was accepted.
   */
  lemma {:induction false} NothingLostOrDoubled(l: Log, calls: seq<Call>)
    requires LogOk(l)
    ensures var r := Run(l, calls);
            && TableOk(r.table)
            && forall task ::
                 Times(r.accepted, task) == Armed(r.table.ctxs, task) + Times(r.dropped, task) + Times(r.sent, task)
    decreases |calls|
  {
    if calls != [] {
      NextOk(l, calls[0]);
      NothingLostOrDoubled(Next(l, calls[0]), calls[1..]);
    }
  }

  lemma StartOk()
    ensures LogOk(Start)
  {
    InitOk();
  }
}
