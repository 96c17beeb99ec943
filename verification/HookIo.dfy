/**
 * Waiting with a timeout, the protocol of do_io and connect_with_timeout in myhttp/hook.cpp: a call arms a timer,
 * registers its fiber in the readiness table and holds; whoever comes first wakes it, and it takes the timer back. The
 * callback of the timer is four steps, because nothing keeps them together: OnTimer gets hold of the call's
 * timer_info, which then outlives the call; the callback looks at `cancelled`; it sets it; and it calls cancelEvent.
 */
module HookIo {
  import opened Bytes
  import opened Sequences
  import R = Readiness

  const SELF: nat := 0

  datatype Phase = Trying | Timed | Blocked | Woken | Returned(timedOut: bool)

  /**
   * One call, named by the fiber that makes it. `limited` is a timeout other than -1, `retries` the loop of do_io,
   * which connect_with_timeout does not have. `regs` and `wakes` count its registrations and the times its fiber was
   * scheduled.
   */
  datatype Call = Call(fd: nat, e: R.Event, limited: bool, retries: bool, phase: Phase, cancelled: bool,
                       timer: Option<nat>, regs: nat, wakes: nat)

  /**
   * A timer: in the ordered set; collected, its callback queued; the callback with the timer_info in hand; the callback
   * past its look at `cancelled`; the callback before cancelEvent; out of use.
   */
  datatype Stage = InSet | Fired | Holding | Passed | Cancelling | Gone

  datatype Alarm = Alarm(call: nat, stage: Stage)

  datatype Sys = Sys(calls: map<nat, Call>, alarms: map<nat, Alarm>, table: R.Table)

  function Mine(c: nat): R.Task {
    R.Task(SELF, R.FiberCont(c))
  }

  /** The fibers that the table sent to the scheduler go on. */
  function Wake(calls: map<nat, Call>, sent: seq<R.Task>): (r: map<nat, Call>)
    ensures r.Keys == calls.Keys
  {
    if sent == [] then calls
    else
      var rest := Wake(calls, sent[1..]);
      var c := sent[0].cont.id;
      if sent[0] == Mine(c) && c in rest then rest[c := rest[c].(phase := Woken, wakes := rest[c].wakes + 1)] else rest
  }

  function Tabled(s: Sys, o: R.Outcome): Option<Sys> {
    match o
    case Asserted => None
    case Done(table, _, _, sent) => Some(s.(table := table, calls := Wake(s.calls, sent)))
  }

  /** Timer::cancel: too late once the timer was collected. */
  function CancelTimer(alarms: map<nat, Alarm>, timer: Option<nat>): (r: map<nat, Alarm>)
    ensures r.Keys == alarms.Keys
  {
    if timer.Some? && timer.value in alarms && alarms[timer.value].stage == InSet then
      alarms[timer.value := alarms[timer.value].(stage := Gone)]
    else alarms
  }

  datatype Step =
    | Begin(c: nat, fd: nat, e: R.Event, limited: bool, retries: bool)
    | Attempt(c: nat, again: bool, t: nat)
    | Register(c: nat, ctl: bool)
    | Resume(c: nat)
    | Expire(t: nat)
    | Lock(t: nat)
    | Check(t: nat)
    | Mark(t: nat)
    | CancelIt(t: nat, ctl: bool)
    | Others(call: R.Call)

  /** The system call, and the timer if it says EAGAIN or EINPROGRESS. */
  function DoAttempt(s: Sys, c: nat, again: bool, t: nat): Option<Sys> {
    if c !in s.calls || s.calls[c].phase != Trying then None
    else
      var k := s.calls[c];
      if !again then Some(s.(calls := s.calls[c := k.(phase := Returned(false))]))
      else if !k.limited then Some(s.(calls := s.calls[c := k.(phase := Timed, timer := None)]))
      else if t in s.alarms then None
      else Some(s.(calls := s.calls[c := k.(phase := Timed, timer := Some(t))],
                   alarms := s.alarms[t := Alarm(c, InSet)]))
  }

  function DoRegister(s: Sys, c: nat, ctl: bool): Option<Sys> {
    if c !in s.calls || s.calls[c].phase != Timed || |s.table.ctxs| < R.INITIAL then None
    else
      var k := s.calls[c];
      match R.AddEvent(s.table, k.fd, k.e, None, c, SELF, ctl)
      case Asserted => None
      case Done(table, yes, _, _) =>
        if yes then Some(s.(calls := s.calls[c := k.(phase := Blocked, regs := k.regs + 1)], table := table))
        else Some(Sys(s.calls[c := k.(phase := Returned(false))], CancelTimer(s.alarms, k.timer), table))
  }

  /** The fiber runs again. */
  function DoResume(s: Sys, c: nat): Option<Sys> {
    if c !in s.calls || s.calls[c].phase != Woken then None
    else
      var k := s.calls[c];
      var next := if k.cancelled then Returned(true) else if k.retries then Trying else Returned(false);
      Some(s.(calls := s.calls[c := k.(phase := next)], alarms := CancelTimer(s.alarms, k.timer)))
  }

  function DoExpire(s: Sys, t: nat): Option<Sys> {
    if t !in s.alarms || s.alarms[t].stage != InSet then None
    else Some(s.(alarms := s.alarms[t := s.alarms[t].(stage := Fired)]))
  }

  /** The callback of the timer has the timer_info in hand until it is through. */
  predicate Keeps(a: Alarm, c: nat) {
    a.call == c && a.stage in {Holding, Passed, Cancelling}
  }

  predicate Kept(s: Sys, c: nat) {
    exists t :: t in s.alarms && Keeps(s.alarms[t], c)
  }

  /** All rounds of a call share one timer_info; it is there until the call has returned and no callback keeps it. */
  predicate Live(s: Sys, c: nat)
    requires c in s.calls
  {
    !s.calls[c].phase.Returned? || Kept(s, c)
  }

  /** OnTimer: the callback is called if the timer_info is still there. */
  function DoLock(s: Sys, t: nat): Option<Sys> {
    if t !in s.alarms || s.alarms[t].stage != Fired || s.alarms[t].call !in s.calls then None
    else
      var a := s.alarms[t];
      Some(s.(alarms := s.alarms[t := a.(stage := if Live(s, a.call) then Holding else Gone)]))
  }

  /** The callback finds the call marked already, or goes on to mark it. */
  function DoCheck(s: Sys, t: nat): Option<Sys> {
    if t !in s.alarms || s.alarms[t].stage != Holding || s.alarms[t].call !in s.calls then None
    else
      var a := s.alarms[t];
      Some(s.(alarms := s.alarms[t := a.(stage := if s.calls[a.call].cancelled then Gone else Passed)]))
  }

  /** It marks the call, even if that has returned by now, or another callback has marked it. */
  function DoMark(s: Sys, t: nat): Option<Sys> {
    if t !in s.alarms || s.alarms[t].stage != Passed || s.alarms[t].call !in s.calls then None
    else
      var a := s.alarms[t];
      Some(s.(alarms := s.alarms[t := a.(stage := Cancelling)],
              calls := s.calls[a.call := s.calls[a.call].(cancelled := true)]))
  }

  function DoCancelIt(s: Sys, t: nat, ctl: bool): Option<Sys> {
    if t !in s.alarms || s.alarms[t].stage != Cancelling || s.alarms[t].call !in s.calls then None
    else
      var k := s.calls[s.alarms[t].call];
      Tabled(s.(alarms := s.alarms[t := s.alarms[t].(stage := Gone)]), R.CancelEvent(s.table, k.fd, k.e, ctl))
  }

  /** The dispatch loop, a close, a cancel from elsewhere, or a callback armed by somebody else. */
  predicate Foreign(s: Sys, call: R.Call) {
    match call
    case Add(_, _, cb, _, _, _) => cb.Some?
    case Del(_, _, _) => false
    case Cancel(_, _, _) => true
    case CancelEvery(_, _) => true
    case Idle(fd, _, _) => fd < |s.table.ctxs|
  }

  function Do(s: Sys, step: Step): Option<Sys> {
    match step
    case Begin(c, fd, e, limited, retries) =>
      if c in s.calls then None
      else Some(s.(calls := s.calls[c := Call(fd, e, limited, retries, Trying, false, None, 0, 0)]))
    case Attempt(c, again, t) => DoAttempt(s, c, again, t)
    case Register(c, ctl) => DoRegister(s, c, ctl)
    case Resume(c) => DoResume(s, c)
    case Expire(t) => DoExpire(s, t)
    case Lock(t) => DoLock(s, t)
    case Check(t) => DoCheck(s, t)
    case Mark(t) => DoMark(s, t)
    case CancelIt(t, ctl) => DoCancelIt(s, t, ctl)
    case Others(call) =>
      if |s.table.ctxs| < R.INITIAL || !Foreign(s, call) then None else Tabled(s, R.Apply(s.table, call))
  }

  // ---------- the invariant ----------

  /** Its timer will still run its callback, or has marked the call. */
  predicate Guarded(s: Sys, k: Call) {
    k.timer.Some? && k.timer.value in s.alarms
      && (s.alarms[k.timer.value].stage in {InSet, Fired, Holding, Passed} || k.cancelled)
  }

  predicate TimerIsOwn(s: Sys, c: nat, k: Call) {
    k.timer.Some? ==> k.timer.value in s.alarms && s.alarms[k.timer.value].call == c
  }

  /**
   * A blocked call waits in its own slot and nowhere else, any other waits nowhere; every registration woke it once.
   */
  predicate CallOk(s: Sys, c: nat) {
    if c !in s.calls then R.Armed(s.table.ctxs, Mine(c)) == 0
    else
      var k := s.calls[c];
      && R.Armed(s.table.ctxs, Mine(c)) == One(k.phase.Blocked?)
      && (k.phase.Blocked? ==> R.Waiting(s.table, k.fd, k.e) == [Mine(c)])
      && k.regs == k.wakes + One(k.phase.Blocked?)
      && TimerIsOwn(s, c, k) && (k.cancelled ==> k.limited)
      && (k.limited && (k.phase.Timed? || k.phase.Blocked?) ==> Guarded(s, k))
  }

  /** A timer in the set belongs to the present round of a call that has not returned. */
  predicate AlarmOk(s: Sys, t: nat) {
    t in s.alarms ==>
      var a := s.alarms[t];
      && a.call in s.calls && s.calls[a.call].limited
      && (a.stage == InSet ==> s.calls[a.call].timer == Some(t) && s.calls[a.call].phase in {Timed, Blocked, Woken})
      && (a.stage == Cancelling ==> s.calls[a.call].cancelled)
  }

  ghost predicate Inv(s: Sys) {
    && R.TableOk(s.table)
    && (forall c :: CallOk(s, c))
    && (forall t :: AlarmOk(s, t))
  }

  // ---------- the table ----------

  lemma {:induction false} WakeSpec(calls: map<nat, Call>, sent: seq<R.Task>, c: nat)
    requires c in calls
    ensures var n, k := R.Times(sent, Mine(c)), calls[c];
            Wake(calls, sent)[c] == if n == 0 then k else k.(phase := Woken, wakes := k.wakes + n)
    decreases |sent|
  {
    if sent != [] {
      WakeSpec(calls, sent[1..], c);
    }
  }

  /** What a table step that deletes nothing does to the slots. */
  ghost predicate Fair(t: R.Table, u: R.Table, sent: seq<R.Task>) {
    && R.TableOk(u)
    && (forall c :: R.Armed(t.ctxs, Mine(c)) == R.Armed(u.ctxs, Mine(c)) + R.Times(sent, Mine(c)))
    && (forall fd: nat, e :: R.Waiting(t, fd, e) != [] ==>
          R.Waiting(u, fd, e) == R.Waiting(t, fd, e) || R.Times(sent, R.Waiting(t, fd, e)[0]) > 0)
  }

  lemma EmptiedIsFair(t: R.Table, u: R.Table, fd: nat, gone: R.Mask, sent: seq<R.Task>)
    requires R.TableOk(t) && R.Emptied(t, u, fd, gone, sent)
    requires forall e :: gone.Has(e) && R.Waiting(t, fd, e) != [] ==> R.Times(sent, R.Waiting(t, fd, e)[0]) > 0
    ensures Fair(t, u, sent)
  {
  }

  lemma CancelFair(t: R.Table, fd: nat, e: R.Event, ctl: bool)
    requires R.TableOk(t)
    ensures var o := R.CancelEvent(t, fd, e, ctl); o.Done? && Fair(t, o.table, o.sent)
  {
    R.CancelSpec(t, fd, e, ctl);
    var o := R.CancelEvent(t, fd, e, ctl);
    EmptiedIsFair(t, o.table, fd, if o.yes then R.Only(e) else R.NONE, o.sent);
  }

  lemma CancelAllFair(t: R.Table, fd: nat, ctl: bool)
    requires R.TableOk(t)
    ensures var o := R.CancelAll(t, fd, ctl); o.Done? && Fair(t, o.table, o.sent)
  {
    R.CancelAllSpec(t, fd, ctl);
    var o := R.CancelAll(t, fd, ctl);
    FirstIsSent(R.Waiting(t, fd, R.READ), R.Waiting(t, fd, R.WRITE));
    EmptiedIsFair(t, o.table, fd, if o.yes then R.BOTH else R.NONE, o.sent);
  }

  lemma FirstIsSent(a: seq<R.Task>, b: seq<R.Task>)
    ensures a != [] ==> R.Times(a + b, a[0]) > 0
    ensures b != [] ==> R.Times(a + b, b[0]) > 0
  {
    if a != [] {
      R.TimesAppend(a, b, a[0]);
    }
    if b != [] {
      R.TimesAppend(a, b, b[0]);
    }
  }

  lemma DispatchFair(t: R.Table, fd: nat, ep: R.Epoll, ctl: bool)
    requires R.TableOk(t) && fd < |t.ctxs|
    ensures var o := R.Dispatch(t, fd, ep, ctl); o.Done? ==> Fair(t, o.table, o.sent)
  {
    R.DispatchSpec(t, fd, ep, ctl);
    var o := R.Dispatch(t, fd, ep, ctl);
    if o.Done? {
      var which := R.RealEvents(ep);
      FirstIsSent(if o.yes && which.read then R.Waiting(t, fd, R.READ) else [],
                  if o.yes && which.write then R.Waiting(t, fd, R.WRITE) else []);
      EmptiedIsFair(t, o.table, fd, if o.yes then which else R.NONE, o.sent);
    }
  }

  lemma ArmFair(t: R.Table, fd: nat, e: R.Event, cb: nat, fiber: nat, scheduler: nat, ctl: bool)
    requires R.TableOk(t)
    ensures var o := R.AddEvent(t, fd, e, Some(cb), fiber, scheduler, ctl); o.Done? ==> Fair(t, o.table, o.sent)
  {
    R.AddSpec(t, fd, e, Some(cb), fiber, scheduler, ctl);
  }

  lemma ForeignFair(s: Sys, call: R.Call)
    requires Inv(s) && Foreign(s, call)
    ensures var o := R.Apply(s.table, call); o.Done? ==> Fair(s.table, o.table, o.sent)
  {
    match call
    case Add(fd, e, cb, fiber, scheduler, ctl) => ArmFair(s.table, fd, e, cb.value, fiber, scheduler, ctl);
    case Cancel(fd, e, ctl) => CancelFair(s.table, fd, e, ctl);
    case CancelEvery(fd, ctl) => CancelAllFair(s.table, fd, ctl);
    case Idle(fd, ep, ctl) => DispatchFair(s.table, fd, ep, ctl);
  }

  lemma TabledKeeps(s: Sys, o: R.Outcome)
    requires Inv(s) && o.Done? && Fair(s.table, o.table, o.sent)
    ensures Inv(Tabled(s, o).value)
  {
    var u := Tabled(s, o).value;
    forall c
      ensures CallOk(u, c)
    {
      assert CallOk(s, c);
      if c in s.calls {
        WakeSpec(s.calls, o.sent, c);
      }
    }
    forall t
      ensures AlarmOk(u, t)
    {
      assert AlarmOk(s, t);
      if t in s.alarms {
        WakeSpec(s.calls, o.sent, s.alarms[t].call);
      }
    }
  }

  // ---------- every step keeps the invariant ----------

  lemma AttemptKeeps(s: Sys, c: nat, again: bool, t: nat)
    requires Inv(s) && DoAttempt(s, c, again, t).Some?
    ensures Inv(DoAttempt(s, c, again, t).value)
  {
    var u := DoAttempt(s, c, again, t).value;
    forall d
      ensures CallOk(u, d)
    {
      assert CallOk(s, d);
    }
    forall a
      ensures AlarmOk(u, a)
    {
      assert AlarmOk(s, a);
    }
  }

  lemma RegisterKeeps(s: Sys, c: nat, ctl: bool)
    requires Inv(s) && DoRegister(s, c, ctl).Some?
    ensures Inv(DoRegister(s, c, ctl).value)
  {
    var k := s.calls[c];
    R.AddSpec(s.table, k.fd, k.e, None, c, SELF, ctl);
    var o := R.AddEvent(s.table, k.fd, k.e, None, c, SELF, ctl);
    if ctl {
      BlockKeeps(s, c, o.table);
    } else {
      RefusalKeeps(s, c, o.table);
    }
  }

  lemma BlockKeeps(s: Sys, c: nat, table: R.Table)
    requires Inv(s) && c in s.calls && s.calls[c].phase.Timed?
             && R.Taken(s.table, table, s.calls[c].fd, s.calls[c].e, Mine(c))
    requires R.Waiting(s.table, s.calls[c].fd, s.calls[c].e) == []
    ensures Inv(s.(calls := s.calls[c := s.calls[c].(phase := Blocked, regs := s.calls[c].regs + 1)], table := table))
  {
    var u := s.(calls := s.calls[c := s.calls[c].(phase := Blocked, regs := s.calls[c].regs + 1)], table := table);
    forall d
      ensures CallOk(u, d)
    {
      assert CallOk(s, d) && CallOk(s, c);
    }
    forall a
      ensures AlarmOk(u, a)
    {
      assert AlarmOk(s, a);
    }
  }

  lemma RefusalKeeps(s: Sys, c: nat, table: R.Table)
    requires Inv(s) && c in s.calls && s.calls[c].phase.Timed? && R.Emptied(s.table, table, s.calls[c].fd, R.NONE, [])
    ensures Inv(Sys(s.calls[c := s.calls[c].(phase := Returned(false))], CancelTimer(s.alarms, s.calls[c].timer),
                    table))
  {
    var u := Sys(s.calls[c := s.calls[c].(phase := Returned(false))], CancelTimer(s.alarms, s.calls[c].timer), table);
    forall d
      ensures CallOk(u, d)
    {
      assert CallOk(s, d) && CallOk(s, c);
    }
    forall a
      ensures AlarmOk(u, a)
    {
      assert AlarmOk(s, a);
    }
  }

  lemma ResumeKeeps(s: Sys, c: nat)
    requires Inv(s) && DoResume(s, c).Some?
    ensures Inv(DoResume(s, c).value)
  {
    var u := DoResume(s, c).value;
    var k := s.calls[c];
    forall d
      ensures CallOk(u, d)
    {
      assert CallOk(s, d) && CallOk(s, c);
    }
    forall a
      ensures AlarmOk(u, a)
    {
      assert AlarmOk(s, a);
    }
  }

  lemma ExpireKeeps(s: Sys, t: nat)
    requires Inv(s) && DoExpire(s, t).Some?
    ensures Inv(DoExpire(s, t).value)
  {
    var u := DoExpire(s, t).value;
    forall d
      ensures CallOk(u, d)
    {
      assert CallOk(s, d);
    }
    forall a
      ensures AlarmOk(u, a)
    {
      assert AlarmOk(s, a);
    }
  }

  lemma LockKeeps(s: Sys, t: nat)
    requires Inv(s) && DoLock(s, t).Some?
    ensures Inv(DoLock(s, t).value)
  {
    var u := DoLock(s, t).value;
    forall d
      ensures CallOk(u, d)
    {
      assert CallOk(s, d) && AlarmOk(s, t);
    }
    forall a
      ensures AlarmOk(u, a)
    {
      assert AlarmOk(s, a);
    }
  }

  lemma CheckKeeps(s: Sys, t: nat)
    requires Inv(s) && DoCheck(s, t).Some?
    ensures Inv(DoCheck(s, t).value)
  {
    var u := DoCheck(s, t).value;
    forall d
      ensures CallOk(u, d)
    {
      assert CallOk(s, d) && AlarmOk(s, t);
    }
    forall a
      ensures AlarmOk(u, a)
    {
      assert AlarmOk(s, a);
    }
  }

  lemma MarkKeeps(s: Sys, t: nat)
    requires Inv(s) && DoMark(s, t).Some?
    ensures Inv(DoMark(s, t).value)
  {
    var u := DoMark(s, t).value;
    forall d
      ensures CallOk(u, d)
    {
      assert CallOk(s, d) && AlarmOk(s, t);
    }
    forall a
      ensures AlarmOk(u, a)
    {
      assert AlarmOk(s, a);
    }
  }

  /** What the callback's cancelEvent does to the table. */
  function Cancelled(s: Sys, t: nat, ctl: bool): R.Outcome
    requires t in s.alarms && s.alarms[t].call in s.calls
  {
    var k := s.calls[s.alarms[t].call];
    R.CancelEvent(s.table, k.fd, k.e, ctl)
  }

  lemma CancelItKeeps(s: Sys, t: nat, ctl: bool)
    requires Inv(s) && DoCancelIt(s, t, ctl).Some?
    ensures Inv(DoCancelIt(s, t, ctl).value)
  {
    var a := s.alarms[t];
    var k := s.calls[a.call];
    var v := s.(alarms := s.alarms[t := a.(stage := Gone)]);
    forall d
      ensures CallOk(v, d)
    {
      assert CallOk(s, d) && AlarmOk(s, t);
    }
    forall b
      ensures AlarmOk(v, b)
    {
      assert AlarmOk(s, b);
    }
    CancelFair(s.table, k.fd, k.e, ctl);
    TabledKeeps(v, Cancelled(s, t, ctl));
  }

  lemma StepKeeps(s: Sys, step: Step)
    requires Inv(s) && Do(s, step).Some?
    ensures Inv(Do(s, step).value)
  {
    match step
    case Begin(c, fd, e, limited, retries) =>
      var u := Do(s, step).value;
      forall d
        ensures CallOk(u, d)
      {
        assert CallOk(s, d);
      }
      forall a
        ensures AlarmOk(u, a)
      {
        assert AlarmOk(s, a);
      }
    case Attempt(c, again, t) => AttemptKeeps(s, c, again, t);
    case Register(c, ctl) => RegisterKeeps(s, c, ctl);
    case Resume(c) => ResumeKeeps(s, c);
    case Expire(t) => ExpireKeeps(s, t);
    case Lock(t) => LockKeeps(s, t);
    case Check(t) => CheckKeeps(s, t);
    case Mark(t) => MarkKeeps(s, t);
    case CancelIt(t, ctl) => CancelItKeeps(s, t, ctl);
    case Others(call) =>
      ForeignFair(s, call);
      TabledKeeps(s, R.Apply(s.table, call));
  }
}
