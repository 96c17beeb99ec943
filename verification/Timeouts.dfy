/** What a timeout is good for, and exactly when it is lost. */
module Timeouts {
  import opened Bytes
  import opened Sequences
  import opened HookIo
  import opened HookRuns
  import R = Readiness

  // ---------- what a timeout is good for ----------

  lemma RegisterBlocks(s: Sys, c: nat)
    requires Inv(s) && c in s.calls && s.calls[c].phase == Timed
             && R.Waiting(s.table, s.calls[c].fd, s.calls[c].e) == []
    ensures var k := s.calls[c];
            && DoRegister(s, c, true).Some?
            && var u := DoRegister(s, c, true).value;
               && Inv(u) && u.alarms == s.alarms && u.calls == s.calls[c := k.(phase := Blocked, regs := k.regs + 1)]
               && R.Waiting(u.table, k.fd, k.e) == [Mine(c)]
  {
    var k := s.calls[c];
    R.AddSpec(s.table, k.fd, k.e, None, c, SELF, true);
    RegisterKeeps(s, c, true);
  }

  /** The report that the descriptor is ready in the direction of the event. */
  function ReadyFor(fd: nat, e: R.Event): Step {
    Others(R.Idle(fd, R.Epoll(e.READ?, e.WRITE?, false, false), true))
  }

  lemma ReadyWakes(s: Sys, c: nat)
    requires Inv(s) && c in s.calls && s.calls[c].phase == Blocked
    ensures var k := s.calls[c];
            && Do(s, ReadyFor(k.fd, k.e)).Some?
            && var u := Do(s, ReadyFor(k.fd, k.e)).value;
               && Inv(u) && u.alarms == s.alarms && c in u.calls
                  && u.calls[c] == k.(phase := Woken, wakes := k.wakes + 1)
               && R.Waiting(u.table, k.fd, k.e) == []
  {
    var k := s.calls[c];
    assert CallOk(s, c);
    R.DispatchSpec(s.table, k.fd, R.Epoll(k.e.READ?, k.e.WRITE?, false, false), true);
    StepKeeps(s, ReadyFor(k.fd, k.e));
    var o := R.Dispatch(s.table, k.fd, R.Epoll(k.e.READ?, k.e.WRITE?, false, false), true);
    assert o.sent == [Mine(c)];
    WakeSpec(s.calls, o.sent, c);
    OneTask(o.sent, Mine(c));
  }

  /** The callback of a timer up to the hold on the timer_info. */
  lemma TimerComes(s: Sys, c: nat, t: nat)
    requires Inv(s) && c in s.calls && Live(s, c) && t in s.alarms && s.alarms[t].call == c
    requires s.alarms[t].stage in {InSet, Fired, Holding}
    ensures var u := Then(Then(s, Expire(t)), Lock(t));
            Inv(u) && u == s.(alarms := s.alarms[t := Alarm(c, Holding)])
  {
    var v := Then(s, Expire(t));
    if s.alarms[t].stage == InSet {
      ExpireKeeps(s, t);
      assert AlarmOk(s, t);
    }
    if v.alarms[t].stage == Fired {
      LockKeeps(v, t);
    }
    if s.alarms[t].stage == Holding {
      assert s == s.(alarms := s.alarms[t := Alarm(c, Holding)]);
    }
  }

  /** The callback from the hold, or later, to the mark. */
  lemma Marks(s: Sys, c: nat, t: nat)
    requires Inv(s) && c in s.calls && t in s.alarms && s.alarms[t].call == c
    requires s.alarms[t].stage in {Passed, Cancelling} || (s.alarms[t].stage == Holding && !s.calls[c].cancelled)
    ensures var u := Then(Then(s, Check(t)), Mark(t));
            && Inv(u)
            && u == s.(calls := s.calls[c := s.calls[c].(cancelled := true)],
                       alarms := s.alarms[t := Alarm(c, Cancelling)])
  {
    if s.alarms[t].stage == Cancelling {
      assert AlarmOk(s, t);
      assert s == s.(calls := s.calls[c := s.calls[c].(cancelled := true)],
                     alarms := s.alarms[t := Alarm(c, Cancelling)]);
    } else {
      if s.alarms[t].stage == Holding {
        CheckKeeps(s, t);
      }
      MarkKeeps(Then(s, Check(t)), t);
    }
  }

  lemma CancelsItself(s: Sys, c: nat, t: nat)
    requires Inv(s) && c in s.calls && s.calls[c].phase == Blocked && t in s.alarms
             && s.alarms[t] == Alarm(c, Cancelling)
    ensures var u := Then(s, CancelIt(t, true));
            Inv(u) && c in u.calls && u.calls[c] == s.calls[c].(phase := Woken, wakes := s.calls[c].wakes + 1)
  {
    assert CallOk(s, c);
    CancelFair(s.table, s.calls[c].fd, s.calls[c].e, true);
    CancelItKeeps(s, t, true);
    CancelWakes(s, t, true, c);
  }

  // ---------- when a timeout is lost ----------

  /**
   * A callback of the call is past its look at the mark and goes on to cancelEvent. There can be two: both looked
   * before either marked.
   */
  predicate Committed(s: Sys, c: nat) {
    exists t :: t in s.alarms && IsCommitted(s, c, t)
  }

  predicate IsCommitted(s: Sys, c: nat, t: nat) {
    t in s.alarms && s.alarms[t].call == c && s.alarms[t].stage in {Passed, Cancelling}
  }

  /** The call blocks, marked, and all its callbacks that got that far are through: no timer of its own will wake it. */
  predicate Lost(s: Sys, c: nat) {
    c in s.calls && s.calls[c].phase == Blocked && s.calls[c].limited && s.calls[c].cancelled && !Committed(s, c)
  }

  /** The own timer is on its way, and no callback is ahead of it. */
  predicate OnItsWay(s: Sys, c: nat) {
    && c in s.calls && !s.calls[c].cancelled && !Committed(s, c)
    && s.calls[c].timer.Some? && s.calls[c].timer.value in s.alarms
    && s.alarms[s.calls[c].timer.value].call == c && s.alarms[s.calls[c].timer.value].stage in {InSet, Fired, Holding}
  }

  /**
   * A blocked call with a limit is in exactly one of three cases: its own timer is on its way, or a callback of it is
   * on the way from the look at the mark to cancelEvent, or the timeout is lost.
   */
  lemma OnItsWayOrLost(s: Sys, c: nat)
    requires Inv(s) && c in s.calls && s.calls[c].phase == Blocked && s.calls[c].limited
    ensures OnItsWay(s, c) || Committed(s, c) || Lost(s, c)
    ensures !(OnItsWay(s, c) && Committed(s, c)) && !(OnItsWay(s, c) && Lost(s, c)) && !(Committed(s, c) && Lost(s, c))
  {
    assert CallOk(s, c);
    var t := s.calls[c].timer;
    if !s.calls[c].cancelled && s.alarms[t.value].stage == Passed {
      assert IsCommitted(s, c, t.value);
    }
  }

  /** All that the timer can do for its call, with nothing in between and a kernel that agrees, and then the call. */
  function Through(t: nat, c: nat): seq<Step> {
    [Expire(t), Lock(t), Check(t), Mark(t), CancelIt(t, true), Resume(c)]
  }

  /** A timer of the call makes it return ETIMEDOUT. */
  predicate Ends(s: Sys, c: nat, t: nat) {
    && t in s.alarms && s.alarms[t].call == c
    && var u := Run(s, Through(t, c));
       c in u.calls && u.calls[c].phase == Returned(true)
  }

  lemma EndsFrom(s: Sys, c: nat, t: nat)
    requires Inv(s) && c in s.calls && s.calls[c].phase == Blocked && t in s.alarms && s.alarms[t].call == c
    requires IsCommitted(s, c, t) || (!s.calls[c].cancelled && s.alarms[t].stage in {InSet, Fired, Holding})
    ensures Ends(s, c, t)
  {
    var v := Then(Then(s, Expire(t)), Lock(t));
    if !IsCommitted(s, c, t) {
      TimerComes(s, c, t);
    }
    Marks(v, c, t);
    CancelsItself(Then(Then(v, Check(t)), Mark(t)), c, t);
    Run6(s, Expire(t), Lock(t), Check(t), Mark(t), CancelIt(t, true), Resume(c));
  }

  /** A callback that comes too late leaves all calls as they are. */
  lemma TooLate(s: Sys, c: nat, t: nat)
    requires Inv(s) && Lost(s, c) && t in s.alarms && s.alarms[t].call == c
    ensures Then(Then(Then(Then(Then(s, Expire(t)), Lock(t)), Check(t)), Mark(t)), CancelIt(t, true)).calls == s.calls
  {
    assert !IsCommitted(s, c, t);
    var v1 := Then(s, Expire(t));
    var v2 := Then(v1, Lock(t));
    assert v2.calls == s.calls && v2.alarms[t].call == c && v2.alarms[t].stage in {Holding, Gone};
    var v3 := Then(v2, Check(t));
    assert v3.calls == s.calls && v3.alarms[t].stage == Gone;
    assert Then(v3, Mark(t)) == v3 && Then(v3, CancelIt(t, true)) == v3;
  }

  /** The timeout of a blocked call with a limit is lost exactly when no timer of its own can end it any more. */
  lemma TimeoutWorksIff(s: Sys, c: nat)
    requires Inv(s) && c in s.calls && s.calls[c].phase == Blocked && s.calls[c].limited
    ensures Lost(s, c) <==> forall t :: t in s.alarms ==> !Ends(s, c, t)
  {
    OnItsWayOrLost(s, c);
    if Lost(s, c) {
      forall t | t in s.alarms
        ensures !Ends(s, c, t)
      {
        if s.alarms[t].call == c {
          TooLate(s, c, t);
          Run6(s, Expire(t), Lock(t), Check(t), Mark(t), CancelIt(t, true), Resume(c));
        }
      }
    } else {
      var t := if Committed(s, c) then var x :| x in s.alarms && IsCommitted(s, c, x); x else s.calls[c].timer.value;
      EndsFrom(s, c, t);
    }
  }

  /** The step is the cancelEvent of a callback of the call. */
  predicate CancelRuns(s: Sys, step: Step, c: nat) {
    step.CancelIt? && step.t in s.alarms && s.alarms[step.t] == Alarm(c, Cancelling)
  }

  /** Somewhere in the run the call registers. */
  predicate Registers(s: Sys, steps: seq<Step>, c: nat)
    decreases |steps|
  {
    steps != [] && ((steps[0] == HookIo.Register(c, true) && Do(s, steps[0]).Some?)
                    || Registers(Then(s, steps[0]), steps[1..], c))
  }

  /**
   * Somewhere in the run the cancelEvent of the last callback of the call on its way there runs in vain: the kernel
   * refuses it, or the call registers only after it.
   */
  predicate InVain(s: Sys, steps: seq<Step>, c: nat)
    decreases |steps|
  {
    steps != [] &&
    (var u := Then(s, steps[0]);
     (CancelRuns(s, steps[0], c) && !Committed(u, c) && (!steps[0].ctl || Registers(u, steps[1..], c)))
     || InVain(u, steps[1..], c))
  }

  /** The table wakes nobody but blocked calls. */
  lemma WokenIfBlocked(s: Sys, o: R.Outcome, c: nat)
    requires Inv(s) && c in s.calls && o.Done? && Fair(s.table, o.table, o.sent)
    ensures var k, l := s.calls[c], Wake(s.calls, o.sent)[c];
            l == k || (k.phase.Blocked? && l == k.(phase := Woken, wakes := k.wakes + 1))
  {
    assert CallOk(s, c);
    WakeSpec(s.calls, o.sent, c);
  }

  /** What one step can do to a call. */
  ghost predicate Advances(s: Sys, u: Sys, step: Step, c: nat) {
    if c in s.calls then
      var k := s.calls[c];
      && c in u.calls && u.calls[c].limited == k.limited && (k.cancelled ==> u.calls[c].cancelled)
      && (u.calls[c].phase.Blocked? && !k.phase.Blocked? ==> step == HookIo.Register(c, true) && Do(s, step).Some?)
      && (k.phase.Returned? ==> u.calls[c].phase == k.phase)
    else
      c in u.calls ==> !u.calls[c].cancelled && !u.calls[c].phase.Blocked?
  }

  lemma CallStep(s: Sys, step: Step, c: nat)
    requires Inv(s)
    ensures var u := Then(s, step);
            Inv(u) && Advances(s, u, step, c)
  {
    if Do(s, step).Some? {
      StepKeeps(s, step);
      StepAdvances(s, step, c);
    }
  }

  lemma StepAdvances(s: Sys, step: Step, c: nat)
    requires Inv(s) && Do(s, step).Some?
    ensures Advances(s, Do(s, step).value, step, c)
  {
    if c in s.calls {
      match step
      case CancelIt(t, ctl) =>
        var k := s.calls[s.alarms[t].call];
        CancelFair(s.table, k.fd, k.e, ctl);
        WokenIfBlocked(s, R.CancelEvent(s.table, k.fd, k.e, ctl), c);
      case Others(call) =>
        ForeignFair(s, call);
        WokenIfBlocked(s, R.Apply(s.table, call), c);
      case Register(d, ctl) =>
        R.AddSpec(s.table, s.calls[d].fd, s.calls[d].e, None, d, SELF, ctl);
      case _ =>
    }
  }

  /** Who blocks in the end and did not before has registered. */
  lemma {:induction false} NeedsRegister(s: Sys, steps: seq<Step>, c: nat)
    requires Inv(s) && c in s.calls && !s.calls[c].phase.Blocked?
    requires c in Run(s, steps).calls && Run(s, steps).calls[c].phase.Blocked?
    ensures Registers(s, steps, c)
    decreases |steps|
  {
    if steps != [] {
      RunCons(s, steps);
      CallStep(s, steps[0], c);
      if !Then(s, steps[0]).calls[c].phase.Blocked? {
        NeedsRegister(Then(s, steps[0]), steps[1..], c);
      }
    }
  }

  /** Only the look at an unmarked call sends a callback on its way, and only cancelEvent ends it. */
  lemma CommittedStep(s: Sys, step: Step, c: nat)
    requires Inv(s)
    ensures var u := Then(s, step);
            && (Committed(u, c) && !Committed(s, c) ==> c in s.calls && !s.calls[c].cancelled)
            && (Committed(s, c) && !CancelRuns(s, step, c) ==> Committed(u, c))
            && (c in s.calls && !s.calls[c].cancelled && c in u.calls && u.calls[c].cancelled ==> Committed(u, c))
  {
    var u := Then(s, step);
    CallStep(s, step, c);
    if Committed(u, c) && !Committed(s, c) {
      var t :| t in u.alarms && IsCommitted(u, c, t);
      assert !IsCommitted(s, c, t) && AlarmOk(s, t) && AlarmOk(u, t);
    }
    if Committed(s, c) && !CancelRuns(s, step, c) {
      var t :| t in s.alarms && IsCommitted(s, c, t);
      AlarmStep(s, step, t);
      assert IsCommitted(u, c, t);
    }
    if c in s.calls && !s.calls[c].cancelled && c in u.calls && u.calls[c].cancelled {
      MarkedBy(s, step, c);
    }
  }

  /** Only its own callback marks a call. */
  lemma MarkedBy(s: Sys, step: Step, c: nat)
    requires Inv(s) && c in s.calls && !s.calls[c].cancelled
    requires c in Then(s, step).calls && Then(s, step).calls[c].cancelled
    ensures step.Mark? && step.t in Then(s, step).alarms && IsCommitted(Then(s, step), c, step.t)
  {
    match step
    case CancelIt(t, ctl) =>
      if Do(s, step).Some? {
        var k := s.calls[s.alarms[t].call];
        WakeSpec(s.calls, R.CancelEvent(s.table, k.fd, k.e, ctl).sent, c);
      }
    case Others(call) =>
      if Do(s, step).Some? {
        WakeSpec(s.calls, R.Apply(s.table, call).sent, c);
      }
    case _ =>
  }

  /** Once a call is marked and its callbacks are through, no timer of it ever comes to cancelEvent again. */
  lemma {:induction false} MarkedForGood(s: Sys, steps: seq<Step>, c: nat)
    requires Inv(s) && c in s.calls && s.calls[c].cancelled && !Committed(s, c)
    ensures var u := Run(s, steps);
            c in u.calls && u.calls[c].cancelled && !Committed(u, c) && !InVain(s, steps, c)
    decreases |steps|
  {
    if steps != [] {
      RunCons(s, steps);
      CallStep(s, steps[0], c);
      CommittedStep(s, steps[0], c);
      assert CancelRuns(s, steps[0], c) ==> IsCommitted(s, c, steps[0].t);
      MarkedForGood(Then(s, steps[0]), steps[1..], c);
    }
  }

  /**
   * Exactly when a timeout is lost: over any run, from before the call or while nobody has marked it, a call with a
   * limit that blocks in the end has lost its timeout if and only if the cancelEvent of the last callback on its way
   * there ran before the last registration or was refused by the kernel.
   */
  lemma {:induction false} LostIff(s: Sys, steps: seq<Step>, c: nat)
    requires Inv(s) && (c in s.calls && s.calls[c].cancelled ==> Committed(s, c))
    requires c in Run(s, steps).calls && Run(s, steps).calls[c].phase == Blocked && Run(s, steps).calls[c].limited
    ensures Lost(Run(s, steps), c) <==> InVain(s, steps, c)
    decreases |steps|
  {
    if steps != [] {
      var u := Then(s, steps[0]);
      RunCons(s, steps);
      CallStep(s, steps[0], c);
      CommittedStep(s, steps[0], c);
      if CancelRuns(s, steps[0], c) && !Committed(u, c) {
        RanInVain(s, steps, c);
        MarkedForGood(u, steps[1..], c);
      } else {
        LostIff(u, steps[1..], c);
      }
    }
  }

  /** If the call blocks in the end all the same, a cancelEvent that runs was in vain. */
  lemma RanInVain(s: Sys, steps: seq<Step>, c: nat)
    requires Inv(s) && steps != [] && CancelRuns(s, steps[0], c) && !Committed(Then(s, steps[0]), c)
    requires c in Run(s, steps).calls && Run(s, steps).calls[c].phase == Blocked
    ensures c in s.calls && s.calls[c].cancelled && InVain(s, steps, c)
    ensures c in Then(s, steps[0]).calls && Then(s, steps[0]).calls[c].cancelled
  {
    var u := Then(s, steps[0]);
    RunCons(s, steps);
    CallStep(s, steps[0], c);
    assert AlarmOk(s, steps[0].t);
    if steps[0].ctl {
      if s.calls[c].phase == Blocked {
        CancelsItself(s, c, steps[0].t);
      }
      assert !u.calls[c].phase.Blocked?;
      NeedsRegister(u, steps[1..], c);
    }
  }

  lemma StartMarksNobody()
    ensures Inv(Start) && Start.calls == map[]
  {
    StartKeeps();
  }

  // ---------- what is left over from a call that has returned ----------

  /** Somewhere in the run the callback of timer `t` calls cancelEvent. */
  predicate Acts(s: Sys, steps: seq<Step>, t: nat)
    decreases |steps|
  {
    steps != [] && ((steps[0].CancelIt? && steps[0].t == t && Do(s, steps[0]).Some?)
                    || Acts(Then(s, steps[0]), steps[1..], t))
  }

  ghost predicate EverActs(s: Sys, t: nat) {
    exists steps :: ActsIn(s, steps, t)
  }

  predicate ActsIn(s: Sys, steps: seq<Step>, t: nat) {
    Acts(s, steps, t)
  }

  /**
   * What is still going to come to cancelEvent if it is let: a callback past its look at the mark, or, while nobody has
   * marked the call, one with the timer_info in hand, or one that gets it from another callback that keeps it.
   */
  predicate StillActs(s: Sys, t: nat)
    requires t in s.alarms && s.alarms[t].call in s.calls
  {
    var c := s.alarms[t].call;
    match s.alarms[t].stage
    case InSet => true
    case Fired => Takes(s, c)
    case Holding => !s.calls[c].cancelled
    case Passed => true
    case Cancelling => true
    case Gone => false
  }

  /** A timer of a call that has returned and that cannot come to cancelEvent any more. */
  predicate Harmless(s: Sys, t: nat) {
    t in s.alarms && s.alarms[t].call in s.calls && s.calls[s.alarms[t].call].phase.Returned? && !StillActs(s, t)
  }

  /** Once a call has returned and no callback keeps its timer_info, none gets it any more. */
  lemma UnkeptStays(s: Sys, step: Step, c: nat)
    requires Inv(s) && c in s.calls && !Live(s, c)
    ensures c in Then(s, step).calls && !Live(Then(s, step), c)
  {
    var u := Then(s, step);
    CallStep(s, step, c);
    forall t | t in u.alarms
      ensures !Keeps(u.alarms[t], c)
    {
      assert t in s.alarms ==> !Keeps(s.alarms[t], c);
    }
  }

  lemma HarmlessStep(s: Sys, step: Step, t: nat)
    requires Inv(s) && Harmless(s, t)
    ensures Inv(Then(s, step)) && Harmless(Then(s, step), t)
    ensures step.CancelIt? && step.t == t ==> Do(s, step) == None
  {
    CallStep(s, step, s.alarms[t].call);
    AlarmStep(s, step, t);
    if !Live(s, s.alarms[t].call) {
      UnkeptStays(s, step, s.alarms[t].call);
    }
  }

  /** A timer that is not in the set changes only by its own callback. */
  lemma AlarmStep(s: Sys, step: Step, t: nat)
    requires Inv(s) && t in s.alarms && s.alarms[t].stage != InSet
    ensures t in Then(s, step).alarms
    ensures Then(s, step).alarms[t] == s.alarms[t]
            || (step in {Lock(t), Check(t), Mark(t)} && Do(s, step).Some?) || (step.CancelIt? && step.t == t)
  {
    if step.Register? && Do(s, step).Some? {
      R.AddSpec(s.table, s.calls[step.c].fd, s.calls[step.c].e, None, step.c, SELF, step.ctl);
    }
  }

  lemma {:induction false} HarmlessForGood(s: Sys, steps: seq<Step>, t: nat)
    requires Inv(s) && Harmless(s, t)
    ensures !Acts(s, steps, t)
    decreases |steps|
  {
    if steps != [] {
      HarmlessStep(s, steps[0], t);
      HarmlessForGood(Then(s, steps[0]), steps[1..], t);
    }
  }

  /** The callback, with nothing in between, up to its cancelEvent. */
  lemma UpToCancel(s: Sys, t: nat)
    requires Inv(s) && t in s.alarms && s.alarms[t].call in s.calls && s.alarms[t].stage != InSet && StillActs(s, t)
    ensures var c, u := s.alarms[t].call, Then(Then(Then(s, Lock(t)), Check(t)), Mark(t));
            && Inv(u) && u.table == s.table && u.calls == s.calls[c := s.calls[c].(cancelled := true)]
            && t in u.alarms && u.alarms[t] == Alarm(c, Cancelling)
  {
    var c := s.alarms[t].call;
    if s.alarms[t].stage == Fired {
      TimerComes(s, c, t);
    }
    Marks(Then(s, Lock(t)), c, t);
  }

  lemma ActsNext(s: Sys, t: nat)
    requires Inv(s) && t in s.alarms && s.alarms[t].call in s.calls && s.alarms[t].stage != InSet && StillActs(s, t)
    ensures Acts(s, [Lock(t), Check(t), Mark(t), CancelIt(t, true)], t)
  {
    var c := s.alarms[t].call;
    var steps := [Lock(t), Check(t), Mark(t), CancelIt(t, true)];
    UpToCancel(s, t);
    var u := Then(Then(Then(s, Lock(t)), Check(t)), Mark(t));
    CancelFair(u.table, u.calls[c].fd, u.calls[c].e, true);
    assert steps[1..] == [Check(t), Mark(t), CancelIt(t, true)] && steps[1..][1..] == [Mark(t), CancelIt(t, true)];
    assert steps[1..][1..][1..] == [CancelIt(t, true)];
    assert Acts(u, [CancelIt(t, true)], t);
  }

  /**
   * A timer left over from a call that has returned comes to cancelEvent in some run if and only if its callback is
   * past its look at the mark; or nobody has marked the call, and its callback has the timer_info in hand, or the timer
   * was collected and another callback of the call keeps the timer_info.
   */
  lemma LeftoverActsIff(s: Sys, t: nat)
    requires Inv(s) && t in s.alarms && s.alarms[t].call in s.calls && s.calls[s.alarms[t].call].phase.Returned?
    ensures var c, stage := s.alarms[t].call, s.alarms[t].stage;
            EverActs(s, t) <==>
              || stage == Passed || stage == Cancelling
              || (!s.calls[c].cancelled && (stage == Holding || (stage == Fired && Kept(s, c))))
  {
    assert AlarmOk(s, t);
    if StillActs(s, t) {
      ActsNext(s, t);
      assert ActsIn(s, [Lock(t), Check(t), Mark(t), CancelIt(t, true)], t);
    } else {
      forall steps
        ensures !ActsIn(s, steps, t)
      {
        HarmlessForGood(s, steps, t);
      }
    }
  }

  // ---------- runs in which it goes wrong ----------

  /** A call that has just begun on a direction nobody waits for. */
  ghost predicate Quiet(s: Sys, c: nat) {
    && Inv(s) && c in s.calls && s.calls[c].phase == Trying && !s.calls[c].cancelled
    && R.Waiting(s.table, s.calls[c].fd, s.calls[c].e) == []
  }

  /** What a call is after it armed timer `t` and registered. */
  function Waits(k: Call, t: nat): Call {
    k.(phase := Blocked, timer := Some(t), regs := k.regs + 1)
  }

  lemma Blocks(s: Sys, c: nat, t: nat)
    requires Quiet(s, c) && s.calls[c].limited && t !in s.alarms
    ensures var k, u := s.calls[c], Then(Then(s, Attempt(c, true, t)), Register(c, true));
            && Inv(u) && u.calls == s.calls[c := Waits(k, t)] && u.alarms == s.alarms[t := Alarm(c, InSet)]
            && R.Waiting(u.table, k.fd, k.e) == [Mine(c)]
  {
    AttemptKeeps(s, c, true, t);
    RegisterBlocks(Then(s, Attempt(c, true, t)), c);
  }

  lemma BlocksAndFires(s: Sys, c: nat, t: nat)
    requires Quiet(s, c) && s.calls[c].limited && t !in s.alarms
    ensures var u := Then(Then(Then(s, Attempt(c, true, t)), Register(c, true)), Expire(t));
            Inv(u) && u.calls == s.calls[c := Waits(s.calls[c], t)] && u.alarms == s.alarms[t := Alarm(c, Fired)]
  {
    Blocks(s, c, t);
    ExpireKeeps(Then(Then(s, Attempt(c, true, t)), Register(c, true)), t);
  }

  lemma BlocksAndHolds(s: Sys, c: nat, t: nat)
    requires Quiet(s, c) && s.calls[c].limited && t !in s.alarms
    ensures var u := Then(Then(Then(Then(s, Attempt(c, true, t)), Register(c, true)), Expire(t)), Lock(t));
            Inv(u) && u.calls == s.calls[c := Waits(s.calls[c], t)] && u.alarms == s.alarms[t := Alarm(c, Holding)]
  {
    BlocksAndFires(s, c, t);
    LockKeeps(Then(Then(Then(s, Attempt(c, true, t)), Register(c, true)), Expire(t)), t);
  }

  /** Readiness wakes a blocked call, and it goes on. */
  lemma ReadyAndOn(s: Sys, c: nat)
    requires Inv(s) && c in s.calls && s.calls[c].phase == Blocked
    ensures var k := s.calls[c];
            var next := if k.cancelled then Returned(true) else if k.retries then Trying else Returned(false);
            var u := Then(Then(s, ReadyFor(k.fd, k.e)), Resume(c));
            && Inv(u) && u.calls.Keys == s.calls.Keys && u.alarms == CancelTimer(s.alarms, k.timer)
            && R.Waiting(u.table, k.fd, k.e) == [] && u.calls[c] == k.(phase := next, wakes := k.wakes + 1)
  {
    ReadyWakes(s, c);
    ResumeKeeps(Then(s, ReadyFor(s.calls[c].fd, s.calls[c].e)), c);
  }

  /** A callback that runs all through before the event is registered. */
  lemma RunsTooEarly(s: Sys, c: nat, t: nat)
    requires Quiet(s, c) && s.calls[c].limited && t !in s.alarms
    ensures var u := Then(Then(Then(Then(Then(Then(s, Attempt(c, true, t)), Expire(t)), Lock(t)), Check(t)), Mark(t)),
                          CancelIt(t, true));
            && Inv(u) && u.alarms == s.alarms[t := Alarm(c, Gone)]
               && R.Waiting(u.table, s.calls[c].fd, s.calls[c].e) == []
            && u.calls == s.calls[c := s.calls[c].(phase := Timed, timer := Some(t), cancelled := true)]
  {
    var k := s.calls[c];
    var s1 := Then(s, Attempt(c, true, t));
    AttemptKeeps(s, c, true, t);
    TimerComes(s1, c, t);
    var s3 := Then(Then(s1, Expire(t)), Lock(t));
    Marks(s3, c, t);
    R.CancelSpec(s3.table, k.fd, k.e, true);
    CancelItKeeps(Then(Then(s3, Check(t)), Mark(t)), t, true);
  }

  /** A timeout that runs before the event is registered is lost. */
  lemma TimeoutBeforeRegistration(s: Sys, c: nat, t: nat)
    requires Quiet(s, c) && s.calls[c].limited && t !in s.alarms
    requires forall a :: a in s.alarms && s.alarms[a].call == c ==> s.alarms[a].stage == Gone
    ensures Lost(Run(s, [Attempt(c, true, t), Expire(t), Lock(t), Check(t), Mark(t), CancelIt(t, true),
                         Register(c, true)]), c)
  {
    RunsTooEarly(s, c, t);
    RegisterBlocks(Then(Then(Then(Then(Then(Then(s, Attempt(c, true, t)), Expire(t)), Lock(t)), Check(t)), Mark(t)),
                        CancelIt(t, true)), c);
    Run7(s, Attempt(c, true, t), Expire(t), Lock(t), Check(t), Mark(t), CancelIt(t, true), Register(c, true));
  }

  /** One round until the timer was collected, and readiness in time all the same. */
  lemma RoundWithLateTimer(s: Sys, c: nat, t: nat)
    requires Quiet(s, c) && s.calls[c].limited && s.calls[c].retries && t !in s.alarms
    ensures var k := s.calls[c];
            var u := Run(s, [Attempt(c, true, t), Register(c, true), Expire(t), ReadyFor(k.fd, k.e), Resume(c)]);
            && Quiet(u, c) && u.calls[c].(timer := k.timer, regs := k.regs, wakes := k.wakes) == k
            && u.alarms == s.alarms[t := Alarm(c, Fired)]
  {
    var k := s.calls[c];
    BlocksAndFires(s, c, t);
    ReadyAndOn(Then(Then(Then(s, Attempt(c, true, t)), Register(c, true)), Expire(t)), c);
    Run5(s, Attempt(c, true, t), Register(c, true), Expire(t), ReadyFor(k.fd, k.e), Resume(c));
  }

  lemma BlocksWithStale(s: Sys, c: nat, t1: nat, t2: nat)
    requires Quiet(s, c) && s.calls[c].limited && t1 in s.alarms && s.alarms[t1] == Alarm(c, Fired) && t2 !in s.alarms
    ensures var u := Then(Then(Then(s, Attempt(c, true, t2)), Register(c, true)), Lock(t1));
            && Inv(u) && u.calls == s.calls[c := Waits(s.calls[c], t2)]
            && u.alarms == s.alarms[t2 := Alarm(c, InSet)][t1 := Alarm(c, Holding)]
  {
    Blocks(s, c, t2);
    LockKeeps(Then(Then(s, Attempt(c, true, t2)), Register(c, true)), t1);
  }

  /** A callback of the call that is held while the timer of the round is in the set ends the round. */
  lemma StaleHits(s: Sys, c: nat, t1: nat, t2: nat)
    requires Inv(s) && c in s.calls && s.calls[c].phase == Blocked && !s.calls[c].cancelled
             && s.calls[c].timer == Some(t2)
    requires t1 in s.alarms && s.alarms[t1] == Alarm(c, Holding) && t2 in s.alarms && s.alarms[t2] == Alarm(c, InSet)
    ensures var u := Then(Then(Then(s, Check(t1)), Mark(t1)), CancelIt(t1, true));
            && t2 in u.alarms && u.alarms[t2] == Alarm(c, InSet)
            && c in u.calls && u.calls[c].phase == Woken && u.calls[c].cancelled && u.calls[c].timer == Some(t2)
  {
    Marks(s, c, t1);
    CancelsItself(Then(Then(s, Check(t1)), Mark(t1)), c, t1);
  }

  /**
   * Within one call a callback may be left over from an earlier round, and it ends the later round early: the call
   * times out while the timer of that round is still in the set.
   */
  lemma StaleRoundTimesOut(s: Sys, c: nat, t1: nat, t2: nat)
    requires Quiet(s, c) && s.calls[c].limited && t1 in s.alarms && s.alarms[t1] == Alarm(c, Fired) && t2 !in s.alarms
    ensures var u := Run(s, [Attempt(c, true, t2), Register(c, true), Lock(t1), Check(t1), Mark(t1),
                             CancelIt(t1, true)]);
            && t2 in u.alarms && u.alarms[t2] == Alarm(c, InSet)
            && c in u.calls && u.calls[c].phase == Woken && u.calls[c].cancelled
            && DoResume(u, c) == Some(Sys(u.calls[c := u.calls[c].(phase := Returned(true))],
                                          u.alarms[t2 := Alarm(c, Gone)], u.table))
  {
    BlocksWithStale(s, c, t1, t2);
    StaleHits(Then(Then(Then(s, Attempt(c, true, t2)), Register(c, true)), Lock(t1)), c, t1, t2);
    Run6(s, Attempt(c, true, t2), Register(c, true), Lock(t1), Check(t1), Mark(t1), CancelIt(t1, true));
  }

  /** A callback left over and the one of the present round both look at the mark before either sets it. */
  lemma BothMark(s: Sys, c: nat, t1: nat, t2: nat)
    requires Quiet(s, c) && s.calls[c].limited && t1 in s.alarms && s.alarms[t1] == Alarm(c, Fired) && t2 !in s.alarms
    ensures var u := Run(s, [Attempt(c, true, t2), Register(c, true), Lock(t1), Check(t1)]
                            + [Expire(t2), Lock(t2), Check(t2), Mark(t1), Mark(t2)]);
            && Inv(u) && c in u.calls && u.calls[c].phase == Blocked && u.calls[c].cancelled
            && t1 in u.alarms && u.alarms[t1] == Alarm(c, Cancelling)
            && t2 in u.alarms && u.alarms[t2] == Alarm(c, Cancelling)
  {
    var first := [Attempt(c, true, t2), Register(c, true), Lock(t1), Check(t1)];
    BlocksWithStale(s, c, t1, t2);
    var s3 := Then(Then(Then(s, Attempt(c, true, t2)), Register(c, true)), Lock(t1));
    CheckKeeps(s3, t1);
    Run4(s, first[0], first[1], first[2], first[3]);
    BothPass(Then(s3, Check(t1)), c, t1, t2);
    RunAppend(s, first, [Expire(t2), Lock(t2), Check(t2), Mark(t1), Mark(t2)]);
  }

  lemma BothPass(s: Sys, c: nat, t1: nat, t2: nat)
    requires Inv(s) && c in s.calls && s.calls[c].phase == Blocked && !s.calls[c].cancelled && t1 != t2
    requires t1 in s.alarms && s.alarms[t1] == Alarm(c, Passed) && t2 in s.alarms && s.alarms[t2] == Alarm(c, InSet)
    ensures var u := Run(s, [Expire(t2), Lock(t2), Check(t2), Mark(t1), Mark(t2)]);
            && Inv(u) && c in u.calls && u.calls[c] == s.calls[c].(cancelled := true)
            && t1 in u.alarms && u.alarms[t1] == Alarm(c, Cancelling)
            && t2 in u.alarms && u.alarms[t2] == Alarm(c, Cancelling)
  {
    TimerComes(s, c, t2);
    var v := Then(Then(s, Expire(t2)), Lock(t2));
    CheckKeeps(v, t2);
    MarkKeeps(Then(v, Check(t2)), t1);
    MarkKeeps(Then(Then(v, Check(t2)), Mark(t1)), t2);
    Run5(s, Expire(t2), Lock(t2), Check(t2), Mark(t1), Mark(t2));
  }

  /** The callback has marked the call, readiness wakes it, it returns ETIMEDOUT; its cancelEvent is still to come. */
  lemma ReturnsBeforeCancel(s: Sys, c: nat, t: nat)
    requires Quiet(s, c) && s.calls[c].limited && t !in s.alarms
    ensures var k := s.calls[c];
            var steps := [Attempt(c, true, t), Register(c, true), Expire(t), Lock(t), Check(t), Mark(t),
                          ReadyFor(k.fd, k.e), Resume(c)];
            LeftAt(Run(s, steps), c, t, Returned(true), Cancelling)
  {
    var k := s.calls[c];
    BlocksAndHolds(s, c, t);
    var s4 := Then(Then(Then(Then(s, Attempt(c, true, t)), Register(c, true)), Expire(t)), Lock(t));
    Marks(s4, c, t);
    ReadyAndOn(Then(Then(s4, Check(t)), Mark(t)), c);
    Run8(s, Attempt(c, true, t), Register(c, true), Expire(t), Lock(t), Check(t), Mark(t), ReadyFor(k.fd, k.e),
         Resume(c));
  }

  /** One round of a call whose callback gets hold of the timer_info, and readiness in time all the same. */
  function HeldRound(k: Call, c: nat, t: nat): seq<Step> {
    [Attempt(c, true, t), Register(c, true), Expire(t), Lock(t), ReadyFor(k.fd, k.e), Resume(c)]
  }

  lemma RoundUnderHold(s: Sys, c: nat, t: nat)
    requires Quiet(s, c) && s.calls[c].limited && t !in s.alarms
    ensures var k, u := s.calls[c], Run(s, HeldRound(s.calls[c], c, t));
            && Inv(u) && c in u.calls && u.alarms == s.alarms[t := Alarm(c, Holding)]
            && u.calls[c].(timer := k.timer, regs := k.regs, wakes := k.wakes)
               == k.(phase := if k.retries then Trying else Returned(false))
            && R.Waiting(u.table, k.fd, k.e) == []
  {
    var k := s.calls[c];
    BlocksAndHolds(s, c, t);
    ReadyAndOn(Then(Then(Then(Then(s, Attempt(c, true, t)), Register(c, true)), Expire(t)), Lock(t)), c);
    Run6(s, Attempt(c, true, t), Register(c, true), Expire(t), Lock(t), ReadyFor(k.fd, k.e), Resume(c));
  }

  lemma LastAttempt(s: Sys, c: nat, t: nat)
    requires Inv(s) && c in s.calls && (s.calls[c].phase == Trying || s.calls[c].phase == Returned(false))
    ensures var u := Run(s, [Attempt(c, false, t)]);
            Inv(u) && u == s.(calls := s.calls[c := s.calls[c].(phase := Returned(false))])
  {
    RunCons(s, [Attempt(c, false, t)]);
    assert [Attempt(c, false, t)][1..] == [];
    if s.calls[c].phase == Trying {
      AttemptKeeps(s, c, false, t);
    } else {
      assert s.calls == s.calls[c := s.calls[c].(phase := Returned(false))];
    }
  }

  /** The callback has got hold of the timer_info, readiness wakes the call, and it returns without a timeout. */
  lemma ReturnsUnderHold(s: Sys, c: nat, t: nat)
    requires Quiet(s, c) && s.calls[c].limited && t !in s.alarms
    ensures LeftAt(Run(s, HeldRound(s.calls[c], c, t) + [Attempt(c, false, t)]), c, t, Returned(false), Holding)
  {
    RoundUnderHold(s, c, t);
    LastAttempt(Run(s, HeldRound(s.calls[c], c, t)), c, t);
    RunAppend(s, HeldRound(s.calls[c], c, t), [Attempt(c, false, t)]);
  }

  /**
   * A callback of an earlier round keeps the timer_info over the return, and so the timer of a later round that was
   * collected but has not got it by then still gets it.
   */
  lemma ReturnsWhileKept(s: Sys, c: nat, t1: nat, t2: nat)
    requires Quiet(s, c) && s.calls[c].limited && s.calls[c].retries && t1 !in s.alarms && t2 !in s.alarms && t1 != t2
    ensures var k := s.calls[c];
            var steps := HeldRound(k, c, t1)
                         + ([Attempt(c, true, t2), Register(c, true), Expire(t2), ReadyFor(k.fd, k.e), Resume(c)]
                            + [Attempt(c, false, t2)]);
            var u := Run(s, steps);
            && LeftAt(u, c, t1, Returned(false), Holding) && LeftAt(u, c, t2, Returned(false), Fired)
            && Kept(u, c) && EverActs(u, t2)
  {
    var k := s.calls[c];
    var one := HeldRound(k, c, t1);
    var two := [Attempt(c, true, t2), Register(c, true), Expire(t2), ReadyFor(k.fd, k.e), Resume(c)];
    RoundUnderHold(s, c, t1);
    RoundWithLateTimer(Run(s, one), c, t2);
    LastAttempt(Run(Run(s, one), two), c, t2);
    RunAppend(s, one, two + [Attempt(c, false, t2)]);
    RunAppend(Run(s, one), two, [Attempt(c, false, t2)]);
    var u := Run(Run(Run(s, one), two), [Attempt(c, false, t2)]);
    assert Keeps(u.alarms[t1], c);
    LeftoverActsIff(u, t2);
  }

  /** The call is over, nobody waits for what it waited for, and its callback is still under way. */
  ghost predicate LeftAt(s: Sys, c: nat, t: nat, phase: Phase, stage: Stage)
    requires phase.Returned?
  {
    && Inv(s) && c in s.calls && s.calls[c].phase == phase && s.calls[c].cancelled == phase.timedOut
    && t in s.alarms && s.alarms[t] == Alarm(c, stage) && R.Waiting(s.table, s.calls[c].fd, s.calls[c].e) == []
  }

  lemma NextCallBlocks(s: Sys, d: nat, t: nat, fd: nat, e: R.Event, retries: bool)
    requires Inv(s) && d !in s.calls && R.Waiting(s.table, fd, e) == []
    ensures var u := Then(Then(Then(s, Begin(d, fd, e, false, retries)), Attempt(d, true, t)), Register(d, true));
            && Inv(u) && u.alarms == s.alarms && R.Waiting(u.table, fd, e) == [Mine(d)]
            && u.calls == s.calls[d := Call(fd, e, false, retries, Blocked, false, None, 1, 0)]
  {
    var s1 := Then(s, Begin(d, fd, e, false, retries));
    StepKeeps(s, Begin(d, fd, e, false, retries));
    var s2 := Then(s1, Attempt(d, true, t));
    AttemptKeeps(s1, d, true, t);
    RegisterBlocks(s2, d);
  }

  /** The callback of a call that is over goes on to wake whoever blocks in its place. */
  lemma LateCallback(s: Sys, c: nat, t: nat, d: nat)
    requires Inv(s) && c in s.calls && s.calls[c].phase.Returned? && d != c && d in s.calls
    requires t in s.alarms && s.alarms[t].call == c && StillActs(s, t)
    requires R.Waiting(s.table, s.calls[c].fd, s.calls[c].e) == [Mine(d)]
    ensures var u := Then(Then(Then(Then(s, Lock(t)), Check(t)), Mark(t)), CancelIt(t, true));
            && Inv(u) && d in u.calls && u.calls[d] == s.calls[d].(phase := Woken, wakes := s.calls[d].wakes + 1)
            && c in u.calls && u.calls[c] == s.calls[c].(cancelled := true)
  {
    assert AlarmOk(s, t);
    UpToCancel(s, t);
    var w := Then(Then(Then(s, Lock(t)), Check(t)), Mark(t));
    CancelFair(w.table, w.calls[c].fd, w.calls[c].e, true);
    CancelItKeeps(w, t, true);
    CancelWakes(w, t, true, d);
    CancelWakes(w, t, true, c);
  }

  /**
   * After the return of its call, in any of the ways above, another call can block in its place. Every timer that still
   * acts by LeftoverActsIff then wakes that one although nothing is ready: do_io tries again, but connect_with_timeout
   * goes on as if connected.
   */
  lemma LateCancelHitsNextCall(s: Sys, c: nat, t: nat, d: nat, retries: bool)
    requires Inv(s) && c in s.calls && s.calls[c].phase.Returned? && d !in s.calls
             && R.Waiting(s.table, s.calls[c].fd, s.calls[c].e) == []
    requires t in s.alarms && s.alarms[t].call == c && EverActs(s, t)
    ensures var fd, e, next := s.calls[c].fd, s.calls[c].e, if retries then Trying else Returned(false);
            var u := Run(s, [Begin(d, fd, e, false, retries), Attempt(d, true, t), Register(d, true), Lock(t), Check(t),
                             Mark(t), CancelIt(t, true), Resume(d)]);
            && d in u.calls && u.calls[d] == Call(fd, e, false, retries, next, false, None, 1, 1)
            && c in u.calls && u.calls[c] == s.calls[c].(cancelled := true)
  {
    var fd, e := s.calls[c].fd, s.calls[c].e;
    LeftoverActsIff(s, t);
    NextCallBlocks(s, d, t, fd, e, retries);
    var s3 := Then(Then(Then(s, Begin(d, fd, e, false, retries)), Attempt(d, true, t)), Register(d, true));
    assert StillActs(s3, t);
    LateCallback(s3, c, t, d);
    Run8(s, Begin(d, fd, e, false, retries), Attempt(d, true, t), Register(d, true), Lock(t), Check(t), Mark(t),
         CancelIt(t, true), Resume(d));
  }
}
