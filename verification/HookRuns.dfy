/** What waiting with a timeout guarantees over whole runs, and what it does not. */
module HookRuns {
  import opened Bytes
  import opened Sequences
  import opened HookIo
  import R = Readiness

  // ---------- runs ----------

  const Start: Sys := Sys(map[], map[], R.Init())

  lemma StartKeeps()
    ensures Inv(Start)
  {
    R.InitOk();
  }

  /** A step that is not possible where it is tried is passed over. */
  function Run(s: Sys, steps: seq<Step>): Sys
    decreases |steps|
  {
    if steps == [] then s
    else
      match Do(s, steps[0])
      case None => Run(s, steps[1..])
      case Some(u) => Run(u, steps[1..])
  }

  function Then(s: Sys, step: Step): Sys {
    match Do(s, step)
    case None => s
    case Some(u) => u
  }

  lemma Run4(s: Sys, a: Step, b: Step, c: Step, d: Step)
    ensures Run(s, [a, b, c, d]) == Then(Then(Then(Then(s, a), b), c), d)
  {
    assert [a, b, c, d][1..] == [b, c, d] && [b, c, d][1..] == [c, d] && [c, d][1..] == [d] && [d][1..] == [];
    RunCons(s, [a, b, c, d]);
    RunCons(Then(s, a), [b, c, d]);
    RunCons(Then(Then(s, a), b), [c, d]);
    RunCons(Then(Then(Then(s, a), b), c), [d]);
  }

  lemma {:induction false} RunCons(s: Sys, steps: seq<Step>)
    requires steps != []
    ensures Run(s, steps) == Run(Then(s, steps[0]), steps[1..])
  {
  }

  lemma {:induction false} RunAppend(s: Sys, a: seq<Step>, b: seq<Step>)
    ensures Run(s, a + b) == Run(Run(s, a), b)
    decreases |a|
  {
    if a == [] {
      assert a + b == b;
    } else {
      assert (a + b)[0] == a[0] && (a + b)[1..] == a[1..] + b;
      RunCons(s, a + b);
      RunCons(s, a);
      RunAppend(Then(s, a[0]), a[1..], b);
    }
  }

  lemma RunOne(s: Sys, steps: seq<Step>, step: Step)
    ensures Run(s, steps + [step]) == Then(Run(s, steps), step)
  {
    RunAppend(s, steps, [step]);
    RunCons(Run(s, steps), [step]);
    assert [step][1..] == [];
  }

  lemma RunTwo(s: Sys, a: Step, b: Step)
    ensures Run(s, [a, b]) == Then(Then(s, a), b)
  {
    RunOne(s, [a], b);
    RunCons(s, [a]);
    assert [a] + [b] == [a, b] && [a][1..] == [];
  }

  lemma Run5(s: Sys, a: Step, b: Step, c: Step, d: Step, e: Step)
    ensures Run(s, [a, b, c, d, e]) == Then(Then(Then(Then(Then(s, a), b), c), d), e)
  {
    assert [a, b, c, d, e][1..] == [b, c, d, e];
    RunCons(s, [a, b, c, d, e]);
    Run4(Then(s, a), b, c, d, e);
  }

  lemma Run6(s: Sys, a: Step, b: Step, c: Step, d: Step, e: Step, f: Step)
    ensures Run(s, [a, b, c, d, e, f]) == Then(Then(Then(Then(Then(Then(s, a), b), c), d), e), f)
  {
    assert [a, b, c, d, e, f][1..] == [b, c, d, e, f];
    RunCons(s, [a, b, c, d, e, f]);
    Run5(Then(s, a), b, c, d, e, f);
  }

  lemma Run7(s: Sys, a: Step, b: Step, c: Step, d: Step, e: Step, f: Step, g: Step)
    ensures Run(s, [a, b, c, d, e, f, g]) == Then(Then(Then(Then(Then(Then(Then(s, a), b), c), d), e), f), g)
  {
    assert [a, b, c, d, e, f, g][1..] == [b, c, d, e, f, g];
    RunCons(s, [a, b, c, d, e, f, g]);
    Run6(Then(s, a), b, c, d, e, f, g);
  }

  lemma Run8(s: Sys, a: Step, b: Step, c: Step, d: Step, e: Step, f: Step, g: Step, h: Step)
    ensures Run(s, [a, b, c, d, e, f, g, h])
         == Then(Then(Then(Then(Then(Then(Then(Then(s, a), b), c), d), e), f), g), h)
  {
    assert [a, b, c, d, e, f, g, h][1..] == [b, c, d, e, f, g, h];
    RunCons(s, [a, b, c, d, e, f, g, h]);
    Run7(Then(s, a), b, c, d, e, f, g, h);
  }

  lemma {:induction false} RunKeeps(s: Sys, steps: seq<Step>)
    requires Inv(s)
    ensures Inv(Run(s, steps))
    decreases |steps|
  {
    if steps != [] {
      if Do(s, steps[0]).Some? {
        StepKeeps(s, steps[0]);
        RunKeeps(Do(s, steps[0]).value, steps[1..]);
      } else {
        RunKeeps(s, steps[1..]);
      }
    }
  }

  /**
   * Over every run, each registration wakes its fiber exactly once, whether readiness, the timer or a close comes
   * first.
   */
  lemma EachRegistrationWakesOnce(steps: seq<Step>, c: nat)
    requires c in Run(Start, steps).calls
    ensures var s := Run(Start, steps);
            var k := s.calls[c];
            if k.phase.Blocked? then
              k.regs == k.wakes + 1 && R.Waiting(s.table, k.fd, k.e) == [Mine(c)] && R.Armed(s.table.ctxs, Mine(c)) == 1
            else
              k.regs == k.wakes && R.Armed(s.table.ctxs, Mine(c)) == 0
  {
    StartKeeps();
    RunKeeps(Start, steps);
    assert CallOk(Run(Start, steps), c);
  }

  /** On every return the call waits nowhere in the table, and none of its timers is in the set. */
  lemma NothingLeftOnReturn(steps: seq<Step>, c: nat)
    requires c in Run(Start, steps).calls && Run(Start, steps).calls[c].phase.Returned?
    ensures var s := Run(Start, steps);
            && (forall fd: nat, e :: Mine(c) !in R.Waiting(s.table, fd, e))
            && (forall t :: t in s.alarms && s.alarms[t].call == c ==> s.alarms[t].stage != InSet)
  {
    var s := Run(Start, steps);
    StartKeeps();
    RunKeeps(Start, steps);
    assert CallOk(s, c);
    forall fd: nat, e
      ensures Mine(c) !in R.Waiting(s.table, fd, e)
    {
      NotArmedNotWaiting(s.table, fd, e, Mine(c));
    }
    forall t | t in s.alarms && s.alarms[t].call == c
      ensures s.alarms[t].stage != InSet
    {
      assert AlarmOk(s, t);
    }
  }

  lemma {:induction false} HeldIsArmed(ctxs: seq<R.FdContext>, fd: nat, task: R.Task)
    requires fd < |ctxs|
    ensures R.HeldBy(ctxs[fd], task) <= R.Armed(ctxs, task)
    decreases fd
  {
    if fd > 0 {
      HeldIsArmed(ctxs[1..], fd - 1, task);
    }
  }

  lemma NotArmedNotWaiting(t: R.Table, fd: nat, e: R.Event, task: R.Task)
    requires R.Armed(t.ctxs, task) == 0
    ensures task !in R.Waiting(t, fd, e)
  {
    if fd < |t.ctxs| {
      HeldIsArmed(t.ctxs, fd, task);
    }
  }

  // ---------- the race of the timer with the call ----------

  /** The four steps of the callback with nothing between them. */
  function Callback(s: Sys, t: nat, ctl: bool): Sys {
    Then(Then(Then(Then(s, Lock(t)), Check(t)), Mark(t)), CancelIt(t, ctl))
  }

  /** The callback is going to find the timer_info there and not marked. */
  predicate Takes(s: Sys, c: nat)
    requires c in s.calls
  {
    Live(s, c) && !s.calls[c].cancelled
  }

  /** Up to its cancelEvent such a callback only marks the call; any other leaves all calls alone. */
  lemma CallbackMarks(s: Sys, t: nat)
    requires Inv(s) && t in s.alarms && s.alarms[t].stage == Fired && s.alarms[t].call in s.calls
    ensures var c, u := s.alarms[t].call, Then(Then(Then(s, Lock(t)), Check(t)), Mark(t));
            && Inv(u) && u.table == s.table && t in u.alarms && u.alarms[t].call == c
            && u.alarms[t].stage == (if Takes(s, c) then Cancelling else Gone)
            && u.calls == if Takes(s, c) then s.calls[c := s.calls[c].(cancelled := true)] else s.calls
  {
    var c := s.alarms[t].call;
    LockKeeps(s, t);
    var v := Then(s, Lock(t));
    if Live(s, c) {
      CheckKeeps(v, t);
      if !s.calls[c].cancelled {
        MarkKeeps(Then(v, Check(t)), t);
      }
    }
  }

  /**
   * A callback with nothing between its steps does something exactly if its call has not returned, or another callback
   * keeps the timer_info of the call, and nobody has marked it. It then marks its call, and if the kernel agrees it
   * wakes whoever is blocked on the same direction of the same descriptor, and nobody else.
   */
  lemma CallbackHitsIff(s: Sys, t: nat, ctl: bool, d: nat)
    requires Inv(s) && t in s.alarms && s.alarms[t].stage == Fired && d in s.calls && s.alarms[t].call in s.calls
    ensures var c, u := s.alarms[t].call, Callback(s, t, ctl);
            var hit := Takes(s, c) && ctl && s.calls[d].phase.Blocked?
                       && s.calls[d].fd == s.calls[c].fd && s.calls[d].e == s.calls[c].e;
            && d in u.calls
            && u.calls[d].wakes == s.calls[d].wakes + One(hit)
            && u.calls[d].phase == (if hit then Woken else s.calls[d].phase)
            && u.calls[d].cancelled == (s.calls[d].cancelled || (d == c && Takes(s, c)))
  {
    var c := s.alarms[t].call;
    CallbackMarks(s, t);
    if Takes(s, c) {
      var u := Then(Then(Then(s, Lock(t)), Check(t)), Mark(t));
      CancelFair(u.table, u.calls[c].fd, u.calls[c].e, ctl);
      CancelWakes(u, t, ctl, d);
      LateCancelHitsIff(u, t, ctl, d);
    }
  }

  /** No other call that has not returned is about the same direction of the same descriptor. */
  ghost predicate Alone(s: Sys, c: nat)
    requires c in s.calls
  {
    forall d :: d in s.calls && d != c && s.calls[d].fd == s.calls[c].fd && s.calls[d].e == s.calls[c].e ==>
                  s.calls[d].phase.Returned?
  }

  /**
   * So it touches no call but its own if that one is alone in its place, or has returned and is kept by no callback.
   */
  lemma CallbackHitsItsOwn(s: Sys, t: nat, ctl: bool, d: nat)
    requires Inv(s) && t in s.alarms && s.alarms[t].stage == Fired && d in s.calls && s.alarms[t].call in s.calls
    requires !Live(s, s.alarms[t].call) || Alone(s, s.alarms[t].call)
    ensures var c, u := s.alarms[t].call, Callback(s, t, ctl);
            && d in u.calls
            && (d != c ==> u.calls[d] == s.calls[d])
            && (d == c ==>
                  (u.calls[d].wakes == s.calls[d].wakes + 1 <==>
                    s.calls[d].phase.Blocked? && !s.calls[d].cancelled && ctl))
            && (d == c ==> u.calls[d].cancelled == (s.calls[d].cancelled || Live(s, c)))
  {
    var c := s.alarms[t].call;
    CallbackHitsIff(s, t, ctl, d);
    CallbackMarks(s, t);
    if Takes(s, c) && d != c {
      var u := Then(Then(Then(s, Lock(t)), Check(t)), Mark(t));
      CancelFair(u.table, u.calls[c].fd, u.calls[c].e, ctl);
      CancelWakes(u, t, ctl, d);
      LateCancelHitsIff(u, t, ctl, d);
    }
  }

  /** Who waits in a slot is a call that is blocked on it. */
  lemma WaiterIsBlocked(s: Sys, d: nat, fd: nat, e: R.Event)
    requires Inv(s) && d in s.calls && R.Waiting(s.table, fd, e) == [Mine(d)]
    ensures s.calls[d].phase.Blocked? && s.calls[d].fd == fd && s.calls[d].e == e
  {
    assert CallOk(s, d);
    assert Mine(d) in R.Waiting(s.table, fd, e);
    if R.Armed(s.table.ctxs, Mine(d)) == 0 {
      NotArmedNotWaiting(s.table, fd, e, Mine(d));
    }
    OneSlot(s.table, fd, e, s.calls[d].fd, s.calls[d].e, Mine(d));
  }

  lemma {:induction false} TwoHeld(ctxs: seq<R.FdContext>, a: nat, b: nat, task: R.Task)
    requires a < b < |ctxs|
    ensures R.HeldBy(ctxs[a], task) + R.HeldBy(ctxs[b], task) <= R.Armed(ctxs, task)
    decreases a
  {
    if a > 0 {
      TwoHeld(ctxs[1..], a - 1, b - 1, task);
    } else {
      HeldIsArmed(ctxs[1..], b - 1, task);
    }
  }

  /** A task that is armed once waits in one slot. */
  lemma OneSlot(t: R.Table, fd: nat, e: R.Event, fd': nat, e': R.Event, task: R.Task)
    requires R.Armed(t.ctxs, task) <= 1 && R.Waiting(t, fd, e) == [task] && R.Waiting(t, fd', e') == [task]
    ensures fd == fd' && e == e'
  {
    HeldIsArmed(t.ctxs, fd, task);
    if fd < fd' {
      TwoHeld(t.ctxs, fd, fd', task);
    } else if fd' < fd {
      TwoHeld(t.ctxs, fd', fd, task);
    }
  }

  /** cancelEvent in the callback wakes whoever waits in the slot. */
  lemma CancelWakes(s: Sys, t: nat, ctl: bool, d: nat)
    requires Inv(s) && DoCancelIt(s, t, ctl).Some? && d in s.calls
    ensures var k := s.calls[s.alarms[t].call];
            DoCancelIt(s, t, ctl).value.calls[d]
            == if ctl && R.Waiting(s.table, k.fd, k.e) == [Mine(d)]
              then s.calls[d].(phase := Woken, wakes := s.calls[d].wakes + 1) else s.calls[d]
  {
    var k := s.calls[s.alarms[t].call];
    R.CancelSpec(s.table, k.fd, k.e, ctl);
    var o := R.CancelEvent(s.table, k.fd, k.e, ctl);
    WakeSpec(s.calls, o.sent, d);
    OneTask(o.sent, Mine(d));
  }

  lemma OneTask(sent: seq<R.Task>, task: R.Task)
    requires |sent| <= 1
    ensures R.Times(sent, task) == One(sent == [task])
  {
    if sent != [] {
      assert sent == [sent[0]] && sent[1..] == [];
    }
  }

  /**
   * With steps in between, its cancelEvent can wake another call: exactly one that is blocked on the same direction.
   */
  lemma LateCancelHitsIff(s: Sys, t: nat, ctl: bool, d: nat)
    requires Inv(s) && DoCancelIt(s, t, ctl).Some? && d in s.calls
    ensures var k := s.calls[s.alarms[t].call];
            DoCancelIt(s, t, ctl).value.calls[d] != s.calls[d] <==>
            ctl && s.calls[d].phase.Blocked? && s.calls[d].fd == k.fd && s.calls[d].e == k.e
  {
    CancelWakes(s, t, ctl, d);
    var k := s.calls[s.alarms[t].call];
    assert CallOk(s, d);
    if R.Waiting(s.table, k.fd, k.e) == [Mine(d)] {
      WaiterIsBlocked(s, d, k.fd, k.e);
    }
  }
}
