/**
 * do_io and connect_with_timeout of myhttp/hook.cpp as the loops they are, over the shared timers and readiness table.
 * Each is proved to be a run of the transition system of HookIo.dfy, whatever the rest of the program does while it
 * holds.
 */
module HookCalls {
  import opened Bytes
  import opened HookIo
  import opened HookRuns
  import R = Readiness

  /** What the system call says: EINTR, EAGAIN (EINPROGRESS for connect), or anything else. */
  datatype Answer = Interrupted | Again | Got(n: int)

  /**
   * One round: the answers until one is not EINTR, the address of the timer, epoll_ctl, and what others do meanwhile.
   */
  datatype Round = Round(answers: seq<Answer>, timer: nat, ctl: bool, others: seq<Step>)

  /**
   * What the caller sees. Crashed is addEvent's assertion, the direction is taken. Asleep: the rounds that are given
   * end before the call does.
   */
  datatype Result = Value(n: int) | Refused | TimedOut | Crashed | Asleep
  {
    predicate IsReturn() {
      Value? || Refused? || TimedOut?
    }
  }

  /** The call is over, it waits nowhere in the table and none of its timers is in the set. */
  ghost predicate Clean(s: Sys, c: nat) {
    && c in s.calls && s.calls[c].phase.Returned? && s.calls[c].regs == s.calls[c].wakes
    && (forall fd: nat, e :: Mine(c) !in R.Waiting(s.table, fd, e))
    && (forall t :: t in s.alarms && s.alarms[t].call == c ==> s.alarms[t].stage != InSet)
  }

  lemma ReturnedIsClean(s: Sys, c: nat)
    requires Inv(s) && c in s.calls && s.calls[c].phase.Returned?
    ensures Clean(s, c)
  {
    assert CallOk(s, c);
    forall fd: nat, e
      ensures Mine(c) !in R.Waiting(s.table, fd, e)
    {
      NotArmedNotWaiting(s.table, fd, e, Mine(c));
    }
    forall t | t in s.alarms && s.alarms[t].call == c
      ensures s.alarms[t].stage != InSet
    {
      assert AlarmOk(s, t);
    }
  }

  /** What others do is nothing this fiber would have to do itself. */
  predicate NotBy(c: nat, steps: seq<Step>) {
    forall i :: 0 <= i < |steps| ==> !Own(c, steps[i])
  }

  predicate Own(c: nat, s: Step) {
    match s
    case Attempt(d, _, _) => d == c
    case Register(d, _) => d == c
    case Resume(d) => d == c
    case _ => false
  }

  /** The answer after the interrupted ones. */
  function Final(answers: seq<Answer>): (a: Answer)
    ensures !a.Interrupted?
  {
    if answers == [] then Again else if answers[0].Interrupted? then Final(answers[1..]) else answers[0]
  }

  predicate SameCall(k: Call, l: Call) {
    k.fd == l.fd && k.e == l.e && k.limited == l.limited && k.retries == l.retries
  }

  /** Nobody else moves a call on except by waking it. */
  lemma {:induction false} OthersOnlyWake(s: Sys, c: nat, steps: seq<Step>)
    requires Inv(s) && c in s.calls && NotBy(c, steps)
    ensures var u := Run(s, steps);
            && Inv(u) && c in u.calls
            && SameCall(u.calls[c], s.calls[c])
            && (u.calls[c].phase == s.calls[c].phase || u.calls[c].phase == Woken)
    decreases |steps|
  {
    if steps != [] {
      assert !Own(c, steps[0]);
      RunCons(s, steps);
      OtherStep(s, c, steps[0]);
      OthersOnlyWake(Then(s, steps[0]), c, steps[1..]);
    }
  }

  lemma OtherStep(s: Sys, c: nat, step: Step)
    requires Inv(s) && c in s.calls && !Own(c, step)
    ensures var u := Then(s, step);
            && Inv(u) && c in u.calls
            && SameCall(u.calls[c], s.calls[c])
            && (u.calls[c].phase == s.calls[c].phase || u.calls[c].phase == Woken)
  {
    if Do(s, step).Some? {
      StepKeeps(s, step);
      match step
      case CancelIt(t, ctl) =>
        var k := s.calls[s.alarms[t].call];
        WakeSpec(s.calls, R.CancelEvent(s.table, k.fd, k.e, ctl).sent, c);
      case Others(call) =>
        WakeSpec(s.calls, R.Apply(s.table, call).sent, c);
      case _ =>
    }
  }

  class Hook {
    var calls: map<nat, Call>
    var alarms: map<nat, Alarm>
    var table: R.Table

    function State(): Sys
      reads this
    {
      Sys(calls, alarms, table)
    }

    constructor ()
      ensures State() == HookRuns.Start
    {
      calls, alarms, table := map[], map[], R.Init();
    }

    /** The system call and its loop over EINTR. */
    method Try(answers: seq<Answer>) returns (a: Answer)
      ensures a == Final(answers)
    {
      var i := 0;
      while i < |answers| && answers[i].Interrupted?
        invariant i <= |answers| && Final(answers) == Final(answers[i..])
      {
        assert answers[i..][1..] == answers[i + 1..];
        i := i + 1;
      }
      return if i < |answers| then answers[i] else Again;
    }

    method Cancel(timer: Option<nat>)
      modifies `alarms
      ensures alarms == CancelTimer(old(alarms), timer)
    {
      if timer.Some? && timer.value in alarms && alarms[timer.value].stage == InSet {
        alarms := alarms[timer.value := alarms[timer.value].(stage := Gone)];
      }
    }

    /** The rest of the program runs until this fiber does again. */
    method YieldToHold(others: seq<Step>)
      modifies this
      ensures State() == Run(old(State()), others)
    {
      var s := Run(State(), others);
      calls, alarms, table := s.calls, s.alarms, s.table;
    }

    method Arm(c: nat, t: nat)
      requires Inv(State()) && c in calls && calls[c].phase == Trying && (calls[c].limited ==> t !in alarms)
      modifies `calls, `alarms
      ensures State() == Then(old(State()), Attempt(c, true, t)) && Inv(State())
      ensures c in calls && calls[c].phase == Timed && SameCall(calls[c], old(calls[c]))
    {
      AttemptKeeps(State(), c, true, t);
      var timer := None;
      if calls[c].limited {
        timer := Some(t);
        alarms := alarms[t := Alarm(c, InSet)];
      }
      calls := calls[c := calls[c].(phase := Timed, timer := timer)];
    }

    /** addEvent; when it fails the timer is taken back and the call is over. */
    method Register(c: nat, ctl: bool) returns (ok: bool)
      requires Inv(State()) && c in calls && calls[c].phase == Timed && R.Waiting(table, calls[c].fd, calls[c].e) == []
      modifies this
      ensures State() == Then(old(State()), HookIo.Register(c, ctl)) && Inv(State())
      ensures c in calls && calls[c].phase == (if ok then Blocked else Returned(false))
              && SameCall(calls[c], old(calls[c]))
    {
      var k := calls[c];
      R.AddSpec(table, k.fd, k.e, None, c, SELF, ctl);
      RegisterKeeps(State(), c, ctl);
      var o := R.AddEvent(table, k.fd, k.e, None, c, SELF, ctl);
      table := o.table;
      ok := o.yes;
      if ok {
        calls := calls[c := k.(phase := Blocked, regs := k.regs + 1)];
      } else {
        Cancel(k.timer);
        calls := calls[c := k.(phase := Returned(false))];
      }
    }

    /** Back from the yield: the timer is taken back, and the mark decides. */
    method Back(c: nat) returns (timedOut: bool)
      requires Inv(State()) && c in calls && calls[c].phase == Woken
      modifies this
      ensures State() == Then(old(State()), Resume(c)) && Inv(State())
      ensures timedOut == old(calls[c].cancelled) && c in calls && SameCall(calls[c], old(calls[c]))
              && calls[c].cancelled == timedOut
      ensures calls[c].phase
           == if timedOut then Returned(true) else if old(calls[c].retries) then Trying else Returned(false)
    {
      var k := calls[c];
      ResumeKeeps(State(), c);
      Cancel(k.timer);
      timedOut := k.cancelled;
      var next := if timedOut then Returned(true) else if k.retries then Trying else Returned(false);
      calls := calls[c := k.(phase := next)];
    }

    /** One wait: the loop goes on, or the call is over. */
    method Wait(c: nat, r: Round) returns (again: bool, result: Result, ghost steps: seq<Step>)
      requires Inv(State()) && c in calls && calls[c].phase == Trying && NotBy(c, r.others)
      modifies this
      ensures Inv(State()) && State() == Run(old(State()), steps) && c in calls
      ensures SameCall(calls[c], old(calls[c]))
      ensures again ==> calls[c].phase == if calls[c].retries then Trying else Returned(false)
      ensures !again && result.IsReturn() ==>
                calls[c].phase == Returned(result.TimedOut?) && !result.Value?
                  && (result.TimedOut? ==> calls[c].cancelled)
    {
      ghost var s0 := State();
      again, result, steps := false, Asleep, [];
      if calls[c].limited && r.timer in alarms {
        return;
      }
      if R.Waiting(table, calls[c].fd, calls[c].e) != [] {
        return false, Crashed, [];
      }
      Arm(c, r.timer);
      var ok := Register(c, r.ctl);
      steps := [Attempt(c, true, r.timer), HookIo.Register(c, r.ctl)];
      RunTwo(s0, Attempt(c, true, r.timer), HookIo.Register(c, r.ctl));
      if !ok {
        return false, Refused, steps;
      }
      OthersOnlyWake(State(), c, r.others);
      YieldToHold(r.others);
      RunAppend(s0, steps, r.others);
      steps := steps + r.others;
      if calls[c].phase != Woken {
        return;
      }
      RunOne(s0, steps, Resume(c));
      steps := steps + [Resume(c)];
      var timedOut := Back(c);
      again := !timedOut;
      result := TimedOut;
    }

    /** do_io; `steps` is the run it and the others make together. */
    method DoIo(c: nat, fd: nat, e: R.Event, limited: bool, rounds: seq<Round>)
      returns (r: Result, ghost steps: seq<Step>)
      requires Inv(State()) && c !in calls && forall i :: 0 <= i < |rounds| ==> NotBy(c, rounds[i].others)
      modifies this
      ensures Inv(State()) && State() == Run(old(State()), steps)
      ensures r.IsReturn() ==> Clean(State(), c) && calls[c].phase == Returned(r.TimedOut?)
      ensures r.TimedOut? ==> limited && calls[c].cancelled
      ensures r.Value? ==> exists i :: 0 <= i < |rounds| && Final(rounds[i].answers) == Got(r.n)
    {
      ghost var s0 := State();
      steps := [Begin(c, fd, e, limited, true)];
      RunCons(s0, steps);
      StepKeeps(s0, steps[0]);
      calls := calls[c := Call(fd, e, limited, true, Trying, false, None, 0, 0)];
      var i := 0;
      while i < |rounds|
        invariant i <= |rounds| && Inv(State()) && State() == Run(s0, steps) && c in calls
        invariant calls[c].phase == Trying && calls[c].limited == limited && calls[c].retries
      {
        var a := Try(rounds[i].answers);
        if a.Got? {
          RunOne(s0, steps, Attempt(c, false, i));
          AttemptKeeps(State(), c, false, i);
          steps := steps + [Attempt(c, false, i)];
          calls := calls[c := calls[c].(phase := Returned(false))];
          ReturnedIsClean(State(), c);
          return Value(a.n), steps;
        }
        var again;
        ghost var more;
        again, r, more := Wait(c, rounds[i]);
        RunAppend(s0, steps, more);
        steps := steps + more;
        if !again {
          if r.IsReturn() {
            ReturnedIsClean(State(), c);
            assert CallOk(State(), c);
          }
          return r, steps;
        }
        i := i + 1;
      }
      return Asleep, steps;
    }

    /**
     * connect_with_timeout: connect is called once, and whatever it says but EINPROGRESS is the result, EINTR too.
     * After a wake-up, as after a refused registration, it goes by the socket's error; None is a failing getsockopt.
     */
    method ConnectWithTimeout(c: nat, fd: nat, limited: bool, answer: Answer, round: Round, soError: Option<int>)
      returns (r: Result, ghost steps: seq<Step>)
      requires Inv(State()) && c !in calls && NotBy(c, round.others)
      modifies this
      ensures Inv(State()) && State() == Run(old(State()), steps)
      ensures r.IsReturn() ==> Clean(State(), c) && calls[c].phase == Returned(r.TimedOut?)
      ensures r.TimedOut? ==> limited && calls[c].cancelled
      ensures match answer
              case Got(n) => r == Value(n)
              case Interrupted => r == Value(-1)
              case Again => r.Value? ==> r.n == if soError == Some(0) then 0 else -1
      ensures !r.Refused?
    {
      ghost var s0 := State();
      steps := [Begin(c, fd, R.WRITE, limited, false)];
      RunCons(s0, steps);
      StepKeeps(s0, steps[0]);
      calls := calls[c := Call(fd, R.WRITE, limited, false, Trying, false, None, 0, 0)];
      if answer != Again {
        RunOne(s0, steps, Attempt(c, false, c));
        AttemptKeeps(State(), c, false, c);
        steps := steps + [Attempt(c, false, c)];
        calls := calls[c := calls[c].(phase := Returned(false))];
        ReturnedIsClean(State(), c);
        return Value(if answer.Got? then answer.n else -1), steps;
      }
      var again;
      ghost var more;
      again, r, more := Wait(c, round);
      RunAppend(s0, steps, more);
      steps := steps + more;
      if again || r.Refused? {
        r := Value(if soError == Some(0) then 0 else -1);
      }
      if r.IsReturn() {
        ReturnedIsClean(State(), c);
        assert CallOk(State(), c);
      }
    }
  }
}
