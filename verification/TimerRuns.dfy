/** What the timer set guarantees over whole runs of its operations. */
module TimerRuns {
  import opened Bytes
  import opened Sequences
  import opened Timers

  /** The set is in order, and a timer created with a callback is in it exactly as long as the callback is there. */
  ghost predicate Inv(s: State) {
    && Known(s.all, s.queue) && Sorted(s.all, s.queue)
    && (forall id :: id in s.all && s.all[id].born ==> (id in s.queue <==> s.all[id].cb.Some?))
    && (forall id :: id in s.all && !s.all[id].born ==> s.all[id].cb.None?)
    && (forall id :: id in s.all ==> s.all[id].ms <= s.all[id].next)
  }

  datatype Op =
    | AddOp(id: nat, ms: nat, cb: Option<nat>, recurring: bool, now: nat)
    | CancelOp(id: nat)
    | RefreshOp(id: nat, now: nat)
    | ResetOp(id: nat, looked: nat, ms: nat, fromNow: bool, now: nat)
    | NextOp(now: nat)
    | DrainOp(now: nat, probe: nat)

  /**
   * A new timer is at an address that no timer in the set has, be it that of a timer that is gone; the others are
   * called on published timers.
   */
  predicate Enabled(s: State, op: Op) {
    match op
    case AddOp(id, _, _, _, _) => id !in s.queue
    case CancelOp(id) => id in s.all
    case RefreshOp(id, _) => id in s.all
    case ResetOp(id, _, _, _, _) => id in s.all
    case NextOp(_) => true
    case DrainOp(now, _) => !LooksAtEnd(s, now)
  }

  /** What one operation does and answers: `front` is a call of onTimerInsertedAtFront, `taken` the timers collected. */
  datatype Effect = Effect(state: State, yes: bool, front: bool, taken: seq<nat>)

  ghost function Step(s: State, op: Op): (e: Effect)
    requires Inv(s) && Enabled(s, op)
  {
    match op
    case AddOp(id, ms, cb, recurring, now) =>
      var (u, front) := Add(s, id, ms, cb, recurring, now);
      Effect(u, true, front, [])
    case CancelOp(id) =>
      CancelFinds(s, id);
      var Answer(u, yes) := Cancel(s, id);
      Effect(u, yes, false, [])
    case RefreshOp(id, now) =>
      var (u, yes) := Refresh(s, id, now);
      Effect(u, yes, false, [])
    case ResetOp(id, looked, ms, fromNow, now) =>
      var (u, yes, front) := Reset(s, id, looked, ms, fromNow, now);
      Effect(u, yes, front, [])
    case NextOp(now) =>
      Effect(GetNext(s, now).0, true, false, [])
    case DrainOp(now, probe) =>
      Effect(Drain(s, now, probe).0, true, false, s.queue[..Taken(s, now, probe)])
  }

  /**
   * cancel's lookup always finds the timer, so it never erases the end iterator; it says yes exactly for a live one.
   */
  lemma CancelFinds(s: State, id: nat)
    requires Inv(s) && id in s.all
    ensures Cancel(s, id).Answer?
    ensures Cancel(s, id).yes <==> s.all[id].cb.Some?
    ensures Cancel(s, id).yes ==> id in s.queue && id !in Cancel(s, id).state.queue
  {
    FindsIffMember(s.all, s.queue, id);
    if s.all[id].cb.Some? {
      EraseKeepsSorted(s.all, s.queue, id);
    }
  }

  // ---------- the drain ----------

  /** The probe splits a sorted set at its deadline. */
  lemma {:induction false} DueSplits(all: map<nat, Timer>, queue: seq<nat>, now: nat, probe: nat)
    requires Known(all, queue) && Sorted(all, queue)
    ensures var k := DueCount(all, queue, now, probe);
            && (forall i :: 0 <= i < k ==> all[queue[i]].next <= now)
            && (forall i :: k <= i < |queue| ==> all[queue[i]].next >= now)
    decreases |queue|
  {
    if queue != [] {
      DueSplits(all, queue[1..], now, probe);
      assert forall i :: 1 <= i < |queue| ==> queue[i] == queue[1..][i - 1];
    }
  }

  ghost predicate Distinct(ids: seq<nat>) {
    forall i, j :: 0 <= i < j < |ids| ==> ids[i] != ids[j]
  }

  /** What the collecting loop leaves of a timer. */
  function Collected(t: Timer, now: nat): Timer {
    if t.recurring then t.(next := now + t.ms) else t.(cb := None)
  }

  ghost predicate CollectsWell(all: map<nat, Timer>, queue: seq<nat>, expired: seq<nat>, now: nat)
    requires Known(all, queue) && Known(all, expired)
  {
    var (a, q, cbs) := Collect(all, queue, expired, now);
    && Sorted(a, q)
    && (forall id :: id in all ==> a[id] == if id in expired then Collected(all[id], now) else all[id])
    && (forall id :: id in q <==> id in queue || (id in expired && all[id].recurring))
    && |cbs| == |expired| && forall i :: 0 <= i < |cbs| ==> cbs[i] == all[expired[i]].cb
  }

  /** One turn of the collecting loop leaves the rest of the expired timers outside a sorted set. */
  lemma CollectTurn(all: map<nat, Timer>, queue: seq<nat>, expired: seq<nat>, now: nat)
    requires Known(all, queue) && Known(all, expired) && Sorted(all, queue) && expired != []
    requires Distinct(expired) && forall id :: id in expired ==> id !in queue
    ensures var id, rest := expired[0], expired[1..];
            var all' := all[id := Collected(all[id], now)];
            && Known(all', queue)
            && var queue' := if all[id].recurring then Insert(all', queue, id) else queue;
               && Known(all', queue') && Sorted(all', queue') && Known(all', rest) && Distinct(rest) && id !in rest
               && (forall x :: x in rest ==> x !in queue')
               && (forall x :: x in queue' <==> x in queue || (x == id && all[id].recurring))
               && (forall x :: x in expired <==> x == id || x in rest)
  {
    var id, rest := expired[0], expired[1..];
    assert id in expired;
    assert forall x :: x in rest ==> x in expired;
    OthersStaySorted(all, queue, id, Collected(all[id], now));
    if all[id].recurring {
      InsertKeepsSorted(all[id := Collected(all[id], now)], queue, id);
    }
  }

  lemma {:induction false} CollectWorks(all: map<nat, Timer>, queue: seq<nat>, expired: seq<nat>, now: nat)
    requires Known(all, queue) && Known(all, expired) && Sorted(all, queue)
    requires Distinct(expired) && forall id :: id in expired ==> id !in queue
    ensures CollectsWell(all, queue, expired, now)
    decreases |expired|
  {
    if expired != [] {
      var id, rest := expired[0], expired[1..];
      CollectTurn(all, queue, expired, now);
      var all' := all[id := Collected(all[id], now)];
      var queue' := if all[id].recurring then Insert(all', queue, id) else queue;
      CollectWorks(all', queue', rest, now);
      var r := Collect(all', queue', rest, now);
      var cbs := [all[id].cb] + r.2;
      assert Collect(all, queue, expired, now) == (r.0, r.1, cbs);
      forall i | 0 <= i < |expired|
        ensures cbs[i] == all[expired[i]].cb
      {
        assert i > 0 ==> expired[i] == rest[i - 1];
      }
    }
  }

  /** The front of a sorted set and its rest have no timer in common. */
  lemma SplitSet(s: State, k: nat)
    requires Inv(s) && k <= |s.queue|
    ensures Known(s.all, s.queue[..k]) && Known(s.all, s.queue[k..]) && Sorted(s.all, s.queue[k..])
    ensures Distinct(s.queue[..k]) && forall id :: id in s.queue[..k] ==> id !in s.queue[k..]
    ensures forall id :: id in s.queue <==> id in s.queue[..k] || id in s.queue[k..]
  {
    assert forall i, j :: 0 <= i < j < |s.queue| ==> Before(s.all, s.queue[i], s.queue[j]) && s.queue[i] != s.queue[j];
    assert s.queue == s.queue[..k] + s.queue[k..];
  }

  /**
   * Drain exactness. Without a rollover a drain takes a prefix of the deadline order that holds every timer due before
   * `now` and none due after; with one it takes all. It hands out the taken timers' callbacks in that order. Recurring
   * timers are back in the set, due at now + ms; one-shot ones are out of it and have lost their callback; every other
   * timer is as it was.
   */
  lemma DrainExact(s: State, now: nat, probe: nat)
    requires Inv(s) && !LooksAtEnd(s, now)
    ensures var k := Taken(s, now, probe);
            var (u, cbs) := Drain(s, now, probe);
            && (s.queue != [] && Rollover(s.previous, now) ==> k == |s.queue|)
            && (!Rollover(s.previous, now) ==>
                  && (forall i :: 0 <= i < k ==> s.all[s.queue[i]].next <= now)
                  && (forall i :: k <= i < |s.queue| ==> s.all[s.queue[i]].next >= now))
            && |cbs| == k && (forall i :: 0 <= i < k ==> cbs[i] == s.all[s.queue[i]].cb)
            && u.all.Keys == s.all.Keys && u.tickled == s.tickled
            && (forall id :: id in s.all ==>
                  u.all[id] == if id in s.queue[..k] then Collected(s.all[id], now) else s.all[id])
            && (forall id :: id in u.queue <==> id in s.queue[k..] || (id in s.queue[..k] && s.all[id].recurring))
            && Known(u.all, u.queue) && Sorted(u.all, u.queue)
  {
    var k := Taken(s, now, probe);
    SplitSet(s, k);
    DueSplits(s.all, s.queue, now, probe);
    assert forall i :: 0 < i < |s.queue| ==> Before(s.all, s.queue[0], s.queue[i]);
    CollectWorks(s.all, s.queue[k..], s.queue[..k], now);
  }

  /** getNextTimer's value is the wait until the earliest deadline of the set, and none exactly for an empty set. */
  lemma GetNextExact(s: State, now: nat)
    requires Inv(s)
    ensures var r := GetNext(s, now).1;
            && (r.None? <==> s.queue == [])
            && (r.Some? ==>
                  && (forall id :: id in s.queue ==> r.value == 0 || now + r.value <= s.all[id].next)
                  && (exists id ::
                        id in s.queue && if r.value == 0 then s.all[id].next <= now
                          else s.all[id].next == now + r.value))
  {
    if s.queue != [] {
      assert s.queue[0] in s.queue;
      forall id | id in s.queue
        ensures s.all[s.queue[0]].next <= s.all[id].next
      {
        var i :| 0 <= i < |s.queue| && s.queue[i] == id;
        assert i > 0 ==> Before(s.all, s.queue[0], s.queue[i]);
      }
    }
  }

  // ---------- every operation keeps the invariant ----------

  lemma AddKeepsInv(s: State, id: nat, ms: nat, cb: Option<nat>, recurring: bool, now: nat)
    requires Inv(s) && id !in s.queue
    ensures Inv(Add(s, id, ms, cb, recurring, now).0)
  {
    var t := Timer(now + ms, ms, recurring, cb, cb.Some?);
    OthersStaySorted(s.all, s.queue, id, t);
    InsertKeepsSorted(s.all[id := t], s.queue, id);
  }

  lemma CancelKeepsInv(s: State, id: nat)
    requires Inv(s) && id in s.all
    ensures Cancel(s, id).Answer? && Inv(Cancel(s, id).state)
  {
    CancelFinds(s, id);
    if s.all[id].cb.Some? {
      EraseKeepsSorted(s.all, s.queue, id);
      var q := Without(s.queue, Rank(s.all, s.queue, id));
      OthersStaySorted(s.all, q, id, s.all[id].(cb := None));
    }
  }

  /** A live timer can be taken out of the set; the others keep their order. */
  lemma RekeySorted(s: State, id: nat, ms: nat, next: nat)
    requires Inv(s) && id in s.all && s.all[id].cb.Some?
    ensures Finds(s.all, s.queue, id)
    ensures var u := Rekey(s, id, ms, next);
            && Sorted(u.all, u.queue) && id !in u.queue
            && forall x :: x in u.queue <==> x in s.queue && x != id
  {
    EraseKeepsSorted(s.all, s.queue, id);
    OthersStaySorted(s.all, Without(s.queue, Rank(s.all, s.queue, id)), id, s.all[id].(ms := ms, next := next));
  }

  /** Out of the set, a new deadline, back in: order and membership are as before. */
  lemma RekeyKeepsInv(s: State, id: nat, ms: nat, next: nat)
    requires Inv(s) && id in s.all && s.all[id].cb.Some? && ms <= next
    ensures Finds(s.all, s.queue, id)
    ensures Inv(Rekeyed(s, id, ms, next))
  {
    RekeySorted(s, id, ms, next);
    var u := Rekey(s, id, ms, next);
    InsertKeepsSorted(u.all, u.queue, id);
    var v := Reinsert(u, id);
    assert v.all.Keys == s.all.Keys;
    forall x | x in v.all
      ensures v.all[x].ms <= v.all[x].next && (v.all[x].born ==> (x in v.queue <==> v.all[x].cb.Some?))
      ensures !v.all[x].born ==> v.all[x].cb.None?
    {
      assert x in s.all;
    }
  }

  lemma DrainKeepsInv(s: State, now: nat, probe: nat)
    requires Inv(s) && !LooksAtEnd(s, now)
    ensures Inv(Drain(s, now, probe).0)
  {
    DrainExact(s, now, probe);
    SplitSet(s, Taken(s, now, probe));
  }

  lemma RefreshShape(s: State, id: nat, now: nat)
    requires Inv(s) && id in s.all
    ensures s.all[id].cb.None? ==> Refresh(s, id, now).0 == s
    ensures s.all[id].cb.Some? ==>
              && Finds(s.all, s.queue, id)
              && Refresh(s, id, now).0 == Rekeyed(s, id, s.all[id].ms, now + s.all[id].ms)
  {
    FindsIffMember(s.all, s.queue, id);
  }

  lemma SameInv(s: State, u: State)
    requires Inv(s) && s == u
    ensures Inv(u)
  {
  }

  lemma RefreshKeepsInv(s: State, id: nat, now: nat)
    requires Inv(s) && id in s.all
    ensures Inv(Refresh(s, id, now).0)
  {
    RefreshShape(s, id, now);
    var u := Refresh(s, id, now).0;
    var ms, next := s.all[id].ms, now + s.all[id].ms;
    if s.all[id].cb.Some? {
      RekeyKeepsInv(s, id, ms, next);
      SameInv(Rekeyed(s, id, ms, next), u);
    } else {
      SameInv(s, u);
    }
  }

  /** The invariant does not look at the flag. */
  lemma FlagKeepsInv(s: State, up: bool)
    requires Inv(s)
    ensures Inv(s.(tickled := up))
  {
  }

  /** The new deadline of a reset. */
  function ResetTo(t: Timer, ms: nat, fromNow: bool, now: nat): nat
    requires t.ms <= t.next
  {
    (if fromNow then now else t.next - t.ms) + ms
  }

  lemma ResetShape(s: State, id: nat, looked: nat, ms: nat, fromNow: bool, now: nat)
    requires Inv(s) && id in s.all && s.all[id].cb.Some? && (ms != looked || fromNow)
    ensures Finds(s.all, s.queue, id)
    ensures Reset(s, id, looked, ms, fromNow, now).0
         == Publish(Rekey(s, id, ms, ResetTo(s.all[id], ms, fromNow, now)), id).0
  {
    FindsIffMember(s.all, s.queue, id);
  }

  lemma ResetKeepsInv(s: State, id: nat, looked: nat, ms: nat, fromNow: bool, now: nat)
    requires Inv(s) && id in s.all
    ensures Inv(Reset(s, id, looked, ms, fromNow, now).0)
  {
    if s.all[id].cb.Some? && (ms != looked || fromNow) {
      var next := ResetTo(s.all[id], ms, fromNow, now);
      ResetShape(s, id, looked, ms, fromNow, now);
      RekeyKeepsInv(s, id, ms, next);
      var u := Publish(Rekey(s, id, ms, next), id).0;
      FlagKeepsInv(Reinsert(Rekey(s, id, ms, next), id), u.tickled);
      assert u == Reinsert(Rekey(s, id, ms, next), id).(tickled := u.tickled);
    }
  }

  lemma StepKeepsInv(s: State, op: Op)
    requires Inv(s) && Enabled(s, op)
    ensures Inv(Step(s, op).state)
  {
    match op
    case AddOp(id, ms, cb, recurring, now) => AddKeepsInv(s, id, ms, cb, recurring, now);
    case CancelOp(id) => CancelKeepsInv(s, id);
    case RefreshOp(id, now) =>
      RefreshKeepsInv(s, id, now);
    case ResetOp(id, looked, ms, fromNow, now) => ResetKeepsInv(s, id, looked, ms, fromNow, now);
    case NextOp(now) =>
    case DrainOp(now, probe) => DrainKeepsInv(s, now, probe);
  }

  // ---------- runs ----------

  /** Every operation of the run is enabled where it happens. */
  ghost predicate Legal(s: State, ops: seq<Op>)
    requires Inv(s)
    decreases |ops|
  {
    ops == [] || (Enabled(s, ops[0]) && (StepKeepsInv(s, ops[0]); Legal(Step(s, ops[0]).state, ops[1..])))
  }

  ghost function After(s: State, ops: seq<Op>): (u: State)
    requires Inv(s) && Legal(s, ops)
    ensures Inv(u)
    decreases |ops|
  {
    if ops == [] then s else
      StepKeepsInv(s, ops[0]);
      After(Step(s, ops[0]).state, ops[1..])
  }

  /** How often a property holds of the steps of a run. */
  ghost function Count(s: State, ops: seq<Op>, counts: (Op, Effect) -> bool): nat
    requires Inv(s) && Legal(s, ops)
    decreases |ops|
  {
    if ops == [] then 0 else
      StepKeepsInv(s, ops[0]);
      var e := Step(s, ops[0]);
      (if counts(ops[0], e) then 1 else 0) + Count(e.state, ops[1..], counts)
  }

  ghost function Collects(id: nat): (Op, Effect) -> bool {
    (op: Op, e: Effect) => id in e.taken
  }

  ghost function Cancels(id: nat): (Op, Effect) -> bool {
    (op: Op, e: Effect) => op == CancelOp(id) && e.yes
  }

  ghost function Fronts(): (Op, Effect) -> bool {
    (op: Op, e: Effect) => e.front
  }

  ghost predicate Alive(s: State, id: nat) {
    id in s.all && s.all[id].cb.Some?
  }

  /** The timer is given up, and its address taken by a new one. */
  predicate Reuses(op: Op, id: nat) {
    op.AddOp? && op.id == id
  }

  lemma OneShotStep(s: State, op: Op, id: nat)
    requires Inv(s) && Enabled(s, op) && id in s.all && s.all[id].born && !s.all[id].recurring && !Reuses(op, id)
    ensures var e := Step(s, op);
            && id in e.state.all && e.state.all[id].born && !e.state.all[id].recurring
            && (Alive(s, id) ==> 1 == (if Alive(e.state, id) then 1 else 0) + (if id in e.taken then 1 else 0)
                                     + (if op == CancelOp(id) && e.yes then 1 else 0))
            && (!Alive(s, id) ==> !Alive(e.state, id) && id !in e.taken && !(op == CancelOp(id) && e.yes))
  {
    match op
    case AddOp(_, _, _, _, _) =>
    case CancelOp(other) => CancelFinds(s, other);
    case RefreshOp(_, _) =>
    case ResetOp(_, _, _, _, _) =>
    case NextOp(_) =>
    case DrainOp(now, probe) =>
      DrainExact(s, now, probe);
      SplitSet(s, Taken(s, now, probe));
  }

  /**
   * A one-shot timer with a callback ends once: over any run, the number of times it is collected plus the number of
   * cancels that said yes is 1 when it is no longer alive at the end and 0 while it is. So it is collected at most
   * once, and a collection and a true cancel exclude each other.
   */
  lemma {:induction false} OneShotEndsOnce(s: State, ops: seq<Op>, id: nat)
    requires Inv(s) && Legal(s, ops) && id in s.all && s.all[id].born && !s.all[id].recurring
    requires forall op :: op in ops ==> !Reuses(op, id)
    ensures Count(s, ops, Collects(id)) + Count(s, ops, Cancels(id))
         == (if Alive(s, id) then 1 else 0) - (if Alive(After(s, ops), id) then 1 else 0)
    decreases |ops|
  {
    if ops != [] {
      assert ops[0] in ops;
      StepKeepsInv(s, ops[0]);
      OneShotStep(s, ops[0], id);
      OneShotEndsOnce(Step(s, ops[0]).state, ops[1..], id);
    }
  }

  // ---------- the sleep ----------

  /** No timer's deadline is further away than its interval from the latest time seen. */
  ghost predicate Clocked(s: State, clock: nat) {
    forall id :: id in s.all ==> s.all[id].next <= clock + s.all[id].ms
  }

  /** `seen` is the deadline the last getNextTimer went to sleep on, None for no timer. */
  ghost predicate SleepOk(s: State, seen: Option<nat>) {
    s.tickled
    || match seen
       case None => s.queue == []
       case Some(v) => forall id :: id in s.queue ==> id in s.all && s.all[id].next >= v
  }

  function Now(op: Op, clock: nat): nat {
    match op
    case AddOp(_, _, _, _, now) => now
    case RefreshOp(_, now) => now
    case ResetOp(_, _, _, _, now) => now
    case NextOp(now) => now
    case DrainOp(now, _) => now
    case CancelOp(_) => clock
  }

  /**
   * A clock that does not run backwards: refresh reads it under the lock, so not before any time seen so far; the other
   * readings may be older. The rollover test never fires.
   */
  predicate ClockForward(s: State, op: Op, clock: nat) {
    match op
    case RefreshOp(_, now) => clock <= now
    case DrainOp(now, _) => !Rollover(s.previous, now)
    case AddOp(_, _, _, _, _) => true
    case ResetOp(_, _, _, _, _) => true
    case NextOp(_) => true
    case CancelOp(_) => true
  }

  function Later(a: nat, b: nat): nat {
    if a < b then b else a
  }

  ghost function Seen(s: State, op: Op, seen: Option<nat>): Option<nat>
    requires Inv(s)
  {
    if op.NextOp? then (if s.queue == [] then None else Some(s.all[s.queue[0]].next)) else seen
  }

  lemma FrontIsEarliest(s: State)
    requires Inv(s) && s.queue != []
    ensures forall id :: id in s.queue ==> id in s.all && s.all[s.queue[0]].next <= s.all[id].next
  {
    forall id | id in s.queue
      ensures s.all[s.queue[0]].next <= s.all[id].next
    {
      var i :| 0 <= i < |s.queue| && s.queue[i] == id;
      assert i > 0 ==> Before(s.all, s.queue[0], s.queue[i]);
    }
  }

  /**
   * Either the timer lands at the front and the flag is up, or something at least as early was in the set before it.
   */
  lemma PublishSleeps(s: State, id: nat, seen: Option<nat>)
    requires Known(s.all, s.queue) && Sorted(s.all, s.queue) && id in s.all && id !in s.queue && SleepOk(s, seen)
    ensures SleepOk(Publish(s, id).0, seen)
  {
    InsertKeepsSorted(s.all, s.queue, id);
    RankSplits(s.all, s.queue, id);
    if !Publish(s, id).0.tickled {
      assert s.queue != [] && Before(s.all, s.queue[0], id);
      assert s.queue[0] in s.queue;
    }
  }

  lemma AddSleeps(s: State, id: nat, ms: nat, cb: Option<nat>, recurring: bool, now: nat, clock: nat, seen: Option<nat>)
    requires Inv(s) && id !in s.queue && Clocked(s, clock) && SleepOk(s, seen)
    ensures var u := Add(s, id, ms, cb, recurring, now).0;
            Clocked(u, Later(clock, now)) && SleepOk(u, seen)
  {
    var t := Timer(now + ms, ms, recurring, cb, cb.Some?);
    OthersStaySorted(s.all, s.queue, id, t);
    PublishSleeps(s.(all := s.all[id := t]), id, seen);
  }

  lemma CancelSleeps(s: State, id: nat, clock: nat, seen: Option<nat>)
    requires Inv(s) && id in s.all && Clocked(s, clock) && SleepOk(s, seen)
    ensures Cancel(s, id).Answer? && Clocked(Cancel(s, id).state, clock) && SleepOk(Cancel(s, id).state, seen)
  {
    CancelFinds(s, id);
    if s.all[id].cb.Some? {
      EraseKeepsSorted(s.all, s.queue, id);
    }
  }

  /** Putting a timer back that is not due before the seen deadline shortens nothing. */
  lemma LateReinsertSleeps(s: State, id: nat, seen: Option<nat>)
    requires Known(s.all, s.queue) && Sorted(s.all, s.queue) && id in s.all && id !in s.queue && SleepOk(s, seen)
    requires s.tickled || (seen.Some? && seen.value <= s.all[id].next)
    ensures SleepOk(Reinsert(s, id), seen)
  {
    InsertKeepsSorted(s.all, s.queue, id);
  }

  lemma LaterKeySleeps(s: State, id: nat, ms: nat, next: nat, clock: nat, seen: Option<nat>)
    requires Inv(s) && id in s.all && s.all[id].cb.Some? && Clocked(s, clock) && SleepOk(s, seen)
    requires ms == s.all[id].ms && clock + ms <= next
    ensures Finds(s.all, s.queue, id) && SleepOk(Rekeyed(s, id, ms, next), seen)
  {
    RekeySorted(s, id, ms, next);
    RekeySleeps(s, id, ms, next, seen);
    assert s.tickled || id in s.queue;
    LateReinsertSleeps(Rekey(s, id, ms, next), id, seen);
  }

  lemma RefreshSleeps(s: State, id: nat, now: nat, clock: nat, seen: Option<nat>)
    requires Inv(s) && id in s.all && clock <= now && Clocked(s, clock) && SleepOk(s, seen)
    ensures SleepOk(Refresh(s, id, now).0, seen)
  {
    RefreshShape(s, id, now);
    if s.all[id].cb.Some? {
      LaterKeySleeps(s, id, s.all[id].ms, now + s.all[id].ms, clock, seen);
    }
  }

  lemma RefreshClocked(s: State, id: nat, now: nat, clock: nat)
    requires Inv(s) && id in s.all && clock <= now && Clocked(s, clock)
    ensures Clocked(Refresh(s, id, now).0, now)
  {
  }

  /** Taking a timer out of the set and changing it does not bring any other deadline nearer. */
  lemma RekeySleeps(s: State, id: nat, ms: nat, next: nat, seen: Option<nat>)
    requires Inv(s) && id in s.all && s.all[id].cb.Some? && ms <= next && SleepOk(s, seen)
    ensures Finds(s.all, s.queue, id) && SleepOk(Rekey(s, id, ms, next), seen)
  {
    RekeySorted(s, id, ms, next);
  }

  lemma ResetSleeps(s: State, id: nat, looked: nat, ms: nat, fromNow: bool, now: nat, clock: nat, seen: Option<nat>)
    requires Inv(s) && id in s.all && Clocked(s, clock) && SleepOk(s, seen)
    ensures SleepOk(Reset(s, id, looked, ms, fromNow, now).0, seen)
  {
    var t := s.all[id];
    if t.cb.Some? && (ms != looked || fromNow) {
      var next := ResetTo(t, ms, fromNow, now);
      ResetShape(s, id, looked, ms, fromNow, now);
      RekeySorted(s, id, ms, next);
      RekeySleeps(s, id, ms, next, seen);
      PublishSleeps(Rekey(s, id, ms, next), id, seen);
    }
  }

  lemma ResetClocked(s: State, id: nat, looked: nat, ms: nat, fromNow: bool, now: nat, clock: nat)
    requires Inv(s) && id in s.all && Clocked(s, clock)
    ensures Clocked(Reset(s, id, looked, ms, fromNow, now).0, Later(clock, now))
  {
  }

  lemma DrainSleeps(s: State, now: nat, probe: nat, clock: nat, seen: Option<nat>)
    requires Inv(s) && s.queue != [] && !Rollover(s.previous, now) && Clocked(s, clock) && SleepOk(s, seen)
    ensures Clocked(Drain(s, now, probe).0, Later(clock, now)) && SleepOk(Drain(s, now, probe).0, seen)
  {
    DrainExact(s, now, probe);
    SplitSet(s, Taken(s, now, probe));
  }

  lemma StepSleeps(s: State, op: Op, clock: nat, seen: Option<nat>)
    requires Inv(s) && Enabled(s, op) && ClockForward(s, op, clock)
    requires Clocked(s, clock) && SleepOk(s, seen)
    ensures Clocked(Step(s, op).state, Later(clock, Now(op, clock)))
    ensures SleepOk(Step(s, op).state, Seen(s, op, seen))
  {
    match op
    case AddOp(id, ms, cb, recurring, now) => AddSleeps(s, id, ms, cb, recurring, now, clock, seen);
    case CancelOp(id) => CancelSleeps(s, id, clock, seen);
    case RefreshOp(id, now) =>
      RefreshSleeps(s, id, now, clock, seen);
      RefreshClocked(s, id, now, clock);
    case ResetOp(id, looked, ms, fromNow, now) =>
      ResetSleeps(s, id, looked, ms, fromNow, now, clock, seen);
      ResetClocked(s, id, looked, ms, fromNow, now, clock);
    case NextOp(now) =>
      if s.queue != [] {
        FrontIsEarliest(s);
      }
    case DrainOp(now, probe) => DrainSleeps(s, now, probe, clock, seen);
  }

  /** A run with a clock that does not run backwards, from time `clock` on. */
  ghost predicate Forward(s: State, ops: seq<Op>, clock: nat)
    requires Inv(s) && Legal(s, ops)
    decreases |ops|
  {
    ops == [] ||
    (ClockForward(s, ops[0], clock)
     && (StepKeepsInv(s, ops[0]); Forward(Step(s, ops[0]).state, ops[1..], Later(clock, Now(ops[0], clock)))))
  }

  /** The deadline the last getNextTimer of the run saw. */
  ghost function LastSeen(s: State, ops: seq<Op>, seen: Option<nat>): Option<nat>
    requires Inv(s) && Legal(s, ops)
    decreases |ops|
  {
    if ops == [] then seen else
      StepKeepsInv(s, ops[0]);
      LastSeen(Step(s, ops[0]).state, ops[1..], Seen(s, ops[0], seen))
  }

  /**
   * No shortening of the sleep is lost: with a clock that does not run backwards, at the end of every run either
   * m_tickled is up, so onTimerInsertedAtFront was called, or no timer is due before the deadline the last getNextTimer
   * saw.
   */
  lemma {:induction false} NoLostShortening(s: State, ops: seq<Op>, clock: nat, seen: Option<nat>)
    requires Inv(s) && Legal(s, ops) && Forward(s, ops, clock) && Clocked(s, clock) && SleepOk(s, seen)
    ensures SleepOk(After(s, ops), LastSeen(s, ops, seen))
    decreases |ops|
  {
    if ops != [] {
      StepKeepsInv(s, ops[0]);
      StepSleeps(s, ops[0], clock, seen);
      NoLostShortening(Step(s, ops[0]).state, ops[1..], Later(clock, Now(ops[0], clock)), Seen(s, ops[0], seen));
    }
  }

  /** Between two calls of getNextTimer onTimerInsertedAtFront is called at most once. */
  lemma {:induction false} FrontAtMostOnce(s: State, ops: seq<Op>)
    requires Inv(s) && Legal(s, ops) && forall op :: op in ops ==> !op.NextOp?
    ensures Count(s, ops, Fronts()) <= if s.tickled then 0 else 1
    decreases |ops|
  {
    if ops != [] {
      var op := ops[0];
      assert op in ops;
      StepKeepsInv(s, op);
      var e := Step(s, op);
      if op.DrainOp? {
        DrainExact(s, op.now, op.probe);
      } else if op.CancelOp? {
        CancelFinds(s, op.id);
      }
      assert e.front ==> !s.tickled && e.state.tickled;
      assert s.tickled ==> e.state.tickled;
      FrontAtMostOnce(e.state, ops[1..]);
    }
  }

  // ---------- recurring timers ----------

  ghost predicate LeavesAlone(op: Op, id: nat) {
    op != CancelOp(id) && !(op.RefreshOp? && op.id == id) && !(op.ResetOp? && op.id == id) && !Reuses(op, id)
  }

  /** A timer that nobody cancels, refreshes, resets or collects keeps its deadline. */
  lemma {:induction false} DeadlineStays(s: State, ops: seq<Op>, id: nat)
    requires Inv(s) && Legal(s, ops) && id in s.all
    requires (forall op :: op in ops ==> LeavesAlone(op, id)) && Count(s, ops, Collects(id)) == 0
    ensures id in After(s, ops).all && After(s, ops).all[id].next == s.all[id].next
    decreases |ops|
  {
    if ops != [] {
      var op := ops[0];
      assert op in ops;
      StepKeepsInv(s, op);
      if op.DrainOp? {
        DrainExact(s, op.now, op.probe);
      } else if op.CancelOp? {
        CancelFinds(s, op.id);
      }
      DeadlineStays(Step(s, op).state, ops[1..], id);
    }
  }

  /** Two drains in a row that take the same unmodified recurring timer are at least its interval apart. */
  lemma RecurringSpacing(s: State, now1: nat, probe1: nat, ops: seq<Op>, now2: nat, probe2: nat, id: nat)
    requires Inv(s) && id in s.queue[..Taken(s, now1, probe1)] && s.all[id].recurring
    requires Inv(Drain(s, now1, probe1).0) && Legal(Drain(s, now1, probe1).0, ops)
    requires var u := Drain(s, now1, probe1).0;
             && (forall op :: op in ops ==> LeavesAlone(op, id)) && Count(u, ops, Collects(id)) == 0
             && var v := After(u, ops);
                !Rollover(v.previous, now2) && id in v.queue[..Taken(v, now2, probe2)]
    ensures now1 + s.all[id].ms <= now2
  {
    var u := Drain(s, now1, probe1).0;
    DrainExact(s, now1, probe1);
    DeadlineStays(u, ops, id);
    DrainExact(After(u, ops), now2, probe2);
  }

  // ---------- the two sections of listExpiredCb ----------

  /** How many of some timers do not go back into the set. */
  function OneShots(all: map<nat, Timer>, ids: seq<nat>): nat
    requires Known(all, ids)
  {
    if ids == [] then 0 else (if all[ids[0]].recurring then 0 else 1) + OneShots(all, ids[1..])
  }

  lemma {:induction false} OneShotsSame(all: map<nat, Timer>, all': map<nat, Timer>, ids: seq<nat>)
    requires Known(all, ids) && all'.Keys == all.Keys && forall id :: id in all ==>
               all'[id].recurring == all[id].recurring
    ensures OneShots(all', ids) == OneShots(all, ids)
    decreases |ids|
  {
    if ids != [] {
      OneShotsSame(all, all', ids[1..]);
    }
  }

  lemma {:induction false} CollectLength(all: map<nat, Timer>, queue: seq<nat>, expired: seq<nat>, now: nat)
    requires Known(all, queue) && Known(all, expired)
    ensures |Collect(all, queue, expired, now).1| + OneShots(all, expired) == |queue| + |expired|
    decreases |expired|
  {
    if expired != [] {
      var id := expired[0];
      var all' := all[id := Collected(all[id], now)];
      var queue' := if all[id].recurring then Insert(all', queue, id) else queue;
      CollectLength(all', queue', expired[1..], now);
      OneShotsSame(all, all', expired[1..]);
    }
  }

  /** What an operation puts into the set, and what it takes out for good. */
  ghost function PutsIn(op: Op): nat {
    if op.AddOp? then 1 else 0
  }

  ghost function TakesOut(s: State, op: Op): nat
    requires Inv(s) && Enabled(s, op)
  {
    match op
    case CancelOp(id) => if s.all[id].cb.Some? then 1 else 0
    case DrainOp(now, probe) => OneShots(s.all, s.queue[..Taken(s, now, probe)])
    case _ => 0
  }

  lemma StepLength(s: State, op: Op)
    requires Inv(s) && Enabled(s, op)
    ensures |Step(s, op).state.queue| + TakesOut(s, op) == |s.queue| + PutsIn(op)
  {
    match op
    case CancelOp(id) => CancelFinds(s, id);
    case DrainOp(now, probe) =>
      var k := Taken(s, now, probe);
      CollectLength(s.all, s.queue[k..], s.queue[..k], now);
    case RefreshOp(id, now) => RefreshShape(s, id, now);
    case ResetOp(id, looked, ms, fromNow, now) =>
      if s.all[id].cb.Some? && (ms != looked || fromNow) {
        ResetShape(s, id, looked, ms, fromNow, now);
      }
    case _ =>
  }

  /** All that a run puts in, and all that it takes out. */
  ghost function AllIn(ops: seq<Op>): nat {
    if ops == [] then 0 else PutsIn(ops[0]) + AllIn(ops[1..])
  }

  ghost function AllOut(s: State, ops: seq<Op>): nat
    requires Inv(s) && Legal(s, ops)
    decreases |ops|
  {
    if ops == [] then 0 else
      StepKeepsInv(s, ops[0]);
      TakesOut(s, ops[0]) + AllOut(Step(s, ops[0]).state, ops[1..])
  }

  lemma {:induction false} RunLength(s: State, ops: seq<Op>)
    requires Inv(s) && Legal(s, ops)
    ensures |After(s, ops).queue| + AllOut(s, ops) == |s.queue| + AllIn(ops)
    decreases |ops|
  {
    if ops != [] {
      StepKeepsInv(s, ops[0]);
      StepLength(s, ops[0]);
      RunLength(Step(s, ops[0]).state, ops[1..]);
    }
  }

  /**
   * After the test under the read lock, the section under the write lock looks at the end of the set exactly when what
   * others did in between, cancels and drains of one-shot timers, took out every timer that was there or was added, and
   * the clock was not set back.
   */
  lemma LooksAtEndIff(s: State, ops: seq<Op>, now: nat)
    requires Inv(s) && s.queue != [] && Legal(s, ops)
    ensures LooksAtEnd(After(s, ops), now) <==>
            AllOut(s, ops) == |s.queue| + AllIn(ops) && !Rollover(After(s, ops).previous, now)
  {
    RunLength(s, ops);
  }

  /** Two idle workers and one timer: both see it, the first drains it, and the second looks at the end of the set. */
  lemma SecondDrainerLooksAtEnd(s: State, id: nat, now: nat, probe: nat, later: nat)
    requires Inv(s) && s.queue == [id] && id in s.all && !s.all[id].recurring && s.all[id].next < now <= later
    requires !Rollover(s.previous, now)
    ensures Legal(s, [DrainOp(now, probe)])
    ensures LooksAtEnd(After(s, [DrainOp(now, probe)]), later)
  {
    var ops := [DrainOp(now, probe)];
    DrainExact(s, now, probe);
    StepKeepsInv(s, ops[0]);
    assert s.queue[1..] == [] && DueCount(s.all, s.queue[1..], now, probe) == 0;
    var u := Drain(s, now, probe).0;
    assert s.queue[..1] == [id] && s.queue[1..] == [];
    StepLength(s, ops[0]);
    assert s.queue[..1][1..] == [] && OneShots(s.all, s.queue[..1]) == 1;
    assert ops[1..] == [] && After(s, ops) == u;
  }
}
