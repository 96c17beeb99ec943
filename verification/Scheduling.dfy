/**
 * The run queue of myhttp/scheduler.cpp and the states of myhttp/fiber.cpp on values: what schedule appends, which
 * entry a worker claims, and what becomes of a fiber once it gives the worker back.
 */
module Scheduling {
  import opened Bytes
  import opened Sequences

  datatype FiberState = INIT | HOLD | EXEC | TERM | READY | EXCEPT

  /** A callback: the one that a sleeping fiber binds to schedule itself again, or any other. */
  datatype Job = User(id: nat) | Wake(fiber: nat)

  /** FiberAndThread. No thread is -1, any thread will do. */
  datatype Entry = Entry(fiber: Option<nat>, cb: Option<Job>, thread: Option<nat>)
  {
    predicate Holds() {
      fiber.Some? || cb.Some?
    }
  }

  // ---------- schedule ----------

  /** scheduleNoLock: an entry without fiber and callback is not queued; the answer asks for a tickle. */
  function Schedule(queue: seq<Entry>, e: Entry): (seq<Entry>, bool) {
    (if e.Holds() then queue + [e] else queue, queue == [])
  }

  function ScheduleAll(queue: seq<Entry>, es: seq<Entry>): (seq<Entry>, bool)
    decreases |es|
  {
    if es == [] then (queue, false)
    else
      var one := Schedule(queue, es[0]);
      var rest := ScheduleAll(one.0, es[1..]);
      (rest.0, one.1 || rest.1)
  }

  function Kept(es: seq<Entry>): (r: seq<Entry>)
    ensures forall i :: 0 <= i < |r| ==> r[i].Holds()
  {
    if es == [] then [] else (if es[0].Holds() then [es[0]] else []) + Kept(es[1..])
  }

  /** A batch appends its non-empty entries in order, and asks for a tickle exactly when it found the queue empty. */
  lemma {:induction false} ScheduleAllSpec(queue: seq<Entry>, es: seq<Entry>)
    ensures ScheduleAll(queue, es).0 == queue + Kept(es)
    ensures ScheduleAll(queue, es).1 <==> queue == [] && es != []
    decreases |es|
  {
    if es == [] {
      assert queue + Kept(es) == queue;
    } else {
      var one := Schedule(queue, es[0]);
      ScheduleAllSpec(one.0, es[1..]);
      assert one.0 + Kept(es[1..]) == queue + Kept(es);
    }
  }

  // ---------- claim ----------

  predicate Elsewhere(e: Entry, me: nat) {
    e.thread.Some? && e.thread.value != me
  }

  predicate Running(e: Entry, exec: set<nat>) {
    e.fiber.Some? && e.fiber.value in exec
  }

  predicate Eligible(e: Entry, me: nat, exec: set<nat>) {
    !Elsewhere(e, me) && !Running(e, exec)
  }

  /** What the search of worker `me` ends in; `tickle` is tickle_me. */
  datatype Found = Take(k: nat, tickle: bool) | Nothing(tickle: bool) | Asserted

  function Search(queue: seq<Entry>, me: nat, exec: set<nat>): (s: Found)
    ensures s.Take? ==> s.k < |queue|
  {
    if queue == [] then Nothing(false)
    else if Elsewhere(queue[0], me) then Further(Search(queue[1..], me, exec), true)
    else if !queue[0].Holds() then Asserted
    else if Running(queue[0], exec) then Further(Search(queue[1..], me, exec), false)
    else Take(0, false)
  }

  function Further(s: Found, tickle: bool): Found {
    match s
    case Take(k, t) => Take(k + 1, t || tickle)
    case Nothing(t) => Nothing(t || tickle)
    case Asserted => Asserted
  }

  predicate AllHold(queue: seq<Entry>) {
    forall i :: 0 <= i < |queue| ==> queue[i].Holds()
  }

  /** How far a search goes. */
  function Passed(queue: seq<Entry>, s: Found): nat {
    match s
    case Take(k, _) => k
    case Nothing(_) => |queue|
    case Asserted => 0
  }

  /**
   * In a queue of real entries the search takes the first that this worker may run, and it asks for a tickle exactly
   * when it passed one that is pinned to another thread.
   */
  lemma {:induction false} SearchSpec(queue: seq<Entry>, me: nat, exec: set<nat>)
    requires AllHold(queue)
    ensures var s := Search(queue, me, exec);
            && !s.Asserted? && Passed(queue, s) <= |queue|
            && (forall j :: 0 <= j < Passed(queue, s) ==> !Eligible(queue[j], me, exec))
            && (s.Take? ==> s.k < |queue| && Eligible(queue[s.k], me, exec))
            && (s.tickle <==> exists j :: 0 <= j < Passed(queue, s) && Elsewhere(queue[j], me))
    decreases |queue|
  {
    if queue != [] && !Eligible(queue[0], me, exec) {
      var s, rest := Search(queue, me, exec), Search(queue[1..], me, exec);
      SearchSpec(queue[1..], me, exec);
      forall j | 0 <= j < Passed(queue, s)
        ensures !Eligible(queue[j], me, exec)
      {
        assert j > 0 ==> queue[j] == queue[1..][j - 1];
      }
      if rest.tickle {
        var j :| 0 <= j < Passed(queue[1..], rest) && Elsewhere(queue[1..][j], me);
        assert Elsewhere(queue[j + 1], me);
      }
      if exists j :: 0 <= j < Passed(queue, s) && Elsewhere(queue[j], me) {
        var j :| 0 <= j < Passed(queue, s) && Elsewhere(queue[j], me);
        assert j > 0 ==> queue[j] == queue[1..][j - 1];
      }
    }
  }

  // ---------- how long an entry waits ----------

  /** What happens to the queue: somebody appends, or a worker searches while the fibers in `exec` run. */
  datatype QueueOp = Append(es: seq<Entry>) | ClaimBy(me: nat, exec: set<nat>)

  function After(queue: seq<Entry>, op: QueueOp): (r: seq<Entry>)
    requires AllHold(queue)
    ensures AllHold(r)
  {
    match op
    case Append(es) => queue + Kept(es)
    case ClaimBy(me, exec) =>
      SearchSpec(queue, me, exec);
      var s := Search(queue, me, exec);
      if s.Take? then Without(queue, s.k) else queue
  }

  /** Where the entry at `pos` is afterwards; None when it was claimed. */
  function Follow(queue: seq<Entry>, pos: nat, op: QueueOp): Option<nat> {
    if op.Append? then Some(pos)
    else
      match Search(queue, op.me, op.exec)
      case Take(k, _) => if k == pos then None else if k < pos then Some(pos - 1) else Some(pos)
      case _ => Some(pos)
  }

  /** The search of a worker that could run the entry at `pos`. */
  predicate Offer(queue: seq<Entry>, pos: nat, op: QueueOp)
    requires pos < |queue|
  {
    op.ClaimBy? && Eligible(queue[pos], op.me, op.exec)
  }

  /**
   * The rest keeps its order, a claimed entry is claimed by a worker that may run it, and every offer moves it forward.
   */
  lemma FollowSpec(queue: seq<Entry>, pos: nat, op: QueueOp)
    requires AllHold(queue) && pos < |queue|
    ensures match Follow(queue, pos, op)
            case None => Offer(queue, pos, op)
            case Some(p) =>
              && p <= pos && p < |After(queue, op)| && After(queue, op)[p] == queue[pos]
              && (Offer(queue, pos, op) ==> p < pos)
  {
    if op.ClaimBy? {
      SearchSpec(queue, op.me, op.exec);
    }
  }

  /** Where the entry is after a run, and how many offers it got on the way; None when it was claimed. */
  function Wait(queue: seq<Entry>, pos: nat, ops: seq<QueueOp>): (r: (Option<nat>, nat))
    requires AllHold(queue) && pos < |queue|
    decreases |ops|
  {
    if ops == [] then (Some(pos), 0)
    else
      FollowSpec(queue, pos, ops[0]);
      match Follow(queue, pos, ops[0])
      case None => (None, 1)
      case Some(p) =>
        var rest := Wait(After(queue, ops[0]), p, ops[1..]);
        (rest.0, rest.1 + if Offer(queue, pos, ops[0]) then 1 else 0)
  }

  /** No entry starves: one with `pos` entries before it is claimed at the latest by the offer after that many. */
  lemma {:induction false} BoundedOvertaking(queue: seq<Entry>, pos: nat, ops: seq<QueueOp>)
    requires AllHold(queue) && pos < |queue|
    ensures var (place, offers) := Wait(queue, pos, ops);
            if place.Some? then offers + place.value <= pos else offers <= pos + 1
    decreases |ops|
  {
    if ops != [] {
      FollowSpec(queue, pos, ops[0]);
      var f := Follow(queue, pos, ops[0]);
      if f.Some? {
        BoundedOvertaking(After(queue, ops[0]), f.value, ops[1..]);
      }
    }
  }

  // ---------- fibers ----------

  /** How a fiber gives the worker back: a yield, the end of its function, or an exception out of it. */
  datatype Ending = ToReady | ToHold | Returns | Throws

  /** The state the fiber itself leaves behind. */
  function Left(how: Ending): FiberState {
    match how
    case ToReady => READY
    case ToHold => HOLD
    case Returns => TERM
    case Throws => EXCEPT
  }

  predicate Dead(s: FiberState) {
    s == TERM || s == EXCEPT
  }

  /** The assertion of Fiber::reset. */
  predicate Resettable(s: FiberState) {
    s == INIT || Dead(s)
  }
}
