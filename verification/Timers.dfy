/**
 * The ordered timer set of myhttp/timer.cpp on values. A timer is known by its address; the set orders its timers by
 * deadline and address, and looks one up by that order, so a key that changed under the set would not be found again.
 * Every function is one critical section of the manager's lock.
 */
module Timers {
  import opened Bytes
  import opened Sequences

  /** `born` says whether the timer was created with a callback; `cb` is its callback now. */
  datatype Timer = Timer(next: nat, ms: nat, recurring: bool, cb: Option<nat>, born: bool)

  /** `queue` is m_timers in order; `all` holds every published timer, in the set or not. */
  datatype State = State(all: map<nat, Timer>, queue: seq<nat>, tickled: bool, previous: nat)

  /** Timer::Comparator on non-null timers. */
  predicate Before(all: map<nat, Timer>, a: nat, b: nat)
    requires a in all && b in all
  {
    all[a].next < all[b].next || (all[a].next == all[b].next && a < b)
  }

  predicate Known(all: map<nat, Timer>, queue: seq<nat>) {
    forall i :: 0 <= i < |queue| ==> queue[i] in all
  }

  ghost predicate Sorted(all: map<nat, Timer>, queue: seq<nat>)
    requires Known(all, queue)
  {
    forall i, j :: 0 <= i < j < |queue| ==> Before(all, queue[i], queue[j])
  }

  /** How many timers at the front come before `id`: where the set looks for it and where it would be inserted. */
  function Rank(all: map<nat, Timer>, queue: seq<nat>, id: nat): (k: nat)
    requires Known(all, queue) && id in all
    ensures k <= |queue|
  {
    if queue != [] && Before(all, queue[0], id) then 1 + Rank(all, queue[1..], id) else 0
  }

  /** std::set::find. */
  predicate Finds(all: map<nat, Timer>, queue: seq<nat>, id: nat)
    requires Known(all, queue) && id in all
  {
    var k := Rank(all, queue, id);
    k < |queue| && !Before(all, id, queue[k])
  }

  function Insert(all: map<nat, Timer>, queue: seq<nat>, id: nat): (q: seq<nat>)
    requires Known(all, queue) && id in all
    ensures Known(all, q) && |q| == |queue| + 1
  {
    var k := Rank(all, queue, id);
    queue[..k] + [id] + queue[k..]
  }

  function Reinsert(s: State, id: nat): (r: State)
    requires Known(s.all, s.queue) && id in s.all
    ensures Known(r.all, r.queue) && id in r.all
  {
    s.(queue := Insert(s.all, s.queue, id))
  }

  /** TimerManager::addTimer under the lock: `front` says that onTimerInsertedAtFront is going to be called. */
  function Publish(s: State, id: nat): (r: (State, bool))
    requires Known(s.all, s.queue) && id in s.all
    ensures Known(r.0.all, r.0.queue)
  {
    var u := Reinsert(s, id);
    var front := u.queue[0] == id && !s.tickled;
    (u.(tickled := s.tickled || front), front)
  }

  function Add(s: State, id: nat, ms: nat, cb: Option<nat>, recurring: bool, now: nat): (r: (State, bool))
    requires Known(s.all, s.queue) && id !in s.queue
    ensures Known(r.0.all, r.0.queue)
  {
    Publish(s.(all := s.all[id := Timer(now + ms, ms, recurring, cb, cb.Some?)]), id)
  }

  /** What cancel answers; EraseEnd is erasing the end iterator, which ends the program. */
  datatype Answer = Answer(state: State, yes: bool) | EraseEnd

  function Cancel(s: State, id: nat): Answer
    requires Known(s.all, s.queue) && id in s.all
  {
    if s.all[id].cb.None? then
      Answer(s, false)
    else if Finds(s.all, s.queue, id) then
      Answer(State(s.all[id := s.all[id].(cb := None)], Without(s.queue, Rank(s.all, s.queue, id)), s.tickled,
                   s.previous), true)
    else
      EraseEnd
  }

  /** Takes the timer out of the set, gives it a new deadline and puts it back. */
  function Rekey(s: State, id: nat, ms: nat, next: nat): (r: State)
    requires Known(s.all, s.queue) && id in s.all && Finds(s.all, s.queue, id)
    ensures Known(r.all, r.queue) && id in r.all
  {
    s.(all := s.all[id := s.all[id].(ms := ms, next := next)], queue := Without(s.queue, Rank(s.all, s.queue, id)))
  }

  function Rekeyed(s: State, id: nat, ms: nat, next: nat): (r: State)
    requires Known(s.all, s.queue) && id in s.all && Finds(s.all, s.queue, id)
    ensures Known(r.all, r.queue) && id in r.all
  {
    Reinsert(Rekey(s, id, ms, next), id)
  }

  function Refresh(s: State, id: nat, now: nat): (r: (State, bool))
    requires Known(s.all, s.queue) && id in s.all
    ensures Known(r.0.all, r.0.queue)
  {
    var t := s.all[id];
    if t.cb.None? || !Finds(s.all, s.queue, id) then
      (s, false)
    else
      (Rekeyed(s, id, t.ms, now + t.ms), true)
  }

  /** What reset does and answers once it has found the timer. */
  function Rearmed(s: State, id: nat, ms: nat, next: nat): (r: (State, bool, bool))
    requires Known(s.all, s.queue) && id in s.all && Finds(s.all, s.queue, id)
    ensures Known(r.0.all, r.0.queue)
  {
    var (u, front) := Publish(Rekey(s, id, ms, next), id);
    (u, true, front)
  }

  /** The part of reset under the lock. */
  function ResetLocked(s: State, id: nat, ms: nat, fromNow: bool, now: nat): (r: (State, bool, bool))
    requires Known(s.all, s.queue) && id in s.all && s.all[id].ms <= s.all[id].next
    ensures Known(r.0.all, r.0.queue)
  {
    var t := s.all[id];
    if t.cb.None? || !Finds(s.all, s.queue, id) then (s, false, false)
    else Rearmed(s, id, ms, (if fromNow then now else t.next - t.ms) + ms)
  }

  /**
   * `looked` is the interval that the test before the lock saw, whatever it has become since. The third component says
   * that onTimerInsertedAtFront is going to be called.
   */
  function Reset(s: State, id: nat, looked: nat, ms: nat, fromNow: bool, now: nat): (r: (State, bool, bool))
    requires Known(s.all, s.queue) && id in s.all && s.all[id].ms <= s.all[id].next
    ensures Known(r.0.all, r.0.queue)
  {
    if ms == looked && !fromNow then (s, true, false) else ResetLocked(s, id, ms, fromNow, now)
  }

  /** None stands for ~0ull, no timer at all. */
  function GetNext(s: State, now: nat): (r: (State, Option<nat>))
    requires Known(s.all, s.queue)
    ensures Known(r.0.all, r.0.queue)
  {
    var u := s.(tickled := false);
    if s.queue == [] then
      (u, None)
    else
      var next := s.all[s.queue[0]].next;
      (u, Some(if now >= next then 0 else next - now))
  }

  const HOUR: nat := 60 * 60 * 1000
  const WORD: nat := 0x1_0000_0000_0000_0000

  /** The subtraction is unsigned: within an hour of 0 it wraps, and any step back counts. */
  predicate Rollover(previous: nat, now: nat) {
    now < previous && now < if previous >= HOUR then previous - HOUR else previous + WORD - HOUR
  }

  /** upper_bound of a probe timer at `now` whose address is `probe`: how many timers are taken. */
  function DueCount(all: map<nat, Timer>, queue: seq<nat>, now: nat, probe: nat): (k: nat)
    requires Known(all, queue)
    ensures k <= |queue|
  {
    if queue == [] then 0
    else
      var t := all[queue[0]];
      if t.next < now || (t.next == now && queue[0] <= probe) then 1 + DueCount(all, queue[1..], now, probe) else 0
  }

  /** The loop over the expired timers: a recurring one goes back into the set, a one-shot one loses its callback. */
  function Collect(all: map<nat, Timer>, queue: seq<nat>, expired: seq<nat>,
                   now: nat): (r: (map<nat, Timer>, seq<nat>, seq<Option<nat>>))
    requires Known(all, queue) && Known(all, expired)
    ensures Known(r.0, r.1) && r.0.Keys == all.Keys
    decreases |expired|
  {
    if expired == [] then
      (all, queue, [])
    else
      var id := expired[0];
      var t := all[id];
      var all' := if t.recurring then all[id := t.(next := now + t.ms)] else all[id := t.(cb := None)];
      var queue' := if t.recurring then Insert(all', queue, id) else queue;
      var (a, q, cbs) := Collect(all', queue', expired[1..], now);
      (a, q, [t.cb] + cbs)
  }

  /** How many timers a drain takes off the front. */
  function Taken(s: State, now: nat, probe: nat): (k: nat)
    requires Known(s.all, s.queue)
    ensures k <= |s.queue|
  {
    if s.queue == [] then 0
    else if Rollover(s.previous, now) then |s.queue|
    else if s.all[s.queue[0]].next > now then 0
    else DueCount(s.all, s.queue, now, probe)
  }

  /**
   * The section of listExpiredCb under the write lock looks at the first timer unless the clock was set back. If the
   * set has been emptied since the test under the read lock, that is a look at the end of the set.
   */
  predicate LooksAtEnd(s: State, now: nat) {
    s.queue == [] && !Rollover(s.previous, now)
  }

  function Drain(s: State, now: nat, probe: nat): (r: (State, seq<Option<nat>>))
    requires Known(s.all, s.queue) && !LooksAtEnd(s, now)
    ensures Known(r.0.all, r.0.queue)
  {
    var k := Taken(s, now, probe);
    var (a, q, cbs) := Collect(s.all, s.queue[k..], s.queue[..k], now);
    (State(a, q, s.tickled, now), cbs)
  }

  /** The unsigned subtraction makes any step back count within the first hour, and more than an hour after it. */
  lemma RolloverIff(previous: nat, now: nat)
    requires previous < WORD
    ensures Rollover(previous, now) <==> now < previous && (previous < HOUR || now < previous - HOUR)
  {
  }

  // ---------- the order ----------

  lemma BeforeIsStrictOrder(all: map<nat, Timer>, a: nat, b: nat, c: nat)
    requires a in all && b in all && c in all
    ensures !Before(all, a, a)
    ensures Before(all, a, b) && Before(all, b, c) ==> Before(all, a, c)
    ensures a != b ==> Before(all, a, b) || Before(all, b, a)
    ensures !(Before(all, a, b) && Before(all, b, a))
  {
  }

  /** In a sorted set everything below the rank comes before the timer and nothing from the rank on does. */
  lemma {:induction false} RankSplits(all: map<nat, Timer>, queue: seq<nat>, id: nat)
    requires Known(all, queue) && id in all && Sorted(all, queue)
    ensures var k := Rank(all, queue, id);
            && (forall i :: 0 <= i < k ==> Before(all, queue[i], id))
            && (forall i :: k <= i < |queue| ==> !Before(all, queue[i], id))
    decreases |queue|
  {
    if queue != [] && Before(all, queue[0], id) {
      RankSplits(all, queue[1..], id);
      assert forall i :: 1 <= i < |queue| ==> queue[i] == queue[1..][i - 1];
    }
  }

  /** A sorted set finds exactly its members, each at its own place. */
  lemma FindsIffMember(all: map<nat, Timer>, queue: seq<nat>, id: nat)
    requires Known(all, queue) && id in all && Sorted(all, queue)
    ensures Finds(all, queue, id) <==> id in queue
    ensures id in queue ==> Rank(all, queue, id) < |queue| && queue[Rank(all, queue, id)] == id
  {
    RankSplits(all, queue, id);
    var k := Rank(all, queue, id);
    if id in queue {
      var i :| 0 <= i < |queue| && queue[i] == id;
      assert !Before(all, queue[i], id);
    }
  }

  lemma InsertMembers(all: map<nat, Timer>, queue: seq<nat>, id: nat)
    requires Known(all, queue) && id in all
    ensures forall x :: x in Insert(all, queue, id) <==> x in queue || x == id
  {
    var k := Rank(all, queue, id);
    assert queue == queue[..k] + queue[k..];
  }

  /** Any two places of the longer sequence are in order. */
  lemma InsertPair(all: map<nat, Timer>, queue: seq<nat>, id: nat, i: nat, j: nat)
    requires Known(all, queue) && id in all && Sorted(all, queue) && id !in queue && i < j <= |queue|
    ensures Before(all, Insert(all, queue, id)[i], Insert(all, queue, id)[j])
  {
    RankSplits(all, queue, id);
    var k := Rank(all, queue, id);
    if i == k {
      var y := queue[j - 1];
      assert y in queue;
      BeforeIsStrictOrder(all, id, y, y);
    } else if j != k {
      var i', j' := if i < k then i else i - 1, if j < k then j else j - 1;
      assert Before(all, queue[i'], queue[j']);
    }
  }

  lemma InsertKeepsSorted(all: map<nat, Timer>, queue: seq<nat>, id: nat)
    requires Known(all, queue) && id in all && Sorted(all, queue) && id !in queue
    ensures Sorted(all, Insert(all, queue, id))
    ensures forall x :: x in Insert(all, queue, id) <==> x in queue || x == id
  {
    InsertMembers(all, queue, id);
    var q := Insert(all, queue, id);
    forall i, j | 0 <= i < j < |q|
      ensures Before(all, q[i], q[j])
    {
      InsertPair(all, queue, id, i, j);
    }
  }

  lemma EraseKeepsSorted(all: map<nat, Timer>, queue: seq<nat>, id: nat)
    requires Known(all, queue) && id in all && Sorted(all, queue) && id in queue
    ensures Finds(all, queue, id)
    ensures var q := Without(queue, Rank(all, queue, id));
            && Known(all, q) && Sorted(all, q)
            && id !in q && forall x :: x in q <==> x in queue && x != id
  {
    FindsIffMember(all, queue, id);
    var k := Rank(all, queue, id);
    var q := Without(queue, k);
    forall i | 0 <= i < |q|
      ensures q[i] == queue[if i < k then i else i + 1] && q[i] != id
    {
      var m := if i < k then i else i + 1;
      assert Before(all, queue[m], queue[k]) || Before(all, queue[k], queue[m]);
    }
    forall x | x in queue && x != id
      ensures x in q
    {
      var m :| 0 <= m < |queue| && queue[m] == x;
      assert q[if m < k then m else m - 1] == x;
    }
  }

  /** Changing a timer that is not in the set does not disturb the order. */
  lemma OthersStaySorted(all: map<nat, Timer>, queue: seq<nat>, id: nat, t: Timer)
    requires Known(all, queue) && Sorted(all, queue) && id !in queue
    ensures Known(all[id := t], queue) && Sorted(all[id := t], queue)
  {
    assert forall i :: 0 <= i < |queue| ==> queue[i] in queue;
  }
}
