/** The timer objects of myhttp/timer.cpp and their manager, proved against the functions of Timers.dfy. */
module TimerManagers {
  import opened Bytes
  import opened Sequences
  import T = Timers

  class Timer {
    const addr: nat  // where the object lies in memory
    const recurring: bool
    const born: bool
    var ms: nat
    var next: nat
    var cb: Option<nat>

    constructor (addr: nat, ms: nat, cb: Option<nat>, recurring: bool, now: nat)
      ensures this.addr == addr && Value() == T.Timer(now + ms, ms, recurring, cb, cb.Some?)
    {
      this.addr, this.recurring, this.ms, this.cb, this.born := addr, recurring, ms, cb, cb.Some?;
      next := now + ms;
    }

    function Value(): T.Timer
      reads this
    {
      T.Timer(next, ms, recurring, cb, born)
    }
  }

  /** Timer::Comparator: null first, then by deadline, then by address. */
  predicate Comparator(lhs: Timer?, rhs: Timer?)
    reads lhs, rhs
  {
    if lhs == null && rhs == null then false
    else if lhs == null then true
    else if rhs == null then false
    else if lhs.next < rhs.next then true
    else if rhs.next < lhs.next then false
    else lhs.addr < rhs.addr
  }

  function Addrs(ts: seq<Timer>): seq<nat> {
    seq(|ts|, i requires 0 <= i < |ts| => ts[i].addr)
  }

  /** Where the set looks for a timer: behind all that compare less. */
  function Place(ts: seq<Timer>, t: Timer): (k: nat)
    reads ts, t
    ensures k <= |ts|
  {
    if ts != [] && Comparator(ts[0], t) then 1 + Place(ts[1..], t) else 0
  }

  /** upper_bound of a probe timer at `now`. */
  function UpperBound(ts: seq<Timer>, now: nat, probe: nat): (k: nat)
    reads ts
    ensures k <= |ts|
  {
    if ts != [] && (ts[0].next < now || (ts[0].next == now && ts[0].addr <= probe))
      then 1 + UpperBound(ts[1..], now, probe) else 0
  }

  class TimerManager {
    var timers: seq<Timer>  // std::set in order
    var tickled: bool
    var previous: nat
    ghost var published: map<nat, Timer>

    ghost predicate Valid()
      reads this
    {
      && (forall a :: a in published ==> published[a].addr == a)
      && (forall i :: 0 <= i < |timers| ==> timers[i].addr in published && published[timers[i].addr] == timers[i])
    }

    ghost predicate Has(t: Timer)
      reads this
    {
      t.addr in published && published[t.addr] == t
    }

    ghost function Values(): map<nat, T.Timer>
      reads this, published.Values
    {
      map a | a in published :: published[a].Value()
    }

    ghost function State(): (s: T.State)
      requires Valid()
      reads this, published.Values
      ensures T.Known(s.all, s.queue)
    {
      T.State(Values(), Addrs(timers), tickled, previous)
    }

    constructor (now: nat)
      ensures Valid() && State() == T.State(map[], [], false, now)
    {
      timers, tickled, previous, published := [], false, now, map[];
    }

    lemma {:induction false} PlaceIsRank(ts: seq<Timer>, t: Timer)
      requires Valid() && Has(t) && (forall i :: 0 <= i < |ts| ==> Has(ts[i])) && T.Known(Values(), Addrs(ts))
      ensures Place(ts, t) == T.Rank(Values(), Addrs(ts), t.addr)
      decreases |ts|
    {
      if ts != [] {
        assert Has(ts[0]) && Addrs(ts)[0] == ts[0].addr && Addrs(ts)[1..] == Addrs(ts[1..]);
        PlaceIsRank(ts[1..], t);
      }
    }

    lemma {:induction false} UpperBoundIsDueCount(ts: seq<Timer>, now: nat, probe: nat)
      requires Valid() && (forall i :: 0 <= i < |ts| ==> Has(ts[i])) && T.Known(Values(), Addrs(ts))
      ensures UpperBound(ts, now, probe) == T.DueCount(Values(), Addrs(ts), now, probe)
      decreases |ts|
    {
      if ts != [] {
        assert Has(ts[0]) && Addrs(ts)[0] == ts[0].addr && Addrs(ts)[1..] == Addrs(ts[1..]);
        UpperBoundIsDueCount(ts[1..], now, probe);
      }
    }

    /** find; the end iterator is |timers|. */
    function Find(t: Timer): (k: nat)
      requires Valid() && Has(t)
      reads this, published.Values
      ensures T.Finds(Values(), Addrs(timers), t.addr) ==> k == T.Rank(Values(), Addrs(timers), t.addr) < |timers|
      ensures !T.Finds(Values(), Addrs(timers), t.addr) ==> k == |timers|
    {
      PlaceIsRank(timers, t);
      var k := Place(timers, t);
      if k < |timers| && Comparator(t, timers[k]) then |timers| else k
    }

    method EraseAt(k: nat)
      requires Valid() && k < |timers|
      modifies `timers
      ensures Valid() && Addrs(timers) == Without(old(Addrs(timers)), k)
    {
      timers := Without(timers, k);
    }

    method InsertTimer(t: Timer)
      requires Valid() && Has(t)
      modifies `timers
      ensures Valid() && Addrs(timers) == T.Insert(old(Values()), old(Addrs(timers)), t.addr)
    {
      PlaceIsRank(timers, t);
      var k := Place(timers, t);
      timers := timers[..k] + [t] + timers[k..];
    }

    /** Assigning to one timer changes that timer's value only. */
    twostate lemma OneChanged(t: Timer)
      requires old(Valid()) && Valid() && published == old(published) && Has(t)
      requires forall u :: u in published.Values && u != t ==> unchanged(u)
      ensures Values() == old(Values())[t.addr := t.Value()]
    {
      forall a | a in published && a != t.addr
        ensures published[a].Value() == old(published[a].Value())
      {
        assert published[a] in published.Values && published[a] != t;
      }
    }

    /** Erasing the end iterator ends the program: `end`. */
    method Cancel(t: Timer) returns (end: bool, yes: bool)
      requires Valid() && Has(t)
      modifies `timers, t`cb
      ensures Valid()
      ensures T.Cancel(old(State()), t.addr) == if end then T.EraseEnd else T.Answer(State(), yes)
    {
      if t.cb.None? {
        return false, false;
      }
      t.cb := None;
      OneChanged(t);
      SameRank(old(Values()), Values(), Addrs(timers), t.addr);
      var k := Find(t);
      if k == |timers| {
        return true, false;
      }
      EraseAt(k);
      OneChanged(t);
      return false, true;
    }

    /** Out of the set, then a new interval and deadline. */
    method TakeOut(t: Timer, k: nat, ms: nat, next: nat)
      requires Valid() && Has(t) && T.Finds(Values(), Addrs(timers), t.addr)
               && k == T.Rank(Values(), Addrs(timers), t.addr)
      modifies `timers, t`next, t`ms
      ensures Valid() && State() == T.Rekey(old(State()), t.addr, ms, next)
    {
      EraseAt(k);
      t.ms := ms;
      t.next := next;
      OneChanged(t);
    }

    method Refresh(t: Timer, now: nat) returns (yes: bool)
      requires Valid() && Has(t)
      modifies `timers, t`next, t`ms
      ensures Valid() && (State(), yes) == T.Refresh(old(State()), t.addr, now)
    {
      if t.cb.None? {
        return false;
      }
      var k := Find(t);
      if k == |timers| {
        return false;
      }
      TakeOut(t, k, t.ms, now + t.ms);
      ghost var u := State();
      InsertTimer(t);
      assert Values() == u.all;
      return true;
    }

    /**
     * `looked` is what the test before the lock read of the interval; others may have been at the timer since.
     */
    method Reset(t: Timer, looked: nat, ms: nat, fromNow: bool, now: nat) returns (yes: bool, front: bool)
      requires Valid() && Has(t) && t.ms <= t.next
      modifies `timers, `tickled, t`next, t`ms
      ensures Valid() && (State(), yes, front) == T.Reset(old(State()), t.addr, looked, ms, fromNow, now)
    {
      if ms == looked && !fromNow {
        return true, false;
      }
      yes, front := ResetLocked(t, ms, fromNow, now);
    }

    /** The part of reset under the lock. */
    method ResetLocked(t: Timer, ms: nat, fromNow: bool, now: nat) returns (yes: bool, front: bool)
      requires Valid() && Has(t) && t.ms <= t.next
      modifies `timers, `tickled, t`next, t`ms
      ensures Valid() && (State(), yes, front) == T.ResetLocked(old(State()), t.addr, ms, fromNow, now)
    {
      if t.cb.None? {
        return false, false;
      }
      var k := Find(t);
      if k == |timers| {
        return false, false;
      }
      var start := if fromNow then now else t.next - t.ms;
      front := Rearm(t, k, ms, start + ms);
      yes := true;
    }

    method Rearm(t: Timer, k: nat, ms: nat, next: nat) returns (front: bool)
      requires Valid() && Has(t) && T.Finds(Values(), Addrs(timers), t.addr)
               && k == T.Rank(Values(), Addrs(timers), t.addr)
      modifies `timers, `tickled, t`next, t`ms
      ensures Valid() && (State(), true, front) == T.Rearmed(old(State()), t.addr, ms, next)
    {
      TakeOut(t, k, ms, next);
      front := PublishTimer(t);
    }

    /** The inner addTimer; `front` means that onTimerInsertedAtFront is called after the lock is released. */
    method PublishTimer(t: Timer) returns (front: bool)
      requires Valid() && Has(t)
      modifies `timers, `tickled
      ensures Valid() && (State(), front) == T.Publish(old(State()), t.addr)
    {
      InsertTimer(t);
      front := timers[0] == t && !tickled;
      if front {
        tickled := true;
      }
      assert Addrs(timers)[0] == timers[0].addr;
      assert Values() == old(Values());
    }

    /** The allocator may hand out the address of a timer that is gone, so not of one in the set. */
    method AddTimer(addr: nat, ms: nat, cb: Option<nat>, recurring: bool, now: nat) returns (t: Timer, front: bool)
      requires Valid() && addr !in Addrs(timers)
      modifies this
      ensures Valid() && fresh(t) && t.addr == addr && Has(t)
      ensures (State(), front) == T.Add(old(State()), addr, ms, cb, recurring, now)
    {
      t := new Timer(addr, ms, cb, recurring, now);
      forall i | 0 <= i < |timers|
        ensures timers[i].addr != addr
      {
        assert Addrs(timers)[i] in Addrs(timers);
      }
      published := published[addr := t];
      assert Values() == old(Values())[addr := t.Value()];
      front := PublishTimer(t);
    }

    method GetNextTimer(now: nat) returns (wait: Option<nat>)
      requires Valid()
      modifies `tickled
      ensures Valid() && (State(), wait) == T.GetNext(old(State()), now)
    {
      tickled := false;
      assert Values() == old(Values());
      if timers == [] {
        return None;
      }
      assert Addrs(timers)[0] == timers[0].addr;
      return Some(if now >= timers[0].next then 0 else timers[0].next - now);
    }

    method DetectClockRollover(now: nat) returns (rollover: bool)
      modifies `previous
      ensures previous == now && rollover == T.Rollover(old(previous), now)
      ensures old(previous) < T.WORD ==>
                (rollover <==> now < old(previous) && (old(previous) < T.HOUR || now < old(previous) - T.HOUR))
    {
      if previous < T.WORD {
        T.RolloverIff(previous, now);
      }
      rollover := now < previous && now < if previous >= T.HOUR then previous - T.HOUR else previous + T.WORD - T.HOUR;
      previous := now;
    }

    /**
     * `empty` is what the test under the read lock saw; others may have been at the set since. A look at the end of the
     * set ends the program: `end`.
     */
    method ListExpiredCb(empty: bool, now: nat, probe: nat) returns (end: bool, cbs: seq<Option<nat>>)
      requires Valid()
      modifies `timers, `previous, set a | a in published :: published[a]
      ensures Valid() && (end <==> !empty && T.LooksAtEnd(old(State()), now))
      ensures !end ==> (State(), cbs) == if empty then (old(State()), []) else T.Drain(old(State()), now, probe)
    {
      if empty {
        return false, [];
      }
      end, cbs := DrainLocked(now, probe);
    }

    /** The section under the write lock, whatever the set has become: `end` is a look at the end of it. */
    method DrainLocked(now: nat, probe: nat) returns (end: bool, cbs: seq<Option<nat>>)
      requires Valid()
      modifies `timers, `previous, set a | a in published :: published[a]
      ensures Valid() && (end <==> T.LooksAtEnd(old(State()), now))
      ensures !end ==> (State(), cbs) == T.Drain(old(State()), now, probe)
    {
      ghost var s := State();
      assert timers != [] ==> s.queue[0] == timers[0].addr;
      var k;
      end, k := CountExpired(now, probe);
      if end {
        return true, [];
      }
      assert Values() == s.all;
      DrainUnfold(s, now, probe);
      cbs := DrainFirst(k, now);
    }

    /** How many timers go, and the new m_previouseTime. */
    method CountExpired(now: nat, probe: nat) returns (end: bool, k: nat)
      requires Valid()
      modifies `previous
      ensures previous == now && k <= |timers| && (end <==> T.LooksAtEnd(old(State()), now))
      ensures !end ==> k == T.Taken(old(State()), now, probe)
    {
      assert timers != [] ==> Addrs(timers)[0] == timers[0].addr;
      ghost var all := Values();
      var rollover := DetectClockRollover(now);
      assert Values() == all;
      end, k := false, 0;
      if rollover {
        k := |timers|;
      } else if timers == [] {
        end := true;
      } else if timers[0].next <= now {
        UpperBoundIsDueCount(timers, now, probe);
        k := UpperBound(timers, now, probe);
      }
    }

    method DrainFirst(k: nat, now: nat) returns (cbs: seq<Option<nat>>)
      requires Valid() && k <= |timers|
      modifies `timers, set a | a in published :: published[a]
      ensures Valid()
      ensures (Values(), Addrs(timers), cbs)
              == T.Collect(old(Values()), old(Addrs(timers)[k..]), old(Addrs(timers)[..k]), now)
    {
      var expired := timers[..k];
      ghost var q, all := Addrs(timers), Values();
      timers := timers[k..];
      assert Addrs(expired) == q[..k] && Addrs(timers) == q[k..] && Values() == all;
      cbs := CollectTimers(expired, now);
    }

    method CollectTimers(expired: seq<Timer>, now: nat) returns (cbs: seq<Option<nat>>)
      requires Valid() && (forall i :: 0 <= i < |expired| ==> Has(expired[i])) && T.Known(Values(), Addrs(expired))
      modifies `timers, set a | a in published :: published[a]
      ensures Valid()
      ensures (Values(), Addrs(timers), cbs) == T.Collect(old(Values()), old(Addrs(timers)), Addrs(expired), now)
    {
      ghost var vals, q, rest := Values(), Addrs(timers), Addrs(expired);
      ghost var all := T.Collect(vals, q, rest, now);
      cbs := [];
      PrependNone(all);
      var i := 0;
      while i < |expired|
        invariant i <= |expired| && Valid() && published == old(published) && rest == Addrs(expired)[i..]
        invariant Values() == vals && Addrs(timers) == q && T.Known(vals, q) && T.Known(vals, rest)
        invariant all == Prepend(cbs, T.Collect(vals, q, rest, now))
      {
        assert rest[0] == expired[i].addr && Has(expired[i]);
        CollectTurn(cbs, vals, q, rest, now);
        var cb := CollectOne(expired[i], now);
        ghost var turn := Turned(vals, q, rest[0], now);
        vals, q, rest := turn.0, turn.1, rest[1..];
        cbs := cbs + [cb];
        i := i + 1;
      }
      CollectTurn(cbs, vals, q, rest, now);
    }

    /** One turn of the loop: the callback is handed out and the timer goes back into the set or loses it. */
    method CollectOne(t: Timer, now: nat) returns (cb: Option<nat>)
      requires Valid() && Has(t)
      modifies `timers, t
      ensures Valid() && cb == old(t.cb)
      ensures (Values(), Addrs(timers)) == Turned(old(Values()), old(Addrs(timers)), t.addr, now)
    {
      cb := t.cb;
      if t.recurring {
        t.next := now + t.ms;
        OneChanged(t);
        InsertTimer(t);
      } else {
        t.cb := None;
      }
      OneChanged(t);
    }
  }

  lemma DrainUnfold(s: T.State, now: nat, probe: nat)
    requires T.Known(s.all, s.queue) && !T.LooksAtEnd(s, now)
    ensures var k := T.Taken(s, now, probe);
            var r := T.Collect(s.all, s.queue[k..], s.queue[..k], now);
            T.Drain(s, now, probe) == (T.State(r.0, r.1, s.tickled, now), r.2)
  {
  }

  /** One turn of the loop over the expired timers. */
  function Turned(all: map<nat, T.Timer>, queue: seq<nat>, id: nat, now: nat): (map<nat, T.Timer>, seq<nat>)
    requires T.Known(all, queue) && id in all
  {
    var t := all[id];
    var all' := if t.recurring then all[id := t.(next := now + t.ms)] else all[id := t.(cb := None)];
    (all', if t.recurring then T.Insert(all', queue, id) else queue)
  }

  lemma CollectTurn(cbs: seq<Option<nat>>, all: map<nat, T.Timer>, queue: seq<nat>, expired: seq<nat>, now: nat)
    requires T.Known(all, queue) && T.Known(all, expired)
    ensures expired == [] ==> Prepend(cbs, T.Collect(all, queue, expired, now)) == (all, queue, cbs)
    ensures expired != [] ==>
              var turn := Turned(all, queue, expired[0], now);
              && T.Known(turn.0, turn.1) && T.Known(turn.0, expired[1..])
              && Prepend(cbs, T.Collect(all, queue, expired, now))
                 == Prepend(cbs + [all[expired[0]].cb], T.Collect(turn.0, turn.1, expired[1..], now))
  {
    if expired != [] {
      var t := all[expired[0]];
      var (all', queue') := Turned(all, queue, expired[0], now);
      var r := T.Collect(all', queue', expired[1..], now);
      assert cbs + [t.cb] + r.2 == cbs + ([t.cb] + r.2);
    } else {
      assert cbs + [] == cbs;
    }
  }

  /** The rank only looks at deadlines. */
  lemma SameRank(all: map<nat, T.Timer>, all': map<nat, T.Timer>, queue: seq<nat>, id: nat)
    requires T.Known(all, queue) && id in all && all'.Keys == all.Keys
    requires forall a :: a in all ==> all'[a].next == all[a].next
    ensures T.Known(all', queue) && T.Rank(all', queue, id) == T.Rank(all, queue, id)
    ensures T.Finds(all', queue, id) == T.Finds(all, queue, id)
  {
  }
}
