/**
 * The bounded first-in-first-out limiter (apps/api/src/http/limiter.ts). Runs are numbered in the order they ask.
 */
module ConcurrencyLimiter {
  datatype Gate = Gate(active: nat, waiting: seq<nat>)
  datatype Bounds = Bounds(maxInFlight: nat, maxQueue: nat)
  datatype Outcome = Started | Waits | Overloaded

  function Asked(g: Gate, id: nat, b: Bounds): (Gate, Outcome) {
    if g.active < b.maxInFlight then (g.(active := g.active + 1), Started)
    else if |g.waiting| >= b.maxQueue then (g, Overloaded)
    else (g.(waiting := g.waiting + [id]), Waits)
  }

  /** A run ends: its slot is freed, and the first waiter takes it. */
  function Released(g: Gate): Gate
    requires g.active > 0
  {
    if g.waiting == [] then g.(active := g.active - 1) else g.(waiting := g.waiting[1..])
  }

  function PlaceOf(waiting: seq<nat>, id: nat): (i: nat)
    ensures i <= |waiting| && (i < |waiting| ==> waiting[i] == id) && (i == |waiting| <==> id !in waiting)
  {
    if waiting == [] || waiting[0] == id then 0 else 1 + PlaceOf(waiting[1..], id)
  }

  /** A waiter's timer fires: it leaves the queue. */
  function TimedOut(g: Gate, id: nat): Gate {
    var i := PlaceOf(g.waiting, id);
    if i < |g.waiting| then g.(waiting := g.waiting[..i] + g.waiting[i + 1..]) else g
  }

  predicate Ascending(ids: seq<nat>) { forall i, j | 0 <= i < j < |ids| :: ids[i] < ids[j] }

  /** Never too many at once, nobody waits while a slot is free, the queue is bounded and in order of arrival. */
  ghost predicate Inv(g: Gate, b: Bounds, nextId: nat) {
    && g.active <= b.maxInFlight
    && (g.waiting != [] ==> g.active == b.maxInFlight)
    && |g.waiting| <= b.maxQueue
    && Ascending(g.waiting) && forall id | id in g.waiting :: id < nextId
  }

  lemma {:induction false} AskedInv(g: Gate, id: nat, b: Bounds)
    requires Inv(g, b, id)
    ensures Inv(Asked(g, id, b).0, b, id + 1)
  {
    forall i | 0 <= i < |g.waiting| ensures g.waiting[i] < id { assert g.waiting[i] in g.waiting; }
  }

  lemma {:induction false} ReleasedInv(g: Gate, b: Bounds, nextId: nat)
    requires Inv(g, b, nextId) && g.active > 0
    ensures Inv(Released(g), b, nextId)
    ensures g.waiting != [] ==> forall id | id in Released(g).waiting :: g.waiting[0] < id
  {
    if g.waiting != [] {
      assert forall id | id in g.waiting[1..] :: id in g.waiting;
    }
  }

  lemma {:induction false} TimedOutInv(g: Gate, b: Bounds, nextId: nat, id: nat)
    requires Inv(g, b, nextId)
    ensures Inv(TimedOut(g, id), b, nextId)
    ensures forall o :: o in TimedOut(g, id).waiting <==> o in g.waiting && o != id
  {
    hide PlaceOf;
    var i := PlaceOf(g.waiting, id);
    var rest := TimedOut(g, id).waiting;
    if i < |g.waiting| {
      forall o | o in g.waiting && o != id ensures o in rest {
        var j :| 0 <= j < |g.waiting| && g.waiting[j] == o;
        assert o == rest[if j < i then j else j - 1];
      }
      assert forall o | o in rest :: o in g.waiting;
    }
  }

  class Limiter {
    const bounds: Bounds
    var active: nat
    var waiting: seq<nat>
    /** Numbers from here on have not asked yet. */
    ghost var nextId: nat

    ghost function State(): Gate
      reads this
    {
      Gate(active, waiting)
    }

    ghost predicate Valid()
      reads this
    {
      Inv(State(), bounds, nextId)
    }

    constructor (bounds: Bounds)
      ensures Valid() && this.bounds == bounds && State() == Gate(0, []) && nextId == 0
    {
      this.bounds := bounds;
      active := 0;
      waiting := [];
      nextId := 0;
    }

    /** Starts while a slot is free, waits last in line while there is room, and is refused only when both are full. */
    method Acquire(id: nat) returns (outcome: Outcome)
      requires Valid() && id >= nextId
      modifies this
      ensures Valid() && nextId == id + 1
      ensures outcome.Started? <==> old(active) < bounds.maxInFlight
      ensures outcome.Started? ==> active == old(active) + 1 <= bounds.maxInFlight && waiting == old(waiting) == []
      ensures outcome.Waits? ==> active == bounds.maxInFlight && waiting == old(waiting) + [id] && id !in old(waiting)
      ensures outcome.Overloaded? <==> old(active) == bounds.maxInFlight && |old(waiting)| == bounds.maxQueue
      ensures outcome.Overloaded? ==> State() == old(State())
      ensures (State(), outcome) == Asked(old(State()), id, bounds)
    {
      AskedInv(State(), id, bounds);
      nextId := id + 1;
      if active < bounds.maxInFlight {
        active := active + 1;
        return Started;
      }
      if |waiting| >= bounds.maxQueue { return Overloaded; }
      waiting := waiting + [id];
      return Waits;
    }

    /** The end of a run: frees its slot, then starts the first waiter, the oldest, which takes one. */
    method Release()
      requires Valid() && active > 0
      modifies this
      ensures Valid() && nextId == old(nextId)
      ensures if old(waiting) == [] then waiting == [] && active == old(active) - 1
              else old(waiting) == [old(waiting)[0]] + waiting && active == old(active) == bounds.maxInFlight
      ensures forall id | id in waiting :: old(waiting)[0] < id
      ensures State() == Released(old(State()))
    {
      ReleasedInv(State(), bounds, nextId);
      active := active - 1;
      if waiting != [] {
        waiting := waiting[1..];
        active := active + 1;
      }
    }

    /** A waiter's timer: it leaves the queue, the others keep their order. */
    method TimeOut(id: nat)
      requires Valid() && id in waiting
      modifies this
      ensures Valid() && nextId == old(nextId) && active == old(active)
      ensures forall o :: o in waiting <==> o in old(waiting) && o != id
      ensures State() == TimedOut(old(State()), id)
    {
      TimedOutInv(State(), bounds, nextId, id);
      var i := PlaceOf(waiting, id);
      waiting := waiting[..i] + waiting[i + 1..];
    }
  }
}
