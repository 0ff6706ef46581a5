/**
 * The request path of the timeline service (apps/api/src/timeline/service.ts) as steps of one event loop: each step is
 * the code that runs without awaiting, and requests, reads, timers and settling interleave freely. The cache, the two
 * miss budgets, the limiter and the single flight are those of the other modules; the breaker may refuse any build.
 */
module Service {
  import opened InsertionMap
  import opened Options
  import ByteLru
  import G = ConcurrencyLimiter
  import R = RateLimiter

  datatype Config = Config(cacheBytes: nat, misses: R.Limits, clients: R.Limits, bounds: G.Bounds)

  /** The shared budget has one key, so its table holds one bucket. */
  predicate ValidConfig(c: Config) {
    R.ValidLimits(c.misses) && c.misses.maxKeys == 1 && R.ValidLimits(c.clients) && c.clients.maxKeys >= 1
  }

  const SHARED := "all"
  const TOO_LARGE_MS := 300000.0
  const TOO_LARGE_MAX_ENTRIES := 10000

  /** Where a build is: waiting for a slot, reading, with its rows or told they are too many, or about to settle. */
  datatype Phase = Queued | Reading | HasRows | TooLarge | Settling
  datatype Build = Build(key: string, phase: Phase)

  /**
   * `running` is the single flight's table; `builds` the builds started and not settled, numbered in order. The rest is
   * history: the times of the builds started by misses, the takes of the clients' budgets, and which of these started
   * one.
   */
  datatype State = State(
    now: real, cache: seq<Slot<string, ByteLru.Entry<nat>>>, tooLarge: seq<Slot<string, real>>,
    misses: seq<Slot<string, R.Bucket>>, clients: seq<Slot<string, R.Bucket>>,
    running: map<string, nat>, builds: map<nat, Build>, gate: G.Gate, nextId: nat,
    missStarts: seq<real>, takes: R.History, started: seq<bool>)

  /** What a request gets: an old copy stands in for a refusal, or for a build that fails, when there is one. */
  datatype Reply =
    | IsTooLarge
    | FromCache(value: nat, stale: bool)
    | Joins(run: nat, spare: Option<nat>)
    | Starts(run: nat, spare: Option<nat>)
    | Limited(spare: Option<nat>)

  datatype Action =
    | Ask(key: string, client: string, time: real, breakerOpen: bool)
    | WaitOver(id: nat)
    | ReadEnds(id: nat, phase: Phase)
    | Store(id: nat, time: real, value: nat, bytes: nat, lifetimes: ByteLru.Lifetimes)
    | Remember(id: nat, time: real)
    | Settle(id: nat)

  /** A build's first step, up to its first await: past the breaker, it asks the limiter. */
  function Begun(s: State, c: Config, key: string, breakerOpen: bool): State {
    if key in s.running then s else
    var (gate, outcome) := if breakerOpen then (s.gate, G.Overloaded) else G.Asked(s.gate, s.nextId, c.bounds);
    var phase := match outcome case Started => Reading case Waits => Queued case Overloaded => Settling;
    s.(running := s.running[key := s.nextId], builds := s.builds[s.nextId := Build(key, phase)],
       gate := gate, nextId := s.nextId + 1)
  }

  /** A client's own budget is taken from, by a request that starts a build or does not. */
  function Taken(s: State, c: Config, own: R.Take, starts: bool): State {
    var after := R.After(s.clients, own, c.clients);
    s.(clients := after, takes := R.Extended(s.takes, own, after), started := s.started + [starts])
  }

  /** A request that found neither a fresh nor a stale copy. */
  function Missed(s: State, c: Config, key: string, client: string, spare: Option<nat>, breakerOpen: bool)
    : (State, Reply)
  {
    if key in s.running then (s, Joins(s.running[key], spare)) else
    var own := R.Take(client, s.now);
    if !R.Allowed(s.clients, own, c.clients) then (Taken(s, c, own, false), Limited(spare)) else
    var shared := R.Take(SHARED, s.now);
    var s1 := s.(misses := R.After(s.misses, shared, c.misses));
    if !R.Allowed(s.misses, shared, c.misses) then (Taken(s1, c, own, false), Limited(spare)) else
    var s2 := Taken(s1, c, own, true).(missStarts := s.missStarts + [s.now]);
    (Begun(s2, c, key, breakerOpen), Starts(s.nextId, spare))
  }

  /** A request with its cache lookup done. */
  function WithHit(s: State, c: Config, key: string, client: string, hit: Option<ByteLru.Hit<nat>>,
                   breakerOpen: bool): (State, Reply)
  {
    match hit
    case None => Missed(s, c, key, client, None, breakerOpen)
    case Some(h) =>
      if h.state.Fresh? then (s, FromCache(h.value, false))
      else if h.state.Stale? then (Begun(s, c, key, breakerOpen), FromCache(h.value, true))
      else Missed(s, c, key, client, Some(h.value), breakerOpen)
  }

  function LookedUp(s: State, key: string, time: real): State {
    s.(now := time, tooLarge := Without(s.tooLarge, key), cache := ByteLru.AfterGet(s.cache, key, time))
  }

  predicate KnownTooLarge(s: State, key: string, time: real) {
    var i := IndexOf(s.tooLarge, key);
    i < |s.tooLarge| && s.tooLarge[i].held > time
  }

  function Asked(s: State, c: Config, key: string, client: string, time: real, breakerOpen: bool): (State, Reply) {
    if KnownTooLarge(s, key, time) then (s.(now := time), IsTooLarge)
    else WithHit(LookedUp(s, key, time), c, key, client, ByteLru.HitOf(s.cache, key, time), breakerOpen)
  }

  function InPhase(s: State, id: nat, phase: Phase): State
    requires id in s.builds
  {
    s.(builds := s.builds[id := s.builds[id].(phase := phase)])
  }

  /** The end of a read frees its slot, which the first waiter takes. */
  function ReadEnded(s: State, id: nat, phase: Phase): State
    requires id in s.builds && s.gate.active > 0
  {
    var s1 := InPhase(s, id, phase).(gate := G.Released(s.gate));
    if s.gate.waiting != [] && s.gate.waiting[0] in s1.builds then InPhase(s1, s.gate.waiting[0], Reading) else s1
  }

  function Remembered(tooLarge: seq<Slot<string, real>>, key: string, until: real): seq<Slot<string, real>> {
    var kept := if |tooLarge| >= TOO_LARGE_MAX_ENTRIES then tooLarge[1..] else tooLarge;
    Put(kept, key, until)
  }

  predicate At(s: State, id: nat, phase: Phase) { id in s.builds && s.builds[id].phase == phase }

  ghost predicate Next(s: State, c: Config, a: Action, s': State) {
    match a
    case Ask(key, client, time, breakerOpen) => time >= s.now && s' == Asked(s, c, key, client, time, breakerOpen).0
    case WaitOver(id) => At(s, id, Queued) && s' == InPhase(s, id, Settling).(gate := G.TimedOut(s.gate, id))
    case ReadEnds(id, phase) =>
      At(s, id, Reading) && phase in {HasRows, TooLarge, Settling} && s.gate.active > 0 && s' == ReadEnded(s, id, phase)
    case Store(id, time, value, bytes, lifetimes) =>
      && At(s, id, HasRows) && time >= s.now
      && s' == InPhase(s, id, Settling).(now := time, cache := ByteLru.AfterSet(
                 s.cache, ByteLru.NewEntry(s.builds[id].key, value, bytes, lifetimes, time), c.cacheBytes))
    case Remember(id, time) =>
      && At(s, id, TooLarge) && time >= s.now
      && s' == InPhase(s, id, Settling).(
                 now := time, tooLarge := Remembered(s.tooLarge, s.builds[id].key, time + TOO_LARGE_MS))
    case Settle(id) =>
      && (At(s, id, Settling) || At(s, id, HasRows))
      && s' == s.(running := s.running - {s.builds[id].key}, builds := s.builds - {id})
  }

  ghost predicate Init(s: State) {
    s == State(s.now, [], [], [], [], map[], map[], G.Gate(0, []), 0, [], R.History([], [[]]), [])
  }

  ghost predicate StepTo(s: State, c: Config, s': State) { exists a: Action :: Next(s, c, a, s') }

  ghost predicate StepAt(run: seq<State>, c: Config, i: nat)
    requires i + 1 < |run|
  {
    StepTo(run[i], c, run[i + 1])
  }

  ghost predicate Run(run: seq<State>, c: Config) {
    ValidConfig(c) && |run| >= 1 && Init(run[0]) && forall i | 0 <= i < |run| - 1 :: StepAt(run, c, i)
  }

  /* ---------------------------------------------------------------- builds and the limiter */

  function ReadingIds(builds: map<nat, Build>): set<nat> { set id | id in builds && builds[id].phase == Reading }

  /** The single flight's table and the builds match one to one, so no key has two builds. */
  ghost predicate FlightsOk(s: State) {
    && (forall key | key in s.running :: s.running[key] in s.builds && s.builds[s.running[key]].key == key)
    && (forall id | id in s.builds :: s.builds[id].key in s.running && s.running[s.builds[id].key] == id)
    && (forall id | id in s.builds :: id < s.nextId)
  }

  ghost predicate GateOk(s: State, c: Config) {
    && G.Inv(s.gate, c.bounds, s.nextId)
    && |ReadingIds(s.builds)| == s.gate.active
    && (forall id :: id in s.gate.waiting <==> At(s, id, Queued))
  }

  lemma {:induction false} BegunKeeps(s: State, c: Config, key: string, breakerOpen: bool)
    requires FlightsOk(s) && GateOk(s, c)
    ensures FlightsOk(Begun(s, c, key, breakerOpen)) && GateOk(Begun(s, c, key, breakerOpen), c)
  {
    BegunFlights(s, c, key, breakerOpen);
    BegunGate(s, c, key, breakerOpen);
  }

  lemma {:induction false} BegunFlights(s: State, c: Config, key: string, breakerOpen: bool)
    requires FlightsOk(s)
    ensures FlightsOk(Begun(s, c, key, breakerOpen))
  {
    assert s.nextId !in s.builds;
  }

  lemma {:induction false} BegunGate(s: State, c: Config, key: string, breakerOpen: bool)
    requires FlightsOk(s) && GateOk(s, c)
    ensures GateOk(Begun(s, c, key, breakerOpen), c)
  {
    if key !in s.running {
      G.AskedInv(s.gate, s.nextId, c.bounds);
      assert s.nextId !in s.builds;
      var s' := Begun(s, c, key, breakerOpen);
      OneMoreBuild(s.builds, s.nextId, s'.builds[s.nextId]);
      BegunWaiting(s, c, key, breakerOpen);
      hide FlightsOk, ReadingIds, At;
      assert GateOk(s', c);
    }
  }

  lemma {:induction false} BegunWaiting(s: State, c: Config, key: string, breakerOpen: bool)
    requires key !in s.running && s.nextId !in s.builds && forall id :: id in s.gate.waiting <==> At(s, id, Queued)
    ensures var s' := Begun(s, c, key, breakerOpen);
      forall id :: id in s'.gate.waiting <==> At(s', id, Queued)
  {
    var s' := Begun(s, c, key, breakerOpen);
    forall id ensures id in s'.gate.waiting <==> At(s', id, Queued) {
      assert id in s.gate.waiting <==> At(s, id, Queued);
    }
  }

  lemma {:induction false} OneMoreBuild(builds: map<nat, Build>, id: nat, build: Build)
    requires id !in builds
    ensures var more := ReadingIds(builds[id := build]);
      && more == ReadingIds(builds) + (if build.phase == Reading then {id} else {})
      && |more| == |ReadingIds(builds)| + (if build.phase == Reading then 1 else 0)
  {
    assert ReadingIds(builds[id := build]) == ReadingIds(builds) + (if build.phase == Reading then {id} else {});
  }

  predicate SameFlights(s: State, t: State) {
    s.running == t.running && s.builds == t.builds && s.gate == t.gate && s.nextId == t.nextId
  }

  lemma {:induction false} MissedShape(s: State, c: Config, key: string, client: string, spare: Option<nat>,
                                       breakerOpen: bool)
    ensures var t := Missed(s, c, key, client, spare, breakerOpen).0;
      SameFlights(t, s) || SameFlights(t, Begun(s, c, key, breakerOpen))
  {
  }

  lemma {:induction false} WithHitShape(s: State, c: Config, key: string, client: string, hit: Option<ByteLru.Hit<nat>>,
                                        breakerOpen: bool)
    ensures var t := WithHit(s, c, key, client, hit, breakerOpen).0;
      SameFlights(t, s) || SameFlights(t, Begun(s, c, key, breakerOpen))
  {
    MissedShape(s, c, key, client, if hit.Some? then Some(hit.value.value) else None, breakerOpen);
  }

  /** A request starts one build at most. */
  lemma {:induction false} AskedShape(s: State, c: Config, key: string, client: string, time: real, breakerOpen: bool)
    ensures var t := Asked(s, c, key, client, time, breakerOpen).0;
      SameFlights(t, s) || SameFlights(t, Begun(s, c, key, breakerOpen))
  {
    if !KnownTooLarge(s, key, time) {
      var s2 := LookedUp(s, key, time);
      WithHitShape(s2, c, key, client, ByteLru.HitOf(s.cache, key, time), breakerOpen);
    }
  }

  lemma {:induction false} AskKeeps(s: State, c: Config, a: Action, s': State)
    requires FlightsOk(s) && GateOk(s, c) && Next(s, c, a, s') && a.Ask?
    ensures FlightsOk(s') && GateOk(s', c)
  {
    AskedShape(s, c, a.key, a.client, a.time, a.breakerOpen);
    BegunKeeps(s, c, a.key, a.breakerOpen);
  }

  lemma {:induction false} WaitOverKeeps(s: State, c: Config, id: nat, s': State)
    requires FlightsOk(s) && GateOk(s, c) && Next(s, c, WaitOver(id), s')
    ensures FlightsOk(s') && GateOk(s', c)
  {
    G.TimedOutInv(s.gate, c.bounds, s.nextId, id);
    assert ReadingIds(s'.builds) == ReadingIds(s.builds);
  }

  lemma {:induction false} ReadEndsCount(s: State, c: Config, id: nat, phase: Phase, s': State)
    requires GateOk(s, c) && Next(s, c, ReadEnds(id, phase), s')
    ensures |ReadingIds(s'.builds)| == s'.gate.active
  {
    assert id in ReadingIds(s.builds);
    if s.gate.waiting == [] {
      assert ReadingIds(s'.builds) == ReadingIds(s.builds) - {id};
    } else {
      var first := s.gate.waiting[0];
      assert first in s.gate.waiting && At(s, first, Queued);
      assert ReadingIds(s'.builds) == ReadingIds(s.builds) - {id} + {first};
    }
  }

  lemma {:induction false} ReadEndsKeeps(s: State, c: Config, id: nat, phase: Phase, s': State)
    requires FlightsOk(s) && GateOk(s, c) && Next(s, c, ReadEnds(id, phase), s')
    ensures FlightsOk(s') && GateOk(s', c)
  {
    ReadEndsFlights(s, c, id, phase, s');
    ReadEndsGate(s, c, id, phase, s');
  }

  lemma {:induction false} ReadEndsFlights(s: State, c: Config, id: nat, phase: Phase, s': State)
    requires FlightsOk(s) && Next(s, c, ReadEnds(id, phase), s')
    ensures FlightsOk(s')
  {
  }

  lemma {:induction false} ReadEndsGate(s: State, c: Config, id: nat, phase: Phase, s': State)
    requires GateOk(s, c) && Next(s, c, ReadEnds(id, phase), s')
    ensures GateOk(s', c)
  {
    ReadEndsCount(s, c, id, phase, s');
    G.ReleasedInv(s.gate, c.bounds, s.nextId);
    if s.gate.waiting != [] {
      FirstStarts(s, c, id, phase, s');
    }
  }

  lemma {:induction false} FirstStarts(s: State, c: Config, id: nat, phase: Phase, s': State)
    requires GateOk(s, c) && Next(s, c, ReadEnds(id, phase), s') && s.gate.waiting != []
    ensures forall o :: o in s'.gate.waiting <==> At(s', o, Queued)
  {
    G.ReleasedInv(s.gate, c.bounds, s.nextId);
    var first := s.gate.waiting[0];
    assert first in s.gate.waiting && At(s, first, Queued);
    assert s.gate.waiting == [first] + s'.gate.waiting;
    forall o ensures o in s'.gate.waiting <==> At(s', o, Queued) {
      assert o in s.gate.waiting <==> o == first || o in s'.gate.waiting;
    }
  }

  lemma {:induction false} LaterKeeps(s: State, c: Config, a: Action, s': State)
    requires FlightsOk(s) && GateOk(s, c) && Next(s, c, a, s') && (a.Store? || a.Remember? || a.Settle?)
    ensures FlightsOk(s') && GateOk(s', c)
  {
    LaterFlights(s, c, a, s');
    LaterGate(s, c, a, s');
  }

  lemma {:induction false} LaterFlights(s: State, c: Config, a: Action, s': State)
    requires FlightsOk(s) && Next(s, c, a, s') && (a.Store? || a.Remember? || a.Settle?)
    ensures FlightsOk(s')
  {
  }

  lemma {:induction false} LaterGate(s: State, c: Config, a: Action, s': State)
    requires GateOk(s, c) && Next(s, c, a, s') && (a.Store? || a.Remember? || a.Settle?)
    ensures GateOk(s', c)
  {
    assert ReadingIds(s'.builds) == ReadingIds(s.builds);
  }

  lemma {:induction false} NextKeepsGate(s: State, c: Config, a: Action, s': State)
    requires FlightsOk(s) && GateOk(s, c) && Next(s, c, a, s')
    ensures FlightsOk(s') && GateOk(s', c)
  {
    match a
    case Ask(_, _, _, _) => AskKeeps(s, c, a, s');
    case WaitOver(id) => WaitOverKeeps(s, c, id, s');
    case ReadEnds(id, phase) => ReadEndsKeeps(s, c, id, phase, s');
    case _ => LaterKeeps(s, c, a, s');
  }

  /* ---------------------------------------------------------------- the shared miss budget */

  /** The builds started by misses from the `i`th to the `j`th are within the burst and the rate over their time. */
  predicate WindowOk(starts: seq<real>, l: R.Limits, i: nat, j: nat)
    requires i <= j < |starts|
  {
    (j - i + 1) as real <= l.burst + R.Refill(starts[j] - starts[i], l)
  }

  /** The builds since the `i`th and the tokens left are within a full bucket and the refill since. */
  predicate Open(bucket: R.Bucket, starts: seq<real>, l: R.Limits, i: nat)
    requires i < |starts|
  {
    R.Within(|starts| - i, bucket, starts[i], bucket.at, l)
  }

  ghost predicate MissBudget(misses: seq<Slot<string, R.Bucket>>, starts: seq<real>, now: real, l: R.Limits) {
    && (misses == [] ==> starts == [])
    && (misses != [] ==>
          && |misses| == 1 && misses[0].key == SHARED && R.Sane(misses[0].held, now, l)
          && forall i | 0 <= i < |starts| :: Open(misses[0].held, starts, l, i))
    && (forall i, j | 0 <= i <= j < |starts| :: WindowOk(starts, l, i, j))
  }

  /** One take of the shared budget, from a full bucket or the one there. */
  lemma {:induction false} TakeShared(misses: seq<Slot<string, R.Bucket>>, now: real, time: real, l: R.Limits)
    requires R.ValidLimits(l) && l.maxKeys == 1 && time >= now
    requires misses != [] ==> |misses| == 1 && misses[0].key == SHARED && R.Sane(misses[0].held, now, l)
    ensures var take := R.Take(SHARED, time);
      var found := if misses == [] then R.Bucket(l.burst, time) else R.Refilled(misses[0].held, time, l);
      && R.After(misses, take, l) == [Slot(SHARED, R.Spent(found))]
      && R.Allowed(misses, take, l) == (found.tokens >= 1.0)
      && R.Sane(found, time, l)
  {
    var take := R.Take(SHARED, time);
    R.FoundSane(misses, take, l);
    if misses != [] { assert Without(misses, SHARED) == []; }
  }

  lemma {:induction false} OpenStays(b: R.Bucket, starts: seq<real>, time: real, l: R.Limits, i: nat)
    requires R.ValidLimits(l) && i < |starts| && time >= b.at && R.Sane(b, b.at, l) && Open(b, starts, l, i)
    ensures var found := R.Refilled(b, time, l);
      if found.tokens >= 1.0 then
        Open(R.Spent(found), starts + [time], l, i) && WindowOk(starts + [time], l, i, |starts|)
      else Open(found, starts, l, i)
  {
    R.Spends(|starts| - i, b, starts[i], time, l);
    R.Slower(0.0, time - b.at, l);
  }

  lemma {:induction false} Opens(found: R.Bucket, starts: seq<real>, l: R.Limits)
    requires R.ValidLimits(l) && 1.0 <= found.tokens <= l.burst
    ensures Open(R.Spent(found), starts + [found.at], l, |starts|)
    ensures WindowOk(starts + [found.at], l, |starts|, |starts|)
  {
    assert R.Refill(0.0, l) == 0.0;
  }

  function Counted(starts: seq<real>, allowed: bool,
                   time: real): seq<real> { if allowed then starts + [time] else starts }

  lemma {:induction false} TakeKeepsBudget(misses: seq<Slot<string, R.Bucket>>, starts: seq<real>, now: real,
                                           time: real, l: R.Limits)
    requires R.ValidLimits(l) && l.maxKeys == 1 && time >= now && MissBudget(misses, starts, now, l)
    ensures var take := R.Take(SHARED, time);
      MissBudget(R.After(misses, take, l), Counted(starts, R.Allowed(misses, take, l), time), time, l)
  {
    var take := R.Take(SHARED, time);
    TakeShared(misses, now, time, l);
    var found := if misses == [] then R.Bucket(l.burst, time) else R.Refilled(misses[0].held, time, l);
    var after := Counted(starts, found.tokens >= 1.0, time);
    if found.tokens >= 1.0 { Opens(found, starts, l); }
    forall i | 0 <= i < |starts|
      ensures Open(R.Spent(found), after, l, i) && (found.tokens >= 1.0 ==> WindowOk(after, l, i, |starts|))
    {
      OpenStays(misses[0].held, starts, time, l, i);
    }
    forall i, j | 0 <= i <= j < |after| ensures WindowOk(after, l, i, j) {
      if j < |starts| { assert WindowOk(starts, l, i, j); }
    }
  }

  /** A request takes from the shared budget at most once, and counts as a start exactly when it is allowed. */
  ghost predicate SharedTaken(s: State, time: real, t: State, l: R.Limits) {
    || (t.misses == s.misses && t.missStarts == s.missStarts)
    || (t.misses == R.After(s.misses, R.Take(SHARED, time), l)
        && t.missStarts == Counted(s.missStarts, R.Allowed(s.misses, R.Take(SHARED, time), l), time))
  }

  lemma {:induction false} MissedTakes(s: State, c: Config, key: string, client: string, spare: Option<nat>,
                                       breakerOpen: bool)
    ensures SharedTaken(s, s.now, Missed(s, c, key, client, spare, breakerOpen).0, c.misses)
    ensures var t := Missed(s, c, key, client, spare, breakerOpen).0; t.now == s.now && t.cache == s.cache
  {
  }

  lemma {:induction false} WithHitTakes(s: State, c: Config, key: string, client: string,
                                        hit: Option<ByteLru.Hit<nat>>, breakerOpen: bool)
    ensures SharedTaken(s, s.now, WithHit(s, c, key, client, hit, breakerOpen).0, c.misses)
    ensures var t := WithHit(s, c, key, client, hit, breakerOpen).0; t.now == s.now && t.cache == s.cache
  {
    MissedTakes(s, c, key, client, if hit.Some? then Some(hit.value.value) else None, breakerOpen);
  }

  lemma {:induction false} AskedTakes(s: State, c: Config, key: string, client: string, time: real, breakerOpen: bool)
    ensures SharedTaken(s, time, Asked(s, c, key, client, time, breakerOpen).0, c.misses)
    ensures var t := Asked(s, c, key, client, time, breakerOpen).0;
      t.now == time && (t.cache == s.cache || t.cache == ByteLru.AfterGet(s.cache, key, time))
  {
    if !KnownTooLarge(s, key, time) {
      WithHitTakes(LookedUp(s, key, time), c, key, client, ByteLru.HitOf(s.cache, key, time), breakerOpen);
    }
  }

  lemma {:induction false} NextKeepsBudget(s: State, c: Config, a: Action, s': State)
    requires ValidConfig(c) && MissBudget(s.misses, s.missStarts, s.now, c.misses) && Next(s, c, a, s')
    ensures MissBudget(s'.misses, s'.missStarts, s'.now, c.misses)
  {
    if a.Ask? {
      AskedTakes(s, c, a.key, a.client, a.time, a.breakerOpen);
      TakeKeepsBudget(s.misses, s.missStarts, s.now, a.time, c.misses);
    } else {
    }
  }

  /* ---------------------------------------------------------------- the clients' budgets */

  /** The times of the takes that started a build. */
  function StartTimes(takes: seq<R.Take>, started: seq<bool>): seq<real>
    requires |takes| == |started|
  {
    if takes == [] then [] else
    var n := |takes| - 1;
    Counted(StartTimes(takes[..n], started[..n]), started[n], takes[n].time)
  }

  /**
   * The history of takes is a run that ends in the present table; what it starts was allowed and is in `missStarts`.
   */
  ghost predicate TakesOk(s: State, l: R.Limits) {
    && R.IsRun(s.takes, l) && s.takes.tables[|s.takes.takes|] == s.clients && |s.started| == |s.takes.takes|
    && (forall m | 0 <= m < |s.started| :: s.takes.takes[m].time <= s.now)
    && (forall m | 0 <= m < |s.started| && s.started[m] :: R.AllowedAt(s.takes, l, m))
    && s.missStarts == StartTimes(s.takes.takes, s.started)
  }

  predicate SameTakes(s: State, t: State) {
    t.clients == s.clients && t.takes == s.takes && t.started == s.started && t.missStarts == s.missStarts
  }

  /** A request takes from its client's budget at most once, and starts a build only when that take is allowed. */
  ghost predicate OwnTaken(s: State, client: string, time: real, t: State, l: R.Limits) {
    SameTakes(s, t) ||
    exists starts: bool :: TakenAs(s, R.Take(client, time), starts, t, l)
  }

  predicate TakenAs(s: State, own: R.Take, starts: bool, t: State, l: R.Limits) {
    && t.clients == R.After(s.clients, own, l) && t.takes == R.Extended(s.takes, own, t.clients)
    && t.started == s.started + [starts] && (starts ==> R.Allowed(s.clients, own, l))
    && t.missStarts == Counted(s.missStarts, starts, own.time)
  }

  lemma {:induction false} MissedTakesOwn(s: State, c: Config, key: string, client: string, spare: Option<nat>,
                                          breakerOpen: bool)
    ensures OwnTaken(s, client, s.now, Missed(s, c, key, client, spare, breakerOpen).0, c.clients)
  {
    var (t, reply) := Missed(s, c, key, client, spare, breakerOpen);
    assert !reply.Joins? ==> TakenAs(s, R.Take(client, s.now), reply.Starts?, t, c.clients);
  }

  lemma {:induction false} WithHitTakesOwn(s: State, c: Config, key: string, client: string,
                                           hit: Option<ByteLru.Hit<nat>>, breakerOpen: bool)
    ensures OwnTaken(s, client, s.now, WithHit(s, c, key, client, hit, breakerOpen).0, c.clients)
  {
    MissedTakesOwn(s, c, key, client, if hit.Some? then Some(hit.value.value) else None, breakerOpen);
  }

  lemma {:induction false} AskedTakesOwn(s: State, c: Config, key: string, client: string, time: real,
                                         breakerOpen: bool)
    ensures OwnTaken(s, client, time, Asked(s, c, key, client, time, breakerOpen).0, c.clients)
  {
    var t := Asked(s, c, key, client, time, breakerOpen).0;
    if !KnownTooLarge(s, key, time) {
      var s2 := LookedUp(s, key, time);
      WithHitTakesOwn(s2, c, key, client, ByteLru.HitOf(s.cache, key, time), breakerOpen);
      if !SameTakes(s2, t) {
        var starts :| TakenAs(s2, R.Take(client, time), starts, t, c.clients);
        assert TakenAs(s, R.Take(client, time), starts, t, c.clients);
      }
    }
  }

  lemma {:induction false} TakenKeeps(s: State, own: R.Take, starts: bool, t: State, l: R.Limits)
    requires TakesOk(s, l) && own.time >= s.now && t.now == own.time && TakenAs(s, own, starts, t, l)
    ensures TakesOk(t, l)
  {
    var n := |s.started|;
    R.ExtendedRun(s.takes, l, own);
    assert t.takes.takes[..n] == s.takes.takes && t.started[..n] == s.started;
    forall m | 0 <= m < |t.started| && t.started[m] ensures R.AllowedAt(t.takes, l, m) {
      if m < n { assert R.AllowedAt(s.takes, l, m); }
    }
  }

  lemma {:induction false} NextKeepsTakes(s: State, c: Config, a: Action, s': State)
    requires TakesOk(s, c.clients) && Next(s, c, a, s')
    ensures TakesOk(s', c.clients)
  {
    if a.Ask? {
      AskedTakes(s, c, a.key, a.client, a.time, a.breakerOpen);
      AskedTakesOwn(s, c, a.key, a.client, a.time, a.breakerOpen);
      if !SameTakes(s, s') {
        var starts :| TakenAs(s, R.Take(a.client, a.time), starts, s', c.clients);
        TakenKeeps(s, R.Take(a.client, a.time), starts, s', c.clients);
      }
    }
  }

  /** The builds that the client's misses started among the takes from `i` to before `j`. */
  function StartedBy(s: State, client: string, i: nat, j: nat): nat
    requires i <= j <= |s.started| == |s.takes.takes|
    decreases j
  {
    if i == j then 0
    else StartedBy(s, client, i, j - 1) + if s.takes.takes[j - 1].key == client && s.started[j - 1] then 1 else 0
  }

  lemma {:induction false} StartedWereGranted(s: State, l: R.Limits, client: string, i: nat, j: nat)
    requires TakesOk(s, l) && i <= j <= |s.started|
    ensures StartedBy(s, client, i, j) <= R.Granted(s.takes, l, client, i, j)
    decreases j
  {
    if i < j { StartedWereGranted(s, l, client, i, j - 1); }
  }

  /* ---------------------------------------------------------------- the cache */

  lemma {:induction false} NextKeepsCache(s: State, c: Config, a: Action, s': State)
    requires ByteLru.Bytes(s.cache) <= c.cacheBytes && Next(s, c, a, s')
    ensures ByteLru.Bytes(s'.cache) <= c.cacheBytes
  {
    if a.Ask? {
      ByteLru.BytesAfter(s.cache, ByteLru.Get(a.key, a.time), c.cacheBytes);
      AskedTakes(s, c, a.key, a.client, a.time, a.breakerOpen);
    } else if a.Store? {
      ByteLru.BytesAfter(s.cache, ByteLru.Set(s.builds[a.id].key, a.time, a.value, a.bytes, a.lifetimes), c.cacheBytes);
    }
  }

  /* ---------------------------------------------------------------- the theorems */

  ghost predicate Inv(s: State, c: Config) {
    && FlightsOk(s) && GateOk(s, c) && MissBudget(s.misses, s.missStarts, s.now, c.misses)
    && TakesOk(s, c.clients) && ByteLru.Bytes(s.cache) <= c.cacheBytes
  }

  lemma {:induction false} InitInv(s: State, c: Config)
    requires ValidConfig(c) && Init(s)
    ensures Inv(s, c)
  {
    assert ReadingIds(s.builds) == {};
  }

  lemma {:induction false} RunInv(run: seq<State>, c: Config, i: nat)
    requires Run(run, c) && i < |run|
    ensures Inv(run[i], c)
  {
    hide Inv, Next, Init;
    if i == 0 {
      InitInv(run[0], c);
    } else {
      RunInv(run, c, i - 1);
      assert StepAt(run, c, i - 1);
      var a :| Next(run[i - 1], c, a, run[i]);
      NextKeepsInv(run[i - 1], c, a, run[i]);
    }
  }

  lemma {:induction false} NextKeepsInv(s: State, c: Config, a: Action, s': State)
    requires ValidConfig(c) && Inv(s, c) && Next(s, c, a, s')
    ensures Inv(s', c)
  {
    hide Next, FlightsOk, GateOk, MissBudget, TakesOk;
    NextKeepsGate(s, c, a, s');
    NextKeepsBudget(s, c, a, s');
    NextKeepsTakes(s, c, a, s');
    NextKeepsCache(s, c, a, s');
  }

  /**
   * In every interleaving, over any window: the builds not started by a stale hit are at most the burst plus the rate
   * per minute over the window.
   */
  lemma {:induction false} MissesBounded(run: seq<State>, c: Config, n: nat, perMinute: real, burst: real, i: nat,
                                         j: nat)
    requires Run(run, c) && n < |run| && c.misses == R.PerMinute(perMinute, burst, 1) && i <= j < |run[n].missStarts|
    ensures var starts := run[n].missStarts;
      (j - i + 1) as real <= burst + (starts[j] - starts[i]) * perMinute / 60000.0
  {
    RunInv(run, c, n);
    var starts := run[n].missStarts;
    assert WindowOk(starts, c.misses, i, j);
    R.RefillPerMinute(starts[j] - starts[i], perMinute, c.misses);
  }

  /**
   * In every interleaving, over any stretch of takes in which the client's bucket is not forgotten: the builds started
   * by the client's misses are at most its burst plus its rate over the stretch.
   */
  lemma {:induction false} ClientMissesBounded(run: seq<State>, c: Config, n: nat, client: string, i: nat, j: nat)
    requires Run(run, c) && n < |run| && i < j <= |run[n].started| == |run[n].takes.takes|
    requires |run[n].takes.tables| == |run[n].takes.takes| + 1 && R.Kept(run[n].takes, client, i, j - 1)
    ensures var takes := run[n].takes.takes;
      StartedBy(run[n], client, i, j) as real
        <= c.clients.burst + R.Refill(takes[j - 1].time - takes[i].time, c.clients)
  {
    RunInv(run, c, n);
    R.WindowBound(run[n].takes, c.clients, client, i, j);
    StartedWereGranted(run[n], c.clients, client, i, j);
  }

  /** Each key has at most one build. */
  lemma {:induction false} OneBuildPerKey(run: seq<State>, c: Config, n: nat, id: nat, id': nat)
    requires Run(run, c) && n < |run| && id in run[n].builds && id' in run[n].builds
    requires run[n].builds[id].key == run[n].builds[id'].key
    ensures id == id'
  {
    RunInv(run, c, n);
  }

  /**
   * At most `maxInFlight` builds read; no build waits while a slot is free; the queue is bounded; the first to wait is
   * first.
   */
  lemma {:induction false} ReadsBounded(run: seq<State>, c: Config, n: nat)
    requires Run(run, c) && n < |run|
    ensures var s := run[n];
      && |ReadingIds(s.builds)| <= c.bounds.maxInFlight
      && ((exists id :: At(s, id, Queued)) ==> |ReadingIds(s.builds)| == c.bounds.maxInFlight)
      && |s.gate.waiting| <= c.bounds.maxQueue && G.Ascending(s.gate.waiting)
      && (forall id :: id in s.gate.waiting <==> At(s, id, Queued))
  {
    RunInv(run, c, n);
  }

  /** The build that a freed slot goes to is the oldest one waiting. */
  lemma {:induction false} OldestFirst(run: seq<State>, c: Config, n: nat, id: nat, o: nat)
    requires Run(run, c) && n + 1 < |run| && At(run[n], id, Queued) && At(run[n + 1], id, Reading)
    requires At(run[n], o, Queued)
    ensures id <= o
  {
    RunInv(run, c, n);
    assert StepAt(run, c, n);
    var a :| Next(run[n], c, a, run[n + 1]);
    StartsOldest(run[n], c, a, run[n + 1], id);
    assert o in run[n].gate.waiting;
  }

  lemma {:induction false} StartsOldest(s: State, c: Config, a: Action, s': State, id: nat)
    requires FlightsOk(s) && GateOk(s, c) && Next(s, c, a, s') && At(s, id, Queued) && At(s', id, Reading)
    ensures s.gate.waiting != [] && s.gate.waiting[0] == id
  {
    assert id in s.gate.waiting && id < s.nextId;
    if a.Ask? { AskedShape(s, c, a.key, a.client, a.time, a.breakerOpen); }
  }

  /* what a request is answered, and what it starts */

  /** A build of the key begins, the next in number: it reads if a slot is free, waits if there is room, else ends. */
  predicate Begins(s: State, t: State, c: Config, key: string, breakerOpen: bool) {
    && t.running == s.running[key := s.nextId] && t.nextId == s.nextId + 1
    && (if !breakerOpen && s.gate.active < c.bounds.maxInFlight then
          t.builds == s.builds[s.nextId := Build(key, Reading)] && t.gate == G.Gate(s.gate.active + 1, s.gate.waiting)
        else if !breakerOpen && |s.gate.waiting| < c.bounds.maxQueue then
          && t.builds == s.builds[s.nextId := Build(key, Queued)]
          && t.gate == G.Gate(s.gate.active, s.gate.waiting + [s.nextId])
        else t.builds == s.builds[s.nextId := Build(key, Settling)] && t.gate == s.gate)
  }

  predicate SameBudgets(s: State, t: State) {
    t.clients == s.clients && t.misses == s.misses && t.missStarts == s.missStarts && t.started == s.started
  }

  /** The key's copy, if it is not past its last use. */
  function Copy(s: State, key: string, time: real): Option<ByteLru.Entry<nat>> {
    var e := HeldAt(s.cache, key);
    if e.Some? && time < e.value.errorUntil then e else None
  }

  predicate Remembers(s: State, key: string, time: real) {
    var until := HeldAt(s.tooLarge, key);
    until.Some? && until.value > time
  }

  predicate AnsweredFresh(s: State, t: State, reply: Reply, e: ByteLru.Entry<nat>) {
    reply == FromCache(e.value, false) && SameFlights(t, s) && SameBudgets(s, t)
  }

  /** The copy, while one build of the key runs: the one already running, or a new one. */
  predicate AnsweredStale(s: State, t: State, reply: Reply, e: ByteLru.Entry<nat>, c: Config, key: string,
                          breakerOpen: bool)
  {
    && reply == FromCache(e.value, true) && SameBudgets(s, t)
    && if key in s.running then SameFlights(t, s) else Begins(s, t, c, key, breakerOpen)
  }

  /** No copy to give but, perhaps, one in place of an error. */
  predicate AnsweredMiss(s: State, t: State, reply: Reply, spare: Option<nat>, c: Config, key: string, client: string,
                         time: real, breakerOpen: bool)
  {
    if key in s.running then
      reply == Joins(s.running[key], spare) && SameFlights(t, s) && SameBudgets(s, t)
    else if R.Allowed(s.clients, R.Take(client, time), c.clients) && R.Allowed(s.misses, R.Take(SHARED, time), c.misses)
    then reply == Starts(s.nextId, spare) && Begins(s, t, c, key, breakerOpen)
    else reply == Limited(spare) && SameFlights(t, s)
  }

  lemma {:induction false} BegunBegins(s: State, c: Config, key: string, breakerOpen: bool)
    ensures if key in s.running then Begun(s, c, key, breakerOpen) == s
            else Begins(s, Begun(s, c, key, breakerOpen), c, key, breakerOpen)
    ensures var t := Begun(s, c, key, breakerOpen);
      SameBudgets(s, t) && t.cache == s.cache && t.tooLarge == s.tooLarge && t.now == s.now
  {
  }

  lemma {:induction false} MissAnswers(s: State, c: Config, key: string, client: string, spare: Option<nat>,
                                       breakerOpen: bool)
    ensures var (t, reply) := Missed(s, c, key, client, spare, breakerOpen);
      && AnsweredMiss(s, t, reply, spare, c, key, client, s.now, breakerOpen)
      && t.tooLarge == s.tooLarge
  {
    hide R.After, R.Allowed, R.Extended, Begun;
    var own, shared := R.Take(client, s.now), R.Take(SHARED, s.now);
    if key !in s.running && R.Allowed(s.clients, own, c.clients) && R.Allowed(s.misses, shared, c.misses) {
      var s1 := s.(misses := R.After(s.misses, shared, c.misses));
      var s2 := Taken(s1, c, own, true).(missStarts := s.missStarts + [s.now]);
      BegunBegins(s2, c, key, breakerOpen);
    }
  }

  /**
   * What every request is answered and starts, from what is remembered and cached of its key: a key remembered as too
   * large is refused; a fresh copy is given and nothing starts; a stale one is given too, and one build of the key then
   * runs; without either the request joins the build running, or starts one if both budgets allow it, or is limited,
   * with a copy kept for errors, if there is one, to stand in.
   */
  lemma {:induction false} AskedAnswers(s: State, c: Config, key: string, client: string, time: real,
                                        breakerOpen: bool)
    ensures var (t, reply) := Asked(s, c, key, client, time, breakerOpen);
      var copy := Copy(s, key, time);
      if Remembers(s, key, time) then
        reply == IsTooLarge && SameFlights(t, s) && SameBudgets(s, t) && t.cache == s.cache && t.tooLarge == s.tooLarge
      else
        && t.tooLarge == Without(s.tooLarge, key) && t.cache == ByteLru.AfterGet(s.cache, key, time)
        && if copy.Some? && time < copy.value.freshUntil then AnsweredFresh(s, t, reply, copy.value)
           else if copy.Some? && time < copy.value.staleUntil then
             AnsweredStale(s, t, reply, copy.value, c, key, breakerOpen)
           else
             var spare := if copy.Some? then Some(copy.value.value) else None;
             AnsweredMiss(s, t, reply, spare, c, key, client, time, breakerOpen)
  {
    if !KnownTooLarge(s, key, time) {
      var s2 := LookedUp(s, key, time);
      var copy := Copy(s, key, time);
      HitIsCopy(s, key, time);
      if copy.Some? && time < copy.value.freshUntil {
      } else if copy.Some? && time < copy.value.staleUntil {
        BegunBegins(s2, c, key, breakerOpen);
      } else {
        MissAnswers(s2, c, key, client, if copy.Some? then Some(copy.value.value) else None, breakerOpen);
        WithHitTakes(s2, c, key, client, ByteLru.HitOf(s.cache, key, time), breakerOpen);
      }
    }
  }

  lemma {:induction false} HitIsCopy(s: State, key: string, time: real)
    ensures ByteLru.HitOf(s.cache, key, time).Some? <==> Copy(s, key, time).Some?
    ensures Copy(s, key, time).Some? ==>
      var e, h := Copy(s, key, time).value, ByteLru.HitOf(s.cache, key, time).value;
      && h.value == e.value && (h.state.Fresh? <==> time < e.freshUntil)
      && (h.state.Stale? <==> e.freshUntil <= time < e.staleUntil)
  {
  }

  /* what is cached and remembered, and from when */

  /** The step from `j` caches the entry: the value of a build of that key, from the time of the step on. */
  ghost predicate CachedBy(run: seq<State>, c: Config, j: nat, slot: Slot<string, ByteLru.Entry<nat>>, a: Action)
    requires j + 1 < |run|
  {
    && a.Store? && Next(run[j], c, a, run[j + 1]) && slot.key == run[j].builds[a.id].key
    && slot.held.value == a.value && slot.held.bytes == a.bytes
    && slot.held.freshUntil == a.time + a.lifetimes.freshMs
    && slot.held.staleUntil == slot.held.freshUntil + a.lifetimes.staleMs
    && slot.held.errorUntil == slot.held.staleUntil + a.lifetimes.errorMs
  }

  lemma {:induction false} SlotAfterGet(cache: seq<Slot<string, ByteLru.Entry<nat>>>, key: string, time: real,
                                        slot: Slot<string, ByteLru.Entry<nat>>)
    requires slot in ByteLru.AfterGet(cache, key, time)
    ensures slot in cache
  {
  }

  lemma {:induction false} SlotEvicted(cache: seq<Slot<string, ByteLru.Entry<nat>>>, maxBytes: nat,
                                       slot: Slot<string, ByteLru.Entry<nat>>)
    requires slot in ByteLru.Evicted(cache, maxBytes)
    ensures slot in cache
    decreases |cache|
  {
    if ByteLru.Bytes(cache) > maxBytes { SlotEvicted(cache[1..], maxBytes, slot); }
  }

  lemma {:induction false} SlotIsOld(s: State, c: Config, a: Action, s': State, slot: Slot<string, ByteLru.Entry<nat>>)
    requires Next(s, c, a, s') && !a.Store? && slot in s'.cache
    ensures slot in s.cache
  {
    if a.Ask? {
      AskedTakes(s, c, a.key, a.client, a.time, a.breakerOpen);
      if s'.cache != s.cache { SlotAfterGet(s.cache, a.key, a.time, slot); }
    }
  }

  lemma {:induction false} SlotStored(run: seq<State>, c: Config, j: nat, a: Action,
                                      slot: Slot<string, ByteLru.Entry<nat>>)
    requires j + 1 < |run| && Next(run[j], c, a, run[j + 1]) && a.Store? && slot in run[j + 1].cache
    ensures slot in run[j].cache || CachedBy(run, c, j, slot, a)
  {
    var s := run[j];
    var e := ByteLru.NewEntry(s.builds[a.id].key, a.value, a.bytes, a.lifetimes, a.time);
    if a.bytes <= c.cacheBytes { SlotEvicted(Without(s.cache, e.key) + [e], c.cacheBytes, slot); }
  }

  /** Every entry of the cache is what some build of its key stored, aged from then. */
  lemma {:induction false} CachedWasBuilt(run: seq<State>, c: Config, i: nat, slot: Slot<string, ByteLru.Entry<nat>>)
    returns (j: nat, a: Action)
    requires Run(run, c) && i < |run| && slot in run[i].cache
    ensures j < i && CachedBy(run, c, j, slot, a)
  {
    hide Next;
    if i == 0 {
      assert false;
    } else {
      assert StepAt(run, c, i - 1);
      a :| Next(run[i - 1], c, a, run[i]);
      if slot in run[i - 1].cache {
        j, a := CachedWasBuilt(run, c, i - 1, slot);
      } else {
        if !a.Store? { SlotIsOld(run[i - 1], c, a, run[i], slot); }
        SlotStored(run, c, i - 1, a, slot);
        j := i - 1;
      }
    }
  }

  /** And what a build stores is there at once, if it fits, in place of what there was. */
  lemma {:induction false} BuiltIsCached(run: seq<State>, c: Config, j: nat, a: Action)
    returns (slot: Slot<string, ByteLru.Entry<nat>>)
    requires j + 1 < |run| && a.Store? && Next(run[j], c, a, run[j + 1]) && a.bytes <= c.cacheBytes
    ensures CachedBy(run, c, j, slot, a) && slot in run[j + 1].cache
  {
    slot := ByteLru.NewEntry(run[j].builds[a.id].key, a.value, a.bytes, a.lifetimes, a.time);
    ByteLru.SetKeepsItsEntry(run[j].cache, slot, c.cacheBytes);
  }

  /** The step from `j` remembers the key: a build of it was told its rows are too many. */
  ghost predicate RememberedBy(run: seq<State>, c: Config, j: nat, key: string, until: real, a: Action)
    requires j + 1 < |run|
  {
    && a.Remember? && Next(run[j], c, a, run[j + 1]) && run[j].builds[a.id] == Build(key, TooLarge)
    && until == a.time + TOO_LARGE_MS
  }

  lemma {:induction false} AskedKeepsOthers(s: State, c: Config, key: string, client: string, time: real,
                                            breakerOpen: bool)
    ensures var t := Asked(s, c, key, client, time, breakerOpen).0;
      t.tooLarge == s.tooLarge || t.tooLarge == Without(s.tooLarge, key)
  {
    AskedAnswers(s, c, key, client, time, breakerOpen);
  }

  lemma {:induction false} RememberedSlot(run: seq<State>, c: Config, j: nat, a: Action, slot: Slot<string, real>)
    requires j + 1 < |run| && Next(run[j], c, a, run[j + 1]) && slot in run[j + 1].tooLarge
    ensures slot in run[j].tooLarge || RememberedBy(run, c, j, slot.key, slot.held, a)
  {
    if a.Ask? { AskedKeepsOthers(run[j], c, a.key, a.client, a.time, a.breakerOpen); }
  }

  /** Every key is remembered for five minutes from the step in which a build of it was told its rows are too many. */
  lemma {:induction false} RememberedWasTooLarge(run: seq<State>, c: Config, i: nat, slot: Slot<string, real>)
    returns (j: nat, a: Action)
    requires Run(run, c) && i < |run| && slot in run[i].tooLarge
    ensures j < i && RememberedBy(run, c, j, slot.key, slot.held, a)
  {
    hide Next;
    if i == 0 {
      assert false;
    } else {
      assert StepAt(run, c, i - 1);
      a :| Next(run[i - 1], c, a, run[i]);
      if slot in run[i - 1].tooLarge {
        j, a := RememberedWasTooLarge(run, c, i - 1, slot);
      } else {
        RememberedSlot(run, c, i - 1, a, slot);
        j := i - 1;
      }
    }
  }

  /** At once, and no longer: the requests for it are refused from then on until the five minutes are over. */
  lemma {:induction false} TooLargeIsRemembered(run: seq<State>, c: Config, j: nat, key: string, until: real, a: Action,
                                                time: real)
    requires j + 1 < |run| && RememberedBy(run, c, j, key, until, a)
    ensures Remembers(run[j + 1], key, time) <==> time < until
    ensures DistinctKeys(run[j].tooLarge) ==>
      forall slot | slot in run[j].tooLarge && slot.key != key ::
        slot in run[j + 1].tooLarge
        || (|run[j].tooLarge| >= TOO_LARGE_MAX_ENTRIES && slot == run[j].tooLarge[0])
  {
    var kept := if |run[j].tooLarge| >= TOO_LARGE_MAX_ENTRIES then run[j].tooLarge[1..] else run[j].tooLarge;
    var after := run[j + 1].tooLarge;
    PutHeld(kept, key, until);
    forall slot | slot in run[j].tooLarge && slot.key != key && slot in kept ensures slot in after {
      PutKeeps(kept, key, until, slot);
    }
    if |run[j].tooLarge| >= TOO_LARGE_MAX_ENTRIES {
      assert run[j].tooLarge == [run[j].tooLarge[0]] + kept;
    }
  }

  lemma {:induction false} PutKeeps(slots: seq<Slot<string, real>>, key: string, value: real, slot: Slot<string, real>)
    requires slot in slots && slot.key != key
    ensures slot in Put(slots, key, value)
  {
    var i :| 0 <= i < |slots| && slots[i] == slot;
    assert Put(slots, key, value)[i] == slot;
  }

  lemma {:induction false} PutHeld(slots: seq<Slot<string, real>>, key: string, value: real)
    ensures HeldAt(Put(slots, key, value), key) == Some(value)
  {
    var i, after := IndexOf(slots, key), Put(slots, key, value);
    assert after[i] == Slot(key, value);
    assert forall j | 0 <= j < i :: after[j].key != key;
    assert IndexOf(after, key) == i;
  }

  /** The list is bounded, with each key once. */
  lemma {:induction false} TooLargeBounded(run: seq<State>, c: Config, i: nat)
    requires Run(run, c) && i < |run|
    ensures |run[i].tooLarge| <= TOO_LARGE_MAX_ENTRIES && DistinctKeys(run[i].tooLarge)
  {
    hide Next;
    if i > 0 {
      TooLargeBounded(run, c, i - 1);
      assert StepAt(run, c, i - 1);
      var a :| Next(run[i - 1], c, a, run[i]);
      KeepsTooLarge(run[i - 1], c, a, run[i]);
    }
  }

  lemma {:induction false} KeepsTooLarge(s: State, c: Config, a: Action, s': State)
    requires Next(s, c, a, s') && |s.tooLarge| <= TOO_LARGE_MAX_ENTRIES && DistinctKeys(s.tooLarge)
    ensures |s'.tooLarge| <= TOO_LARGE_MAX_ENTRIES && DistinctKeys(s'.tooLarge)
  {
    if a.Ask? {
      AskedKeepsOthers(s, c, a.key, a.client, a.time, a.breakerOpen);
      WithoutKeys(s.tooLarge, a.key);
    } else if a.Remember? {
      var kept := if |s.tooLarge| >= TOO_LARGE_MAX_ENTRIES then s.tooLarge[1..] else s.tooLarge;
      assert DistinctKeys(kept);
      PutKeys(kept, s.builds[a.id].key, a.time + TOO_LARGE_MS);
    }
  }

  /* builds end */

  ghost predicate Leads(path: seq<State>, c: Config) {
    |path| >= 1 && forall i | 0 <= i < |path| - 1 :: StepAt(path, c, i)
  }

  /** What a build waits for: nothing, once it is settling. */
  lemma {:induction false} CanSettle(s: State, c: Config, id: nat) returns (path: seq<State>)
    requires FlightsOk(s) && GateOk(s, c) && At(s, id, Settling)
    ensures |path| == 2 && Leads(path, c) && path[0] == s && id !in path[1].builds
    ensures s.builds[id].key !in path[1].running
  {
    var s' := s.(running := s.running - {s.builds[id].key}, builds := s.builds - {id});
    assert Next(s, c, Settle(id), s');
    path := [s, s'];
    assert StepAt(path, c, 0);
  }

  /** The step that a build can take next towards its end, whatever its database does. */
  lemma {:induction false} Onward(s: State, c: Config, id: nat) returns (s': State)
    requires FlightsOk(s) && GateOk(s, c) && id in s.builds && s.builds[id].phase != Settling
    ensures StepTo(s, c, s') && At(s', id, Settling) && s'.builds[id].key == s.builds[id].key
  {
    match s.builds[id].phase
    case Queued =>
      s' := InPhase(s, id, Settling).(gate := G.TimedOut(s.gate, id));
      assert Next(s, c, WaitOver(id), s');
    case Reading =>
      assert id in ReadingIds(s.builds);
      s' := ReadEnded(s, id, Settling);
      assert Next(s, c, ReadEnds(id, Settling), s');
      WaitingIsOther(s, c, id);
    case HasRows =>
      var lifetimes := ByteLru.Lifetimes(0.0, 0.0, 0.0);
      s' := InPhase(s, id, Settling).(now := s.now, cache := ByteLru.AfterSet(
        s.cache, ByteLru.NewEntry(s.builds[id].key, 0, 0, lifetimes, s.now), c.cacheBytes));
      assert Next(s, c, Store(id, s.now, 0, 0, lifetimes), s');
    case TooLarge =>
      s' := InPhase(s, id, Settling).(
        now := s.now, tooLarge := Remembered(s.tooLarge, s.builds[id].key, s.now + TOO_LARGE_MS));
      assert Next(s, c, Remember(id, s.now), s');
  }

  lemma {:induction false} WaitingIsOther(s: State, c: Config, id: nat)
    requires GateOk(s, c) && At(s, id, Reading)
    ensures s.gate.waiting != [] ==> s.gate.waiting[0] != id
  {
    if s.gate.waiting != [] { assert s.gate.waiting[0] in s.gate.waiting; }
  }

  /** From every state of every run, every build can end in two steps, which leaves its key free for another. */
  lemma {:induction false} EveryBuildEnds(run: seq<State>, c: Config, i: nat, id: nat) returns (path: seq<State>)
    requires Run(run, c) && i < |run| && id in run[i].builds
    ensures Leads(path, c) && path[0] == run[i] && |path| <= 3
    ensures var s' := path[|path| - 1]; id !in s'.builds && run[i].builds[id].key !in s'.running
  {
    hide Next, FlightsOk, GateOk, MissBudget, TakesOk, Run;
    RunInv(run, c, i);
    var s := run[i];
    if s.builds[id].phase == Settling {
      path := CanSettle(s, c, id);
    } else {
      var s' := Onward(s, c, id);
      var a :| Next(s, c, a, s');
      NextKeepsGate(s, c, a, s');
      var rest := CanSettle(s', c, id);
      path := [s] + rest;
      forall k | 0 <= k < |path| - 1 ensures StepAt(path, c, k) {
        if k > 0 { assert StepAt(rest, c, k - 1); }
      }
    }
  }

  /**
   * Who pays: only a request that misses and finds no build of its key is charged; one whose own budget refuses it
   * takes nothing from the shared one; and what starts a build on a miss was charged to both.
   */
  lemma {:induction false} OnlyMissesPay(s: State, c: Config, key: string, client: string, time: real,
                                         breakerOpen: bool)
    ensures var (t, reply) := Asked(s, c, key, client, time, breakerOpen);
      var own, shared := R.Take(client, time), R.Take(SHARED, time);
      && (reply.IsTooLarge? || reply.FromCache? || reply.Joins? ==>
            t.clients == s.clients && t.misses == s.misses && t.missStarts == s.missStarts)
      && (key in s.running ==> t.clients == s.clients && t.misses == s.misses && t.running == s.running)
      && (!R.Allowed(s.clients, own, c.clients) ==> t.misses == s.misses && t.missStarts == s.missStarts)
      && (t.missStarts != s.missStarts <==> reply.Starts?)
      && (reply.Starts? ==> key !in s.running && key in t.running && reply.run == t.running[key] == s.nextId
                            && R.Allowed(s.clients, own, c.clients) && t.clients == R.After(s.clients, own, c.clients)
                            && R.Allowed(s.misses, shared, c.misses) && t.misses == R.After(s.misses, shared, c.misses))
  {
    if !KnownTooLarge(s, key, time) {
      var hit := ByteLru.HitOf(s.cache, key, time);
      MissesPay(LookedUp(s, key, time), c, key, client, if hit.Some? then Some(hit.value.value) else None, breakerOpen);
    }
  }

  lemma {:induction false} MissesPay(s: State, c: Config, key: string, client: string, spare: Option<nat>,
                                     breakerOpen: bool)
    ensures var (t, reply) := Missed(s, c, key, client, spare, breakerOpen);
      var own, shared := R.Take(client, s.now), R.Take(SHARED, s.now);
      && !reply.FromCache? && !reply.IsTooLarge?
      && (reply.Joins? <==> key in s.running)
      && (reply.Joins? ==> t == s)
      && (!R.Allowed(s.clients, own, c.clients) ==> t.misses == s.misses && t.missStarts == s.missStarts)
      && (t.missStarts != s.missStarts <==> reply.Starts?)
      && (reply.Starts? ==> key !in s.running && key in t.running && reply.run == t.running[key] == s.nextId
                            && R.Allowed(s.clients, own, c.clients) && t.clients == R.After(s.clients, own, c.clients)
                            && R.Allowed(s.misses, shared, c.misses) && t.misses == R.After(s.misses, shared, c.misses))
  {
  }
}
