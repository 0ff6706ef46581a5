/**
 * The RPC pacer (apps/indexer/scripts/rpcPacer.ts): forwarded requests over a pool of upstreams, as steps of one event
 * loop. Times are real milliseconds; what an upstream answers, when, and whether a client goes away are arbitrary.
 */
module Pacer {
  import opened Options
  import Reals

  const MAX_ATTEMPTS := 12
  const INTERNAL_ERROR_ATTEMPTS := 4
  const MAX_BACKOFF_MS := 60000.0
  const SUCCESSES_PER_RATE_STEP := 20
  const RATE_DECREASE_COOLDOWN_MS := 10000.0

  /* ---------------------------------------------------------------- the rate controller */

  datatype Rate = Rate(rate: real, successes: nat, lastDecrease: Option<real>)

  function Max(a: real, b: real): real { if a < b then b else a }
  function Min(a: real, b: real): real { if a < b then a else b }

  function AfterSuccess(r: Rate, max: real): Rate {
    if r.successes + 1 >= SUCCESSES_PER_RATE_STEP
    then r.(successes := 0, rate := Min(max, r.rate + Max(0.5, r.rate * 0.1)))
    else r.(successes := r.successes + 1)
  }

  function AfterRateLimited(r: Rate, min: real, now: real): Rate {
    if r.lastDecrease.Some? && now - r.lastDecrease.value < RATE_DECREASE_COOLDOWN_MS then r.(successes := 0)
    else Rate(Max(min, r.rate / 2.0), 0, Some(now))
  }

  /** What a controller is told over a run, and the rate it has before the `i`th. */
  datatype Signal = Success | Limited(now: real)

  function RateAt(signals: seq<Signal>, initial: real, min: real, max: real, i: nat): Rate
    requires i <= |signals|
  {
    if i == 0 then Rate(initial, 0, None)
    else
      var r := RateAt(signals, initial, min, max, i - 1);
      match signals[i - 1]
      case Success => AfterSuccess(r, max)
      case Limited(now) => AfterRateLimited(r, min, now)
  }

  /** The signal lowers the rate, or would if it were not at its lowest: no decrease was made within the cooldown. */
  ghost predicate HalvesAt(signals: seq<Signal>, initial: real, min: real, max: real, i: nat)
    requires i < |signals|
  {
    var last := RateAt(signals, initial, min, max, i).lastDecrease;
    signals[i].Limited? && (last.None? || signals[i].now - last.value >= RATE_DECREASE_COOLDOWN_MS)
  }

  /** A rate falls only there, and at most to its half; it stays within its limits. */
  lemma {:induction false} FallsOnlyThere(signals: seq<Signal>, initial: real, min: real, max: real, i: nat)
    requires 0.0 < min <= initial <= max && i < |signals|
    ensures var r, r' := RateAt(signals, initial, min, max, i).rate, RateAt(signals, initial, min, max, i + 1).rate;
      && min <= r' <= max && r' >= r / 2.0
      && (r' < r ==> HalvesAt(signals, initial, min, max, i))
  {
    if i > 0 { FallsOnlyThere(signals, initial, min, max, i - 1); }
  }

  lemma {:induction false} LastDecreaseFrom(signals: seq<Signal>, initial: real, min: real, max: real, i: nat, j: nat)
    requires i < j <= |signals| && HalvesAt(signals, initial, min, max, i)
    ensures var last := RateAt(signals, initial, min, max, j).lastDecrease; last.Some? && last.value >= signals[i].now
    decreases j
  {
    if j > i + 1 { LastDecreaseFrom(signals, initial, min, max, i, j - 1); }
  }

  /**
   * Two halvings of a rate are at least a cooldown apart, whatever comes between, however many answers were limited.
   */
  lemma {:induction false} HalvingsApart(signals: seq<Signal>, initial: real, min: real, max: real, i: nat, j: nat)
    requires i < j < |signals| && HalvesAt(signals, initial, min, max, i) && HalvesAt(signals, initial, min, max, j)
    ensures signals[j].now - signals[i].now >= RATE_DECREASE_COOLDOWN_MS
  {
    LastDecreaseFrom(signals, initial, min, max, i, j);
  }

  class RateController {
    const min: real
    const max: real
    var rate: real
    var successes: nat
    var lastDecrease: Option<real>

    ghost function State(): Rate
      reads this
    {
      Rate(rate, successes, lastDecrease)
    }

    ghost predicate Valid()
      reads this
    {
      0.0 < min <= rate <= max
    }

    constructor (initial: real, min: real, max: real)
      requires 0.0 < min <= initial <= max
      ensures Valid() && State() == Rate(initial, 0, None) && this.min == min && this.max == max
    {
      this.min := min;
      this.max := max;
      rate := initial;
      successes := 0;
      lastDecrease := None;
    }

    method OnSuccess()
      requires Valid()
      modifies this
      ensures Valid() && State() == AfterSuccess(old(State()), max)
    {
      successes := successes + 1;
      if successes >= SUCCESSES_PER_RATE_STEP {
        successes := 0;
        rate := Min(max, rate + Max(0.5, rate * 0.1));
      }
    }

    method OnRateLimited(now: real)
      requires Valid()
      modifies this
      ensures Valid() && State() == AfterRateLimited(old(State()), min, now)
    {
      successes := 0;
      if lastDecrease.Some? && now - lastDecrease.value < RATE_DECREASE_COOLDOWN_MS { return; }
      lastDecrease := Some(now);
      rate := Max(min, rate / 2.0);
    }
  }

  /* ---------------------------------------------------------------- upstreams and requests */

  /** `slots` is a history: the slots reserved so far. */
  datatype Upstream = Upstream(
    rate: Rate, nextSlot: real, pausedUntil: real, strikes: nat, maxLogRange: Option<int>, inFlight: nat,
    slots: seq<real>)

  datatype AnswerKind = Good | RateLimited | Transient | InternalError | RangeRefused | NoState
  datatype Reply = Passed | LastRefusal | GaveUp | Abandoned

  /**
   * At the top of the attempts loop; waiting for an upstream; woken; sending; with an answer; backing off; answered.
   */
  datatype Phase =
    | Top
    | Waiting
    | Woken
    | Sending(target: nat)
    | Answered(source: nat, kind: AnswerKind)
    | Backoff
    | Done(reply: Reply)

  /** `sends` is a history: the sends begun. */
  datatype Request = Request(
    phase: Phase, tried: set<nat>, refused: set<nat>, attempt: nat, hasRefusal: bool, logRange: Option<int>,
    aborted: bool, sends: nat)

  datatype Config = Config(upstreams: nat, concurrency: nat, initial: real, min: real, max: real)

  predicate ValidConfig(c: Config) { c.upstreams >= 1 && c.concurrency >= 1 && 0.0 < c.min <= c.initial <= c.max }

  datatype State = State(upstreams: seq<Upstream>, requests: seq<Request>)

  function FreeAt(u: Upstream, now: real): real { Max(Max(now, u.nextSlot), u.pausedUntil) }

  function All(n: nat): (all: set<nat>)
    ensures |all| == n && forall u: nat :: u in all <==> u < n
  {
    if n == 0 then {} else All(n - 1) + {n - 1}
  }

  /** The upstreams a request may go to: those it has not tried, when any is left, else any that did not refuse it. */
  function Pool(r: Request, n: nat): set<nat> {
    var allowed := All(n) - r.refused;
    if allowed - r.tried != {} then allowed - r.tried else allowed
  }

  predicate Sooner(a: Upstream, b: Upstream, now: real) {
    FreeAt(a, now) < FreeAt(b, now) || (FreeAt(a, now) == FreeAt(b, now) && a.inFlight < b.inFlight)
  }

  /**
   * Among the first `n` upstreams, the one of the pool below its cap that is free soonest, the earliest listed if tied.
   */
  function Pick(us: seq<Upstream>, pool: set<nat>, concurrency: nat, now: real, n: nat): Option<nat>
    requires n <= |us|
  {
    if n == 0 then None else
    var best := Pick(us, pool, concurrency, now, n - 1);
    if n - 1 !in pool || us[n - 1].inFlight >= concurrency then best
    else if best.None? || best.value >= n || Sooner(us[n - 1], us[best.value], now) then Some(n - 1)
    else best
  }

  ghost predicate IsFree(us: seq<Upstream>, pool: set<nat>, concurrency: nat, u: nat) {
    u < |us| && u in pool && us[u].inFlight < concurrency
  }

  ghost predicate IsSoonest(us: seq<Upstream>, pool: set<nat>, concurrency: nat, now: real, n: nat, u: nat) {
    && n <= |us| && u < n && IsFree(us, pool, concurrency, u)
    && forall o: nat | o < n && IsFree(us, pool, concurrency, o) ::
         !Sooner(us[o], us[u], now) && (o < u ==> Sooner(us[u], us[o], now))
  }

  /**
   * The pick is free, none free is sooner, and none listed before it as soon; there is none exactly when every upstream
   * of the pool is at its cap.
   */
  lemma {:induction false} PicksSoonest(us: seq<Upstream>, pool: set<nat>, concurrency: nat, now: real, n: nat)
    requires n <= |us|
    ensures var pick := Pick(us, pool, concurrency, now, n);
      if pick.Some? then IsSoonest(us, pool, concurrency, now, n, pick.value)
      else forall u: nat | u < n :: !IsFree(us, pool, concurrency, u)
  {
    if n > 0 { PicksSoonest(us, pool, concurrency, now, n - 1); }
  }

  function PowerOfTwo(k: nat): real { if k == 0 then 1.0 else 2.0 * PowerOfTwo(k - 1) }

  /** The upstream's `Retry-After` in seconds, when it gives one, or an exponential backoff. */
  function RetryDelayMs(attempt: nat, retryAfter: Option<real>): real {
    if retryAfter.Some? && retryAfter.value >= 0.0 then Min(MAX_BACKOFF_MS, retryAfter.value * 1000.0)
    else Min(MAX_BACKOFF_MS, 500.0 * PowerOfTwo(attempt))
  }

  datatype Action =
    | Arrive(logRange: Option<int>)
    | Abort(r: nat)
    | Loop(r: nat, nearHead: bool, now: real)
    | Retry(r: nat, now: real)
    | SendEnds(r: nat, kind: AnswerKind)
    | Handle(r: nat, retryAfter: Option<real>, now: real)
    | BackoffOver(r: nat)

  function TooNarrow(us: seq<Upstream>, logRange: Option<int>): set<nat> {
    set u: nat | u < |us| && logRange.Some? && us[u].maxLogRange.Some? && logRange.value > us[u].maxLogRange.value
  }

  function NewRequest(us: seq<Upstream>, logRange: Option<int>): Request {
    var narrow := TooNarrow(us, logRange);
    Request(Top, {}, if |narrow| < |us| then narrow else {}, 0, false, logRange, false, 0)
  }

  /** The time between two slots (a rate is always positive). */
  function Gap(rate: real): real { if rate > 0.0 then 1000.0 / rate else 0.0 }

  function Reserved(u: Upstream, now: real): Upstream {
    var slot := FreeAt(u, now);
    u.(inFlight := u.inFlight + 1, nextSlot := slot + Gap(u.rate.rate), slots := u.slots + [slot])
  }

  function With(s: State, r: nat, q: Request): State
    requires r < |s.requests|
  {
    s.(requests := s.requests[r := q])
  }

  /** One turn of the wait for an upstream. */
  function Acquire(s: State, c: Config, r: nat, now: real): State
    requires r < |s.requests|
  {
    var q := s.requests[r];
    if q.aborted then With(s, r, q.(phase := Done(Abandoned))) else
    match Pick(s.upstreams, Pool(q, |s.upstreams|), c.concurrency, now, |s.upstreams|)
    case None => With(s, r, q.(phase := Waiting))
    case Some(u) =>
      if u >= |s.upstreams| then s else
      With(s, r, q.(phase := Sending(u), sends := q.sends + 1)).(
        upstreams := s.upstreams[u := Reserved(s.upstreams[u], now)])
  }

  predicate Unavailable(s: State, q: Request, nearHead: bool, now: real) {
    forall u: nat | u < |s.upstreams| :: u in q.refused || (nearHead && s.upstreams[u].pausedUntil > now)
  }

  function Wakened(requests: seq<Request>): seq<Request> {
    seq(|requests|, i requires 0 <= i < |requests| =>
      if requests[i].phase.Waiting? then requests[i].(phase := Woken) else requests[i])
  }

  /** What an answer does to the upstream that gave it. */
  function Learnt(u: Upstream, kind: AnswerKind, logRange: Option<int>, retryAfter: Option<real>, now: real,
                  c: Config): Upstream
  {
    match kind
    case Good => u.(strikes := 0, rate := AfterSuccess(u.rate, c.max))
    case RangeRefused =>
      if logRange.Some? then
        var widest := u.maxLogRange.GetOr(logRange.value);
        u.(maxLogRange := Some(if widest < logRange.value - 1 then widest else logRange.value - 1))
      else u
    case RateLimited =>
      u.(rate := AfterRateLimited(u.rate, c.min, now), strikes := u.strikes + 1,
         pausedUntil := Max(u.pausedUntil, now + RetryDelayMs(u.strikes, retryAfter)))
    case _ => u
  }

  function AttemptLimit(kind: AnswerKind, n: nat): nat {
    if kind.InternalError? then (if n > INTERNAL_ERROR_ATTEMPTS then n else INTERNAL_ERROR_ATTEMPTS)
    else MAX_ATTEMPTS * n
  }

  /** What an answer does to the request. */
  function Answers(q: Request, source: nat, kind: AnswerKind, n: nat): Request {
    if q.aborted then q.(phase := Done(Abandoned)) else
    var q := q.(tried := q.tried + {source});
    match kind
    case Good => q.(phase := Done(Passed))
    case RangeRefused => q.(refused := q.refused + {source}, hasRefusal := true, attempt := q.attempt + 1, phase := Top)
    case NoState => q.(refused := q.refused + {source}, hasRefusal := true, attempt := q.attempt + 1, phase := Top)
    case _ =>
      if q.attempt + 1 >= AttemptLimit(kind, n) then q.(phase := Done(GaveUp))
      else if !kind.RateLimited? && All(n) <= q.tried + q.refused then
        q.(tried := {}, attempt := q.attempt + 1, phase := Backoff)
      else q.(attempt := q.attempt + 1, phase := Top)
  }

  predicate In(s: State, r: nat, phase: Phase) { r < |s.requests| && s.requests[r].phase == phase }

  ghost predicate Next(s: State, c: Config, a: Action, s': State) {
    match a
    case Arrive(logRange) => s' == s.(requests := s.requests + [NewRequest(s.upstreams, logRange)])
    case Abort(r) => r < |s.requests| && s' == With(s, r, s.requests[r].(aborted := true))
    case Loop(r, nearHead, now) =>
      && In(s, r, Top)
      && s' == if s.requests[r].hasRefusal && Unavailable(s, s.requests[r], nearHead, now)
               then With(s, r, s.requests[r].(phase := Done(LastRefusal))) else Acquire(s, c, r, now)
    case Retry(r, now) => In(s, r, Woken) && s' == Acquire(s, c, r, now)
    case SendEnds(r, kind) =>
      && r < |s.requests| && s.requests[r].phase.Sending? && s.requests[r].phase.target < |s.upstreams|
      && var u := s.requests[r].phase.target;
         s.upstreams[u].inFlight > 0
         && s' == State(s.upstreams[u := s.upstreams[u].(inFlight := s.upstreams[u].inFlight - 1)],
                        Wakened(s.requests[r := s.requests[r].(phase := Answered(u, kind))]))
    case Handle(r, retryAfter, now) =>
      && r < |s.requests| && s.requests[r].phase.Answered? && s.requests[r].phase.source < |s.upstreams|
      && var q := s.requests[r];
         var u := q.phase.source;
         s' == State(if q.aborted then s.upstreams
                     else s.upstreams[u := Learnt(s.upstreams[u], q.phase.kind, q.logRange, retryAfter, now, c)],
                     s.requests[r := Answers(q, u, q.phase.kind, |s.upstreams|)])
    case BackoffOver(r) => In(s, r, Backoff) && s' == With(s, r, s.requests[r].(phase := Top))
  }

  ghost predicate Init(s: State, c: Config) {
    s == State(seq(c.upstreams, _ => Upstream(Rate(c.initial, 0, None), 0.0, 0.0, 0, None, 0, [])), [])
  }

  ghost predicate StepTo(s: State, c: Config, s': State) { exists a: Action :: Next(s, c, a, s') }

  ghost predicate StepAt(run: seq<State>, c: Config, i: nat)
    requires i + 1 < |run|
  {
    StepTo(run[i], c, run[i + 1])
  }

  ghost predicate Run(run: seq<State>, c: Config) {
    ValidConfig(c) && |run| >= 1 && Init(run[0], c) && forall i | 0 <= i < |run| - 1 :: StepAt(run, c, i)
  }

  /* ---------------------------------------------------------------- the invariant */

  predicate Acquiring(q: Request) { q.phase.Waiting? || q.phase.Woken? || q.phase.Sending? || q.phase.Answered? }

  predicate SentOn(q: Request, u: nat) { q.phase == Sending(u) || (q.phase.Answered? && q.phase.source == u) }

  predicate SendingNow(q: Request) { q.phase.Sending? || q.phase.Answered? }

  ghost predicate RequestOk(q: Request, n: nat) {
    && q.tried <= All(n) && q.refused <= All(n)
    && (q.refused == All(n) ==> q.hasRefusal)
    && (Acquiring(q) ==> q.refused != All(n))
    && (forall u: nat | SentOn(q, u) :: u < n && u !in q.refused)
    && q.attempt + 1 <= MAX_ATTEMPTS * n + |q.refused|
    && (q.phase.Done? || q.sends == q.attempt + if SendingNow(q) then 1 else 0)
    && q.sends + 1 <= (MAX_ATTEMPTS + 1) * n
  }

  /** A request not refused by all has made fewer sends than the bound before its next one. */
  lemma {:induction false} RefusedCount(q: Request, n: nat)
    requires q.refused <= All(n)
    ensures |q.refused| <= n && (q.refused != All(n) ==> |q.refused| < n)
  {
    assert All(n) == q.refused + (All(n) - q.refused);
    if q.refused != All(n) { assert All(n) - q.refused != {}; }
  }

  predicate Spaced(slots: seq<real>, max: real) {
    forall i | 0 <= i < |slots| - 1 :: SpacedAt(slots, max, i)
  }

  predicate SpacedAt(slots: seq<real>, max: real, i: nat)
    requires i + 1 < |slots|
  {
    slots[i + 1] >= slots[i] + Gap(max)
  }

  predicate UpstreamOk(u: Upstream, c: Config) {
    && c.min <= u.rate.rate <= c.max && u.inFlight <= c.concurrency && Spaced(u.slots, c.max)
    && (u.slots != [] ==> u.nextSlot >= u.slots[|u.slots| - 1] + Gap(c.max))
  }

  function Senders(requests: seq<Request>, u: nat): set<nat> {
    set r | 0 <= r < |requests| && requests[r].phase == Sending(u)
  }

  /** Every upstream the waiting request may go to is at its cap. */
  ghost predicate WaitsForAll(s: State, c: Config, q: Request) {
    forall u | u in Pool(q, |s.upstreams|) && u < |s.upstreams| :: s.upstreams[u].inFlight >= c.concurrency
  }

  ghost predicate RequestsOk(s: State) { forall r | 0 <= r < |s.requests| :: RequestOk(s.requests[r], |s.upstreams|) }

  ghost predicate UpstreamsOk(s: State, c: Config) {
    |s.upstreams| == c.upstreams && forall u | 0 <= u < |s.upstreams| :: UpstreamOk(s.upstreams[u], c)
  }

  ghost predicate CountsOk(s: State) {
    forall u | 0 <= u < |s.upstreams| :: s.upstreams[u].inFlight == |Senders(s.requests, u)|
  }

  ghost predicate WaitsOk(s: State, c: Config) {
    forall r | 0 <= r < |s.requests| && s.requests[r].phase.Waiting? :: WaitsForAll(s, c, s.requests[r])
  }

  ghost predicate Inv(s: State, c: Config) { RequestsOk(s) && UpstreamsOk(s, c) && CountsOk(s) && WaitsOk(s, c) }

  /* ---------------------------------------------------------------- each step keeps it: requests */

  lemma {:induction false} PoolAllowed(q: Request, n: nat)
    ensures Pool(q, n) <= All(n) - q.refused
    ensures q.refused <= All(n) && q.refused != All(n) ==> Pool(q, n) != {}
  {
  }

  /** A step that leaves one request in a fitting state and the others as they were keeps them all fitting. */
  lemma {:induction false} OneRequestOk(s: State, r: nat, q: Request, s': State)
    requires RequestsOk(s) && r < |s.requests| && RequestOk(q, |s.upstreams|)
    requires s'.requests == s.requests[r := q] && |s'.upstreams| == |s.upstreams|
    ensures RequestsOk(s')
  {
    hide RequestOk;
  }

  /** A request that picks an upstream sends to one that has not refused it, and not once too often. */
  lemma {:induction false} SendingOk(q: Request, u: nat, n: nat)
    requires RequestOk(q, n) && (q.phase.Top? || q.phase.Woken?) && u < n && u !in q.refused
    ensures RequestOk(q.(phase := Sending(u), sends := q.sends + 1), n)
  {
    assert q.refused != All(n) by { assert u in All(n); }
    RefusedCount(q, n);
  }

  lemma {:induction false} AcquireRequestOk(s: State, c: Config, r: nat, now: real)
    requires RequestsOk(s) && r < |s.requests| && s.requests[r].refused != All(|s.upstreams|)
    requires s.requests[r].phase.Top? || s.requests[r].phase.Woken?
    ensures RequestsOk(Acquire(s, c, r, now))
  {
    var q, n := s.requests[r], |s.upstreams|;
    var pool, s' := Pool(q, n), Acquire(s, c, r, now);
    assert RequestOk(q, n);
    if q.aborted {
      OneRequestOk(s, r, q.(phase := Done(Abandoned)), s');
    } else {
      PicksSoonest(s.upstreams, pool, c.concurrency, now, n);
      match Pick(s.upstreams, pool, c.concurrency, now, n)
      case None => OneRequestOk(s, r, q.(phase := Waiting), s');
      case Some(u) =>
        PoolAllowed(q, n);
        assert u in pool;
        SendingOk(q, u, n);
        OneRequestOk(s, r, q.(phase := Sending(u), sends := q.sends + 1), s');
    }
  }

  /** A refusal, which the loop counts as an attempt, also adds to the upstreams that refused. */
  lemma {:induction false} RefusalOk(q: Request, u: nat, n: nat)
    requires RequestOk(q, n) && q.phase.Answered? && q.phase.source == u && !q.aborted && n >= 1
    requires q.phase.kind.RangeRefused? || q.phase.kind.NoState?
    ensures RequestOk(Answers(q, u, q.phase.kind, n), n)
  {
    assert SentOn(q, u);
    var more := q.refused + {u};
    assert |more| == |q.refused| + 1 && more <= All(n);
    RefusedCount(q.(refused := more), n);
  }

  lemma {:induction false} FailureOk(q: Request, u: nat, n: nat)
    requires RequestOk(q, n) && q.phase.Answered? && q.phase.source == u && !q.aborted && n >= 1
    requires q.phase.kind.RateLimited? || q.phase.kind.Transient? || q.phase.kind.InternalError?
    ensures RequestOk(Answers(q, u, q.phase.kind, n), n)
  {
    assert SentOn(q, u);
    assert AttemptLimit(q.phase.kind, n) <= MAX_ATTEMPTS * n;
  }

  lemma {:induction false} AnswersOk(q: Request, u: nat, n: nat)
    requires RequestOk(q, n) && q.phase.Answered? && q.phase.source == u && n >= 1
    ensures RequestOk(Answers(q, u, q.phase.kind, n), n)
  {
    assert SentOn(q, u);
    if !q.aborted && !q.phase.kind.Good? {
      if q.phase.kind.RangeRefused? || q.phase.kind.NoState? { RefusalOk(q, u, n); } else { FailureOk(q, u, n); }
    }
  }

  lemma {:induction false} AbortOk(q: Request, n: nat)
    requires RequestOk(q, n)
    ensures RequestOk(q.(aborted := true), n)
  {
    forall u: nat | SentOn(q.(aborted := true), u) ensures u < n && u !in q.refused { assert SentOn(q, u); }
  }

  lemma {:induction false} SendEndsOk(s: State, c: Config, r: nat, kind: AnswerKind, s': State)
    requires RequestsOk(s) && Next(s, c, SendEnds(r, kind), s')
    ensures RequestsOk(s')
  {
    var u := s.requests[r].phase.target;
    assert SentOn(s.requests[r], u);
    forall i | 0 <= i < |s'.requests| ensures RequestOk(s'.requests[i], |s'.upstreams|) {
      assert RequestOk(s.requests[i], |s.upstreams|);
    }
  }

  lemma {:induction false} LoopAcquires(s: State, q: Request, nearHead: bool, now: real)
    requires RequestOk(q, |s.upstreams|) && !(q.hasRefusal && Unavailable(s, q, nearHead, now))
    ensures q.refused != All(|s.upstreams|)
  {
  }

  lemma {:induction false} LoopRequestsOk(s: State, c: Config, r: nat, nearHead: bool, now: real, s': State)
    requires RequestsOk(s) && Next(s, c, Loop(r, nearHead, now), s')
    ensures RequestsOk(s')
  {
    var q := s.requests[r];
    assert RequestOk(q, |s.upstreams|);
    if q.hasRefusal && Unavailable(s, q, nearHead, now) {
      OneRequestOk(s, r, q.(phase := Done(LastRefusal)), s');
    } else {
      LoopAcquires(s, q, nearHead, now);
      AcquireRequestOk(s, c, r, now);
    }
  }

  /** A new request begins with fewer refusals than upstreams, so with something left to ask. */
  lemma {:induction false} ArriveOk(s: State, c: Config, logRange: Option<int>, s': State)
    requires RequestsOk(s) && |s.upstreams| >= 1 && Next(s, c, Arrive(logRange), s')
    ensures RequestsOk(s')
  {
    var q, n := NewRequest(s.upstreams, logRange), |s.upstreams|;
    assert RequestOk(q, n);
    hide RequestOk;
  }

  lemma {:induction false} NextRequestsOk(s: State, c: Config, a: Action, s': State)
    requires ValidConfig(c) && Inv(s, c) && Next(s, c, a, s')
    ensures RequestsOk(s')
  {
    hide RequestOk, Acquire, Answers, Learnt, NewRequest, WaitsForAll, UpstreamOk, Senders;
    match a
    case Arrive(logRange) => ArriveOk(s, c, logRange, s');
    case Loop(r, nearHead, now) => LoopRequestsOk(s, c, r, nearHead, now, s');
    case Retry(r, now) =>
      assert s.requests[r].refused != All(|s.upstreams|) by { StillAllowed(s.requests[r], |s.upstreams|); }
      AcquireRequestOk(s, c, r, now);
    case SendEnds(r, kind) => SendEndsOk(s, c, r, kind, s');
    case Abort(r) =>
      AbortOk(s.requests[r], |s.upstreams|);
      OneRequestOk(s, r, s.requests[r].(aborted := true), s');
    case Handle(r, retryAfter, now) =>
      var q, n := s.requests[r], |s.upstreams|;
      AnswersOk(q, q.phase.source, n);
      OneRequestOk(s, r, Answers(q, q.phase.source, q.phase.kind, n), s');
    case BackoffOver(r) =>
      BackToTop(s.requests[r], |s.upstreams|);
      OneRequestOk(s, r, s.requests[r].(phase := Top), s');
  }

  lemma {:induction false} StillAllowed(q: Request, n: nat)
    requires RequestOk(q, n) && Acquiring(q)
    ensures q.refused != All(n)
  {
  }

  lemma {:induction false} BackToTop(q: Request, n: nat)
    requires RequestOk(q, n) && q.phase.Backoff?
    ensures RequestOk(q.(phase := Top), n)
  {
  }

  /* ---------------------------------------------------------------- upstreams */

  lemma {:induction false} GapMonotone(rate: real, max: real)
    requires 0.0 < rate <= max
    ensures Gap(rate) >= Gap(max) >= 0.0
  {
    var x, y := 1000.0 / rate, 1000.0 / max;
    assert x * rate == 1000.0 && y * max == 1000.0;
    Reals.SameProduct(x, rate, y, max, 1000.0);
  }

  lemma {:induction false} ReservedOk(u: Upstream, c: Config, now: real)
    requires ValidConfig(c) && UpstreamOk(u, c) && u.inFlight < c.concurrency
    ensures UpstreamOk(Reserved(u, now), c)
  {
    GapMonotone(u.rate.rate, c.max);
    var slots := Reserved(u, now).slots;
    forall i | 0 <= i < |slots| - 1 ensures SpacedAt(slots, c.max, i) {
      if i < |u.slots| - 1 { assert SpacedAt(u.slots, c.max, i); }
    }
  }

  lemma {:induction false} NextUpstreamsOk(s: State, c: Config, a: Action, s': State)
    requires ValidConfig(c) && Inv(s, c) && Next(s, c, a, s')
    ensures UpstreamsOk(s', c)
  {
    match a
    case Loop(r, _, now) => AcquireUpstreamsOk(s, c, r, now);
    case Retry(r, now) => AcquireUpstreamsOk(s, c, r, now);
    case Handle(r, retryAfter, now) => HandleUpstreamsOk(s, c, r, retryAfter, now, s');
    case _ =>
  }

  lemma {:induction false} HandleUpstreamsOk(s: State, c: Config, r: nat, retryAfter: Option<real>, now: real,
                                             s': State)
    requires ValidConfig(c) && UpstreamsOk(s, c) && Next(s, c, Handle(r, retryAfter, now), s')
    ensures UpstreamsOk(s', c)
  {
  }

  lemma {:induction false} AcquireUpstreamsOk(s: State, c: Config, r: nat, now: real)
    requires ValidConfig(c) && UpstreamsOk(s, c) && r < |s.requests|
    ensures UpstreamsOk(Acquire(s, c, r, now), c)
  {
    var q, n := s.requests[r], |s.upstreams|;
    PicksSoonest(s.upstreams, Pool(q, n), c.concurrency, now, n);
    var pick := Pick(s.upstreams, Pool(q, n), c.concurrency, now, n);
    if pick.Some? { ReservedOk(s.upstreams[pick.value], c, now); }
  }

  /* ---------------------------------------------------------------- who is sending, who waits */

  lemma {:induction false} SendersFrame(s: seq<Request>, t: seq<Request>, u: nat)
    requires |s| <= |t|
    requires forall r | 0 <= r < |t| :: (r < |s| && s[r].phase == Sending(u)) <==> t[r].phase == Sending(u)
    ensures Senders(t, u) == Senders(s, u)
  {
  }

  /** A request that starts or ends sending changes one count by one. */
  lemma {:induction false} SendersChange(s: seq<Request>, t: seq<Request>, u: nat, r: nat)
    requires r < |s| == |t| && s[r].phase != Sending(u) && t[r].phase == Sending(u)
    requires forall i | 0 <= i < |s| && i != r :: s[i].phase == Sending(u) <==> t[i].phase == Sending(u)
    ensures |Senders(t, u)| == |Senders(s, u)| + 1
  {
    assert Senders(t, u) == Senders(s, u) + {r};
  }

  lemma {:induction false} AcquireCounts(s: State, c: Config, r: nat, now: real)
    requires CountsOk(s) && r < |s.requests| && !s.requests[r].phase.Sending?
    ensures CountsOk(Acquire(s, c, r, now))
  {
    var s' := Acquire(s, c, r, now);
    forall u | 0 <= u < |s'.upstreams| ensures s'.upstreams[u].inFlight == |Senders(s'.requests, u)| {
      if s'.requests[r].phase == Sending(u) {
        SendersChange(s.requests, s'.requests, u, r);
      } else {
        SendersFrame(s.requests, s'.requests, u);
      }
    }
  }

  lemma {:induction false} SendEndsCounts(s: State, c: Config, r: nat, kind: AnswerKind, s': State)
    requires CountsOk(s) && Next(s, c, SendEnds(r, kind), s')
    ensures CountsOk(s')
  {
    forall u | 0 <= u < |s'.upstreams| ensures s'.upstreams[u].inFlight == |Senders(s'.requests, u)| {
      if s.requests[r].phase == Sending(u) {
        SendersChange(s'.requests, s.requests, u, r);
      } else {
        SendersFrame(s.requests, s'.requests, u);
      }
    }
  }

  lemma {:induction false} OtherCounts(s: State, c: Config, a: Action, s': State)
    requires CountsOk(s) && Next(s, c, a, s') && (a.Arrive? || a.Abort? || a.Handle? || a.BackoffOver?)
    ensures CountsOk(s')
  {
    forall u | 0 <= u < |s'.upstreams| ensures s'.upstreams[u].inFlight == |Senders(s'.requests, u)| {
      SendersFrame(s.requests, s'.requests, u);
    }
  }

  lemma {:induction false} NextCountsOk(s: State, c: Config, a: Action, s': State)
    requires ValidConfig(c) && Inv(s, c) && Next(s, c, a, s')
    ensures CountsOk(s')
  {
    match a
    case Loop(r, nearHead, now) =>
      if s.requests[r].hasRefusal && Unavailable(s, s.requests[r], nearHead, now) {
        forall u | 0 <= u < |s'.upstreams| ensures s'.upstreams[u].inFlight == |Senders(s'.requests, u)| {
          SendersFrame(s.requests, s'.requests, u);
        }
      } else {
        AcquireCounts(s, c, r, now);
      }
    case Retry(r, now) => AcquireCounts(s, c, r, now);
    case SendEnds(r, kind) => SendEndsCounts(s, c, r, kind, s');
    case _ => OtherCounts(s, c, a, s');
  }

  lemma {:induction false} AcquireWaits(s: State, c: Config, r: nat, now: real)
    requires WaitsOk(s, c) && r < |s.requests|
    ensures WaitsOk(Acquire(s, c, r, now), c)
  {
    var s' := Acquire(s, c, r, now);
    var q, n := s.requests[r], |s.upstreams|;
    PicksSoonest(s.upstreams, Pool(q, n), c.concurrency, now, n);
    forall i | 0 <= i < |s'.requests| && s'.requests[i].phase.Waiting? ensures WaitsForAll(s', c, s'.requests[i]) {
      if i != r {
      } else if !q.aborted {
        forall u | u in Pool(q, n) && u < n ensures s'.upstreams[u].inFlight >= c.concurrency {
          assert !IsFree(s.upstreams, Pool(q, n), c.concurrency, u);
        }
        assert Pool(s'.requests[r], n) == Pool(q, n);
      }
    }
  }

  /** Only a turn of the wait makes a request wait: one that waits after another step waited before it, as it was. */
  lemma {:induction false} WaitedBefore(s: State, c: Config, a: Action, s': State, i: nat)
    requires Next(s, c, a, s') && !a.Loop? && !a.Retry? && !a.SendEnds?
    requires i < |s'.requests| && s'.requests[i].phase.Waiting?
    ensures i < |s.requests| && s.requests[i].phase.Waiting?
    ensures s'.requests[i].tried == s.requests[i].tried && s'.requests[i].refused == s.requests[i].refused
  {
    hide Learnt;
    match a
    case Arrive(logRange) => hide TooNarrow; assert i < |s.requests|;
    case Handle(r, retryAfter, now) => hide AttemptLimit; assert i != r;
    case _ => hide Answers, NewRequest;
  }

  lemma {:induction false} OtherWaits(s: State, c: Config, a: Action, s': State)
    requires WaitsOk(s, c) && Next(s, c, a, s') && !a.Loop? && !a.Retry? && !a.SendEnds?
    requires |s'.upstreams| == |s.upstreams|
    requires forall u | 0 <= u < |s.upstreams| :: s'.upstreams[u].inFlight == s.upstreams[u].inFlight
    ensures WaitsOk(s', c)
  {
    hide Next;
    forall i | 0 <= i < |s'.requests| && s'.requests[i].phase.Waiting? ensures WaitsForAll(s', c, s'.requests[i]) {
      WaitedBefore(s, c, a, s', i);
      assert WaitsForAll(s, c, s.requests[i]);
    }
  }

  lemma {:induction false} NextWaitsOk(s: State, c: Config, a: Action, s': State)
    requires ValidConfig(c) && Inv(s, c) && Next(s, c, a, s')
    ensures WaitsOk(s', c)
  {
    match a
    case Loop(r, nearHead, now) =>
      if !(s.requests[r].hasRefusal && Unavailable(s, s.requests[r], nearHead, now)) {
        AcquireWaits(s, c, r, now);
      }
    case Retry(r, now) => AcquireWaits(s, c, r, now);
    case SendEnds(r, kind) => assert forall i | 0 <= i < |s'.requests| :: !s'.requests[i].phase.Waiting?;
    case Handle(r, retryAfter, now) => OtherWaits(s, c, a, s');
    case _ => OtherWaits(s, c, a, s');
  }

  lemma {:induction false} RunInv(run: seq<State>, c: Config, i: nat)
    requires Run(run, c) && i < |run|
    ensures Inv(run[i], c)
  {
    if i == 0 {
      assert forall u: nat :: Senders(run[0].requests, u) == {};
    } else {
      RunInv(run, c, i - 1);
      assert StepAt(run, c, i - 1);
      var a :| Next(run[i - 1], c, a, run[i]);
      NextRequestsOk(run[i - 1], c, a, run[i]);
      NextUpstreamsOk(run[i - 1], c, a, run[i]);
      NextCountsOk(run[i - 1], c, a, run[i]);
      NextWaitsOk(run[i - 1], c, a, run[i]);
    }
  }

  /* ---------------------------------------------------------------- the theorems */

  /**
   * For any answers, no request is sent more than 13 times the upstreams less one; and none waits once all refused it.
   */
  lemma {:induction false} SendsBounded(run: seq<State>, c: Config, i: nat, r: nat)
    requires Run(run, c) && i < |run| && r < |run[i].requests|
    ensures run[i].requests[r].sends <= 13 * c.upstreams - 1
    ensures var q := run[i].requests[r];
      q.phase.Waiting? || q.phase.Woken? ==> q.refused != All(c.upstreams)
  {
    RunInv(run, c, i);
    assert RequestOk(run[i].requests[r], c.upstreams);
  }

  /** A waiting request is never left alone: a send is in flight at an upstream it may go to, and its end wakes it. */
  lemma {:induction false} WaitingIsWoken(run: seq<State>, c: Config, i: nat, r: nat) returns (sender: nat)
    requires Run(run, c) && i < |run| && r < |run[i].requests| && run[i].requests[r].phase.Waiting?
    ensures var s := run[i];
      && sender < |s.requests| && s.requests[sender].phase.Sending?
      && s.requests[sender].phase.target in Pool(s.requests[r], c.upstreams)
      && forall kind, s' | Next(s, c, SendEnds(sender, kind), s') :: r < |s'.requests| && s'.requests[r].phase.Woken?
  {
    RunInv(run, c, i);
    sender := HasSender(run[i], c, r);
    forall kind, s' | Next(run[i], c, SendEnds(sender, kind), s')
      ensures r < |s'.requests| && s'.requests[r].phase.Woken?
    {
      SendEndsWakes(run[i], c, sender, kind, s', r);
    }
  }

  lemma {:induction false} HasSender(s: State, c: Config, r: nat) returns (sender: nat)
    requires ValidConfig(c) && Inv(s, c) && r < |s.requests| && s.requests[r].phase.Waiting?
    ensures sender < |s.requests| && s.requests[sender].phase.Sending?
    ensures s.requests[sender].phase.target in Pool(s.requests[r], c.upstreams)
  {
    var q := s.requests[r];
    assert RequestOk(q, c.upstreams) && WaitsForAll(s, c, q);
    PoolAllowed(q, c.upstreams);
    var u :| u in Pool(q, c.upstreams);
    assert u in All(c.upstreams);
    assert |Senders(s.requests, u)| >= 1;
    sender :| sender in Senders(s.requests, u);
  }

  lemma {:induction false} SendEndsWakes(s: State, c: Config, sender: nat, kind: AnswerKind, s': State, r: nat)
    requires Next(s, c, SendEnds(sender, kind), s') && r < |s.requests| && s.requests[r].phase.Waiting?
    ensures r < |s'.requests| && s'.requests[r].phase.Woken?
  {
  }

  /** Each upstream stays within its concurrency and its rate within the limits. */
  lemma {:induction false} WithinLimits(run: seq<State>, c: Config, i: nat, u: nat)
    requires Run(run, c) && i < |run| && u < c.upstreams
    ensures u < |run[i].upstreams| && |Senders(run[i].requests, u)| <= c.concurrency
    ensures c.min <= run[i].upstreams[u].rate.rate <= c.max
  {
    RunInv(run, c, i);
    assert UpstreamOk(run[i].upstreams[u], c);
  }

  /** Successive slots of an upstream are at least 1000 / maxRps ms apart, so any `k` after one take `k` times that. */
  lemma {:induction false} SlotsApart(run: seq<State>, c: Config, i: nat, u: nat, j: nat, k: nat)
    requires Run(run, c) && i < |run| && u < |run[i].upstreams| && j + k < |run[i].upstreams[u].slots|
    ensures run[i].upstreams[u].slots[j + k] - run[i].upstreams[u].slots[j] >= k as real * (1000.0 / c.max)
    decreases k
  {
    if k > 0 {
      SlotsApart(run, c, i, u, j, k - 1);
      RunInv(run, c, i);
      assert UpstreamOk(run[i].upstreams[u], c);
      assert SpacedAt(run[i].upstreams[u].slots, c.max, j + k - 1);
      Adds(k, 1000.0 / c.max);
    }
  }

  lemma {:induction false} Adds(k: nat, gap: real)
    requires k > 0
    ensures k as real * gap == (k - 1) as real * gap + gap
  {
  }
}
