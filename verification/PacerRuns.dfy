/**
 * What the pacer does over whole runs (apps/indexer/scripts/rpcPacer.ts), told from the actions of a run: how requests
 * end, which upstreams they go to, what the pacer has learnt of each upstream.
 */
module PacerRuns {
  import opened Options
  import opened Pacer

  /* ---------------------------------------------------------------- runs with their actions */

  ghost predicate PlayStep(run: seq<State>, acts: seq<Action>, c: Config, j: nat)
    requires j < |acts| && j + 1 < |run|
  {
    Next(run[j], c, acts[j], run[j + 1])
  }

  ghost predicate Play(run: seq<State>, acts: seq<Action>, c: Config) {
    && ValidConfig(c) && |run| == |acts| + 1 && Init(run[0], c)
    && forall j | 0 <= j < |acts| :: PlayStep(run, acts, c, j)
  }

  lemma {:induction false} PlayIsRun(run: seq<State>, acts: seq<Action>, c: Config)
    requires Play(run, acts, c)
    ensures Run(run, c)
  {
    forall i | 0 <= i < |run| - 1 ensures StepAt(run, c, i) { assert PlayStep(run, acts, c, i); }
  }

  /** Every run is played by some actions. */
  lemma {:induction false} RunIsPlayed(run: seq<State>, c: Config) returns (acts: seq<Action>)
    requires Run(run, c)
    ensures Play(run, acts, c)
    decreases |run|
  {
    if |run| == 1 {
      acts := [];
    } else {
      var n := |run| - 1;
      forall i | 0 <= i < n - 1 ensures StepAt(run[..n], c, i) { assert StepAt(run, c, i); }
      var before := RunIsPlayed(run[..n], c);
      assert StepAt(run, c, n - 1);
      var a :| Next(run[n - 1], c, a, run[n]);
      acts := before + [a];
      forall j | 0 <= j < |acts| ensures PlayStep(run, acts, c, j) {
        if j < n - 1 { assert PlayStep(run[..n], before, c, j); }
      }
    }
  }

  lemma {:induction false} Step(run: seq<State>, acts: seq<Action>, c: Config, j: nat)
    requires Play(run, acts, c) && j < |acts|
    ensures Next(run[j], c, acts[j], run[j + 1])
  {
    assert PlayStep(run, acts, c, j);
  }

  /* ---------------------------------------------------------------- how requests end */

  /** Every upstream has refused the request or, near the head, is paused. */
  predicate NoneLeft(s: State, q: Request, nearHead: bool, now: real) {
    forall u: nat | u < |s.upstreams| :: u in q.refused || (nearHead && now < s.upstreams[u].pausedUntil)
  }

  predicate GivesRefusal(s: State, a: Action, r: nat)
    requires r < |s.requests|
  {
    a.Loop? && a.r == r && s.requests[r].hasRefusal && NoneLeft(s, s.requests[r], a.nearHead, a.now)
  }

  /** The answer handled, of a client that is still there. */
  predicate Gets(s: State, a: Action, r: nat, kind: AnswerKind)
    requires r < |s.requests|
  {
    a.Handle? && a.r == r && !s.requests[r].aborted && s.requests[r].phase.Answered? && s.requests[r].phase.kind == kind
  }

  /** The failure was the request's last: its attempts are used up, counted by its answers. */
  predicate LastFailure(s: State, a: Action, r: nat)
    requires r < |s.requests|
  {
    var q, n := s.requests[r], |s.upstreams|;
    || ((Gets(s, a, r, RateLimited) || Gets(s, a, r, Transient)) && q.attempt + 1 >= 12 * n)
    || (Gets(s, a, r, InternalError) && q.attempt + 1 >= 4 && q.attempt + 1 >= n)
  }

  /** What makes the step end the request with this reply. */
  predicate EndsWith(s: State, a: Action, r: nat, reply: Reply)
    requires r < |s.requests|
  {
    match reply
    case Passed => Gets(s, a, r, Good)
    case LastRefusal => GivesRefusal(s, a, r)
    case GaveUp => LastFailure(s, a, r)
    case Abandoned =>
      && s.requests[r].aborted && !GivesRefusal(s, a, r)
      && ((a.Handle? && a.r == r) || (a.Loop? && a.r == r) || (a.Retry? && a.r == r))
  }

  predicate IsDone(s: State, r: nat, reply: Reply) { r < |s.requests| && s.requests[r].phase == Done(reply) }

  ghost predicate EndsAt(run: seq<State>, acts: seq<Action>, j: nat, r: nat, reply: Reply)
    requires j < |acts| <= |run|
  {
    r < |run[j].requests| && EndsWith(run[j], acts[j], r, reply)
  }

  lemma {:induction false} DoneStays(s: State, c: Config, a: Action, s': State, r: nat, reply: Reply)
    requires Next(s, c, a, s') && IsDone(s, r, reply)
    ensures IsDone(s', r, reply)
  {
    hide Learnt, Answers, NewRequest, Unavailable;
  }

  lemma {:induction false} Ends(s: State, c: Config, a: Action, s': State, r: nat, reply: Reply)
    requires Next(s, c, a, s') && r < |s.requests| && EndsWith(s, a, r, reply)
    ensures IsDone(s', r, reply)
  {
    hide Learnt, NewRequest;
  }

  lemma {:induction false} EndedBy(s: State, c: Config, a: Action, s': State, r: nat, reply: Reply)
    requires Next(s, c, a, s') && !IsDone(s, r, reply) && IsDone(s', r, reply)
    ensures r < |s.requests| && EndsWith(s, a, r, reply)
  {
    hide Learnt;
  }

  /**
   * How a request ends, exactly: passed if and only if it got a good answer while its client was there; with the last
   * refusal if and only if it was refused and, as it looked for an upstream, each had refused it or, near the head, was
   * paused; given up if and only if a failure used up its attempts; abandoned if and only if its client was gone as it
   * looked for an upstream or had an answer.
   */
  lemma {:induction false} RepliesExactly(run: seq<State>, acts: seq<Action>, c: Config, i: nat, r: nat, reply: Reply)
    requires Play(run, acts, c) && i < |run|
    ensures IsDone(run[i], r, reply) <==> exists j: nat :: j < i && EndsAt(run, acts, j, r, reply)
  {
    hide PlayStep, Next, IsDone, EndsWith;
    if i == 0 {
      NoRequests(run, acts, c, r, reply);
    } else {
      RepliesExactly(run, acts, c, i - 1, r, reply);
      Step(run, acts, c, i - 1);
      if IsDone(run[i - 1], r, reply) {
        DoneStays(run[i - 1], c, acts[i - 1], run[i], r, reply);
      } else if IsDone(run[i], r, reply) {
        EndedBy(run[i - 1], c, acts[i - 1], run[i], r, reply);
        assert EndsAt(run, acts, i - 1, r, reply);
      } else if j: nat :| j < i && EndsAt(run, acts, j, r, reply) {
        assert j == i - 1;
        Ends(run[i - 1], c, acts[i - 1], run[i], r, reply);
      }
    }
  }

  lemma {:induction false} NoRequests(run: seq<State>, acts: seq<Action>, c: Config, r: nat, reply: Reply)
    requires Play(run, acts, c)
    ensures !IsDone(run[0], r, reply)
  {
  }

  /* ---------------------------------------------------------------- where a request goes */

  /** The upstream has not refused the request and, if any such has not been tried this round, neither has it. */
  predicate Eligible(s: State, q: Request, u: nat) {
    && u < |s.upstreams| && u !in q.refused
    && (u in q.tried ==> forall v: nat | v < |s.upstreams| :: v in q.refused || v in q.tried)
  }

  lemma {:induction false} PoolIsEligible(s: State, q: Request, u: nat)
    requires u < |s.upstreams|
    ensures u in Pool(q, |s.upstreams|) <==> Eligible(s, q, u)
  {
    var n := |s.upstreams|;
    var untried := All(n) - q.refused - q.tried;
    if u in Pool(q, n) && u in q.tried {
      forall v: nat | v < n ensures v in q.refused || v in q.tried { assert v !in untried; }
    }
  }

  /** The step sends the request to the upstream. */
  predicate SendsTo(s: State, s': State, r: nat, u: nat) {
    r < |s.requests| && r < |s'.requests| && !s.requests[r].phase.Sending? && s'.requests[r].phase == Sending(u)
  }

  /** Free some time before `t`, and free at `t`: past its next slot and its pause. */
  predicate FreeBefore(u: Upstream, t: real, now: real) { now < t && u.nextSlot < t && u.pausedUntil < t }

  predicate FreeBy(u: Upstream, t: real, now: real) { now <= t && u.nextSlot <= t && u.pausedUntil <= t }

  /**
   * A request goes to an eligible upstream below its cap, and reserves the first slot at which it is free and the time
   * its rate gives a request; no such upstream is free before that, and of those free by then none has fewer requests in
   * flight, nor as few if it is listed before.
   */
  lemma {:induction false} GoesToSoonest(run: seq<State>, acts: seq<Action>, c: Config, j: nat, r: nat, u: nat)
    returns (now: real, slot: real)
    requires Play(run, acts, c) && j < |acts| && SendsTo(run[j], run[j + 1], r, u)
    ensures var s, s', q := run[j], run[j + 1], run[j].requests[r];
      && Eligible(s, q, u) && s.upstreams[u].inFlight < c.concurrency
      && u < |s'.upstreams| && s'.upstreams[u].slots == s.upstreams[u].slots + [slot]
      && FreeBy(s.upstreams[u], slot, now) && !FreeBefore(s.upstreams[u], slot, now)
      && (s'.upstreams[u].nextSlot - slot) * s.upstreams[u].rate.rate == 1000.0
      && forall v: nat | Eligible(s, q, v) && s.upstreams[v].inFlight < c.concurrency ::
           && !FreeBefore(s.upstreams[v], slot, now)
           && (FreeBy(s.upstreams[v], slot, now) ==>
                 && s.upstreams[u].inFlight <= s.upstreams[v].inFlight
                 && (s.upstreams[u].inFlight == s.upstreams[v].inFlight ==> u <= v))
  {
    Step(run, acts, c, j);
    now := SentAt(run[j], c, acts[j], run[j + 1], r, u);
    slot := FreeAt(run[j].upstreams[u], now);
    RatePositive(run, acts, c, j, u);
    GapIs(run[j].upstreams[u].rate.rate);
    hide Play, Next;
    forall v: nat | Eligible(run[j], run[j].requests[r], v) && run[j].upstreams[v].inFlight < c.concurrency
      ensures !Sooner(run[j].upstreams[v], run[j].upstreams[u], now)
      ensures v < u ==> Sooner(run[j].upstreams[u], run[j].upstreams[v], now)
    {
      PoolIsEligible(run[j], run[j].requests[r], v);
      assert IsFree(run[j].upstreams, Pool(run[j].requests[r], |run[j].upstreams|), c.concurrency, v);
    }
    PoolIsEligible(run[j], run[j].requests[r], u);
  }

  lemma {:induction false} RatePositive(run: seq<State>, acts: seq<Action>, c: Config, j: nat, u: nat)
    requires Play(run, acts, c) && j < |run| && u < |run[j].upstreams|
    ensures run[j].upstreams[u].rate.rate > 0.0
  {
    PlayIsRun(run, acts, c);
    RunInv(run, c, j);
    assert UpstreamOk(run[j].upstreams[u], c);
  }

  lemma {:induction false} GapIs(rate: real)
    requires rate > 0.0
    ensures Gap(rate) * rate == 1000.0
  {}

  lemma {:induction false} SentAt(s: State, c: Config, a: Action, s': State, r: nat, u: nat) returns (now: real)
    requires Next(s, c, a, s') && SendsTo(s, s', r, u)
    ensures IsSoonest(s.upstreams, Pool(s.requests[r], |s.upstreams|), c.concurrency, now, |s.upstreams|, u)
    ensures u < |s'.upstreams| && s'.upstreams[u].slots == s.upstreams[u].slots + [FreeAt(s.upstreams[u], now)]
    ensures s'.upstreams[u].nextSlot == FreeAt(s.upstreams[u], now) + Gap(s.upstreams[u].rate.rate)
  {
    hide Learnt, NewRequest, Pool;
    assert (a.Loop? || a.Retry?) && a.r == r by { hide AttemptLimit; }
    now := a.now;
    PicksSoonest(s.upstreams, Pool(s.requests[r], |s.upstreams|), c.concurrency, now, |s.upstreams|);
  }

  /* ---------------------------------------------------------------- what a request knows */

  predicate Answering(s: State, a: Action, r: nat, u: nat) {
    && a.Handle? && a.r == r < |s.requests| && !s.requests[r].aborted
    && s.requests[r].phase.Answered? && s.requests[r].phase.source == u
  }

  predicate Refusing(s: State, a: Action, r: nat, u: nat) {
    Answering(s, a, r, u) && (s.requests[r].phase.kind.RangeRefused? || s.requests[r].phase.kind.NoState?)
  }

  /** The upstream is known to refuse the range. */
  predicate Narrow(s: State, u: nat, logRange: Option<int>) {
    u < |s.upstreams| && logRange.Some? && s.upstreams[u].maxLogRange.Some?
    && logRange.value > s.upstreams[u].maxLogRange.value
  }

  /** The request arrives, and the upstream is known to refuse it, as not all are. */
  ghost predicate Skipping(s: State, a: Action, r: nat, u: nat) {
    && a.Arrive? && r == |s.requests| && Narrow(s, u, a.logRange)
    && exists v: nat :: v < |s.upstreams| && !Narrow(s, v, a.logRange)
  }

  /** In some step before the `i`th. */
  ghost predicate Refused(run: seq<State>, acts: seq<Action>, i: nat, r: nat, u: nat)
    requires i <= |acts| <= |run|
  {
    exists j: nat :: j < i && (Refusing(run[j], acts[j], r, u) || Skipping(run[j], acts[j], r, u))
  }

  lemma {:induction false} NarrowCount(us: seq<Upstream>, logRange: Option<int>)
    ensures |TooNarrow(us, logRange)| < |us| <==> exists v: nat :: v < |us| && v !in TooNarrow(us, logRange)
  {
    var narrow, all := TooNarrow(us, logRange), All(|us|);
    assert narrow <= all;
    assert all == narrow + (all - narrow);
    if v: nat :| v < |us| && v !in narrow { assert v in all - narrow; }
    if |narrow| < |us| {
      assert all - narrow != {};
      var v :| v in all - narrow;
    }
  }

  lemma {:induction false} ArrivesWith(s: State, c: Config, a: Action, s': State, u: nat)
    requires Next(s, c, a, s') && a.Arrive?
    ensures u in s'.requests[|s.requests|].refused <==> Skipping(s, a, |s.requests|, u)
    ensures s'.requests[|s.requests|].tried == {} && !s'.requests[|s.requests|].hasRefusal
  {
    NarrowCount(s.upstreams, a.logRange);
    if u in s'.requests[|s.requests|].refused {
      var v: nat :| v < |s.upstreams| && v !in TooNarrow(s.upstreams, a.logRange);
      assert !Narrow(s, v, a.logRange);
    }
    if Skipping(s, a, |s.requests|, u) {
      var v: nat :| v < |s.upstreams| && !Narrow(s, v, a.logRange);
      assert v !in TooNarrow(s.upstreams, a.logRange);
    }
  }

  /** A step changes what a request knows only as it has an answer. */
  lemma {:induction false} KnowsAfter(s: State, c: Config, a: Action, s': State, r: nat, u: nat)
    requires Next(s, c, a, s') && r < |s.requests|
    ensures r < |s'.requests|
    ensures u in s'.requests[r].refused <==> u in s.requests[r].refused || Refusing(s, a, r, u)
    ensures s'.requests[r].hasRefusal <==> s.requests[r].hasRefusal || exists v :: Refusing(s, a, r, v)
    ensures s'.requests[r].logRange == s.requests[r].logRange
  {
    hide Learnt, NewRequest, AttemptLimit, Pick, All, Pool;
    if a.Loop? || a.Retry? { hide Answers, Unavailable; } else { hide Acquire; }
    if a.Handle? && a.r == r && !s.requests[r].aborted {
      assert Refusing(s, a, r, s.requests[r].phase.source) || forall v :: !Refusing(s, a, r, v);
    }
  }

  lemma {:induction false} Arrived(s: State, c: Config, a: Action, s': State, r: nat)
    requires Next(s, c, a, s') && |s.requests| <= r < |s'.requests|
    ensures a.Arrive? && r == |s.requests|
  {
  }

  /**
   * The upstreams a request leaves out are those that refused it, and those known to refuse its range as it arrived
   * unless all were.
   */
  lemma {:induction false} RefusedExactly(run: seq<State>, acts: seq<Action>, c: Config, i: nat, r: nat, u: nat)
    requires Play(run, acts, c) && i < |run| && r < |run[i].requests|
    ensures u in run[i].requests[r].refused <==> Refused(run, acts, i, r, u)
  {
    hide PlayStep, Next, Refusing, Skipping;
    if i > 0 {
      var s, a := run[i - 1], acts[i - 1];
      Step(run, acts, c, i - 1);
      if r < |s.requests| {
        RefusedExactly(run, acts, c, i - 1, r, u);
        KnowsAfter(s, c, a, run[i], r, u);
        NotArriving(s, a, r, u);
      } else {
        Arrived(s, c, a, run[i], r);
        ArrivesWith(s, c, a, run[i], u);
        NotBefore(run, acts, c, i, r, u);
      }
      OneMore(run, acts, i - 1, r, u);
    }
  }

  lemma {:induction false} OneMore(run: seq<State>, acts: seq<Action>, i: nat, r: nat, u: nat)
    requires i < |acts| <= |run|
    ensures Refused(run, acts, i + 1, r, u)
       <==> Refused(run, acts, i, r, u) || Refusing(run[i], acts[i], r, u) || Skipping(run[i], acts[i], r, u)
  {
  }

  lemma {:induction false} NotArriving(s: State, a: Action, r: nat, u: nat)
    requires r < |s.requests|
    ensures !Skipping(s, a, r, u)
  {
  }

  /** Nothing happens to a request before it arrives. */
  lemma {:induction false} NotBefore(run: seq<State>, acts: seq<Action>, c: Config, i: nat, r: nat, u: nat)
    requires Play(run, acts, c) && 0 < i < |run| && |run[i - 1].requests| <= r
    ensures !Refused(run, acts, i - 1, r, u) && !Refusing(run[i - 1], acts[i - 1], r, u)
  {
    forall j: nat | j < i - 1 ensures !Refusing(run[j], acts[j], r, u) && !Skipping(run[j], acts[j], r, u) {
      MoreRequests(run, acts, c, j + 1, i - 1);
      Step(run, acts, c, j);
    }
  }

  lemma {:induction false} MoreRequests(run: seq<State>, acts: seq<Action>, c: Config, i: nat, j: nat)
    requires Play(run, acts, c) && i <= j < |run|
    ensures |run[i].requests| <= |run[j].requests|
    decreases j
  {
    if i < j {
      MoreRequests(run, acts, c, i, j - 1);
      Step(run, acts, c, j - 1);
    }
  }

  /** A request has been refused if and only if some upstream refused it, in its answer. */
  lemma {:induction false} HasRefusalExactly(run: seq<State>, acts: seq<Action>, c: Config, i: nat, r: nat)
    requires Play(run, acts, c) && i < |run| && r < |run[i].requests|
    ensures run[i].requests[r].hasRefusal <==> exists j: nat, u: nat :: j < i && Refusing(run[j], acts[j], r, u)
  {
    hide PlayStep, Next, Refusing;
    if i > 0 {
      var s, a := run[i - 1], acts[i - 1];
      Step(run, acts, c, i - 1);
      if r < |s.requests| {
        HasRefusalExactly(run, acts, c, i - 1, r);
        KnowsAfter(s, c, a, run[i], r, 0);
      } else {
        Arrived(s, c, a, run[i], r);
        ArrivesWith(s, c, a, run[i], 0);
        forall j: nat, u: nat | j < i ensures !Refusing(run[j], acts[j], r, u) {
          NotBefore(run, acts, c, i, r, u);
          if j < i - 1 { assert !Refused(run, acts, i - 1, r, u); }
        }
      }
    }
  }

  /* rounds: an upstream is tried again only once each has had its turn */

  predicate BacksOff(s: State, r: nat) { r < |s.requests| && s.requests[r].phase.Backoff? }

  /** It has answered in some step before the `i`th, and the request has not backed off since. */
  ghost predicate Tried(run: seq<State>, acts: seq<Action>, i: nat, r: nat, u: nat)
    requires i <= |acts| < |run|
  {
    exists j: nat :: j < i && Answering(run[j], acts[j], r, u) && NoBackoff(run, j, i, r)
  }

  ghost predicate NoBackoff(run: seq<State>, j: nat, i: nat, r: nat)
    requires i < |run|
  {
    forall k | j < k <= i :: !BacksOff(run[k], r)
  }

  lemma {:induction false} TriedAfter(s: State, c: Config, a: Action, s': State, r: nat, u: nat)
    requires Next(s, c, a, s') && r < |s.requests| && (BacksOff(s, r) ==> s.requests[r].tried == {})
    ensures r < |s'.requests| && (BacksOff(s', r) ==> s'.requests[r].tried == {})
    ensures u in s'.requests[r].tried
       <==> !BacksOff(s', r) && (u in s.requests[r].tried || Answering(s, a, r, u))
  {
    hide Learnt, NewRequest, AttemptLimit, Pick, All, Pool;
    if a.Loop? || a.Retry? { hide Answers, Unavailable; } else { hide Acquire; }
  }

  lemma {:induction false} TriedGrows(run: seq<State>, acts: seq<Action>, i: nat, r: nat, u: nat)
    requires i < |acts| < |run|
    ensures Tried(run, acts, i + 1, r, u)
       <==> !BacksOff(run[i + 1], r) && (Tried(run, acts, i, r, u) || Answering(run[i], acts[i], r, u))
  {
    hide Answering, BacksOff;
    if Tried(run, acts, i, r, u) && !BacksOff(run[i + 1], r) {
      var j: nat :| j < i && Answering(run[j], acts[j], r, u) && NoBackoff(run, j, i, r);
      assert NoBackoff(run, j, i + 1, r);
    }
    if Answering(run[i], acts[i], r, u) && !BacksOff(run[i + 1], r) { assert NoBackoff(run, i, i + 1, r); }
    if Tried(run, acts, i + 1, r, u) {
      var j: nat :| j < i + 1 && Answering(run[j], acts[j], r, u) && NoBackoff(run, j, i + 1, r);
      if j < i { assert NoBackoff(run, j, i, r); }
    }
  }

  /** The upstreams a request has tried are those that answered it since it last backed off. */
  lemma {:induction false} TriedExactly(run: seq<State>, acts: seq<Action>, c: Config, i: nat, r: nat, u: nat)
    requires Play(run, acts, c) && i < |run| && r < |run[i].requests|
    ensures u in run[i].requests[r].tried <==> Tried(run, acts, i, r, u)
    ensures BacksOff(run[i], r) ==> run[i].requests[r].tried == {}
  {
    hide PlayStep, Next, Answering;
    if i > 0 {
      var s, a := run[i - 1], acts[i - 1];
      Step(run, acts, c, i - 1);
      if r < |s.requests| {
        TriedExactly(run, acts, c, i - 1, r, u);
        TriedAfter(s, c, a, run[i], r, u);
        TriedGrows(run, acts, i - 1, r, u);
      } else {
        Arrived(s, c, a, run[i], r);
        ArrivesWith(s, c, a, run[i], u);
        forall j: nat | j < i ensures !Answering(run[j], acts[j], r, u) {
          MoreRequests(run, acts, c, j, i - 1);
          assert r >= |run[j].requests|;
          NoAnswer(run[j], acts[j], r, u);
        }
      }
    }
  }

  lemma {:induction false} NoAnswer(s: State, a: Action, r: nat, u: nat)
    requires r >= |s.requests|
    ensures !Answering(s, a, r, u)
  {
  }

  /** A round is over: a failure other than a rate limit, not the last, and every upstream has answered or refused. */
  ghost predicate RoundOver(s: State, a: Action, r: nat) {
    && (exists u :: Answering(s, a, r, u)) && !LastFailure(s, a, r)
    && (s.requests[r].phase.kind.Transient? || s.requests[r].phase.kind.InternalError?)
    && forall v: nat | v < |s.upstreams| ::
         v in s.requests[r].tried || v in s.requests[r].refused || Answering(s, a, r, v)
  }

  lemma {:induction false} TurnsOver(q: Request, u: nat, n: nat)
    ensures All(n) <= q.tried + {u} + q.refused
       <==> forall v: nat | v < n :: v in q.tried || v in q.refused || v == u
  {
    var turns := q.tried + {u} + q.refused;
    if All(n) <= turns {
      forall v: nat | v < n ensures v in q.tried || v in q.refused || v == u { assert v in All(n); }
    }
  }

  lemma {:induction false} AnswerBacksOff(s: State, a: Action, r: nat, u: nat)
    requires Answering(s, a, r, u)
    ensures Answers(s.requests[r], u, s.requests[r].phase.kind, |s.upstreams|).phase.Backoff? <==> RoundOver(s, a, r)
  {
    var q, n := s.requests[r], |s.upstreams|;
    TurnsOver(q, u, n);
    assert forall v: nat :: Answering(s, a, r, v) <==> v == u;
    assert RoundOver(s, a, r)
      <==> !LastFailure(s, a, r) && (q.phase.kind.Transient? || q.phase.kind.InternalError?)
           && forall v: nat | v < n :: v in q.tried || v in q.refused || v == u;
  }

  lemma {:induction false} OnlyAnswersBackOff(s: State, c: Config, a: Action, s': State, r: nat)
    requires Next(s, c, a, s') && r < |s.requests| && !BacksOff(s, r)
    ensures BacksOff(s', r) ==> exists u :: Answering(s, a, r, u)
    ensures forall u | Answering(s, a, r, u) ::
      BacksOff(s', r) == Answers(s.requests[r], u, s.requests[r].phase.kind, |s.upstreams|).phase.Backoff?
  {
    hide Learnt, NewRequest, Pick, AttemptLimit, All;
    if BacksOff(s', r) { assert Answering(s, a, r, s.requests[r].phase.source); }
  }

  /** A request backs off exactly when a round is over. */
  lemma {:induction false} BacksOffExactly(run: seq<State>, acts: seq<Action>, c: Config, j: nat, r: nat)
    requires Play(run, acts, c) && j < |acts| && r < |run[j].requests| && !BacksOff(run[j], r)
    ensures BacksOff(run[j + 1], r) <==> RoundOver(run[j], acts[j], r)
  {
    Step(run, acts, c, j);
    var s, a := run[j], acts[j];
    OnlyAnswersBackOff(s, c, a, run[j + 1], r);
    hide Next, BacksOff;
    if u :| Answering(s, a, r, u) { AnswerBacksOff(s, a, r, u); }
  }

  /* ---------------------------------------------------------------- what is learnt of an upstream */

  /** The answer handled in the step, of an upstream and of a client still there. */
  predicate Hears(s: State, a: Action, u: nat, kind: AnswerKind) {
    && a.Handle? && a.r < |s.requests| && !s.requests[a.r].aborted
    && s.requests[a.r].phase == Answered(u, kind)
  }

  predicate HearsRange(s: State, a: Action, u: nat, range: int) {
    Hears(s, a, u, RangeRefused) && s.requests[a.r].logRange == Some(range)
  }

  lemma {:induction false} LimitAfter(s: State, c: Config, a: Action, s': State, u: nat)
    requires Next(s, c, a, s') && u < |s.upstreams|
    ensures |s'.upstreams| == |s.upstreams|
    ensures var limit := s.upstreams[u].maxLogRange;
      && (forall range | HearsRange(s, a, u, range) ::
            s'.upstreams[u].maxLogRange
            == Some(if limit.Some? && limit.value < range - 1 then limit.value else range - 1))
      && ((forall range :: !HearsRange(s, a, u, range)) ==> s'.upstreams[u].maxLogRange == limit)
  {
    hide Answers, NewRequest, Pick, AfterSuccess, AfterRateLimited, RetryDelayMs;
    if a.Handle? && a.r < |s.requests| && Hears(s, a, u, RangeRefused) {
      var logRange := s.requests[a.r].logRange;
      assert logRange.Some? ==> HearsRange(s, a, u, logRange.value);
    }
  }

  /** What is known of an upstream's log range: one less than the shortest range it refused, if it refused any. */
  lemma {:induction false} LimitIsLeast(run: seq<State>, acts: seq<Action>, c: Config, i: nat, u: nat)
    requires Play(run, acts, c) && i < |run| && u < c.upstreams
    ensures |run[i].upstreams| == c.upstreams
    ensures var limit := run[i].upstreams[u].maxLogRange;
      && (limit.Some? ==> exists j: nat :: j < i && HearsRange(run[j], acts[j], u, limit.value + 1))
      && forall j: nat, range: int | j < i && HearsRange(run[j], acts[j], u, range) ::
           limit.Some? && limit.value <= range - 1
  {
    hide PlayStep, Next, HearsRange;
    if i > 0 {
      LimitIsLeast(run, acts, c, i - 1, u);
      Step(run, acts, c, i - 1);
      LimitAfter(run[i - 1], c, acts[i - 1], run[i], u);
    }
  }

  /** What the upstream's rate controller is told in a run. */
  function SignalOf(s: State, a: Action, u: nat): seq<Signal> {
    if Hears(s, a, u, Good) then [Success] else if Hears(s, a, u, RateLimited) then [Limited(a.now)] else []
  }

  function SignalsTo(run: seq<State>, acts: seq<Action>, i: nat, u: nat): seq<Signal>
    requires i <= |acts| <= |run|
  {
    if i == 0 then [] else SignalsTo(run, acts, i - 1, u) + SignalOf(run[i - 1], acts[i - 1], u)
  }

  /** How many rate limits since the last success. */
  function Limits(signals: seq<Signal>): nat {
    if signals == [] || signals[|signals| - 1].Success? then 0 else 1 + Limits(signals[..|signals| - 1])
  }

  lemma {:induction false} RatePrefix(signals: seq<Signal>, more: seq<Signal>, c: Config, i: nat)
    requires i <= |signals|
    ensures RateAt(signals + more, c.initial, c.min, c.max, i) == RateAt(signals, c.initial, c.min, c.max, i)
  {
    if i > 0 { RatePrefix(signals, more, c, i - 1); }
  }

  lemma {:induction false} RateAfter(s: State, c: Config, a: Action, s': State, u: nat)
    requires Next(s, c, a, s') && u < |s.upstreams|
    ensures |s'.upstreams| == |s.upstreams|
    ensures s'.upstreams[u].rate ==
      if Hears(s, a, u, Good) then AfterSuccess(s.upstreams[u].rate, c.max)
      else if Hears(s, a, u, RateLimited) then AfterRateLimited(s.upstreams[u].rate, c.min, a.now)
      else s.upstreams[u].rate
    ensures s'.upstreams[u].strikes ==
      if Hears(s, a, u, Good) then 0
      else if Hears(s, a, u, RateLimited) then s.upstreams[u].strikes + 1 else s.upstreams[u].strikes
  {
    hide Answers, NewRequest, Pick, AfterSuccess, AfterRateLimited, RetryDelayMs, Wakened, Pool, Unavailable, Gap;
  }

  /**
   * In a run each upstream has a rate controller of its own, told of its good and its rate limited answers and of no
   * other: so what holds over any signals holds here. Its strikes are the rate limits since its last success.
   */
  lemma {:induction false} RateFollows(run: seq<State>, acts: seq<Action>, c: Config, i: nat, u: nat)
    requires Play(run, acts, c) && i < |run| && u < c.upstreams
    ensures |run[i].upstreams| == c.upstreams
    ensures var signals := SignalsTo(run, acts, i, u);
      && run[i].upstreams[u].rate == RateAt(signals, c.initial, c.min, c.max, |signals|)
      && run[i].upstreams[u].strikes == Limits(signals)
  {
    hide PlayStep, Next, Hears, RateAt, Limits;
    if i == 0 {
      NoSignals(c);
    } else {
      RateFollows(run, acts, c, i - 1, u);
      Step(run, acts, c, i - 1);
      RateAfter(run[i - 1], c, acts[i - 1], run[i], u);
      OneMoreSignal(SignalsTo(run, acts, i - 1, u), SignalOf(run[i - 1], acts[i - 1], u), c);
    }
  }

  lemma {:induction false} NoSignals(c: Config)
    ensures RateAt([], c.initial, c.min, c.max, 0) == Rate(c.initial, 0, None) && Limits([]) == 0
  {
  }

  lemma {:induction false} OneMoreSignal(signals: seq<Signal>, more: seq<Signal>, c: Config)
    requires |more| <= 1
    ensures var all, before := signals + more, RateAt(signals, c.initial, c.min, c.max, |signals|);
      && RateAt(all, c.initial, c.min, c.max, |all|)
         == (if more == [] then before else if more[0].Success? then AfterSuccess(before, c.max)
             else AfterRateLimited(before, c.min, more[0].now))
      && Limits(all) == (if more == [] then Limits(signals) else if more[0].Success? then 0 else Limits(signals) + 1)
  {
    RatePrefix(signals, more, c, |signals|);
    assert (signals + more)[..|signals|] == signals;
    if more == [] { assert signals + more == signals; }
  }

  /* pauses */

  lemma {:induction false} PauseAfter(s: State, c: Config, a: Action, s': State, u: nat)
    requires Next(s, c, a, s') && u < |s.upstreams|
    ensures |s'.upstreams| == |s.upstreams|
    ensures s'.upstreams[u].pausedUntil ==
      if Hears(s, a, u, RateLimited) then
        Max(s.upstreams[u].pausedUntil, a.now + RetryDelayMs(s.upstreams[u].strikes, a.retryAfter))
      else s.upstreams[u].pausedUntil
  {
    hide Answers, NewRequest, Pick, AfterSuccess, AfterRateLimited, RetryDelayMs, Wakened, Pool, Unavailable, Gap;
  }

  /** The end of the pause that a rate limited answer asks for, told by the strikes before it. */
  function PauseEnd(s: State, a: Action, u: nat): real
    requires u < |s.upstreams| && a.Handle?
  {
    a.now + RetryDelayMs(s.upstreams[u].strikes, a.retryAfter)
  }

  /** An upstream is paused until the latest end that one of its rate limited answers asked for. */
  lemma {:induction false} PausedUntilLatest(run: seq<State>, acts: seq<Action>, c: Config, i: nat, u: nat)
    requires Play(run, acts, c) && i < |run| && u < c.upstreams
    ensures forall j | 0 <= j <= i :: |run[j].upstreams| == c.upstreams
    ensures var until := run[i].upstreams[u].pausedUntil;
      && (until == 0.0 || exists j: nat :: j < i && Hears(run[j], acts[j], u, RateLimited)
                                           && until == PauseEnd(run[j], acts[j], u))
      && forall j: nat | j < i && Hears(run[j], acts[j], u, RateLimited) :: until >= PauseEnd(run[j], acts[j], u)
  {
    hide PlayStep, Next, RetryDelayMs;
    if i > 0 {
      PausedUntilLatest(run, acts, c, i - 1, u);
      Step(run, acts, c, i - 1);
      PauseAfter(run[i - 1], c, acts[i - 1], run[i], u);
    }
  }

  /** The pause an upstream asks for, up to a minute; else half a second, doubled with each strike up to a minute. */
  lemma {:induction false} RetryDelayIs(strikes: nat, retryAfter: Option<real>)
    ensures retryAfter.Some? && retryAfter.value >= 0.0 ==>
      RetryDelayMs(strikes, retryAfter) == Min(60000.0, retryAfter.value * 1000.0)
    ensures retryAfter.None? || retryAfter.value < 0.0 ==>
      && RetryDelayMs(0, retryAfter) == 500.0
      && RetryDelayMs(strikes + 1, retryAfter) == Min(60000.0, 2.0 * RetryDelayMs(strikes, retryAfter))
  {
    assert PowerOfTwo(0) == 1.0;
  }

  /* sends */

  /** How many times a request has begun a send. */
  function SendsBegun(run: seq<State>, i: nat, r: nat): nat
    requires i < |run|
  {
    if i == 0 then 0 else
    SendsBegun(run, i - 1, r)
    + if r < |run[i - 1].requests| && r < |run[i].requests|
         && !run[i - 1].requests[r].phase.Sending? && run[i].requests[r].phase.Sending? then 1 else 0
  }

  lemma {:induction false} SendsAfter(s: State, c: Config, a: Action, s': State, r: nat)
    requires Next(s, c, a, s') && r < |s'.requests|
    ensures r >= |s.requests| ==> s'.requests[r].sends == 0
    ensures r < |s.requests| ==>
      s'.requests[r].sends == s.requests[r].sends
        + if !s.requests[r].phase.Sending? && s'.requests[r].phase.Sending? then 1 else 0
  {
    hide Learnt, AttemptLimit, All, Pool, TooNarrow;
    if a.Loop? || a.Retry? {
      hide Answers, Unavailable;
      PicksSoonest(s.upstreams, Pool(s.requests[a.r], |s.upstreams|), c.concurrency, a.now, |s.upstreams|);
    } else {
      hide Acquire;
    }
  }

  lemma {:induction false} NoSendsBefore(run: seq<State>, acts: seq<Action>, c: Config, i: nat, r: nat)
    requires Play(run, acts, c) && i < |run| && r >= |run[i].requests|
    ensures SendsBegun(run, i, r) == 0
  {
    if i > 0 {
      MoreRequests(run, acts, c, i - 1, i);
      NoSendsBefore(run, acts, c, i - 1, r);
    }
  }

  /** So every send begun in a run is counted, and no request begins more than 13 times the upstreams less one. */
  lemma {:induction false} SendsCounted(run: seq<State>, acts: seq<Action>, c: Config, i: nat, r: nat)
    requires Play(run, acts, c) && i < |run| && r < |run[i].requests|
    ensures run[i].requests[r].sends == SendsBegun(run, i, r) <= 13 * c.upstreams - 1
  {
    PlayIsRun(run, acts, c);
    SendsBounded(run, c, i, r);
    hide Play, Next;
    SendsAre(run, acts, c, i, r);
  }

  lemma {:induction false} SendsAre(run: seq<State>, acts: seq<Action>, c: Config, i: nat, r: nat)
    requires Play(run, acts, c) && i < |run| && r < |run[i].requests|
    ensures run[i].requests[r].sends == SendsBegun(run, i, r)
  {
    hide PlayStep, Next;
    if i > 0 {
      Step(run, acts, c, i - 1);
      SendsAfter(run[i - 1], c, acts[i - 1], run[i], r);
      if r < |run[i - 1].requests| { SendsAre(run, acts, c, i - 1, r); } else { NoSendsBefore(run, acts, c, i - 1, r); }
    }
  }
}
