/** What the rate limiters and the capacity limit promise about starts of the pairing store: the limiter
    inside the store runs like the limiter on its own, so the window theorems hold of the store, and
    the retry hints that refused starts answer with are tight. */
module StartLimits {
  import opened Basics
  import opened RateLimiter
  import opened Pairing
  import PairingRuns

  type Op = PairingRuns.Op

  // ----- a start of the store is an attempt at the limiter -----

  /** The attempt that a start makes at the limiter. */
  function AttemptOf(st: Store, op: Op): Attempt
    requires op.StartOp?
  {
    Attempt(op.now, op.ip, |Cleaned(st, op.now).pending| >= MAX_PENDING_PAIRINGS)
  }

  lemma AttemptReads(st: Store, op: Op)
    requires op.StartOp?
    ensures AttemptOf(st, op).now == op.now && AttemptOf(st, op).ip == op.ip
  {
  }

  /** Whether an operation is a start that gets past the limiters and the capacity test. */
  predicate Records(st: Store, op: Op) {
    op.StartOp? && Admitted(st.limiter, AttemptOf(st, op))
  }

  /** A refusal by a limiter or for lack of capacity. */
  predicate TurnedAway(result: Result<Started, StartError>) {
    result.Err? && (result.error.RateLimited? || result.error.CapacityFull?)
  }

  /** A start is recorded exactly when neither limiter nor capacity turns it away. */
  lemma RecordedUnlessTurnedAway(st: Store, op: Op, st': Store, result: Result<Started, StartError>)
    requires op.StartOp? && Starts(st, op.now, op.ip, op.req, op.generated, op.durable, st', result)
    ensures Records(st, op) <==> !TurnedAway(result)
    ensures st' == PairingRuns.Apply(st, op)
  {
    hide RetryAfter, Prune, Record, FirstUnused, RemoveExpired, IsCapacityHint;
  }

  lemma StartIsAttempt(st: Store, op: Op)
    ensures PairingRuns.Apply(st, op).limiter == if op.StartOp? then Try(st.limiter, AttemptOf(st, op)) else st.limiter
  {
    hide RetryAfter, Prune, Record, FirstUnused, RemoveExpired;
    match op
    case StartOp(_, _, _, _, _) =>
    case ApproveOp(_, _, _, _, _) => KeepsLimiter(st, op);
    case DenyOp(_, _, _) => KeepsLimiter(st, op);
    case ClaimOp(_, _, _, _) => KeepsLimiter(st, op);
    case CleanupOp(_) => KeepsLimiter(st, op);
  }

  lemma KeepsLimiter(st: Store, op: Op)
    requires !op.StartOp?
    ensures PairingRuns.Apply(st, op).limiter == st.limiter
  {
  }

  /** The attempts of a run of the store, and its recorded starts. */
  function AttemptsOf(ops: seq<Op>): seq<Attempt>
    decreases |ops|
  {
    if ops == [] then []
    else
      var before, op := ops[..|ops| - 1], ops[|ops| - 1];
      if op.StartOp? then AttemptsOf(before) + [AttemptOf(PairingRuns.Run(EMPTY, before), op)] else AttemptsOf(before)
  }

  function StartsOf(ops: seq<Op>): seq<Start>
    decreases |ops|
  {
    if ops == [] then []
    else
      var before, op := ops[..|ops| - 1], ops[|ops| - 1];
      if Records(PairingRuns.Run(EMPTY, before), op) then StartsOf(before) + [Start(op.ip, op.now)] else StartsOf(before)
  }

  /** The limiter of the store after any operations is the limiter after their attempts, and the recorded
      starts are the recorded attempts. */
  lemma {:induction false} RunIsLimiterRun(ops: seq<Op>)
    ensures PairingRuns.Run(EMPTY, ops).limiter == Run(NO_STARTS, AttemptsOf(ops))
    ensures StartsOf(ops) == Recorded(AttemptsOf(ops))
    decreases |ops|
  {
    hide PairingRuns.Apply, Try, Admitted, AttemptOf;
    if ops != [] {
      var before, op := ops[..|ops| - 1], ops[|ops| - 1];
      assert ops == before + [op];
      RunIsLimiterRun(before);
      PairingRuns.RunSnoc(EMPTY, before, op);
      var st := PairingRuns.Run(EMPTY, before);
      StartIsAttempt(st, op);
      if op.StartOp? {
        AttemptReads(st, op);
        RateLimiter.RunSnoc(AttemptsOf(before), AttemptOf(st, op));
      }
    }
  }

  /** No start reads the clock more than `skew` before an earlier start did. */
  ghost predicate ClockSkew(ops: seq<Op>, skew: int) {
    forall i, j :: 0 <= i <= j < |ops| && ops[i].StartOp? && ops[j].StartOp? ==> ops[i].now - skew <= ops[j].now
  }

  lemma ClockSkewPrefix(before: seq<Op>, op: Op, skew: int)
    requires ClockSkew(before + [op], skew)
    ensures ClockSkew(before, skew)
  {
    var ops := before + [op];
    forall i, j | 0 <= i <= j < |before| && before[i].StartOp? && before[j].StartOp?
      ensures before[i].now - skew <= before[j].now
    {
      assert ops[i] == before[i] && ops[j] == before[j];
    }
  }

  lemma {:induction false} AttemptsSkewed(ops: seq<Op>, skew: int)
    requires ClockSkew(ops, skew)
    ensures Skewed(AttemptsOf(ops), skew)
    ensures forall i :: 0 <= i < |AttemptsOf(ops)| ==> FromStart(ops, AttemptsOf(ops)[i].now)
    decreases |ops|
  {
    hide PairingRuns.Run, AttemptOf;
    if ops != [] {
      var before, op := ops[..|ops| - 1], ops[|ops| - 1];
      assert ops == before + [op];
      ClockSkewPrefix(before, op, skew);
      AttemptsSkewed(before, skew);
      var was, now := AttemptsOf(before), AttemptsOf(ops);
      if op.StartOp? { LastAttempt(before, op); }
      forall i | 0 <= i < |now| ensures FromStart(ops, now[i].now) {
        if i < |was| { FromStartGrows(before, op, was[i].now); } else { FromLast(before, op, now[i].now); }
      }
      if op.StartOp? {
        forall i | 0 <= i < |was| ensures was[i].now - skew <= op.now { SkewToLast(before, op, skew, was[i].now); }
        SkewedSnoc(was, now[|was|], skew, op);
      }
    }
  }

  lemma LastAttempt(before: seq<Op>, op: Op)
    requires op.StartOp?
    ensures AttemptsOf(before + [op]) == AttemptsOf(before) + [AttemptOf(PairingRuns.Run(EMPTY, before), op)]
    ensures AttemptOf(PairingRuns.Run(EMPTY, before), op).now == op.now
  {
    assert (before + [op])[..|before|] == before;
  }

  lemma SkewedSnoc(was: seq<Attempt>, a: Attempt, skew: int, op: Op)
    requires Skewed(was, skew) && a.now == op.now && op.now - skew <= op.now
    requires forall i :: 0 <= i < |was| ==> was[i].now - skew <= op.now
    ensures Skewed(was + [a], skew)
  {
  }

  /** The clock reading of some start. */
  ghost predicate FromStart(ops: seq<Op>, now: Instant) {
    exists k :: 0 <= k < |ops| && ops[k].StartOp? && ops[k].now == now
  }

  lemma FromStartGrows(before: seq<Op>, op: Op, now: Instant)
    requires FromStart(before, now)
    ensures FromStart(before + [op], now)
  {
    var k :| 0 <= k < |before| && before[k].StartOp? && before[k].now == now;
    assert (before + [op])[k] == before[k];
  }

  lemma FromLast(before: seq<Op>, op: Op, now: Instant)
    requires op.StartOp? && op.now == now
    ensures FromStart(before + [op], now)
  {
    assert (before + [op])[|before|] == op;
  }

  lemma SkewToLast(before: seq<Op>, op: Op, skew: int, now: Instant)
    requires ClockSkew(before + [op], skew) && op.StartOp? && FromStart(before, now)
    ensures now - skew <= op.now
  {
    var ops := before + [op];
    var k :| 0 <= k < |before| && before[k].StartOp? && before[k].now == now;
    assert ops[k] == before[k] && ops[|before|] == op;
  }

  // ----- the windows -----

  /** How many recorded starts of one source, or of all, lie in a window. */
  function SourceCount(ops: seq<Op>, ip: Source, after: Instant, upTo: Instant): nat {
    |Within(TimesOf(StartsOf(ops), ip), after, upTo)|
  }

  function GlobalCount(ops: seq<Op>, after: Instant, upTo: Instant): nat {
    |Within(Times(StartsOf(ops)), after, upTo)|
  }

  /** Over every run of the store whose clock never goes back by more than `skew`, no ten minutes less
      the skew hold more than 10 recorded starts of one source, and no minute less the skew more than
      300 altogether. */
  lemma StartRateBound(ops: seq<Op>, skew: int, ip: Source, upTo: Instant)
    requires skew >= 0 && ClockSkew(ops, skew)
    ensures SourceCount(ops, ip, upTo - (SOURCE_WINDOW - skew), upTo) <= MAX_SOURCE_STARTS
    ensures GlobalCount(ops, upTo - (GLOBAL_WINDOW - skew), upTo) <= MAX_GLOBAL_STARTS
  {
    hide ClockSkew, Skewed, AttemptsOf, StartsOf, Recorded, Run, PairingRuns.Run, Within;
    AttemptsSkewed(ops, skew);
    RunIsLimiterRun(ops);
    RateBound(AttemptsOf(ops), skew, ip, upTo);
  }

  /** With a clock that never goes back, what a start finds in each deque of the store once it has pruned
      them is exactly the recorded starts of the whole run that lie in the last window. */
  lemma StartDequesAreWindows(ops: seq<Op>, op: Op, ip: Source)
    requires op.StartOp? && ClockSkew(ops + [op], 0)
    ensures var lim, h := Cleaned(PairingRuns.Run(EMPTY, ops), op.now).limiter, StartsOf(ops);
            && Deque(lim, ip) == InWindow(TimesOf(h, ip), op.now - SOURCE_WINDOW, op.now)
            && lim.global == InWindow(Times(h), op.now - GLOBAL_WINDOW, op.now)
  {
    hide ClockSkew, Skewed, AttemptsOf, StartsOf, Recorded, Run, PairingRuns.Run, InWindow, Prune;
    AttemptsSkewed(ops + [op], 0);
    LastAttempt(ops, op);
    RunIsLimiterRun(ops);
    DequesAreWindows(AttemptsOf(ops), AttemptOf(PairingRuns.Run(EMPTY, ops), op), ip);
  }

  // ----- the full window needs a clock that never goes back -----

  /** Starts that are recorded and then refused for their key, so that they take no room. */
  function Knock(attempts: seq<Attempt>): seq<Op> {
    seq(|attempts|, i requires 0 <= i < |attempts| =>
      PairingRuns.StartOp(attempts[i].now, attempts[i].ip, Request("", 0, 0), [], Some(true)))
  }

  lemma KnockStep(st: Store, op: Op)
    requires st.pending == map[] && op.StartOp? && op.durable == Some(true)
    ensures PairingRuns.Apply(st, op).pending == map[]
    ensures AttemptOf(st, op) == Attempt(op.now, op.ip, false)
  {
    hide RetryAfter, Prune, Record;
    assert Live(st.pending, op.now) == map[];
  }

  lemma {:induction false} KnockAttempts(attempts: seq<Attempt>)
    requires forall i :: 0 <= i < |attempts| ==> !attempts[i].full
    ensures AttemptsOf(Knock(attempts)) == attempts
    ensures PairingRuns.Run(EMPTY, Knock(attempts)).pending == map[]
    decreases |attempts|
  {
    hide PairingRuns.Apply, AttemptOf;
    if attempts != [] {
      var before, a := attempts[..|attempts| - 1], attempts[|attempts| - 1];
      KnockAttempts(before);
      var ops := Knock(attempts);
      assert ops[..|ops| - 1] == Knock(before) && ops == Knock(before) + [ops[|ops| - 1]];
      PairingRuns.RunSnoc(EMPTY, Knock(before), ops[|ops| - 1]);
      KnockStep(PairingRuns.Run(EMPTY, Knock(before)), ops[|ops| - 1]);
      assert attempts == before + [a];
    }
  }

  /** The full window bounds the starts of every source in every run with this much skew. */
  ghost predicate FullWindowsHold(skew: int) {
    forall ops: seq<Op>, ip: Source, upTo: Instant, after: Instant ::
      ClockSkew(ops, skew) && after == upTo - SOURCE_WINDOW ==> SourceCount(ops, ip, after, upTo) <= MAX_SOURCE_STARTS
  }

  /** The full ten-minute window bounds the starts of a source in every run if and only if the clock never
      goes back at all. */
  lemma FullWindowExactly(skew: nat)
    ensures FullWindowsHold(skew) <==> skew == 0
  {
    hide ClockSkew, SourceCount;
    if skew == 0 {
      forall ops: seq<Op>, ip: Source, upTo: Instant, after: Instant | ClockSkew(ops, 0) && after == upTo - SOURCE_WINDOW
        ensures SourceCount(ops, ip, after, upTo) <= MAX_SOURCE_STARTS
      {
        StartRateBound(ops, 0, ip, upTo);
      }
    } else {
      BackwardRun(skew);
    }
  }

  lemma BackwardRun(skew: nat)
    requires skew > 0
    ensures !FullWindowsHold(skew)
  {
    hide Recorded, StartsOf, AttemptsOf, Within, TimesOf, Burst, Knock, ClockSkew, Skewed;
    var attempts := Burst(10, 0) + [Attempt(SOURCE_WINDOW, 0, false)] + [Attempt(SOURCE_WINDOW - 1, 0, false)];
    BackwardClockExceedsLimit(0);
    assert forall i :: 0 <= i < |attempts| ==> !attempts[i].full by { BurstRoom(10, 0); }
    KnockAttempts(attempts);
    RunIsLimiterRun(Knock(attempts));
    KnockSkew(attempts, skew);
    assert SourceCount(Knock(attempts), 0, -1, -1 + SOURCE_WINDOW) > MAX_SOURCE_STARTS;
  }

  lemma BurstRoom(n: nat, ip: Source)
    ensures forall i :: 0 <= i < |Burst(n, ip)| ==> !Burst(n, ip)[i].full
  {
  }

  lemma KnockSkew(attempts: seq<Attempt>, skew: nat)
    requires Skewed(attempts, 1) && skew > 0
    ensures ClockSkew(Knock(attempts), skew)
  {
    var ops := Knock(attempts);
    forall i, j | 0 <= i <= j < |ops| ensures ops[i].now - skew <= ops[j].now {
      assert attempts[i].now - 1 <= attempts[j].now;
    }
  }

  // ----- retry hints -----

  /** Operations up to a moment, none of which is a start that gets recorded. */
  ghost predicate RecordNothing(st: Store, ops: seq<Op>, at: Instant)
    decreases |ops|
  {
    ops != [] ==>
      ops[0].now <= at && !Records(st, ops[0]) && RecordNothing(PairingRuns.Apply(st, ops[0]), ops[1..], at)
  }

  lemma {:induction false} OnlyPrunes(st: Store, ops: seq<Op>, at: Instant) returns (nows: seq<Instant>)
    requires RecordNothing(st, ops, at)
    ensures PairingRuns.Run(st, ops).limiter == PruneAll(st.limiter, nows)
    ensures forall i :: 0 <= i < |nows| ==> nows[i] <= at
    decreases |ops|
  {
    hide PairingRuns.Apply, Admitted, Prune, Record;
    if ops == [] {
      nows := [];
    } else {
      StartIsAttempt(st, ops[0]);
      var rest := OnlyPrunes(PairingRuns.Apply(st, ops[0]), ops[1..], at);
      if ops[0].StartOp? {
        nows := [ops[0].now] + rest;
        assert nows[1..] == rest;
      } else {
        nows := rest;
      }
    }
  }

  lemma RateRefusal(st: Store, now: Instant, ip: Source, req: Request, generated: seq<(CapId, CodeBytes)>, durable: Option<bool>,
                    st': Store, result: Result<Started, StartError>)
    requires Starts(st, now, ip, req, generated, durable, st', result)
    ensures result.Err? && result.error.RateLimited? <==> RetryAfter(Prune(st.limiter, now), ip, now).Some?
    ensures result.Err? && result.error.RateLimited? ==>
              st' == Cleaned(st, now) && RetryAfter(st'.limiter, ip, now) == Some(result.error.retryAfter)
  {
    hide RetryAfter, Prune, Record, FirstUnused, RemoveExpired, IsCapacityHint;
  }

  lemma DequeBounds(st: Store, now: Instant, ip: Source)
    requires Wf(st)
    ensures |Deque(Cleaned(st, now).limiter, ip)| <= MAX_SOURCE_STARTS && |Cleaned(st, now).limiter.global| <= MAX_GLOBAL_STARTS
  {
    CleanedKeeps(st, now);
  }

  /** A start is refused by a rate limiter with hint `r`.  Whatever happens next short of a recorded
      start, a start of the same source made `r + 1` or more seconds later is not rate limited, and if
      `r` is at least 2 every one made less than `r` seconds later is. */
  lemma RateHintIsTight(st: Store, now: Instant, first: Op, st1: Store, r: nat, ops: seq<Op>, again: Op,
                        st2: Store, result: Result<Started, StartError>)
    requires Wf(st) && first.StartOp? && again.StartOp? && first.ip == again.ip && first.now == now
    requires Starts(st, now, first.ip, first.req, first.generated, first.durable, st1, Err(RateLimited(r)))
    requires RecordNothing(st1, ops, again.now)
    requires Starts(PairingRuns.Run(st1, ops), again.now, again.ip, again.req, again.generated, again.durable, st2, result)
    ensures again.now >= now + (r + 1) * SECOND ==> !(result.Err? && result.error.RateLimited?)
    ensures r >= 2 && again.now < now + r * SECOND ==> result.Err? && result.error.RateLimited?
  {
    hide Wf, Starts, RetryAfter, Prune, PruneAll, Cleaned, Deque, PairingRuns.Run, RecordNothing;
    RateRefusal(st, now, first.ip, first.req, first.generated, first.durable, st1, Err(RateLimited(r)));
    RateRefusal(PairingRuns.Run(st1, ops), again.now, again.ip, again.req, again.generated, again.durable, st2, result);
    DequeBounds(st, now, first.ip);
    var nows := OnlyPrunes(st1, ops, again.now);
    RetryHintIsTight(st1.limiter, first.ip, now, r, nows, again.now);
  }

  /** An operation that records nothing adds no entry and moves no expiry. */
  lemma OpKeepsExpiries(st: Store, op: Op, at: Instant, id: CapId)
    requires op.now <= at && !Records(st, op)
    ensures id in Live(PairingRuns.Apply(st, op).pending, at) <==> id in Live(st.pending, at)
  {
    hide RetryAfter, Prune, Record;
  }

  lemma {:induction false} RunKeepsExpiries(st: Store, ops: seq<Op>, at: Instant)
    requires RecordNothing(st, ops, at)
    ensures Live(PairingRuns.Run(st, ops).pending, at).Keys == Live(st.pending, at).Keys
    decreases |ops|
  {
    hide PairingRuns.Apply, Records;
    if ops != [] {
      forall id ensures id in Live(PairingRuns.Apply(st, ops[0]).pending, at) <==> id in Live(st.pending, at) {
        OpKeepsExpiries(st, ops[0], at, id);
      }
      RunKeepsExpiries(PairingRuns.Apply(st, ops[0]), ops[1..], at);
    }
  }

  lemma CapacityRefusal(st: Store, now: Instant, ip: Source, req: Request, generated: seq<(CapId, CodeBytes)>,
                        durable: Option<bool>, st': Store, result: Result<Started, StartError>)
    requires Wf(st) && Starts(st, now, ip, req, generated, durable, st', result)
    ensures result.Err? && result.error.CapacityFull? ==>
              st' == Cleaned(st, now) && |st'.pending| == MAX_PENDING_PAIRINGS
              && IsCapacityHint(st'.pending, now, result.error.retryAfter)
    ensures result.Err? && result.error.CapacityFull? ==> |Live(st.pending, now)| >= MAX_PENDING_PAIRINGS
    ensures |Live(st.pending, now)| >= MAX_PENDING_PAIRINGS ==> TurnedAway(result)
  {
    hide RetryAfter, Prune, Record, FirstUnused, IsCapacityHint, Wf;
    CleanedKeeps(st, now);
    WfSize(Cleaned(st, now));
  }

  lemma WfSize(st: Store)
    requires Wf(st)
    ensures |st.pending| <= MAX_PENDING_PAIRINGS
  {
  }

  /** A start is refused for capacity with hint `r`.  Whatever happens next short of a recorded start, a
      start made `r + 1` or more seconds later is not refused for capacity, and if `r` is at least 2
      every one made less than `r` seconds later is turned away again. */
  lemma CapacityHintIsTight(st: Store, now: Instant, first: Op, st1: Store, r: nat, ops: seq<Op>, again: Op,
                            st2: Store, result: Result<Started, StartError>)
    requires Wf(st) && first.StartOp? && again.StartOp? && first.now == now
    requires Starts(st, now, first.ip, first.req, first.generated, first.durable, st1, Err(CapacityFull(r)))
    requires RecordNothing(st1, ops, again.now)
    requires Starts(PairingRuns.Run(st1, ops), again.now, again.ip, again.req, again.generated, again.durable, st2, result)
    ensures again.now >= now + (r + 1) * SECOND ==> !(result.Err? && result.error.CapacityFull?)
    ensures r >= 2 && again.now < now + r * SECOND ==> TurnedAway(result)
  {
    hide Wf, Starts, PairingRuns.Run, RecordNothing, Live, IsCapacityHint, Cleaned;
    CapacityRefusal(st, now, first.ip, first.req, first.generated, first.durable, st1, Err(CapacityFull(r)));
    assert Wf(st1) by { CleanedKeeps(st, now); }
    PairingRuns.StoreInvariant(st1, ops);
    CapacityRefusal(PairingRuns.Run(st1, ops), again.now, again.ip, again.req, again.generated, again.durable, st2, result);
    RunKeepsExpiries(st1, ops, again.now);
    ExpiriesDecide(st1.pending, now, r, again.now);
  }

  lemma ExpiriesDecide(pending: Pending, now: Instant, r: nat, at: Instant)
    requires |pending| == MAX_PENDING_PAIRINGS && IsCapacityHint(pending, now, r)
    ensures at >= now + (r + 1) * SECOND ==> |Live(pending, at).Keys| < MAX_PENDING_PAIRINGS
    ensures r >= 2 && at < now + r * SECOND ==> |Live(pending, at).Keys| == MAX_PENDING_PAIRINGS
  {
    var keys := Live(pending, at).Keys;
    var first :| first in pending && SecondsUntil(pending[first].expires, now) == r;
    if at >= now + (r + 1) * SECOND {
      assert first !in keys;
      SubsetSize(keys, pending.Keys - {first});
    }
    if r >= 2 && at < now + r * SECOND {
      forall id | id in pending ensures id in keys {
        HintIsALowerBound(pending[id].expires, now, r, at);
      }
      assert keys == pending.Keys;
    }
  }

  lemma HintIsALowerBound(expires: Instant, now: Instant, r: nat, at: Instant)
    requires r >= 2 && SecondsUntil(expires, now) >= r && at < now + r * SECOND
    ensures at < expires
  {
  }
}
