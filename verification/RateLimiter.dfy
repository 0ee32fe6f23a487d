/** The two sliding-window limiters of `src/pairing.rs`: one deque of start times per source
    address and one for all sources. */
module RateLimiter {
  import opened Basics

  type Source = nat

  const SOURCE_WINDOW: int := 600 * SECOND
  const GLOBAL_WINDOW: int := 60 * SECOND
  const MAX_SOURCE_STARTS: nat := 10
  const MAX_GLOBAL_STARTS: nat := 300

  datatype Limiter = Limiter(source: map<Source, seq<Instant>>, global: seq<Instant>)

  const NO_STARTS := Limiter(map[], [])

  function Deque(lim: Limiter, ip: Source): seq<Instant> {
    if ip in lim.source then lim.source[ip] else []
  }

  /** `Duration::num_seconds` truncates toward zero. */
  function NumSeconds(d: int): int {
    if d >= 0 then d / SECOND else -((-d) / SECOND)
  }

  function SecondsUntil(deadline: Instant, now: Instant): (r: nat)
    ensures r >= 1
    ensures deadline < now + (r + 1) * SECOND
    ensures r >= 2 ==> now + r * SECOND <= deadline
  {
    var whole := NumSeconds(deadline - now);
    if whole <= 1 then 1 else whole
  }

  /** Pops from the front while the front is at or before the cutoff. */
  function PopThrough(starts: seq<Instant>, cutoff: Instant): (kept: seq<Instant>)
    ensures |kept| <= |starts| && kept == starts[|starts| - |kept|..]
    ensures forall i :: 0 <= i < |starts| - |kept| ==> starts[i] <= cutoff
    ensures kept != [] ==> kept[0] > cutoff
  {
    if starts != [] && starts[0] <= cutoff then PopThrough(starts[1..], cutoff) else starts
  }

  /** Every deque pruned; empty deques are dropped from the map. */
  function Recent(source: map<Source, seq<Instant>>, cutoff: Instant): map<Source, seq<Instant>> {
    map ip | ip in source && PopThrough(source[ip], cutoff) != [] :: PopThrough(source[ip], cutoff)
  }

  /** `prune_rate_limits`. */
  function Prune(lim: Limiter, now: Instant): Limiter {
    Limiter(Recent(lim.source, now - SOURCE_WINDOW), PopThrough(lim.global, now - GLOBAL_WINDOW))
  }

  function WindowRetry(starts: seq<Instant>, limit: nat, window: int, now: Instant): Option<nat> {
    if |starts| >= limit && starts != [] then Some(SecondsUntil(starts[0] + window, now)) else None
  }

  function RetryAfter(lim: Limiter, ip: Source, now: Instant): Option<nat> {
    var source := WindowRetry(Deque(lim, ip), MAX_SOURCE_STARTS, SOURCE_WINDOW, now);
    var global := WindowRetry(lim.global, MAX_GLOBAL_STARTS, GLOBAL_WINDOW, now);
    if source.Some? && global.Some? then Some(if source.value >= global.value then source.value else global.value)
    else if source.Some? then source
    else global
  }

  function Record(lim: Limiter, ip: Source, now: Instant): Limiter {
    Limiter(lim.source[ip := Deque(lim, ip) + [now]], lim.global + [now])
  }

  lemma DequePrune(lim: Limiter, ip: Source, now: Instant)
    ensures Deque(Prune(lim, now), ip) == PopThrough(Deque(lim, ip), now - SOURCE_WINDOW)
  {
  }

  // ----- runs -----

  /** One call of `start`: the clock reading it was given, its source, and whether the store turned it
      away for lack of capacity. */
  datatype Attempt = Attempt(now: Instant, ip: Source, full: bool)

  /** A recorded start. */
  datatype Start = Start(ip: Source, at: Instant)

  predicate Admitted(lim: Limiter, a: Attempt) {
    RetryAfter(Prune(lim, a.now), a.ip, a.now).None? && !a.full
  }

  function Try(lim: Limiter, a: Attempt): Limiter {
    if Admitted(lim, a) then Record(Prune(lim, a.now), a.ip, a.now) else Prune(lim, a.now)
  }

  function Run(lim: Limiter, attempts: seq<Attempt>): Limiter
    decreases |attempts|
  {
    if attempts == [] then lim else Try(Run(lim, attempts[..|attempts| - 1]), attempts[|attempts| - 1])
  }

  /** The whole history of recorded starts, in the order in which they were recorded. */
  function Recorded(attempts: seq<Attempt>): seq<Start>
    decreases |attempts|
  {
    if attempts == [] then []
    else
      var before, a := attempts[..|attempts| - 1], attempts[|attempts| - 1];
      if Admitted(Run(NO_STARTS, before), a) then Recorded(before) + [Start(a.ip, a.now)] else Recorded(before)
  }

  function Times(h: seq<Start>): seq<Instant> {
    seq(|h|, i requires 0 <= i < |h| => h[i].at)
  }

  function TimesOf(h: seq<Start>, ip: Source): seq<Instant> {
    if h == [] then []
    else
      var rest, last := TimesOf(h[..|h| - 1], ip), h[|h| - 1];
      if last.ip == ip then rest + [last.at] else rest
  }

  lemma TimesOfSnoc(h: seq<Start>, s: Start, ip: Source)
    ensures TimesOf(h + [s], ip) == if s.ip == ip then TimesOf(h, ip) + [s.at] else TimesOf(h, ip)
    ensures Times(h + [s]) == Times(h) + [s.at]
  {
    assert (h + [s])[..|h|] == h;
  }

  /** No clock reading lies more than `skew` before an earlier one.  Zero means that the clock never
      goes back. */
  ghost predicate Skewed(attempts: seq<Attempt>, skew: int) {
    forall i, j :: 0 <= i <= j < |attempts| ==> attempts[i].now - skew <= attempts[j].now
  }

  /** The deque is what is left of the history after dropping a front part, all of it at or before the
      cutoff of some reading seen so far. */
  ghost predicate Tail(deque: seq<Instant>, history: seq<Instant>, attempts: seq<Attempt>, window: int) {
    && |deque| <= |history|
    && deque == history[|history| - |deque|..]
    && (forall i :: 0 <= i < |history| - |deque| ==> Behind(history[i] + window, attempts))
  }

  ghost predicate Behind(deadline: Instant, attempts: seq<Attempt>) {
    exists j :: 0 <= j < |attempts| && deadline <= attempts[j].now
  }

  /** Starts that are `limit` places apart are nearly a window apart. */
  ghost predicate Spaced(history: seq<Instant>, limit: nat, span: int) {
    forall i, j :: 0 <= i && i + limit <= j < |history| ==> history[i] + span <= history[j]
  }

  lemma BehindGrows(deadline: Instant, attempts: seq<Attempt>, a: Attempt)
    requires Behind(deadline, attempts) || deadline <= a.now
    ensures Behind(deadline, attempts + [a])
  {
    if Behind(deadline, attempts) {
      var j :| 0 <= j < |attempts| && deadline <= attempts[j].now;
      assert (attempts + [a])[j] == attempts[j];
    } else {
      assert (attempts + [a])[|attempts|] == a;
    }
  }

  lemma TailPrune(deque: seq<Instant>, history: seq<Instant>, attempts: seq<Attempt>, window: int, a: Attempt)
    requires Tail(deque, history, attempts, window)
    ensures Tail(PopThrough(deque, a.now - window), history, attempts + [a], window)
  {
    var kept := PopThrough(deque, a.now - window);
    forall i | 0 <= i < |history| - |kept| ensures Behind(history[i] + window, attempts + [a]) {
      if i >= |history| - |deque| {
        assert history[i] == deque[i - (|history| - |deque|)];
      }
      BehindGrows(history[i] + window, attempts, a);
    }
  }

  lemma TailRecord(deque: seq<Instant>, history: seq<Instant>, attempts: seq<Attempt>, window: int, at: Instant)
    requires Tail(deque, history, attempts, window)
    ensures Tail(deque + [at], history + [at], attempts, window)
  {
    var d, h := deque + [at], history + [at];
    assert h[|h| - |d|..] == d;
    forall i | 0 <= i < |h| - |d| ensures Behind(h[i] + window, attempts) {
      assert h[i] == history[i];
    }
  }

  /** Recording behind a deque shorter than the limit keeps the history spaced, up to clock skew. */
  lemma SpacedRecord(deque: seq<Instant>, history: seq<Instant>, attempts: seq<Attempt>, limit: nat, window: int,
                     skew: int, at: Instant)
    requires Tail(deque, history, attempts, window) && |deque| < limit
    requires forall j :: 0 <= j < |attempts| ==> attempts[j].now - skew <= at
    requires Spaced(history, limit, window - skew)
    ensures Spaced(history + [at], limit, window - skew)
  {
    var h := history + [at];
    forall i, j | 0 <= i && i + limit <= j < |h| ensures h[i] + (window - skew) <= h[j] {
      if j == |history| {
        assert Behind(history[i] + window, attempts);
      }
    }
  }

  /** Everything a run keeps true of one deque. */
  ghost predicate Window(deque: seq<Instant>, history: seq<Instant>, attempts: seq<Attempt>, limit: nat, window: int,
                         skew: int) {
    Tail(deque, history, attempts, window) && Spaced(history, limit, window - skew) && |deque| <= limit
  }

  lemma WindowStep(deque: seq<Instant>, history: seq<Instant>, attempts: seq<Attempt>, limit: nat, window: int,
                   skew: int, a: Attempt, records: bool)
    requires Window(deque, history, attempts, limit, window, skew) && skew >= 0 && limit > 0
    requires Skewed(attempts + [a], skew)
    requires records ==> |PopThrough(deque, a.now - window)| < limit
    ensures var kept := PopThrough(deque, a.now - window);
            if records then Window(kept + [a.now], history + [a.now], attempts + [a], limit, window, skew)
            else Window(kept, history, attempts + [a], limit, window, skew)
  {
    var kept := PopThrough(deque, a.now - window);
    TailPrune(deque, history, attempts, window, a);
    if records {
      TailRecord(kept, history, attempts + [a], window, a.now);
      forall j | 0 <= j < |attempts + [a]| ensures (attempts + [a])[j].now - skew <= a.now {
        assert (attempts + [a])[|attempts|] == a;
      }
      SpacedRecord(kept, history, attempts + [a], limit, window, skew, a.now);
    }
  }

  /** One attempt, as the deque of one source sees it. */
  lemma TrySource(lim: Limiter, h: seq<Start>, a: Attempt, ip: Source)
    ensures var records := Admitted(lim, a) && a.ip == ip;
            var h' := if Admitted(lim, a) then h + [Start(a.ip, a.now)] else h;
            var kept := PopThrough(Deque(lim, ip), a.now - SOURCE_WINDOW);
            && (records ==> |kept| < MAX_SOURCE_STARTS)
            && Deque(Try(lim, a), ip) == (if records then kept + [a.now] else kept)
            && TimesOf(h', ip) == (if records then TimesOf(h, ip) + [a.now] else TimesOf(h, ip))
  {
    hide PopThrough, TimesOf;
    DequePrune(lim, ip, a.now);
    TimesOfSnoc(h, Start(a.ip, a.now), ip);
    assert Deque(Record(Prune(lim, a.now), a.ip, a.now), ip) ==
      if a.ip == ip then Deque(Prune(lim, a.now), ip) + [a.now] else Deque(Prune(lim, a.now), ip);
  }

  /** One attempt, as the global deque sees it. */
  lemma TryGlobal(lim: Limiter, h: seq<Start>, a: Attempt)
    ensures var records := Admitted(lim, a);
            var h' := if records then h + [Start(a.ip, a.now)] else h;
            var kept := PopThrough(lim.global, a.now - GLOBAL_WINDOW);
            && (records ==> |kept| < MAX_GLOBAL_STARTS)
            && Try(lim, a).global == (if records then kept + [a.now] else kept)
            && Times(h') == (if records then Times(h) + [a.now] else Times(h))
  {
    hide PopThrough, TimesOf;
    TimesOfSnoc(h, Start(a.ip, a.now), 0);
  }

  ghost predicate Windows(lim: Limiter, h: seq<Start>, attempts: seq<Attempt>, ip: Source, skew: int) {
    && Window(Deque(lim, ip), TimesOf(h, ip), attempts, MAX_SOURCE_STARTS, SOURCE_WINDOW, skew)
    && Window(lim.global, Times(h), attempts, MAX_GLOBAL_STARTS, GLOBAL_WINDOW, skew)
  }

  lemma SkewedPrefix(attempts: seq<Attempt>, a: Attempt, skew: int)
    requires Skewed(attempts + [a], skew)
    ensures Skewed(attempts, skew)
  {
    forall i, j | 0 <= i <= j < |attempts| ensures attempts[i].now - skew <= attempts[j].now {
      assert (attempts + [a])[i] == attempts[i] && (attempts + [a])[j] == attempts[j];
    }
  }

  /** What every run keeps true, for one source and for all sources together. */
  lemma {:induction false} RunWindows(attempts: seq<Attempt>, ip: Source, skew: int)
    requires skew >= 0 && Skewed(attempts, skew)
    ensures Windows(Run(NO_STARTS, attempts), Recorded(attempts), attempts, ip, skew)
    decreases |attempts|
  {
    if attempts != [] {
      hide Windows, Run, Recorded, Skewed;
      var before, a := attempts[..|attempts| - 1], attempts[|attempts| - 1];
      assert attempts == before + [a];
      SkewedPrefix(before, a, skew);
      RunWindows(before, ip, skew);
      RunSnoc(before, a);
      WindowsStep(Run(NO_STARTS, before), Recorded(before), before, a, ip, skew);
    }
  }

  lemma RunSnoc(before: seq<Attempt>, a: Attempt)
    ensures var lim := Run(NO_STARTS, before);
            && Run(NO_STARTS, before + [a]) == Try(lim, a)
            && Recorded(before + [a]) == if Admitted(lim, a) then Recorded(before) + [Start(a.ip, a.now)] else Recorded(before)
  {
    hide Try, Admitted;
    assert (before + [a])[..|before|] == before;
  }

  lemma WindowsStep(lim: Limiter, h: seq<Start>, before: seq<Attempt>, a: Attempt, ip: Source, skew: int)
    requires skew >= 0 && Skewed(before + [a], skew) && Windows(lim, h, before, ip, skew)
    ensures Windows(Try(lim, a), if Admitted(lim, a) then h + [Start(a.ip, a.now)] else h, before + [a], ip, skew)
  {
    hide Window, Try, Admitted, TimesOf, Times, Skewed, PopThrough, Deque;
    var records := Admitted(lim, a);
    TrySource(lim, h, a, ip);
    TryGlobal(lim, h, a);
    WindowStep(Deque(lim, ip), TimesOf(h, ip), before, MAX_SOURCE_STARTS, SOURCE_WINDOW, skew, a,
               records && a.ip == ip);
    WindowStep(lim.global, Times(h), before, MAX_GLOBAL_STARTS, GLOBAL_WINDOW, skew, a, records);
  }

  /** The recorded starts in a half-open window. */
  function Within(history: seq<Instant>, after: Instant, upTo: Instant): set<nat> {
    set i: nat | 0 <= i < |history| && after < history[i] <= upTo
  }

  lemma {:induction false} IntervalSize(s: set<nat>, lo: nat, n: nat)
    requires forall i: nat :: i in s ==> lo <= i < lo + n
    ensures |s| <= n
    decreases n
  {
    if n > 0 {
      var rest := s - {lo + n - 1};
      IntervalSize(rest, lo, n - 1);
      if lo + n - 1 in s { assert s == rest + {lo + n - 1}; } else { assert s == rest; }
    } else {
      assert s == {};
    }
  }

  lemma SpacedBoundsWindow(history: seq<Instant>, limit: nat, span: int, upTo: Instant)
    requires Spaced(history, limit, span)
    ensures |Within(history, upTo - span, upTo)| <= limit
  {
    var s := Within(history, upTo - span, upTo);
    if s != {} {
      var lo := Least(s, |history|);
      forall i: nat | i in s ensures lo <= i < lo + limit {}
      IntervalSize(s, lo, limit);
    }
  }

  lemma {:induction false} Least(s: set<nat>, bound: nat) returns (lo: nat)
    requires s != {} && forall i: nat :: i in s ==> i < bound
    ensures lo in s && forall i: nat :: i in s ==> lo <= i
    decreases |s|
  {
    var first: nat :| first in s;
    var rest := s - {first};
    lo := first;
    if rest != {} {
      var other := Least(rest, bound);
      if other < lo { lo := other; }
    }
    forall i: nat | i in s ensures lo <= i {
      assert i == first || i in rest;
    }
  }

  /** Over any run whose clock never goes back by more than `skew`, no window of ten minutes less the
      skew holds more than 10 recorded starts of one source, and no window of one minute less the skew
      holds more than 300 recorded starts altogether. */
  lemma RateBound(attempts: seq<Attempt>, skew: int, ip: Source, upTo: Instant)
    requires skew >= 0 && Skewed(attempts, skew)
    ensures |Within(TimesOf(Recorded(attempts), ip), upTo - (SOURCE_WINDOW - skew), upTo)| <= MAX_SOURCE_STARTS
    ensures |Within(Times(Recorded(attempts)), upTo - (GLOBAL_WINDOW - skew), upTo)| <= MAX_GLOBAL_STARTS
  {
    hide Run, Recorded, TimesOf, Times, Tail, Skewed, Spaced;
    RunWindows(attempts, ip, skew);
    SpacedBoundsWindow(TimesOf(Recorded(attempts), ip), MAX_SOURCE_STARTS, SOURCE_WINDOW - skew, upTo);
    SpacedBoundsWindow(Times(Recorded(attempts)), MAX_GLOBAL_STARTS, GLOBAL_WINDOW - skew, upTo);
  }

  // ----- with a clock that never goes back, a deque is a filter over the whole history -----

  /** The specification of a deque: the recorded starts in (after, upTo], in order. */
  function InWindow(history: seq<Instant>, after: Instant, upTo: Instant): seq<Instant> {
    if history == [] then []
    else
      var rest, last := InWindow(history[..|history| - 1], after, upTo), history[|history| - 1];
      if after < last <= upTo then rest + [last] else rest
  }

  lemma {:induction false} InWindowIsTail(history: seq<Instant>, k: nat, after: Instant, upTo: Instant)
    requires k <= |history|
    requires forall i :: 0 <= i < k ==> history[i] <= after
    requires forall i :: k <= i < |history| ==> after < history[i] <= upTo
    ensures InWindow(history, after, upTo) == history[k..]
    decreases |history|
  {
    if history != [] {
      var init := history[..|history| - 1];
      if k == |history| {
        InWindowIsTail(init, k - 1, after, upTo);
      } else {
        InWindowIsTail(init, k, after, upTo);
        assert history[k..] == init[k..] + [history[|history| - 1]];
      }
    }
  }

  /** A history in order, none of it after the latest clock reading. */
  ghost predicate Ordered(history: seq<Instant>, attempts: seq<Attempt>) {
    && (forall i, j :: 0 <= i <= j < |history| ==> history[i] <= history[j])
    && (forall i :: 0 <= i < |history| ==> Behind(history[i], attempts))
  }

  lemma OrderedStep(history: seq<Instant>, attempts: seq<Attempt>, a: Attempt, records: bool)
    requires Ordered(history, attempts) && Skewed(attempts + [a], 0)
    ensures Ordered(if records then history + [a.now] else history, attempts + [a])
  {
    var all := attempts + [a];
    forall i | 0 <= i < |history| ensures history[i] <= a.now && Behind(history[i], all) {
      var j :| 0 <= j < |attempts| && history[i] <= attempts[j].now;
      assert all[j] == attempts[j] && all[|attempts|] == a;
      BehindGrows(history[i], attempts, a);
    }
    BehindGrows(a.now, attempts, a);
  }

  lemma {:induction false} RecordedInOrder(attempts: seq<Attempt>, ip: Source)
    requires Skewed(attempts, 0)
    ensures Ordered(TimesOf(Recorded(attempts), ip), attempts)
    ensures Ordered(Times(Recorded(attempts)), attempts)
    decreases |attempts|
  {
    hide Ordered, Try, Admitted, TimesOf, Times, Skewed, Run, Recorded;
    if attempts == [] {
      NothingRecorded(ip);
    } else {
      var before, a := attempts[..|attempts| - 1], attempts[|attempts| - 1];
      assert attempts == before + [a];
      SkewedPrefix(before, a, 0);
      RecordedInOrder(before, ip);
      RunSnoc(before, a);
      var lim, h := Run(NO_STARTS, before), Recorded(before);
      TrySource(lim, h, a, ip);
      TryGlobal(lim, h, a);
      OrderedStep(TimesOf(h, ip), before, a, Admitted(lim, a) && a.ip == ip);
      OrderedStep(Times(h), before, a, Admitted(lim, a));
    }
  }

  lemma NothingRecorded(ip: Source)
    ensures Ordered(TimesOf(Recorded([]), ip), []) && Ordered(Times(Recorded([])), [])
  {
  }

  /** Under a clock that never goes back, the last reading is the latest. */
  lemma BehindLast(x: Instant, attempts: seq<Attempt>, a: Attempt)
    requires Skewed(attempts + [a], 0) && Behind(x, attempts + [a])
    ensures x <= a.now
  {
    var all := attempts + [a];
    var j :| 0 <= j < |all| && x <= all[j].now;
    assert all[|attempts|] == a;
    assert all[j].now - 0 <= all[|attempts|].now;
  }

  lemma TailDropped(deque: seq<Instant>, history: seq<Instant>, attempts: seq<Attempt>, window: int, a: Attempt)
    requires Tail(deque, history, attempts + [a], window) && Skewed(attempts + [a], 0)
    ensures |deque| <= |history| && deque == history[|history| - |deque|..]
    ensures forall i :: 0 <= i < |history| - |deque| ==> history[i] <= a.now - window
  {
    hide Skewed;
    forall i | 0 <= i < |history| - |deque| ensures history[i] <= a.now - window {
      BehindLast(history[i] + window, attempts, a);
    }
  }

  lemma OrderedKept(history: seq<Instant>, attempts: seq<Attempt>, a: Attempt, k: nat, cutoff: Instant)
    requires Ordered(history, attempts + [a]) && Skewed(attempts + [a], 0)
    requires k < |history| && history[k] > cutoff
    ensures forall i :: k <= i < |history| ==> cutoff < history[i] <= a.now
  {
    hide Skewed;
    forall i | k <= i < |history| ensures cutoff < history[i] <= a.now {
      assert history[k] <= history[i];
      BehindLast(history[i], attempts, a);
    }
  }

  lemma PrunedIsInWindow(deque: seq<Instant>, history: seq<Instant>, attempts: seq<Attempt>, window: int, a: Attempt)
    requires Tail(deque, history, attempts, window) && Ordered(history, attempts) && Skewed(attempts + [a], 0)
    ensures PopThrough(deque, a.now - window) == InWindow(history, a.now - window, a.now)
  {
    hide Skewed, Tail, Ordered, InWindow, PopThrough;
    var kept := PopThrough(deque, a.now - window);
    TailPrune(deque, history, attempts, window, a);
    TailDropped(kept, history, attempts, window, a);
    OrderedStep(history, attempts, a, false);
    var k := |history| - |kept|;
    if kept != [] {
      assert history[k] == kept[0];
      OrderedKept(history, attempts, a, k, a.now - window);
    }
    InWindowIsTail(history, k, a.now - window, a.now);
  }

  /** With a clock that never goes back, pruning at the next reading leaves in each deque exactly the
      recorded starts of the last window, however old the history is. */
  lemma DequesAreWindows(attempts: seq<Attempt>, a: Attempt, ip: Source)
    requires Skewed(attempts + [a], 0)
    ensures var h, lim := Recorded(attempts), Prune(Run(NO_STARTS, attempts), a.now);
            && Deque(lim, ip) == InWindow(TimesOf(h, ip), a.now - SOURCE_WINDOW, a.now)
            && lim.global == InWindow(Times(h), a.now - GLOBAL_WINDOW, a.now)
  {
    hide Run, Recorded, TimesOf, Times, Skewed, Ordered, Tail, Spaced, PopThrough, InWindow, Deque;
    SkewedPrefix(attempts, a, 0);
    RunWindows(attempts, ip, 0);
    RecordedInOrder(attempts, ip);
    var h, lim := Recorded(attempts), Run(NO_STARTS, attempts);
    DequePrune(lim, ip, a.now);
    PrunedIsInWindow(Deque(lim, ip), TimesOf(h, ip), attempts, SOURCE_WINDOW, a);
    PrunedIsInWindow(lim.global, Times(h), attempts, GLOBAL_WINDOW, a);
  }

  // ----- one tick of skew is enough to exceed the full window -----

  function Burst(n: nat, ip: Source): seq<Attempt> {
    seq(n, _ => Attempt(0, ip, false))
  }

  function Zeros(n: nat): seq<Instant> {
    seq(n, _ => 0)
  }

  /** Both deques hold these times, and nothing else about the limiter matters to this source. */
  ghost predicate Both(lim: Limiter, ip: Source, times: seq<Instant>) {
    Deque(lim, ip) == times && lim.global == times
  }

  lemma RecordDeques(lim: Limiter, ip: Source, now: Instant)
    ensures Deque(Record(lim, ip, now), ip) == Deque(lim, ip) + [now]
    ensures Record(lim, ip, now).global == lim.global + [now]
  {
  }

  lemma OpenWindows(lim: Limiter, ip: Source, now: Instant)
    requires |Deque(lim, ip)| < MAX_SOURCE_STARTS && |lim.global| < MAX_GLOBAL_STARTS
    ensures RetryAfter(lim, ip, now).None?
  {
  }

  /** An attempt that finds fewer than ten starts left in both deques is recorded. */
  lemma Passes(lim: Limiter, ip: Source, now: Instant, times: seq<Instant>)
    requires |times| < MAX_SOURCE_STARTS
    requires PopThrough(Deque(lim, ip), now - SOURCE_WINDOW) == times
    requires PopThrough(lim.global, now - GLOBAL_WINDOW) == times
    ensures Admitted(lim, Attempt(now, ip, false))
    ensures Both(Try(lim, Attempt(now, ip, false)), ip, times + [now])
  {
    hide PopThrough, Prune, Record, RetryAfter, Deque;
    var pruned := Prune(lim, now);
    DequePrune(lim, ip, now);
    GlobalPrune(lim, now);
    OpenWindows(pruned, ip, now);
    RecordDeques(pruned, ip, now);
  }

  lemma {:induction false} BurstState(n: nat, ip: Source)
    requires n <= MAX_SOURCE_STARTS
    ensures Both(Run(NO_STARTS, Burst(n, ip)), ip, Zeros(n))
    ensures TimesOf(Recorded(Burst(n, ip)), ip) == Zeros(n)
  {
    if n > 0 {
      assert Burst(n, ip)[..n - 1] == Burst(n - 1, ip);
      BurstState(n - 1, ip);
      hide TimesOf, Admitted, Try;
      var lim, h := Run(NO_STARTS, Burst(n - 1, ip)), Recorded(Burst(n - 1, ip));
      Passes(lim, ip, 0, Zeros(n - 1));
      TimesOfSnoc(h, Start(ip, 0), ip);
      assert Zeros(n) == Zeros(n - 1) + [0];
    }
  }

  lemma {:induction false} PopAll(starts: seq<Instant>, cutoff: Instant)
    requires forall i :: 0 <= i < |starts| ==> starts[i] <= cutoff
    ensures PopThrough(starts, cutoff) == []
  {
    if starts != [] { PopAll(starts[1..], cutoff); }
  }

  /** A recorded last attempt extends the run and the history. */
  lemma Extend(before: seq<Attempt>, a: Attempt, ip: Source)
    requires Admitted(Run(NO_STARTS, before), a) && a.ip == ip
    ensures Run(NO_STARTS, before + [a]) == Try(Run(NO_STARTS, before), a)
    ensures TimesOf(Recorded(before + [a]), ip) == TimesOf(Recorded(before), ip) + [a.now]
  {
    assert (before + [a])[..|before|] == before;
    TimesOfSnoc(Recorded(before), Start(a.ip, a.now), ip);
  }

  /** Ten starts at time 0, one ten minutes later, one a tick before that: the last two both pass, and
      eleven recorded starts lie within one ten-minute window. */
  lemma BackwardClockExceedsLimit(ip: Source)
    ensures var attempts := Burst(10, ip) + [Attempt(SOURCE_WINDOW, ip, false)] + [Attempt(SOURCE_WINDOW - 1, ip, false)];
            && Skewed(attempts, 1)
            && |Within(TimesOf(Recorded(attempts), ip), -1, -1 + SOURCE_WINDOW)| > MAX_SOURCE_STARTS
  {
    hide Run, Recorded, TimesOf, Admitted, Try, PopThrough, Skewed;
    var b0 := Burst(10, ip);
    var a1, a2 := Attempt(SOURCE_WINDOW, ip, false), Attempt(SOURCE_WINDOW - 1, ip, false);
    BurstState(10, ip);
    PopAll(Zeros(10), SOURCE_WINDOW - SOURCE_WINDOW);
    PopAll(Zeros(10), SOURCE_WINDOW - GLOBAL_WINDOW);
    Passes(Run(NO_STARTS, b0), ip, SOURCE_WINDOW, []);
    Extend(b0, a1, ip);
    assert [] + [SOURCE_WINDOW] == [SOURCE_WINDOW];
    PopNone([SOURCE_WINDOW], -1);
    PopNone([SOURCE_WINDOW], SOURCE_WINDOW - 1 - GLOBAL_WINDOW);
    Passes(Run(NO_STARTS, b0 + [a1]), ip, SOURCE_WINDOW - 1, [SOURCE_WINDOW]);
    Extend(b0 + [a1], a2, ip);
    BurstSkew(ip);
    assert Zeros(10) + [SOURCE_WINDOW] + [SOURCE_WINDOW - 1] == TimesOf(Recorded(b0 + [a1] + [a2]), ip);
    ElevenInside(TimesOf(Recorded(b0 + [a1] + [a2]), ip));
  }

  lemma PopNone(starts: seq<Instant>, cutoff: Instant)
    requires starts != [] && starts[0] > cutoff
    ensures PopThrough(starts, cutoff) == starts
  {
  }

  lemma BurstSkew(ip: Source)
    ensures Skewed(Burst(10, ip) + [Attempt(SOURCE_WINDOW, ip, false)] + [Attempt(SOURCE_WINDOW - 1, ip, false)], 1)
  {
  }

  lemma ElevenInside(times: seq<Instant>)
    requires |times| == 12 && (forall i :: 0 <= i < 10 ==> times[i] == 0) && times[11] == SOURCE_WINDOW - 1
    ensures |Within(times, -1, -1 + SOURCE_WINDOW)| > MAX_SOURCE_STARTS
  {
    hide UpTo;
    Numbers(10);
    var eleven := UpTo(10) + {11};
    assert eleven <= Within(times, -1, -1 + SOURCE_WINDOW);
    SubsetSize(eleven, Within(times, -1, -1 + SOURCE_WINDOW));
  }

  function UpTo(n: nat): set<nat> {
    if n == 0 then {} else UpTo(n - 1) + {n - 1}
  }

  lemma {:induction false} Numbers(n: nat)
    ensures |UpTo(n)| == n && forall i: nat :: i in UpTo(n) <==> i < n
  {
    if n > 0 { Numbers(n - 1); }
  }

  // ----- retry hints -----

  lemma {:induction false} PopTwice(starts: seq<Instant>, a: Instant, b: Instant)
    requires a <= b
    ensures PopThrough(PopThrough(starts, a), b) == PopThrough(starts, b)
  {
    if starts != [] && starts[0] <= a { PopTwice(starts[1..], a, b); }
  }

  /** The limiter after calls that recorded nothing. */
  function PruneAll(lim: Limiter, nows: seq<Instant>): Limiter
    decreases |nows|
  {
    if nows == [] then lim else PruneAll(Prune(lim, nows[0]), nows[1..])
  }

  lemma PruneTwice(lim: Limiter, a: Instant, b: Instant, ip: Source)
    requires a <= b
    ensures Deque(Prune(Prune(lim, a), b), ip) == Deque(Prune(lim, b), ip)
    ensures Prune(Prune(lim, a), b).global == Prune(lim, b).global
  {
    DequePrune(lim, ip, a);
    DequePrune(lim, ip, b);
    DequePrune(Prune(lim, a), ip, b);
    PopTwice(Deque(lim, ip), a - SOURCE_WINDOW, b - SOURCE_WINDOW);
    PopTwice(lim.global, a - GLOBAL_WINDOW, b - GLOBAL_WINDOW);
  }

  lemma {:induction false} PruneAllThenPrune(lim: Limiter, nows: seq<Instant>, at: Instant, ip: Source)
    requires forall i :: 0 <= i < |nows| ==> nows[i] <= at
    ensures Deque(Prune(PruneAll(lim, nows), at), ip) == Deque(Prune(lim, at), ip)
    ensures Prune(PruneAll(lim, nows), at).global == Prune(lim, at).global
    decreases |nows|
  {
    if nows != [] {
      PruneAllThenPrune(Prune(lim, nows[0]), nows[1..], at, ip);
      PruneTwice(lim, nows[0], at, ip);
    }
  }

  /** A hint tells one deque's story: full before the hinted moment, open once a second past it. */
  lemma WindowHint(starts: seq<Instant>, limit: nat, window: int, now: Instant, r: nat, at: Instant)
    requires limit > 0 && |starts| <= limit
    requires WindowRetry(starts, limit, window, now) == Some(r)
    ensures at >= now + (r + 1) * SECOND ==> WindowRetry(PopThrough(starts, at - window), limit, window, at).None?
    ensures r >= 2 && at < now + r * SECOND ==> WindowRetry(PopThrough(starts, at - window), limit, window, at).Some?
  {
  }

  lemma WindowStaysOpen(starts: seq<Instant>, limit: nat, window: int, now: Instant, at: Instant)
    requires limit > 0 && WindowRetry(starts, limit, window, now).None?
    ensures WindowRetry(PopThrough(starts, at - window), limit, window, at).None?
  {
  }

  /** After a refusal with hint `r`, and whatever refused calls come between, an attempt made `r + 1`
      or more seconds later is not rate limited; if `r` is at least 2, any attempt made less than `r`
      seconds later still is. */
  lemma RetryHintIsTight(lim: Limiter, ip: Source, now: Instant, r: nat, nows: seq<Instant>, at: Instant)
    requires |Deque(lim, ip)| <= MAX_SOURCE_STARTS && |lim.global| <= MAX_GLOBAL_STARTS
    requires RetryAfter(lim, ip, now) == Some(r)
    requires forall i :: 0 <= i < |nows| ==> nows[i] <= at
    ensures at >= now + (r + 1) * SECOND ==> RetryAfter(Prune(PruneAll(lim, nows), at), ip, at).None?
    ensures r >= 2 && at < now + r * SECOND ==> RetryAfter(Prune(PruneAll(lim, nows), at), ip, at).Some?
  {
    hide PruneAll, PopThrough, WindowRetry, Prune, Deque;
    PruneAllThenPrune(lim, nows, at, ip);
    DequePrune(lim, ip, at);
    var source := WindowRetry(Deque(lim, ip), MAX_SOURCE_STARTS, SOURCE_WINDOW, now);
    var global := WindowRetry(lim.global, MAX_GLOBAL_STARTS, GLOBAL_WINDOW, now);
    HintOrOpen(Deque(lim, ip), MAX_SOURCE_STARTS, SOURCE_WINDOW, now, r, at);
    HintOrOpen(lim.global, MAX_GLOBAL_STARTS, GLOBAL_WINDOW, now, r, at);
    GlobalPrune(lim, at);
  }

  lemma GlobalPrune(lim: Limiter, at: Instant)
    ensures Prune(lim, at).global == PopThrough(lim.global, at - GLOBAL_WINDOW)
  {
  }

  /** One deque under a hint at least as large as its own. */
  lemma HintOrOpen(starts: seq<Instant>, limit: nat, window: int, now: Instant, r: nat, at: Instant)
    requires limit > 0 && |starts| <= limit
    requires var own := WindowRetry(starts, limit, window, now); own.Some? ==> own.value <= r
    ensures at >= now + (r + 1) * SECOND ==> WindowRetry(PopThrough(starts, at - window), limit, window, at).None?
    ensures WindowRetry(starts, limit, window, now) == Some(r) && r >= 2 && at < now + r * SECOND ==>
              WindowRetry(PopThrough(starts, at - window), limit, window, at).Some?
  {
    var own := WindowRetry(starts, limit, window, now);
    if own.Some? {
      WindowHint(starts, limit, window, now, own.value, at);
    } else {
      WindowStaysOpen(starts, limit, window, now, at);
    }
  }
}
