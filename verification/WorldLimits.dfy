/** The rate limits in the joint protocol: between two restarts of the server, whatever approvals, claims
    and other threads interleave, the starts stay within the windows.  A restart forgets them. */
module WorldLimits {
  import opened Basics
  import opened Codes
  import opened RateLimiter
  import opened Pairing
  import PairingRuns
  import StartLimits
  import Protocol
  import opened World
  import Activation
  import WorldInvariant
  import WorldTheorems

  /** The event is a start that gets the store's lock. */
  predicate Starting(w: World, h: Happening) {
    h.StartPairing? && w.lock.Free? && NoneExpired(w.store, h.now)
  }

  function AttemptIn(w: World, h: Happening): Attempt
    requires h.StartPairing?
  {
    Attempt(h.now, h.ip, |Cleaned(w.store, h.now).pending| >= MAX_PENDING_PAIRINGS)
  }

  lemma NextLimiter(w: World, h: Happening)
    requires !h.RestartServer?
    ensures Next(w, h).store.limiter == if Starting(w, h) then Try(w.store.limiter, AttemptIn(w, h)) else w.store.limiter
  {
    hide Next;
    match h
    case StartPairing(now, ip, req, generated, readable) => StartLimiter(w, now, ip, req, generated, readable);
    case _ => OtherLimiter(w, h);
  }

  lemma StartLimiter(w: World, now: Instant, ip: Source, req: Request, generated: seq<(CapId, CodeBytes)>, readable: bool)
    ensures var h := StartPairing(now, ip, req, generated, readable);
            Next(w, h).store.limiter == if Starting(w, h) then Try(w.store.limiter, AttemptIn(w, h)) else w.store.limiter
  {
    hide StartStore, Try, NoneExpired, VerifierKnown;
    var known := if readable then Some(VerifierKnown(w.life.rows, req.verifier)) else None;
    StartLimits.StartIsAttempt(w.store, PairingRuns.StartOp(now, ip, req, generated, known));
  }

  lemma OtherLimiter(w: World, h: Happening)
    requires !h.StartPairing? && !h.RestartServer?
    ensures Next(w, h).store.limiter == w.store.limiter
  {
    hide Protocol.Do, Foreign, Protocol.DoDrop, Protocol.DoAcquire, NoneExpired, AsksToBind, Activates, Answer, ParseDisplayCode;
    match h
    case Life(_) =>
    case ExpirePairing(_, _, _) =>
    case ApproveBegin(_, _, _, _, _, _) =>
    case ApproveEnd(_, _, _) =>
    case DenyPairing(_, _, _) =>
    case ClaimBegin(_, _, _, _) =>
    case ActivateStep(io, closes) => if CanActivate(w) { ActivateLimiter(w, io, closes); }
    case ClaimFinish(_, _) =>
    case OpenScan(_) =>
    case OpenPrune(_) =>
  }

  lemma ActivateLimiter(w: World, io: Activation.Io, closes: bool)
    requires CanActivate(w)
    ensures DoActivate(w, io, closes).store.limiter == w.store.limiter
  {
    WorldInvariant.AdvancedFrame(w, io);
    WorldTheorems.AdvancedLeases(w, io);
    hide Advanced, Protocol.DoDrop;
  }

  /** The starts that got the store's lock, as attempts at the limiter. */
  ghost function AttemptsIn(hs: seq<Happening>): seq<Attempt>
    decreases |hs|
  {
    if hs == [] then []
    else
      var before, h := hs[..|hs| - 1], hs[|hs| - 1];
      var w := Runs(START, before);
      if Starting(w, h) then AttemptsIn(before) + [AttemptIn(w, h)] else AttemptsIn(before)
  }

  lemma {:induction false} WorldLimiter(hs: seq<Happening>)
    requires RestartServer !in hs
    ensures Runs(START, hs).store.limiter == Run(NO_STARTS, AttemptsIn(hs))
    decreases |hs|
  {
    hide Next, NoneExpired, AttemptIn, Try;
    if hs != [] {
      var before, h := hs[..|hs| - 1], hs[|hs| - 1];
      assert hs == before + [h];
      WorldLimiter(before);
      WorldTheorems.RunsSnoc(START, before, h);
      var w := Runs(START, before);
      NextLimiter(w, h);
      if Starting(w, h) { RunSnoc(AttemptsIn(before), AttemptIn(w, h)); }
    }
  }

  /** Over every run of the joint protocol without a restart the limiter of the store is the limiter after
      the starts of the run, and those that it recorded keep within the windows, shortened by however
      much the clock went back. */
  lemma WorldRateBound(hs: seq<Happening>, skew: int, ip: Source, upTo: Instant)
    requires RestartServer !in hs && skew >= 0 && Skewed(AttemptsIn(hs), skew)
    ensures Runs(START, hs).store.limiter == Run(NO_STARTS, AttemptsIn(hs))
    ensures |Within(TimesOf(Recorded(AttemptsIn(hs)), ip), upTo - (SOURCE_WINDOW - skew), upTo)| <= MAX_SOURCE_STARTS
    ensures |Within(Times(Recorded(AttemptsIn(hs))), upTo - (GLOBAL_WINDOW - skew), upTo)| <= MAX_GLOBAL_STARTS
  {
    hide Runs, AttemptsIn, Skewed, Recorded, Run, Within;
    WorldLimiter(hs);
    RateBound(AttemptsIn(hs), skew, ip, upTo);
  }
}
