/** A run in which the identifier of a durable capability is handed out again, so that claims with its
    key are refused while it is in force. */
module WorldShadowing {
  import opened Basics
  import opened Codes
  import opened Registry
  import opened Protocol
  import RateLimiter
  import opened Pairing
  import opened Activation
  import opened World
  import opened WorldInvariant
  import opened WorldTheorems
  import opened WorldUndisturbed

  lemma ReachedStart()
    ensures Reached(START)
  {
    assert Runs(START, []) == START;
  }

  lemma ReachedNext(w: World, h: Happening)
    requires Reached(w)
    ensures Reached(Next(w, h))
  {
    hide Next;
    var hs: seq<Happening> :| Runs(START, hs) == w;
    RunsSnoc(START, hs, h);
  }

  lemma {:induction false} ReachedDrive(w: World, f: Faults, closes: bool, n: nat)
    requires Reached(w)
    ensures Reached(Drive(w, f, closes, n))
    decreases n
  {
    hide Next, Reached;
    if n > 0 && CanActivate(w) {
      ReachedNext(w, ActivateStep(FaultAt(f, w.lock.phase), closes));
      ReachedDrive(Next(w, ActivateStep(FaultAt(f, w.lock.phase), closes)), f, closes, n - 1);
    }
  }

  /** The only pending entry, and everything else that the run needs to know. */
  ghost predicate OnlyEntry(w: World, id: CapId, e: Entry) {
    && Reached(w) && w.lock.Free? && w.finishing == map[] && w.names == map[] && w.life.rows == map[]
    && w.store.pending == map[id := e] && w.store.verifiers == {e.verifier}
    && w.store.limiter == OneStart()
  }

  function OneStart(): RateLimiter.Limiter { RateLimiter.Limiter(map[0 := [0]], [0]) }

  function FirstEntry(v: Verifier, name: Name, bytes: CodeBytes): Entry {
    Entry(EncodeCode(bytes), name, v, 0, PAIRING_LIFETIME, Awaiting)
  }

  lemma FirstStart(id: CapId, bytes: CodeBytes, v: Verifier, name: Name) returns (w: World)
    ensures OnlyEntry(w, id, FirstEntry(v, name, bytes)) && w.life == INIT && w.opening == map[]
  {
    hide Reached, Next, StartStore;
    var req := Pairing.Request.Request(name, v, 0);
    var h := StartPairing(0, 0, req, [(id, bytes)], true);
    ReachedStart();
    ReachedNext(START, h);
    w := Next(START, h);
    FirstStore(id, bytes, req);
    StartFromNothing(req, [(id, bytes)]);
  }

  lemma StartFromNothing(req: Pairing.Request, generated: seq<(CapId, CodeBytes)>)
    ensures Next(START, StartPairing(0, 0, req, generated, true))
            == START.(store := StartStore(EMPTY, 0, 0, req, generated, Some(false)))
  {
    hide StartStore;
    assert !VerifierKnown(map[], req.verifier);
  }

  lemma FirstStore(id: CapId, bytes: CodeBytes, req: Request)
    ensures StartStore(EMPTY, 0, 0, req, [(id, bytes)], Some(false))
            == Store(map[id := Entry(EncodeCode(bytes), req.name, req.verifier, req.permission, PAIRING_LIFETIME, Awaiting)],
                     {req.verifier}, OneStart())
  {
    var st := Cleaned(EMPTY, 0);
    assert st == EMPTY;
    assert RateLimiter.RetryAfter(st.limiter, 0, 0).None?;
    assert RateLimiter.Deque(RateLimiter.NO_STARTS, 0) + [0] == [0];
    assert RateLimiter.Record(st.limiter, 0, 0) == OneStart();
    assert FirstUnused(map[], [(id, bytes)]) == Some((id, EncodeCode(bytes)));
  }

  /** A request of the user opens the user database. */
  lemma UserSignsIn(w: World, id: CapId, e: Entry, u: UserId) returns (w': World)
    requires OnlyEntry(w, id, e) && w.life == INIT && w.opening == map[]
    ensures OnlyEntry(w', id, e) && u in w'.life.open && Admits(w'.life.users, u, None) && 1 !in w'.life.leases
  {
    var w1 := Next(w, Life(Acquire(0, u, None, Holder.Request)));
    ReachedNext(w, Life(Acquire(0, u, None, Holder.Request)));
    assert w1.life.leases == map[0 := Lease(u, None, Holder.Request)] && w1.opening == map[];
    w' := Next(w1, Life(OpenUnderLease(0)));
    ReachedNext(w1, Life(OpenUnderLease(0)));
  }

  /** What an approval leaves alone. */
  predicate Beside(w: World, w': World) {
    && w'.finishing == w.finishing && w'.names == w.names && w'.life.rows == w.life.rows
    && w'.store.verifiers == w.store.verifiers && w'.store.limiter == w.store.limiter
  }

  lemma BeginFrame(w: World, now: Instant, id: CapId, display: Text, user: UserId, l: LeaseId, expiry: Option<Instant>)
    ensures Beside(w, Next(w, ApproveBegin(now, id, display, user, l, expiry)))
  {
    hide AsksToBind, NoneExpired, DoApproveBegin;
    BoundFrame(w, id, user, l, expiry);
  }

  lemma BoundFrame(w: World, id: CapId, user: UserId, l: LeaseId, expiry: Option<Instant>)
    ensures Beside(w, DoApproveBegin(w, id, user, l, expiry))
  {
    hide Admits, Admit;
  }

  lemma EndFrame(w: World, dek: Option<nat>, readable: bool, closes: bool)
    ensures Beside(w, Next(w, ApproveEnd(dek, readable, closes)))
  {
    hide DoApproveEnd;
    if w.lock.BindingUser? && w.lock.id in w.store.pending && w.lock.lease in w.life.leases {
      BindingFrame(w, dek, readable, closes);
    }
  }

  lemma BindingFrame(w: World, dek: Option<nat>, readable: bool, closes: bool)
    requires w.lock.BindingUser? && w.lock.id in w.store.pending && w.lock.lease in w.life.leases
    ensures Beside(w, DoApproveEnd(w, dek, readable, closes))
  {
    hide DoDrop;
    DropRows(w.life, w.lock.lease, closes);
  }

  lemma DropRows(s: Sys, l: LeaseId, closes: bool)
    requires l in s.leases
    ensures DoDrop(s, l, closes).rows == s.rows
  {
  }

  lemma UserApproves(w: World, id: CapId, e: Entry, u: UserId) returns (w': World)
    requires OnlyEntry(w, id, e) && u in w.life.open && Admits(w.life.users, u, None) && 1 !in w.life.leases
    requires e.status.Awaiting? && ValidCode(e.code) && e.expires > 0
    ensures OnlyEntry(w', id, e.(status := Approved(u, Some(0), 1, None)))
  {
    hide Reached, Next, Admits;
    var h1 := ApproveBegin(0, id, FormatCode(e.code), u, 1, None);
    var w1 := Next(w, h1);
    w' := Next(w1, ApproveEnd(Some(0), true, true));
    ApprovalSucceedsExactly(w, 0, id, FormatCode(e.code), u, 1, None, Some(0), true);
    BeginFrame(w, 0, id, FormatCode(e.code), u, 1, None);
    EndFrame(w1, Some(0), true, true);
    ReachedNext(w, h1);
    ReachedNext(w1, ApproveEnd(Some(0), true, true));
  }

  /** The store after the client has claimed its pairing. */
  lemma ClientClaims(w: World, id: CapId, e: Entry) returns (w': World)
    requires OnlyEntry(w, id, e) && e.status.Approved? && e.status.dek.Some? && e.status.activeExpiry == None && e.expires > 0
    ensures Reached(w') && w'.lock.Free?
    ensures w'.life.rows == map[id := Row(e.status.user, e.verifier, e.permission, None, true, false)]
    ensures w'.store == Complete(w.store, id, Claimed(e.status.user, e.permission))
  {
    hide Reached, Next, Drive, Complete, Answer;
    FirstClaimSucceedsExactly(w, 0, 0, id, true);
    var h := ClaimBegin(0, 0, id, e.verifier);
    ReachedNext(w, h);
    ReachedDrive(Next(w, h), NO_FAULTS, true, Rank(Probe));
    w' := ClaimAlone(w, 0, 0, id, e.verifier, NO_FAULTS, true);
  }

  /** The claimed entry expires; the row stays. */
  lemma EntryExpires(w: World, id: CapId, e: Entry, claimed: Claimed) returns (w': World)
    requires Reached(w) && w.lock.Free? && e.expires == PAIRING_LIFETIME
    requires w.store == Complete(Store(map[id := e], {e.verifier}, OneStart()), id, claimed)
    ensures Reached(w') && w'.lock.Free? && w'.life.rows == w.life.rows
    ensures w'.store == Store(map[], {}, OneStart())
  {
    var h := ExpirePairing(PAIRING_LIFETIME, id, true);
    ReachedNext(w, h);
    w' := Next(w, h);
  }

  lemma RoomAgain()
    ensures RateLimiter.RetryAfter(RateLimiter.Prune(OneStart(), PAIRING_LIFETIME), 0, PAIRING_LIFETIME).None?
  {
  }

  /** For every user, identifier and two different keys there is a run after which the capability of the
      first key is in force and its identifier is in use by a pending pairing of the second, which
      is when `ClaimsConverge` has its claims refused. */
  lemma ShadowingIsReachable(u: UserId, id: CapId, bytes: CodeBytes, v: Verifier, v': Verifier, name: Name) returns (w: World)
    requires v != v'
    ensures Reached(w) && w.lock.Free?
    ensures DurableClaim(w.life.rows, id, v, PAIRING_LIFETIME) == Active(Claimed(u, 0))
    ensures Shadowed(w.store, id, v)
  {
    hide Reached, Next, StartStore;
    var e := FirstEntry(v, name, bytes);
    var w1 := FirstStart(id, bytes, v, name);
    var w2 := UserSignsIn(w1, id, e, u);
    var w3 := UserApproves(w2, id, e, u);
    var w4 := ClientClaims(w3, id, e.(status := Approved(u, Some(0), 1, None)));
    var w5 := EntryExpires(w4, id, e.(status := Approved(u, Some(0), 1, None)), Claimed(u, 0));
    var req := Pairing.Request.Request(name, v', 0);
    var h := StartPairing(PAIRING_LIFETIME, 0, req, [(id, bytes)], true);
    RoomAgain();
    StartCanShadow(w5, PAIRING_LIFETIME, 0, req, id, bytes, v);
    ReachedNext(w5, h);
    w := Next(w5, h);
    StartKeepsLife(w5, h);
  }

  lemma StartKeepsLife(w: World, h: Happening)
    requires h.StartPairing?
    ensures Next(w, h).life == w.life && Next(w, h).lock == w.lock
  {
    hide StartStore;
  }
}
