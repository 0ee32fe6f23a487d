/** What an approval and a first claim achieve when nothing interrupts them: the other half of the
    safety theorems, which a system that refuses everything would meet too. */
module WorldUndisturbed {
  import opened Basics
  import opened Codes
  import opened Registry
  import opened Protocol
  import opened ProtocolInvariant
  import opened ProtocolTheorems
  import opened Pairing
  import PairingRuns
  import opened Activation
  import opened World
  import opened WorldInvariant
  import opened WorldTheorems

  // ----- an uninterrupted approval -----

  /** What an approval must find. */
  predicate MayApprove(w: World, id: CapId, display: Text, user: UserId) {
    && id in w.store.pending && w.store.pending[id].status.Awaiting?
    && |w.store.pending[id].code| >= 4 && display == FormatCode(w.store.pending[id].code)
    && Admits(w.life.users, user, None) && user in w.life.open
  }

  /** Undisturbed, an approval binds its user and takes one lease exactly then, and otherwise leaves the
      entries and the leases as they were. */
  lemma ApprovalSucceedsExactly(w: World, now: Instant, id: CapId, display: Text, user: UserId, l: LeaseId,
                                expiry: Option<Instant>, dek: Option<nat>, closes: bool)
    requires Reached(w) && w.lock.Free? && NoneExpired(w.store, now) && l !in w.life.leases
    ensures var w' := Next(Next(w, ApproveBegin(now, id, display, user, l, expiry)), ApproveEnd(dek, true, closes));
            && w'.lock.Free?
            && if MayApprove(w, id, display, user)
               then w'.store == SetStatus(w.store, id, Approved(user, dek, l, expiry))
                    && w'.life.leases == w.life.leases[l := Lease(user, None, Pairing(id))]
               else w'.store == w.store && w'.life.leases == w.life.leases
  {
    ReachedInv(w);
    ApprovalAlone(w, now, id, display, user, l, expiry, dek, closes);
  }

  lemma AwaitingCode(st: Store, id: CapId)
    requires Wf(st) && id in st.pending && st.pending[id].status.Awaiting?
    ensures |st.pending[id].code| == 8
  {
    assert EntryOk(st.pending[id]);
  }

  lemma ApprovalAlone(w: World, now: Instant, id: CapId, display: Text, user: UserId, l: LeaseId,
                      expiry: Option<Instant>, dek: Option<nat>, closes: bool)
    requires Wf(w.store) && w.lock.Free? && NoneExpired(w.store, now) && l !in w.life.leases
    ensures var w' := Next(Next(w, ApproveBegin(now, id, display, user, l, expiry)), ApproveEnd(dek, true, closes));
            && w'.lock.Free?
            && if MayApprove(w, id, display, user)
               then w'.store == SetStatus(w.store, id, Approved(user, dek, l, expiry))
                    && w'.life.leases == w.life.leases[l := Lease(user, None, Pairing(id))]
               else w'.store == w.store && w'.life.leases == w.life.leases
  {
    hide Wf, Next, AsksToBind, Admits, FormatCode, SetStatus, DoAcquire;
    PairingRuns.ApprovalNeedsTheCode(w.store, now, id, display);
    if id in w.store.pending && w.store.pending[id].status.Awaiting? { AwaitingCode(w.store, id); }
    BindingBegins(w, now, id, display, user, l, expiry);
    if AsksToBind(w.store, now, id, display) && Admits(w.life.users, user, None) {
      BindingEnds(w, id, user, l, expiry, dek, closes);
    } else {
      NoBinding(w, dek, closes);
    }
  }

  lemma BindingBegins(w: World, now: Instant, id: CapId, display: Text, user: UserId, l: LeaseId, expiry: Option<Instant>)
    requires w.lock.Free? && NoneExpired(w.store, now) && l !in w.life.leases
    ensures Next(w, ApproveBegin(now, id, display, user, l, expiry)) ==
            if AsksToBind(w.store, now, id, display) && Admits(w.life.users, user, None)
            then w.(life := DoAcquire(w.life, l, Lease(user, None, Pairing(id))), lock := BindingUser(id, user, l, expiry))
            else w
  {
    hide AsksToBind, Admits, NoneExpired, DoAcquire;
  }

  lemma BindingEnds(w: World, id: CapId, user: UserId, l: LeaseId, expiry: Option<Instant>, dek: Option<nat>, closes: bool)
    requires id in w.store.pending && l !in w.life.leases
    ensures var w1 := w.(life := DoAcquire(w.life, l, Lease(user, None, Pairing(id))), lock := BindingUser(id, user, l, expiry));
            var w' := Next(w1, ApproveEnd(dek, true, closes));
            && w'.lock.Free?
            && if user in w.life.open
               then w'.store == SetStatus(w.store, id, Approved(user, dek, l, expiry))
                    && w'.life.leases == w.life.leases[l := Lease(user, None, Pairing(id))]
               else w'.store == w.store && w'.life.leases == w.life.leases
  {
    hide Admit, Release, ReleaseCloses;
    assert w.life.leases[l := Lease(user, None, Pairing(id))] - {l} == w.life.leases;
  }

  lemma NoBinding(w: World, dek: Option<nat>, closes: bool)
    requires w.lock.Free?
    ensures Next(w, ApproveEnd(dek, true, closes)) == w
  {
  }

  // ----- an uninterrupted activation -----

  /** The handler runs on its own for some calls, each ending as the faults say. */
  ghost function Drive(w: World, f: Faults, closes: bool, n: nat): World
    decreases n
  {
    if n == 0 || !CanActivate(w) then w
    else Drive(Next(w, ActivateStep(FaultAt(f, w.lock.phase), closes)), f, closes, n - 1)
  }

  /** What an activation that ended with this outcome leaves of a world in which it was in progress. */
  ghost predicate Outcome(w: World, w': World, db: Db, result: Option<Claimed>)
    requires CanActivate(w)
  {
    && w'.lock == Free && w'.life.rows == db.rows && w'.names == db.names
    && w'.store == (if result.Some? then Complete(w.store, w.lock.id, result.value) else w.store)
    && w'.finishing == if result.Some?
                       then w.finishing[w.lock.t := Pendency(w.lock.id, w.lock.v, w.lock.now, result)] else w.finishing
  }

  lemma LastCall(w: World, io: Io, closes: bool)
    requires CanActivate(w) && Advanced(w, io).lock.phase.Done?
    ensures var w1 := Advanced(w, io);
            Outcome(w, DoActivate(w, io, closes), Db(w1.life.rows, w1.names), w1.lock.phase.result)
  {
    OneCall(w, io);
    hide Advanced, Advance, Release, ReleaseCloses, Complete;
  }

  lemma OneCall(w: World, io: Io)
    requires CanActivate(w)
    ensures var w1 := Advanced(w, io);
            var (db, phase) := Advance(Db(w.life.rows, w.names), GrantOf(w), w.lock.now, w.lock.phase, io);
            && Db(w1.life.rows, w1.names) == db && w1.lock == w.lock.(phase := phase)
            && w1.store == w.store && w1.life.leases == w.life.leases && w1.finishing == w.finishing
  {
  }

  lemma RankFalls(db: Db, g: Grant, now: Instant, phase: Phase, io: Io)
    requires !phase.Done?
    ensures Rank(Advance(db, g, now, phase, io).1) < Rank(phase)
  {
  }

  /** Without interruption, the calls that the joint protocol interleaves amount to the activation of
      the handler, for every combination of faults. */
  lemma {:induction false} UninterruptedActivation(w: World, f: Faults, closes: bool, n: nat)
    requires CanActivate(w) && !w.lock.phase.Done? && n >= Rank(w.lock.phase)
    ensures var (db, result) := Activate(Db(w.life.rows, w.names), GrantOf(w), w.lock.now, w.lock.phase, f);
            Outcome(w, Drive(w, f, closes, n), db, result)
    decreases n
  {
    hide Advance, Activate, Advanced, Complete, DoDrop;
    var io := FaultAt(f, w.lock.phase);
    var w1, g := Advanced(w, io), GrantOf(w);
    OneCall(w, io);
    RankFalls(Db(w.life.rows, w.names), g, w.lock.now, w.lock.phase, io);
    ActivateUnfolds(Db(w.life.rows, w.names), g, w.lock.now, w.lock.phase, f);
    if w1.lock.phase.Done? {
      LastCall(w, io, closes);
      assert Drive(w, f, closes, n) == Drive(DoActivate(w, io, closes), f, closes, n - 1);
    } else {
      assert DoActivate(w, io, closes) == w1;
      UninterruptedActivation(w1, f, closes, n - 1);
    }
  }

  /** The activation of a grant without a row, when every call works. */
  lemma WorkingActivation(db: Db, g: Grant, now: Instant)
    requires CanInsert(db.rows, g)
    ensures var (db', result) := Activate(db, g, now, Probe, NO_FAULTS);
            if g.dek.Some? && ((g.user, g.id) in db.names ==> db.names[(g.user, g.id)] == g.name)
            then result == Some(Granted(g)) && db' == Db(db.rows[g.id := NewRow(g)], PutName(db.names, g))
            else result == None && db'.rows == db.rows
  {
    hide Activate;
    var db1 := db.(names := PutName(db.names, g));
    ActivateUnfolds(db, g, now, Probe, NO_FAULTS);
    ActivateUnfolds(db, g, now, WriteName, NO_FAULTS);
    ActivateUnfolds(db1, g, now, Wrap, NO_FAULTS);
    ActivateUnfolds(db1, g, now, WriteRow, NO_FAULTS);
    ActivateUnfolds(db1, g, now, Undo, NO_FAULTS);
  }

  /** The whole claim of an approved pairing without interruption, up to its last check. */
  ghost function ClaimAlone(w: World, t: Tid, now: Instant, id: CapId, v: Verifier, f: Faults, closes: bool): World {
    Drive(Next(w, ClaimBegin(t, now, id, v)), f, closes, Rank(Probe))
  }

  /** Neither a missing database key nor another name under the same identifier is in the way. */
  predicate Writable(w: World, id: CapId)
    requires id in w.store.pending && w.store.pending[id].status.Approved?
  {
    var e := w.store.pending[id];
    e.status.dek.Some? && ((e.status.user, id) in w.names ==> w.names[(e.status.user, id)] == e.name)
  }

  /** The state in which the first claim has written everything. */
  ghost predicate Written(w: World, w': World, id: CapId)
    requires id in w.store.pending && w.store.pending[id].status.Approved?
  {
    var e := w.store.pending[id];
    && w'.life.rows == w.life.rows[id := Row(e.status.user, e.verifier, e.permission, e.status.activeExpiry, true, false)]
    && (e.status.user, id) in w'.names && w'.names[(e.status.user, id)] == e.name
    && w'.store == Complete(w.store, id, Claimed(e.status.user, e.permission)) && w'.lock == Free
  }

  lemma FirstClaimWrites(w: World, t: Tid, now: Instant, id: CapId, closes: bool)
    requires LeaseLink(w.store.pending, w.life.leases, w.lock) && KeyLink(w.store.pending, w.life.rows)
    requires w.lock.Free? && NoneExpired(w.store, now) && t !in w.finishing
    requires id in w.store.pending && w.store.pending[id].status.Approved? && id !in w.life.rows
    ensures var e := w.store.pending[id];
            var w' := ClaimAlone(w, t, now, id, e.verifier, NO_FAULTS, closes);
            && (t in w'.finishing <==> Writable(w, id))
            && (Writable(w, id) ==>
                  Written(w, w', id)
                  && w'.finishing[t] == Pendency(id, e.verifier, now, Some(Claimed(e.status.user, e.permission))))
  {
    FreshVerifier(w, id);
    ApprovedLease(w, id);
    hide LeaseLink, KeyLink, Next, NoneExpired, Activate, Drive;
    var v := w.store.pending[id].verifier;
    ClaimBegun(w, t, now, id, v);
    var w1 := w.(lock := Activating(t, id, v, now, Probe));
    UninterruptedActivation(w1, NO_FAULTS, closes, Rank(Probe));
    WorkingActivation(Db(w.life.rows, w.names), GrantOf(w1), now);
  }

  /** Undisturbed, the first claim of an approved pairing is answered as active exactly when it has a
      database key, no other name is stored under its identifier and its expiry is not yet past; it
      then names the user bound at the approval and the permission asked for, and has stored the row
      under the client's key and the name shown at the approval. */
  lemma FirstClaimSucceedsExactly(w: World, t: Tid, now: Instant, id: CapId, closes: bool)
    requires Reached(w) && w.lock.Free? && NoneExpired(w.store, now) && t !in w.finishing
    requires id in w.store.pending && w.store.pending[id].status.Approved? && id !in w.life.rows
    ensures var e := w.store.pending[id];
            var w' := ClaimAlone(w, t, now, id, e.verifier, NO_FAULTS, closes);
            var may := Writable(w, id) && !Basics.Expired(e.status.activeExpiry, now);
            && (t in w'.finishing && Answer(w'.life.rows, w'.finishing[t]).Some? <==> may)
            && (may ==> Written(w, w', id)
                        && Answer(w'.life.rows, w'.finishing[t]) == Some(Claimed(e.status.user, e.permission)))
  {
    ReachedInv(w);
    FirstClaimAnswer(w, t, now, id, closes);
  }

  lemma FirstClaimAnswer(w: World, t: Tid, now: Instant, id: CapId, closes: bool)
    requires LeaseLink(w.store.pending, w.life.leases, w.lock) && KeyLink(w.store.pending, w.life.rows)
    requires w.lock.Free? && NoneExpired(w.store, now) && t !in w.finishing
    requires id in w.store.pending && w.store.pending[id].status.Approved? && id !in w.life.rows
    ensures var e := w.store.pending[id];
            var w' := ClaimAlone(w, t, now, id, e.verifier, NO_FAULTS, closes);
            var may := Writable(w, id) && !Basics.Expired(e.status.activeExpiry, now);
            && (t in w'.finishing && Answer(w'.life.rows, w'.finishing[t]).Some? <==> may)
            && (may ==> Written(w, w', id)
                        && Answer(w'.life.rows, w'.finishing[t]) == Some(Claimed(e.status.user, e.permission)))
  {
    hide LeaseLink, KeyLink, NoneExpired, ClaimAlone, Writable;
    FirstClaimWrites(w, t, now, id, closes);
  }

  lemma FreshVerifier(w: World, id: CapId)
    requires KeyLink(w.store.pending, w.life.rows) && id in w.store.pending && id !in w.life.rows
    ensures forall d :: d in w.life.rows ==> w.life.rows[d].verifier != w.store.pending[id].verifier
  {
  }

  /** Undisturbed, the first claim of an approved pairing leaves a capability without its stored name
      exactly when its database calls fail in the way that `LosesName` says. */
  lemma FirstClaimLosesNameExactly(w: World, t: Tid, now: Instant, id: CapId, f: Faults, closes: bool)
    requires Reached(w) && w.lock.Free? && NoneExpired(w.store, now) && t !in w.finishing
    requires id in w.store.pending && w.store.pending[id].status.Approved? && id !in w.life.rows
    ensures var e := w.store.pending[id];
            var w' := ClaimAlone(w, t, now, id, e.verifier, f, closes);
            var g := Grant(id, e.verifier, e.status.user, e.status.dek, e.name, e.permission, e.status.activeExpiry);
            && CanInsert(w.life.rows, g)
            && (id in w'.life.rows && (e.status.user, id) !in w'.names <==> LosesName(Db(w.life.rows, w.names), g, now, f))
  {
    ReachedInv(w);
    FirstClaimLosesName(w, t, now, id, f, closes);
  }

  lemma FirstClaimLosesName(w: World, t: Tid, now: Instant, id: CapId, f: Faults, closes: bool)
    requires LeaseLink(w.store.pending, w.life.leases, w.lock) && KeyLink(w.store.pending, w.life.rows)
    requires w.lock.Free? && NoneExpired(w.store, now) && t !in w.finishing
    requires id in w.store.pending && w.store.pending[id].status.Approved? && id !in w.life.rows
    ensures var e := w.store.pending[id];
            var w' := ClaimAlone(w, t, now, id, e.verifier, f, closes);
            var g := Grant(id, e.verifier, e.status.user, e.status.dek, e.name, e.permission, e.status.activeExpiry);
            && CanInsert(w.life.rows, g)
            && (id in w'.life.rows && (e.status.user, id) !in w'.names <==> LosesName(Db(w.life.rows, w.names), g, now, f))
  {
    FreshVerifier(w, id);
    ApprovedLease(w, id);
    hide LeaseLink, KeyLink, Next, NoneExpired, Activate, Drive, LosesName, Complete;
    var v := w.store.pending[id].verifier;
    ClaimBegun(w, t, now, id, v);
    var w1 := w.(lock := Activating(t, id, v, now, Probe));
    UninterruptedActivation(w1, f, closes, Rank(Probe));
    NameLostExactly(Db(w.life.rows, w.names), GrantOf(w1), now, f);
  }

  /** A request and a claim agree on which capabilities are in force. */
  lemma HandlersAgree(s: Sys, c: CapId, v: Verifier, now: Instant)
    ensures MayAuthorize(s, c, v, now) <==>
              && DurableClaim(s.rows, c, v, now).Active? && s.rows[c].permission == BALANCES_READ
              && Admits(s.users, s.rows[c].user, Some(c))
  {
  }

  /** The last check of a claim answers it as active exactly when the capability is in force under the key
      presented and, if the store had an answer, has the same user and permission. */
  lemma FinishAnswersExactly(w: World, t: Tid, readable: bool)
    requires t in w.finishing
    ensures var p := w.finishing[t];
            var answers := readable && InForce(w.life.rows, p.id, p.v, p.now)
                           && (p.stored.Some? ==> p.stored.value == Claimed(w.life.rows[p.id].user, w.life.rows[p.id].permission));
            Next(w, ClaimFinish(t, readable)) ==
              w.(finishing := w.finishing - {t},
                 replies := if answers
                            then w.replies + {Reply(p.id, p.v, Claimed(w.life.rows[p.id].user, w.life.rows[p.id].permission))}
                            else w.replies)
  {
    var p := w.finishing[t];
    DurableClaimReads(w.life.rows, p.id, p.v, p.now);
    hide DurableClaim, InForce;
  }
}
