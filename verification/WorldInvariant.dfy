/** Every event keeps the joint invariant of pairings, leases and durable capabilities. */
module WorldInvariant {
  import opened Basics
  import opened Codes
  import opened Registry
  import opened Protocol
  import opened ProtocolInvariant
  import opened ProtocolTheorems
  import opened RateLimiter
  import opened Pairing
  import opened PairingRuns
  import opened Activation
  import opened World

  // ----- what a foreign lifecycle event can do to the parts shared with pairings -----

  /** Pairing leases are neither taken nor dropped. */
  ghost predicate SamePairingLeases(leases: Leases, leases': Leases) {
    forall l :: (l in leases && leases[l].holder.Pairing?) || (l in leases' && leases'[l].holder.Pairing?) ==>
      l in leases && l in leases' && leases'[l] == leases[l]
  }

  lemma LockFrame(s: Sys, t: Tid, step: LockStep)
    ensures DoLock(s, t, step).leases == s.leases && DoLock(s, t, step).rows == s.rows
  {
    match step
    case LockBegin(_) =>
    case ClaimTry =>
    case DrainTry =>
    case ExclusiveOpen =>
    case ExclusiveClear =>
    case ExclusiveClose =>
    case ExclusiveDrop =>
  }

  lemma SameLeases(leases: Leases)
    ensures SamePairingLeases(leases, leases)
  {
  }

  lemma ThreadLease(leases: Leases, l: LeaseId, lease: Lease)
    requires l !in leases && !lease.holder.Pairing?
    ensures SamePairingLeases(leases, leases[l := lease])
  {
  }

  lemma OtherLease(leases: Leases, l: LeaseId)
    requires l in leases && !leases[l].holder.Pairing?
    ensures SamePairingLeases(leases, leases - {l})
  {
  }

  lemma SameRows(rows: Rows)
    ensures RowsOnly(rows, rows)
  {
  }

  lemma WrittenRow(rows: Rows, c: CapId, revoked: bool)
    requires c in rows && (rows[c].revoked ==> revoked)
    ensures RowsOnly(rows, rows[c := rows[c].(wrapped := false, revoked := revoked)])
  {
  }

  lemma ShutdownFrame(s: Sys, t: Tid, step: ShutStep)
    ensures SamePairingLeases(s.leases, DoShutdown(s, t, step).leases)
    ensures RowsOnly(s.rows, DoShutdown(s, t, step).rows)
  {
    hide SamePairingLeases, RowsOnly, Admit, Admits, Block, Unblock, Lookup, BlockReady, FlushReady, Basics.Expired;
    SameLeases(s.leases);
    SameRows(s.rows);
    match step
    case RevokeBegin(u, _, l) => if l !in s.leases { ThreadLease(s.leases, l, Lease(u, None, Thread(t))); }
    case ShutWrite(_) =>
      if PcOf(s, t).Shut? && PcOf(s, t).c in s.rows {
        WrittenRow(s.rows, PcOf(s, t).c, true);
        WrittenRow(s.rows, PcOf(s, t).c, s.rows[PcOf(s, t).c].revoked);
      }
    case ExpireBegin(_, _, _) =>
    case BlockTry =>
    case FlushTry =>
    case ShutDrop =>
  }

  lemma AuthorizeFrame(s: Sys, t: Tid, step: AuthStep)
    ensures SamePairingLeases(s.leases, DoAuthorize(s, t, step).leases)
    ensures DoAuthorize(s, t, step).rows == s.rows
  {
    hide SamePairingLeases, Admit, Admits, Basics.Expired;
    SameLeases(s.leases);
    match step
    case AuthLease(l) =>
      if PcOf(s, t).Looked? && l !in s.leases {
        ThreadLease(s.leases, l, Lease(PcOf(s, t).u, Some(PcOf(s, t).c), Thread(t)));
      }
    case AuthLookup(_, _, _) =>
    case AuthRecheck(_) =>
    case AuthOpen =>
    case AuthActivity(_) =>
    case AuthFail =>
    case RequestEnd =>
  }

  lemma ForeignFrame(w: World, e: Event)
    requires Inv(w.life) && Foreign(w, e)
    ensures SamePairingLeases(w.life.leases, Do(w.life, e).leases)
    ensures RowsOnly(w.life.rows, Do(w.life, e).rows)
  {
    hide Sound, Guards, Holders, Owners, Quiet, Sleepers, Finality, UniqueVerifiers, SamePairingLeases, RowsOnly;
    var s := w.life;
    SameLeases(s.leases);
    SameRows(s.rows);
    match e
    case Lock(t, step) => LockFrame(s, t, step);
    case Shutdown(t, step) => ShutdownFrame(s, t, step);
    case Authorize(t, step) => AuthorizeFrame(s, t, step);
    case Leave(t, _) => if PcOf(s, t).Leaving? { OwnLease(s, t); OtherLease(s.leases, PcOf(s, t).l); }
    case Acquire(l, u, cap, holder) => if l !in s.leases { ThreadLease(s.leases, l, Lease(u, cap, holder)); }
    case Drop(l, _) => OtherLease(s.leases, l);
    case PinSession(_, _) =>
    case UnpinSession(_, _, _) =>
    case OpenUnderLease(_) =>
    case Notify =>
    case SpuriousWake(_) =>
    case Restart =>
  }

  lemma OpensOnly(s: Sys, e: Event, u: UserId)
    requires u in Do(s, e).open && u !in s.open
    ensures OpensFor(s, e) == Some(u)
  {
    match e
    case Lock(t, step) => LockOpensOnly(s, t, step, u);
    case Shutdown(t, step) => ShutdownOpens(s, t, step);
    case Authorize(t, step) => AuthorizeOpensOnly(s, t, step, u);
    case Leave(_, _) =>
    case Acquire(_, _, _, _) =>
    case Drop(_, _) =>
    case PinSession(_, _) =>
    case UnpinSession(_, _, _) =>
    case OpenUnderLease(_) =>
    case InsertRow(_, _) =>
    case Notify =>
    case SpuriousWake(_) =>
    case Restart =>
  }

  lemma LockOpensOnly(s: Sys, t: Tid, step: LockStep, u: UserId)
    requires u in DoLock(s, t, step).open && u !in s.open
    ensures step.ExclusiveOpen? && PcOf(s, t) == Exclusive(u)
  {
    match step
    case LockBegin(_) =>
    case ClaimTry =>
    case DrainTry =>
    case ExclusiveOpen =>
    case ExclusiveClear =>
    case ExclusiveClose =>
    case ExclusiveDrop =>
  }

  lemma LookupKeepsOpen(s: Sys, t: Tid, c: CapId, row: Row, now: Instant)
    ensures DoAuthLookup(s, t, c, row, now).open == s.open
  {
  }

  lemma LeaseKeepsOpen(s: Sys, t: Tid, u: UserId, c: CapId, v: Verifier, l: LeaseId)
    ensures DoAuthLease(s, t, u, c, v, l).open == s.open
  {
    hide Admits, Admit;
  }

  lemma RecheckKeepsOpen(s: Sys, t: Tid, u: UserId, c: CapId, v: Verifier, l: LeaseId, now: Instant)
    ensures DoAuthRecheck(s, t, u, c, v, l, now).open == s.open
  {
  }

  lemma ActivityKeepsOpen(s: Sys, t: Tid, u: UserId, c: CapId, l: LeaseId, expires: Option<Instant>, now: Instant)
    ensures DoAuthActivity(s, t, u, c, l, expires, now).open == s.open
  {
  }

  lemma AuthorizeOpensOnly(s: Sys, t: Tid, step: AuthStep, u: UserId)
    requires u in DoAuthorize(s, t, step).open && u !in s.open
    ensures step.AuthOpen? && PcOf(s, t).Checked? && PcOf(s, t).wrapped && PcOf(s, t).u == u
  {
    hide DoAuthLookup, DoAuthLease, DoAuthRecheck, DoAuthActivity;
    var pc := PcOf(s, t);
    match step
    case AuthLookup(c, _, now) => if c in s.rows { LookupKeepsOpen(s, t, c, s.rows[c], now); }
    case AuthLease(l) => if pc.Looked? { LeaseKeepsOpen(s, t, pc.u, pc.c, pc.v, l); }
    case AuthRecheck(now) => if pc.Leased? { RecheckKeepsOpen(s, t, pc.u, pc.c, pc.v, pc.l, now); }
    case AuthOpen =>
    case AuthActivity(now) => if pc.Opened? { ActivityKeepsOpen(s, t, pc.u, pc.c, pc.l, pc.expires, now); }
    case AuthFail =>
    case RequestEnd =>
  }

  // ----- the parts under a change of leases, rows or open databases -----

  lemma LeaseLinkFrame(pending: Pending, leases: Leases, leases': Leases, lock: StoreLock)
    requires LeaseLink(pending, leases, lock) && SamePairingLeases(leases, leases')
    ensures LeaseLink(pending, leases', lock)
  {
  }

  lemma KeyLinkFrame(pending: Pending, rows: Rows, rows': Rows)
    requires KeyLink(pending, rows) && RowsOnly(rows, rows')
    ensures KeyLink(pending, rows')
  {
  }

  lemma ReplyLinkFrame(replies: set<Reply>, rows: Rows, rows': Rows)
    requires ReplyLink(replies, rows) && RowsOnly(rows, rows')
    ensures ReplyLink(replies, rows')
  {
  }

  lemma RowsOfFrame(rows: Rows, rows': Rows, u: UserId)
    requires RowsOnly(rows, rows')
    ensures RowsOf(rows', u) == RowsOf(rows, u)
  {
  }

  /** A user with an approved pairing holds a lease. */
  lemma ApprovedHolds(w: World, id: CapId)
    requires LeaseLink(w.store.pending, w.life.leases, w.lock)
    requires id in w.store.pending && w.store.pending[id].status.Approved?
    ensures w.store.pending[id].status.lease in Held(w.life.leases, w.store.pending[id].status.user)
  {
  }

  // ----- lifecycle events -----

  lemma LifeOpenLink(w: World, e: Event)
    requires Inv(w.life) && Foreign(w, e) && LeaseLink(w.store.pending, w.life.leases, w.lock)
    requires OpenLink(w.store.pending, w.life.open)
    ensures OpenLink(w.store.pending, Do(w.life, e).open)
  {
    hide Inv, Do;
    var w' := w.(life := Do(w.life, e));
    ForeignFrame(w, e);
    LeaseLinkFrame(w.store.pending, w.life.leases, w'.life.leases, w.lock);
    forall id | id in w.store.pending && w.store.pending[id].status.Approved?
      ensures w.store.pending[id].status.user in w'.life.open
    {
      ApprovedHolds(w', id);
      if w.store.pending[id].status.user !in w'.life.open {
        StepClosesOnlyUnused(w.life, e, w.store.pending[id].status.user);
      }
    }
  }

  lemma LifeScanLink(w: World, e: Event)
    requires Inv(w.life) && Foreign(w, e) && ScanLink(w.opening, w.life.open, w.life.rows)
    ensures ScanLink(w.opening, Do(w.life, e).open, Do(w.life, e).rows)
  {
    hide Inv, Do;
    ForeignFrame(w, e);
    var s' := Do(w.life, e);
    forall u | u in w.opening ensures u !in s'.open && w.opening[u] == RowsOf(s'.rows, u) {
      RowsOfFrame(w.life.rows, s'.rows, u);
      if u in s'.open {
        OpensOnly(w.life, e, u);
        ForeignOpens(w, e);
      }
    }
  }

  lemma ForeignOpens(w: World, e: Event)
    requires Foreign(w, e) && OpensFor(w.life, e).Some?
    ensures OpensFor(w.life, e).value !in w.opening
  {
  }

  lemma RowsOnlyLinks(w: World, life: Sys)
    requires PhaseLink(w) && NameLink(w) && RowsOnly(w.life.rows, life.rows)
    ensures PhaseLink(w.(life := life)) && NameLink(w.(life := life))
  {
  }

  lemma LifeKeeps(w: World, e: Event)
    requires WInv(w) && Foreign(w, e)
    ensures WInv(w.(life := Do(w.life, e)))
  {
    hide Inv, Do, Wf, LeaseLink, OpenLink, ScanLink, KeyLink, PhaseLink, NameLink, ReplyLink, ApprovalLink, Foreign;
    StepKeepsInv(w.life, e);
    ForeignFrame(w, e);
    LeaseLinkFrame(w.store.pending, w.life.leases, Do(w.life, e).leases, w.lock);
    LifeOpenLink(w, e);
    LifeScanLink(w, e);
    KeyLinkFrame(w.store.pending, w.life.rows, Do(w.life, e).rows);
    ReplyLinkFrame(w.replies, w.life.rows, Do(w.life, e).rows);
    RowsOnlyLinks(w, Do(w.life, e));
  }

  // ----- dropping a pairing's lease -----

  /** What dropping a lease of user `u` leaves alone. */
  lemma DropFrame(s: Sys, l: LeaseId, closes: bool)
    requires Inv(s) && l in s.leases && s.leases[l].holder.Pairing?
    ensures Inv(DoDrop(s, l, closes))
    ensures DoDrop(s, l, closes).rows == s.rows && DoDrop(s, l, closes).leases == s.leases - {l}
    ensures DoDrop(s, l, closes).open <= s.open
    ensures forall u: UserId :: u in s.open && Held(s.leases - {l}, u) != {} ==> u in DoDrop(s, l, closes).open
  {
    hide Inv, Do;
    DropKeeps(s, l, closes);
    var s' := DoDrop(s, l, closes);
    assert Do(s, Drop(l, closes)) == s' by { DropIsDo(s, l, closes); }
    forall u: UserId | u in s.open && Held(s.leases - {l}, u) != {} ensures u in s'.open {
      if u !in s'.open { StepClosesOnlyUnused(s, Drop(l, closes), u); }
    }
  }

  lemma DropIsDo(s: Sys, l: LeaseId, closes: bool)
    requires l in s.leases && !s.leases[l].holder.Thread?
    ensures Do(s, Drop(l, closes)) == DoDrop(s, l, closes)
  {
  }

  // ----- starting and denying a pairing -----

  ghost predicate Adds(pending: Pending, pending': Pending, id: CapId, e: Entry, v: Verifier) {
    id !in pending && e.status.Awaiting? && e.verifier == v && pending' == pending[id := e]
  }

  /** What a start does to the pending entries when none has expired. */
  lemma StartResult(st: Store, now: Instant, ip: Source, req: Request, generated: seq<(CapId, CodeBytes)>, durable: Option<bool>)
    requires NoneExpired(st, now)
    ensures var st' := StartStore(st, now, ip, req, generated, durable);
            st'.pending == st.pending
            || (durable == Some(false) && exists id: CapId, e: Entry :: Adds(st.pending, st'.pending, id, e, req.verifier))
  {
    hide RetryAfter, Record, Prune, FirstUnused;
    var st' := StartStore(st, now, ip, req, generated, durable);
    var st1 := Cleaned(st, now);
    assert st1.pending == st.pending;
    if st'.pending != st.pending {
      FirstUnusedIsUnused(st1.pending, generated);
      var r := FirstUnused(st1.pending, generated).value;
      assert Adds(st.pending, st'.pending, r.0, Entry(r.1, req.name, req.verifier, req.permission, now + PAIRING_LIFETIME, Awaiting), req.verifier);
    }
  }

  /** The links of pending entries when an awaiting entry with an unknown verifier is added. */
  lemma AwaitingLinks(w: World, id: CapId, e: Entry)
    requires LeaseLink(w.store.pending, w.life.leases, w.lock) && OpenLink(w.store.pending, w.life.open)
    requires KeyLink(w.store.pending, w.life.rows) && ApprovalLink(w.store.pending, w.approvals)
    requires id !in w.store.pending && e.status.Awaiting? && !VerifierKnown(w.life.rows, e.verifier)
    ensures var pending := w.store.pending[id := e];
            && LeaseLink(pending, w.life.leases, w.lock) && OpenLink(pending, w.life.open)
            && KeyLink(pending, w.life.rows) && ApprovalLink(pending, w.approvals)
  {
  }

  lemma FreeLinks(w: World, store: Store)
    requires PhaseLink(w) && NameLink(w) && w.lock.Free?
    ensures PhaseLink(w.(store := store)) && NameLink(w.(store := store))
  {
  }

  lemma StartKeepsWorld(w: World, now: Instant, ip: Source, req: Request, generated: seq<(CapId, CodeBytes)>, readable: bool)
    requires WInv(w)
    ensures WInv(Next(w, StartPairing(now, ip, req, generated, readable)))
  {
    hide Inv, Wf, LeaseLink, OpenLink, ScanLink, KeyLink, PhaseLink, NameLink, ReplyLink, ApprovalLink, StartStore, NoneExpired, VerifierKnown;
    if w.lock.Free? && NoneExpired(w.store, now) {
      var known := if readable then Some(VerifierKnown(w.life.rows, req.verifier)) else None;
      var store := StartStore(w.store, now, ip, req, generated, known);
      StartKeeps(w.store, now, ip, req, generated, known);
      StartResult(w.store, now, ip, req, generated, known);
      FreeLinks(w, store);
      if store.pending != w.store.pending {
        var id: CapId, e: Entry :| Adds(w.store.pending, store.pending, id, e, req.verifier);
        AwaitingLinks(w, id, e);
      }
    }
  }

  lemma DenyLinks(w: World, id: CapId)
    requires LeaseLink(w.store.pending, w.life.leases, w.lock) && OpenLink(w.store.pending, w.life.open)
    requires KeyLink(w.store.pending, w.life.rows) && ApprovalLink(w.store.pending, w.approvals)
    requires id in w.store.pending && w.store.pending[id].status.Awaiting? && w.lock.Free?
    ensures var pending := SetStatus(w.store, id, Denied).pending;
            && LeaseLink(pending, w.life.leases, w.lock) && OpenLink(pending, w.life.open)
            && KeyLink(pending, w.life.rows) && ApprovalLink(pending, w.approvals)
  {
  }

  lemma NothingExpires(st: Store, now: Instant)
    requires NoneExpired(st, now)
    ensures RemoveExpired(st, now) == st
  {
    assert Live(st.pending, now) == st.pending;
  }

  lemma DenyKeepsWorld(w: World, now: Instant, id: CapId, display: Text)
    requires WInv(w)
    ensures WInv(Next(w, DenyPairing(now, id, display)))
  {
    hide Inv, Wf, LeaseLink, OpenLink, ScanLink, KeyLink, PhaseLink, NameLink, ReplyLink, ApprovalLink, NoneExpired, RemoveExpired;
    if w.lock.Free? && NoneExpired(w.store, now) {
      NothingExpires(w.store, now);
      OpKeepsWf(w.store, DenyOp(now, id, display));
      FreeLinks(w, Pairing.Deny(w.store, now, id, display).0);
      if Pairing.Deny(w.store, now, id, display).1.Ok? { DenyLinks(w, id); }
    }
  }

  // ----- expiry -----

  lemma ExpireWf(st: Store, id: CapId)
    requires Wf(st) && id in st.pending
    ensures Wf(st.(pending := st.pending - {id}, verifiers := st.verifiers - {st.pending[id].verifier}))
  {
    var pending, v := st.pending - {id}, st.pending[id].verifier;
    SubsetSize(pending.Keys, st.pending.Keys);
    forall x: Verifier ensures x in VerifiersOf(pending) <==> x in st.verifiers - {v} {
      if x in st.verifiers - {v} {
        var a :| a in st.pending && st.pending[a].verifier == x;
        assert a in pending && pending[a].verifier == x;
      }
      if x in VerifiersOf(pending) {
        var a :| a in pending && pending[a].verifier == x;
        assert a in st.pending && st.pending[a].verifier == x;
      }
    }
  }

  /** Taking one entry out, with its lease if it has one. */
  lemma ExpireLinks(w: World, id: CapId, leases: Leases, open: set<UserId>)
    requires LeaseLink(w.store.pending, w.life.leases, w.lock) && OpenLink(w.store.pending, w.life.open)
    requires KeyLink(w.store.pending, w.life.rows) && ApprovalLink(w.store.pending, w.approvals)
    requires id in w.store.pending && w.lock.Free?
    requires leases == if w.store.pending[id].status.Approved? then w.life.leases - {w.store.pending[id].status.lease} else w.life.leases
    requires forall u: UserId :: u in w.life.open && Held(leases, u) != {} ==> u in open
    ensures var pending := w.store.pending - {id};
            && LeaseLink(pending, leases, w.lock) && OpenLink(pending, open)
            && KeyLink(pending, w.life.rows) && ApprovalLink(pending, w.approvals)
  {
    hide Held;
    var pending := w.store.pending - {id};
    LeaseLinkRemove(w.store.pending, w.life.leases, id, leases);
    forall a | a in pending && pending[a].status.Approved? ensures pending[a].status.user in open {
      HeldOne(leases, pending[a].status.lease);
    }
  }

  lemma HeldOne(leases: Leases, l: LeaseId)
    requires l in leases
    ensures Held(leases, leases[l].user) != {}
  {
    assert l in Held(leases, leases[l].user);
  }

  lemma LeaseLinkRemove(pending: Pending, leases: Leases, id: CapId, leases': Leases)
    requires LeaseLink(pending, leases, Free) && id in pending
    requires leases' == if pending[id].status.Approved? then leases - {pending[id].status.lease} else leases
    ensures LeaseLink(pending - {id}, leases', Free)
  {
  }

  lemma ScanShrinks(opening: map<UserId, set<CapId>>, open: set<UserId>, open': set<UserId>, rows: Rows)
    requires ScanLink(opening, open, rows) && open' <= open
    ensures ScanLink(opening, open', rows)
  {
  }

  lemma ApprovedLease(w: World, id: CapId)
    requires LeaseLink(w.store.pending, w.life.leases, w.lock)
    requires id in w.store.pending && w.store.pending[id].status.Approved?
    ensures var l := w.store.pending[id].status.lease;
            l in w.life.leases && w.life.leases[l].holder.Pairing? && w.life.leases[l].user == w.store.pending[id].status.user
  {
  }

  lemma ExpireKeepsWorld(w: World, now: Instant, id: CapId, closes: bool)
    requires WInv(w)
    ensures WInv(Next(w, ExpirePairing(now, id, closes)))
  {
    hide Inv, Wf, LeaseLink, OpenLink, ScanLink, KeyLink, PhaseLink, NameLink, ReplyLink, ApprovalLink, DoDrop;
    if w.lock.Free? && id in w.store.pending && w.store.pending[id].expires <= now {
      var e, w' := w.store.pending[id], DoExpire(w, id, closes);
      ExpireWf(w.store, id);
      if e.status.Approved? {
        ApprovedLease(w, id);
        DropFrame(w.life, e.status.lease, closes);
        ExpireLinks(w, id, w.life.leases - {e.status.lease}, w'.life.open);
      } else {
        ExpireLinks(w, id, w.life.leases, w.life.open);
      }
      ScanShrinks(w.opening, w.life.open, w'.life.open, w.life.rows);
      FreeRows(w, w'.life, w'.store);
    }
  }

  lemma FreeRows(w: World, life: Sys, store: Store)
    requires PhaseLink(w) && NameLink(w) && w.lock.Free? && life.rows == w.life.rows
    ensures PhaseLink(w.(life := life, store := store)) && NameLink(w.(life := life, store := store))
  {
  }

  // ----- approval -----

  lemma BindingLink(w: World, id: CapId, user: UserId, l: LeaseId, expiry: Option<Instant>)
    requires LeaseLink(w.store.pending, w.life.leases, w.lock) && w.lock.Free?
    requires id in w.store.pending && w.store.pending[id].status.Awaiting? && l !in w.life.leases
    ensures LeaseLink(w.store.pending, w.life.leases[l := Lease(user, None, Pairing(id))], BindingUser(id, user, l, expiry))
  {
  }

  lemma AcquireFrame(w: World, l: LeaseId, lease: Lease, lock: StoreLock)
    requires PhaseLink(w) && NameLink(w) && !lock.Activating?
    ensures var w' := w.(life := DoAcquire(w.life, l, lease), lock := lock);
            PhaseLink(w') && NameLink(w')
  {
  }

  lemma ApproveBeginKeeps(w: World, now: Instant, id: CapId, display: Text, user: UserId, l: LeaseId, expiry: Option<Instant>)
    requires WInv(w)
    ensures WInv(Next(w, ApproveBegin(now, id, display, user, l, expiry)))
  {
    hide Inv, Wf, LeaseLink, OpenLink, ScanLink, KeyLink, PhaseLink, NameLink, ReplyLink, ApprovalLink, NoneExpired, RemoveExpired, Admits;
    if w.lock.Free? && NoneExpired(w.store, now) && AsksToBind(w.store, now, id, display)
       && l !in w.life.leases && Admits(w.life.users, user, None) {
      NothingExpires(w.store, now);
      var lease := Lease(user, None, Pairing(id));
      AcquireKeeps(w.life, l, lease);
      BindingLink(w, id, user, l, expiry);
      AcquireFrame(w, l, lease, BindingUser(id, user, l, expiry));
    }
  }

  lemma BoundLinks(w: World, dek: Option<nat>)
    requires LeaseLink(w.store.pending, w.life.leases, w.lock) && OpenLink(w.store.pending, w.life.open)
    requires KeyLink(w.store.pending, w.life.rows) && ApprovalLink(w.store.pending, w.approvals)
    requires w.lock.BindingUser? && w.lock.id in w.store.pending && w.lock.user in w.life.open
    ensures var id, user, l := w.lock.id, w.lock.user, w.lock.lease;
            var e := w.store.pending[id];
            var pending := SetStatus(w.store, id, Approved(user, dek, l, w.lock.expiry)).pending;
            && LeaseLink(pending, w.life.leases, Free) && OpenLink(pending, w.life.open)
            && KeyLink(pending, w.life.rows)
            && ApprovalLink(pending, w.approvals + {Approval(id, e.verifier, user, e.name)})
  {
  }

  lemma UnboundLinks(w: World, open: set<UserId>)
    requires LeaseLink(w.store.pending, w.life.leases, w.lock) && OpenLink(w.store.pending, w.life.open)
    requires w.lock.BindingUser?
    requires forall u: UserId :: u in w.life.open && Held(w.life.leases - {w.lock.lease}, u) != {} ==> u in open
    ensures LeaseLink(w.store.pending, w.life.leases - {w.lock.lease}, Free)
    ensures OpenLink(w.store.pending, open)
  {
    hide Held;
    var pending, leases := w.store.pending, w.life.leases - {w.lock.lease};
    forall a | a in pending && pending[a].status.Approved? ensures pending[a].status.user in open {
      HeldOne(leases, pending[a].status.lease);
    }
  }

  lemma BoundNames(w: World, store: Store, approvals: set<Approval>, life: Sys)
    requires NameLink(w) && w.approvals <= approvals && life.rows == w.life.rows
    ensures PhaseLink(w.(store := store, approvals := approvals, life := life, lock := Free))
    ensures NameLink(w.(store := store, approvals := approvals, life := life, lock := Free))
  {
  }

  lemma BindingEntry(w: World)
    requires LeaseLink(w.store.pending, w.life.leases, w.lock) && w.lock.BindingUser?
    ensures w.lock.id in w.store.pending && w.store.pending[w.lock.id].status.Awaiting?
    ensures w.lock.lease in w.life.leases && w.life.leases[w.lock.lease].holder.Pairing?
  {
  }

  lemma WfEntry(st: Store, id: CapId)
    requires Wf(st) && id in st.pending
    ensures EntryOk(st.pending[id])
  {
  }

  lemma BindSucceeds(w: World, dek: Option<nat>, closes: bool)
    requires WInv(w) && w.lock.BindingUser? && w.lock.user in w.life.open
    requires w.lock.id in w.store.pending && w.lock.lease in w.life.leases
    ensures WInv(DoApproveEnd(w, dek, true, closes))
  {
    hide Inv, Wf, LeaseLink, OpenLink, ScanLink, KeyLink, PhaseLink, NameLink, ReplyLink, ApprovalLink, DoDrop;
    var id, w' := w.lock.id, DoApproveEnd(w, dek, true, closes);
    BindingEntry(w);
    WfEntry(w.store, id);
    UpdateKeeps(w.store, id, w'.store.pending[id]);
    BoundLinks(w, dek);
    BoundNames(w, w'.store, w'.approvals, w.life);
  }

  lemma BindFails(w: World, dek: Option<nat>, readable: bool, closes: bool)
    requires WInv(w) && w.lock.BindingUser? && !(readable && w.lock.user in w.life.open)
    requires w.lock.id in w.store.pending && w.lock.lease in w.life.leases
    ensures WInv(DoApproveEnd(w, dek, readable, closes))
  {
    hide Inv, Wf, LeaseLink, OpenLink, ScanLink, KeyLink, PhaseLink, NameLink, ReplyLink, ApprovalLink, DoDrop;
    var life := DoDrop(w.life, w.lock.lease, closes);
    BindingEntry(w);
    DropFrame(w.life, w.lock.lease, closes);
    UnboundLinks(w, life.open);
    ScanShrinks(w.opening, w.life.open, life.open, w.life.rows);
    BoundNames(w, w.store, w.approvals, life);
  }

  lemma ApproveEndKeeps(w: World, dek: Option<nat>, readable: bool, closes: bool)
    requires WInv(w)
    ensures WInv(Next(w, ApproveEnd(dek, readable, closes)))
  {
    hide WInv, DoApproveEnd;
    if w.lock.BindingUser? && w.lock.id in w.store.pending && w.lock.lease in w.life.leases {
      if readable && w.lock.user in w.life.open {
        BindSucceeds(w, dek, closes);
      } else {
        BindFails(w, dek, readable, closes);
      }
    }
  }

  // ----- claim -----

  lemma LockLease(pending: Pending, leases: Leases, lock: StoreLock, lock': StoreLock)
    requires LeaseLink(pending, leases, lock) && !lock.BindingUser? && !lock'.BindingUser?
    ensures LeaseLink(pending, leases, lock')
  {
  }

  lemma ProbeLinks(w: World, t: Tid, now: Instant, id: CapId, v: Verifier)
    requires NameLink(w) && Activates(w.store, now, id, v)
    ensures var w' := w.(lock := Activating(t, id, v, now, Probe)); PhaseLink(w') && NameLink(w')
  {
  }

  lemma FinishingLinks(w: World, finishing: map<Tid, Pendency>, replies: set<Reply>)
    requires PhaseLink(w) && NameLink(w)
    ensures PhaseLink(w.(finishing := finishing, replies := replies)) && NameLink(w.(finishing := finishing, replies := replies))
  {
  }

  lemma ClaimBeginKeeps(w: World, t: Tid, now: Instant, id: CapId, v: Verifier)
    requires WInv(w)
    ensures WInv(Next(w, ClaimBegin(t, now, id, v)))
  {
    hide Inv, Wf, LeaseLink, OpenLink, ScanLink, KeyLink, PhaseLink, NameLink, ReplyLink, ApprovalLink, NoneExpired, RemoveExpired, Activates;
    if w.lock.Free? && Activates(w.store, now, id, v) {
      LockLease(w.store.pending, w.life.leases, w.lock, Activating(t, id, v, now, Probe));
      ProbeLinks(w, t, now, id, v);
    }
    var w' := Next(w, ClaimBegin(t, now, id, v));
    FinishingLinks(w, w'.finishing, w.replies);
  }

  lemma FinishReply(w: World, t: Tid, readable: bool)
    requires ReplyLink(w.replies, w.life.rows) && t in w.finishing
    ensures ReplyLink(DoFinish(w, t, readable).replies, w.life.rows)
    ensures var w' := DoFinish(w, t, readable); w' == w.(finishing := w'.finishing, replies := w'.replies)
  {
  }

  lemma ClaimFinishKeeps(w: World, t: Tid, readable: bool)
    requires WInv(w)
    ensures WInv(Next(w, ClaimFinish(t, readable)))
  {
    hide Inv, Wf, LeaseLink, OpenLink, ScanLink, KeyLink, PhaseLink, NameLink, ReplyLink, ApprovalLink, DoFinish;
    if t in w.finishing {
      FinishReply(w, t, readable);
      var w' := DoFinish(w, t, readable);
      FinishingLinks(w, w'.finishing, w'.replies);
    }
  }

  // ----- opening a user database -----

  lemma OpenScanKeeps(w: World, u: UserId)
    requires WInv(w)
    ensures WInv(Next(w, OpenScan(u)))
  {
    hide Inv, Wf, LeaseLink, OpenLink, KeyLink, ReplyLink, ApprovalLink, RowsOf;
    OpeningLinks(w, Next(w, OpenScan(u)).opening);
  }

  lemma OpeningLinks(w: World, opening: map<UserId, set<CapId>>)
    requires PhaseLink(w) && NameLink(w)
    ensures PhaseLink(w.(opening := opening)) && NameLink(w.(opening := opening))
  {
  }

  /** Cleaning up orphaned names never removes the name of a durable capability, nor that of an
      activation in progress. */
  lemma PruneNames(w: World, u: UserId)
    requires PhaseLink(w) && NameLink(w) && u in w.opening
    requires OpenLink(w.store.pending, w.life.open) && ScanLink(w.opening, w.life.open, w.life.rows)
    ensures PhaseLink(DoPrune(w, u)) && NameLink(DoPrune(w, u))
  {
  }

  /** Opening a user database begins exactly when it is neither open nor being opened, with the identifiers
      of all the user's durable capabilities. */
  lemma ScansExactly(w: World, u: UserId, id: CapId)
    ensures var w' := Next(w, OpenScan(u));
            && (u in w'.opening && u !in w.opening <==> u !in w.opening && u !in w.life.open)
            && (u in w'.opening && u !in w.opening ==>
                  (id in w'.opening[u] <==> id in w.life.rows && w.life.rows[id].user == u))
            && (u in w.opening || u in w.life.open ==> w' == w)
  {
  }

  /** The clean-up that ends the opening of a user database leaves exactly the names of the user's durable
      capabilities, and touches no other user's; no activation of the user is in progress. */
  lemma PrunesExactly(w: World, u: UserId, id: CapId)
    requires WInv(w) && u in w.opening
    ensures var w' := Next(w, OpenPrune(u));
            && ((u, id) in w'.names <==> (u, id) in w.names && id in w.life.rows && w.life.rows[id].user == u)
            && ((u, id) in w'.names ==> w'.names[(u, id)] == w.names[(u, id)])
            && (forall k :: k in w.names && k.0 != u ==> k in w'.names && w'.names[k] == w.names[k])
            && (forall k :: k in w'.names ==> k in w.names)
            && u !in w'.opening && w'.life == w.life
    ensures w.lock.Activating? && w.lock.id in w.store.pending && w.store.pending[w.lock.id].status.Approved? ==>
              w.store.pending[w.lock.id].status.user != u
  {
    hide Inv, Wf, LeaseLink, KeyLink, PhaseLink, NameLink, ReplyLink, ApprovalLink;
  }

  lemma OpenPruneKeeps(w: World, u: UserId)
    requires WInv(w)
    ensures WInv(Next(w, OpenPrune(u)))
  {
    hide Inv, Wf, LeaseLink, OpenLink, KeyLink, ReplyLink, ApprovalLink, RowsOf, PhaseLink, NameLink;
    if u in w.opening { PruneNames(w, u); }
  }

  // ----- activation -----

  /** The pairing being activated has its verifier to itself. */
  lemma OwnVerifier(w: World)
    requires CanActivate(w) && PhaseLink(w) && KeyLink(w.store.pending, w.life.rows)
    ensures forall c :: c in w.life.rows && w.life.rows[c].verifier == w.lock.v ==> c == w.lock.id
    ensures w.lock.phase.WriteRow? ==> CanInsert(w.life.rows, GrantOf(w))
  {
  }

  lemma RowsAfter(w: World, io: Io)
    requires CanActivate(w) && PhaseLink(w) && KeyLink(w.store.pending, w.life.rows)
    ensures var g := GrantOf(w);
            Advanced(w, io).life.rows == if w.lock.phase.WriteRow? && !io.Fails? then w.life.rows[g.id := NewRow(g)] else w.life.rows
    ensures w.lock.phase.WriteRow? ==> w.lock.id !in w.life.rows
  {
    OwnVerifier(w);
  }

  lemma RowInv(w: World)
    requires CanActivate(w) && PhaseLink(w) && KeyLink(w.store.pending, w.life.rows)
    requires Inv(w.life) && w.lock.phase.WriteRow?
    ensures Inv(w.life.(rows := w.life.rows[w.lock.id := NewRow(GrantOf(w))]))
  {
    hide Inv;
    OwnVerifier(w);
    InsertRowKeeps(w.life, w.lock.id, NewRow(GrantOf(w)));
  }

  lemma RowLinks(w: World)
    requires CanActivate(w) && PhaseLink(w) && w.lock.phase.WriteRow?
    requires KeyLink(w.store.pending, w.life.rows) && ReplyLink(w.replies, w.life.rows)
    requires Wf(w.store)
    ensures var rows := w.life.rows[w.lock.id := NewRow(GrantOf(w))];
            KeyLink(w.store.pending, rows) && ReplyLink(w.replies, rows)
  {
  }

  lemma RowScan(w: World)
    requires CanActivate(w) && PhaseLink(w) && w.lock.phase.WriteRow?
    requires OpenLink(w.store.pending, w.life.open) && ScanLink(w.opening, w.life.open, w.life.rows)
    ensures ScanLink(w.opening, w.life.open, w.life.rows[w.lock.id := NewRow(GrantOf(w))])
  {
    var rows := w.life.rows[w.lock.id := NewRow(GrantOf(w))];
    forall u | u in w.opening ensures RowsOf(rows, u) == RowsOf(w.life.rows, u) {
      assert u != GrantOf(w).user;
    }
  }

  lemma AdvancedNames(w: World, io: Io)
    requires CanActivate(w) && PhaseLink(w) && NameLink(w)
    requires KeyLink(w.store.pending, w.life.rows) && ApprovalLink(w.store.pending, w.approvals)
    ensures NameLink(Advanced(w, io))
  {
    RowsAfter(w, io);
    hide KeyLink;
  }

  lemma AdvancedPhase(w: World, io: Io)
    requires CanActivate(w) && PhaseLink(w) && KeyLink(w.store.pending, w.life.rows)
    ensures !Advanced(w, io).lock.phase.Done? ==> PhaseLink(Advanced(w, io))
  {
    RowsAfter(w, io);
    hide KeyLink;
  }

  /** A successful activation has its row, and answers with that row's user and permission. */
  lemma SuccessHasRow(w: World, io: Io)
    requires CanActivate(w) && PhaseLink(w) && KeyLink(w.store.pending, w.life.rows)
    requires Advanced(w, io).lock.phase.Done? && Advanced(w, io).lock.phase.result.Some?
    ensures var w1 := Advanced(w, io);
            && w.lock.id in w1.life.rows && w1.life.rows[w.lock.id].verifier == w.lock.v
            && w1.lock.phase.result.value == Claimed(w1.life.rows[w.lock.id].user, w1.life.rows[w.lock.id].permission)
  {
    RowsAfter(w, io);
    hide KeyLink;
  }

  /** The parts that do not look at the phase, after one call of the activation. */
  lemma AdvancedParts(w: World, io: Io)
    requires WInv(w) && CanActivate(w)
    ensures var w1 := Advanced(w, io);
            && Inv(w1.life) && ScanLink(w.opening, w1.life.open, w1.life.rows)
            && KeyLink(w.store.pending, w1.life.rows) && ReplyLink(w.replies, w1.life.rows)
            && NameLink(w1) && w1.life == w.life.(rows := w1.life.rows)
  {
    hide Inv, Wf, LeaseLink, OpenLink, ScanLink, KeyLink, PhaseLink, NameLink, ReplyLink, ApprovalLink;
    RowsAfter(w, io);
    AdvancedNames(w, io);
    if w.lock.phase.WriteRow? {
      RowInv(w);
      RowLinks(w);
      RowScan(w);
    }
    assert w.life.(rows := w.life.rows) == w.life;
  }

  lemma CompleteLinks(w: World, claimed: Claimed, leases: Leases, open: set<UserId>)
    requires LeaseLink(w.store.pending, w.life.leases, w.lock) && OpenLink(w.store.pending, w.life.open)
    requires KeyLink(w.store.pending, w.life.rows) && ApprovalLink(w.store.pending, w.approvals)
    requires CanActivate(w) && leases == w.life.leases - {w.store.pending[w.lock.id].status.lease}
    requires w.lock.id in w.life.rows && w.life.rows[w.lock.id].verifier == w.store.pending[w.lock.id].verifier
    requires claimed == Claimed(w.life.rows[w.lock.id].user, w.life.rows[w.lock.id].permission)
    requires forall u: UserId :: u in w.life.open && Held(leases, u) != {} ==> u in open
    ensures var pending := Complete(w.store, w.lock.id, claimed).pending;
            && LeaseLink(pending, leases, Free) && OpenLink(pending, open)
            && KeyLink(pending, w.life.rows) && ApprovalLink(pending, w.approvals)
  {
    hide Held;
    var pending := Complete(w.store, w.lock.id, claimed).pending;
    CompleteLease(w, claimed);
    forall a | a in pending && pending[a].status.Approved? ensures pending[a].status.user in open {
      HeldOne(leases, pending[a].status.lease);
    }
  }

  lemma CompleteLease(w: World, claimed: Claimed)
    requires LeaseLink(w.store.pending, w.life.leases, w.lock) && CanActivate(w)
    ensures LeaseLink(Complete(w.store, w.lock.id, claimed).pending,
                      w.life.leases - {w.store.pending[w.lock.id].status.lease}, Free)
  {
  }

  lemma Freed(w: World, store: Store, life: Sys, finishing: map<Tid, Pendency>)
    requires NameLink(w) && life.rows == w.life.rows
    ensures var w' := w.(store := store, life := life, finishing := finishing, lock := Free); PhaseLink(w') && NameLink(w')
  {
  }

  lemma CompletesWf(st: Store, id: CapId, claimed: Claimed)
    requires Wf(st) && id in st.pending
    ensures Wf(Complete(st, id, claimed))
  {
    UpdateKeeps(st, id, Complete(st, id, claimed).pending[id]);
  }

  lemma ActivateSucceeds(w: World, io: Io, closes: bool)
    requires WInv(w) && CanActivate(w)
    requires Advanced(w, io).lock.phase.Done? && Advanced(w, io).lock.phase.result.Some?
    ensures WInv(DoActivate(w, io, closes))
  {
    hide Inv, Wf, LeaseLink, OpenLink, ScanLink, KeyLink, PhaseLink, NameLink, ReplyLink, ApprovalLink, Complete, DoDrop;
    var w1, w', id := Advanced(w, io), DoActivate(w, io, closes), w.lock.id;
    AdvancedParts(w, io);
    SuccessHasRow(w, io);
    ApprovedLease(w, id);
    DropFrame(w1.life, w.store.pending[id].status.lease, closes);
    CompletesWf(w.store, id, w1.lock.phase.result.value);
    LockLease(w.store.pending, w.life.leases, w.lock, w1.lock);
    ActivatingVerifier(w);
    CompleteLinks(w1, w1.lock.phase.result.value, w'.life.leases, w'.life.open);
    ScanShrinks(w.opening, w1.life.open, w'.life.open, w1.life.rows);
    Freed(w1, w'.store, w'.life, w'.finishing);
  }

  lemma ActivatingVerifier(w: World)
    requires PhaseLink(w) && w.lock.Activating?
    ensures w.lock.id in w.store.pending && w.store.pending[w.lock.id].verifier == w.lock.v
  {
  }

  lemma ActivateKeeps(w: World, io: Io, closes: bool)
    requires WInv(w)
    ensures WInv(Next(w, ActivateStep(io, closes)))
  {
    hide Inv, Wf, LeaseLink, OpenLink, ScanLink, KeyLink, PhaseLink, NameLink, ReplyLink, ApprovalLink, Complete, DoDrop, Advanced;
    if CanActivate(w) {
      var w1 := Advanced(w, io);
      AdvancedFrame(w, io);
      AdvancedParts(w, io);
      AdvancedPhase(w, io);
      if w1.lock.phase.Done? {
        if w1.lock.phase.result.Some? {
          ActivateSucceeds(w, io, closes);
        } else {
          LockLease(w.store.pending, w.life.leases, w.lock, Free);
          Freed(w1, w1.store, w1.life, w1.finishing);
        }
      } else {
        LockLease(w.store.pending, w.life.leases, w.lock, w1.lock);
      }
    }
  }

  lemma AdvancedFrame(w: World, io: Io)
    requires CanActivate(w)
    ensures var w1 := Advanced(w, io);
            && w1.store == w.store && w1.opening == w.opening && w1.approvals == w.approvals && w1.replies == w.replies
            && w1.finishing == w.finishing && w1.lock == w.lock.(phase := w1.lock.phase)
  {
  }

  // ----- every event, every run -----

  lemma NextKeeps(w: World, h: Happening)
    requires WInv(w)
    ensures WInv(Next(w, h))
  {
    hide WInv;
    match h
    case Life(e) => if Foreign(w, e) { LifeKeeps(w, e); }
    case StartPairing(now, ip, req, generated, readable) => StartKeepsWorld(w, now, ip, req, generated, readable);
    case ExpirePairing(now, id, closes) => ExpireKeepsWorld(w, now, id, closes);
    case ApproveBegin(now, id, display, user, lease, expiry) => ApproveBeginKeeps(w, now, id, display, user, lease, expiry);
    case ApproveEnd(dek, readable, closes) => ApproveEndKeeps(w, dek, readable, closes);
    case DenyPairing(now, id, display) => DenyKeepsWorld(w, now, id, display);
    case ClaimBegin(t, now, id, v) => ClaimBeginKeeps(w, t, now, id, v);
    case ActivateStep(io, closes) => ActivateKeeps(w, io, closes);
    case ClaimFinish(t, readable) => ClaimFinishKeeps(w, t, readable);
    case OpenScan(u) => OpenScanKeeps(w, u);
    case OpenPrune(u) => OpenPruneKeeps(w, u);
    case RestartServer => RestartKeepsWorld(w);
  }

  lemma NothingPending(open: set<UserId>, rows: Rows, approvals: set<Approval>)
    ensures LeaseLink(map[], map[], Free) && OpenLink(map[], open) && ScanLink(map[], open, rows)
    ensures KeyLink(map[], rows) && ApprovalLink(map[], approvals)
  {
  }

  lemma LostLinks(w: World, life: Sys)
    requires NameLink(w) && life.rows == w.life.rows
    ensures var w' := w.(life := life, store := EMPTY, lock := Free, finishing := map[], opening := map[]);
            PhaseLink(w') && NameLink(w')
  {
  }

  /** Whatever was in progress is lost, and everything that ties the durable data together stays. */
  lemma RestartKeepsWorld(w: World)
    requires WInv(w)
    ensures WInv(Next(w, RestartServer))
  {
    hide Inv, Wf, LeaseLink, OpenLink, ScanLink, KeyLink, PhaseLink, NameLink, ReplyLink, ApprovalLink;
    EmptyWf();
    RestartKeeps(w.life);
    var life := DoRestart(w.life);
    NothingPending(life.open, w.life.rows, w.approvals);
    LostLinks(w, life);
  }

  lemma StartInv()
    ensures WInv(START)
  {
    hide Inv, Wf;
    InitInv();
    EmptyWf();
  }

  lemma {:induction false} RunsKeep(w: World, hs: seq<Happening>)
    requires WInv(w)
    ensures WInv(Runs(w, hs))
    decreases |hs|
  {
    hide WInv, Next;
    if hs != [] {
      NextKeeps(w, hs[0]);
      RunsKeep(Next(w, hs[0]), hs[1..]);
    }
  }
}
