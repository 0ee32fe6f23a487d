/** The effects of single steps of the lifecycle protocol on open databases, notifications and guards:
    what each of them changes, and that nothing else does. */
module ProtocolEffects {
  import opened Basics
  import opened Registry
  import opened Protocol
  import opened ProtocolInvariant
  import opened ProtocolTheorems
  import opened ProtocolWrites

  // ----- open databases -----

  /** The lease is its user's last, and nothing is pinned for that user. */
  ghost predicate LastOf(s: Sys, l: LeaseId, u: UserId) {
    && l in s.leases && s.leases[l].user == u
    && Held(s.leases, u) == {l} && Lookup(s.users, u).sessions == {}
  }

  /** The step opens the database of this user. */
  predicate Opens(s: Sys, e: Event, u: UserId) {
    match e
    case OpenUnderLease(l) => l in s.leases && s.leases[l].user == u
    case Lock(t, ExclusiveOpen) => PcOf(s, t) == Exclusive(u)
    case Authorize(t, AuthOpen) => PcOf(s, t).Checked? && PcOf(s, t).wrapped && PcOf(s, t).u == u
    case _ => false
  }

  /** The step closes it: by the exclusive holder, with the last lease, with the last pinned session, or
      by a restart. */
  ghost predicate Closes(s: Sys, e: Event, u: UserId) {
    match e
    case Lock(t, ExclusiveClose) => PcOf(s, t) == Exclusive(u)
    case Drop(l, closes) => LastOf(s, l, u) && !s.leases[l].holder.Thread? && closes
    case Leave(t, closes) => PcOf(s, t).Leaving? && LastOf(s, PcOf(s, t).l, u) && closes
    case UnpinSession(w, sid, closes) =>
      w == u && u in s.users && Held(s.leases, u) == {} && Lookup(s.users, u).sessions <= {sid} && closes
    case Restart => true
    case _ => false
  }

  lemma DropOpens(s: Sys, l: LeaseId, closes: bool, u: UserId)
    requires Inv(s) && l in s.leases
    ensures u in DoDrop(s, l, closes).open <==> u in s.open && !(LastOf(s, l, u) && closes)
  {
    var w := s.leases[l].user;
    ReleaseSound(s.users, s.leases, l);
    assert Counts(Lookup(s.users, w), s.leases, w);
    LastHeld(s.leases, l);
    hide Inv, Sound, Held;
  }

  lemma UnpinOpens(s: Sys, w: UserId, sid: SessionId, closes: bool, u: UserId)
    requires Inv(s)
    ensures u in DoUnpin(s, w, sid, closes).open <==>
              u in s.open
              && !(w == u && u in s.users && Held(s.leases, u) == {} && Lookup(s.users, u).sessions <= {sid} && closes)
  {
    UnpinClosesExactly(s, w, sid);
    hide Inv, UnpinCloses, Unpin;
  }

  lemma LockOpensExactly(s: Sys, t: Tid, step: LockStep, u: UserId)
    ensures var e := Lock(t, step); u in DoLock(s, t, step).open <==> Opens(s, e, u) || (u in s.open && !Closes(s, e, u))
  {
    hide Claim, Unclaim, ClearSessions, ClaimReady, DrainReady;
    match step
    case LockBegin(_) =>
    case ClaimTry =>
    case DrainTry =>
    case ExclusiveOpen =>
    case ExclusiveClear =>
    case ExclusiveClose =>
    case ExclusiveDrop =>
  }

  lemma AuthorizeOpensExactly(s: Sys, t: Tid, step: AuthStep, u: UserId)
    ensures u in DoAuthorize(s, t, step).open <==> Opens(s, Authorize(t, step), u) || u in s.open
  {
    hide Admit, Admits, Basics.Expired;
    match step
    case AuthLookup(_, _, _) =>
    case AuthLease(_) =>
    case AuthRecheck(_) =>
    case AuthOpen =>
    case AuthActivity(_) =>
    case AuthFail =>
    case RequestEnd =>
  }

  /** In every reachable state a step opens and closes exactly these databases. */
  lemma OpenChangesExactly(s: Sys, e: Event, u: UserId)
    requires Inv(s)
    ensures u in Do(s, e).open <==> Opens(s, e, u) || (u in s.open && !Closes(s, e, u))
  {
    hide Inv, DoLock, DoShutdown, DoAuthorize, DoDrop, DoUnpin, Admit, Pin, LastOf;
    match e
    case Lock(t, step) => LockOpensExactly(s, t, step, u);
    case Shutdown(t, step) => ShutdownOpens(s, t, step);
    case Authorize(t, step) => AuthorizeOpensExactly(s, t, step, u);
    case Drop(l, closes) => if l in s.leases { DropOpens(s, l, closes, u); } else { NoLease(s, l, u); }
    case Leave(t, closes) =>
      if PcOf(s, t).Leaving? {
        if PcOf(s, t).l in s.leases { DropOpens(s, PcOf(s, t).l, closes, u); } else { NoLease(s, PcOf(s, t).l, u); }
      }
    case UnpinSession(w, sid, closes) => UnpinOpens(s, w, sid, closes, u);
    case Acquire(_, _, _, _) =>
    case PinSession(_, _) =>
    case OpenUnderLease(_) =>
    case InsertRow(_, _) =>
    case Notify =>
    case SpuriousWake(_) =>
    case Restart =>
  }

  lemma NoLease(s: Sys, l: LeaseId, u: UserId)
    requires l !in s.leases
    ensures !LastOf(s, l, u)
  {
  }

  // ----- notifications that come after the lock is released -----

  /** The step leaves one more notification to come: a lease drop, or an unpin of a known user unless the
      close it asks for fails. */
  ghost predicate Owes(s: Sys, e: Event) {
    match e
    case Drop(l, _) => l in s.leases && !s.leases[l].holder.Thread?
    case Leave(t, _) => PcOf(s, t).Leaving? && PcOf(s, t).l in s.leases
    case UnpinSession(u, sid, closes) =>
      u in s.users && (Held(s.leases, u) == {} && Lookup(s.users, u).sessions <= {sid} ==> closes)
    case _ => false
  }

  lemma DropOwes(s: Sys, l: LeaseId, closes: bool)
    requires Inv(s) && l in s.leases
    ensures DoDrop(s, l, closes).owed == s.owed + 1
  {
    ReleaseSound(s.users, s.leases, l);
  }

  lemma UnpinOwes(s: Sys, u: UserId, sid: SessionId, closes: bool)
    requires Inv(s)
    ensures DoUnpin(s, u, sid, closes).owed == if Owes(s, UnpinSession(u, sid, closes)) then s.owed + 1 else s.owed
  {
    UnpinClosesExactly(s, u, sid);
    hide Inv, UnpinCloses, Unpin;
  }

  lemma LockOwes(s: Sys, t: Tid, step: LockStep)
    ensures DoLock(s, t, step).owed == s.owed
  {
    hide Claim, Unclaim, ClearSessions, ClaimReady, DrainReady;
    match step
    case LockBegin(_) =>
    case ClaimTry =>
    case DrainTry =>
    case ExclusiveOpen =>
    case ExclusiveClear =>
    case ExclusiveClose =>
    case ExclusiveDrop =>
  }

  lemma ShutdownOwes(s: Sys, t: Tid, step: ShutStep)
    ensures DoShutdown(s, t, step).owed == s.owed
  {
    hide Admit, Admits, Block, Unblock, Lookup, BlockReady, FlushReady, Basics.Expired;
    match step
    case RevokeBegin(_, _, _) =>
    case ExpireBegin(_, _, _) =>
    case BlockTry =>
    case ShutWrite(_) =>
    case FlushTry =>
    case ShutDrop =>
  }

  lemma AuthorizeOwes(s: Sys, t: Tid, step: AuthStep)
    ensures DoAuthorize(s, t, step).owed == s.owed
  {
    hide Admit, Admits, Basics.Expired;
    match step
    case AuthLookup(_, _, _) =>
    case AuthLease(_) =>
    case AuthRecheck(_) =>
    case AuthOpen =>
    case AuthActivity(_) =>
    case AuthFail =>
    case RequestEnd =>
  }

  /** Notifications are owed for exactly these steps, and delivered one at a time to every sleeper. */
  lemma NotificationsExactly(s: Sys, e: Event)
    requires Inv(s)
    ensures Do(s, e).owed == if Owes(s, e) then s.owed + 1
                             else if e.Notify? && s.owed > 0 then s.owed - 1
                             else if e.Restart? then 0 else s.owed
    ensures e.Notify? && s.owed > 0 ==> Do(s, e).asleep == {}
    ensures e.SpuriousWake? ==> Do(s, e).asleep == s.asleep - {e.t}
  {
    hide Inv, DoLock, DoShutdown, DoAuthorize, DoDrop, DoUnpin, Admit, Pin, Held;
    match e
    case Lock(t, step) => LockOwes(s, t, step);
    case Shutdown(t, step) => ShutdownOwes(s, t, step);
    case Authorize(t, step) => AuthorizeOwes(s, t, step);
    case Drop(l, closes) => if l in s.leases { DropOwes(s, l, closes); }
    case Leave(t, closes) => if PcOf(s, t).Leaving? && PcOf(s, t).l in s.leases { DropOwes(s, PcOf(s, t).l, closes); }
    case UnpinSession(u, sid, closes) => UnpinOwes(s, u, sid, closes);
    case Acquire(_, _, _, _) =>
    case PinSession(_, _) =>
    case OpenUnderLease(_) =>
    case InsertRow(_, _) =>
    case Notify =>
    case SpuriousWake(_) =>
    case Restart =>
  }

  // ----- waiting for a guard, and giving it back -----

  /** A pass of the drain returns the guard exactly when no lease of the user is live, and otherwise
      sleeps. */
  lemma DrainReturnsExactly(s: Sys, t: Tid, u: UserId)
    requires Inv(s) && PcOf(s, t) == Draining(u) && Awake(s, t)
    ensures var s' := DoLock(s, t, DrainTry);
            if Held(s.leases, u) == {} then PcOf(s', t) == Exclusive(u) && Awake(s', t)
            else PcOf(s', t) == Draining(u) && !Awake(s', t)
  {
    assert Counts(Lookup(s.users, u), s.leases, u);
    hide Sound, Guards, Holders, Owners, Quiet, Sleepers, Finality, UniqueVerifiers, Lookup;
  }

  /** A pass of the claim loop claims exactly when no thread has claimed the user or shuts one of its
      capabilities down, and wakes everybody else; otherwise it sleeps. */
  lemma ClaimReturnsExactly(s: Sys, t: Tid, u: UserId)
    requires Reachable(s) && PcOf(s, t) == Claiming(u) && Awake(s, t)
    ensures var s' := DoLock(s, t, ClaimTry);
            if Unclaimed(s, u) && forall d: CapId :: Unshut(s, u, d)
            then s'.asleep <= {t} && PcOf(s', t) == if Held(s.leases, u) == {} then Exclusive(u) else Draining(u)
            else PcOf(s', t) == Claiming(u) && s'.asleep == s.asleep + {t}
  {
    TestsAreExact(s, u, 0);
    hide Claim, ClaimReady, DrainReady, Lookup, Unclaimed, Unshut;
    ClaimKeepsCount(s.users, u);
  }

  lemma ClaimKeepsCount(users: Users, u: UserId)
    ensures DrainReady(Lookup(Claim(users, u), u)) <==> DrainReady(Lookup(users, u))
  {
  }

  /** Dropping the exclusive guard frees the user: nobody has it claimed, requests are admitted again and
      every sleeper is woken. */
  lemma GuardDropFrees(s: Sys, t: Tid, u: UserId)
    requires Inv(s) && PcOf(s, t) == Exclusive(u)
    ensures var s' := DoLock(s, t, ExclusiveDrop);
            && PcOf(s', t) == Idle && Unclaimed(s', u) && Admits(s'.users, u, None)
            && s'.asleep == {} && s'.leases == s.leases
  {
    ExclusiveFlag(s, t);
    hide Sound, Owners, Quiet, Sleepers, Finality, UniqueVerifiers;
    forall x | x in s.pcs && x != t ensures PcClaim(s.pcs[x]) != Some(u) {
    }
  }

  /** Dropping a shutdown guard frees the capability and wakes every sleeper; a revoker goes on to drop
      the lease of its session. */
  lemma ShutdownDropFrees(s: Sys, t: Tid, u: UserId, c: CapId, job: Job)
    requires Inv(s) && PcOf(s, t) == Unblocking(u, c, job)
    ensures var s' := DoShutdown(s, t, ShutDrop);
            && PcOf(s', t) == (if job.Revoke? then Leaving(u, None, job.session, Idle) else Idle)
            && Unshut(s', u, c) && c !in Lookup(s'.users, u).blocked
            && s'.asleep == {} && s'.leases == s.leases && s'.rows == s.rows
  {
    assert PcShut(s.pcs[t]) == Some((u, c));
    hide Sound, Owners, Quiet, Sleepers, Finality, UniqueVerifiers;
    forall x | x in s.pcs && x != t ensures PcShut(s.pcs[x]) != Some((u, c)) {
    }
  }

  /** A pass of the block loop blocks exactly when no thread has claimed the user or shuts the capability
      down, and wakes everybody; otherwise it sleeps. */
  lemma BlockReturnsExactly(s: Sys, t: Tid, u: UserId, c: CapId, job: Job)
    requires Reachable(s) && PcOf(s, t) == Blocking(u, c, job) && Awake(s, t)
    ensures var s' := DoShutdown(s, t, BlockTry);
            if Unclaimed(s, u) && Unshut(s, u, c) then PcOf(s', t) == Shut(u, c, job) && s'.asleep == {}
            else PcOf(s', t) == Blocking(u, c, job) && s'.asleep == s.asleep + {t}
  {
    TestsAreExact(s, u, c);
    hide Block, BlockReady, Lookup, Unclaimed, Unshut;
  }

  /** A failed write, and a revocation that finds no row of the caller, give the guard back without a
      wait; every other write waits for the requests. */
  lemma WriteLeadsOn(s: Sys, t: Tid, u: UserId, c: CapId, job: Job, ok: bool)
    requires PcOf(s, t) == Shut(u, c, job)
    ensures PcOf(DoShutdown(s, t, ShutWrite(ok)), t) ==
            if ok && (job.Revoke? ==> c in s.rows && s.rows[c].user == u) then Flushing(u, c, job) else Unblocking(u, c, job)
    ensures !ok ==> DoShutdown(s, t, ShutWrite(ok)).rows == s.rows
  {
  }

  // ----- the stages of a request -----

  /** Where an identity lookup leads: nowhere for an unknown key, a revoked or a forbidden capability; to
      its retirement when it has expired; and otherwise to the lease. */
  lemma LookupLeadsTo(s: Sys, t: Tid, c: CapId, v: Verifier, now: Instant)
    requires PcOf(s, t) == Idle
    ensures PcOf(DoAuthorize(s, t, AuthLookup(c, v, now)), t) ==
            if c !in s.rows || s.rows[c].verifier != v || s.rows[c].revoked then Idle
            else if s.rows[c].expires.Some? && s.rows[c].expires.value <= now then Blocking(s.rows[c].user, c, Expire(now))
            else if s.rows[c].permission != BALANCES_READ then Idle
            else Looked(s.rows[c].user, c, v)
  {
  }

  /** Where the recheck under the lease leads: past it exactly for a row of the same user and key that is
      neither revoked nor expired and grants the permission; an expired one is retired once the lease is
      dropped. */
  lemma RecheckLeadsTo(s: Sys, t: Tid, u: UserId, c: CapId, v: Verifier, l: LeaseId, now: Instant)
    requires PcOf(s, t) == Leased(u, c, v, l)
    ensures var same := c in s.rows && s.rows[c].user == u && s.rows[c].verifier == v && !s.rows[c].revoked;
            PcOf(DoAuthorize(s, t, AuthRecheck(now)), t) ==
            if !same then Leaving(u, Some(c), l, Idle)
            else if s.rows[c].expires.Some? && s.rows[c].expires.value <= now
            then Leaving(u, Some(c), l, Blocking(u, c, Expire(now)))
            else if s.rows[c].permission != BALANCES_READ then Leaving(u, Some(c), l, Idle)
            else Checked(u, c, l, s.rows[c].expires, s.rows[c].wrapped)
  {
  }

  /** Where the last checks lead: an expiry that has passed since the recheck retires the capability, and
      one revoked or expired by the time of the write is refused. */
  lemma ActivityLeadsTo(s: Sys, t: Tid, u: UserId, c: CapId, l: LeaseId, expires: Option<Instant>, now: Instant)
    requires PcOf(s, t) == Opened(u, c, l, expires)
    ensures PcOf(DoAuthorize(s, t, AuthActivity(now)), t) ==
            if expires.Some? && expires.value <= now then Leaving(u, Some(c), l, Blocking(u, c, Expire(now)))
            else if && c in s.rows && s.rows[c].user == u && !s.rows[c].revoked
                    && (s.rows[c].expires.Some? ==> s.rows[c].expires.value > now)
            then Authorized(u, c, l)
            else Leaving(u, Some(c), l, Idle)
  {
  }

  /** A failure after the lease, and the end of a request, lead to dropping that lease. */
  lemma FailureDropsLease(s: Sys, t: Tid)
    requires PcOf(s, t).Leased? || PcOf(s, t).Checked? || PcOf(s, t).Opened? || PcOf(s, t).Authorized?
    ensures var pc := PcOf(s, t);
            var step := if pc.Authorized? then RequestEnd else AuthFail;
            PcOf(DoAuthorize(s, t, step), t) == Leaving(pc.u, Some(pc.c), pc.l, Idle)
  {
  }

  /** Dropping it takes exactly this lease and leads where the thread was bound. */
  lemma LeavingDropsLease(s: Sys, t: Tid, closes: bool)
    requires Inv(s) && PcOf(s, t).Leaving?
    ensures var s' := Do(s, Leave(t, closes));
            PcOf(s', t) == PcOf(s, t).next && s'.leases == s.leases - {PcOf(s, t).l} && PcOf(s, t).l in s.leases
  {
    OwnLease(s, t);
    hide Inv, Release, ReleaseCloses;
  }
}
