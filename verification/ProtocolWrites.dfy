/** What the lifecycle protocol writes and closes, exactly: which steps change a capability and how, and
    when the last lease or the last pinned session closes a user database. */
module ProtocolWrites {
  import opened Basics
  import opened Registry
  import opened Protocol
  import opened ProtocolInvariant
  import opened ProtocolTheorems

  // ----- capability rows -----

  /** The step is an effective write of a thread that shuts this capability down. */
  predicate Writes(s: Sys, e: Event, c: CapId) {
    && e.Shutdown? && e.shut == ShutWrite(true)
    && PcOf(s, e.t).Shut? && PcOf(s, e.t).c == c
    && c in s.rows && s.rows[c].user == PcOf(s, e.t).u
  }

  /** A revocation writes. */
  predicate Revokes(s: Sys, e: Event, c: CapId) {
    Writes(s, e, c) && PcOf(s, e.t).job.Revoke?
  }

  /** A retirement writes, at an instant at or after the expiry of a capability that is not revoked. */
  predicate Retires(s: Sys, e: Event, c: CapId) {
    && Writes(s, e, c) && PcOf(s, e.t).job.Expire?
    && !s.rows[c].revoked && s.rows[c].expires.Some? && s.rows[c].expires.value <= PcOf(s, e.t).job.at
  }

  /** What a step leaves of a row: a revocation marks it and takes its wrapped key, a retirement takes
      its wrapped key, and nothing else touches it. */
  ghost predicate RowAfter(s: Sys, e: Event, c: CapId, row': Row)
    requires c in s.rows
  {
    row' == if Revokes(s, e, c) then s.rows[c].(wrapped := false, revoked := true)
            else if Retires(s, e, c) then s.rows[c].(wrapped := false)
            else s.rows[c]
  }

  lemma WriteRow(s: Sys, t: Tid, ok: bool, c: CapId)
    requires c in s.rows
    ensures c in DoShutdown(s, t, ShutWrite(ok)).rows
    ensures RowAfter(s, Shutdown(t, ShutWrite(ok)), c, DoShutdown(s, t, ShutWrite(ok)).rows[c])
  {
  }

  lemma OtherShutdownRow(s: Sys, t: Tid, step: ShutStep)
    requires !step.ShutWrite?
    ensures DoShutdown(s, t, step).rows == s.rows
  {
    hide Admit, Admits, Block, Unblock, Lookup, BlockReady, FlushReady;
    match step
    case RevokeBegin(_, _, _) =>
    case ExpireBegin(_, _, _) =>
    case BlockTry =>
    case FlushTry =>
    case ShutDrop =>
  }

  lemma LockRows(s: Sys, t: Tid, step: LockStep)
    ensures DoLock(s, t, step).rows == s.rows
  {
    match step
    case LockBegin(_) =>
    case ClaimTry =>
    case DrainTry =>
    case ExclusiveOpen =>
    case ExclusiveClear =>
    case ExclusiveClose =>
    case ExclusiveDrop =>
  }

  lemma AuthorizeRows(s: Sys, t: Tid, step: AuthStep)
    ensures DoAuthorize(s, t, step).rows == s.rows
  {
    hide Admit, Admits, Basics.Expired;
    match step
    case AuthLease(_) =>
    case AuthLookup(_, _, _) =>
    case AuthRecheck(_) =>
    case AuthOpen =>
    case AuthActivity(_) =>
    case AuthFail =>
    case RequestEnd =>
  }

  /** From any state, every step leaves every capability row exactly as `RowAfter` says. */
  lemma RowsChangeExactly(s: Sys, e: Event, c: CapId)
    requires c in s.rows
    ensures c in Do(s, e).rows && RowAfter(s, e, c, Do(s, e).rows[c])
  {
    hide DoLock, DoShutdown, DoAuthorize, Admit, Release, ReleaseCloses, Pin, Unpin;
    match e
    case Shutdown(t, ShutWrite(ok)) => WriteRow(s, t, ok, c);
    case Shutdown(t, step) => OtherShutdownRow(s, t, step);
    case Lock(t, step) => LockRows(s, t, step);
    case Authorize(t, step) => AuthorizeRows(s, t, step);
    case Leave(_, _) =>
    case Acquire(_, _, _, _) =>
    case Drop(_, _) =>
    case PinSession(_, _) =>
    case UnpinSession(_, _, _) =>
    case OpenUnderLease(_) =>
    case InsertRow(_, _) =>
    case Notify =>
    case SpuriousWake(_) =>
    case Restart =>
  }

  /** A step takes the wrapped key of a capability if and only if it had one and the step is a
      revocation's write, or a retirement's write at or after the expiry. */
  lemma WrapLostExactly(s: Sys, e: Event, c: CapId)
    requires c in s.rows
    ensures c in Do(s, e).rows
    ensures s.rows[c].wrapped && !Do(s, e).rows[c].wrapped <==>
              s.rows[c].wrapped && (Revokes(s, e, c) || Retires(s, e, c))
    ensures Revokes(s, e, c) ==> !Do(s, e).rows[c].wrapped && Do(s, e).rows[c].revoked
    ensures !s.rows[c].revoked && Do(s, e).rows[c].revoked ==> Revokes(s, e, c)
  {
    hide Do, Writes;
    RowsChangeExactly(s, e, c);
  }

  /** Rows appear only by insertion, unrevoked and with a verifier that no row has. */
  lemma RowsAppearExactly(s: Sys, e: Event, c: CapId)
    requires c !in s.rows
    ensures c in Do(s, e).rows <==>
              e.InsertRow? && e.c == c && !e.row.revoked && forall d :: d in s.rows ==> s.rows[d].verifier != e.row.verifier
    ensures c in Do(s, e).rows ==> Do(s, e).rows[c] == e.row
  {
    hide DoLock, DoShutdown, DoAuthorize, Admit, Release, ReleaseCloses, Pin, Unpin;
    match e
    case Shutdown(t, step) => ShutdownKeys(s, t, step);
    case Lock(t, step) => LockRows(s, t, step);
    case Authorize(t, step) => AuthorizeRows(s, t, step);
    case Leave(_, _) =>
    case Acquire(_, _, _, _) =>
    case Drop(_, _) =>
    case PinSession(_, _) =>
    case UnpinSession(_, _, _) =>
    case OpenUnderLease(_) =>
    case InsertRow(_, _) =>
    case Notify =>
    case SpuriousWake(_) =>
    case Restart =>
  }

  lemma ShutdownKeys(s: Sys, t: Tid, step: ShutStep)
    ensures DoShutdown(s, t, step).rows.Keys == s.rows.Keys
  {
    if !step.ShutWrite? { OtherShutdownRow(s, t, step); }
  }

  // ----- retiring an expired capability -----

  function RetireAlone(s: Sys, t: Tid, u: UserId, c: CapId, now: Instant): Sys {
    var s1 := DoShutdown(s, t, ExpireBegin(u, c, now));
    var s2 := DoShutdown(s1, t, BlockTry);
    DoShutdown(s2, t, ShutWrite(true))
  }

  /** Undisturbed, the retirement of a capability of this user takes its wrapped key exactly when the
      capability can be blocked, is the user's, is not revoked and is at or past its expiry; otherwise no
      row changes. */
  lemma RetirementClearsExactly(s: Sys, t: Tid, u: UserId, c: CapId, now: Instant)
    requires PcOf(s, t).Idle? && Awake(s, t)
    ensures RetireAlone(s, t, u, c, now).rows ==
            if && BlockReady(Lookup(s.users, u), c)
               && c in s.rows && s.rows[c].user == u && !s.rows[c].revoked
               && s.rows[c].expires.Some? && s.rows[c].expires.value <= now
            then s.rows[c := s.rows[c].(wrapped := false)]
            else s.rows
  {
    hide Block, BlockReady, Lookup;
    var s1 := DoShutdown(s, t, ExpireBegin(u, c, now));
    assert PcOf(s1, t) == Blocking(u, c, Expire(now)) && s1.rows == s.rows && s1.users == s.users;
    var s2 := DoShutdown(s1, t, BlockTry);
    if BlockReady(Lookup(s.users, u), c) {
      assert PcOf(s2, t) == Shut(u, c, Expire(now)) && s2.rows == s.rows;
    } else {
      assert s2 == Sleep(s1, t);
    }
  }

  /** The retirement then waits exactly until no request for the capability is live. */
  lemma RetirementWaits(s: Sys, t: Tid, u: UserId, c: CapId, job: Job)
    requires Inv(s) && PcOf(s, t) == Flushing(u, c, job) && Awake(s, t)
    ensures PcOf(DoShutdown(s, t, FlushTry), t) == Unblocking(u, c, job) <==> HeldFor(s.leases, u, c) == {}
  {
    assert Counts(Lookup(s.users, u), s.leases, u);
    hide Sound, Guards, Holders, Owners, Quiet, Sleepers, Finality, UniqueVerifiers, Lookup;
  }

  /** In every reachable state a revoked capability has no wrapped key. */
  lemma {:induction false} RevokedIsUnwrapped(es: seq<Event>, c: CapId)
    ensures var s := Run(INIT, es); c in s.rows && s.rows[c].revoked ==> !s.rows[c].wrapped
    decreases |es|
  {
    hide Do, Writes;
    if es != [] {
      var before, e := es[..|es| - 1], es[|es| - 1];
      assert es == before + [e];
      RevokedIsUnwrapped(before, c);
      RunSnoc(INIT, before, e);
      var s := Run(INIT, before);
      if c in s.rows { RowsChangeExactly(s, e, c); } else { RowsAppearExactly(s, e, c); }
    }
  }

  // ----- closing by the last unpin -----

  /** An unpin asks for a close exactly when the user is known, holds no lease, and has no session pinned
      but perhaps this one; it takes exactly this session away. */
  lemma UnpinClosesExactly(s: Sys, u: UserId, sid: SessionId)
    requires Inv(s)
    ensures UnpinCloses(s.users, u, sid) <==>
              u in s.users && Held(s.leases, u) == {} && Lookup(s.users, u).sessions <= {sid}
    ensures Lookup(Unpin(s.users, u, sid), u).sessions == Lookup(s.users, u).sessions - {sid}
    ensures forall w: UserId :: w != u ==> Lookup(Unpin(s.users, u, sid), w) == Lookup(s.users, w)
  {
    assert Counts(Lookup(s.users, u), s.leases, u);
    hide Sound, Guards, Holders, Owners, Quiet, Sleepers, Finality, UniqueVerifiers;
    assert Lookup(s.users, u).sessions - {sid} == {} <==> Lookup(s.users, u).sessions <= {sid};
  }

  /** Unpinning closes the database exactly then, when the close itself works, and closes no other. */
  lemma LastUnpinCloses(s: Sys, u: UserId, sid: SessionId)
    requires Reachable(s)
    ensures Do(s, UnpinSession(u, sid, true)).open ==
            if u in s.users && Held(s.leases, u) == {} && Lookup(s.users, u).sessions <= {sid}
            then s.open - {u} else s.open
    ensures Do(s, UnpinSession(u, sid, false)).open == s.open
  {
    ReachableInv(s);
    UnpinClosesExactly(s, u, sid);
    hide Inv, UnpinCloses, Unpin;
  }

  /** Dropping a lease closes the database of its user exactly when no other lease of that user is live
      and nothing is pinned, and closes no other. */
  lemma DropClosesExactly(s: Sys, l: LeaseId)
    requires Reachable(s) && l in s.leases
    ensures DoDrop(s, l, true).open ==
            if Held(s.leases, s.leases[l].user) == {l} && Lookup(s.users, s.leases[l].user).sessions == {}
            then s.open - {s.leases[l].user} else s.open
    ensures DoDrop(s, l, false).open == s.open
  {
    ReachableInv(s);
    var u := s.leases[l].user;
    ReleaseSound(s.users, s.leases, l);
    assert Counts(Lookup(s.users, u), s.leases, u);
    LastHeld(s.leases, l);
    hide Inv, Sound, Held;
  }

  lemma LastHeld(leases: Leases, l: LeaseId)
    requires l in leases
    ensures |Held(leases, leases[l].user)| == 1 <==> Held(leases, leases[l].user) == {l}
    ensures |Held(leases, leases[l].user)| >= 1
  {
    var held := Held(leases, leases[l].user);
    assert l in held;
    assert held == (held - {l}) + {l};
    if |held| == 1 { assert |held - {l}| == 0; }
  }

  // ----- the flags are the guards -----

  /** No thread has claimed this user. */
  ghost predicate Unclaimed(s: Sys, u: UserId) {
    forall t :: t in s.pcs ==> PcClaim(s.pcs[t]) != Some(u)
  }

  /** No thread is shutting this capability down. */
  ghost predicate Unshut(s: Sys, u: UserId, c: CapId) {
    forall t :: t in s.pcs ==> PcShut(s.pcs[t]) != Some((u, c))
  }

  /** In every reachable state, what the critical sections test is what threads and requests really hold:
      a user can be claimed exactly when no thread has claimed it or shuts one of its capabilities down, a
      capability can be blocked exactly when no thread has claimed the user or shuts it down, the two
      drains are over exactly when no such lease is live, and a request is admitted exactly when no
      thread has claimed the user or shuts its capability down. */
  lemma TestsAreExact(s: Sys, u: UserId, c: CapId)
    requires Reachable(s)
    ensures ClaimReady(Lookup(s.users, u)) <==> Unclaimed(s, u) && forall d: CapId :: Unshut(s, u, d)
    ensures BlockReady(Lookup(s.users, u), c) <==> Unclaimed(s, u) && Unshut(s, u, c)
    ensures DrainReady(Lookup(s.users, u)) <==> Held(s.leases, u) == {}
    ensures FlushReady(Lookup(s.users, u), c) <==> HeldFor(s.leases, u, c) == {}
    ensures Admits(s.users, u, None) <==> Unclaimed(s, u)
    ensures Admits(s.users, u, Some(c)) <==> Unclaimed(s, u) && Unshut(s, u, c)
  {
    ReachableInv(s);
    assert Counts(Lookup(s.users, u), s.leases, u);
    hide Sound, Quiet, Sleepers, Finality, UniqueVerifiers, Owners;
    FlagsAreGuards(s, u);
    hide Guards, Holders;
    if Lookup(s.users, u).blocked != {} {
      var d :| d in Lookup(s.users, u).blocked;
      assert !Unshut(s, u, d);
    }
  }

  lemma FlagsAreGuards(s: Sys, u: UserId)
    requires Guards(s.users, s.claims, s.shuts) && Holders(s.pcs, s.claims, s.shuts)
    ensures Lookup(s.users, u).exclusive <==> !Unclaimed(s, u)
    ensures forall d: CapId :: d in Lookup(s.users, u).blocked <==> !Unshut(s, u, d)
  {
    forall d: CapId ensures d in Lookup(s.users, u).blocked <==> !Unshut(s, u, d) {
      if !Unshut(s, u, d) {
        var t :| t in s.pcs && PcShut(s.pcs[t]) == Some((u, d));
        assert (u, d) in s.shuts;
      }
    }
  }

  // ----- pinned sessions -----

  /** The sessions pinned for a user after a step. */
  function SessionsAfter(s: Sys, e: Event, u: UserId): set<SessionId> {
    var was := Lookup(s.users, u).sessions;
    match e
    case PinSession(w, sid) => if w == u then was + {sid} else was
    case UnpinSession(w, sid, _) => if w == u then was - {sid} else was
    case Lock(t, ExclusiveClear) => if PcOf(s, t) == Exclusive(u) then {} else was
    case Restart => {}
    case _ => was
  }

  /** Pinned sessions change only by pinning and unpinning exactly that session, by the exclusive holder
      that clears them all, and by a restart. */
  lemma SessionsChangeExactly(s: Sys, e: Event, u: UserId)
    ensures Lookup(Do(s, e).users, u).sessions == SessionsAfter(s, e, u)
  {
    hide DoLock, DoShutdown, DoAuthorize, Admit, Release, Unpin;
    match e
    case Lock(t, step) => LockSessions(s, t, step, u);
    case Shutdown(t, step) => ShutdownSessions(s, t, step, u);
    case Authorize(t, step) => AuthorizeSessions(s, t, step, u);
    case UnpinSession(w, sid, _) => UnpinSessions(s.users, w, sid, u);
    case Drop(l, _) => if l in s.leases { ReleaseSessions(s.users, s.leases[l].user, s.leases[l].cap, u); }
    case Leave(t, _) =>
      if PcOf(s, t).Leaving? && PcOf(s, t).l in s.leases {
        ReleaseSessions(s.users, s.leases[PcOf(s, t).l].user, s.leases[PcOf(s, t).l].cap, u);
      }
    case Acquire(_, w, cap, _) => AdmitSessions(s.users, w, cap, u);
    case PinSession(_, _) =>
    case OpenUnderLease(_) =>
    case InsertRow(_, _) =>
    case Notify =>
    case SpuriousWake(_) =>
    case Restart =>
  }

  lemma AdmitSessions(users: Users, w: UserId, cap: Option<CapId>, u: UserId)
    ensures Lookup(Admit(users, w, cap), u).sessions == Lookup(users, u).sessions
  {
  }

  lemma ReleaseSessions(users: Users, w: UserId, cap: Option<CapId>, u: UserId)
    ensures Lookup(Release(users, w, cap), u).sessions == Lookup(users, u).sessions
  {
  }

  lemma UnpinSessions(users: Users, w: UserId, sid: SessionId, u: UserId)
    ensures Lookup(Unpin(users, w, sid), u).sessions == if w == u then Lookup(users, u).sessions - {sid} else Lookup(users, u).sessions
  {
  }

  lemma FlagSessions(users: Users, w: UserId, c: CapId, u: UserId)
    ensures Lookup(Claim(users, w), u).sessions == Lookup(users, u).sessions
    ensures Lookup(Unclaim(users, w), u).sessions == Lookup(users, u).sessions
    ensures Lookup(Block(users, w, c), u).sessions == Lookup(users, u).sessions
    ensures Lookup(Unblock(users, w, c), u).sessions == Lookup(users, u).sessions
  {
  }

  lemma LockSessions(s: Sys, t: Tid, step: LockStep, u: UserId)
    ensures Lookup(DoLock(s, t, step).users, u).sessions == SessionsAfter(s, Lock(t, step), u)
  {
    hide Claim, Unclaim, ClaimReady, DrainReady;
    forall w: UserId { FlagSessions(s.users, w, 0, u); }
    match step
    case LockBegin(_) =>
    case ClaimTry =>
    case DrainTry =>
    case ExclusiveOpen =>
    case ExclusiveClear =>
    case ExclusiveClose =>
    case ExclusiveDrop =>
  }

  lemma ShutdownSessions(s: Sys, t: Tid, step: ShutStep, u: UserId)
    ensures Lookup(DoShutdown(s, t, step).users, u).sessions == Lookup(s.users, u).sessions
  {
    hide Block, Unblock, Admit, Admits, Lookup, BlockReady, FlushReady;
    var pc := PcOf(s, t);
    match step
    case RevokeBegin(w, _, _) => AdmitSessions(s.users, w, None, u);
    case ExpireBegin(_, _, _) =>
    case BlockTry => if pc.Blocking? { FlagSessions(s.users, pc.u, pc.c, u); }
    case ShutWrite(_) =>
    case FlushTry =>
    case ShutDrop => if pc.Unblocking? { FlagSessions(s.users, pc.u, pc.c, u); }
  }

  lemma AuthorizeSessions(s: Sys, t: Tid, step: AuthStep, u: UserId)
    ensures Lookup(DoAuthorize(s, t, step).users, u).sessions == Lookup(s.users, u).sessions
  {
    hide Admit, Admits, Lookup, Basics.Expired;
    var pc := PcOf(s, t);
    match step
    case AuthLookup(_, _, _) =>
    case AuthLease(_) => if pc.Looked? { AdmitSessions(s.users, pc.u, Some(pc.c), u); }
    case AuthRecheck(_) =>
    case AuthOpen =>
    case AuthActivity(_) =>
    case AuthFail =>
    case RequestEnd =>
  }
}
