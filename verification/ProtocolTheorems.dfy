/** What the lifecycle protocol guarantees in every reachable state and over every run. */
module ProtocolTheorems {
  import opened Basics
  import opened Registry
  import opened Protocol
  import opened ProtocolInvariant

  ghost predicate Reachable(s: Sys) {
    exists es: seq<Event> :: Run(INIT, es) == s
  }

  lemma ReachableInv(s: Sys)
    requires Reachable(s)
    ensures Inv(s)
  {
    var es: seq<Event> :| Run(INIT, es) == s;
    InitInv();
    RunKeepsInv(INIT, es);
  }

  // ----- exact accounting -----

  /** The counters are the live leases, a capability key exists only while its count is positive, no
      idle entry is kept, and dropping any live lease finds its entry and positive counters. */
  lemma ExactAccounting(s: Sys, u: UserId)
    requires Reachable(s)
    ensures Lookup(s.users, u).active == |Held(s.leases, u)|
    ensures forall c: CapId :: Lookup(s.users, u).CapCount(c) == |HeldFor(s.leases, u, c)|
    ensures u in s.users ==> !s.users[u].IsIdle() && forall c :: c in s.users[u].byCap ==> s.users[u].byCap[c] > 0
    ensures forall l :: l in s.leases && s.leases[l].user == u ==>
              u in s.users && s.users[u].active > 0
              && (s.leases[l].cap.Some? ==> s.users[u].CapCount(s.leases[l].cap.value) > 0)
  {
    ReachableInv(s);
    assert Counts(Lookup(s.users, u), s.leases, u);
    forall l | l in s.leases && s.leases[l].user == u
      ensures u in s.users && s.users[u].active > 0
      ensures s.leases[l].cap.Some? ==> s.users[u].CapCount(s.leases[l].cap.value) > 0
    {
      ReleaseSound(s.users, s.leases, l);
    }
  }

  // ----- exclusivity -----

  lemma Exclusivity(s: Sys, t: Tid, u: UserId)
    requires Reachable(s) && PcOf(s, t) == Exclusive(u)
    ensures forall l :: l in s.leases ==> s.leases[l].user != u
    ensures forall x :: x in s.pcs && PcShut(s.pcs[x]).Some? ==> PcShut(s.pcs[x]).value.0 != u
    ensures forall x :: x in s.pcs && PcClaim(s.pcs[x]) == Some(u) ==> x == t
    ensures forall cap: Option<CapId> :: !Admits(s.users, u, cap)
  {
    ReachableInv(s);
    ExclusiveFlag(s, t);
    assert Counts(Lookup(s.users, u), s.leases, u);
    forall l | l in s.leases ensures s.leases[l].user != u {
      assert l in Held(s.leases, s.leases[l].user);
    }
  }

  // ----- revocation -----

  lemma RevokedGrows(s: Sys, e: Event)
    ensures s.revoked <= Do(s, e).revoked
  {
    hide Admit, Release, Claim, Unclaim, Block, Unblock, ClearSessions, Pin, Unpin, Lookup, Admits;
    hide ReleaseCloses, UnpinCloses, ClaimReady, DrainReady, BlockReady, FlushReady, Basics.Expired;
    match e
    case Lock(t, step) => RevokedLock(s, t, step);
    case Authorize(t, step) => RevokedAuthorize(s, t, step);
    case Shutdown(t, step) => RevokedShutdown(s, t, step);
    case _ =>
  }

  lemma RevokedLock(s: Sys, t: Tid, step: LockStep)
    ensures DoLock(s, t, step).revoked == s.revoked
  {
    match step
    case LockBegin(_) =>
    case ClaimTry =>
    case DrainTry =>
    case ExclusiveOpen =>
    case ExclusiveClear =>
    case ExclusiveClose =>
    case ExclusiveDrop =>
  }

  lemma RevokedAuthorize(s: Sys, t: Tid, step: AuthStep)
    ensures DoAuthorize(s, t, step).revoked == s.revoked
  {
    match step
    case AuthLookup(_, _, _) =>
    case AuthLease(_) =>
    case AuthRecheck(_) =>
    case AuthOpen =>
    case AuthActivity(_) =>
    case AuthFail =>
    case RequestEnd =>
  }

  lemma RevokedShutdown(s: Sys, t: Tid, step: ShutStep)
    ensures s.revoked <= DoShutdown(s, t, step).revoked
    ensures !step.FlushTry? ==> DoShutdown(s, t, step).revoked == s.revoked
  {
    match step
    case RevokeBegin(_, _, _) =>
    case ExpireBegin(_, _, _) =>
    case BlockTry =>
    case ShutWrite(_) =>
    case FlushTry =>
    case ShutDrop =>
  }

  lemma {:induction false} RevokedStays(s: Sys, es: seq<Event>)
    ensures s.revoked <= Run(s, es).revoked
    decreases |es|
  {
    if es != [] {
      RevokedGrows(s, es[0]);
      RevokedStays(Do(s, es[0]), es[1..]);
    }
  }

  /** Once a revocation has been answered, then in that state and after every continuation no request
      for the capability is authorised, or even past its recheck. */
  lemma RevocationIsFinal(s: Sys, es: seq<Event>, c: CapId, t: Tid)
    requires Reachable(s) && c in s.revoked
    ensures PastCheck(PcOf(Run(s, es), t)) ==> PcOf(Run(s, es), t).c != c
    ensures PcOf(s, t).Authorized? ==> PcOf(s, t).c != c
  {
    ReachableInv(s);
    RunKeepsInv(s, es);
    RevokedStays(s, es);
    FinalAtCheck(s, t);
    FinalAtCheck(Run(s, es), t);
  }

  /** The answer is recorded by the drain of a revocation that found its row, and by nothing else. */
  lemma RevokedOnlyByDrain(s: Sys, e: Event, c: CapId)
    requires Reachable(s) && c !in s.revoked
    ensures c in Do(s, e).revoked ==>
              && e.Shutdown? && e.shut.FlushTry? && PcOf(s, e.t).Flushing? && PcOf(s, e.t).job.Revoke? && PcOf(s, e.t).c == c
              && c in s.rows && s.rows[c].revoked && s.rows[c].user == PcOf(s, e.t).u
              && HeldFor(s.leases, PcOf(s, e.t).u, c) == {}
  {
    hide Do;
    RevokedOnlyByFlush(s, e, c);
    ReachableInv(s);
    if c in Do(s, e).revoked {
      FinalAtCheck(s, e.t);
      assert Counts(Lookup(s.users, PcOf(s, e.t).u), s.leases, PcOf(s, e.t).u);
    }
  }

  lemma RevokedOnlyByFlush(s: Sys, e: Event, c: CapId)
    requires c !in s.revoked
    ensures c in Do(s, e).revoked ==>
              && e.Shutdown? && e.shut.FlushTry? && PcOf(s, e.t).Flushing? && PcOf(s, e.t).job.Revoke? && PcOf(s, e.t).c == c
              && FlushReady(Lookup(s.users, PcOf(s, e.t).u), c)
  {
    match e
    case Acquire(_, _, _, _) =>
    case Drop(_, _) =>
    case PinSession(_, _) =>
    case UnpinSession(_, _, _) =>
    case OpenUnderLease(_) =>
    case InsertRow(_, _) =>
    case Notify =>
    case SpuriousWake(_) =>
    case Restart =>
    case Leave(_, _) =>
    case Lock(t, step) => RevokedLock(s, t, step);
    case Authorize(t, step) => RevokedAuthorize(s, t, step);
    case Shutdown(t, step) => RevokedShutdown(s, t, step);
  }

  // ----- closing user databases -----

  /** A database is closed only when its user has no live lease, and by the registry only when no
      browser session is pinned either. */
  lemma ClosesOnlyUnused(s: Sys, e: Event, u: UserId)
    requires Reachable(s) && u in s.open
    ensures u !in Do(s, e).open ==>
              Held(Do(s, e).leases, u) == {}
              && (Lookup(Do(s, e).users, u).sessions == {} || (e.Lock? && e.lock.ExclusiveClose?))
  {
    hide Inv, Do;
    ReachableInv(s);
    if u !in Do(s, e).open { StepClosesOnlyUnused(s, e, u); }
  }

  lemma StepClosesOnlyUnused(s: Sys, e: Event, u: UserId)
    requires Inv(s) && u in s.open && u !in Do(s, e).open
    ensures Held(Do(s, e).leases, u) == {}
    ensures Lookup(Do(s, e).users, u).sessions == {} || (e.Lock? && e.lock.ExclusiveClose?)
  {
    hide Guards, Holders, Owners, Quiet, Sleepers, Finality, UniqueVerifiers, Do;
    StepKeepsInv(s, e);
    var s' := Do(s, e);
    assert Counts(Lookup(s'.users, u), s'.leases, u);
    if e.Lock? && e.lock.ExclusiveClose? {
      ExclusiveCloses(s, e.t, u);
    } else {
      CloseEvents(s, e, u);
    }
  }

  lemma ExclusiveCloses(s: Sys, t: Tid, u: UserId)
    requires Inv(s) && u in s.open && u !in Do(s, Lock(t, ExclusiveClose)).open
    ensures Lookup(Do(s, Lock(t, ExclusiveClose)).users, u).active == 0
  {
    hide Sound, Owners, Sleepers, Finality, UniqueVerifiers;
    ExclusiveFlag(s, t);
  }

  lemma CloseEvents(s: Sys, e: Event, u: UserId)
    requires u in s.open && !(e.Lock? && e.lock.ExclusiveClose?)
    ensures u !in Do(s, e).open ==>
              Lookup(Do(s, e).users, u).active == 0 && Lookup(Do(s, e).users, u).sessions == {}
  {
    hide Admit, Settle, DoLock, DoShutdown, DoAuthorize, Pin;
    match e
    case Drop(l, _) =>
      if l in s.leases && u in s.users { Settled(s.users, u, Released(s.users[u], s.leases[l].cap)); }
    case Leave(t, _) =>
      if PcOf(s, t).Leaving? && PcOf(s, t).l in s.leases && u in s.users {
        Settled(s.users, u, Released(s.users[u], s.leases[PcOf(s, t).l].cap));
      }
    case UnpinSession(_, sid, _) => if u in s.users { Settled(s.users, u, Unpinned(s.users[u], sid)); }
    case Lock(t, step) => LockOpens(s, t, step, u);
    case Shutdown(t, step) => ShutdownOpens(s, t, step);
    case Authorize(t, step) => AuthorizeOpens(s, t, step);
    case Acquire(_, _, _, _) =>
    case PinSession(_, _) =>
    case OpenUnderLease(_) =>
    case InsertRow(_, _) =>
    case Notify =>
    case SpuriousWake(_) =>
    case Restart =>
  }

  lemma LockOpens(s: Sys, t: Tid, step: LockStep, u: UserId)
    requires u in s.open && !step.ExclusiveClose?
    ensures u in DoLock(s, t, step).open
  {
    match step
    case LockBegin(_) =>
    case ClaimTry =>
    case DrainTry =>
    case ExclusiveOpen =>
    case ExclusiveClear =>
    case ExclusiveClose =>
    case ExclusiveDrop =>
  }

  lemma ShutdownOpens(s: Sys, t: Tid, step: ShutStep)
    ensures DoShutdown(s, t, step).open == s.open
  {
    match step
    case RevokeBegin(_, _, _) =>
    case ExpireBegin(_, _, _) =>
    case BlockTry =>
    case ShutWrite(_) =>
    case FlushTry =>
    case ShutDrop =>
  }

  lemma AuthorizeOpens(s: Sys, t: Tid, step: AuthStep)
    ensures s.open <= DoAuthorize(s, t, step).open
  {
    match step
    case AuthLookup(_, _, _) =>
    case AuthLease(_) =>
    case AuthRecheck(_) =>
    case AuthOpen =>
    case AuthActivity(_) =>
    case AuthFail =>
    case RequestEnd =>
  }

  lemma Settled(users: Users, u: UserId, st: UserState)
    ensures var st' := Lookup(Settle(users, u, st), u);
            st'.active == st.active && st'.sessions == st.sessions
  {
  }

  /** A lease that stays live over a whole run. */
  ghost predicate LiveThroughout(s: Sys, es: seq<Event>, l: LeaseId, lease: Lease)
    decreases |es|
  {
    l in s.leases && s.leases[l] == lease && (es != [] ==> LiveThroughout(Do(s, es[0]), es[1..], l, lease))
  }

  /** A database that is open under a lease is open until that lease drops. */
  lemma {:induction false} OpenUntilLeaseDrops(s: Sys, es: seq<Event>, l: LeaseId, lease: Lease)
    requires Reachable(s) && LiveThroughout(s, es, l, lease) && lease.user in s.open
    ensures lease.user in Run(s, es).open
    decreases |es|
  {
    if es != [] {
      var s' := Do(s, es[0]);
      ReachableStep(s, es[0]);
      assert l in Held(s'.leases, lease.user);
      if lease.user !in s'.open {
        ClosesOnlyUnused(s, es[0], lease.user);
      }
      OpenUntilLeaseDrops(s', es[1..], l, lease);
    }
  }

  lemma {:induction false} RunSnoc(s: Sys, es: seq<Event>, e: Event)
    ensures Run(s, es + [e]) == Do(Run(s, es), e)
    decreases |es|
  {
    if es == [] {
      assert [] + [e] == [e];
      assert Run(Do(s, e), [e][1..]) == Do(s, e);
    } else {
      assert (es + [e])[1..] == es[1..] + [e];
      RunSnoc(Do(s, es[0]), es[1..], e);
    }
  }

  lemma ReachableStep(s: Sys, e: Event)
    requires Reachable(s)
    ensures Reachable(Do(s, e))
  {
    var es: seq<Event> :| Run(INIT, es) == s;
    RunSnoc(INIT, es, e);
    assert Run(INIT, es + [e]) == Do(s, e);
  }

  /** Dropping the last lease of a user with nothing pinned closes the database unless the close
      itself fails. */
  lemma LastDropCloses(s: Sys, l: LeaseId)
    requires Reachable(s) && l in s.leases && Held(s.leases, s.leases[l].user) == {l}
    requires Lookup(s.users, s.leases[l].user).sessions == {}
    ensures s.leases[l].user !in DoDrop(s, l, true).open
  {
    ReachableInv(s);
    ReleaseSound(s.users, s.leases, l);
    assert Counts(Lookup(s.users, s.leases[l].user), s.leases, s.leases[l].user);
  }

  // ----- waiting -----

  /** A sleeping thread's wait predicate is false unless a notification is still to be delivered. */
  lemma NoLostWakeups(s: Sys, t: Tid)
    requires Reachable(s) && t in s.asleep
    ensures WaitsOn(PcOf(s, t)).Some?
    ensures Ready(s.users, PcOf(s, t)) ==> s.owed > 0
  {
    ReachableInv(s);
  }

  /** Admission, by whatever handler, pinning and clearing sessions. */
  predicate Silent(e: Event) {
    || e.Acquire? || e.PinSession?
    || (e.Lock? && e.lock.ExclusiveClear?)
    || (e.Authorize? && e.auth.AuthLease?)
    || (e.Shutdown? && e.shut.RevokeBegin?)
  }

  /** The silent steps do not notify, and never enable a waiter. */
  lemma SilentStepsEnableNobody(s: Sys, e: Event, pc: Pc)
    requires WaitsOn(pc).Some? && Silent(e)
    ensures Ready(Do(s, e).users, pc) ==> Ready(s.users, pc)
    ensures Do(s, e).asleep == s.asleep && Do(s, e).owed == s.owed
  {
    hide Ready, DoLock, DoShutdown, DoAuthorize, Admit, Admits;
    match e
    case Acquire(_, u, cap, _) => AdmissionEnablesNobody(s, u, cap, pc);
    case PinSession(u, sid) =>
      SessionsEnableNobody(s.users, u, Lookup(s.users, u).(sessions := Lookup(s.users, u).sessions + {sid}), pc);
    case Lock(x, _) => ClearingIsSilent(s, x, pc);
    case Authorize(x, AuthLease(l)) => LeasingIsSilent(s, x, l, pc);
    case Shutdown(x, RevokeBegin(u, c, l)) => RevokingIsSilent(s, x, u, c, l, pc);
  }

  lemma ClearingIsSilent(s: Sys, t: Tid, pc: Pc)
    requires WaitsOn(pc).Some?
    ensures var s' := DoLock(s, t, ExclusiveClear);
            (Ready(s'.users, pc) ==> Ready(s.users, pc)) && s'.asleep == s.asleep && s'.owed == s.owed
  {
    hide Ready;
    if PcOf(s, t).Exclusive? && PcOf(s, t).u in s.users {
      SessionsEnableNobody(s.users, PcOf(s, t).u, s.users[PcOf(s, t).u].(sessions := {}), pc);
    }
  }

  lemma LeasingIsSilent(s: Sys, t: Tid, l: LeaseId, pc: Pc)
    requires WaitsOn(pc).Some?
    ensures var s' := DoAuthorize(s, t, AuthLease(l));
            (Ready(s'.users, pc) ==> Ready(s.users, pc)) && s'.asleep == s.asleep && s'.owed == s.owed
  {
    hide Ready, Admit, Admits;
    if PcOf(s, t).Looked? { AdmissionEnablesNobody(s, PcOf(s, t).u, Some(PcOf(s, t).c), pc); }
  }

  lemma RevokingIsSilent(s: Sys, t: Tid, u: UserId, c: CapId, l: LeaseId, pc: Pc)
    requires WaitsOn(pc).Some?
    ensures var s' := DoShutdown(s, t, RevokeBegin(u, c, l));
            (Ready(s'.users, pc) ==> Ready(s.users, pc)) && s'.asleep == s.asleep && s'.owed == s.owed
  {
    hide Ready, Admit, Admits;
    AdmissionEnablesNobody(s, u, None, pc);
  }

  lemma SessionsEnableNobody(users: Users, u: UserId, st: UserState, pc: Pc)
    requires WaitsOn(pc).Some? && st == Lookup(users, u).(sessions := st.sessions)
    ensures Ready(users[u := st], pc) ==> Ready(users, pc)
  {
    hide Ready;
    if Ready(users[u := st], pc) { TighterEnablesNobody(users, u, st, pc); }
  }

  lemma AdmissionEnablesNobody(s: Sys, u: UserId, cap: Option<CapId>, pc: Pc)
    requires WaitsOn(pc).Some?
    ensures Ready(Admit(s.users, u, cap), pc) ==> Ready(s.users, pc)
  {
    hide Ready;
    if Ready(Admit(s.users, u, cap), pc) {
      TighterEnablesNobody(s.users, u, Admitted(Lookup(s.users, u), cap), pc);
    }
  }

  /** The step itself notifies: at once, or by a call that it still owes after releasing the lock. */
  predicate Notifies(s: Sys, s': Sys) { s'.asleep == {} || s'.owed == s.owed + 1 }

  /** Some wait predicate goes from false to true. */
  predicate Enables(s: Sys, s': Sys, pc: Pc) {
    WaitsOn(pc).Some? && !Ready(s.users, pc) && Ready(s'.users, pc)
  }

  lemma LockNotifies(s: Sys, t: Tid, step: LockStep, pc: Pc)
    requires Enables(s, DoLock(s, t, step), pc)
    ensures Notifies(s, DoLock(s, t, step))
  {
    match step
    case LockBegin(_) =>
    case ClaimTry =>
      if PcOf(s, t).Claiming? { ClaimEnablesNobody(s.users, PcOf(s, t).u, pc); }
    case DrainTry =>
    case ExclusiveOpen =>
    case ExclusiveClear => SilentStepsEnableNobody(s, Lock(t, step), pc);
    case ExclusiveClose =>
    case ExclusiveDrop =>
  }

  lemma ClaimEnablesNobody(users: Users, u: UserId, pc: Pc)
    requires WaitsOn(pc).Some? && Ready(Claim(users, u), pc)
    ensures Ready(users, pc)
  {
  }

  lemma ShutdownNotifies(s: Sys, t: Tid, step: ShutStep, pc: Pc)
    requires Enables(s, DoShutdown(s, t, step), pc)
    ensures Notifies(s, DoShutdown(s, t, step))
  {
    hide Ready, Admit;
    match step
    case RevokeBegin(_, _, _) => SilentStepsEnableNobody(s, Shutdown(t, step), pc);
    case ExpireBegin(_, _, _) =>
    case BlockTry =>
    case ShutWrite(_) =>
    case FlushTry =>
    case ShutDrop =>
  }

  lemma AuthorizeEnablesNobody(s: Sys, t: Tid, step: AuthStep, pc: Pc)
    requires WaitsOn(pc).Some?
    ensures Ready(DoAuthorize(s, t, step).users, pc) ==> Ready(s.users, pc)
  {
    hide Ready, Admit, Admits, Basics.Expired;
    match step
    case AuthLookup(_, _, _) =>
    case AuthLease(l) => LeasingIsSilent(s, t, l, pc);
    case AuthRecheck(_) =>
    case AuthOpen =>
    case AuthActivity(_) =>
    case AuthFail =>
    case RequestEnd =>
  }

  lemma UnpinEnablesNobody(users: Users, u: UserId, sid: SessionId, pc: Pc)
    requires WaitsOn(pc).Some? && Ready(Unpin(users, u, sid), pc)
    ensures Ready(users, pc)
  {
    if u in users { TighterEnablesNobody(users, u, Unpinned(users[u], sid), pc); }
  }

  /** Every step that turns one of the four wait predicates from false to true notifies, whatever the
      state; notifications owed by earlier steps do not count. */
  lemma EnablingStepsNotify(s: Sys, e: Event, pc: Pc)
    requires WaitsOn(pc).Some? && !Ready(s.users, pc)
    ensures Ready(Do(s, e).users, pc) ==> Notifies(s, Do(s, e))
  {
    hide Ready, Release, ReleaseCloses, Admit, Pin, Unpin, UnpinCloses, DoLock, DoShutdown, DoAuthorize;
    if Ready(Do(s, e).users, pc) {
      match e
      case Lock(t, step) => LockNotifies(s, t, step, pc);
      case Shutdown(t, step) => ShutdownNotifies(s, t, step, pc);
      case Authorize(t, step) => AuthorizeEnablesNobody(s, t, step, pc);
      case Acquire(_, _, _, _) => SilentStepsEnableNobody(s, e, pc);
      case PinSession(_, _) => SilentStepsEnableNobody(s, e, pc);
      case UnpinSession(u, sid, _) => UnpinEnablesNobody(s.users, u, sid, pc);
      case Drop(l, _) => DropNotifies(s, l, pc);
      case Leave(t, _) => if PcOf(s, t).Leaving? && PcOf(s, t).l in s.leases { DropNotifies(s, PcOf(s, t).l, pc); }
      case OpenUnderLease(_) =>
      case InsertRow(_, _) =>
      case Notify =>
      case SpuriousWake(_) =>
      case Restart =>
    }
  }

  lemma DropNotifies(s: Sys, l: LeaseId, pc: Pc)
    requires l in s.leases && !Ready(s.users, pc)
    ensures Ready(Release(s.users, s.leases[l].user, s.leases[l].cap), pc) ==> s.leases[l].user in s.users
  {
  }

  /** Nothing keeps user `u` busy but threads that wait on `u` themselves. */
  ghost predicate OnlyWaiters(s: Sys, u: UserId) {
    && (forall l :: l in s.leases && s.leases[l].user == u ==>
         s.leases[l].holder.Thread? && WaitsOn(PcOf(s, s.leases[l].holder.t)) == Some(u))
    && (forall t :: t in s.pcs ==> s.pcs[t] != Exclusive(u))
    && (forall t :: t in s.pcs && (s.pcs[t].Shut? || s.pcs[t].Unblocking?) ==> s.pcs[t].u != u)
  }

  /** Some thread in a wait loop of `u` would leave it now. */
  ghost predicate CanProceed(s: Sys, u: UserId) {
    exists t :: t in s.pcs && WaitsOn(s.pcs[t]) == Some(u) && Ready(s.users, s.pcs[t])
  }

  /** A revoker waits to block a capability of `u`, holding its own lease on `u`. */
  ghost predicate RevokerBlocked(s: Sys, u: UserId) {
    exists t :: t in s.pcs && s.pcs[t].Blocking? && s.pcs[t].u == u && s.pcs[t].job.Revoke?
  }

  /** When only waiting threads keep a user busy, some waiter can proceed if and only if it is not the
      case that the exclusive flag is taken while a revoker waits to block a capability. */
  lemma ProgressExactly(s: Sys, u: UserId, w: Tid)
    requires Reachable(s) && OnlyWaiters(s, u) && WaitsOn(PcOf(s, w)) == Some(u)
    ensures CanProceed(s, u) <==> !(u in s.claims && RevokerBlocked(s, u))
  {
    ReachableInv(s);
    if u in s.claims {
      ClaimedProgress(s, u);
    } else {
      UnclaimedProgress(s, u, w);
    }
  }

  lemma ClaimedProgress(s: Sys, u: UserId)
    requires Inv(s) && OnlyWaiters(s, u) && u in s.claims
    ensures CanProceed(s, u) <==> !RevokerBlocked(s, u)
  {
    hide Quiet, Sleepers, Finality, UniqueVerifiers;
    var d := s.claims[u];
    assert s.pcs[d] == Draining(u);
    assert Counts(Lookup(s.users, u), s.leases, u);
    if RevokerBlocked(s, u) {
      var t :| t in s.pcs && s.pcs[t].Blocking? && s.pcs[t].u == u && s.pcs[t].job.Revoke?;
      OwnLease(s, t);
      assert s.pcs[t].job.session in Held(s.leases, u);
      forall x | x in s.pcs && WaitsOn(s.pcs[x]) == Some(u) ensures !Ready(s.users, s.pcs[x]) {
        assert PcShut(s.pcs[x]) != Some((u, PcShutCap(s.pcs[x])));
      }
    } else {
      forall l | l in s.leases ensures s.leases[l].user != u {
        if s.leases[l].user == u { LeaseOfWaiter(s, u, l); }
      }
      assert Held(s.leases, u) == {};
      assert Ready(s.users, s.pcs[d]);
    }
  }

  /** The capability of the shutdown guard a thread holds, if it holds one. */
  function PcShutCap(pc: Pc): CapId {
    if PcShut(pc).Some? then PcShut(pc).value.1 else 0
  }

  /** Under the exclusive flag a waiter's lease can only be a blocked revoker's. */
  lemma LeaseOfWaiter(s: Sys, u: UserId, l: LeaseId)
    requires Guards(s.users, s.claims, s.shuts) && Holders(s.pcs, s.claims, s.shuts) && Owners(s.pcs, s.leases)
    requires OnlyWaiters(s, u) && u in s.claims && l in s.leases && s.leases[l].user == u
    ensures RevokerBlocked(s, u)
  {
    var t := s.leases[l].holder.t;
    assert PcLease(s.pcs[t]).Some?;
    assert s.pcs[t].Blocking? by { assert PcShut(s.pcs[t]) != Some((u, PcShutCap(s.pcs[t]))); }
  }

  lemma UnclaimedProgress(s: Sys, u: UserId, w: Tid)
    requires Inv(s) && OnlyWaiters(s, u) && WaitsOn(PcOf(s, w)) == Some(u) && u !in s.claims
    ensures CanProceed(s, u)
  {
    hide Sound, Guards, Holders, Owners, Quiet, Sleepers, Finality, UniqueVerifiers;
    if k :| k in s.shuts && k.0 == u {
      HolderProceeds(s, k);
    } else {
      WaiterProceeds(s, u, w);
    }
  }

  /** A shutdown holder inside `wait_for_requests` finds its capability drained. */
  lemma HolderProceeds(s: Sys, k: (UserId, CapId))
    requires Sound(s.users, s.leases) && Holders(s.pcs, s.claims, s.shuts) && Owners(s.pcs, s.leases)
    requires OnlyWaiters(s, k.0) && k in s.shuts
    ensures CanProceed(s, k.0)
  {
    var t, u, c := s.shuts[k], k.0, k.1;
    assert s.pcs[t].Flushing? && s.pcs[t].u == u && s.pcs[t].c == c;
    assert Counts(Lookup(s.users, u), s.leases, u);
    forall l ensures l !in HeldFor(s.leases, u, c) {
      if l in s.leases && s.leases[l].user == u {
        var x := s.leases[l].holder.t;
        OwnLease(s, x);
      }
    }
    assert HeldFor(s.leases, u, c) == {};
    assert Ready(s.users, s.pcs[t]);
  }

  lemma WaiterProceeds(s: Sys, u: UserId, w: Tid)
    requires Guards(s.users, s.claims, s.shuts) && Holders(s.pcs, s.claims, s.shuts)
    requires u !in s.claims && (forall k :: k in s.shuts ==> k.0 != u) && WaitsOn(PcOf(s, w)) == Some(u)
    ensures CanProceed(s, u)
  {
    forall c ensures c !in Lookup(s.users, u).blocked {
      assert u in s.users && c in s.users[u].blocked ==> (u, c) in s.shuts;
    }
    assert s.pcs[w].Draining? ==> PcClaim(s.pcs[w]) == Some(u);
    assert PcShut(s.pcs[w]) != Some((u, PcShutCap(s.pcs[w])));
    assert Ready(s.users, s.pcs[w]);
  }

  /** With no live lease, no returned exclusive guard and every shutdown holder inside
      `wait_for_requests`, a waited-on user always has a waiter that can proceed; once no notification
      is outstanding, that waiter is awake. */
  lemma DeadlockFreedom(s: Sys, u: UserId, w: Tid) returns (t: Tid)
    requires Reachable(s) && WaitsOn(PcOf(s, w)) == Some(u)
    requires Held(s.leases, u) == {}
    requires forall x :: x in s.pcs ==> s.pcs[x] != Exclusive(u)
    requires forall x :: x in s.pcs && (s.pcs[x].Shut? || s.pcs[x].Unblocking?) ==> s.pcs[x].u != u
    ensures WaitsOn(PcOf(s, t)) == Some(u) && Ready(s.users, PcOf(s, t))
    ensures s.owed == 0 ==> t !in s.asleep
  {
    ReachableInv(s);
    forall l | l in s.leases ensures s.leases[l].user != u {
      assert l in Held(s.leases, s.leases[l].user);
    }
    if RevokerBlocked(s, u) {
      var x :| x in s.pcs && s.pcs[x].Blocking? && s.pcs[x].u == u && s.pcs[x].job.Revoke?;
      OwnLease(s, x);
      assert false;
    }
    ProgressExactly(s, u, w);
    t :| t in s.pcs && WaitsOn(s.pcs[t]) == Some(u) && Ready(s.users, s.pcs[t]);
  }

  // ----- the revoker and the exclusive claimant can stop each other for good -----

  ghost predicate Embraced(s: Sys, u: UserId, claimant: Tid, revoker: Tid) {
    && PcOf(s, claimant) == Draining(u)
    && PcOf(s, revoker).Blocking? && PcOf(s, revoker).u == u && PcOf(s, revoker).job.Revoke?
  }

  /** A thread in a wait loop whose predicate is false stays where it is, whatever any thread does. */
  lemma WaiterStays(s: Sys, e: Event, t: Tid)
    requires PcOf(s, t).Draining? || PcOf(s, t).Blocking?
    requires !Ready(s.users, PcOf(s, t)) && !e.Restart?
    ensures PcOf(Do(s, e), t) == PcOf(s, t)
  {
    match e
    case Lock(x, step) => WaiterStaysLock(s, x, step, t);
    case Shutdown(x, step) => WaiterStaysShutdown(s, x, step, t);
    case Authorize(x, step) => WaiterStaysAuthorize(s, x, step, t);
    case _ =>
  }

  lemma WaiterStaysLock(s: Sys, x: Tid, step: LockStep, t: Tid)
    requires (PcOf(s, t).Draining? || PcOf(s, t).Blocking?) && !Ready(s.users, PcOf(s, t))
    ensures PcOf(DoLock(s, x, step), t) == PcOf(s, t)
  {
    match step
    case LockBegin(_) =>
    case ClaimTry =>
    case DrainTry =>
    case ExclusiveOpen =>
    case ExclusiveClear =>
    case ExclusiveClose =>
    case ExclusiveDrop =>
  }

  lemma WaiterStaysShutdown(s: Sys, x: Tid, step: ShutStep, t: Tid)
    requires (PcOf(s, t).Draining? || PcOf(s, t).Blocking?) && !Ready(s.users, PcOf(s, t))
    ensures PcOf(DoShutdown(s, x, step), t) == PcOf(s, t)
  {
    match step
    case RevokeBegin(_, _, _) =>
    case ExpireBegin(_, _, _) =>
    case BlockTry =>
    case ShutWrite(_) =>
    case FlushTry =>
    case ShutDrop =>
  }

  lemma WaiterStaysAuthorize(s: Sys, x: Tid, step: AuthStep, t: Tid)
    requires PcOf(s, t).Draining? || PcOf(s, t).Blocking?
    ensures PcOf(DoAuthorize(s, x, step), t) == PcOf(s, t)
  {
    hide Admit, Admits, Basics.Expired;
    match step
    case AuthLookup(_, _, _) =>
    case AuthLease(_) =>
    case AuthRecheck(_) =>
    case AuthOpen =>
    case AuthActivity(_) =>
    case AuthFail =>
    case RequestEnd =>
  }

  lemma EmbraceHolds(s: Sys, e: Event, u: UserId, claimant: Tid, revoker: Tid)
    requires Inv(s) && Embraced(s, u, claimant, revoker) && !e.Restart?
    ensures Embraced(Do(s, e), u, claimant, revoker)
    ensures PcOf(Do(s, e), revoker) == PcOf(s, revoker)
  {
    hide Guards, Holders, Owners, Quiet, Sleepers, Finality, UniqueVerifiers, Do;
    ExclusiveFlag(s, claimant);
    OwnLease(s, revoker);
    assert Counts(Lookup(s.users, u), s.leases, u);
    assert PcOf(s, revoker).job.session in Held(s.leases, u);
    WaiterStays(s, e, claimant);
    WaiterStays(s, e, revoker);
  }

  /** Once an exclusive claimant drains a user whose revoker waits to block, neither ever moves again
      whatever every thread does: only a restart ends it. */
  lemma {:induction false} EmbraceIsForever(s: Sys, es: seq<Event>, u: UserId, claimant: Tid, revoker: Tid)
    requires Inv(s) && Embraced(s, u, claimant, revoker) && Restart !in es
    ensures Embraced(Run(s, es), u, claimant, revoker)
    ensures PcOf(Run(s, es), revoker) == PcOf(s, revoker)
    decreases |es|
  {
    if es != [] {
      StepKeepsInv(s, es[0]);
      EmbraceHolds(s, es[0], u, claimant, revoker);
      EmbraceIsForever(Do(s, es[0]), es[1..], u, claimant, revoker);
    }
  }

  /** The embrace is reachable: a revocation is authenticated, a login claims the user before the
      revocation reaches `begin_capability_shutdown`. */
  lemma RevocationCanDeadlock(u: UserId, c: CapId, es: seq<Event>)
    requires Restart !in es
    ensures var s := Run(INIT, [Shutdown(1, RevokeBegin(u, c, 0)), Lock(2, LockBegin(u)), Lock(2, ClaimTry), Shutdown(1, BlockTry)]);
            && Embraced(s, u, 2, 1) && s.asleep == {1, 2} && s.owed == 0
            && Embraced(Run(s, es), u, 2, 1)
  {
    hide Inv, Do;
    var e0, e1, e2, e3 := Shutdown(1, RevokeBegin(u, c, 0)), Lock(2, LockBegin(u)), Lock(2, ClaimTry), Shutdown(1, BlockTry);
    DeadlockSteps(u, c);
    RunSnoc(INIT, [], e0);
    RunSnoc(INIT, [e0], e1);
    RunSnoc(INIT, [e0, e1], e2);
    RunSnoc(INIT, [e0, e1, e2], e3);
    assert [] + [e0] == [e0] && [e0] + [e1] == [e0, e1];
    assert [e0, e1] + [e2] == [e0, e1, e2] && [e0, e1, e2] + [e3] == [e0, e1, e2, e3];
    InitInv();
    RunKeepsInv(INIT, [e0, e1, e2, e3]);
    EmbraceIsForever(Embrace(u, c), es, u, 2, 1);
  }

  /** The state in which a revoker holds its session lease and has yet to block its capability. */
  function Revoking(u: UserId, c: CapId): Sys {
    INIT.(users := map[u := FRESH.(active := 1)],
          pcs := map[1 := Blocking(u, c, Revoke(0))],
          leases := map[0 := Lease(u, None, Thread(1))])
  }

  /** The same once a claimant has set the exclusive flag and both are asleep. */
  function Embrace(u: UserId, c: CapId): Sys {
    Revoking(u, c).(users := map[u := FRESH.(active := 1, exclusive := true)],
                    pcs := map[1 := Blocking(u, c, Revoke(0)), 2 := Draining(u)],
                    asleep := {1, 2},
                    claims := map[u := 2])
  }

  lemma DeadlockSteps(u: UserId, c: CapId)
    ensures Do(Do(Do(Do(INIT, Shutdown(1, RevokeBegin(u, c, 0))), Lock(2, LockBegin(u))), Lock(2, ClaimTry)), Shutdown(1, BlockTry)) == Embrace(u, c)
  {
    DeadlockRevoke(u, c);
    DeadlockClaim(u, c);
    DeadlockBlock(u, c);
  }

  lemma DeadlockRevoke(u: UserId, c: CapId)
    ensures Do(INIT, Shutdown(1, RevokeBegin(u, c, 0))) == Revoking(u, c)
  {
  }

  lemma DeadlockClaim(u: UserId, c: CapId)
    ensures Do(Do(Revoking(u, c), Lock(2, LockBegin(u))), Lock(2, ClaimTry)) == Embrace(u, c).(asleep := {2})
  {
    var s := Do(Revoking(u, c), Lock(2, LockBegin(u)));
    assert s == Revoking(u, c).(pcs := map[1 := Blocking(u, c, Revoke(0)), 2 := Claiming(u)]);
    assert Do(s, Lock(2, ClaimTry)) == DoClaimTry(s, 2, u);
  }

  lemma DeadlockBlock(u: UserId, c: CapId)
    ensures Do(Embrace(u, c).(asleep := {2}), Shutdown(1, BlockTry)) == Embrace(u, c)
  {
  }

  // ----- what an undisturbed thread achieves -----

  /** What a request must meet when it arrives. */
  predicate MayAuthorize(s: Sys, c: CapId, v: Verifier, now: Instant) {
    && c in s.rows && s.rows[c].verifier == v
    && !s.rows[c].revoked && !Basics.Expired(s.rows[c].expires, now) && s.rows[c].permission == BALANCES_READ
    && s.rows[c].wrapped
    && Admits(s.users, s.rows[c].user, Some(c))
  }

  function AuthorizeAlone(s: Sys, t: Tid, c: CapId, v: Verifier, now: Instant, l: LeaseId): Sys {
    var s1 := DoAuthorize(s, t, AuthLookup(c, v, now));
    var s2 := DoAuthorize(s1, t, AuthLease(l));
    var s3 := DoAuthorize(s2, t, AuthRecheck(now));
    var s4 := DoAuthorize(s3, t, AuthOpen);
    DoAuthorize(s4, t, AuthActivity(now))
  }

  /** Undisturbed, a request is authorised exactly when its capability is in force and the registry
      admits it; it then holds its own lease and its user's database is open. */
  lemma AuthorizationSucceedsExactly(s: Sys, t: Tid, c: CapId, v: Verifier, now: Instant, l: LeaseId)
    requires PcOf(s, t).Idle? && l !in s.leases
    ensures var s' := AuthorizeAlone(s, t, c, v, now, l);
            && (PcOf(s', t).Authorized? <==> MayAuthorize(s, c, v, now))
            && (PcOf(s', t).Authorized? ==>
                  var u := s.rows[c].user;
                  && PcOf(s', t) == Authorized(u, c, l)
                  && s'.leases == s.leases[l := Lease(u, Some(c), Thread(t))] && u in s'.open)
  {
    hide Admit, Admits;
    if c in s.rows && s.rows[c].verifier == v {
      var u := s.rows[c].user;
      var s1 := DoAuthorize(s, t, AuthLookup(c, v, now));
      if !s.rows[c].revoked && !Basics.Expired(s.rows[c].expires, now) && s.rows[c].permission == BALANCES_READ {
        assert PcOf(s1, t) == Looked(u, c, v);
        var s2 := DoAuthorize(s1, t, AuthLease(l));
        if Admits(s.users, u, Some(c)) {
          assert PcOf(s2, t) == Leased(u, c, v, l);
          LeasedAlone(s2, t, u, c, v, l, now);
        } else {
          NoAuthorization(s2, t, now);
        }
      } else {
        assert PcOf(s1, t).Idle? || PcOf(s1, t).Blocking?;
        NoAuthorization(DoAuthorize(s1, t, AuthLease(l)), t, now);
      }
    }
  }

  /** From the recheck on, a row that is in force lacks nothing but perhaps its wrapped key. */
  lemma LeasedAlone(s: Sys, t: Tid, u: UserId, c: CapId, v: Verifier, l: LeaseId, now: Instant)
    requires PcOf(s, t) == Leased(u, c, v, l)
    requires c in s.rows && s.rows[c].user == u && s.rows[c].verifier == v && !s.rows[c].revoked
    requires !Basics.Expired(s.rows[c].expires, now) && s.rows[c].permission == BALANCES_READ
    ensures var s' := DoAuthorize(DoAuthorize(DoAuthorize(s, t, AuthRecheck(now)), t, AuthOpen), t, AuthActivity(now));
            && s'.leases == s.leases
            && if s.rows[c].wrapped then PcOf(s', t) == Authorized(u, c, l) && u in s'.open
               else PcOf(s', t) == Leaving(u, Some(c), l, Idle) && s'.open == s.open
  {
    var s1 := DoAuthorize(s, t, AuthRecheck(now));
    assert PcOf(s1, t) == Checked(u, c, l, s.rows[c].expires, s.rows[c].wrapped);
    var s2 := DoAuthorize(s1, t, AuthOpen);
    assert PcOf(s2, t) == if s.rows[c].wrapped then Opened(u, c, l, s.rows[c].expires) else Leaving(u, Some(c), l, Idle);
  }

  lemma NoAuthorization(s: Sys, t: Tid, now: Instant)
    requires PcOf(s, t).Idle? || PcOf(s, t).Blocking?
    ensures DoAuthorize(DoAuthorize(DoAuthorize(s, t, AuthRecheck(now)), t, AuthOpen), t, AuthActivity(now)) == s
  {
  }

  function RevokeAlone(s: Sys, t: Tid, u: UserId, c: CapId, l: LeaseId): Sys {
    var s1 := DoShutdown(s, t, RevokeBegin(u, c, l));
    var s2 := DoShutdown(s1, t, BlockTry);
    var s3 := DoShutdown(s2, t, ShutWrite(true));
    DoShutdown(s3, t, FlushTry)
  }

  /** What a revocation must find: an admitted caller that owns the row, nobody in its way, and no
      request for the capability in progress. */
  predicate MayRevoke(s: Sys, u: UserId, c: CapId) {
    && Admits(s.users, u, None) && BlockReady(Lookup(s.users, u), c) && FlushReady(Lookup(s.users, u), c)
    && c in s.rows && s.rows[c].user == u
  }

  /** Undisturbed, a revocation is answered "revoked" exactly then. */
  lemma RevocationSucceedsExactly(s: Sys, t: Tid, u: UserId, c: CapId, l: LeaseId)
    requires PcOf(s, t).Idle? && Awake(s, t) && l !in s.leases && c !in s.revoked
    ensures c in RevokeAlone(s, t, u, c, l).revoked <==> MayRevoke(s, u, c)
  {
    var s1 := DoShutdown(s, t, RevokeBegin(u, c, l));
    if Admits(s.users, u, None) {
      assert s1 == Goto(DoAcquire(s, l, Lease(u, None, Thread(t))), t, Blocking(u, c, Revoke(l)));
      AdmittedFlags(s.users, u, c);
      BlockedRevocation(s1, t, u, c, l);
    } else {
      assert s1 == s && DoShutdown(s, t, BlockTry) == s && DoShutdown(s, t, ShutWrite(true)) == s;
    }
  }

  lemma AdmittedFlags(users: Users, u: UserId, c: CapId)
    ensures var st, st' := Lookup(users, u), Lookup(Admit(users, u, None), u);
            (BlockReady(st', c) <==> BlockReady(st, c)) && (FlushReady(st', c) <==> FlushReady(st, c))
  {
  }

  lemma BlockedFlags(users: Users, u: UserId, c: CapId)
    ensures FlushReady(Lookup(Block(users, u, c), u), c) <==> FlushReady(Lookup(users, u), c)
  {
  }

  lemma BlockedRevocation(s: Sys, t: Tid, u: UserId, c: CapId, l: LeaseId)
    requires PcOf(s, t) == Blocking(u, c, Revoke(l)) && Awake(s, t) && c !in s.revoked
    ensures var s' := DoShutdown(DoShutdown(DoShutdown(s, t, BlockTry), t, ShutWrite(true)), t, FlushTry);
            c in s'.revoked <==>
              && BlockReady(Lookup(s.users, u), c) && FlushReady(Lookup(s.users, u), c)
              && c in s.rows && s.rows[c].user == u
  {
    hide Block, BlockReady, FlushReady, Lookup;
    var s1 := DoShutdown(s, t, BlockTry);
    if BlockReady(Lookup(s.users, u), c) {
      BlockedFlags(s.users, u, c);
      assert PcOf(s1, t) == Shut(u, c, Revoke(l)) && s1.rows == s.rows && s1.asleep == {};
      var s2 := DoShutdown(s1, t, ShutWrite(true));
      if c in s.rows && s.rows[c].user == u {
        assert PcOf(s2, t) == Flushing(u, c, Revoke(l)) && s2.users == s1.users;
      } else {
        assert PcOf(s2, t) == Unblocking(u, c, Revoke(l));
      }
    } else {
      assert s1 == Sleep(s, t);
      assert DoShutdown(s1, t, ShutWrite(true)) == s1;
    }
  }

  /** Undisturbed, the exclusive guard is returned at once exactly when nobody has the flag, no
      capability is blocked and no lease of the user is live. */
  lemma GuardSucceedsExactly(s: Sys, t: Tid, u: UserId)
    requires Inv(s) && PcOf(s, t).Idle?
    ensures var s' := DoLock(DoLock(s, t, LockBegin(u)), t, ClaimTry);
            PcOf(s', t) == Exclusive(u) <==> ClaimReady(Lookup(s.users, u)) && Held(s.leases, u) == {}
  {
    AwakeUnlessWaiting(s, t);
    assert Counts(Lookup(s.users, u), s.leases, u);
    hide Sound, Guards, Holders, Owners, Quiet, Sleepers, Finality, UniqueVerifiers, Claim, Lookup;
    var s1 := DoLock(s, t, LockBegin(u));
    assert PcOf(s1, t) == Claiming(u) && s1.users == s.users && Awake(s1, t);
  }
}
