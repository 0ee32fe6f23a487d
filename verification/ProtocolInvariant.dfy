/** Every event keeps the invariant of the lifecycle protocol.  The part lemmas come first, each
    about one part of the invariant; the lemmas about events only put parts together. */
module ProtocolInvariant {
  import opened Basics
  import opened Registry
  import opened Protocol

  // ----- moving one thread -----

  predicate LeavesWell(pc: Pc) {
    pc.Leaving? ==> pc.next.Idle? || (pc.next.Blocking? && pc.next.job.Expire?)
  }

  predicate QuietAt(pc: Pc, users: Users) {
    pc.Exclusive? ==> pc.u in users && users[pc.u].active == 0
  }

  predicate FinalAt(pc: Pc, rows: Rows, revoked: set<CapId>) {
    && (PastCheck(pc) ==> pc.c in rows && rows[pc.c].user == pc.u && pc.c !in revoked)
    && (pc.Flushing? && pc.job.Revoke? ==> pc.c in rows && rows[pc.c].user == pc.u && rows[pc.c].revoked)
  }

  lemma HoldersMove(s: Sys, t: Tid, pc: Pc)
    requires Holders(s.pcs, s.claims, s.shuts)
    requires PcClaim(pc) == PcClaim(PcOf(s, t)) && PcShut(pc) == PcShut(PcOf(s, t))
    ensures Holders(s.pcs[t := pc], s.claims, s.shuts)
  {
  }

  lemma OwnersMove(s: Sys, t: Tid, pc: Pc)
    requires Owners(s.pcs, s.leases)
    requires PcLease(pc) == PcLease(PcOf(s, t)) && LeavesWell(pc)
    ensures Owners(s.pcs[t := pc], s.leases)
  {
  }

  lemma QuietMove(pcs: map<Tid, Pc>, users: Users, t: Tid, pc: Pc)
    requires Quiet(pcs, users) && QuietAt(pc, users)
    ensures Quiet(pcs[t := pc], users)
  {
  }

  lemma SleepersMove(s: Sys, t: Tid, pc: Pc)
    requires Sleepers(s.asleep, s.pcs, s.users, s.owed) && t !in s.asleep
    ensures Sleepers(s.asleep, s.pcs[t := pc], s.users, s.owed)
  {
  }

  lemma FinalityMove(pcs: map<Tid, Pc>, rows: Rows, revoked: set<CapId>, t: Tid, pc: Pc)
    requires Finality(pcs, rows, revoked) && FinalAt(pc, rows, revoked)
    ensures Finality(pcs[t := pc], rows, revoked)
  {
  }

  /** A thread that is not in a wait loop is awake. */
  lemma AwakeUnlessWaiting(s: Sys, t: Tid)
    requires Sleepers(s.asleep, s.pcs, s.users, s.owed) && WaitsOn(PcOf(s, t)).None?
    ensures t !in s.asleep
  {
  }

  lemma Move(s: Sys, t: Tid, pc: Pc)
    requires Inv(s) && t !in s.asleep
    requires
      var was := PcOf(s, t);
      PcClaim(pc) == PcClaim(was) && PcShut(pc) == PcShut(was) && PcLease(pc) == PcLease(was)
    requires QuietAt(pc, s.users) && LeavesWell(pc) && FinalAt(pc, s.rows, s.revoked)
    ensures Inv(Goto(s, t, pc))
  {
    hide Sound, Guards, Holders, Owners, Quiet, Sleepers, Finality, UniqueVerifiers;
    HoldersMove(s, t, pc);
    OwnersMove(s, t, pc);
    QuietMove(s.pcs, s.users, t, pc);
    SleepersMove(s, t, pc);
    FinalityMove(s.pcs, s.rows, s.revoked, t, pc);
  }

  lemma SleepKeeps(s: Sys, t: Tid)
    requires Inv(s) && WaitsOn(PcOf(s, t)).Some? && !Ready(s.users, PcOf(s, t))
    ensures Inv(Sleep(s, t))
  {
    hide Sound, Guards, Holders, Owners, Quiet, Finality, UniqueVerifiers;
  }

  // ----- changing one user's state -----

  /** Admission, pinning and the like: nothing a guard or a waiter looks at goes the waiter's way. */
  predicate Tighter(st: UserState, st': UserState) {
    && st'.exclusive == st.exclusive
    && st'.blocked == st.blocked
    && st'.active >= st.active
    && (forall c: CapId :: c in st.byCap ==> st'.CapCount(c) >= st.CapCount(c))
  }

  lemma GuardsUser(s: Sys, u: UserId, st: UserState)
    requires Guards(s.users, s.claims, s.shuts)
    requires st.exclusive == Lookup(s.users, u).exclusive && st.blocked == Lookup(s.users, u).blocked
    ensures Guards(s.users[u := st], s.claims, s.shuts)
    ensures Guards(Settle(s.users, u, st), s.claims, s.shuts)
  {
  }

  /** The silent steps never enable a waiter. */
  lemma TighterEnablesNobody(users: Users, u: UserId, st: UserState, pc: Pc)
    requires Tighter(Lookup(users, u), st)
    requires WaitsOn(pc).Some?
    requires Ready(users[u := st], pc) || Ready(Settle(users, u, st), pc)
    ensures Ready(users, pc)
  {
  }

  lemma SleepersUser(s: Sys, u: UserId, st: UserState)
    requires Sleepers(s.asleep, s.pcs, s.users, s.owed) && Tighter(Lookup(s.users, u), st)
    ensures Sleepers(s.asleep, s.pcs, s.users[u := st], s.owed)
    ensures Sleepers(s.asleep, s.pcs, Settle(s.users, u, st), s.owed)
  {
    forall t | t in s.asleep && (Ready(s.users[u := st], s.pcs[t]) || Ready(Settle(s.users, u, st), s.pcs[t]))
      ensures s.owed > 0
    {
      TighterEnablesNobody(s.users, u, st, s.pcs[t]);
    }
  }

  /** An exclusive holder's flag is set, so its entry is not idle and admits nobody. */
  lemma ExclusiveFlag(s: Sys, t: Tid)
    requires Holders(s.pcs, s.claims, s.shuts) && Guards(s.users, s.claims, s.shuts)
    requires PcClaim(PcOf(s, t)).Some?
    ensures var u := PcClaim(PcOf(s, t)).value;
            u in s.claims && s.claims[u] == t && u in s.users && s.users[u].exclusive && s.users[u].blocked == {}
  {
  }

  lemma QuietUser(s: Sys, u: UserId, st: UserState)
    requires Holders(s.pcs, s.claims, s.shuts) && Guards(s.users, s.claims, s.shuts) && Quiet(s.pcs, s.users)
    requires Lookup(s.users, u).exclusive ==> st.exclusive && (Lookup(s.users, u).active == 0 ==> st.active == 0)
    ensures Quiet(s.pcs, s.users[u := st]) && Quiet(s.pcs, Settle(s.users, u, st))
  {
    forall t | t in s.pcs && s.pcs[t].Exclusive?
      ensures s.pcs[t].u in s.users && s.users[s.pcs[t].u].exclusive
    {
      ExclusiveFlag(s, t);
    }
  }

  // ----- leases -----

  lemma AdmitParts(s: Sys, u: UserId, cap: Option<CapId>)
    requires Inv(s) && Admits(s.users, u, cap)
    ensures Guards(Admit(s.users, u, cap), s.claims, s.shuts)
    ensures Quiet(s.pcs, Admit(s.users, u, cap))
    ensures Sleepers(s.asleep, s.pcs, Admit(s.users, u, cap), s.owed)
  {
    hide Sound, Guards, Holders, Owners, Quiet, Sleepers, Finality, UniqueVerifiers;
    var st := Admitted(Lookup(s.users, u), cap);
    GuardsUser(s, u, st);
    QuietUser(s, u, st);
    SleepersUser(s, u, st);
  }

  lemma OwnersAcquire(s: Sys, t: Tid, l: LeaseId, lease: Lease, pc: Pc)
    requires Owners(s.pcs, s.leases) && l !in s.leases && lease.holder == Thread(t)
    requires PcLease(PcOf(s, t)).None? && !pc.Leaving?
    requires PcLease(pc) == Some((l, lease.user, lease.cap))
    ensures Owners(s.pcs[t := pc], s.leases[l := lease])
  {
  }

  lemma OwnersOther(s: Sys, l: LeaseId, lease: Lease)
    requires Owners(s.pcs, s.leases) && l !in s.leases && !lease.holder.Thread?
    ensures Owners(s.pcs, s.leases[l := lease])
  {
  }

  lemma AcquireKeeps(s: Sys, l: LeaseId, lease: Lease)
    requires Inv(s) && l !in s.leases && Admits(s.users, lease.user, lease.cap) && !lease.holder.Thread?
    ensures Inv(DoAcquire(s, l, lease))
  {
    hide Sound, Guards, Holders, Owners, Quiet, Sleepers, Finality, UniqueVerifiers;
    AdmitSound(s.users, s.leases, l, lease);
    AdmitParts(s, lease.user, lease.cap);
    OwnersOther(s, l, lease);
  }

  /** A thread takes a lease and moves on in one critical section. */
  lemma ThreadAcquireKeeps(s: Sys, t: Tid, l: LeaseId, lease: Lease, pc: Pc)
    requires Inv(s) && l !in s.leases && Admits(s.users, lease.user, lease.cap) && lease.holder == Thread(t)
    requires PcOf(s, t).Idle? || PcOf(s, t).Looked?
    requires pc.Leased? || pc.Blocking?
    requires PcLease(pc) == Some((l, lease.user, lease.cap))
    ensures Inv(Goto(DoAcquire(s, l, lease), t, pc))
  {
    hide Sound, Guards, Holders, Owners, Quiet, Sleepers, Finality, UniqueVerifiers;
    AwakeUnlessWaiting(s, t);
    AdmitSound(s.users, s.leases, l, lease);
    AdmitParts(s, lease.user, lease.cap);
    HoldersMove(s, t, pc);
    OwnersAcquire(s, t, l, lease, pc);
    QuietMove(s.pcs, Admit(s.users, lease.user, lease.cap), t, pc);
    SleepersMove(DoAcquire(s, l, lease), t, pc);
    FinalityMove(s.pcs, s.rows, s.revoked, t, pc);
  }

  lemma ReleaseParts(s: Sys, l: LeaseId)
    requires Inv(s) && l in s.leases
    ensures var users := Release(s.users, s.leases[l].user, s.leases[l].cap);
            && Sound(users, s.leases - {l})
            && Guards(users, s.claims, s.shuts)
            && Quiet(s.pcs, users)
            && Sleepers(s.asleep, s.pcs, users, s.owed + 1)
            && s.leases[l].user in s.users
  {
    hide Sound, Guards, Holders, Owners, Quiet, Finality, UniqueVerifiers;
    var u, cap := s.leases[l].user, s.leases[l].cap;
    ReleaseSound(s.users, s.leases, l);
    GuardsUser(s, u, Released(s.users[u], cap));
    QuietUser(s, u, Released(s.users[u], cap));
  }

  lemma OwnersDrop(s: Sys, t: Tid, l: LeaseId, pc: Pc)
    requires Owners(s.pcs, s.leases) && PcLease(pc).None? && !pc.Leaving?
    requires PcLease(PcOf(s, t)).Some? && PcLease(PcOf(s, t)).value.0 == l
    ensures Owners(s.pcs[t := pc], s.leases - {l})
  {
  }

  lemma OwnersRemove(s: Sys, l: LeaseId)
    requires Owners(s.pcs, s.leases) && l in s.leases && !s.leases[l].holder.Thread?
    ensures Owners(s.pcs, s.leases - {l})
  {
  }

  lemma DropKeeps(s: Sys, l: LeaseId, closes: bool)
    requires Inv(s) && l in s.leases && !s.leases[l].holder.Thread?
    ensures Inv(DoDrop(s, l, closes))
  {
    hide Sound, Guards, Holders, Owners, Quiet, Sleepers, Finality, UniqueVerifiers;
    ReleaseParts(s, l);
    OwnersRemove(s, l);
  }

  /** The lease a program counter names is live and is this thread's. */
  lemma OwnLease(s: Sys, t: Tid)
    requires Owners(s.pcs, s.leases) && PcLease(PcOf(s, t)).Some?
    ensures var h := PcLease(PcOf(s, t)).value;
            h.0 in s.leases && s.leases[h.0] == Lease(h.1, h.2, Thread(t)) && LeavesWell(PcOf(s, t))
  {
  }

  lemma ThreadDropKeeps(s: Sys, t: Tid, closes: bool)
    requires Inv(s) && PcOf(s, t).Leaving?
    ensures PcOf(s, t).l in s.leases
    ensures Inv(DoThreadDrop(s, t, PcOf(s, t).l, PcOf(s, t).next, closes))
  {
    hide Sound, Guards, Holders, Owners, Quiet, Sleepers, Finality, UniqueVerifiers;
    var pc := PcOf(s, t);
    OwnLease(s, t);
    AwakeUnlessWaiting(s, t);
    ReleaseParts(s, pc.l);
    var s1 := DoDrop(s, pc.l, closes);
    HoldersMove(s, t, pc.next);
    OwnersDrop(s, t, pc.l, pc.next);
    QuietMove(s.pcs, s1.users, t, pc.next);
    SleepersMove(s1, t, pc.next);
    FinalityMove(s.pcs, s.rows, s.revoked, t, pc.next);
  }

  // ----- sessions -----

  /** A change to the pinned sessions alone, with or without further notifications. */
  lemma SessionsKeep(s: Sys, u: UserId, st: UserState, owed: nat)
    requires Inv(s) && owed >= s.owed
    requires st == Lookup(s.users, u).(sessions := st.sessions)
    ensures Inv(s.(users := Settle(s.users, u, st), owed := owed))
  {
    hide Sound, Guards, Holders, Owners, Quiet, Finality, UniqueVerifiers;
    SettleSound(s.users, s.leases, u, st);
    GuardsUser(s, u, st);
    QuietUser(s, u, st);
    SleepersUser(s, u, st);
  }

  lemma OpenIrrelevant(s: Sys, open: set<UserId>)
    requires Inv(s)
    ensures Inv(s.(open := open))
  {
    hide Sound, Guards, Holders, Owners, Quiet, Sleepers, Finality, UniqueVerifiers;
  }

  lemma PinKeeps(s: Sys, u: UserId, sid: SessionId)
    requires Inv(s)
    ensures Inv(Do(s, PinSession(u, sid)))
  {
    hide Inv;
    var st := Lookup(s.users, u).(sessions := Lookup(s.users, u).sessions + {sid});
    assert sid in st.sessions;
    SessionsKeep(s, u, st, s.owed);
  }

  lemma UnpinKeeps(s: Sys, u: UserId, sid: SessionId, closes: bool)
    requires Inv(s)
    ensures Inv(DoUnpin(s, u, sid, closes))
  {
    hide Inv;
    var s' := DoUnpin(s, u, sid, closes);
    if u in s.users {
      SessionsKeep(s, u, Unpinned(s.users[u], sid), s'.owed);
      OpenIrrelevant(s.(users := s'.users, owed := s'.owed), s'.open);
      assert s' == s.(users := s'.users, owed := s'.owed).(open := s'.open);
    } else {
      assert s' == s;
    }
  }

  lemma ClearKeeps(s: Sys, t: Tid)
    requires Inv(s) && PcOf(s, t).Exclusive?
    ensures Inv(DoLock(s, t, ExclusiveClear))
  {
    hide Sound, Guards, Holders, Owners, Quiet, Sleepers, Finality, UniqueVerifiers;
    var u := PcOf(s, t).u;
    ExclusiveFlag(s, t);
    SessionsKeep(s, u, s.users[u].(sessions := {}), s.owed);
  }

  // ----- the exclusive guard -----

  lemma HoldersClaim(s: Sys, t: Tid, u: UserId, pc: Pc)
    requires Holders(s.pcs, s.claims, s.shuts) && PcOf(s, t) == Claiming(u) && u !in s.claims
    requires PcClaim(pc) == Some(u)
    ensures Holders(s.pcs[t := pc], s.claims[u := t], s.shuts)
  {
  }

  lemma GuardsClaim(s: Sys, t: Tid, u: UserId)
    requires Guards(s.users, s.claims, s.shuts) && ClaimReady(Lookup(s.users, u))
    ensures u !in s.claims
    ensures Guards(Claim(s.users, u), s.claims[u := t], s.shuts)
  {
  }

  lemma ClaimKeeps(s: Sys, t: Tid, u: UserId, pc: Pc)
    requires Inv(s) && PcOf(s, t) == Claiming(u) && ClaimReady(Lookup(s.users, u))
    requires pc == Draining(u) || (pc == Exclusive(u) && Lookup(s.users, u).active == 0)
    ensures Inv(Goto(NotifyAll(s.(users := Claim(s.users, u), claims := s.claims[u := t])), t, pc))
  {
    hide Sound, Guards, Holders, Owners, Quiet, Finality, UniqueVerifiers;
    var st := Lookup(s.users, u).(exclusive := true);
    SettleSound(s.users, s.leases, u, st);
    GuardsClaim(s, t, u);
    HoldersClaim(s, t, u, pc);
    OwnersMove(s, t, pc);
    QuietUser(s, u, st);
    QuietMove(s.pcs, Claim(s.users, u), t, pc);
    FinalityMove(s.pcs, s.rows, s.revoked, t, pc);
  }

  lemma ClaimTryKeeps(s: Sys, t: Tid)
    requires Inv(s) && PcOf(s, t).Claiming?
    ensures Inv(DoClaimTry(s, t, PcOf(s, t).u))
  {
    hide Inv;
    var u := PcOf(s, t).u;
    var st := Lookup(s.users, u);
    if !ClaimReady(st) {
      SleepKeeps(s, t);
    } else if DrainReady(st) {
      ClaimKeeps(s, t, u, Exclusive(u));
    } else {
      ClaimKeeps(s, t, u, Draining(u));
      SleepKeeps(Goto(NotifyAll(s.(users := Claim(s.users, u), claims := s.claims[u := t])), t, Draining(u)), t);
    }
  }

  lemma DrainTryKeeps(s: Sys, t: Tid)
    requires Inv(s) && PcOf(s, t).Draining? && t !in s.asleep
    ensures Inv(DoDrainTry(s, t, PcOf(s, t).u))
  {
    hide Sound, Guards, Holders, Owners, Quiet, Sleepers, Finality, UniqueVerifiers;
    var u := PcOf(s, t).u;
    if DrainReady(Lookup(s.users, u)) {
      ExclusiveFlag(s, t);
      Move(s, t, Exclusive(u));
    } else {
      SleepKeeps(s, t);
    }
  }

  lemma HoldersUnclaim(s: Sys, t: Tid, u: UserId)
    requires Holders(s.pcs, s.claims, s.shuts) && PcOf(s, t) == Exclusive(u)
    ensures Holders(s.pcs[t := Idle], s.claims - {u}, s.shuts)
  {
  }

  lemma GuardsUnclaim(s: Sys, u: UserId)
    requires Guards(s.users, s.claims, s.shuts)
    ensures Guards(Unclaim(s.users, u), s.claims - {u}, s.shuts)
  {
  }

  lemma QuietUnclaim(s: Sys, t: Tid, u: UserId)
    requires Holders(s.pcs, s.claims, s.shuts) && Quiet(s.pcs, s.users) && PcOf(s, t) == Exclusive(u)
    ensures Quiet(s.pcs[t := Idle], Unclaim(s.users, u))
  {
    forall x | x in s.pcs && x != t && s.pcs[x].Exclusive? ensures s.pcs[x].u != u {
      assert PcClaim(s.pcs[x]) == Some(s.pcs[x].u);
    }
  }

  lemma ExclusiveDropKeeps(s: Sys, t: Tid)
    requires Inv(s) && PcOf(s, t).Exclusive?
    ensures Inv(DoExclusiveDrop(s, t, PcOf(s, t).u))
  {
    hide Sound, Guards, Holders, Owners, Quiet, Finality, UniqueVerifiers;
    var u := PcOf(s, t).u;
    ExclusiveFlag(s, t);
    SettleSound(s.users, s.leases, u, s.users[u].(exclusive := false));
    HoldersUnclaim(s, t, u);
    GuardsUnclaim(s, u);
    QuietUnclaim(s, t, u);
    OwnersMove(s, t, Idle);
    FinalityMove(s.pcs, s.rows, s.revoked, t, Idle);
  }

  // ----- capability shutdown -----

  lemma GuardsBlock(s: Sys, t: Tid, u: UserId, c: CapId)
    requires Guards(s.users, s.claims, s.shuts) && BlockReady(Lookup(s.users, u), c)
    ensures (u, c) !in s.shuts
    ensures Guards(Block(s.users, u, c), s.claims, s.shuts[(u, c) := t])
  {
  }

  lemma HoldersBlock(s: Sys, t: Tid, u: UserId, c: CapId, pc: Pc)
    requires Holders(s.pcs, s.claims, s.shuts) && PcOf(s, t).Blocking? && (u, c) !in s.shuts
    requires PcShut(pc) == Some((u, c)) && PcClaim(pc).None?
    ensures Holders(s.pcs[t := pc], s.claims, s.shuts[(u, c) := t])
  {
  }

  lemma BlockKeeps(s: Sys, t: Tid, u: UserId, c: CapId, job: Job)
    requires Inv(s) && PcOf(s, t) == Blocking(u, c, job) && BlockReady(Lookup(s.users, u), c)
    ensures Inv(DoBlockTry(s, t, u, c, job))
  {
    hide Sound, Guards, Holders, Owners, Quiet, Finality, UniqueVerifiers;
    var st := Lookup(s.users, u).(blocked := Lookup(s.users, u).blocked + {c});
    assert c in st.blocked;
    SettleSound(s.users, s.leases, u, st);
    GuardsBlock(s, t, u, c);
    HoldersBlock(s, t, u, c, Shut(u, c, job));
    OwnersMove(s, t, Shut(u, c, job));
    QuietUser(s, u, st);
    QuietMove(s.pcs, Block(s.users, u, c), t, Shut(u, c, job));
    FinalityMove(s.pcs, s.rows, s.revoked, t, Shut(u, c, job));
  }

  lemma BlockTryKeeps(s: Sys, t: Tid)
    requires Inv(s) && PcOf(s, t).Blocking?
    ensures Inv(DoBlockTry(s, t, PcOf(s, t).u, PcOf(s, t).c, PcOf(s, t).job))
  {
    hide Inv;
    var u, c, job := PcOf(s, t).u, PcOf(s, t).c, PcOf(s, t).job;
    if BlockReady(Lookup(s.users, u), c) {
      BlockKeeps(s, t, u, c, job);
    } else {
      SleepKeeps(s, t);
    }
  }

  /** Writes made under a shutdown guard: no row appears, moves to another user or key, or is
      un-revoked. */
  predicate RowsOnly(rows: Rows, rows': Rows) {
    && rows'.Keys == rows.Keys
    && (forall d :: d in rows ==>
         rows'[d] == rows[d].(wrapped := rows'[d].wrapped, revoked := rows'[d].revoked)
         && (rows[d].revoked ==> rows'[d].revoked))
  }

  lemma RowsKeep(s: Sys, rows: Rows)
    requires Inv(s) && RowsOnly(s.rows, rows)
    ensures Inv(s.(rows := rows))
  {
    hide Sound, Guards, Holders, Owners, Quiet, Sleepers;
  }

  lemma AwakeInShut(s: Sys, t: Tid)
    requires Inv(s) && PcOf(s, t).Shut?
    ensures t !in s.asleep
  {
    hide Sound, Guards, Holders, Owners, Quiet, Finality, UniqueVerifiers;
  }

  lemma ShutWriteKeeps(s: Sys, t: Tid, ok: bool)
    requires Inv(s) && PcOf(s, t).Shut?
    ensures Inv(DoShutWrite(s, t, PcOf(s, t).u, PcOf(s, t).c, PcOf(s, t).job, ok))
  {
    hide Inv;
    var u, c, job := PcOf(s, t).u, PcOf(s, t).c, PcOf(s, t).job;
    AwakeInShut(s, t);
    if c in s.rows && s.rows[c].user == u {
      var revoked := s.(rows := s.rows[c := s.rows[c].(wrapped := false, revoked := true)]);
      var cleared := s.(rows := s.rows[c := s.rows[c].(wrapped := false)]);
      RowsKeep(s, revoked.rows);
      RowsKeep(s, cleared.rows);
      Move(revoked, t, Flushing(u, c, job));
      if job.Expire? { Move(cleared, t, Flushing(u, c, job)); }
    }
    if job.Expire? { Move(s, t, Flushing(u, c, job)); }
    Move(s, t, Unblocking(u, c, job));
  }

  /** When the count of a capability is zero, no thread is past the recheck for it. */
  lemma FlushedMeansNoneAuthorized(s: Sys, u: UserId, c: CapId, t: Tid)
    requires Sound(s.users, s.leases) && Owners(s.pcs, s.leases)
    requires FlushReady(Lookup(s.users, u), c)
    requires PastCheck(PcOf(s, t)) && PcOf(s, t).u == u
    ensures PcOf(s, t).c != c
  {
    assert Counts(Lookup(s.users, u), s.leases, u);
    OwnLease(s, t);
    assert PcOf(s, t).l in HeldFor(s.leases, u, PcOf(s, t).c);
  }

  lemma FlushKeeps(s: Sys, t: Tid)
    requires Inv(s) && PcOf(s, t).Flushing? && PcOf(s, t).job.Revoke?
    requires FlushReady(Lookup(s.users, PcOf(s, t).u), PcOf(s, t).c)
    ensures Inv(s.(revoked := s.revoked + {PcOf(s, t).c}))
  {
    hide Sound, Guards, Holders, Owners, Quiet, Sleepers, UniqueVerifiers;
    var u, c := PcOf(s, t).u, PcOf(s, t).c;
    forall x | x in s.pcs && PastCheck(s.pcs[x]) ensures s.pcs[x].c != c {
      if s.pcs[x].u == u { FlushedMeansNoneAuthorized(s, u, c, x); }
    }
  }

  lemma FlushTryKeeps(s: Sys, t: Tid)
    requires Inv(s) && PcOf(s, t).Flushing? && t !in s.asleep
    ensures Inv(DoFlushTry(s, t, PcOf(s, t).u, PcOf(s, t).c, PcOf(s, t).job))
  {
    hide Inv;
    var u, c, job := PcOf(s, t).u, PcOf(s, t).c, PcOf(s, t).job;
    if FlushReady(Lookup(s.users, u), c) {
      if job.Revoke? {
        FlushKeeps(s, t);
        Move(s.(revoked := s.revoked + {c}), t, Unblocking(u, c, job));
      } else {
        Move(s, t, Unblocking(u, c, job));
      }
    } else {
      SleepKeeps(s, t);
    }
  }

  lemma GuardsUnblock(s: Sys, t: Tid, u: UserId, c: CapId)
    requires Guards(s.users, s.claims, s.shuts) && Holders(s.pcs, s.claims, s.shuts)
    requires PcShut(PcOf(s, t)) == Some((u, c))
    ensures u in s.users && c in s.users[u].blocked && u !in s.claims
    ensures Guards(Unblock(s.users, u, c), s.claims, s.shuts - {(u, c)})
  {
    var blocked := s.users[u].blocked - {c};
    forall k | k in s.shuts && k != (u, c) && k.0 == u ensures k.1 in blocked {
      assert k == (u, k.1);
    }
  }

  lemma HoldersUnblock(s: Sys, t: Tid, u: UserId, c: CapId, pc: Pc)
    requires Holders(s.pcs, s.claims, s.shuts) && PcOf(s, t).Unblocking? && PcShut(PcOf(s, t)) == Some((u, c))
    requires PcClaim(pc).None? && PcShut(pc).None?
    ensures Holders(s.pcs[t := pc], s.claims, s.shuts - {(u, c)})
  {
  }

  lemma ShutDropKeeps(s: Sys, t: Tid)
    requires Inv(s) && PcOf(s, t).Unblocking?
    ensures Inv(DoShutDrop(s, t, PcOf(s, t).u, PcOf(s, t).c, PcOf(s, t).job))
  {
    hide Sound, Guards, Holders, Owners, Quiet, Finality, UniqueVerifiers;
    var u, c, job := PcOf(s, t).u, PcOf(s, t).c, PcOf(s, t).job;
    var pc := match job case Revoke(l) => Leaving(u, None, l, Idle) case Expire(_) => Idle;
    GuardsUnblock(s, t, u, c);
    var st := s.users[u].(blocked := s.users[u].blocked - {c});
    SettleSound(s.users, s.leases, u, st);
    HoldersUnblock(s, t, u, c, pc);
    OwnersMove(s, t, pc);
    QuietUser(s, u, st);
    QuietMove(s.pcs, Unblock(s.users, u, c), t, pc);
    FinalityMove(s.pcs, s.rows, s.revoked, t, pc);
  }

  // ----- authorising -----

  lemma AuthLookupKeeps(s: Sys, t: Tid, c: CapId, now: Instant)
    requires Inv(s) && PcOf(s, t).Idle? && c in s.rows
    ensures Inv(DoAuthLookup(s, t, c, s.rows[c], now))
  {
    hide Sound, Guards, Holders, Owners, Quiet, Sleepers, Finality, UniqueVerifiers;
    AwakeUnlessWaiting(s, t);
    Move(s, t, Blocking(s.rows[c].user, c, Expire(now)));
    Move(s, t, Looked(s.rows[c].user, c, s.rows[c].verifier));
  }

  lemma AuthLeaseKeeps(s: Sys, t: Tid, l: LeaseId)
    requires Inv(s) && PcOf(s, t).Looked? && l !in s.leases
    ensures Inv(DoAuthLease(s, t, PcOf(s, t).u, PcOf(s, t).c, PcOf(s, t).v, l))
  {
    hide Sound, Guards, Holders, Owners, Quiet, Sleepers, Finality, UniqueVerifiers;
    var u, c, v := PcOf(s, t).u, PcOf(s, t).c, PcOf(s, t).v;
    AwakeUnlessWaiting(s, t);
    if Admits(s.users, u, Some(c)) {
      ThreadAcquireKeeps(s, t, l, Lease(u, Some(c), Thread(t)), Leased(u, c, v, l));
    } else {
      Move(s, t, Idle);
    }
  }

  /** A lease-holding position of the authoriser may be abandoned. */
  lemma LeaveKeeps(s: Sys, t: Tid, next: Pc)
    requires Inv(s)
    requires var pc := PcOf(s, t); pc.Leased? || pc.Checked? || pc.Opened? || pc.Authorized?
    requires next.Idle? || (next.Blocking? && next.job.Expire?)
    ensures var pc := PcOf(s, t); Inv(Goto(s, t, Leaving(pc.u, Some(pc.c), pc.l, next)))
  {
    hide Sound, Guards, Holders, Owners, Quiet, Sleepers, Finality, UniqueVerifiers;
    AwakeUnlessWaiting(s, t);
    var pc := PcOf(s, t);
    Move(s, t, Leaving(pc.u, Some(pc.c), pc.l, next));
  }

  lemma FinalAtCheck(s: Sys, t: Tid)
    requires Finality(s.pcs, s.rows, s.revoked)
    ensures FinalAt(PcOf(s, t), s.rows, s.revoked)
    ensures forall c :: c in s.revoked ==> c in s.rows && s.rows[c].revoked
  {
  }

  lemma AuthRecheckKeeps(s: Sys, t: Tid, now: Instant)
    requires Inv(s) && PcOf(s, t).Leased?
    ensures var pc := PcOf(s, t); Inv(DoAuthRecheck(s, t, pc.u, pc.c, pc.v, pc.l, now))
  {
    hide Sound, Guards, Holders, Owners, Quiet, Sleepers, Finality, UniqueVerifiers;
    var pc := PcOf(s, t);
    AwakeUnlessWaiting(s, t);
    LeaveKeeps(s, t, Idle);
    LeaveKeeps(s, t, Blocking(pc.u, pc.c, Expire(now)));
    FinalAtCheck(s, t);
    if pc.c in s.rows && s.rows[pc.c].user == pc.u && !s.rows[pc.c].revoked {
      Move(s, t, Checked(pc.u, pc.c, pc.l, s.rows[pc.c].expires, s.rows[pc.c].wrapped));
    }
  }

  lemma AuthActivityKeeps(s: Sys, t: Tid, now: Instant)
    requires Inv(s) && PcOf(s, t).Opened?
    ensures var pc := PcOf(s, t); Inv(DoAuthActivity(s, t, pc.u, pc.c, pc.l, pc.expires, now))
  {
    hide Sound, Guards, Holders, Owners, Quiet, Sleepers, Finality, UniqueVerifiers;
    var pc := PcOf(s, t);
    AwakeUnlessWaiting(s, t);
    LeaveKeeps(s, t, Idle);
    LeaveKeeps(s, t, Blocking(pc.u, pc.c, Expire(now)));
    FinalAtCheck(s, t);
    Move(s, t, Authorized(pc.u, pc.c, pc.l));
  }

  lemma AuthOpenKeeps(s: Sys, t: Tid)
    requires Inv(s) && PcOf(s, t).Checked?
    ensures Inv(DoAuthorize(s, t, AuthOpen))
  {
    hide Sound, Guards, Holders, Owners, Quiet, Sleepers, Finality, UniqueVerifiers;
    var pc := PcOf(s, t);
    AwakeUnlessWaiting(s, t);
    FinalAtCheck(s, t);
    LeaveKeeps(s, t, Idle);
    OpenIrrelevant(s, s.open + {pc.u});
    Move(s.(open := s.open + {pc.u}), t, Opened(pc.u, pc.c, pc.l, pc.expires));
  }

  // ----- the rest -----

  lemma InsertRowKeeps(s: Sys, c: CapId, row: Row)
    requires Inv(s)
    ensures Inv(Do(s, InsertRow(c, row)))
  {
    hide Sound, Guards, Holders, Owners, Quiet, Sleepers;
  }

  lemma NotifyKeeps(s: Sys)
    requires Inv(s)
    ensures Inv(Do(s, Notify))
  {
    hide Sound, Guards, Holders, Owners, Quiet, Finality, UniqueVerifiers;
  }

  lemma WakeKeeps(s: Sys, t: Tid)
    requires Inv(s)
    ensures Inv(Do(s, SpuriousWake(t)))
  {
    hide Sound, Guards, Holders, Owners, Quiet, Finality, UniqueVerifiers;
  }

  lemma RestartKeeps(s: Sys)
    requires Inv(s)
    ensures Inv(DoRestart(s))
  {
    hide Sound;
    RestartSound();
  }

  lemma RestartSound()
    ensures Sound(map[], map[])
  {
    forall u: UserId ensures Counts(Lookup(map[], u), map[], u) { CountsEmpty(u); }
  }

  lemma BeginKeeps(s: Sys, t: Tid, pc: Pc)
    requires Inv(s) && PcOf(s, t).Idle? && (pc.Claiming? || (pc.Blocking? && pc.job.Expire?))
    ensures Inv(Goto(s, t, pc))
  {
    hide Sound, Guards, Holders, Owners, Quiet, Sleepers, Finality, UniqueVerifiers;
    AwakeUnlessWaiting(s, t);
    Move(s, t, pc);
  }

  lemma LockKeeps(s: Sys, t: Tid, step: LockStep)
    requires Inv(s)
    ensures Inv(DoLock(s, t, step))
  {
    hide Inv;
    var pc := PcOf(s, t);
    match step
    case LockBegin(u) => if pc.Idle? { BeginKeeps(s, t, Claiming(u)); }
    case ClaimTry => if pc.Claiming? { ClaimTryKeeps(s, t); }
    case DrainTry => if pc.Draining? && t !in s.asleep { DrainTryKeeps(s, t); }
    case ExclusiveOpen => if pc.Exclusive? { OpenIrrelevant(s, s.open + {pc.u}); }
    case ExclusiveClear => if pc.Exclusive? { ClearKeeps(s, t); }
    case ExclusiveClose => if pc.Exclusive? { OpenIrrelevant(s, s.open - {pc.u}); }
    case ExclusiveDrop => if pc.Exclusive? { ExclusiveDropKeeps(s, t); }
  }

  lemma ShutdownKeeps(s: Sys, t: Tid, step: ShutStep)
    requires Inv(s)
    ensures Inv(DoShutdown(s, t, step))
  {
    hide Inv;
    var pc := PcOf(s, t);
    match step
    case RevokeBegin(u, c, l) =>
      if pc.Idle? && l !in s.leases && Admits(s.users, u, None) {
        ThreadAcquireKeeps(s, t, l, Lease(u, None, Thread(t)), Blocking(u, c, Revoke(l)));
      }
    case ExpireBegin(u, c, now) => if pc.Idle? { BeginKeeps(s, t, Blocking(u, c, Expire(now))); }
    case BlockTry => if pc.Blocking? { BlockTryKeeps(s, t); }
    case ShutWrite(ok) => if pc.Shut? { ShutWriteKeeps(s, t, ok); }
    case FlushTry => if pc.Flushing? && t !in s.asleep { FlushTryKeeps(s, t); }
    case ShutDrop => if pc.Unblocking? { ShutDropKeeps(s, t); }
  }

  lemma AuthorizeKeeps(s: Sys, t: Tid, step: AuthStep)
    requires Inv(s)
    ensures Inv(DoAuthorize(s, t, step))
  {
    hide Inv;
    var pc := PcOf(s, t);
    match step
    case AuthLookup(c, v, now) => if pc.Idle? && c in s.rows { AuthLookupKeeps(s, t, c, now); }
    case AuthLease(l) => if pc.Looked? && l !in s.leases { AuthLeaseKeeps(s, t, l); }
    case AuthRecheck(now) => if pc.Leased? { AuthRecheckKeeps(s, t, now); }
    case AuthOpen => if pc.Checked? { AuthOpenKeeps(s, t); }
    case AuthActivity(now) => if pc.Opened? { AuthActivityKeeps(s, t, now); }
    case AuthFail => if pc.Leased? || pc.Checked? || pc.Opened? { LeaveKeeps(s, t, Idle); }
    case RequestEnd => if pc.Authorized? { LeaveKeeps(s, t, Idle); }
  }

  /** The invariant is inductive. */
  lemma StepKeepsInv(s: Sys, e: Event)
    requires Inv(s)
    ensures Inv(Do(s, e))
  {
    hide Inv;
    match e
    case Acquire(l, u, cap, holder) =>
      if l !in s.leases && !holder.Thread? && Admits(s.users, u, cap) { AcquireKeeps(s, l, Lease(u, cap, holder)); }
    case Drop(l, closes) => if l in s.leases && !s.leases[l].holder.Thread? { DropKeeps(s, l, closes); }
    case PinSession(u, sid) => PinKeeps(s, u, sid);
    case UnpinSession(u, sid, closes) => UnpinKeeps(s, u, sid, closes);
    case OpenUnderLease(l) => if l in s.leases { OpenIrrelevant(s, s.open + {s.leases[l].user}); }
    case InsertRow(c, row) => InsertRowKeeps(s, c, row);
    case Notify => NotifyKeeps(s);
    case SpuriousWake(t) => WakeKeeps(s, t);
    case Restart => RestartKeeps(s);
    case Lock(t, step) => LockKeeps(s, t, step);
    case Shutdown(t, step) => ShutdownKeeps(s, t, step);
    case Authorize(t, step) => AuthorizeKeeps(s, t, step);
    case Leave(t, closes) => if PcOf(s, t).Leaving? { ThreadDropKeeps(s, t, closes); }
  }

  lemma InitInv()
    ensures Inv(INIT)
  {
    RestartSound();
  }

  /** Every run keeps the invariant. */
  lemma {:induction false} RunKeepsInv(s: Sys, es: seq<Event>)
    requires Inv(s)
    ensures Inv(Run(s, es))
    decreases |es|
  {
    hide Inv;
    if es != [] {
      StepKeepsInv(s, es[0]);
      RunKeepsInv(Do(s, es[0]), es[1..]);
    }
  }
}
