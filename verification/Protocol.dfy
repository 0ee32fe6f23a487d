/** The lifecycle protocol as a step system.  One event is one critical section of
    `src/auth/lifecycle.rs` or one database call of a client of the registry; threads interleave
    freely between events.  The clients are `authorize_client_request`, `revoke_paired_client`,
    `shutdown_expired_client_capability`, holders of the exclusive user guard, and plain requests.
    An event that is not enabled leaves the state unchanged, so a run is any sequence of events. */
module Protocol {
  import opened Basics
  import opened Registry

  /** A durable client capability (one row of the application database). */
  datatype Row = Row(
    user: UserId,
    verifier: Verifier,
    permission: nat,
    expires: Option<Instant>,
    wrapped: bool,
    revoked: bool)

  const BALANCES_READ: nat := 0

  type Rows = map<CapId, Row>

  /** Why a thread shuts a capability down: a revocation, made by a handler that holds the lease of
      its own browser session, or the retirement of an expired capability. */
  datatype Job = Revoke(session: LeaseId) | Expire(at: Instant)

  datatype Pc =
    | Idle
      // acquire_user_lifecycle_lock and its guard
    | Claiming(u: UserId)
    | Draining(u: UserId)
    | Exclusive(u: UserId)
      // begin_capability_shutdown, the database write, wait_for_requests, the guard drop
    | Blocking(u: UserId, c: CapId, job: Job)
    | Shut(u: UserId, c: CapId, job: Job)
    | Flushing(u: UserId, c: CapId, job: Job)
    | Unblocking(u: UserId, c: CapId, job: Job)
      // authorize_client_request
    | Looked(u: UserId, c: CapId, v: Verifier)
    | Leased(u: UserId, c: CapId, v: Verifier, l: LeaseId)
    | Checked(u: UserId, c: CapId, l: LeaseId, expires: Option<Instant>, wrapped: bool)
    | Opened(u: UserId, c: CapId, l: LeaseId, expires: Option<Instant>)
    | Authorized(u: UserId, c: CapId, l: LeaseId)
      // about to drop its lease, and then perhaps to retire the capability
    | Leaving(u: UserId, cap: Option<CapId>, l: LeaseId, next: Pc)

  datatype Sys = Sys(
    users: Users,
    pcs: map<Tid, Pc>,
    asleep: set<Tid>,          // threads blocked in Condvar::wait
    owed: nat,                 // notify_all calls issued after the lock was released, still to come
    open: set<UserId>,         // open user databases
    rows: Rows,
    leases: Leases,            // live UserRequestLease objects
    claims: map<UserId, Tid>,  // who has set the exclusive flag
    shuts: map<(UserId, CapId), Tid>,  // who holds the capability shutdown guard
    revoked: set<CapId>)       // capabilities whose revocation has been answered "revoked"

  const INIT := Sys(map[], map[], {}, 0, {}, map[], map[], map[], map[], {})

  function PcOf(s: Sys, t: Tid): Pc {
    if t in s.pcs then s.pcs[t] else Idle
  }

  predicate Awake(s: Sys, t: Tid) { t !in s.asleep }

  function Goto(s: Sys, t: Tid, pc: Pc): Sys { s.(pcs := s.pcs[t := pc]) }
  function Sleep(s: Sys, t: Tid): Sys { s.(asleep := s.asleep + {t}) }
  function NotifyAll(s: Sys): Sys { s.(asleep := {}) }

  /** Steps of a thread that takes the exclusive user guard (login, registration, user removal). */
  datatype LockStep =
    | LockBegin(u: UserId)
    | ClaimTry
    | DrainTry
    | ExclusiveOpen
    | ExclusiveClear
    | ExclusiveClose
    | ExclusiveDrop

  /** Steps of a thread that shuts a capability down. */
  datatype ShutStep =
    | RevokeBegin(u: UserId, c: CapId, l: LeaseId)
    | ExpireBegin(u: UserId, c: CapId, now: Instant)
    | BlockTry
    | ShutWrite(ok: bool)
    | FlushTry
    | ShutDrop

  /** Steps of a thread that authorises and serves a client request. */
  datatype AuthStep =
    | AuthLookup(c: CapId, v: Verifier, now: Instant)
    | AuthLease(l: LeaseId)
    | AuthRecheck(now: Instant)
    | AuthOpen
    | AuthActivity(now: Instant)
    | AuthFail
    | RequestEnd

  datatype Event =
    | Acquire(l: LeaseId, u: UserId, cap: Option<CapId>, holder: Holder)
    | Drop(l: LeaseId, closes: bool)
    | PinSession(u: UserId, sid: SessionId)
    | UnpinSession(u: UserId, sid: SessionId, closes: bool)
    | OpenUnderLease(l: LeaseId)
    | InsertRow(c: CapId, row: Row)
    | Notify
    | SpuriousWake(t: Tid)
    | Restart
    | Lock(t: Tid, lock: LockStep)
    | Shutdown(t: Tid, shut: ShutStep)
    | Authorize(t: Tid, auth: AuthStep)
    | Leave(t: Tid, closes: bool)

  // ----- plain requests, sessions and database handles -----

  /** `acquire_request` on behalf of a given holder. */
  function DoAcquire(s: Sys, l: LeaseId, lease: Lease): Sys {
    s.(users := Admit(s.users, lease.user, lease.cap), leases := s.leases[l := lease])
  }

  /** `Drop for UserRequestLease`; `closes` says whether the database close succeeds.  The
      notification comes after the lock is released. */
  function DoDrop(s: Sys, l: LeaseId, closes: bool): Sys
    requires l in s.leases
  {
    var u, cap := s.leases[l].user, s.leases[l].cap;
    s.(users := Release(s.users, u, cap),
       leases := s.leases - {l},
       open := if ReleaseCloses(s.users, u, cap) && closes then s.open - {u} else s.open,
       owed := if u in s.users then s.owed + 1 else s.owed)
  }

  /** The process dies and starts again, at any point: only what the databases hold survives, and the
      answers that were given. */
  function DoRestart(s: Sys): Sys { INIT.(rows := s.rows, revoked := s.revoked) }

  /** `unpin_browser_session`: when the close fails the function returns before it notifies. */
  function DoUnpin(s: Sys, u: UserId, sid: SessionId, closes: bool): Sys {
    var closing := UnpinCloses(s.users, u, sid);
    s.(users := Unpin(s.users, u, sid),
       open := if closing && closes then s.open - {u} else s.open,
       owed := if u in s.users && (closing ==> closes) then s.owed + 1 else s.owed)
  }

  // ----- the exclusive user guard -----

  /** One pass of the claim loop.  Claiming, notifying and the first drain test happen without
      releasing the lock. */
  function DoClaimTry(s: Sys, t: Tid, u: UserId): Sys {
    if ClaimReady(Lookup(s.users, u)) then
      var s1 := NotifyAll(s.(users := Claim(s.users, u), claims := s.claims[u := t]));
      if DrainReady(Lookup(s.users, u)) then Goto(s1, t, Exclusive(u))
      else Sleep(Goto(s1, t, Draining(u)), t)
    else Sleep(s, t)
  }

  function DoDrainTry(s: Sys, t: Tid, u: UserId): Sys {
    if DrainReady(Lookup(s.users, u)) then Goto(s, t, Exclusive(u)) else Sleep(s, t)
  }

  function DoExclusiveDrop(s: Sys, t: Tid, u: UserId): Sys {
    NotifyAll(Goto(s.(users := Unclaim(s.users, u), claims := s.claims - {u}), t, Idle))
  }

  // ----- capability shutdown -----

  function DoBlockTry(s: Sys, t: Tid, u: UserId, c: CapId, job: Job): Sys {
    if BlockReady(Lookup(s.users, u), c) then
      NotifyAll(Goto(s.(users := Block(s.users, u, c), shuts := s.shuts[(u, c) := t]), t, Shut(u, c, job)))
    else Sleep(s, t)
  }

  /** `revoke_client_capability` or `clear_expired_client_capability_wrap`. */
  function DoShutWrite(s: Sys, t: Tid, u: UserId, c: CapId, job: Job, ok: bool): Sys {
    if !ok then Goto(s, t, Unblocking(u, c, job))
    else
      var found := c in s.rows && s.rows[c].user == u;
      match job
      case Revoke(_) =>
        if found then
          Goto(s.(rows := s.rows[c := s.rows[c].(wrapped := false, revoked := true)]), t, Flushing(u, c, job))
        else Goto(s, t, Unblocking(u, c, job))
      case Expire(now) =>
        var clears := found && !s.rows[c].revoked && Basics.Expired(s.rows[c].expires, now);
        var rows := if clears then s.rows[c := s.rows[c].(wrapped := false)] else s.rows;
        Goto(s.(rows := rows), t, Flushing(u, c, job))
  }

  /** One pass of `wait_for_requests`; once a revocation has drained, its answer is decided. */
  function DoFlushTry(s: Sys, t: Tid, u: UserId, c: CapId, job: Job): Sys {
    if FlushReady(Lookup(s.users, u), c) then
      Goto(s.(revoked := if job.Revoke? then s.revoked + {c} else s.revoked), t, Unblocking(u, c, job))
    else Sleep(s, t)
  }

  function DoShutDrop(s: Sys, t: Tid, u: UserId, c: CapId, job: Job): Sys {
    var next := match job case Revoke(l) => Leaving(u, None, l, Idle) case Expire(_) => Idle;
    NotifyAll(Goto(s.(users := Unblock(s.users, u, c), shuts := s.shuts - {(u, c)}), t, next))
  }

  // ----- authorising a client request -----

  /** The identity lookup by verifier and the checks made before any lease is taken. */
  function DoAuthLookup(s: Sys, t: Tid, c: CapId, row: Row, now: Instant): Sys {
    if row.revoked then s
    else if Basics.Expired(row.expires, now) then Goto(s, t, Blocking(row.user, c, Expire(now)))
    else if row.permission != BALANCES_READ then s
    else Goto(s, t, Looked(row.user, c, row.verifier))
  }

  function DoAuthLease(s: Sys, t: Tid, u: UserId, c: CapId, v: Verifier, l: LeaseId): Sys {
    if Admits(s.users, u, Some(c)) then
      Goto(DoAcquire(s, l, Lease(u, Some(c), Thread(t))), t, Leased(u, c, v, l))
    else Goto(s, t, Idle)
  }

  /** The recheck under the lease. */
  function DoAuthRecheck(s: Sys, t: Tid, u: UserId, c: CapId, v: Verifier, l: LeaseId, now: Instant): Sys {
    if c !in s.rows || s.rows[c].user != u || s.rows[c].verifier != v || s.rows[c].revoked then
      Goto(s, t, Leaving(u, Some(c), l, Idle))
    else if Basics.Expired(s.rows[c].expires, now) then
      Goto(s, t, Leaving(u, Some(c), l, Blocking(u, c, Expire(now))))
    else if s.rows[c].permission != BALANCES_READ then Goto(s, t, Leaving(u, Some(c), l, Idle))
    else Goto(s, t, Checked(u, c, l, s.rows[c].expires, s.rows[c].wrapped))
  }

  /** `client_key_open_mode` and `initialize_user_db`: a record without a wrapped key opens nothing. */
  function DoAuthOpen(s: Sys, t: Tid, u: UserId, c: CapId, l: LeaseId, expires: Option<Instant>, wrapped: bool): Sys {
    if wrapped then Goto(s.(open := s.open + {u}), t, Opened(u, c, l, expires))
    else Goto(s, t, Leaving(u, Some(c), l, Idle))
  }

  /** The last expiry test and `record_client_capability_activity`. */
  function DoAuthActivity(s: Sys, t: Tid, u: UserId, c: CapId, l: LeaseId, expires: Option<Instant>,
                          now: Instant): Sys {
    if Basics.Expired(expires, now) then
      Goto(s, t, Leaving(u, Some(c), l, Blocking(u, c, Expire(now))))
    else if c in s.rows && s.rows[c].user == u && !s.rows[c].revoked && !Basics.Expired(s.rows[c].expires, now) then
      Goto(s, t, Authorized(u, c, l))
    else Goto(s, t, Leaving(u, Some(c), l, Idle))
  }

  function DoThreadDrop(s: Sys, t: Tid, l: LeaseId, next: Pc, closes: bool): Sys
    requires l in s.leases
  {
    Goto(DoDrop(s, l, closes), t, next)
  }

  function DoLock(s: Sys, t: Tid, step: LockStep): Sys {
    var pc := PcOf(s, t);
    match step
    case LockBegin(u) => if pc.Idle? then Goto(s, t, Claiming(u)) else s
    case ClaimTry => if pc.Claiming? && Awake(s, t) then DoClaimTry(s, t, pc.u) else s
    case DrainTry => if pc.Draining? && Awake(s, t) then DoDrainTry(s, t, pc.u) else s
    case ExclusiveOpen => if pc.Exclusive? then s.(open := s.open + {pc.u}) else s
    case ExclusiveClear => if pc.Exclusive? then s.(users := ClearSessions(s.users, pc.u)) else s
    case ExclusiveClose => if pc.Exclusive? then s.(open := s.open - {pc.u}) else s
    case ExclusiveDrop => if pc.Exclusive? then DoExclusiveDrop(s, t, pc.u) else s
  }

  function DoShutdown(s: Sys, t: Tid, step: ShutStep): Sys {
    var pc := PcOf(s, t);
    match step
    case RevokeBegin(u, c, l) =>
      if pc.Idle? && l !in s.leases && Admits(s.users, u, None)
      then Goto(DoAcquire(s, l, Lease(u, None, Thread(t))), t, Blocking(u, c, Revoke(l))) else s
    case ExpireBegin(u, c, now) => if pc.Idle? then Goto(s, t, Blocking(u, c, Expire(now))) else s
    case BlockTry => if pc.Blocking? && Awake(s, t) then DoBlockTry(s, t, pc.u, pc.c, pc.job) else s
    case ShutWrite(ok) => if pc.Shut? then DoShutWrite(s, t, pc.u, pc.c, pc.job, ok) else s
    case FlushTry => if pc.Flushing? && Awake(s, t) then DoFlushTry(s, t, pc.u, pc.c, pc.job) else s
    case ShutDrop => if pc.Unblocking? then DoShutDrop(s, t, pc.u, pc.c, pc.job) else s
  }

  function DoAuthorize(s: Sys, t: Tid, step: AuthStep): Sys {
    var pc := PcOf(s, t);
    match step
    case AuthLookup(c, v, now) =>
      if pc.Idle? && c in s.rows && s.rows[c].verifier == v then DoAuthLookup(s, t, c, s.rows[c], now) else s
    case AuthLease(l) => if pc.Looked? && l !in s.leases then DoAuthLease(s, t, pc.u, pc.c, pc.v, l) else s
    case AuthRecheck(now) => if pc.Leased? then DoAuthRecheck(s, t, pc.u, pc.c, pc.v, pc.l, now) else s
    case AuthOpen =>
      if pc.Checked? then DoAuthOpen(s, t, pc.u, pc.c, pc.l, pc.expires, pc.wrapped) else s
    case AuthActivity(now) =>
      if pc.Opened? then DoAuthActivity(s, t, pc.u, pc.c, pc.l, pc.expires, now) else s
    case AuthFail =>
      if pc.Leased? || pc.Checked? || pc.Opened? then Goto(s, t, Leaving(pc.u, Some(pc.c), pc.l, Idle)) else s
    case RequestEnd => if pc.Authorized? then Goto(s, t, Leaving(pc.u, Some(pc.c), pc.l, Idle)) else s
  }

  function Do(s: Sys, e: Event): Sys {
    match e
    case Acquire(l, u, cap, holder) =>
      if l !in s.leases && !holder.Thread? && Admits(s.users, u, cap)
      then DoAcquire(s, l, Lease(u, cap, holder)) else s
    case Drop(l, closes) =>
      if l in s.leases && !s.leases[l].holder.Thread? then DoDrop(s, l, closes) else s
    case PinSession(u, sid) => s.(users := Pin(s.users, u, sid))
    case UnpinSession(u, sid, closes) => DoUnpin(s, u, sid, closes)
    case OpenUnderLease(l) =>
      if l in s.leases then s.(open := s.open + {s.leases[l].user}) else s
    case InsertRow(c, row) =>
      if c !in s.rows && !row.revoked && (forall d | d in s.rows :: s.rows[d].verifier != row.verifier)
      then s.(rows := s.rows[c := row]) else s
    case Notify => if s.owed > 0 then NotifyAll(s.(owed := s.owed - 1)) else s
    case SpuriousWake(t) => s.(asleep := s.asleep - {t})
    case Restart => DoRestart(s)
    case Lock(t, step) => DoLock(s, t, step)
    case Shutdown(t, step) => DoShutdown(s, t, step)
    case Authorize(t, step) => DoAuthorize(s, t, step)
    case Leave(t, closes) =>
      var pc := PcOf(s, t);
      if pc.Leaving? && pc.l in s.leases then DoThreadDrop(s, t, pc.l, pc.next, closes) else s
  }

  /** The state after a run. */
  function Run(s: Sys, es: seq<Event>): Sys
    decreases |es|
  {
    if es == [] then s else Run(Do(s, es[0]), es[1..])
  }

  // ----- what a program counter says a thread holds -----

  function PcClaim(pc: Pc): Option<UserId> {
    match pc
    case Draining(u) => Some(u)
    case Exclusive(u) => Some(u)
    case _ => None
  }

  function PcShut(pc: Pc): Option<(UserId, CapId)> {
    match pc
    case Shut(u, c, _) => Some((u, c))
    case Flushing(u, c, _) => Some((u, c))
    case Unblocking(u, c, _) => Some((u, c))
    case _ => None
  }

  /** The lease a thread holds, with the user and capability it was taken for. */
  function PcLease(pc: Pc): Option<(LeaseId, UserId, Option<CapId>)> {
    match pc
    case Blocking(u, _, Revoke(l)) => Some((l, u, None))
    case Shut(u, _, Revoke(l)) => Some((l, u, None))
    case Flushing(u, _, Revoke(l)) => Some((l, u, None))
    case Unblocking(u, _, Revoke(l)) => Some((l, u, None))
    case Leased(u, c, _, l) => Some((l, u, Some(c)))
    case Checked(u, c, l, _, _) => Some((l, u, Some(c)))
    case Opened(u, c, l, _) => Some((l, u, Some(c)))
    case Authorized(u, c, l) => Some((l, u, Some(c)))
    case Leaving(u, cap, l, _) => Some((l, u, cap))
    case _ => None
  }

  /** The user whose wait loop the thread is in, if any. */
  function WaitsOn(pc: Pc): Option<UserId> {
    match pc
    case Claiming(u) => Some(u)
    case Draining(u) => Some(u)
    case Blocking(u, _, _) => Some(u)
    case Flushing(u, _, _) => Some(u)
    case _ => None
  }

  /** The four wait predicates of the source. */
  predicate Ready(users: Users, pc: Pc) {
    match pc
    case Claiming(u) => ClaimReady(Lookup(users, u))
    case Draining(u) => DrainReady(Lookup(users, u))
    case Blocking(u, c, _) => BlockReady(Lookup(users, u), c)
    case Flushing(u, c, _) => FlushReady(Lookup(users, u), c)
    case _ => true
  }

  /** Past the recheck: the request has been, or is about to be, authorised for this capability. */
  predicate PastCheck(pc: Pc) { pc.Checked? || pc.Opened? || pc.Authorized? }

  // ----- the invariant -----

  // Each part reads only the fields it is about, so that an event that leaves those fields alone
  // keeps the part for free.

  /** The flags of a state are set exactly while some thread holds the matching guard. */
  ghost predicate Guards(users: Users, claims: map<UserId, Tid>, shuts: map<(UserId, CapId), Tid>) {
    && (forall u :: u in users && users[u].exclusive ==> u in claims)
    && (forall u :: u in claims ==> u in users && users[u].exclusive && users[u].blocked == {})
    && (forall u, c :: u in users && c in users[u].blocked ==> (u, c) in shuts)
    && (forall k :: k in shuts ==> k.0 in users && k.1 in users[k.0].blocked)
  }

  /** Each guard belongs to one thread, and the thread's program counter says so. */
  ghost predicate Holders(pcs: map<Tid, Pc>, claims: map<UserId, Tid>, shuts: map<(UserId, CapId), Tid>) {
    && (forall u :: u in claims ==> claims[u] in pcs && PcClaim(pcs[claims[u]]) == Some(u))
    && (forall t :: t in pcs && PcClaim(pcs[t]).Some? ==>
         PcClaim(pcs[t]).value in claims && claims[PcClaim(pcs[t]).value] == t)
    && (forall k :: k in shuts ==> shuts[k] in pcs && PcShut(pcs[shuts[k]]) == Some(k))
    && (forall t :: t in pcs && PcShut(pcs[t]).Some? ==>
         PcShut(pcs[t]).value in shuts && shuts[PcShut(pcs[t]).value] == t)
  }

  /** A thread's lease is live, and every lease tagged with a thread is that thread's. */
  ghost predicate Owners(pcs: map<Tid, Pc>, leases: Leases) {
    && (forall t :: t in pcs && PcLease(pcs[t]).Some? ==>
         var h := PcLease(pcs[t]).value;
         h.0 in leases && leases[h.0] == Lease(h.1, h.2, Thread(t)))
    && (forall l :: l in leases && leases[l].holder.Thread? ==>
         var t := leases[l].holder.t;
         t in pcs && PcLease(pcs[t]).Some? && PcLease(pcs[t]).value.0 == l)
    && (forall t :: t in pcs && pcs[t].Leaving? ==>
         pcs[t].next.Idle? || (pcs[t].next.Blocking? && pcs[t].next.job.Expire?))
  }

  /** A returned exclusive guard has drained every request. */
  ghost predicate Quiet(pcs: map<Tid, Pc>, users: Users) {
    forall t :: t in pcs && pcs[t].Exclusive? ==> pcs[t].u in users && users[pcs[t].u].active == 0
  }

  /** No lost wakeups: a sleeping thread whose wait predicate holds has a notification coming. */
  ghost predicate Sleepers(asleep: set<Tid>, pcs: map<Tid, Pc>, users: Users, owed: nat) {
    forall t :: t in asleep ==>
      t in pcs && WaitsOn(pcs[t]).Some? && (Ready(users, pcs[t]) ==> owed > 0)
  }

  /** A revocation that has drained is final. */
  ghost predicate Finality(pcs: map<Tid, Pc>, rows: Rows, revoked: set<CapId>) {
    && (forall t :: t in pcs && PastCheck(pcs[t]) ==>
         pcs[t].c in rows && rows[pcs[t].c].user == pcs[t].u && pcs[t].c !in revoked)
    && (forall t :: t in pcs && pcs[t].Flushing? && pcs[t].job.Revoke? ==>
         pcs[t].c in rows && rows[pcs[t].c].user == pcs[t].u && rows[pcs[t].c].revoked)
    && (forall c :: c in revoked ==> c in rows && rows[c].revoked)
  }

  /** Verifiers are unique among durable rows. */
  ghost predicate UniqueVerifiers(rows: Rows) {
    forall c, d :: c in rows && d in rows && rows[c].verifier == rows[d].verifier ==> c == d
  }

  ghost predicate Inv(s: Sys) {
    && Sound(s.users, s.leases)
    && Guards(s.users, s.claims, s.shuts)
    && Holders(s.pcs, s.claims, s.shuts)
    && Owners(s.pcs, s.leases)
    && Quiet(s.pcs, s.users)
    && Sleepers(s.asleep, s.pcs, s.users, s.owed)
    && Finality(s.pcs, s.rows, s.revoked)
    && UniqueVerifiers(s.rows)
  }
}
