/** Pairings, leases and durable capabilities together.  The state joins the lifecycle protocol with
    the pairing store, the stored client names and the handlers of `src/backend/pairing.rs`.  The
    store's lock is held across a whole approval and a whole activation, while registry and database
    steps of other threads interleave with their calls.  A run is any sequence of events. */
module World {
  import opened Basics
  import opened Codes
  import opened Registry
  import opened Protocol
  import opened RateLimiter
  import opened Pairing
  import opened Activation

  /** Who holds the store's lock between events. */
  datatype StoreLock =
    | Free
    | BindingUser(id: CapId, user: UserId, lease: LeaseId, expiry: Option<Instant>)
    | Activating(t: Tid, id: CapId, v: Verifier, now: Instant, phase: Phase)

  /** A claim whose handler has left the store: what the store answered, if it knew the pairing. */
  datatype Pendency = Pendency(id: CapId, v: Verifier, now: Instant, stored: Option<Claimed>)

  datatype Approval = Approval(id: CapId, v: Verifier, user: UserId, name: Name)
  datatype Reply = Reply(id: CapId, v: Verifier, claimed: Claimed)

  datatype World = World(
    life: Sys,
    store: Store,
    lock: StoreLock,
    names: Names,
    finishing: map<Tid, Pendency>,
    opening: map<UserId, set<CapId>>,  // user databases being opened, with the identifiers to keep
    approvals: set<Approval>,          // history: every approval that bound a user
    replies: set<Reply>,               // history: every claim answered as active
    rowNames: map<CapId, Name>,        // history: the client name under which a row was written
    dirty: set<CapId>,                 // history: row writes that took effect but reported an error
    blind: set<CapId>)                 // history: rows whose name a compensation deleted

  const START := World(INIT, EMPTY, Free, map[], map[], map[], {}, {}, map[], {}, {})

  datatype Happening =
    | Life(e: Event)
    | StartPairing(now: Instant, ip: Source, req: Request, generated: seq<(CapId, CodeBytes)>, readable: bool)
    | ExpirePairing(now: Instant, id: CapId, closes: bool)
    | ApproveBegin(now: Instant, id: CapId, display: Text, user: UserId, lease: LeaseId, expiry: Option<Instant>)
    | ApproveEnd(dek: Option<nat>, readable: bool, closes: bool)
    | DenyPairing(now: Instant, id: CapId, display: Text)
    | ClaimBegin(t: Tid, now: Instant, id: CapId, v: Verifier)
    | ActivateStep(io: Io, closes: bool)
    | ClaimFinish(t: Tid, readable: bool)
    | OpenScan(u: UserId)
    | OpenPrune(u: UserId)
    | RestartServer

  /** Every operation first removes what has expired; here that is the business of ExpirePairing. */
  predicate NoneExpired(st: Store, now: Instant) {
    forall id :: id in st.pending ==> st.pending[id].expires > now
  }

  predicate VerifierKnown(rows: Rows, v: Verifier) {
    exists c :: c in rows && rows[c].verifier == v
  }

  function RowsOf(rows: Rows, u: UserId): set<CapId> {
    set c | c in rows && rows[c].user == u
  }

  /** The user whose database an event opens, if any. */
  function OpensFor(s: Sys, e: Event): Option<UserId> {
    match e
    case OpenUnderLease(l) => if l in s.leases then Some(s.leases[l].user) else None
    case Lock(t, ExclusiveOpen) => if PcOf(s, t).Exclusive? then Some(PcOf(s, t).u) else None
    case Authorize(t, AuthOpen) => if PcOf(s, t).Checked? && PcOf(s, t).wrapped then Some(PcOf(s, t).u) else None
    case _ => None
  }

  /** Lifecycle events other than those that the pairing handlers make themselves.  An initialisation
      in progress keeps a second one of the same user waiting. */
  predicate Foreign(w: World, e: Event) {
    match e
    case Acquire(_, _, _, holder) => !holder.Pairing?
    case Drop(l, _) => l in w.life.leases && !w.life.leases[l].holder.Pairing?
    case InsertRow(_, _) => false
    case Restart => false
    case _ => OpensFor(w.life, e).Some? ==> OpensFor(w.life, e).value !in w.opening
  }

  /** Removes one expired entry together with its reservation; an approved entry drops its lease. */
  function DoExpire(w: World, id: CapId, closes: bool): World
    requires id in w.store.pending
  {
    var e := w.store.pending[id];
    var store := w.store.(pending := w.store.pending - {id}, verifiers := w.store.verifiers - {e.verifier});
    var life := if e.status.Approved? && e.status.lease in w.life.leases then DoDrop(w.life, e.status.lease, closes) else w.life;
    w.(store := store, life := life)
  }

  function DoApproveBegin(w: World, id: CapId, user: UserId, l: LeaseId, expiry: Option<Instant>): World {
    if l !in w.life.leases && Admits(w.life.users, user, None) then
      w.(life := DoAcquire(w.life, l, Lease(user, None, Pairing(id))), lock := BindingUser(id, user, l, expiry))
    else w
  }

  /** The second half of the bind closure: the database key is available only while the user database
      is open; otherwise the lease is dropped again. */
  function DoApproveEnd(w: World, dek: Option<nat>, readable: bool, closes: bool): World
    requires w.lock.BindingUser? && w.lock.id in w.store.pending && w.lock.lease in w.life.leases
  {
    var id, user, l := w.lock.id, w.lock.user, w.lock.lease;
    if readable && user in w.life.open then
      var e := w.store.pending[id];
      w.(store := SetStatus(w.store, id, Approved(user, dek, l, w.lock.expiry)),
         approvals := w.approvals + {Approval(id, e.verifier, user, e.name)},
         lock := Free)
    else w.(life := DoDrop(w.life, l, closes), lock := Free)
  }

  function DoClaimBegin(w: World, t: Tid, now: Instant, id: CapId, v: Verifier): World {
    if Activates(w.store, now, id, v) then w.(lock := Activating(t, id, v, now, Probe))
    else
      match Pairing.Claim(w.store, now, id, v, None).1
      case Ok(claimed) => w.(finishing := w.finishing[t := Pendency(id, v, now, Some(claimed))])
      case Err(NotFound) => w.(finishing := w.finishing[t := Pendency(id, v, now, None)])
      case Err(_) => w
  }

  function GrantOf(w: World): Grant
    requires w.lock.Activating? && w.lock.id in w.store.pending && w.store.pending[w.lock.id].status.Approved?
  {
    var e := w.store.pending[w.lock.id];
    Grant(w.lock.id, w.lock.v, e.status.user, e.status.dek, e.name, e.permission, e.status.activeExpiry)
  }

  /** One database call of the activation. */
  function Advanced(w: World, io: Io): World
    requires CanActivate(w)
  {
    var g := GrantOf(w);
    var (db, phase) := Advance(Db(w.life.rows, w.names), g, w.lock.now, w.lock.phase, io);
    w.(life := w.life.(rows := db.rows), names := db.names, lock := w.lock.(phase := phase),
       rowNames := if w.lock.phase.WriteRow? && db.rows != w.life.rows then w.rowNames[g.id := g.name] else w.rowNames,
       dirty := if w.lock.phase.WriteRow? && io.FailsAfterEffect? then w.dirty + {g.id} else w.dirty,
       blind := if w.lock.phase.Undo? && !io.Fails? && g.id in w.life.rows then w.blind + {g.id} else w.blind)
  }

  /** The end of an activation frees the store; a success completes the entry and drops its lease. */
  function DoActivate(w: World, io: Io, closes: bool): World
    requires CanActivate(w)
  {
    var id, w1 := w.lock.id, Advanced(w, io);
    match w1.lock.phase
    case Done(None) => w1.(lock := Free)
    case Done(Some(claimed)) =>
      w1.(life := DoDrop(w1.life, w.store.pending[id].status.lease, closes),
          store := Complete(w1.store, id, claimed),
          finishing := w1.finishing[w.lock.t := Pendency(id, w.lock.v, w.lock.now, Some(claimed))],
          lock := Free)
    case _ => w1
  }

  /** The last check of `claim_pairing`, made without the store's lock: what it answers as active. */
  function Answer(rows: Rows, p: Pendency): Option<Claimed> {
    match DurableClaim(rows, p.id, p.v, p.now)
    case Active(claimed) => if p.stored.Some? ==> p.stored.value == claimed then Some(claimed) else None
    case _ => None
  }

  function DoFinish(w: World, t: Tid, readable: bool): World
    requires t in w.finishing
  {
    var p := w.finishing[t];
    var answer := Answer(w.life.rows, p);
    w.(finishing := w.finishing - {t},
       replies := if readable && answer.Some? then w.replies + {Reply(p.id, p.v, answer.value)} else w.replies)
  }

  /** Opening a user database removes stored names whose capability was not listed when it began. */
  function DoPrune(w: World, u: UserId): World
    requires u in w.opening
  {
    w.(names := map k | k in w.names && (k.0 != u || k.1 in w.opening[u]) :: w.names[k],
       opening := w.opening - {u})
  }

  predicate CanActivate(w: World) {
    && w.lock.Activating?
    && w.lock.id in w.store.pending
    && w.store.pending[w.lock.id].status.Approved?
    && w.store.pending[w.lock.id].status.lease in w.life.leases
  }

  ghost function Next(w: World, h: Happening): World {
    match h
    case Life(e) => if Foreign(w, e) then w.(life := Do(w.life, e)) else w
    case StartPairing(now, ip, req, generated, readable) =>
      if w.lock.Free? && NoneExpired(w.store, now) then
        var known := if readable then Some(VerifierKnown(w.life.rows, req.verifier)) else None;
        w.(store := StartStore(w.store, now, ip, req, generated, known))
      else w
    case ExpirePairing(now, id, closes) =>
      if w.lock.Free? && id in w.store.pending && w.store.pending[id].expires <= now
      then DoExpire(w, id, closes) else w
    case ApproveBegin(now, id, display, user, lease, expiry) =>
      if w.lock.Free? && NoneExpired(w.store, now) && AsksToBind(w.store, now, id, display)
      then DoApproveBegin(w, id, user, lease, expiry) else w
    case ApproveEnd(dek, readable, closes) =>
      if w.lock.BindingUser? && w.lock.id in w.store.pending && w.lock.lease in w.life.leases
      then DoApproveEnd(w, dek, readable, closes) else w
    case DenyPairing(now, id, display) =>
      if w.lock.Free? && NoneExpired(w.store, now)
      then w.(store := Pairing.Deny(w.store, now, id, display).0) else w
    case ClaimBegin(t, now, id, v) =>
      if w.lock.Free? && NoneExpired(w.store, now) && t !in w.finishing
      then DoClaimBegin(w, t, now, id, v) else w
    case ActivateStep(io, closes) => if CanActivate(w) then DoActivate(w, io, closes) else w
    case ClaimFinish(t, readable) => if t in w.finishing then DoFinish(w, t, readable) else w
    case OpenScan(u) =>
      if u !in w.life.open && u !in w.opening then w.(opening := w.opening[u := RowsOf(w.life.rows, u)]) else w
    case OpenPrune(u) => if u in w.opening then DoPrune(w, u) else w
    case RestartServer => w.(life := Do(w.life, Restart), store := EMPTY, lock := Free, finishing := map[], opening := map[])
  }

  ghost function Runs(w: World, hs: seq<Happening>): World
    decreases |hs|
  {
    if hs == [] then w else Runs(Next(w, hs[0]), hs[1..])
  }

  // ----- the invariant -----

  /** The lease an entry holds, if it is approved. */
  predicate Bound(e: Entry, l: LeaseId) { e.status.Approved? && e.status.lease == l }

  /** Pairing leases and approved entries correspond; while an approval is binding its user, that one
      lease is not yet in an entry. */
  ghost predicate LeaseLink(pending: Pending, leases: Leases, lock: StoreLock) {
    && (forall id :: id in pending && pending[id].status.Approved? ==>
         pending[id].status.lease in leases
         && leases[pending[id].status.lease] == Lease(pending[id].status.user, None, Pairing(id)))
    && (forall l :: l in leases && leases[l].holder.Pairing? ==>
         (leases[l].holder.id in pending && Bound(pending[leases[l].holder.id], l))
         || (lock.BindingUser? && lock.lease == l && lock.id == leases[l].holder.id))
    && (lock.BindingUser? ==>
         && lock.id in pending && pending[lock.id].status.Awaiting?
         && lock.lease in leases && leases[lock.lease] == Lease(lock.user, None, Pairing(lock.id)))
  }

  /** The database of an approved user is open. */
  ghost predicate OpenLink(pending: Pending, open: set<UserId>) {
    forall id :: id in pending && pending[id].status.Approved? ==> pending[id].status.user in open
  }

  /** A database being opened is closed, and no row of its user has appeared since the scan. */
  ghost predicate ScanLink(opening: map<UserId, set<CapId>>, open: set<UserId>, rows: Rows) {
    forall u :: u in opening ==> u !in open && opening[u] == RowsOf(rows, u)
  }

  /** A verifier belongs to one identifier, pending or durable; a durable row of a pending entry was
      written by its activation. */
  ghost predicate KeyLink(pending: Pending, rows: Rows) {
    && (forall id, c :: id in pending && c in rows && pending[id].verifier == rows[c].verifier ==> id == c)
    && (forall id :: id in pending && id in rows && pending[id].verifier == rows[id].verifier ==>
         RowOf(pending[id], rows[id]))
  }

  predicate RowOf(e: Entry, row: Row) {
    match e.status
    case Approved(user, _, _, _) => row.user == user && row.permission == e.permission
    case Completed(claimed) => claimed == Claimed(row.user, row.permission)
    case _ => false
  }

  /** Where an activation stands. */
  ghost predicate PhaseLink(w: World) {
    w.lock.Activating? ==>
      && w.lock.id in w.store.pending
      && w.store.pending[w.lock.id].verifier == w.lock.v
      && w.store.pending[w.lock.id].status.Approved?
      && !w.lock.phase.Done?
      && (w.lock.phase.WriteName? || w.lock.phase.Wrap? || w.lock.phase.WriteRow? ==> w.lock.id !in w.life.rows)
      && (w.lock.phase.Wrap? || w.lock.phase.WriteRow? || w.lock.phase.Reprobe? || w.lock.phase.Undo? ==>
           var g := GrantOf(w);
           && (g.user, g.id) in w.names && w.names[(g.user, g.id)] == g.name
           && (g.id in w.life.rows ==>
                w.life.rows[g.id].user == g.user && w.life.rows[g.id].verifier == g.v && g.id in w.dirty))
  }

  /** A durable row has its stored client name exactly when no compensation deleted it, and that name
      is the one it was approved under. */
  ghost predicate NameLink(w: World) {
    && (forall id :: id in w.life.rows ==>
         && id in w.rowNames
         && Approval(id, w.life.rows[id].verifier, w.life.rows[id].user, w.rowNames[id]) in w.approvals
         && ((w.life.rows[id].user, id) in w.names <==> id !in w.blind)
         && (id !in w.blind ==> w.names[(w.life.rows[id].user, id)] == w.rowNames[id]))
    && w.blind <= w.dirty
    && (forall id :: id in w.blind ==> id in w.life.rows)
  }

  ghost predicate ApprovalLink(pending: Pending, approvals: set<Approval>) {
    forall id :: id in pending && pending[id].status.Approved? ==>
      Approval(id, pending[id].verifier, pending[id].status.user, pending[id].name) in approvals
  }

  ghost predicate ReplyLink(replies: set<Reply>, rows: Rows) {
    forall r :: r in replies ==>
      r.id in rows && rows[r.id].verifier == r.v && r.claimed == Claimed(rows[r.id].user, rows[r.id].permission)
  }

  ghost predicate WInv(w: World) {
    && Inv(w.life)
    && Wf(w.store)
    && LeaseLink(w.store.pending, w.life.leases, w.lock)
    && OpenLink(w.store.pending, w.life.open)
    && ScanLink(w.opening, w.life.open, w.life.rows)
    && KeyLink(w.store.pending, w.life.rows)
    && PhaseLink(w)
    && NameLink(w)
    && ApprovalLink(w.store.pending, w.approvals)
    && ReplyLink(w.replies, w.life.rows)
  }
}
