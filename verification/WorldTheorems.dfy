/** What pairings, leases and durable capabilities guarantee together, over every run. */
module WorldTheorems {
  import opened Basics
  import opened Codes
  import opened Registry
  import opened Protocol
  import opened ProtocolInvariant
  import opened ProtocolTheorems
  import opened ProtocolWrites
  import RateLimiter
  import opened Pairing
  import opened Activation
  import opened World
  import opened WorldInvariant

  ghost predicate Reached(w: World) {
    exists hs: seq<Happening> :: Runs(START, hs) == w
  }

  lemma ReachedInv(w: World)
    requires Reached(w)
    ensures WInv(w)
  {
    hide WInv;
    var hs: seq<Happening> :| Runs(START, hs) == w;
    StartInv();
    RunsKeep(START, hs);
  }

  // ----- every run of the whole is a run of the lifecycle protocol -----

  lemma {:induction false} RunConcat(s: Sys, a: seq<Event>, b: seq<Event>)
    ensures Run(s, a + b) == Run(Run(s, a), b)
    decreases |b|
  {
    if b == [] {
      assert a + b == a;
    } else {
      RunSnoc(s, a, b[0]);
      RunConcat(s, a + [b[0]], b[1..]);
      assert a + [b[0]] + b[1..] == a + b;
    }
  }

  ghost predicate Simulates(s: Sys, s': Sys) {
    exists es: seq<Event> :: Run(s, es) == s'
  }

  lemma SimulatesStep(s: Sys, e: Event)
    ensures Simulates(s, s) && Simulates(s, Do(s, e))
  {
    assert Run(s, []) == s;
    RunSnoc(s, [], e);
    assert Run(s, [] + [e]) == Do(s, e);
  }

  lemma SimulatesTransitive(s: Sys, s': Sys, s'': Sys)
    requires Simulates(s, s') && Simulates(s', s'')
    ensures Simulates(s, s'')
  {
    var a: seq<Event> :| Run(s, a) == s';
    var b: seq<Event> :| Run(s', b) == s'';
    RunConcat(s, a, b);
  }

  lemma DropSimulates(s: Sys, l: LeaseId, closes: bool)
    requires l in s.leases && s.leases[l].holder.Pairing?
    ensures Simulates(s, DoDrop(s, l, closes))
  {
    DropIsDo(s, l, closes);
    SimulatesStep(s, Drop(l, closes));
  }

  lemma AcquireSimulates(s: Sys, l: LeaseId, u: UserId, id: CapId)
    requires l !in s.leases && Admits(s.users, u, None)
    ensures Simulates(s, DoAcquire(s, l, Lease(u, None, Pairing(id))))
  {
    SimulatesStep(s, Acquire(l, u, None, Pairing(id)));
  }

  lemma AdvancedSimulates(w: World, io: Io)
    requires WInv(w) && CanActivate(w)
    ensures Simulates(w.life, Advanced(w, io).life)
  {
    hide Inv, Wf, LeaseLink, OpenLink, ScanLink, NameLink, ReplyLink, ApprovalLink, Simulates;
    RowsAfter(w, io);
    OwnVerifier(w);
    hide PhaseLink, KeyLink;
    var g := GrantOf(w);
    SimulatesStep(w.life, InsertRow(g.id, NewRow(g)));
    if w.lock.phase.WriteRow? && !io.Fails? {
      assert Advanced(w, io).life == Do(w.life, InsertRow(g.id, NewRow(g)));
    } else {
      assert Advanced(w, io).life == w.life;
    }
  }

  lemma ActivateSimulates(w: World, io: Io, closes: bool)
    requires WInv(w) && CanActivate(w)
    ensures Simulates(w.life, DoActivate(w, io, closes).life)
  {
    hide Inv, Wf, LeaseLink, OpenLink, ScanLink, KeyLink, PhaseLink, NameLink, ReplyLink, ApprovalLink, Simulates, Advanced, DoDrop;
    var w1 := Advanced(w, io);
    AdvancedSimulates(w, io);
    AdvancedParts(w, io);
    ApprovedLease(w, w.lock.id);
    DropSimulates(w1.life, w.store.pending[w.lock.id].status.lease, closes);
    SimulatesTransitive(w.life, w1.life, DoDrop(w1.life, w.store.pending[w.lock.id].status.lease, closes));
  }

  lemma NextSimulates(w: World, h: Happening)
    requires WInv(w)
    ensures Simulates(w.life, Next(w, h).life)
  {
    hide Inv, Wf, LeaseLink, OpenLink, ScanLink, KeyLink, PhaseLink, NameLink, ReplyLink, ApprovalLink;
    hide Simulates, Advanced, DoDrop, Do, DoAcquire, StartStore, DoActivate, DoFinish, DoPrune, Foreign, RemoveExpired, Admits;
    SimulatesStep(w.life, Notify);
    match h
    case Life(e) => SimulatesStep(w.life, e);
    case ExpirePairing(now, id, closes) =>
      if id in w.store.pending && w.store.pending[id].status.Approved? {
        ApprovedLease(w, id);
        DropSimulates(w.life, w.store.pending[id].status.lease, closes);
      }
    case ApproveBegin(_, id, _, user, l, _) =>
      if l !in w.life.leases && Admits(w.life.users, user, None) { AcquireSimulates(w.life, l, user, id); }
    case ApproveEnd(_, _, closes) =>
      if w.lock.BindingUser? {
        BindingEntry(w);
        DropSimulates(w.life, w.lock.lease, closes);
      }
    case ActivateStep(io, closes) => if CanActivate(w) { ActivateSimulates(w, io, closes); }
    case StartPairing(_, _, _, _, _) =>
    case DenyPairing(_, _, _) =>
    case ClaimBegin(_, _, _, _) =>
    case ClaimFinish(t, readable) => if t in w.finishing { FinishLife(w, t, readable); }
    case OpenScan(_) =>
    case OpenPrune(u) => if u in w.opening { PruneLife(w, u); }
    case RestartServer => SimulatesStep(w.life, Restart);
  }

  lemma FinishLife(w: World, t: Tid, readable: bool)
    requires t in w.finishing
    ensures DoFinish(w, t, readable).life == w.life
  {
  }

  lemma PruneLife(w: World, u: UserId)
    requires u in w.opening
    ensures DoPrune(w, u).life == w.life
  {
  }

  lemma {:induction false} RunsSimulate(w: World, hs: seq<Happening>)
    requires WInv(w)
    ensures Simulates(w.life, Runs(w, hs).life)
    decreases |hs|
  {
    hide WInv, Next, Simulates;
    if hs == [] {
      SimulatesStep(w.life, Notify);
    } else {
      NextSimulates(w, hs[0]);
      NextKeeps(w, hs[0]);
      RunsSimulate(Next(w, hs[0]), hs[1..]);
      SimulatesTransitive(w.life, Next(w, hs[0]).life, Runs(w, hs).life);
    }
  }

  /** The lifecycle part of every run with pairings is itself a run of the lifecycle protocol, so that
      everything proved about the protocol holds here. */
  lemma LifecycleRefinement(w: World)
    requires Reached(w)
    ensures Reachable(w.life)
  {
    hide WInv;
    var hs: seq<Happening> :| Runs(START, hs) == w;
    StartInv();
    RunsSimulate(START, hs);
  }

  /** Revocation is final with pairings in the picture too: after every continuation no request for the
      capability is past its recheck, and no claim of it is answered as active. */
  lemma RevocationIsFinalForClaims(w: World, hs: seq<Happening>, c: CapId, t: Tid, p: Pendency)
    requires Reached(w) && c in w.life.revoked
    ensures var w' := Runs(w, hs);
            && (PastCheck(PcOf(w'.life, t)) ==> PcOf(w'.life, t).c != c)
            && (p.id == c ==> Answer(w'.life.rows, p) == None)
  {
    hide WInv, Runs;
    ReachedInv(w);
    LifecycleRefinement(w);
    RunsSimulate(w, hs);
    var es: seq<Event> :| Run(w.life, es) == Runs(w, hs).life;
    RevocationIsFinal(w.life, es, c, t);
    ReachableInv(w.life);
    RunKeepsInv(w.life, es);
    RevokedStays(w.life, es);
  }

  // ----- one identifier per key -----

  /** The verifier belongs to this identifier, in a pending entry or a durable row. */
  predicate HasKey(w: World, id: CapId, v: Verifier) {
    || (id in w.store.pending && w.store.pending[id].verifier == v)
    || (id in w.life.rows && w.life.rows[id].verifier == v)
  }

  /** A key identifies at most one capability across pending entries and durable records together. */
  lemma KeyIdentifiesOneCapability(w: World, a: CapId, b: CapId, v: Verifier)
    requires Reached(w) && HasKey(w, a, v) && HasKey(w, b, v)
    ensures a == b
  {
    ReachedInv(w);
  }

  // ----- conservation of leases -----

  function PairingLeases(leases: Leases, u: UserId): set<LeaseId> {
    set l | l in leases && leases[l].holder.Pairing? && leases[l].user == u
  }

  function ApprovedFor(pending: Pending, u: UserId): set<CapId> {
    set id | id in pending && pending[id].status.Approved? && pending[id].status.user == u
  }

  /** Identifiers and leases that determine each other are equally many. */
  lemma {:induction false} Bijection(ids: set<CapId>, leases: set<LeaseId>, of: map<LeaseId, CapId>)
    requires forall l :: l in leases ==> l in of && of[l] in ids
    requires forall id :: id in ids ==> exists l :: l in leases && of[l] == id
    requires forall k, l :: k in leases && l in leases && of[k] == of[l] ==> k == l
    ensures |ids| == |leases|
    decreases leases
  {
    if leases == {} {
      assert ids == {};
    } else {
      var l :| l in leases;
      var ids', leases' := ids - {of[l]}, leases - {l};
      forall id | id in ids' ensures exists k :: k in leases' && of[k] == id {
        var k :| k in leases && of[k] == id;
        assert k in leases';
      }
      Bijection(ids', leases', of);
    }
  }

  lemma LeasesMatchApprovals(w: World, u: UserId)
    requires LeaseLink(w.store.pending, w.life.leases, w.lock)
    ensures var binding := if w.lock.BindingUser? && w.lock.user == u then {w.lock.id} else {};
            && binding !! ApprovedFor(w.store.pending, u)
            && |PairingLeases(w.life.leases, u)| == |ApprovedFor(w.store.pending, u) + binding|
  {
    var leases, pending := w.life.leases, w.store.pending;
    var held := PairingLeases(leases, u);
    var binding := if w.lock.BindingUser? && w.lock.user == u then {w.lock.id} else {};
    var ids := ApprovedFor(pending, u) + binding;
    var of := map l | l in held :: leases[l].holder.id;
    forall id | id in ids ensures exists l :: l in held && of[l] == id {
      var l := if id in binding then w.lock.lease else pending[id].status.lease;
      assert l in held;
    }
    Bijection(ids, held, of);
  }

  /** For every user the live pairing leases are as many as the approved entries bound to that user,
      and one more while an approval is binding it; in particular the lease of every approval, failed
      binding, claim, failed activation and expiry is accounted for. */
  lemma LeaseConservation(w: World, u: UserId)
    requires Reached(w)
    ensures |PairingLeases(w.life.leases, u)|
            == |ApprovedFor(w.store.pending, u)| + if w.lock.BindingUser? && w.lock.user == u then 1 else 0
    ensures forall id :: id in ApprovedFor(w.store.pending, u) ==>
              var l := w.store.pending[id].status.lease;
              l in w.life.leases && w.life.leases[l] == Lease(u, None, Pairing(id))
  {
    ReachedInv(w);
    LeasesMatchApprovals(w, u);
  }

  /** While a pairing approved for a user is in the store, no thread has the exclusive guard of that
      user, nobody's drain of that user is finished, and the user database is open. */
  lemma ApprovedPairingExcludesGuard(w: World, id: CapId, t: Tid)
    requires Reached(w) && id in w.store.pending && w.store.pending[id].status.Approved?
    ensures var u := w.store.pending[id].status.user;
            && PcOf(w.life, t) != Exclusive(u)
            && !DrainReady(Lookup(w.life.users, u))
            && u in w.life.open
  {
    ReachedInv(w);
    LifecycleRefinement(w);
    var u, l := w.store.pending[id].status.user, w.store.pending[id].status.lease;
    ExactAccounting(w.life, u);
    if PcOf(w.life, t) == Exclusive(u) {
      Exclusivity(w.life, t, u);
    }
  }

  // ----- stored names -----

  lemma {:induction false} RunsSnoc(w: World, hs: seq<Happening>, h: Happening)
    ensures Runs(w, hs + [h]) == Next(Runs(w, hs), h)
    decreases |hs|
  {
    hide Next;
    if hs == [] {
      assert [] + [h] == [h];
      assert Runs(Next(w, h), [h][1..]) == Next(w, h);
    } else {
      assert (hs + [h])[1..] == hs[1..] + [h];
      RunsSnoc(Next(w, hs[0]), hs[1..], h);
    }
  }

  /** The activation of `id` makes its deletion of the name, with effect, while the capability is there. */
  predicate Compensates(w: World, h: Happening, id: CapId) {
    && h.ActivateStep? && !h.io.Fails?
    && CanActivate(w) && w.lock.id == id && w.lock.phase.Undo? && id in w.life.rows
  }

  /** The activation of `id` writes the capability, with effect, but is told that it failed. */
  predicate WritesUnawares(w: World, h: Happening, id: CapId) {
    && h.ActivateStep? && h.io.FailsAfterEffect?
    && CanActivate(w) && w.lock.id == id && w.lock.phase.WriteRow?
  }

  lemma HistoryStep(w: World, h: Happening, id: CapId)
    ensures id in Next(w, h).blind <==> id in w.blind || Compensates(w, h, id)
    ensures id in Next(w, h).dirty <==> id in w.dirty || WritesUnawares(w, h, id)
  {
    hide Next;
    match h
    case ActivateStep(io, closes) => ActivationHistory(w, io, closes, id);
    case _ => NoActivation(w, h);
  }

  lemma ActivationHistory(w: World, io: Io, closes: bool, id: CapId)
    ensures var h := ActivateStep(io, closes);
            && (id in Next(w, h).blind <==> id in w.blind || Compensates(w, h, id))
            && (id in Next(w, h).dirty <==> id in w.dirty || WritesUnawares(w, h, id))
  {
    hide DoActivate;
    if CanActivate(w) {
      AdvancedHistory(w, io, id);
      EndKeepsHistory(w, io, closes);
    }
  }

  lemma AdvancedHistory(w: World, io: Io, id: CapId)
    requires CanActivate(w)
    ensures id in Advanced(w, io).blind <==>
              id in w.blind || (!io.Fails? && w.lock.id == id && w.lock.phase.Undo? && id in w.life.rows)
    ensures id in Advanced(w, io).dirty <==>
              id in w.dirty || (io.FailsAfterEffect? && w.lock.id == id && w.lock.phase.WriteRow?)
  {
    hide Advance;
  }

  lemma EndKeepsHistory(w: World, io: Io, closes: bool)
    requires CanActivate(w)
    ensures DoActivate(w, io, closes).blind == Advanced(w, io).blind
    ensures DoActivate(w, io, closes).dirty == Advanced(w, io).dirty
  {
    AdvancedFrame(w, io);
    AdvancedLeases(w, io);
    hide Advanced, DoDrop, Complete;
  }

  lemma AdvancedLeases(w: World, io: Io)
    requires CanActivate(w)
    ensures Advanced(w, io).life.leases == w.life.leases
  {
    hide Advance;
  }

  lemma NoActivation(w: World, h: Happening)
    requires !h.ActivateStep?
    ensures Next(w, h).blind == w.blind && Next(w, h).dirty == w.dirty
  {
    hide Do, Foreign, StartStore, DoDrop, DoAcquire, RemoveExpired, NoneExpired, AsksToBind, Activates, Answer;
    match h
    case Life(_) =>
    case StartPairing(_, _, _, _, _) =>
    case ExpirePairing(_, _, _) =>
    case ApproveBegin(_, _, _, _, _, _) =>
    case ApproveEnd(_, _, _) =>
    case DenyPairing(_, _, _) =>
    case ClaimBegin(_, _, _, _) =>
    case ClaimFinish(_, _) =>
    case OpenScan(_) =>
    case OpenPrune(_) =>
    case RestartServer =>
  }

  /** Some event of the run was that compensation, or that write. */
  ghost predicate Compensated(hs: seq<Happening>, id: CapId) {
    exists k :: 0 <= k < |hs| && Compensates(Runs(START, hs[..k]), hs[k], id)
  }

  ghost predicate WroteUnawares(hs: seq<Happening>, id: CapId) {
    exists k :: 0 <= k < |hs| && WritesUnawares(Runs(START, hs[..k]), hs[k], id)
  }

  lemma HistorySnoc(hs: seq<Happening>, h: Happening, id: CapId)
    ensures Compensated(hs + [h], id) <==> Compensated(hs, id) || Compensates(Runs(START, hs), h, id)
    ensures WroteUnawares(hs + [h], id) <==> WroteUnawares(hs, id) || WritesUnawares(Runs(START, hs), h, id)
  {
    hide Runs, Compensates, WritesUnawares;
    var all := hs + [h];
    assert all[..|hs|] == hs && all[|hs|] == h;
    assert forall k :: 0 <= k < |hs| ==> all[..k] == hs[..k] && all[k] == hs[k];
    if Compensated(hs, id) {
      var k :| 0 <= k < |hs| && Compensates(Runs(START, hs[..k]), hs[k], id);
      assert Compensates(Runs(START, all[..k]), all[k], id);
    }
    if WroteUnawares(hs, id) {
      var k :| 0 <= k < |hs| && WritesUnawares(Runs(START, hs[..k]), hs[k], id);
      assert WritesUnawares(Runs(START, all[..k]), all[k], id);
    }
    if Compensates(Runs(START, hs), h, id) { assert Compensates(Runs(START, all[..|hs|]), all[|hs|], id); }
    if WritesUnawares(Runs(START, hs), h, id) { assert WritesUnawares(Runs(START, all[..|hs|]), all[|hs|], id); }
  }

  /** The history sets of the state say exactly which of these events the run contains. */
  lemma {:induction false} HistoryIsExact(hs: seq<Happening>, id: CapId)
    ensures id in Runs(START, hs).blind <==> Compensated(hs, id)
    ensures id in Runs(START, hs).dirty <==> WroteUnawares(hs, id)
    decreases |hs|
  {
    hide Next, Compensates, WritesUnawares, Compensated, WroteUnawares;
    if hs == [] {
      NoHistory(id);
    } else {
      var before, h := hs[..|hs| - 1], hs[|hs| - 1];
      assert hs == before + [h];
      HistoryIsExact(before, id);
      RunsSnoc(START, before, h);
      HistoryStep(Runs(START, before), h, id);
      HistorySnoc(before, h, id);
    }
  }

  lemma NoHistory(id: CapId)
    ensures !Compensated([], id) && !WroteUnawares([], id)
  {
  }

  /** After any run a durable capability lacks its stored client name if and only if the run contains a
      compensation that deleted it while the capability was there, which takes a write that had effect
      although it was reported as failed; otherwise the name stored is the one it was approved under. */
  lemma NamelessExactly(hs: seq<Happening>, id: CapId)
    requires id in Runs(START, hs).life.rows
    ensures var w := Runs(START, hs);
            var row := w.life.rows[id];
            && ((row.user, id) !in w.names <==> Compensated(hs, id))
            && (Compensated(hs, id) ==> WroteUnawares(hs, id))
            && ((row.user, id) in w.names ==> Approval(id, row.verifier, row.user, w.names[(row.user, id)]) in w.approvals)
  {
    hide WInv, Next, Compensated, WroteUnawares;
    var w := Runs(START, hs);
    ReachedInv(w);
    DurableNames(w, id);
    BlindIsDirty(w);
    HistoryIsExact(hs, id);
  }

  /** The stored client name of a durable capability, by the history sets of the state. */
  lemma DurableNames(w: World, id: CapId)
    requires Reached(w) && id in w.life.rows
    ensures var row := w.life.rows[id];
            && id in w.rowNames
            && Approval(id, row.verifier, row.user, w.rowNames[id]) in w.approvals
            && ((row.user, id) in w.names <==> id !in w.blind)
            && (id !in w.blind ==> w.names[(row.user, id)] == w.rowNames[id])
  {
    ReachedInv(w);
  }

  /** No database call reports an error after taking effect. */
  predicate Atomic(hs: seq<Happening>) {
    forall i :: 0 <= i < |hs| ==> hs[i].ActivateStep? ==> !hs[i].io.FailsAfterEffect?
  }

  /** When failing calls have no effect, however many of them fail and whatever interleaves, every
      durable capability has its stored client name. */
  lemma AtomicRunsKeepNames(hs: seq<Happening>, id: CapId)
    requires Atomic(hs) && id in Runs(START, hs).life.rows
    ensures var w := Runs(START, hs);
            var row := w.life.rows[id];
            && (row.user, id) in w.names
            && Approval(id, row.verifier, row.user, w.names[(row.user, id)]) in w.approvals
  {
    hide WInv, Next, Runs;
    NamelessExactly(hs, id);
  }

  lemma BlindIsDirty(w: World)
    requires WInv(w)
    ensures w.blind <= w.dirty
  {
  }

  // ----- what claims answer -----

  /** Every claim answered as active names the user bound at an approval of that very key. */
  lemma RepliesComeFromApprovals(w: World, r: Reply)
    requires Reached(w) && r in w.replies
    ensures exists name :: Approval(r.id, r.v, r.claimed.user, name) in w.approvals
  {
    ReachedInv(w);
    assert Approval(r.id, r.v, r.claimed.user, w.rowNames[r.id]) in w.approvals;
  }

  /** Any two claims answered as active with the same key agree on the capability, the user and the
      permission, and so do any two for the same identifier. */
  lemma RepliesAgree(w: World, r: Reply, q: Reply)
    requires Reached(w) && r in w.replies && q in w.replies && (r.v == q.v || r.id == q.id)
    ensures r == q
  {
    ReachedInv(w);
  }

  /** The event is a revocation's write of this capability. */
  predicate RevokedBy(w: World, h: Happening, id: CapId) {
    h.Life? && Foreign(w, h.e) && Revokes(w.life, h.e, id)
  }

  /** The event is a retirement's write of this capability, at or after its expiry. */
  predicate RetiredBy(w: World, h: Happening, id: CapId) {
    h.Life? && Foreign(w, h.e) && Retires(w.life, h.e, id)
  }

  lemma InsertedRows(w: World, io: Io, closes: bool, id: CapId)
    requires id in w.life.rows && CanActivate(w)
    ensures id in DoActivate(w, io, closes).life.rows && DoActivate(w, io, closes).life.rows[id] == w.life.rows[id]
  {
    AdvancedKeepsRow(w, io, id);
    AdvancedLeases(w, io);
    hide Advanced, Complete, Release, ReleaseCloses;
  }

  lemma AdvancedKeepsRow(w: World, io: Io, id: CapId)
    requires id in w.life.rows && CanActivate(w)
    ensures id in Advanced(w, io).life.rows && Advanced(w, io).life.rows[id] == w.life.rows[id]
  {
  }

  /** No event of the pairing handlers changes a row that is there. */
  lemma HandlersKeepRows(w: World, h: Happening, id: CapId)
    requires id in w.life.rows && !h.Life?
    ensures id in Next(w, h).life.rows && Next(w, h).life.rows[id] == w.life.rows[id]
  {
    hide StartStore, DoActivate, RemoveExpired, NoneExpired, AsksToBind, Activates, Answer, Admit, Admits, Release, ReleaseCloses;
    match h
    case ActivateStep(io, closes) => if CanActivate(w) { InsertedRows(w, io, closes, id); }
    case StartPairing(_, _, _, _, _) =>
    case ExpirePairing(_, _, _) =>
    case ApproveBegin(_, _, _, _, _, _) =>
    case ApproveEnd(_, _, _) =>
    case DenyPairing(_, _, _) =>
    case ClaimBegin(_, _, _, _) =>
    case ClaimFinish(_, _) =>
    case OpenScan(_) =>
    case OpenPrune(_) =>
    case RestartServer =>
  }

  lemma NextRow(w: World, h: Happening, id: CapId)
    requires id in w.life.rows
    ensures id in Next(w, h).life.rows
    ensures Next(w, h).life.rows[id] ==
            if RevokedBy(w, h, id) then w.life.rows[id].(wrapped := false, revoked := true)
            else if RetiredBy(w, h, id) then w.life.rows[id].(wrapped := false)
            else w.life.rows[id]
  {
    hide Writes, Foreign, Do;
    if h.Life? { RowsChangeExactly(w.life, h.e, id); } else { HandlersKeepRows(w, h, id); }
  }

  /** Some event of a continuation revoked, or retired, the capability. */
  ghost predicate RevokedWithin(w: World, hs: seq<Happening>, id: CapId) {
    exists k :: 0 <= k < |hs| && RevokedBy(Runs(w, hs[..k]), hs[k], id)
  }

  ghost predicate RetiredWithin(w: World, hs: seq<Happening>, id: CapId) {
    exists k :: 0 <= k < |hs| && RetiredBy(Runs(w, hs[..k]), hs[k], id)
  }

  lemma WithinSnoc(w: World, hs: seq<Happening>, h: Happening, id: CapId)
    ensures RevokedWithin(w, hs + [h], id) <==> RevokedWithin(w, hs, id) || RevokedBy(Runs(w, hs), h, id)
    ensures RetiredWithin(w, hs + [h], id) <==> RetiredWithin(w, hs, id) || RetiredBy(Runs(w, hs), h, id)
  {
    hide Runs, RevokedBy, RetiredBy;
    var all := hs + [h];
    assert all[..|hs|] == hs && all[|hs|] == h;
    assert forall k :: 0 <= k < |hs| ==> all[..k] == hs[..k] && all[k] == hs[k];
    if RevokedWithin(w, hs, id) {
      var k :| 0 <= k < |hs| && RevokedBy(Runs(w, hs[..k]), hs[k], id);
      assert RevokedBy(Runs(w, all[..k]), all[k], id);
    }
    if RetiredWithin(w, hs, id) {
      var k :| 0 <= k < |hs| && RetiredBy(Runs(w, hs[..k]), hs[k], id);
      assert RetiredBy(Runs(w, all[..k]), all[k], id);
    }
    if RevokedBy(Runs(w, hs), h, id) { assert RevokedBy(Runs(w, all[..|hs|]), all[|hs|], id); }
    if RetiredBy(Runs(w, hs), h, id) { assert RetiredBy(Runs(w, all[..|hs|]), all[|hs|], id); }
  }

  /** A committed capability keeps its key, user, permission and expiry over every continuation.  It is
      revoked exactly when some revocation has written it, and its wrapped key is gone exactly when some
      revocation, or some retirement at or after its expiry, has. */
  lemma {:induction false} CommitIsPermanent(w: World, hs: seq<Happening>, id: CapId)
    requires id in w.life.rows
    ensures id in Runs(w, hs).life.rows
    ensures var row, row' := w.life.rows[id], Runs(w, hs).life.rows[id];
            row' == row.(revoked := row.revoked || RevokedWithin(w, hs, id),
                         wrapped := row.wrapped && !RevokedWithin(w, hs, id) && !RetiredWithin(w, hs, id))
    decreases |hs|
  {
    hide Next, RevokedBy, RetiredBy, RevokedWithin, RetiredWithin;
    if hs == [] {
      NothingWithin(w, id);
    } else {
      var before, h := hs[..|hs| - 1], hs[|hs| - 1];
      assert hs == before + [h];
      CommitIsPermanent(w, before, id);
      RunsSnoc(w, before, h);
      NextRow(Runs(w, before), h, id);
      WithinSnoc(w, before, h, id);
    }
  }

  lemma NothingWithin(w: World, id: CapId)
    ensures !RevokedWithin(w, [], id) && !RetiredWithin(w, [], id)
  {
  }

  /** The handler of one claim, with every database call working and nothing in between, up to its last
      check. */
  ghost function ClaimUpToCheck(w: World, t: Tid, now: Instant, id: CapId, v: Verifier, closes: bool): World {
    var w1 := Next(w, ClaimBegin(t, now, id, v));
    if w1.lock.Activating? then Next(w1, ActivateStep(Works, closes)) else w1
  }

  /** Some other key's pending entry uses this identifier. */
  predicate Shadowed(st: Store, id: CapId, v: Verifier) {
    id in st.pending && st.pending[id].verifier != v
  }

  lemma ClaimBegun(w: World, t: Tid, now: Instant, id: CapId, v: Verifier)
    requires w.lock.Free? && NoneExpired(w.store, now) && t !in w.finishing
    ensures Next(w, ClaimBegin(t, now, id, v)) ==
      if id !in w.store.pending then w.(finishing := w.finishing[t := Pendency(id, v, now, None)])
      else if w.store.pending[id].verifier != v then w
      else match w.store.pending[id].status
           case Awaiting => w
           case Denied => w
           case Completed(claimed) => w.(finishing := w.finishing[t := Pendency(id, v, now, Some(claimed))])
           case Approved(_, _, _, _) => w.(lock := Activating(t, id, v, now, Probe))
  {
    hide RemoveExpired;
    NothingExpires(w.store, now);
    assert Live(w.store.pending, now) == w.store.pending;
  }

  lemma ActiveRowStatus(w: World, id: CapId)
    requires KeyLink(w.store.pending, w.life.rows)
    requires id in w.store.pending && id in w.life.rows && w.store.pending[id].verifier == w.life.rows[id].verifier
    ensures RowOf(w.store.pending[id], w.life.rows[id])
  {
  }

  /** The probe of an entry whose row is already active completes it. */
  lemma ProbeCompletes(w: World, closes: bool)
    requires CanActivate(w) && w.lock.phase.Probe? && w.store.pending[w.lock.id].verifier == w.lock.v
    requires KeyLink(w.store.pending, w.life.rows)
    requires DurableClaim(w.life.rows, w.lock.id, w.lock.v, w.lock.now).Active?
    ensures var w' := Next(w, ActivateStep(Works, closes));
            var claimed := DurableClaim(w.life.rows, w.lock.id, w.lock.v, w.lock.now).claimed;
            && w'.finishing == w.finishing[w.lock.t := Pendency(w.lock.id, w.lock.v, w.lock.now, Some(claimed))]
            && w'.life.rows == w.life.rows
  {
    assert Advanced(w, Works).life.rows == w.life.rows;
  }

  /** An entry that is still approved goes through the probe. */
  lemma ApprovedConverges(w: World, t: Tid, now: Instant, id: CapId, v: Verifier, closes: bool)
    requires LeaseLink(w.store.pending, w.life.leases, w.lock) && KeyLink(w.store.pending, w.life.rows)
    requires w.lock.Free? && NoneExpired(w.store, now) && t !in w.finishing
    requires id in w.store.pending && w.store.pending[id].verifier == v && w.store.pending[id].status.Approved?
    requires DurableClaim(w.life.rows, id, v, now).Active?
    ensures var w' := ClaimUpToCheck(w, t, now, id, v, closes);
            && w'.life.rows == w.life.rows
            && t in w'.finishing && w'.finishing[t] == Pendency(id, v, now, Some(DurableClaim(w.life.rows, id, v, now).claimed))
  {
    hide LeaseLink, KeyLink, Next, NoneExpired, DurableClaim;
    ClaimBegun(w, t, now, id, v);
    ApprovedLease(w, id);
    ProbeCompletes(w.(lock := Activating(t, id, v, now, Probe)), closes);
  }

  lemma Converges(w: World, t: Tid, now: Instant, id: CapId, v: Verifier, closes: bool)
    requires LeaseLink(w.store.pending, w.life.leases, w.lock) && KeyLink(w.store.pending, w.life.rows)
    requires w.lock.Free? && NoneExpired(w.store, now) && t !in w.finishing
    requires DurableClaim(w.life.rows, id, v, now).Active?
    ensures var w' := ClaimUpToCheck(w, t, now, id, v, closes);
            && w'.life.rows == w.life.rows
            && (t in w'.finishing <==> !Shadowed(w.store, id, v))
            && (t in w'.finishing ==>
                 Answer(w'.life.rows, w'.finishing[t]) == Some(Claimed(w.life.rows[id].user, w.life.rows[id].permission)))
  {
    hide LeaseLink, KeyLink, Next, NoneExpired;
    if id in w.store.pending && w.store.pending[id].verifier == v { ActiveRowStatus(w, id); }
    if id in w.store.pending && w.store.pending[id].verifier == v && w.store.pending[id].status.Approved? {
      ApprovedConverges(w, t, now, id, v, closes);
    } else {
      ClaimBegun(w, t, now, id, v);
    }
  }

  /** After a commit, a claim with the right key succeeds with the committed user and permission while
      the capability is active, whether its pending entry is still approved, completed, expired or lost
      with a restart: exactly unless the identifier has since been handed to another pending pairing. */
  lemma ClaimsConverge(w: World, t: Tid, now: Instant, id: CapId, v: Verifier, closes: bool)
    requires Reached(w) && w.lock.Free? && NoneExpired(w.store, now) && t !in w.finishing
    requires DurableClaim(w.life.rows, id, v, now).Active?
    ensures var w' := ClaimUpToCheck(w, t, now, id, v, closes);
            && w'.life.rows == w.life.rows
            && (t in w'.finishing <==> !Shadowed(w.store, id, v))
            && (t in w'.finishing ==>
                 Answer(w'.life.rows, w'.finishing[t]) == Some(Claimed(w.life.rows[id].user, w.life.rows[id].permission)))
  {
    ReachedInv(w);
    Converges(w, t, now, id, v, closes);
  }

  /** How an identifier gets shadowed: a start compares new identifiers with pending entries only, so a
      generated identifier that a durable capability already has is handed out again. */
  lemma StartCanShadow(w: World, now: Instant, ip: RateLimiter.Source, req: Request, id: CapId, bytes: CodeBytes, v: Verifier)
    requires Reached(w) && w.lock.Free? && NoneExpired(w.store, now)
    requires id in w.life.rows && w.life.rows[id].verifier == v && !VerifierKnown(w.life.rows, req.verifier)
    requires Unused(w.store.pending, id, EncodeCode(bytes)) && req.verifier !in w.store.verifiers
    requires RateLimiter.RetryAfter(RateLimiter.Prune(w.store.limiter, now), ip, now).None?
    requires |w.store.pending| < MAX_PENDING_PAIRINGS
    ensures Shadowed(Next(w, StartPairing(now, ip, req, [(id, bytes)], true)).store, id, v)
  {
    hide RateLimiter.RetryAfter, RateLimiter.Prune, RateLimiter.Record, RemoveExpired;
    NothingExpires(w.store, now);
    assert FirstUnused(w.store.pending, [(id, bytes)]) == Some((id, EncodeCode(bytes)));
  }
}
