/** What the pending-pairing store guarantees over every sequence of its operations. */
module PairingRuns {
  import opened Basics
  import opened Codes
  import opened RateLimiter
  import opened Pairing

  datatype Op =
    | StartOp(now: Instant, ip: Source, req: Request, generated: seq<(CapId, CodeBytes)>, durable: Option<bool>)
    | ApproveOp(now: Instant, id: CapId, display: Text, expiry: Option<Instant>, binding: Option<Binding>)
    | DenyOp(now: Instant, id: CapId, display: Text)
    | ClaimOp(now: Instant, id: CapId, v: Verifier, activation: Option<Claimed>)
    | CleanupOp(now: Instant)

  function Apply(st: Store, op: Op): Store {
    match op
    case StartOp(now, ip, req, generated, durable) => StartStore(st, now, ip, req, generated, durable)
    case ApproveOp(now, id, display, expiry, binding) => Approve(st, now, id, display, expiry, binding).0
    case DenyOp(now, id, display) => Deny(st, now, id, display).0
    case ClaimOp(now, id, v, activation) => Claim(st, now, id, v, activation).0
    case CleanupOp(now) => RemoveExpired(st, now)
  }

  function Run(st: Store, ops: seq<Op>): Store
    decreases |ops|
  {
    if ops == [] then st else Run(Apply(st, ops[0]), ops[1..])
  }

  // ----- the invariant -----

  lemma TransitionKeeps(st: Store, now: Instant, id: CapId, e: Entry)
    requires Wf(st) && id in RemoveExpired(st, now).pending && EntryOk(e)
    requires var was := RemoveExpired(st, now).pending[id];
             e.verifier == was.verifier && (e.code == was.code || e.code == [])
    ensures var st1 := RemoveExpired(st, now); Wf(st1.(pending := st1.pending[id := e]))
  {
    hide Wf, RemoveExpired;
    RemoveExpiredKeeps(st, now);
    UpdateKeeps(RemoveExpired(st, now), id, e);
  }

  /** Every entry of the cleaned store is in order. */
  lemma LiveEntryOk(st: Store, now: Instant, id: CapId)
    requires Wf(st) && id in RemoveExpired(st, now).pending
    ensures EntryOk(RemoveExpired(st, now).pending[id])
  {
  }

  lemma OpKeepsWf(st: Store, op: Op)
    requires Wf(st)
    ensures Wf(Apply(st, op))
  {
    hide Wf, RemoveExpired, StartStore;
    RemoveExpiredKeeps(st, op.now);
    var st1 := RemoveExpired(st, op.now);
    match op
    case StartOp(now, ip, req, generated, durable) => StartKeeps(st, now, ip, req, generated, durable);
    case ApproveOp(now, id, display, expiry, binding) =>
      if Approve(st, now, id, display, expiry, binding).1.Ok? {
        var b := binding.value;
        LiveEntryOk(st, now, id);
        TransitionKeeps(st, now, id, st1.pending[id].(status := Approved(b.user, b.dek, b.lease, expiry)));
      }
    case DenyOp(now, id, display) =>
      if Deny(st, now, id, display).1.Ok? {
        LiveEntryOk(st, now, id);
        TransitionKeeps(st, now, id, st1.pending[id].(status := Denied));
      }
    case ClaimOp(now, id, v, activation) =>
      if id in st1.pending && st1.pending[id].status.Approved? && activation.Some? {
        LiveEntryOk(st, now, id);
        TransitionKeeps(st, now, id, st1.pending[id].(code := [], name := "", status := Completed(activation.value)));
      }
    case CleanupOp(now) =>
  }

  /** The store invariant holds after every sequence of operations. */
  lemma {:induction false} StoreInvariant(st: Store, ops: seq<Op>)
    requires Wf(st)
    ensures Wf(Run(st, ops))
    decreases |ops|
  {
    hide Wf, Apply;
    if ops != [] {
      OpKeepsWf(st, ops[0]);
      StoreInvariant(Apply(st, ops[0]), ops[1..]);
    }
  }

  lemma EmptyWf()
    ensures Wf(EMPTY)
  {
  }

  // ----- the life of an entry -----

  /** Whether an approval or denial names this awaiting entry by its code. */
  predicate NamesEntry(id: CapId, display: Text, named: CapId, e: Entry) {
    named == id && e.status.Awaiting? && ParseDisplayCode(display) == Some(e.code)
  }

  /** What one operation makes of one unexpired entry: an approval with its code binds an awaiting entry,
      a denial with its code denies it, a claim with its key completes an approved one when activation
      succeeds, and nothing else touches it. */
  function EntryAfter(op: Op, id: CapId, e: Entry): Entry {
    match op
    case ApproveOp(_, named, display, expiry, Some(b)) =>
      if NamesEntry(id, display, named, e) then e.(status := Approved(b.user, b.dek, b.lease, expiry)) else e
    case DenyOp(_, named, display) =>
      if NamesEntry(id, display, named, e) then e.(status := Denied) else e
    case ClaimOp(_, named, v, Some(claimed)) =>
      if named == id && v == e.verifier && e.status.Approved?
      then e.(code := [], name := "", status := Completed(claimed)) else e
    case _ => e
  }

  /** One operation: before its expiry an entry stays and moves as said; after it, an operation that
      cleans up removes the entry, and only a new start can use its identifier again. */
  lemma EntryStep(st: Store, op: Op, id: CapId)
    requires id in st.pending
    ensures st.pending[id].expires > op.now ==>
              id in Apply(st, op).pending && Apply(st, op).pending[id] == EntryAfter(op, id, st.pending[id])
    ensures st.pending[id].expires <= op.now && id in Apply(st, op).pending ==>
              Apply(st, op) == st
              || (op.StartOp? && Apply(st, op).pending[id].status.Awaiting?
                  && Apply(st, op).pending[id].expires == op.now + PAIRING_LIFETIME)
  {
    hide ParseDisplayCode;
    match op
    case StartOp(now, ip, req, generated, durable) => StartEntryStep(st, now, ip, req, generated, durable, id);
    case ApproveOp(_, _, _, _, _) =>
    case DenyOp(_, _, _) =>
    case ClaimOp(_, _, _, _) =>
    case CleanupOp(_) =>
  }

  /** A start leaves every unexpired entry as it is, and can only reuse an expired identifier. */
  lemma StartEntryStep(st: Store, now: Instant, ip: Source, req: Request, generated: seq<(CapId, CodeBytes)>,
                       durable: Option<bool>, id: CapId)
    requires id in st.pending
    ensures var pending := StartStore(st, now, ip, req, generated, durable).pending;
            && (st.pending[id].expires > now ==> id in pending && pending[id] == st.pending[id])
            && (st.pending[id].expires <= now && id in pending ==>
                  pending[id].status.Awaiting? && pending[id].expires == now + PAIRING_LIFETIME)
  {
    hide Prune, RetryAfter, Record, FirstUnused;
    FirstUnusedIsUnused(Cleaned(st, now).pending, generated);
  }

  lemma {:induction false} RunSnoc(st: Store, ops: seq<Op>, op: Op)
    ensures Run(st, ops + [op]) == Apply(Run(st, ops), op)
    decreases |ops|
  {
    hide Apply;
    if ops == [] {
      assert [] + [op] == [op];
      assert Run(Apply(st, op), [op][1..]) == Apply(st, op);
    } else {
      assert (ops + [op])[1..] == ops[1..] + [op];
      RunSnoc(Apply(st, ops[0]), ops[1..], op);
    }
  }

  /** Every operation of a run comes before the expiry of the entry. */
  predicate Before(ops: seq<Op>, e: Entry) {
    forall i :: 0 <= i < |ops| ==> ops[i].now < e.expires
  }

  /** The entry is there after every prefix of the run, and each operation moves it by `EntryAfter`. */
  ghost predicate Follows(st: Store, ops: seq<Op>, id: CapId)
    requires id in st.pending
  {
    && (forall k :: 0 <= k <= |ops| ==>
         id in Run(st, ops[..k]).pending && Run(st, ops[..k]).pending[id].expires == st.pending[id].expires)
    && (forall k :: 0 <= k < |ops| ==>
         Run(st, ops[..k + 1]).pending[id] == EntryAfter(ops[k], id, Run(st, ops[..k]).pending[id]))
  }

  /** Until its fixed expiry an entry stays in the store over every run, and every single operation moves
      it only from awaiting to approved or denied, or from approved to completed. */
  lemma {:induction false} EntryLifecycle(st: Store, ops: seq<Op>, id: CapId)
    requires id in st.pending && Before(ops, st.pending[id])
    ensures Follows(st, ops, id)
    decreases |ops|
  {
    hide Apply, EntryAfter;
    if ops == [] {
      assert ops[..0] == [];
    } else {
      var init, last := ops[..|ops| - 1], ops[|ops| - 1];
      EntryLifecycle(st, init, id);
      assert forall k :: 0 <= k <= |init| ==> ops[..k] == init[..k];
      assert init[..|init|] == init && ops[..|ops|] == init + [last];
      RunSnoc(st, init, last);
      EntryStep(Run(st, init), last, id);
      AfterKeepsExpiry(last, id, Run(st, init).pending[id]);
    }
  }

  lemma AfterKeepsExpiry(op: Op, id: CapId, e: Entry)
    ensures EntryAfter(op, id, e).expires == e.expires && EntryAfter(op, id, e).verifier == e.verifier
    ensures EntryAfter(op, id, e).permission == e.permission
  {
  }

  /** The entry after some of the operations. */
  ghost function EntryAt(st: Store, ops: seq<Op>, id: CapId, k: nat): Entry
    requires id in st.pending && Follows(st, ops, id) && k <= |ops|
  {
    Run(st, ops[..k]).pending[id]
  }

  /** The whole life of an entry that ends up completed: it awaits, one approval binds it, it stays as
      bound, one claim with its key activates it, and from then on nothing changes. */
  ghost predicate WholeLife(st: Store, ops: seq<Op>, id: CapId, i: nat, j: nat)
    requires id in st.pending && Follows(st, ops, id)
  {
    && i < j < |ops|
    && ops[i].ApproveOp? && ops[i].id == id && ops[i].binding.Some?
    && ops[j].ClaimOp? && ops[j].id == id && ops[j].v == st.pending[id].verifier && ops[j].activation.Some?
    && (forall k :: 0 <= k <= i ==> EntryAt(st, ops, id, k) == st.pending[id])
    && (forall k :: i < k <= j ==> EntryAt(st, ops, id, k) == EntryAfter(ops[i], id, st.pending[id]))
    && (forall k :: j < k <= |ops| ==>
         EntryAt(st, ops, id, k) == EntryAfter(ops[j], id, EntryAfter(ops[i], id, st.pending[id])))
  }

  /** The entry is unchanged from one point of the run to another. */
  ghost predicate Still(st: Store, ops: seq<Op>, id: CapId, from: nat, to: nat)
    requires id in st.pending && Follows(st, ops, id) && from <= to <= |ops|
  {
    forall k :: from <= k <= to ==> EntryAt(st, ops, id, k) == EntryAt(st, ops, id, from)
  }

  /** The first operation, if any, that changes the entry. */
  lemma FirstChange(st: Store, ops: seq<Op>, id: CapId, from: nat) returns (i: nat)
    requires id in st.pending && Follows(st, ops, id) && from <= |ops|
    ensures from <= i <= |ops| && Still(st, ops, id, from, i)
    ensures i < |ops| ==> EntryAt(st, ops, id, i + 1) != EntryAt(st, ops, id, i)
  {
    hide Run, Follows;
    i := from;
    while i < |ops| && EntryAt(st, ops, id, i + 1) == EntryAt(st, ops, id, i)
      invariant from <= i <= |ops| && Still(st, ops, id, from, i)
    {
      i := i + 1;
    }
  }

  lemma OneMove(st: Store, ops: seq<Op>, id: CapId, k: nat)
    requires id in st.pending && Follows(st, ops, id) && k < |ops|
    ensures EntryAt(st, ops, id, k + 1) == EntryAfter(ops[k], id, EntryAt(st, ops, id, k))
  {
  }

  lemma EntryAtStart(st: Store, ops: seq<Op>, id: CapId)
    requires id in st.pending && Follows(st, ops, id)
    ensures EntryAt(st, ops, id, 0) == st.pending[id]
  {
    assert ops[..0] == [];
  }

  /** Completed or denied entries do not change any more. */
  lemma SettledStays(op: Op, id: CapId, e: Entry)
    requires e.status.Completed? || e.status.Denied?
    ensures EntryAfter(op, id, e) == e
  {
  }

  /** An entry that was awaiting and is completed has had exactly that life: one approval, then one
      activation, and no other change. */
  lemma CompletionHasOneApprovalAndOneActivation(st: Store, ops: seq<Op>, id: CapId) returns (i: nat, j: nat)
    requires id in st.pending && Before(ops, st.pending[id])
    requires st.pending[id].status.Awaiting?
    requires id in Run(st, ops).pending && Run(st, ops).pending[id].status.Completed?
    ensures Follows(st, ops, id) && WholeLife(st, ops, id, i, j)
  {
    EntryLifecycle(st, ops, id);
    assert ops[..|ops|] == ops;
    assert EntryAt(st, ops, id, |ops|).status.Completed?;
    EntryAtStart(st, ops, id);
    hide Run, Follows, EntryAt, ParseDisplayCode;
    i := FirstChange(st, ops, id, 0);
    OneMove(st, ops, id, i);
    var k := FirstChange(st, ops, id, i + 1);
    if k < |ops| { OneMove(st, ops, id, k); }
    j := k;
    var m := FirstChange(st, ops, id, j + 1);
    if m < |ops| {
      OneMove(st, ops, id, m);
      SettledStays(ops[m], id, EntryAt(st, ops, id, m));
    }
  }

  /** Where any number of operations can take an entry, with everything that must not change. */
  predicate Evolves(a: Entry, b: Entry) {
    && b.verifier == a.verifier && b.permission == a.permission && b.expires == a.expires
    && match a.status {
         case Awaiting => b.status.Completed? || (b.code == a.code && b.name == a.name)
         case Approved(_, _, _, _) => b.status.Completed? || b == a
         case Denied => b == a
         case Completed(_) => b == a
       }
  }

  lemma EvolvesTransitive(a: Entry, b: Entry, c: Entry)
    requires Evolves(a, b) && Evolves(b, c)
    ensures Evolves(a, c)
  {
  }

  lemma AfterEvolves(op: Op, id: CapId, e: Entry)
    ensures Evolves(e, EntryAfter(op, id, e))
  {
  }

  lemma {:induction false} EntryEvolves(st: Store, ops: seq<Op>, id: CapId)
    requires id in st.pending && Before(ops, st.pending[id])
    ensures id in Run(st, ops).pending && Evolves(st.pending[id], Run(st, ops).pending[id])
    decreases |ops|
  {
    hide Apply, EntryAfter, Evolves;
    AfterEvolvesNothing(st.pending[id]);
    if ops != [] {
      var st1 := Apply(st, ops[0]);
      EntryStep(st, ops[0], id);
      AfterEvolves(ops[0], id, st.pending[id]);
      AfterKeepsExpiry(ops[0], id, st.pending[id]);
      EntryEvolves(st1, ops[1..], id);
      EvolvesTransitive(st.pending[id], st1.pending[id], Run(st1, ops[1..]).pending[id]);
    }
  }

  lemma AfterEvolvesNothing(e: Entry)
    ensures Evolves(e, e)
  {
  }

  /** Two successful claims of one entry, with any operations in between, return the same result, and
      the second does not activate anything. */
  lemma ClaimsAgree(st: Store, now1: Instant, id: CapId, v: Verifier, act1: Option<Claimed>,
                    ops: seq<Op>, now2: Instant, act2: Option<Claimed>)
    requires Claim(st, now1, id, v, act1).1.Ok?
    requires now2 < st.pending[id].expires
    requires Before(ops, st.pending[id])
    ensures var st' := Run(Claim(st, now1, id, v, act1).0, ops);
            Claim(st', now2, id, v, act2) == (RemoveExpired(st', now2), Claim(st, now1, id, v, act1).1)
            && !Activates(st', now2, id, v)
  {
    var st1 := Claim(st, now1, id, v, act1).0;
    assert st1.pending[id].status == Completed(Claim(st, now1, id, v, act1).1.value);
    EntryEvolves(st1, ops, id);
  }

  /** Once approved, an entry keeps exactly that user, key, lease and expiry until it is completed or
      expires, whatever operations follow. */
  lemma ApprovalSticks(st: Store, now: Instant, id: CapId, display: Text, expiry: Option<Instant>, b: Binding, ops: seq<Op>)
    requires Approve(st, now, id, display, expiry, Some(b)).1.Ok?
    requires Before(ops, st.pending[id])
    ensures var st' := Run(Approve(st, now, id, display, expiry, Some(b)).0, ops);
            id in st'.pending
            && (st'.pending[id].status == Approved(b.user, b.dek, b.lease, expiry) || st'.pending[id].status.Completed?)
  {
    EntryEvolves(Approve(st, now, id, display, expiry, Some(b)).0, ops, id);
  }

  /** Once denied, an entry is never activated: until its expiry every claim with its key is answered as
      denied, and every approval as a conflict. */
  lemma DenialIsFinal(st: Store, now: Instant, id: CapId, display: Text, ops: seq<Op>, at: Instant, activation: Option<Claimed>,
                      expiry: Option<Instant>, binding: Option<Binding>)
    requires Deny(st, now, id, display).1.Ok? && at < st.pending[id].expires
    requires Before(ops, st.pending[id])
    ensures var st' := Run(Deny(st, now, id, display).0, ops);
            && Claim(st', at, id, st.pending[id].verifier, activation).1 == Err(WasDenied)
            && Approve(st', at, id, display, expiry, binding).1 == Err(Conflict)
  {
    hide Run, ParseDisplayCode, Claim, Approve, Deny;
    var st1 := Deny(st, now, id, display).0;
    DenySets(st, now, id, display);
    EntryEvolves(st1, ops, id);
    DeniedAnswers(Run(st1, ops), id, display, at, activation, expiry, binding);
  }

  lemma DenySets(st: Store, now: Instant, id: CapId, display: Text)
    requires Deny(st, now, id, display).1.Ok?
    ensures var st1 := Deny(st, now, id, display).0;
            && id in st.pending && id in st1.pending && st1.pending[id] == st.pending[id].(status := Denied)
            && ParseDisplayCode(display) == Some(st.pending[id].code)
  {
    hide ParseDisplayCode;
  }

  lemma DeniedAnswers(st: Store, id: CapId, display: Text, at: Instant, activation: Option<Claimed>,
                      expiry: Option<Instant>, binding: Option<Binding>)
    requires id in st.pending && st.pending[id].status.Denied? && at < st.pending[id].expires
    requires ParseDisplayCode(display) == Some(st.pending[id].code)
    ensures Claim(st, at, id, st.pending[id].verifier, activation).1 == Err(WasDenied)
    ensures Approve(st, at, id, display, expiry, binding).1 == Err(Conflict)
  {
    hide ParseDisplayCode;
  }

  /** A refused approval, denial or claim changes nothing beyond the removal of expired entries. */
  lemma RefusalsChangeNothing(st: Store, now: Instant, id: CapId, display: Text, expiry: Option<Instant>,
                              binding: Option<Binding>, v: Verifier, activation: Option<Claimed>)
    ensures Approve(st, now, id, display, expiry, binding).1.Err? ==>
              Approve(st, now, id, display, expiry, binding).0 in {st, RemoveExpired(st, now)}
    ensures Deny(st, now, id, display).1.Err? ==> Deny(st, now, id, display).0 in {st, RemoveExpired(st, now)}
    ensures Claim(st, now, id, v, activation).1.Err? ==> Claim(st, now, id, v, activation).0 == RemoveExpired(st, now)
  {
  }

  /** Approval and denial reach exactly the entry whose formatted code was typed. */
  lemma ApprovalNeedsTheCode(st: Store, now: Instant, id: CapId, display: Text)
    requires Wf(st)
    ensures AsksToBind(st, now, id, display) <==>
              && id in st.pending && st.pending[id].expires > now && st.pending[id].status.Awaiting?
              && display == FormatCode(st.pending[id].code)
  {
    if id in st.pending {
      var e := st.pending[id];
      assert EntryOk(e);
      if e.code != [] { ParseExactlyInvertsFormat(display, e.code); }
    }
  }
}
