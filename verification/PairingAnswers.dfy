/** What the pairing store answers: every start, approval, denial and claim, in terms of what is pending
    and, over runs, of what has happened to the entry since its start. */
module PairingAnswers {
  import opened Basics
  import opened Codes
  import RateLimiter
  import opened Pairing
  import opened PairingRuns

  // ----- starts -----

  /** Neither limiter nor capacity turns the start away. */
  predicate Admittable(st: Store, now: Instant, ip: RateLimiter.Source) {
    && RateLimiter.RetryAfter(RateLimiter.Prune(st.limiter, now), ip, now).None?
    && |Live(st.pending, now)| < MAX_PENDING_PAIRINGS
  }

  /** The key is in use by a live pending pairing. */
  predicate KeyReserved(st: Store, now: Instant, v: Verifier) {
    exists id :: id in Live(st.pending, now) && Live(st.pending, now)[id].verifier == v
  }

  /** The generated pair at this place is the first that no live pairing uses. */
  ghost predicate FirstFree(pending: Pending, generated: seq<(CapId, CodeBytes)>, i: nat) {
    && i < |generated| && Unused(pending, generated[i].0, EncodeCode(generated[i].1))
    && forall j :: 0 <= j < i ==> !Unused(pending, generated[j].0, EncodeCode(generated[j].1))
  }

  ghost predicate NoneFree(pending: Pending, generated: seq<(CapId, CodeBytes)>) {
    forall j :: 0 <= j < |generated| ==> !Unused(pending, generated[j].0, EncodeCode(generated[j].1))
  }

  lemma {:induction false} FirstUnusedIsFirst(pending: Pending, generated: seq<(CapId, CodeBytes)>) returns (i: nat)
    ensures FirstUnused(pending, generated).None? <==> NoneFree(pending, generated)
    ensures FirstUnused(pending, generated).Some? ==>
              FirstFree(pending, generated, i)
              && FirstUnused(pending, generated).value == (generated[i].0, EncodeCode(generated[i].1))
    decreases |generated|
  {
    hide Unused;
    i := 0;
    if generated != [] && !Unused(pending, generated[0].0, EncodeCode(generated[0].1)) {
      var rest := generated[1..];
      assert forall j :: 0 < j < |generated| ==> generated[j] == rest[j - 1];
      var k := FirstUnusedIsFirst(pending, rest);
      i := k + 1;
      if FirstUnused(pending, rest).None? {
        forall j | 0 <= j < |generated| ensures !Unused(pending, generated[j].0, EncodeCode(generated[j].1)) {
          if j > 0 { assert generated[j] == rest[j - 1]; }
        }
      }
    }
  }

  /** The store and the answer of an accepted start agree: the live entries stay, and the answer's
      identifier, code and expiry are those of the one new entry, which awaits approval under the name,
      key and permission asked for. */
  ghost predicate Accepted(st: Store, now: Instant, req: Request, generated: seq<(CapId, CodeBytes)>, st': Store, s: Started) {
    && s.id !in Live(st.pending, now) && ValidCode(s.code) && s.expires == now + PAIRING_LIFETIME
    && st'.pending == Live(st.pending, now)[s.id := Entry(s.code, req.name, req.verifier, req.permission, s.expires, Awaiting)]
    && exists i: nat :: FirstFree(Live(st.pending, now), generated, i)
                        && s.id == generated[i].0 && s.code == EncodeCode(generated[i].1)
  }

  lemma ReservedKeys(st: Store, now: Instant, v: Verifier)
    requires Wf(st)
    ensures v in RemoveExpired(st, now).verifiers <==> KeyReserved(st, now, v)
  {
    RemoveExpiredKeeps(st, now);
    assert RemoveExpired(st, now).pending == Live(st.pending, now);
  }

  lemma StartParts(st: Store, now: Instant, ip: RateLimiter.Source, req: Request, generated: seq<(CapId, CodeBytes)>,
                   durable: Option<bool>, st': Store, result: Result<Started, StartError>)
    requires Starts(st, now, ip, req, generated, durable, st', result)
    ensures !Admittable(st, now, ip) <==> result.Err? && (result.error.RateLimited? || result.error.CapacityFull?)
    ensures result.Err? && result.error.RateLimited? <==>
              RateLimiter.RetryAfter(RateLimiter.Prune(st.limiter, now), ip, now).Some?
    ensures !Admittable(st, now, ip) ==> st'.pending == Live(st.pending, now)
    ensures Admittable(st, now, ip) ==> (st', result) == StartAdmitted(Cleaned(st, now), now, ip, req, generated, durable)
  {
    hide RateLimiter.RetryAfter, RateLimiter.Prune, RateLimiter.Record, StartAdmitted, IsCapacityHint;
    assert Cleaned(st, now).pending == Live(st.pending, now);
    var st1 := Cleaned(st, now);
    StartAdmittedErrors(st1, now, ip, req, generated, durable);
  }

  lemma StartAdmittedErrors(st: Store, now: Instant, ip: RateLimiter.Source, req: Request,
                            generated: seq<(CapId, CodeBytes)>, durable: Option<bool>)
    ensures var result := StartAdmitted(st, now, ip, req, generated, durable).1;
            result.Err? ==> !result.error.RateLimited? && !result.error.CapacityFull?
  {
    hide RateLimiter.Record, FirstUnused;
  }

  /** Every start is answered for exactly one reason, in this order: a limiter, capacity, a key in use
      here, an unreadable lookup, a key in use among capabilities, no unused pair; and otherwise it is
      accepted.  A refused start leaves exactly the live entries. */
  lemma StartAnswers(st: Store, now: Instant, ip: RateLimiter.Source, req: Request, generated: seq<(CapId, CodeBytes)>,
                     durable: Option<bool>, st': Store, result: Result<Started, StartError>)
    requires Wf(st) && Starts(st, now, ip, req, generated, durable, st', result)
    ensures result.Err? && result.error.VerifierConflict? <==>
              Admittable(st, now, ip) && (KeyReserved(st, now, req.verifier) || durable == Some(true))
    ensures result.Err? && result.error.Database? <==>
              Admittable(st, now, ip) && !KeyReserved(st, now, req.verifier) && durable.None?
    ensures result.Err? && result.error.GenerationExhausted? <==>
              && Admittable(st, now, ip) && !KeyReserved(st, now, req.verifier) && durable == Some(false)
              && NoneFree(Live(st.pending, now), generated)
    ensures result.Err? ==> st'.pending == Live(st.pending, now)
    ensures result.Ok? ==> Accepted(st, now, req, generated, st', result.value)
  {
    hide Wf, Starts, Admittable, RateLimiter.Record, KeyReserved, FirstUnused, NoneFree, RemoveExpired, Unused;
    StartParts(st, now, ip, req, generated, durable, st', result);
    ReservedKeys(st, now, req.verifier);
    CleanedParts(st, now);
    var i := FirstUnusedIsFirst(Live(st.pending, now), generated);
    FirstUnusedIsUnused(Live(st.pending, now), generated);
    assert FirstUnused(Live(st.pending, now), generated).Some? ==> FreshPair(Live(st.pending, now), generated) by {
      FreshPairHolds(Live(st.pending, now), generated);
    }
  }

  predicate FreshPair(pending: Pending, generated: seq<(CapId, CodeBytes)>) {
    FirstUnused(pending, generated).Some? ==>
      FirstUnused(pending, generated).value.0 !in pending && ValidCode(FirstUnused(pending, generated).value.1)
  }

  lemma FreshPairHolds(pending: Pending, generated: seq<(CapId, CodeBytes)>)
    ensures FreshPair(pending, generated)
  {
    FirstUnusedIsUnused(pending, generated);
  }

  lemma CleanedParts(st: Store, now: Instant)
    ensures Cleaned(st, now).pending == Live(st.pending, now)
    ensures Cleaned(st, now).verifiers == RemoveExpired(st, now).verifiers
  {
  }

  // ----- approvals and denials -----

  /** The unexpired entry whose formatted code was typed. */
  predicate Named(st: Store, now: Instant, id: CapId, display: Text) {
    && id in st.pending && st.pending[id].expires > now
    && ValidCode(st.pending[id].code) && display == FormatCode(st.pending[id].code)
  }

  lemma NamedReads(st: Store, now: Instant, id: CapId, display: Text)
    ensures var code := ParseDisplayCode(display);
            Named(st, now, id, display) <==> code.Some? && id in Live(st.pending, now) && Live(st.pending, now)[id].code == code.value
  {
    var code := ParseDisplayCode(display);
    if code.Some? { ParseExactlyInvertsFormat(display, code.value); }
    if id in st.pending { ParseExactlyInvertsFormat(display, st.pending[id].code); }
  }

  /** An approval succeeds exactly for the awaiting entry named by its code when a user is bound; a wrong
      code, an unknown or an expired pairing is answered as unknown, one that is decided already as a
      conflict, and a failed binding as such. */
  lemma ApproveAnswers(st: Store, now: Instant, id: CapId, display: Text, expiry: Option<Instant>, binding: Option<Binding>)
    ensures var result := Approve(st, now, id, display, expiry, binding).1;
            var named := Named(st, now, id, display);
            && (result.Ok? <==> named && st.pending[id].status.Awaiting? && binding.Some?)
            && (result == Err(UnknownPairing) <==> !named)
            && (result == Err(Conflict) <==> named && !st.pending[id].status.Awaiting?)
            && (result == Err(BindingFailed) <==> named && st.pending[id].status.Awaiting? && binding.None?)
  {
    hide ParseDisplayCode, Named;
    NamedReads(st, now, id, display);
    NamedIsThere(st, now, id, display);
  }

  lemma NamedIsThere(st: Store, now: Instant, id: CapId, display: Text)
    ensures Named(st, now, id, display) ==> id in st.pending
  {
  }

  /** A denial succeeds exactly for the awaiting entry named by its code, and is refused likewise. */
  lemma DenyAnswers(st: Store, now: Instant, id: CapId, display: Text)
    ensures var result := Deny(st, now, id, display).1;
            var named := Named(st, now, id, display);
            && (result.Ok? <==> named && st.pending[id].status.Awaiting?)
            && (result == Err(UnknownPairing) <==> !named)
            && (result == Err(Conflict) <==> named && !st.pending[id].status.Awaiting?)
  {
    hide ParseDisplayCode, Named;
    NamedReads(st, now, id, display);
    NamedIsThere(st, now, id, display);
  }

  // ----- claims, by the history of the entry -----

  /** The operation is an approval that binds a user under this code, or a denial under it. */
  predicate Approves(op: Op, id: CapId, code: Text)
    requires |code| >= 4
  {
    op.ApproveOp? && op.id == id && op.binding.Some? && op.display == FormatCode(code)
  }

  predicate Denies(op: Op, id: CapId, code: Text)
    requires |code| >= 4
  {
    op.DenyOp? && op.id == id && op.display == FormatCode(code)
  }

  /** The operation is a claim with this key whose activation would succeed. */
  predicate Activating(op: Op, id: CapId, v: Verifier) {
    op.ClaimOp? && op.id == id && op.v == v && op.activation.Some?
  }

  /** The first operation that decided the pairing is at this place. */
  ghost predicate DecidedAt(ops: seq<Op>, id: CapId, code: Text, i: nat)
    requires |code| >= 4
  {
    && i < |ops| && (Approves(ops[i], id, code) || Denies(ops[i], id, code))
    && forall j :: 0 <= j < i ==> !Approves(ops[j], id, code) && !Denies(ops[j], id, code)
  }

  ghost predicate Undecided(ops: seq<Op>, id: CapId, code: Text)
    requires |code| >= 4
  {
    forall j :: 0 <= j < |ops| ==> !Approves(ops[j], id, code) && !Denies(ops[j], id, code)
  }

  ghost predicate ApprovedFirst(ops: seq<Op>, id: CapId, code: Text)
    requires |code| >= 4
  {
    exists i: nat :: DecidedAt(ops, id, code, i) && Approves(ops[i], id, code)
  }

  ghost predicate DeniedFirst(ops: seq<Op>, id: CapId, code: Text)
    requires |code| >= 4
  {
    exists i: nat :: DecidedAt(ops, id, code, i) && Denies(ops[i], id, code)
  }

  /** The first successful activation after the decision is at this place. */
  ghost predicate ActivatedAt(ops: seq<Op>, id: CapId, code: Text, v: Verifier, i: nat, j: nat)
    requires |code| >= 4
  {
    && DecidedAt(ops, id, code, i) && i < j < |ops| && Activating(ops[j], id, v)
    && forall k :: i < k < j ==> !Activating(ops[k], id, v)
  }

  /** An entry that awaits approval under this code and key until this expiry. */
  predicate Waiting(st: Store, id: CapId, code: Text, v: Verifier, expires: Instant) {
    && id in st.pending && st.pending[id].status.Awaiting? && ValidCode(code)
    && st.pending[id].code == code && st.pending[id].verifier == v && st.pending[id].expires == expires
  }

  lemma DecisionMoves(op: Op, id: CapId, e: Entry)
    requires e.status.Awaiting? && ValidCode(e.code)
    ensures Approves(op, id, e.code) ==> EntryAfter(op, id, e).status.Approved?
    ensures Denies(op, id, e.code) ==> EntryAfter(op, id, e).status.Denied?
    ensures !Approves(op, id, e.code) && !Denies(op, id, e.code) ==> EntryAfter(op, id, e) == e
  {
    if op.ApproveOp? || op.DenyOp? { ParseExactlyInvertsFormat(op.display, e.code); }
    hide ParseDisplayCode, FormatCode;
  }

  lemma ActivationMoves(op: Op, id: CapId, e: Entry)
    requires e.status.Approved?
    ensures Activating(op, id, e.verifier) ==> EntryAfter(op, id, e).status == Completed(op.activation.value)
    ensures !Activating(op, id, e.verifier) ==> EntryAfter(op, id, e) == e
  {
  }

  lemma FirstDecision(ops: seq<Op>, id: CapId, code: Text) returns (i: nat)
    requires |code| >= 4
    ensures i <= |ops|
    ensures i == |ops| ==> Undecided(ops, id, code)
    ensures i < |ops| ==> DecidedAt(ops, id, code, i)
  {
    hide Approves, Denies;
    i := 0;
    while i < |ops| && !Approves(ops[i], id, code) && !Denies(ops[i], id, code)
      invariant i <= |ops|
      invariant forall j :: 0 <= j < i ==> !Approves(ops[j], id, code) && !Denies(ops[j], id, code)
    {
      i := i + 1;
    }
  }

  lemma OneDecision(ops: seq<Op>, id: CapId, code: Text, i: nat)
    requires |code| >= 4 && DecidedAt(ops, id, code, i)
    ensures !Undecided(ops, id, code)
    ensures ApprovedFirst(ops, id, code) <==> Approves(ops[i], id, code)
    ensures DeniedFirst(ops, id, code) <==> Denies(ops[i], id, code)
  {
    assert forall k: nat :: DecidedAt(ops, id, code, k) ==> k == i;
  }

  lemma NoDecision(ops: seq<Op>, id: CapId, code: Text)
    requires |code| >= 4 && Undecided(ops, id, code)
    ensures !ApprovedFirst(ops, id, code) && !DeniedFirst(ops, id, code)
  {
  }

  /** Until it is decided the entry does not change. */
  lemma StaysUndecided(st: Store, ops: seq<Op>, id: CapId, i: nat)
    requires id in st.pending && Follows(st, ops, id) && i <= |ops|
    requires st.pending[id].status.Awaiting? && ValidCode(st.pending[id].code)
    requires forall j :: 0 <= j < i ==> !Approves(ops[j], id, st.pending[id].code) && !Denies(ops[j], id, st.pending[id].code)
    ensures EntryAt(st, ops, id, i) == st.pending[id]
  {
    hide Run, Follows, EntryAt, EntryAfter, Approves, Denies;
    EntryAtStart(st, ops, id);
    for k := 0 to i
      invariant EntryAt(st, ops, id, k) == st.pending[id]
    {
      OneMove(st, ops, id, k);
      DecisionMoves(ops[k], id, st.pending[id]);
    }
  }

  /** A denied or completed entry does not change any more. */
  lemma StaysSettled(st: Store, ops: seq<Op>, id: CapId, i: nat)
    requires id in st.pending && Follows(st, ops, id) && i <= |ops|
    requires EntryAt(st, ops, id, i).status.Denied? || EntryAt(st, ops, id, i).status.Completed?
    ensures EntryAt(st, ops, id, |ops|) == EntryAt(st, ops, id, i)
  {
    hide Run, Follows, EntryAt, EntryAfter;
    for k := i to |ops|
      invariant EntryAt(st, ops, id, k) == EntryAt(st, ops, id, i)
    {
      OneMove(st, ops, id, k);
      SettledStays(ops[k], id, EntryAt(st, ops, id, k));
    }
  }

  /** Until it is activated an approved entry does not change. */
  lemma StaysApproved(st: Store, ops: seq<Op>, id: CapId, i: nat, j: nat)
    requires id in st.pending && Follows(st, ops, id) && i <= j <= |ops|
    requires EntryAt(st, ops, id, i).status.Approved?
    requires forall k :: i <= k < j ==> !Activating(ops[k], id, EntryAt(st, ops, id, i).verifier)
    ensures EntryAt(st, ops, id, j) == EntryAt(st, ops, id, i)
  {
    hide Run, Follows, EntryAt, EntryAfter, Activating;
    for k := i to j
      invariant EntryAt(st, ops, id, k) == EntryAt(st, ops, id, i)
    {
      OneMove(st, ops, id, k);
      ActivationMoves(ops[k], id, EntryAt(st, ops, id, k));
    }
  }

  /** What a claim answers about an entry that has not expired. */
  lemma ClaimReads(st: Store, at: Instant, id: CapId, v: Verifier, activation: Option<Claimed>)
    requires id in st.pending && at < st.pending[id].expires && st.pending[id].verifier == v
    ensures var result := Claim(st, at, id, v, activation).1;
            match st.pending[id].status {
              case Awaiting => result == Err(NotApproved)
              case Denied => result == Err(WasDenied)
              case Completed(claimed) => result == Ok(claimed)
              case Approved(_, _, _, _) =>
                result == if activation.Some? then Ok(activation.value) else Err(ActivationFailed)
            }
  {
  }

  /** The entry after the whole run. */
  lemma LastEntry(st: Store, ops: seq<Op>, id: CapId)
    requires id in st.pending && Before(ops, st.pending[id])
    ensures Follows(st, ops, id) && id in Run(st, ops).pending
    ensures Run(st, ops).pending[id] == EntryAt(st, ops, id, |ops|)
    ensures Run(st, ops).pending[id].expires == st.pending[id].expires && Run(st, ops).pending[id].verifier == st.pending[id].verifier
  {
    EntryLifecycle(st, ops, id);
    assert ops[..|ops|] == ops;
    EntryEvolves(st, ops, id);
  }

  lemma DeniedAnswer(st: Store, ops: seq<Op>, id: CapId, i: nat)
    requires id in st.pending && Follows(st, ops, id)
    requires st.pending[id].status.Awaiting? && ValidCode(st.pending[id].code)
    requires DecidedAt(ops, id, st.pending[id].code, i) && Denies(ops[i], id, st.pending[id].code)
    ensures EntryAt(st, ops, id, |ops|).status.Denied?
  {
    hide Run, Follows, EntryAt, EntryAfter, Approves, Denies;
    StaysUndecided(st, ops, id, i);
    OneMove(st, ops, id, i);
    DecisionMoves(ops[i], id, st.pending[id]);
    StaysSettled(st, ops, id, i + 1);
  }

  lemma AfterKeepsKey(st: Store, ops: seq<Op>, id: CapId, i: nat)
    requires id in st.pending && Follows(st, ops, id) && i < |ops|
    ensures EntryAt(st, ops, id, i + 1).verifier == EntryAt(st, ops, id, i).verifier
  {
    OneMove(st, ops, id, i);
    AfterKeepsExpiry(ops[i], id, EntryAt(st, ops, id, i));
  }

  /** After an approval came first, the entry is approved until its first activation, and completed with
      the result of that one from then on. */
  lemma ApprovedAnswer(st: Store, ops: seq<Op>, id: CapId, i: nat) returns (j: nat)
    requires id in st.pending && Follows(st, ops, id)
    requires st.pending[id].status.Awaiting? && ValidCode(st.pending[id].code)
    requires DecidedAt(ops, id, st.pending[id].code, i) && Approves(ops[i], id, st.pending[id].code)
    ensures i < j <= |ops| && forall k :: i < k < j ==> !Activating(ops[k], id, st.pending[id].verifier)
    ensures j == |ops| ==> EntryAt(st, ops, id, |ops|).status.Approved?
    ensures j < |ops| ==>
              ActivatedAt(ops, id, st.pending[id].code, st.pending[id].verifier, i, j)
              && EntryAt(st, ops, id, |ops|).status == Completed(ops[j].activation.value)
  {
    hide Run, Follows, EntryAt, EntryAfter, Approves, Denies, Activating;
    var v := st.pending[id].verifier;
    StaysUndecided(st, ops, id, i);
    OneMove(st, ops, id, i);
    AfterKeepsKey(st, ops, id, i);
    DecisionMoves(ops[i], id, st.pending[id]);
    j := i + 1;
    while j < |ops| && !Activating(ops[j], id, v)
      invariant i < j <= |ops|
      invariant forall k :: i < k < j ==> !Activating(ops[k], id, v)
    {
      j := j + 1;
    }
    StaysApproved(st, ops, id, i + 1, j);
    if j < |ops| {
      OneMove(st, ops, id, j);
      ActivationMoves(ops[j], id, EntryAt(st, ops, id, j));
      StaysSettled(st, ops, id, j + 1);
    }
  }

  /** Over every run before the expiry of a started pairing, a claim with its key is answered as pending
      exactly while no approval and no denial of its code has happened, as denied exactly when a denial
      came first, and with a result or a failed activation exactly when an approval came first. */
  lemma ClaimAnswersByHistory(st: Store, id: CapId, code: Text, v: Verifier, expires: Instant, ops: seq<Op>,
                              at: Instant, activation: Option<Claimed>)
    requires Waiting(st, id, code, v, expires) && at < expires
    requires forall i :: 0 <= i < |ops| ==> ops[i].now < expires
    ensures var result := Claim(Run(st, ops), at, id, v, activation).1;
            && (result == Err(NotApproved) <==> Undecided(ops, id, code))
            && (result == Err(WasDenied) <==> DeniedFirst(ops, id, code))
            && (result.Ok? || result == Err(ActivationFailed) <==> ApprovedFirst(ops, id, code))
  {
    hide Run, Follows, EntryAt, EntryAfter, Approves, Denies, Activating, Claim, DecidedAt, Undecided, ApprovedFirst, DeniedFirst;
    LastEntry(st, ops, id);
    ClaimReads(Run(st, ops), at, id, v, activation);
    var i := FirstDecision(ops, id, code);
    if i == |ops| {
      NoDecision(ops, id, code);
      UndecidedEntry(st, ops, id);
    } else {
      OneDecision(ops, id, code, i);
      DecisionIsOne(ops, id, code, i);
      if Denies(ops[i], id, code) {
        DeniedAnswer(st, ops, id, i);
      } else {
        var j := ApprovedAnswer(st, ops, id, i);
      }
    }
  }

  lemma DecisionIsOne(ops: seq<Op>, id: CapId, code: Text, i: nat)
    requires |code| >= 4 && DecidedAt(ops, id, code, i)
    ensures Approves(ops[i], id, code) <==> !Denies(ops[i], id, code)
  {
  }

  lemma UndecidedEntry(st: Store, ops: seq<Op>, id: CapId)
    requires id in st.pending && Follows(st, ops, id)
    requires st.pending[id].status.Awaiting? && ValidCode(st.pending[id].code)
    requires Undecided(ops, id, st.pending[id].code)
    ensures EntryAt(st, ops, id, |ops|) == st.pending[id]
  {
    StaysUndecided(st, ops, id, |ops|);
  }

  /** What an approved pairing's claim is answered with: the result of the first activation since the
      approval if there was one, else what this activation gives. */
  lemma ApprovedClaimResult(st: Store, id: CapId, code: Text, v: Verifier, expires: Instant, ops: seq<Op>,
                            at: Instant, activation: Option<Claimed>) returns (i: nat, j: nat)
    requires Waiting(st, id, code, v, expires) && at < expires
    requires forall i :: 0 <= i < |ops| ==> ops[i].now < expires
    requires ApprovedFirst(ops, id, code)
    ensures DecidedAt(ops, id, code, i) && i < j <= |ops|
    ensures forall k :: i < k < j ==> !Activating(ops[k], id, v)
    ensures j < |ops| ==> ActivatedAt(ops, id, code, v, i, j)
    ensures Claim(Run(st, ops), at, id, v, activation).1 ==
            if j < |ops| then Ok(ops[j].activation.value)
            else if activation.Some? then Ok(activation.value) else Err(ActivationFailed)
  {
    hide Run, Follows, EntryAt, EntryAfter, Approves, Denies, Activating, Claim;
    LastEntry(st, ops, id);
    ClaimReads(Run(st, ops), at, id, v, activation);
    i :| DecidedAt(ops, id, code, i) && Approves(ops[i], id, code);
    j := ApprovedAnswer(st, ops, id, i);
  }

  /** An accepted start leaves such an entry. */
  lemma AcceptedIsWaiting(st: Store, now: Instant, req: Request, generated: seq<(CapId, CodeBytes)>, st': Store, s: Started)
    requires Accepted(st, now, req, generated, st', s)
    ensures Waiting(st', s.id, s.code, req.verifier, s.expires) && s.expires == now + PAIRING_LIFETIME
  {
  }

  /** A claim is answered as unknown exactly when the pairing is unknown or expired, and as unauthorised
      exactly when it is there under another key, whatever its status. */
  lemma RefusedClaims(st: Store, now: Instant, id: CapId, v: Verifier, activation: Option<Claimed>)
    ensures var result := Claim(st, now, id, v, activation).1;
            && (result == Err(NotFound) <==> id !in st.pending || st.pending[id].expires <= now)
            && (result == Err(Unauthorized) <==>
                  id in st.pending && st.pending[id].expires > now && st.pending[id].verifier != v)
  {
  }
}
