/** The pending-pairing store of `src/pairing.rs`: what each of its operations does to the map of
    pending pairings, the set of reserved verifiers and the rate limiters. */
module Pairing {
  import opened Basics
  import opened Codes
  import opened RateLimiter

  const PAIRING_LIFETIME: int := 600 * SECOND
  const MAX_PENDING_PAIRINGS: nat := 1024

  datatype Claimed = Claimed(user: UserId, permission: nat)

  /** An approved pairing holds the lease that keeps its user busy until it is claimed or expires. */
  datatype Status =
    | Awaiting
    | Approved(user: UserId, dek: Option<nat>, lease: LeaseId, activeExpiry: Option<Instant>)
    | Denied
    | Completed(claimed: Claimed)

  datatype Entry = Entry(
    code: Text,
    name: Name,
    verifier: Verifier,
    permission: nat,
    expires: Instant,
    status: Status)

  type Pending = map<CapId, Entry>

  datatype Store = Store(pending: Pending, verifiers: set<Verifier>, limiter: Limiter)

  const EMPTY := Store(map[], {}, NO_STARTS)

  type CodeBytes = t: Text | |t| == 8 witness [0, 0, 0, 0, 0, 0, 0, 0]

  datatype Request = Request(name: Name, verifier: Verifier, permission: nat)
  datatype Started = Started(id: CapId, code: Text, expires: Instant)
  datatype Binding = Binding(user: UserId, dek: Option<nat>, lease: LeaseId)

  datatype StartError =
    | RateLimited(retryAfter: nat)
    | CapacityFull(retryAfter: nat)
    | VerifierConflict
    | Database
    | GenerationExhausted

  datatype TransitionError = UnknownPairing | Conflict | BindingFailed

  datatype ClaimError = NotFound | Unauthorized | NotApproved | WasDenied | ActivationFailed

  // ----- expiry -----

  function Live(pending: Pending, now: Instant): Pending {
    map id | id in pending && pending[id].expires > now :: pending[id]
  }

  function VerifiersOf(pending: Pending): set<Verifier> {
    set id | id in pending :: pending[id].verifier
  }

  /** `remove_expired`: each expired entry goes, and with it every reservation of its verifier. */
  function RemoveExpired(st: Store, now: Instant): Store {
    var gone := set id | id in st.pending && st.pending[id].expires <= now :: st.pending[id].verifier;
    st.(pending := Live(st.pending, now), verifiers := st.verifiers - gone)
  }

  // ----- start -----

  /** The smallest whole-second delay until some pending entry expires. */
  ghost predicate IsCapacityHint(pending: Pending, now: Instant, r: nat) {
    && (exists id :: id in pending && SecondsUntil(pending[id].expires, now) == r)
    && (forall id :: id in pending ==> SecondsUntil(pending[id].expires, now) >= r)
  }

  /** A generated identifier and code that no pending entry uses. */
  predicate Unused(pending: Pending, id: CapId, code: Text) {
    id !in pending && forall other :: other in pending ==> pending[other].code != code
  }

  /** The first generated pair that is unused. */
  function FirstUnused(pending: Pending, generated: seq<(CapId, CodeBytes)>): Option<(CapId, Text)>
    decreases |generated|
  {
    if generated == [] then None
    else
      var (id, bytes) := generated[0];
      if Unused(pending, id, EncodeCode(bytes)) then Some((id, EncodeCode(bytes)))
      else FirstUnused(pending, generated[1..])
  }

  function Insert(st: Store, now: Instant, id: CapId, code: Text, req: Request): Store {
    st.(pending := st.pending[id := Entry(code, req.name, req.verifier, req.permission, now + PAIRING_LIFETIME, Awaiting)],
        verifiers := st.verifiers + {req.verifier})
  }

  /** The store with expired entries and old start times gone. */
  function Cleaned(st: Store, now: Instant): Store {
    RemoveExpired(st, now).(limiter := Prune(st.limiter, now))
  }

  /** What happens once neither limiter nor capacity refuses; `durable` is the answer of the lookup of
      the verifier among durable capabilities, which may fail. */
  function StartAdmitted(st: Store, now: Instant, ip: Source, req: Request, generated: seq<(CapId, CodeBytes)>,
                         durable: Option<bool>): (Store, Result<Started, StartError>) {
    var st1 := st.(limiter := Record(st.limiter, ip, now));
    if req.verifier in st1.verifiers then (st1, Err(VerifierConflict))
    else if durable.None? then (st1, Err(Database))
    else if durable.value then (st1, Err(VerifierConflict))
    else
      match FirstUnused(st1.pending, generated)
      case None => (st1, Err(GenerationExhausted))
      case Some((id, code)) =>
        (Insert(st1, now, id, code, req), Ok(Started(id, code, now + PAIRING_LIFETIME)))
  }

  /** `start`, as a relation because the capacity hint is a minimum over an unordered map. */
  ghost predicate Starts(st: Store, now: Instant, ip: Source, req: Request, generated: seq<(CapId, CodeBytes)>,
                         durable: Option<bool>, st': Store, result: Result<Started, StartError>) {
    var st1 := Cleaned(st, now);
    var retry := RetryAfter(st1.limiter, ip, now);
    if retry.Some? then st' == st1 && result == Err(RateLimited(retry.value))
    else if |st1.pending| >= MAX_PENDING_PAIRINGS then
      st' == st1 && result.Err? && result.error.CapacityFull? &&
      IsCapacityHint(st1.pending, now, result.error.retryAfter)
    else (st', result) == StartAdmitted(st1, now, ip, req, generated, durable)
  }

  /** The store that `start` leaves behind, whatever hint it answers with. */
  function StartStore(st: Store, now: Instant, ip: Source, req: Request, generated: seq<(CapId, CodeBytes)>,
                      durable: Option<bool>): Store {
    var st1 := Cleaned(st, now);
    if RetryAfter(st1.limiter, ip, now).Some? || |st1.pending| >= MAX_PENDING_PAIRINGS then st1
    else StartAdmitted(st1, now, ip, req, generated, durable).0
  }

  // ----- approve, deny -----

  /** The entry an approval or denial is about, once it has been found to await one. */
  function Awaited(st: Store, id: CapId, code: Text): Result<Entry, TransitionError> {
    if id !in st.pending || st.pending[id].code != code then Err(UnknownPairing)
    else if !st.pending[id].status.Awaiting? then Err(Conflict)
    else Ok(st.pending[id])
  }

  function SetStatus(st: Store, id: CapId, status: Status): Store
    requires id in st.pending
  {
    st.(pending := st.pending[id := st.pending[id].(status := status)])
  }

  /** Whether an approval gets as far as binding a user. */
  predicate AsksToBind(st: Store, now: Instant, id: CapId, display: Text) {
    var code := ParseDisplayCode(display);
    code.Some? && Awaited(RemoveExpired(st, now), id, code.value).Ok?
  }

  /** `approve`; `binding` is what the bind closure returns if it is called. */
  function Approve(st: Store, now: Instant, id: CapId, display: Text, expiry: Option<Instant>,
                   binding: Option<Binding>): (Store, Result<(), TransitionError>) {
    var code := ParseDisplayCode(display);
    if code.None? then (st, Err(UnknownPairing))
    else
      var st1 := RemoveExpired(st, now);
      var entry := Awaited(st1, id, code.value);
      if entry.Err? then (st1, Err(entry.error))
      else if binding.None? then (st1, Err(BindingFailed))
      else
        var b := binding.value;
        (SetStatus(st1, id, Approved(b.user, b.dek, b.lease, expiry)), Ok(()))
  }

  function Deny(st: Store, now: Instant, id: CapId, display: Text): (Store, Result<(), TransitionError>) {
    var code := ParseDisplayCode(display);
    if code.None? then (st, Err(UnknownPairing))
    else
      var st1 := RemoveExpired(st, now);
      var entry := Awaited(st1, id, code.value);
      if entry.Err? then (st1, Err(entry.error)) else (SetStatus(st1, id, Denied), Ok(()))
  }

  // ----- claim -----

  /** Whether a claim gets as far as activating the pairing. */
  predicate Activates(st: Store, now: Instant, id: CapId, v: Verifier) {
    var pending := Live(st.pending, now);
    id in pending && pending[id].verifier == v && pending[id].status.Approved?
  }

  /** A completed entry keeps its verifier and its result; its code and name are wiped. */
  function Complete(st: Store, id: CapId, claimed: Claimed): Store
    requires id in st.pending
  {
    st.(pending := st.pending[id := st.pending[id].(code := [], name := "", status := Completed(claimed))])
  }

  /** `claim`; `activation` is what the activate closure returns if it is called. */
  function Claim(st: Store, now: Instant, id: CapId, v: Verifier, activation: Option<Claimed>)
    : (Store, Result<Claimed, ClaimError>)
  {
    var st1 := RemoveExpired(st, now);
    if id !in st1.pending then (st1, Err(NotFound))
    else if st1.pending[id].verifier != v then (st1, Err(Unauthorized))
    else
      match st1.pending[id].status
      case Awaiting => (st1, Err(NotApproved))
      case Denied => (st1, Err(WasDenied))
      case Completed(claimed) => (st1, Ok(claimed))
      case Approved(_, _, _, _) =>
        if activation.None? then (st1, Err(ActivationFailed))
        else (Complete(st1, id, activation.value), Ok(activation.value))
  }

  // ----- the store invariant -----

  ghost predicate EntryOk(e: Entry) {
    (e.code == [] <==> e.status.Completed?) && (e.code != [] ==> ValidCode(e.code))
  }

  ghost predicate Distinct(pending: Pending) {
    && (forall a, b :: a in pending && b in pending && a != b ==> pending[a].verifier != pending[b].verifier)
    && (forall a, b :: a in pending && b in pending && a != b && pending[a].code != [] ==>
         pending[a].code != pending[b].code)
  }

  ghost predicate Bounded(lim: Limiter) {
    && (forall ip :: ip in lim.source ==> |lim.source[ip]| <= MAX_SOURCE_STARTS)
    && |lim.global| <= MAX_GLOBAL_STARTS
  }

  /** The reservations are exactly the verifiers of pending entries; verifiers and live codes are
      pairwise distinct; a code is wiped exactly on completion; the store and the deques are bounded. */
  ghost predicate Wf(st: Store) {
    && st.verifiers == VerifiersOf(st.pending)
    && Distinct(st.pending)
    && (forall id :: id in st.pending ==> EntryOk(st.pending[id]))
    && |st.pending| <= MAX_PENDING_PAIRINGS
    && Bounded(st.limiter)
  }

  lemma LiveSize(pending: Pending, now: Instant)
    ensures |Live(pending, now)| <= |pending|
  {
    SubsetSize(Live(pending, now).Keys, pending.Keys);
  }

  lemma RemoveExpiredKeeps(st: Store, now: Instant)
    requires Wf(st)
    ensures Wf(RemoveExpired(st, now))
  {
    LiveSize(st.pending, now);
    var st1 := RemoveExpired(st, now);
    forall v ensures v in st1.verifiers <==> v in VerifiersOf(st1.pending) {
      if v in st1.verifiers {
        var id :| id in st.pending && st.pending[id].verifier == v;
        assert id in st1.pending && st1.pending[id].verifier == v;
      }
      if v in VerifiersOf(st1.pending) {
        var id :| id in st1.pending && st1.pending[id].verifier == v;
        assert id in st.pending && st.pending[id].verifier == v;
      }
    }
  }

  lemma PruneKeeps(lim: Limiter, now: Instant)
    requires Bounded(lim)
    ensures Bounded(Prune(lim, now))
  {
  }

  lemma RecordKeeps(lim: Limiter, ip: Source, now: Instant)
    requires Bounded(lim) && RetryAfter(lim, ip, now).None?
    ensures Bounded(Record(lim, ip, now))
  {
  }

  lemma CleanedKeeps(st: Store, now: Instant)
    requires Wf(st)
    ensures Wf(Cleaned(st, now))
  {
    hide Bounded, Prune;
    RemoveExpiredKeeps(st, now);
    PruneKeeps(st.limiter, now);
  }

  lemma {:induction false} FirstUnusedIsUnused(pending: Pending, generated: seq<(CapId, CodeBytes)>)
    ensures var r := FirstUnused(pending, generated);
            && (r.Some? ==> Unused(pending, r.value.0, r.value.1) && ValidCode(r.value.1)
                            && exists i :: 0 <= i < |generated| && generated[i].0 == r.value.0)
            && (r.None? ==> forall i :: 0 <= i < |generated| ==> !Unused(pending, generated[i].0, EncodeCode(generated[i].1)))
    decreases |generated|
  {
    if generated != [] && !Unused(pending, generated[0].0, EncodeCode(generated[0].1)) {
      FirstUnusedIsUnused(pending, generated[1..]);
      var r := FirstUnused(pending, generated[1..]);
      if r.Some? {
        var i :| 0 <= i < |generated[1..]| && generated[1..][i].0 == r.value.0;
        assert generated[i + 1].0 == r.value.0;
      } else {
        forall i | 0 <= i < |generated| ensures !Unused(pending, generated[i].0, EncodeCode(generated[i].1)) {
          if i > 0 { assert generated[i] == generated[1..][i - 1]; }
        }
      }
    }
  }

  lemma VerifiersInsert(pending: Pending, id: CapId, e: Entry)
    requires id !in pending
    ensures VerifiersOf(pending[id := e]) == VerifiersOf(pending) + {e.verifier}
  {
    var pending' := pending[id := e];
    forall v ensures v in VerifiersOf(pending') <==> v in VerifiersOf(pending) + {e.verifier} {
      if v in VerifiersOf(pending) {
        var a :| a in pending && pending[a].verifier == v;
        assert a in pending' && pending'[a].verifier == v;
      }
      assert pending'[id].verifier == e.verifier;
    }
  }

  lemma DistinctInsert(pending: Pending, id: CapId, e: Entry)
    requires Distinct(pending) && Unused(pending, id, e.code) && e.verifier !in VerifiersOf(pending)
    ensures Distinct(pending[id := e])
  {
    forall a | a in pending ensures pending[a].verifier != e.verifier {
      assert pending[a].verifier in VerifiersOf(pending);
    }
  }

  lemma InsertKeeps(st: Store, now: Instant, id: CapId, code: Text, req: Request)
    requires Wf(st) && Unused(st.pending, id, code) && ValidCode(code)
    requires req.verifier !in st.verifiers && |st.pending| < MAX_PENDING_PAIRINGS
    ensures Wf(Insert(st, now, id, code, req))
  {
    hide Bounded, Distinct, VerifiersOf;
    var e := Entry(code, req.name, req.verifier, req.permission, now + PAIRING_LIFETIME, Awaiting);
    VerifiersInsert(st.pending, id, e);
    DistinctInsert(st.pending, id, e);
    assert EntryOk(e);
    assert st.pending[id := e].Keys == st.pending.Keys + {id};
  }

  lemma RecordKeepsWf(st: Store, ip: Source, now: Instant)
    requires Wf(st) && RetryAfter(st.limiter, ip, now).None?
    ensures Wf(st.(limiter := Record(st.limiter, ip, now)))
  {
    hide Bounded, Distinct, RetryAfter, Record;
    RecordKeeps(st.limiter, ip, now);
  }

  lemma StartKeeps(st: Store, now: Instant, ip: Source, req: Request, generated: seq<(CapId, CodeBytes)>,
                   durable: Option<bool>)
    requires Wf(st)
    ensures Wf(StartStore(st, now, ip, req, generated, durable))
  {
    var st' := StartStore(st, now, ip, req, generated, durable);
    hide Wf, Cleaned, RetryAfter, Record, FirstUnused;
    var st1 := Cleaned(st, now);
    CleanedKeeps(st, now);
    if RetryAfter(st1.limiter, ip, now).None? && |st1.pending| < MAX_PENDING_PAIRINGS {
      var st2 := st1.(limiter := Record(st1.limiter, ip, now));
      RecordKeepsWf(st1, ip, now);
      FirstUnusedIsUnused(st2.pending, generated);
      if st' != st2 {
        var r := FirstUnused(st2.pending, generated).value;
        InsertKeeps(st2, now, r.0, r.1, req);
      }
    }
  }

  /** Changing one entry without touching its verifier. */
  lemma UpdateKeeps(st: Store, id: CapId, e: Entry)
    requires Wf(st) && id in st.pending && EntryOk(e)
    requires e.verifier == st.pending[id].verifier && (e.code == st.pending[id].code || e.code == [])
    ensures Wf(st.(pending := st.pending[id := e]))
  {
    hide Bounded, Distinct, VerifiersOf;
    assert st.pending[id := e].Keys == st.pending.Keys;
    VerifiersUpdate(st.pending, id, e);
    DistinctUpdate(st.pending, id, e);
  }

  lemma VerifiersUpdate(pending: Pending, id: CapId, e: Entry)
    requires id in pending && e.verifier == pending[id].verifier
    ensures VerifiersOf(pending[id := e]) == VerifiersOf(pending)
  {
    var pending' := pending[id := e];
    forall v ensures v in VerifiersOf(pending') <==> v in VerifiersOf(pending) {
      if v in VerifiersOf(pending) {
        var a :| a in pending && pending[a].verifier == v;
        assert a in pending' && pending'[a].verifier == v;
      }
      if v in VerifiersOf(pending') {
        var a :| a in pending' && pending'[a].verifier == v;
        assert a in pending && pending[a].verifier == v;
      }
    }
  }

  lemma DistinctUpdate(pending: Pending, id: CapId, e: Entry)
    requires Distinct(pending) && id in pending
    requires e.verifier == pending[id].verifier && (e.code == pending[id].code || e.code == [])
    ensures Distinct(pending[id := e])
  {
  }
}
