/** The store object.  Each method is one call made while the store's lock is held; the functions of
    module Pairing say what it leaves behind. */
module PairingStoreObject {
  import opened Basics
  import opened Codes
  import opened RateLimiter
  import opened Pairing

  datatype PairingReview = PairingReview(id: CapId, display: Text, name: Name, permission: nat, expires: Instant)

  /** The `while front <= cutoff { pop_front }` loop. */
  method PopFront(starts: seq<Instant>, cutoff: Instant) returns (kept: seq<Instant>)
    ensures kept == PopThrough(starts, cutoff)
  {
    kept := starts;
    while kept != [] && kept[0] <= cutoff
      invariant PopThrough(kept, cutoff) == PopThrough(starts, cutoff)
      decreases |kept|
    {
      kept := kept[1..];
    }
  }

  /** The least whole-second delay over the pending entries. */
  method LeastDelay(pending: Pending, now: Instant) returns (r: nat)
    requires pending != map[]
    ensures IsCapacityHint(pending, now, r)
  {
    var first :| first in pending;
    r := SecondsUntil(pending[first].expires, now);
    var rest := pending.Keys - {first};
    while rest != {}
      invariant rest <= pending.Keys
      invariant exists id :: id in pending && SecondsUntil(pending[id].expires, now) == r
      invariant forall id :: id in pending && id !in rest ==> SecondsUntil(pending[id].expires, now) >= r
      decreases rest
    {
      var id :| id in rest;
      var delay := SecondsUntil(pending[id].expires, now);
      if delay < r { r := delay; }
      rest := rest - {id};
    }
  }

  /** The loop over generated identifiers and codes. */
  method FindUnused(pending: Pending, generated: seq<(CapId, CodeBytes)>) returns (found: Option<(CapId, Text)>)
    ensures found == FirstUnused(pending, generated)
  {
    var i := 0;
    while i < |generated|
      invariant 0 <= i <= |generated|
      invariant FirstUnused(pending, generated[i..]) == FirstUnused(pending, generated)
    {
      var (id, bytes) := generated[i];
      var code := EncodeCode(bytes);
      if id !in pending && forall other :: other in pending ==> pending[other].code != code {
        return Some((id, code));
      }
      i := i + 1;
    }
    return None;
  }

  /** The map with the deques outside `todo` already pruned. */
  ghost function PartlyPruned(source: map<Source, seq<Instant>>, cutoff: Instant, todo: set<Source>)
    : map<Source, seq<Instant>>
  {
    map ip | ip in source && (ip in todo || PopThrough(source[ip], cutoff) != [])
      :: if ip in todo then source[ip] else PopThrough(source[ip], cutoff)
  }

  lemma PruneOne(source: map<Source, seq<Instant>>, cutoff: Instant, todo: set<Source>, ip: Source)
    requires ip in todo && todo <= source.Keys
    ensures var partly, recent := PartlyPruned(source, cutoff, todo), PopThrough(source[ip], cutoff);
            && ip in partly && partly[ip] == source[ip]
            && PartlyPruned(source, cutoff, todo - {ip}) == if recent == [] then partly - {ip} else partly[ip := recent]
  {
    hide PopThrough;
  }

  lemma PruneEnds(source: map<Source, seq<Instant>>, cutoff: Instant)
    ensures PartlyPruned(source, cutoff, source.Keys) == source
    ensures PartlyPruned(source, cutoff, {}) == Recent(source, cutoff)
  {
    hide PopThrough;
  }

  /** `source_starts.retain(..)`: prunes every deque and drops those that end up empty. */
  method RetainRecent(source: map<Source, seq<Instant>>, cutoff: Instant) returns (kept: map<Source, seq<Instant>>)
    ensures kept == Recent(source, cutoff)
  {
    hide PopThrough, PartlyPruned;
    PruneEnds(source, cutoff);
    kept := source;
    var todo := source.Keys;
    while todo != {}
      invariant todo <= source.Keys
      invariant kept == PartlyPruned(source, cutoff, todo)
      decreases todo
    {
      var ip :| ip in todo;
      PruneOne(source, cutoff, todo, ip);
      var recent := PopFront(kept[ip], cutoff);
      if recent == [] { kept := kept - {ip}; } else { kept := kept[ip := recent]; }
      todo := todo - {ip};
    }
  }

  /** The entries left, and the verifiers gone, while the expired entries of `todo` are still there. */
  ghost function PartlyLive(pending: Pending, now: Instant, todo: set<CapId>): Pending {
    map id | id in pending && (pending[id].expires > now || id in todo) :: pending[id]
  }

  ghost function PartlyGone(pending: Pending, now: Instant, todo: set<CapId>): set<Verifier> {
    set id | id in pending && pending[id].expires <= now && id !in todo :: pending[id].verifier
  }

  lemma ExpireEnds(pending: Pending, now: Instant, todo: set<CapId>)
    requires forall id :: id in todo <==> id in pending && pending[id].expires <= now
    ensures PartlyLive(pending, now, todo) == pending && PartlyGone(pending, now, todo) == {}
    ensures PartlyLive(pending, now, {}) == Live(pending, now)
    ensures PartlyGone(pending, now, {}) == set id | id in pending && pending[id].expires <= now :: pending[id].verifier
  {
  }

  lemma ExpireOne(pending: Pending, now: Instant, todo: set<CapId>, id: CapId)
    requires id in todo && id in pending && pending[id].expires <= now
    ensures id in PartlyLive(pending, now, todo) && PartlyLive(pending, now, todo)[id] == pending[id]
    ensures PartlyLive(pending, now, todo - {id}) == PartlyLive(pending, now, todo) - {id}
    ensures PartlyGone(pending, now, todo - {id}) == PartlyGone(pending, now, todo) + {pending[id].verifier}
  {
    var before, after := PartlyGone(pending, now, todo), PartlyGone(pending, now, todo - {id});
    forall v: Verifier ensures v in after <==> v in before + {pending[id].verifier} {
      if v in before {
        var a :| a in pending && pending[a].expires <= now && a !in todo && pending[a].verifier == v;
        assert a !in todo - {id};
      }
    }
  }

  class PairingStore {
    var pending: Pending
    var verifiers: set<Verifier>
    var sourceStarts: map<Source, seq<Instant>>
    var globalStarts: seq<Instant>

    function Abs(): Store
      reads this
    {
      Store(pending, verifiers, Limiter(sourceStarts, globalStarts))
    }

    constructor ()
      ensures Abs() == EMPTY
    {
      pending, verifiers, sourceStarts, globalStarts := map[], {}, map[], [];
    }

    method RemoveExpired(now: Instant)
      modifies this`pending, this`verifiers
      ensures Abs() == Pairing.RemoveExpired(old(Abs()), now)
    {
      hide PartlyLive, PartlyGone;
      var expired := set id | id in pending && pending[id].expires <= now;
      ExpireEnds(pending, now, expired);
      while expired != {}
        invariant forall id :: id in expired ==> id in old(pending) && old(pending)[id].expires <= now
        invariant pending == PartlyLive(old(pending), now, expired)
        invariant verifiers == old(verifiers) - PartlyGone(old(pending), now, expired)
        decreases expired
      {
        var id :| id in expired;
        ExpireOne(old(pending), now, expired, id);
        var entry := pending[id];
        pending := pending - {id};
        verifiers := verifiers - {entry.verifier};
        expired := expired - {id};
      }
    }

    method PruneRateLimits(now: Instant)
      modifies this`sourceStarts, this`globalStarts
      ensures Abs() == old(Abs()).(limiter := Prune(old(Abs()).limiter, now))
    {
      hide PopThrough, Recent;
      sourceStarts := RetainRecent(sourceStarts, now - SOURCE_WINDOW);
      globalStarts := PopFront(globalStarts, now - GLOBAL_WINDOW);
    }

    method RecordStart(ip: Source, now: Instant)
      modifies this`sourceStarts, this`globalStarts
      ensures Abs() == old(Abs()).(limiter := Record(old(Abs()).limiter, ip, now))
    {
      var starts := if ip in sourceStarts then sourceStarts[ip] else [];
      sourceStarts := sourceStarts[ip := starts + [now]];
      globalStarts := globalStarts + [now];
    }

    /** The part of `start` after the limiters and the capacity test have let the call through. */
    method Admit(now: Instant, ip: Source, req: Request, generated: seq<(CapId, CodeBytes)>, durable: Option<bool>)
      returns (result: Result<Started, StartError>)
      modifies this
      ensures (Abs(), result) == StartAdmitted(old(Abs()), now, ip, req, generated, durable)
    {
      hide FirstUnused, Record;
      RecordStart(ip, now);
      if req.verifier in verifiers { return Err(VerifierConflict); }
      if durable.None? { return Err(Database); }
      if durable.value { return Err(VerifierConflict); }
      var unused := FindUnused(pending, generated);
      if unused.None? { return Err(GenerationExhausted); }
      var (id, code) := unused.value;
      verifiers := verifiers + {req.verifier};
      pending := pending[id := Entry(code, req.name, req.verifier, req.permission, now + PAIRING_LIFETIME, Awaiting)];
      return Ok(Started(id, code, now + PAIRING_LIFETIME));
    }

    method Start(now: Instant, ip: Source, req: Request, generated: seq<(CapId, CodeBytes)>, durable: Option<bool>)
      returns (result: Result<Started, StartError>)
      modifies this
      ensures Starts(old(Abs()), now, ip, req, generated, durable, Abs(), result)
    {
      hide Prune, RetryAfter, StartAdmitted, Pairing.RemoveExpired, IsCapacityHint;
      RemoveExpired(now);
      PruneRateLimits(now);
      assert Abs() == Cleaned(old(Abs()), now);
      var retry := RetryAfter(Limiter(sourceStarts, globalStarts), ip, now);
      if retry.Some? { return Err(RateLimited(retry.value)); }
      if |pending| >= MAX_PENDING_PAIRINGS {
        var hint := LeastDelay(pending, now);
        return Err(CapacityFull(hint));
      }
      result := Admit(now, ip, req, generated, durable);
    }

    /** `review`: answers for exactly the unexpired entry whose formatted code was given. */
    method Review(now: Instant, display: Text) returns (result: Result<PairingReview, TransitionError>)
      requires Wf(Abs())
      modifies this`pending, this`verifiers
      ensures Wf(Abs())
      ensures ParseDisplayCode(display).Some? ==> Abs() == Pairing.RemoveExpired(old(Abs()), now)
      ensures ParseDisplayCode(display).None? ==> Abs() == old(Abs())
      ensures forall id :: id in pending && pending[id].code != [] && display == FormatCode(pending[id].code)
                           && pending[id].expires > now ==>
                var e := pending[id];
                result == if e.status.Awaiting? then Ok(PairingReview(id, display, e.name, e.permission, e.expires))
                          else Err(Conflict)
      ensures (forall id :: id in pending && pending[id].code != [] && pending[id].expires > now ==>
                 display != FormatCode(pending[id].code)) ==>
              result == Err(UnknownPairing)
    {
      var parsed := ParseDisplayCode(display);
      if parsed.None? {
        forall id | id in pending && pending[id].code != [] ensures display != FormatCode(pending[id].code) {
          ParseExactlyInvertsFormat(display, pending[id].code);
        }
        return Err(UnknownPairing);
      }
      var code := parsed.value;
      RemoveExpiredKeeps(Abs(), now);
      RemoveExpired(now);
      ParseExactlyInvertsFormat(display, code);
      forall id | id in pending && pending[id].code != []
        ensures display == FormatCode(pending[id].code) <==> pending[id].code == code
      {
        ParseExactlyInvertsFormat(display, pending[id].code);
      }
      if id :| id in pending && pending[id].code == code {
        var entry := pending[id];
        if !entry.status.Awaiting? { return Err(Conflict); }
        return Ok(PairingReview(id, FormatCode(entry.code), entry.name, entry.permission, entry.expires));
      }
      return Err(UnknownPairing);
    }

    method Approve(now: Instant, id: CapId, display: Text, expiry: Option<Instant>, binding: Option<Binding>)
      returns (result: Result<(), TransitionError>)
      modifies this`pending, this`verifiers
      ensures (Abs(), result) == Pairing.Approve(old(Abs()), now, id, display, expiry, binding)
    {
      var parsed := ParseDisplayCode(display);
      if parsed.None? { return Err(UnknownPairing); }
      RemoveExpired(now);
      if id !in pending { return Err(UnknownPairing); }
      var entry := pending[id];
      if entry.code != parsed.value { return Err(UnknownPairing); }
      if !entry.status.Awaiting? { return Err(Conflict); }
      if binding.None? { return Err(BindingFailed); }
      var b := binding.value;
      pending := pending[id := entry.(status := Approved(b.user, b.dek, b.lease, expiry))];
      return Ok(());
    }

    method Deny(now: Instant, id: CapId, display: Text) returns (result: Result<(), TransitionError>)
      modifies this`pending, this`verifiers
      ensures (Abs(), result) == Pairing.Deny(old(Abs()), now, id, display)
    {
      var parsed := ParseDisplayCode(display);
      if parsed.None? { return Err(UnknownPairing); }
      RemoveExpired(now);
      if id !in pending { return Err(UnknownPairing); }
      var entry := pending[id];
      if entry.code != parsed.value { return Err(UnknownPairing); }
      if !entry.status.Awaiting? { return Err(Conflict); }
      pending := pending[id := entry.(status := Denied)];
      return Ok(());
    }

    method Claim(now: Instant, id: CapId, v: Verifier, activation: Option<Claimed>)
      returns (result: Result<Claimed, ClaimError>)
      modifies this`pending, this`verifiers
      ensures (Abs(), result) == Pairing.Claim(old(Abs()), now, id, v, activation)
    {
      RemoveExpired(now);
      if id !in pending { return Err(NotFound); }
      var entry := pending[id];
      if entry.verifier != v { return Err(Unauthorized); }
      match entry.status {
        case Awaiting => return Err(NotApproved);
        case Denied => return Err(WasDenied);
        case Completed(claimed) => return Ok(claimed);
        case Approved(_, _, _, _) =>
          if activation.None? { return Err(ActivationFailed); }
          entry := entry.(name := "");
          entry := entry.(code := []);
          entry := entry.(status := Completed(activation.value));
          pending := pending[id := entry];
          return Ok(activation.value);
      }
    }
  }
}
