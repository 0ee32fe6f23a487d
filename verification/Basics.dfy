/** Identifiers and small wrappers shared by every module.  Users, capabilities, sessions
    and key verifiers are opaque in the source apart from equality, so each is
    modelled by a number.  Instants and durations count nanoseconds, the resolution of the
    clock the source uses: some of its arithmetic truncates to whole seconds. */
module Basics {

  type UserId = nat
  type CapId = nat
  type SessionId = nat
  type LeaseId = nat
  type Tid = nat
  type Verifier = nat
  type Name = string
  type Instant = int

  const SECOND: int := 1_000_000_000

  datatype Option<+T> = None | Some(value: T)

  datatype Result<+T, +E> = Ok(value: T) | Err(error: E)

  /** `expires_at.is_some_and(|at| at <= now)`. */
  predicate Expired(expires: Option<Instant>, now: Instant) {
    expires.Some? && expires.value <= now
  }

  /** A subset is no larger than its superset. */
  lemma SubsetSize<T>(a: set<T>, b: set<T>)
    requires a <= b
    ensures |a| <= |b|
  {
    assert b == a + (b - a);
  }
}
