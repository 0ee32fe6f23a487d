/** The registry object.  Each method is one critical section of `src/auth/lifecycle.rs`: the code
    between taking the lock and releasing it or waiting.  A wait loop contributes one method, its
    single pass; the step system runs passes of different threads in any order. */
module LifecycleRegistry {
  import opened Basics
  import opened Registry

  class UserLifecycleRegistry {
    var users: Users
    /** The `UserRequestLease` objects alive outside the registry. */
    ghost var leases: Leases

    ghost predicate Valid()
      reads this
    {
      Sound(users, leases)
    }

    constructor ()
      ensures Valid() && users == map[] && leases == map[]
    {
      users := map[];
      leases := map[];
      new;
      forall u: UserId ensures Counts(Lookup(users, u), leases, u) { CountsEmpty(u); }
    }

    /** Only this user's state changes, to this one; an idle state is as good as none. */
    twostate predicate Becomes(u: UserId, state: UserState)
      reads this
    {
      && Lookup(users, u) == state
      && forall w: UserId :: w != u ==> Lookup(users, w) == Lookup(old(users), w)
    }

    /** `users.entry(user_id).or_default()`. */
    method Entry(u: UserId) returns (state: UserState)
      ensures state == Lookup(users, u)
    {
      if u in users { state := users[u]; } else { state := FRESH; }
    }

    /** Writes a state back and removes the entry when it is idle. */
    method Store(u: UserId, state: UserState)
      modifies this`users
      ensures users == Settle(old(users), u, state)
    {
      if state.IsIdle() { users := users - {u}; } else { users := users[u := state]; }
    }

    /** `acquire_request`: refused under an exclusive claim or for a blocked capability; otherwise the
        counters gain exactly the new lease. */
    method AcquireRequest(u: UserId, cap: Option<CapId>, holder: Holder, ghost id: LeaseId)
      returns (lease: Option<Lease>)
      requires Valid() && id !in leases
      modifies this
      ensures Valid()
      ensures lease.Some? <==>
                !Lookup(old(users), u).exclusive && (cap.Some? ==> cap.value !in Lookup(old(users), u).blocked)
      ensures lease.None? ==> users == old(users) && leases == old(leases)
      ensures lease.Some? ==> lease.value == Lease(u, cap, holder)
                              && users == Admit(old(users), u, cap) && leases == old(leases)[id := lease.value]
      ensures lease.Some? ==> var was := Lookup(old(users), u);
                Becomes(u, was.(active := was.active + 1,
                                byCap := if cap.Some? then was.byCap[cap.value := was.CapCount(cap.value) + 1] else was.byCap))
    {
      var state := Entry(u);
      if state.exclusive || (cap.Some? && cap.value in state.blocked) { return None; }
      state := state.(active := state.active + 1);
      if cap.Some? {
        var count := if cap.value in state.byCap then state.byCap[cap.value] else 0;
        state := state.(byCap := state.byCap[cap.value := count + 1]);
      }
      lease := Some(Lease(u, cap, holder));
      AdmitSound(users, leases, id, lease.value);
      users := users[u := state];
      leases := leases[id := lease.value];
    }

    /** `Drop for UserRequestLease`.  The entry is always found, and a close is requested exactly when
        this was the user's last lease and no session is pinned. */
    method DropLease(lease: Lease, ghost id: LeaseId) returns (found: bool, close: bool)
      requires Valid() && id in leases && leases[id] == lease
      modifies this
      ensures Valid() && found
      ensures users == Release(old(users), lease.user, lease.cap) && leases == old(leases) - {id}
      ensures close <==> Held(leases, lease.user) == {} && Lookup(old(users), lease.user).sessions == {}
      ensures Lookup(users, lease.user).sessions == Lookup(old(users), lease.user).sessions
      ensures Lookup(users, lease.user).exclusive == Lookup(old(users), lease.user).exclusive
      ensures Lookup(users, lease.user).blocked == Lookup(old(users), lease.user).blocked
    {
      ReleaseSound(users, leases, id);
      var u, cap := lease.user, lease.cap;
      ghost var wanted := Release(users, u, cap);
      leases := leases - {id};
      found := u in users;
      if !found { return false, false; }
      var state := users[u];
      state := state.(active := SaturatingDec(state.active));
      if cap.Some? && cap.value in state.byCap {
        var count := SaturatingDec(state.byCap[cap.value]);
        if count == 0 {
          state := state.(byCap := state.byCap - {cap.value});
        } else {
          state := state.(byCap := state.byCap[cap.value := count]);
        }
      }
      close := state.active == 0 && state.sessions == {};
      Store(u, state);
      assert users == wanted;
      assert Counts(Lookup(users, u), leases, u);
    }

    method PinBrowserSession(u: UserId, sid: SessionId)
      requires Valid()
      modifies this`users
      ensures Valid() && users == Pin(old(users), u, sid)
      ensures Becomes(u, Lookup(old(users), u).(sessions := Lookup(old(users), u).sessions + {sid}))
    {
      var state := Entry(u);
      state := state.(sessions := state.sessions + {sid});
      SettleSound(users, leases, u, state);
      assert sid in state.sessions;
      users := users[u := state];
    }

    /** `unpin_browser_session`. */
    method UnpinBrowserSession(u: UserId, sid: SessionId) returns (close: bool)
      requires Valid()
      modifies this`users
      ensures Valid() && users == Unpin(old(users), u, sid) && close == UnpinCloses(old(users), u, sid)
      ensures close <==> u in old(users) && Held(leases, u) == {} && Lookup(old(users), u).sessions <= {sid}
      ensures Becomes(u, Lookup(old(users), u).(sessions := Lookup(old(users), u).sessions - {sid}))
    {
      if u !in users { return false; }
      var state := users[u].(sessions := users[u].sessions - {sid});
      close := state.active == 0 && state.sessions == {};
      assert Counts(Lookup(users, u), leases, u);
      assert state.sessions == {} <==> users[u].sessions <= {sid};
      SettleSound(users, leases, u, state);
      Store(u, state);
    }

    /** One pass of the claim loop in `acquire_user_lifecycle_lock`. */
    method TryClaim(u: UserId) returns (claimed: bool)
      requires Valid()
      modifies this`users
      ensures Valid() && (claimed <==> !Lookup(old(users), u).exclusive && Lookup(old(users), u).blocked == {})
      ensures Becomes(u, Lookup(old(users), u).(exclusive := Lookup(old(users), u).exclusive || claimed))
      ensures users == if claimed then Claim(old(users), u) else old(users)
    {
      var state := Entry(u);
      claimed := !state.exclusive && state.blocked == {};
      if claimed {
        SettleSound(users, leases, u, state.(exclusive := true));
        users := users[u := state.(exclusive := true)];
      }
    }

    /** One pass of the drain loop: done exactly when no lease of the user is live. */
    method Drained(u: UserId) returns (done: bool)
      requires Valid()
      ensures done <==> Held(leases, u) == {}
    {
      done := u !in users || users[u].active == 0;
      assert Counts(Lookup(users, u), leases, u);
    }

    /** One pass of the loop in `begin_capability_shutdown`. */
    method TryBlock(u: UserId, c: CapId) returns (blocked: bool)
      requires Valid()
      modifies this`users
      ensures Valid() && (blocked <==> !Lookup(old(users), u).exclusive && c !in Lookup(old(users), u).blocked)
      ensures blocked ==> Becomes(u, Lookup(old(users), u).(blocked := Lookup(old(users), u).blocked + {c}))
      ensures users == if blocked then Block(old(users), u, c) else old(users)
    {
      var state := Entry(u);
      blocked := !state.exclusive && c !in state.blocked;
      if blocked {
        state := state.(blocked := state.blocked + {c});
        SettleSound(users, leases, u, state);
        assert c in state.blocked;
        users := users[u := state];
      }
    }

    /** One pass of `wait_for_requests`: done exactly when no lease for the capability is live. */
    method Flushed(u: UserId, c: CapId) returns (done: bool)
      requires Valid()
      ensures done <==> HeldFor(leases, u, c) == {}
    {
      done := u !in users || c !in users[u].byCap || users[u].byCap[c] == 0;
      assert Counts(Lookup(users, u), leases, u);
      assert done <==> Lookup(users, u).CapCount(c) == 0;
    }

    /** `clear_browser_sessions`, called under the exclusive guard. */
    method ClearBrowserSessions(u: UserId)
      requires Valid() && Lookup(users, u).exclusive
      modifies this`users
      ensures Valid() && users == ClearSessions(old(users), u)
      ensures Becomes(u, Lookup(old(users), u).(sessions := {}))
    {
      if u in users {
        SettleSound(users, leases, u, users[u].(sessions := {}));
        users := users[u := users[u].(sessions := {})];
      }
    }

    /** `Drop for UserLifecycleGuard`. */
    method DropExclusive(u: UserId)
      requires Valid()
      modifies this`users
      ensures Valid() && users == Unclaim(old(users), u)
      ensures Becomes(u, Lookup(old(users), u).(exclusive := false))
    {
      if u in users {
        SettleSound(users, leases, u, users[u].(exclusive := false));
        Store(u, users[u].(exclusive := false));
      }
    }

    /** `Drop for CapabilityShutdownGuard`. */
    method DropShutdown(u: UserId, c: CapId)
      requires Valid()
      modifies this`users
      ensures Valid() && users == Unblock(old(users), u, c)
      ensures Becomes(u, Lookup(old(users), u).(blocked := Lookup(old(users), u).blocked - {c}))
    {
      if u in users {
        var state := users[u].(blocked := users[u].blocked - {c});
        SettleSound(users, leases, u, state);
        Store(u, state);
      }
    }
  }
}
