/** The user lifecycle registry: what each critical section of `src/auth/lifecycle.rs` does to the
    shared map of per-user states, and what it means for the counters to be exact. */
module Registry {
  import opened Basics

  datatype UserState = UserState(
    exclusive: bool,
    blocked: set<CapId>,
    active: nat,
    byCap: map<CapId, nat>,
    sessions: set<SessionId>)
  {
    predicate IsIdle() {
      !exclusive && blocked == {} && active == 0 && byCap == map[] && sessions == {}
    }

    function CapCount(c: CapId): nat {
      if c in byCap then byCap[c] else 0
    }
  }

  const FRESH := UserState(false, {}, 0, map[], {})

  type Users = map<UserId, UserState>

  function Lookup(users: Users, u: UserId): UserState {
    if u in users then users[u] else FRESH
  }

  /** Stores a state and drops the entry when it has become idle. */
  function Settle(users: Users, u: UserId, st: UserState): Users {
    if st.IsIdle() then users - {u} else users[u := st]
  }

  function SaturatingDec(n: nat): nat {
    if n == 0 then 0 else n - 1
  }

  // ----- requests -----

  predicate Admits(users: Users, u: UserId, cap: Option<CapId>) {
    var st := Lookup(users, u);
    !st.exclusive && !(cap.Some? && cap.value in st.blocked)
  }

  function Admitted(st: UserState, cap: Option<CapId>): UserState {
    var byCap := if cap.Some? then st.byCap[cap.value := st.CapCount(cap.value) + 1] else st.byCap;
    st.(active := st.active + 1, byCap := byCap)
  }

  function Admit(users: Users, u: UserId, cap: Option<CapId>): Users {
    users[u := Admitted(Lookup(users, u), cap)]
  }

  function Released(st: UserState, cap: Option<CapId>): UserState {
    var byCap :=
      if cap.Some? && cap.value in st.byCap then
        var n := SaturatingDec(st.byCap[cap.value]);
        if n == 0 then st.byCap - {cap.value} else st.byCap[cap.value := n]
      else st.byCap;
    st.(active := SaturatingDec(st.active), byCap := byCap)
  }

  function Release(users: Users, u: UserId, cap: Option<CapId>): Users {
    if u in users then Settle(users, u, Released(users[u], cap)) else users
  }

  /** Whether dropping this lease asks for the user database to be closed. */
  predicate ReleaseCloses(users: Users, u: UserId, cap: Option<CapId>) {
    u in users && Released(users[u], cap).active == 0 && users[u].sessions == {}
  }

  // ----- browser sessions -----

  function Pin(users: Users, u: UserId, sid: SessionId): Users {
    var st := Lookup(users, u);
    users[u := st.(sessions := st.sessions + {sid})]
  }

  function Unpinned(st: UserState, sid: SessionId): UserState {
    st.(sessions := st.sessions - {sid})
  }

  function Unpin(users: Users, u: UserId, sid: SessionId): Users {
    if u in users then Settle(users, u, Unpinned(users[u], sid)) else users
  }

  predicate UnpinCloses(users: Users, u: UserId, sid: SessionId) {
    u in users && users[u].active == 0 && Unpinned(users[u], sid).sessions == {}
  }

  function ClearSessions(users: Users, u: UserId): Users {
    if u in users then users[u := users[u].(sessions := {})] else users
  }

  // ----- exclusive guard and capability shutdown -----

  predicate ClaimReady(st: UserState) { !st.exclusive && st.blocked == {} }
  predicate DrainReady(st: UserState) { st.active == 0 }
  predicate BlockReady(st: UserState, c: CapId) { !st.exclusive && c !in st.blocked }
  predicate FlushReady(st: UserState, c: CapId) { st.CapCount(c) == 0 }

  function Claim(users: Users, u: UserId): Users {
    users[u := Lookup(users, u).(exclusive := true)]
  }

  function Unclaim(users: Users, u: UserId): Users {
    if u in users then Settle(users, u, users[u].(exclusive := false)) else users
  }

  function Block(users: Users, u: UserId, c: CapId): Users {
    var st := Lookup(users, u);
    users[u := st.(blocked := st.blocked + {c})]
  }

  function Unblock(users: Users, u: UserId, c: CapId): Users {
    if u in users then Settle(users, u, users[u].(blocked := users[u].blocked - {c})) else users
  }

  // ----- exact accounting -----

  /** Who is responsible for dropping a lease: a request outside the protocol, a thread of the
      protocol, or the pending pairing that holds it while approved. */
  datatype Holder = Request | Thread(t: Tid) | Pairing(id: CapId)

  datatype Lease = Lease(user: UserId, cap: Option<CapId>, holder: Holder)

  type Leases = map<LeaseId, Lease>

  function Held(leases: Leases, u: UserId): set<LeaseId> {
    set l | l in leases && leases[l].user == u
  }

  function HeldFor(leases: Leases, u: UserId, c: CapId): set<LeaseId> {
    set l | l in leases && leases[l].user == u && leases[l].cap == Some(c)
  }

  /** The counters of a state are exactly the live leases of that user. */
  ghost predicate Counts(st: UserState, leases: Leases, u: UserId) {
    && st.active == |Held(leases, u)|
    && (forall c: CapId :: st.CapCount(c) == |HeldFor(leases, u, c)|)
    && (forall c: CapId :: c in st.byCap ==> st.byCap[c] > 0)
  }

  /** Exact accounting over the whole map, with no idle entry left behind. */
  ghost predicate Sound(users: Users, leases: Leases) {
    && (forall u: UserId :: Counts(Lookup(users, u), leases, u))
    && (forall u: UserId :: u in users ==> !users[u].IsIdle())
  }

  lemma CountsFrame(st: UserState, leases: Leases, leases': Leases, u: UserId)
    requires Counts(st, leases, u)
    requires Held(leases', u) == Held(leases, u)
    requires forall l :: l in Held(leases, u) ==> leases'[l].cap == leases[l].cap
    ensures Counts(st, leases', u)
  {
    forall c: CapId ensures HeldFor(leases', u, c) == HeldFor(leases, u, c) {
      forall l ensures l in HeldFor(leases', u, c) <==> l in HeldFor(leases, u, c) {
        assert l in HeldFor(leases', u, c) ==> l in Held(leases', u);
        assert l in HeldFor(leases, u, c) ==> l in Held(leases, u);
      }
    }
  }

  lemma HeldForInsert(leases: Leases, l: LeaseId, lease: Lease, c: CapId)
    requires l !in leases
    ensures var before, after := HeldFor(leases, lease.user, c), HeldFor(leases[l := lease], lease.user, c);
            |after| == if lease.cap == Some(c) then |before| + 1 else |before|
  {
    var before, after := HeldFor(leases, lease.user, c), HeldFor(leases[l := lease], lease.user, c);
    assert after == if lease.cap == Some(c) then before + {l} else before;
  }

  lemma CountsAdmit(st: UserState, leases: Leases, l: LeaseId, lease: Lease)
    requires Counts(st, leases, lease.user) && l !in leases
    ensures Counts(Admitted(st, lease.cap), leases[l := lease], lease.user)
  {
    var leases' := leases[l := lease];
    var u := lease.user;
    assert Held(leases', u) == Held(leases, u) + {l};
    var st' := Admitted(st, lease.cap);
    forall c: CapId ensures st'.CapCount(c) == |HeldFor(leases', u, c)| {
      HeldForInsert(leases, l, lease, c);
      assert st'.CapCount(c) == if lease.cap == Some(c) then st.CapCount(c) + 1 else st.CapCount(c);
    }
  }

  lemma CountsRelease(st: UserState, leases: Leases, l: LeaseId)
    requires l in leases && Counts(st, leases, leases[l].user)
    ensures st.active > 0 && (leases[l].cap.Some? ==> leases[l].cap.value in st.byCap)
    ensures Counts(Released(st, leases[l].cap), leases - {l}, leases[l].user)
  {
    var leases' := leases - {l};
    var u, cap := leases[l].user, leases[l].cap;
    assert l in Held(leases, u);
    assert Held(leases', u) == Held(leases, u) - {l};
    if cap.Some? {
      assert l in HeldFor(leases, u, cap.value);
    }
    forall c: CapId ensures Released(st, cap).CapCount(c) == |HeldFor(leases', u, c)| {
      if cap == Some(c) {
        assert HeldFor(leases', u, c) == HeldFor(leases, u, c) - {l};
      } else {
        assert HeldFor(leases', u, c) == HeldFor(leases, u, c);
      }
    }
  }

  /** Admission keeps the counters exact. */
  lemma AdmitSound(users: Users, leases: Leases, l: LeaseId, lease: Lease)
    requires Sound(users, leases) && l !in leases
    ensures Sound(Admit(users, lease.user, lease.cap), leases[l := lease])
  {
    var users', leases' := Admit(users, lease.user, lease.cap), leases[l := lease];
    forall u: UserId ensures Counts(Lookup(users', u), leases', u) {
      assert Counts(Lookup(users, u), leases, u);
      if u == lease.user {
        CountsAdmit(Lookup(users, u), leases, l, lease);
      } else {
        assert Held(leases', u) == Held(leases, u);
        CountsFrame(Lookup(users, u), leases, leases', u);
      }
    }
  }

  /** Dropping a live lease keeps the counters exact; neither subtraction saturates and the
      early return for a missing entry is not taken. */
  lemma ReleaseSound(users: Users, leases: Leases, l: LeaseId)
    requires Sound(users, leases) && l in leases
    ensures leases[l].user in users
    ensures users[leases[l].user].active > 0
    ensures leases[l].cap.Some? ==> users[leases[l].user].CapCount(leases[l].cap.value) > 0
    ensures Sound(Release(users, leases[l].user, leases[l].cap), leases - {l})
  {
    var w, cap := leases[l].user, leases[l].cap;
    assert Counts(Lookup(users, w), leases, w);
    CountsRelease(Lookup(users, w), leases, l);
    var users', leases' := Release(users, w, cap), leases - {l};
    forall u: UserId ensures Counts(Lookup(users', u), leases', u) {
      if u != w {
        assert Counts(Lookup(users, u), leases, u);
        assert Held(leases', u) == Held(leases, u);
        CountsFrame(Lookup(users, u), leases, leases', u);
      }
    }
  }

  /** Every other critical section leaves the counters alone. */
  lemma SettleSound(users: Users, leases: Leases, u: UserId, st: UserState)
    requires Sound(users, leases)
    requires st.active == Lookup(users, u).active && st.byCap == Lookup(users, u).byCap
    ensures Sound(Settle(users, u, st), leases)
    ensures !st.IsIdle() ==> Settle(users, u, st) == users[u := st]
  {
    var users' := Settle(users, u, st);
    forall w: UserId ensures Counts(Lookup(users', w), leases, w) {
      assert Counts(Lookup(users, w), leases, w);
    }
  }

  lemma CountsEmpty(u: UserId)
    ensures Counts(FRESH, map[], u)
  {
    assert Held(map[], u) == {};
    forall c: CapId ensures HeldFor(map[], u, c) == {} {}
  }
}
