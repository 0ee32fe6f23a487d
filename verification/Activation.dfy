/** Activating a claimed pairing (`src/backend/pairing.rs`): the display name is written to the user
    database, then the capability to the application database, with compensation when the second
    write fails.  Every database call may fail, either without effect or after taking effect. */
module Activation {
  import opened Basics
  import opened Protocol
  import opened Pairing

  type Names = map<(UserId, CapId), Name>

  datatype Db = Db(rows: Rows, names: Names)

  datatype Durable = Missing | Refused | Active(claimed: Claimed)

  /** `durable_claim`: production databases are encrypted, so a capability without wrapped key
      material is refused. */
  function DurableClaim(rows: Rows, id: CapId, v: Verifier, now: Instant): Durable {
    if id !in rows then Missing
    else if rows[id].verifier != v then Refused
    else if rows[id].revoked || Basics.Expired(rows[id].expires, now) then Refused
    else if !rows[id].wrapped then Refused
    else Active(Claimed(rows[id].user, rows[id].permission))
  }

  /** The capability is there under this key, and in force. */
  predicate InForce(rows: Rows, id: CapId, v: Verifier, now: Instant) {
    && id in rows && rows[id].verifier == v && !rows[id].revoked && rows[id].wrapped
    && (rows[id].expires.Some? ==> rows[id].expires.value > now)
  }

  /** Missing exactly when there is no such capability, active exactly when it is in force under this key,
      with its user and permission, and otherwise refused. */
  lemma DurableClaimReads(rows: Rows, id: CapId, v: Verifier, now: Instant)
    ensures DurableClaim(rows, id, v, now).Missing? <==> id !in rows
    ensures DurableClaim(rows, id, v, now).Active? <==> InForce(rows, id, v, now)
    ensures InForce(rows, id, v, now) ==> DurableClaim(rows, id, v, now).claimed == Claimed(rows[id].user, rows[id].permission)
  {
  }

  /** The approved pairing being claimed, with the key the client presented. */
  datatype Grant = Grant(
    id: CapId,
    v: Verifier,
    user: UserId,
    dek: Option<nat>,
    name: Name,
    permission: nat,
    expiry: Option<Instant>)

  /** How one database or wrapping call ends. */
  datatype Io = Works | Fails | FailsAfterEffect

  datatype Phase = Probe | WriteName | Wrap | WriteRow | Reprobe | Undo | Done(result: Option<Claimed>)

  function Granted(g: Grant): Claimed { Claimed(g.user, g.permission) }

  function NewRow(g: Grant): Row { Row(g.user, g.v, g.permission, g.expiry, true, false) }

  /** The primary key and the unique verifier of the capability table. */
  predicate CanInsert(rows: Rows, g: Grant) {
    g.id !in rows && forall d | d in rows :: rows[d].verifier != g.v
  }

  /** `INSERT OR IGNORE`: an existing name stays. */
  function PutName(names: Names, g: Grant): Names {
    if (g.user, g.id) in names then names else names[(g.user, g.id) := g.name]
  }

  /** One call of `activate_pairing_claim` and what comes next. */
  function Advance(db: Db, g: Grant, now: Instant, phase: Phase, io: Io): (Db, Phase) {
    match phase
    case Probe =>
      if !io.Works? then (db, Done(None))
      else (match DurableClaim(db.rows, g.id, g.v, now)
            case Missing => (db, WriteName)
            case Refused => (db, Done(None))
            case Active(claimed) => (db, Done(if claimed == Granted(g) then Some(claimed) else None)))
    case WriteName =>
      var db' := if io.Fails? then db else db.(names := PutName(db.names, g));
      if io.Works? && db'.names[(g.user, g.id)] == g.name then (db', Wrap) else (db', Done(None))
    case Wrap => (db, if io.Works? && g.dek.Some? then WriteRow else Undo)
    case WriteRow =>
      var db' := if !io.Fails? && CanInsert(db.rows, g) then db.(rows := db.rows[g.id := NewRow(g)]) else db;
      (db', if io.Works? && CanInsert(db.rows, g) then Done(Some(Granted(g))) else Reprobe)
    case Reprobe =>
      (db, if io.Works? && DurableClaim(db.rows, g.id, g.v, now) == Active(Granted(g))
           then Done(Some(Granted(g))) else Undo)
    case Undo =>
      (if io.Fails? then db else db.(names := db.names - {(g.user, g.id)}), Done(None))
    case Done(_) => (db, phase)
  }

  function Rank(phase: Phase): nat {
    match phase
    case Probe => 6
    case WriteName => 5
    case Wrap => 4
    case WriteRow => 3
    case Reprobe => 2
    case Undo => 1
    case Done(_) => 0
  }

  /** How each call of one activation ends. */
  datatype Faults = Faults(probe: Io, name: Io, wrap: Io, row: Io, reprobe: Io, undo: Io)

  const NO_FAULTS := Faults(Works, Works, Works, Works, Works, Works)

  function FaultAt(f: Faults, phase: Phase): Io {
    match phase
    case Probe => f.probe
    case WriteName => f.name
    case Wrap => f.wrap
    case WriteRow => f.row
    case Reprobe => f.reprobe
    case Undo => f.undo
    case Done(_) => Works
  }

  /** An activation that nothing interrupts. */
  function Activate(db: Db, g: Grant, now: Instant, phase: Phase, f: Faults): (Db, Option<Claimed>)
    decreases Rank(phase)
  {
    if phase.Done? then (db, phase.result)
    else
      var (db', phase') := Advance(db, g, now, phase, FaultAt(f, phase));
      Activate(db', g, now, phase', f)
  }

  /** The two databases and the handler that drives them. */
  class PairingDatabases {
    var rows: Rows
    var names: Names

    function Abs(): Db
      reads this
    {
      Db(rows, names)
    }

    /** `insert_paired_client_name`: insert or ignore, then compare with what is stored. */
    method InsertName(g: Grant, io: Io) returns (ok: bool)
      modifies this`names
      ensures names == if io.Fails? then old(names) else PutName(old(names), g)
      ensures ok <==> io.Works? && names[(g.user, g.id)] == g.name
    {
      if io.Fails? { return false; }
      if (g.user, g.id) !in names { names := names[(g.user, g.id) := g.name]; }
      if io.FailsAfterEffect? { return false; }
      ok := names[(g.user, g.id)] == g.name;
    }

    method DeleteName(g: Grant, io: Io)
      modifies this`names
      ensures names == if io.Fails? then old(names) else old(names) - {(g.user, g.id)}
    {
      if !io.Fails? { names := names - {(g.user, g.id)}; }
    }

    /** `insert_active_client_capability`. */
    method InsertRow(g: Grant, io: Io) returns (ok: bool)
      modifies this`rows
      ensures rows == if !io.Fails? && CanInsert(old(rows), g) then old(rows)[g.id := NewRow(g)] else old(rows)
      ensures ok <==> io.Works? && CanInsert(old(rows), g)
    {
      if io.Fails? || !CanInsert(rows, g) { return false; }
      rows := rows[g.id := NewRow(g)];
      ok := io.Works?;
    }

    /** `activate_pairing_claim`. */
    method ActivateClaim(g: Grant, now: Instant, f: Faults) returns (result: Option<Claimed>)
      modifies this
      ensures (Abs(), result) == Activate(old(Abs()), g, now, Probe, f)
    {
      if !f.probe.Works? { return None; }
      match DurableClaim(rows, g.id, g.v, now) {
        case Active(claimed) => return if claimed == Granted(g) then Some(claimed) else None;
        case Refused => return None;
        case Missing =>
      }
      result := WriteAll(g, now, f);
    }

    /** The part of the activation that writes. */
    method WriteAll(g: Grant, now: Instant, f: Faults) returns (result: Option<Claimed>)
      modifies this
      ensures (Abs(), result) == Activate(old(Abs()), g, now, WriteName, f)
    {
      var named := InsertName(g, f.name);
      if !named { return None; }
      if !f.wrap.Works? || g.dek.None? {
        DeleteName(g, f.undo);
        return None;
      }
      result := WriteCapability(g, now, f);
    }

    method WriteCapability(g: Grant, now: Instant, f: Faults) returns (result: Option<Claimed>)
      modifies this
      ensures (Abs(), result) == Activate(old(Abs()), g, now, WriteRow, f)
    {
      var inserted := InsertRow(g, f.row);
      if inserted { return Some(Granted(g)); }
      if f.reprobe.Works? && DurableClaim(rows, g.id, g.v, now) == Active(Granted(g)) { return Some(Granted(g)); }
      DeleteName(g, f.undo);
      return None;
    }
  }

  // ----- an interrupted activation can be repeated -----

  /** Nothing stands in the way of this grant: its row is absent or is the one it would write, its
      name is absent or is its own, and no other row has its verifier. */
  ghost predicate Clear(db: Db, g: Grant) {
    && (g.id in db.rows ==> db.rows[g.id] == NewRow(g))
    && (forall d :: d in db.rows && db.rows[d].verifier == g.v ==> d == g.id)
    && ((g.user, g.id) in db.names ==> db.names[(g.user, g.id)] == g.name)
  }

  lemma AdvanceClear(db: Db, g: Grant, now: Instant, phase: Phase, io: Io)
    requires Clear(db, g)
    ensures Clear(Advance(db, g, now, phase, io).0, g)
  {
  }

  lemma {:induction false} ActivateClear(db: Db, g: Grant, now: Instant, phase: Phase, f: Faults)
    requires Clear(db, g)
    ensures Clear(Activate(db, g, now, phase, f).0, g)
    decreases Rank(phase)
  {
    if !phase.Done? {
      var (db', phase') := Advance(db, g, now, phase, FaultAt(f, phase));
      AdvanceClear(db, g, now, phase, FaultAt(f, phase));
      ActivateClear(db', g, now, phase', f);
    }
  }

  /** The databases after any number of attempts, each with its own faults. */
  function Retries(db: Db, g: Grant, attempts: seq<(Instant, Faults)>): Db
    decreases |attempts|
  {
    if attempts == [] then db
    else Retries(Activate(db, g, attempts[0].0, Probe, attempts[0].1).0, g, attempts[1..])
  }

  lemma {:induction false} RetriesClear(db: Db, g: Grant, attempts: seq<(Instant, Faults)>)
    requires Clear(db, g)
    ensures Clear(Retries(db, g, attempts), g)
    decreases |attempts|
  {
    if attempts != [] {
      ActivateClear(db, g, attempts[0].0, Probe, attempts[0].1);
      RetriesClear(Activate(db, g, attempts[0].0, Probe, attempts[0].1).0, g, attempts[1..]);
    }
  }

  /** After any number of attempts with any faults, an attempt in which every call works succeeds with
      the user and permission of the approval, before the capability's own expiry. */
  lemma RetryConverges(db: Db, g: Grant, attempts: seq<(Instant, Faults)>, now: Instant)
    requires Clear(db, g) && g.dek.Some? && !Basics.Expired(g.expiry, now)
    ensures var (db', result) := Activate(Retries(db, g, attempts), g, now, Probe, NO_FAULTS);
            && result == Some(Granted(g))
            && DurableClaim(db'.rows, g.id, g.v, now) == Active(Granted(g))
  {
    RetriesClear(db, g, attempts);
    FaultFree(Retries(db, g, attempts), g, now);
  }

  lemma FaultFree(db: Db, g: Grant, now: Instant)
    requires Clear(db, g) && g.dek.Some? && !Basics.Expired(g.expiry, now)
    ensures var (db', result) := Activate(db, g, now, Probe, NO_FAULTS);
            && result == Some(Granted(g))
            && DurableClaim(db'.rows, g.id, g.v, now) == Active(Granted(g))
            && (g.id !in db.rows ==> (g.user, g.id) in db'.names && db'.names[(g.user, g.id)] == g.name)
  {
    if g.id in db.rows {
      assert Advance(db, g, now, Probe, Works) == (db, Done(Some(Granted(g))));
    } else {
      assert Advance(db, g, now, Probe, Works) == (db, WriteName);
      var db1 := db.(names := PutName(db.names, g));
      assert Advance(db, g, now, WriteName, Works) == (db1, Wrap);
      assert Advance(db1, g, now, Wrap, Works) == (db1, WriteRow);
      assert CanInsert(db1.rows, g);
      var db2 := db1.(rows := db1.rows[g.id := NewRow(g)]);
      assert Advance(db1, g, now, WriteRow, Works) == (db2, Done(Some(Granted(g))));
      assert Activate(db2, g, now, Done(Some(Granted(g))), NO_FAULTS) == (db2, Some(Granted(g)));
      assert Activate(db1, g, now, WriteRow, NO_FAULTS) == (db2, Some(Granted(g)));
      assert Activate(db1, g, now, Wrap, NO_FAULTS) == (db2, Some(Granted(g)));
      assert Activate(db, g, now, WriteName, NO_FAULTS) == (db2, Some(Granted(g)));
    }
  }

  // ----- when compensation deletes the name of a capability that exists -----

  /** The capability is there and its name is not. */
  predicate Nameless(db: Db, g: Grant) {
    g.id in db.rows && (g.user, g.id) !in db.names
  }

  /** The calls up to the capability write work, the write takes effect but reports an error, the second
      look fails or finds a grant already past its expiry, and the deletion of the name takes effect. */
  predicate LosesName(db: Db, g: Grant, now: Instant, f: Faults) {
    && CanInsert(db.rows, g)
    && f.probe.Works? && f.name.Works? && f.wrap.Works? && g.dek.Some?
    && ((g.user, g.id) in db.names ==> db.names[(g.user, g.id)] == g.name)
    && f.row.FailsAfterEffect?
    && (!f.reprobe.Works? || Basics.Expired(g.expiry, now))
    && !f.undo.Fails?
  }

  /** One call of the activation, and the rest of it. */
  lemma ActivateUnfolds(db: Db, g: Grant, now: Instant, phase: Phase, f: Faults)
    requires !phase.Done?
    ensures var (db', phase') := Advance(db, g, now, phase, FaultAt(f, phase));
            Activate(db, g, now, phase, f) == if phase'.Done? then (db', phase'.result) else Activate(db', g, now, phase', f)
  {
  }

  /** The end of the activation once the name is stored. */
  lemma NamedActivation(db: Db, g: Grant, now: Instant, f: Faults)
    requires (g.user, g.id) in db.names && g.id !in db.rows
    ensures Nameless(Activate(db, g, now, WriteRow, f).0, g) <==>
              CanInsert(db.rows, g) && f.row.FailsAfterEffect?
              && (!f.reprobe.Works? || Basics.Expired(g.expiry, now)) && !f.undo.Fails?
    ensures !Nameless(Activate(db, g, now, Undo, f).0, g)
  {
    hide Activate;
    var db1 := Advance(db, g, now, WriteRow, f.row).0;
    ActivateUnfolds(db, g, now, WriteRow, f);
    ActivateUnfolds(db1, g, now, Reprobe, f);
    ActivateUnfolds(db1, g, now, Undo, f);
    ActivateUnfolds(db, g, now, Undo, f);
  }

  /** An activation turns a capability that has its name, or does not exist, into one without a name
      exactly under those faults, from any state of the databases. */
  lemma NameLostExactly(db: Db, g: Grant, now: Instant, f: Faults)
    ensures !Nameless(db, g) && Nameless(Activate(db, g, now, Probe, f).0, g) <==> LosesName(db, g, now, f)
  {
    hide Activate, CanInsert;
    CanInsertFresh(db.rows, g);
    ActivateUnfolds(db, g, now, Probe, f);
    if f.probe.Works? && g.id !in db.rows {
      var db1 := db.(names := PutName(db.names, g));
      ActivateUnfolds(db, g, now, WriteName, f);
      ActivateUnfolds(db1, g, now, Wrap, f);
      NamedActivation(db1, g, now, f);
    }
  }

  lemma CanInsertFresh(rows: Rows, g: Grant)
    ensures CanInsert(rows, g) ==> g.id !in rows
  {
  }

  /** Such faults exist for every grant with a database key: the second look may fail, or the grant may
      simply have expired by then. */
  lemma CompensationCanRemoveALiveName(g: Grant, now: Instant)
    requires g.dek.Some?
    ensures var f := NO_FAULTS.(row := FailsAfterEffect, reprobe := Fails);
            Nameless(Activate(Db(map[], map[]), g, now, Probe, f).0, g)
    ensures Basics.Expired(g.expiry, now) ==>
              Nameless(Activate(Db(map[], map[]), g, now, Probe, NO_FAULTS.(row := FailsAfterEffect)).0, g)
  {
    NameLostExactly(Db(map[], map[]), g, now, NO_FAULTS.(row := FailsAfterEffect, reprobe := Fails));
    NameLostExactly(Db(map[], map[]), g, now, NO_FAULTS.(row := FailsAfterEffect));
  }

  // ----- when compensation leaves a name without a capability -----

  /** The name is stored and the capability is not there. */
  predicate Orphaned(db: Db, g: Grant) {
    g.id !in db.rows && (g.user, g.id) in db.names
  }

  /** The probe finds nothing and no name is stored; then either the name write takes effect but reports an
      error, or it works, the capability is not written, and the deletion of the name fails. */
  predicate LeavesOrphan(db: Db, g: Grant, f: Faults) {
    && g.id !in db.rows && (g.user, g.id) !in db.names
    && f.probe.Works?
    && (|| f.name.FailsAfterEffect?
        || (&& f.name.Works? && f.undo.Fails?
            && (!f.wrap.Works? || g.dek.None? || f.row.Fails? || !CanInsert(db.rows, g))))
  }

  lemma NamedOrphan(db: Db, g: Grant, now: Instant, f: Faults)
    requires (g.user, g.id) in db.names && g.id !in db.rows
    ensures Orphaned(Activate(db, g, now, WriteRow, f).0, g) <==> (f.row.Fails? || !CanInsert(db.rows, g)) && f.undo.Fails?
    ensures Orphaned(Activate(db, g, now, Undo, f).0, g) <==> f.undo.Fails?
  {
    hide Activate;
    var db1 := Advance(db, g, now, WriteRow, f.row).0;
    ActivateUnfolds(db, g, now, WriteRow, f);
    ActivateUnfolds(db1, g, now, Reprobe, f);
    ActivateUnfolds(db1, g, now, Undo, f);
    ActivateUnfolds(db, g, now, Undo, f);
  }

  /** An activation leaves an orphaned name that was not there before exactly under those faults, from any
      state of the databases. */
  lemma OrphanLeftExactly(db: Db, g: Grant, now: Instant, f: Faults)
    ensures !Orphaned(db, g) && Orphaned(Activate(db, g, now, Probe, f).0, g) <==> LeavesOrphan(db, g, f)
  {
    hide Activate, CanInsert;
    ActivateUnfolds(db, g, now, Probe, f);
    if f.probe.Works? && g.id !in db.rows {
      var db1 := db.(names := PutName(db.names, g));
      ActivateUnfolds(db, g, now, WriteName, f);
      ActivateUnfolds(db1, g, now, Wrap, f);
      NamedOrphan(db1, g, now, f);
    }
  }

  // ----- what an activation touches, answers and writes -----

  lemma AdvanceFrame(db: Db, g: Grant, now: Instant, phase: Phase, io: Io)
    ensures var db' := Advance(db, g, now, phase, io).0;
            && db'.rows - {g.id} == db.rows - {g.id} && db'.names - {(g.user, g.id)} == db.names - {(g.user, g.id)}
            && (g.id in db.rows ==> db'.rows == db.rows)
  {
  }

  /** No other capability and no other name is touched, and a capability that is there stays as it is. */
  lemma {:induction false} ActivationFrame(db: Db, g: Grant, now: Instant, phase: Phase, f: Faults)
    ensures var db' := Activate(db, g, now, phase, f).0;
            && db'.rows - {g.id} == db.rows - {g.id} && db'.names - {(g.user, g.id)} == db.names - {(g.user, g.id)}
            && (g.id in db.rows ==> db'.rows == db.rows)
    decreases Rank(phase)
  {
    if !phase.Done? {
      AdvanceFrame(db, g, now, phase, FaultAt(f, phase));
      var (db', phase') := Advance(db, g, now, phase, FaultAt(f, phase));
      ActivationFrame(db', g, now, phase', f);
    }
  }

  /** The calls before the capability write all work, on a grant whose capability is not there. */
  predicate GetsToWrite(db: Db, g: Grant, f: Faults) {
    && g.id !in db.rows && f.probe.Works? && f.name.Works? && f.wrap.Works? && g.dek.Some?
    && ((g.user, g.id) in db.names ==> db.names[(g.user, g.id)] == g.name)
  }

  lemma WritesFrom(db: Db, g: Grant, now: Instant, f: Faults)
    requires g.id !in db.rows
    ensures var (db', result) := Activate(db, g, now, WriteRow, f);
            && (g.id in db'.rows <==> CanInsert(db.rows, g) && !f.row.Fails?)
            && (g.id in db'.rows ==> db'.rows[g.id] == NewRow(g))
            && (result.Some? <==>
                  && CanInsert(db.rows, g)
                  && (f.row.Works? || (f.row.FailsAfterEffect? && f.reprobe.Works? && !Basics.Expired(g.expiry, now))))
            && (result.Some? ==> result.value == Granted(g))
    ensures Activate(db, g, now, Undo, f).1 == None && Activate(db, g, now, Undo, f).0.rows == db.rows
  {
    hide Activate;
    var db1 := Advance(db, g, now, WriteRow, f.row).0;
    ActivateUnfolds(db, g, now, WriteRow, f);
    ActivateUnfolds(db1, g, now, Reprobe, f);
    ActivateUnfolds(db1, g, now, Undo, f);
    ActivateUnfolds(db, g, now, Undo, f);
  }

  /** From any databases, an activation succeeds exactly when its capability is found in force with this
      user and permission, or is written and known to be; and it writes the capability exactly when the
      write has effect, whatever it reports. */
  lemma ActivationSucceedsExactly(db: Db, g: Grant, now: Instant, f: Faults)
    ensures var (db', result) := Activate(db, g, now, Probe, f);
            && (result.Some? <==>
                  || (f.probe.Works? && DurableClaim(db.rows, g.id, g.v, now) == Active(Granted(g)))
                  || (GetsToWrite(db, g, f) && CanInsert(db.rows, g)
                      && (f.row.Works? || (f.row.FailsAfterEffect? && f.reprobe.Works? && !Basics.Expired(g.expiry, now)))))
            && (result.Some? ==> result.value == Granted(g))
            && (g.id !in db.rows && g.id in db'.rows <==>
                  GetsToWrite(db, g, f) && CanInsert(db.rows, g) && !f.row.Fails?)
            && (g.id !in db.rows && g.id in db'.rows ==> db'.rows[g.id] == NewRow(g))
  {
    hide Activate, CanInsert;
    ActivateUnfolds(db, g, now, Probe, f);
    if f.probe.Works? && g.id !in db.rows {
      var db1 := db.(names := PutName(db.names, g));
      ActivateUnfolds(db, g, now, WriteName, f);
      ActivateUnfolds(db1, g, now, Wrap, f);
      WritesFrom(db1, g, now, f);
    }
  }

  /** When neither the name write fails with effect nor the deletion fails, a failed activation that wrote
      no capability leaves the databases as they were. */
  lemma FailedActivationRestores(db: Db, g: Grant, now: Instant, f: Faults)
    requires (g.user, g.id) !in db.names && !f.name.FailsAfterEffect? && !f.undo.Fails?
    ensures var (db', result) := Activate(db, g, now, Probe, f);
            result.None? && db'.rows == db.rows ==> db' == db
  {
    hide Activate, CanInsert;
    var db' := Activate(db, g, now, Probe, f).0;
    OrphanLeftExactly(db, g, now, f);
    ActivationFrame(db, g, now, Probe, f);
    ActivateUnfolds(db, g, now, Probe, f);
    SameNames(db.names, db'.names, (g.user, g.id));
  }

  lemma SameNames(a: Names, b: Names, k: (UserId, CapId))
    ensures a - {k} == b - {k} && k !in a && k !in b ==> a == b
  {
    if k !in a && k !in b { assert a == a - {k} && b == b - {k}; }
  }
}
