/** The classes of pg_pool.hpp (examples/01-cloud-native-principles/cpp/src/pg_pool.hpp),
    as one thread runs them, and the `/readyz` loop of main.cpp on top of them. */
module Readyz {
  import opened Text
  import opened Pool

  /** The database a pool talks to: whether opening attempt i succeeds, whether a
      connection comes up (after a reset, if need be), and whether it then answers.
      Attempt i, if it succeeds, makes connection i. */
  class Database {
    const opens: nat -> bool
    const connects: Conn -> bool
    const answers: Conn -> bool
    var attempts: nat

    predicate Usable(c: Conn) {
      connects(c) && answers(c)
    }

    /** `acquire` when nobody else uses the pool: what is left, and the connection if it
        did not time out or fail to open one. */
    function Checkout(core: Core, attempts: nat): (Core, nat, Option<Conn>) {
      if !core.Ready() then (core, attempts, None)
      else
        var (taken, conn) := core.Take();
        if conn.Some? then (taken, attempts, conn)
        else if opens(attempts) then (taken, attempts + 1, Some(attempts))
        else (taken.GiveBack(), attempts + 1, None)
    }

    /** Up to `left` attempts: check out, probe, give back or discard. */
    function Probe(core: Core, attempts: nat, left: nat): Outcome
      decreases left
    {
      if left == 0 then Outcome(core, attempts, false)
      else
        var (taken, now, conn) := Checkout(core, attempts);
        if conn.None? then Probe(taken, now, left - 1)
        else if Usable(conn.value) then Outcome(taken.Release(conn.value, true), now, true)
        else Probe(taken.Release(conn.value, false), now, left - 1)
    }

    method OpenOne() returns (c: Option<Conn>)
      modifies this
      ensures attempts == old(attempts) + 1
      ensures c == if opens(old(attempts)) then Some(old(attempts)) else None
    {
      c := if opens(attempts) then Some(attempts) else None;
      attempts := attempts + 1;
    }
  }

  datatype Outcome = Outcome(core: Core, attempts: nat, ok: bool)

  class ScopedConnection {
    var pool: PgPool?
    var conn: Option<Conn>
    var valid: bool

    constructor (pool: PgPool, conn: Conn)
      ensures this.pool == pool && this.conn == Some(conn) && valid
    {
      this.pool, this.conn, valid := pool, Some(conn), true;
    }

    /** The move constructor leaves nothing behind, so the connection is released once. */
    constructor Move(other: ScopedConnection)
      modifies other
      ensures pool == old(other.pool) && conn == old(other.conn) && valid == old(other.valid)
      ensures other.pool == null && other.conn == None && !other.valid
    {
      pool, conn, valid := other.pool, other.conn, other.valid;
      new;
      other.pool, other.conn, other.valid := null, None, false;
    }

    method Invalidate()
      modifies this`valid
      ensures !valid
    {
      valid := false;
    }

    /** The destructor. */
    method Destroy()
      modifies this`conn, pool
      ensures conn == None
      ensures pool != null && old(conn).Some? ==>
        pool.Fields() == old(pool.Fields()).Release(old(conn).value, valid)
      ensures pool != null && old(conn).None? ==> pool.Fields() == old(pool.Fields())
    {
      if pool != null && conn.Some? {
        pool.Release(conn.value, valid);
      }
      conn := None;
    }
  }

  class PgPool {
    const size: nat
    var free: seq<Conn>
    var live: int

    function Fields(): Core
      reads this
    {
      Core(size, free, live)
    }

    constructor (size: nat)
      ensures Fields() == Core(size, [], 0)
    {
      this.size, free, live := size, [], 0;
    }

    /** The loop of the constructor: it throws at the first connection that fails. */
    method Fill(db: Database) returns (ok: bool)
      requires free == [] && live == 0
      modifies this, db
      ensures ok <==> forall i :: old(db.attempts) <= i < old(db.attempts) + size ==> db.opens(i)
      ensures ok ==> Fields() == Core(size, seq(size, i requires 0 <= i => old(db.attempts) + i), size)
    {
      ghost var first := db.attempts;
      for i := 0 to size
        invariant db.attempts == first + i && live == i
        invariant free == seq(i, j requires 0 <= j => first + j)
        invariant forall j :: first <= j < first + i ==> db.opens(j)
      {
        var c := db.OpenOne();
        if c.None? { return false; }
        free := free + [c.value];
        live := live + 1;
      }
      ok := true;
    }

    /** A checkout by the only user: a pool with nothing to give stays so until the timeout. */
    method Acquire(db: Database) returns (c: ScopedConnection?)
      modifies this, db
      ensures c != null ==> fresh(c) && c.pool == this && c.valid && c.conn.Some?
      ensures (Fields(), db.attempts, if c == null then None else c.conn)
           == db.Checkout(old(Fields()), old(db.attempts))
    {
      if free == [] && live >= size { return null; }
      if free != [] {
        var conn := free[|free| - 1];
        free := free[..|free| - 1];
        c := new ScopedConnection(this, conn);
        return;
      }
      live := live + 1;
      var opening := db.OpenOne();
      if opening.None? {
        live := live - 1;
        return null;
      }
      c := new ScopedConnection(this, opening.value);
    }

    method Release(conn: Conn, valid: bool)
      modifies this
      ensures Fields() == old(Fields()).Release(conn, valid)
    {
      if valid {
        free := free + [conn];
      } else {
        live := live - 1;
      }
    }
  }

  /** `/readyz`: five attempts, each of which discards the connection it found dead. */
  method Ready(pool: PgPool, db: Database) returns (ok: bool)
    modifies pool, db
    ensures Outcome(pool.Fields(), db.attempts, ok) == db.Probe(old(pool.Fields()), old(db.attempts), 5)
  {
    ok := false;
    var attempt := 0;
    while attempt < 5 && !ok
      invariant attempt <= 5
      invariant db.Probe(old(pool.Fields()), old(db.attempts), 5)
             == if ok then Outcome(pool.Fields(), db.attempts, true)
                 else db.Probe(pool.Fields(), db.attempts, 5 - attempt)
    {
      attempt := attempt + 1;
      var c := pool.Acquire(db);
      if c == null { continue; }
      if !db.connects(c.conn.value) || !db.answers(c.conn.value) {
        c.Invalidate();
        c.Destroy();
        continue;
      }
      c.Destroy();
      ok := true;
    }
  }

  /** A checkout by the only user is steps of the state machine: it enters, and goes on to
      open a connection if none is free. */
  lemma CheckoutIsSteps(db: Database, s: State, t: nat) returns (s1: State, s2: State)
    requires InPhase(s, t, Idle) && s.core.Ready() && forall u :: u in s.threads ==> !s.threads[u].Blocked?
    ensures Step(s, Enter(t), s1)
    ensures s.core.free != [] ==> s2 == s1
    ensures s.core.free == [] ==> if db.opens(s.made) then Step(s1, OpenOk(t), s2) else Step(s1, OpenFail(t, t), s2)
    ensures var (core, _, conn) := db.Checkout(s.core, s.made);
            && s2.core == core
            && s2.handles == s.handles + if conn.Some? then [Handle(true, conn, true, s.issued)] else []
  {
    s1 := Taken(s, t);
    if s.core.free != [] {
      s2 := s1;
    } else if db.opens(s.made) {
      s2 := Granted(s1, t, s.made).(made := s.made + 1);
    } else {
      s2 := s1.(core := s1.core.GiveBack(), threads := s1.threads[t := Idle]);
    }
  }

  /** How many of the connections tried first, the last of the free list, are unusable. */
  function DeadFirst(db: Database, free: seq<Conn>): (k: nat)
    ensures k <= |free|
    ensures forall i :: |free| - k <= i < |free| ==> !db.Usable(free[i])
    ensures k < |free| ==> db.Usable(free[|free| - 1 - k])
  {
    if free == [] || db.Usable(free[|free| - 1]) then 0 else DeadFirst(db, free[..|free| - 1]) + 1
  }

  /** The database is reachable: from now on connections open and work. */
  ghost predicate Reachable(db: Database, attempts: nat) {
    forall i :: attempts <= i ==> db.opens(i) && db.Usable(i)
  }

  /** No checkout is out: every live connection is in the free list. */
  predicate AllIdle(core: Core) {
    core.live == |core.free| <= core.size
  }

  /** One attempt on a pool whose next connection works, is dead, or is to be opened. */
  lemma OneAttempt(db: Database, core: Core, attempts: nat, left: nat)
    requires AllIdle(core) && 0 < left
    ensures var n := |core.free|;
            db.Probe(core, attempts, left) ==
              if n == 0 && core.size == 0 then db.Probe(core, attempts, left - 1)
              else if n == 0 && !db.opens(attempts) then db.Probe(core, attempts + 1, left - 1)
              else if n == 0 && db.Usable(attempts) then Outcome(Core(core.size, [attempts], 1), attempts + 1, true)
              else if n == 0 then db.Probe(core, attempts + 1, left - 1)
              else if db.Usable(core.free[n - 1]) then Outcome(core, attempts, true)
              else db.Probe(Core(core.size, core.free[..n - 1], n - 1), attempts, left - 1)
  {
  }

  /** What the loop leaves of the free list, with k dead connections ahead. */
  function Survivors(free: seq<Conn>, k: nat, left: nat, size: nat, attempts: nat): seq<Conn>
    requires k <= |free|
  {
    if left <= k then free[..|free| - left]
    else if k < |free| || size == 0 then free[..|free| - k]
    else [attempts]
  }

  /** The loop succeeds exactly when it has one attempt more than there are dead connections
      ahead; it discards those and no other. */
  ghost predicate Recovers(db: Database, core: Core, attempts: nat, left: nat) {
    var k := DeadFirst(db, core.free);
    var r := db.Probe(core, attempts, left);
    && AllIdle(r.core)
    && (r.ok <==> k < left && 0 < core.size)
    && r.core.free == Survivors(core.free, k, left, core.size, attempts)
  }

  /** It does so whenever the database is reachable and there are no other users. */
  lemma {:induction false} Recovery(db: Database, core: Core, attempts: nat, left: nat)
    requires Reachable(db, attempts) && AllIdle(core)
    ensures Recovers(db, core, attempts, left)
    decreases left
  {
    hide Recovers;
    var n := |core.free|;
    if left == 0 || (n > 0 && db.Usable(core.free[n - 1])) || (n == 0 && core.size > 0) {
      RecoversAtOnce(db, core, attempts, left);
    } else if n == 0 {
      Recovery(db, core, attempts, left - 1);
      RecoversEmpty(db, core, attempts, left);
    } else {
      Recovery(db, Core(core.size, core.free[..n - 1], n - 1), attempts, left - 1);
      RecoversDead(db, core, attempts, left);
    }
  }

  lemma RecoversAtOnce(db: Database, core: Core, attempts: nat, left: nat)
    requires Reachable(db, attempts) && AllIdle(core)
    requires left == 0 || (core.free != [] && db.Usable(core.free[|core.free| - 1]))
        || (core.free == [] && core.size > 0)
    ensures Recovers(db, core, attempts, left)
  {
  }

  lemma RecoversEmpty(db: Database, core: Core, attempts: nat, left: nat)
    requires core.free == [] && core.size == 0 == core.live && 0 < left && Recovers(db, core, attempts, left - 1)
    ensures Recovers(db, core, attempts, left)
  {
  }

  lemma RecoversDead(db: Database, core: Core, attempts: nat, left: nat)
    requires AllIdle(core) && core.free != [] && !db.Usable(core.free[|core.free| - 1]) && 0 < left
    requires Recovers(db, Core(core.size, core.free[..|core.free| - 1], |core.free| - 1), attempts, left - 1)
    ensures Recovers(db, core, attempts, left)
  {
    OneAttempt(db, core, attempts, left);
    hide Survivors, Database.Checkout, Database.Probe, DeadFirst, Database.Usable;
  }

  /** Five attempts bring back every idle pool of one to four connections, whatever died ... */
  lemma FiveSuffice(db: Database, core: Core, attempts: nat)
    requires Reachable(db, attempts) && AllIdle(core) && 0 < core.size <= 4
    ensures db.Probe(core, attempts, 5).ok
  {
    Recovery(db, core, attempts, 5);
  }

  /** ... and not a pool of five or more that all died. */
  lemma FiveFallShort(db: Database, core: Core, attempts: nat)
    requires Reachable(db, attempts) && AllIdle(core) && 5 <= |core.free|
    requires forall i :: 0 <= i < |core.free| ==> !db.Usable(core.free[i])
    ensures !db.Probe(core, attempts, 5).ok && |db.Probe(core, attempts, 5).core.free| == |core.free| - 5
  {
    Recovery(db, core, attempts, 5);
  }

  /** Whatever the database does, the loop loses no slot: nothing stays checked out, and
      success leaves a connection that was found usable on top of the free list. */
  lemma {:induction false} NothingLeaks(db: Database, core: Core, attempts: nat, left: nat)
    requires AllIdle(core)
    ensures var r := db.Probe(core, attempts, left);
            && AllIdle(r.core) && r.core.size == core.size
            && (r.ok ==> r.core.free != [] && db.Usable(r.core.free[|r.core.free| - 1]))
    decreases left
  {
    if left > 0 {
      var (taken, now, conn) := db.Checkout(core, attempts);
      if conn.None? {
        NothingLeaks(db, taken, now, left - 1);
      } else if !db.Usable(conn.value) {
        NothingLeaks(db, taken.Release(conn.value, false), now, left - 1);
      }
    }
  }
}
