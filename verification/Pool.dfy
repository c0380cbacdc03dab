/** The libpq connection pool (examples/01-cloud-native-principles/cpp/src/pg_pool.hpp)
    as a state machine over its atomic steps. Waiting follows the condition-variable
    semantics of [thread.condition.condvar] in ISO C++: a notification unblocks one
    waiter if there is one, wake-ups may be spurious, and an unblocked thread takes
    the mutex again before it looks at the predicate. */
module Pool {
  import opened Text

  type Conn = nat

  // ------------------------------------------------ the sections under the mutex

  /** The fields the mutex guards. */
  datatype Core = Core(size: nat, free: seq<Conn>, live: int) {

    /** The predicate of the wait. */
    predicate Ready() {
      free != [] || live < size
    }

    /** After the wait: pop a free connection, or claim a slot to open one. */
    function Take(): (r: (Core, Option<Conn>))
      requires Ready()
      ensures r.0.size == size && r.0.Available() == Available() - 1
    {
      if free != [] then (this.(free := free[..|free| - 1]), Some(free[|free| - 1]))
      else (this.(live := live + 1), None)
    }

    /** An opening failed: the slot is given back. */
    function GiveBack(): Core {
      this.(live := live - 1)
    }

    function Release(conn: Conn, valid: bool): Core {
      if valid then this.(free := free + [conn]) else this.(live := live - 1)
    }

    /** What acquirers can get without waiting for a release. */
    function Available(): int {
      |free| + size - live
    }
  }

  // -------------------------------------------------------------- threads, handles

  /** Where a thread is in `acquire`. A blocked thread waits on the condition
      variable; a notified or woken one has yet to take the mutex. */
  datatype Phase = Idle | Blocked | Notified | Woken(timedOut: bool) | Opening

  /** A ScopedConnection object; `ticket` numbers the successful acquires. A handle
      that was moved from or destroyed has no connection. */
  datatype Handle = Handle(attached: bool, conn: Option<Conn>, valid: bool, ticket: nat)

  /** `handles` are all the handles made so far, `made` counts the connections opened,
      `closed` lists those closed, `issued` counts the successful acquires and
      `returned` lists the tickets released. */
  datatype State = State(core: Core, threads: map<nat, Phase>, handles: seq<Handle>,
                         made: nat, closed: seq<Conn>, issued: nat, returned: seq<nat>)

  datatype Action =
    | Enter(t: nat)
    | Resume(t: nat, expired: bool)
    | Spurious(t: nat)
    | TimeOut(t: nat)
    | OpenOk(t: nat)
    | OpenFail(t: nat, wake: nat)
    | Invalidate(h: nat)
    | Move(h: nat)
    | Destroy(h: nat, wake: nat)

  ghost predicate InPhase(s: State, t: nat, p: Phase) {
    t in s.threads && s.threads[t] == p
  }

  /** `notify_one`: some blocked thread, if there is one, is unblocked. */
  ghost predicate Notifies(before: map<nat, Phase>, after: map<nat, Phase>, wake: nat) {
    if exists t :: t in before && before[t].Blocked? then
      wake in before && before[wake].Blocked? && after == before[wake := Notified]
    else after == before
  }

  /** `acquire` succeeds with a connection: a new handle, a new ticket. */
  function Granted(s: State, t: nat, conn: Conn): State {
    s.(threads := s.threads[t := Idle], handles := s.handles + [Handle(true, Some(conn), true, s.issued)],
       issued := s.issued + 1)
  }

  /** The rest of `acquire` once the predicate held: take a free connection, or go on
      to open one without the mutex. */
  function Taken(s: State, t: nat): State
    requires s.core.Ready()
  {
    var (core, conn) := s.core.Take();
    if conn.Some? then Granted(s.(core := core), t, conn.value)
        else s.(core := core, threads := s.threads[t := Opening])
  }

  /** A handle without a connection: moved from, or destroyed. */
  function Emptied(x: Handle): Handle {
    Handle(false, None, false, x.ticket)
  }

  ghost predicate Step(s: State, a: Action, s': State) {
    match a
    case Enter(t) =>
      InPhase(s, t, Idle) && s' == if s.core.Ready() then Taken(s, t) else s.(threads := s.threads[t := Blocked])
    case Resume(t, expired) =>
      && t in s.threads && (s.threads[t].Notified? || s.threads[t].Woken?)
      && (s.threads[t].Woken? ==> expired == s.threads[t].timedOut)
      && s' == if s.core.Ready() then Taken(s, t) else s.(threads := s.threads[t := if expired then Idle else Blocked])
    case Spurious(t) =>
      InPhase(s, t, Blocked) && s' == s.(threads := s.threads[t := Woken(false)])
    case TimeOut(t) =>
      InPhase(s, t, Blocked) && s' == s.(threads := s.threads[t := Woken(true)])
    case OpenOk(t) =>
      InPhase(s, t, Opening) && s' == Granted(s, t, s.made).(made := s.made + 1)
    case OpenFail(t, wake) =>
      && InPhase(s, t, Opening)
      && s' == s.(core := s.core.GiveBack(), threads := s'.threads)
      && Notifies(s.threads[t := Idle], s'.threads, wake)
    case Invalidate(h) =>
      h < |s.handles| && s' == s.(handles := s.handles[h := s.handles[h].(valid := false)])
    case Move(h) =>
      h < |s.handles| && s' == s.(handles := s.handles[h := Emptied(s.handles[h])] + [s.handles[h]])
    case Destroy(h, wake) =>
      && h < |s.handles|
      && var x := s.handles[h];
         if x.attached && x.conn.Some? then
           && s' == s.(core := s.core.Release(x.conn.value, x.valid), threads := s'.threads,
                       handles := s.handles[h := Emptied(x)],
                       closed := if x.valid then s.closed
                           else s.closed + [x.conn.value], returned := s.returned + [x.ticket])
           && Notifies(s.threads, s'.threads, wake)
         else s' == s.(handles := s.handles[h := Emptied(x)])
  }

  /** The constructor opened `size` connections; no thread is in the pool yet. */
  ghost predicate Init(s: State) {
    && s.core.live == s.core.size == |s.core.free| == s.made
    && (forall i :: 0 <= i < |s.core.free| ==> s.core.free[i] == i)
    && (forall t :: t in s.threads ==> s.threads[t].Idle?)
    && s.handles == [] && s.closed == [] && s.issued == 0 && s.returned == []
  }

  // ------------------------------------------------------------------- invariants

  ghost function Threads(threads: map<nat, Phase>, p: Phase): set<nat> {
    set t | t in threads && threads[t] == p
  }

  ghost function Total(q: seq<Handle>, weight: Handle -> nat): nat {
    if q == [] then 0 else Total(q[..|q| - 1], weight) + weight(q[|q| - 1])
  }

  /** Weights that count the handles with a connection, with connection c, with ticket k. */
  ghost function Holds(): Handle -> nat {
    (x: Handle) => if x.conn.Some? then 1 else 0
  }

  ghost function HoldsConn(c: Conn): Handle -> nat {
    (x: Handle) => if x.conn == Some(c) then 1 else 0
  }

  ghost function Carries(k: nat): Handle -> nat {
    (x: Handle) => if x.conn.Some? && x.ticket == k then 1 else 0
  }

  /** If a waiter is unsignalled, no more can be had than waiters were notified of. */
  ghost predicate NoLostWakeup(s: State) {
    Threads(s.threads, Blocked) != {} ==> s.core.Available() <= |Threads(s.threads, Notified)|
  }

  /** `live_` counts the free, the checked-out and the being-opened connections. */
  ghost predicate Counted(s: State) {
    s.core.live == |s.core.free| + Total(s.handles, Holds()) + |Threads(s.threads, Opening)| <= s.core.size
  }

  /** A handle with a connection is attached to the pool. */
  ghost predicate Attached(s: State) {
    forall h :: 0 <= h < |s.handles| && s.handles[h].conn.Some? ==> s.handles[h].attached
  }

  ghost function Places(s: State, c: Conn): nat {
    multiset(s.core.free)[c] + Total(s.handles, HoldsConn(c)) + multiset(s.closed)[c]
  }

  /** Every connection opened is in exactly one place: free, in one handle, or closed. */
  ghost predicate OnePlace(s: State) {
    forall c: nat :: Places(s, c) == if c < s.made then 1 else 0
  }

  ghost function Ends(s: State, k: nat): nat {
    Total(s.handles, Carries(k)) + multiset(s.returned)[k]
  }

  /** Every successful acquire is carried by exactly one handle or was released exactly once. */
  ghost predicate Tickets(s: State) {
    forall k: nat :: Ends(s, k) == if k < s.issued then 1 else 0
  }

  ghost predicate Owned(s: State) {
    Counted(s) && Attached(s) && OnePlace(s) && Tickets(s)
  }

  lemma {:induction false} TotalUpdate(q: seq<Handle>, h: nat, x: Handle, weight: Handle -> nat)
    requires h < |q|
    ensures Total(q[h := x], weight) + weight(q[h]) == Total(q, weight) + weight(x)
  {
    var n := |q| - 1;
    if h < n {
      TotalUpdate(q[..n], h, x, weight);
      assert q[h := x][..n] == q[..n][h := x];
    } else {
      assert q[h := x][..n] == q[..n];
    }
  }

  lemma CountPhase(m: map<nat, Phase>, t: nat, p: Phase, q: Phase)
    requires t in m
    ensures |Threads(m[t := p], q)| == |Threads(m, q)| - (if m[t] == q then 1 else 0) + (if p == q then 1 else 0)
    ensures t in Threads(m, m[t])
  {
    var rest := Threads(m, q) - {t};
    assert Threads(m[t := p], q) == if p == q then rest + {t} else rest;
  }

  /** Notifying one waiter: one more is notified, and no thread begins or stops opening. */
  lemma CountNotify(before: map<nat, Phase>, after: map<nat, Phase>, wake: nat)
    requires Notifies(before, after, wake)
    ensures Threads(before, Blocked) == {} ==> after == before
    ensures Threads(before, Blocked) != {} ==> |Threads(after, Notified)| == |Threads(before, Notified)| + 1
    ensures |Threads(after, Opening)| == |Threads(before, Opening)|
  {
    if Threads(before, Blocked) != {} {
      var t :| t in Threads(before, Blocked);
      assert before[t].Blocked?;
      CountPhase(before, wake, Notified, Notified);
      CountPhase(before, wake, Notified, Opening);
    } else {
      forall t | t in before ensures !before[t].Blocked? {
        assert t !in Threads(before, Blocked);
      }
    }
  }

  /** What a step does to the handles: one more with a connection and a fresh ticket, ... */
  lemma GrantTotals(s: State, conn: Conn)
    ensures var q := s.handles + [Handle(true, Some(conn), true, s.issued)];
            && Total(q, Holds()) == Total(s.handles, Holds()) + 1
            && (forall c: nat :: Total(q, HoldsConn(c)) == Total(s.handles, HoldsConn(c)) + if c == conn then 1 else 0)
            && (forall k: nat :: Total(q, Carries(k)) == Total(s.handles, Carries(k)) + if k == s.issued then 1 else 0)
  {
  }

  /** ... one fewer, ... */
  lemma EmptyTotals(q: seq<Handle>, h: nat)
    requires h < |q|
    ensures var q' := q[h := Emptied(q[h])];
            && Total(q', Holds()) + Holds()(q[h]) == Total(q, Holds())
            && (forall c: nat :: Total(q', HoldsConn(c)) + HoldsConn(c)(q[h]) == Total(q, HoldsConn(c)))
            && (forall k: nat :: Total(q', Carries(k)) + Carries(k)(q[h]) == Total(q, Carries(k)))
  {
    TotalUpdate(q, h, Emptied(q[h]), Holds());
    forall c: nat { TotalUpdate(q, h, Emptied(q[h]), HoldsConn(c)); }
    forall k: nat { TotalUpdate(q, h, Emptied(q[h]), Carries(k)); }
  }

  /** ... or the same ones, in a new handle or marked invalid. */
  lemma SameTotals(s: State, a: Action, s': State)
    requires (a.Invalidate? || a.Move?) && Step(s, a, s')
    ensures Total(s'.handles, Holds()) == Total(s.handles, Holds())
    ensures forall c: nat :: Total(s'.handles, HoldsConn(c)) == Total(s.handles, HoldsConn(c))
    ensures forall k: nat :: Total(s'.handles, Carries(k)) == Total(s.handles, Carries(k))
  {
    SameTotal(s, a, s', Holds());
    forall c: nat { SameTotal(s, a, s', HoldsConn(c)); }
    forall k: nat { SameTotal(s, a, s', Carries(k)); }
  }

  lemma SameTotal(s: State, a: Action, s': State, weight: Handle -> nat)
    requires (a.Invalidate? || a.Move?) && Step(s, a, s')
    requires weight(Emptied(s.handles[a.h])) == 0 && weight(s.handles[a.h].(valid := false)) == weight(s.handles[a.h])
    ensures Total(s'.handles, weight) == Total(s.handles, weight)
  {
    var x := s.handles[a.h];
    if a.Invalidate? {
      TotalUpdate(s.handles, a.h, x.(valid := false), weight);
    } else {
      TotalUpdate(s.handles, a.h, Emptied(x), weight);
    }
  }

  /** `acquire` ends with a connection that left the free list or was just opened. */
  lemma GrantedOwned(s: State, t: nat, conn: Conn, s': State)
    requires t in s.threads && s' == Granted(s, t, conn).(made := s'.made)
    requires Attached(s) && Tickets(s)
    requires forall c: nat :: Places(s, c) + (if c == conn then 1 else 0) == if c < s'.made then 1 else 0
    requires s.core.live <= s.core.size
    requires s.core.live == |s.core.free| + Total(s.handles, Holds()) + |Threads(s.threads, Opening)|
                            + if s.threads[t].Opening? then 0 else 1
    ensures Owned(s')
  {
    GrantTotals(s, conn);
    CountPhase(s.threads, t, Idle, Opening);
    forall c: nat ensures Places(s', c) == if c < s'.made then 1 else 0 {
      assert Places(s', c) == Places(s, c) + if c == conn then 1 else 0;
    }
    forall k: nat ensures Ends(s', k) == if k < s'.issued then 1 else 0 {
      assert Ends(s', k) == Ends(s, k) + if k == s.issued then 1 else 0;
    }
  }

  lemma TakenOwned(s: State, t: nat, p: Phase, s': State)
    requires Owned(s) && t in s.threads && !s.threads[t].Opening? && p != Opening
    requires s' == if s.core.Ready() then Taken(s, t) else s.(threads := s.threads[t := p])
    ensures Owned(s')
  {
    if s.core.free != [] {
      var n := |s.core.free| - 1;
      assert s.core.Ready();
      var popped := s.(core := s.core.Take().0);
      forall c: nat ensures Places(popped, c) + (if c == s.core.free[n] then 1 else 0) == if c < s.made then 1 else 0 {
        assert s.core.free == s.core.free[..n] + [s.core.free[n]];
        assert Places(s, c) == if c < s.made then 1 else 0;
      }
      assert forall k: nat :: Ends(popped, k) == Ends(s, k);
      GrantedOwned(popped, t, s.core.free[n], s');
    } else {
      CountPhase(s.threads, t, if s.core.Ready() then Opening else p, Opening);
      SameOwned(s, s');
    }
  }

  /** A step that moves no connection: only the counts are in question. */
  lemma SameOwned(s: State, s': State)
    requires Owned(s) && Counted(s') && Attached(s')
    requires s'.core.free == s.core.free && s'.closed == s.closed && s'.returned == s.returned
    requires s'.made == s.made && s'.issued == s.issued
    requires forall c: nat :: Total(s'.handles, HoldsConn(c)) == Total(s.handles, HoldsConn(c))
    requires forall k: nat :: Total(s'.handles, Carries(k)) == Total(s.handles, Carries(k))
    ensures Owned(s')
  {
    forall c: nat ensures Places(s', c) == if c < s'.made then 1 else 0 {
      assert Places(s', c) == Places(s, c);
    }
    forall k: nat ensures Ends(s', k) == if k < s'.issued then 1 else 0 {
      assert Ends(s', k) == Ends(s, k);
    }
  }

  lemma OpenOwned(s: State, a: Action, s': State)
    requires Owned(s) && (a.OpenOk? || a.OpenFail?) && Step(s, a, s')
    ensures Owned(s')
  {
    if a.OpenOk? {
      forall c: nat ensures Places(s, c) + (if c == s.made then 1 else 0) == if c < s'.made then 1 else 0 {
      }
      GrantedOwned(s, a.t, s.made, s');
    } else {
      CountPhase(s.threads, a.t, Idle, Opening);
      CountNotify(s.threads[a.t := Idle], s'.threads, a.wake);
      SameOwned(s, s');
    }
  }

  /** Destroying a handle that has a connection releases it: the connection goes back to
      the free list or is closed, and its ticket is returned. */
  lemma DestroyOwned(s: State, h: nat, wake: nat, s': State)
    requires Owned(s) && Step(s, Destroy(h, wake), s')
    ensures Owned(s') && |s'.core.free| <= s.core.size
  {
    var x := s.handles[h];
    EmptyTotals(s.handles, h);
    if x.attached && x.conn.Some? {
      CountNotify(s.threads, s'.threads, wake);
      DestroyPlaces(s, h, wake, s');
    } else {
      assert x.conn.None?;
      assert s'.handles == s.handles[h := Emptied(x)] && Counted(s') && Attached(s');
      forall c: nat ensures Total(s'.handles, HoldsConn(c)) == Total(s.handles, HoldsConn(c)) {
        assert HoldsConn(c)(x) == 0;
      }
      forall k: nat ensures Total(s'.handles, Carries(k)) == Total(s.handles, Carries(k)) {
        assert Carries(k)(x) == 0;
      }
      SameOwned(s, s');
    }
  }

  lemma DestroyPlaces(s: State, h: nat, wake: nat, s': State)
    requires OnePlace(s) && Tickets(s) && h < |s.handles| && Step(s, Destroy(h, wake), s')
    requires s.handles[h].attached && s.handles[h].conn.Some?
    ensures OnePlace(s') && Tickets(s')
  {
    hide Total, Holds, Notifies;
    EmptyTotals(s.handles, h);
    forall c: nat ensures Places(s', c) == if c < s'.made then 1 else 0 {
      assert Places(s', c) == Places(s, c);
    }
    forall k: nat ensures Ends(s', k) == if k < s'.issued then 1 else 0 {
      assert Ends(s', k) == Ends(s, k);
    }
  }

  /** Every step keeps the counts, the one place of each connection and of each ticket. */
  lemma OwnedStep(s: State, a: Action, s': State)
    requires Owned(s) && Step(s, a, s')
    ensures Owned(s')
  {
    match a {
      case Enter(t) => TakenOwned(s, t, Blocked, s');
      case Resume(t, expired) => TakenOwned(s, t, if expired then Idle else Blocked, s');
      case Spurious(t) =>
        CountPhase(s.threads, t, Woken(false), Opening);
        SameOwned(s, s');
      case TimeOut(t) =>
        CountPhase(s.threads, t, Woken(true), Opening);
        SameOwned(s, s');
      case OpenOk(_) => OpenOwned(s, a, s');
      case OpenFail(_, _) => OpenOwned(s, a, s');
      case Invalidate(_) =>
        SameTotals(s, a, s');
        SameOwned(s, s');
      case Move(_) =>
        SameTotals(s, a, s');
        SameOwned(s, s');
      case Destroy(h, wake) => DestroyOwned(s, h, wake, s');
    }
  }

  /** Every step keeps the bound on unsignalled waiters. */
  lemma WakeupStep(s: State, a: Action, s': State)
    requires NoLostWakeup(s) && Step(s, a, s')
    ensures NoLostWakeup(s')
  {
    match a {
      case Enter(t) => TakenWakes(s, t, Blocked, s');
      case Resume(t, expired) => TakenWakes(s, t, if expired then Idle else Blocked, s');
      case Spurious(t) => LeaveWakes(s, t, Woken(false), s');
      case TimeOut(t) => LeaveWakes(s, t, Woken(true), s');
      case OpenOk(t) => LeaveWakes(s, t, Idle, s');
      case OpenFail(t, wake) =>
        LeaveWakes(s, t, Idle, s.(threads := s.threads[t := Idle]));
        CountNotify(s.threads[t := Idle], s'.threads, wake);
      case Invalidate(h) =>
      case Move(h) =>
      case Destroy(h, wake) =>
        if s.handles[h].attached && s.handles[h].conn.Some? { CountNotify(s.threads, s'.threads, wake); }
    }
  }

  /** A thread that was not notified and does not block now. */
  lemma LeaveWakes(s: State, t: nat, p: Phase, s': State)
    requires NoLostWakeup(s) && t in s.threads && !s.threads[t].Notified? && p != Blocked && p != Notified
    requires s'.threads == s.threads[t := p] && s'.core == s.core
    ensures NoLostWakeup(s')
  {
    CountPhase(s.threads, t, p, Blocked);
    CountPhase(s.threads, t, p, Notified);
  }

  lemma TakenWakes(s: State, t: nat, p: Phase, s': State)
    requires NoLostWakeup(s) && t in s.threads && !s.threads[t].Blocked? && (p == Blocked || p == Idle)
    requires s' == if s.core.Ready() then Taken(s, t) else s.(threads := s.threads[t := p])
    ensures NoLostWakeup(s')
  {
    var q := if !s.core.Ready() then p else if s.core.free != [] then Idle else Opening;
    CountPhase(s.threads, t, q, Blocked);
    CountPhase(s.threads, t, q, Notified);
  }

  // ------------------------------------------------------------------ whole runs

  ghost predicate Run(states: seq<State>, actions: seq<Action>) {
    && |states| == |actions| + 1 && Init(states[0])
    && forall i :: 0 <= i < |actions| ==> Step(states[i], actions[i], states[i + 1])
  }

  lemma {:induction false} FirstConns(q: seq<Conn>, c: Conn)
    requires forall i :: 0 <= i < |q| ==> q[i] == i
    ensures multiset(q)[c] == if c < |q| then 1 else 0
  {
    if q != [] {
      FirstConns(q[..|q| - 1], c);
      assert q == q[..|q| - 1] + [q[|q| - 1]];
    }
  }

  lemma InitInv(s: State)
    requires Init(s)
    ensures Owned(s) && NoLostWakeup(s)
  {
    forall c: nat { FirstConns(s.core.free, c); }
    assert forall t :: t in s.threads ==> s.threads[t] == Idle;
    assert Threads(s.threads, Opening) == {} && Threads(s.threads, Blocked) == {};
  }

  /** In every reachable state of every run: no lost wake-up, the counts, one place per
      connection, one carrier or one release per successful acquire. */
  lemma {:induction false} RunKeepsInv(states: seq<State>, actions: seq<Action>, i: nat)
    requires Run(states, actions) && i < |states|
    ensures Owned(states[i]) && NoLostWakeup(states[i])
  {
    hide Owned, NoLostWakeup, Step;
    if i == 0 {
      InitInv(states[0]);
    } else {
      RunKeepsInv(states, actions, i - 1);
      assert Step(states[i - 1], actions[i - 1], states[i - 1 + 1]);
      OwnedStep(states[i - 1], actions[i - 1], states[i]);
      WakeupStep(states[i - 1], actions[i - 1], states[i]);
    }
  }

  /** A waiter sleeps unsignalled only while every connection that can be had has a
      notified waiter coming for it; with no such waiter, nothing can be had. */
  lemma SleepersAreCovered(states: seq<State>, actions: seq<Action>, i: nat)
    requires Run(states, actions) && i < |states| && Threads(states[i].threads, Blocked) != {}
    ensures states[i].core.Available() <= |Threads(states[i].threads, Notified)|
    ensures Threads(states[i].threads, Notified) == {} ==> !states[i].core.Ready()
  {
    RunKeepsInv(states, actions, i);
  }

  /** `push_back` in the noexcept release stays within the capacity the constructor reserved. */
  lemma ReleaseFits(states: seq<State>, actions: seq<Action>, i: nat, h: nat, wake: nat)
    requires Run(states, actions) && i < |actions| && actions[i] == Destroy(h, wake)
    ensures |states[i + 1].core.free| <= states[0].core.size
  {
    RunKeepsInv(states, actions, i);
    SizeFixed(states, actions, i);
    DestroyOwned(states[i], h, wake, states[i + 1]);
  }

  lemma {:induction false} SizeFixed(states: seq<State>, actions: seq<Action>, i: nat)
    requires Run(states, actions) && i < |states|
    ensures states[i].core.size == states[0].core.size
  {
    if 0 < i {
      SizeFixed(states, actions, i - 1);
      assert Step(states[i - 1], actions[i - 1], states[i - 1 + 1]);
    }
  }

  /** Once no handle has a connection, every successful acquire was released exactly once,
      and every connection opened is free or closed. */
  lemma AllReleased(states: seq<State>, actions: seq<Action>, i: nat, k: nat)
    requires Run(states, actions) && i < |states|
    requires forall h :: 0 <= h < |states[i].handles| ==> states[i].handles[h].conn.None?
    ensures multiset(states[i].returned)[k] == if k < states[i].issued then 1 else 0
    ensures multiset(states[i].core.free)[k] + multiset(states[i].closed)[k] == if k < states[i].made then 1 else 0
  {
    RunKeepsInv(states, actions, i);
    NothingHeld(states[i].handles, Carries(k));
    NothingHeld(states[i].handles, HoldsConn(k));
    assert Ends(states[i], k) == if k < states[i].issued then 1 else 0;
    assert Places(states[i], k) == if k < states[i].made then 1 else 0;
  }

  lemma {:induction false} NothingHeld(q: seq<Handle>, weight: Handle -> nat)
    requires forall h :: 0 <= h < |q| ==> weight(q[h]) == 0
    ensures Total(q, weight) == 0
  {
    if q != [] { NothingHeld(q[..|q| - 1], weight); }
  }

  // --------------------------------------------------- what becomes of invalidated connections

  /** Action j of the run invalidates a handle that holds connection c. */
  ghost predicate Poisons(states: seq<State>, actions: seq<Action>, j: int, c: Conn) {
    && 0 <= j < |actions| && j < |states| && actions[j].Invalidate?
    && actions[j].h < |states[j].handles| && states[j].handles[actions[j].h].conn == Some(c)
  }

  ghost predicate Poisoned(states: seq<State>, actions: seq<Action>, i: int, c: Conn) {
    exists j :: j < i && Poisons(states, actions, j, c)
  }

  /** The connections invalidated before state i. */
  ghost function Bad(states: seq<State>, actions: seq<Action>, i: nat): set<Conn>
    requires i < |states| == |actions| + 1
  {
    if i == 0 then {} else Bad(states, actions, i - 1) + Spoilt(states[i - 1], actions[i - 1])
  }

  ghost function Spoilt(s: State, a: Action): set<Conn> {
    if a.Invalidate? && a.h < |s.handles| && s.handles[a.h].conn.Some? then {s.handles[a.h].conn.value} else {}
  }

  lemma {:induction false} BadMeans(states: seq<State>, actions: seq<Action>, i: nat, c: Conn)
    requires i < |states| == |actions| + 1
    ensures c in Bad(states, actions, i) <==> Poisoned(states, actions, i, c)
  {
    if 0 < i {
      BadMeans(states, actions, i - 1, c);
      assert c in Spoilt(states[i - 1], actions[i - 1]) <==> Poisons(states, actions, i - 1, c);
    }
  }

  /** A handle is valid unless its connection was invalidated; no free connection was, and every
      closed one. */
  ghost predicate Marked(s: State, bad: set<Conn>) {
    && (forall h :: 0 <= h < |s.handles| && s.handles[h].conn.Some? ==>
          (s.handles[h].valid <==> s.handles[h].conn.value !in bad))
    && (forall k :: 0 <= k < |s.core.free| ==> s.core.free[k] !in bad)
    && (forall k :: 0 <= k < |s.closed| ==> s.closed[k] in bad)
    && (forall c :: c in bad ==> c < s.made)
  }

  lemma {:induction false} TotalAtLeast(q: seq<Handle>, h: nat, weight: Handle -> nat)
    requires h < |q|
    ensures Total(q, weight) >= weight(q[h])
  {
    if h < |q| - 1 { TotalAtLeast(q[..|q| - 1], h, weight); }
  }

  lemma {:induction false} TotalOfTwo(q: seq<Handle>, h: nat, h': nat, weight: Handle -> nat)
    requires h < h' < |q|
    ensures Total(q, weight) >= weight(q[h]) + weight(q[h'])
  {
    if h' < |q| - 1 {
      TotalOfTwo(q[..|q| - 1], h, h', weight);
    } else {
      TotalAtLeast(q[..h'], h, weight);
    }
  }

  /** What a handle holds is nowhere else. */
  lemma HeldOnce(s: State, h: nat, c: Conn)
    requires OnePlace(s) && h < |s.handles| && s.handles[h].conn == Some(c)
    ensures c !in s.core.free && c !in s.closed && c < s.made
    ensures forall h' :: 0 <= h' < |s.handles| && h' != h ==> s.handles[h'].conn != Some(c)
  {
    hide Total;
    TotalAtLeast(s.handles, h, HoldsConn(c));
    assert Places(s, c) == if c < s.made then 1 else 0;
    forall h' | 0 <= h' < |s.handles| && h' != h ensures s.handles[h'].conn != Some(c) {
      if h < h' { TotalOfTwo(s.handles, h, h', HoldsConn(c)); } else { TotalOfTwo(s.handles, h', h, HoldsConn(c)); }
    }
  }

  lemma MarkedStep(s: State, a: Action, s': State, bad: set<Conn>)
    requires Owned(s) && Marked(s, bad) && Step(s, a, s')
    ensures Marked(s', bad + Spoilt(s, a))
  {
    hide Counted, OnePlace, Tickets, Notifies;
    match a {
      case Invalidate(h) =>
        if s.handles[h].conn.Some? { HeldOnce(s, h, s.handles[h].conn.value); }
      case _ =>
    }
  }

  lemma {:induction false} RunMarked(states: seq<State>, actions: seq<Action>, i: nat)
    requires Run(states, actions) && i < |states|
    ensures Marked(states[i], Bad(states, actions, i))
  {
    hide Owned, Step, Marked, NoLostWakeup, Init;
    if 0 < i {
      RunMarked(states, actions, i - 1);
      RunKeepsInv(states, actions, i - 1);
      assert Step(states[i - 1], actions[i - 1], states[i - 1 + 1]);
      MarkedStep(states[i - 1], actions[i - 1], states[i], Bad(states, actions, i - 1));
    } else {
      InitMarked(states[0]);
    }
  }

  lemma InitMarked(s: State)
    requires Init(s)
    ensures Marked(s, {})
  {
  }

  /** In every run, invalid handles are those whose connection was invalidated; invalidated
      connections are not free, and every closed connection was invalidated. */
  lemma RunMarks(states: seq<State>, actions: seq<Action>, i: nat)
    requires Run(states, actions) && i < |states|
    ensures var s := states[i];
      && (forall h :: 0 <= h < |s.handles| && s.handles[h].conn.Some? ==>
            (s.handles[h].valid <==> !Poisoned(states, actions, i, s.handles[h].conn.value)))
      && (forall k :: 0 <= k < |s.core.free| ==> !Poisoned(states, actions, i, s.core.free[k]))
      && (forall k :: 0 <= k < |s.closed| ==> Poisoned(states, actions, i, s.closed[k]))
  {
    hide Run, Bad, Poisoned;
    RunMarked(states, actions, i) by { RunShape(states, actions); }
    RunShape(states, actions);
    forall c ensures c in Bad(states, actions, i) <==> Poisoned(states, actions, i, c) {
      BadMeans(states, actions, i, c);
    }
  }

  lemma RunShape(states: seq<State>, actions: seq<Action>)
    requires Run(states, actions)
    ensures |states| == |actions| + 1
  {
  }

  /** Destroying a handle that holds a connection: if no handle of it was ever invalidated, it goes
      back to the free list; otherwise it is closed and one live connection fewer. */
  lemma DestroyDecides(states: seq<State>, actions: seq<Action>, i: nat, h: nat, wake: nat, c: Conn)
    requires Run(states, actions) && i < |actions| && actions[i] == Destroy(h, wake)
    requires h < |states[i].handles| && states[i].handles[h].conn == Some(c)
    ensures var s, s' := states[i], states[i + 1];
      && s'.handles[h].conn.None? && s'.returned == s.returned + [s.handles[h].ticket]
      && if Poisoned(states, actions, i, c) then
           && c !in s'.core.free && s'.core.free == s.core.free && s'.closed == s.closed + [c]
           && s'.core.live == s.core.live - 1
         else
           && c !in s'.closed && s'.closed == s.closed && s'.core.free == s.core.free + [c]
           && s'.core.live == s.core.live
  {
    RunKeepsInv(states, actions, i);
    RunMarks(states, actions, i);
    HeldOnce(states[i], h, c);
    hide OnePlace, Counted, Tickets, NoLostWakeup, Poisoned, Marked, Bad;
    assert Step(states[i], actions[i], states[i + 1]);
  }

  /** Whoever holds c has it since the acquire with this ticket. */
  ghost predicate CarriedBy(s: State, c: Conn, ticket: nat) {
    forall h :: 0 <= h < |s.handles| && s.handles[h].conn == Some(c) ==> s.handles[h].ticket == ticket
  }

  lemma CarriedStep(s: State, a: Action, s': State, bad: set<Conn>, c: Conn, ticket: nat)
    requires Marked(s, bad) && c in bad && CarriedBy(s, c, ticket) && Step(s, a, s')
    ensures CarriedBy(s', c, ticket)
  {
    hide Notifies;
  }

  /** The invalidation itself changes no holder. */
  lemma CarriedFrom(s: State, a: Action, s': State, c: Conn)
    requires OnePlace(s) && Step(s, a, s') && a.Invalidate? && s.handles[a.h].conn == Some(c)
    ensures CarriedBy(s', c, s.handles[a.h].ticket)
  {
    hide OnePlace;
    HeldOnce(s, a.h, c);
  }

  lemma {:induction false} Carried(states: seq<State>, actions: seq<Action>, j: nat, i: nat, c: Conn)
    requires Run(states, actions) && Poisons(states, actions, j, c) && j < i < |states|
    ensures CarriedBy(states[i], c, states[j].handles[actions[j].h].ticket)
    decreases i
  {
    hide Owned, NoLostWakeup, Bad, Step, Marked, CarriedBy;
    assert Step(states[i - 1], actions[i - 1], states[i - 1 + 1]);
    if j + 1 < i {
      Carried(states, actions, j, i - 1, c);
      RunMarked(states, actions, i - 1);
      BadMeans(states, actions, i - 1, c);
      CarriedStep(states[i - 1], actions[i - 1], states[i], Bad(states, actions, i - 1), c,
                  states[j].handles[actions[j].h].ticket);
    } else {
      RunKeepsInv(states, actions, j);
      assert OnePlace(states[j]) by { OwnedPlace(states[j]); }
      CarriedFrom(states[j], actions[j], states[i], c);
    }
  }

  lemma OwnedPlace(s: State)
    requires Owned(s)
    ensures OnePlace(s)
  {
  }

  /** After a handle that holds c was invalidated: c is never free again, and no acquire but the
      one it was checked out by ever holds it, through whatever moves. */
  lemma PoisonedStaysOut(states: seq<State>, actions: seq<Action>, j: nat, i: nat, c: Conn)
    requires Run(states, actions) && Poisons(states, actions, j, c) && j < i < |states|
    ensures c !in states[i].core.free
    ensures forall h :: 0 <= h < |states[i].handles| && states[i].handles[h].conn == Some(c) ==>
              !states[i].handles[h].valid && states[i].handles[h].ticket == states[j].handles[actions[j].h].ticket
  {
    Carried(states, actions, j, i, c);
    RunMarks(states, actions, i);
    assert Poisoned(states, actions, i, c);
    hide Run, Poisoned, Poisons;
  }
}
