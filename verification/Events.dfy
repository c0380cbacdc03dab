/** Orders become events, events become rows: the order service and the two consumer
    groups of examples/05-event-driven/dotnet as one state machine. The broker keeps a
    log; each group keeps a table with a unique index on the order id and a committed
    offset; any number of workers of a group may hold the log at once, crash, restart
    from the committed offset and see records again. */
module Events {
  type Id = string

  /** Where a worker is in its loop. `at` is the next offset to consume, or the offset of
      the record in hand. */
  datatype Worker =
    | Down
    | Polling(at: nat)
    | Handling(at: nat)   // has the record, has not looked for the row
    | Inserting(at: nat)  // found no row
    | Handled(at: nat)    // HandleAsync returned; the commit is next

  /** `failed` are the offsets whose handling raised and was logged. */
  datatype Group = Group(rows: seq<Id>, committed: nat, failed: set<nat>, workers: seq<Worker>) {

    ghost predicate In(w: nat, phase: Worker) {
      w < |workers| && workers[w] == phase
    }

    function To(w: nat, phase: Worker): Group
      requires w < |workers|
    {
      this.(workers := workers[w := phase])
    }
  }

  /** `pending` are the orders stored whose request has not been answered yet. */
  datatype System = System(orders: set<Id>, pending: set<Id>, log: seq<Id>, groups: seq<Group>)

  datatype WorkerAction =
    | Start(w: nat)
    | Crash(w: nat, saved: bool)
    | Consume(w: nat)
    | Check(w: nat)
    | Insert(w: nat)
    | Raise(w: nat, saved: bool)
    | Commit(w: nat)
    | CommitFail(w: nat, stored: bool)

  datatype Action =
    | Place(id: Id)
    | Publish(id: Id)
    | Respond(id: Id)
    | Work(g: nat, act: WorkerAction)

  /** An insert under the unique index: a violation leaves the table as it is. */
  function Stored(rows: seq<Id>, id: Id): seq<Id> {
    if id in rows then rows else rows + [id]
  }

  /** What one pass over the log without crashes leaves in the table. */
  function CleanPass(log: seq<Id>): seq<Id> {
    if log == [] then [] else Stored(CleanPass(log[..|log| - 1]), log[|log| - 1])
  }

  /** One step of a worker. A save or a commit may take effect although the worker never
      hears of it: it crashed, or the call raised. */
  ghost predicate GroupStep(g: Group, log: seq<Id>, a: WorkerAction, g': Group) {
    a.w < |g.workers| &&
    var phase := g.workers[a.w];
    match a
    case Start(w) => (phase.Down? || phase.Polling?) && g' == g.To(w, Polling(g.committed))
    case Crash(w, saved) =>
      && (saved ==> phase.Inserting? && phase.at < |log|)
      && g' == g.To(w, Down).(rows := if saved then Stored(g.rows, log[phase.at]) else g.rows)
    case Consume(w) => phase.Polling? && phase.at < |log| && g' == g.To(w, Handling(phase.at))
    case Check(w) =>
      && phase.Handling? && phase.at < |log|
      && g' == g.To(w, if log[phase.at] in g.rows then Handled(phase.at) else Inserting(phase.at))
    case Insert(w) =>
      && phase.Inserting? && phase.at < |log|
      && g' == g.To(w, Handled(phase.at)).(rows := Stored(g.rows, log[phase.at]))
    case Raise(w, saved) =>
      && (phase.Inserting? || (phase.Handling? && !saved)) && phase.at < |log|
      && g' == g.To(w, Polling(phase.at + 1)).(rows := if saved then Stored(g.rows, log[phase.at]) else g.rows,
                                               failed := g.failed + {phase.at})
    case Commit(w) => phase.Handled? && g' == g.To(w, Polling(phase.at + 1)).(committed := phase.at + 1)
    case CommitFail(w, stored) =>
      phase.Handled? && g' == g.To(w, Polling(phase.at + 1)).(committed := if stored then phase.at + 1 else g.committed)
  }

  /** Order ids are fresh; publishing is best effort and may repeat; a request ends, or its
      process does, whether or not its event was published, and an event that was on its way
      may still be appended after that. */
  ghost predicate Step(s: System, a: Action, s': System) {
    match a
    case Place(id) => id !in s.orders && s' == s.(orders := s.orders + {id}, pending := s.pending + {id})
    case Publish(id) => id in s.orders && s' == s.(log := s.log + [id])
    case Respond(id) => id in s.pending && s' == s.(pending := s.pending - {id})
    case Work(g, act) =>
      && g < |s.groups| && |s'.groups| == |s.groups|
      && GroupStep(s.groups[g], s.log, act, s'.groups[g])
      && s' == s.(groups := s.groups[g := s'.groups[g]])
  }

  ghost predicate Init(s: System) {
    && s.orders == {} && s.pending == {} && s.log == []
    && forall g :: 0 <= g < |s.groups| ==> GroupInit(s.groups[g])
  }

  ghost predicate GroupInit(g: Group) {
    && g.rows == [] && g.committed == 0 && g.failed == {}
    && forall w :: 0 <= w < |g.workers| ==> g.workers[w].Down?
  }

  ghost predicate Run(states: seq<System>, actions: seq<Action>) {
    && |states| == |actions| + 1 && Init(states[0])
    && forall i :: 0 <= i < |actions| ==> Step(states[i], actions[i], states[i + 1])
  }

  // ------------------------------------------------------------------- invariants

  /** Every record below n has its row, or had its handling raise. */
  ghost predicate Covered(g: Group, log: seq<Id>, n: nat) {
    n <= |log| && forall i :: 0 <= i < n ==> i in g.failed || log[i] in g.rows
  }

  ghost predicate NoDup(rows: seq<Id>) {
    forall i, j :: 0 <= i < j < |rows| ==> rows[i] != rows[j]
  }

  /** What a worker relies on: all that it passed is covered. */
  ghost predicate WorkerInv(g: Group, log: seq<Id>, phase: Worker) {
    match phase
    case Down => true
    case Polling(at) => Covered(g, log, at)
    case Handling(at) => at < |log| && Covered(g, log, at)
    case Inserting(at) => at < |log| && Covered(g, log, at)
    case Handled(at) => at < |log| && Covered(g, log, at) && log[at] in g.rows
  }

  /** With nothing raised, the table is what a clean pass over some of the log leaves. */
  ghost predicate AsCleanPass(g: Group, log: seq<Id>) {
    g.failed == {} ==> exists n: nat :: PassedTo(g, log, n)
  }

  ghost predicate PassedTo(g: Group, log: seq<Id>, n: nat) {
    n <= |log| && g.rows == CleanPass(log[..n])
  }

  ghost predicate GroupInv(g: Group, log: seq<Id>) {
    && NoDup(g.rows)
    && (forall id :: id in g.rows ==> id in log)
    && Covered(g, log, g.committed)
    && (forall w :: 0 <= w < |g.workers| ==> WorkerInv(g, log, g.workers[w]))
    && AsCleanPass(g, log)
  }

  ghost predicate Inv(s: System) {
    && s.pending <= s.orders
    && (forall id :: id in s.log ==> id in s.orders)
    && forall g :: 0 <= g < |s.groups| ==> GroupInv(s.groups[g], s.log)
  }

  /** A clean pass keeps the order of first arrival: extending the log only extends it, ... */
  lemma {:induction false} PassContains(log: seq<Id>)
    ensures forall id :: id in CleanPass(log) <==> id in log
  {
    if log != [] {
      var n := |log| - 1;
      PassContains(log[..n]);
      assert log == log[..n] + [log[n]];
    }
  }

  /** ... and over records whose rows exist it adds nothing. */
  lemma {:induction false} PassIdle(log: seq<Id>, n: nat, m: nat)
    requires n <= m <= |log| && forall i :: n <= i < m ==> log[i] in CleanPass(log[..n])
    ensures CleanPass(log[..m]) == CleanPass(log[..n])
  {
    if n < m {
      PassIdle(log, n, m - 1);
      assert log[..m][..m - 1] == log[..m - 1];
    }
  }

  lemma CoveredGrows(g: Group, g': Group, log: seq<Id>, more: seq<Id>, n: nat)
    requires Covered(g, log, n) && g.failed <= g'.failed && forall id :: id in g.rows ==> id in g'.rows
    ensures Covered(g', log + more, n)
  {
  }

  lemma WorkersGrow(g: Group, g': Group, log: seq<Id>, more: seq<Id>, phase: Worker)
    requires WorkerInv(g, log, phase) && g.failed <= g'.failed && forall id :: id in g.rows ==> id in g'.rows
    ensures WorkerInv(g', log + more, phase)
  {
    if !phase.Down? { CoveredGrows(g, g', log, more, phase.at); }
  }

  /** Storing a record all of whose predecessors are covered keeps the table a clean pass. */
  lemma StoredPass(g: Group, log: seq<Id>, at: nat)
    requires g.failed == {} && AsCleanPass(g, log) && at < |log| && Covered(g, log, at)
    ensures exists n: nat :: PassedTo(g.(rows := Stored(g.rows, log[at])), log, n)
  {
    var n: nat :| PassedTo(g, log, n);
    if log[at] in g.rows {
      assert PassedTo(g.(rows := Stored(g.rows, log[at])), log, n);
    } else {
      FreshPass(g.rows, log, n, at);
      assert PassedTo(g.(rows := Stored(g.rows, log[at])), log, at + 1);
    }
  }

  /** A record without a row, all of whose predecessors have one, is the next to be stored. */
  lemma FreshPass(rows: seq<Id>, log: seq<Id>, n: nat, at: nat)
    requires n <= |log| && rows == CleanPass(log[..n]) && at < |log| && log[at] !in rows
    requires forall i :: 0 <= i < at ==> log[i] in rows
    ensures Stored(rows, log[at]) == CleanPass(log[..at + 1])
  {
    PassContains(log[..n]);
    forall i | 0 <= i < n ensures log[i] in rows {
      assert log[..n][i] in log[..n];
    }
    PassIdle(log, n, at);
    assert log[..at + 1][..at] == log[..at];
  }

  lemma StoredNoDup(rows: seq<Id>, id: Id)
    requires NoDup(rows)
    ensures NoDup(Stored(rows, id)) && id in Stored(rows, id)
    ensures forall x :: x in Stored(rows, id) <==> x in rows || x == id
  {
  }

  /** A step of a worker keeps the group's invariant. */
  lemma GroupKeeps(g: Group, log: seq<Id>, a: WorkerAction, g': Group)
    requires GroupInv(g, log) && GroupStep(g, log, a, g')
    ensures GroupInv(g', log)
  {
    hide Covered, AsCleanPass, NoDup;
    GroupRows(g, log, a, g');
    assert log + [] == log;
    forall w | 0 <= w < |g'.workers| ensures WorkerInv(g', log, g'.workers[w]) {
      assert WorkerInv(g, log, g.workers[w]);
      if w == a.w {
        OwnWorker(g, log, a, g');
      } else {
        WorkersGrow(g, g', log, [], g.workers[w]);
      }
    }
    CommitCovered(g, log, a, g');
  }

  /** The table after a step: nothing lost, nothing twice, nothing that is not in the log. */
  lemma GroupRows(g: Group, log: seq<Id>, a: WorkerAction, g': Group)
    requires GroupInv(g, log) && GroupStep(g, log, a, g')
    ensures NoDup(g'.rows) && g.failed <= g'.failed
    ensures forall id :: id in g.rows ==> id in g'.rows
    ensures forall id :: id in g'.rows ==> id in log
    ensures AsCleanPass(g', log)
  {
    var phase := g.workers[a.w];
    assert WorkerInv(g, log, phase);
    if g'.rows != g.rows {
      StoredNoDup(g.rows, log[phase.at]);
      if g.failed == {} { StoredPass(g, log, phase.at); }
      if g'.failed == {} {
        var n: nat :| PassedTo(g.(rows := Stored(g.rows, log[phase.at])), log, n);
        assert PassedTo(g', log, n);
      }
    } else if g'.failed == {} {
      assert g.failed == {};
      var n: nat :| PassedTo(g, log, n);
      assert PassedTo(g', log, n);
    }
  }

  lemma OwnWorker(g: Group, log: seq<Id>, a: WorkerAction, g': Group)
    requires a.w < |g.workers| && WorkerInv(g, log, g.workers[a.w]) && Covered(g, log, g.committed)
    requires GroupStep(g, log, a, g')
    ensures a.w < |g'.workers| && WorkerInv(g', log, g'.workers[a.w])
  {
  }

  lemma CommitCovered(g: Group, log: seq<Id>, a: WorkerAction, g': Group)
    requires a.w < |g.workers| && WorkerInv(g, log, g.workers[a.w]) && Covered(g, log, g.committed)
    requires GroupStep(g, log, a, g')
    ensures Covered(g', log, g'.committed)
  {
  }

  /** A longer log keeps it too. */
  lemma GroupExtends(g: Group, log: seq<Id>, id: Id)
    requires GroupInv(g, log)
    ensures GroupInv(g, log + [id])
  {
    hide Covered, AsCleanPass, NoDup;
    forall w | 0 <= w < |g.workers| ensures WorkerInv(g, log + [id], g.workers[w]) {
      WorkersGrow(g, g, log, [id], g.workers[w]);
    }
    CoveredGrows(g, g, log, [id], g.committed);
    PassExtends(g, log, id);
  }

  lemma PassExtends(g: Group, log: seq<Id>, id: Id)
    requires AsCleanPass(g, log)
    ensures AsCleanPass(g, log + [id])
  {
    if g.failed == {} {
      var n: nat :| PassedTo(g, log, n);
      assert (log + [id])[..n] == log[..n];
      assert PassedTo(g, log + [id], n);
    }
  }

  lemma StepKeeps(s: System, a: Action, s': System)
    requires Inv(s) && Step(s, a, s')
    ensures Inv(s')
  {
    hide GroupInv, GroupStep;
    forall g | 0 <= g < |s'.groups| ensures GroupInv(s'.groups[g], s'.log) {
      assert GroupInv(s.groups[g], s.log);
      if a.Publish? {
        GroupExtends(s.groups[g], s.log, a.id);
      } else if a.Work? && a.g == g {
        GroupKeeps(s.groups[g], s.log, a.act, s'.groups[g]);
      }
    }
  }

  lemma {:induction false} RunKeeps(states: seq<System>, actions: seq<Action>, i: nat)
    requires Run(states, actions) && i < |states|
    ensures Inv(states[i])
  {
    hide Step, GroupInv;
    if i == 0 {
      InitKeeps(states[0]);
    } else {
      RunKeeps(states, actions, i - 1);
      assert Step(states[i - 1], actions[i - 1], states[i - 1 + 1]);
      StepKeeps(states[i - 1], actions[i - 1], states[i]);
    }
  }

  lemma InitKeeps(s: System)
    requires Init(s)
    ensures Inv(s)
  {
    forall g | 0 <= g < |s.groups| ensures GroupInv(s.groups[g], s.log) {
      assert PassedTo(s.groups[g], s.log, 0);
    }
  }

  // ----------------------------------------------------------------- main results

  /** Safety, in every reachable state and for every group: at most one row per order;
      rows only for events, events only for stored orders; and every record below the
      committed offset has its row, or its handling raised and was logged. */
  lemma Safety(states: seq<System>, actions: seq<Action>, i: nat, g: nat)
    requires Run(states, actions) && i < |states| && g < |states[i].groups|
    ensures var s := states[i]; var group := s.groups[g];
            && NoDup(group.rows)
            && (forall id :: id in group.rows ==> id in s.log)
            && (forall id :: id in s.log ==> id in s.orders)
            && group.committed <= |s.log|
            && (forall o :: 0 <= o < group.committed ==> o in group.failed || s.log[o] in group.rows)
  {
    RunKeeps(states, actions, i);
    assert GroupInv(states[i].groups[g], states[i].log);
  }

  ghost predicate RaisedAt(s: System, a: Action, g: nat, o: nat) {
    && a.Work? && a.g == g && a.act.Raise? && g < |s.groups| && a.act.w < |s.groups[g].workers|
    && !s.groups[g].workers[a.act.w].Down? && s.groups[g].workers[a.act.w].at == o
  }

  /** An offset counts as failed only if a worker's handling of it did raise earlier in the run. */
  lemma {:induction false} FailedRaised(states: seq<System>, actions: seq<Action>, i: nat, g: nat, o: nat)
    requires Run(states, actions) && i < |states| && g < |states[i].groups| && o in states[i].groups[g].failed
    ensures exists j :: 0 <= j < i && RaisedAt(states[j], actions[j], g, o)
  {
    if i > 0 {
      assert Step(states[i - 1], actions[i - 1], states[i - 1 + 1]);
      if o in states[i - 1].groups[g].failed {
        FailedRaised(states, actions, i - 1, g, o);
      } else {
        assert RaisedAt(states[i - 1], actions[i - 1], g, o);
      }
    }
  }

  /** Runs with crashes, redelivery and several workers refine the clean pass: if nothing
      raised, the table is, row for row, what one clean pass over the first n records
      leaves, for an n at or beyond the committed offset; and once the committed offset is
      at the end of the log it is the clean pass over all of it. */
  lemma CrashesRefineCleanPass(states: seq<System>, actions: seq<Action>, i: nat, g: nat) returns (n: nat)
    requires Run(states, actions) && i < |states| && g < |states[i].groups| && states[i].groups[g].failed == {}
    ensures states[i].groups[g].committed <= n <= |states[i].log|
    ensures states[i].groups[g].rows == CleanPass(states[i].log[..n])
    ensures states[i].groups[g].committed == |states[i].log| ==> states[i].groups[g].rows == CleanPass(states[i].log)
    ensures states[i].groups[g].committed == |states[i].log| ==>
      forall id :: id in states[i].groups[g].rows <==> id in states[i].log
  {
    RunKeeps(states, actions, i);
    var log := states[i].log;
    var group := states[i].groups[g];
    assert GroupInv(group, log);
    n :| PassedTo(group, log, n);
    if n < group.committed {
      PassIdle(log, n, group.committed);
      n := group.committed;
    }
    assert log[..|log|] == log;
    PassContains(log);
  }
}
