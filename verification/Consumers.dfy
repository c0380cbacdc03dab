/** One worker of a consumer group (ShipmentWorker.cs and NotificationWorker.cs of
    examples/05-event-driven/dotnet): its loop and handler as the source has them, and its
    iterations as steps of the state machine of `Events`. */
module Consumers {
  import opened Text
  import opened Events

  /** What can go wrong while a record is handled: the lookup raises, or the save does,
      whether or not it took effect; and then the commit. */
  datatype Trouble = NoTrouble | LookupRaises | SaveRaises(saved: bool)
  datatype Outcome = Committed | CommitRaises(stored: bool)

  /** `rival`: another worker stores the same order between the check and the save. */
  datatype Fate = Fate(rival: bool, trouble: Trouble, commit: Outcome)

  const FINE := Fate(false, NoTrouble, Committed)

  /** The table after handling a record, and whether this call stored the row; None if it raised. */
  function Handle(rows: seq<Id>, id: Id, f: Fate): (seq<Id>, Option<bool>) {
    if f.trouble.LookupRaises? then (rows, None)
    else if id in rows then (rows, Some(false))
    else
      match f.trouble
      case SaveRaises(saved) => (if saved || f.rival then Stored(rows, id) else rows, None)
      case _ => (Stored(rows, id), Some(!f.rival))
  }

  /** The commit takes effect, heard of or not. */
  predicate Commits(rows: seq<Id>, id: Id, f: Fate) {
    Handle(rows, id, f).1.Some? && f.commit != CommitRaises(false)
  }

  /** The table and the committed offset after the records from lo up to hi. */
  function Loop(rows: seq<Id>, committed: nat, log: seq<Id>, lo: nat, hi: nat, fate: nat -> Fate): (seq<Id>, nat)
    requires lo <= hi <= |log|
    decreases hi
  {
    if lo == hi then (rows, committed)
    else
      var (r, c) := Loop(rows, committed, log, lo, hi - 1, fate);
      (Handle(r, log[hi - 1], fate(hi - 1)).0, if Commits(r, log[hi - 1], fate(hi - 1)) then hi else c)
  }

  // ------------------------------------------------------- the loop, statement by statement

  /** The context of a group's database: the table with its unique index. */
  class Table {
    var rows: seq<Id>

    method Save(id: Id) returns (violation: bool)
      modifies this
      ensures violation <==> id in old(rows)
      ensures rows == Stored(old(rows), id)
    {
      violation := id in rows;
      if !violation { rows := rows + [id]; }
    }
  }

  /** A consumer of the group: `committed` lives in the broker. */
  class Consumer {
    const log: seq<Id>
    var committed: nat
    var position: nat
  }

  /** A violation of the index means that another worker stored the row: no error. */
  method HandleAsync(db: Table, id: Id, f: Fate) returns (recorded: Option<bool>)
    modifies db
    ensures (db.rows, recorded) == Handle(old(db.rows), id, f)
    ensures recorded.None? <==> f.trouble.LookupRaises? || (f.trouble.SaveRaises? && id !in old(db.rows))
    ensures recorded == Some(true) <==> f.trouble.NoTrouble? && !f.rival && id !in old(db.rows)
    ensures db.rows == old(db.rows) + if id in old(db.rows) || f.trouble.LookupRaises?
                                         || (f.trouble == SaveRaises(false) && !f.rival) then [] else [id]
  {
    if f.trouble.LookupRaises? { return None; }
    if id in db.rows { return Some(false); }
    if f.rival { var _ := db.Save(id); }
    if f.trouble.SaveRaises? {
      if f.trouble.saved { var _ := db.Save(id); }
      return None;
    }
    var violation := db.Save(id);
    return Some(!violation);
  }

  /** `ConsumeAsync` from its subscription on, for a number of iterations: a record whose
      handling raises is logged and not committed. */
  method ConsumeAsync(consumer: Consumer, db: Table, fate: nat -> Fate, iterations: nat)
    requires consumer.committed <= |consumer.log|
    modifies consumer, db
    ensures consumer.position == if old(consumer.committed) + iterations <= |consumer.log|
                                 then old(consumer.committed) + iterations else |consumer.log|
    ensures (db.rows, consumer.committed)
         == Loop(old(db.rows), old(consumer.committed), consumer.log, old(consumer.committed), consumer.position, fate)
  {
    hide Handle;
    ghost var from, rows := consumer.committed, db.rows;
    consumer.position := consumer.committed;
    for i := 0 to iterations
      invariant consumer.position == if from + i <= |consumer.log| then from + i else |consumer.log|
      invariant from <= consumer.position
      invariant (db.rows, consumer.committed) == Loop(rows, from, consumer.log, from, consumer.position, fate)
    {
      if consumer.position == |consumer.log| { continue; }
      var at := consumer.position;
      consumer.position := at + 1;
      var recorded := HandleAsync(db, consumer.log[at], fate(at));
      if recorded.Some? && fate(at).commit != CommitRaises(false) {
        consumer.committed := at + 1;
      }
    }
  }

  /** The committed offset is just past the last record whose commit took effect; from there
      on handling or committing raised. So a success commits past what raised before it. */
  lemma {:induction false} CommittedPastRaised(rows: seq<Id>, log: seq<Id>, lo: nat, hi: nat, fate: nat -> Fate)
    requires lo <= hi <= |log|
    ensures var c := Loop(rows, lo, log, lo, hi, fate).1;
      && lo <= c <= hi && (lo < c ==> CommitsAt(rows, log, lo, c - 1, fate))
      && forall o :: c <= o < hi ==> !CommitsAt(rows, log, lo, o, fate)
  {
    if lo < hi {
      CommittedPastRaised(rows, log, lo, hi - 1, fate);
      LoopStep(rows, log, lo, hi, fate);
      hide Loop, CommitsAt;
    }
  }

  /** The commit of record o takes effect when the loop gets there. */
  predicate CommitsAt(rows: seq<Id>, log: seq<Id>, lo: nat, o: nat, fate: nat -> Fate)
    requires lo <= o < |log|
  {
    Commits(Loop(rows, lo, log, lo, o, fate).0, log[o], fate(o))
  }

  lemma LoopStep(rows: seq<Id>, log: seq<Id>, lo: nat, hi: nat, fate: nat -> Fate)
    requires lo < hi <= |log|
    ensures Loop(rows, lo, log, lo, hi, fate).1
         == if CommitsAt(rows, log, lo, hi - 1, fate) then hi else Loop(rows, lo, log, lo, hi - 1, fate).1
  {
  }

  /** The record's handling leaves a row for its order if there was none. */
  predicate Stores(f: Fate) {
    match f.trouble
    case NoTrouble => true
    case LookupRaises => false
    case SaveRaises(saved) => saved || f.rival
  }

  /** An order has a row exactly when it had one or some record of it was handled so that
      one is stored: one that only raised is lost for good once a later success commits past it. */
  lemma {:induction false} RowsAfterLoop(rows: seq<Id>, committed: nat, log: seq<Id>, lo: nat, hi: nat,
                                         fate: nat -> Fate, id: Id)
    requires lo <= hi <= |log|
    ensures id in Loop(rows, committed, log, lo, hi, fate).0
       <==> id in rows || exists o :: lo <= o < hi && log[o] == id && Stores(fate(o))
  {
    if lo < hi {
      RowsAfterLoop(rows, committed, log, lo, hi - 1, fate, id);
      HandleRows(Loop(rows, committed, log, lo, hi - 1, fate).0, log[hi - 1], fate(hi - 1), id);
      hide Handle, Stores;
      if log[hi - 1] == id && Stores(fate(hi - 1)) { assert lo <= hi - 1 < hi; }
    }
  }

  lemma HandleRows(rows: seq<Id>, id: Id, f: Fate, x: Id)
    ensures x in Handle(rows, id, f).0 <==> x in rows || (x == id && Stores(f))
  {
  }

  // ------------------------------------------------------------- as steps of the machine

  /** Steps of one worker, crashes and restarts apart. */
  ghost predicate WorkerRun(states: seq<Group>, actions: seq<WorkerAction>, log: seq<Id>, w: nat) {
    && |states| == |actions| + 1
    && forall i :: 0 <= i < |actions| ==>
         actions[i].w == w && !actions[i].Crash? && GroupStep(states[i], log, actions[i], states[i + 1])
  }

  lemma {:induction false} RunKeepsGroup(states: seq<Group>, actions: seq<WorkerAction>, log: seq<Id>, w: nat, i: nat)
    requires WorkerRun(states, actions, log, w) && GroupInv(states[0], log) && i < |states|
    ensures GroupInv(states[i], log)
  {
    hide GroupInv, GroupStep;
    if i > 0 {
      RunKeepsGroup(states, actions, log, w, i - 1);
      GroupKeeps(states[i - 1], log, actions[i - 1], states[i - 1 + 1]);
    }
  }

  lemma RunsJoin(s: seq<Group>, a: seq<WorkerAction>, s': seq<Group>, a': seq<WorkerAction>, log: seq<Id>, w: nat)
    requires WorkerRun(s, a, log, w) && WorkerRun(s', a', log, w) && s[|s| - 1] == s'[0]
    ensures WorkerRun(s[..|s| - 1] + s', a + a', log, w)
    ensures (s[..|s| - 1] + s')[0] == s[0] && (s[..|s| - 1] + s')[|a| + |a'|] == s'[|a'|]
  {
    hide GroupStep;
    var states, actions := s[..|s| - 1] + s', a + a';
    forall i | 0 <= i < |actions|
      ensures actions[i].w == w && !actions[i].Crash? && GroupStep(states[i], log, actions[i], states[i + 1])
    {
      if i < |a| {
        assert states[i] == s[i] && states[i + 1] == s[i + 1];
      } else {
        assert states[i] == s'[i - |a|] && states[i + 1] == s'[i - |a| + 1];
      }
    }
  }

  /** What one iteration of a polling worker comes to, no other worker interfering. */
  function Iterated(g: Group, log: seq<Id>, w: nat, f: Fate): Group
    requires w < |g.workers| && g.workers[w].Polling? && g.workers[w].at < |log|
  {
    var at := g.workers[w].at;
    var (rows, recorded) := Handle(g.rows, log[at], f);
    g.To(w, Polling(at + 1)).(rows := rows, failed := g.failed + if recorded.None? then {at} else {},
                              committed := if Commits(g.rows, log[at], f) then at + 1 else g.committed)
  }

  /** ... is steps of the state machine: consume, check, insert or raise, commit. */
  lemma IteratedSteps(g: Group, log: seq<Id>, w: nat, f: Fate) returns (states: seq<Group>, actions: seq<WorkerAction>)
    requires w < |g.workers| && g.workers[w].Polling? && g.workers[w].at < |log| && !f.rival
    ensures WorkerRun(states, actions, log, w) && states[0] == g && states[|actions|] == Iterated(g, log, w, f)
    ensures Consumed(actions) == 1
  {
    var at := g.workers[w].at;
    var end := Iterated(g, log, w, f);
    var taken := g.To(w, Worker.Handling(at));
    if f.trouble.LookupRaises? {
      states, actions := [g, taken, end], [Consume(w), Raise(w, false)];
    } else {
      var found := log[at] in g.rows;
      var checked := taken.To(w, if found then Handled(at) else Inserting(at));
      var commit := if f.commit.Committed? then Commit(w) else CommitFail(w, f.commit.stored);
      if found {
        states, actions := [g, taken, checked, end], [Consume(w), Check(w), commit];
      } else if f.trouble.SaveRaises? {
        states, actions := [g, taken, checked, end], [Consume(w), Check(w), Raise(w, f.trouble.saved)];
      } else {
        var stored := taken.To(w, Handled(at)).(rows := Stored(g.rows, log[at]));
        states, actions := [g, taken, checked, stored, end], [Consume(w), Check(w), Insert(w), commit];
      }
    }
    hide Handle, Commits;
    ConsumedOnce(actions, w);
  }

  /** How many records are taken: how many iterations the steps are. */
  function Consumed(actions: seq<WorkerAction>): nat {
    if actions == [] then 0 else (if actions[0].Consume? then 1 else 0) + Consumed(actions[1..])
  }

  lemma {:induction false} ConsumedJoin(a: seq<WorkerAction>, b: seq<WorkerAction>)
    ensures Consumed(a + b) == Consumed(a) + Consumed(b)
  {
    if a == [] {
      assert a + b == b;
    } else {
      ConsumedJoin(a[1..], b);
      assert (a + b)[1..] == a[1..] + b;
    }
  }

  lemma ConsumedOnce(actions: seq<WorkerAction>, w: nat)
    requires actions != [] && actions[0] == Consume(w) && forall i :: 0 < i < |actions| ==> !actions[i].Consume?
    ensures Consumed(actions) == 1
  {
    NoneConsumed(actions[1..]);
  }

  lemma {:induction false} NoneConsumed(actions: seq<WorkerAction>)
    requires forall i :: 0 <= i < |actions| ==> !actions[i].Consume?
    ensures Consumed(actions) == 0
  {
    if actions != [] { NoneConsumed(actions[1..]); }
  }

  function Iterations(g: Group, log: seq<Id>, w: nat, n: nat, fate: nat -> Fate): Group
    requires w < |g.workers| && g.workers[w].Polling? && g.workers[w].at + n <= |log|
    decreases n
  {
    if n == 0 then g else Iterations(Iterated(g, log, w, fate(g.workers[w].at)), log, w, n - 1, fate)
  }

  lemma {:induction false} IterationsSteps(g: Group, log: seq<Id>, w: nat, n: nat, fate: nat -> Fate)
    returns (states: seq<Group>, actions: seq<WorkerAction>)
    requires w < |g.workers| && g.workers[w].Polling? && g.workers[w].at + n <= |log|
    requires forall o: nat :: !fate(o).rival
    ensures WorkerRun(states, actions, log, w) && states[0] == g && states[|actions|] == Iterations(g, log, w, n, fate)
    ensures Consumed(actions) == n
    decreases n
  {
    hide WorkerRun, Iterated, GroupStep;
    if n == 0 {
      states, actions := [g], [];
      assert WorkerRun(states, actions, log, w) by { NoSteps(g, log, w); }
    } else {
      var f := fate(g.workers[w].at);
      var s, a := IteratedSteps(g, log, w, f);
      IteratedPolls(g, log, w, f);
      var s', a' := IterationsSteps(Iterated(g, log, w, f), log, w, n - 1, fate);
      RunLength(s, a, log, w);
      RunLength(s', a', log, w);
      RunsJoin(s, a, s', a', log, w);
      ConsumedJoin(a, a');
      states, actions := s[..|s| - 1] + s', a + a';
    }
  }

  lemma NoSteps(g: Group, log: seq<Id>, w: nat)
    ensures WorkerRun([g], [], log, w)
  {
  }

  lemma RunLength(states: seq<Group>, actions: seq<WorkerAction>, log: seq<Id>, w: nat)
    requires WorkerRun(states, actions, log, w)
    ensures |states| == |actions| + 1
  {
  }

  lemma IteratedPolls(g: Group, log: seq<Id>, w: nat, f: Fate)
    requires w < |g.workers| && g.workers[w].Polling? && g.workers[w].at < |log|
    ensures |Iterated(g, log, w, f).workers| == |g.workers|
        && Iterated(g, log, w, f).workers[w] == Polling(g.workers[w].at + 1)
  {
  }

  /** The loop is the machine's iterations: the same table and the same committed offset. */
  lemma {:induction false} LoopIsIterations(g: Group, log: seq<Id>, w: nat, n: nat, fate: nat -> Fate)
    requires w < |g.workers| && g.workers[w].Polling? && g.workers[w].at + n <= |log|
    ensures var end := Iterations(g, log, w, n, fate);
            (end.rows, end.committed) == Loop(g.rows, g.committed, log, g.workers[w].at, g.workers[w].at + n, fate)
    decreases n
  {
    if n > 0 {
      var at := g.workers[w].at;
      LoopIsIterations(Iterated(g, log, w, fate(at)), log, w, n - 1, fate);
      LoopSplits(g.rows, g.committed, log, at, at + n, fate);
    }
  }

  lemma {:induction false} LoopSplits(rows: seq<Id>, committed: nat, log: seq<Id>, lo: nat, hi: nat, fate: nat -> Fate)
    requires lo < hi <= |log|
    ensures Loop(rows, committed, log, lo, hi, fate)
         == Loop(Handle(rows, log[lo], fate(lo)).0, if Commits(rows, log[lo], fate(lo)) then lo + 1 else committed,
                 log, lo + 1, hi, fate)
  {
    hide Handle, Commits;
    if lo + 1 < hi { LoopSplits(rows, committed, log, lo, hi - 1, fate); }
  }

  function AllFine(): nat -> Fate {
    (o: nat) => FINE
  }

  /** All goes well: every record is committed and nothing fails. */
  lemma {:induction false} FineIterations(g: Group, log: seq<Id>, w: nat, n: nat)
    requires w < |g.workers| && g.workers[w].Polling? && g.workers[w].at + n <= |log|
    ensures Iterations(g, log, w, n, AllFine()).failed == g.failed
    ensures Iterations(g, log, w, n, AllFine()).committed == if n == 0 then g.committed else g.workers[w].at + n
    decreases n
  {
    if n > 0 { FineIterations(Iterated(g, log, w, FINE), log, w, n - 1); }
  }

  /** From any reachable state of a group there are steps of one worker alone, a restart and
      then as many iterations as the log is longer than the committed offset, that commit the
      whole log; if nothing raised before, the table is then the clean pass. */
  lemma Undisturbed(g: Group, log: seq<Id>, w: nat) returns (states: seq<Group>, actions: seq<WorkerAction>)
    requires GroupInv(g, log) && w < |g.workers| && (g.workers[w].Down? || g.workers[w].Polling?)
    ensures g.committed <= |log| && Consumed(actions) == |log| - g.committed
    ensures WorkerRun(states, actions, log, w) && states[0] == g
    ensures var end := states[|actions|];
            && end == Iterations(g.To(w, Polling(g.committed)), log, w, |log| - g.committed, AllFine())
            && end.committed == |log|
            && (forall o :: 0 <= o < |log| ==> o in g.failed || log[o] in end.rows)
            && (g.failed == {} ==> end.rows == CleanPass(log))
  {
    hide GroupInv, CleanPass, Iterations;
    CommittedInside(g, log);
    var start := g.To(w, Polling(g.committed));
    var n := |log| - g.committed;
    var s, a := IterationsSteps(start, log, w, n, AllFine());
    var first, act := [g, start], [Start(w)];
    assert WorkerRun(first, act, log, w);
    RunsJoin(first, act, s, a, log, w);
    ConsumedJoin(act, a);
    states, actions := first[..|first| - 1] + s, act + a;
    RunKeepsGroup(states, actions, log, w, |actions|);
    FineIterations(start, log, w, n);
    CaughtUp(states[|actions|], log);
  }

  lemma CommittedInside(g: Group, log: seq<Id>)
    requires GroupInv(g, log)
    ensures g.committed <= |log|
  {
  }

  /** A group that has committed the whole log. */
  lemma CaughtUp(g: Group, log: seq<Id>)
    requires GroupInv(g, log) && g.committed == |log|
    ensures forall o :: 0 <= o < |log| ==> o in g.failed || log[o] in g.rows
    ensures g.failed == {} ==> g.rows == CleanPass(log)
  {
    if g.failed == {} {
      var n: nat :| PassedTo(g, log, n);
      PassIdle(log, n, |log|);
      assert log[..|log|] == log;
    }
  }
}
