/** Revenue per merchant and tumbling window (examples/06-stream-processing): the Faust
    agent keeps one accumulator per window in a table whose old windows expire, and emits
    a running total at every order; the Streamiz topology does the same with no grace.
    Times are milliseconds, window starts and lengths seconds, sums exact; the records are
    those of one partition. */
module Windows {
  import opened Text

  /** A JSON value; a number keeps its text. */
  datatype Json = Null | Bool(value: bool) | Number(text: string) | Str(text: string) | Composite

  /** A record's event is None when the bytes are not a JSON object. */
  datatype Record = Record(event: Option<map<string, Json>>, ms: int)

  /** `number` reads a finite decimal. */
  datatype Settings = Settings(window: int, number: string -> Option<real>)
  type Config = c: Settings | 0 < c.window witness Settings(10, (s: string) => None)

  datatype Key = Key(merchant: string, start: int)
  datatype Acc = Acc(count: nat, total: real)

  /** One record of revenue.by-merchant; `cents` is the revenue shown. */
  datatype Emission = Emission(key: Key, count: nat, cents: int)

  // ---------------------------------------------------------------- reading a record

  function Dumps(j: Json): string {
    match j
    case Null => "null"
    case Bool(b) => if b then "true" else "false"
    case Number(t) => t
    case Str(t) => "\"" + t + "\""
    case Composite => "{}"
  }

  function StrOf(j: Json): string {
    match j
    case Null => "None"
    case Bool(b) => if b then "True" else "False"
    case Number(t) => t
    case Str(t) => t
    case Composite => "{}"
  }

  function AmountOf(event: map<string, Json>): string {
    if "total" !in event || event["total"].Null? then "0" else StrOf(event["total"])
  }

  /** `parse`: the merchant and the amount of a usable event. */
  function Parse(event: Option<map<string, Json>>): Option<(string, string)> {
    if event.None? || "merchant_id" !in event.value then None
    else
      var merchant := event.value["merchant_id"];
      if merchant.Null? || merchant.Composite? then None
      else
        var name := if merchant.Str? then merchant.text else Dumps(merchant);
        if name == "" then None else Some((name, AmountOf(event.value)))
  }

  function Start(ms: int, c: Config): int {
    ms / (1000 * c.window) * c.window
  }

  lemma AtLeastOne(d: int, w: int)
    requires 0 < d && 0 < w
    ensures w <= d * w
  {
    assert 0 <= (d - 1) * w;
  }

  lemma Apart(k: int, q: int, w: int)
    ensures (k - q) * w == k * w - q * w
  {
  }

  lemma NoRest(k: int, q: int, r: int, w: int)
    requires 0 <= r < w && k * w == q * w + r
    ensures r == 0
  {
    Apart(k, q, w);
    if q < k {
      AtLeastOne(k - q, w);
    } else if k < q {
      Apart(q, k, w);
      AtLeastOne(q - k, w);
    }
  }

  lemma MultipleOf(k: int, w: int)
    requires 0 < w
    ensures k * w % w == 0
  {
    var x := k * w;
    NoRest(k, x / w, x % w, w);
  }

  lemma StartContains(ms: int, c: Config)
    ensures 1000 * Start(ms, c) <= ms < 1000 * (Start(ms, c) + c.window)
    ensures Start(ms, c) % c.window == 0
  {
    MultipleOf(ms / (1000 * c.window), c.window);
    var w := 1000 * c.window;
    assert ms == ms / w * w + ms % w;
    assert ms / w * w == 1000 * Start(ms, c);
  }

  /** The window and the value of an order the agent adds up, if the record is one. */
  function Order(r: Record, c: Config): Option<(Key, real)> {
    match Parse(r.event)
    case None => None
    case Some((merchant, amount)) =>
      match c.number(amount)
      case None => None
      case Some(value) => Some((Key(merchant, Start(r.ms, c)), value))
  }

  /** The merchant a value names: a string as it is, a number or a truth value as its JSON text. */
  ghost predicate Names(j: Json, merchant: string) {
    j == Str(merchant) || j == Number(merchant) || (j.Bool? && merchant == if j.value then "true" else "false")
  }

  /** The text of an event's total: zero if it has none. */
  ghost predicate TotalText(event: map<string, Json>, amount: string) {
    if "total" !in event then amount == "0"
    else
      match event["total"]
      case Null => amount == "0"
      case Bool(b) => amount == if b then "True" else "False"
      case Number(t) => amount == t
      case Str(t) => amount == t
      case Composite => amount == "{}"
  }

  /** A record is an order exactly when its event names a merchant and its total is a number; it
      counts that number, in the window of its time. */
  lemma OrderMeans(r: Record, c: Config, merchant: string, start: int, value: real)
    ensures Order(r, c) == Some((Key(merchant, start), value)) <==>
      && r.event.Some? && "merchant_id" in r.event.value && Names(r.event.value["merchant_id"], merchant)
      && merchant != "" && start == Start(r.ms, c)
      && exists amount :: TotalText(r.event.value, amount) && c.number(amount) == Some(value)
  {
    if r.event.Some? {
      var amount := AmountOf(r.event.value);
      assert forall a :: TotalText(r.event.value, a) <==> a == amount;
      assert c.number(amount) == c.number(amount);
    }
  }

  // ------------------------------------------------------------------------ the sums

  /** ROUND_HALF_UP to cents: half a cent away from zero. */
  function Cents(x: real): int {
    if x >= 0.0 then (100.0 * x + 0.5).Floor else -((-100.0 * x + 0.5).Floor)
  }

  /** What is shown is within half a cent of the exact sum, and at exactly half a cent it
      is the one further from zero. */
  lemma CentsNearest(x: real)
    ensures -0.5 <= Cents(x) as real - 100.0 * x <= 0.5
    ensures 100.0 * x == (100.0 * x).Floor as real + 0.5 ==>
      Cents(x) == if x >= 0.0 then (100.0 * x).Floor + 1 else (100.0 * x).Floor
  {
  }

  /** quantize fits the 28 digits of the context. */
  predicate InRange(total: real) {
    -10_000_000_000_000_000_000_000_000_000 < Cents(total) < 10_000_000_000_000_000_000_000_000_000
  }

  /** The accumulator with one more order, unless its total would be out of range. */
  function Added(acc: Acc, value: real): Option<Acc> {
    if InRange(acc.total + value) then Some(Acc(acc.count + 1, acc.total + value)) else None
  }

  /** The batch group-by: a fold over the records of one merchant and window. */
  function Batch(records: seq<Record>, key: Key, c: Config): Acc {
    if records == [] then Acc(0, 0.0)
    else
      var before := Batch(records[..|records| - 1], key, c);
      match Order(records[|records| - 1], c)
      case None => before
      case Some((k, value)) =>
        if k != key then before
        else
          match Added(before, value)
          case None => before
          case Some(acc) => acc
  }

  function Shown(key: Key, acc: Acc): Emission {
    Emission(key, acc.count, Cents(acc.total))
  }

  /** What a record should emit: its window's batch over everything up to and with it. */
  function Due(before: seq<Record>, r: Record, c: Config): seq<Emission> {
    match Order(r, c)
    case None => []
    case Some((key, value)) =>
      match Added(Batch(before, key, c), value)
      case None => []
      case Some(acc) => [Shown(key, acc)]
  }

  function Emissions(records: seq<Record>, c: Config): seq<Emission> {
    if records == [] then []
    else Emissions(records[..|records| - 1], c) + Due(records[..|records| - 1], records[|records| - 1], c)
  }

  // ----------------------------------------------------------------------- the agent

  /** A window may be dropped one length after it ends, in stream time: that of the orders,
      since a record that is skipped never reaches the table. */
  ghost predicate Stale(records: seq<Record>, key: Key, c: Config) {
    exists j :: 0 <= j < |records| && Order(records[j], c).Some?
                && 1000 * (key.start + 2 * c.window) <= records[j].ms
  }

  /** Every record is at most one window length late. */
  ghost predicate OnTime(records: seq<Record>, c: Config) {
    forall i, j :: 0 <= j < i < |records| ==> records[j].ms - records[i].ms <= 1000 * c.window
  }

  /** The table holds the batch of every window it holds, and a window with orders that it
      does not hold went stale. */
  ghost predicate Agrees(table: map<Key, Acc>, records: seq<Record>, c: Config) {
    && (forall key :: key in table ==> table[key] == Batch(records, key, c))
    && (forall key :: key !in table && Batch(records, key, c).count > 0 ==> Stale(records, key, c))
  }

  class Aggregator {
    const config: Config
    var table: map<Key, Acc>
    var emitted: seq<Emission>

    constructor (config: Config)
      ensures this.config == config && table == map[] && emitted == []
    {
      this.config, table, emitted := config, map[], [];
    }

    function Current(key: Key): Acc
      reads this
    {
      if key in table then table[key] else Acc(0, 0.0)
    }

    /** The body of the agent's loop. */
    method Aggregate(r: Record)
      modifies this
      ensures table == Next(old(table), r, config)
      ensures emitted == old(emitted) + Emits(old(table), r, config)
    {
      var parsed := Parse(r.event);
      if parsed.None? { return; }
      var (merchant, amount) := parsed.value;
      var value := config.number(amount);
      if value.None? { return; }
      var key := Key(merchant, Start(r.ms, config));
      var acc := Current(key);
      var total := acc.total + value.value;
      if !InRange(total) { return; }
      var count := acc.count + 1;
      table := table[key := Acc(count, total)];
      emitted := emitted + [Emission(key, count, Cents(total))];
    }

    /** The agent over a stream, while the library drops windows before each record. If the
        windows dropped are stale and no drop shows, what is emitted is what the batch says,
        record by record. */
    method Run(records: seq<Record>, dropped: nat -> set<Key>)
      requires table == map[] && emitted == []
      modifies this
      ensures table == TableAfter(records, dropped, config) && emitted == RunEmits(records, dropped, config)
      ensures Legal(records, dropped, config) && Harmless(records, config) ==>
                emitted == Emissions(records, config) && Agrees(table, records, config)
    {
      hide Emissions, Agrees, Batch, Next, Emits, Legal, Harmless;
      for i := 0 to |records|
        invariant table == TableAfter(records[..i], dropped, config)
        invariant emitted == RunEmits(records[..i], dropped, config)
      {
        table := table - dropped(i);
        Aggregate(records[i]);
        assert records[..i + 1][..i] == records[..i];
      }
      assert records[..|records|] == records;
      if Legal(records, dropped, config) && Harmless(records, config) {
        RunIsBatch(records, dropped, config);
      }
    }
  }

  /** The table after the record. */
  function Next(table: map<Key, Acc>, r: Record, c: Config): map<Key, Acc> {
    match Order(r, c)
    case None => table
    case Some((key, value)) =>
      match Added(if key in table then table[key] else Acc(0, 0.0), value)
      case None => table
      case Some(acc) => table[key := acc]
  }

  /** What the agent emits for the record. */
  function Emits(table: map<Key, Acc>, r: Record, c: Config): seq<Emission> {
    match Order(r, c)
    case None => []
    case Some((key, value)) =>
      match Added(if key in table then table[key] else Acc(0, 0.0), value)
      case None => []
      case Some(acc) => [Shown(key, acc)]
  }

  /** A run: the table after the records, and all that was emitted. Before record i the
      windows in `dropped(i)` go. */
  ghost function TableAfter(records: seq<Record>, dropped: nat -> set<Key>, c: Config): map<Key, Acc> {
    if records == [] then map[]
    else
      var n := |records| - 1;
      Next(TableAfter(records[..n], dropped, c) - dropped(n), records[n], c)
  }

  ghost function RunEmits(records: seq<Record>, dropped: nat -> set<Key>, c: Config): seq<Emission> {
    if records == [] then []
    else
      var n := |records| - 1;
      RunEmits(records[..n], dropped, c) + Emits(TableAfter(records[..n], dropped, c) - dropped(n), records[n], c)
  }

  /** Only stale windows are dropped. */
  ghost predicate Legal(records: seq<Record>, dropped: nat -> set<Key>, c: Config) {
    forall i: nat, key :: i < |records| && key in dropped(i) ==> Stale(records[..i], key, c)
  }

  /** The window of an order; of no interest for other records. */
  function KeyOf(r: Record, c: Config): Key {
    if Order(r, c).Some? then Order(r, c).value.0 else Key("", 0)
  }

  /** The record would emit the same in a fresh window: it is no order, its window has no
      orders, or its value is out of range by itself and in the window's total. */
  ghost predicate SameAfresh(before: seq<Record>, r: Record, c: Config) {
    match Order(r, c)
    case None => true
    case Some((key, value)) =>
      var batch := Batch(before, key, c);
      batch.count == 0 || (Added(batch, value).None? && Added(Acc(0, 0.0), value).None?)
  }

  /** No order comes for a window that went stale with orders in it, except where a fresh
      window makes no difference. */
  ghost predicate Harmless(records: seq<Record>, c: Config) {
    forall i :: 0 <= i < |records| ==>
      SameAfresh(records[..i], records[i], c) || !Stale(records[..i], KeyOf(records[i], c), c)
  }

  lemma BatchStep(records: seq<Record>, r: Record, key: Key, c: Config)
    ensures Batch(records + [r], key, c) ==
      if Order(r, c).Some? && Order(r, c).value.0 == key && Added(Batch(records, key, c), Order(r, c).value.1).Some?
      then Added(Batch(records, key, c), Order(r, c).value.1).value else Batch(records, key, c)
  {
  }

  lemma {:induction false} CountZero(records: seq<Record>, key: Key, c: Config)
    ensures Batch(records, key, c).count == 0 ==> Batch(records, key, c) == Acc(0, 0.0)
  {
    if records != [] { CountZero(records[..|records| - 1], key, c); }
  }

  lemma EmptyAgrees(records: seq<Record>, c: Config)
    ensures Emissions(records[..0], c) == [] && Agrees(map[], records[..0], c)
  {
  }

  lemma DropAgrees(table: map<Key, Acc>, dropped: set<Key>, records: seq<Record>, c: Config)
    requires Agrees(table, records, c) && forall key :: key in dropped ==> Stale(records, key, c)
    ensures Agrees(table - dropped, records, c)
  {
  }

  /** Exactly when a drop shows: given a table that agrees so far, a record emits what the
      batch says unless its window was dropped and the record would not emit the same afresh. */
  lemma DropShows(table: map<Key, Acc>, records: seq<Record>, r: Record, c: Config)
    requires Agrees(table, records, c)
    ensures Emits(table, r, c) == Due(records, r, c) <==>
      SameAfresh(records, r, c) || KeyOf(r, c) in table
  {
    hide Batch, Cents;
    if Order(r, c).Some? { CountZero(records, Order(r, c).value.0, c); }
  }

  lemma Follows(table: map<Key, Acc>, records: seq<Record>, r: Record, c: Config)
    requires Agrees(table, records, c) && (SameAfresh(records, r, c) || KeyOf(r, c) in table)
    ensures Agrees(Next(table, r, c), records + [r], c)
  {
    hide Cents, Batch;
    var after := Next(table, r, c);
    if Order(r, c).Some? { CountZero(records, Order(r, c).value.0, c); }
    forall key ensures key in after ==> after[key] == Batch(records + [r], key, c) {
      BatchStep(records, r, key, c);
    }
    forall key | key !in after && Batch(records + [r], key, c).count > 0 ensures Stale(records + [r], key, c) {
      BatchStep(records, r, key, c);
      var j :| 0 <= j < |records| && Order(records[j], c).Some? && 1000 * (key.start + 2 * c.window) <= records[j].ms;
      assert (records + [r])[j] == records[j];
    }
  }

  lemma {:induction false} RunIsBatch(records: seq<Record>, dropped: nat -> set<Key>, c: Config)
    requires Legal(records, dropped, c) && Harmless(records, c)
    ensures RunEmits(records, dropped, c) == Emissions(records, c)
    ensures Agrees(TableAfter(records, dropped, c), records, c)
  {
    hide Agrees, Batch, Stale, Next, Emits, Due, SameAfresh;
    if records == [] {
      EmptyAgrees(records, c);
    } else {
      var n := |records| - 1;
      var init, r := records[..n], records[n];
      assert forall i :: 0 <= i <= n ==> init[..i] == records[..i];
      RunIsBatch(init, dropped, c);
      var table := TableAfter(init, dropped, c) - dropped(n);
      DropAgrees(TableAfter(init, dropped, c), dropped(n), init, c);
      if !SameAfresh(init, r, c) { NotStale(table, init, r, c); }
      DropShows(table, init, r, c);
      Follows(table, init, r, c);
      assert records == init + [r];
    }
  }

  lemma NotStale(table: map<Key, Acc>, records: seq<Record>, r: Record, c: Config)
    requires Agrees(table, records, c) && !SameAfresh(records, r, c) && !Stale(records, KeyOf(r, c), c)
    ensures KeyOf(r, c) in table
  {
  }

  // ------------------------------------------------------------------ what late means

  lemma OrderKey(before: seq<Record>, r: Record, c: Config) returns (key: Key)
    requires !SameAfresh(before, r, c)
    ensures Order(r, c).Some? && key == Order(r, c).value.0 && key.start == Start(r.ms, c)
    ensures Batch(before, key, c).count > 0
    ensures Added(Batch(before, key, c), Order(r, c).value.1).Some? || Added(Acc(0, 0.0), Order(r, c).value.1).Some?
  {
    key := Order(r, c).value.0;
  }

  /** Orders at most one window length late find their windows. */
  lemma OnTimeHarmless(records: seq<Record>, c: Config)
    requires OnTime(records, c)
    ensures Harmless(records, c)
  {
    hide SameAfresh;
    forall i | 0 <= i < |records| && !SameAfresh(records[..i], records[i], c)
      ensures !Stale(records[..i], KeyOf(records[i], c), c)
    {
      var key := OrderKey(records[..i], records[i], c);
      StartContains(records[i].ms, c);
      forall j | 0 <= j < i ensures records[..i][j].ms < 1000 * (key.start + 2 * c.window) {
        assert records[j].ms - records[i].ms <= 1000 * c.window;
      }
    }
  }

  function EmittedFor(emitted: seq<Emission>, key: Key): nat {
    if emitted == [] then 0
    else EmittedFor(emitted[..|emitted| - 1], key) + if emitted[|emitted| - 1].key == key then 1 else 0
  }

  lemma EmittedForAppend(emitted: seq<Emission>, e: Emission, key: Key)
    ensures EmittedFor(emitted + [e], key) == EmittedFor(emitted, key) + if e.key == key then 1 else 0
    ensures EmittedFor(emitted + [], key) == EmittedFor(emitted, key)
  {
    assert emitted + [] == emitted;
  }

  /** The batch emits once for each order it counts. */
  lemma {:induction false} EmittedForIsCount(records: seq<Record>, key: Key, c: Config)
    ensures EmittedFor(Emissions(records, c), key) == Batch(records, key, c).count
  {
    hide Cents;
    if records != [] {
      var init, r := records[..|records| - 1], records[|records| - 1];
      EmittedForIsCount(init, key, c);
      assert records == init + [r];
      BatchStep(init, r, key, c);
      var due := Due(init, r, c);
      EmittedForAppend(Emissions(init, c), if due == [] then Shown(key, Acc(0, 0.0)) else due[0], key);
    }
  }

  lemma {:induction false} CountGrows(records: seq<Record>, i: nat, key: Key, c: Config)
    requires i <= |records|
    ensures Batch(records[..i], key, c).count <= Batch(records, key, c).count
  {
    if i < |records| {
      var init := records[..|records| - 1];
      CountGrows(init, i, key, c);
      assert init[..i] == records[..i];
    } else {
      assert records[..i] == records;
    }
  }

  ghost function OneDrop(i: nat, key: Key): nat -> set<Key> {
    j => if j == i then {key} else {}
  }

  function CountIn(table: map<Key, Acc>, key: Key): nat {
    if key in table then table[key].count else 0
  }

  /** Until the drop the run is the batch, and every window with orders is in the table. */
  lemma {:induction false} BeforeDrop(records: seq<Record>, i: nat, key: Key, c: Config)
    requires |records| <= i
    ensures RunEmits(records, OneDrop(i, key), c) == Emissions(records, c)
    ensures Agrees(TableAfter(records, OneDrop(i, key), c), records, c)
    ensures forall k :: k !in TableAfter(records, OneDrop(i, key), c) ==> Batch(records, k, c).count == 0
  {
    hide Stale, Emits, Due, SameAfresh, Agrees, Cents, Batch;
    if records == [] {
      EmptyAgrees(records, c);
      forall k ensures Batch([], k, c).count == 0 { EmptyBatch(k, c); }
    } else {
      var n := |records| - 1;
      var init, r := records[..n], records[n];
      BeforeDrop(init, i, key, c);
      var table := TableAfter(init, OneDrop(i, key), c);
      assert table - OneDrop(i, key)(n) == table;
      if !SameAfresh(init, r, c) {
        var k := OrderKey(init, r, c);
        assert k in table;
      }
      DropShows(table, init, r, c);
      Follows(table, init, r, c);
      assert records == init + [r];
      StillAll(table, init, r, c);
    }
  }

  lemma EmptyBatch(key: Key, c: Config)
    ensures Batch([], key, c).count == 0
  {
  }

  lemma StillAll(table: map<Key, Acc>, records: seq<Record>, r: Record, c: Config)
    requires forall k :: k !in table ==> Batch(records, k, c).count == 0
    requires Agrees(table, records, c)
    ensures forall k :: k !in Next(table, r, c) ==> Batch(records + [r], k, c).count == 0
  {
    hide Batch, Cents;
    forall k | k !in Next(table, r, c) ensures Batch(records + [r], k, c).count == 0 {
      BatchStep(records, r, k, c);
      CountZero(records, k, c);
    }
  }

  /** From the drop on the window counts from nothing: `had` are its orders before. */
  ghost predicate Restarted(emitted: seq<Emission>, table: map<Key, Acc>, key: Key, had: nat) {
    var count := CountIn(table, key);
    && EmittedFor(emitted, key) == had + count
    && (count > 0 ==> Latest(emitted, key).Some? && Latest(emitted, key).value.count == count)
    && (count == 0 ==> key !in table)
  }

  lemma RestartStep(emitted: seq<Emission>, table: map<Key, Acc>, r: Record, key: Key, had: nat, c: Config)
    requires Restarted(emitted, table, key, had)
    ensures Restarted(emitted + Emits(table, r, c), Next(table, r, c), key, had)
    ensures CountIn(table, key) <= CountIn(Next(table, r, c), key)
  {
    hide EmittedFor, Latest, Cents;
    var e := Emits(table, r, c);
    EmittedForAppend(emitted, if e == [] then Shown(key, Acc(0, 0.0)) else e[0], key);
    LatestAppend(emitted, if e == [] then Shown(key, Acc(0, 0.0)) else e[0], key);
  }

  lemma {:induction false} AfterDrop(records: seq<Record>, i: nat, key: Key, c: Config)
    requires i < |records| && !SameAfresh(records[..i], records[i], c) && key == KeyOf(records[i], c)
    ensures Restarted(RunEmits(records, OneDrop(i, key), c), TableAfter(records, OneDrop(i, key), c), key,
                      Batch(records[..i], key, c).count)
    ensures CountIn(TableAfter(records, OneDrop(i, key), c), key) == 0 ==>
        Added(Acc(0, 0.0), Order(records[i], c).value.1).None?
  {
    hide Emits, Next, EmittedFor, Latest, SameAfresh, Agrees, Batch, Cents;
    var n := |records| - 1;
    var init, r := records[..n], records[n];
    var had := Batch(records[..i], key, c).count;
    var table := TableAfter(init, OneDrop(i, key), c) - OneDrop(i, key)(n);
    if n == i {
      BeforeDrop(init, i, key, c);
      EmittedForIsCount(init, key, c);
      assert key !in table;
    } else {
      assert init[..i] == records[..i];
      AfterDrop(init, i, key, c);
      assert table == TableAfter(init, OneDrop(i, key), c);
    }
    RestartStep(RunEmits(init, OneDrop(i, key), c), table, r, key, had, c);
    if n == i {
      var _ := OrderKey(init, r, c);
      FirstAfresh(table, r, key, c);
    }
  }

  lemma FirstAfresh(table: map<Key, Acc>, r: Record, key: Key, c: Config)
    requires key !in table && Order(r, c).Some? && key == Order(r, c).value.0
    ensures CountIn(Next(table, r, c), key) == 0 ==> Added(Acc(0, 0.0), Order(r, c).value.1).None?
  {
  }

  /** Dropping one window before an order of it that would not emit the same afresh changes
      what is emitted. */
  lemma DropSeen(records: seq<Record>, i: nat, key: Key, c: Config)
    requires i < |records| && !SameAfresh(records[..i], records[i], c) && key == KeyOf(records[i], c)
    ensures RunEmits(records, OneDrop(i, key), c) != Emissions(records, c)
  {
    hide RunEmits, TableAfter, Emissions, Batch, EmittedFor, Latest, SameAfresh, Cents;
    AfterDrop(records, i, key, c);
    EmittedForIsCount(records, key, c);
    LatestIsBatch(records, key, c);
    var _ := OrderKey(records[..i], records[i], c);
    BatchStep(records[..i], records[i], key, c);
    assert records[..i + 1] == records[..i] + [records[i]];
    CountGrows(records, i + 1, key, c);
  }

  /** Whatever stale windows the library drops, all that is emitted is what the batch says:
      exactly when no order for a stale window would emit something else afresh. */
  lemma DropsHiddenExactly(records: seq<Record>, c: Config)
    ensures Harmless(records, c) <==>
      forall dropped :: Legal(records, dropped, c) ==> RunEmits(records, dropped, c) == Emissions(records, c)
  {
    hide RunEmits, Emissions, SameAfresh, Stale;
    if Harmless(records, c) {
      forall dropped | Legal(records, dropped, c) ensures RunEmits(records, dropped, c) == Emissions(records, c) {
        RunIsBatch(records, dropped, c);
      }
    } else {
      var i :| 0 <= i < |records| && !SameAfresh(records[..i], records[i], c)
          && Stale(records[..i], KeyOf(records[i], c), c);
      var key := KeyOf(records[i], c);
      DropSeen(records, i, key, c);
      assert Legal(records, OneDrop(i, key), c);
    }
  }

  function SaleAt(ms: int): Record {
    Record(Some(map["merchant_id" := Str("m"), "total" := Number("1")]), ms)
  }

  /** One window length is the bound: a record one millisecond later than that can find its
      window dropped, and then counts as the first of it. */
  lemma OneMillisecondTooLate(c: Config)
    requires c.window == 10 && c.number("1") == Some(1.0)
    ensures var records := [SaleAt(0), SaleAt(20_000), SaleAt(9_999)];
            var key := Key("m", 0);
            var table := map[Key("m", 20) := Acc(1, 1.0)];
            && Stale(records[..2], key, c) && Agrees(table, records[..2], c) && !Harmless(records, c)
            && Emits(table, records[2], c) == [Emission(key, 1, 100)]
            && Due(records[..2], records[2], c) == [Emission(key, 2, 200)]
  {
    var records := [SaleAt(0), SaleAt(20_000), SaleAt(9_999)];
    var table := map[Key("m", 20) := Acc(1, 1.0)];
    var two := records[..2];
    assert two == [SaleAt(0)] + [SaleAt(20_000)] && [SaleAt(0)] == [] + [SaleAt(0)];
    assert two[1].ms == 20_000;
    assert Order(SaleAt(0), c) == Some((Key("m", 0), 1.0));
    assert Order(SaleAt(20_000), c) == Some((Key("m", 20), 1.0));
    assert Order(SaleAt(9_999), c) == Some((Key("m", 0), 1.0));
    forall key
      ensures Batch(two, key, c) == if key == Key("m", 0) || key == Key("m", 20) then Acc(1, 1.0) else Acc(0, 0.0)
    {
      BatchStep([], SaleAt(0), key, c);
      BatchStep([SaleAt(0)], SaleAt(20_000), key, c);
    }
  }

  // ------------------------------------------------------------------- exact revenue

  ghost function Sum(records: seq<Record>, key: Key, c: Config): (nat, real) {
    if records == [] then (0, 0.0)
    else
      var (n, sum) := Sum(records[..|records| - 1], key, c);
      match Order(records[|records| - 1], c)
      case None => (n, sum)
      case Some((k, value)) => if k == key then (n + 1, sum + value) else (n, sum)
  }

  ghost predicate SumsInRange(records: seq<Record>, key: Key, c: Config) {
    forall i :: 0 <= i <= |records| ==> InRange(Sum(records[..i], key, c).1)
  }

  /** However many orders there are, the count is the number of the window's orders and the
      revenue shown is within half a cent of their exact sum: nothing rounded is added up. */
  lemma {:induction false} RevenueExact(records: seq<Record>, key: Key, c: Config)
    requires SumsInRange(records, key, c)
    ensures var (n, sum) := Sum(records, key, c);
            var shown := Shown(key, Batch(records, key, c));
            && Batch(records, key, c) == Acc(n, sum)
            && shown.count == n && -0.5 <= shown.cents as real - 100.0 * sum <= 0.5
  {
    if records != [] {
      SumsPrefix(records, key, c);
      RevenueExact(records[..|records| - 1], key, c);
      assert records[..|records|] == records;
    }
    CentsNearest(Sum(records, key, c).1);
  }

  // ------------------------------------------------------------- what consumers keep

  /** The latest emission of a window. */
  function Latest(emitted: seq<Emission>, key: Key): Option<Emission> {
    if emitted == [] then None
    else if emitted[|emitted| - 1].key == key then Some(emitted[|emitted| - 1])
    else Latest(emitted[..|emitted| - 1], key)
  }

  lemma LatestAppend(emitted: seq<Emission>, e: Emission, key: Key)
    ensures Latest(emitted + [e], key) == if e.key == key then Some(e) else Latest(emitted, key)
    ensures Latest(emitted + [], key) == Latest(emitted, key)
  {
    assert (emitted + [e])[..|emitted|] == emitted;
    assert emitted + [] == emitted;
  }

  /** The latest record per merchant and window is the batch result, if it has any order. */
  lemma {:induction false} LatestIsBatch(records: seq<Record>, key: Key, c: Config)
    ensures var batch := Batch(records, key, c);
            Latest(Emissions(records, c), key) == if batch.count == 0 then None else Some(Shown(key, batch))
  {
    if records != [] {
      var init, r := records[..|records| - 1], records[|records| - 1];
      LatestIsBatch(init, key, c);
      assert records == init + [r];
      BatchStep(init, r, key, c);
      var due := Due(init, r, c);
      LatestAppend(Emissions(init, c), if due == [] then Shown(key, Acc(0, 0.0)) else due[0], key);
    }
  }

  // -------------------------------------------------------------------- the Streamiz version

  /** `Rekey`: a merchant that is not a string, or none, gives the empty key. */
  function Rekey(event: Option<map<string, Json>>): (string, string) {
    if event.None? || "merchant_id" !in event.value then ("", "")
    else
      match event.value["merchant_id"]
      case Str(name) => (name, AmountOf(event.value))
      case Null => ("", AmountOf(event.value))
      case _ => ("", "")
  }

  /** Its key is a merchant exactly when that is a string; the amount is read as the agent does. */
  lemma RekeyMeans(event: Option<map<string, Json>>, name: string, amount: string)
    requires name != ""
    ensures Rekey(event) == (name, amount) <==>
      && event.Some? && "merchant_id" in event.value && event.value["merchant_id"] == Str(name)
      && TotalText(event.value, amount)
  {
    if event.Some? { assert forall a :: TotalText(event.value, a) <==> a == AmountOf(event.value); }
  }

  /** `Add`: a total that is not a number leaves the accumulator as it is. */
  function Add(acc: Acc, amount: string, c: Config): Acc {
    match c.number(amount)
    case None => acc
    case Some(value) => Acc(acc.count + 1, acc.total + value)
  }

  /** With no grace, a record whose window has ended in stream time is dropped. Records with
      the empty key are filtered out before the windows, so they do not advance it. */
  ghost predicate Closed(records: seq<Record>, r: Record, c: Config) {
    exists j :: 0 <= j < |records| && Rekey(records[j].event).0 != ""
                && 1000 * (Start(r.ms, c) + c.window) <= records[j].ms
  }

  /** A record without a usable merchant leaves stream time as it is. */
  lemma UnusableClosesNothing(records: seq<Record>, unusable: Record, r: Record, c: Config)
    requires Rekey(unusable.event).0 == ""
    ensures Closed(records + [unusable], r, c) <==> Closed(records, r, c)
  {
    var all := records + [unusable];
    forall j | 0 <= j < |records| ensures all[j] == records[j] { }
    if Closed(records, r, c) {
      var j :| 0 <= j < |records| && Rekey(records[j].event).0 != ""
               && 1000 * (Start(r.ms, c) + c.window) <= records[j].ms;
      assert all[j] == records[j];
    }
  }

  ghost function StreamizAcc(records: seq<Record>, key: Key, c: Config): Acc {
    if records == [] then Acc(0, 0.0)
    else
      var before, r := records[..|records| - 1], records[|records| - 1];
      var acc := StreamizAcc(before, key, c);
      var (merchant, amount) := Rekey(r.event);
      if merchant == "" || Key(merchant, Start(r.ms, c)) != key || Closed(before, r, c) then acc
      else Add(acc, amount, c)
  }

  /** Every update of a window is emitted, an unchanged one too. */
  ghost function StreamizEmissions(records: seq<Record>, c: Config): seq<Emission> {
    if records == [] then []
    else
      var before, r := records[..|records| - 1], records[|records| - 1];
      var (merchant, _) := Rekey(r.event);
      var key := Key(merchant, Start(r.ms, c));
      StreamizEmissions(before, c) +
      if merchant == "" || Closed(before, r, c) then [] else [Shown(key, StreamizAcc(records, key, c))]
  }

  /** The topology takes the record: its merchant is a string and its window has not ended. */
  ghost predicate Takes(before: seq<Record>, r: Record, c: Config) {
    Rekey(r.event).0 != "" && !Closed(before, r, c)
  }

  ghost function Taken(records: seq<Record>, c: Config): seq<Record> {
    if records == [] then []
    else
      var before, r := records[..|records| - 1], records[|records| - 1];
      Taken(before, c) + if Takes(before, r, c) then [r] else []
  }

  /** It takes every order of the window. */
  ghost predicate TakesAll(records: seq<Record>, key: Key, c: Config) {
    forall i :: 0 <= i < |records| && IsOrderOf(records[i], key, c) ==> Takes(records[..i], records[i], c)
  }

  predicate IsOrderOf(r: Record, key: Key, c: Config) {
    Order(r, c).Some? && Order(r, c).value.0 == key
  }

  lemma SumsPrefix(records: seq<Record>, key: Key, c: Config)
    requires records != [] && SumsInRange(records, key, c)
    ensures SumsInRange(records[..|records| - 1], key, c)
  {
    var init := records[..|records| - 1];
    forall i | 0 <= i <= |init| ensures InRange(Sum(init[..i], key, c).1) {
      assert init[..i] == records[..i];
    }
  }

  /** The Streamiz accumulator is the exact count and sum of the orders taken. */
  lemma {:induction false} StreamizIsSum(records: seq<Record>, key: Key, c: Config)
    requires key.merchant != ""
    ensures StreamizAcc(records, key, c) == Acc(Sum(Taken(records, c), key, c).0, Sum(Taken(records, c), key, c).1)
  {
    if records != [] {
      var init, r := records[..|records| - 1], records[|records| - 1];
      StreamizIsSum(init, key, c);
      hide Closed;
      SumAppend(Taken(init, c), r, key, c);
      assert Taken(init, c) + [] == Taken(init, c);
      if Takes(init, r, c) { TakenOrder(r, key, c); }
    }
  }

  lemma SumAppend(records: seq<Record>, r: Record, key: Key, c: Config)
    ensures Sum(records + [r], key, c) ==
      if IsOrderOf(r, key, c) then (Sum(records, key, c).0 + 1, Sum(records, key, c).1 + Order(r, c).value.1)
      else Sum(records, key, c)
  {
  }

  /** Both versions read the same order in a record whose merchant is a string. */
  lemma TakenOrder(r: Record, key: Key, c: Config)
    requires Rekey(r.event).0 != ""
    ensures IsOrderOf(r, key, c) <==> Key(Rekey(r.event).0, Start(r.ms, c)) == key && c.number(Rekey(r.event).1).Some?
    ensures IsOrderOf(r, key, c) ==> c.number(Rekey(r.event).1) == Some(Order(r, c).value.1)
  {
  }

  /** What is not taken is missing from the count. */
  lemma {:induction false} TakenCount(records: seq<Record>, key: Key, c: Config)
    ensures TakesAll(records, key, c) ==> Sum(Taken(records, c), key, c) == Sum(records, key, c)
    ensures !TakesAll(records, key, c) ==> Sum(Taken(records, c), key, c).0 < Sum(records, key, c).0
    ensures Sum(Taken(records, c), key, c).0 <= Sum(records, key, c).0
  {
    hide Takes, IsOrderOf, Sum, Taken, TakesAll;
    if records == [] {
      NothingTaken(key, c);
    } else {
      var n := |records| - 1;
      var init, r := records[..n], records[n];
      TakenCount(init, key, c);
      assert records == init + [r];
      TakenAppend(init, r, key, c);
      SumAppend(init, r, key, c);
      SumAppend(Taken(init, c), r, key, c);
    }
  }

  lemma NothingTaken(key: Key, c: Config)
    ensures TakesAll([], key, c) && Taken([], c) == []
  {
  }

  lemma TakenAppend(records: seq<Record>, r: Record, key: Key, c: Config)
    ensures Taken(records + [r], c) == if Takes(records, r, c) then Taken(records, c) + [r] else Taken(records, c)
    ensures TakesAll(records + [r], key, c) <==>
        TakesAll(records, key, c) && (IsOrderOf(r, key, c) ==> Takes(records, r, c))
  {
    hide Takes, IsOrderOf;
    var all, n := records + [r], |records|;
    assert all[..n] == records && all[n] == r;
    assert forall i :: 0 <= i < n ==> all[..i] == records[..i] && all[i] == records[i];
    assert Taken(records, c) + [] == Taken(records, c);
  }

  /** The batch and Streamiz keep the same latest record of a window exactly when Streamiz takes
      all its orders, except that Streamiz also shows a window of orders with invalid totals
      only, with no orders and no revenue. */
  lemma SameContract(records: seq<Record>, key: Key, c: Config)
    requires SumsInRange(records, key, c) && key.merchant != ""
    ensures SameKept(Emissions(records, c), StreamizEmissions(records, c), key) <==> TakesAll(records, key, c)
  {
    hide Emissions, StreamizEmissions, Sum, Taken, Batch, StreamizAcc, TakesAll;
    RevenueExact(records, key, c);
    LatestIsBatch(records, key, c);
    LatestStreamiz(records, key, c);
    StreamizIsSum(records, key, c);
    TakenCount(records, key, c);
    CountZero(records, key, c);
  }

  // --------------------------------------------------- the agent against the topology

  /** What consumers keep of a window is the same, but for a window without valid totals. */
  ghost predicate SameKept(faust: seq<Emission>, streamiz: seq<Emission>, key: Key) {
    var f, s := Latest(faust, key), Latest(streamiz, key);
    s == f || (f == None && s == Some(Emission(key, 0, 0)))
  }

  /** `Harmless` for the orders of one window. */
  ghost predicate KeyHarmless(records: seq<Record>, key: Key, c: Config) {
    forall i :: 0 <= i < |records| && IsOrderOf(records[i], key, c) ==>
      SameAfresh(records[..i], records[i], c) || !Stale(records[..i], key, c)
  }

  lemma HarmlessByKey(records: seq<Record>, c: Config)
    ensures Harmless(records, c) <==> forall key :: KeyHarmless(records, key, c)
  {
    hide Stale;
    if forall key :: KeyHarmless(records, key, c) {
      forall i | 0 <= i < |records| && !SameAfresh(records[..i], records[i], c)
        ensures !Stale(records[..i], KeyOf(records[i], c), c)
      {
        assert KeyHarmless(records, KeyOf(records[i], c), c);
      }
    }
  }

  /** `Agrees` for one window. */
  ghost predicate KeyAgrees(table: map<Key, Acc>, records: seq<Record>, key: Key, c: Config) {
    && (key in table ==> table[key] == Batch(records, key, c))
    && (key !in table && Batch(records, key, c).count > 0 ==> Stale(records, key, c))
  }

  lemma StaleStays(records: seq<Record>, r: Record, key: Key, c: Config)
    requires Stale(records, key, c)
    ensures Stale(records + [r], key, c)
  {
    var j :| 0 <= j < |records| && Order(records[j], c).Some? && 1000 * (key.start + 2 * c.window) <= records[j].ms;
    assert (records + [r])[j] == records[j];
  }

  lemma KeyFollows(table: map<Key, Acc>, records: seq<Record>, r: Record, key: Key, c: Config)
    requires KeyAgrees(table, records, key, c)
    requires IsOrderOf(r, key, c) ==> SameAfresh(records, r, c) || !Stale(records, key, c)
    ensures KeyAgrees(Next(table, r, c), records + [r], key, c)
    ensures IsOrderOf(r, key, c) ==> Emits(table, r, c) == Due(records, r, c)
  {
    hide Batch, Cents, Stale;
    BatchStep(records, r, key, c);
    CountZero(records, key, c);
    if Stale(records, key, c) { StaleStays(records, r, key, c); }
  }

  /** A record's emission shows in what is kept of the window only if it is an order of it. */
  lemma LatestStep(faust: seq<Emission>, batch: seq<Emission>, e: seq<Emission>, due: seq<Emission>, key: Key)
    requires Latest(faust, key) == Latest(batch, key) && |e| <= 1 && |due| <= 1
    requires e == due || ((e == [] || e[0].key != key) && (due == [] || due[0].key != key))
    ensures Latest(faust + e, key) == Latest(batch + due, key)
  {
    hide Latest;
    var any := Shown(key, Acc(0, 0.0));
    LatestAppend(faust, if e == [] then any else e[0], key);
    LatestAppend(batch, if due == [] then any else due[0], key);
    assert e != [] ==> e == [e[0]];
    assert due != [] ==> due == [due[0]];
  }

  lemma OneEach(table: map<Key, Acc>, records: seq<Record>, r: Record, key: Key, c: Config)
    ensures |Emits(table, r, c)| <= 1 && |Due(records, r, c)| <= 1
    ensures !IsOrderOf(r, key, c) ==> (Emits(table, r, c) == [] || Emits(table, r, c)[0].key != key)
    ensures !IsOrderOf(r, key, c) ==> (Due(records, r, c) == [] || Due(records, r, c)[0].key != key)
  {
    hide Batch, Cents;
  }

  /** Where no drop shows in a window, the agent keeps the batch's record of it. */
  lemma {:induction false} KeyIsBatch(records: seq<Record>, dropped: nat -> set<Key>, key: Key, c: Config)
    requires Legal(records, dropped, c) && KeyHarmless(records, key, c)
    ensures Latest(RunEmits(records, dropped, c), key) == Latest(Emissions(records, c), key)
    ensures KeyAgrees(TableAfter(records, dropped, c), records, key, c)
  {
    hide Batch, Stale, Next, Emits, Due, SameAfresh, Latest, KeyAgrees;
    if records == [] {
      NothingKept(key, c);
    } else {
      var n := |records| - 1;
      var init, r := records[..n], records[n];
      assert forall i :: 0 <= i <= n ==> init[..i] == records[..i];
      KeyIsBatch(init, dropped, key, c);
      var before := TableAfter(init, dropped, c);
      var table := before - dropped(n);
      KeyDropped(before, dropped(n), init, key, c);
      KeyFollows(table, init, r, key, c);
      OneEach(table, init, r, key, c);
      LatestStep(RunEmits(init, dropped, c), Emissions(init, c), Emits(table, r, c), Due(init, r, c), key);
      assert records == init + [r];
    }
  }

  lemma NothingKept(key: Key, c: Config)
    ensures KeyAgrees(map[], [], key, c)
  {
  }

  lemma KeyDropped(table: map<Key, Acc>, dropped: set<Key>, records: seq<Record>, key: Key, c: Config)
    requires KeyAgrees(table, records, key, c) && (key in dropped ==> Stale(records, key, c))
    ensures KeyAgrees(table - dropped, records, key, c)
  {
  }

  /** After a drop that had `had` orders in it, less is kept of the window than its n orders. */
  ghost predicate Behind(emitted: seq<Emission>, table: map<Key, Acc>, key: Key, had: nat, n: nat) {
    var count := CountIn(table, key);
    && Latest(emitted, key).Some? && Latest(emitted, key).value.count == (if count > 0 then count else had)
    && had + count <= n && (count == 0 ==> key !in table)
  }

  lemma BehindStep(emitted: seq<Emission>, table: map<Key, Acc>, r: Record, key: Key, had: nat, n: nat, c: Config)
    requires Behind(emitted, table, key, had, n)
    ensures Behind(emitted + Emits(table, r, c), Next(table, r, c), key, had, if IsOrderOf(r, key, c) then n + 1 else n)
  {
    hide Latest, Cents;
    var e := Emits(table, r, c);
    LatestAppend(emitted, if e == [] then Shown(key, Acc(0, 0.0)) else e[0], key);
  }

  lemma {:induction false} StaysBehind(records: seq<Record>, i: nat, key: Key, c: Config)
    requires i < |records| && Batch(records[..i], key, c).count > 0
    requires Sum(records[..i], key, c).0 == Batch(records[..i], key, c).count
    ensures Behind(RunEmits(records, OneDrop(i, key), c), TableAfter(records, OneDrop(i, key), c), key,
                   Batch(records[..i], key, c).count, Sum(records, key, c).0)
  {
    hide Emits, Next, Latest, Batch, Sum, Agrees;
    var n := |records| - 1;
    var init, r := records[..n], records[n];
    var had := Batch(records[..i], key, c).count;
    var table := TableAfter(init, OneDrop(i, key), c) - OneDrop(i, key)(n);
    if n == i {
      BeforeDrop(init, i, key, c);
      LatestIsBatch(init, key, c);
      assert key !in table;
    } else {
      assert init[..i] == records[..i];
      StaysBehind(init, i, key, c);
      assert table == TableAfter(init, OneDrop(i, key), c);
    }
    BehindStep(RunEmits(init, OneDrop(i, key), c), table, r, key, had, Sum(init, key, c).0, c);
    assert records == init + [r];
    SumAppend(init, r, key, c);
  }

  lemma SumsAt(records: seq<Record>, i: nat, key: Key, c: Config)
    requires i <= |records| && SumsInRange(records, key, c)
    ensures SumsInRange(records[..i], key, c)
  {
    var init := records[..i];
    forall j | 0 <= j <= i ensures InRange(Sum(init[..j], key, c).1) {
      assert init[..j] == records[..j];
    }
  }

  /** A drop that shows leaves the agent with fewer orders of the window than there are. */
  lemma DropKeepsLess(records: seq<Record>, i: nat, key: Key, c: Config)
    requires SumsInRange(records, key, c)
    requires i < |records| && !SameAfresh(records[..i], records[i], c) && IsOrderOf(records[i], key, c)
    ensures var kept := Latest(RunEmits(records, OneDrop(i, key), c), key);
            kept.Some? && kept.value.count < Batch(records, key, c).count
  {
    hide RunEmits, TableAfter, Batch, Sum, Latest, SameAfresh, Cents, SumsInRange;
    var k := OrderKey(records[..i], records[i], c);
    SumsAt(records, i, key, c);
    SumsAt(records, i + 1, key, c);
    RevenueExact(records[..i], key, c);
    RevenueExact(records[..i + 1], key, c);
    RevenueExact(records, key, c);
    assert records[..i + 1] == records[..i] + [records[i]];
    SumAppend(records[..i], records[i], key, c);
    CountGrows(records, i + 1, key, c);
    StaysBehind(records, i, key, c);
  }

  /** The agent, whatever stale windows its library drops, and the topology keep the same
      record of a window: exactly when the topology takes all its orders and no order of it
      comes when it is stale, but for those that would emit the same afresh. */
  lemma SameExactly(records: seq<Record>, key: Key, c: Config)
    requires SumsInRange(records, key, c) && key.merchant != ""
    ensures (forall dropped :: Legal(records, dropped, c) ==>
               SameKept(RunEmits(records, dropped, c), StreamizEmissions(records, c), key))
       <==> TakesAll(records, key, c) && KeyHarmless(records, key, c)
  {
    hide RunEmits, Emissions, StreamizEmissions, Latest, TakesAll, SumsInRange, SameAfresh, Stale, IsOrderOf;
    SameContract(records, key, c);
    if TakesAll(records, key, c) && KeyHarmless(records, key, c) {
      forall dropped | Legal(records, dropped, c)
        ensures SameKept(RunEmits(records, dropped, c), StreamizEmissions(records, c), key)
      {
        KeyIsBatch(records, dropped, key, c);
      }
    } else if !TakesAll(records, key, c) {
      var none := OneDrop(|records|, key);
      BeforeDrop(records, |records|, key, c);
      assert Legal(records, none, c) && !SameKept(RunEmits(records, none, c), StreamizEmissions(records, c), key);
    } else {
      var i :| 0 <= i < |records| && IsOrderOf(records[i], key, c) && !SameAfresh(records[..i], records[i], c)
               && Stale(records[..i], key, c);
      DropKeepsLess(records, i, key, c);
      LatestIsBatch(records, key, c);
      assert Legal(records, OneDrop(i, key), c);
      assert !SameKept(RunEmits(records, OneDrop(i, key), c), StreamizEmissions(records, c), key);
    }
  }

  lemma {:induction false} LatestStreamiz(records: seq<Record>, key: Key, c: Config)
    requires key.merchant != ""
    ensures var acc := StreamizAcc(records, key, c);
            var latest := Latest(StreamizEmissions(records, c), key);
            latest == Some(Shown(key, acc)) || (latest == None && acc == Acc(0, 0.0))
  {
    if records != [] {
      var init, r := records[..|records| - 1], records[|records| - 1];
      LatestStreamiz(init, key, c);
      var k := Key(Rekey(r.event).0, Start(r.ms, c));
      LatestAppend(StreamizEmissions(init, c), Shown(k, StreamizAcc(records, k, c)), key);
    }
  }
}
