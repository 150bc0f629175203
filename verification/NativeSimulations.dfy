/**
 Watcher simulations: an append-only closed state machine numbered by its rows, and
 the one receipt that may close each simulation.
 */
module NativeSimulations {
  import opened NativeIdentifiers
  import opened Options

  datatype SimulationId = Simulation(n: nat)
  datatype ReceiptId = Receipt(n: nat)
  datatype State = Pending | Simulating | Complete | Failed

  datatype Key = Key(simulation: SimulationId, sequence: nat)
  datatype Row = Row(bucket: BucketId, state: State)
  datatype ReceiptRow = ReceiptRow(key: Key, checkpoint: CheckpointId, terminal: State)

  datatype Tables = Tables(
    rows: map<Key, Row>,
    receipts: map<ReceiptId, ReceiptRow>,
    checkpoints: map<CheckpointId, BucketId>)

  /** All three tables refuse UPDATE and DELETE. */
  datatype Step =
    | InsertRow(key: Key, row: Row)
    | InsertReceipt(receipt: ReceiptId, receiptRow: ReceiptRow)
    | InsertCheckpoint(checkpoint: CheckpointId, bucket: BucketId)

  // ----- guards ---------------------------------------------------------------------------------

  predicate Begun(rows: map<Key, Row>, s: SimulationId) {
    exists k | k in rows :: k.simulation == s
  }

  /** `k` carries the highest sequence of its simulation. */
  predicate IsHead(rows: map<Key, Row>, k: Key) {
    k in rows && forall l | l in rows && l.simulation == k.simulation :: l.sequence <= k.sequence
  }

  predicate Permitted(was: State, state: State) {
    (was.Pending? && state.Simulating?) || (was.Simulating? && IsTerminal(state))
  }

  predicate IsTerminal(s: State) {
    s.Complete? || s.Failed?
  }

  /** `native_simulation_follows_closed_state_machine`, with the CHECK and the primary key. */
  predicate RowFollows(rows: map<Key, Row>, k: Key, row: Row) {
    && k !in rows && k.sequence >= 1
    && if !Begun(rows, k.simulation) then k.sequence == 1 && row.state.Pending?
       else
         var prior := Key(k.simulation, k.sequence - 1);
         IsHead(rows, prior) && Permitted(rows[prior].state, row.state)
  }

  /** `native_simulation_receipt_is_consistent`, with the CHECK and the keys. */
  predicate ReceiptIsExact(t: Tables, row: ReceiptRow) {
    && IsTerminal(row.terminal)
    && row.key in t.rows && t.rows[row.key].state == row.terminal
    && row.checkpoint in t.checkpoints && t.checkpoints[row.checkpoint] == t.rows[row.key].bucket
  }

  predicate Admits(t: Tables, s: Step) {
    match s
    case InsertRow(k, row) => RowFollows(t.rows, k, row)
    case InsertReceipt(r, row) =>
      && r !in t.receipts && ReceiptIsExact(t, row)
      && forall q | q in t.receipts :: t.receipts[q].key.simulation != row.key.simulation
    case InsertCheckpoint(c, _) => c !in t.checkpoints
  }

  /** The tables with the statement's row written, whatever the triggers say. */
  function Written(t: Tables, s: Step): Tables {
    match s
    case InsertRow(k, row) => t.(rows := t.rows[k := row])
    case InsertReceipt(r, row) => t.(receipts := t.receipts[r := row])
    case InsertCheckpoint(c, b) => t.(checkpoints := t.checkpoints[c := b])
  }

  function Effect(t: Tables, s: Step): Tables
    requires Admits(t, s)
  {
    Written(t, s)
  }

  function Run(t: Tables, steps: seq<Step>): Tables {
    if steps == [] then t
    else
      var u := Run(t, steps[..|steps| - 1]);
      if Admits(u, steps[|steps| - 1]) then Effect(u, steps[|steps| - 1]) else u
  }

  const EMPTY := Tables(map[], map[], map[])

  // ----- every simulation is a prefix of the three states ---------------------------------------------

  predicate StateAt(sequence: nat, s: State) {
    match sequence
    case 1 => s == Pending
    case 2 => s == Simulating
    case 3 => s == Complete || s == Failed
    case _ => false
  }

  ghost predicate RowsSound(rows: map<Key, Row>) {
    forall k | k in rows ::
      StateAt(k.sequence, rows[k].state) && (k.sequence > 1 ==> Key(k.simulation, k.sequence - 1) in rows)
  }

  /** A receipt names a terminal row, repeats its state, and its checkpoint lies in the row's bucket. */
  ghost predicate ReceiptAgrees(t: Tables, row: ReceiptRow) {
    && row.key in t.rows && row.checkpoint in t.checkpoints
    && t.rows[row.key] == Row(t.checkpoints[row.checkpoint], row.terminal)
    && row.terminal in {Complete, Failed}
  }

  ghost predicate ReceiptsSound(t: Tables) {
    && (forall r | r in t.receipts :: ReceiptAgrees(t, t.receipts[r]))
    && (forall r, q | r in t.receipts && q in t.receipts && r != q ::
          t.receipts[r].key.simulation != t.receipts[q].key.simulation)
  }

  ghost predicate Sound(t: Tables) {
    RowsSound(t.rows) && ReceiptsSound(t)
  }

  ghost predicate Grows(t: Tables, u: Tables) {
    && (forall k | k in t.rows :: k in u.rows && u.rows[k] == t.rows[k])
    && (forall r | r in t.receipts :: r in u.receipts && u.receipts[r] == t.receipts[r])
    && (forall c | c in t.checkpoints :: c in u.checkpoints && u.checkpoints[c] == t.checkpoints[c])
  }

  lemma StepKeepsSound(t: Tables, s: Step)
    requires Sound(t) && Admits(t, s)
    ensures Sound(Effect(t, s)) && Grows(t, Effect(t, s))
  {
    if s.InsertRow? {
      RowKeepsStates(t.rows, s.key, s.row);
    }
    StepKeepsReceipts(t, s);
  }

  lemma RowKeepsStates(rows: map<Key, Row>, k: Key, row: Row)
    requires RowsSound(rows) && RowFollows(rows, k, row)
    ensures RowsSound(rows[k := row])
  {
    if Begun(rows, k.simulation) {
      var prior := Key(k.simulation, k.sequence - 1);
      assert StateAt(prior.sequence, rows[prior].state);
    }
  }

  lemma StepKeepsReceipts(t: Tables, s: Step)
    requires ReceiptsSound(t) && Admits(t, s)
    ensures ReceiptsSound(Effect(t, s)) && Grows(t, Effect(t, s))
  {
    var u := Effect(t, s);
    forall r | r in u.receipts ensures ReceiptAgrees(u, u.receipts[r]) {
      assert r in t.receipts ==> ReceiptAgrees(t, t.receipts[r]);
    }
  }

  /** An INSERT finds its key unused. */
  predicate Finds(t: Tables, s: Step) {
    match s
    case InsertRow(k, _) => k !in t.rows
    case InsertReceipt(r, _) => r !in t.receipts
    case InsertCheckpoint(c, _) => c !in t.checkpoints
  }

  /** The guards let through exactly the inserts after which the state machine and its receipts are sound. */
  lemma AcceptedIff(t: Tables, s: Step)
    requires Sound(t)
    ensures Admits(t, s) <==> Finds(t, s) && Sound(Written(t, s))
  {
    var u := Written(t, s);
    if Admits(t, s) {
      StepKeepsSound(t, s);
    } else if Finds(t, s) && Sound(u) {
      match s
      case InsertRow(k, row) => RowIsNext(t.rows, k, row);
      case InsertReceipt(r, row) =>
        assert ReceiptAgrees(u, u.receipts[r]);
        forall q | q in t.receipts ensures t.receipts[q].key.simulation != row.key.simulation {
          assert u.receipts[q] == t.receipts[q] && u.receipts[r] == row;
        }
      case InsertCheckpoint(_, _) =>
    }
  }

  lemma RowIsNext(rows: map<Key, Row>, k: Key, row: Row)
    requires RowsSound(rows) && k !in rows && RowsSound(rows[k := row])
    ensures RowFollows(rows, k, row)
  {
    var after := rows[k := row];
    assert StateAt(k.sequence, after[k].state);
    forall l | l in rows && l.simulation == k.simulation ensures 1 <= l.sequence < k.sequence {
      assert StateAt(l.sequence, rows[l].state);
      if l.sequence >= k.sequence {
        SequencesBelow(rows, l, k.sequence);
        assert false;
      }
    }
    assert after[k] == row && (k.sequence > 1 ==> Key(k.simulation, k.sequence - 1) in rows);
    if Begun(rows, k.simulation) {
      assert StateAt(k.sequence - 1, rows[Key(k.simulation, k.sequence - 1)].state);
    }
  }

  /** A simulation holds every sequence below one it holds. */
  lemma {:induction false} SequencesBelow(rows: map<Key, Row>, k: Key, n: nat)
    requires RowsSound(rows) && k in rows && 1 <= n <= k.sequence
    ensures Key(k.simulation, n) in rows
    decreases k.sequence - n
  {
    if n < k.sequence {
      SequencesBelow(rows, k, n + 1);
      assert Key(k.simulation, n + 1) in rows;
    }
  }

  lemma {:induction false} RunKeepsSound(t: Tables, steps: seq<Step>)
    requires Sound(t)
    ensures Sound(Run(t, steps)) && Grows(t, Run(t, steps))
  {
    if steps != [] {
      var u := Run(t, steps[..|steps| - 1]);
      RunKeepsSound(t, steps[..|steps| - 1]);
      if Admits(u, steps[|steps| - 1]) {
        StepKeepsSound(u, steps[|steps| - 1]);
      }
    }
  }

  /**
   A receipt is final: its simulation has exactly the rows 1, 2 and 3, it names the third
   and its state, and nothing that runs later changes them or adds a row or a receipt.
   */
  lemma ReceiptsAreFinal(before: seq<Step>, after: seq<Step>, r: ReceiptId)
    requires r in Run(EMPTY, before).receipts
    ensures var t := Run(EMPTY, before);
            var u := Run(t, after);
            && r in u.receipts && u.receipts[r] == t.receipts[r] && ReceiptAgrees(u, u.receipts[r])
            && var s := u.receipts[r].key.simulation;
            && u.receipts[r].key == Key(s, 3)
            && (forall n: nat :: Key(s, n) in u.rows <==> 1 <= n <= 3)
            && (forall n: nat, row :: !Admits(u, InsertRow(Key(s, n), row)))
            && (forall q, n: nat, c, state :: !Admits(u, InsertReceipt(q, ReceiptRow(Key(s, n), c, state))))
  {
    RunKeepsSound(EMPTY, before);
    var t := Run(EMPTY, before);
    RunKeepsSound(t, after);
    ThreeRows(Run(t, after), r);
  }

  lemma ThreeRows(u: Tables, r: ReceiptId)
    requires Sound(u) && r in u.receipts
    ensures var s := u.receipts[r].key.simulation;
            && u.receipts[r].key == Key(s, 3)
            && (forall n: nat :: Key(s, n) in u.rows <==> 1 <= n <= 3)
            && (forall n: nat, row :: !Admits(u, InsertRow(Key(s, n), row)))
  {
    var s := u.receipts[r].key.simulation;
    assert ReceiptAgrees(u, u.receipts[r]);
    var third := Key(s, 3);
    assert u.receipts[r].key == third && third in u.rows;
    assert Key(s, 3 - 1) in u.rows && Key(s, 2 - 1) in u.rows;
    forall n: nat ensures Key(s, n) in u.rows <==> 1 <= n <= 3 {
      assert Key(s, n) in u.rows ==> StateAt(n, u.rows[Key(s, n)].state);
    }
    forall n: nat, row ensures !Admits(u, InsertRow(Key(s, n), row)) {
      assert Begun(u.rows, s);
      assert n > 1 && IsHead(u.rows, Key(s, n - 1)) ==> n - 1 == 3;
    }
  }

  // ----- one bucket a simulation ------------------------------------------------------------------------

  predicate OneBucket(rows: map<Key, Row>, s: SimulationId) {
    forall k, l | k in rows && l in rows && k.simulation == s && l.simulation == s ::
      rows[k].bucket == rows[l].bucket
  }

  /** A row of `s` after the first names the bucket of the row before it, which no check asks. */
  predicate StaysPut(rows: map<Key, Row>, k: Key, row: Row, s: SimulationId) {
    k.simulation == s && k.sequence > 1 ==>
      Key(s, k.sequence - 1) in rows && rows[Key(s, k.sequence - 1)].bucket == row.bucket
  }

  /** Every row of `s` that the run inserts stays put. */
  ghost predicate Steady(t: Tables, steps: seq<Step>, s: SimulationId) {
    steps != [] ==>
      var before, last := steps[..|steps| - 1], steps[|steps| - 1];
      && Steady(t, before, s)
      && (last.InsertRow? && Admits(Run(t, before), last) ==> StaysPut(Run(t, before).rows, last.key, last.row, s))
  }

  /** The rows of one simulation name one bucket exactly as long as each new one stays put. */
  lemma RowKeepsBucketIff(rows: map<Key, Row>, k: Key, row: Row, s: SimulationId)
    requires RowsSound(rows) && RowFollows(rows, k, row)
    ensures OneBucket(rows[k := row], s) <==> OneBucket(rows, s) && StaysPut(rows, k, row, s)
  {
    var after := rows[k := row];
    if OneBucket(after, s) {
      forall l | l in rows ensures l in after && after[l] == rows[l] {}
    }
    if k.simulation == s && OneBucket(rows, s) && StaysPut(rows, k, row, s) {
      if !Begun(rows, s) {
        assert forall l | l in after && l.simulation == s :: l == k;
      } else {
        var prior := Key(s, k.sequence - 1);
        assert IsHead(rows, prior) && StateAt(prior.sequence, rows[prior].state);
        assert forall l | l in after && l.simulation == s :: after[l].bucket == rows[prior].bucket;
      }
    }
  }

  /** A simulation keeps one bucket over a run exactly when it had one and every row inserted stays put. */
  lemma {:induction false} RunKeepsBucketIff(t: Tables, steps: seq<Step>, s: SimulationId)
    requires Sound(t)
    ensures OneBucket(Run(t, steps).rows, s) <==> OneBucket(t.rows, s) && Steady(t, steps, s)
  {
    if steps != [] {
      var before, last := steps[..|steps| - 1], steps[|steps| - 1];
      RunKeepsBucketIff(t, before, s);
      RunKeepsSound(t, before);
      if last.InsertRow? && Admits(Run(t, before), last) {
        RowKeepsBucketIff(Run(t, before).rows, last.key, last.row, s);
      }
    }
  }

  /**
   A receipt's checkpoint lies in the bucket of its simulation's third row, and in that of
   all three rows exactly when rows 2 and 3 stayed put as the run inserted them.
   */
  lemma ReceiptsBucketIff(steps: seq<Step>, r: ReceiptId)
    requires r in Run(EMPTY, steps).receipts
    ensures var t := Run(EMPTY, steps);
            var s, c := t.receipts[r].key.simulation, t.receipts[r].checkpoint;
            && c in t.checkpoints && (forall n | 1 <= n <= 3 :: Key(s, n) in t.rows)
            && t.checkpoints[c] == t.rows[Key(s, 3)].bucket
            && ((forall n | 1 <= n <= 3 :: t.rows[Key(s, n)].bucket == t.checkpoints[c]) <==> Steady(EMPTY, steps, s))
  {
    var t := Run(EMPTY, steps);
    var s := t.receipts[r].key.simulation;
    RunKeepsSound(EMPTY, steps);
    RunKeepsBucketIff(EMPTY, steps, s);
    ThreeRows(t, r);
    assert ReceiptAgrees(t, t.receipts[r]);
    forall k | k in t.rows && k.simulation == s ensures 1 <= k.sequence <= 3 && k == Key(s, k.sequence) {}
    assert Key(s, 1) in t.rows && Key(s, 2) in t.rows && Key(s, 3) in t.rows;
    if forall n | 1 <= n <= 3 :: t.rows[Key(s, n)].bucket == t.rows[Key(s, 3)].bucket {
      assert OneBucket(t.rows, s);
    }
  }

  /** A simulation's three rows, then a checkpoint in the bucket of the third and the receipt over both. */
  function Wander(s: SimulationId, buckets: seq<BucketId>, terminal: State, c: CheckpointId, r: ReceiptId): seq<Step>
    requires |buckets| == 3
  {
    [InsertRow(Key(s, 1), Row(buckets[0], Pending)),
     InsertRow(Key(s, 2), Row(buckets[1], Simulating)),
     InsertRow(Key(s, 3), Row(buckets[2], terminal)),
     InsertCheckpoint(c, buckets[2]),
     InsertReceipt(r, ReceiptRow(Key(s, 3), c, terminal))]
  }

  lemma RunAppends(steps: seq<Step>, s: Step)
    requires Admits(Run(EMPTY, steps), s)
    ensures Run(EMPTY, steps + [s]) == Effect(Run(EMPTY, steps), s)
  {
    assert (steps + [s])[..|steps|] == steps;
  }

  lemma NextRowFollows(rows: map<Key, Row>, k: Key, row: Row, next: Row)
    requires RowsSound(rows) && RowFollows(rows, k, row) && Permitted(row.state, next.state)
    ensures RowFollows(rows[k := row], Key(k.simulation, k.sequence + 1), next)
  {
    RowKeepsStates(rows, k, row);
    var after := rows[k := row];
    assert k in after && StateAt(k.sequence, row.state);
    if Begun(rows, k.simulation) {
      assert IsHead(rows, Key(k.simulation, k.sequence - 1));
    }
    assert IsHead(after, k) && Begun(after, k.simulation);
  }

  lemma ThreeRowsFollow(rows: map<Key, Row>, s: SimulationId, buckets: seq<BucketId>, terminal: State)
    requires RowsSound(rows) && !Begun(rows, s) && |buckets| == 3 && terminal in {Complete, Failed}
    ensures var first, second, third := Row(buckets[0], Pending), Row(buckets[1], Simulating), Row(buckets[2], terminal);
            && RowFollows(rows, Key(s, 1), first)
            && RowFollows(rows[Key(s, 1) := first], Key(s, 2), second)
            && RowFollows(rows[Key(s, 1) := first][Key(s, 2) := second], Key(s, 3), third)
  {
    var first, second, third := Row(buckets[0], Pending), Row(buckets[1], Simulating), Row(buckets[2], terminal);
    assert RowFollows(rows, Key(s, 1), first);
    NextRowFollows(rows, Key(s, 1), first, second);
    RowKeepsStates(rows, Key(s, 1), first);
    NextRowFollows(rows[Key(s, 1) := first], Key(s, 2), second, third);
  }

  function WanderedRows(rows: map<Key, Row>, s: SimulationId, buckets: seq<BucketId>, terminal: State): map<Key, Row>
    requires |buckets| == 3
  {
    rows[Key(s, 1) := Row(buckets[0], Pending)]
        [Key(s, 2) := Row(buckets[1], Simulating)]
        [Key(s, 3) := Row(buckets[2], terminal)]
  }

  lemma RowsWander(steps: seq<Step>, s: SimulationId, buckets: seq<BucketId>, terminal: State)
    requires |buckets| == 3 && terminal in {Complete, Failed} && !Begun(Run(EMPTY, steps).rows, s)
    ensures var w := Wander(s, buckets, terminal, Checkpoint(0), Receipt(0));
            Run(EMPTY, steps + [w[0]] + [w[1]] + [w[2]])
            == Run(EMPTY, steps).(rows := WanderedRows(Run(EMPTY, steps).rows, s, buckets, terminal))
  {
    var w := Wander(s, buckets, terminal, Checkpoint(0), Receipt(0));
    RunKeepsSound(EMPTY, steps);
    ThreeRowsFollow(Run(EMPTY, steps).rows, s, buckets, terminal);
    RunAppends(steps, w[0]);
    RunAppends(steps + [w[0]], w[1]);
    RunAppends(steps + [w[0]] + [w[1]], w[2]);
  }

  lemma ThirdRowIsReceipted(steps: seq<Step>, row: ReceiptRow, r: ReceiptId, b: BucketId)
    requires var t := Run(EMPTY, steps);
             && row.key in t.rows && t.rows[row.key] == Row(b, row.terminal) && row.terminal in {Complete, Failed}
             && row.checkpoint !in t.checkpoints && r !in t.receipts
             && forall q | q in t.receipts :: t.receipts[q].key.simulation != row.key.simulation
    ensures var t := Run(EMPTY, steps);
            Run(EMPTY, steps + [InsertCheckpoint(row.checkpoint, b)] + [InsertReceipt(r, row)])
            == t.(receipts := t.receipts[r := row], checkpoints := t.checkpoints[row.checkpoint := b])
  {
    RunAppends(steps, InsertCheckpoint(row.checkpoint, b));
    RunAppends(steps + [InsertCheckpoint(row.checkpoint, b)], InsertReceipt(r, row));
  }

  /** From wherever a run has led, a fresh simulation can pass through any three buckets and be receipted. */
  lemma AnyThreeBucketsAreReceipted(
      steps: seq<Step>, s: SimulationId, buckets: seq<BucketId>, terminal: State, c: CheckpointId, r: ReceiptId)
    requires |buckets| == 3 && terminal in {Complete, Failed}
    requires !Begun(Run(EMPTY, steps).rows, s)
    requires c !in Run(EMPTY, steps).checkpoints && r !in Run(EMPTY, steps).receipts
    ensures var t := Run(EMPTY, steps);
            Run(EMPTY, steps + Wander(s, buckets, terminal, c, r))
            == Tables(WanderedRows(t.rows, s, buckets, terminal), t.receipts[r := ReceiptRow(Key(s, 3), c, terminal)],
                      t.checkpoints[c := buckets[2]])
  {
    var t, w := Run(EMPTY, steps), Wander(s, buckets, terminal, c, r);
    RunKeepsSound(EMPTY, steps);
    FreshSimulationHasNoReceipt(t, s);
    RowsWander(steps, s, buckets, terminal);
    var rows := steps + [w[0]] + [w[1]] + [w[2]];
    ThirdRowIsReceipted(rows, ReceiptRow(Key(s, 3), c, terminal), r, buckets[2]);
    assert steps + w == rows + [w[3]] + [w[4]];
  }

  lemma FreshSimulationHasNoReceipt(t: Tables, s: SimulationId)
    requires ReceiptsSound(t) && !Begun(t.rows, s)
    ensures forall q | q in t.receipts :: t.receipts[q].key.simulation != s
  {
    forall q | q in t.receipts ensures t.receipts[q].key.simulation != s {
      assert ReceiptAgrees(t, t.receipts[q]);
    }
  }

  // ----- the tables themselves ------------------------------------------------------------------------------

  class SimulationTables {
    var rows: map<Key, Row>
    var receipts: map<ReceiptId, ReceiptRow>
    var checkpoints: map<CheckpointId, BucketId>
    ghost var steps: seq<Step>

    function Contents(): Tables
      reads this
    {
      Tables(rows, receipts, checkpoints)
    }

    ghost predicate Valid()
      reads this
    {
      Contents() == Run(EMPTY, steps)
    }

    constructor ()
      ensures Valid() && steps == []
    {
      rows, receipts, checkpoints, steps := map[], map[], map[], [];
    }

    method Execute(s: Step) returns (ok: bool)
      requires Valid()
      modifies this
      ensures Valid() && steps == old(steps) + [s] && Sound(Contents())
      ensures ok == Admits(old(Contents()), s)
      ensures Contents() == if ok then Effect(old(Contents()), s) else old(Contents())
    {
      assert (steps + [s])[..|steps|] == steps;
      ok := Admits(Contents(), s);
      if ok {
        match s
        case InsertRow(k, row) => rows := rows[k := row];
        case InsertReceipt(r, row) => receipts := receipts[r := row];
        case InsertCheckpoint(c, b) => checkpoints := checkpoints[c := b];
      }
      steps := steps + [s];
      RunKeepsSound(EMPTY, steps);
    }
  }
}
