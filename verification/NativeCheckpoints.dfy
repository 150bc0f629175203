/**
 The checkpoint table under concurrent writers.

 Each insert runs its `BEFORE` trigger against whatever committed rows its statement
 happened to see, so two writers can both believe they extend the same head. The
 unique keys look at every row there is, committed or not.
 */
module NativeCheckpoints {
  import opened NativeIdentifiers
  import opened Options

  datatype TransactionId = Transaction(n: nat)

  datatype Row = Row(bucket: BucketId, sequence: nat, previous: Option<CheckpointId>)
  datatype Pending = Pending(owner: TransactionId, row: Row)

  type Rows = map<CheckpointId, Row>

  /** Committed rows, and the rows of transactions still open. */
  datatype Table = Table(committed: Rows, pending: map<CheckpointId, Pending>) {
    function All(): Rows {
      committed + map k | k in pending :: pending[k].row
    }

    /** The rows transaction `t` could possibly see. */
    function Visible(t: TransactionId): set<CheckpointId> {
      committed.Keys + set k | k in pending && pending[k].owner == t
    }
  }

  datatype Action =
    | Insert(writer: TransactionId, id: CheckpointId, row: Row, seen: set<CheckpointId>)
    | Commit(writer: TransactionId)
    | Abort(writer: TransactionId)

  // ----- the guards --------------------------------------------------------------------

  predicate HeadOf(rows: Rows, seen: set<CheckpointId>, b: BucketId, head: CheckpointId) {
    && head in seen && head in rows && rows[head].bucket == b
    && forall k | k in seen && k in rows :: rows[k].bucket == b ==> rows[k].sequence <= rows[head].sequence
  }

  /** `native_checkpoint_follows_predecessor`, reading only the rows in `seen`. */
  predicate ExtendsSeenChain(rows: Rows, seen: set<CheckpointId>, row: Row) {
    if forall k | k in seen && k in rows :: rows[k].bucket != row.bucket then
      row.sequence == 1 && row.previous.None?
    else
      && row.previous.Some?
      && HeadOf(rows, seen, row.bucket, row.previous.value)
      && row.sequence == rows[row.previous.value].sequence + 1
  }

  /** The CHECKs, the primary key and the two unique keys, against every row there is. */
  predicate KeysAreFree(rows: Rows, id: CheckpointId, row: Row) {
    && row.sequence >= 1
    && (row.sequence == 1) == row.previous.None?
    && id !in rows
    && (forall k | k in rows :: !(rows[k].bucket == row.bucket && rows[k].sequence == row.sequence))
    && (row.previous.Some? ==> forall k | k in rows :: rows[k].previous != row.previous)
  }

  predicate Enabled(t: Table, a: Action) {
    match a
    case Insert(w, id, row, seen) =>
      && seen <= t.Visible(w)
      && ExtendsSeenChain(t.All(), seen, row)
      && KeysAreFree(t.All(), id, row)
    case _ => true
  }

  /** A refused or still waiting insert changes nothing. */
  function Next(t: Table, a: Action): Table {
    if !Enabled(t, a) then t else
    match a
    case Insert(w, id, row, _) => t.(pending := t.pending[id := Pending(w, row)])
    case Commit(w) =>
      Table(t.committed + (map k | k in t.pending && t.pending[k].owner == w :: t.pending[k].row),
            map k | k in t.pending && t.pending[k].owner != w :: t.pending[k])
    case Abort(w) => t.(pending := map k | k in t.pending && t.pending[k].owner != w :: t.pending[k])
  }

  // ----- chains -------------------------------------------------------------------------

  ghost predicate LinkedRow(rows: Rows, k: CheckpointId)
    requires k in rows
  {
    && rows[k].sequence >= 1
    && (rows[k].sequence == 1 <==> rows[k].previous.None?)
    && (rows[k].previous.Some? ==>
          && rows[k].previous.value in rows
          && rows[rows[k].previous.value].bucket == rows[k].bucket
          && rows[rows[k].previous.value].sequence + 1 == rows[k].sequence)
  }

  ghost predicate Linked(rows: Rows) {
    forall k | k in rows :: LinkedRow(rows, k)
  }

  ghost predicate Unforked(rows: Rows) {
    forall j, k | j in rows && k in rows && j != k ::
      !(rows[j].bucket == rows[k].bucket && rows[j].sequence == rows[k].sequence)
  }

  /** Rows still pending sit at the end of their chain, behind one writer. */
  ghost predicate PendingIsTail(t: Table) {
    forall k | k in t.All() :: BehindItsWriter(t, k, t.All()[k].previous)
  }

  ghost predicate BehindItsWriter(t: Table, k: CheckpointId, previous: Option<CheckpointId>) {
    previous.Some? && previous.value in t.pending ==>
      k in t.pending && t.pending[k].owner == t.pending[previous.value].owner
  }

  ghost predicate Chained(t: Table) {
    && t.committed.Keys !! t.pending.Keys
    && Linked(t.All())
    && Unforked(t.All())
    && PendingIsTail(t)
  }

  lemma NextKeepsChained(t: Table, a: Action)
    requires Chained(t)
    ensures Chained(Next(t, a))
  {
    if Enabled(t, a) {
      match a
      case Insert(_, _, _, _) => InsertKeepsChained(t, a);
      case Commit(w) => CommitKeepsChained(t, w);
      case Abort(w) =>
        AbortKeepsChained(t, w);
    }
  }

  lemma InsertKeepsChained(t: Table, a: Action)
    requires Chained(t) && a.Insert? && Enabled(t, a)
    ensures Chained(Next(t, a))
  {
    InsertAdds(t, a.writer, a.id, a.row);
    InsertKeepsLinks(t.All(), a.seen, a.id, a.row);
    InsertKeepsTail(t, a.writer, a.id, a.row, a.seen);
  }

  lemma InsertAdds(t: Table, w: TransactionId, id: CheckpointId, row: Row)
    ensures t.(pending := t.pending[id := Pending(w, row)]).All() == t.All()[id := row]
  {
  }

  lemma InsertKeepsTail(t: Table, w: TransactionId, id: CheckpointId, row: Row, seen: set<CheckpointId>)
    requires Linked(t.All()) && PendingIsTail(t) && t.committed.Keys !! t.pending.Keys
    requires seen <= t.Visible(w) && ExtendsSeenChain(t.All(), seen, row) && id !in t.All()
    ensures PendingIsTail(t.(pending := t.pending[id := Pending(w, row)]))
  {
    var u := t.(pending := t.pending[id := Pending(w, row)]);
    InsertAdds(t, w, id, row);
    SeenChainLinks(t.All(), seen, row);
    forall k | k in u.All() ensures BehindItsWriter(u, k, u.All()[k].previous) {
      if k != id {
        assert BehindItsWriter(t, k, t.All()[k].previous) && LinkedRow(t.All(), k);
      }
    }
  }

  lemma InsertKeepsLinks(rows: Rows, seen: set<CheckpointId>, id: CheckpointId, row: Row)
    requires Linked(rows) && Unforked(rows)
    requires ExtendsSeenChain(rows, seen, row) && KeysAreFree(rows, id, row)
    ensures Linked(rows[id := row]) && Unforked(rows[id := row])
  {
    var u := rows[id := row];
    SeenChainLinks(rows, seen, row);
    forall k | k in u ensures LinkedRow(u, k) {
      assert k != id ==> LinkedRow(rows, k);
    }
    forall j, k | j in u && k in u && j != k
      ensures !(u[j].bucket == u[k].bucket && u[j].sequence == u[k].sequence)
    {
    }
  }

  /** The row the trigger admits continues a row it saw. */
  lemma SeenChainLinks(rows: Rows, seen: set<CheckpointId>, row: Row)
    requires Linked(rows) && ExtendsSeenChain(rows, seen, row)
    ensures row.previous.None? ==> row.sequence == 1
    ensures row.previous.Some? ==>
              && row.previous.value in rows && row.previous.value in seen
              && rows[row.previous.value].bucket == row.bucket
              && rows[row.previous.value].sequence + 1 == row.sequence
  {
  }

  lemma CommitKeepsRows(t: Table, w: TransactionId)
    requires t.committed.Keys !! t.pending.Keys
    ensures Next(t, Commit(w)).All() == t.All()
    ensures Next(t, Commit(w)).committed.Keys !! Next(t, Commit(w)).pending.Keys
  {
  }

  lemma CommitKeepsTail(t: Table, w: TransactionId)
    requires t.committed.Keys !! t.pending.Keys && PendingIsTail(t)
    ensures PendingIsTail(Next(t, Commit(w)))
  {
    var u := Next(t, Commit(w));
    CommitKeepsRows(t, w);
    forall k | k in u.All() ensures BehindItsWriter(u, k, u.All()[k].previous) {
      assert BehindItsWriter(t, k, t.All()[k].previous);
    }
  }

  lemma CommitKeepsChained(t: Table, w: TransactionId)
    requires Chained(t)
    ensures Chained(Next(t, Commit(w)))
  {
    CommitKeepsRows(t, w);
    CommitKeepsTail(t, w);
  }

  lemma AbortKeepsChained(t: Table, w: TransactionId)
    requires Chained(t)
    ensures Chained(Next(t, Abort(w)))
  {
    var u := Next(t, Abort(w));
    assert forall k | k in u.All() :: k in t.All() && u.All()[k] == t.All()[k];
    forall k | k in u.All() ensures LinkedRow(u.All(), k) && BehindItsWriter(u, k, u.All()[k].previous) {
      assert LinkedRow(t.All(), k) && BehindItsWriter(t, k, t.All()[k].previous);
    }
  }

  function Run(actions: seq<Action>): Table {
    if actions == [] then Table(map[], map[])
    else Next(Run(actions[..|actions| - 1]), actions[|actions| - 1])
  }

  lemma {:induction false} EveryRunIsChained(actions: seq<Action>)
    ensures Chained(Run(actions))
  {
    if actions != [] {
      EveryRunIsChained(actions[..|actions| - 1]);
      NextKeepsChained(Run(actions[..|actions| - 1]), actions[|actions| - 1]);
    }
  }

  /** The committed rows alone are a chain in every bucket. */
  lemma CommittedIsChained(t: Table)
    requires Chained(t)
    ensures Linked(t.committed) && Unforked(t.committed)
  {
    assert forall k | k in t.committed :: t.All()[k] == t.committed[k];
    forall k | k in t.committed && t.committed[k].previous.Some?
      ensures t.committed[k].previous.value in t.committed
    {
      assert k !in t.pending;
    }
  }

  /** An insert that gets through saw the real head, however stale its view could have been. */
  lemma AdmittedInsertSawTheHead(t: Table, a: Action)
    requires Chained(t) && a.Insert? && Enabled(t, a)
    ensures forall k | k in t.All() && t.All()[k].bucket == a.row.bucket :: t.All()[k].sequence < a.row.sequence
  {
    forall k | k in t.All() && t.All()[k].bucket == a.row.bucket ensures t.All()[k].sequence < a.row.sequence {
      if t.All()[k].sequence > a.row.sequence {
        var j := RowAt(t.All(), k, a.row.sequence);
      }
    }
  }

  /** Below every row of a linked table lies a row of each smaller sequence, in the same bucket. */
  lemma {:induction false} RowAt(rows: Rows, k: CheckpointId, sequence: nat) returns (j: CheckpointId)
    requires Linked(rows) && k in rows && 1 <= sequence <= rows[k].sequence
    ensures j in rows && rows[j].bucket == rows[k].bucket && rows[j].sequence == sequence
    decreases rows[k].sequence
  {
    if rows[k].sequence == sequence {
      j := k;
    } else {
      j := RowAt(rows, rows[k].previous.value, sequence);
    }
  }

  /** A row that fits behind the others stands above all of them in its bucket. */
  lemma FittingRowIsNext(rows: Rows, id: CheckpointId, row: Row, k: CheckpointId)
    requires Linked(rows) && id !in rows && Linked(rows[id := row]) && Unforked(rows[id := row])
    requires k in rows && rows[k].bucket == row.bucket
    ensures rows[k].sequence < row.sequence
  {
    var u := rows[id := row];
    assert LinkedRow(u, id) && u[id] == row;
    forall j | j in rows ensures j in u && j != id && u[j] == rows[j] {
    }
    if rows[k].sequence >= row.sequence {
      var j := RowAt(rows, k, row.sequence);
      assert false;
    }
  }

  lemma OneSuccessor(rows: Rows, j: CheckpointId, k: CheckpointId)
    requires Linked(rows) && Unforked(rows) && j in rows && k in rows && j != k && rows[k].previous.Some?
    ensures rows[j].previous != rows[k].previous
  {
    assert LinkedRow(rows, j) && LinkedRow(rows, k);
  }

  lemma FittingExtendsSeen(rows: Rows, seen: set<CheckpointId>, id: CheckpointId, row: Row)
    requires Linked(rows) && id !in rows && Linked(rows[id := row]) && Unforked(rows[id := row])
    requires seen <= rows.Keys && (row.previous.Some? ==> row.previous.value in seen)
    ensures ExtendsSeenChain(rows, seen, row) && KeysAreFree(rows, id, row)
  {
    var u := rows[id := row];
    assert LinkedRow(u, id) && u[id] == row;
    forall k | k in rows && rows[k].bucket == row.bucket ensures rows[k].sequence < row.sequence {
      FittingRowIsNext(rows, id, row, k);
    }
    forall k | k in rows ensures LinkedRow(rows, k) {
    }
    forall k | k in rows && row.previous.Some? ensures rows[k].previous != row.previous {
      assert k != id && u[k] == rows[k];
      OneSuccessor(u, k, id);
    }
  }

  /**
   An insert is admitted exactly when its writer saw the row it extends and the table it
   leaves is linked and unforked, whatever else the statement saw or missed.
   */
  lemma InsertIsEnabledIff(t: Table, a: Action)
    requires Chained(t) && a.Insert?
    ensures Enabled(t, a) <==>
              && (forall k | k in a.seen :: k in t.committed || (k in t.pending && t.pending[k].owner == a.writer))
              && a.id !in t.committed && a.id !in t.pending
              && (a.row.previous.Some? ==> a.row.previous.value in a.seen)
              && Linked(t.All()[a.id := a.row]) && Unforked(t.All()[a.id := a.row])
  {
    assert t.All().Keys == t.committed.Keys + t.pending.Keys;
    if Enabled(t, a) {
      InsertKeepsLinks(t.All(), a.seen, a.id, a.row);
      SeenChainLinks(t.All(), a.seen, a.row);
    } else if a.seen <= t.Visible(a.writer) && a.id !in t.All() && (a.row.previous.Some? ==> a.row.previous.value in a.seen)
              && Linked(t.All()[a.id := a.row]) && Unforked(t.All()[a.id := a.row]) {
      FittingExtendsSeen(t.All(), a.seen, a.id, a.row);
      assert false;
    }
  }

  /** The trigger by itself would let two writers fork: both read the empty table. */
  lemma TheTriggerAloneForks() returns (t: Table, id: CheckpointId, row: Row)
    ensures Chained(t) && id !in t.All()
    ensures ExtendsSeenChain(t.All(), {}, row) && !Unforked(t.All()[id := row])
  {
    id, row := Checkpoint(1), Row(Bucket(0), 1, None);
    t := Table(map[Checkpoint(0) := row], map[]);
    var rows := t.All()[id := row];
    assert Checkpoint(0) in rows && id in rows && rows[Checkpoint(0)] == rows[id];
  }

  // ----- the chain of one bucket ----------------------------------------------------------

  function InBucket(rows: Rows, b: BucketId, upTo: nat): set<CheckpointId> {
    set k | k in rows && rows[k].bucket == b && rows[k].sequence <= upTo
  }

  predicate HasSequence(rows: Rows, b: BucketId, n: nat) {
    exists k | k in rows :: rows[k].bucket == b && rows[k].sequence == n
  }

  lemma {:induction false} SequencesCount(rows: Rows, b: BucketId, head: CheckpointId, n: nat)
    requires Linked(rows) && Unforked(rows) && head in rows && rows[head].bucket == b && n <= rows[head].sequence
    ensures |InBucket(rows, b, n)| == n
  {
    if n == 0 {
      assert InBucket(rows, b, 0) == {};
    } else {
      SequencesCount(rows, b, head, n - 1);
      var k := RowAt(rows, head, n);
      assert InBucket(rows, b, n) == InBucket(rows, b, n - 1) + {k};
    }
  }

  /** A bucket with a head at sequence `n` holds exactly `n` rows, one for each of 1..n. */
  lemma BucketIsNumbered(rows: Rows, b: BucketId, head: CheckpointId)
    requires Linked(rows) && Unforked(rows) && HeadOf(rows, rows.Keys, b, head)
    ensures |set k | k in rows && rows[k].bucket == b| == rows[head].sequence
    ensures forall n: nat :: HasSequence(rows, b, n) <==> 1 <= n <= rows[head].sequence
  {
    SequencesCount(rows, b, head, rows[head].sequence);
    assert (set k | k in rows && rows[k].bucket == b) == InBucket(rows, b, rows[head].sequence);
    forall n: nat ensures HasSequence(rows, b, n) <==> 1 <= n <= rows[head].sequence {
      if 1 <= n <= rows[head].sequence {
        var k := RowAt(rows, head, n);
      }
    }
  }

  /** The rows met walking back from `k`, `k` first. */
  ghost function Walk(rows: Rows, k: CheckpointId): (walk: seq<CheckpointId>)
    requires Linked(rows) && k in rows
    ensures |walk| > 0
    decreases rows[k].sequence
  {
    [k] + if rows[k].previous.None? then [] else Walk(rows, rows[k].previous.value)
  }

  /** Walking back from sequence `n` takes `n` rows, down through every number to the first. */
  lemma {:induction false} WalkVisitsEverySequence(rows: Rows, k: CheckpointId)
    requires Linked(rows) && k in rows
    ensures |Walk(rows, k)| == rows[k].sequence
    ensures forall i | 0 <= i < |Walk(rows, k)| ::
              && Walk(rows, k)[i] in rows
              && rows[Walk(rows, k)[i]].bucket == rows[k].bucket
              && rows[Walk(rows, k)[i]].sequence == rows[k].sequence - i
    decreases rows[k].sequence
  {
    if rows[k].previous.Some? {
      WalkVisitsEverySequence(rows, rows[k].previous.value);
    }
  }

  /**
   Whatever the interleaving and however stale each writer's view: in every bucket
   the committed checkpoints are numbered 1..n, and walking back from the head
   passes through all of them.
   */
  lemma EveryBucketIsOneChain(actions: seq<Action>, b: BucketId, head: CheckpointId)
    requires HeadOf(Run(actions).committed, Run(actions).committed.Keys, b, head)
    ensures var rows := Run(actions).committed;
            && Linked(rows) && Unforked(rows)
            && |set k | k in rows && rows[k].bucket == b| == rows[head].sequence == |Walk(rows, head)|
            && forall k | k in rows && rows[k].bucket == b :: k in Walk(rows, head)
  {
    var rows := Run(actions).committed;
    EveryRunIsChained(actions);
    CommittedIsChained(Run(actions));
    BucketIsNumbered(rows, b, head);
    WalkVisitsEverySequence(rows, head);
    forall k | k in rows && rows[k].bucket == b ensures k in Walk(rows, head) {
      assert rows[Walk(rows, head)[rows[head].sequence - rows[k].sequence]].sequence == rows[k].sequence;
    }
  }

  // ----- the table itself --------------------------------------------------------------------

  class CheckpointTable {
    var committed: Rows
    var pending: map<CheckpointId, Pending>

    function Contents(): Table
      reads this
    {
      Table(committed, pending)
    }

    constructor ()
      ensures Contents() == Table(map[], map[]) && Chained(Contents())
    {
      committed, pending := map[], map[];
    }

    /** One INSERT whose trigger saw the rows in `seen`. */
    method Append(writer: TransactionId, id: CheckpointId, row: Row, seen: set<CheckpointId>) returns (ok: bool)
      requires Chained(Contents()) && seen <= Contents().Visible(writer)
      modifies this`pending
      ensures Chained(Contents())
      ensures ok == Enabled(old(Contents()), Insert(writer, id, row, seen))
      ensures Contents() == Next(old(Contents()), Insert(writer, id, row, seen))
      ensures ok ==> forall k | k in old(Contents()).All() && old(Contents()).All()[k].bucket == row.bucket ::
                       old(Contents()).All()[k].sequence < row.sequence
    {
      NextKeepsChained(Contents(), Insert(writer, id, row, seen));
      ok := ExtendsSeenChain(Contents().All(), seen, row) && KeysAreFree(Contents().All(), id, row);
      if ok {
        AdmittedInsertSawTheHead(Contents(), Insert(writer, id, row, seen));
        pending := pending[id := Pending(writer, row)];
      }
    }

    method CommitWriter(writer: TransactionId)
      requires Chained(Contents())
      modifies this
      ensures Chained(Contents())
      ensures Contents() == Next(old(Contents()), Commit(writer))
    {
      CommitKeepsChained(Contents(), writer);
      committed := committed + map k | k in pending && pending[k].owner == writer :: pending[k].row;
      pending := map k | k in pending && pending[k].owner != writer :: pending[k];
    }

    method AbortWriter(writer: TransactionId)
      requires Chained(Contents())
      modifies this`pending
      ensures Chained(Contents())
      ensures Contents() == Next(old(Contents()), Abort(writer))
    {
      AbortKeepsChained(Contents(), writer);
      assert Next(Contents(), Abort(writer)).committed == committed;
      pending := map k | k in pending && pending[k].owner != writer :: pending[k];
    }
  }
}
