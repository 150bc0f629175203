/**
 Sealed bucket selections: the canonical text of a set of bucket identifiers, the
 digest a configuration revision carries, and the commit-time recheck that keeps
 the selection as it was first committed.
 */
module NativeSelection {
  import NativeIdentifiers
  import opened Options

  /** SHA-256 is taken to be injective, so a digest is known by the text it was taken of. */
  datatype Digest = Sha256(text: string)

  type BucketId = string

  /** Bucket identifiers are letters, digits and underscores; all that matters is that none holds a newline. */
  predicate OneLine(s: string) {
    '\n' !in s
  }

  // ----- the canonical text -------------------------------------------------------------------

  /** `COLLATE "C"`: compare code by code, a proper prefix first. */
  predicate AtMost(a: string, b: string) {
    a == [] || (b != [] && (a[0] < b[0] || (a[0] == b[0] && AtMost(a[1..], b[1..]))))
  }

  lemma {:induction false} AtMostTotal(a: string, b: string)
    ensures AtMost(a, b) || AtMost(b, a)
  {
    if a != [] && b != [] && a[0] == b[0] {
      AtMostTotal(a[1..], b[1..]);
    }
  }

  lemma {:induction false} AtMostAntisymmetric(a: string, b: string)
    requires AtMost(a, b) && AtMost(b, a)
    ensures a == b
  {
    if a != [] && b != [] {
      AtMostAntisymmetric(a[1..], b[1..]);
      assert a == [a[0]] + a[1..] && b == [b[0]] + b[1..];
    }
  }

  lemma {:induction false} AtMostTransitive(a: string, b: string, c: string)
    requires AtMost(a, b) && AtMost(b, c)
    ensures AtMost(a, c)
  {
    if a != [] && a[0] == b[0] && b[0] == c[0] {
      AtMostTransitive(a[1..], b[1..], c[1..]);
    }
  }

  predicate IsLeast(m: string, s: set<string>) {
    m in s && forall x | x in s :: AtMost(m, x)
  }

  lemma {:induction false} LeastExists(s: set<string>)
    requires s != {}
    ensures exists m :: IsLeast(m, s)
    decreases |s|
  {
    var m :| m in s;
    AtMostTotal(m, m);
    if s == {m} {
      assert IsLeast(m, s);
    } else {
      LeastExists(s - {m});
      var rest :| IsLeast(rest, s - {m});
      AtMostTotal(m, rest);
      if AtMost(rest, m) {
        assert IsLeast(rest, s);
      } else {
        forall x | x in s ensures AtMost(m, x) {
          if x != m {
            AtMostTransitive(m, rest, x);
          }
        }
        assert IsLeast(m, s);
      }
    }
  }

  lemma LeastIsUnique(s: set<string>)
    ensures forall x, y | IsLeast(x, s) && IsLeast(y, s) :: x == y
  {
    forall x, y | IsLeast(x, s) && IsLeast(y, s) ensures x == y {
      AtMostAntisymmetric(x, y);
    }
  }

  function Least(s: set<string>): (m: string)
    requires s != {}
    ensures IsLeast(m, s)
  {
    LeastExists(s);
    LeastIsUnique(s);
    var m :| m in s && IsLeast(m, s);
    m
  }

  /** The identifiers in order, each once. */
  function Sorted(s: set<string>): (r: seq<string>)
    ensures |r| == |s|
    ensures forall x :: x in r <==> x in s
    decreases |s|
  {
    if s == {} then []
    else
      var m := Least(s);
      [m] + Sorted(s - {m})
  }

  /** `string_agg(..., E'\n')`. */
  function Join(lines: seq<string>): string {
    if lines == [] then []
    else if |lines| == 1 then lines[0]
    else lines[0] + ['\n'] + Join(lines[1..])
  }

  /** The text up to the first newline, and what follows it. */
  function FirstLine(text: string): (r: (string, Option<string>))
    ensures OneLine(r.0)
    ensures text == r.0 + (if r.1.None? then [] else ['\n'] + r.1.value)
    ensures r.1.Some? ==> |r.1.value| < |text|
  {
    if text == [] then ([], None)
    else if text[0] == '\n' then ([], Some(text[1..]))
    else
      var (line, rest) := FirstLine(text[1..]);
      ([text[0]] + line, rest)
  }

  /** The inverse of joining. */
  function Split(text: string): seq<string>
    decreases |text|
  {
    var (line, rest) := FirstLine(text);
    if rest.None? then [line] else [line] + Split(rest.value)
  }

  lemma {:induction false} FirstLineOf(line: string, rest: Option<string>)
    requires OneLine(line)
    ensures FirstLine(line + (if rest.None? then [] else ['\n'] + rest.value)) == (line, rest)
  {
    var tail := if rest.None? then [] else ['\n'] + rest.value;
    if line == [] {
      assert line + tail == tail;
      assert rest.Some? ==> tail[1..] == rest.value;
    } else {
      FirstLineOf(line[1..], rest);
      assert (line + tail)[0] == line[0] && (line + tail)[1..] == line[1..] + tail;
      assert FirstLine(line + tail) == ([line[0]] + line[1..], rest);
      assert line == [line[0]] + line[1..];
    }
  }

  lemma {:induction false} SplitUndoesJoin(lines: seq<string>)
    requires lines != [] && forall l | l in lines :: OneLine(l)
    ensures Split(Join(lines)) == lines
    decreases |lines|
  {
    if |lines| == 1 {
      FirstLineOf(lines[0], None);
      assert lines[0] + [] == lines[0];
    } else {
      SplitUndoesJoin(lines[1..]);
      FirstLineOf(lines[0], Some(Join(lines[1..])));
      assert Join(lines) == lines[0] + (['\n'] + Join(lines[1..]));
    }
  }

  /** What the revision's `selection_sha256` must be for the selected identifiers. */
  function Seal(selected: set<BucketId>): Digest {
    Sha256(Join(Sorted(selected)))
  }

  /** The canonical text, and so the seal, tells two nonempty selections apart. */
  lemma SealIsInjective(a: set<BucketId>, b: set<BucketId>)
    requires a != {} && b != {} && Seal(a) == Seal(b)
    requires forall x | x in a || x in b :: OneLine(x)
    ensures a == b
  {
    SplitUndoesJoin(Sorted(a));
    SplitUndoesJoin(Sorted(b));
    assert forall x :: x in a <==> x in Sorted(a);
  }

  /** Without the newline rule it would not: one identifier can spell two. */
  lemma NewlinesWouldCollide() returns (a: set<string>, b: set<string>)
    ensures a != b && a != {} && b != {} && Seal(a) == Seal(b)
  {
    a, b := {"a\nb"}, {"a", "b"};
    assert a - {"a\nb"} == {};
    assert Sorted(a) == ["a\nb"];
    assert IsLeast("a", b) by {
      AtMostTotal("a", "a");
    }
    AtMostAntisymmetric(Least(b), "a");
    assert b - {"a"} == {"b"};
    assert Least({"b"}) == "b";
    assert {"b"} - {"b"} == {};
    assert Sorted({"b"}) == ["b"];
    assert Sorted(b) == ["a"] + ["b"];
    assert Join(["a", "b"]) == "a" + ['\n'] + Join(["b"]);
    assert "a\nb" == "a" + ['\n'] + "b";
    assert "a\nb" !in b;
  }

  // ----- configuration revisions and their selections ---------------------------------------------

  type BridgeId = NativeIdentifiers.BridgeId
  type RevisionKey = NativeIdentifiers.RevisionKey
  datatype Revision = Revision(bridge: BridgeId, seal: Digest)
  datatype Bucket = Bucket(bridge: BridgeId, selectable: bool)

  datatype Tables = Tables(
    buckets: map<BucketId, Bucket>,
    revisions: map<RevisionKey, Revision>,
    selected: set<(RevisionKey, BucketId)>)

  /** Revisions and selections refuse UPDATE and DELETE; a bucket's own columns may change. */
  datatype Step =
    | InsertBucket(bucket: BucketId, row: Bucket)
    | UpdateBucket(bucket: BucketId, row: Bucket)
    | InsertRevision(revision: RevisionKey, revisionRow: Revision)
    | Select(revision: RevisionKey, bucket: BucketId)

  predicate Admits(t: Tables, s: Step) {
    match s
    case InsertBucket(b, _) => b !in t.buckets && OneLine(b)
    case UpdateBucket(b, _) => b in t.buckets
    case InsertRevision(k, _) => k !in t.revisions
    case Select(k, b) => k in t.revisions && b in t.buckets && (k, b) !in t.selected
  }

  /** The tables with the statement's row written, whatever the keys say. */
  function Written(t: Tables, s: Step): Tables {
    match s
    case InsertBucket(b, row) => t.(buckets := t.buckets[b := row])
    case UpdateBucket(b, row) => t.(buckets := t.buckets[b := row])
    case InsertRevision(k, row) => t.(revisions := t.revisions[k := row])
    case Select(k, b) => t.(selected := t.selected + {(k, b)})
  }

  function Effect(t: Tables, s: Step): Tables
    requires Admits(t, s)
  {
    Written(t, s)
  }

  function Selection(t: Tables, k: RevisionKey): set<BucketId> {
    set e | e in t.selected && e.0 == k :: e.1
  }

  /** `native_configuration_has_bucket`, run for revision `k`. */
  predicate SealHolds(t: Tables, k: RevisionKey) {
    && k in t.revisions
    && Selection(t, k) != {}
    && Seal(Selection(t, k)) == t.revisions[k].seal
    && forall b | b in Selection(t, k) ::
         b in t.buckets && t.buckets[b].bridge == t.revisions[k].bridge && t.buckets[b].selectable
  }

  /** The revisions whose check a statement queues. */
  function Queued(s: Step): set<RevisionKey> {
    match s
    case InsertBucket(_, _) => {}
    case UpdateBucket(_, _) => {}
    case InsertRevision(k, _) => {k}
    case Select(k, _) => {k}
  }

  function AllQueued(steps: seq<Step>): set<RevisionKey> {
    if steps == [] then {} else AllQueued(steps[..|steps| - 1]) + Queued(steps[|steps| - 1])
  }

  function Run(t: Tables, steps: seq<Step>): Option<Tables> {
    if steps == [] then Some(t)
    else
      var r := Run(t, steps[..|steps| - 1]);
      if r.Some? && Admits(r.value, steps[|steps| - 1]) then Some(Effect(r.value, steps[|steps| - 1])) else None
  }

  predicate Commits(t: Tables, steps: seq<Step>) {
    var r := Run(t, steps);
    r.Some? && forall k | k in AllQueued(steps) :: SealHolds(r.value, k)
  }

  function Transact(t: Tables, steps: seq<Step>): Tables {
    if Commits(t, steps) then Run(t, steps).value else t
  }

  // ----- the selection never changes after its first commit ------------------------------------------

  ghost predicate Sealed(t: Tables) {
    && (forall b | b in t.buckets :: OneLine(b))
    && (forall e | e in t.selected :: e.0 in t.revisions && e.1 in t.buckets)
    && (forall k | k in t.revisions :: Selection(t, k) != {} && Seal(Selection(t, k)) == t.revisions[k].seal)
  }

  ghost predicate RowsOk(t: Tables) {
    && (forall b | b in t.buckets :: OneLine(b))
    && (forall e | e in t.selected :: e.0 in t.revisions && e.1 in t.buckets)
  }

  ghost predicate Grows(a: Tables, b: Tables) {
    && a.revisions.Keys <= b.revisions.Keys
    && (forall k | k in a.revisions :: b.revisions[k] == a.revisions[k])
    && a.selected <= b.selected
  }

  lemma {:induction false} RunGrows(t: Tables, steps: seq<Step>)
    requires RowsOk(t) && Run(t, steps).Some?
    ensures var u := Run(t, steps).value;
            && RowsOk(u) && Grows(t, u)
            && forall k | k !in AllQueued(steps) ::
                 && Selection(u, k) == Selection(t, k)
                 && (k in u.revisions ==> k in t.revisions)
  {
    if steps != [] {
      RunGrows(t, steps[..|steps| - 1]);
    }
  }

  lemma TransactKeepsSealed(t: Tables, steps: seq<Step>)
    requires Sealed(t)
    ensures Sealed(Transact(t, steps))
    ensures Grows(t, Transact(t, steps))
    ensures forall k | k in t.revisions :: Selection(Transact(t, steps), k) == Selection(t, k)
  {
    if Commits(t, steps) {
      var u := Run(t, steps).value;
      RunGrows(t, steps);
      forall k | k in u.revisions ensures Selection(u, k) != {} && Seal(Selection(u, k)) == u.revisions[k].seal {
        if k in AllQueued(steps) {
          assert SealHolds(u, k);
        }
      }
      forall k | k in t.revisions ensures Selection(u, k) == Selection(t, k) {
        if k in AllQueued(steps) {
          assert SealHolds(u, k);
          SealIsInjective(Selection(u, k), Selection(t, k));
        }
      }
    }
  }

  // ----- the declared rules ----------------------------------------------------------------------------

  /** An INSERT adds a row and an UPDATE finds one. */
  predicate Finds(t: Tables, s: Step) {
    match s
    case InsertBucket(b, _) => b !in t.buckets
    case UpdateBucket(b, _) => b in t.buckets
    case InsertRevision(k, _) => k !in t.revisions
    case Select(_, _) => t.selected < Written(t, s).selected
  }

  /** A statement is accepted exactly when the keys, the references and the identifiers' form hold after it. */
  lemma AcceptedIff(t: Tables, s: Step)
    requires RowsOk(t)
    ensures Admits(t, s) <==> Finds(t, s) && RowsOk(Written(t, s))
  {
    var u := Written(t, s);
    match s
    case InsertBucket(b, _) => assert b in u.buckets;
    case Select(k, b) => assert (k, b) in u.selected && t.selected <= u.selected;
    case _ =>
  }

  /** The revision is sealed over a nonempty selection of selectable buckets of its own bridge. */
  ghost predicate WellSealed(t: Tables, k: RevisionKey)
    requires k in t.revisions
  {
    && (exists b :: (k, b) in t.selected)
    && t.revisions[k].seal == Sha256(Join(Sorted(Selection(t, k))))
    && forall b | (k, b) in t.selected ::
         b in t.buckets && t.buckets[b] == Bucket(t.revisions[k].bridge, true)
  }

  lemma SealHoldsIff(t: Tables, k: RevisionKey)
    ensures SealHolds(t, k) <==> k in t.revisions && WellSealed(t, k)
  {
    if b :| b in Selection(t, k) {
      assert (k, b) in t.selected;
    }
    forall b ensures b in Selection(t, k) <==> (k, b) in t.selected {
      assert (k, b) in t.selected ==> (k, b).1 == b;
    }
  }

  lemma {:induction false} TouchedRevisions(t: Tables, steps: seq<Step>, k: RevisionKey)
    requires RowsOk(t) && Run(t, steps).Some?
    ensures var u := Run(t, steps).value;
            && (k in AllQueued(steps) ==> k in u.revisions)
            && (k in u.revisions && k !in t.revisions ==> k in AllQueued(steps))
            && (k in t.revisions ==> (k in AllQueued(steps) <==> Selection(u, k) != Selection(t, k)))
  {
    if steps != [] {
      var init, s := steps[..|steps| - 1], steps[|steps| - 1];
      TouchedRevisions(t, init, k);
      RunGrows(t, init);
      var mid := Run(t, init).value;
      if s.Select? && s.revision == k {
        assert s.bucket in Selection(Effect(mid, s), k) && s.bucket !in Selection(mid, k) by {
          assert (k, s.bucket) in Effect(mid, s).selected && (k, s.bucket) !in mid.selected;
        }
        assert Selection(t, k) <= Selection(mid, k) by {
          forall b | b in Selection(t, k) ensures b in Selection(mid, k) {
            assert (k, b) in t.selected && (k, b) in mid.selected;
          }
        }
      } else {
        assert Selection(Effect(mid, s), k) == Selection(mid, k);
      }
    }
  }

  /**
   A transaction commits exactly when it adds to no older selection and every revision it
   inserts is sealed over a nonempty selection of selectable buckets of its own bridge.
   */
  lemma CommitsIff(t: Tables, steps: seq<Step>)
    requires Sealed(t) && Run(t, steps).Some?
    ensures var u := Run(t, steps).value;
            Commits(t, steps) <==>
              && (forall k | k in t.revisions :: Selection(u, k) == Selection(t, k))
              && (forall k | k in u.revisions && k !in t.revisions :: WellSealed(u, k))
  {
    var u := Run(t, steps).value;
    forall k ensures SealHolds(u, k) <==> k in u.revisions && WellSealed(u, k) {
      SealHoldsIff(u, k);
    }
    if Commits(t, steps) {
      TransactKeepsSealed(t, steps);
      forall k | k in u.revisions && k !in t.revisions ensures WellSealed(u, k) {
        TouchedRevisions(t, steps, k);
      }
    }
    if (forall k | k in t.revisions :: Selection(u, k) == Selection(t, k))
       && (forall k | k in u.revisions && k !in t.revisions :: WellSealed(u, k)) {
      forall k | k in AllQueued(steps) ensures SealHolds(u, k) {
        TouchedRevisions(t, steps, k);
      }
    }
  }

  function History(transactions: seq<seq<Step>>): Tables {
    if transactions == [] then Tables(map[], map[], {})
    else Transact(History(transactions[..|transactions| - 1]), transactions[|transactions| - 1])
  }

  lemma {:induction false} HistoryIsSealed(transactions: seq<seq<Step>>)
    ensures Sealed(History(transactions))
  {
    if transactions != [] {
      HistoryIsSealed(transactions[..|transactions| - 1]);
      TransactKeepsSealed(History(transactions[..|transactions| - 1]), transactions[|transactions| - 1]);
    }
  }

  /** Whatever is committed afterwards, a revision keeps the selection it was first committed with. */
  lemma {:induction false} SelectionIsFinal(before: seq<seq<Step>>, after: seq<seq<Step>>, k: RevisionKey)
    requires k in History(before).revisions
    ensures k in History(before + after).revisions
    ensures Selection(History(before + after), k) == Selection(History(before), k)
    decreases |after|
  {
    if after == [] {
      assert before + after == before;
    } else {
      var init := after[..|after| - 1];
      SelectionIsFinal(before, init, k);
      assert (before + after)[..|before + after| - 1] == before + init;
      assert (before + after)[|before + after| - 1] == after[|after| - 1];
      HistoryIsSealed(before + init);
      TransactKeepsSealed(History(before + init), after[|after| - 1]);
    }
  }

  /** In particular a transaction that tries to add to a committed selection rolls back whole. */
  lemma LateAdditionIsRefused(before: seq<seq<Step>>, steps: seq<Step>, k: RevisionKey, b: BucketId)
    requires k in History(before).revisions && Select(k, b) in steps
    ensures !Commits(History(before), steps)
  {
    var t := History(before);
    HistoryIsSealed(before);
    if Commits(t, steps) {
      TransactKeepsSealed(t, steps);
      SelectedStays(t, steps, k, b);
    }
  }

  lemma {:induction false} SelectedStays(t: Tables, steps: seq<Step>, k: RevisionKey, b: BucketId)
    requires RowsOk(t) && Run(t, steps).Some? && Select(k, b) in steps
    ensures b in Selection(Run(t, steps).value, k) && b !in Selection(t, k)
  {
    var n := |steps| - 1;
    RunGrows(t, steps[..n]);
    if steps[n] == Select(k, b) {
      assert (k, b) in Run(t, steps).value.selected;
      assert (k, b) !in Run(t, steps[..n]).value.selected;
    } else {
      SelectedStays(t, steps[..n], k, b);
      assert (k, b) in Run(t, steps[..n]).value.selected;
    }
  }

  // ----- the tables themselves ---------------------------------------------------------------------------

  lemma StatementAppends(t: Tables, steps: seq<Step>, s: Step)
    ensures AllQueued(steps + [s]) == AllQueued(steps) + Queued(s)
    ensures Run(t, steps + [s]) ==
            (var r := Run(t, steps); if r.Some? && Admits(r.value, s) then Some(Effect(r.value, s)) else None)
  {
    assert (steps + [s])[..|steps|] == steps;
  }

  class SelectionTables {
    var buckets: map<BucketId, Bucket>
    var revisions: map<RevisionKey, Revision>
    var selected: set<(RevisionKey, BucketId)>
    var committed: Tables
    var queue: set<RevisionKey>
    var failed: bool
    ghost var steps: seq<Step>

    function Contents(): Tables
      reads this
    {
      Tables(buckets, revisions, selected)
    }

    ghost predicate Valid()
      reads this
    {
      && Sealed(committed)
      && queue == AllQueued(steps)
      && (!failed ==> Run(committed, steps) == Some(Contents()))
      && (failed ==> Run(committed, steps).None?)
    }

    constructor ()
      ensures Valid() && steps == [] && committed == Tables(map[], map[], {})
    {
      buckets, revisions, selected := map[], map[], {};
      committed, queue, failed, steps := Tables(map[], map[], {}), {}, false, [];
    }

    method Execute(s: Step) returns (ok: bool)
      requires Valid()
      modifies this
      ensures Valid() && committed == old(committed) && steps == old(steps) + [s]
      ensures ok == (!old(failed) && Admits(old(Contents()), s)) == !failed
      ensures Contents() == if ok then Effect(old(Contents()), s) else old(Contents())
    {
      StatementAppends(committed, steps, s);
      ok := !failed && Admits(Contents(), s);
      if ok {
        match s
        case InsertBucket(b, row) => buckets := buckets[b := row];
        case UpdateBucket(b, row) => buckets := buckets[b := row];
        case InsertRevision(k, row) => revisions := revisions[k := row];
        case Select(k, b) => selected := selected + {(k, b)};
      }
      failed := !ok;
      queue := queue + Queued(s);
      steps := steps + [s];
    }

    /** Rechecks the seal of every queued revision; one broken seal takes the transaction back. */
    method Commit() returns (ok: bool)
      requires Valid()
      modifies this
      ensures Valid() && steps == [] && committed == Contents()
      ensures ok == Commits(old(committed), old(steps))
      ensures Contents() == Transact(old(committed), old(steps))
      ensures forall k | k in old(committed).revisions ::
                k in revisions && Selection(Contents(), k) == Selection(old(committed), k)
    {
      TransactKeepsSealed(committed, steps);
      ok := !failed;
      var left := queue;
      while ok && left != {}
        invariant left <= queue
        invariant ok ==> !failed && forall k | k in queue && k !in left :: SealHolds(Contents(), k)
        invariant !ok ==> failed || exists k :: k in queue && !SealHolds(Contents(), k)
        decreases |left|
      {
        var k :| k in left;
        ok := SealHolds(Contents(), k);
        left := left - {k};
      }
      if ok {
        committed := Contents();
      } else {
        buckets, revisions, selected := committed.buckets, committed.revisions, committed.selected;
      }
      queue, failed, steps := {}, false, [];
    }
  }
}
