/**
 Frozen baseline and backfill windows. Instants are whole microseconds, the
 resolution of `timestamptz`; windows are closed intervals.
 */
module NativeWindows {
  import opened NativeIdentifiers
  import opened Options

  datatype SourceKind = Calendar | Contacts | Mail
  datatype RunKind = Baseline | Backfill | Reconciliation

  const MILLISECOND := 1_000
  const NINETY_DAYS := 90 * 86_400_000_000

  datatype Revision = Revision(bridge: BridgeId, start: int, cutoff: int, horizon: int)
  datatype SyncRun =
    Run(revision: RevisionKey, kind: RunKind, bridge: BridgeId, start: int, cutoff: int, horizon: int, key: nat)
  datatype Job =
    JobRow(run: Option<RunId>, revision: RevisionKey, bucket: BucketId, start: int, end: int, inventory: bool, state: nat)

  datatype Tables = Tables(
    buckets: map<BucketId, SourceKind>,
    revisions: map<RevisionKey, Revision>,
    runs: map<RunId, SyncRun>,
    jobs: map<JobId, Job>)

  datatype Step =
    | InsertBucket(bucket: BucketId, kind: SourceKind)
    | InsertRevision(revision: RevisionKey, row: Revision)
    | InsertRun(run: RunId, runRow: SyncRun)
    | InsertJob(job: JobId, jobRow: Job)
    | UpdateJob(job: JobId, jobRow: Job)
    | DeleteJob(job: JobId)

  // ----- guards --------------------------------------------------------------------------------

  function Before(k: RevisionKey): RevisionKey
    requires k.number >= 1
  {
    k.(number := k.number - 1)
  }

  /** This revision moved the start earlier than the one before it. */
  predicate MovedEarlier(t: Tables, k: RevisionKey) {
    && k in t.revisions
    && k.number >= 1
    && Before(k) in t.revisions
    && t.revisions[k].start < t.revisions[Before(k)].start
  }

  function ExpectedKind(t: Tables, k: RevisionKey): RunKind {
    if MovedEarlier(t, k) then Backfill else Baseline
  }

  predicate RangeOk(start: int, cutoff: int, horizon: int) {
    start <= cutoff && horizon == cutoff + NINETY_DAYS
  }

  /** `native_run_snapshot_is_exact` and the keys of `native_sync_runs`. */
  predicate RunIsExact(t: Tables, r: RunId, row: SyncRun) {
    && r !in t.runs
    && row.revision in t.revisions
    && t.revisions[row.revision].bridge == row.bridge
    && t.revisions[row.revision].start == row.start
    && RangeOk(row.start, row.cutoff, row.horizon)
    && (forall q | q in t.runs :: !(t.runs[q].revision == row.revision && t.runs[q].key == row.key))
    && (row.kind != Reconciliation ==> row.kind == ExpectedKind(t, row.revision))
  }

  /** `native_job_matches_frozen_run` for a row that names a run. */
  predicate JobIsExact(t: Tables, j: Job)
    requires j.run.Some?
  {
    && j.run.value in t.runs
    && j.bucket in t.buckets
    && var r := t.runs[j.run.value];
    && var kind := t.buckets[j.bucket];
    && r.revision == j.revision
    && r.kind != Reconciliation
    && (kind == Contacts) == j.inventory
    && (kind == Contacts ==> j.start == r.cutoff && j.end == r.cutoff)
    && (kind != Contacts ==>
          && (r.kind == Backfill ==>
                && r.revision.number >= 1
                && Before(r.revision) in t.revisions
                && r.start < t.revisions[Before(r.revision)].start)
          && j.start == r.start
          && j.end == if r.kind == Backfill then t.revisions[Before(r.revision)].start - MILLISECOND
                      else if kind == Calendar then r.horizon
                      else r.cutoff)
  }

  predicate Admits(t: Tables, s: Step) {
    match s
    case InsertBucket(b, _) => b !in t.buckets
    case InsertRevision(k, row) => k.number >= 1 && k !in t.revisions && RangeOk(row.start, row.cutoff, row.horizon)
    case InsertRun(r, row) => RunIsExact(t, r, row)
    case InsertJob(j, row) => j !in t.jobs && row.start <= row.end && row.run.Some? && JobIsExact(t, row)
    case UpdateJob(j, row) =>
      && j in t.jobs
      && row.(state := t.jobs[j].state) == t.jobs[j]
      && (row.run.Some? ==> JobIsExact(t, row))
    case DeleteJob(j) => j in t.jobs
  }

  /** The tables with the statement's row written, whatever the triggers say. */
  function Written(t: Tables, s: Step): Tables {
    match s
    case InsertBucket(b, kind) => t.(buckets := t.buckets[b := kind])
    case InsertRevision(k, row) => t.(revisions := t.revisions[k := row])
    case InsertRun(r, row) => t.(runs := t.runs[r := row])
    case InsertJob(j, row) => t.(jobs := t.jobs[j := row])
    case UpdateJob(j, row) => t.(jobs := t.jobs[j := row])
    case DeleteJob(j) => t.(jobs := t.jobs - {j})
  }

  function Effect(t: Tables, s: Step): Tables
    requires Admits(t, s)
  {
    Written(t, s)
  }

  // ----- every job keeps its frozen window --------------------------------------------------------

  /** A run froze its revision's start, under the kind the start history called for. */
  ghost predicate RunFrozen(t: Tables, r: RunId)
    requires r in t.runs
  {
    && t.runs[r].revision in t.revisions
    && t.runs[r].start == t.revisions[t.runs[r].revision].start
    && (t.runs[r].kind == Backfill ==> MovedEarlier(t, t.runs[r].revision))
    && RangeOk(t.runs[r].start, t.runs[r].cutoff, t.runs[r].horizon)
  }

  ghost predicate JobsExact(t: Tables) {
    forall j | j in t.jobs && t.jobs[j].run.Some? :: JobIsExact(t, t.jobs[j]) && t.jobs[j].start <= t.jobs[j].end
  }

  /** The runs from before the freeze stand as they were; every later one is frozen, and so is every job. */
  ghost predicate Frozen(legacy: map<RunId, SyncRun>, t: Tables) {
    && (forall r | r in legacy :: r in t.runs && t.runs[r] == legacy[r])
    && (forall r | r in t.runs && r !in legacy :: RunFrozen(t, r))
    && JobsExact(t)
  }

  /** The revision adds the column that names a run, so no job names one yet. */
  predicate AtFreeze(t: Tables) {
    forall j | j in t.jobs :: t.jobs[j].run.None?
  }

  lemma JobStaysExact(t: Tables, s: Step, j: Job)
    requires Admits(t, s) && j.run.Some? && JobIsExact(t, j)
    ensures JobIsExact(Effect(t, s), j)
  {
  }

  lemma StepKeepsJobs(t: Tables, s: Step)
    requires JobsExact(t) && Admits(t, s)
    ensures JobsExact(Effect(t, s))
  {
    var u := Effect(t, s);
    forall j | j in u.jobs && u.jobs[j].run.Some? ensures JobIsExact(u, u.jobs[j]) && u.jobs[j].start <= u.jobs[j].end {
      if (s.InsertJob? || s.UpdateJob?) && s.job == j {
        JobStaysExact(t, s, s.jobRow);
      } else {
        JobStaysExact(t, s, t.jobs[j]);
      }
    }
  }

  lemma StepKeepsFrozen(legacy: map<RunId, SyncRun>, t: Tables, s: Step)
    requires Frozen(legacy, t) && Admits(t, s)
    ensures Frozen(legacy, Effect(t, s))
  {
    var u := Effect(t, s);
    StepKeepsJobs(t, s);
    forall r | r in u.runs && r !in legacy ensures RunFrozen(u, r) {
      if r in t.runs {
        assert RunFrozen(t, r);
      }
    }
  }

  /** The statements in order; a refused one changes nothing. */
  function RunAll(t: Tables, steps: seq<Step>): Tables
    decreases |steps|
  {
    if steps == [] then t
    else RunAll(if Admits(t, steps[0]) then Effect(t, steps[0]) else t, steps[1..])
  }

  lemma {:induction false} RunAllKeepsFrozen(legacy: map<RunId, SyncRun>, t: Tables, steps: seq<Step>)
    requires Frozen(legacy, t)
    ensures Frozen(legacy, RunAll(t, steps))
    decreases |steps|
  {
    if steps != [] {
      if Admits(t, steps[0]) {
        StepKeepsFrozen(legacy, t, steps[0]);
      }
      RunAllKeepsFrozen(legacy, if Admits(t, steps[0]) then Effect(t, steps[0]) else t, steps[1..]);
    }
  }

  // ----- the declared rules ------------------------------------------------------------------------

  /** The revision before this one, if there is any, starts later. */
  predicate StartsEarlier(t: Tables, k: RevisionKey, start: int) {
    k.number > 0 &&
    var before := RevisionKey(k.configuration, k.number - 1);
    before in t.revisions && start < t.revisions[before].start
  }

  /** A run takes bridge and start from its revision, ends ninety days after its cutoff, and is called what its start is. */
  ghost predicate RunDeclared(t: Tables, row: SyncRun) {
    && row.revision in t.revisions
    && row.bridge == t.revisions[row.revision].bridge && row.start == t.revisions[row.revision].start
    && row.start <= row.cutoff && row.horizon - row.cutoff == NINETY_DAYS
    && (row.kind == Baseline ==> !StartsEarlier(t, row.revision, row.start))
    && (row.kind == Backfill ==> StartsEarlier(t, row.revision, row.start))
  }

  /**
   The window of a job, by the kind of its bucket: an inventory stands at the run's
   cutoff; mail runs from the run's start to its cutoff and a calendar to its horizon,
   but a backfill of either to one millisecond before the start of the revision before.
   */
  ghost predicate JobDeclared(t: Tables, row: Job) {
    && row.run.Some? && row.run.value in t.runs && row.bucket in t.buckets
    && var run := t.runs[row.run.value];
    && row.revision == run.revision
    && (run.kind == Baseline || (run.kind == Backfill))
    && match t.buckets[row.bucket]
       case Contacts => row.inventory && row.start == run.cutoff && row.end == run.cutoff
       case kind =>
         && !row.inventory && row.start == run.start
         && if run.kind == Baseline then row.end == (if kind == Mail then run.cutoff else run.horizon)
            else
              && StartsEarlier(t, run.revision, run.start)
              && row.end + MILLISECOND
                 == t.revisions[RevisionKey(run.revision.configuration, run.revision.number - 1)].start
  }

  /** What a statement may add, and what it leaves of the rows that are there. */
  ghost predicate Lawful(t: Tables, u: Tables) {
    && (forall k | k in u.revisions && k !in t.revisions ::
          && k.number > 0 && u.revisions[k].start <= u.revisions[k].cutoff
          && u.revisions[k].horizon - u.revisions[k].cutoff == NINETY_DAYS)
    && (forall r | r in u.runs && r !in t.runs ::
          && RunDeclared(u, u.runs[r])
          && forall q | q in u.runs && q != r ::
               u.runs[q].revision != u.runs[r].revision || u.runs[q].key != u.runs[r].key)
    && (forall j | j in u.jobs && j !in t.jobs :: JobDeclared(u, u.jobs[j]) && u.jobs[j].start <= u.jobs[j].end)
    && (forall j | j in u.jobs && j in t.jobs ::
          var was, row := t.jobs[j], u.jobs[j];
          && row.run == was.run && row.revision == was.revision && row.bucket == was.bucket
          && row.start == was.start && row.end == was.end && row.inventory == was.inventory)
  }

  /** An INSERT finds its key unused; an UPDATE and a DELETE find their row. */
  predicate Finds(t: Tables, s: Step) {
    match s
    case InsertBucket(b, _) => b !in t.buckets
    case InsertRevision(k, _) => k !in t.revisions
    case InsertRun(r, _) => r !in t.runs
    case InsertJob(j, _) => j !in t.jobs
    case UpdateJob(j, _) => j in t.jobs
    case DeleteJob(j) => j in t.jobs
  }

  lemma JobsAgree(t: Tables, row: Job)
    requires row.run.Some?
    ensures JobIsExact(t, row) <==> JobDeclared(t, row)
  {
  }

  lemma RunsAgree(t: Tables, r: RunId, row: SyncRun)
    requires r !in t.runs
    ensures RunIsExact(t, r, row) <==>
              RunDeclared(t, row) && forall q | q in t.runs :: t.runs[q].revision != row.revision || t.runs[q].key != row.key
  {
  }

  lemma RunInsertAccepted(t: Tables, r: RunId, row: SyncRun)
    requires r !in t.runs
    ensures RunIsExact(t, r, row) <==> Lawful(t, t.(runs := t.runs[r := row]))
  {
    var u := t.(runs := t.runs[r := row]);
    RunsAgree(t, r, row);
    assert RunDeclared(u, row) <==> RunDeclared(t, row);
    assert u.runs[r] == row;
    forall q | q in t.runs ensures q in u.runs && q != r && u.runs[q] == t.runs[q] {
    }
  }

  /** The triggers let through exactly the statements that keep these rules. */
  lemma AcceptedIff(t: Tables, s: Step)
    requires JobsExact(t)
    ensures Admits(t, s) <==> Finds(t, s) && Lawful(t, Written(t, s))
  {
    var u := Written(t, s);
    match s
    case InsertBucket(_, _) =>
    case InsertRevision(k, row) => assert u.revisions[k] == row;
    case InsertRun(r, row) =>
      assert u.runs[r] == row;
      if r !in t.runs {
        RunInsertAccepted(t, r, row);
      }
    case InsertJob(j, row) =>
      assert u.jobs[j] == row;
      if row.run.Some? {
        JobsAgree(t, row);
      }
      assert JobDeclared(u, row) <==> JobDeclared(t, row);
    case UpdateJob(j, row) =>
      assert u.jobs[j] == row;
      if j in t.jobs && row.(state := t.jobs[j].state) == t.jobs[j] && row.run.Some? {
        JobsAgree(t, row);
        JobsAgree(t, t.jobs[j]);
      }
    case DeleteJob(_) =>
  }

  /** So after any statements every job that names a run has the window its bucket's kind calls for. */
  lemma EveryJobIsDeclared(t: Tables, steps: seq<Step>, j: JobId)
    requires AtFreeze(t) && j in RunAll(t, steps).jobs && RunAll(t, steps).jobs[j].run.Some?
    ensures JobDeclared(RunAll(t, steps), RunAll(t, steps).jobs[j])
  {
    RunAllKeepsFrozen(t.runs, t, steps);
    JobsAgree(RunAll(t, steps), RunAll(t, steps).jobs[j]);
  }

  // ----- where each window lies -------------------------------------------------------------------------

  predicate IsJobOf(t: Tables, j: JobId, k: RevisionKey, bucket: BucketId, kind: RunKind) {
    && j in t.jobs && t.jobs[j].run.Some? && t.jobs[j].run.value in t.runs
    && t.jobs[j].revision == k && t.jobs[j].bucket == bucket
    && t.runs[t.jobs[j].run.value].kind == kind
  }

  /** One job of `bucket` per revision: a baseline at revision `b`, then backfills up to revision `n`. */
  predicate Backfilled(t: Tables, c: ConfigurationId, bucket: BucketId, pick: map<nat, JobId>, b: nat, n: nat) {
    && b <= n
    && bucket in t.buckets && t.buckets[bucket] != Contacts
    && forall k | b <= k <= n ::
         k in pick && IsJobOf(t, pick[k], RevisionKey(c, k), bucket, if k == b then Baseline else Backfill)
  }

  function StartOf(t: Tables, c: ConfigurationId, k: nat): int {
    if RevisionKey(c, k) in t.revisions then t.revisions[RevisionKey(c, k)].start else 0
  }

  /** The run behind the job picked for revision `k` starts where the revision does. */
  predicate StartKept(t: Tables, c: ConfigurationId, pick: map<nat, JobId>, k: nat) {
    && k in pick && pick[k] in t.jobs && t.jobs[pick[k]].run.Some? && t.jobs[pick[k]].run.value in t.runs
    && t.runs[t.jobs[pick[k]].run.value].start == StartOf(t, c, k)
  }

  predicate AllStartsKept(t: Tables, c: ConfigurationId, pick: map<nat, JobId>, b: nat, n: nat) {
    forall k | b <= k <= n :: StartKept(t, c, pick, k)
  }

  /** Where the baseline's window lies, and each backfill's. */
  lemma WindowOf(t: Tables, c: ConfigurationId, bucket: BucketId, j: JobId, k: nat, kind: RunKind)
    requires JobsExact(t) && bucket in t.buckets && t.buckets[bucket] != Contacts
    requires IsJobOf(t, j, RevisionKey(c, k), bucket, kind) && kind != Reconciliation
    ensures t.jobs[j].start == t.runs[t.jobs[j].run.value].start && t.jobs[j].start <= t.jobs[j].end
    ensures kind == Baseline ==>
              t.jobs[j].end == (if t.buckets[bucket] == Calendar then t.runs[t.jobs[j].run.value].horizon
                                else t.runs[t.jobs[j].run.value].cutoff)
    ensures kind == Backfill ==> k >= 1 && t.jobs[j].end == StartOf(t, c, k - 1) - MILLISECOND
  {
    assert JobIsExact(t, t.jobs[j]);
  }

  // ----- windows that step back ---------------------------------------------------------------------

  datatype Window = Window(start: int, end: int)

  /** Each window ends one millisecond before the start of the one before it. */
  ghost predicate StepsBack(ws: seq<Window>) {
    && |ws| > 0
    && (forall i | 0 <= i < |ws| :: ws[i].start <= ws[i].end)
    && (forall i | 1 <= i < |ws| :: ws[i].end == ws[i - 1].start - MILLISECOND)
  }

  predicate Contains(w: Window, instant: int) {
    w.start <= instant <= w.end
  }

  predicate Covered(ws: seq<Window>, instant: int) {
    exists i | 0 <= i < |ws| :: Contains(ws[i], instant)
  }

  /** Strictly inside the millisecond between some window's start and the end of the next one back. */
  predicate InSliver(ws: seq<Window>, instant: int) {
    exists i | 0 <= i < |ws| - 1 :: ws[i].start - MILLISECOND < instant < ws[i].start
  }

  lemma {:induction false} StepsDescend(ws: seq<Window>, i: nat, j: nat)
    requires StepsBack(ws) && i < j < |ws|
    ensures ws[j].end < ws[i].start
    decreases j
  {
    if i < j - 1 {
      StepsDescend(ws, i, j - 1);
    }
  }

  lemma {:induction false} StepsCover(ws: seq<Window>, instant: int)
    requires StepsBack(ws)
    ensures Covered(ws, instant) <==>
              ws[|ws| - 1].start <= instant <= ws[0].end && !InSliver(ws, instant)
    decreases |ws|
  {
    var m := |ws| - 1;
    assert Covered(ws, instant) <==> Contains(ws[m], instant) || Covered(ws[..m], instant);
    if m > 0 {
      var front := ws[..m];
      StepsCover(front, instant);
      StepsDescend(ws, 0, m);
      assert InSliver(ws, instant) <==>
               InSliver(front, instant) || ws[m - 1].start - MILLISECOND < instant < ws[m - 1].start;
      if instant < ws[m - 1].start {
        forall i | 0 <= i < m - 1 ensures !(ws[i].start - MILLISECOND < instant) {
          StepsDescend(ws, i, m - 1);
          assert ws[m - 1].start <= ws[i + 1].end by {
            if i + 1 < m - 1 {
              StepsDescend(ws, i + 1, m - 1);
            }
          }
        }
      }
    }
  }

  /** Each window lies before the one before it. */
  ghost predicate InOrder(ws: seq<Window>) {
    && (forall i | 0 <= i < |ws| :: ws[i].start <= ws[i].end)
    && (forall i | 1 <= i < |ws| :: ws[i].end < ws[i - 1].start)
  }

  ghost predicate Disjoint(ws: seq<Window>) {
    forall i, j, instant | 0 <= i < j < |ws| && Contains(ws[i], instant) :: !Contains(ws[j], instant)
  }

  /** Everything from `from` to `to` is covered, and nothing else, but for the slivers. */
  ghost predicate Spans(ws: seq<Window>, from: int, to: int) {
    forall instant :: Covered(ws, instant) <==> from <= instant <= to && !InSliver(ws, instant)
  }

  /** Every whole millisecond from `from` to `to` lies in one window. */
  ghost predicate TilesTheGrid(ws: seq<Window>, from: int, to: int) {
    forall instant | instant % MILLISECOND == 0 && from <= instant <= to :: Covered(ws, instant)
  }

  lemma StepsTile(ws: seq<Window>)
    requires StepsBack(ws)
    ensures InOrder(ws) && Disjoint(ws)
    ensures Spans(ws, ws[|ws| - 1].start, ws[0].end)
    ensures (forall i | 0 <= i < |ws| :: ws[i].start % MILLISECOND == 0) ==>
              TilesTheGrid(ws, ws[|ws| - 1].start, ws[0].end)
  {
    forall i, j, instant | 0 <= i < j < |ws| && Contains(ws[i], instant) ensures !Contains(ws[j], instant) {
      StepsDescend(ws, i, j);
    }
    forall instant ensures Covered(ws, instant) <==> ws[|ws| - 1].start <= instant <= ws[0].end && !InSliver(ws, instant) {
      StepsCover(ws, instant);
    }
  }

  lemma {:induction false} OrderDescends(ws: seq<Window>, i: nat, j: nat)
    requires InOrder(ws) && i < j < |ws|
    ensures ws[j].end < ws[i].start
    decreases j
  {
    if i < j - 1 {
      OrderDescends(ws, i, j - 1);
    }
  }

  lemma SpanStartsLast(ws: seq<Window>, from: int)
    requires |ws| > 0 && InOrder(ws) && Spans(ws, from, ws[0].end)
    ensures ws[|ws| - 1].start == from
  {
    var last := |ws| - 1;
    assert Contains(ws[last], ws[last].start) && Covered(ws, ws[last].start);
    assert Contains(ws[0], ws[0].end) && Covered(ws, ws[0].end);
    if from < ws[last].start {
      forall i | 0 <= i < |ws| ensures !Contains(ws[i], from) {
        if i < last { OrderDescends(ws, i, last); }
      }
      assert !Covered(ws, from);
      var i :| 0 <= i < |ws| - 1 && ws[i].start - MILLISECOND < from < ws[i].start;
      OrderDescends(ws, i, last);
      assert InSliver(ws, ws[last].start);
      assert false;
    }
  }

  /** Where a window stops short of the step back, the step's edge is missed and lies in no sliver. */
  lemma GapIsMissed(ws: seq<Window>, i: nat)
    requires InOrder(ws) && 1 <= i < |ws| && ws[i].end < ws[i - 1].start - MILLISECOND
    ensures var edge := ws[i - 1].start - MILLISECOND;
            !Covered(ws, edge) && !InSliver(ws, edge) && ws[|ws| - 1].start <= edge <= ws[0].end
  {
    var edge := ws[i - 1].start - MILLISECOND;
    forall k | 0 <= k < |ws|
      ensures k < i ==> edge + MILLISECOND <= ws[k].start
      ensures k >= i ==> ws[k].end < edge
    {
      if k < i - 1 {
        OrderDescends(ws, k, i - 1);
      }
      if k > i {
        OrderDescends(ws, i, k);
      }
    }
  }

  lemma SpanLeavesTheSliver(ws: seq<Window>, from: int, i: nat)
    requires InOrder(ws) && 1 <= i < |ws| && Spans(ws, from, ws[0].end)
    ensures ws[i].end <= ws[i - 1].start - MILLISECOND
  {
    assert Contains(ws[i], ws[i].end) && Covered(ws, ws[i].end);
    assert !InSliver(ws, ws[i].end);
  }

  lemma SpanStepsBack(ws: seq<Window>, from: int, i: nat)
    requires InOrder(ws) && 1 <= i < |ws| && Spans(ws, from, ws[0].end)
    ensures ws[i].end == ws[i - 1].start - MILLISECOND
  {
    SpanLeavesTheSliver(ws, from, i);
    SpanStartsLast(ws, from);
    if ws[i].end < ws[i - 1].start - MILLISECOND {
      GapIsMissed(ws, i);
      assert false;
    }
  }

  /** Windows in order span everything back to `from` but the slivers exactly when they step back to it. */
  lemma SpansIffStepsBack(ws: seq<Window>, from: int)
    requires |ws| > 0
    ensures InOrder(ws) && Spans(ws, from, ws[0].end) <==> StepsBack(ws) && ws[|ws| - 1].start == from
  {
    if InOrder(ws) && Spans(ws, from, ws[0].end) {
      SpanStartsLast(ws, from);
      forall i | 1 <= i < |ws| ensures ws[i].end == ws[i - 1].start - MILLISECOND {
        SpanStepsBack(ws, from, i);
      }
    }
    if StepsBack(ws) {
      StepsTile(ws);
    }
  }

  // ----- the windows tile the history ------------------------------------------------------------------

  function JobWindow(t: Tables, pick: map<nat, JobId>, k: nat): Window {
    if k in pick && pick[k] in t.jobs then Window(t.jobs[pick[k]].start, t.jobs[pick[k]].end) else Window(0, 0)
  }

  /** The windows of revisions `b` to `n`, the baseline's first. */
  function JobWindows(t: Tables, pick: map<nat, JobId>, b: nat, n: nat): (ws: seq<Window>)
    requires b <= n
    ensures |ws| == n - b + 1
  {
    seq(n - b + 1, (i: nat) => JobWindow(t, pick, b + i))
  }

  /** The windows of revisions `b` to `n` lie one before another and together span everything back to the start of `n`. */
  ghost predicate TilesBackTo(t: Tables, c: ConfigurationId, ws: seq<Window>, n: nat)
    requires |ws| > 0
  {
    InOrder(ws) && Spans(ws, StartOf(t, c, n), ws[0].end)
  }

  lemma JobWindowAt(t: Tables, c: ConfigurationId, bucket: BucketId, pick: map<nat, JobId>, b: nat, n: nat, k: nat)
    requires JobsExact(t) && Backfilled(t, c, bucket, pick, b, n) && b <= k <= n
    ensures JobWindow(t, pick, k).start <= JobWindow(t, pick, k).end
    ensures JobWindow(t, pick, k).start == StartOf(t, c, k) <==> StartKept(t, c, pick, k)
    ensures k > b ==> JobWindow(t, pick, k).end == StartOf(t, c, k - 1) - MILLISECOND
  {
    Picked(t, c, bucket, pick, b, n, k);
    WindowOf(t, c, bucket, pick[k], k, if k == b then Baseline else Backfill);
  }

  lemma Picked(t: Tables, c: ConfigurationId, bucket: BucketId, pick: map<nat, JobId>, b: nat, n: nat, k: nat)
    requires Backfilled(t, c, bucket, pick, b, n) && b <= k <= n
    ensures k in pick && IsJobOf(t, pick[k], RevisionKey(c, k), bucket, if k == b then Baseline else Backfill)
  {
  }

  ghost predicate SameStarts(ws: seq<Window>, starts: seq<int>)
    requires |ws| == |starts|
  {
    forall i | 0 <= i < |ws| :: ws[i].start == starts[i]
  }

  lemma StepsBackIff(ws: seq<Window>, starts: seq<int>)
    requires |ws| == |starts| > 0 && forall i | 0 <= i < |ws| :: ws[i].start <= ws[i].end
    requires forall i | 1 <= i < |ws| :: ws[i].end == starts[i - 1] - MILLISECOND
    ensures StepsBack(ws) && ws[|ws| - 1].start == starts[|ws| - 1] <==> SameStarts(ws, starts)
  {
    if StepsBack(ws) && ws[|ws| - 1].start == starts[|ws| - 1] {
      forall i | 0 <= i < |ws| ensures ws[i].start == starts[i] {
        if i < |ws| - 1 {
          assert ws[i + 1].end == ws[i].start - MILLISECOND == starts[i] - MILLISECOND;
        }
      }
    }
  }

  function Starts(t: Tables, c: ConfigurationId, b: nat, n: nat): (starts: seq<int>)
    requires b <= n
    ensures |starts| == n - b + 1
  {
    seq(n - b + 1, (i: nat) => StartOf(t, c, b + i))
  }

  ghost predicate WindowFollows(t: Tables, c: ConfigurationId, pick: map<nat, JobId>, b: nat, k: nat) {
    && JobWindow(t, pick, k).start <= JobWindow(t, pick, k).end
    && (JobWindow(t, pick, k).start == StartOf(t, c, k) <==> StartKept(t, c, pick, k))
    && (k > b ==> JobWindow(t, pick, k).end == StartOf(t, c, k - 1) - MILLISECOND)
  }

  ghost predicate AllFollow(t: Tables, c: ConfigurationId, pick: map<nat, JobId>, b: nat, n: nat) {
    b <= n && forall k | b <= k <= n :: WindowFollows(t, c, pick, b, k)
  }

  lemma FollowsAt(t: Tables, c: ConfigurationId, pick: map<nat, JobId>, b: nat, n: nat, i: nat)
    requires AllFollow(t, c, pick, b, n) && i <= n - b
    ensures var ws, starts := JobWindows(t, pick, b, n), Starts(t, c, b, n);
            && ws[i].start <= ws[i].end
            && (ws[i].start == starts[i] <==> StartKept(t, c, pick, b + i))
            && (i > 0 ==> ws[i].end == starts[i - 1] - MILLISECOND)
  {
    assert WindowFollows(t, c, pick, b, b + i);
  }

  lemma AllKeptIff(t: Tables, c: ConfigurationId, pick: map<nat, JobId>, b: nat, n: nat)
    requires AllFollow(t, c, pick, b, n)
    ensures SameStarts(JobWindows(t, pick, b, n), Starts(t, c, b, n)) <==> AllStartsKept(t, c, pick, b, n)
  {
    var ws, starts := JobWindows(t, pick, b, n), Starts(t, c, b, n);
    if SameStarts(ws, starts) {
      forall k | b <= k <= n ensures StartKept(t, c, pick, k) {
        FollowsAt(t, c, pick, b, n, k - b);
      }
    }
    if AllStartsKept(t, c, pick, b, n) {
      forall i | 0 <= i < |ws| ensures ws[i].start == starts[i] {
        FollowsAt(t, c, pick, b, n, i);
      }
    }
  }

  lemma FollowingStepBackIff(t: Tables, c: ConfigurationId, pick: map<nat, JobId>, b: nat, n: nat)
    requires AllFollow(t, c, pick, b, n)
    ensures var ws := JobWindows(t, pick, b, n);
            StepsBack(ws) && ws[n - b].start == StartOf(t, c, n) <==> AllStartsKept(t, c, pick, b, n)
  {
    var ws, starts := JobWindows(t, pick, b, n), Starts(t, c, b, n);
    assert starts[n - b] == StartOf(t, c, n);
    AllKeptIff(t, c, pick, b, n);
    forall i | 0 <= i < |ws|
      ensures ws[i].start <= ws[i].end && (i > 0 ==> ws[i].end == starts[i - 1] - MILLISECOND)
    {
      FollowsAt(t, c, pick, b, n, i);
    }
    StepsBackIff(ws, starts);
  }

  /** The windows step back to the current start exactly when every run behind them kept its revision's start. */
  lemma StepBackIff(t: Tables, c: ConfigurationId, bucket: BucketId, pick: map<nat, JobId>, b: nat, n: nat)
    requires JobsExact(t) && Backfilled(t, c, bucket, pick, b, n)
    ensures var ws := JobWindows(t, pick, b, n);
            StepsBack(ws) && ws[n - b].start == StartOf(t, c, n) <==> AllStartsKept(t, c, pick, b, n)
  {
    forall k | b <= k <= n ensures WindowFollows(t, c, pick, b, k) {
      JobWindowAt(t, c, bucket, pick, b, n, k);
    }
    FollowingStepBackIff(t, c, pick, b, n);
  }

  lemma TilesIffStepsBack(t: Tables, c: ConfigurationId, ws: seq<Window>, n: nat)
    requires |ws| > 0
    ensures TilesBackTo(t, c, ws, n) <==> StepsBack(ws) && ws[|ws| - 1].start == StartOf(t, c, n)
  {
    SpansIffStepsBack(ws, StartOf(t, c, n));
  }

  lemma TilesIff(t: Tables, c: ConfigurationId, bucket: BucketId, pick: map<nat, JobId>, b: nat, n: nat)
    requires JobsExact(t) && Backfilled(t, c, bucket, pick, b, n)
    ensures TilesBackTo(t, c, JobWindows(t, pick, b, n), n) <==> AllStartsKept(t, c, pick, b, n)
  {
    StepBackIff(t, c, bucket, pick, b, n);
    TilesIffStepsBack(t, c, JobWindows(t, pick, b, n), n);
  }

  /**
   Over any statements from the freeze on, the windows of a baseline and of the backfills
   since it lie one before another and together are everything from the current start to
   the baseline's end except the open millisecond before each start a backfill reached
   back from, exactly when each run behind them starts where its revision does. Every
   run inserted since the freeze does; only one from before it may not.
   */
  lemma WindowsTileIff(t: Tables, steps: seq<Step>, c: ConfigurationId, bucket: BucketId, pick: map<nat, JobId>, b: nat, n: nat)
    requires AtFreeze(t) && Backfilled(RunAll(t, steps), c, bucket, pick, b, n)
    ensures var u := RunAll(t, steps);
            && (TilesBackTo(u, c, JobWindows(u, pick, b, n), n) <==> AllStartsKept(u, c, pick, b, n))
            && forall k | b <= k <= n && u.jobs[pick[k]].run.value !in t.runs :: StartKept(u, c, pick, k)
  {
    var u := RunAll(t, steps);
    RunAllKeepsFrozen(t.runs, t, steps);
    TilesIff(u, c, bucket, pick, b, n);
    forall k | b <= k <= n && u.jobs[pick[k]].run.value !in t.runs ensures StartKept(u, c, pick, k) {
      Picked(u, c, bucket, pick, b, n, k);
      NewRunsKeepStarts(t.runs, u, c, pick, k);
    }
  }

  lemma NewRunsKeepStarts(legacy: map<RunId, SyncRun>, t: Tables, c: ConfigurationId, pick: map<nat, JobId>, k: nat)
    requires Frozen(legacy, t) && k in pick && pick[k] in t.jobs && t.jobs[pick[k]].run.Some?
    requires t.jobs[pick[k]].revision == RevisionKey(c, k) && t.jobs[pick[k]].run.value !in legacy
    ensures StartKept(t, c, pick, k)
  {
    assert JobIsExact(t, t.jobs[pick[k]]);
    assert RunFrozen(t, t.jobs[pick[k]].run.value);
  }

  /** So under runs inserted since the freeze no instant lies in two windows, and no whole millisecond is missed. */
  lemma WindowsTile(t: Tables, steps: seq<Step>, c: ConfigurationId, bucket: BucketId, pick: map<nat, JobId>, b: nat, n: nat)
    requires AtFreeze(t) && Backfilled(RunAll(t, steps), c, bucket, pick, b, n)
    requires forall k | b <= k <= n :: RunAll(t, steps).jobs[pick[k]].run.value !in t.runs
    ensures var u := RunAll(t, steps);
            var ws := JobWindows(u, pick, b, n);
            && TilesBackTo(u, c, ws, n) && Disjoint(ws)
            && ((forall i | 0 <= i < |ws| :: ws[i].start % MILLISECOND == 0) ==>
                  TilesTheGrid(ws, StartOf(u, c, n), ws[0].end))
  {
    var u := RunAll(t, steps);
    WindowsTileIff(t, steps, c, bucket, pick, b, n);
    var ws := JobWindows(u, pick, b, n);
    SpansIffStepsBack(ws, StartOf(u, c, n));
    StepsTile(ws);
  }

  /** The job trigger accepts a job under any baseline run from before the freeze, wherever that run starts. */
  lemma LegacyBaselinesAreAccepted(t: Tables, r: RunId, bucket: BucketId, j: JobId, state: nat)
    requires AtFreeze(t) && r in t.runs && j !in t.jobs && bucket in t.buckets && t.buckets[bucket] == Mail
    requires t.runs[r].kind == Baseline && t.runs[r].start <= t.runs[r].cutoff
    ensures var run, k := t.runs[r], t.runs[r].revision;
            var u := RunAll(t, [InsertJob(j, JobRow(Some(r), k, bucket, run.start, run.cutoff, false, state))]);
            var pick := map[k.number := j];
            && Backfilled(u, k.configuration, bucket, pick, k.number, k.number)
            && (TilesBackTo(u, k.configuration, JobWindows(u, pick, k.number, k.number), k.number)
                <==> run.start == StartOf(t, k.configuration, k.number))
  {
    var run, k := t.runs[r], t.runs[r].revision;
    var s := InsertJob(j, JobRow(Some(r), k, bucket, run.start, run.cutoff, false, state));
    var u, pick := Effect(t, s), map[k.number := j];
    assert RunAll(u, []) == u && [s][1..] == [] && RunAll(t, [s]) == u;
    WindowsTileIff(t, [s], k.configuration, bucket, pick, k.number, k.number);
    assert StartKept(u, k.configuration, pick, k.number) <==> run.start == StartOf(u, k.configuration, k.number);
  }

  // ----- the tables themselves ---------------------------------------------------------------------------

  class RunTables {
    var buckets: map<BucketId, SourceKind>
    var revisions: map<RevisionKey, Revision>
    var runs: map<RunId, SyncRun>
    var jobs: map<JobId, Job>
    ghost const legacy: map<RunId, SyncRun>

    function Contents(): Tables
      reads this
    {
      Tables(buckets, revisions, runs, jobs)
    }

    ghost predicate Valid()
      reads this
    {
      Frozen(legacy, Contents())
    }

    /** Whatever the tables held when the runs were frozen. */
    constructor (t: Tables)
      requires AtFreeze(t)
      ensures Valid() && Contents() == t && legacy == t.runs
    {
      buckets, revisions, runs, jobs, legacy := t.buckets, t.revisions, t.runs, t.jobs, t.runs;
    }

    method AddRun(r: RunId, row: SyncRun) returns (ok: bool)
      requires Valid()
      modifies this`runs
      ensures Valid()
      ensures ok == Admits(old(Contents()), InsertRun(r, row))
      ensures Contents() == if ok then Effect(old(Contents()), InsertRun(r, row)) else old(Contents())
      ensures ok && row.kind == Backfill ==> MovedEarlier(Contents(), row.revision)
    {
      ok := RunIsExact(Contents(), r, row);
      if ok {
        StepKeepsFrozen(legacy, Contents(), InsertRun(r, row));
        runs := runs[r := row];
      }
    }

    method AddJob(j: JobId, row: Job) returns (ok: bool)
      requires Valid()
      modifies this`jobs
      ensures Valid()
      ensures ok == Admits(old(Contents()), InsertJob(j, row))
      ensures Contents() == if ok then Effect(old(Contents()), InsertJob(j, row)) else old(Contents())
    {
      ok := Admits(Contents(), InsertJob(j, row));
      if ok {
        StepKeepsFrozen(legacy, Contents(), InsertJob(j, row));
        jobs := jobs[j := row];
      }
    }

    /** An UPDATE may change a job's state and nothing the trigger calls its frozen scope. */
    method ChangeJob(j: JobId, row: Job) returns (ok: bool)
      requires Valid()
      modifies this`jobs
      ensures Valid()
      ensures ok == Admits(old(Contents()), UpdateJob(j, row))
      ensures Contents() == if ok then Effect(old(Contents()), UpdateJob(j, row)) else old(Contents())
      ensures j in old(jobs) ==> j in jobs && jobs[j].(state := old(jobs)[j].state) == old(jobs)[j]
    {
      ok := Admits(Contents(), UpdateJob(j, row));
      if ok {
        StepKeepsFrozen(legacy, Contents(), UpdateJob(j, row));
        jobs := jobs[j := row];
      }
    }
  }
}
