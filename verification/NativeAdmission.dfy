/**
 One-shot admission authorities and the checkpoints bound to them: what the
 consumption, job and checkpoint triggers let through, over tables that already
 hold checkpoints written before the binding existed.
 */
module NativeAdmission {
  import opened NativeIdentifiers
  import opened Options

  datatype AuthorityId = Authority(n: nat)

  /** One admitted page: private cursor, its digest, the terminal flag and the item count. */
  datatype Page = Page(cursor: string, digest: string, terminal: bool, items: nat)
  datatype Binding = Binding(job: JobId, run: RunId, page: Page)

  /** The columns no update may change, the columns a consumption sets, and the page bound to it. */
  datatype Issue = Issue(revision: RevisionKey, bucket: BucketId, envelope: nat, issuedAt: int, expiresAt: int)
  datatype AuthorityRow =
    AuthorityRow(issue: Issue, consumedAt: Option<int>, admission: Option<string>, binding: Option<Binding>)

  datatype Scope =
    Scope(run: Option<RunId>, revision: RevisionKey, bucket: BucketId, rangeStart: int, rangeEnd: int, inventory: bool)
  datatype JobRow = JobRow(scope: Scope, state: nat)

  datatype CheckpointRow =
    CheckpointRow(bucket: BucketId, job: Option<JobId>, authority: Option<AuthorityId>, page: Page)

  datatype Tables = Tables(
    jobs: map<JobId, JobRow>,
    authorities: map<AuthorityId, AuthorityRow>,
    checkpoints: map<CheckpointId, CheckpointRow>)

  const COMPLETE := "__my_pa_native_baseline_complete__"
  const TEN_MINUTES := 600_000_000

  datatype Step =
    | InsertJob(job: JobId, jobRow: JobRow)
    | UpdateJob(job: JobId, jobRow: JobRow)
    | DeleteJob(job: JobId)
    | InsertAuthority(authority: AuthorityId, authorityRow: AuthorityRow)
    | UpdateAuthority(authority: AuthorityId, authorityRow: AuthorityRow)
    | DeleteAuthority(authority: AuthorityId)
    | InsertCheckpoint(checkpoint: CheckpointId, checkpointRow: CheckpointRow)

  // ----- guards ------------------------------------------------------------------------------

  predicate BoundPage(p: Page) {
    && 1 <= |p.cursor| <= 512
    && p.items <= 100
    && p.terminal == (p.cursor == COMPLETE)
  }

  /** The CHECKs and foreign keys of `native_admission_authorities`. */
  predicate AuthorityRowOk(t: Tables, a: AuthorityId, row: AuthorityRow) {
    && row.issue.issuedAt < row.issue.expiresAt <= row.issue.issuedAt + TEN_MINUTES
    && row.consumedAt.None? == row.admission.None?
    && (row.binding.Some? ==> row.binding.value.job in t.jobs && BoundPage(row.binding.value.page))
    && forall b | b in t.authorities && b != a :: t.authorities[b].issue.envelope != row.issue.envelope
  }

  /** `native_authority_consumption_is_immutable`. */
  predicate ConsumesOnce(was: AuthorityRow, row: AuthorityRow) {
    && was.consumedAt.None?
    && row.issue == was.issue
    && row.consumedAt.Some?
    && row.admission.Some?
  }

  /** `native_checkpoint_follows_admission`. */
  predicate FollowsAdmission(t: Tables, c: CheckpointRow) {
    && c.job.Some? && c.job.value in t.jobs
    && c.authority.Some? && c.authority.value in t.authorities
    && var j := t.jobs[c.job.value].scope;
    && var a := t.authorities[c.authority.value];
    && j.bucket == c.bucket
    && a.issue.bucket == c.bucket
    && a.binding.Some?
    && j.run == Some(a.binding.value.run)
    && c.job == Some(a.binding.value.job)
    && j.revision == a.issue.revision
    && c.page == a.binding.value.page
    && a.consumedAt.Some?
  }

  predicate Admits(t: Tables, s: Step) {
    match s
    case InsertJob(j, row) => j !in t.jobs && row.scope.rangeStart <= row.scope.rangeEnd && row.scope.run.Some?
    case UpdateJob(j, row) => j in t.jobs && row.scope == t.jobs[j].scope
    case DeleteJob(j) =>
      && j in t.jobs
      && (forall a | a in t.authorities :: t.authorities[a].binding.Some? ==> t.authorities[a].binding.value.job != j)
      && (forall c | c in t.checkpoints :: t.checkpoints[c].job != Some(j))
    case InsertAuthority(a, row) => a !in t.authorities && AuthorityRowOk(t, a, row)
    case UpdateAuthority(a, row) =>
      a in t.authorities && AuthorityRowOk(t, a, row) && ConsumesOnce(t.authorities[a], row)
    case DeleteAuthority(a) =>
      a in t.authorities && forall c | c in t.checkpoints :: t.checkpoints[c].authority != Some(a)
    case InsertCheckpoint(c, row) =>
      && c !in t.checkpoints
      && row.page.items <= 100
      && (forall k | k in t.checkpoints :: row.authority.Some? ==> t.checkpoints[k].authority != row.authority)
      && FollowsAdmission(t, row)
  }

  /** The tables with the statement's row written, whatever the triggers say. */
  function Written(t: Tables, s: Step): Tables {
    match s
    case InsertJob(j, row) => t.(jobs := t.jobs[j := row])
    case UpdateJob(j, row) => t.(jobs := t.jobs[j := row])
    case DeleteJob(j) => t.(jobs := t.jobs - {j})
    case InsertAuthority(a, row) => t.(authorities := t.authorities[a := row])
    case UpdateAuthority(a, row) => t.(authorities := t.authorities[a := row])
    case DeleteAuthority(a) => t.(authorities := t.authorities - {a})
    case InsertCheckpoint(c, row) => t.(checkpoints := t.checkpoints[c := row])
  }

  function Effect(t: Tables, s: Step): Tables
    requires Admits(t, s)
  {
    Written(t, s)
  }

  // ----- the binding in every reachable state --------------------------------------------------

  /** Written before the binding existed: neither a job nor an authority. */
  predicate Legacy(c: CheckpointRow) {
    c.job.None? && c.authority.None?
  }

  ghost predicate Bound(t: Tables) {
    forall c | c in t.checkpoints :: Legacy(t.checkpoints[c]) || FollowsAdmission(t, t.checkpoints[c])
  }

  ghost predicate BackedOnce(t: Tables) {
    forall c, d | c in t.checkpoints && d in t.checkpoints && c != d && t.checkpoints[c].authority.Some? ::
      t.checkpoints[c].authority != t.checkpoints[d].authority
  }

  lemma StepKeepsBinding(t: Tables, s: Step)
    requires Bound(t) && BackedOnce(t) && Admits(t, s)
    ensures Bound(Effect(t, s)) && BackedOnce(Effect(t, s))
    ensures forall c | c in t.checkpoints :: c in Effect(t, s).checkpoints && Effect(t, s).checkpoints[c] == t.checkpoints[c]
  {
    var u := Effect(t, s);
    forall c | c in u.checkpoints ensures Legacy(u.checkpoints[c]) || FollowsAdmission(u, u.checkpoints[c]) {
      if c in t.checkpoints {
        assert Legacy(t.checkpoints[c]) || FollowsAdmission(t, t.checkpoints[c]);
      }
    }
  }

  /** The statements in order; a refused one changes nothing. */
  function Run(t: Tables, steps: seq<Step>): Tables
    decreases |steps|
  {
    if steps == [] then t
    else Run(if Admits(t, steps[0]) then Effect(t, steps[0]) else t, steps[1..])
  }

  ghost predicate OnlyLegacy(t: Tables) {
    forall c | c in t.checkpoints :: Legacy(t.checkpoints[c])
  }

  lemma {:induction false} RunKeepsBinding(t: Tables, steps: seq<Step>)
    requires Bound(t) && BackedOnce(t)
    ensures Bound(Run(t, steps)) && BackedOnce(Run(t, steps))
    decreases |steps|
  {
    if steps != [] {
      if Admits(t, steps[0]) {
        StepKeepsBinding(t, steps[0]);
      }
      RunKeepsBinding(if Admits(t, steps[0]) then Effect(t, steps[0]) else t, steps[1..]);
    }
  }

  /** Once a checkpoint rests on an authority, neither that authority nor the job's scope ever changes again. */
  lemma {:induction false} BackingIsFrozen(t: Tables, steps: seq<Step>, c: CheckpointId)
    requires Bound(t) && BackedOnce(t) && c in t.checkpoints && !Legacy(t.checkpoints[c])
    ensures var u := Run(t, steps);
            && c in u.checkpoints && u.checkpoints[c] == t.checkpoints[c]
            && var a, j := t.checkpoints[c].authority.value, t.checkpoints[c].job.value;
            && a in t.authorities && a in u.authorities && u.authorities[a] == t.authorities[a]
            && j in t.jobs && j in u.jobs && u.jobs[j].scope == t.jobs[j].scope
    decreases |steps|
  {
    assert FollowsAdmission(t, t.checkpoints[c]);
    if steps != [] {
      if Admits(t, steps[0]) {
        StepKeepsBinding(t, steps[0]);
      }
      BackingIsFrozen(if Admits(t, steps[0]) then Effect(t, steps[0]) else t, steps[1..], c);
    }
  }

  // ----- the declared rules, column by column ------------------------------------------------------

  /** The CHECKs and references of an authority row. */
  ghost predicate AuthorityDeclared(t: Tables, row: AuthorityRow) {
    && 0 < row.issue.expiresAt - row.issue.issuedAt <= TEN_MINUTES
    && (row.consumedAt.Some? <==> row.admission.Some?)
    && (row.binding.Some? ==>
          var page := row.binding.value.page;
          && row.binding.value.job in t.jobs
          && 0 < |page.cursor| && |page.cursor| <= 512 && page.items <= 100
          && (page.terminal <==> page.cursor == COMPLETE))
  }

  /** A checkpoint agrees with its consumed authority and its job in every column. */
  ghost predicate Agrees(t: Tables, row: CheckpointRow) {
    && row.authority.Some? && row.authority.value in t.authorities
    && row.job.Some? && row.job.value in t.jobs
    && var authority, job := t.authorities[row.authority.value], t.jobs[row.job.value].scope;
    && authority.consumedAt.Some? && authority.binding.Some?
    && var bound := authority.binding.value;
    && row.page.cursor == bound.page.cursor && row.page.digest == bound.page.digest
    && row.page.terminal == bound.page.terminal && row.page.items == bound.page.items
    && row.job.value == bound.job && job.run == Some(bound.run)
    && row.bucket == job.bucket && row.bucket == authority.issue.bucket
    && job.revision == authority.issue.revision
  }

  /** What the tables hold at any time. */
  ghost predicate Declared(t: Tables) {
    && (forall j | j in t.jobs :: t.jobs[j].scope.rangeStart <= t.jobs[j].scope.rangeEnd)
    && (forall a | a in t.authorities :: AuthorityDeclared(t, t.authorities[a]))
    && (forall a, b | a in t.authorities && b in t.authorities && a != b ::
          t.authorities[a].issue.envelope != t.authorities[b].issue.envelope)
    && (forall c | c in t.checkpoints :: t.checkpoints[c].page.items <= 100)
    && (forall c | c in t.checkpoints :: Legacy(t.checkpoints[c]) || Agrees(t, t.checkpoints[c]))
    && (forall c, d | c in t.checkpoints && d in t.checkpoints && c != d ::
          t.checkpoints[c].authority.Some? ==> t.checkpoints[c].authority != t.checkpoints[d].authority)
  }

  /** What a statement leaves of the rows that are there, and what it may add to them. */
  ghost predicate Keeps(t: Tables, u: Tables) {
    && (forall j | j in u.jobs :: if j in t.jobs then u.jobs[j].scope == t.jobs[j].scope else u.jobs[j].scope.run.Some?)
    && (forall a | a in t.authorities && a in u.authorities && u.authorities[a] != t.authorities[a] ::
          t.authorities[a].consumedAt.None? && u.authorities[a].consumedAt.Some?
          && u.authorities[a].issue == t.authorities[a].issue)
    && (forall c | c in t.checkpoints :: c in u.checkpoints && u.checkpoints[c] == t.checkpoints[c])
    && (forall c | c in u.checkpoints && c !in t.checkpoints :: !Legacy(u.checkpoints[c]))
  }

  /** An INSERT finds its key unused; an UPDATE and a DELETE find their row, and that of an authority changes it. */
  predicate Finds(t: Tables, s: Step) {
    match s
    case InsertJob(j, _) => j !in t.jobs
    case UpdateJob(j, _) => j in t.jobs
    case DeleteJob(j) => j in t.jobs
    case InsertAuthority(a, _) => a !in t.authorities
    case UpdateAuthority(a, row) => a in t.authorities && row != t.authorities[a]
    case DeleteAuthority(a) => a in t.authorities
    case InsertCheckpoint(c, _) => c !in t.checkpoints
  }

  lemma FollowingAgrees(t: Tables, row: CheckpointRow)
    ensures FollowsAdmission(t, row) <==> Agrees(t, row)
  {
  }

  lemma AuthorityRowsDecide(t: Tables, u: Tables, a: AuthorityId, row: AuthorityRow)
    requires Declared(t) && u == t.(authorities := t.authorities[a := row])
    ensures (forall b | b in u.authorities :: AuthorityDeclared(u, u.authorities[b]))
            && (forall b, c | b in u.authorities && c in u.authorities && b != c ::
                  u.authorities[b].issue.envelope != u.authorities[c].issue.envelope)
            <==> AuthorityRowOk(t, a, row)
  {
    assert u.authorities[a] == row;
    forall b | b in t.authorities && b != a
      ensures b in u.authorities && u.authorities[b] == t.authorities[b] && AuthorityDeclared(u, u.authorities[b])
    {
      assert AuthorityDeclared(t, t.authorities[b]);
    }
  }

  lemma JobStatementsAccepted(t: Tables, s: Step)
    requires Declared(t) && (s.InsertJob? || s.UpdateJob? || s.DeleteJob?)
    ensures Admits(t, s) <==> Finds(t, s) && Declared(Written(t, s)) && Keeps(t, Written(t, s))
  {
    var u := Written(t, s);
    assert !s.DeleteJob? ==> s.job in u.jobs && u.jobs[s.job] == s.jobRow;
    if Admits(t, s) {
      forall c | c in u.checkpoints ensures Legacy(u.checkpoints[c]) || Agrees(u, u.checkpoints[c]) {
        assert Legacy(t.checkpoints[c]) || Agrees(t, t.checkpoints[c]);
      }
      forall a | a in u.authorities ensures AuthorityDeclared(u, u.authorities[a]) {
        assert AuthorityDeclared(t, t.authorities[a]);
      }
    }
    if s.DeleteJob? && Finds(t, s) && Declared(u) {
      forall a | a in t.authorities && t.authorities[a].binding.Some? ensures t.authorities[a].binding.value.job != s.job {
        assert AuthorityDeclared(u, u.authorities[a]);
      }
      forall c | c in t.checkpoints ensures t.checkpoints[c].job != Some(s.job) {
        assert Legacy(u.checkpoints[c]) || Agrees(u, u.checkpoints[c]);
      }
    }
  }

  /** Checkpoints rest on consumed authorities, which no admitted statement on an authority changes. */
  lemma AgreementsStay(t: Tables, s: Step)
    requires Declared(t) && Admits(t, s) && (s.InsertAuthority? || s.UpdateAuthority? || s.DeleteAuthority?)
    ensures var u := Written(t, s);
            forall c | c in u.checkpoints :: Legacy(u.checkpoints[c]) || Agrees(u, u.checkpoints[c])
  {
    var u := Written(t, s);
    forall c | c in u.checkpoints ensures Legacy(u.checkpoints[c]) || Agrees(u, u.checkpoints[c]) {
      assert Legacy(t.checkpoints[c]) || Agrees(t, t.checkpoints[c]);
    }
  }

  lemma DeletedAuthorityAccepted(t: Tables, s: Step)
    requires Declared(t) && s.DeleteAuthority?
    ensures Admits(t, s) <==> Finds(t, s) && Declared(Written(t, s)) && Keeps(t, Written(t, s))
  {
    var u := Written(t, s);
    if Admits(t, s) {
      AgreementsStay(t, s);
      forall a | a in u.authorities ensures AuthorityDeclared(u, u.authorities[a]) {
        assert AuthorityDeclared(t, t.authorities[a]);
      }
    }
    if Finds(t, s) && Declared(u) {
      forall c | c in t.checkpoints ensures t.checkpoints[c].authority != Some(s.authority) {
        assert Legacy(u.checkpoints[c]) || Agrees(u, u.checkpoints[c]);
      }
    }
  }

  lemma WrittenAuthorityAccepted(t: Tables, s: Step)
    requires Declared(t) && (s.InsertAuthority? || s.UpdateAuthority?)
    ensures Admits(t, s) <==> Finds(t, s) && Declared(Written(t, s)) && Keeps(t, Written(t, s))
  {
    var u := Written(t, s);
    AuthorityRowsDecide(t, u, s.authority, s.authorityRow);
    assert s.authority in u.authorities && u.authorities[s.authority] == s.authorityRow;
    if Admits(t, s) {
      AgreementsStay(t, s);
    }
  }

  lemma AuthorityStatementsAccepted(t: Tables, s: Step)
    requires Declared(t) && (s.InsertAuthority? || s.UpdateAuthority? || s.DeleteAuthority?)
    ensures Admits(t, s) <==> Finds(t, s) && Declared(Written(t, s)) && Keeps(t, Written(t, s))
  {
    if s.DeleteAuthority? {
      DeletedAuthorityAccepted(t, s);
    } else {
      WrittenAuthorityAccepted(t, s);
    }
  }

  lemma CheckpointStatementsAccepted(t: Tables, s: Step)
    requires Declared(t) && s.InsertCheckpoint?
    ensures Admits(t, s) <==> Finds(t, s) && Declared(Written(t, s)) && Keeps(t, Written(t, s))
  {
    var u := Written(t, s);
    FollowingAgrees(t, s.checkpointRow);
    assert u.checkpoints[s.checkpoint] == s.checkpointRow;
    forall row ensures Agrees(u, row) <==> Agrees(t, row) {
    }
    forall a | a in t.authorities ensures AuthorityDeclared(u, u.authorities[a]) {
      assert AuthorityDeclared(t, t.authorities[a]);
    }
    if Admits(t, s) {
      forall c | c in u.checkpoints ensures Legacy(u.checkpoints[c]) || Agrees(u, u.checkpoints[c]) {
        assert c in t.checkpoints ==> Legacy(t.checkpoints[c]) || Agrees(t, t.checkpoints[c]);
      }
    }
    if Finds(t, s) && Declared(u) && Keeps(t, u) {
      forall k | k in t.checkpoints && s.checkpointRow.authority.Some?
        ensures t.checkpoints[k].authority != s.checkpointRow.authority
      {
        assert u.checkpoints[k] == t.checkpoints[k] && k != s.checkpoint;
      }
    }
  }

  /**
   The guards, which look at the tables before the row is in them, let through exactly the
   statements after which everything declared holds and nothing was done that may not be.
   */
  lemma AcceptedIff(t: Tables, s: Step)
    requires Declared(t)
    ensures Admits(t, s) <==> Finds(t, s) && Declared(Written(t, s)) && Keeps(t, Written(t, s))
  {
    if s.InsertCheckpoint? {
      CheckpointStatementsAccepted(t, s);
    } else if s.InsertJob? || s.UpdateJob? || s.DeleteJob? {
      JobStatementsAccepted(t, s);
    } else {
      AuthorityStatementsAccepted(t, s);
    }
  }

  lemma {:induction false} RunKeepsDeclared(t: Tables, steps: seq<Step>)
    requires Declared(t)
    ensures Declared(Run(t, steps))
    decreases |steps|
  {
    if steps != [] {
      AcceptedIff(t, steps[0]);
      RunKeepsDeclared(if Admits(t, steps[0]) then Effect(t, steps[0]) else t, steps[1..]);
    }
  }

  /** After any statements every checkpoint written since the freeze agrees in every column. */
  lemma EveryCheckpointAgrees(t: Tables, steps: seq<Step>, c: CheckpointId)
    requires OnlyLegacy(t) && c in Run(t, steps).checkpoints && !Legacy(Run(t, steps).checkpoints[c])
    ensures Agrees(Run(t, steps), Run(t, steps).checkpoints[c])
  {
    RunKeepsBinding(t, steps);
    FollowingAgrees(Run(t, steps), Run(t, steps).checkpoints[c]);
  }

  lemma {:induction false} RunAppends(t: Tables, steps: seq<Step>, s: Step)
    ensures Run(t, steps + [s]) == if Admits(Run(t, steps), s) then Effect(Run(t, steps), s) else Run(t, steps)
    decreases |steps|
  {
    if steps == [] {
      assert [s][1..] == [];
    } else {
      assert (steps + [s])[0] == steps[0] && (steps + [s])[1..] == steps[1..] + [s];
      RunAppends(if Admits(t, steps[0]) then Effect(t, steps[0]) else t, steps[1..], s);
    }
  }

  /** Nothing rests on the authority yet. */
  predicate Unspent(t: Tables, authority: Option<AuthorityId>) {
    forall k | k in t.checkpoints :: authority.Some? ==> t.checkpoints[k].authority != authority
  }

  lemma AgreeingIsAdmitted(t: Tables, c: CheckpointId, row: CheckpointRow)
    requires Declared(t)
    ensures Admits(t, InsertCheckpoint(c, row)) <==> c !in t.checkpoints && Unspent(t, row.authority) && Agrees(t, row)
  {
    FollowingAgrees(t, row);
    if Agrees(t, row) {
      assert AuthorityDeclared(t, t.authorities[row.authority.value]);
    }
  }

  /** And after any statements a checkpoint under an unused key is recorded exactly when it agrees and its authority is unspent. */
  lemma CheckpointIsRecordedIff(t: Tables, steps: seq<Step>, c: CheckpointId, row: CheckpointRow)
    requires Declared(t) && c !in Run(t, steps).checkpoints
    ensures c in Run(t, steps + [InsertCheckpoint(c, row)]).checkpoints
            <==> Unspent(Run(t, steps), row.authority) && Agrees(Run(t, steps), row)
  {
    RunKeepsDeclared(t, steps);
    RunAppends(t, steps, InsertCheckpoint(c, row));
    AgreeingIsAdmitted(Run(t, steps), c, row);
  }

  // ----- conservation of item counts --------------------------------------------------------------

  ghost function Total<K(!new)>(items: map<K, nat>, keys: set<K>): nat
    requires keys <= items.Keys
  {
    if keys == {} then 0
    else
      var k :| k in keys;
      items[k] + Total(items, keys - {k})
  }

  lemma {:induction false} TotalTakesAny<K(!new)>(items: map<K, nat>, keys: set<K>, k: K)
    requires keys <= items.Keys && k in keys
    ensures Total(items, keys) == items[k] + Total(items, keys - {k})
    decreases |keys|
  {
    var first :| first in keys && Total(items, keys) == items[first] + Total(items, keys - {first});
    if first != k {
      TotalTakesAny(items, keys - {first}, k);
      TotalTakesAny(items, keys - {k}, first);
      assert keys - {first} - {k} == keys - {k} - {first};
    }
  }

  function CheckpointItems(t: Tables): map<CheckpointId, nat> {
    map c | c in t.checkpoints :: t.checkpoints[c].page.items
  }

  function AuthorityItems(t: Tables): map<AuthorityId, nat> {
    map a | a in t.authorities ::
      if t.authorities[a].binding.Some? then t.authorities[a].binding.value.page.items else 0
  }

  function Backing(t: Tables, cs: set<CheckpointId>): set<AuthorityId> {
    set c | c in cs && c in t.checkpoints && t.checkpoints[c].authority.Some? :: t.checkpoints[c].authority.value
  }

  /** `c` adds exactly its own authority to what backs the rest. */
  lemma BackingSplits(t: Tables, cs: set<CheckpointId>, c: CheckpointId)
    requires BackedOnce(t) && cs <= t.checkpoints.Keys && c in cs && t.checkpoints[c].authority.Some?
    ensures var a := t.checkpoints[c].authority.value;
            && a !in Backing(t, cs - {c})
            && Backing(t, cs) == Backing(t, cs - {c}) + {a}
            && Backing(t, cs) - {a} == Backing(t, cs - {c})
  {
  }

  lemma BoundItemsAgree(t: Tables, c: CheckpointId)
    requires c in t.checkpoints && FollowsAdmission(t, t.checkpoints[c])
    ensures t.checkpoints[c].authority.value in AuthorityItems(t)
    ensures CheckpointItems(t)[c] == AuthorityItems(t)[t.checkpoints[c].authority.value]
  {
  }

  /** Any set of bound checkpoints counts exactly the items its distinct authorities admitted. */
  lemma {:induction false} ItemsAreConserved(t: Tables, cs: set<CheckpointId>)
    requires BackedOnce(t)
    requires cs <= t.checkpoints.Keys && forall c | c in cs :: FollowsAdmission(t, t.checkpoints[c])
    ensures Backing(t, cs) <= t.authorities.Keys
    ensures |Backing(t, cs)| == |cs|
    ensures Total(CheckpointItems(t), cs) == Total(AuthorityItems(t), Backing(t, cs))
    decreases |cs|
  {
    if cs == {} {
      assert Backing(t, cs) == {};
    } else {
      var c :| c in cs;
      BackingSplits(t, cs, c);
      BoundItemsAgree(t, c);
      ItemsAreConserved(t, cs - {c});
      TotalTakesAny(CheckpointItems(t), cs, c);
      TotalTakesAny(AuthorityItems(t), Backing(t, cs), t.checkpoints[c].authority.value);
    }
  }

  /**
   After any statements over tables that held only legacy checkpoints, every
   checkpoint written since agrees with its consumed authority and its frozen job,
   no authority backs two, and their item totals agree.
   */
  lemma EveryRunConserves(t: Tables, steps: seq<Step>, cs: set<CheckpointId>)
    requires OnlyLegacy(t)
    requires cs <= Run(t, steps).checkpoints.Keys && forall c | c in cs :: !Legacy(Run(t, steps).checkpoints[c])
    ensures var u := Run(t, steps);
            && (forall c | c in cs :: FollowsAdmission(u, u.checkpoints[c]))
            && |Backing(u, cs)| == |cs|
            && Backing(u, cs) <= u.authorities.Keys
            && Total(CheckpointItems(u), cs) == Total(AuthorityItems(u), Backing(u, cs))
  {
    assert Bound(t) && BackedOnce(t);
    RunKeepsBinding(t, steps);
    ItemsAreConserved(Run(t, steps), cs);
  }

  // ----- the tables themselves -----------------------------------------------------------------------

  lemma AcceptedUnderRules(t: Tables, s: Step)
    ensures Declared(t) ==> (Admits(t, s) <==> Finds(t, s) && Declared(Written(t, s)) && Keeps(t, Written(t, s)))
  {
    if Declared(t) {
      AcceptedIff(t, s);
    }
  }

  lemma RecordedUnderRules(t: Tables, c: CheckpointId, row: CheckpointRow)
    ensures Declared(t) ==>
              (Admits(t, InsertCheckpoint(c, row)) <==> c !in t.checkpoints && Unspent(t, row.authority) && Agrees(t, row))
  {
    if Declared(t) {
      AgreeingIsAdmitted(t, c, row);
    }
  }

  class AdmissionTables {
    var jobs: map<JobId, JobRow>
    var authorities: map<AuthorityId, AuthorityRow>
    var checkpoints: map<CheckpointId, CheckpointRow>

    function Contents(): Tables
      reads this
    {
      Tables(jobs, authorities, checkpoints)
    }

    ghost predicate Valid()
      reads this
    {
      Bound(Contents()) && BackedOnce(Contents())
    }

    constructor (legacy: Tables)
      requires OnlyLegacy(legacy)
      ensures Valid() && Contents() == legacy
    {
      jobs, authorities, checkpoints := legacy.jobs, legacy.authorities, legacy.checkpoints;
    }

    /** UPDATE of an authority: one exact consumption, then never again. */
    method Consume(a: AuthorityId, row: AuthorityRow) returns (ok: bool)
      requires Valid()
      modifies this`authorities
      ensures Valid()
      ensures ok == Admits(old(Contents()), UpdateAuthority(a, row))
      ensures Contents() == if ok then Effect(old(Contents()), UpdateAuthority(a, row)) else old(Contents())
      ensures ok ==> forall again :: !Admits(Contents(), UpdateAuthority(a, again))
      ensures old(Declared(Contents())) ==> Declared(Contents())
    {
      AcceptedUnderRules(Contents(), UpdateAuthority(a, row));
      ok := a in authorities && AuthorityRowOk(Contents(), a, row) && ConsumesOnce(authorities[a], row);
      if ok {
        StepKeepsBinding(Contents(), UpdateAuthority(a, row));
        authorities := authorities[a := row];
      }
    }

    method UpdateJobRow(j: JobId, row: JobRow) returns (ok: bool)
      requires Valid()
      modifies this`jobs
      ensures Valid()
      ensures ok == Admits(old(Contents()), UpdateJob(j, row))
      ensures Contents() == if ok then Effect(old(Contents()), UpdateJob(j, row)) else old(Contents())
      ensures old(Declared(Contents())) ==> Declared(Contents())
    {
      AcceptedUnderRules(Contents(), UpdateJob(j, row));
      ok := j in jobs && row.scope == jobs[j].scope;
      if ok {
        StepKeepsBinding(Contents(), UpdateJob(j, row));
        jobs := jobs[j := row];
      }
    }

    /** INSERT of a checkpoint; afterwards its authority can back no other. */
    method Record(c: CheckpointId, row: CheckpointRow) returns (ok: bool)
      requires Valid()
      modifies this`checkpoints
      ensures Valid()
      ensures ok == Admits(old(Contents()), InsertCheckpoint(c, row))
      ensures Contents() == if ok then Effect(old(Contents()), InsertCheckpoint(c, row)) else old(Contents())
      ensures ok ==> forall d, other: CheckpointRow | other.authority == row.authority ::
                !Admits(Contents(), InsertCheckpoint(d, other))
      ensures old(Declared(Contents())) ==>
                && Declared(Contents())
                && (ok <==> c !in old(checkpoints) && Unspent(old(Contents()), row.authority) && Agrees(old(Contents()), row))
    {
      AcceptedUnderRules(Contents(), InsertCheckpoint(c, row));
      RecordedUnderRules(Contents(), c, row);
      ok := Admits(Contents(), InsertCheckpoint(c, row));
      if ok {
        StepKeepsBinding(Contents(), InsertCheckpoint(c, row));
        checkpoints := checkpoints[c := row];
        assert Contents().checkpoints[c].authority == row.authority;
      }
    }
  }
}
