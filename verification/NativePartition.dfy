/**
 Principal partitioning of the native source plane: the composite keys and
 references one revision adds, the refusal to add them over existing rows, and
 what they say about chains of references and about whole Principals.
 */
module NativePartition {
  import opened Options

  datatype Table =
    | NativeBridges
    | NativeBridgeObservations
    | NativeSourceAccounts
    | NativeSourceBuckets
    | NativeDiscoverySnapshots
    | NativeConfigurationRevisions
    | NativeConfigurationBuckets
    | NativePreflightObservations
    | NativeAdmissionAuthorities
    | NativeSourceReviewRoutes
    | NativeSyncRuns
    | NativeBucketRuns
    | NativeSyncJobs
    | NativeCheckpoints
    | SourceVersionEvidence
    | SourceObservations
    | SourceMemberships
    | NativeWatcherSimulations
    | NativeSimulationReceipts
    | NativeLiveActivationGates

  datatype Column =
    | PrincipalId
    | BridgeId
    | AccountId
    | BucketId
    | ConfigurationId
    | Revision
    | AuthorityId
    | RunId
    | JobId
    | CheckpointId
    | SimulationId
    | Sequence
    | ParentBucketId
    | ConfigurationRevision
    | AdmissionAuthorityId
    | PreviousCheckpointId
    | SimulationSequence
    | ProtocolVersion
    | Label
    | VersionId
    | EvidenceKind
    | PayloadSha256

  /** A unique key of a table, and a composite reference from a child table to a key of its parent. */
  datatype Key = Key(table: Table, columns: seq<Column>)
  datatype ForeignKey = ForeignKey(child: Table, local: seq<Column>, parent: Table, remote: seq<Column>)

  // ----- the frozen lists, by constraint name --------------------------------------------------

  datatype KeyName =
    | NativeBridgeBelongsToPrincipal
    | NativeAccountBelongsToPrincipal
    | NativeBucketBelongsToPrincipal
    | NativeConfigurationBelongsToPrincipal
    | NativeConfigurationBucketBelongsToPrincipal
    | NativeAuthorityBelongsToPrincipal
    | NativeRunBelongsToPrincipal
    | NativeJobBelongsToPrincipal
    | NativeCheckpointBelongsToPrincipal
    | NativeSimulationBelongsToPrincipal

  datatype ReferenceName =
    | NativeBridgeObservationStaysInPrincipal
    | NativeAccountBridgeStaysInPrincipal
    | NativeBucketAccountStaysInPrincipal
    | NativeBucketParentStaysInPrincipal
    | NativeDiscoveryBridgeStaysInPrincipal
    | NativeConfigurationBridgeStaysInPrincipal
    | NativeSelectedConfigurationStaysInPrincipal
    | NativeSelectedBucketStaysInPrincipal
    | NativePreflightStaysInPrincipal
    | NativeAuthorityBridgeStaysInPrincipal
    | NativeAuthoritySelectionStaysInPrincipal
    | NativeRunConfigurationStaysInPrincipal
    | NativeRunBridgeStaysInPrincipal
    | NativeBucketRunStaysInPrincipal
    | NativeBucketRunBucketStaysInPrincipal
    | NativeJobBucketStaysInPrincipal
    | NativeJobSelectionStaysInPrincipal
    | NativeJobRunStaysInPrincipal
    | NativeCheckpointJobStaysInPrincipal
    | NativeCheckpointBucketStaysInPrincipal
    | NativeCheckpointAuthorityStaysInPrincipal
    | NativeCheckpointChainStaysInPrincipal
    | SourceObservationBucketStaysInPrincipal
    | SourceMembershipBucketStaysInPrincipal
    | NativeSimulationBucketStaysInPrincipal
    | NativeSimulationReceiptStaysInPrincipal
    | NativeSimulationCheckpointStaysInPrincipal
    | NativeLiveGateBucketStaysInPrincipal

  function UniqueKey(name: KeyName): (key: Key)
    ensures LeadsWithPrincipal(key.columns)
  {
    match name
    case NativeBridgeBelongsToPrincipal => Key(NativeBridges, [PrincipalId, BridgeId])
    case NativeAccountBelongsToPrincipal => Key(NativeSourceAccounts, [PrincipalId, AccountId])
    case NativeBucketBelongsToPrincipal => Key(NativeSourceBuckets, [PrincipalId, BucketId])
    case NativeConfigurationBelongsToPrincipal => Key(NativeConfigurationRevisions, [PrincipalId, ConfigurationId, Revision])
    case NativeConfigurationBucketBelongsToPrincipal => Key(NativeConfigurationBuckets, [PrincipalId, ConfigurationId, Revision, BucketId])
    case NativeAuthorityBelongsToPrincipal => Key(NativeAdmissionAuthorities, [PrincipalId, AuthorityId])
    case NativeRunBelongsToPrincipal => Key(NativeSyncRuns, [PrincipalId, RunId])
    case NativeJobBelongsToPrincipal => Key(NativeSyncJobs, [PrincipalId, JobId])
    case NativeCheckpointBelongsToPrincipal => Key(NativeCheckpoints, [PrincipalId, CheckpointId])
    case NativeSimulationBelongsToPrincipal => Key(NativeWatcherSimulations, [PrincipalId, SimulationId, Sequence])
  }

  function Reference(name: ReferenceName): (fk: ForeignKey)
    ensures LeadsWithPrincipal(fk.local) && LeadsWithPrincipal(fk.remote)
    ensures |fk.local| == |fk.remote|
  {
    match name
    case NativeBridgeObservationStaysInPrincipal =>
      ForeignKey(NativeBridgeObservations, [PrincipalId, BridgeId],
                 NativeBridges, [PrincipalId, BridgeId])
    case NativeAccountBridgeStaysInPrincipal =>
      ForeignKey(NativeSourceAccounts, [PrincipalId, BridgeId],
                 NativeBridges, [PrincipalId, BridgeId])
    case NativeBucketAccountStaysInPrincipal =>
      ForeignKey(NativeSourceBuckets, [PrincipalId, AccountId],
                 NativeSourceAccounts, [PrincipalId, AccountId])
    case NativeBucketParentStaysInPrincipal =>
      ForeignKey(NativeSourceBuckets, [PrincipalId, ParentBucketId],
                 NativeSourceBuckets, [PrincipalId, BucketId])
    case NativeDiscoveryBridgeStaysInPrincipal =>
      ForeignKey(NativeDiscoverySnapshots, [PrincipalId, BridgeId],
                 NativeBridges, [PrincipalId, BridgeId])
    case NativeConfigurationBridgeStaysInPrincipal =>
      ForeignKey(NativeConfigurationRevisions, [PrincipalId, BridgeId],
                 NativeBridges, [PrincipalId, BridgeId])
    case NativeSelectedConfigurationStaysInPrincipal =>
      ForeignKey(NativeConfigurationBuckets, [PrincipalId, ConfigurationId, Revision],
                 NativeConfigurationRevisions, [PrincipalId, ConfigurationId, Revision])
    case NativeSelectedBucketStaysInPrincipal =>
      ForeignKey(NativeConfigurationBuckets, [PrincipalId, BucketId],
                 NativeSourceBuckets, [PrincipalId, BucketId])
    case NativePreflightStaysInPrincipal =>
      ForeignKey(NativePreflightObservations, [PrincipalId, ConfigurationId, ConfigurationRevision, BucketId],
                 NativeConfigurationBuckets, [PrincipalId, ConfigurationId, Revision, BucketId])
    case NativeAuthorityBridgeStaysInPrincipal =>
      ForeignKey(NativeAdmissionAuthorities, [PrincipalId, BridgeId],
                 NativeBridges, [PrincipalId, BridgeId])
    case NativeAuthoritySelectionStaysInPrincipal =>
      ForeignKey(NativeAdmissionAuthorities, [PrincipalId, ConfigurationId, ConfigurationRevision, BucketId],
                 NativeConfigurationBuckets, [PrincipalId, ConfigurationId, Revision, BucketId])
    case NativeRunConfigurationStaysInPrincipal =>
      ForeignKey(NativeSyncRuns, [PrincipalId, ConfigurationId, ConfigurationRevision],
                 NativeConfigurationRevisions, [PrincipalId, ConfigurationId, Revision])
    case NativeRunBridgeStaysInPrincipal =>
      ForeignKey(NativeSyncRuns, [PrincipalId, BridgeId],
                 NativeBridges, [PrincipalId, BridgeId])
    case NativeBucketRunStaysInPrincipal =>
      ForeignKey(NativeBucketRuns, [PrincipalId, RunId],
                 NativeSyncRuns, [PrincipalId, RunId])
    case NativeBucketRunBucketStaysInPrincipal =>
      ForeignKey(NativeBucketRuns, [PrincipalId, BucketId],
                 NativeSourceBuckets, [PrincipalId, BucketId])
    case NativeJobBucketStaysInPrincipal =>
      ForeignKey(NativeSyncJobs, [PrincipalId, BucketId],
                 NativeSourceBuckets, [PrincipalId, BucketId])
    case NativeJobSelectionStaysInPrincipal =>
      ForeignKey(NativeSyncJobs, [PrincipalId, ConfigurationId, ConfigurationRevision, BucketId],
                 NativeConfigurationBuckets, [PrincipalId, ConfigurationId, Revision, BucketId])
    case NativeJobRunStaysInPrincipal =>
      ForeignKey(NativeSyncJobs, [PrincipalId, RunId],
                 NativeSyncRuns, [PrincipalId, RunId])
    case NativeCheckpointJobStaysInPrincipal =>
      ForeignKey(NativeCheckpoints, [PrincipalId, JobId],
                 NativeSyncJobs, [PrincipalId, JobId])
    case NativeCheckpointBucketStaysInPrincipal =>
      ForeignKey(NativeCheckpoints, [PrincipalId, BucketId],
                 NativeSourceBuckets, [PrincipalId, BucketId])
    case NativeCheckpointAuthorityStaysInPrincipal =>
      ForeignKey(NativeCheckpoints, [PrincipalId, AdmissionAuthorityId],
                 NativeAdmissionAuthorities, [PrincipalId, AuthorityId])
    case NativeCheckpointChainStaysInPrincipal =>
      ForeignKey(NativeCheckpoints, [PrincipalId, PreviousCheckpointId],
                 NativeCheckpoints, [PrincipalId, CheckpointId])
    case SourceObservationBucketStaysInPrincipal =>
      ForeignKey(SourceObservations, [PrincipalId, BucketId],
                 NativeSourceBuckets, [PrincipalId, BucketId])
    case SourceMembershipBucketStaysInPrincipal =>
      ForeignKey(SourceMemberships, [PrincipalId, ParentBucketId],
                 NativeSourceBuckets, [PrincipalId, BucketId])
    case NativeSimulationBucketStaysInPrincipal =>
      ForeignKey(NativeWatcherSimulations, [PrincipalId, BucketId],
                 NativeSourceBuckets, [PrincipalId, BucketId])
    case NativeSimulationReceiptStaysInPrincipal =>
      ForeignKey(NativeSimulationReceipts, [PrincipalId, SimulationId, SimulationSequence],
                 NativeWatcherSimulations, [PrincipalId, SimulationId, Sequence])
    case NativeSimulationCheckpointStaysInPrincipal =>
      ForeignKey(NativeSimulationReceipts, [PrincipalId, CheckpointId],
                 NativeCheckpoints, [PrincipalId, CheckpointId])
    case NativeLiveGateBucketStaysInPrincipal =>
      ForeignKey(NativeLiveActivationGates, [PrincipalId, BucketId],
                 NativeSourceBuckets, [PrincipalId, BucketId])
  }

  predicate LeadsWithPrincipal(columns: seq<Column>) {
    columns != [] && columns[0] == PrincipalId
  }

  /** Every reference names a declared key of its parent, so that it can be created at all. */
  function KeyNamedBy(name: ReferenceName): (key: KeyName)
    ensures UniqueKey(key) == Key(Reference(name).parent, Reference(name).remote)
  {
    match name
    case NativeBridgeObservationStaysInPrincipal
       | NativeAccountBridgeStaysInPrincipal
       | NativeDiscoveryBridgeStaysInPrincipal
       | NativeConfigurationBridgeStaysInPrincipal
       | NativeAuthorityBridgeStaysInPrincipal
       | NativeRunBridgeStaysInPrincipal =>
      NativeBridgeBelongsToPrincipal
    case NativeBucketAccountStaysInPrincipal =>
      NativeAccountBelongsToPrincipal
    case NativeBucketParentStaysInPrincipal
       | NativeSelectedBucketStaysInPrincipal
       | NativeBucketRunBucketStaysInPrincipal
       | NativeJobBucketStaysInPrincipal
       | NativeCheckpointBucketStaysInPrincipal
       | SourceObservationBucketStaysInPrincipal
       | SourceMembershipBucketStaysInPrincipal
       | NativeSimulationBucketStaysInPrincipal
       | NativeLiveGateBucketStaysInPrincipal =>
      NativeBucketBelongsToPrincipal
    case NativeSelectedConfigurationStaysInPrincipal
       | NativeRunConfigurationStaysInPrincipal =>
      NativeConfigurationBelongsToPrincipal
    case NativePreflightStaysInPrincipal
       | NativeAuthoritySelectionStaysInPrincipal
       | NativeJobSelectionStaysInPrincipal =>
      NativeConfigurationBucketBelongsToPrincipal
    case NativeBucketRunStaysInPrincipal
       | NativeJobRunStaysInPrincipal =>
      NativeRunBelongsToPrincipal
    case NativeCheckpointJobStaysInPrincipal =>
      NativeJobBelongsToPrincipal
    case NativeCheckpointAuthorityStaysInPrincipal =>
      NativeAuthorityBelongsToPrincipal
    case NativeCheckpointChainStaysInPrincipal
       | NativeSimulationCheckpointStaysInPrincipal =>
      NativeCheckpointBelongsToPrincipal
    case NativeSimulationReceiptStaysInPrincipal =>
      NativeSimulationBelongsToPrincipal
  }

  const TABLES: seq<Table> := [
    NativeBridges, NativeBridgeObservations, NativeSourceAccounts, NativeSourceBuckets,
    NativeDiscoverySnapshots, NativeConfigurationRevisions, NativeConfigurationBuckets, NativePreflightObservations,
    NativeAdmissionAuthorities, NativeSourceReviewRoutes, NativeSyncRuns, NativeBucketRuns,
    NativeSyncJobs, NativeCheckpoints, SourceVersionEvidence, SourceObservations,
    SourceMemberships, NativeWatcherSimulations, NativeSimulationReceipts, NativeLiveActivationGates
  ]

  const KEYS: seq<KeyName> := [
    NativeBridgeBelongsToPrincipal, NativeAccountBelongsToPrincipal,
    NativeBucketBelongsToPrincipal, NativeConfigurationBelongsToPrincipal,
    NativeConfigurationBucketBelongsToPrincipal, NativeAuthorityBelongsToPrincipal,
    NativeRunBelongsToPrincipal, NativeJobBelongsToPrincipal,
    NativeCheckpointBelongsToPrincipal, NativeSimulationBelongsToPrincipal
  ]

  const REFERENCES: seq<ReferenceName> := [
    NativeBridgeObservationStaysInPrincipal, NativeAccountBridgeStaysInPrincipal,
    NativeBucketAccountStaysInPrincipal, NativeBucketParentStaysInPrincipal,
    NativeDiscoveryBridgeStaysInPrincipal, NativeConfigurationBridgeStaysInPrincipal,
    NativeSelectedConfigurationStaysInPrincipal, NativeSelectedBucketStaysInPrincipal,
    NativePreflightStaysInPrincipal, NativeAuthorityBridgeStaysInPrincipal,
    NativeAuthoritySelectionStaysInPrincipal, NativeRunConfigurationStaysInPrincipal,
    NativeRunBridgeStaysInPrincipal, NativeBucketRunStaysInPrincipal,
    NativeBucketRunBucketStaysInPrincipal, NativeJobBucketStaysInPrincipal,
    NativeJobSelectionStaysInPrincipal, NativeJobRunStaysInPrincipal,
    NativeCheckpointJobStaysInPrincipal, NativeCheckpointBucketStaysInPrincipal,
    NativeCheckpointAuthorityStaysInPrincipal, NativeCheckpointChainStaysInPrincipal,
    SourceObservationBucketStaysInPrincipal, SourceMembershipBucketStaysInPrincipal,
    NativeSimulationBucketStaysInPrincipal, NativeSimulationReceiptStaysInPrincipal,
    NativeSimulationCheckpointStaysInPrincipal, NativeLiveGateBucketStaysInPrincipal
  ]

  // ----- rows and constraints -----------------------------------------------------------------

  /** A row of a table; a column without a cell is NULL. */
  datatype Row = Row(table: Table, cells: map<Column, string>)

  type Database = set<Row>

  predicate HasAll(r: Row, columns: seq<Column>) {
    forall i | 0 <= i < |columns| :: columns[i] in r.cells
  }

  /** The two rows hold the same values in these columns, none of them NULL. */
  predicate Agree(r: Row, local: seq<Column>, q: Row, remote: seq<Column>) {
    && |local| == |remote|
    && HasAll(r, local) && HasAll(q, remote)
    && forall i | 0 <= i < |local| :: r.cells[local[i]] == q.cells[remote[i]]
  }

  predicate Refers(child: Row, parent: Row, name: ReferenceName) {
    var fk := Reference(name);
    && child.table == fk.child && parent.table == fk.parent
    && Agree(child, fk.local, parent, fk.remote)
  }

  /** A NULL among the local columns names nothing (MATCH SIMPLE). */
  predicate ReferenceHolds(db: Database, name: ReferenceName) {
    var fk := Reference(name);
    forall r | r in db && r.table == fk.child && HasAll(r, fk.local) :: exists q | q in db :: Refers(r, q, name)
  }

  predicate KeyHolds(db: Database, name: KeyName) {
    var key := UniqueKey(name);
    forall r, q | r in db && q in db && r.table == key.table && q.table == key.table
                  && Agree(r, key.columns, q, key.columns) :: r == q
  }

  /** `principal_id` is NOT NULL in all twenty tables. */
  predicate Owned(db: Database) {
    forall r | r in db :: PrincipalId in r.cells
  }

  /** What the revision demands of the rows of the twenty tables. */
  ghost predicate Partitioned(db: Database) {
    && Owned(db)
    && (forall name :: KeyHolds(db, name))
    && (forall name :: ReferenceHolds(db, name))
  }

  function Principal(r: Row): Option<string> {
    if PrincipalId in r.cells then Some(r.cells[PrincipalId]) else None
  }

  /** One Principal's rows. */
  function Share(db: Database, principal: string): Database {
    set r | r in db && Principal(r) == Some(principal)
  }

  // ----- chains of references -------------------------------------------------------------------

  lemma ReferenceStaysInPrincipal(child: Row, parent: Row, name: ReferenceName)
    requires Refers(child, parent, name)
    ensures Principal(child).Some? && Principal(child) == Principal(parent)
  {
    var fk := Reference(name);
    assert child.cells[fk.local[0]] == parent.cells[fk.remote[0]];
  }

  ghost predicate Linked(r: Row, q: Row) {
    exists name :: Refers(r, q, name) || Refers(q, r, name)
  }

  /**
   Any path of references, followed forwards or backwards through any of the tables
   (up the bucket tree and along checkpoint predecessors too), stays in one Principal.
   */
  lemma {:induction false} PathStaysInPrincipal(path: seq<Row>, i: nat, j: nat)
    requires forall k | 0 <= k < |path| - 1 :: Linked(path[k], path[k + 1])
    requires i <= j < |path|
    ensures Principal(path[i]) == Principal(path[j])
    decreases j - i
  {
    if i < j {
      var name :| Refers(path[i], path[i + 1], name) || Refers(path[i + 1], path[i], name);
      if Refers(path[i], path[i + 1], name) {
        ReferenceStaysInPrincipal(path[i], path[i + 1], name);
      } else {
        ReferenceStaysInPrincipal(path[i + 1], path[i], name);
      }
      PathStaysInPrincipal(path, i + 1, j);
    }
  }

  /** A reference names one row, whichever row it is. */
  lemma ReferencedRowIsUnique(db: Database, child: Row, p: Row, q: Row, name: ReferenceName)
    requires Partitioned(db) && p in db && q in db
    requires Refers(child, p, name) && Refers(child, q, name)
    ensures p == q
  {
    assert KeyHolds(db, KeyNamedBy(name));
    assert Agree(p, Reference(name).remote, q, Reference(name).remote);
  }

  // ----- whole Principals --------------------------------------------------------------------------

  lemma KeyedRowsShareAPrincipal(r: Row, q: Row, name: KeyName)
    requires Agree(r, UniqueKey(name).columns, q, UniqueKey(name).columns)
    ensures Principal(r).Some? && Principal(r) == Principal(q)
  {
    var columns := UniqueKey(name).columns;
    assert r.cells[columns[0]] == q.cells[columns[0]];
  }

  lemma SharesArePartitioned(db: Database, principal: string)
    requires Partitioned(db)
    ensures Partitioned(Share(db, principal))
  {
    var share := Share(db, principal);
    forall name ensures KeyHolds(share, name) {
      assert KeyHolds(db, name);
    }
    forall name ensures ReferenceHolds(share, name) {
      var fk := Reference(name);
      assert ReferenceHolds(db, name);
      forall r | r in share && r.table == fk.child && HasAll(r, fk.local)
        ensures exists q | q in share :: Refers(r, q, name)
      {
        var q :| q in db && Refers(r, q, name);
        ReferenceStaysInPrincipal(r, q, name);
        assert q in share;
      }
    }
  }

  lemma PartitionedFromShares(db: Database)
    requires Owned(db) && forall principal :: Partitioned(Share(db, principal))
    ensures Partitioned(db)
  {
    forall name ensures KeyHolds(db, name) {
      var key := UniqueKey(name);
      forall r, q | r in db && q in db && r.table == key.table && q.table == key.table
                    && Agree(r, key.columns, q, key.columns)
        ensures r == q
      {
        KeyedRowsShareAPrincipal(r, q, name);
        var share := Share(db, r.cells[PrincipalId]);
        assert KeyHolds(share, name) && r in share && q in share;
      }
    }
    forall name ensures ReferenceHolds(db, name) {
      var fk := Reference(name);
      forall r | r in db && r.table == fk.child && HasAll(r, fk.local)
        ensures exists q | q in db :: Refers(r, q, name)
      {
        var share := Share(db, r.cells[PrincipalId]);
        assert r in share && ReferenceHolds(share, name);
        var q :| q in share && Refers(r, q, name);
        assert q in db;
      }
    }
  }

  /** The plane meets its constraints exactly when every Principal's rows do so by themselves. */
  lemma PartitionedIffEveryShareIs(db: Database)
    ensures Partitioned(db) <==> Owned(db) && forall principal :: Partitioned(Share(db, principal))
  {
    if Partitioned(db) {
      forall principal ensures Partitioned(Share(db, principal)) {
        SharesArePartitioned(db, principal);
      }
    }
    if Owned(db) && forall principal :: Partitioned(Share(db, principal)) {
      PartitionedFromShares(db);
    }
  }

  /** So one Principal's rows can be removed, or replaced by any that fit each other, whatever the rest hold. */
  lemma SharesAreIndependent(db: Database, principal: string, rows: Database)
    requires Partitioned(db) && Partitioned(rows)
    requires forall r | r in rows :: Principal(r) == Some(principal)
    ensures Partitioned(db - Share(db, principal) + rows)
  {
    var after := db - Share(db, principal) + rows;
    forall p ensures Partitioned(Share(after, p)) {
      if p == principal {
        assert Share(after, p) == rows;
      } else {
        SharesArePartitioned(db, p);
        assert Share(after, p) == Share(db, p);
      }
    }
    PartitionedFromShares(after);
  }

  // ----- the revision itself ---------------------------------------------------------------------

  predicate Empty(db: Database, t: Table) {
    forall r | r in db :: r.table != t
  }

  lemma EveryTableIsListed(t: Table)
    ensures t in TABLES
  {
  }

  lemma EveryKeyIsListed(k: KeyName)
    ensures k in KEYS
  {
  }

  lemma EveryReferenceIsListed(r: ReferenceName)
    ensures r in REFERENCES
  {
  }

  class Schema {
    var owned: set<Table>
    var keys: set<KeyName>
    var references: set<ReferenceName>
    var bridgeIdentity: seq<Column>
    var evidenceIdentity: seq<Column>

    constructor ()
      ensures owned == {} && keys == {} && references == {}
    {
      owned, keys, references := {}, {}, {};
      bridgeIdentity, evidenceIdentity := [ProtocolVersion, Label], [VersionId, EvidenceKind, PayloadSha256];
    }

    /** The column and its CHECK go onto each table in turn, until one holds a row. */
    method OwnTables(db: Database) returns (refused: Option<Table>)
      requires owned == {}
      modifies this`owned
      ensures refused.None? <==> db == {}
      ensures refused.None? ==> forall t :: t in owned
      ensures refused.Some? ==>
                && owned == {}
                && exists i | 0 <= i < |TABLES| ::
                     && TABLES[i] == refused.value && !Empty(db, TABLES[i])
                     && forall h | 0 <= h < i :: Empty(db, TABLES[h])
    {
      for i := 0 to |TABLES|
        invariant forall h | 0 <= h < i :: TABLES[h] in owned
        invariant forall h | 0 <= h < i :: Empty(db, TABLES[h])
      {
        if !Empty(db, TABLES[i]) {
          owned := {};
          return Some(TABLES[i]);
        }
        owned := owned + {TABLES[i]};
      }
      forall t: Table ensures t in owned && Empty(db, t) {
        EveryTableIsListed(t);
      }
      assert forall r | r in db :: !Empty(db, r.table);
      return None;
    }

    method AddKeys()
      modifies this`keys
      ensures forall k :: k in keys
    {
      for i := 0 to |KEYS|
        invariant forall h | 0 <= h < i :: KEYS[h] in keys
      {
        keys := keys + {KEYS[i]};
      }
      forall k: KeyName ensures k in keys {
        EveryKeyIsListed(k);
      }
    }

    method AddReferences()
      modifies this`references
      ensures forall r :: r in references
    {
      for i := 0 to |REFERENCES|
        invariant forall h | 0 <= h < i :: REFERENCES[h] in references
      {
        references := references + {REFERENCES[i]};
      }
      forall r: ReferenceName ensures r in references {
        EveryReferenceIsListed(r);
      }
    }

    /**
     Refuses at the first populated table, and then nothing of what it had already added
     stays; otherwise every table, key and reference of the lists is in place, over rows
     (there are none) that meet them all.
     */
    method Upgrade(db: Database) returns (refused: Option<Table>)
      requires owned == {} && keys == {} && references == {}
      modifies this
      ensures refused.None? <==> db == {}
      ensures refused.Some? ==>
                && owned == {} && keys == {} && references == {}
                && bridgeIdentity == old(bridgeIdentity) && evidenceIdentity == old(evidenceIdentity)
                && exists i | 0 <= i < |TABLES| ::
                     && TABLES[i] == refused.value && !Empty(db, TABLES[i])
                     && forall h | 0 <= h < i :: Empty(db, TABLES[h])
      ensures refused.None? ==>
                && (forall t :: t in owned) && (forall k :: k in keys) && (forall r :: r in references)
                && LeadsWithPrincipal(bridgeIdentity) && LeadsWithPrincipal(evidenceIdentity)
                && Partitioned(db)
    {
      refused := OwnTables(db);
      if refused.None? {
        AddKeys();
        bridgeIdentity := [PrincipalId, ProtocolVersion, Label];
        evidenceIdentity := [PrincipalId, VersionId, EvidenceKind, PayloadSha256];
        AddReferences();
      }
    }
  }
}
