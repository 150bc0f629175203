/** The identifiers the modules of the native source plane share. */
module NativeIdentifiers {
  datatype AccountId = Account(n: nat)
  datatype BridgeId = Bridge(n: nat)
  datatype BucketId = Bucket(n: nat)
  datatype CheckpointId = Checkpoint(n: nat)
  datatype ConfigurationId = Configuration(n: nat)
  datatype JobId = Job(n: nat)
  datatype RunId = SyncRun(n: nat)

  /** `configuration_id` and its `revision`. */
  datatype RevisionKey = RevisionKey(configuration: ConfigurationId, number: nat)
}
