/** What a reader finds in a rendered replication.toml: each literal field once, with the
    value of the storage block or the credential it stands for. */
module ReplicationTomlText {
  import opened Text
  import opened Paths
  import opened ReplicationToml

  /** The field occurs exactly once, with this value. */
  ghost predicate Only(fs: seq<(string, Value)>, key: string, v: Value) {
    exists i :: OnlyAt(fs, i, key, v)
  }

  predicate OnlyAt(fs: seq<(string, Value)>, i: int, key: string, v: Value) {
    0 <= i < |fs| && fs[i] == (key, v) && forall j :: 0 <= j < |fs| && j != i ==> fs[j].0 != key
  }

  /** A credential of the storage's Secret, empty when it is missing. */
  function Secret(creds: map<string, string>, key: string): Value {
    Str(if key in creds then creds[key] else "")
  }

  /** A cluster's data directory below a configured one, the root when that is empty. */
  function Placed(base: string, cluster: string): Value {
    Str(JoinPath([if base == "" then "/" else base, cluster, "data"]))
  }

  /** What a lenient reader recovers from the file rendered for a storage. */
  function Recovered(st: Storage, cluster: string, creds: map<string, string>): Option<Sink> {
    var sink := SinkOf(st, SinkDirectory(st, cluster), creds);
    if sink.Some? then ReadSink(SinkText(sink.value), false) else None
  }

  lemma RecoveredSink(st: Storage, cluster: string, creds: map<string, string>)
    ensures Recovered(st, cluster, creds) == SinkOf(st, SinkDirectory(st, cluster), creds)
  {
    hide ReadSink, SinkText, SinkDirectory, SinkOf;
    if SinkOf(st, SinkDirectory(st, cluster), creds).Some? {
      FileReadsBack(st, SinkDirectory(st, cluster), creds, false);
    }
  }

  /** No two of the keys are the same. */
  predicate DistinctKeys(fs: seq<(string, Value)>) {
    forall i, j :: 0 <= i < j < |fs| ==> fs[i].0 != fs[j].0
  }

  lemma OnlyOne(fs: seq<(string, Value)>, i: nat, key: string, v: Value)
    requires DistinctKeys(fs) && i < |fs| && fs[i] == (key, v)
    ensures Only(fs, key, v)
  {
    assert OnlyAt(fs, i, key, v);
  }

  lemma SecretNames(creds: map<string, string>)
    ensures Str(Credential(creds, AWS_ID)) == Secret(creds, "AWS_ACCESS_KEY_ID")
    ensures Str(Credential(creds, AWS_SECRET)) == Secret(creds, "AWS_SECRET_ACCESS_KEY")
    ensures Str(Credential(creds, AZURE_KEY)) == Secret(creds, "AZURE_STORAGE_" + "ACCOUNT_KEY")
    ensures Str(Credential(creds, B2_ID)) == Secret(creds, "B2_ACCOUNT_ID")
    ensures Str(Credential(creds, B2_KEY)) == Secret(creds, "B2_MASTER_" + "APPLICATION_KEY")
    ensures Credential(creds, GCS_KEY) != "" <==>
              "GOOGLE_APPLICATION_" + "CREDENTIALS_JSON" in creds && creds["GOOGLE_APPLICATION_" + "CREDENTIALS_JSON"] != ""
  {
  }

  // ---------------------------------------------------------------- distinct field names

  lemma S3Distinct(b: S3Store, dir: string, creds: map<string, string>)
    ensures DistinctKeys(Enabled(S3Fields(b, dir, creds)))
  {
    hide Credential;
    var fs := Enabled(S3Fields(b, dir, creds));
    assert |fs| == 9 && |fs[0].0| == 7 && |fs[1].0| == 17 && |fs[2].0| == 21 && |fs[3].0| == 6 && |fs[4].0| == 6;
    assert |fs[5].0| == 9 && |fs[6].0| == 8 && |fs[7].0| == 19 && |fs[8].0| == 14 && fs[3].0[0] == 'r' && fs[4].0[0] == 'b';
    hide Enabled, S3Fields;
  }

  lemma AzureDistinct(b: AzureStore, dir: string, creds: map<string, string>)
    ensures DistinctKeys(Enabled(AzureFields(b, dir, creds)))
  {
    hide Credential;
    var fs := Enabled(AzureFields(b, dir, creds));
    assert |fs| == 6 && |fs[0].0| == 7 && |fs[1].0| == 12 && |fs[2].0| == 11 && |fs[3].0| == 9 && |fs[4].0| == 9 && |fs[5].0| == 14;
    assert fs[3].0[0] == 'c' && fs[4].0[0] == 'd';
    hide Enabled, AzureFields;
  }

  lemma B2Distinct(b: B2Store, dir: string, creds: map<string, string>)
    ensures DistinctKeys(Enabled(B2Fields(b, dir, creds)))
  {
    hide Credential;
    var fs := Enabled(B2Fields(b, dir, creds));
    assert |fs| == 7 && |fs[0].0| == 7 && |fs[1].0| == 13 && |fs[2].0| == 25 && |fs[3].0| == 9 && |fs[4].0| == 6 && |fs[5].0| == 9;
    assert |fs[6].0| == 14 && fs[3].0[0] == 'b' && fs[5].0[0] == 'd';
    hide Enabled, B2Fields;
  }

  lemma GcsDistinct(b: ObjectStore, dir: string, creds: map<string, string>)
    ensures DistinctKeys(Enabled(GcsFields(b, dir, creds)))
  {
    hide Credential;
    var fs := Enabled(GcsFields(b, dir, creds));
    var n := |fs|;
    assert |fs[0].0| == 7 && |fs[n - 1].0| == 14 && |fs[n - 2].0| == 9 && |fs[n - 3].0| == 6;
    assert n == 4 || (n == 5 && |fs[1].0| == 30);
    hide Enabled, GcsFields;
  }

  /** There is no file exactly for a storage without its type's own block, whatever
      other blocks it has, and for a type that cannot be mirrored to. */
  lemma NoFileExactly(st: Storage, cluster: string, creds: map<string, string>)
    ensures Recovered(st, cluster, creds).None? <==>
              match st.kind
              case S3 => st.s3.None?
              case Gcs => st.gcs.None?
              case Azure => st.azure.None?
              case B2 => st.b2.None?
              case Filesystem => st.filesystem.None?
              case Other => true
  {
    RecoveredSink(st, cluster, creds);
    hide Recovered, SinkDirectory, Enabled;
  }

  // ---------------------------------------------------------------- the five storage types

  /** S3: both credentials under their own names, the region with its default, bucket,
      endpoint, path style, and the cluster's directory. */
  lemma S3Literally(st: Storage, cluster: string, creds: map<string, string>)
    requires st.kind.S3? && st.s3.Some?
    ensures var r, b := Recovered(st, cluster, creds), st.s3.value;
            && r.Some? && r.value.name == "sink.s3" && |r.value.fields| == 9
            && Only(r.value.fields, "enabled", Flag(true)) && Only(r.value.fields, "is_incremental", Flag(false))
            && Only(r.value.fields, "aws_access_key_id", Secret(creds, "AWS_ACCESS_KEY_ID"))
            && Only(r.value.fields, "aws_secret_access_key", Secret(creds, "AWS_SECRET_ACCESS_KEY"))
            && Only(r.value.fields, "region", Str(if b.region == "" then "us-east-2" else b.region))
            && Only(r.value.fields, "bucket", Str(b.bucket)) && Only(r.value.fields, "endpoint", Str(b.endpoint))
            && Only(r.value.fields, "directory", Placed(b.directory, cluster))
            && Only(r.value.fields, "s3_force_path_style", Flag(b.forcePathStyle.None? || b.forcePathStyle.value))
  {
    hide Only, JoinPath, Recovered, Enabled, S3Fields, Secret;
    RecoveredSink(st, cluster, creds);
    S3Once(st.s3.value, SinkDirectory(st, cluster), creds);
    assert Str(SinkDirectory(st, cluster)) == Placed(st.s3.value.directory, cluster);
  }

  lemma S3Once(b: S3Store, dir: string, creds: map<string, string>)
    ensures var fs := Enabled(S3Fields(b, dir, creds));
            && |fs| == 9
            && Only(fs, "enabled", Flag(true)) && Only(fs, "is_incremental", Flag(false))
            && Only(fs, "aws_access_key_id", Secret(creds, "AWS_ACCESS_KEY_ID"))
            && Only(fs, "aws_secret_access_key", Secret(creds, "AWS_SECRET_ACCESS_KEY"))
            && Only(fs, "region", Str(if b.region == "" then "us-east-2" else b.region))
            && Only(fs, "bucket", Str(b.bucket)) && Only(fs, "endpoint", Str(b.endpoint)) && Only(fs, "directory", Str(dir))
            && Only(fs, "s3_force_path_style", Flag(b.forcePathStyle.None? || b.forcePathStyle.value))
  {
    var fs := Enabled(S3Fields(b, dir, creds));
    hide Only, DistinctKeys, Secret, Credential;
    SecretNames(creds);
    S3Distinct(b, dir, creds);
    OnlyOne(fs, 0, "enabled", Flag(true));
    OnlyOne(fs, 1, "aws_access_key_id", Secret(creds, "AWS_ACCESS_KEY_ID"));
    OnlyOne(fs, 2, "aws_secret_access_key", Secret(creds, "AWS_SECRET_ACCESS_KEY"));
    OnlyOne(fs, 3, "region", Str(if b.region == "" then "us-east-2" else b.region));
    OnlyOne(fs, 4, "bucket", Str(b.bucket));
    OnlyOne(fs, 5, "directory", Str(dir));
    OnlyOne(fs, 6, "endpoint", Str(b.endpoint));
    OnlyOne(fs, 7, "s3_force_path_style", Flag(b.forcePathStyle.None? || b.forcePathStyle.value));
    OnlyOne(fs, 8, "is_incremental", Flag(false));
  }

  /** GCS: the key file is named exactly when a key was supplied. */
  lemma GcsLiterally(st: Storage, cluster: string, creds: map<string, string>)
    requires st.kind.Gcs? && st.gcs.Some?
    ensures var r, b := Recovered(st, cluster, creds), st.gcs.value;
            && r.Some? && r.value.name == "sink.google_" + "cloud_storage"
            && |r.value.fields| == (if KeySupplied(creds) then 5 else 4)
            && Only(r.value.fields, "enabled", Flag(true)) && Only(r.value.fields, "is_incremental", Flag(false))
            && (KeySupplied(creds) ==> Only(r.value.fields, "google_application_" + "credentials", Str("/etc/seaweedfs/gcs.json")))
            && Only(r.value.fields, "bucket", Str(b.bucket))
            && Only(r.value.fields, "directory", Placed(b.directory, cluster))
  {
    hide Only, JoinPath, Recovered, Enabled, GcsFields, KeySupplied;
    RecoveredSink(st, cluster, creds);
    GcsOnce(st.gcs.value, SinkDirectory(st, cluster), creds);
    assert Str(SinkDirectory(st, cluster)) == Placed(st.gcs.value.directory, cluster);
  }

  predicate KeySupplied(creds: map<string, string>) {
    var key := "GOOGLE_APPLICATION_" + "CREDENTIALS_JSON";
    key in creds && creds[key] != ""
  }

  lemma GcsOnce(b: ObjectStore, dir: string, creds: map<string, string>)
    ensures var fs := Enabled(GcsFields(b, dir, creds));
            && |fs| == (if KeySupplied(creds) then 5 else 4)
            && Only(fs, "enabled", Flag(true)) && Only(fs, "is_incremental", Flag(false))
            && (KeySupplied(creds) ==> Only(fs, "google_application_" + "credentials", Str("/etc/seaweedfs/gcs.json")))
            && Only(fs, "bucket", Str(b.bucket)) && Only(fs, "directory", Str(dir))
  {
    var fs := Enabled(GcsFields(b, dir, creds));
    hide Only, DistinctKeys, Credential;
    SecretNames(creds);
    assert KeySupplied(creds) == (Credential(creds, GCS_KEY) != "");
    hide KeySupplied;
    GcsDistinct(b, dir, creds);
    var n := |fs|;
    OnlyOne(fs, 0, "enabled", Flag(true));
    if KeySupplied(creds) { OnlyOne(fs, 1, "google_application_" + "credentials", Str("/etc/seaweedfs/gcs.json")); }
    OnlyOne(fs, n - 3, "bucket", Str(b.bucket));
    OnlyOne(fs, n - 2, "directory", Str(dir));
    OnlyOne(fs, n - 1, "is_incremental", Flag(false));
  }

  lemma AzureLiterally(st: Storage, cluster: string, creds: map<string, string>)
    requires st.kind.Azure? && st.azure.Some?
    ensures var r, b := Recovered(st, cluster, creds), st.azure.value;
            && r.Some? && r.value.name == "sink.azure" && |r.value.fields| == 6
            && Only(r.value.fields, "enabled", Flag(true)) && Only(r.value.fields, "is_incremental", Flag(false))
            && Only(r.value.fields, "account_name", Str(b.accountName))
            && Only(r.value.fields, "account_key", Secret(creds, "AZURE_STORAGE_" + "ACCOUNT_KEY"))
            && Only(r.value.fields, "container", Str(b.container))
            && Only(r.value.fields, "directory", Placed(b.directory, cluster))
  {
    hide Only, JoinPath, Recovered, Enabled, AzureFields, Secret;
    RecoveredSink(st, cluster, creds);
    AzureOnce(st.azure.value, SinkDirectory(st, cluster), creds);
    assert Str(SinkDirectory(st, cluster)) == Placed(st.azure.value.directory, cluster);
  }

  lemma AzureOnce(b: AzureStore, dir: string, creds: map<string, string>)
    ensures var fs := Enabled(AzureFields(b, dir, creds));
            && |fs| == 6
            && Only(fs, "enabled", Flag(true)) && Only(fs, "is_incremental", Flag(false))
            && Only(fs, "account_name", Str(b.accountName))
            && Only(fs, "account_key", Secret(creds, "AZURE_STORAGE_" + "ACCOUNT_KEY"))
            && Only(fs, "container", Str(b.container)) && Only(fs, "directory", Str(dir))
  {
    var fs := Enabled(AzureFields(b, dir, creds));
    hide Only, DistinctKeys, Secret, Credential;
    SecretNames(creds);
    AzureDistinct(b, dir, creds);
    OnlyOne(fs, 0, "enabled", Flag(true));
    OnlyOne(fs, 1, "account_name", Str(b.accountName));
    OnlyOne(fs, 2, "account_key", Secret(creds, "AZURE_STORAGE_" + "ACCOUNT_KEY"));
    OnlyOne(fs, 3, "container", Str(b.container));
    OnlyOne(fs, 4, "directory", Str(dir));
    OnlyOne(fs, 5, "is_incremental", Flag(false));
  }

  lemma B2Literally(st: Storage, cluster: string, creds: map<string, string>)
    requires st.kind.B2? && st.b2.Some?
    ensures var r, b := Recovered(st, cluster, creds), st.b2.value;
            && r.Some? && r.value.name == "sink.backblaze" && |r.value.fields| == 7
            && Only(r.value.fields, "enabled", Flag(true)) && Only(r.value.fields, "is_incremental", Flag(false))
            && Only(r.value.fields, "b2_account_id", Secret(creds, "B2_ACCOUNT_ID"))
            && Only(r.value.fields, "b2_master_" + "application_key", Secret(creds, "B2_MASTER_" + "APPLICATION_KEY"))
            && Only(r.value.fields, "b2_region", Str(b.region)) && Only(r.value.fields, "bucket", Str(b.bucket))
            && Only(r.value.fields, "directory", Placed(b.directory, cluster))
  {
    hide Only, JoinPath, Recovered, Enabled, B2Fields, Secret;
    RecoveredSink(st, cluster, creds);
    B2Once(st.b2.value, SinkDirectory(st, cluster), creds);
    assert Str(SinkDirectory(st, cluster)) == Placed(st.b2.value.directory, cluster);
  }

  lemma B2Once(b: B2Store, dir: string, creds: map<string, string>)
    ensures var fs := Enabled(B2Fields(b, dir, creds));
            && |fs| == 7
            && Only(fs, "enabled", Flag(true)) && Only(fs, "is_incremental", Flag(false))
            && Only(fs, "b2_account_id", Secret(creds, "B2_ACCOUNT_ID"))
            && Only(fs, "b2_master_" + "application_key", Secret(creds, "B2_MASTER_" + "APPLICATION_KEY"))
            && Only(fs, "b2_region", Str(b.region)) && Only(fs, "bucket", Str(b.bucket)) && Only(fs, "directory", Str(dir))
  {
    var fs := Enabled(B2Fields(b, dir, creds));
    hide Only, DistinctKeys, Secret, Credential;
    SecretNames(creds);
    B2Distinct(b, dir, creds);
    OnlyOne(fs, 0, "enabled", Flag(true));
    OnlyOne(fs, 1, "b2_account_id", Secret(creds, "B2_ACCOUNT_ID"));
    OnlyOne(fs, 2, "b2_master_" + "application_key", Secret(creds, "B2_MASTER_" + "APPLICATION_KEY"));
    OnlyOne(fs, 3, "b2_region", Str(b.region));
    OnlyOne(fs, 4, "bucket", Str(b.bucket));
    OnlyOne(fs, 5, "directory", Str(dir));
    OnlyOne(fs, 6, "is_incremental", Flag(false));
  }

  /** A filesystem storage is placed below its mount path, /backup by default. */
  lemma LocalLiterally(st: Storage, cluster: string, creds: map<string, string>)
    requires st.kind.Filesystem? && st.filesystem.Some?
    ensures var r, mount := Recovered(st, cluster, creds), st.filesystem.value;
            && r.Some? && r.value.name == "sink.local" && |r.value.fields| == 3
            && Only(r.value.fields, "enabled", Flag(true)) && Only(r.value.fields, "is_incremental", Flag(false))
            && Only(r.value.fields, "directory", Placed(if mount == "" then "/backup" else mount, cluster))
  {
    hide Only, JoinPath, Recovered, Enabled;
    RecoveredSink(st, cluster, creds);
    LocalOnce(SinkDirectory(st, cluster));
    var mount := if st.filesystem.value == "" then "/backup" else st.filesystem.value;
    assert Str(SinkDirectory(st, cluster)) == Placed(mount, cluster);
  }

  lemma LocalOnce(dir: string)
    ensures var fs := Enabled([("directory", Str(dir))]);
            && |fs| == 3
            && Only(fs, "enabled", Flag(true)) && Only(fs, "is_incremental", Flag(false)) && Only(fs, "directory", Str(dir))
  {
    var fs := Enabled([("directory", Str(dir))]);
    assert |fs[0].0| == 7 && |fs[1].0| == 9 && |fs[2].0| == 14;
    assert DistinctKeys(fs);
    hide Only, DistinctKeys;
    OnlyOne(fs, 0, "enabled", Flag(true));
    OnlyOne(fs, 1, "directory", Str(dir));
    OnlyOne(fs, 2, "is_incremental", Flag(false));
  }
}
