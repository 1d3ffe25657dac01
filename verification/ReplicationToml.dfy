/** The replication.toml of a data mirror: what the operator escapes and writes, a
    TOML reader for it, and when the reader recovers every value. */
module ReplicationToml {
  import opened Text
  import opened Paths
  import SecurityToml

  // ---------------------------------------------------------------- basic strings

  function EscapeChar(c: char): string {
    if c == '\\' then "\\\\"
    else if c == '"' then "\\\""
    else if c == '\n' then "\\n"
    else if c == '\t' then "\\t"
    else [c]
  }

  function Escape(s: string): string {
    if s == [] then "" else EscapeChar(s[0]) + Escape(s[1..])
  }

  /** A value as a quoted basic string. */
  function TomlString(s: string): string { "\"" + Escape(s) + "\"" }

  /** The characters TOML v1.0.0 (section "String") forbids unescaped in a basic string. */
  predicate Control(c: char) {
    var n := c as int;
    n <= 8 || (10 <= n && n <= 31) || n == 127
  }

  function HexValue(c: char): Option<nat> {
    if '0' <= c <= '9' then Some(c as nat - '0' as nat)
    else if 'a' <= c <= 'f' then Some(c as nat - 'a' as nat + 10)
    else if 'A' <= c <= 'F' then Some(c as nat - 'A' as nat + 10)
    else None
  }

  function HexNumber(s: string): Option<nat> {
    if s == [] then Some(0)
    else
      match (HexNumber(s[..|s| - 1]), HexValue(s[|s| - 1]))
      case (Some(n), Some(d)) => Some(16 * n + d)
      case _ => None
  }

  /** `\uXXXX` and `\UXXXXXXXX` name a Unicode scalar value. */
  function Scalar(digits: string): Option<char> {
    match HexNumber(digits)
    case Some(n) => if n < 0xD800 || (0xE000 <= n && n < 0x11_0000) then Some(n as char) else None
    case None => None
  }

  function Simple(c: char): Option<char> {
    if c == 'b' then Some(8 as char)
    else if c == 't' then Some('\t')
    else if c == 'n' then Some('\n')
    else if c == 'f' then Some(12 as char)
    else if c == 'r' then Some('\r')
    else if c == '"' then Some('"')
    else if c == '\\' then Some('\\')
    else None
  }

  function Prepend(c: char, r: Option<(string, string)>): Option<(string, string)> {
    match r
    case Some((v, rest)) => Some(([c] + v, rest))
    case None => None
  }

  /** Read a basic string after its opening quote: its value and what follows the
      closing quote. A lenient reader lets raw control characters pass. */
  function ReadString(s: string, strict: bool): Option<(string, string)>
    decreases |s|
  {
    if s == [] then None
    else if s[0] == '"' then Some(("", s[1..]))
    else if s[0] == '\\' then
      if |s| < 2 then None
      else if s[1] == 'u' || s[1] == 'U' then
        var n := if s[1] == 'u' then 4 else 8;
        if |s| < n + 2 then None
        else
          match Scalar(s[2..n + 2])
          case Some(c) => Prepend(c, ReadString(s[n + 2..], strict))
          case None => None
      else
        match Simple(s[1])
        case Some(c) => Prepend(c, ReadString(s[2..], strict))
        case None => None
    else if strict && Control(s[0]) then None
    else Prepend(s[0], ReadString(s[1..], strict))
  }

  /** The value holds no control character the operator leaves unescaped. */
  predicate Clean(s: string) {
    forall c :: c in s ==> !Control(c) || c == '\n' || c == '\t'
  }

  lemma ReadEscapedChar(c: char, u: string, strict: bool)
    ensures ReadString(EscapeChar(c) + u, strict) ==
            if strict && Control(c) && c != '\n' && c != '\t' then None else Prepend(c, ReadString(u, strict))
  {
    var e := EscapeChar(c);
    var t := e + u;
    assert t[|e|..] == u && t[0] == e[0];
    if |e| == 2 { assert t[1] == e[1]; }
  }

  /** Reading what was escaped gives the value back and stops at the closing quote,
      whatever follows: for the strict reader if and only if the value is clean. */
  lemma {:induction false} ReadEscaped(s: string, rest: string, strict: bool)
    ensures ReadString(Escape(s) + "\"" + rest, strict) == if strict && !Clean(s) then None else Some((s, rest))
  {
    var t := Escape(s) + "\"" + rest;
    if s == [] {
      assert t[0] == '"' && t[1..] == rest;
    } else {
      hide ReadString;
      var u := Escape(s[1..]) + "\"" + rest;
      assert t == EscapeChar(s[0]) + u;
      ReadEscapedChar(s[0], u, strict);
      ReadEscaped(s[1..], rest, strict);
      CleanStep(s);
      assert [s[0]] + s[1..] == s;
    }
  }

  lemma CleanStep(s: string)
    requires s != []
    ensures Clean(s) <==> (!Control(s[0]) || s[0] == '\n' || s[0] == '\t') && Clean(s[1..])
  {
    assert s == [s[0]] + s[1..];
  }

  /** An escaped value stays on one line. */
  lemma {:induction false} EscapedOneLine(s: string)
    ensures '\n' !in TomlString(s)
  {
    if s != [] { EscapedOneLine(s[1..]); }
  }

  // ---------------------------------------------------------------- sections and their reader

  datatype Value = Str(s: string) | Flag(on: bool)

  /** One section: its name and its fields in order. */
  datatype Sink = Sink(name: string, fields: seq<(string, Value)>)

  function ValueText(v: Value): string {
    match v
    case Str(s) => TomlString(s)
    case Flag(on) => if on then "true" else "false"
  }

  function FieldLine(f: (string, Value)): string { f.0 + " = " + ValueText(f.1) }

  function FieldLines(fs: seq<(string, Value)>): seq<string> {
    if fs == [] then [] else FieldLines(fs[..|fs| - 1]) + [FieldLine(fs[|fs| - 1])]
  }

  function SinkText(s: Sink): string { Unlines([SecurityToml.Header(s.name)] + FieldLines(s.fields)) }

  predicate KeyChar(c: char) {
    'a' <= c <= 'z' || 'A' <= c <= 'Z' || '0' <= c <= '9' || c == '_' || c == '-'
  }

  /** The length of the bare key a line begins with. */
  function KeyEnd(line: string): (n: nat)
    ensures n <= |line|
  {
    if line != [] && KeyChar(line[0]) then 1 + KeyEnd(line[1..]) else 0
  }

  function ReadValue(v: string, strict: bool): Option<Value> {
    if v == "true" then Some(Flag(true))
    else if v == "false" then Some(Flag(false))
    else if v != [] && v[0] == '"' then
      match ReadString(v[1..], strict)
      case Some((s, rest)) => if rest == [] then Some(Str(s)) else None
      case None => None
    else None
  }

  function ReadField(line: string, strict: bool): Option<(string, Value)> {
    var n := KeyEnd(line);
    if n == 0 || |line| < n + 3 || line[n..n + 3] != " = " then None
    else
      match ReadValue(line[n + 3..], strict)
      case Some(v) => Some((line[..n], v))
      case None => None
  }

  function ReadFields(lines: seq<string>, strict: bool): Option<seq<(string, Value)>> {
    if lines == [] then Some([])
    else
      match (ReadFields(lines[..|lines| - 1], strict), ReadField(lines[|lines| - 1], strict))
      case (Some(fs), Some(f)) => Some(fs + [f])
      case _ => None
  }

  /** Read a file of one section. */
  function ReadSink(text: string, strict: bool): Option<Sink> {
    var lines := SecurityToml.Lines(text);
    if lines == [] || |lines[0]| < 2 || lines[0][0] != '[' || lines[0][|lines[0]| - 1] != ']' then None
    else
      match ReadFields(lines[1..], strict)
      case Some(fs) => Some(Sink(lines[0][1..|lines[0]| - 1], fs))
      case None => None
  }

  // ---------------------------------------------------------------- reading back

  predicate Named(key: string) { key != [] && forall c :: c in key ==> KeyChar(c) }

  predicate AllNamed(fs: seq<(string, Value)>) { forall f :: f in fs ==> Named(f.0) }

  predicate WellNamed(s: Sink) { '\n' !in s.name && AllNamed(s.fields) }

  predicate CleanValue(v: Value) { v.Str? ==> Clean(v.s) }

  predicate AllClean(fs: seq<(string, Value)>) { forall f :: f in fs ==> CleanValue(f.1) }

  lemma {:induction false} KeyEndAt(key: string, rest: string)
    requires (forall c :: c in key ==> KeyChar(c)) && rest != [] && !KeyChar(rest[0])
    ensures KeyEnd(key + rest) == |key|
  {
    if key == [] {
      assert key + rest == rest;
    } else {
      assert (key + rest)[1..] == key[1..] + rest;
      KeyEndAt(key[1..], rest);
    }
  }

  lemma ValueReadsBack(v: Value, strict: bool)
    ensures ReadValue(ValueText(v), strict) == if strict && !CleanValue(v) then None else Some(v)
    ensures '\n' !in ValueText(v)
  {
    hide ReadString, Clean;
    if v.Str? {
      ReadEscaped(v.s, "", strict);
      EscapedOneLine(v.s);
      assert ValueText(v)[1..] == Escape(v.s) + "\"" + "";
      assert ValueText(v)[0] == '"';
    }
  }

  lemma FieldReadsBack(f: (string, Value), strict: bool)
    requires Named(f.0)
    ensures ReadField(FieldLine(f), strict) == if strict && !CleanValue(f.1) then None else Some(f)
    ensures '\n' !in FieldLine(f)
  {
    hide ReadValue, ValueText, Clean;
    var v, l := ValueText(f.1), FieldLine(f);
    assert l == f.0 + (" = " + v);
    KeyEndAt(f.0, " = " + v);
    ValueReadsBack(f.1, strict);
    assert l[|f.0|..|f.0| + 3] == " = " && l[|f.0| + 3..] == v && l[..|f.0|] == f.0;
  }

  lemma {:induction false} FieldsReadBack(fs: seq<(string, Value)>, strict: bool)
    requires AllNamed(fs)
    ensures ReadFields(FieldLines(fs), strict) == if strict && !AllClean(fs) then None else Some(fs)
    ensures forall l :: l in FieldLines(fs) ==> '\n' !in l
  {
    if fs != [] {
      var rest, f := fs[..|fs| - 1], fs[|fs| - 1];
      assert fs == rest + [f];
      FieldsReadBack(rest, strict);
      FieldReadsBack(f, strict);
      var lines := FieldLines(fs);
      assert lines[..|lines| - 1] == FieldLines(rest) && lines[|lines| - 1] == FieldLine(f);
      assert AllClean(fs) <==> AllClean(rest) && CleanValue(f.1);
    }
  }

  /** A line reader recovers the section with every field: always when lenient, and
      when strict if and only if every string value is clean. */
  lemma SinkReadsBack(s: Sink, strict: bool)
    requires WellNamed(s)
    ensures ReadSink(SinkText(s), strict) == if strict && !AllClean(s.fields) then None else Some(s)
  {
    var lines := [SecurityToml.Header(s.name)] + FieldLines(s.fields);
    FieldsReadBack(s.fields, strict);
    SecurityToml.LinesUnlines(lines);
    assert lines[1..] == FieldLines(s.fields);
    assert SecurityToml.Header(s.name)[1..|s.name| + 1] == s.name;
  }

  // ---------------------------------------------------------------- the rendered file

  datatype S3Store = S3Store(region: string, bucket: string, directory: string, endpoint: string, forcePathStyle: Option<bool>)

  datatype ObjectStore = ObjectStore(bucket: string, directory: string)

  datatype AzureStore = AzureStore(accountName: string, container: string, directory: string)

  datatype B2Store = B2Store(region: string, bucket: string, directory: string)

  datatype Kind = S3 | Gcs | Azure | B2 | Filesystem | Other

  /** A storage: its type and its optional blocks; the filesystem block carries the
      mount path. */
  datatype Storage = Storage(kind: Kind, s3: Option<S3Store>, gcs: Option<ObjectStore>, azure: Option<AzureStore>,
                             b2: Option<B2Store>, filesystem: Option<string>)

  datatype Rendered = File(text: string) | MissingBlock(kind: Kind) | Unsupported

  /** The destination's base: the block's directory, the mount path, or the root. */
  function BaseDirectory(st: Storage): string {
    var base :=
      match st.kind
      case S3 => if st.s3.Some? then st.s3.value.directory else "/"
      case Gcs => if st.gcs.Some? then st.gcs.value.directory else "/"
      case Azure => if st.azure.Some? then st.azure.value.directory else "/"
      case B2 => if st.b2.Some? then st.b2.value.directory else "/"
      case Filesystem => if st.filesystem.Some? && st.filesystem.value != "" then st.filesystem.value else "/backup"
      case Other => "/";
    if base == "" then "/" else base
  }

  /** Where a cluster's mirrored files go within a storage. */
  function SinkDirectory(st: Storage, cluster: string): string {
    JoinPath([BaseDirectory(st), cluster, "data"])
  }

  method MirrorSinkDirectory(st: Storage, cluster: string) returns (dir: string)
    ensures dir == SinkDirectory(st, cluster)
  {
    hide JoinPath;
    var base := "/";
    match st.kind {
      case S3 => if st.s3.Some? { base := st.s3.value.directory; }
      case Gcs => if st.gcs.Some? { base := st.gcs.value.directory; }
      case Azure => if st.azure.Some? { base := st.azure.value.directory; }
      case B2 => if st.b2.Some? { base := st.b2.value.directory; }
      case Filesystem =>
        base := "/backup";
        if st.filesystem.Some? && st.filesystem.value != "" { base := st.filesystem.value; }
      case Other =>
    }
    if base == "" { base := "/"; }
    dir := JoinPath([base, cluster, "data"]);
  }

  /** Whatever the configured base, relative, rooted or not clean, a cluster's directory
      lies directly below the cleaned base, under the cluster's own name. */
  lemma DirectoryBelowBase(st: Storage, cluster: string)
    requires Component(cluster)
    ensures SinkDirectory(st, cluster) == Below(CleanPath(BaseDirectory(st))) + cluster + "/data"
  {
    DataIsComponent();
    JoinBelow(BaseDirectory(st), cluster, "data");
  }

  lemma DataIsComponent()
    ensures Component("data")
  {
    assert "data"[0] != '.';
  }

  /** Clusters sharing a storage are isolated: no path belongs to the directories of
      two different clusters. */
  lemma ClustersIsolated(st: Storage, c: string, d: string, path: string)
    requires Component(c) && Component(d)
    requires SinkDirectory(st, c) <= path && SinkDirectory(st, d) <= path
    ensures c == d
  {
    hide SinkDirectory;
    DirectoryBelowBase(st, c);
    DirectoryBelowBase(st, d);
    var prefix := Below(CleanPath(BaseDirectory(st)));
    assert prefix + c + "/" + "data" == prefix + c + "/data" && prefix + d + "/" + "data" == prefix + d + "/data";
    hide Below, CleanPath, BaseDirectory, Component;
    ComponentsSeparate(prefix, c, d, "data", path);
  }

  /** A credential, empty when absent so that ambient credentials apply. */
  function Credential(creds: map<string, string>, key: string): string {
    if key in creds then creds[key] else ""
  }

  const GCS_KEY_FILE: string := "/etc/seaweedfs/gcs.json"
  const AWS_ID: string := "AWS_ACCESS_KEY_ID"
  const AWS_SECRET: string := "AWS_SECRET_ACCESS_KEY"
  const GCS_KEY: string := "GOOGLE_APPLICATION_" + "CREDENTIALS_JSON"
  const AZURE_KEY: string := "AZURE_STORAGE_" + "ACCOUNT_KEY"
  const B2_ID: string := "B2_ACCOUNT_ID"
  const B2_KEY: string := "B2_MASTER_" + "APPLICATION_KEY"

  function Enabled(fields: seq<(string, Value)>): seq<(string, Value)> {
    [("enabled", Flag(true))] + fields + [("is_incremental", Flag(false))]
  }

  function S3Fields(b: S3Store, dir: string, creds: map<string, string>): seq<(string, Value)> {
    [("aws_access_key_id", Str(Credential(creds, AWS_ID))),
     ("aws_secret_access_key", Str(Credential(creds, AWS_SECRET))),
     ("region", Str(if b.region == "" then "us-east-2" else b.region)),
     ("bucket", Str(b.bucket)), ("directory", Str(dir)), ("endpoint", Str(b.endpoint)),
     ("s3_force_path_style", Flag(if b.forcePathStyle.Some? then b.forcePathStyle.value else true))]
  }

  function GcsFields(b: ObjectStore, dir: string, creds: map<string, string>): seq<(string, Value)> {
    (if Credential(creds, GCS_KEY) != "" then [("google_application_" + "credentials", Str(GCS_KEY_FILE))] else []) +
    [("bucket", Str(b.bucket)), ("directory", Str(dir))]
  }

  function AzureFields(b: AzureStore, dir: string, creds: map<string, string>): seq<(string, Value)> {
    [("account_name", Str(b.accountName)), ("account_key", Str(Credential(creds, AZURE_KEY))),
     ("container", Str(b.container)), ("directory", Str(dir))]
  }

  function B2Fields(b: B2Store, dir: string, creds: map<string, string>): seq<(string, Value)> {
    [("b2_account_id", Str(Credential(creds, B2_ID))),
     ("b2_master_" + "application_key", Str(Credential(creds, B2_KEY))),
     ("b2_region", Str(b.region)), ("bucket", Str(b.bucket)), ("directory", Str(dir))]
  }

  /** The one section of a storage, or None when its block is missing. */
  function SinkOf(st: Storage, dir: string, creds: map<string, string>): Option<Sink> {
    match st.kind
    case S3 => if st.s3.Some? then Some(Sink("sink.s3", Enabled(S3Fields(st.s3.value, dir, creds)))) else None
    case Gcs =>
      if st.gcs.Some? then Some(Sink("sink.google_" + "cloud_storage", Enabled(GcsFields(st.gcs.value, dir, creds)))) else None
    case Azure => if st.azure.Some? then Some(Sink("sink.azure", Enabled(AzureFields(st.azure.value, dir, creds)))) else None
    case B2 => if st.b2.Some? then Some(Sink("sink.backblaze", Enabled(B2Fields(st.b2.value, dir, creds)))) else None
    case Filesystem => if st.filesystem.Some? then Some(Sink("sink.local", Enabled([("directory", Str(dir))]))) else None
    case Other => None
  }

  lemma HeaderAlone(name: string)
    ensures SinkText(Sink(name, [])) == "[" + name + "]\n"
  {
    var h := SecurityToml.Header(name);
    assert FieldLines([]) == [] && [h] + [] == [h] && [h][1..] == [];
    assert Unlines([h]) == h + "\n" + Unlines([]);
  }

  /** The text under construction, and the section it spells. */
  class Builder {
    var text: string
    ghost var sink: Sink

    ghost predicate Valid()
      reads this
    {
      text == SinkText(sink)
    }

    constructor (name: string)
      ensures Valid() && sink == Sink(name, [("enabled", Flag(true))])
    {
      text, sink := "[" + name + "]\n", Sink(name, []);
      new;
      HeaderAlone(name);
      Put("enabled", Flag(true));
      assert sink.fields == [("enabled", Flag(true))];
    }

    /** Append one field. */
    method Put(key: string, v: Value)
      requires Valid()
      modifies this
      ensures Valid() && sink == Sink(old(sink).name, old(sink).fields + [(key, v)])
    {
      ghost var h, line := SecurityToml.Header(sink.name), FieldLine((key, v));
      ghost var lines := [h] + FieldLines(sink.fields);
      ghost var next := Sink(sink.name, sink.fields + [(key, v)]);
      assert next.fields[..|next.fields| - 1] == sink.fields;
      assert [h] + FieldLines(next.fields) == lines + [line];
      UnlinesAppend(lines, [line]);
      assert Unlines([line]) == line + "\n" by { assert [line][1..] == []; }
      text := text + key + " = " + ValueText(v) + "\n";
      sink := next;
    }
  }

  method RenderS3(store: S3Store, dir: string, creds: map<string, string>) returns (text: string)
    ensures text == SinkText(Sink("sink.s3", Enabled(S3Fields(store, dir, creds))))
  {
    hide SinkText, Credential;
    var b := new Builder("sink.s3");
    b.Put("aws_access_key_id", Str(Credential(creds, AWS_ID)));
    b.Put("aws_secret_access_key", Str(Credential(creds, AWS_SECRET)));
    var region := store.region;
    if region == "" { region := "us-east-2"; }
    var forcePath := true;
    if store.forcePathStyle.Some? { forcePath := store.forcePathStyle.value; }
    PutS3Place(b, region, store.bucket, dir, store.endpoint, forcePath);
    assert b.sink.fields == Enabled(S3Fields(store, dir, creds));
    return b.text;
  }

  method PutS3Place(b: Builder, region: string, bucket: string, dir: string, endpoint: string, forcePath: bool)
    requires b.Valid()
    modifies b
    ensures b.Valid() && b.sink.name == old(b.sink.name)
    ensures b.sink.fields == old(b.sink.fields) +
              [("region", Str(region)), ("bucket", Str(bucket)), ("directory", Str(dir)), ("endpoint", Str(endpoint)),
               ("s3_force_path_style", Flag(forcePath)), ("is_incremental", Flag(false))]
  {
    hide SinkText;
    b.Put("region", Str(region));
    b.Put("bucket", Str(bucket));
    b.Put("directory", Str(dir));
    b.Put("endpoint", Str(endpoint));
    b.Put("s3_force_path_style", Flag(forcePath));
    b.Put("is_incremental", Flag(false));
  }

  method RenderGcs(store: ObjectStore, dir: string, creds: map<string, string>) returns (text: string)
    ensures text == SinkText(Sink("sink.google_" + "cloud_storage", Enabled(GcsFields(store, dir, creds))))
  {
    hide SinkText, Credential;
    var b := new Builder("sink.google_" + "cloud_storage");
    if Credential(creds, GCS_KEY) != "" {
      b.Put("google_application_" + "credentials", Str(GCS_KEY_FILE));
    }
    b.Put("bucket", Str(store.bucket));
    b.Put("directory", Str(dir));
    b.Put("is_incremental", Flag(false));
    assert b.sink.fields == Enabled(GcsFields(store, dir, creds));
    return b.text;
  }

  method RenderAzure(store: AzureStore, dir: string, creds: map<string, string>) returns (text: string)
    ensures text == SinkText(Sink("sink.azure", Enabled(AzureFields(store, dir, creds))))
  {
    hide SinkText, Credential;
    var b := new Builder("sink.azure");
    b.Put("account_name", Str(store.accountName));
    b.Put("account_key", Str(Credential(creds, AZURE_KEY)));
    b.Put("container", Str(store.container));
    b.Put("directory", Str(dir));
    b.Put("is_incremental", Flag(false));
    assert b.sink.fields == Enabled(AzureFields(store, dir, creds));
    return b.text;
  }

  method RenderB2(store: B2Store, dir: string, creds: map<string, string>) returns (text: string)
    ensures text == SinkText(Sink("sink.backblaze", Enabled(B2Fields(store, dir, creds))))
  {
    hide SinkText, Credential;
    var b := new Builder("sink.backblaze");
    b.Put("b2_account_id", Str(Credential(creds, B2_ID)));
    b.Put("b2_master_" + "application_key", Str(Credential(creds, B2_KEY)));
    b.Put("b2_region", Str(store.region));
    b.Put("bucket", Str(store.bucket));
    b.Put("directory", Str(dir));
    b.Put("is_incremental", Flag(false));
    assert b.sink.fields == Enabled(B2Fields(store, dir, creds));
    return b.text;
  }

  method RenderLocal(dir: string) returns (text: string)
    ensures text == SinkText(Sink("sink.local", Enabled([("directory", Str(dir))])))
  {
    hide SinkText, Credential;
    var b := new Builder("sink.local");
    b.Put("directory", Str(dir));
    b.Put("is_incremental", Flag(false));
    assert b.sink.fields == Enabled([("directory", Str(dir))]);
    return b.text;
  }

  /** The file of a storage: one section, or the error for a missing block or an
      unknown type. */
  method RenderReplicationToml(st: Storage, cluster: string, creds: map<string, string>) returns (r: Rendered)
    ensures var sink := SinkOf(st, SinkDirectory(st, cluster), creds);
            && (sink.Some? <==> r.File?)
            && (sink.Some? ==> r.text == SinkText(sink.value))
            && (sink.None? ==> r == if st.kind.Other? then Unsupported else MissingBlock(st.kind))
  {
    hide SinkText, SinkDirectory;
    var dir := MirrorSinkDirectory(st, cluster);
    match st.kind {
      case S3 =>
        if st.s3.None? { return MissingBlock(S3); }
        var b := RenderS3(st.s3.value, dir, creds);
        return File(b);
      case Gcs =>
        if st.gcs.None? { return MissingBlock(Gcs); }
        var b := RenderGcs(st.gcs.value, dir, creds);
        return File(b);
      case Azure =>
        if st.azure.None? { return MissingBlock(Azure); }
        var b := RenderAzure(st.azure.value, dir, creds);
        return File(b);
      case B2 =>
        if st.b2.None? { return MissingBlock(B2); }
        var b := RenderB2(st.b2.value, dir, creds);
        return File(b);
      case Filesystem =>
        if st.filesystem.None? { return MissingBlock(Filesystem); }
        var b := RenderLocal(dir);
        return File(b);
      case Other => return Unsupported;
    }
  }

  lemma CommonNames()
    ensures Named("enabled") && Named("is_incremental") && Named("bucket") && Named("directory")
  {
  }

  lemma S3Names()
    ensures Named("aws_access_key_id") && Named("region") && Named("endpoint")
  {
  }

  lemma S3LongNames()
    ensures Named("aws_secret_access_key") && Named("s3_force_path_style")
  {
  }

  lemma GcsNames()
    ensures Named("google_application_" + "credentials")
  {
  }

  lemma AzureNames()
    ensures Named("account_name") && Named("account_key") && Named("container")
  {
  }

  lemma B2Names()
    ensures Named("b2_account_id") && Named("b2_master_" + "application_key") && Named("b2_region")
  {
  }

  lemma EnabledNamed(fs: seq<(string, Value)>)
    requires AllNamed(fs)
    ensures AllNamed(Enabled(fs))
  {
    CommonNames();
    hide Named;
  }

  lemma S3Named(b: S3Store, dir: string, creds: map<string, string>)
    ensures AllNamed(S3Fields(b, dir, creds))
  {
    CommonNames();
    S3Names();
    S3LongNames();
    hide Named, Credential;
  }

  lemma GcsNamed(b: ObjectStore, dir: string, creds: map<string, string>)
    ensures AllNamed(GcsFields(b, dir, creds))
  {
    CommonNames();
    GcsNames();
    hide Named, Credential;
  }

  lemma AzureNamed(b: AzureStore, dir: string, creds: map<string, string>)
    ensures AllNamed(AzureFields(b, dir, creds))
  {
    CommonNames();
    AzureNames();
    hide Named, Credential;
  }

  lemma B2Named(b: B2Store, dir: string, creds: map<string, string>)
    ensures AllNamed(B2Fields(b, dir, creds))
  {
    CommonNames();
    B2Names();
    hide Named, Credential;
  }

  lemma SinkWellNamed(st: Storage, dir: string, creds: map<string, string>)
    requires SinkOf(st, dir, creds).Some?
    ensures WellNamed(SinkOf(st, dir, creds).value)
  {
    CommonNames();
    hide Named, Enabled, S3Fields, GcsFields, AzureFields, B2Fields;
    match st.kind
    case S3 =>
      S3Named(st.s3.value, dir, creds);
      EnabledNamed(S3Fields(st.s3.value, dir, creds));
    case Gcs =>
      GcsNamed(st.gcs.value, dir, creds);
      EnabledNamed(GcsFields(st.gcs.value, dir, creds));
    case Azure =>
      AzureNamed(st.azure.value, dir, creds);
      EnabledNamed(AzureFields(st.azure.value, dir, creds));
    case B2 =>
      B2Named(st.b2.value, dir, creds);
      EnabledNamed(B2Fields(st.b2.value, dir, creds));
    case Filesystem => EnabledNamed([("directory", Str(dir))]);
    case Other =>
  }

  /** Whatever the credentials, bucket and directory, a lenient reader recovers every
      field of the rendered file, and a strict one if and only if all of them are clean. */
  lemma FileReadsBack(st: Storage, dir: string, creds: map<string, string>, strict: bool)
    requires SinkOf(st, dir, creds).Some?
    ensures var s := SinkOf(st, dir, creds).value;
            ReadSink(SinkText(s), strict) == if strict && !AllClean(s.fields) then None else Some(s)
  {
    SinkWellNamed(st, dir, creds);
    SinkReadsBack(SinkOf(st, dir, creds).value, strict);
  }
}
