/** security.toml: the hand-written printer, the hand-written line parser, and
    the pod annotation derived from the same section table. */
module SecurityToml {
  import opened Text

  // ---------------------------------------------------------------- section table

  datatype Section = VolumeWrite | VolumeRead | FilerWrite | FilerRead

  const SECTIONS: seq<Section> := [VolumeWrite, VolumeRead, FilerWrite, FilerRead]

  /** One value per [jwt.*] section. */
  datatype PerSection<T> = PerSection(volumeWrite: T, volumeRead: T, filerWrite: T, filerRead: T) {
    function Get(s: Section): T {
      match s
      case VolumeWrite => volumeWrite
      case VolumeRead => volumeRead
      case FilerWrite => filerWrite
      case FilerRead => filerRead
    }

    function Set(s: Section, v: T): PerSection<T> {
      match s
      case VolumeWrite => this.(volumeWrite := v)
      case VolumeRead => this.(volumeRead := v)
      case FilerWrite => this.(filerWrite := v)
      case FilerRead => this.(filerRead := v)
    }
  }

  const NO_KEYS: PerSection<string> := PerSection("", "", "", "")

  datatype JwtSpec = JwtSpec(on: PerSection<bool>, expires: PerSection<int>)

  function Name(s: Section): string {
    match s
    case VolumeWrite => "jwt.signing"
    case VolumeRead => "jwt.signing.read"
    case FilerWrite => "jwt.filer_signing"
    case FilerRead => "jwt.filer_signing.read"
  }

  function Field(s: Section): string {
    match s
    case VolumeWrite => "volumeWrite"
    case VolumeRead => "volumeRead"
    case FilerWrite => "filerWrite"
    case FilerRead => "filerRead"
  }

  /** The section's comment line. Long literals are written in pieces: the verifier
      does not look into a single one of this length. */
  function Comment(s: Section): string {
    match s
    case VolumeWrite => "# the master signs " + "upload tokens; the " + "volume server rejects " + "unsigned writes"
    case VolumeRead => "# the volume server " + "requires a signed token " + "on reads too"
    case FilerWrite => "# the filer rejects " + "unsigned HTTP writes and " + "unsigned IAM gRPC calls"
    case FilerRead => "# the filer rejects " + "unsigned HTTP reads too; " + "the S3 gateway signs its " + "own"
  }

  predicate AnyOn(cfg: JwtSpec) {
    cfg.on.volumeWrite || cfg.on.volumeRead || cfg.on.filerWrite || cfg.on.filerRead
  }

  // ---------------------------------------------------------------- quoting (%q)

  /** The characters from 128 on that Go's Unicode tables may call printable: any set,
      so that what follows holds for every version of the tables. */
  const PRINTABLE: set<char>

  /** Spaces, controls, format characters and private use, unprintable in every version. */
  predicate NeverPrintable(c: char) {
    var n := c as int;
    n <= 0xA0 || n == 0xAD || 0x2000 <= n <= 0x200F || 0x2028 <= n <= 0x202F || 0x205F <= n <= 0x206F ||
    n == 0x3000 || 0xE000 <= n <= 0xF8FF || n == 0xFEFF
  }

  predicate Printable(c: char) {
    if c as int < 128 then 32 <= c as int < 127 else c in PRINTABLE && !NeverPrintable(c)
  }

  /** One character under Go's `%q`. */
  function QuoteChar(c: char): string {
    var n := c as int;
    if c == '"' then "\\\"" else if c == '\\' then "\\\\"
    else if Printable(c) then [c]
    else if n == 7 then "\\a" else if n == 8 then "\\b" else if n == 9 then "\\t"
    else if n == 10 then "\\n" else if n == 11 then "\\v" else if n == 12 then "\\f"
    else if n == 13 then "\\r"
    else if n < 128 then "\\x" + Hex(n, 2)
    else if n < 0x10000 then "\\u" + Hex(n, 4)
    else "\\U" + Hex(n, 8)
  }

  function Escape(s: string): string {
    if s == [] then "" else QuoteChar(s[0]) + Escape(s[1..])
  }

  function Quote(s: string): string { "\"" + Escape(s) + "\"" }

  /** Printable, and neither a quote nor a backslash. */
  predicate Plain(s: string) {
    forall i :: 0 <= i < |s| ==> PlainChar(s[i])
  }

  predicate PlainChar(c: char) {
    Printable(c) && c != '"' && c != '\\'
  }

  lemma QuoteCharLength(c: char)
    ensures PlainChar(c) ==> QuoteChar(c) == [c]
    ensures !PlainChar(c) ==> |QuoteChar(c)| >= 2
    ensures '\n' !in QuoteChar(c)
  {
    hide Hex;
  }

  lemma PlainStep(s: string)
    requires s != []
    ensures Plain(s) <==> PlainChar(s[0]) && Plain(s[1..])
  {
    hide PlainChar;
    if PlainChar(s[0]) && Plain(s[1..]) {
      forall i | 0 <= i < |s| ensures PlainChar(s[i]) {
        if i > 0 { assert s[i] == s[1..][i - 1]; }
      }
    }
  }

  lemma {:induction false} EscapeLength(s: string)
    ensures |Escape(s)| >= |s|
    ensures Plain(s) ==> Escape(s) == s
    ensures !Plain(s) ==> |Escape(s)| > |s|
    ensures '\n' !in Escape(s)
  {
    hide QuoteChar, PlainChar;
    if s != [] {
      EscapeLength(s[1..]);
      assert s == [s[0]] + s[1..];
      PlainStep(s);
      QuoteCharLength(s[0]);
    }
  }

  /** `%q` leaves the inside of the quotes alone exactly for plain text. */
  lemma EscapeFixed(s: string)
    ensures Escape(s) == s <==> Plain(s)
  {
    EscapeLength(s);
  }

  lemma {:induction false} EscapeAppend(a: string, b: string)
    ensures Escape(a + b) == Escape(a) + Escape(b)
  {
    hide QuoteChar;
    if a == [] {
      assert a + b == b;
    } else {
      assert (a + b)[1..] == a[1..] + b;
      EscapeAppend(a[1..], b);
    }
  }

  lemma EscapeOne(c: char)
    ensures Escape([c]) == QuoteChar(c)
  {
    hide QuoteChar;
    assert [c][1..] == [];
  }

  const NO_BREAK_SPACE: string := "\U{00A0}"

  /** A key with a no-break space, which a hand-written file may hold, is not plain: it
      comes back as the text of its own escape, whose backslash the next pass doubles. */
  lemma NoBreakSpaceEscapes(a: string, b: string)
    requires Plain(a) && Plain(b)
    ensures !Plain(a + NO_BREAK_SPACE + b)
    ensures Escape(a + NO_BREAK_SPACE + b) == a + "\\u00a0" + b
    ensures Escape(a + "\\u00a0" + b) == a + "\\\\u00a0" + b
  {
    hide Escape, Hex;
    var nbsp := NO_BREAK_SPACE;
    assert nbsp == [nbsp[0]];
    assert (a + nbsp + b)[|a|] == nbsp[0] && !PlainChar(nbsp[0]);
    EscapePlain(a);
    EscapePlain(b);
    HexOfNoBreakSpace();
    EscapeOne(nbsp[0]);
    EscapeAppend(a + nbsp, b);
    EscapeAppend(a, nbsp);
    EscapeOne('\\');
    EscapePlain("u00a0");
    assert "\\u00a0" == ['\\'] + "u00a0";
    EscapeAppend(['\\'], "u00a0");
    EscapeAppend(a + "\\u00a0", b);
    EscapeAppend(a, "\\u00a0");
  }

  lemma HexOfNoBreakSpace()
    ensures Hex(0xA0, 4) == "00a0"
  {
    assert Hex(0, 2) == Hex(0, 1) + "0" && Hex(0, 1) == Hex(0, 0) + "0";
    assert Hex(10, 3) == Hex(0, 2) + "a" && Hex(0xA0, 4) == Hex(10, 3) + "0";
  }

  lemma EscapePlain(s: string)
    requires Plain(s)
    ensures Escape(s) == s
  {
    EscapeLength(s);
  }

  // ---------------------------------------------------------------- printer

  function Preamble(): seq<string> {
    ["# generated by " + "seaweedfs-operator " + "\U{2014} do not edit",
     "# this file is read by " + "master, volume server, " + "filer, and admin"]
  }

  function Header(name: string): string { "[" + name + "]" }

  function KeyLine(key: string): string { "key = " + Quote(key) }

  function ExpiryLine(seconds: nat): string { "expires_after_seconds = " + Dec(seconds) }

  function Block(cfg: JwtSpec, keys: PerSection<string>, s: Section): seq<string> {
    ["", Comment(s), Header(Name(s)), KeyLine(keys.Get(s))] +
    if cfg.expires.Get(s) > 0 then [ExpiryLine(cfg.expires.Get(s))] else []
  }

  function Blocks(cfg: JwtSpec, keys: PerSection<string>, i: nat): seq<string>
    requires i <= 4
    decreases 4 - i
  {
    if i == 4 then []
    else (if cfg.on.Get(SECTIONS[i]) then Block(cfg, keys, SECTIONS[i]) else []) + Blocks(cfg, keys, i + 1)
  }

  const CERT_LINE: string := "cert = \"/etc/sw-tls/tls.crt\""
  const CERT_KEY_LINE: string := "key  = \"/etc/sw-tls/tls.key\""

  function GrpcBlock(name: string): seq<string> { ["", Header(name), CERT_LINE, CERT_KEY_LINE] }

  function GrpcIntro(): seq<string> {
    ["", "# all grpc tls " + "authentications are mutual", Header("grpc"), "ca = \"/etc/sw-tls/ca.crt\""]
  }

  function Grpc(): seq<string> {
    GrpcIntro() +
    GrpcBlock("grpc.volume") + GrpcBlock("grpc.master") + GrpcBlock("grpc.filer") +
    GrpcBlock("grpc.admin") + GrpcBlock("grpc.worker") + GrpcBlock("grpc.client")
  }

  function FileLines(cfg: JwtSpec, keys: PerSection<string>, withTls: bool): seq<string> {
    Preamble() + Blocks(cfg, keys, 0) + if withTls then Grpc() else []
  }

  /** The bytes of security.toml. */
  function FileText(cfg: JwtSpec, keys: PerSection<string>, withTls: bool): string {
    Unlines(FileLines(cfg, keys, withTls))
  }

  function Line(l: string): string { l + "\n" }

  /** The text of one section, as the format string lays it out. */
  function Entry(comment: string, header: string, key: string): string {
    Line("") + (Line(comment) + (Line(header) + Line(key)))
  }

  lemma EntryLines(c: string, h: string, k: string)
    ensures Unlines(["", c, h, k]) == Entry(c, h, k)
  {
    var all := ["", c, h, k];
    assert all[1..] == [c, h, k] && [c, h, k][1..] == [h, k] && [h, k][1..] == [k];
    LineAlone(k);
    assert Unlines([h, k]) == Line(h) + Line(k);
    assert Unlines([c, h, k]) == Line(c) + (Line(h) + Line(k));
  }

  lemma LineAlone(l: string)
    ensures Unlines([l]) == Line(l)
  {
    assert [l][1..] == [];
  }

  lemma BlockText(cfg: JwtSpec, keys: PerSection<string>, s: Section)
    ensures Unlines(Block(cfg, keys, s))
         == Entry(Comment(s), Header(Name(s)), KeyLine(keys.Get(s))) +
            if cfg.expires.Get(s) > 0 then Line(ExpiryLine(cfg.expires.Get(s))) else ""
  {
    hide Comment, Name, KeyLine, ExpiryLine, Entry;
    EntryLines(Comment(s), Header(Name(s)), KeyLine(keys.Get(s)));
    var four := ["", Comment(s), Header(Name(s)), KeyLine(keys.Get(s))];
    if cfg.expires.Get(s) > 0 {
      LineAlone(ExpiryLine(cfg.expires.Get(s)));
      UnlinesAppend(four, [ExpiryLine(cfg.expires.Get(s))]);
    } else {
      assert Block(cfg, keys, s) == four && Unlines(four) + "" == Unlines(four);
    }
  }

  lemma BlocksText(cfg: JwtSpec, keys: PerSection<string>, i: nat, before: string, after: string)
    requires i < 4
    requires cfg.on.Get(SECTIONS[i]) ==> after == before + Unlines(Block(cfg, keys, SECTIONS[i]))
    requires !cfg.on.Get(SECTIONS[i]) ==> after == before
    ensures before + Unlines(Blocks(cfg, keys, i)) == after + Unlines(Blocks(cfg, keys, i + 1))
  {
    hide Block, Comment, Unlines;
    if cfg.on.Get(SECTIONS[i]) {
      UnlinesAppend(Block(cfg, keys, SECTIONS[i]), Blocks(cfg, keys, i + 1));
    } else {
      assert Blocks(cfg, keys, i) == Blocks(cfg, keys, i + 1);
    }
  }

  /** The builder loop writes the file line by line. */
  method RenderSecurityToml(cfg: JwtSpec, keys: PerSection<string>, withTls: bool) returns (b: string)
    ensures b == FileText(cfg, keys, withTls)
  {
    assert Unlines(Blocks(cfg, keys, 4)) == "" && Unlines([]) == "";
    hide Comment, Name, KeyLine, ExpiryLine, Entry, Preamble, Grpc, Block, Blocks, Unlines;
    b := Unlines(Preamble());
    UnlinesAppend(Preamble(), Blocks(cfg, keys, 0));
    var i := 0;
    while i < 4
      invariant 0 <= i <= 4
      invariant b + Unlines(Blocks(cfg, keys, i)) == Unlines(Preamble() + Blocks(cfg, keys, 0))
    {
      var s := SECTIONS[i];
      ghost var before := b;
      if cfg.on.Get(s) {
        b := b + Entry(Comment(s), Header(Name(s)), KeyLine(keys.Get(s)));
        if cfg.expires.Get(s) > 0 {
          b := b + Line(ExpiryLine(cfg.expires.Get(s)));
        }
        BlockText(cfg, keys, s);
      }
      i := i + 1;
      BlocksText(cfg, keys, i - 1, before, b);
    }
    assert b + "" == b;
    UnlinesAppend(Preamble() + Blocks(cfg, keys, 0), if withTls then Grpc() else []);
    if withTls {
      b := b + Unlines(Grpc());
    }
  }

  // ---------------------------------------------------------------- line parser

  predicate TomlSpace(c: char) { c == ' ' || c == '\t' || c == '\r' }

  const SPACE: char -> bool := c => TomlSpace(c)

  /** The lines of a text; a trailing newline opens no further line. */
  function Lines(s: string): seq<string> {
    if s == [] then []
    else var n := LineEnd(s); if n == |s| then [s] else [s[..n]] + Lines(s[n + 1..])
  }

  function LineEnd(s: string): (n: nat)
    ensures n <= |s| && '\n' !in s[..n] && (n < |s| ==> s[n] == '\n')
  {
    if s == [] || s[0] == '\n' then 0
    else
      assert s == [s[0]] + s[1..];
      LineEnd(s[1..]) + 1
  }

  lemma {:induction false} LineEndAt(s: string, n: nat)
    requires n <= |s| && '\n' !in s[..n] && (n < |s| ==> s[n] == '\n')
    ensures LineEnd(s) == n
  {
    if n > 0 {
      assert s[..n] == [s[0]] + s[1..][..n - 1];
      LineEndAt(s[1..], n - 1);
    }
  }

  lemma LinesStep(s: string, start: nat, i: nat)
    requires start <= i < |s| && '\n' !in s[start..i] && s[i] == '\n'
    ensures Lines(s[start..]) == [s[start..i]] + Lines(s[i + 1..])
  {
    var t := s[start..];
    assert t[..i - start] == s[start..i] && t[i - start + 1..] == s[i + 1..];
    LineEndAt(t, i - start);
  }

  lemma LastLine(s: string)
    requires '\n' !in s
    ensures Lines(s) == if s == [] then [] else [s]
  {
    assert s[..|s|] == s;
    LineEndAt(s, |s|);
  }

  method SplitLines(s: string) returns (out: seq<string>)
    ensures out == Lines(s)
  {
    hide Lines;
    out := [];
    var start, i := 0, 0;
    while i < |s|
      invariant 0 <= start <= i <= |s|
      invariant '\n' !in s[start..i]
      invariant out + Lines(s[start..]) == Lines(s)
    {
      if s[i] == '\n' {
        LinesStep(s, start, i);
        out := out + [s[start..i]];
        start := i + 1;
      }
      i := i + 1;
    }
    LastLine(s[start..]);
    if start < |s| {
      out := out + [s[start..]];
    }
  }

  method TrimSpace(s: string) returns (r: string)
    ensures r == Trim(s, SPACE)
  {
    var i, j := 0, |s|;
    while i < j && TomlSpace(s[i])
      invariant 0 <= i <= j == |s|
      invariant TrimLeft(s[i..], SPACE) == TrimLeft(s, SPACE)
    {
      assert s[i..][1..] == s[i + 1..];
      i := i + 1;
    }
    assert TrimLeft(s[i..], SPACE) == s[i..] == s[i..j];
    while j > i && TomlSpace(s[j - 1])
      invariant i <= j <= |s|
      invariant TrimRight(s[i..j], SPACE) == Trim(s, SPACE)
    {
      assert s[i..j][..j - 1 - i] == s[i..j - 1];
      j := j - 1;
    }
    r := s[i..j];
  }

  /** What one trimmed line under the wanted section yields. */
  function LineValue(trimmed: string, key: string): Option<string> {
    if |trimmed| < |key| + 4 || trimmed[..|key|] != key then None
    else
      var rest := Trim(trimmed[|key|..], SPACE);
      if |rest| < 3 || rest[0] != '=' then None
      else
        var value := Trim(rest[1..], SPACE);
        if |value| >= 2 && value[0] == '"' && value[|value| - 1] == '"'
        then Some(value[1..|value| - 1])
        else None
  }

  /** The first value found, scanning from a position inside or outside the section. */
  function Scan(lines: seq<string>, inSection: bool, want: string, key: string): Option<string> {
    if lines == [] then None
    else
      var trimmed := Trim(lines[0], SPACE);
      if trimmed == want then Scan(lines[1..], true, want, key)
      else if |trimmed| > 0 && trimmed[0] == '[' then Scan(lines[1..], false, want, key)
      else if inSection && LineValue(trimmed, key).Some? then LineValue(trimmed, key)
      else Scan(lines[1..], inSection, want, key)
  }

  /** The value `key` has under `[section]`, "" when there is none. */
  function Extract(toml: string, section: string, key: string): string {
    match Scan(Lines(toml), false, Header(section), key)
    case Some(v) => v
    case None => ""
  }

  method ExtractTomlKey(toml: string, section: string, key: string) returns (v: string)
    ensures v == Extract(toml, section, key)
  {
    hide Trim, Scan;
    ScanNone(toml, section, key);
    if toml == "" { return ""; }
    var lines := SplitLines(toml);
    hide Lines;
    assert lines[0..] == lines;
    var inSection := false;
    var want := Header(section);
    var n := 0;
    while n < |lines|
      invariant 0 <= n <= |lines|
      invariant Scan(lines[n..], inSection, want, key) == Scan(lines, false, want, key)
    {
      ScanStep(lines, n, inSection, want, key);
      var trimmed := TrimSpace(lines[n]);
      n := n + 1;
      if trimmed == want { inSection := true; continue; }
      if |trimmed| > 0 && trimmed[0] == '[' { inSection := false; continue; }
      if !inSection { continue; }
      if |trimmed| < |key| + 4 || trimmed[..|key|] != key { continue; }
      var rest := TrimSpace(trimmed[|key|..]);
      if |rest| < 3 || rest[0] != '=' { continue; }
      rest := TrimSpace(rest[1..]);
      if |rest| >= 2 && rest[0] == '"' && rest[|rest| - 1] == '"' {
        return rest[1..|rest| - 1];
      }
    }
    return "";
  }

  lemma ScanStep(lines: seq<string>, n: nat, inSection: bool, want: string, key: string)
    requires n < |lines|
    ensures var trimmed := Trim(lines[n], SPACE);
            Scan(lines[n..], inSection, want, key) ==
            if trimmed == want then Scan(lines[n + 1..], true, want, key)
            else if |trimmed| > 0 && trimmed[0] == '[' then Scan(lines[n + 1..], false, want, key)
            else if inSection && LineValue(trimmed, key).Some? then LineValue(trimmed, key)
            else Scan(lines[n + 1..], inSection, want, key)
  {
    assert lines[n..][1..] == lines[n + 1..];
  }

  lemma ScanNone(toml: string, section: string, key: string)
    ensures forall inSection, want, lines :: |lines| == 0 ==> Scan(lines, inSection, want, key) == None
    ensures toml == "" ==> Extract(toml, section, key) == ""
  {
  }

  /** All four keys a file holds. */
  function ParsedKeys(toml: string): PerSection<string> {
    PerSection(Extract(toml, Name(VolumeWrite), "key"), Extract(toml, Name(VolumeRead), "key"),
               Extract(toml, Name(FilerWrite), "key"), Extract(toml, Name(FilerRead), "key"))
  }

  method ParseJwtSigningKeys(toml: string) returns (keys: PerSection<string>)
    ensures keys == ParsedKeys(toml)
  {
    keys := NO_KEYS;
    var i := 0;
    while i < 4
      invariant 0 <= i <= 4
      invariant forall j :: 0 <= j < i ==> keys.Get(SECTIONS[j]) == Extract(toml, Name(SECTIONS[j]), "key")
    {
      var v := ExtractTomlKey(toml, Name(SECTIONS[i]), "key");
      keys := keys.Set(SECTIONS[i], v);
      i := i + 1;
    }
    assert SECTIONS[0] == VolumeWrite && SECTIONS[1] == VolumeRead && SECTIONS[2] == FilerWrite && SECTIONS[3] == FilerRead;
  }

  // ---------------------------------------------------------------- parser undoes printer

  lemma {:induction false} LinesUnlines(ls: seq<string>)
    requires forall i :: 0 <= i < |ls| ==> '\n' !in ls[i]
    ensures Lines(Unlines(ls)) == ls
  {
    if ls != [] {
      var s := Unlines(ls);
      assert s[..|ls[0]|] == ls[0] && s[|ls[0]| + 1..] == Unlines(ls[1..]);
      LineEndAt(s, |ls[0]|);
      LinesUnlines(ls[1..]);
    }
  }

  predicate Quiet(line: string) {
    line == "" || (!TomlSpace(line[0]) && !TomlSpace(line[|line| - 1]))
  }

  lemma TrimQuiet(line: string)
    requires Quiet(line)
    ensures Trim(line, SPACE) == line
  {
    TrimTrims(line, SPACE);
  }

  /** Lines that neither open a section nor set `key` are skipped. */
  predicate Inert(line: string) {
    Quiet(line) && (line == "" || line[0] == '#' || line[0] == 'e' || line[0] == 'c')
  }

  lemma InertStep(line: string, rest: seq<string>, inSection: bool, s: Section)
    requires Inert(line)
    ensures Scan([line] + rest, inSection, Header(Name(s)), "key") == Scan(rest, inSection, Header(Name(s)), "key")
  {
    TrimQuiet(line);
    if |line| >= 3 { assert line[..3][0] == line[0]; }
  }

  lemma HeaderStep(name: string, rest: seq<string>, inSection: bool, s: Section)
    ensures Scan([Header(name)] + rest, inSection, Header(Name(s)), "key")
         == Scan(rest, Header(name) == Header(Name(s)), Header(Name(s)), "key")
  {
    TrimQuiet(Header(name));
  }

  lemma OutsideStep(line: string, rest: seq<string>, s: Section)
    requires Quiet(line) && line != "" && line[0] == 'k'
    ensures Scan([line] + rest, false, Header(Name(s)), "key") == Scan(rest, false, Header(Name(s)), "key")
  {
    TrimQuiet(line);
  }

  lemma KeyLineQuiet(k: string)
    ensures Quiet(KeyLine(k)) && KeyLine(k)[0] == 'k'
  {
    var line := KeyLine(k);
    assert line[0] == 'k' && line[|line| - 1] == '"';
  }

  lemma KeyLineValue(k: string)
    ensures LineValue(KeyLine(k), "key") == Some(Escape(k))
  {
    var line, q := KeyLine(k), Quote(k);
    assert line[..3] == "key";
    assert line[3..] == " = " + q;
    assert (" = " + q)[1..] == "= " + q;
    assert TrimLeft(" = " + q, SPACE) == TrimLeft("= " + q, SPACE) == "= " + q;
    assert Trim(line[3..], SPACE) == "= " + q;
    assert ("= " + q)[1..] == " " + q;
    assert (" " + q)[1..] == q;
    assert TrimLeft(" " + q, SPACE) == TrimLeft(q, SPACE) == q;
    assert Trim(" " + q, SPACE) == q;
    assert q[1..|q| - 1] == Escape(k);
  }

  lemma KeyStep(k: string, rest: seq<string>, s: Section)
    ensures Scan([KeyLine(k)] + rest, true, Header(Name(s)), "key") == Some(Escape(k))
  {
    KeyLineQuiet(k);
    TrimQuiet(KeyLine(k));
    KeyLineValue(k);
  }

  /** A one-line comment stays one when a piece ending in a letter is appended. */
  lemma Glue(a: string, b: string)
    requires a != "" && b != "" && a[0] == '#' && '\n' !in a && '\n' !in b && b[|b| - 1] != '\t' && b[|b| - 1] != '\r'
    ensures (a + b)[0] == '#' && '\n' !in a + b && (b[|b| - 1] != ' ' ==> Inert(a + b))
  {
  }

  lemma VolumeWriteComment()
    ensures Inert(Comment(VolumeWrite)) && '\n' !in Comment(VolumeWrite)
  {
    Glue("# the master signs ", "upload tokens; the ");
    Glue("# the master signs " + "upload tokens; the ", "volume server rejects ");
    Glue("# the master signs " + "upload tokens; the " + "volume server rejects ", "unsigned writes");
  }

  lemma VolumeReadComment()
    ensures Inert(Comment(VolumeRead)) && '\n' !in Comment(VolumeRead)
  {
    Glue("# the volume server ", "requires a signed token ");
    Glue("# the volume server " + "requires a signed token ", "on reads too");
  }

  lemma FilerWriteComment()
    ensures Inert(Comment(FilerWrite)) && '\n' !in Comment(FilerWrite)
  {
    Glue("# the filer rejects ", "unsigned HTTP writes and ");
    Glue("# the filer rejects " + "unsigned HTTP writes and ", "unsigned IAM gRPC calls");
  }

  lemma FilerReadComment()
    ensures Inert(Comment(FilerRead)) && '\n' !in Comment(FilerRead)
  {
    Glue("# the filer rejects ", "unsigned HTTP reads too; ");
    Glue("# the filer rejects " + "unsigned HTTP reads too; ", "the S3 gateway signs its ");
    Glue("# the filer rejects " + "unsigned HTTP reads too; " + "the S3 gateway signs its ", "own");
  }

  lemma CommentsInert(s: Section)
    ensures Inert("") && Inert(Comment(s)) && '\n' !in Comment(s) && '\n' !in Header(Name(s))
  {
    assert Inert("");
    VolumeWriteComment();
    VolumeReadComment();
    FilerWriteComment();
    FilerReadComment();
    hide Comment, Inert;
  }

  lemma ExpiryInert(seconds: nat)
    ensures Inert(ExpiryLine(seconds)) && '\n' !in ExpiryLine(seconds)
  {
    var line := ExpiryLine(seconds);
    assert line[|line| - 1] in Dec(seconds);
  }

  lemma HeadersDiffer(s: Section, t: Section)
    ensures Header(Name(s)) == Header(Name(t)) <==> s == t
  {
    assert |Name(VolumeWrite)| == 11 && |Name(VolumeRead)| == 16 && |Name(FilerWrite)| == 17 && |Name(FilerRead)| == 22;
  }

  /** Scanning from a section block: found if it is the wanted one, skipped otherwise. */
  lemma BlockStep(cfg: JwtSpec, keys: PerSection<string>, t: Section, rest: seq<string>, s: Section)
    ensures Scan(Block(cfg, keys, t) + rest, false, Header(Name(s)), "key")
         == if s == t then Some(Escape(keys.Get(s))) else Scan(rest, false, Header(Name(s)), "key")
  {
    hide Comment, Name, Scan, ExpiryLine, Inert, Quiet;
    var tail := (if cfg.expires.Get(t) > 0 then [ExpiryLine(cfg.expires.Get(t))] else []) + rest;
    var l3 := [KeyLine(keys.Get(t))] + tail;
    var l2 := [Header(Name(t))] + l3;
    var l1 := [Comment(t)] + l2;
    assert Block(cfg, keys, t) + rest == [""] + l1;
    CommentsInert(t);
    InertStep("", l1, false, s);
    InertStep(Comment(t), l2, false, s);
    HeaderStep(Name(t), l3, false, s);
    HeadersDiffer(t, s);
    if s == t {
      KeyStep(keys.Get(t), tail, s);
    } else {
      KeyLineQuiet(keys.Get(t));
      OutsideStep(KeyLine(keys.Get(t)), tail, s);
      if cfg.expires.Get(t) > 0 {
        ExpiryInert(cfg.expires.Get(t));
        InertStep(ExpiryLine(cfg.expires.Get(t)), rest, false, s);
      } else {
        assert tail == rest;
      }
    }
  }

  function Index(s: Section): (i: nat)
    ensures i < 4 && SECTIONS[i] == s
  {
    match s
    case VolumeWrite => 0
    case VolumeRead => 1
    case FilerWrite => 2
    case FilerRead => 3
  }

  lemma {:induction false} BlocksStep(cfg: JwtSpec, keys: PerSection<string>, i: nat, rest: seq<string>, s: Section)
    requires i <= 4
    ensures Scan(Blocks(cfg, keys, i) + rest, false, Header(Name(s)), "key")
         == if Index(s) >= i && cfg.on.Get(s) then Some(Escape(keys.Get(s)))
            else Scan(rest, false, Header(Name(s)), "key")
    decreases 4 - i
  {
    hide Comment, Name, Scan, Block, Escape;
    if i == 4 {
      assert Blocks(cfg, keys, i) + rest == rest;
    } else {
      var t := SECTIONS[i];
      BlocksStep(cfg, keys, i + 1, rest, s);
      if cfg.on.Get(t) {
        assert Blocks(cfg, keys, i) + rest == Block(cfg, keys, t) + (Blocks(cfg, keys, i + 1) + rest);
        BlockStep(cfg, keys, t, Blocks(cfg, keys, i + 1) + rest, s);
      } else {
        assert Blocks(cfg, keys, i) + rest == Blocks(cfg, keys, i + 1) + rest;
      }
    }
  }

  lemma GrpcBlockStep(name: string, rest: seq<string>, s: Section)
    requires Header(name) != Header(Name(s))
    ensures Scan(GrpcBlock(name) + rest, false, Header(Name(s)), "key") == Scan(rest, false, Header(Name(s)), "key")
  {
    var l3 := [CERT_KEY_LINE] + rest;
    var l2 := [CERT_LINE] + l3;
    var l1 := [Header(name)] + l2;
    assert GrpcBlock(name) + rest == [""] + l1;
    InertStep("", l1, false, s);
    HeaderStep(name, l2, false, s);
    assert CERT_LINE[|CERT_LINE| - 1] == '"' && CERT_KEY_LINE[|CERT_KEY_LINE| - 1] == '"';
    InertStep(CERT_LINE, l3, false, s);
    OutsideStep(CERT_KEY_LINE, rest, s);
  }

  lemma GrpcNames(s: Section)
    ensures Header("grpc") != Header(Name(s))
    ensures Header("grpc.volume") != Header(Name(s)) && Header("grpc.master") != Header(Name(s))
    ensures Header("grpc.filer") != Header(Name(s)) && Header("grpc.admin") != Header(Name(s))
    ensures Header("grpc.worker") != Header(Name(s)) && Header("grpc.client") != Header(Name(s))
  {
    assert Header(Name(s))[1] == 'j';
  }

  /** The mTLS sections hold no JWT key, for all their `key  =` lines. */
  lemma GrpcStep(s: Section)
    ensures Scan(Grpc(), false, Header(Name(s)), "key") == None
  {
    hide Scan, Name, Inert, Quiet;
    GrpcNames(s);
    var g6 := GrpcBlock("grpc.client") + [];
    var g5 := GrpcBlock("grpc.worker") + g6;
    var g4 := GrpcBlock("grpc.admin") + g5;
    var g3 := GrpcBlock("grpc.filer") + g4;
    var g2 := GrpcBlock("grpc.master") + g3;
    var g1 := GrpcBlock("grpc.volume") + g2;
    GrpcHead(g1, s);
    assert Grpc() == GrpcIntro() + g1;
    GrpcBlockStep("grpc.volume", g2, s);
    GrpcBlockStep("grpc.master", g3, s);
    GrpcBlockStep("grpc.filer", g4, s);
    GrpcBlockStep("grpc.admin", g5, s);
    GrpcBlockStep("grpc.worker", g6, s);
    GrpcBlockStep("grpc.client", [], s);
    ScanNothing(s);
  }

  lemma ScanNothing(s: Section)
    ensures Scan([], false, Header(Name(s)), "key") == None
  {
  }

  lemma GrpcHead(rest: seq<string>, s: Section)
    requires Header("grpc") != Header(Name(s))
    ensures Scan(GrpcIntro() + rest, false, Header(Name(s)), "key") == Scan(rest, false, Header(Name(s)), "key")
  {
    var ca, c := GrpcIntro()[3], GrpcIntro()[1];
    assert ca[0] == 'c' && ca[|ca| - 1] == '"' && c[0] == '#' && c[|c| - 1] == 'l';
    assert Inert(ca) && Inert(c);
    hide Scan, Name, Inert, Quiet;
    assert GrpcIntro() + rest == [""] + ([c] + ([Header("grpc")] + ([ca] + rest)));
    CommentsInert(s);
    InertStep("", [c] + ([Header("grpc")] + ([ca] + rest)), false, s);
    InertStep(c, [Header("grpc")] + ([ca] + rest), false, s);
    HeaderStep("grpc", [ca] + rest, false, s);
    InertStep(ca, rest, false, s);
  }

  lemma {:induction false} BlocksOneLine(cfg: JwtSpec, keys: PerSection<string>, i: nat)
    requires i <= 4
    ensures forall n :: 0 <= n < |Blocks(cfg, keys, i)| ==> '\n' !in Blocks(cfg, keys, i)[n]
    decreases 4 - i
  {
    hide Comment, Name, Escape;
    if i < 4 {
      var s := SECTIONS[i];
      BlocksOneLine(cfg, keys, i + 1);
      CommentsInert(s);
      EscapeLength(keys.Get(s));
      if cfg.expires.Get(s) > 0 { ExpiryInert(cfg.expires.Get(s)); }
      assert forall n :: 0 <= n < |Block(cfg, keys, s)| ==> '\n' !in Block(cfg, keys, s)[n];
    }
  }

  lemma FileOneLine(cfg: JwtSpec, keys: PerSection<string>, withTls: bool)
    ensures Lines(FileText(cfg, keys, withTls)) == FileLines(cfg, keys, withTls)
  {
    BlocksOneLine(cfg, keys, 0);
    GrpcOneLine();
    PreambleInert();
    hide Preamble, Grpc, Blocks;
    LinesUnlines(FileLines(cfg, keys, withTls));
  }

  predicate OneLines(ls: seq<string>) {
    forall n :: 0 <= n < |ls| ==> '\n' !in ls[n]
  }

  lemma GrpcBlockOneLine(name: string)
    requires '\n' !in name
    ensures OneLines(GrpcBlock(name))
  {
    assert '\n' !in Header(name) && '\n' !in CERT_LINE && '\n' !in CERT_KEY_LINE;
  }

  lemma GrpcOneLine()
    ensures OneLines(Grpc())
  {
    assert OneLines(GrpcIntro());
    GrpcBlockOneLine("grpc.volume");
    GrpcBlockOneLine("grpc.master");
    GrpcBlockOneLine("grpc.filer");
    GrpcBlockOneLine("grpc.admin");
    GrpcBlockOneLine("grpc.worker");
    GrpcBlockOneLine("grpc.client");
    hide GrpcIntro, GrpcBlock;
  }

  lemma PreambleFirst()
    ensures Inert(Preamble()[0]) && '\n' !in Preamble()[0]
  {
    Glue("# generated by ", "seaweedfs-operator ");
    Glue("# generated by " + "seaweedfs-operator ", "\U{2014} do not edit");
  }

  lemma PreambleSecond()
    ensures Inert(Preamble()[1]) && '\n' !in Preamble()[1]
  {
    Glue("# this file is read by ", "master, volume server, ");
    Glue("# this file is read by " + "master, volume server, ", "filer, and admin");
  }

  lemma PreambleInert()
    ensures |Preamble()| == 2
    ensures forall n :: 0 <= n < |Preamble()| ==> Inert(Preamble()[n]) && '\n' !in Preamble()[n]
  {
    PreambleFirst();
    PreambleSecond();
    assert |Preamble()| == 2;
    hide Preamble, Inert;
  }

  /** Reading one section of a rendered file: the key between the quotes when the
      section is on, nothing otherwise, for every key text and every flag set. */
  lemma ParseRender(cfg: JwtSpec, keys: PerSection<string>, withTls: bool, s: Section)
    ensures ParsedKeys(FileText(cfg, keys, withTls)).Get(s) == if cfg.on.Get(s) then Escape(keys.Get(s)) else ""
  {
    hide Preamble, Grpc, Blocks, Scan, Name, Inert, Escape, FileText, Lines, Header;
    FileOneLine(cfg, keys, withTls);
    PreambleInert();
    BlocksStep(cfg, keys, 0, if withTls then Grpc() else [], s);
    GrpcStep(s);
    ScanNothing(s);
    var rest := Blocks(cfg, keys, 0) + if withTls then Grpc() else [];
    assert FileLines(cfg, keys, withTls) == [Preamble()[0]] + ([Preamble()[1]] + rest);
    InertStep(Preamble()[0], [Preamble()[1]] + rest, false, s);
    InertStep(Preamble()[1], rest, false, s);
  }

  /** The parser undoes the printer exactly when every rendered key is plain. */
  lemma RoundTripExact(cfg: JwtSpec, keys: PerSection<string>, withTls: bool)
    ensures (forall s: Section :: ParsedKeys(FileText(cfg, keys, withTls)).Get(s) == if cfg.on.Get(s) then keys.Get(s) else "")
       <==> (forall s: Section :: cfg.on.Get(s) ==> Plain(keys.Get(s)))
  {
    var parsed := ParsedKeys(FileText(cfg, keys, withTls));
    forall s: Section
      ensures parsed.Get(s) == (if cfg.on.Get(s) then keys.Get(s) else "") <==> (cfg.on.Get(s) ==> Plain(keys.Get(s)))
    {
      ParseRender(cfg, keys, withTls, s);
      EscapeFixed(keys.Get(s));
    }
  }
}
