/** What stands in a rendered security.toml and what a given file text means, in the
    literal lines the components read. */
module SecurityTomlText {
  import opened Text
  import opened SecurityToml

  // ---------------------------------------------------------------- literal lines

  /** The section's header, its key line, and its lifetime line exactly when there is
      a lifetime, one below the other. */
  ghost predicate HasEntry(ls: seq<string>, header: string, key: string, seconds: int) {
    exists i :: EntryAt(ls, i, header, key, seconds)
  }

  predicate EntryAt(ls: seq<string>, i: int, header: string, key: string, seconds: int) {
    && 0 <= i && i + 1 < |ls| && ls[i] == header && ls[i + 1] == "key = \"" + key + "\""
    && if seconds > 0 then i + 2 < |ls| && ls[i + 2] == "expires_after_seconds = " + Dec(seconds)
       else i + 2 == |ls| || ls[i + 2] == ""
  }

  /** An mTLS section pointing at the mounted certificate. */
  ghost predicate HasCertificate(ls: seq<string>, header: string) {
    exists i :: CertificateAt(ls, i, header)
  }

  predicate CertificateAt(ls: seq<string>, i: int, header: string) {
    && 0 <= i && i + 2 < |ls| && ls[i] == header
    && ls[i + 1] == "cert = \"/etc/sw-tls/tls.crt\"" && ls[i + 2] == "key  = \"/etc/sw-tls/tls.key\""
  }

  lemma EntryHeader(ls: seq<string>, header: string, key: string, seconds: int)
    requires HasEntry(ls, header, key, seconds)
    ensures header in ls
  {
  }

  lemma EntryMoves(a: seq<string>, b: seq<string>, c: seq<string>, i: int, header: string, key: string, seconds: int)
    requires EntryAt(b, i, header, key, seconds) && (c == [] || c[0] == "")
    ensures EntryAt(a + b + c, |a| + i, header, key, seconds)
  {
    var ls := a + b + c;
    assert forall j :: 0 <= j < |b| ==> ls[|a| + j] == b[j];
    assert c != [] ==> ls[|a| + |b|] == c[0];
  }

  // ---------------------------------------------------------------- the JWT sections

  lemma BlockEntry(cfg: JwtSpec, keys: PerSection<string>, s: Section)
    ensures EntryAt(Block(cfg, keys, s), 2, Header(Name(s)), Escape(keys.Get(s)), cfg.expires.Get(s))
  {
    hide Comment, Name, Escape;
  }

  lemma {:induction false} BlocksBegin(cfg: JwtSpec, keys: PerSection<string>, i: nat)
    requires i <= 4
    ensures Blocks(cfg, keys, i) == [] || Blocks(cfg, keys, i)[0] == ""
    decreases 4 - i
  {
    hide Comment, Name, KeyLine;
    if i < 4 { BlocksBegin(cfg, keys, i + 1); }
  }

  lemma {:induction false} BlocksEntry(cfg: JwtSpec, keys: PerSection<string>, i: nat, rest: seq<string>, s: Section)
    returns (p: int)
    requires i <= Index(s) && cfg.on.Get(s) && (rest == [] || rest[0] == "")
    ensures EntryAt(Blocks(cfg, keys, i) + rest, p, Header(Name(s)), Escape(keys.Get(s)), cfg.expires.Get(s))
    decreases 4 - i
  {
    hide Block, EntryAt, Name, Escape, Header;
    var t := SECTIONS[i];
    var head := if cfg.on.Get(t) then Block(cfg, keys, t) else [];
    var blocks := Blocks(cfg, keys, i + 1);
    var tail := blocks + rest;
    BlocksHeadTail(cfg, keys, i, rest);
    BlocksBegin(cfg, keys, i + 1);
    assert tail == [] || tail[0] == "";
    hide Blocks;
    if t == s {
      BlockEntry(cfg, keys, s);
      assert [] + head + tail == head + tail;
      EntryMoves([], head, tail, 2, Header(Name(s)), Escape(keys.Get(s)), cfg.expires.Get(s));
      p := 2;
    } else {
      assert i + 1 <= Index(s);
      var q := BlocksEntry(cfg, keys, i + 1, rest, s);
      assert head + tail + [] == head + tail;
      EntryMoves(head, tail, [], q, Header(Name(s)), Escape(keys.Get(s)), cfg.expires.Get(s));
      p := |head| + q;
    }
  }

  lemma BlocksHeadTail(cfg: JwtSpec, keys: PerSection<string>, i: nat, rest: seq<string>)
    requires i < 4
    ensures Blocks(cfg, keys, i) + rest ==
            (if cfg.on.Get(SECTIONS[i]) then Block(cfg, keys, SECTIONS[i]) else []) + (Blocks(cfg, keys, i + 1) + rest)
  {
    hide Block;
  }

  lemma {:induction false} BlocksLack(cfg: JwtSpec, keys: PerSection<string>, i: nat, s: Section)
    requires i <= 4 && !cfg.on.Get(s)
    ensures Header(Name(s)) !in Blocks(cfg, keys, i)
    decreases 4 - i
  {
    hide Comment, Name;
    if i < 4 {
      BlocksLack(cfg, keys, i + 1, s);
      if cfg.on.Get(SECTIONS[i]) { BlockLacks(cfg, keys, SECTIONS[i], s); }
      hide Block;
    }
  }

  lemma BlockLacks(cfg: JwtSpec, keys: PerSection<string>, t: Section, s: Section)
    requires t != s
    ensures Header(Name(s)) !in Block(cfg, keys, t)
  {
    HeadersDiffer(t, s);
    CommentBegins(t);
    hide Comment, Name;
    assert Header(Name(s))[0] == '[' && KeyLine(keys.Get(t))[0] == 'k';
    if cfg.expires.Get(t) > 0 { assert ExpiryLine(cfg.expires.Get(t))[0] == 'e'; }
  }

  lemma CommentBegins(s: Section)
    ensures Comment(s) != "" && Comment(s)[0] == '#'
  {
  }

  lemma SectionPresent(cfg: JwtSpec, keys: PerSection<string>, withTls: bool, s: Section)
    requires cfg.on.Get(s)
    ensures HasEntry(FileLines(cfg, keys, withTls), Header(Name(s)), Escape(keys.Get(s)), cfg.expires.Get(s))
  {
    var grpc := if withTls then Grpc() else [];
    GrpcBegins();
    hide Preamble, Grpc, Blocks, Name, Escape, EntryAt, Header;
    var p := BlocksEntry(cfg, keys, 0, grpc, s);
    var a, b := Preamble(), Blocks(cfg, keys, 0) + grpc;
    assert a + b + [] == FileLines(cfg, keys, withTls);
    EntryMoves(a, b, [], p, Header(Name(s)), Escape(keys.Get(s)), cfg.expires.Get(s));
  }

  lemma SectionAbsent(cfg: JwtSpec, keys: PerSection<string>, withTls: bool, s: Section)
    requires !cfg.on.Get(s)
    ensures Header(Name(s)) !in FileLines(cfg, keys, withTls)
  {
    BlocksLack(cfg, keys, 0, s);
    GrpcLacks(s);
    PreambleLacks(s);
    hide Preamble, Grpc, Blocks, Name, Header;
  }

  /** One section of a rendered file: there with its key exactly when it is on. */
  lemma SectionRendered(cfg: JwtSpec, keys: PerSection<string>, withTls: bool, s: Section)
    ensures var ls := Lines(FileText(cfg, keys, withTls));
            && (cfg.on.Get(s) ==> HasEntry(ls, Header(Name(s)), Escape(keys.Get(s)), cfg.expires.Get(s)))
            && (!cfg.on.Get(s) ==> Header(Name(s)) !in ls)
  {
    hide FileLines, FileText, Lines, Escape, Header, Name, HasEntry;
    FileOneLine(cfg, keys, withTls);
    if cfg.on.Get(s) {
      SectionPresent(cfg, keys, withTls, s);
    } else {
      SectionAbsent(cfg, keys, withTls, s);
    }
  }

  lemma GrpcBegins()
    ensures Grpc() != [] && Grpc()[0] == ""
  {
    hide GrpcBlock;
  }

  lemma GrpcLacks(s: Section)
    ensures Header(Name(s)) !in Grpc()
  {
    GrpcNames(s);
    GrpcLines();
    assert Header(Name(s))[1] == 'j';
    hide Grpc, Name;
  }

  /** Every mTLS line is blank, a comment, a certificate entry, or a [grpc header. */
  predicate GrpcLine(l: string) {
    l == "" || l[0] == 'c' || l[0] == 'k' || l[0] == '#' || (|l| > 1 && l[0] == '[' && l[1] == 'g')
  }

  predicate GrpcAll(ls: seq<string>) { forall l :: l in ls ==> GrpcLine(l) }

  lemma GrpcBlockLines(name: string)
    requires name != "" && name[0] == 'g'
    ensures GrpcAll(GrpcBlock(name))
  {
  }

  lemma GrpcLines()
    ensures GrpcAll(Grpc())
  {
    assert GrpcAll(GrpcIntro());
    GrpcBlockLines("grpc.volume");
    GrpcBlockLines("grpc.master");
    GrpcBlockLines("grpc.filer");
    GrpcBlockLines("grpc.admin");
    GrpcBlockLines("grpc.worker");
    GrpcBlockLines("grpc.client");
    hide GrpcIntro, GrpcBlock, GrpcLine;
  }

  lemma PreambleLacks(s: Section)
    ensures Header(Name(s)) !in Preamble()
  {
    assert Header(Name(s))[0] == '[' && Preamble()[0][0] == '#' && Preamble()[1][0] == '#';
    hide Name;
  }

  lemma HeaderTexts()
    ensures Header(Name(VolumeWrite)) == "[jwt.signing]" && Header(Name(VolumeRead)) == "[jwt.signing.read]"
    ensures Header(Name(FilerWrite)) == "[jwt.filer_signing]" && Header(Name(FilerRead)) == "[jwt.filer_signing.read]"
  {
  }

  /** The four JWT sections of a rendered file, spelled out: volumeWrite and volumeRead
      are enforced by the volume server's sections, filerWrite and filerRead by the
      filer's, each with its own key, plain ones as they are, and lifetime; a switched-off
      one is absent. */
  lemma RenderedLiterally(on: PerSection<bool>, expires: PerSection<int>, keys: PerSection<string>, withTls: bool)
    ensures forall k :: Plain(k) ==> Escape(k) == k
    ensures var ls := Lines(FileText(JwtSpec(on, expires), keys, withTls));
            && (on.volumeWrite ==> HasEntry(ls, "[jwt.signing]", Escape(keys.volumeWrite), expires.volumeWrite))
            && (on.volumeRead ==> HasEntry(ls, "[jwt.signing.read]", Escape(keys.volumeRead), expires.volumeRead))
            && (on.filerWrite ==> HasEntry(ls, "[jwt.filer_signing]", Escape(keys.filerWrite), expires.filerWrite))
            && (on.filerRead ==> HasEntry(ls, "[jwt.filer_signing.read]", Escape(keys.filerRead), expires.filerRead))
            && (!on.volumeWrite ==> "[jwt.signing]" !in ls) && (!on.volumeRead ==> "[jwt.signing.read]" !in ls)
            && (!on.filerWrite ==> "[jwt.filer_signing]" !in ls) && (!on.filerRead ==> "[jwt.filer_signing.read]" !in ls)
  {
    var cfg := JwtSpec(on, expires);
    forall k | Plain(k) ensures Escape(k) == k { EscapePlain(k); }
    HeaderTexts();
    SectionRendered(cfg, keys, withTls, VolumeWrite);
    SectionRendered(cfg, keys, withTls, VolumeRead);
    SectionRendered(cfg, keys, withTls, FilerWrite);
    SectionRendered(cfg, keys, withTls, FilerRead);
    hide Name, FileText, Lines, HasEntry, Escape, Header;
  }

  // ---------------------------------------------------------------- reading a literal file

  lemma OneEntryParsed(k: string, t: Section, s: Section)
    requires Plain(k)
    ensures Extract(Header(Name(t)) + "\n" + "key = \"" + k + "\"\n", Name(s), "key") == if s == t then k else ""
  {
    hide Name, Scan, Escape, Plain, Header;
    EscapePlain(k);
    EscapeLength(k);
    var ls := [Header(Name(t)), KeyLine(k)];
    OneEntryText(Header(Name(t)), k);
    CommentsInert(t);
    LinesUnlines(ls);
    hide Lines, Unlines;
    assert ls == [Header(Name(t))] + [KeyLine(k)] && [KeyLine(k)] + [] == [KeyLine(k)];
    HeaderStep(Name(t), [KeyLine(k)], false, s);
    HeadersDiffer(t, s);
    if s == t {
      KeyStep(k, [], s);
    } else {
      KeyLineQuiet(k);
      OutsideStep(KeyLine(k), [], s);
      ScanNothing(s);
    }
  }

  lemma OneEntryText(header: string, k: string)
    requires Escape(k) == k
    ensures Unlines([header, KeyLine(k)]) == header + "\n" + "key = \"" + k + "\"\n"
  {
    hide Escape;
    var ls, line := [header, KeyLine(k)], KeyLine(k);
    assert ls[1..] == [line] && [line][1..] == [];
    assert line == "key = \"" + k + "\"";
    hide KeyLine;
    assert Unlines([line]) == line + "\n" + Unlines([]) && Unlines([]) == "";
    assert Unlines(ls) == header + "\n" + Unlines([line]);
    hide Unlines;
    assert line + "\n" + "" == "key = \"" + k + "\"\n";
  }

  /** What a file with one literal section means: its key belongs to the flag that turns
      that section on, and to no other. */
  lemma ParsedLiterally(k: string)
    requires Plain(k)
    ensures ParsedKeys("[jwt.signing]" + "\n" + "key = \"" + k + "\"\n") == PerSection(k, "", "", "")
    ensures ParsedKeys("[jwt.signing.read]" + "\n" + "key = \"" + k + "\"\n") == PerSection("", k, "", "")
    ensures ParsedKeys("[jwt.filer_signing]" + "\n" + "key = \"" + k + "\"\n") == PerSection("", "", k, "")
    ensures ParsedKeys("[jwt.filer_signing.read]" + "\n" + "key = \"" + k + "\"\n") == PerSection("", "", "", k)
  {
    HeaderTexts();
    hide Name, Header, Extract, Plain;
    OneEntryOnly(k, VolumeWrite);
    OneEntryOnly(k, VolumeRead);
    OneEntryOnly(k, FilerWrite);
    OneEntryOnly(k, FilerRead);
    hide ParsedKeys;
  }

  lemma OneEntryOnly(k: string, t: Section)
    requires Plain(k)
    ensures ParsedKeys(Header(Name(t)) + "\n" + "key = \"" + k + "\"\n") ==
            PerSection(if t == VolumeWrite then k else "", if t == VolumeRead then k else "",
                       if t == FilerWrite then k else "", if t == FilerRead then k else "")
  {
    hide Name, Header, Extract, Plain;
    OneEntryParsed(k, t, VolumeWrite);
    OneEntryParsed(k, t, VolumeRead);
    OneEntryParsed(k, t, FilerWrite);
    OneEntryParsed(k, t, FilerRead);
  }

  // ---------------------------------------------------------------- the mTLS sections

  lemma CertificateMoves(a: seq<string>, name: string, b: seq<string>)
    ensures HasCertificate(a + GrpcBlock(name) + b, Header(name))
  {
    var ls, g := a + GrpcBlock(name) + b, GrpcBlock(name);
    assert forall j :: 0 <= j < 4 ==> ls[|a| + j] == g[j];
    assert ls[|a| + 1] == Header(name) && ls[|a| + 2] == CERT_LINE && ls[|a| + 3] == CERT_KEY_LINE;
    assert CertificateAt(ls, |a| + 1, Header(name));
  }

  lemma GrpcCertificates(before: seq<string>)
    ensures var ls := before + Grpc();
            && HasCertificate(ls, Header("grpc.volume")) && HasCertificate(ls, Header("grpc.master"))
            && HasCertificate(ls, Header("grpc.filer")) && HasCertificate(ls, Header("grpc.admin"))
            && HasCertificate(ls, Header("grpc.worker")) && HasCertificate(ls, Header("grpc.client"))
  {
    hide GrpcBlock, HasCertificate, GrpcIntro, Header;
    var ls := before + Grpc();
    var v, m, f := GrpcBlock("grpc.volume"), GrpcBlock("grpc.master"), GrpcBlock("grpc.filer");
    var a, w, c := GrpcBlock("grpc.admin"), GrpcBlock("grpc.worker"), GrpcBlock("grpc.client");
    var i := before + GrpcIntro();
    assert ls == i + v + (m + f + a + w + c);
    CertificateMoves(i, "grpc.volume", m + f + a + w + c);
    assert ls == (i + v) + m + (f + a + w + c);
    CertificateMoves(i + v, "grpc.master", f + a + w + c);
    assert ls == (i + v + m) + f + (a + w + c);
    CertificateMoves(i + v + m, "grpc.filer", a + w + c);
    assert ls == (i + v + m + f) + a + (w + c);
    CertificateMoves(i + v + m + f, "grpc.admin", w + c);
    assert ls == (i + v + m + f + a) + w + c;
    CertificateMoves(i + v + m + f + a, "grpc.worker", c);
    assert ls == (i + v + m + f + a + w) + c + [];
    CertificateMoves(i + v + m + f + a + w, "grpc.client", []);
  }

  lemma GrpcHeaderTexts()
    ensures Header("grpc") == "[grpc]" && Header("grpc.volume") == "[grpc.volume]" && Header("grpc.master") == "[grpc.master]"
    ensures Header("grpc.filer") == "[grpc.filer]" && Header("grpc.admin") == "[grpc.admin]"
    ensures Header("grpc.worker") == "[grpc.worker]" && Header("grpc.client") == "[grpc.client]"
  {
  }

  /** No line of the JWT part is an mTLS header. */
  lemma {:induction false} BlocksLackGrpc(cfg: JwtSpec, keys: PerSection<string>, i: nat, header: string)
    requires i <= 4 && |header| > 1 && header[0] == '[' && header[1] == 'g'
    ensures header !in Blocks(cfg, keys, i)
    decreases 4 - i
  {
    if i < 4 {
      var s := SECTIONS[i];
      BlocksLackGrpc(cfg, keys, i + 1, header);
      CommentBegins(s);
      assert Header(Name(s))[1] == 'j' && KeyLine(keys.Get(s))[0] == 'k';
      if cfg.expires.Get(s) > 0 { assert ExpiryLine(cfg.expires.Get(s))[0] == 'e'; }
      hide Comment, Name, Header;
    }
  }

  lemma IntroAuthority(before: seq<string>, after: seq<string>)
    ensures var ls := before + GrpcIntro() + after;
            exists i :: 0 <= i && i + 1 < |ls| && ls[i] == "[grpc]" && ls[i + 1] == "ca = \"/etc/sw-tls/ca.crt\""
  {
    var ls, g := before + GrpcIntro() + after, GrpcIntro();
    assert forall j :: 0 <= j < 4 ==> ls[|before| + j] == g[j];
    assert ls[|before| + 2] == "[grpc]" && ls[|before| + 2 + 1] == g[3];
  }

  /** With TLS in effect the file holds the certificate authority and each component's
      certificate section; without it none of them. */
  lemma GrpcLiterally(cfg: JwtSpec, keys: PerSection<string>, withTls: bool)
    ensures var ls := Lines(FileText(cfg, keys, withTls));
            && (withTls ==>
                  && (exists i :: 0 <= i && i + 1 < |ls| && ls[i] == "[grpc]" && ls[i + 1] == "ca = \"/etc/sw-tls/ca.crt\"")
                  && HasCertificate(ls, "[grpc.volume]") && HasCertificate(ls, "[grpc.master]") && HasCertificate(ls, "[grpc.filer]")
                  && HasCertificate(ls, "[grpc.admin]") && HasCertificate(ls, "[grpc.worker]") && HasCertificate(ls, "[grpc.client]"))
            && (!withTls ==> forall l :: l in ls && |l| > 1 && l[0] == '[' ==> l[1] != 'g')
  {
    FileOneLine(cfg, keys, withTls);
    var before := Preamble() + Blocks(cfg, keys, 0);
    if withTls {
      GrpcHeaderTexts();
      GrpcCertificates(before);
      GrpcAuthority(before);
    } else {
      PreambleComments();
      hide Preamble;
      forall l | l in before && |l| > 1 && l[0] == '[' ensures l[1] != 'g' {
        if l[1] == 'g' { BlocksLackGrpc(cfg, keys, 0, l); }
      }
    }
    hide Grpc, Blocks, Preamble, FileText, Lines, HasCertificate, Header;
  }

  lemma PreambleComments()
    ensures forall l :: l in Preamble() ==> l != "" && l[0] == '#'
  {
    assert Preamble()[0][0] == '#' && Preamble()[1][0] == '#';
  }

  lemma GrpcAuthority(before: seq<string>)
    ensures var ls := before + Grpc();
            exists i :: 0 <= i && i + 1 < |ls| && ls[i] == "[grpc]" && ls[i + 1] == "ca = \"/etc/sw-tls/ca.crt\""
  {
    hide GrpcIntro, GrpcBlock;
    var rest := GrpcBlock("grpc.volume") + GrpcBlock("grpc.master") + GrpcBlock("grpc.filer") +
                GrpcBlock("grpc.admin") + GrpcBlock("grpc.worker") + GrpcBlock("grpc.client");
    assert before + Grpc() == before + GrpcIntro() + rest;
    IntroAuthority(before, rest);
  }
}
