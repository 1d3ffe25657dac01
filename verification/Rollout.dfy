/** The pod annotation that rolls a component when its security.toml changes. */
module Rollout {
  import opened Text
  import opened SecurityToml

  const ANNOTATION: string := "seaweed.seaweedfs.com/jwt-signing"

  /** What the file says about a section: absent, present, or present with a lifetime. */
  function Effective(cfg: JwtSpec, s: Section): Option<nat> {
    if !cfg.on.Get(s) then None
    else Some(if cfg.expires.Get(s) > 0 then cfg.expires.Get(s) else 0)
  }

  predicate Same(a: JwtSpec, b: JwtSpec) {
    forall s: Section :: Effective(a, s) == Effective(b, s)
  }

  function Part(s: Section, seconds: nat): string {
    if seconds > 0 then Field(s) + "=" + Dec(seconds) else Field(s)
  }

  function Parts(cfg: JwtSpec, i: nat): seq<string>
    requires i <= 4
    decreases 4 - i
  {
    if i == 4 then []
    else
      var rest := Parts(cfg, i + 1);
      match Effective(cfg, SECTIONS[i])
      case Some(n) => [Part(SECTIONS[i], n)] + rest
      case None => rest
  }

  /** The annotation value: "none", or the enabled sections with their lifetimes. */
  function Revision(cfg: JwtSpec): string {
    if Parts(cfg, 0) == [] then "none" else Join(Parts(cfg, 0), ',')
  }

  method JwtSigningRevision(cfg: JwtSpec) returns (r: string)
    ensures r == Revision(cfg)
  {
    hide Field, Dec, Join, Index;
    var parts: seq<string> := [];
    var i := 0;
    while i < 4
      invariant 0 <= i <= 4
      invariant parts + Parts(cfg, i) == Parts(cfg, 0)
    {
      var s := SECTIONS[i];
      i := i + 1;
      if !cfg.on.Get(s) { continue; }
      if cfg.expires.Get(s) > 0 {
        parts := parts + [Field(s) + "=" + Dec(cfg.expires.Get(s))];
        continue;
      }
      parts := parts + [Field(s)];
    }
    assert parts + Parts(cfg, 4) == parts;
    if |parts| == 0 { return "none"; }
    return Join(parts, ',');
  }

  /** The annotations of a pod that mounts security.toml; other pods keep theirs. */
  method WithJwtSigningAnnotation(needed: bool, cfg: JwtSpec, annotations: map<string, string>)
    returns (merged: map<string, string>)
    ensures !needed ==> merged == annotations
    ensures needed ==> merged.Keys == annotations.Keys + {ANNOTATION} && merged[ANNOTATION] == Revision(cfg)
    ensures forall k :: k in annotations && k != ANNOTATION ==> k in merged && merged[k] == annotations[k]
  {
    if !needed { return annotations; }
    merged := map[];
    var todo := annotations.Keys;
    while todo != {}
      invariant todo <= annotations.Keys && merged.Keys == annotations.Keys - todo
      invariant forall k :: k in merged ==> merged[k] == annotations[k]
    {
      var k :| k in todo;
      merged := merged[k := annotations[k]];
      todo := todo - {k};
    }
    var revision := JwtSigningRevision(cfg);
    merged := merged[ANNOTATION := revision];
  }

  // ---------------------------------------------------------------- the revision names the file

  lemma FieldsDiffer(s: Section, t: Section)
    ensures Field(s) == Field(t) <==> s == t
    ensures '=' !in Field(s) && ',' !in Field(s)
    ensures Field(s) != "" && Field(s)[0] != 'n'
  {
    assert |Field(VolumeWrite)| == 11 && |Field(VolumeRead)| == 10 && |Field(FilerWrite)| == 10 && |Field(FilerRead)| == 9;
    assert Field(VolumeRead)[0] == 'v' && Field(FilerWrite)[0] == 'f';
  }

  lemma SectionsDistinct(i: nat, j: nat)
    requires i < 4 && j < 4
    ensures SECTIONS[i] == SECTIONS[j] <==> i == j
  {
  }

  /** Two parts agree only for the same section and the same lifetime. */
  lemma PartInjective(s: Section, m: nat, t: Section, n: nat)
    requires Part(s, m) == Part(t, n)
    ensures s == t && m == n
  {
    PartSplits(s, m);
    PartSplits(t, n);
    FieldsDiffer(s, t);
    UndecDec(m);
    UndecDec(n);
  }

  lemma PartSplits(s: Section, n: nat)
    ensures Split(Part(s, n), '=') == if n > 0 then [Field(s), Dec(n)] else [Field(s)]
  {
    hide Field;
    FieldsDiffer(s, s);
    if n > 0 {
      SplitNone(Dec(n), '=');
      SplitPart(Field(s), Dec(n), '=');
      assert Field(s) + "=" + Dec(n) == Field(s) + ['='] + Dec(n);
    } else {
      SplitNone(Field(s), '=');
    }
  }

  /** Every part names a section at or after the position, and holds no comma. */
  lemma {:induction false} PartsHead(cfg: JwtSpec, i: nat) returns (j: nat, n: nat)
    requires i <= 4
    ensures forall p :: p in Parts(cfg, i) ==> ',' !in p && p != "none"
    ensures j >= i
    ensures Parts(cfg, i) != [] ==> j < 4 && Parts(cfg, i)[0] == Part(SECTIONS[j], n)
    ensures i < 4 && Effective(cfg, SECTIONS[i]).None? ==> Parts(cfg, i) == Parts(cfg, i + 1) && j != i
    ensures i < 4 && Effective(cfg, SECTIONS[i]).Some? ==>
              Parts(cfg, i) == [Part(SECTIONS[i], n)] + Parts(cfg, i + 1) && j == i && Effective(cfg, SECTIONS[i]) == Some(n)
    decreases 4 - i
  {
    hide Field;
    j, n := 4, 0;
    if i < 4 {
      j, n := PartsHead(cfg, i + 1);
      match Effective(cfg, SECTIONS[i])
      case Some(m) =>
        j, n := i, m;
        FieldsDiffer(SECTIONS[i], SECTIONS[i]);
        assert Part(SECTIONS[i], m)[0] == Field(SECTIONS[i])[0];
      case None =>
    }
  }

  lemma {:induction false} PartsInjective(a: JwtSpec, b: JwtSpec, i: nat)
    requires i <= 4 && Parts(a, i) == Parts(b, i)
    ensures forall j :: i <= j < 4 ==> Effective(a, SECTIONS[j]) == Effective(b, SECTIONS[j])
    decreases 4 - i
  {
    if i < 4 {
      var ja, na := PartsHead(a, i);
      var jb, nb := PartsHead(b, i);
      hide Field, Part, Parts;
      if Parts(a, i) != [] {
        PartInjective(SECTIONS[ja], na, SECTIONS[jb], nb);
        SectionsDistinct(ja, jb);
      }
      if Effective(a, SECTIONS[i]).Some? {
        assert Parts(a, i)[1..] == Parts(a, i + 1) && Parts(b, i)[1..] == Parts(b, i + 1);
      }
      PartsInjective(a, b, i + 1);
    }
  }

  lemma {:induction false} PartsSame(a: JwtSpec, b: JwtSpec, i: nat)
    requires i <= 4 && Same(a, b)
    ensures Parts(a, i) == Parts(b, i)
    decreases 4 - i
  {
    if i < 4 {
      PartsSame(a, b, i + 1);
      assert Effective(a, SECTIONS[i]) == Effective(b, SECTIONS[i]);
    }
  }

  lemma BySection(a: JwtSpec, b: JwtSpec)
    requires forall j :: 0 <= j < 4 ==> Effective(a, SECTIONS[j]) == Effective(b, SECTIONS[j])
    ensures Same(a, b)
  {
    forall s: Section ensures Effective(a, s) == Effective(b, s) {
      assert SECTIONS[Index(s)] == s;
    }
  }

  lemma RevisionSame(a: JwtSpec, b: JwtSpec)
    ensures Revision(a) == Revision(b) <==> Same(a, b)
  {
    if Same(a, b) {
      PartsSame(a, b, 0);
    }
    if Revision(a) == Revision(b) {
      hide Parts;
      RevisionSplits(a);
      RevisionSplits(b);
      PartsInjective(a, b, 0);
      BySection(a, b);
    }
  }

  lemma RevisionSplits(cfg: JwtSpec)
    ensures Parts(cfg, 0) == if Revision(cfg) == "none" then [] else Split(Revision(cfg), ',')
  {
    var _, _ := PartsHead(cfg, 0);
    hide Parts;
    if Parts(cfg, 0) != [] {
      SplitJoin(Parts(cfg, 0), ',');
      SplitNone("none", ',');
      assert "none" in ["none"];
    }
  }

  // ---------------------------------------------------------------- the annotation spelled out

  lemma {:induction false} PartIn(cfg: JwtSpec, i: nat, s: Section, n: nat)
    requires i <= 4
    ensures Part(s, n) in Parts(cfg, i) <==> i <= Index(s) && Effective(cfg, s) == Some(n)
    decreases 4 - i
  {
    if i < 4 {
      PartIn(cfg, i + 1, s, n);
      hide Field, Part;
      match Effective(cfg, SECTIONS[i])
      case Some(m) =>
        if Part(s, n) == Part(SECTIONS[i], m) { PartInjective(s, n, SECTIONS[i], m); }
        assert SECTIONS[Index(s)] == s;
      case None =>
        assert SECTIONS[Index(s)] == s;
    }
  }

  /** A comma-separated annotation names a section: alone without a lifetime, with its
      number of seconds otherwise, and in no form when it is off. */
  ghost predicate Names(revision: string, name: string, on: bool, seconds: int) {
    && (name in Split(revision, ',') <==> on && seconds <= 0)
    && forall n: nat :: n > 0 ==> (name + "=" + Dec(n) in Split(revision, ',') <==> on && seconds == n)
  }

  lemma RevisionParts(cfg: JwtSpec, s: Section, n: nat)
    ensures Part(s, n) in Split(Revision(cfg), ',') <==> Effective(cfg, s) == Some(n)
  {
    RevisionSplits(cfg);
    PartIn(cfg, 0, s, n);
    FieldsDiffer(s, s);
    assert Part(s, n)[0] == Field(s)[0] && "none"[0] == 'n';
    hide Field, Part, Effective, Parts;
    if Revision(cfg) == "none" {
      SplitNone("none", ',');
      assert Split(Revision(cfg), ',') == ["none"];
    }
  }

  lemma SectionNamed(cfg: JwtSpec, s: Section)
    ensures Names(Revision(cfg), Field(s), cfg.on.Get(s), cfg.expires.Get(s))
  {
    var parts := Split(Revision(cfg), ',');
    RevisionParts(cfg, s, 0);
    forall n: nat | n > 0
      ensures Field(s) + "=" + Dec(n) in parts <==> cfg.on.Get(s) && cfg.expires.Get(s) == n
    {
      RevisionParts(cfg, s, n);
    }
    hide Field, Revision, Dec, Split;
  }

  lemma FieldTexts()
    ensures Field(VolumeWrite) == "volumeWrite" && Field(VolumeRead) == "volumeRead"
    ensures Field(FilerWrite) == "filerWrite" && Field(FilerRead) == "filerRead"
  {
  }

  /** The annotation in literal text: each flag under its own name with its own
      lifetime, and "none" exactly when no flag is set. */
  lemma RevisionLiterally(on: PerSection<bool>, expires: PerSection<int>)
    ensures var r := Revision(JwtSpec(on, expires));
            && Names(r, "volumeWrite", on.volumeWrite, expires.volumeWrite)
            && Names(r, "volumeRead", on.volumeRead, expires.volumeRead)
            && Names(r, "filerWrite", on.filerWrite, expires.filerWrite)
            && Names(r, "filerRead", on.filerRead, expires.filerRead)
            && (r == "none" <==> !on.volumeWrite && !on.volumeRead && !on.filerWrite && !on.filerRead)
  {
    var cfg := JwtSpec(on, expires);
    FieldTexts();
    SectionNamed(cfg, VolumeWrite);
    SectionNamed(cfg, VolumeRead);
    SectionNamed(cfg, FilerWrite);
    SectionNamed(cfg, FilerRead);
    RevisionSplits(cfg);
    hide Field, Names, Split;
    assert Parts(cfg, 0) == [] <==> forall i :: 0 <= i < 4 ==> Effective(cfg, SECTIONS[i]).None?;
  }

  // ---------------------------------------------------------------- the file shows its sections

  lemma {:induction false} BlocksSame(a: JwtSpec, b: JwtSpec, keys: PerSection<string>, i: nat)
    requires i <= 4 && Same(a, b)
    ensures Blocks(a, keys, i) == Blocks(b, keys, i)
    decreases 4 - i
  {
    if i < 4 {
      hide Comment, Name, KeyLine, ExpiryLine;
      BlocksSame(a, b, keys, i + 1);
      assert Effective(a, SECTIONS[i]) == Effective(b, SECTIONS[i]);
    }
  }

  lemma {:induction false} BlocksHead(cfg: JwtSpec, keys: PerSection<string>, i: nat) returns (j: nat)
    requires i <= 4
    ensures var bs := Blocks(cfg, keys, i);
            bs == [] || (|bs| >= 4 && bs[0] == "" && j < 4 && bs[2] == Header(Name(SECTIONS[j])))
    ensures j >= i
    ensures i < 4 && cfg.on.Get(SECTIONS[i]) ==> Blocks(cfg, keys, i) != [] && j == i
    ensures i < 4 && !cfg.on.Get(SECTIONS[i]) ==> Blocks(cfg, keys, i) == Blocks(cfg, keys, i + 1) && j != i
    decreases 4 - i
  {
    hide Comment, Name, KeyLine, ExpiryLine, Header;
    j := i;
    if i < 4 && !cfg.on.Get(SECTIONS[i]) {
      j := BlocksHead(cfg, keys, i + 1);
    }
  }

  lemma ExpiryInjective(m: nat, n: nat)
    ensures ExpiryLine(m) == ExpiryLine(n) ==> m == n
    ensures ExpiryLine(m) != ""
  {
    UndecDec(m);
    UndecDec(n);
    var prefix := "expires_after_seconds = ";
    assert ExpiryLine(m)[|prefix|..] == Dec(m) && ExpiryLine(n)[|prefix|..] == Dec(n);
  }

  /** Two blocks of one section followed by more blocks agree only as a whole. */
  lemma SectionInjective(a: JwtSpec, b: JwtSpec, keys: PerSection<string>, i: nat)
    requires i < 4 && a.on.Get(SECTIONS[i]) && b.on.Get(SECTIONS[i])
    requires Blocks(a, keys, i) == Blocks(b, keys, i)
    ensures Effective(a, SECTIONS[i]) == Effective(b, SECTIONS[i])
    ensures Blocks(a, keys, i + 1) == Blocks(b, keys, i + 1)
  {
    hide Comment, Name, KeyLine, ExpiryLine, Header;
    var s := SECTIONS[i];
    var _ := BlocksHead(a, keys, i + 1);
    var _ := BlocksHead(b, keys, i + 1);
    var ea, eb := Effective(a, s).value, Effective(b, s).value;
    ExpiryInjective(ea, eb);
    ExpiryInjective(eb, ea);
    var ra, rb := Blocks(a, keys, i + 1), Blocks(b, keys, i + 1);
    var na, nb := |Block(a, keys, s)|, |Block(b, keys, s)|;
    assert Blocks(a, keys, i)[na..] == ra && Blocks(b, keys, i)[nb..] == rb;
    assert ea > 0 ==> Blocks(a, keys, i)[4] == ExpiryLine(ea);
    assert eb > 0 ==> Blocks(b, keys, i)[4] == ExpiryLine(eb);
    assert ea == 0 && ra != [] ==> Blocks(a, keys, i)[4] == "";
    assert eb == 0 && rb != [] ==> Blocks(b, keys, i)[4] == "";
  }

  lemma SameFlag(a: JwtSpec, b: JwtSpec, keys: PerSection<string>, i: nat)
    requires i < 4 && Blocks(a, keys, i) == Blocks(b, keys, i)
    ensures a.on.Get(SECTIONS[i]) == b.on.Get(SECTIONS[i])
    ensures !a.on.Get(SECTIONS[i]) ==> Blocks(a, keys, i + 1) == Blocks(b, keys, i + 1)
  {
    hide Comment, Name, Header, Blocks, Block;
    var ja := BlocksHead(a, keys, i);
    var jb := BlocksHead(b, keys, i);
    if Blocks(a, keys, i) != [] {
      HeadersDiffer(SECTIONS[ja], SECTIONS[jb]);
      SectionsDistinct(ja, jb);
    }
  }

  lemma {:induction false} BlocksInjective(a: JwtSpec, b: JwtSpec, keys: PerSection<string>, i: nat)
    requires i <= 4 && Blocks(a, keys, i) == Blocks(b, keys, i)
    ensures forall j :: i <= j < 4 ==> Effective(a, SECTIONS[j]) == Effective(b, SECTIONS[j])
    decreases 4 - i
  {
    if i < 4 {
      hide Blocks, Effective;
      SameFlag(a, b, keys, i);
      assert !a.on.Get(SECTIONS[i]) ==> Effective(a, SECTIONS[i]) == Effective(b, SECTIONS[i]) == None;
      if a.on.Get(SECTIONS[i]) {
        SectionInjective(a, b, keys, i);
      }
      BlocksInjective(a, b, keys, i + 1);
    }
  }

  lemma FileSame(a: JwtSpec, b: JwtSpec, keys: PerSection<string>, withTls: bool)
    ensures FileText(a, keys, withTls) == FileText(b, keys, withTls) <==> Same(a, b)
  {
    hide Blocks, Preamble, Grpc, Lines, Unlines;
    if Same(a, b) {
      BlocksSame(a, b, keys, 0);
    }
    if FileText(a, keys, withTls) == FileText(b, keys, withTls) {
      FileOneLine(a, keys, withTls);
      FileOneLine(b, keys, withTls);
      var p, t := Preamble(), if withTls then Grpc() else [];
      var x, y := Blocks(a, keys, 0), Blocks(b, keys, 0);
      assert p + x + t == p + y + t;
      assert (p + x + t)[|p|..|p| + |x|] == x && (p + y + t)[|p|..|p| + |y|] == y;
      BlocksInjective(a, b, keys, 0);
      BySection(a, b);
    }
  }

  /** The annotation is exact: it tells two specs apart precisely when they render
      different files, and one key assignment is as telling as all of them. */
  lemma RevisionExact(a: JwtSpec, b: JwtSpec, keys: PerSection<string>, withTls: bool)
    ensures Revision(a) == Revision(b) <==> FileText(a, keys, withTls) == FileText(b, keys, withTls)
  {
    RevisionSame(a, b);
    FileSame(a, b, keys, withTls);
  }
}
