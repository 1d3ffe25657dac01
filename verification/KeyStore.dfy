/** Where the JWT keys live between passes: the security Secret, and the
    ConfigMap that older operator versions wrote. */
module KeyStore {
  import opened Text
  import opened SecurityToml
  import opened SecurityTomlText

  /** One stored security.toml, and whether the cluster resource controls it. */
  datatype Stored = Stored(text: string, owned: bool)

  datatype State = State(secret: Option<Stored>, configMap: Option<Stored>)

  /** What a pass is asked for: flags, the TLS request, and whether TLS is usable. */
  datatype Request = Request(cfg: JwtSpec, tlsEnabled: bool, tlsEffective: bool) {
    predicate Needed() { tlsEnabled || AnyOn(cfg) }
  }

  function TextKey(o: Option<Stored>, s: Section): string {
    match o
    case Some(x) => ParsedKeys(x.text).Get(s)
    case None => ""
  }

  /** The key the next pass would find for a section. */
  function CurrentKey(st: State, s: Section): string {
    if st.secret.Some? then TextKey(st.secret, s) else TextKey(st.configMap, s)
  }

  function Found(st: State): PerSection<string> {
    PerSection(CurrentKey(st, VolumeWrite), CurrentKey(st, VolumeRead),
               CurrentKey(st, FilerWrite), CurrentKey(st, FilerRead))
  }

  /** The found keys, with a fresh one in each enabled section that has none. */
  function Filled(st: State, req: Request, mint: PerSection<string>, s: Section): string {
    if req.cfg.on.Get(s) && CurrentKey(st, s) == "" then mint.Get(s) else CurrentKey(st, s)
  }

  function FilledKeys(st: State, req: Request, mint: PerSection<string>): PerSection<string> {
    PerSection(Filled(st, req, mint, VolumeWrite), Filled(st, req, mint, VolumeRead),
               Filled(st, req, mint, FilerWrite), Filled(st, req, mint, FilerRead))
  }

  function Pruned(o: Option<Stored>): Option<Stored> {
    if o.Some? && o.value.owned then None else o
  }

  /** Everything one pass may leave behind. A completed pass is fully determined;
      a cut one stopped before or after any of its calls. */
  ghost predicate Pass(pre: State, req: Request, mint: PerSection<string>, post: State, done: bool) {
    if req.Needed() then
      var written := post.secret == Some(Stored(FileText(req.cfg, FilledKeys(pre, req, mint), req.tlsEffective),
                                                pre.secret.None? || pre.secret.value.owned));
      var migrated := pre.secret.None? && post.configMap == None;
      if done then written && (if pre.secret.None? then post.configMap == None else post.configMap == pre.configMap)
      else post == pre || (written && (migrated || post.configMap == pre.configMap))
    else
      var secretPruned := post.secret == Pruned(pre.secret);
      var mapPruned := post.configMap == Pruned(pre.configMap);
      if done then secretPruned && mapPruned
      else post == pre || (secretPruned && (mapPruned || post.configMap == pre.configMap))
  }

  // ---------------------------------------------------------------- the pass

  /** The Kubernetes objects the pass reads and writes, as last persisted. */
  class Objects {
    var secret: Option<Stored>
    var configMap: Option<Stored>

    ghost function View(): State
      reads this
    {
      State(secret, configMap)
    }

    constructor (st: State)
      ensures View() == st
    {
      secret, configMap := st.secret, st.configMap;
    }

    method WriteSecret(text: string, fault: Fault) returns (ok: bool)
      modifies this`secret
      ensures ok == fault.Ok?
      ensures fault.Lost? ==> secret == old(secret)
      ensures !fault.Lost? ==> secret == Some(Stored(text, old(secret).None? || old(secret).value.owned))
    {
      if !fault.Lost? {
        secret := Some(Stored(text, if secret.Some? then secret.value.owned else true));
      }
      return fault.Ok?;
    }

    method DeleteConfigMap(fault: Fault) returns (ok: bool)
      modifies this`configMap
      ensures ok == fault.Ok?
      ensures configMap == if fault.Lost? then old(configMap) else None
    {
      if !fault.Lost? { configMap := None; }
      return fault.Ok?;
    }

    method PruneSecret(fault: Fault) returns (ok: bool)
      modifies this`secret
      ensures ok == fault.Ok?
      ensures secret == if fault.Lost? then old(secret) else Pruned(old(secret))
    {
      if !fault.Lost? && secret.Some? && secret.value.owned { secret := None; }
      return fault.Ok?;
    }

    method PruneConfigMap(fault: Fault) returns (ok: bool)
      modifies this`configMap
      ensures ok == fault.Ok?
      ensures configMap == if fault.Lost? then old(configMap) else Pruned(old(configMap))
    {
      if !fault.Lost? && configMap.Some? && configMap.value.owned { configMap := None; }
      return fault.Ok?;
    }

    /** The keys already provisioned: from the Secret, else from the ConfigMap. */
    method ExistingKeys() returns (keys: PerSection<string>, fromLegacy: bool)
      ensures keys == Found(View())
      ensures fromLegacy == (secret.None? && configMap.Some?)
    {
      hide ParsedKeys;
      if secret.Some? {
        keys := ParseJwtSigningKeys(secret.value.text);
        return keys, false;
      }
      if configMap.Some? {
        keys := ParseJwtSigningKeys(configMap.value.text);
        return keys, true;
      }
      return NO_KEYS, false;
    }

    /** One pass over the security file. faults[0] is the read, faults[1] and
        faults[2] the two writes or deletions that may follow. */
    method EnsureSecurityConfig(req: Request, mint: PerSection<string>, faults: seq<Fault>) returns (done: bool)
      modifies this
      ensures Pass(old(View()), req, mint, View(), done)
      ensures AllOk(faults) ==> done
    {
      if !req.Needed() {
        done := PruneSecret(FaultAt(faults, 1));
        if !done { return; }
        done := PruneConfigMap(FaultAt(faults, 2));
        return;
      }
      if !FaultAt(faults, 0).Ok? { return false; }
      done := EnsureSecuritySecret(req, mint, FaultAt(faults, 1), FaultAt(faults, 2));
    }

    method EnsureSecuritySecret(req: Request, mint: PerSection<string>, write: Fault, delete: Fault) returns (done: bool)
      requires req.Needed()
      modifies this
      ensures Pass(old(View()), req, mint, View(), done)
      ensures write.Ok? && delete.Ok? ==> done
    {
      hide ParsedKeys, FileText;
      ghost var pre := View();
      var keys, fromLegacy := ExistingKeys();
      var i := 0;
      while i < 4
        invariant 0 <= i <= 4
        invariant forall s: Section :: keys.Get(s) == if Index(s) < i then Filled(pre, req, mint, s) else CurrentKey(pre, s)
      {
        var s := SECTIONS[i];
        if req.cfg.on.Get(s) && keys.Get(s) == "" {
          keys := keys.Set(s, mint.Get(s));
        }
        i := i + 1;
      }
      assert keys == FilledKeys(pre, req, mint) by {
        assert keys.Get(VolumeWrite) == keys.volumeWrite && keys.Get(VolumeRead) == keys.volumeRead;
        assert keys.Get(FilerWrite) == keys.filerWrite && keys.Get(FilerRead) == keys.filerRead;
      }
      var text := RenderSecurityToml(req.cfg, keys, req.tlsEffective);
      done := WriteSecret(text, write);
      if !done { return; }
      if fromLegacy {
        done := DeleteConfigMap(delete);
      }
    }
  }

  // ---------------------------------------------------------------- what one pass does to a key

  lemma WrittenKey(pre: State, req: Request, mint: PerSection<string>, o: Option<Stored>, s: Section)
    requires o.Some? && o.value.text == FileText(req.cfg, FilledKeys(pre, req, mint), req.tlsEffective)
    ensures TextKey(o, s) == if req.cfg.on.Get(s) then Escape(Filled(pre, req, mint, s)) else ""
  {
    ParseRender(req.cfg, FilledKeys(pre, req, mint), req.tlsEffective, s);
  }

  /** A completed pass keeps an enabled section's key exactly when it is plain. */
  lemma CompletedKeepsExactly(pre: State, req: Request, mint: PerSection<string>, post: State, s: Section)
    requires Pass(pre, req, mint, post, true) && req.cfg.on.Get(s) && CurrentKey(pre, s) != ""
    ensures CurrentKey(post, s) == CurrentKey(pre, s) <==> Plain(CurrentKey(pre, s))
  {
    hide ParsedKeys, FileText;
    WrittenKey(pre, req, mint, post.secret, s);
    EscapeFixed(CurrentKey(pre, s));
  }

  /** Whatever happens to other sections, lifetimes or TLS, and wherever the pass
      is cut, a section that is on keeps its plain key. */
  lemma PassKeepsKey(pre: State, req: Request, mint: PerSection<string>, post: State, done: bool, s: Section)
    requires Pass(pre, req, mint, post, done) && req.cfg.on.Get(s)
    requires CurrentKey(pre, s) != "" && Plain(CurrentKey(pre, s))
    ensures CurrentKey(post, s) == CurrentKey(pre, s)
  {
    hide ParsedKeys, FileText;
    if post != pre {
      WrittenKey(pre, req, mint, post.secret, s);
      EscapeFixed(CurrentKey(pre, s));
    }
  }

  /** A completed pass gives every enabled section a key, a plain one when the
      found or minted key was plain. */
  lemma CompletedProvides(pre: State, req: Request, mint: PerSection<string>, post: State, s: Section)
    requires Pass(pre, req, mint, post, true) && req.cfg.on.Get(s)
    requires mint.Get(s) != "" && Plain(mint.Get(s))
    ensures CurrentKey(post, s) != ""
    ensures CurrentKey(pre, s) == "" ==> CurrentKey(post, s) == mint.Get(s)
  {
    hide ParsedKeys, FileText;
    WrittenKey(pre, req, mint, post.secret, s);
    EscapeLength(Filled(pre, req, mint, s));
    EscapeFixed(mint.Get(s));
  }

  /** Where a key of a disabled section survives a completed pass. While the file is
      needed: never in the Secret, and in the legacy ConfigMap exactly when the pass
      found a Secret and so left the ConfigMap alone. Once nothing needs the file:
      exactly in an object this resource does not control. */
  lemma DisabledKeySurvives(pre: State, req: Request, mint: PerSection<string>, post: State, s: Section)
    requires Pass(pre, req, mint, post, true) && !req.cfg.on.Get(s)
    ensures TextKey(post.secret, s) != "" <==>
              !req.Needed() && pre.secret.Some? && !pre.secret.value.owned && TextKey(pre.secret, s) != ""
    ensures TextKey(post.configMap, s) != "" <==>
              TextKey(pre.configMap, s) != "" && if req.Needed() then pre.secret.Some? else !pre.configMap.value.owned
    ensures req.Needed() ==> CurrentKey(post, s) == ""
  {
    hide ParsedKeys, FileText;
    if req.Needed() { WrittenKey(pre, req, mint, post.secret, s); }
  }

  /** The file depends on the keys of the enabled sections only. */
  lemma {:induction false} BlocksIgnoreDisabled(cfg: JwtSpec, k: PerSection<string>, l: PerSection<string>, i: nat)
    requires i <= 4 && forall s: Section :: cfg.on.Get(s) ==> k.Get(s) == l.Get(s)
    ensures Blocks(cfg, k, i) == Blocks(cfg, l, i)
    decreases 4 - i
  {
    if i < 4 {
      hide Comment, Name, KeyLine, ExpiryLine, Header;
      BlocksIgnoreDisabled(cfg, k, l, i + 1);
    }
  }

  lemma FileIgnoresDisabled(cfg: JwtSpec, k: PerSection<string>, l: PerSection<string>, withTls: bool)
    requires forall s: Section :: cfg.on.Get(s) ==> k.Get(s) == l.Get(s)
    ensures FileText(cfg, k, withTls) == FileText(cfg, l, withTls)
  {
    hide Blocks, Preamble, Grpc, Unlines;
    BlocksIgnoreDisabled(cfg, k, l, 0);
  }

  lemma RepeatKey(pre: State, req: Request, mint: PerSection<string>, mid: State, again: PerSection<string>, s: Section)
    requires Pass(pre, req, mint, mid, true) && req.cfg.on.Get(s)
    requires Plain(Filled(pre, req, mint, s)) && Filled(pre, req, mint, s) != ""
    ensures Filled(mid, req, again, s) == Filled(pre, req, mint, s)
  {
    hide ParsedKeys, FileText;
    WrittenKey(pre, req, mint, mid.secret, s);
    EscapeFixed(Filled(pre, req, mint, s));
  }

  /** Repeating a completed pass renders the same bytes, whatever is minted. */
  lemma RepeatIsIdentical(pre: State, req: Request, mint: PerSection<string>, mid: State,
                          again: PerSection<string>, post: State)
    requires Pass(pre, req, mint, mid, true) && Pass(mid, req, again, post, true)
    requires forall s: Section :: req.cfg.on.Get(s) ==> Plain(Filled(pre, req, mint, s)) && Filled(pre, req, mint, s) != ""
    ensures post == mid
  {
    hide FileText, CurrentKey, TextKey;
    if req.Needed() {
      var k, l := FilledKeys(pre, req, mint), FilledKeys(mid, req, again);
      forall s: Section | req.cfg.on.Get(s) ensures k.Get(s) == l.Get(s) {
        RepeatKey(pre, req, mint, mid, again, s);
      }
      FileIgnoresDisabled(req.cfg, k, l, req.tlsEffective);
    }
  }

  // ---------------------------------------------------------------- a completed pass spelled out

  /** Where an enabled section's key comes from: the Secret when there is one, whatever
      the ConfigMap holds; else the ConfigMap; else it is minted. */
  lemma CompletedSource(pre: State, req: Request, mint: PerSection<string>, post: State, s: Section)
    requires Pass(pre, req, mint, post, true) && req.cfg.on.Get(s)
    ensures post.secret.Some?
    ensures var after := ParsedKeys(post.secret.value.text).Get(s);
            match pre.secret
            case Some(kept) =>
              var k := ParsedKeys(kept.text).Get(s);
              after == Escape(if k != "" then k else mint.Get(s))
            case None =>
              match pre.configMap
              case Some(legacy) =>
                var k := ParsedKeys(legacy.text).Get(s);
                after == Escape(if k != "" then k else mint.Get(s))
              case None => after == Escape(mint.Get(s))
  {
    hide ParsedKeys, FileText;
    WrittenKey(pre, req, mint, post.secret, s);
  }

  /** When there is a file at all, and what it holds: asked for by the TLS setting or
      any flag, with certificates exactly when TLS is usable, and every enabled
      section with its plain key and lifetime; otherwise what this resource controls
      is gone and the rest is left alone. */
  lemma CompletedLiterally(pre: State, on: PerSection<bool>, expires: PerSection<int>, tlsEnabled: bool, tlsEffective: bool,
                           mint: PerSection<string>, post: State)
    requires Pass(pre, Request(JwtSpec(on, expires), tlsEnabled, tlsEffective), mint, post, true)
    ensures if tlsEnabled || on.volumeWrite || on.volumeRead || on.filerWrite || on.filerRead then
              && post.secret.Some?
              && var ls := Lines(post.secret.value.text);
              && (if tlsEffective then HasCertificate(ls, "[grpc.volume]") && HasCertificate(ls, "[grpc.filer]")
                  else forall l :: l in ls && |l| > 1 && l[0] == '[' ==> l[1] != 'g')
              && (on.volumeWrite <==> "[jwt.signing]" in ls) && (on.volumeRead <==> "[jwt.signing.read]" in ls)
              && (on.filerWrite <==> "[jwt.filer_signing]" in ls) && (on.filerRead <==> "[jwt.filer_signing.read]" in ls)
            else
              && post.secret == (if pre.secret.Some? && pre.secret.value.owned then None else pre.secret)
              && post.configMap == (if pre.configMap.Some? && pre.configMap.value.owned then None else pre.configMap)
  {
    hide Lines, FileText, HasEntry, HasCertificate, Escape, FilledKeys;
    var req := Request(JwtSpec(on, expires), tlsEnabled, tlsEffective);
    if req.Needed() {
      var keys := FilledKeys(pre, req, mint);
      LiteralHeaders(on, expires, keys, tlsEffective);
      GrpcLiterally(req.cfg, keys, tlsEffective);
    }
  }

  lemma LiteralHeaders(on: PerSection<bool>, expires: PerSection<int>, keys: PerSection<string>, withTls: bool)
    ensures var ls := Lines(FileText(JwtSpec(on, expires), keys, withTls));
            && (on.volumeWrite <==> "[jwt.signing]" in ls) && (on.volumeRead <==> "[jwt.signing.read]" in ls)
            && (on.filerWrite <==> "[jwt.filer_signing]" in ls) && (on.filerRead <==> "[jwt.filer_signing.read]" in ls)
  {
    RenderedLiterally(on, expires, keys, withTls);
    hide Lines, FileText, HasEntry, Escape;
    var ls := Lines(FileText(JwtSpec(on, expires), keys, withTls));
    if on.volumeWrite { EntryHeader(ls, "[jwt.signing]", Escape(keys.volumeWrite), expires.volumeWrite); }
    if on.volumeRead { EntryHeader(ls, "[jwt.signing.read]", Escape(keys.volumeRead), expires.volumeRead); }
    if on.filerWrite { EntryHeader(ls, "[jwt.filer_signing]", Escape(keys.filerWrite), expires.filerWrite); }
    if on.filerRead { EntryHeader(ls, "[jwt.filer_signing.read]", Escape(keys.filerRead), expires.filerRead); }
  }

  // ---------------------------------------------------------------- minted keys

  /** The standard base64 alphabet. */
  function Base64Char(n: nat): char
    requires n < 64
  {
    if n < 26 then 'A' + n as char
    else if n < 52 then 'a' + (n - 26) as char
    else if n < 62 then '0' + (n - 52) as char
    else if n == 62 then '+' else '/'
  }

  type Byte = x: int | 0 <= x < 256

  /** The four characters of up to three bytes. */
  function Quad(bytes: seq<Byte>): string
    requires bytes != []
  {
    var a := bytes[0];
    var b := if |bytes| > 1 then bytes[1] else 0;
    var c := if |bytes| > 2 then bytes[2] else 0;
    [Base64Char(a / 4), Base64Char(a % 4 * 16 + b / 16),
     if |bytes| > 1 then Base64Char(b % 16 * 4 + c / 64) else '=',
     if |bytes| > 2 then Base64Char(c % 64) else '=']
  }

  /** Standard base64 with padding. */
  function Base64(bytes: seq<Byte>): string {
    if bytes == [] then "" else Quad(bytes) + if |bytes| > 3 then Base64(bytes[3..]) else ""
  }

  /** A minted key: 32 random bytes in base64, or a fixed text when there is no randomness. */
  function RandKey(random: Option<seq<Byte>>): string {
    if random.Some? then Base64(random.value) else "seaweed-operator-" + "fallback-key"
  }

  lemma QuadPlain(bytes: seq<Byte>)
    requires bytes != []
    ensures Plain(Quad(bytes)) && |Quad(bytes)| == 4
  {
    hide PlainChar;
    Base64AlwaysPlain();
    hide Base64Char;
  }

  lemma Base64AlwaysPlain()
    ensures forall n: nat :: n < 64 ==> PlainChar(Base64Char(n))
    ensures PlainChar('=')
  {
  }

  lemma PlainAppend(a: string, b: string)
    requires Plain(a) && Plain(b)
    ensures Plain(a + b)
  {
    hide PlainChar;
  }

  lemma {:induction false} Base64Plain(bytes: seq<Byte>)
    ensures Plain(Base64(bytes))
  {
    hide Quad, Plain;
    PlainNothing();
    if bytes != [] {
      QuadPlain(bytes);
      if |bytes| > 3 { Base64Plain(bytes[3..]); }
      PlainAppend(Quad(bytes), if |bytes| > 3 then Base64(bytes[3..]) else "");
    }
  }

  lemma PlainNothing()
    ensures Plain("")
  {
  }

  lemma {:induction false} Base64Length(bytes: seq<Byte>)
    ensures |Base64(bytes)| == (|bytes| + 2) / 3 * 4
  {
    if bytes != [] {
      QuadPlain(bytes);
      hide Quad;
      if |bytes| > 3 { Base64Length(bytes[3..]); }
    }
  }

  /** Whatever the random source yields, a minted key is plain and not empty, as key
      stability asks. */
  lemma RandKeyPlain(random: Option<seq<Byte>>)
    requires random.Some? ==> |random.value| == 32
    ensures RandKey(random) != "" && Plain(RandKey(random))
    ensures random.Some? ==> |RandKey(random)| == 44
  {
    if random.Some? {
      Base64Plain(random.value);
      Base64Length(random.value);
    }
  }

  // ---------------------------------------------------------------- runs

  datatype Step = Step(req: Request, mint: PerSection<string>, done: bool)

  /** A run of passes, cut or not, under any sequence of specs. */
  ghost predicate Run(states: seq<State>, steps: seq<Step>) {
    |states| == |steps| + 1 &&
    forall i :: 0 <= i < |steps| ==> Pass(states[i], steps[i].req, steps[i].mint, states[i + 1], steps[i].done)
  }

  /** Over any run in which a section stays on, its plain key never changes. */
  lemma {:induction false} RunKeepsKey(states: seq<State>, steps: seq<Step>, s: Section, n: nat)
    requires Run(states, steps) && n < |states|
    requires forall i :: 0 <= i < |steps| ==> steps[i].req.cfg.on.Get(s)
    requires CurrentKey(states[0], s) != "" && Plain(CurrentKey(states[0], s))
    ensures CurrentKey(states[n], s) == CurrentKey(states[0], s)
  {
    if n > 0 {
      RunKeepsKey(states, steps, s, n - 1);
      var st := steps[n - 1];
      PassKeepsKey(states[n - 1], st.req, st.mint, states[n], st.done, s);
    }
  }

  lemma RunTail(states: seq<State>, steps: seq<Step>)
    requires Run(states, steps) && steps != []
    ensures Run(states[1..], steps[1..])
  {
    hide Pass;
  }

  /** The key minted by a completed pass is the key at every later point of the run. */
  lemma MintedOnce(states: seq<State>, steps: seq<Step>, s: Section, n: nat)
    requires Run(states, steps) && 1 <= n < |states| && steps[0].done
    requires forall i :: 0 <= i < |steps| ==> steps[i].req.cfg.on.Get(s)
    requires CurrentKey(states[0], s) == "" && steps[0].mint.Get(s) != "" && Plain(steps[0].mint.Get(s))
    ensures CurrentKey(states[n], s) == steps[0].mint.Get(s)
  {
    hide Pass, CurrentKey, Plain;
    CompletedProvides(states[0], steps[0].req, steps[0].mint, states[1], s);
    RunTail(states, steps);
    hide Run;
    assert states[1..][n - 1] == states[n];
    RunKeepsKey(states[1..], steps[1..], s, n - 1);
  }

  /** The migration from the ConfigMap keeps every enabled plain key at each cut
      point, and when it completes the ConfigMap is gone. */
  lemma MigrationKeepsKeys(pre: State, req: Request, mint: PerSection<string>, post: State, done: bool)
    requires pre.secret.None? && pre.configMap.Some? && req.Needed() && Pass(pre, req, mint, post, done)
    ensures forall s: Section :: req.cfg.on.Get(s) && Plain(TextKey(pre.configMap, s)) && TextKey(pre.configMap, s) != ""
              ==> CurrentKey(post, s) == TextKey(pre.configMap, s)
    ensures done ==> post.configMap == None && post.secret.Some?
  {
    forall s: Section | req.cfg.on.Get(s) && Plain(TextKey(pre.configMap, s)) && TextKey(pre.configMap, s) != ""
      ensures CurrentKey(post, s) == TextKey(pre.configMap, s)
    {
      PassKeepsKey(pre, req, mint, post, done, s);
    }
  }

  /** A migration cut at the ConfigMap deletion leaves a copy no completed pass
      with the file still needed removes: switch the section off, complete a pass,
      and its old key is still stored; drop the file with the second deletion lost,
      switch the section on again, and the old key is back. */
  lemma StaleCopyReturns(legacy: string, mint: PerSection<string>, s: Section, other: Section)
    returns (states: seq<State>, steps: seq<Step>)
    requires s != other && mint.Get(s) != ParsedKeys(legacy).Get(s)
    requires ParsedKeys(legacy).Get(s) != "" && Plain(ParsedKeys(legacy).Get(s))
    ensures |steps| == 4 && Run(states, steps) && states[0] == State(None, Some(Stored(legacy, true)))
    ensures steps[1].done && !steps[1].req.cfg.on.Get(s) && CurrentKey(states[2], s) == ""
    ensures steps[3].done && CurrentKey(states[4], s) == ParsedKeys(legacy).Get(s) != mint.Get(s)
  {
    hide ParsedKeys, FileText;
    var off := PerSection(false, false, false, false);
    var none := PerSection(0, 0, 0, 0);
    var both := Request(JwtSpec(off.Set(s, true).Set(other, true), none), false, false);
    var one := Request(JwtSpec(off.Set(other, true), none), false, false);
    var nil := Request(JwtSpec(off, none), false, false);
    var map0 := Some(Stored(legacy, true));
    var s0 := State(None, map0);
    var s1 := State(Some(Stored(FileText(both.cfg, FilledKeys(s0, both, mint), false), true)), map0);
    var s2 := State(Some(Stored(FileText(one.cfg, FilledKeys(s1, one, mint), false), true)), map0);
    var s3 := State(None, map0);
    var s4 := State(Some(Stored(FileText(both.cfg, FilledKeys(s3, both, mint), false), true)), None);
    states := [s0, s1, s2, s3, s4];
    steps := [Step(both, mint, false), Step(one, mint, true), Step(nil, mint, false), Step(both, mint, true)];
    DisabledKeySurvives(s1, one, mint, s2, s);
    PassKeepsKey(s3, both, mint, s4, true, s);
  }
}
