/** BucketLifecyclePolicy resources of one namespace: one policy owns a bucket's
    lifecycle document, the others stand down, and deletion clears what was applied. */
module Lifecycle {
  import opened Text

  /** `document` is the lifecycle document built from the rules, None when building
      fails; `marker` is the bucket recorded in status as carrying it. */
  datatype Policy = Policy(name: string, created: int, bucketRef: string, document: Option<string>, retain: bool,
                           deleting: bool, finalizer: bool, marker: string)

  /** Policies by name, the filer bucket behind each Bucket resource ("" until
      provisioned), each existing filer bucket's document ("" for none), and the
      filer buckets with legacy TTL entries. */
  datatype State = State(policies: map<string, Policy>, buckets: map<string, string>, configs: map<string, string>, stale: set<string>)

  predicate WellKeyed(s: State) {
    forall k :: k in s.policies ==> s.policies[k].name == k
  }

  // ---------------------------------------------------------------- the owner

  predicate Precedes(a: Policy, b: Policy) {
    if a.created != b.created then a.created < b.created else StrLess(a.name, b.name)
  }

  /** Precedence is a strict total order on distinct names: the older policy first, then
      the lesser name. */
  lemma PrecedesTotal(a: Policy, b: Policy)
    ensures a.created < b.created ==> Precedes(a, b)
    ensures a.created == b.created && StrLess(a.name, b.name) ==> Precedes(a, b)
    ensures !(Precedes(a, b) && Precedes(b, a))
    ensures a.name != b.name ==> Precedes(a, b) || Precedes(b, a)
    ensures a.name == b.name && a.created == b.created ==> !Precedes(a, b)
  {
    StrLessTotal(a.name, b.name);
  }

  lemma PrecedesTransitive(a: Policy, b: Policy, c: Policy)
    requires Precedes(a, b) && Precedes(b, c)
    ensures Precedes(a, c)
  {
    if a.created == b.created == c.created { StrLessTransitive(a.name, b.name, c.name); }
  }

  predicate Live(s: State, k: string, ref: string) {
    k in s.policies && !s.policies[k].deleting && s.policies[k].bucketRef == ref
  }

  /** o is live and outranks every other live policy of its bucket. */
  ghost predicate Owner(s: State, ref: string, o: string) {
    Live(s, o, ref) && forall k :: Live(s, k, ref) && k != o ==> Precedes(s.policies[o], s.policies[k])
  }

  lemma OneOwner(s: State, ref: string, a: string, b: string)
    requires WellKeyed(s) && Owner(s, ref, a) && Owner(s, ref, b)
    ensures a == b
  {
    PrecedesTotal(s.policies[a], s.policies[b]);
  }

  ghost predicate Lists(order: seq<string>, s: State) {
    forall k :: k in order <==> k in s.policies
  }

  /** The owner a live policy computes; with OneOwner, all live policies of a bucket
      compute the same, whatever order they are listed in. */
  method BucketOwner(s: State, order: seq<string>, policy: Policy) returns (owner: string)
    requires WellKeyed(s) && Lists(order, s)
    requires policy.name in s.policies && s.policies[policy.name] == policy && !policy.deleting
    ensures Owner(s, policy.bucketRef, owner)
  {
    var best := policy;
    for i := 0 to |order|
      invariant Live(s, best.name, policy.bucketRef) && s.policies[best.name] == best
      invariant best != policy ==> Precedes(best, policy)
      invariant forall k :: k in order[..i] && Live(s, k, policy.bucketRef) && k != best.name ==> Precedes(best, s.policies[k])
    {
      assert order[..i + 1] == order[..i] + [order[i]];
      var p := s.policies[order[i]];
      if p.name == policy.name || p.bucketRef != policy.bucketRef || p.deleting { continue; }
      PrecedesTotal(p, best);
      if Precedes(p, best) {
        Displaced(s, policy.bucketRef, p, best, order[..i]);
        if best != policy { PrecedesTransitive(p, best, policy); }
        best := p;
      }
    }
    assert order[..|order|] == order;
    owner := best.name;
  }

  lemma Displaced(s: State, ref: string, p: Policy, best: Policy, seen: seq<string>)
    requires WellKeyed(s) && Precedes(p, best)
    requires forall k :: k in seen && Live(s, k, ref) && k != best.name ==> Precedes(best, s.policies[k])
    requires best.name in s.policies && s.policies[best.name] == best
    ensures forall k :: k in seen && Live(s, k, ref) && k != p.name ==> Precedes(p, s.policies[k])
  {
    forall k | k in seen && Live(s, k, ref) && k != p.name ensures Precedes(p, s.policies[k]) {
      if k != best.name { PrecedesTransitive(p, best, s.policies[k]); }
    }
  }

  // ---------------------------------------------------------------- passes

  predicate Provisioned(s: State, ref: string) {
    ref in s.buckets && s.buckets[ref] != ""
  }

  /** An owner that can act: cluster found, document built, bucket there. */
  ghost predicate CanApply(s: State, k: string, cluster: bool)
    requires k in s.policies
  {
    var p := s.policies[k];
    && p.finalizer && Provisioned(s, p.bucketRef) && cluster && p.document.Some? && s.buckets[p.bucketRef] in s.configs
    && Owner(s, p.bucketRef, k)
  }

  /** What a pass over a live policy may leave: a loser relinquishes its marker, the
      owner clears stale TTLs, writes its document, and records the bucket. */
  ghost predicate ReconcileStep(s: State, k: string, cluster: bool, t: State, done: bool)
    requires k in s.policies
  {
    var p := s.policies[k];
    if !p.finalizer then !done && (t == s || t == s.(policies := s.policies[k := p.(finalizer := true)]))
    else if !Provisioned(s, p.bucketRef) then t == s && !done
    else if !Owner(s, p.bucketRef, k) then !done && (t == s || t == s.(policies := s.policies[k := p.(marker := "")]))
    else if !cluster || p.document.None? then t == s && !done
    else
      var f := s.buckets[p.bucketRef];
      var clean := s.(stale := s.stale - {f});
      if f !in s.configs then !done && (t == s || t == clean)
      else
        var written := clean.(configs := s.configs[f := p.document.value]);
        var recorded := written.(policies := s.policies[k := p.(marker := f)]);
        if done then t == recorded else t == s || t == clean || t == written || t == recorded
  }

  /** What a deletion pass may leave: only a recorded, unretained document goes. */
  predicate ReleaseStep(s: State, k: string, cluster: bool, t: State, done: bool)
    requires k in s.policies
  {
    var p := s.policies[k];
    var gone := s.policies - {k};
    if !p.finalizer then t == s && !done
    else if p.marker == "" || p.retain || !cluster then
      if done then t == s.(policies := gone) else t == s || t == s.(policies := gone)
    else
      var clean := s.(stale := s.stale - {p.marker});
      var cleared := clean.(configs := if p.marker in s.configs then s.configs[p.marker := ""] else s.configs);
      var released := cleared.(policies := gone);
      if done then t == released else t == s || t == clean || t == cleared || t == released
  }

  /** The API server's policies, the filer's documents, and the faults still to come. */
  class Cluster {
    var policies: map<string, Policy>
    var buckets: map<string, string>
    var configs: map<string, string>
    var stale: set<string>
    var faults: seq<Fault>

    ghost function View(): State
      reads this
    {
      State(policies, buckets, configs, stale)
    }

    constructor (s: State, faults: seq<Fault>)
      ensures View() == s && this.faults == faults
    {
      policies, buckets, configs, stale, this.faults := s.policies, s.buckets, s.configs, s.stale, faults;
    }

    method NextFault() returns (f: Fault)
      modifies this`faults
      ensures AllOk(old(faults)) ==> f.Ok? && AllOk(faults)
    {
      f := FaultAt(faults, 0);
      if faults != [] { faults := faults[1..]; }
    }

    /** A pass over a live policy. */
    method Reconcile(k: string, order: seq<string>, cluster: bool) returns (done: bool)
      requires WellKeyed(View()) && Lists(order, View()) && k in policies && !policies[k].deleting
      modifies this
      ensures ReconcileStep(old(View()), k, cluster, View(), done)
      ensures AllOk(old(faults)) ==> done == CanApply(old(View()), k, cluster)
      ensures AllOk(old(faults)) ==> k in policies && policies[k].finalizer
      ensures var p := old(policies[k]);
              AllOk(old(faults)) && p.finalizer && Provisioned(old(View()), p.bucketRef) && !Owner(old(View()), p.bucketRef, k) ==>
                policies[k].marker == ""
    {
      hide Owner;
      var p := policies[k];
      if !p.finalizer {
        var protect := NextFault();
        if !protect.Lost? { policies := policies[k := p.(finalizer := true)]; }
        return false;
      }
      if p.bucketRef !in buckets || buckets[p.bucketRef] == "" { return false; }
      var list := NextFault();
      if !list.Ok? { return false; }
      var owner := BucketOwner(State(policies, buckets, configs, stale), order, p);
      if owner != k {
        if Owner(View(), p.bucketRef, k) { OneOwner(View(), p.bucketRef, owner, k); }
        var relinquish := NextFault();
        if !relinquish.Lost? { policies := policies[k := p.(marker := "")]; }
        return false;
      }
      if !cluster { return false; }
      done := ReconcilePolicy(p, buckets[p.bucketRef]);
    }

    /** The owner's part: legacy TTLs, then the document unless it is already there,
        then the record. */
    method ReconcilePolicy(p: Policy, f: string) returns (done: bool)
      requires p.name in policies
      modifies this`policies, this`configs, this`stale, this`faults
      ensures p.document.None? ==> View() == old(View()) && !done
      ensures var s, t := old(View()), View();
              var clean := s.(stale := s.stale - {f});
              p.document.Some? ==>
                if f !in s.configs then !done && (t == s || t == clean)
                else
                  var written := clean.(configs := s.configs[f := p.document.value]);
                  var recorded := written.(policies := s.policies[p.name := p.(marker := f)]);
                  if done then t == recorded else t == s || t == clean || t == written || t == recorded
      ensures AllOk(old(faults)) && p.document.Some? && f in old(configs) ==> done
    {
      if p.document.None? { return false; }
      var clear := NextFault();
      if !clear.Lost? { stale := stale - {f}; }
      if !clear.Ok? { return false; }
      var read := NextFault();
      if !read.Ok? || f !in configs { return false; }
      if configs[f] != p.document.value {
        var write := NextFault();
        if !write.Lost? { configs := configs[f := p.document.value]; }
        if !write.Ok? { return false; }
      }
      assert configs == old(configs)[f := p.document.value];
      var save := NextFault();
      if !save.Lost? { policies := policies[p.name := p.(marker := f)]; }
      return save.Ok?;
    }

    method HandleDeletion(k: string, cluster: bool) returns (done: bool)
      requires WellKeyed(View()) && k in policies && policies[k].deleting
      modifies this
      ensures ReleaseStep(old(View()), k, cluster, View(), done)
      ensures AllOk(old(faults)) ==> done == old(policies[k].finalizer)
    {
      var p := policies[k];
      if !p.finalizer { return false; }
      if p.marker != "" && !p.retain && cluster {
        var clear := NextFault();
        if !clear.Lost? { stale := stale - {p.marker}; }
        if !clear.Ok? { return false; }
        var drop := NextFault();
        if !drop.Lost? && p.marker in configs { configs := configs[p.marker := ""]; }
        if !drop.Ok? { return false; }
      }
      var release := NextFault();
      if !release.Lost? { policies := policies - {k}; }
      return release.Ok?;
    }

    /** The policies enqueued when policy c changed: those of the same bucket. */
    method MapPolicyToPeers(c: Policy, order: seq<string>) returns (names: seq<string>)
      requires WellKeyed(View()) && Lists(order, View())
      ensures forall k :: k in names <==> k in policies && k != c.name && policies[k].bucketRef == c.bucketRef
    {
      names := [];
      for i := 0 to |order|
        invariant forall k :: k in names <==> k in order[..i] && k != c.name && policies[k].bucketRef == c.bucketRef
      {
        assert order[..i + 1] == order[..i] + [order[i]];
        var p := policies[order[i]];
        if p.name != c.name && p.bucketRef == c.bucketRef { names := names + [p.name]; }
      }
      assert order[..|order|] == order;
    }
  }

  // ---------------------------------------------------------------- runs

  datatype Event =
    | Added(key: string)
    | Deleting(key: string)
    | Edited(key: string)
    | Reconciled(key: string, cluster: bool, done: bool)
    | Released(key: string, cluster: bool, done: bool)
    | BucketReady(key: string, filer: string)

  /** One event; the bucket a policy refers to is immutable. BucketReady provisions the
      Bucket resource `key` under a filer name. */
  ghost predicate Step(s: State, e: Event, t: State) {
    var k := e.key;
    match e
    case Added(_) =>
      && k !in s.policies && k in t.policies && t == s.(policies := s.policies[k := t.policies[k]])
      && t.policies[k].name == k && !t.policies[k].deleting && !t.policies[k].finalizer && t.policies[k].marker == ""
    case Deleting(_) =>
      k in s.policies &&
      t == s.(policies := if s.policies[k].finalizer then s.policies[k := s.policies[k].(deleting := true)] else s.policies - {k})
    case Edited(_) =>
      && k in s.policies && k in t.policies
      && t == s.(policies := s.policies[k := s.policies[k].(document := t.policies[k].document, retain := t.policies[k].retain)])
    case Reconciled(_, cluster, done) => k in s.policies && !s.policies[k].deleting && ReconcileStep(s, k, cluster, t, done)
    case Released(_, cluster, done) => k in s.policies && s.policies[k].deleting && ReleaseStep(s, k, cluster, t, done)
    case BucketReady(_, f) =>
      && !Provisioned(s, k) && f != ""
      && t == s.(buckets := s.buckets[k := f], configs := if f in s.configs then s.configs else s.configs[f := ""])
  }

  ghost predicate Run(ss: seq<State>, es: seq<Event>) {
    |ss| == |es| + 1 && WellKeyed(ss[0]) && forall i :: 0 <= i < |es| ==> Step(ss[i], es[i], ss[i + 1])
  }

  /** An event changes the acting policy only, and never what ranks it. */
  lemma StepFrame(s: State, e: Event, t: State)
    requires WellKeyed(s) && Step(s, e, t)
    ensures WellKeyed(t) && (e.BucketReady? ==> t.policies == s.policies) && (!e.BucketReady? ==> t.buckets == s.buckets)
    ensures forall r :: Provisioned(s, r) ==> Provisioned(t, r) && t.buckets[r] == s.buckets[r]
    ensures forall k :: k != e.key ==> (k in s.policies <==> k in t.policies) && (k in s.policies ==> s.policies[k] == t.policies[k])
    ensures e.key in s.policies && e.key in t.policies ==>
              SamePolicy(s.policies[e.key], t.policies[e.key])
    ensures !e.Edited? && e.key in s.policies && e.key in t.policies ==>
              t.policies[e.key].document == s.policies[e.key].document
  {
    hide Owner;
  }

  predicate SamePolicy(a: Policy, b: Policy) {
    a.name == b.name && a.created == b.created && a.bucketRef == b.bucketRef && (a.deleting ==> b.deleting)
  }

  lemma {:induction false} RunKeyed(ss: seq<State>, es: seq<Event>, n: nat)
    requires Run(ss, es) && n < |ss|
    ensures WellKeyed(ss[n])
  {
    if n > 0 {
      RunKeyed(ss, es, n - 1);
      StepFrame(ss[n - 1], es[n - 1], ss[n]);
    }
  }

  // ---------------------------------------------------------------- who writes and who clears

  function ConfigAt(s: State, f: string): Option<string> {
    if f in s.configs then Some(s.configs[f]) else None
  }

  /** A bucket's document changes only in two ways: its live owner writes exactly the
      owner's document, or a terminating policy that recorded this bucket and does
      not retain clears it. A new bucket starts without one. */
  lemma OnlyOwnerWrites(s: State, e: Event, t: State, f: string)
    requires WellKeyed(s) && Step(s, e, t) && ConfigAt(t, f) != ConfigAt(s, f)
    ensures e.BucketReady? ==> e.filer == f && ConfigAt(s, f) == None && ConfigAt(t, f) == Some("")
    ensures !e.BucketReady? ==> e.key in s.policies
    ensures !e.BucketReady? ==>
              var p := s.policies[e.key];
              || (e.Reconciled? && Provisioned(s, p.bucketRef) && s.buckets[p.bucketRef] == f && Owner(s, p.bucketRef, e.key) &&
                  p.document.Some? && ConfigAt(t, f) == p.document)
              || (e.Released? && p.deleting && p.marker == f && f != "" && !p.retain && e.cluster && ConfigAt(t, f) == Some(""))
  {
    hide Owner;
  }

  /** A completed deletion leaves its bucket without a document exactly when there was
      none, or the policy had recorded the bucket, does not retain it, and its
      cluster is there. In particular an empty marker never clears anything. */
  lemma ReleaseClearsExactly(s: State, k: string, cluster: bool, t: State, f: string)
    requires k in s.policies && s.policies[k].finalizer && ReleaseStep(s, k, cluster, t, true) && f in s.configs
    ensures ConfigAt(t, f) == Some("") <==>
              s.configs[f] == "" || (f != "" && s.policies[k].marker == f && !s.policies[k].retain && cluster)
    ensures f in s.stale && f != "" ==> (f !in t.stale <==> s.policies[k].marker == f && !s.policies[k].retain && cluster)
  {
  }

  /** A completed pass of a policy that is not being deleted makes it the recorded
      owner: the bucket carries its document, has no legacy TTL entries, and is named
      in its status. */
  lemma AppliedExactly(s: State, k: string, cluster: bool, t: State)
    requires k in s.policies && ReconcileStep(s, k, cluster, t, true)
    ensures var p := s.policies[k];
            && p.bucketRef in s.buckets && s.buckets[p.bucketRef] != "" && Owner(s, p.bucketRef, k)
            && ConfigAt(t, s.buckets[p.bucketRef]) == p.document && p.document.Some?
            && t.stale == s.stale - {s.buckets[p.bucketRef]}
            && t.policies == s.policies[k := p.(marker := s.buckets[p.bucketRef])]
            && forall f :: f != s.buckets[p.bucketRef] ==> ConfigAt(t, f) == ConfigAt(s, f)
  {
    hide Owner;
  }

  // ---------------------------------------------------------------- reign of an owner

  predicate DistinctBuckets(s: State) {
    forall q, r :: q in s.buckets && r in s.buckets && q != r && s.buckets[q] != "" ==> s.buckets[q] != s.buckets[r]
  }

  /** A rival added in this event ranks below the owner. */
  predicate Newer(s: State, e: Event, t: State, ref: string, o: string) {
    o in t.policies && e.Added? && Live(t, e.key, ref) && e.key != o ==> Precedes(t.policies[o], t.policies[e.key])
  }

  /** Only o has recorded bucket f, and the Bucket resources name distinct filer buckets. */
  predicate SoleMarker(s: State, ref: string, f: string, o: string) {
    && Provisioned(s, ref) && s.buckets[ref] == f
    && (forall r :: r in s.buckets && r != ref ==> s.buckets[r] != f)
    && (forall k :: k in s.policies && k != o ==> s.policies[k].marker != f)
  }

  lemma OwnerStaysStep(s: State, e: Event, t: State, ref: string, o: string)
    requires WellKeyed(s) && Step(s, e, t) && Owner(s, ref, o) && Live(t, o, ref) && Newer(s, e, t, ref, o)
    ensures Owner(t, ref, o)
  {
    StepFrame(s, e, t);
    hide ReconcileStep, ReleaseStep;
    forall k | Live(t, k, ref) && k != o ensures Precedes(t.policies[o], t.policies[k]) {
      if k in s.policies { assert Live(s, k, ref); }
    }
  }

  lemma SoleMarkerStays(s: State, e: Event, t: State, ref: string, f: string, o: string)
    requires WellKeyed(s) && Step(s, e, t) && Owner(s, ref, o) && SoleMarker(s, ref, f, o) && DistinctBuckets(t)
    ensures SoleMarker(t, ref, f, o)
  {
    StepFrame(s, e, t);
    forall k | k in t.policies && k != o ensures t.policies[k].marker != f {
      if k == e.key && e.Reconciled? && Provisioned(s, s.policies[k].bucketRef) && Owner(s, s.policies[k].bucketRef, k) {
        if s.policies[k].bucketRef == ref { OneOwner(s, ref, o, k); }
      }
    }
    hide Owner;
  }

  /** A run in which policy o stays live and unedited, newcomers rank below it, and
      Bucket resources name distinct filer buckets; other policies and buckets come,
      go, fail and complete as they like. */
  ghost predicate Reign(ss: seq<State>, es: seq<Event>, ref: string, o: string) {
    && Run(ss, es)
    && (forall i :: 0 <= i < |ss| ==> DistinctBuckets(ss[i]))
    && (forall i :: 0 <= i < |ss| ==> Live(ss[i], o, ref))
    && (forall i :: 0 <= i < |es| ==> Newer(ss[i], es[i], ss[i + 1], ref, o) && es[i] != Edited(o))
  }

  lemma {:induction false} OwnerReigns(ss: seq<State>, es: seq<Event>, ref: string, f: string, o: string, n: nat)
    requires Reign(ss, es, ref, o) && n < |ss| && Owner(ss[0], ref, o) && SoleMarker(ss[0], ref, f, o)
    ensures WellKeyed(ss[n]) && Owner(ss[n], ref, o) && SoleMarker(ss[n], ref, f, o)
  {
    if n > 0 {
      OwnerReigns(ss, es, ref, f, o, n - 1);
      OwnerStaysStep(ss[n - 1], es[n - 1], ss[n], ref, o);
      SoleMarkerStays(ss[n - 1], es[n - 1], ss[n], ref, f, o);
      StepFrame(ss[n - 1], es[n - 1], ss[n]);
    }
  }

  /** The bucket carries exactly the owner's document. */
  predicate Settled(s: State, f: string, o: string) {
    o in s.policies && s.policies[o].document.Some? && ConfigAt(s, f) == s.policies[o].document
  }

  lemma SettledStep(s: State, e: Event, t: State, ref: string, f: string, o: string)
    requires WellKeyed(s) && Step(s, e, t) && Owner(s, ref, o) && SoleMarker(s, ref, f, o) && Live(t, o, ref)
    requires Settled(s, f, o) && e != Edited(o)
    ensures Settled(t, f, o)
  {
    StepFrame(s, e, t);
    if ConfigAt(t, f) != ConfigAt(s, f) {
      OnlyOwnerWrites(s, e, t, f);
      if e.Reconciled? {
        assert s.policies[e.key].bucketRef == ref;
        OneOwner(s, ref, o, e.key);
      }
    }
    hide Owner;
  }

  /** With no other policy holding the bucket's marker, the owner's completed pass
      leaves the bucket at exactly the owner's document, and there it stays through
      every such run. */
  lemma {:induction false} SettledStays(ss: seq<State>, es: seq<Event>, ref: string, f: string, o: string, n: nat)
    requires Reign(ss, es, ref, o) && 1 <= n < |ss| && Owner(ss[0], ref, o) && SoleMarker(ss[0], ref, f, o)
    requires es[0].Reconciled? && es[0].key == o && es[0].done
    ensures Settled(ss[n], f, o)
  {
    assert Step(ss[n - 1], es[n - 1], ss[n]) && Live(ss[n], o, ref);
    if n > 1 {
      SettledStays(ss, es, ref, f, o, n - 1);
      OwnerReigns(ss, es, ref, f, o, n - 1);
      SettledStep(ss[n - 1], es[n - 1], ss[n], ref, f, o);
    }
    hide Owner;
  }

  // ---------------------------------------------------------------- no policy terminating

  /** A live policy with a marker owns its bucket, and the marker names it. */
  ghost predicate MarkersOwned(s: State) {
    forall k :: k in s.policies && !s.policies[k].deleting && s.policies[k].marker != "" ==>
      var p := s.policies[k];
      Provisioned(s, p.bucketRef) && p.marker == s.buckets[p.bucketRef] && Owner(s, p.bucketRef, k)
  }

  /** A policy added in this event outranks a live holder of its bucket's marker, as one
      created in the same second under a smaller name does. */
  ghost predicate Displaces(s: State, e: Event, t: State) {
    e.Added? && e.key in t.policies &&
    exists k :: Live(s, k, t.policies[e.key].bucketRef) && s.policies[k].marker != "" && Precedes(t.policies[e.key], s.policies[k])
  }

  /** An event keeps "every live holder owns its bucket" exactly when it displaces no
      live holder. */
  lemma MarkersOwnedExact(s: State, e: Event, t: State)
    requires WellKeyed(s) && Step(s, e, t) && MarkersOwned(s)
    ensures MarkersOwned(t) <==> !Displaces(s, e, t)
  {
    StepFrame(s, e, t);
    if Displaces(s, e, t) {
      var n := t.policies[e.key];
      var k :| Live(s, k, n.bucketRef) && s.policies[k].marker != "" && Precedes(n, s.policies[k]);
      DisplacedNotOwner(s, e, t, k);
    } else {
      forall k | k in t.policies && !t.policies[k].deleting && t.policies[k].marker != ""
        ensures var p := t.policies[k];
                Provisioned(t, p.bucketRef) && p.marker == t.buckets[p.bucketRef] && Owner(t, p.bucketRef, k)
      {
        MarkerWasOwned(s, e, t, k);
        NotDisplaced(s, e, t, k);
        OwnerStaysStep(s, e, t, t.policies[k].bucketRef, k);
      }
    }
    hide Step, Owner;
  }

  lemma DisplacedNotOwner(s: State, e: Event, t: State, k: string)
    requires WellKeyed(s) && Step(s, e, t) && e.Added? && Live(s, k, t.policies[e.key].bucketRef)
    requires Precedes(t.policies[e.key], s.policies[k])
    ensures k in t.policies && t.policies[k] == s.policies[k] && !Owner(t, t.policies[k].bucketRef, k)
  {
    PrecedesTotal(t.policies[e.key], s.policies[k]);
    assert Live(t, e.key, t.policies[k].bucketRef) && e.key != k;
  }

  lemma NotDisplaced(s: State, e: Event, t: State, k: string)
    requires WellKeyed(s) && Step(s, e, t) && !Displaces(s, e, t)
    requires k in s.policies && k in t.policies && !s.policies[k].deleting && s.policies[k].bucketRef == t.policies[k].bucketRef
    requires e.Added? ==> s.policies[k].marker != ""
    ensures Newer(s, e, t, t.policies[k].bucketRef, k)
  {
    hide ReconcileStep, ReleaseStep;
    if e.Added? && e.key in t.policies {
      assert Live(s, k, t.policies[k].bucketRef);
      PrecedesTotal(t.policies[e.key], s.policies[k]);
    }
  }

  lemma MarkerWasOwned(s: State, e: Event, t: State, k: string)
    requires WellKeyed(s) && Step(s, e, t) && MarkersOwned(s)
    requires k in s.policies && k in t.policies && !t.policies[k].deleting && t.policies[k].marker != ""
    ensures var p := s.policies[k];
            && !p.deleting && p.bucketRef == t.policies[k].bucketRef
            && Provisioned(s, p.bucketRef) && t.policies[k].marker == s.buckets[p.bucketRef] && Owner(s, p.bucketRef, k)
  {
    StepFrame(s, e, t);
    hide Owner;
  }

  /** Over every run from no policies in which no addition displaces a live holder. */
  lemma {:induction false} MarkersOwnedAlways(ss: seq<State>, es: seq<Event>, n: nat)
    requires Run(ss, es) && n < |ss| && ss[0].policies == map[]
    requires forall i :: 0 <= i < n ==> !Displaces(ss[i], es[i], ss[i + 1])
    ensures MarkersOwned(ss[n])
  {
    hide Step, Displaces, MarkersOwned;
    NoMarkers(ss[0]);
    if n > 0 {
      MarkersOwnedAlways(ss, es, n - 1);
      RunKeyed(ss, es, n - 1);
      MarkersOwnedExact(ss[n - 1], es[n - 1], ss[n]);
    }
  }

  lemma NoMarkers(s: State)
    ensures s.policies == map[] ==> MarkersOwned(s)
  {
  }

  /** No terminating policy still holds the bucket's marker. */
  predicate Quiet(s: State, f: string) {
    forall k :: k in s.policies && s.policies[k].deleting ==> s.policies[k].marker != f
  }

  /** Then nobody but the owner does. */
  lemma QuietIsSole(s: State, ref: string, f: string, o: string)
    requires WellKeyed(s) && MarkersOwned(s) && DistinctBuckets(s) && Quiet(s, f)
    requires Provisioned(s, ref) && s.buckets[ref] == f && Owner(s, ref, o)
    ensures SoleMarker(s, ref, f, o)
  {
    forall k | k in s.policies && k != o ensures s.policies[k].marker != f {
      if s.policies[k].bucketRef == ref && Owner(s, ref, k) { OneOwner(s, ref, k, o); }
    }
  }

  /** After any run whatever: from a completed pass of a bucket's owner in a state where
      no other policy holds the bucket's marker, the bucket carries exactly the owner's
      document, and keeps it as long as the owner stays live, unedited and not
      outranked, whoever else comes, fails, terminates or goes. */
  lemma SettledOnceAlone(ss: seq<State>, es: seq<Event>, ref: string, f: string, o: string, m: nat, n: nat)
    requires Run(ss, es) && m < n < |ss| && es[m].Reconciled? && es[m].key == o && es[m].done
    requires Provisioned(ss[m], ref) && ss[m].buckets[ref] == f
    requires forall k :: k in ss[m].policies && k != o ==> ss[m].policies[k].marker != f
    requires forall i :: m <= i < |ss| ==> Live(ss[i], o, ref) && DistinctBuckets(ss[i])
    requires forall i :: m <= i < |es| ==> Newer(ss[i], es[i], ss[i + 1], ref, o) && es[i] != Edited(o)
    ensures Settled(ss[n], f, o)
  {
    RunKeyed(ss, es, m);
    DoneOwns(ss[m], es[m], ss[m + 1], ref);
    assert SoleMarker(ss[m], ref, f, o);
    var ts, ds := ss[m..], es[m..];
    hide Step, Owner, SoleMarker, Settled, Newer, DistinctBuckets;
    assert Reign(ts, ds, ref, o);
    SettledStays(ts, ds, ref, f, o, n - m);
  }

  /** Where no addition displaced a live holder before that pass, it is enough that no
      terminating policy holds the marker. */
  lemma SettledOnceQuiet(ss: seq<State>, es: seq<Event>, ref: string, f: string, o: string, m: nat, n: nat)
    requires Run(ss, es) && ss[0].policies == map[] && m < n < |ss|
    requires forall i :: 0 <= i < m ==> !Displaces(ss[i], es[i], ss[i + 1])
    requires es[m].Reconciled? && es[m].key == o && es[m].done
    requires Provisioned(ss[m], ref) && ss[m].buckets[ref] == f && Quiet(ss[m], f)
    requires forall i :: m <= i < |ss| ==> Live(ss[i], o, ref) && DistinctBuckets(ss[i])
    requires forall i :: m <= i < |es| ==> Newer(ss[i], es[i], ss[i + 1], ref, o) && es[i] != Edited(o)
    ensures Settled(ss[n], f, o)
  {
    RunKeyed(ss, es, m);
    MarkersOwnedAlways(ss, es, m);
    DoneOwns(ss[m], es[m], ss[m + 1], ref);
    QuietIsSole(ss[m], ref, f, o);
    hide Step, MarkersOwned, Owner, Settled, Quiet, Newer, DistinctBuckets, Displaces;
    SettledOnceAlone(ss, es, ref, f, o, m, n);
  }

  lemma DoneOwns(s: State, e: Event, t: State, ref: string)
    requires Step(s, e, t) && e.Reconciled? && e.done && Live(s, e.key, ref)
    ensures Owner(s, ref, e.key)
  {
    hide Owner;
  }

  // ---------------------------------------------------------------- hand-off

  /** When the last terminating holder is released, the bucket's marker is the
      successor's alone: no live loser holds one, and no other terminating policy. */
  lemma HandOffCompletes(s: State, k: string, cluster: bool, t: State, ref: string, f: string, o: string)
    requires WellKeyed(s) && MarkersOwned(s) && DistinctBuckets(s)
    requires Provisioned(s, ref) && s.buckets[ref] == f && Owner(s, ref, o)
    requires k in s.policies && s.policies[k].deleting && s.policies[k].finalizer && ReleaseStep(s, k, cluster, t, true)
    requires forall j :: j in s.policies && j != k && s.policies[j].deleting ==> s.policies[j].marker != f
    ensures SoleMarker(t, ref, f, o) && Owner(t, ref, o) && Quiet(t, f)
  {
    forall j | j in t.policies && j != o ensures t.policies[j].marker != f {
      if s.policies[j].bucketRef == ref && Owner(s, ref, j) { OneOwner(s, ref, j, o); }
    }
    assert forall j :: Live(t, j, ref) <==> Live(s, j, ref);
  }

  /** Why displacing matters: a is created in the same second as the holder h under a
      smaller name, takes over and completes; h is deleted before the pass that would
      have relinquished its marker, and its deletion clears a's document. */
  lemma DisplacedClears(f: string, ref: string, da: string, dh: string) returns (ss: seq<State>, es: seq<Event>)
    requires f != "" && da != ""
    ensures Run(ss, es)
    ensures es == [Added("a"), Reconciled("a", true, false), Reconciled("a", true, true), Deleting("h"), Released("h", true, true)]
    ensures Owner(ss[0], ref, "h") && Settled(ss[0], f, "h") && Displaces(ss[0], es[0], ss[1])
    ensures Owner(ss[3], ref, "a") && Settled(ss[3], f, "a") && Quiet(ss[3], f)
    ensures Owner(ss[5], ref, "a") && ConfigAt(ss[5], f) == Some("") && ss[5].policies["a"].marker == f
  {
    hide ReconcileStep, ReleaseStep, Step, Displaces;
    var s0, s1, s2, s3 := TakenOver(f, ref, da, dh);
    var h := s3.policies["h"];
    var s4 := s3.(policies := s3.policies["h" := h.(deleting := true)]);
    DeletingStep(s3, "h", s4);
    var s5 := s4.(policies := s4.policies - {"h"}, configs := s4.configs[f := ""]);
    ClearStep(s4, "h", f);
    ss := [s0, s1, s2, s3, s4, s5];
    es := [Added("a"), Reconciled("a", true, false), Reconciled("a", true, true), Deleting("h"), Released("h", true, true)];
    assert forall k :: Live(s5, k, ref) ==> k == "a";
  }

  lemma TakenOver(f: string, ref: string, da: string, dh: string) returns (s0: State, s1: State, s2: State, s3: State)
    requires f != "" && da != ""
    ensures WellKeyed(s0) && Owner(s0, ref, "h") && Settled(s0, f, "h") && Displaces(s0, Added("a"), s1)
    ensures Step(s0, Added("a"), s1) && Step(s1, Reconciled("a", true, false), s2) && Step(s2, Reconciled("a", true, true), s3)
    ensures Owner(s3, ref, "a") && Settled(s3, f, "a") && Quiet(s3, f) && s3.policies.Keys == {"a", "h"} && s3.stale == {}
    ensures s3.policies["a"].marker == f && Live(s3, "a", ref) && s3.policies["h"] == Policy("h", 0, ref, Some(dh), false, false, true, f)
  {
    hide ReconcileStep, ReleaseStep;
    var h := Policy("h", 0, ref, Some(dh), false, false, true, f);
    var a0 := Policy("a", 0, ref, Some(da), false, false, false, "");
    var a1 := a0.(finalizer := true);
    assert "a" != "h" && StrLess("a", "h") && Precedes(a0, h) && Precedes(a1, h);
    s0 := State(map["h" := h], map[ref := f], map[f := dh], {});
    s1 := s0.(policies := map["h" := h, "a" := a0]);
    s2 := s0.(policies := map["h" := h, "a" := a1]);
    assert s0.policies["a" := a0] == s1.policies && s1.policies["a" := a1] == s2.policies;
    assert Live(s0, "h", ref);
    FinalizerStep(s1, "a", s2);
    assert Live(s2, "a", ref) && forall k :: Live(s2, k, ref) ==> k == "a" || k == "h";
    s3 := Applied(s2, "a", f, da);
    ApplyStep(s2, "a", f, da);
  }

  lemma DeletingStep(s: State, k: string, t: State)
    requires k in s.policies && s.policies[k].finalizer && t == s.(policies := s.policies[k := s.policies[k].(deleting := true)])
    ensures Step(s, Deleting(k), t)
  {
  }

  lemma FinalizerStep(s: State, k: string, t: State)
    requires k in s.policies && !s.policies[k].deleting && !s.policies[k].finalizer
    requires t == s.(policies := s.policies[k := s.policies[k].(finalizer := true)])
    ensures Step(s, Reconciled(k, true, false), t)
  {
  }

  /** Why the marker must be gone: the owner a is deleted, b takes over and completes,
      and then a's own deletion clears b's document until b's next pass. */
  lemma HandOffClears(f: string, ref: string, da: string, db: string) returns (ss: seq<State>, es: seq<Event>)
    requires f != "" && db != "" && da != db
    ensures Run(ss, es) && es == [Deleting("a"), Reconciled("b", true, true), Released("a", true, true), Reconciled("b", true, true)]
    ensures Owner(ss[0], ref, "a") && Settled(ss[0], f, "a") && Owner(ss[1], ref, "b")
    ensures Settled(ss[2], f, "b")
    ensures ConfigAt(ss[3], f) == Some("") && Owner(ss[3], ref, "b") && ss[3].policies["b"].marker == f
    ensures Settled(ss[4], f, "b") && SoleMarker(ss[4], ref, f, "b")
  {
    hide ReconcileStep, ReleaseStep;
    var a := Policy("a", 0, ref, Some(da), false, false, true, f);
    var b := Policy("b", 1, ref, Some(db), false, false, true, "");
    var s0 := State(map["a" := a, "b" := b], map[ref := f], map[f := da], {});
    var s1 := s0.(policies := s0.policies["a" := a.(deleting := true)]);
    assert "a" != "b";
    assert forall k :: Live(s1, k, ref) <==> k == "b";
    assert Step(s0, Deleting("a"), s1);
    hide Step;
    var s2 := Applied(s1, "b", f, db);
    ApplyStep(s1, "b", f, db);
    var s3, s4 := ClearThenRestore(s2, ref, f, db);
    ss, es := [s0, s1, s2, s3, s4], [Deleting("a"), Reconciled("b", true, true), Released("a", true, true), Reconciled("b", true, true)];
  }

  lemma ClearThenRestore(s: State, ref: string, f: string, db: string) returns (s3: State, s4: State)
    requires s.policies.Keys == {"a", "b"} && s.buckets == map[ref := f] && s.configs.Keys == {f} && s.stale == {} && f != ""
    requires var a := s.policies["a"]; a.deleting && a.finalizer && !a.retain && a.marker == f
    requires var b := s.policies["b"]; Live(s, "b", ref) && b.name == "b" && b.finalizer && b.document == Some(db) && b.marker == f
    ensures Step(s, Released("a", true, true), s3) && Step(s3, Reconciled("b", true, true), s4)
    ensures ConfigAt(s3, f) == Some("") && Owner(s3, ref, "b") && s3.policies["b"].marker == f
    ensures Settled(s4, f, "b") && SoleMarker(s4, ref, f, "b")
  {
    hide ReconcileStep, ReleaseStep, Step;
    s3 := s.(policies := s.policies - {"a"}, configs := s.configs[f := ""]);
    ClearStep(s, "a", f);
    assert forall k :: Live(s3, k, ref) <==> k == "b";
    s4 := Applied(s3, "b", f, db);
    ApplyStep(s3, "b", f, db);
  }

  function Applied(s: State, k: string, f: string, doc: string): State
    requires k in s.policies
  {
    s.(configs := s.configs[f := doc], policies := s.policies[k := s.policies[k].(marker := f)])
  }

  lemma ApplyStep(s: State, k: string, f: string, doc: string)
    requires k in s.policies && CanApply(s, k, true) && s.buckets[s.policies[k].bucketRef] == f && s.policies[k].document == Some(doc)
    requires s.stale == {}
    ensures Step(s, Reconciled(k, true, true), Applied(s, k, f, doc))
  {
    assert s.(stale := s.stale - {f}) == s;
  }

  lemma ClearStep(s: State, k: string, f: string)
    requires k in s.policies && s.policies[k].deleting && s.policies[k].finalizer && !s.policies[k].retain
    requires s.policies[k].marker == f && f != "" && f in s.configs && s.stale == {}
    ensures Step(s, Released(k, true, true), s.(policies := s.policies - {k}, configs := s.configs[f := ""]))
  {
    assert s.(stale := s.stale - {f}) == s;
  }

  // ---------------------------------------------------------------- promotion

  /** Which policy a bucket's owner is changes only when a policy is added or marked
      for deletion, and then every other policy of the bucket is one of those the
      changed policy's watch enqueues. */
  lemma ChangedOwnerEnqueued(s: State, e: Event, t: State, ref: string, o: string, seen: Policy, y: string)
    requires WellKeyed(s) && Step(s, e, t) && Owner(s, ref, o) != Owner(t, ref, o)
    requires if e.key in t.policies then seen == t.policies[e.key] else e.key in s.policies && seen == s.policies[e.key]
    requires Live(t, y, ref) && y != e.key
    ensures e.Added? || e.Deleting?
    ensures y in t.policies && y != seen.name && t.policies[y].bucketRef == seen.bucketRef
  {
    StepFrame(s, e, t);
    if seen.bucketRef != ref || (!e.Added? && !e.Deleting?) {
      LiveUnchanged(s, e, t, ref);
      assert false;
    }
  }

  lemma LiveUnchanged(s: State, e: Event, t: State, ref: string)
    requires WellKeyed(s) && Step(s, e, t)
    requires (!e.Added? && !e.Deleting?) || (if e.key in t.policies then t.policies[e.key].bucketRef != ref else e.key in s.policies && s.policies[e.key].bucketRef != ref)
    ensures forall k :: Live(s, k, ref) <==> Live(t, k, ref)
    ensures forall o :: Owner(s, ref, o) <==> Owner(t, ref, o)
  {
    StepFrame(s, e, t);
    hide Owner;
    forall k ensures Live(s, k, ref) <==> Live(t, k, ref) {
    }
    hide ReconcileStep, ReleaseStep, Step;
    forall o ensures Owner(s, ref, o) <==> Owner(t, ref, o) { SameOwner(s, t, ref, o); }
  }

  lemma SameOwner(s: State, t: State, ref: string, o: string)
    requires WellKeyed(s) && WellKeyed(t)
    requires forall k :: Live(t, k, ref) ==> Live(s, k, ref)
    requires forall k :: Live(s, k, ref) ==> Live(t, k, ref) && SamePolicy(s.policies[k], t.policies[k])
    ensures Owner(s, ref, o) <==> Owner(t, ref, o)
  {
  }
}
