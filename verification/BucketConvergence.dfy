/** Convergence of the bucket reconciler: when one complete pass leaves the filer
    exactly as the spec asks, and why cut passes never spoil that. */
module BucketConvergence {
  import opened Text
  import opened Access
  import opened Quota
  import opened Bucket

  // ---------------------------------------------------------------- the condition

  /** What the recorded status must know about the bucket for the pass to act. */
  predicate PreparedBucket(spec: Spec, st: Status, b: FilerBucket) {
    && (if spec.objectLock then st.objectLock ==> b.lock else !b.lock)
    && (spec.versioning.Off? ==> b.versioning.Off?)
    && (spec.quota.None? ==> b.quota.None? || st.quota.Some?)
    && (if spec.owner != "" then st.owner == spec.owner ==> b.owner == spec.owner else b.owner != "" ==> st.owner != "")
  }

  /** Users with grants outside the spec are remembered in the annotation. */
  ghost predicate PreparedGrants(spec: Spec, w: World) {
    forall u :: GrantsOf(w.filer, u) != {} && u !in Desired(spec) ==> u in ReadNames(w.record.annotation)
  }

  ghost predicate Prepared(spec: Spec, w: World) {
    && (w.filer.bucket.Some? ==> PreparedBucket(spec, w.record.status, w.filer.bucket.value))
    && PreparedGrants(spec, w)
  }

  // ---------------------------------------------------------------- what a full plan computes

  function FinalBucket(spec: Spec, w: World): FilerBucket
    requires QuotaValid(spec)
  {
    var st := w.record.status;
    var b := if w.filer.bucket.Some? then w.filer.bucket.value else Fresh(spec.owner, spec.objectLock);
    FilerBucket(b.lock || (spec.objectLock && !st.objectLock),
                if spec.versioning.Off? then b.versioning else spec.versioning,
                if spec.quota.Some? then WantedQuota(spec) else if st.quota.Some? then None else b.quota,
                if spec.owner != "" then (if st.owner != spec.owner then spec.owner else b.owner)
                else if st.owner != "" then "" else b.owner,
                b.placement)
  }

  lemma BeforeQuotaFull(spec: Spec, w: World)
    requires Admitted(spec) && Accepted(BeforeQuota(spec, w), w)
    ensures var r := Exec(BeforeQuota(spec, w), w);
            var b := if w.filer.bucket.Some? then w.filer.bucket.value else Fresh(spec.owner, spec.objectLock);
            && r.record == w.record && r.filer.grants == w.filer.grants
            && r.filer.bucket == Some(b.(lock := b.lock || (spec.objectLock && !w.record.status.objectLock),
                                         versioning := if spec.versioning.Off? then b.versioning else spec.versioning))
  {
    var c, l, v := CreateCalls(spec, w.filer), LockCalls(spec, w.record.status), VersioningCalls(spec);
    ExecAppend(c, l + v, w);
    AcceptedAppend(c, l + v, w);
    var w1 := Exec(c, w);
    ExecAppend(l, v, w1);
    AcceptedAppend(l, v, w1);
    var w2 := Exec(l, w1);
    assert Exec(BeforeQuota(spec, w), w) == Exec(v, w2);
  }

  lemma BucketFull(spec: Spec, w: World)
    requires Admitted(spec) && QuotaValid(spec) && Accepted(BucketCalls(spec, w), w)
    ensures var r := Exec(BucketCalls(spec, w), w);
            r.record == w.record && r.filer.grants == w.filer.grants && r.filer.bucket == Some(FinalBucket(spec, w))
  {
    var a, q, o := BeforeQuota(spec, w), QuotaCalls(spec, w.record.status), OwnerCalls(spec, w.record.status);
    ExecAppend(a + q, o, w);
    AcceptedAppend(a + q, o, w);
    ExecAppend(a, q, w);
    AcceptedAppend(a, q, w);
    BeforeQuotaFull(spec, w);
    hide BeforeQuota;
    var w1 := Exec(a, w);
    QuotaFull(spec, w1);
    var w2 := Exec(q, w1);
    OwnerFull(spec, w2);
  }

  lemma QuotaFull(spec: Spec, w: World)
    requires QuotaValid(spec) && w.filer.bucket.Some?
    ensures var b := w.filer.bucket.value;
            Exec(QuotaCalls(spec, w.record.status), w) ==
            w.(filer := w.filer.(bucket := Some(b.(quota :=
              if spec.quota.Some? then WantedQuota(spec) else if w.record.status.quota.Some? then None else b.quota))))
  {
    var q := QuotaCalls(spec, w.record.status);
    hide QuantityToMiB, Exec;
    if |q| == 2 {
      ExecFew(q[0], q[1], w);
    } else if |q| == 1 {
      ExecFew(q[0], q[0], w);
    } else {
      ExecNone(w);
    }
  }

  lemma ExecNone(w: World)
    ensures Exec([], w) == w
  {
  }

  lemma OwnerFull(spec: Spec, w: World)
    requires w.filer.bucket.Some?
    ensures var b := w.filer.bucket.value;
            var st := w.record.status;
            Exec(OwnerCalls(spec, st), w) ==
            w.(filer := w.filer.(bucket := Some(b.(owner :=
              if spec.owner != "" then (if st.owner != spec.owner then spec.owner else b.owner)
              else if st.owner != "" then "" else b.owner))))
  {
  }

  /** Granting changes nothing but the grants, and leaves each listed user with
      exactly the wanted actions. */
  lemma {:induction false} GrantsFull(order: seq<string>, desired: map<string, string>, w: World)
    requires forall u :: u in order ==> u in desired
    ensures var r := Exec(GrantCalls(order, desired), w);
            && r.record == w.record && r.filer.bucket == w.filer.bucket
            && forall u :: GrantsOf(r.filer, u) == if u in order then GrantSet(desired[u]) else GrantsOf(w.filer, u)
  {
    if order != [] {
      var rest, u := order[..|order| - 1], order[|order| - 1];
      assert order == rest + [u];
      GrantsFull(rest, desired, w);
      ExecAppend(GrantCalls(rest, desired), [SetAccess(u, desired[u])], w);
      assert [SetAccess(u, desired[u])][1..] == [];
    }
  }

  /** Revoking strips exactly the remembered users the spec does not name. */
  lemma {:induction false} RevokesFull(prev: seq<string>, desired: map<string, string>, w: World)
    ensures var r := Exec(RevokeCalls(prev, desired), w);
            && r.record == w.record && r.filer.bucket == w.filer.bucket
            && forall u :: GrantsOf(r.filer, u) == if u in prev && u !in desired then {} else GrantsOf(w.filer, u)
  {
    if prev != [] {
      var rest, u := prev[..|prev| - 1], prev[|prev| - 1];
      assert prev == rest + [u];
      RevokesFull(rest, desired, w);
      var last := if u in desired then [] else [SetAccess(u, "none")];
      ExecAppend(RevokeCalls(rest, desired), last, w);
      assert IsNone("none");
      if u !in desired { assert last[1..] == []; }
    }
  }

  lemma RecordFull(spec: Spec, w: World, m: seq<Call>)
    requires m <= RememberCalls(Desired(spec), w.record.annotation) + PlacementCalls(spec)
    ensures var r := Exec(m, w);
            && r.filer.grants == w.filer.grants && r.record.status == w.record.status
            && r.filer.bucket.Some? == w.filer.bucket.Some?
            && (w.filer.bucket.Some? ==> r.filer.bucket.value.(placement := w.filer.bucket.value.placement) == w.filer.bucket.value)
            && (m == RememberCalls(Desired(spec), w.record.annotation) + PlacementCalls(spec) ==>
                  && r.record.annotation == JoinedNames(Desired(spec).Keys)
                  && (w.filer.bucket.Some? ==>
                        r.filer.bucket.value.placement ==
                        if spec.placement != [] then spec.placement else w.filer.bucket.value.placement))
  {
    ExecNone(w);
    hide Desired, GrantSet, Exec;
    if |m| == 2 {
      assert m == [m[0], m[1]];
      ExecFew(m[0], m[1], w);
    } else if |m| == 1 {
      assert m == [m[0]];
      ExecFew(m[0], m[0], w);
    } else {
      assert m == [];
    }
  }

  /** The grants each user holds after grants and revocations. */
  function FinalGrants(f: Filer, desired: map<string, string>, annotation: string, u: string): set<string> {
    if u in desired then GrantSet(desired[u])
    else if u in ReadNames(annotation) then {}
    else GrantsOf(f, u)
  }

  /** The state once the bucket and the grants are done. */
  lemma AccessFull(spec: Spec, w: World, order: seq<string>)
    requires Admitted(spec) && QuotaValid(spec) && IsOrder(order, Desired(spec))
    requires Accepted(BucketCalls(spec, w), w)
    ensures var r := Exec(BucketCalls(spec, w) + AccessCalls(order, Desired(spec), w.record.annotation), w);
            && r.record == w.record && r.filer.bucket == Some(FinalBucket(spec, w))
            && forall u :: GrantsOf(r.filer, u) == FinalGrants(w.filer, Desired(spec), w.record.annotation, u)
  {
    BucketFull(spec, w);
    hide Desired, BucketCalls, FinalBucket, GrantCalls, RevokeCalls, GrantSet;
    var d, prev := Desired(spec), ReadNames(w.record.annotation);
    var w1 := Exec(BucketCalls(spec, w), w);
    ExecAppend(BucketCalls(spec, w), AccessCalls(order, d, w.record.annotation), w);
    ExecAppend(GrantCalls(order, d), RevokeCalls(prev, d), w1);
    GrantsFull(order, d, w1);
    RevokesFull(prev, d, Exec(GrantCalls(order, d), w1));
  }

  // ---------------------------------------------------------------- exactness of one pass

  /** The final state of a completed pass, from any state whatever. */
  lemma DoneComputes(spec: Spec, name: string, pre: World, order: seq<string>, trace: seq<Call>, claimed: bool, post: World)
    requires Admitted(spec) && Pass(spec, name, pre, order, trace, claimed, post, Done)
    ensures post.filer.bucket.Some?
    ensures post.filer.bucket.value.(placement := []) == FinalBucket(spec, pre).(placement := [])
    ensures post.filer.bucket.value.placement ==
              if spec.placement != [] then spec.placement
              else if pre.filer.bucket.Some? then pre.filer.bucket.value.placement else []
    ensures forall u :: GrantsOf(post.filer, u) == FinalGrants(pre.filer, Desired(spec), pre.record.annotation, u)
    ensures post.record == Record(FinalStatus(spec, name), JoinedNames(Desired(spec).Keys), pre.record.finalizer)
  {
    var a := BucketCalls(spec, pre) + AccessCalls(order, Desired(spec), pre.record.annotation);
    var m := RememberCalls(Desired(spec), pre.record.annotation) + PlacementCalls(spec);
    hide Desired, FinalBucket, AccessCalls, BucketCalls, RememberCalls, PlacementCalls;
    assert trace == a + m;
    ExecAppend(a, m, pre);
    AcceptedAppend(a, m, pre);
    AcceptedAppend(BucketCalls(spec, pre), AccessCalls(order, Desired(spec), pre.record.annotation), pre);
    AccessFull(spec, pre, order);
    RecordFull(spec, Exec(a, pre), m);
    PlacementStays(spec, pre);
  }

  lemma PlacementStays(spec: Spec, w: World)
    requires QuotaValid(spec)
    ensures FinalBucket(spec, w).placement == if w.filer.bucket.Some? then w.filer.bucket.value.placement else []
  {
  }

  /** A completed pass leaves lock, versioning, quota, owner and every user's
      grants exactly as the spec asks if and only if the state was prepared. */
  lemma DoneExactly(spec: Spec, name: string, pre: World, order: seq<string>, trace: seq<Call>, claimed: bool, post: World)
    requires Admitted(spec) && Pass(spec, name, pre, order, trace, claimed, post, Done)
    ensures Holds(spec, post.filer) <==> Prepared(spec, pre)
    ensures Holds(spec, post.filer) ==> QuotaAsked(spec, post.filer.bucket.value.quota, post.record.status.quota)
  {
    DoneComputes(spec, name, pre, order, trace, claimed, post);
    if Holds(spec, post.filer) { HoldsQuotaAsked(spec, name, post.filer); }
    assert forall u :: GrantsOf(post.filer, u) == FinalGrants(pre.filer, Desired(spec), pre.record.annotation, u);
    hide Desired, Pass, GrantSet, QuotaAsked;
    assert (forall u :: GrantsOf(post.filer, u) == if u in Desired(spec) then GrantSet(Desired(spec)[u]) else {})
      <==> PreparedGrants(spec, pre);
  }

  // ---------------------------------------------------------------- cut passes

  /** The calls a spec can ever issue. */
  ghost predicate Suits(spec: Spec, c: Call) {
    match c
    case Create(o, l) => o == spec.owner && l == spec.objectLock
    case EnableLock => spec.objectLock
    case SetVersioning(v) => v == spec.versioning && !v.Off?
    case QuotaSize(_) => spec.quota.Some?
    case QuotaEnforce(_) => spec.quota.Some?
    case QuotaRemove => true
    case SetOwner(o) => o == spec.owner && o != ""
    case RemoveOwner => spec.owner == ""
    case SetAccess(u, a) => if u in Desired(spec) then a == Desired(spec)[u] else a == "none"
    case Remember(_) => false
    case Configure(_) => true
  }

  /** One such call keeps a prepared state prepared, and never touches the record. */
  lemma SuitsKeeps(spec: Spec, c: Call, w: World)
    requires Admitted(spec) && Suits(spec, c) && Prepared(spec, w)
    ensures Prepared(spec, Apply(c, w)) && Apply(c, w).record == w.record
  {
    hide Desired, ReadNames;
    if c.SetAccess? {
      assert IsNone("none");
      var r := Apply(c, w);
      forall u | GrantsOf(r.filer, u) != {} && u !in Desired(spec) ensures u in ReadNames(r.record.annotation) {
        assert u != c.user;
        assert GrantsOf(r.filer, u) == GrantsOf(w.filer, u);
      }
    } else {
      assert Apply(c, w).filer.grants == w.filer.grants;
    }
  }

  lemma {:induction false} SuitsKeepAll(spec: Spec, t: seq<Call>, w: World)
    requires Admitted(spec) && Prepared(spec, w) && forall c :: c in t ==> Suits(spec, c)
    ensures Prepared(spec, Exec(t, w)) && Exec(t, w).record == w.record
  {
    hide Prepared, Suits, Apply;
    if t != [] {
      SuitsKeeps(spec, t[0], w);
      SuitsKeepAll(spec, t[1..], Apply(t[0], w));
    }
  }

  lemma {:induction false} GrantsSuit(spec: Spec, order: seq<string>)
    requires forall u :: u in order ==> u in Desired(spec)
    ensures forall c :: c in GrantCalls(order, Desired(spec)) ==> Suits(spec, c)
  {
    hide Desired;
    if order != [] { GrantsSuit(spec, order[..|order| - 1]); }
  }

  lemma {:induction false} RevokesSuit(spec: Spec, prev: seq<string>)
    ensures forall c :: c in RevokeCalls(prev, Desired(spec)) ==> Suits(spec, c)
  {
    hide Desired;
    if prev != [] { RevokesSuit(spec, prev[..|prev| - 1]); }
  }

  lemma BeforeQuotaSuits(spec: Spec, w: World)
    ensures forall c :: c in BeforeQuota(spec, w) ==> Suits(spec, c)
    ensures QuotaValid(spec) ==> forall c :: c in BucketCalls(spec, w) ==> Suits(spec, c)
  {
    hide Desired;
  }

  /** Whatever its outcome, a pass leaves a prepared state prepared. */
  lemma PassKeepsPrepared(spec: Spec, name: string, pre: World, order: seq<string>, trace: seq<Call>, claimed: bool,
                          post: World, outcome: Outcome)
    requires Admitted(spec) && Prepared(spec, pre) && Pass(spec, name, pre, order, trace, claimed, post, outcome)
    ensures Prepared(spec, post)
  {
    if outcome.Done? {
      DoneExactly(spec, name, pre, order, trace, claimed, post);
      HoldsPrepared(spec, name, post);
    } else {
      BeforeQuotaSuits(spec, pre);
      if !QuotaValid(spec) {
        SuitsKeepAll(spec, trace, pre);
      } else {
        CutKeepsPrepared(spec, pre, order, trace);
      }
      StatusIrrelevant(spec, Exec(trace, pre), post);
    }
  }

  lemma HoldsPrepared(spec: Spec, name: string, w: World)
    requires Holds(spec, w.filer) && w.record.status == FinalStatus(spec, name)
    ensures Prepared(spec, w)
  {
  }

  lemma StatusIrrelevant(spec: Spec, a: World, b: World)
    requires Prepared(spec, a) && a.filer == b.filer && a.record.annotation == b.record.annotation
    requires b.record.status == a.record.status.(bucketName := b.record.status.bucketName, phase := b.record.status.phase)
    ensures Prepared(spec, b)
  {
    hide Desired;
  }

  lemma CutKeepsPrepared(spec: Spec, pre: World, order: seq<string>, trace: seq<Call>)
    requires Admitted(spec) && QuotaValid(spec) && Prepared(spec, pre)
    requires IsOrder(order, Desired(spec)) && trace <= Plan(spec, pre, order) && Accepted(trace, pre)
    ensures Prepared(spec, Exec(trace, pre)) && Exec(trace, pre).record.status == pre.record.status
  {
    var a := BucketCalls(spec, pre) + AccessCalls(order, Desired(spec), pre.record.annotation);
    var m := RememberCalls(Desired(spec), pre.record.annotation) + PlacementCalls(spec);
    GrantsSuit(spec, order);
    RevokesSuit(spec, ReadNames(pre.record.annotation));
    BeforeQuotaSuits(spec, pre);
    assert forall c :: c in a ==> Suits(spec, c);
    hide Desired, BucketCalls, AccessCalls, RememberCalls, PlacementCalls, Suits, PreparedBucket;
    if |trace| <= |a| {
      assert trace == a[..|trace|];
      SuitsKeepAll(spec, trace, pre);
    } else {
      var t := trace[|a|..];
      assert trace == a + t && t <= m;
      SuitsKeepAll(spec, a, pre);
      ExecAppend(a, t, pre);
      AcceptedAppend(a, t, pre);
      AcceptedAppend(BucketCalls(spec, pre), AccessCalls(order, Desired(spec), pre.record.annotation), pre);
      AccessFull(spec, pre, order);
      RecordFull(spec, Exec(a, pre), t);
      NobodyOutside(spec, pre, Exec(a, pre));
      StrippedPrepared(spec, Exec(a, pre), Exec(trace, pre));
    }
  }

  lemma NobodyOutside(spec: Spec, pre: World, a: World)
    requires PreparedGrants(spec, pre)
    requires forall u :: GrantsOf(a.filer, u) == FinalGrants(pre.filer, Desired(spec), pre.record.annotation, u)
    ensures forall u :: u !in Desired(spec) ==> GrantsOf(a.filer, u) == {}
  {
    hide Desired, ReadNames;
  }

  /** Once nobody outside the spec holds a grant, the annotation may change freely. */
  lemma StrippedPrepared(spec: Spec, a: World, b: World)
    requires Prepared(spec, a) && a.filer.bucket.Some? && b.filer.bucket.Some?
    requires forall u :: u !in Desired(spec) ==> GrantsOf(a.filer, u) == {}
    requires b.filer.grants == a.filer.grants && b.record.status == a.record.status
    requires b.filer.bucket.value.(placement := a.filer.bucket.value.placement) == a.filer.bucket.value
    ensures Prepared(spec, b)
  {
    hide Desired, ReadNames;
    assert forall u :: u !in Desired(spec) ==> GrantsOf(b.filer, u) == {};
  }

  // ---------------------------------------------------------------- stranding

  datatype PassLog = PassLog(order: seq<string>, trace: seq<Call>, claimed: bool, outcome: Outcome)

  ghost predicate Passes(spec: Spec, name: string, pre: World, l: PassLog, post: World) {
    Pass(spec, name, pre, l.order, l.trace, l.claimed, post, l.outcome)
  }

  /** The pass created the bucket of a resource without a claim and did not record the
      claim: nothing was saved, or the creation itself was answered by an error. */
  predicate Strands(spec: Spec, pre: World, l: PassLog) {
    && pre.record.status.bucketName == "" && !spec.adoptExisting && l.trace != []
    && (l.outcome.Unsaved? || (l.outcome.Cut? && !l.claimed))
  }

  /** After a pass of any outcome the resource refuses its bucket exactly when it
      refused before or this pass stranded it. */
  lemma StrandExactly(spec: Spec, name: string, pre: World, l: PassLog, post: World)
    requires name != "" && Passes(spec, name, pre, l, post)
    ensures Refuses(spec, post) <==> Refuses(spec, pre) || Strands(spec, pre, l)
  {
    hide Desired, GrantCalls, RevokeCalls, RememberCalls;
    if Refuses(spec, pre) {
      RefusedStays(spec, name, pre, l.order, l.trace, l.claimed, post, l.outcome);
    } else if pre.record.status.bucketName == "" && !spec.adoptExisting {
      if l.trace != [] {
        FirstCreates(spec, name, pre, l, post);
      } else {
        assert post.filer == pre.filer;
      }
    }
  }

  lemma FirstCreates(spec: Spec, name: string, pre: World, l: PassLog, post: World)
    requires pre.filer.bucket.None? && l.trace != [] && Passes(spec, name, pre, l, post)
    ensures l.trace[0] == Create(spec.owner, spec.objectLock) && post.filer.bucket.Some?
  {
    var c := Create(spec.owner, spec.objectLock);
    hide Desired, AccessCalls, RememberCalls, QuotaCalls, OwnerCalls, LockCalls, VersioningCalls;
    assert BeforeQuota(spec, pre)[0] == c;
    assert QuotaValid(spec) ==> Plan(spec, pre, l.order)[0] == c;
    ExecKeepsBucket(l.trace[1..], Apply(c, pre));
  }

  lemma {:induction false} ExecKeepsBucket(calls: seq<Call>, w: World)
    requires w.filer.bucket.Some?
    ensures Exec(calls, w).filer.bucket.Some?
  {
    if calls != [] {
      ExecKeepsBucket(calls[1..], Apply(calls[0], w));
    }
  }

  // ---------------------------------------------------------------- runs of passes

  /** Passes of one spec, completed or stopped anywhere, saved or not. */
  ghost predicate PassRun(spec: Spec, name: string, ws: seq<World>, logs: seq<PassLog>) {
    |ws| == |logs| + 1 && forall i :: 0 <= i < |logs| ==> Passes(spec, name, ws[i], logs[i], ws[i + 1])
  }

  lemma {:induction false} RunKeepsPrepared(spec: Spec, name: string, ws: seq<World>, logs: seq<PassLog>, n: nat)
    requires Admitted(spec) && PassRun(spec, name, ws, logs) && n < |ws| && Prepared(spec, ws[0])
    ensures Prepared(spec, ws[n])
  {
    hide Prepared, Pass;
    if n > 0 {
      RunKeepsPrepared(spec, name, ws, logs, n - 1);
      var l := logs[n - 1];
      assert Passes(spec, name, ws[n - 1], l, ws[n]);
      PassKeepsPrepared(spec, name, ws[n - 1], l.order, l.trace, l.claimed, ws[n], l.outcome);
    }
  }

  /** A run ends refused exactly when it began refused or some pass stranded it. */
  lemma {:induction false} RunRefuses(spec: Spec, name: string, ws: seq<World>, logs: seq<PassLog>, n: nat)
    requires name != "" && PassRun(spec, name, ws, logs) && n < |ws|
    ensures Refuses(spec, ws[n]) <==> Refuses(spec, ws[0]) || exists i :: 0 <= i < n && Strands(spec, ws[i], logs[i])
  {
    hide Refuses, Strands, Pass;
    if n > 0 {
      RunRefuses(spec, name, ws, logs, n - 1);
      assert Passes(spec, name, ws[n - 1], logs[n - 1], ws[n]);
      StrandExactly(spec, name, ws[n - 1], logs[n - 1], ws[n]);
    }
  }

  /** The status names the bucket and repeats the spec. */
  predicate Recorded(spec: Spec, name: string, st: Status) {
    && st.bucketName == name && st.objectLock == spec.objectLock && st.versioning == spec.versioning
    && st.owner == spec.owner && st.phase == Bucket.Ready
  }

  /** An existing bucket nobody recorded is refused exactly without adoption. */
  lemma RefusedWithoutAdoption(spec: Spec, w: World)
    ensures Expected(spec, w) == Refused <==> w.filer.bucket.Some? && w.record.status.bucketName == "" && !spec.adoptExisting
  {
  }

  /** After any number of passes cut at any call, one pass without a failing call
      completes if and only if the resource was not refused at first and no pass
      stranded it. Then the filer is exactly as the spec asks, every user holds
      exactly the listed actions, and the spec is recorded. */
  lemma Converges(spec: Spec, name: string, ws: seq<World>, logs: seq<PassLog>, last: PassLog, final: World)
    requires Admitted(spec) && QuotaValid(spec) && name != ""
    requires PassRun(spec, name, ws, logs) && Prepared(spec, ws[0])
    requires Passes(spec, name, ws[|logs|], last, final) && last.outcome == Expected(spec, ws[|logs|])
    ensures last.outcome.Done? <==> !Refuses(spec, ws[0]) && forall i :: 0 <= i < |logs| ==> !Strands(spec, ws[i], logs[i])
    ensures last.outcome.Done? ==> Holds(spec, final.filer) && Recorded(spec, name, final.record.status)
    ensures last.outcome.Done? ==> QuotaAsked(spec, final.filer.bucket.value.quota, final.record.status.quota)
    ensures last.outcome.Done? && spec.placement != [] ==> final.filer.bucket.value.placement == spec.placement
    ensures last.outcome.Done? && NamesActions(spec) ==> forall u :: GrantsOf(final.filer, u) == Asked(spec, u)
  {
    var w := ws[|logs|];
    RunKeepsPrepared(spec, name, ws, logs, |logs|);
    RunRefuses(spec, name, ws, logs, |logs|);
    NoSuspend(spec, w);
    hide Prepared, Refuses, Strands, Desired;
    if last.outcome.Done? {
      DoneExactly(spec, name, w, last.order, last.trace, last.claimed, final);
      DoneComputes(spec, name, w, last.order, last.trace, last.claimed, final);
      hide QuotaAsked;
      if NamesActions(spec) { HoldsAsked(spec, final.filer); }
    }
  }

  lemma NoSuspend(spec: Spec, w: World)
    requires Prepared(spec, w) && Admitted(spec)
    ensures !SuspendBlocked(spec, w.filer)
  {
  }

  // ---------------------------------------------------------------- agreement, edits, and leaks

  /** Filer and IAM agree with status and annotation. */
  ghost predicate Agrees(w: World) {
    && (w.filer.bucket.Some? ==>
          var b, st := w.filer.bucket.value, w.record.status;
          b.lock == st.objectLock && b.versioning == st.versioning && b.owner == st.owner &&
          (b.quota.Some? ==> st.quota.Some?))
    && forall u :: GrantsOf(w.filer, u) != {} ==> u in ReadNames(w.record.annotation)
  }

  /** From agreement every spec edit that admission allows is prepared. */
  lemma AgreementPrepares(spec: Spec, w: World)
    requires Agrees(w)
    requires w.record.status.objectLock ==> spec.objectLock
    requires spec.versioning.Off? ==> w.record.status.versioning.Off?
    ensures Prepared(spec, w)
  {
    hide Desired;
  }

  /** A completed pass from a prepared state restores agreement when every granted
      user has a name the annotation can carry. */
  lemma DoneAgrees(spec: Spec, name: string, pre: World, order: seq<string>, trace: seq<Call>, claimed: bool, post: World)
    requires Admitted(spec) && Prepared(spec, pre) && Pass(spec, name, pre, order, trace, claimed, post, Done)
    requires forall u :: u in Desired(spec) ==> CleanName(u)
    ensures Agrees(post)
  {
    DoneExactly(spec, name, pre, order, trace, claimed, post);
    DoneComputes(spec, name, pre, order, trace, claimed, post);
    AnnotationRoundTrip(Desired(spec).Keys);
    hide Desired, Pass, GrantSet;
    forall u | GrantsOf(post.filer, u) != {} ensures u in ReadNames(post.record.annotation) {
      assert u in Desired(spec).Keys;
    }
  }

  const PLAIN: Spec := Spec(false, false, Off, None, "", [], false, [], false)

  function SettledStatus(name: string): Status { Status(name, false, Off, "", None, Bucket.Ready) }

  /** An edit between a cut pass and its repetition can leave a grant behind: the
      user granted by the cut pass and dropped by the edit keeps the actions. */
  lemma EditAfterCutLeaks(name: string, user: string)
    returns (first: Spec, w0: World, w1: World, w2: World, l1: PassLog, l2: PassLog)
    requires name != ""
    ensures Agrees(w0) && !Refuses(first, w0) && Passes(first, name, w0, l1, w1) && l1.outcome.Cut?
    ensures !Strands(first, w0, l1)
    ensures Admitted(PLAIN) && Passes(PLAIN, name, w1, l2, w2) && l2.outcome.Done?
    ensures user !in Desired(PLAIN) && GrantsOf(w2.filer, user) != {}
  {
    first := PLAIN.(access := [UserGrant(user, ["Read"])]);
    w0 := World(Filer(Some(Fresh("", false)), map[]), Record(SettledStatus(name), "", true));
    l1, w1 := GrantThenCut(first, name, user, w0);
    l2, w2 := CompleteNothing(name, w1);
  }

  lemma GrantThenCut(spec: Spec, name: string, user: string, w: World) returns (l: PassLog, post: World)
    requires spec == PLAIN.(access := [UserGrant(user, ["Read"])]) && name != ""
    requires w == World(Filer(Some(Fresh("", false)), map[]), Record(SettledStatus(name), "", true))
    ensures Passes(spec, name, w, l, post) && l.outcome.Cut? && !Strands(spec, w, l) && GrantsOf(post.filer, user) != {}
    ensures post.filer.bucket == w.filer.bucket && post.record == w.record.(status := w.record.status.(phase := Failed))
  {
    hide GrantSet, JoinActions, Desired, Plan, Exec, Accepted;
    var call := SetAccess(user, JoinActions(["Read"]));
    post := Apply(call, w).(record := w.record.(status := w.record.status.(phase := Failed)));
    l := PassLog([user], [call], true, Cut);
    ReadIsGranted();
    GrantPlanned(spec, user, w);
    ExecFew(call, call, w);
    AcceptedOne(call, w);
  }

  lemma ReadIsGranted()
    ensures GrantSet(JoinActions(["Read"])) != {}
  {
    JoinActionsGrant(["Read"]);
    assert "Read" in GrantSet(JoinActions(["Read"]));
  }

  lemma GrantPlanned(spec: Spec, user: string, w: World)
    requires spec == PLAIN.(access := [UserGrant(user, ["Read"])])
    requires w.filer.bucket.Some? && w.record.annotation == "" && w.record.status.quota.None? && w.record.status.owner == ""
    ensures IsOrder([user], Desired(spec)) && [SetAccess(user, JoinActions(["Read"]))] <= Plan(spec, w, [user])
  {
    GrantOne(spec, user);
    hide JoinActions, Desired, ReadNames, AccessCalls, RememberCalls;
    assert BucketCalls(spec, w) == [];
  }

  lemma CompleteNothing(name: string, w: World) returns (l: PassLog, post: World)
    requires w.filer.bucket == Some(Fresh("", false)) && w.record == Record(SettledStatus(name).(phase := Failed), "", true)
    requires name != ""
    ensures Passes(PLAIN, name, w, l, post) && l.outcome.Done? && Desired(PLAIN) == map[]
    ensures post.filer == w.filer
  {
    post := w.(record := w.record.(status := FinalStatus(PLAIN, name)));
    l := PassLog([], [], true, Done);
    NothingWanted(PLAIN, w);
    ExecNone(w);
    NothingPlanned(w);
    hide Desired, ReadNames, AccessCalls, RememberCalls, Exec, Plan, BeforeQuota, CreateCalls, QuotaCalls, OwnerCalls;
  }

  lemma NothingPlanned(w: World)
    requires w.filer.bucket.Some? && w.record.annotation == "" && w.record.status.quota.None? && w.record.status.owner == ""
    requires Desired(PLAIN) == map[]
    ensures Plan(PLAIN, w, []) == []
  {
    NothingWanted(PLAIN, w);
    hide Desired, ReadNames, AccessCalls, RememberCalls;
    assert BucketCalls(PLAIN, w) == [];
  }

  lemma AcceptedOne(c: Call, w: World)
    requires !Blocked(c, w.filer)
    ensures Accepted([c], w)
  {
    assert [c][1..] == [];
  }

  lemma GrantOne(spec: Spec, user: string)
    requires spec.access == [UserGrant(user, ["Read"])] && !spec.anonymousRead
    ensures Desired(spec) == map[user := JoinActions(["Read"])]
    ensures AccessCalls([user], Desired(spec), "") == [SetAccess(user, JoinActions(["Read"]))]
  {
    hide JoinActions;
    assert spec.access[..0] == [] && Wanted([]) == map[];
    var d := Desired(spec);
    GrantCallsNone(d);
    GrantCallsStep([], user, d);
    assert [] + [user] == [user];
    assert RevokeCalls(ReadNames(""), d) == [];
  }

  lemma NothingWanted(spec: Spec, w: World)
    requires spec.access == [] && !spec.anonymousRead && w.record.annotation == ""
    ensures Desired(spec) == map[] && RememberCalls(Desired(spec), w.record.annotation) == []
    ensures AccessCalls([], Desired(spec), w.record.annotation) == []
  {
    assert Wanted([]) == map[];
    assert Desired(spec).Keys == {};
    SortedSetUnique(SortedNames({}), [], {});
    assert JoinedNames({}) == "";
    GrantCallsNone(Desired(spec));
    assert RevokeCalls(ReadNames(""), Desired(spec)) == [];
  }

  /** An unclaimed bucket stays untouched by every pass of a non-adopting resource,
      which therefore stays refused. */
  lemma RefusedStays(spec: Spec, name: string, pre: World, order: seq<string>, trace: seq<Call>, claimed: bool,
                     post: World, outcome: Outcome)
    requires Refuses(spec, pre) && Pass(spec, name, pre, order, trace, claimed, post, outcome)
    ensures trace == [] && post.filer == pre.filer && Refuses(spec, post)
  {
  }

  /** Two ways to be stranded: the creation took effect but was answered by an error,
      or it was claimed and nothing of the pass could be saved. Every later pass
      refuses the bucket this resource created. */
  lemma CreationStrands(name: string, claimed: bool) returns (pre: World, l: PassLog, post: World)
    requires name != ""
    ensures pre.filer.bucket.None? && !Refuses(PLAIN, pre) && Passes(PLAIN, name, pre, l, post)
    ensures l.claimed == claimed && l.outcome == (if claimed then Unsaved else Cut) && Strands(PLAIN, pre, l)
    ensures post.filer.bucket.Some? && Refuses(PLAIN, post) && Expected(PLAIN, post) == Refused
  {
    var call := Create("", false);
    var st := SettledStatus("").(phase := Pending);
    pre := World(Filer(None, map[]), Record(st, "", true));
    post := World(Filer(Some(Fresh("", false)), map[]), pre.record.(status := if claimed then st else st.(phase := Failed)));
    l := PassLog([], [call], claimed, if claimed then Unsaved else Cut);
    CreatePlanned(PLAIN, pre);
    hide Desired, AccessCalls, RememberCalls, Plan, Exec, Accepted;
  }

  /** A pass that only creates the bucket follows the plan of a spec without grants. */
  lemma CreatePlanned(spec: Spec, pre: World)
    requires spec == PLAIN.(deleteOnReclaim := spec.deleteOnReclaim) && pre.filer == Filer(None, map[])
    requires pre.record.annotation == "" && pre.record.status.quota.None? && pre.record.status.owner == ""
    ensures Desired(spec) == map[] && [Create("", false)] <= Plan(spec, pre, [])
    ensures Accepted([Create("", false)], pre)
    ensures Exec([Create("", false)], pre) == World(Filer(Some(Fresh("", false)), map[]), pre.record)
  {
    var call := Create("", false);
    NothingWanted(spec, pre);
    ExecFew(call, call, pre);
    AcceptedOne(call, pre);
    hide Desired, AccessCalls, RememberCalls, Exec, Accepted;
    assert BucketCalls(spec, pre) == [call];
  }
}
