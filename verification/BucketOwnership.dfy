/** Many Bucket resources over one filer: who may hold the ownership marker of a
    name, and who may delete the bucket. */
module BucketOwnership {
  import opened Text
  import opened Bucket
  import opened BucketConvergence

  // ---------------------------------------------------------------- deletion

  /** What a deletion pass may leave. `deleted` says the bucket removal took effect. */
  predicate Deletion(spec: Spec, name: string, pre: World, post: World, deleted: bool) {
    && (deleted ==> pre.record.finalizer && spec.deleteOnReclaim && pre.record.status.bucketName == name && pre.filer.bucket.Some?)
    && post.filer == (if deleted then pre.filer.(bucket := None) else pre.filer)
    && post.record == pre.record.(finalizer := post.record.finalizer)
    && (post.record.finalizer ==> pre.record.finalizer)
  }

  /** The guard of the deletion call. */
  predicate Issues(spec: Spec, name: string, record: Record) {
    record.finalizer && spec.deleteOnReclaim && record.status.bucketName == name
  }

  /** Honour the reclaim policy, then release the resource. Retained objects, an
      error, or a lost finalizer write keep the finalizer for another pass. `issued`
      says that DeleteBucket was called, `deleted` that it took effect. */
  method HandleDeletion(c: Cluster, spec: Spec, name: string, retention: bool) returns (issued: bool, deleted: bool)
    modifies c
    ensures Deletion(spec, name, old(c.View()), c.View(), deleted)
    ensures issued == Issues(spec, name, old(c.record))
    ensures deleted ==> issued
    ensures !issued && old(c.record.finalizer) ==> !spec.deleteOnReclaim || old(c.record.status.bucketName) != name
    ensures !spec.deleteOnReclaim || old(c.record.status.bucketName) != name ==> !issued && c.filer == old(c.filer)
    ensures AllOk(old(c.faults)) && !retention ==>
              !c.record.finalizer &&
              (old(c.record.finalizer) && spec.deleteOnReclaim && old(c.record.status.bucketName) == name ==> c.filer.bucket.None?)
  {
    issued, deleted := false, false;
    if !c.record.finalizer { return; }
    if spec.deleteOnReclaim && c.record.status.bucketName == name {
      issued := true;
      var fault := c.NextFault();
      if fault.Lost? { return; }
      if c.filer.bucket.Some? {
        if retention { return; }
        c.filer := c.filer.(bucket := None);
        deleted := true;
      }
      if !fault.Ok? { return; }
    }
    var save := c.NextFault();
    if save.Lost? { return; }
    c.record := c.record.(finalizer := false);
  }

  // ---------------------------------------------------------------- the state machine

  datatype Resource = Resource(name: string, spec: Spec, record: Record, deleting: bool)

  /** Live resources by identity, and the filer's view of each bucket name. */
  datatype State = State(resources: map<nat, Resource>, filers: map<string, Filer>)

  function FilerAt(s: State, name: string): Filer {
    if name in s.filers then s.filers[name] else Filer(None, map[])
  }

  function ViewOf(s: State, r: Resource): World { World(FilerAt(s, r.name), r.record) }

  const NEW_RECORD: Record := Record(Status("", false, Off, "", None, Bucket.Pending), "", false)

  datatype Event =
    | Added(id: nat)
    | Deleting(id: nat)
    | Edited(id: nat)
    | Protected(id: nat)
    | Reconciled(id: nat, log: PassLog)
    | Deleted(id: nat, deleted: bool)

  /** One event; everything it does not name stays as it was. */
  ghost predicate Step(s: State, e: Event, t: State) {
    match e
    case Added(id) =>
      && id !in s.resources && id in t.resources && t == State(s.resources[id := t.resources[id]], s.filers)
      && t.resources[id].record == NEW_RECORD && !t.resources[id].deleting && t.resources[id].name != ""
    case Deleting(id) =>
      && id in s.resources
      && (var r := s.resources[id];
          t == State(if r.record.finalizer then s.resources[id := r.(deleting := true)] else s.resources - {id}, s.filers))
    case Edited(id) =>
      && id in s.resources && id in t.resources
      && t == State(s.resources[id := s.resources[id].(spec := t.resources[id].spec)], s.filers)
    case Protected(id) =>
      && id in s.resources && !s.resources[id].deleting
      && t == State(s.resources[id := s.resources[id].(record := s.resources[id].record.(finalizer := true))], s.filers)
    case Reconciled(id, log) =>
      && id in s.resources && id in t.resources
      && (var r := s.resources[id];
          && !r.deleting && r.record.finalizer
          && t == State(s.resources[id := r.(record := t.resources[id].record)], s.filers[r.name := FilerAt(t, r.name)])
          && Passes(r.spec, r.name, ViewOf(s, r), log, ViewOf(t, t.resources[id])))
    case Deleted(id, deleted) =>
      && id in s.resources
      && (var r := s.resources[id];
          && r.deleting
          && exists post :: ReleasedTo(s, id, post, deleted, t))
  }

  predicate ReleasedTo(s: State, id: nat, post: World, deleted: bool, t: State)
    requires id in s.resources
  {
    var r := s.resources[id];
    && Deletion(r.spec, r.name, ViewOf(s, r), post, deleted)
    && t == State(if post.record.finalizer then s.resources[id := r.(record := post.record)] else s.resources - {id},
                  s.filers[r.name := post.filer])
  }

  ghost predicate Run(ss: seq<State>, es: seq<Event>) {
    |ss| == |es| + 1 && forall i :: 0 <= i < |es| ==> Step(ss[i], es[i], ss[i + 1])
  }

  predicate Holds(s: State, id: nat, name: string) {
    id in s.resources && s.resources[id].record.status.bucketName == name && name != ""
  }

  // ---------------------------------------------------------------- passes and the marker

  /** A pass never removes a bucket, and a marker it adds was earned: the bucket was
      missing and is now there, or the spec adopts. */
  lemma PassClaims(spec: Spec, name: string, pre: World, l: PassLog, post: World)
    requires Passes(spec, name, pre, l, post)
    requires pre.record.status.bucketName in {"", name}
    ensures pre.filer.bucket.Some? ==> post.filer.bucket.Some?
    ensures post.record.status.bucketName in {"", name}
    ensures post.record.status.bucketName != pre.record.status.bucketName ==>
              post.filer.bucket.Some? && (pre.filer.bucket.None? || spec.adoptExisting)
    ensures pre.record.status.bucketName != "" ==> post.record.status.bucketName == name
  {
    if pre.filer.bucket.Some? { ExecKeepsBucket(l.trace, pre); }
    hide Plan, BeforeQuota, Desired;
  }

  // ---------------------------------------------------------------- at most one holder

  ghost predicate Inv(s: State) {
    && (forall id :: id in s.resources ==> s.resources[id].name != "" && s.resources[id].record.status.bucketName in {"", s.resources[id].name})
    && (forall id, name :: Holds(s, id, name) ==> FilerAt(s, name).bucket.Some?)
    && (forall i, j, name :: Holds(s, i, name) && Holds(s, j, name) ==> i == j)
  }

  /** Somebody else holds the name of resource id. */
  ghost predicate Contested(s: State, id: nat) {
    id in s.resources && exists j :: j != id && Holds(s, j, s.resources[id].name)
  }

  /** A deletion that removed the bucket finished its finalizer write; a pass over a
      contested name did not record a claim. */
  ghost predicate KeepsOne(s: State, e: Event, t: State) {
    match e
    case Deleted(id, deleted) => deleted ==> id !in t.resources
    case Reconciled(id, log) => !(Contested(s, id) && log.claimed && !log.outcome.Unsaved?)
    case _ => true
  }

  /** A pass breaks the rule exactly when it records a claim on a contested name, which
      only a resource that adopts can do. */
  lemma ReconciledExact(s: State, e: Event, t: State)
    requires e.Reconciled? && Inv(s) && Step(s, e, t)
    ensures Inv(t) <==> KeepsOne(s, e, t)
    ensures !Inv(t) ==> s.resources[e.id].spec.adoptExisting && Contested(s, e.id)
  {
    if KeepsOne(s, e, t) {
      ReconciledKeeps(s, e, t);
    } else {
      ReconciledBreaks(s, e, t);
    }
    hide Inv, Step;
  }

  lemma ReconciledKeeps(s: State, e: Event, t: State)
    requires e.Reconciled? && Inv(s) && Step(s, e, t) && KeepsOne(s, e, t)
    ensures Inv(t)
  {
    hide Pass;
    var r := s.resources[e.id];
    PassClaims(r.spec, r.name, ViewOf(s, r), e.log, ViewOf(t, t.resources[e.id]));
    ClaimRecorded(r.spec, r.name, ViewOf(s, r), e.log, ViewOf(t, t.resources[e.id]));
    assert forall i, name :: i != e.id ==> (Holds(t, i, name) <==> Holds(s, i, name));
    forall i, name | Holds(t, i, name) ensures FilerAt(t, name).bucket.Some? {
      if i == e.id && r.record.status.bucketName == name { assert Holds(s, i, name); }
    }
    forall i, j, name | Holds(t, i, name) && Holds(t, j, name) ensures i == j {
      if Holds(s, e.id, r.name) { assert Holds(s, i, name) && Holds(s, j, name); }
    }
  }

  lemma ReconciledBreaks(s: State, e: Event, t: State)
    requires e.Reconciled? && Inv(s) && Step(s, e, t) && !KeepsOne(s, e, t)
    ensures !Inv(t) && s.resources[e.id].spec.adoptExisting && Contested(s, e.id)
  {
    hide Pass;
    var r := s.resources[e.id];
    ClaimRecorded(r.spec, r.name, ViewOf(s, r), e.log, ViewOf(t, t.resources[e.id]));
    var j :| j != e.id && Holds(s, j, r.name);
    assert !Holds(s, e.id, r.name) && FilerAt(s, r.name).bucket.Some?;
    assert Holds(t, j, r.name) && Holds(t, e.id, r.name);
  }

  /** The marker after a pass: recorded exactly when the claim was made and saved, and
      never by a resource that refuses. */
  lemma ClaimRecorded(spec: Spec, name: string, pre: World, l: PassLog, post: World)
    requires Passes(spec, name, pre, l, post) && pre.record.status.bucketName in {"", name} && name != ""
    ensures post.record.status.bucketName == name <==>
              pre.record.status.bucketName == name || (l.claimed && !l.outcome.Unsaved?)
    ensures l.claimed ==> !Refuses(spec, pre)
  {
    hide Plan, BeforeQuota, Desired, Exec, Accepted;
  }

  lemma DeletedExact(s: State, e: Event, t: State)
    requires e.Deleted? && Inv(s) && Step(s, e, t)
    ensures Inv(t) <==> KeepsOne(s, e, t)
  {
    hide Pass;
    var r := s.resources[e.id];
    var post :| ReleasedTo(s, e.id, post, e.deleted, t);
    assert forall i, name :: Holds(t, i, name) ==> Holds(s, i, name);
    if e.deleted {
      assert Holds(s, e.id, r.name);
      if e.id in t.resources { assert Holds(t, e.id, r.name) && FilerAt(t, r.name).bucket.None?; }
    }
  }

  /** An event keeps "one holder per name, and the bucket exists while held" exactly
      when it is neither a deletion that lost its finalizer write nor a pass that
      recorded a claim on a contested name. */
  lemma StepExact(s: State, e: Event, t: State)
    requires Inv(s) && Step(s, e, t)
    ensures Inv(t) <==> KeepsOne(s, e, t)
  {
    hide Pass, Step, Inv;
    if e.Reconciled? {
      ReconciledExact(s, e, t);
    } else if e.Deleted? {
      DeletedExact(s, e, t);
    } else {
      QuietExact(s, e, t);
    }
  }

  lemma QuietExact(s: State, e: Event, t: State)
    requires !e.Reconciled? && !e.Deleted? && Inv(s) && Step(s, e, t)
    ensures Inv(t)
  {
    assert forall i, name :: Holds(t, i, name) ==> Holds(s, i, name);
  }

  /** The reconciled resource does not adopt, or nobody else holds its name; a deletion
      that removed the bucket finished its finalizer write. */
  ghost predicate Disciplined(s: State, e: Event, t: State) {
    && (e.Reconciled? && e.id in s.resources && s.resources[e.id].spec.adoptExisting ==> !Contested(s, e.id))
    && (e.Deleted? && e.deleted ==> e.id !in t.resources)
  }

  lemma StepKeepsInv(s: State, e: Event, t: State)
    requires Inv(s) && Step(s, e, t) && Disciplined(s, e, t)
    ensures Inv(t)
  {
    StepExact(s, e, t);
    if e.Reconciled? { ReconciledExact(s, e, t); }
    hide Pass, Inv;
  }

  /** In every reachable state at most one resource holds a name, and the bucket
      exists as long as it is held. */
  lemma {:induction false} OneHolder(ss: seq<State>, es: seq<Event>, n: nat)
    requires Run(ss, es) && n < |ss| && Inv(ss[0])
    requires forall i :: 0 <= i < |es| ==> Disciplined(ss[i], es[i], ss[i + 1])
    ensures Inv(ss[n])
  {
    if n > 0 {
      OneHolder(ss, es, n - 1);
      StepKeepsInv(ss[n - 1], es[n - 1], ss[n]);
    }
  }

  /** Over any run, adopting or not: the first n events keep one holder throughout
      exactly when each of them does. */
  lemma {:induction false} OneHolderExact(ss: seq<State>, es: seq<Event>, n: nat)
    requires Run(ss, es) && n < |ss| && Inv(ss[0])
    ensures (forall i :: 0 <= i <= n ==> Inv(ss[i])) <==> (forall i :: 0 <= i < n ==> KeepsOne(ss[i], es[i], ss[i + 1]))
  {
    hide Inv, KeepsOne, Step;
    if n > 0 {
      OneHolderExact(ss, es, n - 1);
      if Inv(ss[n - 1]) { StepExact(ss[n - 1], es[n - 1], ss[n]); }
    }
  }

  // ---------------------------------------------------------------- earned deletions

  predicate WellNamed(s: State) {
    forall id :: id in s.resources ==> s.resources[id].record.status.bucketName in {"", s.resources[id].name}
  }

  /** The event in which a resource came to hold its name: its own pass, creating
      the missing bucket or adopting. */
  ghost predicate Earned(s: State, e: Event, t: State, id: nat, name: string) {
    && e.Reconciled? && e.id == id && id in s.resources && s.resources[id].name == name
    && FilerAt(t, name).bucket.Some?
    && (FilerAt(s, name).bucket.None? || s.resources[id].spec.adoptExisting)
  }

  lemma StepEarns(s: State, e: Event, t: State, id: nat, name: string)
    requires WellNamed(s) && Step(s, e, t)
    ensures WellNamed(t)
    ensures !Holds(s, id, name) && Holds(t, id, name) ==> Earned(s, e, t, id, name)
  {
    hide Pass;
    if e.Reconciled? {
      var r := s.resources[e.id];
      PassClaims(r.spec, r.name, ViewOf(s, r), e.log, ViewOf(t, t.resources[e.id]));
    }
  }

  lemma {:induction false} HoldingWasEarned(ss: seq<State>, es: seq<Event>, n: nat, id: nat, name: string)
    returns (k: nat)
    requires Run(ss, es) && n < |ss| && WellNamed(ss[0])
    requires !Holds(ss[0], id, name) && Holds(ss[n], id, name)
    ensures k < n && WellNamed(ss[k]) && Earned(ss[k], es[k], ss[k + 1], id, name)
  {
    NamesStay(ss, es, n - 1);
    StepEarns(ss[n - 1], es[n - 1], ss[n], id, name);
    if Holds(ss[n - 1], id, name) {
      k := HoldingWasEarned(ss, es, n - 1, id, name);
    } else {
      k := n - 1;
    }
  }

  lemma {:induction false} NamesStay(ss: seq<State>, es: seq<Event>, n: nat)
    requires Run(ss, es) && n < |ss| && WellNamed(ss[0])
    ensures WellNamed(ss[n])
  {
    if n > 0 {
      NamesStay(ss, es, n - 1);
      StepEarns(ss[n - 1], es[n - 1], ss[n], 0, "");
    }
  }

  /** In any run, adopting or not, a deletion pass calls DeleteBucket only if the same
      resource created or adopted that bucket earlier in the run. */
  lemma DeletionWasEarned(ss: seq<State>, es: seq<Event>, n: nat) returns (k: nat)
    requires Run(ss, es) && n < |es| && ss[0].resources == map[]
    requires es[n].Deleted? && es[n].id in ss[n].resources
    requires var r := ss[n].resources[es[n].id]; Issues(r.spec, r.name, r.record)
    ensures k < n && Earned(ss[k], es[k], ss[k + 1], es[n].id, ss[n].resources[es[n].id].name)
  {
    var id := es[n].id;
    var r := ss[n].resources[id];
    NamesNonEmpty(ss, es, n);
    k := HoldingWasEarned(ss, es, n, id, r.name);
  }

  /** And a bucket is removed only by such a call. */
  lemma RemovalIsIssued(s: State, e: Event, t: State)
    requires Step(s, e, t) && e.Deleted? && e.deleted
    ensures e.id in s.resources && Issues(s.resources[e.id].spec, s.resources[e.id].name, s.resources[e.id].record)
  {
    var post :| ReleasedTo(s, e.id, post, e.deleted, t);
  }

  lemma {:induction false} NamesNonEmpty(ss: seq<State>, es: seq<Event>, n: nat)
    requires Run(ss, es) && n < |ss| && ss[0].resources == map[]
    ensures forall id :: id in ss[n].resources ==> ss[n].resources[id].name != ""
  {
    hide Pass;
    if n > 0 {
      NamesNonEmpty(ss, es, n - 1);
      assert Step(ss[n - 1], es[n - 1], ss[n]);
    }
  }

  // ---------------------------------------------------------------- why the finalizer write matters

  /** If the finalizer write after a deletion is lost, another resource can create
      the bucket anew, both hold the name, and the retry deletes a bucket its
      deleter did not create: the second holder is left without one. */
  lemma CutReleaseDeletesForeign(name: string) returns (ss: seq<State>, es: seq<Event>)
    requires name != ""
    ensures Run(ss, es) && |es| == 3 && Inv(ss[0])
    ensures forall i, id :: 0 <= i < |ss| && id in ss[i].resources ==> !ss[i].resources[id].spec.adoptExisting
    ensures es[0] == Deleted(1, true) && es[1].Reconciled? && es[1].id == 2 && es[2] == Deleted(1, true)
    ensures Holds(ss[2], 1, name) && Holds(ss[2], 2, name)
    ensures Holds(ss[3], 2, name) && FilerAt(ss[3], name).bucket.None?
  {
    hide Pass, Step;
    var spec := PLAIN.(deleteOnReclaim := true);
    var a := Resource(name, spec, Record(SettledStatus(name), "", true), true);
    var b := Resource(name, spec, NEW_RECORD.(finalizer := true), false);
    var b' := b.(record := b.record.(status := b.record.status.(bucketName := name, phase := Failed)));
    var here := Filer(Some(Fresh("", false)), map[]);
    var s0 := State(map[1 := a, 2 := b], map[name := here]);
    var s2 := State(map[1 := a, 2 := b'], map[name := here]);
    var s1, s3 := Emptied(s0, name), Emptied(s2, name);
    DeleteKeepsFinalizer(s0, 1);
    DeleteKeepsFinalizer(s2, 1);
    CreatePlanned(spec, ViewOf(s1, b));
    var e1 := Reconciled(2, PassLog([], [Create("", false)], true, Cut));
    CreateStep(s1, 2, s2);
    ss, es := [s0, s1, s2, s3], [Deleted(1, true), e1, Deleted(1, true)];
  }

  function Emptied(s: State, name: string): State {
    s.(filers := s.filers[name := Filer(None, FilerAt(s, name).grants)])
  }

  lemma DeleteKeepsFinalizer(s: State, id: nat)
    requires id in s.resources
    requires var r := s.resources[id];
             r.deleting && r.record.finalizer && r.spec.deleteOnReclaim && r.record.status.bucketName == r.name &&
             FilerAt(s, r.name).bucket.Some?
    ensures Step(s, Deleted(id, true), Emptied(s, s.resources[id].name))
  {
    var r := s.resources[id];
    assert s.resources[id := r.(record := r.record)] == s.resources;
    assert ReleasedTo(s, id, World(FilerAt(Emptied(s, r.name), r.name), r.record), true, Emptied(s, r.name));
  }

  lemma CreateStep(s: State, id: nat, t: State)
    requires id in s.resources && FilerAt(s, s.resources[id].name) == Filer(None, map[]) && s.resources[id].name != ""
    requires var r := s.resources[id];
             r.spec == PLAIN.(deleteOnReclaim := true) && !r.deleting && r.record == NEW_RECORD.(finalizer := true)
    requires var r := s.resources[id];
             t == State(s.resources[id := r.(record := r.record.(status := r.record.status.(bucketName := r.name, phase := Failed)))],
                        s.filers[r.name := Filer(Some(Fresh("", false)), map[])])
    ensures Step(s, Reconciled(id, PassLog([], [Create("", false)], true, Cut)), t)
  {
    var r := s.resources[id];
    CreatePlanned(r.spec, ViewOf(s, r));
    hide Desired, Plan, Exec, Accepted;
  }
}
