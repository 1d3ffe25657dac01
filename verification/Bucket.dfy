/** One Bucket resource against the filer: the reconcile pass as a cut execution
    of a plan of admin calls, and what survives between passes. */
module Bucket {
  import opened Text
  import opened Access
  import opened Quota

  datatype Versioning = Off | Enabled | Suspended

  datatype QuotaSpec = QuotaSpec(size: Quantity, enforce: bool)

  datatype UserGrant = UserGrant(user: string, actions: seq<string>)

  datatype Spec = Spec(adoptExisting: bool, objectLock: bool, versioning: Versioning, quota: Option<QuotaSpec>,
                       owner: string, access: seq<UserGrant>, anonymousRead: bool, placement: seq<string>,
                       deleteOnReclaim: bool)

  datatype Phase = Pending | Ready | Failed

  datatype QuotaStatus = QuotaStatus(sizeBytes: int, enforced: bool)

  datatype Status = Status(bucketName: string, objectLock: bool, versioning: Versioning, owner: string,
                           quota: Option<QuotaStatus>, phase: Phase)

  /** What the API server remembers of the resource between passes. */
  datatype Record = Record(status: Status, annotation: string, finalizer: bool)

  datatype FilerQuota = FilerQuota(sizeMiB: int, enforced: bool)

  datatype FilerBucket = FilerBucket(lock: bool, versioning: Versioning, quota: Option<FilerQuota>,
                                     owner: string, placement: seq<string>)

  /** The bucket on the filer, and each IAM user's actions on it. */
  datatype Filer = Filer(bucket: Option<FilerBucket>, grants: map<string, set<string>>)

  datatype World = World(filer: Filer, record: Record)

  function GrantsOf(f: Filer, user: string): set<string> {
    if user in f.grants then f.grants[user] else {}
  }

  // ---------------------------------------------------------------- calls

  datatype Call =
    | Create(owner: string, lock: bool)
    | EnableLock
    | SetVersioning(v: Versioning)
    | QuotaSize(sizeMiB: int)
    | QuotaEnforce(on: bool)
    | QuotaRemove
    | SetOwner(owner: string)
    | RemoveOwner
    | SetAccess(user: string, actions: string)
    | Remember(users: string)
    | Configure(args: seq<string>)

  /** The calls the filer refuses, whatever the network does. */
  predicate Blocked(c: Call, f: Filer) {
    match c
    case Create(_, _) => f.bucket.Some?
    case SetAccess(_, _) => false
    case Remember(_) => false
    case Configure(_) => false
    case SetVersioning(v) => f.bucket.None? || (v.Suspended? && f.bucket.value.lock)
    case _ => f.bucket.None?
  }

  /** The effect of an accepted call on the bucket itself. */
  function Touched(c: Call, b: FilerBucket): FilerBucket {
    match c
    case EnableLock => b.(lock := true, versioning := Enabled)
    case SetVersioning(v) => b.(versioning := v)
    case QuotaSize(n) => b.(quota := Some(FilerQuota(n, true)))
    case QuotaEnforce(on) => b.(quota := if b.quota.Some? then Some(b.quota.value.(enforced := on)) else None)
    case QuotaRemove => b.(quota := None)
    case SetOwner(o) => b.(owner := o)
    case RemoveOwner => b.(owner := "")
    case Configure(args) => b.(placement := args)
    case _ => b
  }

  function Fresh(owner: string, lock: bool): FilerBucket {
    FilerBucket(lock, if lock then Enabled else Off, None, owner, [])
  }

  function Apply(c: Call, w: World): World {
    if Blocked(c, w.filer) then w
    else
      match c
      case Create(o, l) => w.(filer := w.filer.(bucket := Some(Fresh(o, l))))
      case SetAccess(u, a) => w.(filer := w.filer.(grants := w.filer.grants[u := GrantSet(a)]))
      case Remember(t) => w.(record := w.record.(annotation := t))
      case _ => if w.filer.bucket.Some? then w.(filer := w.filer.(bucket := Some(Touched(c, w.filer.bucket.value)))) else w
  }

  function Exec(calls: seq<Call>, w: World): World {
    if calls == [] then w else Exec(calls[1..], Apply(calls[0], w))
  }

  lemma ExecFew(c: Call, d: Call, w: World)
    ensures Exec([c], w) == Apply(c, w) && Exec([c, d], w) == Apply(d, Apply(c, w))
  {
    var both := [c, d];
    assert [c][1..] == [] && [d][1..] == [] && both[1..] == [d];
    assert Exec(both, w) == Exec([d], Apply(c, w));
  }

  /** No call of the list is refused when the list is run from w. */
  predicate Accepted(calls: seq<Call>, w: World) {
    calls != [] ==> !Blocked(calls[0], w.filer) && Accepted(calls[1..], Apply(calls[0], w))
  }

  lemma {:induction false} AcceptedAppend(a: seq<Call>, b: seq<Call>, w: World)
    ensures Accepted(a + b, w) <==> Accepted(a, w) && Accepted(b, Exec(a, w))
  {
    if a == [] {
      assert a + b == b;
    } else {
      assert (a + b)[0] == a[0] && (a + b)[1..] == a[1..] + b;
      AcceptedAppend(a[1..], b, Apply(a[0], w));
    }
  }

  lemma {:induction false} ExecAppend(a: seq<Call>, b: seq<Call>, w: World)
    ensures Exec(a + b, w) == Exec(b, Exec(a, w))
  {
    if a == [] {
      assert a + b == b;
    } else {
      assert (a + b)[1..] == a[1..] + b;
      ExecAppend(a[1..], b, Apply(a[0], w));
    }
  }

  // ---------------------------------------------------------------- what the spec asks for

  /** The actions text wanted for each user; anonymousRead joins the same map. */
  function Wanted(access: seq<UserGrant>): map<string, string> {
    if access == [] then map[]
    else
      var g := access[|access| - 1];
      Wanted(access[..|access| - 1])[g.user := JoinActions(g.actions)]
  }

  const ANONYMOUS: string := "anonymous"

  ghost function Desired(spec: Spec): map<string, string> {
    var m := Wanted(spec.access);
    if spec.anonymousRead then m[ANONYMOUS := WithRead(if ANONYMOUS in m then m[ANONYMOUS] else "")] else m
  }

  method DesiredAccess(spec: Spec) returns (desired: map<string, string>)
    ensures desired == Desired(spec)
  {
    desired := map[];
    var i := 0;
    while i < |spec.access|
      invariant 0 <= i <= |spec.access| && desired == Wanted(spec.access[..i])
    {
      var g := spec.access[i];
      assert spec.access[..i + 1][..i] == spec.access[..i];
      desired := desired[g.user := JoinActions(g.actions)];
      i := i + 1;
    }
    assert spec.access[..i] == spec.access;
    if spec.anonymousRead {
      var merged := WithAnonymousRead(if ANONYMOUS in desired then desired[ANONYMOUS] else "");
      desired := desired[ANONYMOUS := merged];
    }
  }

  /** The actions the spec asks for: the last entry naming the user decides, and
      anonymousRead adds Read for the anonymous identity. */
  function Asked(spec: Spec, u: string): set<string> {
    Listed(spec.access, u) + if u == ANONYMOUS && spec.anonymousRead then {"Read"} else {}
  }

  function Listed(access: seq<UserGrant>, u: string): set<string> {
    if access == [] then {}
    else
      var g := access[|access| - 1];
      if g.user == u then set a | a in g.actions else Listed(access[..|access| - 1], u)
  }

  predicate Names(access: seq<UserGrant>, u: string) {
    exists i :: 0 <= i < |access| && access[i].user == u
  }

  /** Every listed action is an action name, as admission enforces. */
  predicate NamesActions(spec: Spec) { ActionNames(spec.access) }

  predicate ActionNames(access: seq<UserGrant>) {
    forall i :: 0 <= i < |access| ==> forall a :: a in access[i].actions ==> ActionName(a)
  }

  lemma {:induction false} WantedListed(access: seq<UserGrant>, u: string)
    requires ActionNames(access)
    ensures u in Wanted(access) <==> Names(access, u)
    ensures u in Wanted(access) ==> GrantSet(Wanted(access)[u]) == Denotes(Wanted(access)[u]) == Listed(access, u)
    ensures u !in Wanted(access) ==> Listed(access, u) == {}
  {
    if access != [] {
      var rest, g := access[..|access| - 1], access[|access| - 1];
      hide GrantSet, Denotes, JoinActions, ActionName;
      WantedListed(rest, u);
      JoinActionsGrant(g.actions);
      NamesStep(access, u);
    }
  }

  lemma NamesStep(access: seq<UserGrant>, u: string)
    requires access != []
    ensures Names(access, u) <==> Names(access[..|access| - 1], u) || access[|access| - 1].user == u
  {
    var rest := access[..|access| - 1];
    if Names(rest, u) {
      var i :| 0 <= i < |rest| && rest[i].user == u;
      assert access[i].user == u;
    }
    if Names(access, u) {
      var i :| 0 <= i < |access| && access[i].user == u;
      assert i < |rest| ==> rest[i].user == u;
    }
  }

  /** The desired map names exactly the listed users, and the anonymous identity under
      anonymousRead; applying a user's entry grants exactly the actions asked for. */
  lemma DesiredGrants(spec: Spec, u: string)
    requires NamesActions(spec)
    ensures u in Desired(spec) <==> Names(spec.access, u) || (u == ANONYMOUS && spec.anonymousRead)
    ensures (if u in Desired(spec) then GrantSet(Desired(spec)[u]) else {}) == Asked(spec, u)
  {
    WantedListed(spec.access, u);
    var m := Wanted(spec.access);
    WithReadGrants(if ANONYMOUS in m then m[ANONYMOUS] else "");
    DenotesNothing();
    hide GrantSet, Denotes, WithRead;
  }

  lemma DenotesNothing()
    ensures Denotes("") == {}
  {
    assert Split("", ',') == [""];
    assert Kept([""]) == Kept([""][1..]);
  }

  predicate QuotaValid(spec: Spec) { spec.quota.Some? ==> QuantityToMiB(spec.quota.value.size).Some? }

  function SizeMiB(spec: Spec): int
    requires QuotaValid(spec)
  {
    if spec.quota.Some? then QuantityToMiB(spec.quota.value.size).value else 0
  }

  function WantedQuota(spec: Spec): Option<FilerQuota>
    requires QuotaValid(spec)
  {
    if SizeMiB(spec) > 0 then Some(FilerQuota(SizeMiB(spec), spec.quota.value.enforce)) else None
  }

  /** The admission rule on specs: Object Lock requires versioning Enabled. */
  predicate Admitted(spec: Spec) { spec.objectLock ==> spec.versioning.Enabled? }

  /** The filer is exactly as the spec asks, for every user. */
  ghost predicate Holds(spec: Spec, f: Filer) {
    && QuotaValid(spec)
    && f.bucket.Some?
    && f.bucket.value.lock == spec.objectLock
    && f.bucket.value.versioning == spec.versioning
    && f.bucket.value.quota == WantedQuota(spec)
    && f.bucket.value.owner == spec.owner
    && forall u :: GrantsOf(f, u) == if u in Desired(spec) then GrantSet(Desired(spec)[u]) else {}
  }

  /** On such a filer every user holds exactly the actions the spec lists. */
  lemma HoldsAsked(spec: Spec, f: Filer)
    requires Holds(spec, f) && NamesActions(spec)
    ensures forall u :: GrantsOf(f, u) == Asked(spec, u)
  {
    hide Desired, GrantSet, Asked;
    forall u ensures GrantsOf(f, u) == Asked(spec, u) { DesiredGrants(spec, u); }
  }

  /** The quota a spec asks for, in bytes: the least whole number of MiB that covers the
      size, enforced as asked, on the filer and in the status; none without a size or
      above the 64-bit bound. */
  ghost predicate QuotaAsked(spec: Spec, quota: Option<FilerQuota>, recorded: Option<QuotaStatus>) {
    match spec.quota
    case None => quota.None? && recorded.None?
    case Some(q) =>
      && q.size.Bytes? && 0 <= q.size.n < TWO63
      && (q.size.n == 0 ==> quota.None? && recorded == Some(QuotaStatus(0, false)))
      && (q.size.n > TWO63 - MIB ==> quota.None?)
      && (0 < q.size.n <= TWO63 - MIB ==>
            && quota.Some? && LeastCover(quota.value.sizeMiB, q.size.n) && quota.value.enforced == q.enforce
            && recorded == Some(QuotaStatus(quota.value.sizeMiB * 1024 * 1024, q.enforce)))
  }

  lemma HoldsQuotaAsked(spec: Spec, name: string, f: Filer)
    requires Holds(spec, f)
    ensures QuotaAsked(spec, f.bucket.value.quota, FinalStatus(spec, name).quota)
  {
    if spec.quota.Some? && spec.quota.value.size.Bytes? {
      var n := spec.quota.value.size.n;
      if 0 <= n < TWO63 {
        QuantityExact(n);
        if n == 0 {
          NothingCovered();
        } else if n <= TWO63 - MIB {
          PositiveCover(SizeMiB(spec), n);
        }
      }
    }
    hide Desired;
  }

  lemma NothingCovered()
    ensures QuantityToMiB(Bytes(0)) == Some(0)
  {
  }

  lemma PositiveCover(r: int, n: int)
    requires LeastCover(r, n) && n > 0
    ensures r > 0
  {
  }

  /** The quota block read literally, call by call. */
  lemma QuotaCallsAsked(spec: Spec, st: Status)
    requires QuotaValid(spec)
    ensures spec.quota.None? ==> QuotaCalls(spec, st) == if st.quota.Some? then [QuotaRemove] else []
    ensures spec.quota.Some? && 0 < spec.quota.value.size.n <= TWO63 - MIB ==>
              exists m :: LeastCover(m, spec.quota.value.size.n) &&
                          QuotaCalls(spec, st) == [QuotaSize(m), QuotaEnforce(spec.quota.value.enforce)]
    ensures spec.quota.Some? && (spec.quota.value.size.n == 0 || spec.quota.value.size.n > TWO63 - MIB) ==>
              QuotaCalls(spec, st) == [QuotaRemove]
  {
    if spec.quota.Some? {
      var n := spec.quota.value.size.n;
      QuantityExact(n);
      NothingCovered();
      if 0 < n <= TWO63 - MIB { PositiveCover(SizeMiB(spec), n); }
    }
  }

  // ---------------------------------------------------------------- the plan of a pass

  function LockCalls(spec: Spec, st: Status): seq<Call> {
    if spec.objectLock && !st.objectLock then [EnableLock] else []
  }

  function VersioningCalls(spec: Spec): seq<Call> {
    if spec.versioning.Off? then [] else [SetVersioning(spec.versioning)]
  }

  function QuotaCalls(spec: Spec, st: Status): seq<Call>
    requires QuotaValid(spec)
  {
    if spec.quota.Some? then
      if SizeMiB(spec) <= 0 then [QuotaRemove] else [QuotaSize(SizeMiB(spec)), QuotaEnforce(spec.quota.value.enforce)]
    else if st.quota.Some? then [QuotaRemove] else []
  }

  function OwnerCalls(spec: Spec, st: Status): seq<Call> {
    if spec.owner != "" then if st.owner != spec.owner then [SetOwner(spec.owner)] else []
    else if st.owner != "" then [RemoveOwner] else []
  }

  function GrantCalls(order: seq<string>, desired: map<string, string>): seq<Call>
    requires forall u :: u in order ==> u in desired
  {
    if order == [] then []
    else GrantCalls(order[..|order| - 1], desired) + [SetAccess(order[|order| - 1], desired[order[|order| - 1]])]
  }

  function RevokeCalls(prev: seq<string>, desired: map<string, string>): seq<Call> {
    if prev == [] then []
    else
      var u := prev[|prev| - 1];
      RevokeCalls(prev[..|prev| - 1], desired) + if u in desired then [] else [SetAccess(u, "none")]
  }

  /** Grants for the desired users, then revocation of the recorded rest. */
  function AccessCalls(order: seq<string>, desired: map<string, string>, annotation: string): seq<Call>
    requires forall u :: u in order ==> u in desired
  {
    GrantCalls(order, desired) + RevokeCalls(ReadNames(annotation), desired)
  }

  ghost function RememberCalls(desired: map<string, string>, annotation: string): seq<Call> {
    if annotation == JoinedNames(desired.Keys) then [] else [Remember(JoinedNames(desired.Keys))]
  }

  function PlacementCalls(spec: Spec): seq<Call> {
    if spec.placement == [] then [] else [Configure(spec.placement)]
  }

  function CreateCalls(spec: Spec, f: Filer): seq<Call> {
    if f.bucket.Some? then [] else [Create(spec.owner, spec.objectLock)]
  }

  function BeforeQuota(spec: Spec, w: World): seq<Call> {
    CreateCalls(spec, w.filer) + (LockCalls(spec, w.record.status) + VersioningCalls(spec))
  }

  /** The aspects of the bucket itself, in dependency order. */
  function BucketCalls(spec: Spec, w: World): seq<Call>
    requires QuotaValid(spec)
  {
    BeforeQuota(spec, w) + QuotaCalls(spec, w.record.status) + OwnerCalls(spec, w.record.status)
  }

  /** The order in which the Go map of desired grants is walked. */
  ghost predicate IsOrder(order: seq<string>, desired: map<string, string>) {
    forall u :: u in order <==> u in desired
  }

  ghost function Plan(spec: Spec, w: World, order: seq<string>): seq<Call>
    requires QuotaValid(spec) && IsOrder(order, Desired(spec))
  {
    BucketCalls(spec, w) + AccessCalls(order, Desired(spec), w.record.annotation) +
    (RememberCalls(Desired(spec), w.record.annotation) + PlacementCalls(spec))
  }

  // ---------------------------------------------------------------- the pass

  /** Refused: an unclaimed bucket was left alone. Cut: a call failed and the
      failure was recorded in status. Unsaved: nothing could be recorded. */
  datatype Outcome = Refused | Cut | Unsaved | Done

  predicate Refuses(spec: Spec, w: World) {
    w.filer.bucket.Some? && w.record.status.bucketName == "" && !spec.adoptExisting
  }

  /** Another agent creates the missing bucket first. */
  predicate Races(w: World, rival: Option<FilerBucket>) { rival.Some? && w.filer.bucket.None? }

  function WithRival(w: World, b: FilerBucket): World { w.(filer := w.filer.(bucket := Some(b))) }

  function FinalStatus(spec: Spec, name: string): Status
    requires QuotaValid(spec)
  {
    Status(name, spec.objectLock, spec.versioning, spec.owner,
           if spec.quota.Some? then Some(QuotaStatus(SizeMiB(spec) * MIB, spec.quota.value.enforce && SizeMiB(spec) > 0)) else None,
           Ready)
  }

  predicate SuspendBlocked(spec: Spec, f: Filer) {
    spec.versioning.Suspended? && f.bucket.Some? && f.bucket.value.lock
  }

  /** What a pass without any failing call ends with. */
  function Expected(spec: Spec, w: World): Outcome {
    if Refuses(spec, w) then Refused
    else if !QuotaValid(spec) || SuspendBlocked(spec, w.filer) then Cut
    else Done
  }

  /** The status after a failure: the claim, if one was made, and the phase. */
  predicate FailedStatus(name: string, pre: Status, post: Status, claimed: bool) {
    post == pre.(bucketName := if claimed then name else pre.bucketName, phase := Failed)
  }

  /** Everything a pass may leave: the effects of `trace`, a beginning of the plan. */
  ghost predicate Pass(spec: Spec, name: string, pre: World, order: seq<string>, trace: seq<Call>, claimed: bool,
                       post: World, outcome: Outcome) {
    && IsOrder(order, Desired(spec))
    && Accepted(trace, pre)
    && post.filer == Exec(trace, pre).filer
    && post.record.annotation == Exec(trace, pre).record.annotation
    && post.record.finalizer == pre.record.finalizer
    && (QuotaValid(spec) ==> trace <= Plan(spec, pre, order))
    && (!QuotaValid(spec) ==> trace <= BeforeQuota(spec, pre))
    && (Refuses(spec, pre) ==> trace == [] && !claimed && outcome != Done)
    && (if claimed then post.filer.bucket.Some? else trace <= CreateCalls(spec, pre.filer))
    && (match outcome
        case Refused => trace == [] && !claimed && FailedStatus(name, pre.record.status, post.record.status, false)
        case Cut => FailedStatus(name, pre.record.status, post.record.status, claimed)
        case Unsaved => post.record.status == pre.record.status
        case Done => QuotaValid(spec) && claimed && trace == Plan(spec, pre, order) && post.record.status == FinalStatus(spec, name))
  }

  /** The cluster as the operator reaches it: the filer with its IAM store, the
      API server's copy of the resource, and the faults still to come. */
  class Cluster {
    var filer: Filer
    var record: Record
    var faults: seq<Fault>
    ghost var start: World
    ghost var trace: seq<Call>

    ghost function View(): World
      reads this
    {
      World(filer, record)
    }

    /** The effects so far are those of the trace, run from the start of the pass. */
    ghost predicate Consistent()
      reads this
    {
      Exec(trace, start) == View() && Accepted(trace, start)
    }

    constructor (w: World, faults: seq<Fault>)
      ensures View() == start == w && trace == [] && this.faults == faults && Consistent()
    {
      filer, record, this.faults := w.filer, w.record, faults;
      start, trace := w, [];
    }

    method NextFault() returns (f: Fault)
      modifies this`faults
      ensures AllOk(old(faults)) ==> f.Ok? && AllOk(faults)
    {
      f := FaultAt(faults, 0);
      if faults != [] { faults := faults[1..]; }
    }

    /** One admin or API call under the next fault. */
    method Do(c: Call) returns (ok: bool)
      requires Consistent()
      modifies this
      ensures Consistent() && start == old(start)
      ensures trace == old(trace) + [c] || (!ok && trace == old(trace))
      ensures ok ==> View() == Apply(c, old(View())) && !Blocked(c, old(filer))
      ensures View() == old(View()) || View() == Apply(c, old(View()))
      ensures !c.Remember? ==> record == old(record)
      ensures old(filer.bucket.Some?) ==> filer.bucket.Some?
      ensures record.status == old(record.status) && record.finalizer == old(record.finalizer)
      ensures AllOk(old(faults)) ==> AllOk(faults) && ok == !Blocked(c, old(filer))
    {
      var fault := NextFault();
      ok := fault.Ok? && !Blocked(c, filer);
      if !fault.Lost? && !Blocked(c, filer) {
        var w := Apply(c, World(filer, record));
        filer, record := w.filer, w.record;
        ExecAppend(trace, [c], start);
        AcceptedAppend(trace, [c], start);
        assert [c][1..] == [];
        trace := trace + [c];
      }
    }

    /** failPhase: record the claim and the phase; a lost write records nothing. */
    method FailPhase(name: string, claimed: bool) returns (outcome: Outcome)
      modifies this`record, this`faults
      ensures outcome.Cut? || outcome.Unsaved?
      ensures record.annotation == old(record.annotation) && record.finalizer == old(record.finalizer)
      ensures outcome.Cut? ==> FailedStatus(name, old(record.status), record.status, claimed)
      ensures outcome.Unsaved? ==> record.status == old(record.status)
      ensures AllOk(old(faults)) ==> outcome.Cut?
    {
      var fault := NextFault();
      if fault.Lost? { return Unsaved; }
      record := record.(status := record.status.(bucketName := if claimed then name else record.status.bucketName, phase := Failed));
      return Cut;
    }

    /** Object Lock, then versioning. */
    method ReconcileVersioning(spec: Spec) returns (ok: bool)
      requires Consistent() && filer.bucket.Some?
      modifies this
      ensures Consistent() && start == old(start) && record == old(record) && filer.bucket.Some?
      ensures trace <= old(trace) + (LockCalls(spec, record.status) + VersioningCalls(spec)) && old(trace) <= trace
      ensures ok ==> trace == old(trace) + (LockCalls(spec, record.status) + VersioningCalls(spec))
      ensures Admitted(spec) && AllOk(old(faults)) ==> AllOk(faults) && ok == !SuspendBlocked(spec, old(filer))
    {
      if spec.objectLock && !record.status.objectLock {
        ok := Do(EnableLock);
        if !ok { return; }
      }
      ok := true;
      if !spec.versioning.Off? {
        ok := Do(SetVersioning(spec.versioning));
      }
    }

    /** The quota block; a size that cannot be converted stops the pass here. */
    method ReconcileQuota(spec: Spec) returns (ok: bool)
      requires Consistent() && filer.bucket.Some?
      modifies this
      ensures Consistent() && start == old(start) && record == old(record) && filer.bucket.Some?
      ensures old(trace) <= trace
      ensures QuotaValid(spec) ==> trace <= old(trace) + QuotaCalls(spec, record.status)
      ensures QuotaValid(spec) && ok ==> trace == old(trace) + QuotaCalls(spec, record.status)
      ensures !QuotaValid(spec) ==> !ok && trace == old(trace)
      ensures AllOk(old(faults)) ==> AllOk(faults) && ok == QuotaValid(spec)
    {
      ok := true;
      if spec.quota.Some? {
        var size := QuantityToMiB(spec.quota.value.size);
        if size.None? { return false; }
        if size.value <= 0 {
          ok := Do(QuotaRemove);
        } else {
          ok := Do(QuotaSize(size.value));
          if !ok { return; }
          ok := Do(QuotaEnforce(spec.quota.value.enforce));
        }
      } else if record.status.quota.Some? {
        ok := Do(QuotaRemove);
      }
    }

    /** An empty owner with a recorded one means "remove". */
    method ReconcileOwner(spec: Spec) returns (ok: bool)
      requires Consistent() && filer.bucket.Some?
      modifies this
      ensures Consistent() && start == old(start) && record == old(record) && filer.bucket.Some?
      ensures trace <= old(trace) + OwnerCalls(spec, record.status) && old(trace) <= trace
      ensures ok ==> trace == old(trace) + OwnerCalls(spec, record.status)
      ensures AllOk(old(faults)) ==> AllOk(faults) && ok
    {
      ok := true;
      if spec.owner != "" {
        if record.status.owner != spec.owner {
          ok := Do(SetOwner(spec.owner));
        }
      } else if record.status.owner != "" {
        ok := Do(RemoveOwner);
      }
    }

    /** Set every desired grant, in whatever order the map yields its users. */
    method ReconcileGrants(desired: map<string, string>) returns (ok: bool, ghost order: seq<string>)
      requires Consistent() && filer.bucket.Some?
      modifies this
      ensures Consistent() && start == old(start) && record == old(record) && filer.bucket.Some?
      ensures IsOrder(order, desired)
      ensures trace <= old(trace) + GrantCalls(order, desired) && old(trace) <= trace
      ensures ok ==> trace == old(trace) + GrantCalls(order, desired)
      ensures AllOk(old(faults)) ==> AllOk(faults) && ok
    {
      hide Apply, Exec, Accepted, Cluster.Consistent, GrantSet, GrantCalls;
      order := [];
      GrantCallsNone(desired);
      var todo := desired.Keys;
      while todo != {}
        invariant todo <= desired.Keys && forall u :: u in order <==> u in desired.Keys - todo
        invariant Consistent() && start == old(start) && record == old(record) && filer.bucket.Some?
        invariant trace == old(trace) + GrantCalls(order, desired)
        invariant AllOk(old(faults)) ==> AllOk(faults)
      {
        var u :| u in todo;
        ok := Do(SetAccess(u, desired[u]));
        GrantCallsStep(order, u, desired);
        order := order + [u];
        todo := todo - {u};
        if !ok {
          order := CompleteOrder(order, todo, desired);
          return;
        }
      }
      ok := true;
    }

    /** Strip the recorded users the spec no longer names. */
    method RevokeGrants(prev: seq<string>, desired: map<string, string>) returns (ok: bool)
      requires Consistent() && filer.bucket.Some?
      modifies this
      ensures Consistent() && start == old(start) && record == old(record) && filer.bucket.Some?
      ensures trace <= old(trace) + RevokeCalls(prev, desired) && old(trace) <= trace
      ensures ok ==> trace == old(trace) + RevokeCalls(prev, desired)
      ensures AllOk(old(faults)) ==> AllOk(faults) && ok
    {
      hide Apply, Exec, Accepted, Cluster.Consistent, GrantSet;
      var i := 0;
      while i < |prev|
        invariant 0 <= i <= |prev|
        invariant Consistent() && start == old(start) && record == old(record) && filer.bucket.Some?
        invariant trace == old(trace) + RevokeCalls(prev[..i], desired)
        invariant AllOk(old(faults)) ==> AllOk(faults)
      {
        var u := prev[i];
        assert prev[..i + 1][..i] == prev[..i];
        i := i + 1;
        if u in desired { continue; }
        ok := Do(SetAccess(u, "none"));
        if !ok {
          RevokeCallsPrefix(prev, i, desired);
          return;
        }
      }
      assert prev[..i] == prev;
      ok := true;
    }

    /** The annotation (only when it changes), then placement. */
    method RememberUsers(desired: map<string, string>) returns (ok: bool)
      requires Consistent() && filer.bucket.Some?
      modifies this
      ensures Consistent() && start == old(start) && filer.bucket.Some?
      ensures record.status == old(record.status) && record.finalizer == old(record.finalizer)
      ensures trace <= old(trace) + RememberCalls(desired, old(record.annotation)) && old(trace) <= trace
      ensures ok ==> trace == old(trace) + RememberCalls(desired, old(record.annotation))
      ensures AllOk(old(faults)) ==> AllOk(faults) && ok
    {
      hide Exec, Accepted, Cluster.Consistent;
      var users := JoinSet(desired.Keys);
      ok := true;
      if record.annotation != users {
        ok := Do(Remember(users));
      }
    }

    method ReconcilePlacement(spec: Spec) returns (ok: bool)
      requires Consistent() && filer.bucket.Some?
      modifies this
      ensures Consistent() && start == old(start) && record == old(record) && filer.bucket.Some?
      ensures trace <= old(trace) + PlacementCalls(spec) && old(trace) <= trace
      ensures ok ==> trace == old(trace) + PlacementCalls(spec)
      ensures AllOk(old(faults)) ==> AllOk(faults) && ok
    {
      ok := true;
      if spec.placement != [] {
        ok := Do(Configure(spec.placement));
      }
    }

    /** Existence and ownership: create, adopt, or refuse. `rival` is the bucket another
        agent creates between the probe and the creation, if any. */
    method ClaimBucket(spec: Spec, rival: Option<FilerBucket>) returns (claimed: bool, refused: bool)
      requires Consistent() && trace == [] && start == View()
      modifies this
      ensures Consistent() && record == old(record)
      ensures start == old(start) || (Races(old(start), rival) && start == WithRival(old(start), rival.value))
      ensures trace <= CreateCalls(spec, start.filer)
      ensures claimed ==> !refused && trace == CreateCalls(spec, start.filer) && filer.bucket.Some?
      ensures Refuses(spec, start) ==> !claimed
      ensures refused ==> Refuses(spec, start) || (start != old(start) && !spec.adoptExisting)
      ensures !claimed && start.filer.bucket.Some? ==> trace == []
      ensures claimed && Admitted(spec) ==> (SuspendBlocked(spec, filer) <==> SuspendBlocked(spec, start.filer))
      ensures AllOk(old(faults)) ==> AllOk(faults) && claimed == !refused
      ensures AllOk(old(faults)) && !Races(old(start), rival) ==> start == old(start) && refused == Refuses(spec, start)
      ensures AllOk(old(faults)) && Races(old(start), rival) ==>
                start == WithRival(old(start), rival.value) && refused == !spec.adoptExisting
    {
      var probe := NextFault();
      if !probe.Ok? { return false, false; }
      if filer.bucket.Some? {
        refused := record.status.bucketName == "" && !spec.adoptExisting;
        return !refused, refused;
      }
      if rival.Some? {
        filer := filer.(bucket := rival);
        start := View();
        var answer := NextFault();
        if !answer.Ok? { return false, false; }
        return spec.adoptExisting, !spec.adoptExisting;
      }
      claimed := Do(Create(spec.owner, spec.objectLock));
      refused := false;
    }

    /** The aspects of the bucket itself. */
    method ReconcileAspects(spec: Spec) returns (ok: bool)
      requires Consistent() && filer.bucket.Some?
      requires trace == CreateCalls(spec, start.filer) && record == start.record
      modifies this
      ensures Consistent() && start == old(start) && record == old(record) && filer.bucket.Some?
      ensures QuotaValid(spec) ==> trace <= BucketCalls(spec, start)
      ensures QuotaValid(spec) && ok ==> trace == BucketCalls(spec, start)
      ensures !QuotaValid(spec) ==> !ok && trace <= BeforeQuota(spec, start)
      ensures Admitted(spec) && AllOk(old(faults)) ==>
                AllOk(faults) && ok == (QuotaValid(spec) && !SuspendBlocked(spec, old(filer)))
    {
      hide Exec, Apply, Accepted, Cluster.Consistent;
      ok := ReconcileVersioning(spec);
      if !ok { return; }
      ok := ReconcileQuota(spec);
      if !ok { return; }
      ok := ReconcileOwner(spec);
    }

    /** Grants and revocations. */
    method ReconcileAccess(desired: map<string, string>) returns (ok: bool, ghost order: seq<string>)
      requires Consistent() && filer.bucket.Some?
      modifies this
      ensures Consistent() && start == old(start) && record == old(record) && filer.bucket.Some?
      ensures IsOrder(order, desired)
      ensures trace <= old(trace) + AccessCalls(order, desired, record.annotation) && old(trace) <= trace
      ensures ok ==> trace == old(trace) + AccessCalls(order, desired, record.annotation)
      ensures AllOk(old(faults)) ==> AllOk(faults) && ok
    {
      hide Exec, Apply, Accepted, Cluster.Consistent, GrantCalls, RevokeCalls;
      ok, order := ReconcileGrants(desired);
      if !ok { return; }
      var prev := ReadAppliedAccess(record.annotation);
      ok := RevokeGrants(prev, desired);
    }

    /** One reconcile pass: existence, then every aspect, then the record. Losing the
        race for the creation makes it a pass over the world the rival left. */
    method ReconcileBucket(spec: Spec, name: string, rival: Option<FilerBucket>)
      returns (outcome: Outcome, ghost order: seq<string>, ghost claimed: bool)
      requires Consistent() && trace == [] && start == View()
      modifies this
      ensures start == old(start) || (Races(old(start), rival) && start == WithRival(old(start), rival.value))
      ensures Pass(spec, name, start, order, trace, claimed, View(), outcome)
      ensures Admitted(spec) && AllOk(old(faults)) ==>
                outcome == if Races(old(start), rival) && !spec.adoptExisting then Refused else Expected(spec, start)
    {
      hide GrantCalls, RevokeCalls, Desired, LockCalls, VersioningCalls, QuotaCalls, OwnerCalls, RememberCalls,
           PlacementCalls, Apply, Exec, Accepted, FinalStatus, QuotaValid;
      var desired := DesiredAccess(spec);
      order := SortedNames(desired.Keys);
      var ok, refused := ClaimBucket(spec, rival);
      claimed := ok;
      if !ok {
        CreatePrefix(spec, start, order, trace);
        outcome := FailPhase(name, false);
        if refused && outcome.Cut? { outcome := Refused; }
        return;
      }
      outcome, order := ReconcileClaimed(spec, name, desired);
    }

    /** The pass once the bucket is there and claimed. */
    method ReconcileClaimed(spec: Spec, name: string, desired: map<string, string>) returns (outcome: Outcome, ghost order: seq<string>)
      requires Consistent() && filer.bucket.Some? && desired == Desired(spec)
      requires trace == CreateCalls(spec, start.filer) && record == start.record && !Refuses(spec, start)
      modifies this
      ensures start == old(start) && Pass(spec, name, start, order, trace, true, View(), outcome)
      ensures Admitted(spec) && AllOk(old(faults)) ==>
                outcome == if QuotaValid(spec) && !SuspendBlocked(spec, old(filer)) then Done else Cut
    {
      hide GrantCalls, RevokeCalls, Desired, LockCalls, VersioningCalls, QuotaCalls, OwnerCalls, RememberCalls,
           PlacementCalls, Apply, Exec, Accepted, FinalStatus, QuotaValid;
      order := SortedNames(desired.Keys);
      var ok := ReconcileAspects(spec);
      if !ok {
        if QuotaValid(spec) { PlanPrefix(spec, start, order, trace, 0); }
        outcome := FailPhase(name, true);
        return;
      }
      ok, order := ReconcileAccess(desired);
      if !ok {
        PlanPrefix(spec, start, order, trace, 1);
        outcome := FailPhase(name, true);
        return;
      }
      ok := RememberUsers(desired);
      if !ok {
        PlanPrefix(spec, start, order, trace, 2);
        return Unsaved, order;
      }
      ok := ReconcilePlacement(spec);
      if !ok {
        PlanPrefix(spec, start, order, trace, 3);
        outcome := FailPhase(name, true);
        return;
      }
      PlanWhole(spec, start, order);
      var save := NextFault();
      if save.Lost? { return Unsaved, order; }
      record := record.(status := FinalStatus(spec, name));
      outcome := Done;
    }
  }

  lemma CreatePrefix(spec: Spec, w: World, order: seq<string>, t: seq<Call>)
    requires IsOrder(order, Desired(spec)) && t <= CreateCalls(spec, w.filer)
    ensures QuotaValid(spec) ==> t <= Plan(spec, w, order)
    ensures t <= BeforeQuota(spec, w)
  {
    hide Desired, GrantCalls, RevokeCalls, LockCalls, VersioningCalls, QuotaCalls, OwnerCalls, RememberCalls, PlacementCalls;
    if QuotaValid(spec) {
      assert t <= BucketCalls(spec, w);
      PlanPrefix(spec, w, order, t, 0);
    }
  }

  /** A beginning of the first n + 1 parts of a plan is a beginning of the plan. */
  lemma PlanPrefix(spec: Spec, w: World, order: seq<string>, t: seq<Call>, n: nat)
    requires QuotaValid(spec) && IsOrder(order, Desired(spec))
    requires n == 0 ==> t <= BucketCalls(spec, w)
    requires n == 1 ==> t <= BucketCalls(spec, w) + AccessCalls(order, Desired(spec), w.record.annotation)
    requires n == 2 ==> t <= BucketCalls(spec, w) + AccessCalls(order, Desired(spec), w.record.annotation) +
                             RememberCalls(Desired(spec), w.record.annotation)
    requires n == 3 ==> t <= BucketCalls(spec, w) + AccessCalls(order, Desired(spec), w.record.annotation) +
                             RememberCalls(Desired(spec), w.record.annotation) + PlacementCalls(spec)
    requires n <= 3
    ensures t <= Plan(spec, w, order)
  {
    hide Desired, AccessCalls, BucketCalls, RememberCalls, PlacementCalls;
    PlanWhole(spec, w, order);
  }

  lemma PlanWhole(spec: Spec, w: World, order: seq<string>)
    requires QuotaValid(spec) && IsOrder(order, Desired(spec))
    ensures BucketCalls(spec, w) + AccessCalls(order, Desired(spec), w.record.annotation) +
            RememberCalls(Desired(spec), w.record.annotation) + PlacementCalls(spec) == Plan(spec, w, order)
  {
    hide Desired, AccessCalls, BucketCalls, RememberCalls, PlacementCalls;
  }

  lemma {:induction false} GrantCallsPrefix(a: seq<string>, b: seq<string>, desired: map<string, string>)
    requires forall u :: u in a + b ==> u in desired
    ensures GrantCalls(a, desired) <= GrantCalls(a + b, desired)
  {
    if b == [] {
      assert a + b == a;
    } else {
      assert (a + b)[..|a + b| - 1] == a + b[..|b| - 1];
      GrantCallsPrefix(a, b[..|b| - 1], desired);
    }
  }

  lemma GrantCallsStep(order: seq<string>, u: string, desired: map<string, string>)
    requires u in desired && forall x :: x in order ==> x in desired
    ensures GrantCalls(order + [u], desired) == GrantCalls(order, desired) + [SetAccess(u, desired[u])]
  {
    assert (order + [u])[..|order|] == order;
  }

  lemma GrantCallsNone(desired: map<string, string>)
    ensures GrantCalls([], desired) == []
  {
  }

  lemma CompleteOrder(order: seq<string>, todo: set<string>, desired: map<string, string>) returns (full: seq<string>)
    requires todo <= desired.Keys && forall u :: u in order <==> u in desired.Keys - todo
    ensures IsOrder(full, desired) && GrantCalls(order, desired) <= GrantCalls(full, desired)
  {
    full := order + SortedNames(todo);
    GrantCallsPrefix(order, SortedNames(todo), desired);
  }

  lemma {:induction false} RevokeCallsPrefix(prev: seq<string>, n: nat, desired: map<string, string>)
    requires n <= |prev|
    ensures RevokeCalls(prev[..n], desired) <= RevokeCalls(prev, desired)
  {
    if n < |prev| {
      assert prev[..|prev| - 1][..n] == prev[..n];
      RevokeCallsPrefix(prev[..|prev| - 1], n, desired);
    } else {
      assert prev[..n] == prev;
    }
  }
}
