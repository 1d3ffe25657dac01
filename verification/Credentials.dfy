/** One S3Credentials resource: an access key on an IAM user, mirrored into a
    Secret, rotated and revoked across passes that may stop at any call. */
module Credentials {
  import opened Text

  datatype Pair = Pair(ak: string, sk: string)

  /** The Secret's two fields; `managed` marks one the operator created, `owned`
      one the garbage collector removes with the resource. */
  datatype SecretData = SecretData(pair: Pair, managed: bool, owned: bool)

  datatype Status = Status(accessKey: string, identityName: string)

  /** IAM users with their keys, the Secret, and the API server's copy of the resource. */
  datatype World = World(users: map<string, map<string, string>>, secret: Option<SecretData>, status: Status, finalizer: bool)

  /** What a pass reads from the spec and its surroundings: the referenced name, the
      user it resolves to (None when the lookup fails), whether the Secret lies in
      another namespace and a grant permits that, and a newly generated pair. */
  datatype Request = Request(refName: string, resolved: Option<string>, cross: bool, granted: bool, minted: Pair)

  function Keys(w: World, user: string): map<string, string> {
    if user in w.users then w.users[user] else map[]
  }

  predicate Registered(w: World, user: string, p: Pair) {
    p.ak in Keys(w, user) && Keys(w, user)[p.ak] == p.sk
  }

  predicate Populated(w: World) {
    w.secret.Some? && w.secret.value.pair.ak != "" && w.secret.value.pair.sk != ""
  }

  // ---------------------------------------------------------------- calls

  datatype Call =
    | Register(user: string, pair: Pair)
    | Rewrite(user: string, pair: Pair)
    | Mirror(pair: Pair)
    | Revoke(user: string, ak: string)
    | Record(ak: string, user: string)
    | DropSecret
    | Disown
    | Release

  function Apply(c: Call, w: World): World {
    match c
    case Register(u, p) => w.(users := w.users[u := Keys(w, u)[p.ak := p.sk]])
    case Rewrite(u, p) => w.(users := w.users[u := Keys(w, u)[p.ak := p.sk]])
    case Mirror(p) =>
      w.(secret := Some(if w.secret.Some? then w.secret.value.(pair := p) else SecretData(p, true, true)))
    case Revoke(u, ak) => if u in w.users then w.(users := w.users[u := w.users[u] - {ak}]) else w
    case Record(ak, u) => w.(status := Status(ak, u))
    case DropSecret => w.(secret := None)
    case Disown => w.(secret := if w.secret.Some? then Some(w.secret.value.(owned := false)) else None)
    case Release => w.(finalizer := false)
  }

  function Exec(calls: seq<Call>, w: World): World {
    if calls == [] then w else Apply(calls[|calls| - 1], Exec(calls[..|calls| - 1], w))
  }

  lemma ExecSnoc(calls: seq<Call>, c: Call, w: World)
    ensures Exec(calls + [c], w) == Apply(c, Exec(calls, w))
  {
    assert (calls + [c])[..|calls|] == calls;
  }

  // ---------------------------------------------------------------- the plan of a pass

  /** Once provisioned, the resource is pinned to the user it was provisioned for. */
  function UserOf(w: World, req: Request): Option<string> {
    if w.status.identityName != "" then Some(w.status.identityName)
    else if w.status.accessKey != "" then Some(req.refName)
    else req.resolved
  }

  predicate Ready(w: World, req: Request) {
    && w.finalizer
    && UserOf(w, req).Some? && UserOf(w, req).value in w.users
    && (req.cross ==> req.granted && w.secret.Some?)
  }

  /** The Secret's pair, or the generated one when it holds none. */
  function Wanted(w: World, req: Request): Pair {
    if Populated(w) then w.secret.value.pair else req.minted
  }

  function KeyCalls(w: World, user: string, p: Pair): seq<Call> {
    if p.ak !in Keys(w, user) then [Register(user, p)]
    else if Keys(w, user)[p.ak] != p.sk then [Rewrite(user, p)]
    else []
  }

  function MirrorCalls(w: World, p: Pair): seq<Call> {
    if w.secret.Some? && w.secret.value.pair == p then [] else [Mirror(p)]
  }

  function RevokeCalls(w: World, user: string, p: Pair): seq<Call> {
    if w.status.accessKey != "" && w.status.accessKey != p.ak then [Revoke(user, w.status.accessKey)] else []
  }

  /** Register or rewrite, mirror, revoke the superseded key, record. */
  function Plan(w: World, req: Request): seq<Call>
    requires Ready(w, req)
  {
    var u, p := UserOf(w, req).value, Wanted(w, req);
    KeyCalls(w, u, p) + MirrorCalls(w, p) + RevokeCalls(w, u, p) + [Record(p.ak, u)]
  }

  /** Everything a pass may leave behind: the effects of a beginning of its plan. */
  predicate Pass(req: Request, pre: World, trace: seq<Call>, post: World, done: bool) {
    if Ready(pre, req) then
      trace <= Plan(pre, req) && post == Exec(trace, pre) && (done ==> trace == Plan(pre, req))
    else
      trace == [] && !done && (post == pre || post == pre.(finalizer := true))
  }

  function RevokeRecorded(w: World, user: string, retain: bool): seq<Call> {
    if !retain && w.status.accessKey != "" then [Revoke(user, w.status.accessKey)] else []
  }

  function SettleSecret(w: World, retain: bool, cross: bool): seq<Call> {
    if cross || w.secret.None? || !w.secret.value.managed then []
    else if !retain then [DropSecret]
    else if w.secret.value.owned then [Disown] else []
  }

  /** Reclaim Delete revokes the recorded key and drops a managed Secret; Retain
      only takes a managed Secret out of the garbage collector's reach. A Secret in
      another namespace is left alone. */
  function DeletionPlan(w: World, user: string, retain: bool, cross: bool): seq<Call> {
    RevokeRecorded(w, user, retain) + SettleSecret(w, retain, cross) + [Release]
  }

  predicate DeletionPass(pre: World, user: string, retain: bool, cross: bool, trace: seq<Call>, post: World, done: bool) {
    if !pre.finalizer then trace == [] && post == pre && !done
    else
      trace <= DeletionPlan(pre, user, retain, cross) && post == Exec(trace, pre) &&
      (done ==> trace == DeletionPlan(pre, user, retain, cross))
  }

  // ---------------------------------------------------------------- the pass

  class Account {
    var users: map<string, map<string, string>>
    var secret: Option<SecretData>
    var status: Status
    var finalizer: bool
    var faults: seq<Fault>
    ghost var start: World
    ghost var trace: seq<Call>

    ghost function View(): World
      reads this
    {
      World(users, secret, status, finalizer)
    }

    ghost predicate Consistent()
      reads this
    {
      View() == Exec(trace, start)
    }

    constructor (w: World, faults: seq<Fault>)
      ensures View() == start == w && trace == [] && this.faults == faults && Consistent()
    {
      users, secret, status, finalizer := w.users, w.secret, w.status, w.finalizer;
      start, trace, this.faults := w, [], faults;
    }

    method NextFault() returns (f: Fault)
      modifies this`faults
      ensures AllOk(old(faults)) ==> f.Ok? && AllOk(faults)
    {
      f := FaultAt(faults, 0);
      if faults != [] { faults := faults[1..]; }
    }

    /** One IAM or API call under the next fault. */
    method Do(c: Call) returns (ok: bool)
      requires Consistent()
      modifies this
      ensures Consistent() && start == old(start)
      ensures ok ==> trace == old(trace) + [c]
      ensures trace == old(trace) + [c] || trace == old(trace)
      ensures !c.Mirror? && !c.DropSecret? && !c.Disown? ==> secret == old(secret)
      ensures !c.Record? ==> status == old(status)
      ensures !c.Release? ==> finalizer == old(finalizer)
      ensures AllOk(old(faults)) ==> ok && AllOk(faults)
    {
      hide Exec, Apply, AllOk;
      ghost var before, calls := View(), trace;
      var fault := NextFault();
      ok := fault.Ok?;
      if fault.Lost? { return; }
      Take(c);
      trace := calls + [c];
      assert View() == Exec(trace, start) by { ExecSnoc(calls, c, start); }
    }

    /** The effect of an accepted call. */
    method Take(c: Call)
      modifies this`users, this`secret, this`status, this`finalizer
      ensures View() == Apply(c, old(View()))
      ensures !c.Mirror? && !c.DropSecret? && !c.Disown? ==> secret == old(secret)
      ensures !c.Record? ==> status == old(status)
      ensures !c.Release? ==> finalizer == old(finalizer)
    {
      match c {
        case Register(u, p) => SetKey(u, p);
        case Rewrite(u, p) => SetKey(u, p);
        case Mirror(p) =>
          secret := Some(if secret.Some? then secret.value.(pair := p) else SecretData(p, true, true));
        case Revoke(u, ak) =>
          if u in users { users := users[u := users[u] - {ak}]; }
        case Record(ak, u) => status := Status(ak, u);
        case DropSecret => secret := None;
        case Disown => if secret.Some? { secret := Some(secret.value.(owned := false)); }
        case Release => finalizer := false;
      }
    }

    method SetKey(u: string, p: Pair)
      modifies this`users
      ensures users == old(users)[u := Keys(old(View()), u)[p.ak := p.sk]]
    {
      users := users[u := (if u in users then users[u] else map[])[p.ak := p.sk]];
    }

    /** One pass over the credential. */
    method Reconcile(req: Request) returns (done: bool)
      requires trace == [] && start == View()
      modifies this
      ensures start == old(start) && Pass(req, start, trace, View(), done)
      ensures AllOk(old(faults)) ==> done == Ready(start, req)
      ensures AllOk(old(faults)) && UserOf(start, req).Some? ==> finalizer
    {
      var user: string;
      if status.identityName != "" {
        user := status.identityName;
      } else if status.accessKey != "" {
        user := req.refName;
      } else {
        if req.resolved.None? { return false; }
        user := req.resolved.value;
      }
      if !finalizer {
        var protect := NextFault();
        if !protect.Lost? { finalizer := true; }
        return false;
      }
      var lookup := NextFault();
      if !lookup.Ok? || user !in users { return false; }
      done := ReconcileKey(req, user);
    }

    method ReconcileKey(req: Request, user: string) returns (done: bool)
      requires trace == [] && start == View() && Consistent()
      requires finalizer && UserOf(start, req) == Some(user) && user in users
      modifies this
      ensures start == old(start) && Pass(req, start, trace, View(), done)
      ensures AllOk(old(faults)) ==> done == Ready(start, req)
      ensures finalizer
    {
      hide Exec, Apply;
      if req.cross && !req.granted { return false; }
      var read := NextFault();
      if !read.Ok? { return false; }
      if req.cross && secret.None? { return false; }
      var pair := if secret.Some? then secret.value.pair else Pair("", "");
      if pair.ak == "" || pair.sk == "" {
        pair := req.minted;
      }
      var registered := users[user];
      done := true;
      if pair.ak !in registered {
        done := Do(Register(user, pair));
      } else if registered[pair.ak] != pair.sk {
        done := Do(Rewrite(user, pair));
      }
      if !done { return; }
      done := Finish(req, user, pair);
    }

    /** Mirror, revoke, record. */
    method Finish(req: Request, user: string, pair: Pair) returns (done: bool)
      requires Consistent() && Ready(start, req) && UserOf(start, req) == Some(user) && Wanted(start, req) == pair
      requires trace == KeyCalls(start, user, pair) && secret == start.secret && status == start.status
      modifies this
      ensures start == old(start) && Pass(req, start, trace, View(), done)
      ensures AllOk(old(faults)) ==> done
      ensures finalizer == old(finalizer)
    {
      hide Exec, Apply;
      var superseded := status.accessKey;
      done := true;
      if secret.None? || secret.value.pair != pair {
        done := Do(Mirror(pair));
        if !done { return; }
      }
      if superseded != "" && superseded != pair.ak {
        done := Do(Revoke(user, superseded));
        if !done { return; }
      }
      done := Do(Record(pair.ak, user));
    }

    /** A deletion pass for `user`. */
    method HandleDeletion(user: string, retain: bool, cross: bool) returns (done: bool)
      requires trace == [] && start == View() && Consistent()
      modifies this
      ensures start == old(start) && DeletionPass(start, user, retain, cross, trace, View(), done)
      ensures AllOk(old(faults)) ==> done == start.finalizer
    {
      hide Exec, Apply;
      if !finalizer { return false; }
      if !retain && status.accessKey != "" {
        done := Do(Revoke(user, status.accessKey));
        if !done { return; }
      }
      if !cross {
        var read := NextFault();
        if !read.Ok? { return false; }
        if secret.Some? && secret.value.managed {
          done := true;
          if !retain {
            done := Do(DropSecret);
          } else if secret.value.owned {
            done := Do(Disown);
          }
          if !done { return; }
        }
      }
      done := Do(Release);
    }
  }

  // ---------------------------------------------------------------- call boundaries

  /** The world after the first n of register, mirror, revoke, record. */
  function Staged(w: World, u: string, p: Pair, n: nat): World {
    var revoked := n >= 3 && w.status.accessKey != "" && w.status.accessKey != p.ak;
    var keys := if n >= 1 then Keys(w, u)[p.ak := p.sk] else Keys(w, u);
    World(if n >= 1 then w.users[u := if revoked then keys - {w.status.accessKey} else keys] else w.users,
          if n >= 2 then Some(if w.secret.Some? then w.secret.value.(pair := p) else SecretData(p, true, true)) else w.secret,
          if n >= 4 then Status(p.ak, u) else w.status,
          w.finalizer)
  }

  lemma StageKey(w: World, u: string, p: Pair)
    requires u in w.users
    ensures Exec(KeyCalls(w, u, p), w) == Staged(w, u, p, 1)
  {
    if KeyCalls(w, u, p) == [] {
      assert w.users[u][p.ak := p.sk] == w.users[u];
      assert w.users[u := w.users[u]] == w.users;
    }
  }

  lemma StageMirror(w: World, u: string, p: Pair)
    requires u in w.users
    ensures Exec(KeyCalls(w, u, p) + MirrorCalls(w, p), w) == Staged(w, u, p, 2)
  {
    StageKey(w, u, p);
    ExecSnoc(KeyCalls(w, u, p), Mirror(p), w);
    hide Exec;
    if MirrorCalls(w, p) == [] { assert KeyCalls(w, u, p) + [] == KeyCalls(w, u, p); }
  }

  lemma StageRevoke(w: World, u: string, p: Pair)
    requires u in w.users
    ensures Exec(KeyCalls(w, u, p) + MirrorCalls(w, p) + RevokeCalls(w, u, p), w) == Staged(w, u, p, 3)
  {
    hide Exec, KeyCalls, MirrorCalls;
    var a := KeyCalls(w, u, p) + MirrorCalls(w, p);
    StageMirror(w, u, p);
    ExecSnoc(a, Revoke(u, w.status.accessKey), w);
    if RevokeCalls(w, u, p) == [] {
      assert a + [] == a;
    } else {
      assert Exec(a, w).users == w.users[u := Keys(w, u)[p.ak := p.sk]];
      assert Apply(Revoke(u, w.status.accessKey), Exec(a, w)).users == Staged(w, u, p, 3).users;
    }
  }

  /** Wherever a pass stops, its effects are those of a first few of the four steps. */
  lemma BoundaryStage(pre: World, req: Request, t: seq<Call>) returns (n: nat)
    requires Ready(pre, req) && t <= Plan(pre, req)
    ensures n <= 4 && Exec(t, pre) == Staged(pre, UserOf(pre, req).value, Wanted(pre, req), n)
    ensures t == Plan(pre, req) ==> n == 4
    ensures !Populated(pre) && req.minted.ak != "" && req.minted.sk != "" && req.minted.ak !in Keys(pre, UserOf(pre, req).value) ==>
              (n == 1 <==> |t| == 1)
  {
    var u, p := UserOf(pre, req).value, Wanted(pre, req);
    StageKey(pre, u, p);
    StageMirror(pre, u, p);
    StageRevoke(pre, u, p);
    var a, b, c := KeyCalls(pre, u, p), MirrorCalls(pre, p), RevokeCalls(pre, u, p);
    ExecSnoc(a + b + c, Record(p.ak, u), pre);
    assert Exec([], pre) == Staged(pre, u, p, 0);
    assert |a| <= 1 && |b| <= 1 && |c| <= 1;
    assert !Populated(pre) && p.ak !in Keys(pre, u) ==> |a| == 1;
    hide Exec, Staged, KeyCalls, MirrorCalls, RevokeCalls, Keys, UserOf;
    n := Boundary(a, b, c, Record(p.ak, u), t);
  }

  /** How many of four steps, three of which may be empty, a beginning holds. */
  lemma Boundary(a: seq<Call>, b: seq<Call>, c: seq<Call>, d: Call, t: seq<Call>) returns (n: nat)
    requires |a| <= 1 && |b| <= 1 && |c| <= 1 && t <= a + b + c + [d]
    ensures n <= 4 && (n == 0 ==> t == []) && (n == 1 ==> t == a) && (n == 2 ==> t == a + b)
    ensures (n == 3 ==> t == a + b + c) && (n == 4 <==> t == a + b + c + [d])
    ensures |a| == 1 ==> (n == 1 <==> |t| == 1)
  {
    if t == [] {
      n := 0;
    } else if |t| <= |a| {
      n := 1;
    } else if |t| <= |a + b| {
      n := 2;
    } else if |t| <= |a + b + c| {
      n := 3;
    } else {
      n := 4;
    }
  }

  // ---------------------------------------------------------------- make before break

  /** At every call boundary of a pass: the superseded key is gone only when the pair
      now in the Secret is registered with its exact secret key. */
  lemma RevokedOnlyWhenReplaced(req: Request, pre: World, trace: seq<Call>, post: World, done: bool, i: nat)
    requires Ready(pre, req) && Pass(req, pre, trace, post, done) && i <= |trace|
    requires pre.status.accessKey in Keys(pre, UserOf(pre, req).value)
    ensures var w, u := Exec(trace[..i], pre), UserOf(pre, req).value;
            pre.status.accessKey !in Keys(w, u) ==>
              w.secret.Some? && w.secret.value.pair == Wanted(pre, req) && Registered(w, u, w.secret.value.pair)
  {
    var n := BoundaryStage(pre, req, trace[..i]);
    hide Exec, Plan;
  }

  /** A Secret whose pair is valid, or that holds none yet, never holds an invalid
      pair at any call boundary. */
  lemma SecretStaysValid(req: Request, pre: World, trace: seq<Call>, post: World, done: bool, i: nat)
    requires Ready(pre, req) && Pass(req, pre, trace, post, done) && i <= |trace|
    requires Populated(pre) ==> Registered(pre, UserOf(pre, req).value, pre.secret.value.pair)
    ensures var w, u := Exec(trace[..i], pre), UserOf(pre, req).value;
            Populated(w) ==> Registered(w, u, w.secret.value.pair)
  {
    var n := BoundaryStage(pre, req, trace[..i]);
    hide Exec, Plan;
  }

  /** No boundary shows any other key of any user changed. */
  lemma OthersUntouched(req: Request, pre: World, trace: seq<Call>, post: World, done: bool, i: nat, v: string, ak: string)
    requires Ready(pre, req) && Pass(req, pre, trace, post, done) && i <= |trace|
    requires v != UserOf(pre, req).value || (ak != Wanted(pre, req).ak && ak != pre.status.accessKey)
    ensures var w := Exec(trace[..i], pre);
            && (ak in Keys(w, v) <==> ak in Keys(pre, v))
            && (ak in Keys(w, v) ==> Keys(w, v)[ak] == Keys(pre, v)[ak])
            && (v in w.users <==> v in pre.users)
  {
    var n := BoundaryStage(pre, req, trace[..i]);
    hide Exec, Plan;
  }

  // ---------------------------------------------------------------- orphans

  /** The user's keys that neither the status nor the Secret knows of. */
  function Orphans(w: World, u: string): set<string> {
    set ak | ak in Keys(w, u) && !(w.status.accessKey != "" && ak == w.status.accessKey)
             && !(Populated(w) && ak == w.secret.value.pair.ak)
  }

  /** The generated pair is complete and nobody has seen its key before. */
  predicate Minted(w: World, u: string, p: Pair) {
    p.ak != "" && p.sk != "" && p.ak !in Keys(w, u) && p.ak != w.status.accessKey
  }

  /** No pass removes an orphan, and it adds one exactly when it registered a
      generated key and stopped before storing it. */
  lemma OrphansExactly(req: Request, pre: World, trace: seq<Call>, post: World, done: bool)
    requires Ready(pre, req) && Pass(req, pre, trace, post, done)
    requires Populated(pre) || Minted(pre, UserOf(pre, req).value, req.minted)
    ensures var u := UserOf(pre, req).value;
            Orphans(post, u) == Orphans(pre, u) + if !Populated(pre) && |trace| == 1 then {req.minted.ak} else {}
  {
    var n := BoundaryStage(pre, req, trace);
    hide Exec, Plan;
    StageOrphans(pre, UserOf(pre, req).value, Wanted(pre, req), n);
  }

  lemma StageOrphans(w: World, u: string, p: Pair, n: nat)
    requires u in w.users && n <= 4 && p.ak != "" && p.sk != ""
    requires Populated(w) ==> p == w.secret.value.pair
    requires !Populated(w) ==> Minted(w, u, p)
    ensures Orphans(Staged(w, u, p, n), u) == Orphans(w, u) + if !Populated(w) && n == 1 then {p.ak} else {}
  {
    var v := Staged(w, u, p, n);
    forall ak
      ensures ak in Orphans(v, u) <==> ak in Orphans(w, u) || (!Populated(w) && n == 1 && ak == p.ak)
    {
      StageOrphan(w, u, p, n, ak);
    }
    hide Staged, Orphans, Minted;
  }

  lemma StageOrphan(w: World, u: string, p: Pair, n: nat, ak: string)
    requires u in w.users && n <= 4 && p.ak != "" && p.sk != ""
    requires Populated(w) ==> p == w.secret.value.pair
    requires !Populated(w) ==> Minted(w, u, p)
    ensures ak in Orphans(Staged(w, u, p, n), u) <==> ak in Orphans(w, u) || (!Populated(w) && n == 1 && ak == p.ak)
  {
    var v := Staged(w, u, p, n);
    if n == 0 {
      assert v == w;
    } else if ak == p.ak {
      assert ak in Keys(v, u);
    } else {
      assert ak in Keys(v, u) <==> ak in Keys(w, u) && !(n >= 3 && w.status.accessKey != "" && ak == w.status.accessKey);
    }
  }

  /** Replacing or deleting the Secret by hand orphans a key exactly when the old
      pair's key is registered, not recorded in status, and not the new Secret's. */
  lemma EditOrphans(w: World, u: string, edited: Option<SecretData>)
    ensures var w' := w.(secret := edited);
            Orphans(w', u) <= Orphans(w, u) <==>
              (Populated(w) && w.secret.value.pair.ak in Keys(w, u) ==>
                w.secret.value.pair.ak == w.status.accessKey || (Populated(w') && w'.secret.value.pair.ak == w.secret.value.pair.ak))
  {
    var w' := w.(secret := edited);
    if Populated(w) {
      var ak := w.secret.value.pair.ak;
      assert ak in Orphans(w', u) <==>
             ak in Keys(w, u) && ak != w.status.accessKey && !(Populated(w') && ak == w'.secret.value.pair.ak);
    }
  }

  /** A generated key registered just before the Secret write fails is orphaned, and
      the completed retry, with its own pair, leaves it registered. */
  lemma FailedMirrorOrphans(user: string, a: Pair, b: Pair) returns (w0: World, w1: World, w2: World, req: Request, again: Request)
    requires user != "" && a.ak != "" && a.sk != "" && b.ak != "" && b.sk != "" && a.ak != b.ak
    ensures req.minted == a && again.minted == b && Ready(w0, req) && Orphans(w0, user) == {}
    ensures Pass(req, w0, [Register(user, a)], w1, false) && Ready(w1, again)
    ensures Pass(again, w1, Plan(w1, again), w2, true)
    ensures Registered(w2, user, a) && Orphans(w2, user) == {a.ak}
  {
    req, again := Request(user, Some(user), false, true, a), Request(user, Some(user), false, true, b);
    w0 := World(map[user := map[]], None, Status("", ""), true);
    w1 := Exec([Register(user, a)], w0);
    ExecSnoc([], Register(user, a), w0);
    assert [] + [Register(user, a)] == [Register(user, a)];
    assert w1 == Apply(Register(user, a), w0);
    w2 := Exec(Plan(w1, again), w1);
    var n := BoundaryStage(w1, again, Plan(w1, again));
    hide Exec, Plan;
    OrphansExactly(again, w1, Plan(w1, again), w2, true);
  }

  // ---------------------------------------------------------------- completed passes and crash restart

  /** What a completed pass leaves, from any state: the user's keys are the orphans
      and the wanted pair, which the Secret and the status now name. */
  lemma DoneExactly(req: Request, pre: World, trace: seq<Call>, post: World)
    requires Pass(req, pre, trace, post, true) && (Populated(pre) || Minted(pre, UserOf(pre, req).value, req.minted))
    ensures var u, p := UserOf(pre, req).value, Wanted(pre, req);
            && Registered(post, u, p) && post.status == Status(p.ak, u)
            && post.secret.Some? && post.secret.value.pair == p
            && Keys(post, u).Keys == Orphans(pre, u) + {p.ak}
            && (Keys(post, u) == map[p.ak := p.sk] <==> Orphans(pre, u) == {})
  {
    var u, p := UserOf(pre, req).value, Wanted(pre, req);
    var n := BoundaryStage(pre, req, trace);
    hide Exec, Plan;
    assert Keys(post, u).Keys == Orphans(pre, u) + {p.ak};
    assert p.ak !in Orphans(pre, u);
    if Orphans(pre, u) == {} {
      assert Keys(post, u) == map[p.ak := p.sk];
    } else {
      var x :| x in Orphans(pre, u);
      assert x in Keys(post, u) && x != p.ak;
    }
  }

  datatype PassLog = PassLog(req: Request, trace: seq<Call>, done: bool)

  ghost predicate Run(ws: seq<World>, logs: seq<PassLog>) {
    |ws| == |logs| + 1 && forall i :: 0 <= i < |logs| ==> Pass(logs[i].req, ws[i], logs[i].trace, ws[i + 1], logs[i].done)
  }

  /** The four steps can be cut and repeated: the end is the same. */
  lemma StagedAgain(w: World, u: string, p: Pair, n: nat)
    requires u in w.users && n <= 4
    ensures Staged(Staged(w, u, p, n), u, p, 4) == Staged(w, u, p, 4)
  {
    var mid := Staged(w, u, p, n);
    assert Staged(mid, u, p, 4).users[u] == Staged(w, u, p, 4).users[u] by { KeysAgain(w, u, p, n); }
    assert forall v :: v != u && v in w.users ==> mid.users[v] == w.users[v];
    assert Staged(mid, u, p, 4).users == Staged(w, u, p, 4).users;
  }

  lemma KeysAgain(w: World, u: string, p: Pair, n: nat)
    requires u in w.users && n <= 4
    ensures Staged(Staged(w, u, p, n), u, p, 4).users[u] == Staged(w, u, p, 4).users[u]
  {
    var k := Keys(w, u)[p.ak := p.sk];
    if n >= 3 && w.status.accessKey != "" && w.status.accessKey != p.ak {
      assert (k - {w.status.accessKey})[p.ak := p.sk] == k - {w.status.accessKey};
    } else if n >= 1 {
      assert k[p.ak := p.sk] == k;
    }
  }

  /** The state a run of passes under one reference has reached: some pass's end of
      the first world's plan. */
  ghost predicate Underway(w0: World, u: string, p: Pair, w: World) {
    && u in w.users && Populated(w) && w.secret.value.pair == p
    && (w.finalizer || w == w0)
    && Staged(w, u, p, 4).(finalizer := true) == Staged(w0, u, p, 4).(finalizer := true)
  }

  lemma {:induction false} UnderwayAlways(ws: seq<World>, logs: seq<PassLog>, u: string, n: nat)
    requires Run(ws, logs) && n < |ws| && Populated(ws[0]) && u != "" && u in ws[0].users
    requires forall i :: 0 <= i < |logs| ==> UserOf(ws[0], logs[i].req) == Some(u)
    ensures Underway(ws[0], u, ws[0].secret.value.pair, ws[n])
    ensures forall i :: 0 <= i < |logs| ==> UserOf(ws[n], logs[i].req) == Some(u)
  {
    if n > 0 {
      UnderwayAlways(ws, logs, u, n - 1);
      var l, pre, p := logs[n - 1], ws[n - 1], ws[0].secret.value.pair;
      assert Pass(l.req, pre, l.trace, ws[n], l.done) && UserOf(pre, l.req) == Some(u);
      hide Plan, Exec;
      if Ready(pre, l.req) {
        var m := BoundaryStage(pre, l.req, l.trace);
        StagedAgain(pre, u, p, m);
      }
    }
  }

  /** Crash and restart: with a populated Secret that stays as it is, any number of
      passes stopped anywhere and then one completed pass end in the very world one
      undisturbed pass reaches. The user then holds exactly the Secret's pair, and
      status records it, if and only if at the start every key of the user was the
      Secret's or the recorded one. */
  lemma CrashRestart(ws: seq<World>, logs: seq<PassLog>, u: string, req: Request, trace: seq<Call>, final: World)
    requires Run(ws, logs) && Populated(ws[0]) && u != "" && u in ws[0].users
    requires UserOf(ws[0], req) == Some(u) && forall i :: 0 <= i < |logs| ==> UserOf(ws[0], logs[i].req) == Some(u)
    requires Pass(req, ws[|logs|], trace, final, true)
    ensures var p := ws[0].secret.value.pair;
            && final == Staged(ws[0].(finalizer := true), u, p, 4)
            && final.status == Status(p.ak, u) && final.secret.value.pair == p && Registered(final, u, p)
            && (Keys(final, u) == map[p.ak := p.sk] <==> Orphans(ws[0], u) == {})
            && forall v :: v != u ==> Keys(final, v) == Keys(ws[0], v)
  {
    var p := ws[0].secret.value.pair;
    UnderwayAlways(ws + [final], logs + [PassLog(req, trace, true)], u, |logs|);
    assert (ws + [final])[|logs|] == ws[|logs|];
    assert (logs + [PassLog(req, trace, true)])[|logs|].req == req;
    var n := BoundaryStage(ws[|logs|], req, trace);
    hide Exec, Plan;
    StagedExact(ws[0], u, p);
  }

  lemma StagedExact(w: World, u: string, p: Pair)
    requires u in w.users && Populated(w) && w.secret.value.pair == p
    ensures Keys(Staged(w, u, p, 4), u) == map[p.ak := p.sk] <==> Orphans(w, u) == {}
  {
    var k := Keys(Staged(w, u, p, 4), u);
    assert k.Keys == Orphans(w, u) + {p.ak} && k[p.ak] == p.sk && p.ak !in Orphans(w, u);
    if Orphans(w, u) == {} {
      assert k == map[p.ak := p.sk];
    } else {
      var x :| x in Orphans(w, u);
      assert x in k && x != p.ak;
    }
  }

  // ---------------------------------------------------------------- rotation over runs

  datatype Event = Passed(log: PassLog) | SecretEdited(edited: Option<SecretData>)

  ghost predicate Step(w: World, e: Event, w': World, u: string) {
    match e
    case Passed(l) =>
      && Pass(l.req, w, l.trace, w', l.done)
      && UserOf(w, l.req) == Some(u) && (Populated(w) || Minted(w, u, l.req.minted))
    case SecretEdited(s) => w' == w.(secret := s)
  }

  /** The events that orphan a key. */
  predicate Leaky(w: World, e: Event, u: string) {
    match e
    case Passed(l) => Ready(w, l.req) && !Populated(w) && |l.trace| == 1
    case SecretEdited(s) =>
      && Populated(w) && w.secret.value.pair.ak in Keys(w, u) && w.secret.value.pair.ak != w.status.accessKey
      && !(Populated(w.(secret := s)) && s.value.pair.ak == w.secret.value.pair.ak)
  }

  lemma FinalizerIrrelevant(w: World, u: string)
    ensures Orphans(w.(finalizer := true), u) == Orphans(w, u)
  {
    var w' := w.(finalizer := true);
    assert Keys(w', u) == Keys(w, u) && Populated(w') == Populated(w);
    assert forall ak :: ak in Orphans(w', u) <==> ak in Orphans(w, u);
  }

  lemma LeaksExactly(w: World, e: Event, w': World, u: string)
    requires Step(w, e, w', u)
    ensures Orphans(w', u) <= Orphans(w, u) <==> !Leaky(w, e, u)
  {
    match e
    case Passed(l) =>
      if Ready(w, l.req) {
        OrphansExactly(l.req, w, l.trace, w', l.done);
        assert !Populated(w) ==> l.req.minted.ak !in Orphans(w, u);
      } else {
        FinalizerIrrelevant(w, u);
      }
    case SecretEdited(s) => EditOrphans(w, u, s);
  }

  /** Any run of passes, cut or not, and rotations by hand without a leaky event,
      ended by a completed pass, leaves the user with exactly the wanted pair. */
  lemma RotationLeavesOneKey(ws: seq<World>, es: seq<Event>, u: string, req: Request, trace: seq<Call>, final: World)
    requires |ws| == |es| + 1 && Orphans(ws[0], u) == {}
    requires forall i :: 0 <= i < |es| ==> Step(ws[i], es[i], ws[i + 1], u) && !Leaky(ws[i], es[i], u)
    requires UserOf(ws[|es|], req) == Some(u) && (Populated(ws[|es|]) || Minted(ws[|es|], u, req.minted))
    requires Pass(req, ws[|es|], trace, final, true)
    ensures var p := Wanted(ws[|es|], req);
            Keys(final, u) == map[p.ak := p.sk] && final.secret.Some? && final.secret.value.pair == p && final.status == Status(p.ak, u)
  {
    NoOrphans(ws, es, u, |es|);
    DoneExactly(req, ws[|es|], trace, final);
  }

  lemma {:induction false} NoOrphans(ws: seq<World>, es: seq<Event>, u: string, n: nat)
    requires |ws| == |es| + 1 && n < |ws| && Orphans(ws[0], u) == {}
    requires forall i :: 0 <= i < |es| ==> Step(ws[i], es[i], ws[i + 1], u) && !Leaky(ws[i], es[i], u)
    ensures Orphans(ws[n], u) == {}
  {
    if n > 0 {
      NoOrphans(ws, es, u, n - 1);
      LeaksExactly(ws[n - 1], es[n - 1], ws[n], u);
    }
  }

  // ---------------------------------------------------------------- which user, which pair

  /** u is the user of a pass: the recorded identity; for a key recorded without one the
      literal reference; for a new resource what the reference resolves to. */
  predicate Serves(w: World, req: Request, u: string) {
    || (w.status.identityName != "" && u == w.status.identityName)
    || (w.status.identityName == "" && w.status.accessKey != "" && u == req.refName)
    || (w.status == Status("", "") && req.resolved == Some(u))
  }

  /** A pass can complete exactly when that user is known and exists, and a Secret in
      another namespace is granted and there. */
  lemma ReadyExactly(w: World, req: Request)
    ensures Ready(w, req) <==>
              && w.finalizer && (req.cross ==> req.granted && w.secret.Some?)
              && exists u :: Serves(w, req, u) && u in w.users
  {
    var user := UserOf(w, req);
    assert user.Some? ==> Serves(w, req, user.value);
  }

  /** A completed pass gives that user, and only that user, the Secret's pair when both
      fields are filled and the generated pair otherwise, pins the resource to it, and
      revokes the key recorded before. */
  lemma DoneServes(req: Request, pre: World, trace: seq<Call>, post: World, u: string)
    requires Pass(req, pre, trace, post, true) && Serves(pre, req, u)
    ensures var p := if pre.secret.Some? && pre.secret.value.pair.ak != "" && pre.secret.value.pair.sk != ""
                     then pre.secret.value.pair else req.minted;
            && u in post.users && p.ak in post.users[u] && post.users[u][p.ak] == p.sk
            && post.secret.Some? && post.secret.value.pair == p
            && post.status == Status(p.ak, u)
            && (pre.status.accessKey != "" && pre.status.accessKey != p.ak ==> pre.status.accessKey !in post.users[u])
    ensures post.users.Keys == pre.users.Keys && forall v :: v != u && v in pre.users ==> post.users[v] == pre.users[v]
  {
    var n := BoundaryStage(pre, req, trace);
    hide Exec, Plan;
    assert u in pre.users;
  }

  /** A pass that cannot complete touches no user: the reference does not resolve, the
      user does not exist, or the Secret may not be used. */
  lemma BlockedTouchesNothing(req: Request, pre: World, trace: seq<Call>, post: World, done: bool)
    requires Pass(req, pre, trace, post, done)
    requires || (pre.status == Status("", "") && req.resolved.None?)
             || (forall u :: Serves(pre, req, u) ==> u !in pre.users)
             || (req.cross && (!req.granted || pre.secret.None?))
    ensures !done && post.users == pre.users && post.secret == pre.secret && post.status == pre.status
  {
  }

  // ---------------------------------------------------------------- pinning

  /** Once the user is pinned, no change of the reference or of what it resolves to
      makes any pass touch another user, whatever happens to the Secret. */
  lemma {:induction false} PinnedForever(ws: seq<World>, logs: seq<PassLog>, u: string, n: nat)
    requires Run(ws, logs) && n < |ws| && u != "" && ws[0].status.identityName == u
    ensures ws[n].status.identityName == u
    ensures forall v :: v != u ==> Keys(ws[n], v) == Keys(ws[0], v)
  {
    if n > 0 {
      PinnedForever(ws, logs, u, n - 1);
      var l, pre := logs[n - 1], ws[n - 1];
      assert Pass(l.req, pre, l.trace, ws[n], l.done);
      hide Plan, Exec;
      if Ready(pre, l.req) {
        var m := BoundaryStage(pre, l.req, l.trace);
      }
    }
  }

  // ---------------------------------------------------------------- deletion

  /** A completed deletion. Reclaim Delete: the recorded key goes, every other key of
      every user stays, and the operator's own Secret goes. Retain: every key stays. */
  lemma DeletionDone(pre: World, user: string, retain: bool, cross: bool, trace: seq<Call>, post: World)
    requires DeletionPass(pre, user, retain, cross, trace, post, true)
    ensures !post.finalizer && post.status == pre.status
    ensures forall v, ak :: ak in Keys(post, v) <==>
              ak in Keys(pre, v) && !(!retain && v == user && pre.status.accessKey != "" && ak == pre.status.accessKey)
    ensures post.secret ==
              if cross || pre.secret.None? || !pre.secret.value.managed then pre.secret
              else if retain then Some(pre.secret.value.(owned := false)) else None
  {
    var a, b := RevokeRecorded(pre, user, retain), SettleSecret(pre, retain, cross);
    ExecSnoc(a + b, Release, pre);
    AfterRevoke(pre, user, retain);
    AfterSettle(pre, user, retain, cross);
    hide Exec, RevokeRecorded, SettleSecret;
  }

  lemma AfterRevoke(w: World, user: string, retain: bool)
    ensures var r := Exec(RevokeRecorded(w, user, retain), w);
            && r == w.(users := r.users)
            && forall v, ak :: ak in Keys(r, v) <==>
                 ak in Keys(w, v) && !(!retain && v == user && w.status.accessKey != "" && ak == w.status.accessKey)
  {
    ExecSnoc([], Revoke(user, w.status.accessKey), w);
    assert [] + [Revoke(user, w.status.accessKey)] == [Revoke(user, w.status.accessKey)];
  }

  lemma AfterSettle(w: World, user: string, retain: bool, cross: bool)
    ensures var r := Exec(RevokeRecorded(w, user, retain), w);
            Exec(RevokeRecorded(w, user, retain) + SettleSecret(w, retain, cross), w) ==
            r.(secret := if cross || w.secret.None? || !w.secret.value.managed then w.secret
                         else if retain then Some(w.secret.value.(owned := false)) else None)
  {
    AfterRevoke(w, user, retain);
    var a, b := RevokeRecorded(w, user, retain), SettleSecret(w, retain, cross);
    hide Exec, RevokeRecorded;
    if b == [] {
      assert a + b == a;
    } else {
      ExecSnoc(a, b[0], w);
      assert b == [b[0]];
    }
  }

  /** After deletion the pair of the Secret is unusable exactly when its key was not
      registered or was the recorded one: always right after a completed pass. */
  lemma DeletedPairGone(pre: World, user: string, cross: bool, trace: seq<Call>, post: World)
    requires DeletionPass(pre, user, false, cross, trace, post, true) && Populated(pre)
    ensures pre.secret.value.pair.ak !in Keys(post, user) <==>
              pre.secret.value.pair.ak !in Keys(pre, user) || pre.secret.value.pair.ak == pre.status.accessKey
  {
    DeletionDone(pre, user, false, cross, trace, post);
  }

  /** What the garbage collector leaves of the Secret once the resource is gone. */
  function Collected(w: World): Option<SecretData> {
    if !w.finalizer && w.secret.Some? && w.secret.value.owned then None else w.secret
  }

  /** Retain keeps a managed Secret together with its key. */
  lemma RetainSurvives(pre: World, user: string, trace: seq<Call>, post: World)
    requires DeletionPass(pre, user, true, false, trace, post, true) && Populated(pre) && pre.secret.value.managed
    ensures Collected(post).Some? && Collected(post).value.pair == pre.secret.value.pair
    ensures forall v, ak :: ak in Keys(post, v) <==> ak in Keys(pre, v)
  {
    DeletionDone(pre, user, true, false, trace, post);
  }
}
