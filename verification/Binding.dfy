/** One S3PolicyBinding resource: a policy attached to exactly the listed users,
    kept so by detach and attach loops that may stop at any call. */
module Binding {
  import opened Text

  /** IAM users with their attached policies, the stored policies, and the API
      server's copy of the resource: recorded subjects, pinned policy, finalizer. */
  datatype World = World(users: map<string, set<string>>, policies: set<string>, recorded: seq<string>, pinned: string, finalizer: bool)

  function Attached(w: World, policy: string): set<string> {
    set u | u in w.users && policy in w.users[u]
  }

  // ---------------------------------------------------------------- subjects

  /** Resolve, drop duplicates, sort; an unresolvable subject fails the whole list. */
  method ResolveSubjects(subjects: seq<string>, resolve: string -> Option<string>) returns (r: Option<seq<string>>)
    ensures r.Some? <==> forall s :: s in subjects ==> resolve(s).Some?
    ensures r.Some? ==> StrictlySorted(r.value)
    ensures r.Some? ==> forall u :: u in r.value <==> exists s :: s in subjects && resolve(s) == Some(u)
  {
    var seen: set<string>, found: seq<string> := {}, [];
    var i := 0;
    while i < |subjects|
      invariant 0 <= i <= |subjects|
      invariant forall s :: s in subjects[..i] ==> resolve(s).Some?
      invariant forall u :: u in seen <==> u in found
      invariant forall u :: u in found <==> exists s :: s in subjects[..i] && resolve(s) == Some(u)
      invariant forall a, b :: 0 <= a < b < |found| ==> found[a] != found[b]
    {
      var name := resolve(subjects[i]);
      if name.None? {
        assert subjects[i] in subjects;
        return None;
      }
      assert subjects[..i + 1] == subjects[..i] + [subjects[i]];
      i := i + 1;
      if name.value in seen { continue; }
      seen := seen + {name.value};
      found := found + [name.value];
    }
    assert subjects[..i] == subjects;
    var sorted := SortStrings(found);
    NoDuplicatesSorted(sorted, found);
    r := Some(sorted);
  }

  // ---------------------------------------------------------------- what a pass may leave

  /** The recorded subjects no longer wanted, in recorded order. */
  function Dropped(recorded: seq<string>, desired: seq<string>): seq<string> {
    if recorded == [] then []
    else
      var u := recorded[|recorded| - 1];
      Dropped(recorded[..|recorded| - 1], desired) + if u in desired then [] else [u]
  }

  lemma {:induction false} DroppedIs(recorded: seq<string>, desired: seq<string>)
    ensures forall u :: u in Dropped(recorded, desired) <==> u in recorded && u !in desired
    ensures (forall u :: u in recorded ==> u in desired) ==> Dropped(recorded, desired) == []
  {
    if recorded != [] {
      DroppedIs(recorded[..|recorded| - 1], desired);
      assert recorded == recorded[..|recorded| - 1] + [recorded[|recorded| - 1]];
    }
  }

  lemma {:induction false} DroppedPrefix(recorded: seq<string>, desired: seq<string>, n: nat)
    requires n <= |recorded|
    ensures Dropped(recorded[..n], desired) <= Dropped(recorded, desired)
  {
    if n < |recorded| {
      assert recorded[..|recorded| - 1][..n] == recorded[..n];
      DroppedPrefix(recorded[..|recorded| - 1], desired, n);
    } else {
      assert recorded[..n] == recorded;
    }
  }

  /** The listed users that exist, in list order. */
  function Present(users: map<string, set<string>>, s: seq<string>): seq<string> {
    if s == [] then []
    else Present(users, s[..|s| - 1]) + if s[|s| - 1] in users then [s[|s| - 1]] else []
  }

  lemma {:induction false} PresentIs(users: map<string, set<string>>, s: seq<string>)
    ensures forall u :: u in Present(users, s) <==> u in s && u in users
  {
    if s != [] {
      PresentIs(users, s[..|s| - 1]);
      assert s == s[..|s| - 1] + [s[|s| - 1]];
    }
  }

  lemma {:induction false} PresentSame(a: map<string, set<string>>, b: map<string, set<string>>, s: seq<string>)
    requires a.Keys == b.Keys
    ensures Present(a, s) == Present(b, s)
  {
    if s != [] {
      PresentSame(a, b, s[..|s| - 1]);
      assert s[|s| - 1] in a <==> s[|s| - 1] in b.Keys;
    }
  }

  lemma PresentSnoc(users: map<string, set<string>>, s: seq<string>, n: nat)
    requires n < |s|
    ensures Present(users, s[..n + 1]) == Present(users, s[..n]) + if s[n] in users then [s[n]] else []
  {
    assert s[..n + 1][..n] == s[..n];
  }

  /** The users after some detaches and then some attaches of the policy. */
  function After(users: map<string, set<string>>, policy: string, out: seq<string>, onto: seq<string>): map<string, set<string>> {
    map u | u in users :: if u in onto then users[u] + {policy} else if u in out then users[u] - {policy} else users[u]
  }

  /** Completed: every call was answered, whether or not some subjects are missing. */
  datatype Outcome = Completed | Failed

  /** How far a pass came: the detaches and attaches that took effect, and whether
      its status was saved. */
  datatype Log = Log(out: seq<string>, onto: seq<string>, saved: bool)

  predicate Pass(pre: World, policy: string, desired: seq<string>, l: Log, post: World, outcome: Outcome) {
    && l.out <= Dropped(pre.recorded, desired) && l.onto <= desired
    && (l.onto != [] ==> l.out == Dropped(pre.recorded, desired))
    && post.users == After(pre.users, policy, l.out, l.onto)
    && post.policies == pre.policies && post.finalizer == pre.finalizer
    && post.pinned == (if l.saved then policy else pre.pinned)
    && (if l.saved && post.recorded != pre.recorded then RecordsAttaches(pre, desired, l, post.recorded) else post.recorded == pre.recorded)
    && (outcome.Completed? ==>
          && l == Log(Dropped(pre.recorded, desired), desired, true)
          && post.recorded == Present(pre.users, desired))
  }

  /** The recorded list is the attached beginning of the subjects; the last effect
      may not have been answered. */
  predicate RecordsAttaches(pre: World, desired: seq<string>, l: Log, recorded: seq<string>) {
    && l.out == Dropped(pre.recorded, desired)
    && exists n :: |l.onto| - 1 <= n <= |l.onto| && 0 <= n && n <= |desired| && recorded == Present(pre.users, desired[..n])
  }

  /** The policy a pass works on: the pinned one, else for resources from before
      pinning the literal reference, else what the reference resolves to. */
  function PolicyOf(w: World, refName: string, resolved: Option<string>): Option<string> {
    if w.pinned != "" then Some(w.pinned)
    else if w.recorded != [] then Some(refName)
    else resolved
  }

  predicate Ready(w: World, policy: Option<string>, desired: Option<seq<string>>) {
    w.finalizer && policy.Some? && policy.value in w.policies && desired.Some?
  }

  // ---------------------------------------------------------------- the pass

  class Store {
    var users: map<string, set<string>>
    var policies: set<string>
    var recorded: seq<string>
    var pinned: string
    var finalizer: bool
    var faults: seq<Fault>

    ghost function View(): World
      reads this
    {
      World(users, policies, recorded, pinned, finalizer)
    }

    constructor (w: World, faults: seq<Fault>)
      ensures View() == w && this.faults == faults
    {
      users, policies, recorded, pinned, finalizer := w.users, w.policies, w.recorded, w.pinned, w.finalizer;
      this.faults := faults;
    }

    method NextFault() returns (f: Fault)
      modifies this`faults
      ensures AllOk(old(faults)) ==> f.Ok? && AllOk(faults)
    {
      f := FaultAt(faults, 0);
      if faults != [] { faults := faults[1..]; }
    }

    /** A missing user counts as detached. */
    method Detach(user: string, policy: string) returns (ok: bool)
      modifies this`users, this`faults
      ensures users == old(users) || users == After(old(users), policy, [user], [])
      ensures ok ==> users == After(old(users), policy, [user], [])
      ensures AllOk(old(faults)) ==> ok && AllOk(faults)
    {
      var fault := NextFault();
      if !fault.Lost? && user in users { users := users[user := users[user] - {policy}]; }
      return fault.Ok?;
    }

    method Attach(user: string, policy: string) returns (ok: bool, missing: bool)
      modifies this`users, this`faults
      ensures users == old(users) || users == After(old(users), policy, [], [user])
      ensures ok ==> users == After(old(users), policy, [], [user]) && missing == (user !in old(users))
      ensures AllOk(old(faults)) ==> ok && AllOk(faults)
    {
      var fault := NextFault();
      missing := user !in users;
      if !fault.Lost? && !missing { users := users[user := users[user] + {policy}]; }
      return fault.Ok?, missing;
    }

    method Save(policy: string, subjects: seq<string>) returns (ok: bool, saved: bool)
      modifies this`pinned, this`recorded, this`faults
      ensures pinned == (if saved then policy else old(pinned)) && recorded == (if saved then subjects else old(recorded))
      ensures ok ==> saved
      ensures AllOk(old(faults)) ==> ok && AllOk(faults)
    {
      var fault := NextFault();
      if !fault.Lost? { pinned, recorded := policy, subjects; }
      return fault.Ok?, !fault.Lost?;
    }

    /** One pass over the binding. */
    method Reconcile(refName: string, resolved: Option<string>, desired: Option<seq<string>>)
      returns (outcome: Outcome, ghost log: Log)
      modifies this
      ensures var pre, policy := old(View()), PolicyOf(old(View()), refName, resolved);
              if Ready(pre, policy, desired) then Pass(pre, policy.value, desired.value, log, View(), outcome)
              else outcome == Failed && (View() == pre || View() == pre.(finalizer := true))
      ensures AllOk(old(faults)) ==>
                outcome.Completed? == Ready(old(View()), PolicyOf(old(View()), refName, resolved), desired)
      ensures AllOk(old(faults)) && PolicyOf(old(View()), refName, resolved).Some? ==> finalizer
    {
      outcome, log := Failed, Log([], [], false);
      assert After(users, refName, [], []) == users;
      var policy: string;
      if pinned != "" {
        policy := pinned;
      } else if recorded != [] {
        policy := refName;
      } else {
        if resolved.None? { return; }
        policy := resolved.value;
      }
      assert After(users, policy, [], []) == users;
      if !finalizer {
        var protect := NextFault();
        if !protect.Lost? { finalizer := true; }
        return;
      }
      var lookup := NextFault();
      if !lookup.Ok? || policy !in policies || desired.None? { return; }
      outcome, log := Apply(policy, desired.value);
    }

    /** Detach what is no longer listed, then attach what is. */
    method Apply(policy: string, desired: seq<string>) returns (outcome: Outcome, ghost log: Log)
      modifies this`users, this`pinned, this`recorded, this`faults
      ensures Pass(old(View()), policy, desired, log, View(), outcome)
      ensures AllOk(old(faults)) ==> outcome.Completed?
    {
      hide Dropped, Present;
      outcome := Failed;
      ghost var pre := View();
      var ok, last := DetachAll(policy, desired);
      if !ok {
        var _, saved := Save(policy, recorded);
        return Failed, Log(last, [], saved);
      }
      var attached;
      ghost var onto;
      ghost var mid := users;
      ok, attached, onto := AttachAll(policy, desired);
      forall n | 0 <= n <= |desired| ensures Present(mid, desired[..n]) == Present(pre.users, desired[..n]) {
        PresentSame(mid, pre.users, desired[..n]);
      }
      PresentSame(mid, pre.users, desired);
      AfterCompose(pre.users, policy, last, onto);
      var stored, saved := Save(policy, attached);
      log := Log(last, onto, saved);
      if ok && stored { outcome := Completed; }
    }

    method DetachAll(policy: string, desired: seq<string>) returns (ok: bool, ghost last: seq<string>)
      modifies this`users, this`faults
      ensures last <= Dropped(recorded, desired) && users == After(old(users), policy, last, [])
      ensures ok ==> last == Dropped(recorded, desired)
      ensures AllOk(old(faults)) ==> ok && AllOk(faults)
    {
      last := [];
      ok := true;
      var i := 0;
      assert After(users, policy, [], []) == users;
      while i < |recorded|
        invariant 0 <= i <= |recorded| && recorded == old(recorded) && ok
        invariant last == Dropped(recorded[..i], desired) && users == After(old(users), policy, last, [])
        invariant AllOk(old(faults)) ==> AllOk(faults)
      {
        var u := recorded[i];
        assert recorded[..i + 1][..i] == recorded[..i];
        DroppedPrefix(recorded, desired, i);
        i := i + 1;
        DroppedPrefix(recorded, desired, i);
        if u in desired { continue; }
        ok := Detach(u, policy);
        AfterOne(old(users), policy, last, u);
        if !ok {
          if users == After(old(users), policy, last + [u], []) { last := last + [u]; }
          return;
        }
        last := last + [u];
      }
      assert recorded[..i] == recorded;
    }

    method AttachAll(policy: string, desired: seq<string>) returns (ok: bool, attached: seq<string>, ghost onto: seq<string>)
      modifies this`users, this`faults
      ensures onto <= desired && users == After(old(users), policy, [], onto)
      ensures exists n :: |onto| - 1 <= n <= |onto| && 0 <= n && attached == Present(old(users), desired[..n])
      ensures ok ==> onto == desired && attached == Present(old(users), desired)
      ensures AllOk(old(faults)) ==> ok && AllOk(faults)
    {
      attached, onto, ok := [], [], true;
      var i := 0;
      assert After(users, policy, [], []) == users;
      while i < |desired|
        invariant 0 <= i <= |desired| && ok
        invariant onto == desired[..i] && users == After(old(users), policy, [], onto)
        invariant attached == Present(old(users), desired[..i])
        invariant AllOk(old(faults)) ==> AllOk(faults)
      {
        var u := desired[i];
        var missing;
        ok, missing := Attach(u, policy);
        AfterOne(old(users), policy, onto, u);
        PresentSnoc(old(users), desired, i);
        if !ok {
          if users == After(old(users), policy, [], onto + [u]) { onto := onto + [u]; }
          return;
        }
        onto := onto + [u];
        if !missing { attached := attached + [u]; }
        i := i + 1;
      }
      assert desired[..i] == desired;
    }
  }

  lemma AfterOne(users: map<string, set<string>>, policy: string, s: seq<string>, u: string)
    ensures After(After(users, policy, s, []), policy, [u], []) == After(users, policy, s + [u], [])
    ensures After(After(users, policy, [], s), policy, [], [u]) == After(users, policy, [], s + [u])
  {
    forall v | v in users
      ensures After(After(users, policy, s, []), policy, [u], [])[v] == After(users, policy, s + [u], [])[v]
      ensures After(After(users, policy, [], s), policy, [], [u])[v] == After(users, policy, [], s + [u])[v]
    {
    }
  }

  lemma AfterCompose(users: map<string, set<string>>, policy: string, out: seq<string>, onto: seq<string>)
    ensures After(After(users, policy, out, []), policy, [], onto) == After(users, policy, out, onto)
  {
    forall v | v in users
      ensures After(After(users, policy, out, []), policy, [], onto)[v] == After(users, policy, out, onto)[v]
    {
    }
  }

  // ---------------------------------------------------------------- one pass, exactly

  /** What a completed pass leaves: listed users that exist have the policy, recorded
      and no longer listed ones do not, all others and all other policies are as
      before. The attachment is exactly the listed existing users if and only if
      every attached user was recorded or is listed. */
  lemma CompletedExactly(pre: World, policy: string, desired: seq<string>, l: Log, post: World)
    requires Pass(pre, policy, desired, l, post, Completed)
    ensures post.users.Keys == pre.users.Keys
    ensures forall u, q :: u in pre.users && q != policy ==> (q in post.users[u] <==> q in pre.users[u])
    ensures Attached(post, policy) == set u | u in pre.users && (u in desired || (policy in pre.users[u] && u !in pre.recorded))
    ensures Attached(post, policy) == (set u | u in desired && u in pre.users) <==> Known(pre, policy, desired)
    ensures forall u :: u in post.recorded <==> u in desired && u in pre.users
    ensures post.pinned == policy
  {
    DroppedIs(pre.recorded, desired);
    PresentIs(pre.users, desired);
    hide Dropped, Present;
    var now := Attached(post, policy);
    assert forall u :: u in now <==> u in pre.users && (u in desired || (policy in pre.users[u] && u !in pre.recorded));
    if now == (set u | u in desired && u in pre.users) {
      forall u | u in Attached(pre, policy) ensures u in pre.recorded || u in desired {
        assert u in now <==> u in desired;
      }
    }
  }

  /** Every attached user is recorded or listed. */
  predicate Known(w: World, policy: string, desired: seq<string>) {
    forall u :: u in Attached(w, policy) ==> u in w.recorded || u in desired
  }

  /** A pass, wherever it stops, attaches only listed users, detaches only recorded
      unlisted ones, and touches no other policy. */
  lemma PassBounds(pre: World, policy: string, desired: seq<string>, l: Log, post: World, outcome: Outcome)
    requires Pass(pre, policy, desired, l, post, outcome)
    ensures Attached(post, policy) <= Attached(pre, policy) + set u | u in desired && u in pre.users
    ensures forall u :: u in Attached(pre, policy) && u !in Attached(post, policy) ==> u in pre.recorded && u !in desired
    ensures forall u, q :: u in pre.users && q != policy ==> (q in post.users[u] <==> q in pre.users[u])
  {
    DroppedIs(pre.recorded, desired);
    hide Dropped, Present;
    assert forall u :: u in l.out ==> u in Dropped(pre.recorded, desired);
  }

  /** Under one subject list, no stop of a pass makes an attached user unknown, even
      though a failed attach cuts the recorded list short. */
  lemma PassKeepsKnown(pre: World, policy: string, desired: seq<string>, l: Log, post: World, outcome: Outcome)
    requires Pass(pre, policy, desired, l, post, outcome) && Known(pre, policy, desired)
    ensures Known(post, policy, desired)
  {
    DroppedIs(pre.recorded, desired);
    PassBounds(pre, policy, desired, l, post, outcome);
    hide Dropped, Present;
    if post.recorded != pre.recorded {
      assert forall u :: u in pre.recorded && u !in desired ==> u in l.out;
    }
  }

  // ---------------------------------------------------------------- runs

  datatype Event =
    | Passed(log: Log, outcome: Outcome)
    | Protected
    | UserAdded(user: string)
    | UserRemoved(user: string)

  ghost predicate Step(w: World, e: Event, w': World, policy: string, desired: seq<string>) {
    match e
    case Passed(l, o) => w.finalizer && policy in w.policies && Pass(w, policy, desired, l, w', o)
    case Protected => w' == w.(finalizer := true)
    case UserAdded(u) => u !in w.users && w' == w.(users := w.users[u := {}])
    case UserRemoved(u) => w' == w.(users := w.users - {u})
  }

  ghost predicate Run(ws: seq<World>, es: seq<Event>, policy: string, desired: seq<string>) {
    |ws| == |es| + 1 && forall i :: 0 <= i < |es| ==> Step(ws[i], es[i], ws[i + 1], policy, desired)
  }

  lemma StepKeepsKnown(w: World, e: Event, w': World, policy: string, desired: seq<string>)
    requires Step(w, e, w', policy, desired) && Known(w, policy, desired)
    ensures Known(w', policy, desired)
  {
    if e.Passed? {
      PassKeepsKnown(w, policy, desired, e.log, w', e.outcome);
    } else {
      assert Attached(w', policy) <= Attached(w, policy);
    }
  }

  /** Over any run of passes stopped at any call, the one that only adds the finalizer
      included, with users coming and going, every attached user stays known. */
  lemma {:induction false} RunStaysKnown(ws: seq<World>, es: seq<Event>, policy: string, desired: seq<string>, n: nat)
    requires Run(ws, es, policy, desired) && n < |ws| && Known(ws[0], policy, desired)
    ensures Known(ws[n], policy, desired)
  {
    if n > 0 {
      RunStaysKnown(ws, es, policy, desired, n - 1);
      StepKeepsKnown(ws[n - 1], es[n - 1], ws[n], policy, desired);
    }
  }

  /** So from a new resource, or any state whose attached users are known, the next
      completed pass is exact. */
  lemma RunConverges(ws: seq<World>, es: seq<Event>, policy: string, desired: seq<string>, l: Log, final: World)
    requires Run(ws, es, policy, desired) && (Known(ws[0], policy, desired) || Attached(ws[0], policy) == {})
    requires Pass(ws[|es|], policy, desired, l, final, Completed)
    ensures Attached(final, policy) == set u | u in desired && u in final.users
    ensures forall u :: u in final.recorded <==> u in Attached(final, policy)
  {
    RunStaysKnown(ws, es, policy, desired, |es|);
    CompletedExactly(ws[|es|], policy, desired, l, final);
  }

  // ---------------------------------------------------------------- subject edits

  /** An edit of the subject list keeps every attached user known exactly when each
      attached subject it drops is recorded. */
  lemma EditKeepsKnown(w: World, policy: string, before: seq<string>, after: seq<string>)
    requires Known(w, policy, before)
    ensures Known(w, policy, after) <==>
              forall u :: u in Attached(w, policy) && u in before && u !in after ==> u in w.recorded
  {
    if forall u :: u in Attached(w, policy) && u in before && u !in after ==> u in w.recorded {
      forall u | u in Attached(w, policy) ensures u in w.recorded || u in after {
      }
    }
  }

  /** A completed pass makes every later edit safe. */
  lemma CompletedAllowsEdits(pre: World, policy: string, desired: seq<string>, l: Log, post: World, after: seq<string>)
    requires Pass(pre, policy, desired, l, post, Completed) && Known(pre, policy, desired)
    ensures Known(post, policy, after)
  {
    CompletedExactly(pre, policy, desired, l, post);
  }

  /** A failed attach forgets the subjects behind it: both users have the policy, the
      repetition of the first attach fails, the list is then emptied, and the
      completed pass leaves both attached. */
  lemma TruncationForgets(a: string, b: string, policy: string)
    returns (w0: World, w1: World, w2: World, l1: Log, l2: Log)
    requires a != b
    ensures w0.recorded == [a, b] && Attached(w0, policy) == {a, b} && Known(w0, policy, [])
    ensures Pass(w0, policy, [a, b], l1, w1, Failed) && w1.users == w0.users && w1.recorded == []
    ensures Pass(w1, policy, [], l2, w2, Completed) && Attached(w2, policy) == {a, b}
  {
    var users := map[a := {policy}, b := {policy}];
    w0 := World(users, {policy}, [a, b], policy, true);
    w1 := w0.(recorded := []);
    w2 := w1;
    l1, l2 := Log([], [], true), Log([], [], true);
    assert Attached(w0, policy) == {a, b};
    DroppedIs([a, b], [a, b]);
    assert After(users, policy, [], []) == users;
    assert [a, b][..0] == [] && Present(users, []) == [];
    assert RecordsAttaches(w0, [a, b], l1, []);
  }

  // ---------------------------------------------------------------- pinning and deletion

  /** p is the policy of a pass: the pinned one; for attachments recorded without one
      the literal reference; for a new resource what the reference resolves to. */
  predicate Binds(w: World, refName: string, resolved: Option<string>, p: string) {
    || (w.pinned != "" && p == w.pinned)
    || (w.pinned == "" && w.recorded != [] && p == refName)
    || (w.pinned == "" && w.recorded == [] && resolved == Some(p))
  }

  /** A pass can complete exactly when such a policy is known and stored and every
      subject resolves. */
  lemma ReadyExactly(w: World, refName: string, resolved: Option<string>, desired: Option<seq<string>>)
    ensures Ready(w, PolicyOf(w, refName, resolved), desired) <==>
              w.finalizer && desired.Some? && exists p :: Binds(w, refName, resolved, p) && p in w.policies
  {
    var policy := PolicyOf(w, refName, resolved);
    assert policy.Some? ==> Binds(w, refName, resolved, policy.value);
  }

  /** A completed pass attaches that policy to every listed user that exists, detaches
      it from every recorded user no longer listed, pins the resource to it, and
      changes no other policy. */
  lemma CompletedBinds(pre: World, refName: string, resolved: Option<string>, p: string, desired: seq<string>, l: Log, post: World)
    requires Binds(pre, refName, resolved, p) && Ready(pre, PolicyOf(pre, refName, resolved), Some(desired))
    requires Pass(pre, PolicyOf(pre, refName, resolved).value, desired, l, post, Completed)
    ensures post.pinned == p && p in pre.policies && post.users.Keys == pre.users.Keys
    ensures forall u :: u in desired && u in pre.users ==> p in post.users[u]
    ensures forall u :: u in pre.recorded && u !in desired && u in pre.users ==> p !in post.users[u]
    ensures forall u, q :: u in pre.users && q != p ==> (q in post.users[u] <==> q in pre.users[u])
  {
    CompletedExactly(pre, p, desired, l, post);
    assert forall u :: u in desired && u in pre.users ==> u in Attached(post, p);
    DroppedIs(pre.recorded, desired);
    hide Dropped, Present;
  }

  /** Once pinned, no change of the reference makes a pass touch another policy, and
      the pin never changes. */
  lemma PinnedStays(pre: World, refName: string, resolved: Option<string>, desired: seq<string>, l: Log, post: World, outcome: Outcome)
    requires pre.pinned != "" && Ready(pre, PolicyOf(pre, refName, resolved), Some(desired))
    requires Pass(pre, PolicyOf(pre, refName, resolved).value, desired, l, post, outcome)
    ensures post.pinned == pre.pinned
    ensures forall q :: q != pre.pinned ==> Attached(post, q) == Attached(pre, q)
  {
    PassBounds(pre, pre.pinned, desired, l, post, outcome);
    forall q | q != pre.pinned ensures Attached(post, q) == Attached(pre, q) {
      assert forall u :: u in Attached(post, q) <==> u in Attached(pre, q);
    }
  }

  /** Reclaim Delete detaches the recorded users one by one before the finalizer goes. */
  method HandleDeletion(s: Store, policy: string, retain: bool) returns (done: bool)
    modifies s
    ensures !old(s.finalizer) ==> !done && s.View() == old(s.View())
    ensures s.recorded == old(s.recorded) && s.pinned == old(s.pinned) && s.policies == old(s.policies)
    ensures exists n :: 0 <= n <= |s.recorded| && s.users == After(old(s.users), policy, s.recorded[..n], [])
    ensures done ==> !s.finalizer && s.users == After(old(s.users), policy, if retain then [] else s.recorded, [])
    ensures retain ==> s.users == old(s.users)
    ensures old(s.finalizer) && !s.finalizer ==> s.users == After(old(s.users), policy, if retain then [] else s.recorded, [])
    ensures AllOk(old(s.faults)) ==> done == old(s.finalizer)
  {
    assert After(s.users, policy, [], []) == s.users;
    assert s.recorded[..0] == [];
    if !s.finalizer { return false; }
    if !retain {
      var i := 0;
      while i < |s.recorded|
        invariant 0 <= i <= |s.recorded| && s.recorded == old(s.recorded) && s.pinned == old(s.pinned)
        invariant s.policies == old(s.policies) && s.finalizer
        invariant s.users == After(old(s.users), policy, s.recorded[..i], [])
        invariant AllOk(old(s.faults)) ==> AllOk(s.faults)
      {
        AfterOne(old(s.users), policy, s.recorded[..i], s.recorded[i]);
        assert s.recorded[..i] + [s.recorded[i]] == s.recorded[..i + 1];
        done := s.Detach(s.recorded[i], policy);
        if !done { return; }
        i := i + 1;
      }
      assert s.recorded[..i] == s.recorded;
    }
    var release := s.NextFault();
    if !release.Lost? { s.finalizer := false; }
    return release.Ok?;
  }

  /** Nobody keeps the policy after a completed deletion exactly when every attached
      user was recorded. */
  lemma DeletionExactly(pre: World, policy: string, post: World)
    requires post.users == After(pre.users, policy, pre.recorded, [])
    ensures Attached(post, policy) == Attached(pre, policy) - (set u | u in pre.recorded)
    ensures Attached(post, policy) == {} <==> Known(pre, policy, [])
  {
    assert forall u :: u in Attached(post, policy) <==> u in Attached(pre, policy) && u !in pre.recorded;
    if Attached(post, policy) == {} {
      forall u | u in Attached(pre, policy) ensures u in pre.recorded {
        assert u !in Attached(post, policy);
      }
    }
  }
}
