/** S3Identity resources claiming IAM user names: the oldest claimant of a name owns
    the user, later ones stand down, and ownership passes on at deletion. */
module Identity {
  import opened Text

  datatype Ref = Ref(namespace: string, name: string)

  datatype Key = Key(namespace: string, name: string)

  datatype Account = Account(displayName: string, email: string, disabled: bool)

  datatype Claim = Claim(namespace: string, name: string, created: int, specName: string, cluster: Ref,
                         account: Account, retain: bool, deleting: bool, finalizer: bool, status: string)

  function KeyOf(c: Claim): Key { Key(c.namespace, c.name) }

  function IamName(c: Claim): string { if c.specName != "" then c.specName else c.name }

  function RefKey(ref: Ref, ownNamespace: string): string {
    (if ref.namespace == "" then ownNamespace else ref.namespace) + "/" + ref.name
  }

  function ClusterOf(c: Claim): string { RefKey(c.cluster, c.namespace) }

  /** The key identifies the cluster: namespaces never contain a slash. */
  lemma RefKeySame(r: Ref, n: string, s: Ref, m: string)
    requires '/' !in r.namespace && '/' !in n && '/' !in s.namespace && '/' !in m
    ensures RefKey(r, n) == RefKey(s, m) <==>
              (if r.namespace == "" then n else r.namespace) == (if s.namespace == "" then m else s.namespace) && r.name == s.name
  {
    var a, b := if r.namespace == "" then n else r.namespace, if s.namespace == "" then m else s.namespace;
    SplitPart(a, r.name, '/');
    SplitPart(b, s.name, '/');
    assert a == Split(RefKey(r, n), '/')[0] && b == Split(RefKey(s, m), '/')[0];
    assert RefKey(r, n)[|a| + 1..] == r.name && RefKey(s, m)[|b| + 1..] == s.name;
  }

  // ---------------------------------------------------------------- precedence

  /** Older first, then namespace, then name. */
  predicate Precedes(a: Claim, b: Claim) {
    if a.created != b.created then a.created < b.created
    else if a.namespace != b.namespace then StrLess(a.namespace, b.namespace)
    else StrLess(a.name, b.name)
  }

  /** On claims with distinct keys precedence is a strict total order: the older claim
      first, then the lesser namespace, then the lesser name. */
  lemma PrecedesTotal(a: Claim, b: Claim)
    ensures a.created < b.created ==> Precedes(a, b)
    ensures a.created == b.created && StrLess(a.namespace, b.namespace) ==> Precedes(a, b)
    ensures a.created == b.created && a.namespace == b.namespace && StrLess(a.name, b.name) ==> Precedes(a, b)
    ensures !(Precedes(a, b) && Precedes(b, a))
    ensures KeyOf(a) == KeyOf(b) && a.created == b.created ==> !Precedes(a, b)
    ensures KeyOf(a) != KeyOf(b) ==> Precedes(a, b) || Precedes(b, a)
  {
    StrLessTotal(a.namespace, b.namespace);
    StrLessTotal(a.name, b.name);
  }

  lemma PrecedesTransitive(a: Claim, b: Claim, c: Claim)
    requires Precedes(a, b) && Precedes(b, c)
    ensures Precedes(a, c)
  {
    if a.created == b.created == c.created {
      StrLessTotal(a.namespace, b.namespace);
      if a.namespace == b.namespace == c.namespace {
        StrLessTransitive(a.name, b.name, c.name);
      } else if a.namespace != b.namespace && b.namespace != c.namespace {
        StrLessTransitive(a.namespace, b.namespace, c.namespace);
        StrLessTotal(a.namespace, c.namespace);
      }
    }
  }

  // ---------------------------------------------------------------- claimants and conflicts

  predicate IsClaimant(peer: Claim, self: Claim) {
    KeyOf(peer) != KeyOf(self) && !peer.deleting && IamName(peer) == IamName(self) && ClusterOf(peer) == ClusterOf(self)
  }

  /** Claims by key, and each cluster's IAM users. */
  datatype State = State(claims: map<Key, Claim>, users: map<string, map<string, Account>>)

  predicate WellKeyed(s: State) {
    forall k :: k in s.claims ==> KeyOf(s.claims[k]) == k
  }

  /** No other live claimant outranks self. */
  predicate Owns(s: State, self: Claim) {
    forall k :: k in s.claims && IsClaimant(s.claims[k], self) ==> Precedes(self, s.claims[k])
  }

  /** w is the live claimant that outranks all others, self included. */
  predicate Outranks(s: State, self: Claim, w: Claim) {
    && KeyOf(w) in s.claims && s.claims[KeyOf(w)] == w && IsClaimant(w, self) && Precedes(w, self)
    && forall k :: k in s.claims && IsClaimant(s.claims[k], self) && k != KeyOf(w) ==> Precedes(w, s.claims[k])
  }

  predicate Contested(s: State, self: Claim) {
    exists k :: k in s.claims && IsClaimant(s.claims[k], self)
  }

  /** The order in which the API server lists the claims. */
  ghost predicate Lists(order: seq<Key>, s: State) {
    forall k :: k in order <==> k in s.claims
  }

  method IdentityClaimants(s: State, order: seq<Key>, self: Claim) returns (out: seq<Claim>)
    requires Lists(order, s) && WellKeyed(s)
    ensures forall p :: p in out <==> KeyOf(p) in s.claims && s.claims[KeyOf(p)] == p && IsClaimant(p, self)
  {
    out := [];
    for i := 0 to |order|
      invariant forall p :: p in out <==> KeyOf(p) in order[..i] && s.claims[KeyOf(p)] == p && IsClaimant(p, self)
    {
      assert order[..i + 1] == order[..i] + [order[i]];
      var peer := s.claims[order[i]];
      if KeyOf(peer) == KeyOf(self) { continue; }
      if peer.deleting { continue; }
      if IamName(peer) != IamName(self) || ClusterOf(peer) != ClusterOf(self) { continue; }
      out := out + [peer];
    }
    assert order[..|order|] == order;
  }

  /** The claimant that outranks self, if any. */
  method IdentityConflict(s: State, order: seq<Key>, self: Claim) returns (winner: Option<Claim>)
    requires Lists(order, s) && WellKeyed(s)
    ensures winner.None? <==> Owns(s, self)
    ensures winner.Some? ==> Outranks(s, self, winner.value)
  {
    var peers := IdentityClaimants(s, order, self);
    winner := None;
    for i := 0 to |peers|
      invariant winner.None? <==> i == 0
      invariant winner.Some? ==> winner.value in peers[..i]
      invariant winner.Some? ==> forall p :: p in peers[..i] && p != winner.value ==> Precedes(winner.value, p)
    {
      assert peers[..i + 1] == peers[..i] + [peers[i]];
      var peer := peers[i];
      if winner.None? || Precedes(peer, winner.value) {
        if winner.Some? { DisplacedStaysBehind(peer, winner.value, peers[..i]); }
        winner := Some(peer);
      } else {
        assert winner.value in peers && peer in peers;
        PrecedesTotal(peer, winner.value);
      }
    }
    assert peers[..|peers|] == peers;
    AllPeers(s, self, peers);
    if winner.Some? {
      PrecedesTotal(self, winner.value);
      if Precedes(self, winner.value) {
        BeforeAll(s, self, winner.value, peers);
        winner := None;
      }
    }
  }

  lemma AllPeers(s: State, self: Claim, peers: seq<Claim>)
    requires WellKeyed(s)
    requires forall p :: p in peers <==> KeyOf(p) in s.claims && s.claims[KeyOf(p)] == p && IsClaimant(p, self)
    ensures forall k :: k in s.claims && IsClaimant(s.claims[k], self) ==> s.claims[k] in peers
    ensures peers == [] ==> Owns(s, self)
  {
  }

  lemma DisplacedStaysBehind(peer: Claim, winner: Claim, seen: seq<Claim>)
    requires Precedes(peer, winner) && forall p :: p in seen && p != winner ==> Precedes(winner, p)
    ensures forall p :: p in seen && p != peer ==> Precedes(peer, p)
  {
    forall p | p in seen && p != peer ensures Precedes(peer, p) {
      if p != winner { PrecedesTransitive(peer, winner, p); }
    }
  }

  lemma BeforeAll(s: State, self: Claim, winner: Claim, peers: seq<Claim>)
    requires Precedes(self, winner) && forall p :: p in peers && p != winner ==> Precedes(winner, p)
    requires forall k :: k in s.claims && IsClaimant(s.claims[k], self) ==> s.claims[k] in peers
    ensures Owns(s, self)
  {
    forall k | k in s.claims && IsClaimant(s.claims[k], self) ensures Precedes(self, s.claims[k]) {
      if s.claims[k] != winner { PrecedesTransitive(self, winner, s.claims[k]); }
    }
  }

  // ---------------------------------------------------------------- the election

  predicate Live(s: State, k: Key) {
    k in s.claims && !s.claims[k].deleting
  }

  /** The live claims of one IAM name on one cluster. */
  function Claims(s: State, cluster: string, name: string): set<Key> {
    set k | k in s.claims && !s.claims[k].deleting && IamName(s.claims[k]) == name && ClusterOf(s.claims[k]) == cluster
  }

  lemma {:induction false} Oldest(s: State, ks: set<Key>) returns (o: Key)
    requires WellKeyed(s) && ks != {} && forall k :: k in ks ==> k in s.claims
    ensures o in ks && forall k :: k in ks && k != o ==> Precedes(s.claims[o], s.claims[k])
    decreases |ks|
  {
    var first :| first in ks;
    var rest := ks - {first};
    assert forall k :: k in ks && k != first ==> k in rest;
    o := first;
    if rest != {} {
      var m := Oldest(s, rest);
      PrecedesTotal(s.claims[o], s.claims[m]);
      if Precedes(s.claims[m], s.claims[o]) {
        o := m;
      } else {
        forall k | k in rest && k != m ensures Precedes(s.claims[o], s.claims[k]) {
          PrecedesTransitive(s.claims[o], s.claims[m], s.claims[k]);
        }
      }
    }
  }

  /** Among the live claimants of a name exactly one sees no conflict, and every
      other one sees that one, whatever order the claims are listed in. */
  lemma ExactlyOneOwner(s: State, cluster: string, name: string) returns (o: Key)
    requires WellKeyed(s) && Claims(s, cluster, name) != {}
    ensures o in Claims(s, cluster, name) && Owns(s, s.claims[o])
    ensures forall k :: k in Claims(s, cluster, name) && k != o ==>
              !Owns(s, s.claims[k]) && forall w :: Outranks(s, s.claims[k], w) <==> w == s.claims[o]
  {
    o := Oldest(s, Claims(s, cluster, name));
    var owner := s.claims[o];
    assert forall k :: k in s.claims && IsClaimant(s.claims[k], owner) ==> k in Claims(s, cluster, name);
    forall k | k in Claims(s, cluster, name) && k != o
      ensures !Owns(s, s.claims[k]) && forall w :: Outranks(s, s.claims[k], w) <==> w == owner
    {
      var self := s.claims[k];
      assert IsClaimant(owner, self) && Precedes(owner, self);
      PrecedesTotal(owner, self);
      forall w ensures Outranks(s, self, w) <==> w == owner { OnlyOwnerOutranks(s, cluster, name, o, k, w); }
    }
  }

  lemma OnlyOwnerOutranks(s: State, cluster: string, name: string, o: Key, k: Key, w: Claim)
    requires WellKeyed(s) && o in Claims(s, cluster, name) && k in Claims(s, cluster, name) && k != o
    requires forall x :: x in Claims(s, cluster, name) && x != o ==> Precedes(s.claims[o], s.claims[x])
    ensures Outranks(s, s.claims[k], w) <==> w == s.claims[o]
  {
    var owner, self := s.claims[o], s.claims[k];
    PrecedesTotal(owner, w);
    if Outranks(s, self, w) {
      assert IsClaimant(owner, self);
      assert KeyOf(w) in Claims(s, cluster, name);
    }
    forall x | x in s.claims && IsClaimant(s.claims[x], self) && x != o ensures Precedes(owner, s.claims[x]) {
      assert x in Claims(s, cluster, name);
    }
  }

  // ---------------------------------------------------------------- passes

  function UserAt(s: State, cluster: string, name: string): Option<Account> {
    if cluster in s.users && name in s.users[cluster] then Some(s.users[cluster][name]) else None
  }

  function WithUser(users: map<string, map<string, Account>>, cluster: string, name: string, a: Account): map<string, map<string, Account>> {
    users[cluster := (if cluster in users then users[cluster] else map[])[name := a]]
  }

  function WithoutUser(users: map<string, map<string, Account>>, cluster: string, name: string): map<string, map<string, Account>> {
    if cluster in users then users[cluster := users[cluster] - {name}] else users
  }

  /** The recorded name forbids renames. */
  predicate NameKept(c: Claim) { c.status == "" || c.status == IamName(c) }

  /** What a pass over a live claim may leave: only the owner writes the user, and it
      writes exactly its spec. */
  predicate ReconcileStep(s: State, k: Key, t: State, done: bool)
    requires k in s.claims
  {
    var c := s.claims[k];
    var written := WithUser(s.users, ClusterOf(c), IamName(c), c.account);
    var recorded := s.claims[k := c.(status := IamName(c))];
    if !Owns(s, c) || !NameKept(c) then t == s && !done
    else if !c.finalizer then !done && (t == s || t == State(s.claims[k := c.(finalizer := true)], s.users))
    else if done then t == State(recorded, written)
    else t == s || t == State(s.claims, written) || t == State(recorded, written)
  }

  /** What a deletion pass may leave: the user goes only when no live claimant is left. */
  predicate ReleaseStep(s: State, k: Key, t: State, done: bool)
    requires k in s.claims
  {
    var c := s.claims[k];
    var users := if c.retain || Contested(s, c) then s.users else WithoutUser(s.users, ClusterOf(c), IamName(c));
    if !c.finalizer || !NameKept(c) then t == s && !done
    else if done then t == State(s.claims - {k}, users)
    else t == s || t == State(s.claims, users) || t == State(s.claims - {k}, users)
  }

  /** The API server's claims and the IAM users, with the faults still to come. */
  class Api {
    var claims: map<Key, Claim>
    var users: map<string, map<string, Account>>
    var faults: seq<Fault>

    ghost function View(): State
      reads this
    {
      State(claims, users)
    }

    constructor (s: State, faults: seq<Fault>)
      ensures View() == s && this.faults == faults
    {
      claims, users, this.faults := s.claims, s.users, faults;
    }

    method NextFault() returns (f: Fault)
      modifies this`faults
      ensures AllOk(old(faults)) ==> f.Ok? && AllOk(faults)
    {
      f := FaultAt(faults, 0);
      if faults != [] { faults := faults[1..]; }
    }

    /** A pass over a live claim; `order` is how the API server lists the claims. */
    method Reconcile(k: Key, order: seq<Key>) returns (done: bool)
      requires WellKeyed(View()) && Lists(order, View()) && k in claims && !claims[k].deleting
      modifies this
      ensures ReconcileStep(old(View()), k, View(), done)
      ensures AllOk(old(faults)) ==>
                done == (Owns(old(View()), old(claims[k])) && NameKept(old(claims[k])) && old(claims[k]).finalizer)
      ensures AllOk(old(faults)) && Owns(old(View()), old(claims[k])) && NameKept(old(claims[k])) ==>
                k in claims && claims[k].finalizer
    {
      hide Owns, Outranks;
      var c := claims[k];
      var cluster, name := ClusterOf(c), IamName(c);
      if c.status != "" && c.status != name { return false; }
      var list := NextFault();
      if !list.Ok? { return false; }
      var owner := IdentityConflict(State(claims, users), order, c);
      if owner.Some? { return false; }
      if !c.finalizer {
        var protect := NextFault();
        if !protect.Lost? { claims := claims[k := c.(finalizer := true)]; }
        return false;
      }
      var lookup := NextFault();
      if !lookup.Ok? { return false; }
      done := EnsureUser(cluster, name, c.account);
      if !done { return; }
      var save := NextFault();
      if !save.Lost? { claims := claims[k := c.(status := name)]; }
      return save.Ok?;
    }

    /** Create the user when missing, rewrite its account when it drifted. */
    method EnsureUser(cluster: string, name: string, a: Account) returns (ok: bool)
      modifies this`users, this`faults
      ensures users == old(users) || users == WithUser(old(users), cluster, name, a)
      ensures ok ==> users == WithUser(old(users), cluster, name, a)
      ensures AllOk(old(faults)) ==> ok && AllOk(faults)
    {
      var known := if cluster in users then users[cluster] else map[];
      if name !in known || known[name] != a {
        var fault := NextFault();
        if !fault.Lost? { users := users[cluster := known[name := a]]; }
        return fault.Ok?;
      }
      assert known[name := a] == known;
      assert users[cluster := known] == users;
      ok := true;
    }

    method HandleDeletion(k: Key, order: seq<Key>) returns (done: bool)
      requires WellKeyed(View()) && Lists(order, View()) && k in claims && claims[k].deleting
      modifies this
      ensures ReleaseStep(old(View()), k, View(), done)
      ensures AllOk(old(faults)) ==> done == (NameKept(old(claims[k])) && old(claims[k]).finalizer)
    {
      var c := claims[k];
      if c.status != "" && c.status != IamName(c) { return false; }
      if !c.finalizer { return false; }
      var list := NextFault();
      if !list.Ok? { return false; }
      var peers := IdentityClaimants(State(claims, users), order, c);
      AllPeers(View(), c, peers);
      assert Contested(View(), c) <==> peers != [] by {
        if peers != [] {
          assert peers[0] in peers;
          assert KeyOf(peers[0]) in claims && IsClaimant(claims[KeyOf(peers[0])], c);
        }
      }
      if !c.retain && |peers| == 0 {
        var drop := NextFault();
        if !drop.Lost? { users := WithoutUser(users, ClusterOf(c), IamName(c)); }
        if !drop.Ok? { return false; }
      }
      var release := NextFault();
      if !release.Lost? { claims := claims - {k}; }
      return release.Ok?;
    }

    /** The keys enqueued when claim c changed: its live rivals. */
    method MapToNameClaimants(c: Claim, order: seq<Key>) returns (keys: seq<Key>)
      requires WellKeyed(View()) && Lists(order, View())
      ensures forall k :: k in keys <==> k in claims && IsClaimant(claims[k], c)
    {
      var peers := IdentityClaimants(State(claims, users), order, c);
      keys := [];
      for i := 0 to |peers|
        invariant forall k :: k in keys <==> exists p :: p in peers[..i] && KeyOf(p) == k
      {
        assert peers[..i + 1] == peers[..i] + [peers[i]];
        keys := keys + [KeyOf(peers[i])];
      }
      assert peers[..|peers|] == peers;
      AllPeers(View(), c, peers);
    }
  }

  // ---------------------------------------------------------------- names, spelled out

  /** The cluster two claims refer to, each with its own namespace as the default. */
  predicate SameCluster(a: Claim, b: Claim) {
    && a.cluster.name == b.cluster.name
    && (if a.cluster.namespace == "" then a.namespace else a.cluster.namespace) ==
       (if b.cluster.namespace == "" then b.namespace else b.cluster.namespace)
  }

  predicate SlashFree(c: Claim) { '/' !in c.namespace && '/' !in c.cluster.namespace }

  /** Another live claim of the cluster is a rival exactly when the two spell the same
      name, in spec.name or, where that is empty, as the resource's own name. */
  lemma RivalsExactly(a: Claim, b: Claim)
    requires SlashFree(a) && SlashFree(b)
    ensures IsClaimant(a, b) <==>
              && (a.namespace != b.namespace || a.name != b.name) && !a.deleting && SameCluster(a, b)
              && (|| (a.specName != "" && a.specName == b.specName)
                  || (a.specName == "" && b.specName != "" && a.name == b.specName)
                  || (a.specName != "" && b.specName == "" && a.specName == b.name)
                  || (a.specName == "" && b.specName == "" && a.name == b.name))
  {
    RefKeySame(a.cluster, a.namespace, b.cluster, b.namespace);
  }

  /** The user a completed pass writes is called spec.name, or when that is empty the
      resource's own name, on the claim's cluster; status records that name, and no
      other user of any cluster changes. */
  lemma DoneWritesNamedUser(s: State, k: Key, t: State)
    requires k in s.claims && ReconcileStep(s, k, t, true)
    ensures var c := s.claims[k];
            var cluster := (if c.cluster.namespace == "" then c.namespace else c.cluster.namespace) + "/" + c.cluster.name;
            && (c.specName != "" ==> UserAt(t, cluster, c.specName) == Some(c.account) && t.claims[k].status == c.specName)
            && (c.specName == "" ==> UserAt(t, cluster, c.name) == Some(c.account) && t.claims[k].status == c.name)
            && forall d, n :: d != cluster || n != (if c.specName == "" then c.name else c.specName) ==>
                 UserAt(t, d, n) == UserAt(s, d, n)
  {
    hide Owns;
  }

  /** A completed deletion under reclaim Delete without a live claimant removes the user
      of that name, and no other. */
  lemma DoneRemovesNamedUser(s: State, k: Key, t: State)
    requires k in s.claims && s.claims[k].finalizer && ReleaseStep(s, k, t, true)
    ensures var c := s.claims[k];
            var cluster := (if c.cluster.namespace == "" then c.namespace else c.cluster.namespace) + "/" + c.cluster.name;
            var name := if c.specName != "" then c.specName else c.name;
            && (!c.retain && !Contested(s, c) ==> UserAt(t, cluster, name).None?)
            && (forall d, n :: d != cluster || n != name || c.retain || Contested(s, c) ==> UserAt(t, d, n) == UserAt(s, d, n))
  {
    hide Contested;
  }

  // ---------------------------------------------------------------- runs

  datatype Event =
    | Added(key: Key)
    | Deleting(key: Key)
    | Edited(key: Key)
    | Reconciled(key: Key, done: bool)
    | Released(key: Key, done: bool)

  /** One event; the effective name and the cluster of a claim never change. */
  predicate Step(s: State, e: Event, t: State) {
    var k := e.key;
    match e
    case Added(_) =>
      && k !in s.claims && k in t.claims && t == s.(claims := s.claims[k := t.claims[k]])
      && KeyOf(t.claims[k]) == k && !t.claims[k].deleting && !t.claims[k].finalizer && t.claims[k].status == ""
    case Deleting(_) =>
      k in s.claims &&
      t == s.(claims := if s.claims[k].finalizer then s.claims[k := s.claims[k].(deleting := true)] else s.claims - {k})
    case Edited(_) =>
      && k in s.claims && k in t.claims
      && t == s.(claims := s.claims[k := s.claims[k].(account := t.claims[k].account, retain := t.claims[k].retain)])
    case Reconciled(_, done) => k in s.claims && !s.claims[k].deleting && ReconcileStep(s, k, t, done)
    case Released(_, done) => k in s.claims && s.claims[k].deleting && ReleaseStep(s, k, t, done)
  }

  ghost predicate Run(ss: seq<State>, es: seq<Event>) {
    |ss| == |es| + 1 && WellKeyed(ss[0]) && forall i :: 0 <= i < |es| ==> Step(ss[i], es[i], ss[i + 1])
  }

  /** Only the acting claim can change, and what identifies it never does. */
  lemma StepFrame(s: State, e: Event, t: State)
    requires WellKeyed(s) && Step(s, e, t)
    ensures WellKeyed(t)
    ensures forall k :: k != e.key ==> (k in s.claims <==> k in t.claims) && (k in s.claims ==> s.claims[k] == t.claims[k])
    ensures e.key in s.claims && e.key in t.claims ==> SameClaim(s.claims[e.key], t.claims[e.key])
  {
    hide Owns, Contested, WithUser, WithoutUser;
  }

  predicate SameClaim(a: Claim, b: Claim) {
    && KeyOf(a) == KeyOf(b) && a.created == b.created && IamName(a) == IamName(b) && ClusterOf(a) == ClusterOf(b)
    && (a.deleting ==> b.deleting)
  }

  lemma {:induction false} RunKeyed(ss: seq<State>, es: seq<Event>, n: nat)
    requires Run(ss, es) && n < |ss|
    ensures WellKeyed(ss[n])
  {
    if n > 0 {
      RunKeyed(ss, es, n - 1);
      StepFrame(ss[n - 1], es[n - 1], ss[n]);
    }
  }

  /** A user changes only in two ways: the live owner of its name writes exactly the
      owner's account, or a deletion pass removes it when no live claim is left. */
  lemma OnlyOwnerWrites(s: State, e: Event, t: State, cluster: string, name: string)
    requires WellKeyed(s) && Step(s, e, t) && UserAt(t, cluster, name) != UserAt(s, cluster, name)
    ensures e.key in s.claims && ClusterOf(s.claims[e.key]) == cluster && IamName(s.claims[e.key]) == name
    ensures UserAt(t, cluster, name).Some? ==>
              e.Reconciled? && Owns(s, s.claims[e.key]) && e.key in Claims(s, cluster, name) &&
              UserAt(t, cluster, name) == Some(s.claims[e.key].account)
    ensures UserAt(t, cluster, name).None? ==>
              e.Released? && !s.claims[e.key].retain && Claims(s, cluster, name) == {}
  {
    hide Owns;
    if e.Released? { ContestedExactly(s, e.key); }
  }

  /** A terminating claim is contested exactly when its name has a live claimant. */
  lemma ContestedExactly(s: State, k: Key)
    requires WellKeyed(s) && k in s.claims && s.claims[k].deleting
    ensures Contested(s, s.claims[k]) <==> Claims(s, ClusterOf(s.claims[k]), IamName(s.claims[k])) != {}
  {
    var c := s.claims[k];
    var claims := Claims(s, ClusterOf(c), IamName(c));
    if claims != {} {
      var p :| p in claims;
      assert IsClaimant(s.claims[p], c);
    } else {
      assert forall p :: p in s.claims && IsClaimant(s.claims[p], c) ==> p in claims;
    }
  }

  /** While a name has a live claimant its user is never removed. */
  lemma {:induction false} UserOutlivesClaims(ss: seq<State>, es: seq<Event>, cluster: string, name: string, n: nat)
    requires Run(ss, es) && n < |ss| && UserAt(ss[0], cluster, name).Some?
    requires forall i :: 0 <= i < n ==> Claims(ss[i], cluster, name) != {}
    ensures UserAt(ss[n], cluster, name).Some?
  {
    if n > 0 {
      UserOutlivesClaims(ss, es, cluster, name, n - 1);
      RunKeyed(ss, es, n - 1);
      assert Step(ss[n - 1], es[n - 1], ss[n]);
      if UserAt(ss[n], cluster, name) != UserAt(ss[n - 1], cluster, name) {
        OnlyOwnerWrites(ss[n - 1], es[n - 1], ss[n], cluster, name);
      }
    }
  }

  /** A completed deletion removes the user exactly when it existed and reclaim is
      Delete and no live claimant is left to take it over. */
  lemma ReleaseRemovesExactly(s: State, k: Key, t: State)
    requires WellKeyed(s) && k in s.claims && s.claims[k].deleting && ReleaseStep(s, k, t, true)
    ensures var c := s.claims[k];
            UserAt(t, ClusterOf(c), IamName(c)).None? <==>
              UserAt(s, ClusterOf(c), IamName(c)).None? || (!c.retain && Claims(s, ClusterOf(c), IamName(c)) == {})
  {
    ContestedExactly(s, k);
  }

  // ---------------------------------------------------------------- stability of the owner

  /** A new claim displaces the owner exactly when it claims the same name on the same
      cluster and ranks higher, which a strictly newer one never does. */
  lemma AddedDisplaces(s: State, t: State, x: Key, o: Key)
    requires WellKeyed(s) && Step(s, Added(x), t) && Live(s, o) && Owns(s, s.claims[o])
    ensures Owns(t, t.claims[o]) <==> !(IsClaimant(t.claims[x], t.claims[o]) && Precedes(t.claims[x], t.claims[o]))
    ensures t.claims[x].created > s.claims[o].created ==> Owns(t, t.claims[o])
  {
    assert x != o && t.claims[o] == s.claims[o];
    PrecedesTotal(t.claims[x], t.claims[o]);
  }

  predicate OwnsLive(s: State, o: Key) {
    Live(s, o) && Owns(s, s.claims[o])
  }

  /** A rival added in this event ranks below the owner. */
  predicate Newer(s: State, e: Event, t: State, o: Key) {
    o in t.claims && e.Added? && e.key in t.claims && IsClaimant(t.claims[e.key], t.claims[o]) ==>
      Precedes(t.claims[o], t.claims[e.key])
  }

  lemma OwnerStaysStep(s: State, e: Event, t: State, o: Key)
    requires WellKeyed(s) && Step(s, e, t) && OwnsLive(s, o) && Live(t, o) && Newer(s, e, t, o)
    ensures OwnsLive(t, o)
  {
    StepFrame(s, e, t);
    hide ReconcileStep, ReleaseStep;
    var a, b := s.claims[o], t.claims[o];
    forall k | k in t.claims && IsClaimant(t.claims[k], b) ensures Precedes(b, t.claims[k]) {
      if k in s.claims {
        assert IsClaimant(s.claims[k], a);
      }
    }
  }

  /** A run in which claim o stays live and every rival added ranks below it. */
  ghost predicate Reign(ss: seq<State>, es: seq<Event>, o: Key) {
    && Run(ss, es)
    && (forall i :: 0 <= i < |ss| ==> Live(ss[i], o))
    && (forall i :: 0 <= i < |es| ==> Newer(ss[i], es[i], ss[i + 1], o))
  }

  /** Through any such run the owner of the first state is elected in every state. */
  lemma {:induction false} OwnerStays(ss: seq<State>, es: seq<Event>, o: Key, n: nat)
    requires Reign(ss, es, o) && n < |ss| && OwnsLive(ss[0], o)
    ensures OwnsLive(ss[n], o)
  {
    if n > 0 {
      OwnerStays(ss, es, o, n - 1);
      RunKeyed(ss, es, n - 1);
      OwnerStaysStep(ss[n - 1], es[n - 1], ss[n], o);
    }
  }

  lemma OwnersAgree(s: State, a: Key, b: Key)
    requires WellKeyed(s) && OwnsLive(s, a) && OwnsLive(s, b)
    requires IamName(s.claims[a]) == IamName(s.claims[b]) && ClusterOf(s.claims[a]) == ClusterOf(s.claims[b])
    ensures a == b
  {
    PrecedesTotal(s.claims[a], s.claims[b]);
    assert IsClaimant(s.claims[a], s.claims[b]) == IsClaimant(s.claims[b], s.claims[a]) == (a != b);
  }

  /** The user carries the account of claim c. */
  predicate Settled(s: State, o: Key, c: Claim) {
    && UserAt(s, ClusterOf(c), IamName(c)) == Some(c.account)
    && Live(s, o) && SameClaim(c, s.claims[o]) && s.claims[o].account == c.account
  }

  lemma SettledStep(s: State, e: Event, t: State, o: Key, c: Claim)
    requires WellKeyed(s) && Step(s, e, t) && Live(t, o) && e != Edited(o)
    requires OwnsLive(s, o) && Settled(s, o, c)
    ensures Settled(t, o, c)
  {
    StepFrame(s, e, t);
    if UserAt(t, ClusterOf(c), IamName(c)) != UserAt(s, ClusterOf(c), IamName(c)) {
      OnlyOwnerWrites(s, e, t, ClusterOf(c), IamName(c));
      assert o in Claims(s, ClusterOf(c), IamName(c));
      OwnersAgree(s, e.key, o);
    }
    hide Owns;
  }

  /** After the owner's completed pass the user carries the owner's account, and keeps
      it through every run in which the owner stays live, unedited and unsurpassed. */
  lemma {:induction false} SettledStays(ss: seq<State>, es: seq<Event>, o: Key, n: nat)
    requires Reign(ss, es, o) && 1 <= n < |ss| && OwnsLive(ss[0], o)
    requires forall i :: 0 <= i < |es| ==> es[i] != Edited(o)
    requires es[0] == Reconciled(o, true)
    ensures Settled(ss[n], o, ss[0].claims[o])
  {
    assert Step(ss[n - 1], es[n - 1], ss[n]) && Live(ss[n], o);
    if n > 1 {
      RunKeyed(ss, es, n - 1);
      SettledStays(ss, es, o, n - 1);
      OwnerStays(ss, es, o, n - 1);
      SettledStep(ss[n - 1], es[n - 1], ss[n], o, ss[0].claims[o]);
    } else {
      StepFrame(ss[0], es[0], ss[1]);
    }
  }

  // ---------------------------------------------------------------- promotion of the next claimant

  predicate OutrankedBy(s: State, self: Claim, k: Key) {
    k in s.claims && Outranks(s, self, s.claims[k])
  }

  lemma VerdictUnchanged(s: State, e: Event, t: State, y: Key, seen: Claim)
    requires WellKeyed(s) && Step(s, e, t) && Live(s, y) && Live(t, y) && y != e.key
    requires if e.key in t.claims then seen == t.claims[e.key] else e.key in s.claims && seen == s.claims[e.key]
    requires !IsClaimant(s.claims[y], seen)
    ensures s.claims[y] == t.claims[y] && (Owns(s, s.claims[y]) <==> Owns(t, s.claims[y]))
    ensures forall w :: OutrankedBy(s, s.claims[y], w) <==> OutrankedBy(t, s.claims[y], w)
  {
    StepFrame(s, e, t);
    hide ReconcileStep, ReleaseStep, Precedes, Step;
    var self := s.claims[y];
    assert forall k :: k in t.claims && IsClaimant(t.claims[k], self) ==> k in s.claims && k != e.key && s.claims[k] == t.claims[k];
    assert forall k :: k in s.claims && IsClaimant(s.claims[k], self) ==> k in t.claims && k != e.key && s.claims[k] == t.claims[k];
  }

  /** Whatever happens to one claim, every other live claim whose verdict changes (it
      becomes or stops being owner, or sees another winner) is a rival of that claim,
      so the watch enqueues it. */
  lemma ChangedVerdictEnqueued(s: State, e: Event, t: State, y: Key, w: Key, seen: Claim)
    requires WellKeyed(s) && Step(s, e, t) && Live(s, y) && Live(t, y) && y != e.key
    requires if e.key in t.claims then seen == t.claims[e.key] else e.key in s.claims && seen == s.claims[e.key]
    requires Owns(s, s.claims[y]) != Owns(t, t.claims[y]) || OutrankedBy(s, s.claims[y], w) != OutrankedBy(t, t.claims[y], w)
    ensures IsClaimant(t.claims[y], seen)
  {
    StepFrame(s, e, t);
    hide ReconcileStep, ReleaseStep, Owns, OutrankedBy, Step;
    if !IsClaimant(s.claims[y], seen) {
      VerdictUnchanged(s, e, t, y, seen);
      assert false;
    }
  }
}
