/** Backup schedules: when a tick fires, what retention deletes, and why the two do
    not disturb each other. Times are nanoseconds; object timestamps are whole seconds. */
module Scheduler {
  import opened Text

  const SECOND: int := 1_000_000_000

  /** Go's zero time, the answer for an empty history and of a cron without instants. */
  const ZERO: int := 0

  function Floor(t: int): (r: int)
    ensures r % SECOND == 0 && r <= t < r + SECOND
  {
    t - t % SECOND
  }

  datatype Phase = Pending | Running | Completed | Failed

  datatype Backup = Backup(name: string, created: int, phase: Phase)

  predicate Terminal(b: Backup) { b.phase.Completed? || b.phase.Failed? }

  /** A schedule's backups by name, and the scheduler's anchors by schedule. */
  datatype State = State(history: map<string, Backup>, anchors: map<string, int>)

  predicate Stamped(h: map<string, Backup>) {
    forall n :: n in h ==> h[n].name == n && h[n].created > ZERO && h[n].created % SECOND == 0
  }

  // ---------------------------------------------------------------- cron

  /** `next` answers the earliest instant of the cron strictly after a time; instants
      are whole seconds. */
  ghost predicate Cron(next: int -> int, instant: int -> bool) {
    && (forall t: int :: next(t) > t && instant(next(t)))
    && (forall t: int, x: int :: instant(x) && x > t ==> next(t) <= x)
    && (forall x: int :: instant(x) ==> x % SECOND == 0)
  }

  /** The fire decision, as the tick makes it. */
  predicate Due(next: int -> int, last: int, now: int) { next(last) <= now }

  /** A tick is due exactly when an instant lies after the last run and not after now. */
  lemma DueExactly(next: int -> int, instant: int -> bool, last: int, now: int)
    requires Cron(next, instant)
    ensures Due(next, last, now) <==> exists x :: instant(x) && last < x <= now
  {
    assert instant(next(last)) && last < next(last);
  }

  predicate IsInstant(instant: int -> bool, after: int, upTo: int, x: int) { instant(x) && after < x <= upTo }

  /** An instant lies after one time and not after another. */
  ghost predicate Comes(instant: int -> bool, after: int, upTo: int) {
    exists x :: IsInstant(instant, after, upTo, x)
  }

  /** As far as the search from the last run reaches, or up to now if that is later. */
  function Horizon(reach: int -> int, last: int, now: int): int { if reach(last) > now then reach(last) else now }

  /** A cron whose search ends at `reach(t)`: the earliest instant after t if one is
      found, else the zero time. */
  ghost predicate PartialCron(next: int -> int, instant: int -> bool, reach: int -> int) {
    forall t: int :: EarliestWithin(next, instant, reach, t)
  }

  ghost predicate EarliestWithin(next: int -> int, instant: int -> bool, reach: int -> int, t: int) {
    if Comes(instant, t, reach(t)) then
      instant(next(t)) && t < next(t) && forall x: int :: instant(x) && x > t ==> next(t) <= x
    else next(t) == ZERO
  }

  /** The due rule, that a tick is due exactly when an instant lies after the last run
      and not after now, holds if and only if some instant lies after the last run, as
      far as the search reaches or up to now. */
  lemma DueRuleExactly(next: int -> int, instant: int -> bool, reach: int -> int, last: int, now: int)
    requires PartialCron(next, instant, reach) && now >= ZERO
    ensures (Due(next, last, now) <==> Comes(instant, last, now)) <==> Comes(instant, last, Horizon(reach, last, now))
  {
    var far := Horizon(reach, last, now);
    assert EarliestWithin(next, instant, reach, last);
    assert forall x :: IsInstant(instant, last, now, x) ==> IsInstant(instant, last, far, x);
    if Comes(instant, last, reach(last)) {
      var x :| IsInstant(instant, last, reach(last), x);
      assert IsInstant(instant, last, far, x);
      if next(last) <= now { assert IsInstant(instant, last, now, next(last)); }
    } else {
      assert forall x :: IsInstant(instant, last, far, x) ==> IsInstant(instant, last, now, x);
    }
  }

  // ---------------------------------------------------------------- the last run

  ghost predicate IsLatest(h: map<string, Backup>, t: int) {
    && (forall n :: n in h ==> h[n].created <= t)
    && (if h == map[] then t == ZERO else exists n :: n in h && h[n].created == t)
  }

  lemma LatestUnique(h: map<string, Backup>, t: int, u: int)
    requires IsLatest(h, t) && IsLatest(h, u)
    ensures t == u
  {
  }

  predicate Distinct(s: seq<Backup>) {
    forall i, j :: 0 <= i < j < |s| ==> s[i].name != s[j].name
  }

  /** The listed backups are exactly the history's, each once. */
  ghost predicate Lists(s: seq<Backup>, h: map<string, Backup>) {
    Distinct(s) && forall b :: b in s <==> b.name in h && h[b.name] == b
  }

  method MostRecentCreation(backups: array<Backup>, ghost h: map<string, Backup>) returns (latest: int)
    requires Stamped(h) && Lists(backups[..], h)
    ensures IsLatest(h, latest)
  {
    latest := ZERO;
    for i := 0 to backups.Length
      invariant forall j :: 0 <= j < i ==> backups[j].created <= latest
      invariant if i == 0 then latest == ZERO else exists j :: 0 <= j < i && backups[j].created == latest
    {
      assert backups[i] in backups[..];
      if backups[i].created > latest { latest := backups[i].created; }
    }
    LatestOfList(backups[..], h, latest);
  }

  lemma LatestOfList(s: seq<Backup>, h: map<string, Backup>, latest: int)
    requires Stamped(h) && Lists(s, h)
    requires forall j :: 0 <= j < |s| ==> s[j].created <= latest
    requires if |s| == 0 then latest == ZERO else exists j :: 0 <= j < |s| && s[j].created == latest
    ensures IsLatest(h, latest)
  {
    assert forall n :: n in h ==> h[n] in s;
    if |s| > 0 {
      var j :| 0 <= j < |s| && s[j].created == latest;
      assert s[j] in s;
    }
  }

  // ---------------------------------------------------------------- retention

  predicate NewestFirst(s: seq<Backup>) {
    forall i, j :: 0 <= i < j < |s| ==> s[i].created >= s[j].created
  }

  function Terminals(s: seq<Backup>): nat {
    if s == [] then 0 else Terminals(s[..|s| - 1]) + if Terminal(s[|s| - 1]) then 1 else 0
  }

  /** The names retention removes: terminal backups ranked beyond `keep`. */
  function Doomed(s: seq<Backup>, keep: int): set<string> {
    if s == [] then {}
    else Doomed(s[..|s| - 1], keep) + if Terminal(s[|s| - 1]) && Terminals(s) > keep then {s[|s| - 1].name} else {}
  }

  lemma {:induction false} TerminalsPrefix(s: seq<Backup>, i: nat, j: nat)
    requires i <= j <= |s|
    ensures Terminals(s[..i]) <= Terminals(s[..j])
  {
    if i < j {
      assert s[..j][..j - 1] == s[..j - 1];
      TerminalsPrefix(s, i, j - 1);
    }
  }

  /** A backup is removed exactly when it is terminal and at least `keep` terminal
      ones are listed before it. */
  lemma {:induction false} DoomedExactly(s: seq<Backup>, keep: int, i: nat)
    requires i < |s| && Distinct(s)
    ensures s[i].name in Doomed(s, keep) <==> Terminal(s[i]) && Terminals(s[..i]) >= keep
    ensures forall n :: n in Doomed(s, keep) ==> exists j :: 0 <= j < |s| && s[j].name == n
  {
    var m := |s| - 1;
    DoomedListed(s, keep);
    DoomedListed(s[..m], keep);
    if i < m {
      DoomedExactly(s[..m], keep, i);
      assert s[..m][..i] == s[..i];
    }
  }

  /** The finished backups among the first i, by position. */
  function Finished(s: seq<Backup>, i: nat): set<nat>
    requires i <= |s|
  {
    set j: nat | j < i && (s[j].phase == Completed || s[j].phase == Failed)
  }

  lemma {:induction false} TerminalsCount(s: seq<Backup>, i: nat)
    requires i <= |s|
    ensures Terminals(s[..i]) == |Finished(s, i)|
  {
    if i > 0 {
      TerminalsCount(s, i - 1);
      assert s[..i][..i - 1] == s[..i - 1];
      var last := i - 1;
      assert Finished(s, i) == Finished(s, last) + if s[last].phase == Completed || s[last].phase == Failed then {last} else {};
    } else {
      assert s[..0] == [] && Finished(s, 0) == {};
    }
  }

  /** Retention removes exactly the completed and failed backups that have at least
      `keep` completed or failed ones listed before them. */
  lemma RetentionExactly(s: seq<Backup>, keep: int, i: nat)
    requires i < |s| && Distinct(s)
    ensures s[i].name in Doomed(s, keep) <==>
              (s[i].phase == Completed || s[i].phase == Failed) && |Finished(s, i)| >= keep
  {
    DoomedExactly(s, keep, i);
    TerminalsCount(s, i);
  }

  lemma {:induction false} DoomedListed(s: seq<Backup>, keep: int)
    ensures forall n :: n in Doomed(s, keep) ==> exists j :: 0 <= j < |s| && s[j].name == n
  {
    if s != [] {
      DoomedListed(s[..|s| - 1], keep);
      assert forall j :: 0 <= j < |s| - 1 ==> s[..|s| - 1][j] == s[j];
    }
  }

  /** Exactly the surplus of terminal backups goes. */
  lemma {:induction false} DoomedCount(s: seq<Backup>, keep: nat)
    requires Distinct(s)
    ensures |Doomed(s, keep)| == if Terminals(s) > keep then Terminals(s) - keep else 0
  {
    if s != [] {
      var m := |s| - 1;
      DoomedCount(s[..m], keep);
      DoomedListed(s[..m], keep);
      assert s[m].name !in Doomed(s[..m], keep);
    }
  }

  /** What retention does to a history listed newest first, ties in any order: no
      unfinished backup goes, no removed terminal one is newer than a kept one, and the
      last run is unchanged. */
  lemma RetentionKeepsLatest(h: map<string, Backup>, s: seq<Backup>, keep: nat, n: nat, t: int)
    requires Stamped(h) && Lists(s, h) && NewestFirst(s) && n <= |s| && keep >= 1
    ensures forall x :: x in Doomed(s[..n], keep) ==> x in h && Terminal(h[x])
    ensures forall x, y :: x in Doomed(s[..n], keep) && y in h && Terminal(h[y]) && y !in Doomed(s, keep) ==>
              h[y].created >= h[x].created
    ensures IsLatest(h, t) ==> IsLatest(h - Doomed(s[..n], keep), t)
  {
    var gone := Doomed(s[..n], keep);
    forall x | x in gone ensures x in h && Terminal(h[x]) { var i := DoomedAt(h, s, keep, n, x); }
    forall x, y | x in gone && y in h && Terminal(h[y]) && y !in Doomed(s, keep) ensures h[y].created >= h[x].created {
      KeptIsNewer(h, s, keep, n, x, y);
    }
    assert forall x :: x in h ==> h[x] in s;
    if IsLatest(h, t) && s != [] {
      if s[0].name in gone { var i := DoomedAt(h, s, keep, n, s[0].name); }
      assert s[0] in s && s[0].name in h - gone;
      assert forall x :: x in h ==> h[x].created <= s[0].created;
    }
  }

  lemma DoomedAt(h: map<string, Backup>, s: seq<Backup>, keep: nat, n: nat, x: string) returns (i: nat)
    requires Stamped(h) && Lists(s, h) && n <= |s| && keep >= 1 && x in Doomed(s[..n], keep)
    ensures i < n && s[i].name == x && x in h && h[x] == s[i] && Terminal(s[i]) && Terminals(s[..i]) >= keep && i > 0
  {
    DoomedListed(s[..n], keep);
    i :| 0 <= i < n && s[..n][i].name == x;
    assert Distinct(s[..n]);
    DoomedExactly(s[..n], keep, i);
    assert s[..n][..i] == s[..i] && s[i] in s;
    assert Terminals(s[..i]) >= 1;
  }

  lemma KeptIsNewer(h: map<string, Backup>, s: seq<Backup>, keep: nat, n: nat, x: string, y: string)
    requires Stamped(h) && Lists(s, h) && NewestFirst(s) && n <= |s| && keep >= 1 && x in Doomed(s[..n], keep)
    requires y in h && Terminal(h[y]) && y !in Doomed(s, keep)
    ensures x in h && h[y].created >= h[x].created
  {
    var i := DoomedAt(h, s, keep, n, x);
    assert h[y] in s;
    var j :| 0 <= j < |s| && s[j] == h[y];
    DoomedExactly(s, keep, j);
    if i <= j { TerminalsPrefix(s, i, j); }
  }

  // ---------------------------------------------------------------- the scheduler

  /** One tick of one schedule may leave: at most one new backup when due, and some or
      all of what retention dooms. `made` says the creation took effect. */
  ghost predicate Tick(s: State, key: string, next: int -> int, now: int, name: string, taken: bool, keep: int,
                       t: State, made: bool, ok: bool) {
    (t == s && !made && !ok) || exists latest, sorted, n :: TickOf(s, key, next, now, name, taken, keep, t, made, ok, latest, sorted, n)
  }

  function LastRun(s: State, key: string, now: int, latest: int): int {
    if s.history != map[] then latest else if key in s.anchors then s.anchors[key] else now
  }

  /** The same, given the last run, the listing retention sorted, and how far it came. */
  ghost predicate TickOf(s: State, key: string, next: int -> int, now: int, name: string, taken: bool, keep: int,
                         t: State, made: bool, ok: bool, latest: int, sorted: seq<Backup>, n: nat) {
    var last := LastRun(s, key, now, latest);
    var noted := if s.history == map[] then s.anchors[key := last] else s.anchors - {key};
    var due, free := Due(next, last, now), !taken && name !in s.history;
    && IsLatest(s.history, latest)
    && n <= |sorted|
    && (n > 0 || (ok && keep > 0) ==> keep > 0 && Lists(sorted, s.history) && NewestFirst(sorted))
    && (made ==> due && free)
    && t.history == (if made then s.history[name := Backup(name, Floor(now), Pending)] else s.history) - Doomed(sorted[..n], keep)
    && (t.anchors == noted || (due && t.anchors == noted - {key}))
    && (s.history == map[] && !ok && !made ==> t.anchors == noted)
    && (ok ==> (made <==> due && free) && (keep > 0 ==> n == |sorted|) && t.anchors == if due then noted - {key} else noted)
  }

  class BackupScheduler {
    var history: map<string, Backup>
    var anchors: map<string, int>
    var faults: seq<Fault>

    ghost function View(): State
      reads this
    {
      State(history, anchors)
    }

    constructor (s: State, faults: seq<Fault>)
      ensures View() == s && this.faults == faults
    {
      history, anchors, this.faults := s.history, s.anchors, faults;
    }

    method NextFault() returns (f: Fault)
      modifies this`faults
      ensures AllOk(old(faults)) ==> f.Ok? && AllOk(faults)
    {
      f := FaultAt(faults, 0);
      if faults != [] { faults := faults[1..]; }
    }

    /** The first observation of a schedule without history, stable across ticks. */
    method AnchorFor(key: string, now: int) returns (t: int)
      modifies this`anchors
      ensures t == if key in old(anchors) then old(anchors)[key] else now
      ensures anchors == old(anchors)[key := t]
    {
      if key in anchors {
        t := anchors[key];
        assert anchors[key := t] == anchors;
      } else {
        anchors := anchors[key := now];
        t := now;
      }
    }

    method ClearAnchor(key: string)
      modifies this`anchors
      ensures anchors == old(anchors) - {key}
    {
      anchors := anchors - {key};
    }

    /** Create the backup of this fire; a taken name counts as done. */
    method CreateScheduledBackup(name: string, now: int, taken: bool) returns (ok: bool, ghost made: bool)
      modifies this`history, this`faults
      ensures history == if made then old(history)[name := Backup(name, Floor(now), Pending)] else old(history)
      ensures made ==> !taken && name !in old(history)
      ensures ok ==> (made <==> !taken && name !in old(history))
      ensures AllOk(old(faults)) ==> ok && AllOk(faults)
    {
      var fault := NextFault();
      made := false;
      if taken || name in history { return fault.Ok?, false; }
      if !fault.Lost? {
        history := history[name := Backup(name, Floor(now), Pending)];
        made := true;
      }
      return fault.Ok?, made;
    }

    method NewestFrom(a: array<Backup>, i: int) returns (newest: int)
      requires 0 <= i < a.Length
      ensures i <= newest < a.Length && forall y :: i <= y < a.Length ==> a[newest].created >= a[y].created
    {
      newest := i;
      for j := i + 1 to a.Length
        invariant i <= newest < a.Length
        invariant forall y :: i <= y < j ==> a[newest].created >= a[y].created
      {
        if a[j].created > a[newest].created { newest := j; }
      }
    }

    /** Sort in place, newest first; equal times end up in any order. */
    method SortNewestFirst(a: array<Backup>, ghost h: map<string, Backup>)
      requires Lists(a[..], h)
      modifies a
      ensures Lists(a[..], h) && NewestFirst(a[..])
    {
      var i := 0;
      while i < a.Length
        invariant 0 <= i <= a.Length && Lists(a[..], h)
        invariant forall x, y :: 0 <= x < i && x < y < a.Length ==> a[x].created >= a[y].created
      {
        var newest := NewestFrom(a, i);
        ghost var was := a[..];
        a[i], a[newest] := a[newest], a[i];
        SwapLists(was, a[..], i, newest, h);
        i := i + 1;
      }
    }

    /** Keep the newest `keep` terminal backups and remove the other terminal ones. */
    method PruneBackups(a: array<Backup>, keep: int, ghost h: map<string, Backup>) returns (ok: bool, ghost n: nat)
      requires Lists(a[..], h)
      modifies a, this`history, this`faults
      ensures keep > 0 ==> Lists(a[..], h) && NewestFirst(a[..])
      ensures keep <= 0 ==> n == 0 && ok && a[..] == old(a[..])
      ensures n <= a.Length && history == old(history) - Doomed(a[..n], keep)
      ensures ok && keep > 0 ==> n == a.Length
      ensures a.Length == 0 ==> ok
      ensures AllOk(old(faults)) ==> ok && AllOk(faults)
    {
      n := 0;
      if keep <= 0 {
        assert a[..0] == [];
        return true, 0;
      }
      hide Lists, NewestFirst;
      SortNewestFirst(a, h);
      ghost var sorted := a[..];
      var terminal, i := 0, 0;
      assert a[..0] == [];
      while i < a.Length
        invariant 0 <= i <= a.Length && terminal == Terminals(a[..i]) && a[..] == sorted
        invariant history == old(history) - Doomed(a[..i], keep)
        invariant AllOk(old(faults)) ==> AllOk(faults)
      {
        var b := a[i];
        assert a[..i + 1][..i] == a[..i];
        i := i + 1;
        if !Terminal(b) { continue; }
        terminal := terminal + 1;
        if terminal <= keep { continue; }
        var fault := NextFault();
        if !fault.Lost? { history := history - {b.name}; }
        if !fault.Ok? {
          return false, if fault.Lost? then i - 1 else i;
        }
      }
      return true, i;
    }

    /** Evaluate one schedule: fire when due, then enforce retention on what was
        listed before the fire. */
    method ReconcileSchedule(key: string, next: int -> int, now: int, name: string, taken: bool, keep: int, listed: array<Backup>)
      returns (ok: bool, ghost made: bool)
      requires Stamped(history) && Lists(listed[..], history)
      modifies this, listed
      ensures Tick(old(View()), key, next, now, name, taken, keep, View(), made, ok)
      ensures AllOk(old(faults)) ==> ok
    {
      ghost var s, h := View(), history;
      made := false;
      var list := NextFault();
      if !list.Ok? { return false, false; }
      ghost var latest;
      var last;
      last, latest := LastRunOf(key, now, listed);
      ok, made := FireAndPrune(key, next, now, name, taken, keep, listed, last, latest, s);
    }

    /** The time the cron is measured from: the newest backup, else the anchor. */
    method LastRunOf(key: string, now: int, listed: array<Backup>) returns (last: int, ghost latest: int)
      requires Stamped(history) && Lists(listed[..], history)
      modifies this`anchors
      ensures IsLatest(history, latest) && last == LastRun(old(View()), key, now, latest)
      ensures anchors == if history == map[] then old(anchors)[key := last] else old(anchors) - {key}
    {
      last := MostRecentCreation(listed, history);
      latest := last;
      EmptyLatest(history, last);
      hide IsLatest;
      if last == ZERO {
        last := AnchorFor(key, now);
      } else {
        ClearAnchor(key);
      }
    }

    method FireAndPrune(key: string, next: int -> int, now: int, name: string, taken: bool, keep: int, listed: array<Backup>,
                        last: int, ghost latest: int, ghost s: State)
      returns (ok: bool, ghost made: bool)
      requires history == s.history && Lists(listed[..], history) && IsLatest(history, latest)
      requires last == LastRun(s, key, now, latest)
      requires anchors == if history == map[] then s.anchors[key := last] else s.anchors - {key}
      modifies this, listed
      ensures Tick(s, key, next, now, name, taken, keep, View(), made, ok)
      ensures AllOk(old(faults)) ==> ok
    {
      hide Doomed, Terminals, IsLatest, Lists, NewestFirst;
      ghost var was := listed[..];
      made := false;
      if next(last) <= now {
        ok, made := CreateScheduledBackup(name, now, taken);
        if !ok {
          NothingDoomed(keep, history);
          assert TickOf(s, key, next, now, name, taken, keep, View(), made, false, latest, [], 0);
          return;
        }
        ClearAnchor(key);
      }
      ghost var n;
      ok, n := PruneBackups(listed, keep, s.history);
      ghost var sorted := if keep > 0 then listed[..] else [];
      ListedThere(was, s.history);
      assert listed[..n] == sorted[..n];
      assert TickOf(s, key, next, now, name, taken, keep, View(), made, ok, latest, sorted, n);
    }
  }

  lemma ListedThere(s: seq<Backup>, h: map<string, Backup>)
    requires Lists(s, h)
    ensures s != [] ==> h != map[]
  {
    if s != [] { assert s[0] in s && s[0].name in h; }
  }

  lemma EmptyLatest(h: map<string, Backup>, t: int)
    requires Stamped(h) && IsLatest(h, t)
    ensures h == map[] <==> t == ZERO
  {
  }

  lemma NothingDoomed(keep: int, h: map<string, Backup>)
    ensures var none: seq<Backup> := []; h - Doomed(none[..0], keep) == h
  {
    var none: seq<Backup> := [];
    assert none[..0] == [];
  }

  lemma SwapLists(s: seq<Backup>, t: seq<Backup>, i: nat, j: nat, h: map<string, Backup>)
    requires Lists(s, h) && i <= j < |s| && t == s[i := s[j]][j := s[i]]
    ensures Lists(t, h)
  {
    forall b ensures b in t <==> b in s {
      if b in s { var k :| 0 <= k < |s| && s[k] == b; assert t[if k == i then j else if k == j then i else k] == b; }
    }
  }

  // ---------------------------------------------------------------- what one tick does to the last run

  /** Object times are stamped, and none lies in the future. */
  predicate Sound(h: map<string, Backup>, now: int) {
    Stamped(h) && forall n :: n in h ==> h[n].created <= now
  }

  lemma FloorFacts(now: int, x: int)
    ensures Floor(now) % SECOND == 0 && Floor(now) <= now < Floor(now) + SECOND
    ensures x % SECOND == 0 ==> (x <= now <==> x <= Floor(now))
  {
  }

  /** A tick moves the last run only by firing, then to the fire's stamp. */
  lemma TickLatest(s: State, key: string, next: int -> int, now: int, name: string, taken: bool, keep: int,
                   t: State, made: bool, ok: bool, u: int)
    requires Sound(s.history, now) && now >= SECOND && Tick(s, key, next, now, name, taken, keep, t, made, ok)
    ensures Sound(t.history, now)
    ensures made ==> IsLatest(t.history, Floor(now))
    ensures !made && IsLatest(s.history, u) ==> IsLatest(t.history, u)
  {
    if t != s || made || ok {
      var latest, sorted, n :| TickOf(s, key, next, now, name, taken, keep, t, made, ok, latest, sorted, n);
      hide TickOf, Sound, IsLatest;
      TickOfLatest(s, key, next, now, name, taken, keep, t, made, ok, u, latest, sorted, n);
    }
  }

  lemma TickOfLatest(s: State, key: string, next: int -> int, now: int, name: string, taken: bool, keep: int,
                     t: State, made: bool, ok: bool, u: int, latest: int, sorted: seq<Backup>, n: nat)
    requires Sound(s.history, now) && now >= SECOND
    requires TickOf(s, key, next, now, name, taken, keep, t, made, ok, latest, sorted, n)
    ensures Sound(t.history, now)
    ensures made ==> IsLatest(t.history, Floor(now))
    ensures !made && IsLatest(s.history, u) ==> IsLatest(t.history, u)
  {
    hide Doomed, Lists, NewestFirst, IsLatest, Sound, LastRun, Due, Terminals;
    Pruned(s.history, sorted, keep, n, u, now);
    var kept := s.history - Doomed(sorted[..n], keep);
    if made {
      assert t.history == kept[name := Backup(name, Floor(now), Pending)];
      StampIsLatest(kept, name, now);
    } else {
      assert t.history == kept;
    }
  }

  lemma Pruned(h: map<string, Backup>, sorted: seq<Backup>, keep: int, n: nat, u: int, now: int)
    requires Sound(h, now) && n <= |sorted| && (n > 0 ==> keep > 0 && Lists(sorted, h) && NewestFirst(sorted))
    ensures Doomed(sorted[..n], keep) <= h.Keys
    ensures Sound(h - Doomed(sorted[..n], keep), now)
    ensures IsLatest(h, u) ==> IsLatest(h - Doomed(sorted[..n], keep), u)
  {
    if n > 0 {
      RetentionKeepsLatest(h, sorted, keep, n, u);
    } else {
      assert sorted[..n] == [];
      assert h - {} == h;
    }
  }

  lemma StampIsLatest(h: map<string, Backup>, name: string, now: int)
    requires Sound(h, now) && now >= SECOND
    ensures IsLatest(h[name := Backup(name, Floor(now), Pending)], Floor(now))
    ensures Sound(h[name := Backup(name, Floor(now), Pending)], now)
  {
    forall n | n in h ensures h[n].created <= Floor(now) { FloorFacts(now, h[n].created); }
    var t := h[name := Backup(name, Floor(now), Pending)];
    assert name in t && t[name].created == Floor(now);
  }

  /** A fire is earned: between the last run and the new stamp lies a cron instant. */
  lemma FireIsEarned(s: State, key: string, next: int -> int, instant: int -> bool, now: int, name: string, taken: bool, keep: int,
                     t: State, ok: bool, latest: int) returns (x: int)
    requires Cron(next, instant) && Tick(s, key, next, now, name, taken, keep, t, true, ok) && IsLatest(s.history, latest)
    ensures instant(x) && LastRun(s, key, now, latest) < x <= Floor(now)
  {
    var l, sorted, n :| TickOf(s, key, next, now, name, taken, keep, t, true, ok, l, sorted, n);
    LatestUnique(s.history, l, latest);
    x := next(LastRun(s, key, now, latest));
    FloorFacts(now, x);
  }

  /** With history a successful tick with a free name fires exactly when an instant lies
      after the newest backup's stamp and not after now, and the new backup, not yet
      started, bears the whole second of the tick. */
  lemma HistoryFireExactly(s: State, key: string, next: int -> int, instant: int -> bool, now: int, name: string, keep: int,
                           t: State, made: bool, latest: int)
    requires Cron(next, instant) && Sound(s.history, now) && now >= SECOND && s.history != map[] && IsLatest(s.history, latest)
    requires name !in s.history && Tick(s, key, next, now, name, false, keep, t, made, true)
    ensures made <==> exists x :: instant(x) && latest < x <= now
    ensures made ==> name in t.history && t.history[name] == Backup(name, now - now % 1_000_000_000, Pending)
  {
    var l, sorted, n :| TickOf(s, key, next, now, name, false, keep, t, made, true, l, sorted, n);
    LatestUnique(s.history, l, latest);
    DueExactly(next, instant, latest, now);
    Pruned(s.history, sorted, keep, n, latest, now);
    hide Tick, Doomed, Lists, NewestFirst, IsLatest;
  }

  /** After a tick without error the schedule is due again at the same moment exactly
      when it was due, its name was taken, and it has history: then the next tick
      fires under another name. */
  lemma LeftDueExactly(s: State, key: string, next: int -> int, instant: int -> bool, now: int, name: string, taken: bool, keep: int,
                       t: State, made: bool, latest: int, after: int)
    requires Cron(next, instant) && Sound(s.history, now) && now >= SECOND
    requires Tick(s, key, next, now, name, taken, keep, t, made, true)
    requires IsLatest(s.history, latest) && IsLatest(t.history, after)
    ensures Due(next, LastRun(t, key, now, after), now) <==>
              Due(next, LastRun(s, key, now, latest), now) && (taken || name in s.history) && s.history != map[]
  {
    TickLatest(s, key, next, now, name, taken, keep, t, made, true, latest);
    var l, sorted, n :| TickOf(s, key, next, now, name, taken, keep, t, made, true, l, sorted, n);
    LatestUnique(s.history, l, latest);
    LatestUnique(t.history, after, if made then Floor(now) else latest);
    hide Doomed, Lists, NewestFirst, Tick;
    FloorFacts(now, next(Floor(now)));
    assert next(Floor(now)) > Floor(now) && instant(next(Floor(now)));
    assert next(now) > now;
    LatestEmpty(s.history, latest);
    LatestEmpty(t.history, after);
  }

  /** The schedule's backups are named after their stamps, distinct stamps differently. */
  ghost predicate NamedByStamp(h: map<string, Backup>, nameOf: int -> string) {
    && (forall n :: n in h ==> n == nameOf(h[n].created))
    && (forall a: int, b: int :: a != b && a % SECOND == 0 && b % SECOND == 0 ==> nameOf(a) != nameOf(b))
  }

  /** A due schedule never meets its own name: it would already have run this second. */
  lemma OwnNameFree(h: map<string, Backup>, next: int -> int, instant: int -> bool, nameOf: int -> string, now: int, latest: int)
    requires Cron(next, instant) && Sound(h, now) && IsLatest(h, latest) && NamedByStamp(h, nameOf)
    requires h != map[] && Due(next, latest, now)
    ensures nameOf(Floor(now)) !in h
  {
    var x := next(latest);
    FloorFacts(now, x);
    assert instant(x) && x > latest;
  }

  lemma LatestEmpty(h: map<string, Backup>, t: int)
    requires Stamped(h) && IsLatest(h, t)
    ensures h == map[] <==> t == ZERO
  {
  }

  /** With history, an operator restart before the tick changes nothing about it. */
  lemma RestartInvisible(s: State, key: string, next: int -> int, now: int, name: string, taken: bool, keep: int,
                         t: State, made: bool, ok: bool) returns (t': State)
    requires s.history != map[] && Tick(s, key, next, now, name, taken, keep, t, made, ok)
    ensures t'.history == t.history && Tick(s.(anchors := map[]), key, next, now, name, taken, keep, t', made, ok)
  {
    t' := State(t.history, map[]);
    var none: map<string, int> := map[];
    assert none - {key} == none && none - {key} - {key} == none;
    if t != s || made || ok {
      var latest, sorted, n :| TickOf(s, key, next, now, name, taken, keep, t, made, ok, latest, sorted, n);
      hide Doomed, Lists, NewestFirst, IsLatest;
      assert TickOf(s.(anchors := map[]), key, next, now, name, taken, keep, t', made, ok, latest, sorted, n);
    }
  }

  // ---------------------------------------------------------------- runs

  datatype Event =
    | Ticked(now: int, name: string, taken: bool, keep: int, made: bool, ok: bool)
    | Restarted
    | Progressed(name: string, phase: Phase)

  ghost predicate Step(s: State, e: Event, t: State, key: string, next: int -> int) {
    match e
    case Ticked(now, name, taken, keep, made, ok) => Tick(s, key, next, now, name, taken, keep, t, made, ok)
    case Restarted => t == s.(anchors := map[])
    case Progressed(name, phase) =>
      name in s.history && t == s.(history := s.history[name := s.history[name].(phase := phase)])
  }

  predicate Fired(e: Event) { e.Ticked? && e.made }

  /** A run under a clock that never goes back, with no backup deleted by hand. */
  ghost predicate Run(ss: seq<State>, es: seq<Event>, key: string, next: int -> int) {
    && |ss| == |es| + 1
    && (forall i :: 0 <= i < |es| ==> Step(ss[i], es[i], ss[i + 1], key, next))
    && (forall i :: 0 <= i < |es| && es[i].Ticked? ==> es[i].now >= SECOND)
    && (forall i, j :: 0 <= i < j < |es| && es[i].Ticked? && es[j].Ticked? ==> es[i].now <= es[j].now)
  }

  lemma StepLatest(s: State, e: Event, t: State, key: string, next: int -> int, now: int, u: int)
    requires Step(s, e, t, key, next) && Sound(s.history, now) && IsLatest(s.history, u) && !Fired(e)
    requires e.Ticked? ==> SECOND <= now <= e.now
    ensures IsLatest(t.history, u) && Sound(t.history, if e.Ticked? then e.now else now)
  {
    match e
    case Ticked(at, name, taken, keep, made, ok) => TickLatest(s, key, next, at, name, taken, keep, t, made, ok, u);
    case Restarted =>
    case Progressed(name, phase) =>
      assert t.history.Keys == s.history.Keys;
      assert forall n :: n in t.history ==> t.history[n].created == s.history[n].created;
      if exists n :: n in s.history && s.history[n].created == u {
        var n :| n in s.history && s.history[n].created == u;
        assert n in t.history && t.history[n].created == u;
      }
  }

  /** Until the next fire the last run is the stamp of this one, whatever is pruned,
      restarted or in progress. */
  lemma {:induction false} LatestBetween(ss: seq<State>, es: seq<Event>, key: string, next: int -> int, i: nat, n: nat)
    returns (now: int)
    requires Run(ss, es, key, next) && i < n < |ss| && Fired(es[i]) && Sound(ss[i].history, es[i].now)
    requires forall k :: i < k < n ==> !Fired(es[k])
    ensures IsLatest(ss[n].history, Floor(es[i].now))
    ensures Sound(ss[n].history, now) && now >= SECOND && forall k :: n <= k < |es| && es[k].Ticked? ==> now <= es[k].now
  {
    var e := es[i];
    assert Step(ss[n - 1], es[n - 1], ss[n], key, next);
    hide Tick, IsLatest;
    if n == i + 1 {
      TickLatest(ss[i], key, next, e.now, e.name, e.taken, e.keep, ss[n], true, e.ok, 0);
      now := e.now;
    } else {
      now := LatestBetween(ss, es, key, next, i, n - 1);
      StepLatest(ss[n - 1], es[n - 1], ss[n], key, next, now, Floor(e.now));
      if es[n - 1].Ticked? { now := es[n - 1].now; }
    }
  }

  /** No schedule fires twice for one instant: between the stamps of two consecutive
      fires lies a cron instant, after the first and not after the second. */
  lemma ConsecutiveFires(ss: seq<State>, es: seq<Event>, key: string, next: int -> int, instant: int -> bool, i: nat, j: nat)
    returns (x: int)
    requires Cron(next, instant) && Run(ss, es, key, next) && i < j < |es| && Fired(es[i]) && Fired(es[j])
    requires Sound(ss[i].history, es[i].now) && forall k :: i < k < j ==> !Fired(es[k])
    ensures instant(x) && Floor(es[i].now) < x <= Floor(es[j].now)
  {
    var now := LatestBetween(ss, es, key, next, i, j);
    var e := es[j];
    assert Step(ss[j], e, ss[j + 1], key, next);
    x := FireIsEarned(ss[j], key, next, instant, e.now, e.name, e.taken, e.keep, ss[j + 1], e.ok, Floor(es[i].now));
    assert ss[j].history != map[] by { NotEmpty(ss[j].history, Floor(es[i].now), es[i].now); }
  }

  lemma NotEmpty(h: map<string, Backup>, t: int, now: int)
    requires IsLatest(h, t) && t == Floor(now) && now >= SECOND
    ensures h != map[]
  {
    FloorFacts(now, SECOND);
  }

  // ---------------------------------------------------------------- boundaries

  /** Without history a successful tick fires exactly when the schedule was anchored
      before, its name is free, and an instant has come since the anchor. */
  lemma FirstFireExactly(s: State, key: string, next: int -> int, instant: int -> bool, now: int, name: string, taken: bool, keep: int,
                         t: State, made: bool)
    requires Cron(next, instant) && s.history == map[] && Tick(s, key, next, now, name, taken, keep, t, made, true)
    ensures made <==> key in s.anchors && !taken && exists x :: instant(x) && s.anchors[key] < x <= now
  {
    var latest, sorted, n :| TickOf(s, key, next, now, name, taken, keep, t, made, true, latest, sorted, n);
    var last := LastRun(s, key, now, latest);
    DueExactly(next, instant, last, now);
    hide Tick, TickOf, Doomed;
  }

  /** Without history a tick that does not fire keeps the anchor, unless the fire met a
      taken name; the first one after a restart sets it and never fires. */
  lemma FirstTickAnchors(s: State, key: string, next: int -> int, instant: int -> bool, now: int, name: string, taken: bool, keep: int,
                         t: State, made: bool, ok: bool)
    requires Cron(next, instant) && s.history == map[] && Tick(s, key, next, now, name, taken, keep, t, made, ok)
    ensures key !in s.anchors ==> !made && (ok ==> key in t.anchors && t.anchors[key] == now)
    ensures !made ==> t.history == map[]
    ensures !made && key in s.anchors && (!ok || next(s.anchors[key]) > now) ==> key in t.anchors && t.anchors[key] == s.anchors[key]
  {
    assert next(now) > now;
    if ok || t != s || made {
      var latest, sorted, n :| TickOf(s, key, next, now, name, taken, keep, t, made, ok, latest, sorted, n);
      assert !made ==> t.history == map[] - Doomed(sorted[..n], keep);
    }
  }

  /** Once anchored, and with no restart after that, a schedule fires at the latest in
      the first successful tick with a free name at or after the first instant
      following its anchor; never before that instant. */
  lemma AnchoredFires(ss: seq<State>, es: seq<Event>, key: string, next: int -> int, instant: int -> bool, j: nat)
    returns (k: nat)
    requires Cron(next, instant) && Run(ss, es, key, next) && j < |es| && Anchored(ss[0], key)
    requires forall i :: 0 <= i <= j ==> !es[i].Restarted?
    requires es[j].Ticked? && es[j].ok && !es[j].taken && es[j].now >= next(ss[0].anchors[key])
    requires forall i :: 0 <= i < j && es[i].Ticked? && es[i].now >= next(ss[0].anchors[key]) ==> !es[i].ok
    ensures k <= j && Fired(es[k]) && es[k].now >= next(ss[0].anchors[key]) && forall i :: 0 <= i < k ==> !Fired(es[i])
  {
    var a := ss[0].anchors[key];
    k := 0;
    while k < j && !Fired(es[k])
      invariant 0 <= k <= j && forall i :: 0 <= i < k ==> !Fired(es[i])
      invariant Anchored(ss[k], key) && ss[k].anchors[key] == a
    {
      assert Step(ss[k], es[k], ss[k + 1], key, next);
      AnchorKept(ss[k], es[k], ss[k + 1], key, next, instant);
      k := k + 1;
    }
    var e := es[k];
    assert Step(ss[k], e, ss[k + 1], key, next);
    if k == j && !Fired(e) {
      AnchoredTickFires(ss[k], e, ss[k + 1], key, next, instant);
    } else {
      FireNotEarly(ss[k], e, ss[k + 1], key, next);
    }
  }

  predicate Anchored(s: State, key: string) { s.history == map[] && key in s.anchors }

  lemma AnchorKept(s: State, e: Event, t: State, key: string, next: int -> int, instant: int -> bool)
    requires Cron(next, instant) && Step(s, e, t, key, next) && Anchored(s, key) && !e.Restarted? && !Fired(e)
    requires e.Ticked? && e.now >= next(s.anchors[key]) ==> !e.ok
    ensures Anchored(t, key) && t.anchors[key] == s.anchors[key]
  {
    if e.Ticked? {
      FirstTickAnchors(s, key, next, instant, e.now, e.name, e.taken, e.keep, t, e.made, e.ok);
    }
  }

  lemma AnchoredTickFires(s: State, e: Event, t: State, key: string, next: int -> int, instant: int -> bool)
    requires Cron(next, instant) && Step(s, e, t, key, next) && Anchored(s, key)
    requires e.Ticked? && e.ok && !e.taken && e.now >= next(s.anchors[key])
    ensures Fired(e)
  {
    FirstFireExactly(s, key, next, instant, e.now, e.name, e.taken, e.keep, t, e.made);
    assert instant(next(s.anchors[key]));
  }

  lemma FireNotEarly(s: State, e: Event, t: State, key: string, next: int -> int)
    requires Step(s, e, t, key, next) && Anchored(s, key) && Fired(e)
    ensures e.now >= next(s.anchors[key])
  {
    var latest, sorted, n :| TickOf(s, key, next, e.now, e.name, e.taken, e.keep, t, true, e.ok, latest, sorted, n);
  }

  /** A schedule without history whose operator restarts before every tick never
      fires, however many cron instants pass. */
  lemma {:induction false} RestartsStarve(ss: seq<State>, es: seq<Event>, key: string, next: int -> int, instant: int -> bool, n: nat)
    requires Cron(next, instant) && Run(ss, es, key, next) && n < |ss| && ss[0].history == map[]
    requires forall i :: 0 <= i < |es| && es[i].Ticked? ==> i > 0 && es[i - 1].Restarted?
    ensures ss[n].history == map[] && (n > 0 ==> !Fired(es[n - 1]))
  {
    if n > 0 {
      RestartsStarve(ss, es, key, next, instant, n - 1);
      var e := es[n - 1];
      assert Step(ss[n - 1], e, ss[n], key, next);
      if e.Ticked? {
        assert Step(ss[n - 2], es[n - 2], ss[n - 1], key, next);
        FirstTickAnchors(ss[n - 1], key, next, instant, e.now, e.name, e.taken, e.keep, ss[n], e.made, e.ok);
      }
    }
  }

  /** A successful tick with a free name fires without an instant having come exactly
      when there is none after the last run, as far as the search reaches or up to now. */
  lemma SpuriousFireExactly(s: State, key: string, next: int -> int, instant: int -> bool, reach: int -> int, now: int,
                            name: string, keep: int, t: State, made: bool, latest: int)
    requires PartialCron(next, instant, reach) && now >= ZERO && name !in s.history && IsLatest(s.history, latest)
    requires Tick(s, key, next, now, name, false, keep, t, made, true)
    ensures var last := LastRun(s, key, now, latest);
            made && !Comes(instant, last, now) <==> !Comes(instant, last, Horizon(reach, last, now))
  {
    var l, sorted, n :| TickOf(s, key, next, now, name, false, keep, t, made, true, l, sorted, n);
    LatestUnique(s.history, l, latest);
    hide Tick, Doomed, Lists, NewestFirst, IsLatest;
    var last := LastRun(s, key, now, latest);
    DueRuleExactly(next, instant, reach, last, now);
    assert forall x :: IsInstant(instant, last, now, x) ==> IsInstant(instant, last, Horizon(reach, last, now), x);
  }

  /** So a cron without any instant fires at every successful tick with a free name. */
  lemma EmptyCronFiresAlways(s: State, key: string, next: int -> int, instant: int -> bool, reach: int -> int, now: int,
                             name: string, keep: int, t: State, made: bool)
    requires PartialCron(next, instant, reach) && (forall x: int :: !instant(x))
    requires now >= ZERO && name !in s.history && Tick(s, key, next, now, name, false, keep, t, made, true)
    ensures made
  {
    var latest, sorted, n :| TickOf(s, key, next, now, name, false, keep, t, made, true, latest, sorted, n);
    SpuriousFireExactly(s, key, next, instant, reach, now, name, keep, t, made, latest);
  }

  /** For example at two ticks half a minute apart, the first of which the schedule has
      ever seen. */
  lemma EmptyCronFiresTwice(key: string) returns (next: int -> int, instant: int -> bool, ss: seq<State>, es: seq<Event>)
    ensures PartialCron(next, instant, t => t) && (forall x: int :: !instant(x))
    ensures Run(ss, es, key, next) && ss[0] == State(map[], map[])
    ensures es == [Ticked(SECOND, "a", false, 0, true, true), Ticked(31 * SECOND, "b", false, 0, true, true)]
  {
    next, instant := (t: int) => ZERO, (t: int) => false;
    var first := Backup("a", SECOND, Pending);
    var s0 := State(map[], map[]);
    var s1 := State(map["a" := first], map[]);
    var s2 := State(map["a" := first, "b" := Backup("b", 31 * SECOND, Pending)], map[]);
    ss, es := [s0, s1, s2], [Ticked(SECOND, "a", false, 0, true, true), Ticked(31 * SECOND, "b", false, 0, true, true)];
    FireStep(s0, key, next, SECOND, "a", ZERO);
    assert s1.history["a"].created == SECOND;
    FireStep(s1, key, next, 31 * SECOND, "b", SECOND);
    assert s1.history["b" := Backup("b", 31 * SECOND, Pending)] == s2.history;
  }

  lemma FireStep(s: State, key: string, next: int -> int, now: int, name: string, latest: int)
    requires s.anchors == map[] && IsLatest(s.history, latest) && name !in s.history && now % SECOND == 0
    requires Due(next, LastRun(s, key, now, latest), now)
    ensures Tick(s, key, next, now, name, false, 0, State(s.history[name := Backup(name, now, Pending)], map[]), true, true)
  {
    var t := State(s.history[name := Backup(name, now, Pending)], map[]);
    var last := LastRun(s, key, now, latest);
    var none: map<string, int> := map[];
    assert s.anchors[key := last] - {key} == none && none - {key} == none && none - {key} - {key} == none;
    NothingDoomed(0, t.history);
    FloorFacts(now, now);
    assert TickOf(s, key, next, now, name, false, 0, t, true, true, latest, [], 0);
  }
}
