/** Access grants as text: the comma-joined action lists sent to the IAM service,
    and the comma-joined user list remembered in an annotation. */
module Access {
  import opened Text

  /** unicode.IsSpace. */
  predicate UnicodeSpace(c: char) {
    var n := c as int;
    9 <= n <= 13 || n == 32 || n == 0x85 || n == 0xA0 || n == 0x1680 || 0x2000 <= n <= 0x200A ||
    n == 0x2028 || n == 0x2029 || n == 0x202F || n == 0x205F || n == 0x3000
  }

  const SPACE: char -> bool := c => UnicodeSpace(c)

  /** A name that survives comma-joining: non-empty, trimmed, comma-free. */
  predicate CleanName(p: string) {
    p != "" && IsTrimmed(p, SPACE) && ',' !in p
  }

  /** strings.EqualFold with "none". */
  predicate IsNone(s: string) {
    |s| == 4 && s[0] in "nN" && s[1] in "oO" && s[2] in "nN" && s[3] in "eE"
  }

  // ---------------------------------------------------------------- sorted name sets

  lemma {:induction false} SortedSetExists(s: set<string>)
    ensures exists r :: IsSortedSet(r, s)
  {
    if s == {} {
      assert IsSortedSet([], s);
    } else {
      var x :| x in s;
      SortedSetExists(s - {x});
      var r :| IsSortedSet(r, s - {x});
      var l := [x] + r;
      forall i, j | 0 <= i < j < |l| ensures l[i] != l[j] {
        StrLessTotal(l[j], l[j]);
        assert l[j] in r;
      }
      NoDuplicatesSorted(SortStrings(l), l);
      assert IsSortedSet(SortStrings(l), s);
    }
  }

  /** The one sorted list of a set of names. */
  ghost function SortedNames(s: set<string>): (r: seq<string>)
    ensures IsSortedSet(r, s)
  {
    SortedSetExists(s);
    var r :| IsSortedSet(r, s); r
  }

  ghost function JoinedNames(s: set<string>): string { Join(SortedNames(s), ',') }

  /** Collecting a set in any order, sorting and joining it. */
  method JoinSet(s: set<string>) returns (r: string)
    ensures r == JoinedNames(s)
  {
    var out: seq<string> := [];
    var todo := s;
    while todo != {}
      invariant todo <= s
      invariant forall x :: x in out <==> x in s - todo
      invariant forall i, j :: 0 <= i < j < |out| ==> out[i] != out[j]
    {
      var u :| u in todo;
      assert u !in out;
      assert forall i :: 0 <= i < |out| ==> out[i] != u;
      out := out + [u];
      todo := todo - {u};
    }
    var sorted := SortStrings(out);
    NoDuplicatesSorted(sorted, out);
    SortedSetUnique(sorted, SortedNames(s), s);
    return Join(sorted, ',');
  }

  // ---------------------------------------------------------------- reading names back

  /** Trim every part and drop the empty ones. */
  function Kept(parts: seq<string>): seq<string> {
    if parts == [] then []
    else
      var p := Trim(parts[0], SPACE);
      (if p != "" then [p] else []) + Kept(parts[1..])
  }

  function ReadNames(val: string): seq<string> {
    if val == "" then [] else Kept(Split(val, ','))
  }

  method ReadAppliedAccess(val: string) returns (out: seq<string>)
    ensures out == ReadNames(val)
  {
    hide Split, Trim, Kept;
    if val == "" { return []; }
    var parts := Split(val, ',');
    out := [];
    var i := 0;
    assert parts[0..] == parts;
    while i < |parts|
      invariant 0 <= i <= |parts|
      invariant out + Kept(parts[i..]) == Kept(parts)
    {
      KeptStep(parts, i);
      var p := Trim(parts[i], SPACE);
      if p != "" {
        assert out + ([p] + Kept(parts[i + 1..])) == (out + [p]) + Kept(parts[i + 1..]);
        out := out + [p];
      }
      i := i + 1;
    }
    KeptNone(parts);
  }

  lemma KeptStep(parts: seq<string>, i: nat)
    requires i < |parts|
    ensures var p := Trim(parts[i], SPACE);
            Kept(parts[i..]) == if p != "" then [p] + Kept(parts[i + 1..]) else Kept(parts[i + 1..])
  {
    assert parts[i..][1..] == parts[i + 1..];
  }

  lemma KeptNone(parts: seq<string>)
    ensures Kept(parts[|parts|..]) == []
  {
  }

  lemma {:induction false} KeptClean(parts: seq<string>)
    requires forall p :: p in parts ==> ',' !in p
    ensures forall p :: p in Kept(parts) ==> CleanName(p)
    ensures (forall p :: p in parts ==> CleanName(p)) ==> Kept(parts) == parts
  {
    if parts != [] {
      KeptClean(parts[1..]);
      TrimTrims(parts[0], SPACE);
      assert parts[0] in parts;
      assert parts == [parts[0]] + parts[1..];
    }
  }

  /** Reading any annotation yields clean names only. */
  lemma ReadNamesClean(val: string)
    ensures forall p :: p in ReadNames(val) ==> CleanName(p)
  {
    SplitFree(val, ',');
    KeptClean(Split(val, ','));
  }

  lemma JoinNonEmpty(parts: seq<string>)
    requires parts != [] && forall p :: p in parts ==> CleanName(p)
    ensures Join(parts, ',') != ""
  {
    assert parts[0] in parts;
  }

  lemma ReadJoin(parts: seq<string>)
    requires forall p :: p in parts ==> CleanName(p)
    ensures ReadNames(Join(parts, ',')) == parts
  {
    if parts != [] {
      JoinNonEmpty(parts);
      SplitJoin(parts, ',');
      KeptClean(parts);
    }
  }

  ghost predicate SameNames(l: seq<string>, s: set<string>) {
    forall x :: x in l <==> x in s
  }

  /** Reading the written annotation gives the recorded users exactly when every
      user name is clean; then it is the sorted list itself. */
  lemma AnnotationRoundTrip(users: set<string>)
    ensures SameNames(ReadNames(JoinedNames(users)), users) <==> (forall u :: u in users ==> CleanName(u))
    ensures (forall u :: u in users ==> CleanName(u)) ==> ReadNames(JoinedNames(users)) == SortedNames(users)
  {
    var names := SortedNames(users);
    ReadNamesClean(JoinedNames(users));
    if forall u :: u in users ==> CleanName(u) {
      ReadJoin(names);
    }
    if SameNames(ReadNames(JoinedNames(users)), users) {
      forall u | u in users ensures CleanName(u) {
        assert u in ReadNames(JoinedNames(users));
      }
    }
  }

  // ---------------------------------------------------------------- action lists

  /** The actions an IAM identity holds on the bucket once `text` was applied. */
  function GrantSet(text: string): set<string> {
    if text == "" || IsNone(text) then {} else set p | p in Kept(Split(text, ','))
  }

  /** The actions a text names, taking "none" for no action. */
  function Denotes(text: string): set<string> {
    set p | p in Kept(Split(text, ',')) && !IsNone(p)
  }

  /** The canonical comma form; an empty list revokes instead of leaving grants. */
  function JoinActions(actions: seq<string>): string {
    if actions == [] then "none" else Join(SortStrings(actions), ',')
  }

  ghost function WithRead(text: string): string { JoinedNames(Denotes(text) + {"Read"}) }

  method WithAnonymousRead(text: string) returns (r: string)
    ensures r == WithRead(text)
  {
    var acts: set<string> := {"Read"};
    var parts := Split(text, ',');
    var i := 0;
    while i < |parts|
      invariant 0 <= i <= |parts|
      invariant acts + (set p | p in Kept(parts[i..]) && !IsNone(p)) == {"Read"} + (set p | p in Kept(parts) && !IsNone(p))
    {
      var a := Trim(parts[i], SPACE);
      if a != "" && !IsNone(a) {
        acts := acts + {a};
      }
      i := i + 1;
    }
    assert acts == Denotes(text) + {"Read"};
    r := JoinSet(acts);
  }

  predicate ActionName(a: string) { CleanName(a) && !IsNone(a) }

  lemma JoinedGrant(parts: seq<string>)
    requires parts != [] && forall p :: p in parts ==> ActionName(p)
    ensures GrantSet(Join(parts, ',')) == Denotes(Join(parts, ',')) == set p | p in parts
  {
    var t := Join(parts, ',');
    JoinNonEmpty(parts);
    SplitJoin(parts, ',');
    KeptClean(parts);
    assert parts[0] in parts;
    assert |parts| > 1 ==> t[|parts[0]|] == ',';
    assert !IsNone(t);
  }

  /** Applying a joined list grants exactly the listed actions; the empty list
      grants nothing. */
  lemma JoinActionsGrant(actions: seq<string>)
    requires forall a :: a in actions ==> ActionName(a)
    ensures GrantSet(JoinActions(actions)) == Denotes(JoinActions(actions)) == set a | a in actions
  {
    if actions == [] {
      SplitNone("none", ',');
      TrimTrims("none", SPACE);
      assert Kept(["none"]) == ["none"] + Kept([]);
      assert JoinActions(actions) == "none" && IsNone("none");
    } else {
      var s := SortStrings(actions);
      forall x ensures x in s <==> x in actions {
        assert x in s <==> x in multiset(s);
        assert x in actions <==> x in multiset(actions);
      }
      JoinedGrant(s);
    }
  }

  /** The order of the list does not matter. */
  lemma JoinActionsOrder(a: seq<string>, b: seq<string>)
    requires multiset(a) == multiset(b)
    ensures JoinActions(a) == JoinActions(b)
  {
    SortedUnique(SortStrings(a), SortStrings(b));
    assert |multiset(a)| == |multiset(b)|;
  }

  lemma DenotesActions(text: string)
    ensures forall a :: a in Denotes(text) ==> ActionName(a)
  {
    SplitFree(text, ',');
    KeptClean(Split(text, ','));
  }

  /** For every text: the union grants what the text names, and Read. */
  lemma WithReadGrants(text: string)
    ensures GrantSet(WithRead(text)) == Denotes(WithRead(text)) == Denotes(text) + {"Read"}
  {
    DenotesActions(text);
    var acts := Denotes(text) + {"Read"};
    var l := SortedNames(acts);
    assert "Read" in l;
    JoinedGrant(l);
  }

  /** For every text: uniting Read twice is uniting it once. */
  lemma WithReadIdempotent(text: string)
    ensures WithRead(WithRead(text)) == WithRead(text)
  {
    WithReadGrants(text);
    assert Denotes(WithRead(text)) + {"Read"} == Denotes(text) + {"Read"};
  }

  /** Over joined lists the union depends on the listed actions alone. */
  lemma WithReadOfList(a: seq<string>, b: seq<string>)
    requires forall x :: x in a ==> ActionName(x)
    requires forall x :: x in b ==> ActionName(x)
    ensures GrantSet(WithRead(JoinActions(a))) == (set x | x in a) + {"Read"}
    ensures (set x | x in a) == (set x | x in b) ==> WithRead(JoinActions(a)) == WithRead(JoinActions(b))
  {
    JoinActionsGrant(a);
    JoinActionsGrant(b);
    WithReadGrants(JoinActions(a));
  }
}
