/** Shared vocabulary: options, injected call faults, and Go string helpers.

    Go strings are byte sequences; here they are sequences of characters.
    Byte order on UTF-8 equals code-point order, so StrLess is Go's `<`. */
module Text {

  datatype Option<+T> = None | Some(value: T)

  /** What happens to one external call: it works, it fails without effect, or
      it takes effect and the answer is lost. */
  datatype Fault = Ok | Lost | Late

  /** The fault of the i-th call of a pass; calls beyond the list work. */
  function FaultAt(faults: seq<Fault>, i: nat): Fault {
    if i < |faults| then faults[i] else Ok
  }

  /** A pass without any failing call. */
  predicate AllOk(faults: seq<Fault>) {
    forall i :: 0 <= i < |faults| ==> faults[i].Ok?
  }

  // ---------------------------------------------------------------- ordering

  predicate StrLess(a: string, b: string) {
    if b == [] then false
    else if a == [] then true
    else if a[0] != b[0] then a[0] < b[0]
    else StrLess(a[1..], b[1..])
  }

  /** Go's string order is a strict total order. */
  lemma {:induction false} StrLessTotal(a: string, b: string)
    ensures !(StrLess(a, b) && StrLess(b, a))
    ensures StrLess(a, b) || StrLess(b, a) || a == b
    ensures a == b ==> !StrLess(a, b)
  {
    if a != [] && b != [] {
      StrLessTotal(a[1..], b[1..]);
      if a[0] == b[0] && a[1..] == b[1..] {
        assert a == [a[0]] + a[1..] && b == [b[0]] + b[1..];
      }
    }
  }

  lemma {:induction false} StrLessTransitive(a: string, b: string, c: string)
    requires StrLess(a, b) && StrLess(b, c)
    ensures StrLess(a, c)
  {
    if a != [] && a[0] == b[0] && b[0] == c[0] {
      StrLessTransitive(a[1..], b[1..], c[1..]);
    }
  }

  /** A common prefix does not influence the order. */
  lemma {:induction false} StrLessPrefix(p: string, a: string, b: string)
    ensures StrLess(p + a, p + b) <==> StrLess(a, b)
  {
    if p == [] {
      assert p + a == a && p + b == b;
    } else {
      assert (p + a)[1..] == p[1..] + a && (p + b)[1..] == p[1..] + b;
      StrLessPrefix(p[1..], a, b);
    }
  }

  // ---------------------------------------------------------------- sorting

  predicate Sorted(s: seq<string>) {
    forall i, j :: 0 <= i < j < |s| ==> !StrLess(s[j], s[i])
  }

  predicate StrictlySorted(s: seq<string>) {
    forall i, j :: 0 <= i < j < |s| ==> StrLess(s[i], s[j])
  }

  /** The list `sort.Strings` leaves for the keys of a Go set. */
  ghost predicate IsSortedSet(r: seq<string>, s: set<string>) {
    StrictlySorted(r) && forall x :: x in r <==> x in s
  }

  function InsertSorted(x: string, s: seq<string>): (r: seq<string>)
    requires Sorted(s)
    ensures Sorted(r) && multiset(r) == multiset(s) + multiset{x}
  {
    if s == [] then [x]
    else if StrLess(s[0], x) then
      var t := InsertSorted(x, s[1..]);
      InsertKeepsHead(s, x, t);
      [s[0]] + t
    else
      HeadIsLeast(x, s);
      [x] + s
  }

  lemma HeadIsLeast(x: string, s: seq<string>)
    requires Sorted(s) && s != [] && !StrLess(s[0], x)
    ensures forall j :: 0 <= j < |s| ==> !StrLess(s[j], x)
  {
    forall j | 0 <= j < |s| ensures !StrLess(s[j], x) {
      if j > 0 && StrLess(s[j], x) {
        StrLessTotal(s[0], s[j]);
        StrLessTotal(s[0], x);
        if StrLess(s[0], s[j]) { StrLessTransitive(s[0], s[j], x); }
      }
    }
  }

  lemma InsertKeepsHead(s: seq<string>, x: string, t: seq<string>)
    requires Sorted(s) && s != [] && StrLess(s[0], x)
    requires multiset(t) == multiset(s[1..]) + multiset{x}
    ensures forall j :: 0 <= j < |t| ==> !StrLess(t[j], s[0])
    ensures multiset([s[0]] + t) == multiset(s) + multiset{x}
  {
    assert s == [s[0]] + s[1..];
    forall j | 0 <= j < |t| ensures !StrLess(t[j], s[0]) {
      assert t[j] in multiset(t);
      if t[j] == x {
        StrLessTotal(s[0], x);
      } else {
        assert t[j] in s[1..];
      }
    }
  }

  /** `sort.Strings`. */
  function SortStrings(s: seq<string>): (r: seq<string>)
    ensures Sorted(r) && multiset(r) == multiset(s)
  {
    if s == [] then []
    else
      assert s == [s[0]] + s[1..];
      InsertSorted(s[0], SortStrings(s[1..]))
  }

  lemma HeadIsMinimal(a: seq<string>, b: seq<string>)
    requires Sorted(a) && multiset(a) == multiset(b) && a != [] && b != []
    ensures !StrLess(b[0], a[0])
  {
    assert b[0] in multiset(a);
    var j :| 0 <= j < |a| && a[j] == b[0];
    StrLessTotal(a[0], a[0]);
  }

  /** Sorting is determined by the elements: any two sorted arrangements agree. */
  lemma {:induction false} SortedUnique(a: seq<string>, b: seq<string>)
    requires Sorted(a) && Sorted(b) && multiset(a) == multiset(b)
    ensures a == b
  {
    if a == [] {
      assert |multiset(b)| == 0;
    } else {
      assert |multiset(a)| == |multiset(b)|;
      HeadIsMinimal(a, b);
      HeadIsMinimal(b, a);
      StrLessTotal(a[0], b[0]);
      assert a == [a[0]] + a[1..] && b == [b[0]] + b[1..];
      assert multiset(a[1..]) == multiset(a) - multiset{a[0]};
      assert multiset(b[1..]) == multiset(b) - multiset{b[0]};
      SortedUnique(a[1..], b[1..]);
    }
  }

  /** A set has one sorted list. */
  lemma {:induction false} SortedSetUnique(a: seq<string>, b: seq<string>, s: set<string>)
    requires IsSortedSet(a, s) && IsSortedSet(b, s)
    ensures a == b
  {
    MembersOfEmpty(a, s);
    MembersOfEmpty(b, s);
    if s != {} {
      var x :| x in s;
      assert x in a && x in b;
      assert a[0] in a && b[0] in b;
      assert a[0] in b && b[0] in a;
      var i :| 0 <= i < |b| && b[i] == a[0];
      var j :| 0 <= j < |a| && a[j] == b[0];
      StrLessTotal(a[0], b[0]);
      assert a[0] == b[0];
      forall x ensures x in a[1..] <==> x in s - {a[0]} { SortedTail(a, x); }
      forall x ensures x in b[1..] <==> x in s - {a[0]} { SortedTail(b, x); }
      SortedSetUnique(a[1..], b[1..], s - {a[0]});
      assert a == [a[0]] + a[1..] && b == [b[0]] + b[1..];
    }
  }

  lemma MembersOfEmpty(a: seq<string>, s: set<string>)
    requires forall x :: x in a ==> x in s
    ensures a != [] ==> s != {}
  {
    if a != [] { assert a[0] in s; }
  }

  lemma SortedTail(a: seq<string>, x: string)
    requires StrictlySorted(a) && a != []
    ensures x in a[1..] <==> x in a && x != a[0]
  {
    StrLessTotal(a[0], a[0]);
    if x in a && x != a[0] {
      var k :| 0 <= k < |a| && a[k] == x;
      assert a[1..][k - 1] == x;
    }
  }

  /** Sorting distinct names gives their strictly sorted list. */
  lemma NoDuplicatesSorted(r: seq<string>, s: seq<string>)
    requires Sorted(r) && multiset(r) == multiset(s)
    requires forall i, j :: 0 <= i < j < |s| ==> s[i] != s[j]
    ensures StrictlySorted(r) && forall x :: x in r <==> x in s
  {
    forall x ensures x in r <==> x in s {
      assert x in r <==> x in multiset(r);
    }
    forall i, j | 0 <= i < j < |r| ensures StrLess(r[i], r[j]) {
      StrLessTotal(r[i], r[j]);
      OnceInMultiset(s, r[i]);
      assert r[i] != r[j] by {
        if r[i] == r[j] { TwiceInMultiset(r, i, j); }
      }
    }
  }

  lemma TwiceInMultiset(r: seq<string>, i: nat, j: nat)
    requires i < j < |r| && r[i] == r[j]
    ensures multiset(r)[r[i]] >= 2
  {
    assert r == r[..i] + [r[i]] + r[i + 1..j] + [r[j]] + r[j + 1..];
  }

  lemma {:induction false} OnceInMultiset(s: seq<string>, x: string)
    requires forall i, j :: 0 <= i < j < |s| ==> s[i] != s[j]
    ensures multiset(s)[x] <= 1
  {
    if s != [] {
      assert s == [s[0]] + s[1..];
      OnceInMultiset(s[1..], x);
      assert forall k :: 0 <= k < |s[1..]| ==> s[1..][k] == s[k + 1];
      assert s[0] !in s[1..];
    }
  }

  // ---------------------------------------------------------------- split and join

  /** `strings.Split` on a one-character separator: always at least one part. */
  function Split(s: string, c: char): (r: seq<string>)
    ensures |r| >= 1
  {
    if s == [] then [""]
    else
      var rest := Split(s[1..], c);
      if s[0] == c then [""] + rest else [[s[0]] + rest[0]] + rest[1..]
  }

  function Join(parts: seq<string>, c: char): string {
    if |parts| == 0 then ""
    else if |parts| == 1 then parts[0]
    else parts[0] + [c] + Join(parts[1..], c)
  }

  lemma {:induction false} SplitPart(p: string, t: string, c: char)
    requires c !in p
    ensures Split(p + [c] + t, c) == [p] + Split(t, c)
  {
    var s := p + [c] + t;
    if p == [] {
      assert s[1..] == t;
    } else {
      assert s[1..] == p[1..] + [c] + t;
      SplitPart(p[1..], t, c);
      assert [p[0]] + p[1..] == p;
    }
  }

  lemma {:induction false} SplitNone(p: string, c: char)
    requires c !in p
    ensures Split(p, c) == [p]
  {
    if p != [] {
      SplitNone(p[1..], c);
      assert [p[0]] + p[1..] == p;
    }
  }

  /** Splitting a joined list gives the list back. */
  lemma {:induction false} SplitJoin(parts: seq<string>, c: char)
    requires |parts| >= 1 && forall p :: p in parts ==> c !in p
    ensures Split(Join(parts, c), c) == parts
  {
    if |parts| == 1 {
      SplitNone(parts[0], c);
    } else {
      SplitJoin(parts[1..], c);
      SplitPart(parts[0], Join(parts[1..], c), c);
    }
  }

  lemma {:induction false} SplitFree(s: string, c: char)
    ensures forall p :: p in Split(s, c) ==> c !in p
  {
    if s != [] {
      SplitFree(s[1..], c);
      var rest := Split(s[1..], c);
      assert rest[0] in rest;
    }
  }

  // ---------------------------------------------------------------- lines

  function Unlines(lines: seq<string>): string {
    if lines == [] then "" else lines[0] + "\n" + Unlines(lines[1..])
  }

  lemma {:induction false} UnlinesAppend(a: seq<string>, b: seq<string>)
    ensures Unlines(a + b) == Unlines(a) + Unlines(b)
  {
    if a == [] {
      assert a + b == b;
    } else {
      assert (a + b)[1..] == a[1..] + b;
      UnlinesAppend(a[1..], b);
    }
  }

  // ---------------------------------------------------------------- trimming

  function TrimLeft(s: string, space: char -> bool): string {
    if s != [] && space(s[0]) then TrimLeft(s[1..], space) else s
  }

  function TrimRight(s: string, space: char -> bool): string {
    if s != [] && space(s[|s| - 1]) then TrimRight(s[..|s| - 1], space) else s
  }

  function Trim(s: string, space: char -> bool): string {
    TrimRight(TrimLeft(s, space), space)
  }

  predicate IsTrimmed(s: string, space: char -> bool) {
    s == [] || (!space(s[0]) && !space(s[|s| - 1]))
  }

  lemma {:induction false} TrimLeftTrims(s: string, space: char -> bool)
    ensures TrimLeft(s, space) == [] || !space(TrimLeft(s, space)[0])
    ensures forall c :: c in TrimLeft(s, space) ==> c in s
  {
    if s != [] && space(s[0]) { TrimLeftTrims(s[1..], space); }
  }

  lemma {:induction false} TrimRightTrims(s: string, space: char -> bool)
    requires s == [] || !space(s[0])
    ensures IsTrimmed(TrimRight(s, space), space)
    ensures forall c :: c in TrimRight(s, space) ==> c in s
  {
    if s != [] && space(s[|s| - 1]) { TrimRightTrims(s[..|s| - 1], space); }
  }

  /** Trimming yields a trimmed part of the text, and keeps trimmed text. */
  lemma TrimTrims(s: string, space: char -> bool)
    ensures IsTrimmed(Trim(s, space), space)
    ensures forall c :: c in Trim(s, space) ==> c in s
    ensures IsTrimmed(s, space) ==> Trim(s, space) == s
  {
    TrimLeftTrims(s, space);
    TrimRightTrims(TrimLeft(s, space), space);
  }

  // ---------------------------------------------------------------- decimals

  function Digit(d: nat): char
    requires d < 10
  {
    '0' + d as char
  }

  /** `%d` of a non-negative number. */
  function Dec(n: nat): (r: string)
    ensures |r| >= 1 && forall c :: c in r ==> '0' <= c <= '9'
  {
    if n < 10 then [Digit(n)] else Dec(n / 10) + [Digit(n % 10)]
  }

  function DigitValue(c: char): nat {
    if '0' <= c <= '9' then c as int - '0' as int else 0
  }

  function Undec(s: string): nat {
    if s == [] then 0 else 10 * Undec(s[..|s| - 1]) + DigitValue(s[|s| - 1])
  }

  /** Decimal printing has an inverse, so it is injective. */
  lemma {:induction false} UndecDec(n: nat)
    ensures Undec(Dec(n)) == n
  {
    if n >= 10 {
      UndecDec(n / 10);
      assert Dec(n)[..|Dec(n)| - 1] == Dec(n / 10);
    } else {
      assert Dec(n)[..0] == [];
      assert Undec(Dec(n)) == 10 * Undec(Dec(n)[..0]) + n;
    }
  }

  // ---------------------------------------------------------------- hexadecimal

  function HexDigit(d: nat): char
    requires d < 16
  {
    if d < 10 then '0' + d as char else 'a' + (d - 10) as char
  }

  /** `%0wx` of a number that fits. */
  function Hex(n: nat, w: nat): (r: string)
    ensures |r| == w && forall c :: c in r ==> '0' <= c <= 'f'
  {
    if w == 0 then "" else Hex(n / 16, w - 1) + [HexDigit(n % 16)]
  }
}
