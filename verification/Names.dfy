/** Names the operator generates: bounded to 63 characters, ending in their suffix,
    and for scheduled backups in fire order. */
module Names {
  import opened Text

  const LIMIT: nat := 63
  const HASH_LENGTH: nat := 8

  // ---------------------------------------------------------------- the hash in hexadecimal

  function HexValue(c: char): nat {
    if '0' <= c <= '9' then c as int - '0' as int
    else if 'a' <= c <= 'f' then c as int - 'a' as int + 10
    else 0
  }

  function Unhex(s: string): nat {
    if s == [] then 0 else 16 * Unhex(s[..|s| - 1]) + HexValue(s[|s| - 1])
  }

  function Power(b: nat, w: nat): nat {
    if w == 0 then 1 else b * Power(b, w - 1)
  }

  /** The hexadecimal text determines the hash. */
  lemma {:induction false} UnhexHex(n: nat, w: nat)
    requires n < Power(16, w)
    ensures Unhex(Hex(n, w)) == n
  {
    if w > 0 {
      assert n / 16 < Power(16, w - 1);
      UnhexHex(n / 16, w - 1);
      assert Hex(n, w)[..w - 1] == Hex(n / 16, w - 1);
    }
  }

  // ---------------------------------------------------------------- bounded names

  predicate Fits(base: string, width: nat) { |base| + width <= LIMIT }

  /** How much of a long base survives beside a suffix of the given width. */
  function Kept(width: nat): nat {
    if width + HASH_LENGTH + 1 <= LIMIT then LIMIT - width - HASH_LENGTH - 1 else 0
  }

  /** base + suffix, or when that is too long a beginning of base, its hash, and the
      suffix. The clamp never reaches past the base, so the slice is defined. */
  function BoundedName(base: string, suffix: string, hash: string -> nat): string {
    if Fits(base, |suffix|) then base + suffix
    else base[..Kept(|suffix|)] + "-" + Hex(hash(base), HASH_LENGTH) + suffix
  }

  /** What stands before a suffix of the given width. */
  function Stem(base: string, width: nat, hash: string -> nat): string {
    if Fits(base, width) then base else base[..Kept(width)] + "-" + Hex(hash(base), HASH_LENGTH)
  }

  /** A name ends with its suffix, and keeps the limit exactly when the suffix leaves
      room for a dash and the hash or nothing needed shortening. */
  lemma BoundedNameShape(base: string, suffix: string, hash: string -> nat)
    ensures var n := BoundedName(base, suffix, hash);
            && |n| >= |suffix| && n[|n| - |suffix|..] == suffix
            && (|n| <= LIMIT <==> |suffix| <= 54 || Fits(base, |suffix|))
            && (!Fits(base, |suffix|) && |suffix| <= 54 ==> |n| == LIMIT)
  {
    assert BoundedName(base, suffix, hash) == Stem(base, |suffix|, hash) + suffix;
  }

  /** Names of one base with suffixes of one width are ordered as their suffixes. */
  lemma BoundedNameOrder(base: string, s: string, t: string, hash: string -> nat)
    requires |s| == |t|
    ensures StrLess(BoundedName(base, s, hash), BoundedName(base, t, hash)) <==> StrLess(s, t)
    ensures BoundedName(base, s, hash) == BoundedName(base, t, hash) <==> s == t
  {
    var stem := Stem(base, |s|, hash);
    StrLessPrefix(stem, s, t);
    assert (stem + s)[|stem|..] == s && (stem + t)[|stem|..] == t;
  }

  /** Two shortened bases share a name exactly when they share the kept beginning and
      the hash. */
  lemma BoundedNameCollides(a: string, b: string, suffix: string, hash: string -> nat)
    requires !Fits(a, |suffix|) && !Fits(b, |suffix|) && hash(a) < Power(16, HASH_LENGTH) && hash(b) < Power(16, HASH_LENGTH)
    ensures Kept(|suffix|) <= |a| && Kept(|suffix|) <= |b|
    ensures BoundedName(a, suffix, hash) == BoundedName(b, suffix, hash) <==>
              a[..Kept(|suffix|)] == b[..Kept(|suffix|)] && hash(a) == hash(b)
  {
    var k := Kept(|suffix|);
    var x, y := Hex(hash(a), HASH_LENGTH), Hex(hash(b), HASH_LENGTH);
    var m, n := BoundedName(a, suffix, hash), BoundedName(b, suffix, hash);
    assert m[..k] == a[..k] && n[..k] == b[..k];
    assert m[k + 1..k + 1 + HASH_LENGTH] == x && n[k + 1..k + 1 + HASH_LENGTH] == y;
    UnhexHex(hash(a), HASH_LENGTH);
    UnhexHex(hash(b), HASH_LENGTH);
  }

  // ---------------------------------------------------------------- timestamps

  /** `%0wd` of a number that fits. */
  function Pad(n: nat, w: nat): (r: string)
    ensures |r| == w
  {
    if w == 0 then "" else Pad(n / 10, w - 1) + [Digit(n % 10)]
  }

  /** The order of equally long beginnings decides, and only then the rest. */
  lemma {:induction false} StrLessAppend(a: string, b: string, u: string, v: string)
    requires |a| == |b|
    ensures StrLess(a + u, b + v) <==> StrLess(a, b) || (a == b && StrLess(u, v))
  {
    if a == [] {
      assert a + u == u && b + v == v;
    } else {
      assert (a + u)[1..] == a[1..] + u && (b + v)[1..] == b[1..] + v;
      StrLessAppend(a[1..], b[1..], u, v);
      assert a == [a[0]] + a[1..] && b == [b[0]] + b[1..];
    }
  }

  lemma DigitOrder(c: nat, d: nat)
    requires c < 10 && d < 10
    ensures StrLess([Digit(c)], [Digit(d)]) <==> c < d
    ensures Digit(c) == Digit(d) <==> c == d
  {
    assert [Digit(c)][1..] == [] && [Digit(d)][1..] == [];
  }

  /** Fixed-width decimals sort as numbers. */
  lemma {:induction false} PadOrder(m: nat, n: nat, w: nat)
    requires m < Power(10, w) && n < Power(10, w)
    ensures StrLess(Pad(m, w), Pad(n, w)) <==> m < n
    ensures Pad(m, w) == Pad(n, w) <==> m == n
  {
    if w > 0 {
      PadOrder(m / 10, n / 10, w - 1);
      StrLessAppend(Pad(m / 10, w - 1), Pad(n / 10, w - 1), [Digit(m % 10)], [Digit(n % 10)]);
      DigitOrder(m % 10, n % 10);
      assert Pad(m, w)[..w - 1] == Pad(m / 10, w - 1) && Pad(n, w)[..w - 1] == Pad(n / 10, w - 1);
    }
  }

  /** A UTC time in whole seconds, by its fields. */
  datatype Stamp = Stamp(year: nat, month: nat, day: nat, hour: nat, minute: nat, second: nat)

  predicate Dated(t: Stamp) {
    t.year < 10000 && t.month < 100 && t.day < 100 && t.hour < 100 && t.minute < 100 && t.second < 100
  }

  predicate Before(a: Stamp, b: Stamp) {
    if a.year != b.year then a.year < b.year
    else if a.month != b.month then a.month < b.month
    else if a.day != b.day then a.day < b.day
    else if a.hour != b.hour then a.hour < b.hour
    else if a.minute != b.minute then a.minute < b.minute
    else a.second < b.second
  }

  function TimeOfDay(t: Stamp): string { Pad(t.hour, 2) + (Pad(t.minute, 2) + Pad(t.second, 2)) }

  /** Go's layout 20060102150405. */
  function Format(t: Stamp): string { Pad(t.year, 4) + (Pad(t.month, 2) + (Pad(t.day, 2) + TimeOfDay(t))) }

  lemma PairOrder(a: nat, b: nat, w: nat, u: string, v: string)
    requires a < Power(10, w) && b < Power(10, w)
    ensures StrLess(Pad(a, w) + u, Pad(b, w) + v) <==> a < b || (a == b && StrLess(u, v))
  {
    PadOrder(a, b, w);
    StrLessAppend(Pad(a, w), Pad(b, w), u, v);
  }

  lemma FormatOrder(a: Stamp, b: Stamp)
    requires Dated(a) && Dated(b)
    ensures |Format(a)| == 14 && (StrLess(Format(a), Format(b)) <==> Before(a, b))
  {
    assert Power(10, 1) == 10 && Power(10, 2) == 100 && Power(10, 3) == 1000 && Power(10, 4) == 10000;
    hide Pad, StrLess;
    PadOrder(a.second, b.second, 2);
    PairOrder(a.minute, b.minute, 2, Pad(a.second, 2), Pad(b.second, 2));
    PairOrder(a.hour, b.hour, 2, Pad(a.minute, 2) + Pad(a.second, 2), Pad(b.minute, 2) + Pad(b.second, 2));
    PairOrder(a.day, b.day, 2, TimeOfDay(a), TimeOfDay(b));
    PairOrder(a.month, b.month, 2, Pad(a.day, 2) + TimeOfDay(a), Pad(b.day, 2) + TimeOfDay(b));
    PairOrder(a.year, b.year, 4, Pad(a.month, 2) + (Pad(a.day, 2) + TimeOfDay(a)), Pad(b.month, 2) + (Pad(b.day, 2) + TimeOfDay(b)));
  }

  // ---------------------------------------------------------------- scheduled backups

  /** The name of the backup a schedule creates at a fire time. */
  function FireName(cluster: string, schedule: string, t: Stamp, hash: string -> nat): string {
    BoundedName(cluster + "-" + schedule, "-" + Format(t), hash)
  }

  /** One schedule's names keep the limit, are distinct for distinct seconds, and sort
      in fire order, whether the base is shortened or not. */
  lemma FireNames(cluster: string, schedule: string, a: Stamp, b: Stamp, hash: string -> nat)
    requires Dated(a) && Dated(b)
    ensures |FireName(cluster, schedule, a, hash)| <= LIMIT
    ensures StrLess(FireName(cluster, schedule, a, hash), FireName(cluster, schedule, b, hash)) <==> Before(a, b)
    ensures FireName(cluster, schedule, a, hash) == FireName(cluster, schedule, b, hash) <==> a == b
  {
    var base := cluster + "-" + schedule;
    FormatOrder(a, b);
    FormatOrder(b, a);
    BoundedNameShape(base, "-" + Format(a), hash);
    BoundedNameOrder(base, "-" + Format(a), "-" + Format(b), hash);
    StrLessPrefix("-", Format(a), Format(b));
    StrLessTotal(Format(a), Format(b));
    hide Format, StrLess;
    assert ("-" + Format(a))[1..] == Format(a) && ("-" + Format(b))[1..] == Format(b);
  }

  /** Two schedules share their names at a second exactly when their stems agree: bases
      that fit when they are the same text, as "a-b" with "c" and "a" with "b-c" are;
      shortened ones when they share the kept beginning and the hash. */
  lemma SchedulesClash(c: string, s: string, d: string, t: string, at: Stamp, hash: string -> nat)
    requires Dated(at) && forall x :: hash(x) < Power(16, HASH_LENGTH)
    ensures var x, y := c + "-" + s, d + "-" + t;
            && (FireName(c, s, at, hash) == FireName(d, t, at, hash) <==> Stem(x, 15, hash) == Stem(y, 15, hash))
            && (Fits(x, 15) && Fits(y, 15) ==> (Stem(x, 15, hash) == Stem(y, 15, hash) <==> x == y))
            && (!Fits(x, 15) && !Fits(y, 15) ==>
                  (Stem(x, 15, hash) == Stem(y, 15, hash) <==> x[..Kept(15)] == y[..Kept(15)] && hash(x) == hash(y)))
    ensures FireName("a-b", "c", at, hash) == FireName("a", "b-c", at, hash)
  {
    FormatOrder(at, at);
    hide Format;
    var suffix := "-" + Format(at);
    var x, y := c + "-" + s, d + "-" + t;
    assert BoundedName(x, suffix, hash) == Stem(x, 15, hash) + suffix && BoundedName(y, suffix, hash) == Stem(y, 15, hash) + suffix;
    EndsAlike(Stem(x, 15, hash), Stem(y, 15, hash), suffix);
    if !Fits(x, 15) && !Fits(y, 15) { BoundedNameCollides(x, y, suffix, hash); }
    assert "a-b" + "-" + "c" == "a" + "-" + "b-c";
  }

  lemma EndsAlike(a: string, b: string, end: string)
    ensures a + end == b + end <==> a == b
  {
    assert (a + end)[..|a + end| - |end|] == a && (b + end)[..|b + end| - |end|] == b;
  }

  /** A name spelled out: cluster, schedule, and the UTC time from year to second. */
  lemma FireNameSpelled(hash: string -> nat)
    ensures FireName("prod", "nightly", Stamp(2024, 1, 2, 3, 4, 5), hash) == "prod-nightly" + "-" + "20240102030405"
  {
    YearSpelled();
    TwoSpelled();
    hide Pad;
    var suffix := "-" + Format(Stamp(2024, 1, 2, 3, 4, 5));
    assert TimeOfDay(Stamp(2024, 1, 2, 3, 4, 5)) == "030405";
    assert "20240102" == "2024" + ("01" + "02");
    assert suffix == "-" + "20240102030405" && |suffix| == 15;
    assert "prod" + "-" + "nightly" == "prod-nightly";
  }

  lemma YearSpelled()
    ensures Pad(2024, 4) == "2024"
  {
    assert Pad(2, 1) == Pad(0, 0) + "2" && Pad(20, 2) == Pad(2, 1) + "0";
    assert Pad(202, 3) == Pad(20, 2) + "2" && Pad(2024, 4) == Pad(202, 3) + "4";
  }

  lemma TwoSpelled()
    ensures Pad(1, 2) == "01" && Pad(2, 2) == "02" && Pad(3, 2) == "03" && Pad(4, 2) == "04" && Pad(5, 2) == "05"
  {
    assert Pad(0, 1) == Pad(0, 0) + "0";
  }
}
