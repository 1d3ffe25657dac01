/** Go's slash-separated paths: lexical cleaning and joining. */
module Paths {
  import opened Text

  predicate Rooted(p: string) { p != "" && p[0] == '/' }

  /** One more element on a cleaned path: nothing for an empty or dot element, one
      level up for two dots, which a rooted path ignores at its root. */
  function Push(path: seq<string>, element: string, rooted: bool): seq<string> {
    if element == "" || element == "." then path
    else if element != ".." then path + [element]
    else if path != [] && path[|path| - 1] != ".." then path[..|path| - 1]
    else if rooted then path
    else path + [".."]
  }

  function Resolve(elements: seq<string>, rooted: bool): seq<string> {
    if elements == [] then []
    else Push(Resolve(elements[..|elements| - 1], rooted), elements[|elements| - 1], rooted)
  }

  function Elements(p: string): seq<string> { Resolve(Split(p, '/'), Rooted(p)) }

  /** `path.Clean`. */
  function CleanPath(p: string): string {
    var t := (if Rooted(p) then "/" else "") + Join(Elements(p), '/');
    if t == "" then "." else t
  }

  /** `path.Join`: leading empty elements are skipped. */
  function JoinPath(elements: seq<string>): string {
    if elements == [] then ""
    else if elements[0] == "" then JoinPath(elements[1..])
    else CleanPath(Join(elements, '/'))
  }

  /** A name that is one element of a path. */
  predicate Component(s: string) { s != "" && s != "." && s != ".." && '/' !in s }

  // ---------------------------------------------------------------- cleaning an extended path

  lemma {:induction false} SplitAppend(a: string, b: string)
    ensures Split(a + "/" + b, '/') == Split(a, '/') + Split(b, '/')
  {
    var s := a + "/" + b;
    if a == [] {
      assert s[1..] == b;
    } else {
      assert s[1..] == a[1..] + "/" + b;
      SplitAppend(a[1..], b);
    }
  }

  lemma ResolveComponents(elements: seq<string>, x: string, y: string, rooted: bool)
    requires Component(x) && Component(y)
    ensures Resolve(elements + [x, y], rooted) == Resolve(elements, rooted) + [x, y]
  {
    var one, two := elements + [x], elements + [x, y];
    assert two[..|two| - 1] == one && one[..|one| - 1] == elements;
  }

  lemma {:induction false} JoinSnoc(a: seq<string>, x: string)
    ensures Join(a + [x], '/') == if a == [] then x else Join(a, '/') + "/" + x
  {
    if |a| > 1 {
      assert (a + [x])[1..] == a[1..] + [x];
      JoinSnoc(a[1..], x);
    } else if |a| == 1 {
      assert (a + [x])[1..] == [x];
    }
  }

  /** Cleaned elements are real: never empty, never a dot, and without a slash. */
  lemma {:induction false} ResolveReal(elements: seq<string>, rooted: bool)
    requires forall e :: e in elements ==> '/' !in e
    ensures forall e :: e in Resolve(elements, rooted) ==> e != "" && e != "." && '/' !in e
  {
    if elements != [] {
      var rest, last := elements[..|elements| - 1], elements[|elements| - 1];
      ResolveReal(rest, rooted);
      assert last in elements && Resolve(elements, rooted) == Push(Resolve(rest, rooted), last, rooted);
    }
  }

  lemma {:induction false} JoinReal(a: seq<string>)
    requires a != [] && forall e :: e in a ==> e != "" && e != "." && '/' !in e
    ensures Join(a, '/') != "" && Join(a, '/') != "." && Join(a, '/')[0] != '/'
  {
    assert a[0] in a;
    if |a| > 1 { assert |Join(a, '/')| >= |a[0]| + 1; }
  }

  /** A directory as the beginning of the paths below it. */
  function Below(dir: string): string {
    if dir == "/" then "/" else if dir == "." then "" else dir + "/"
  }

  lemma ElementsBelow(base: string, x: string, y: string)
    requires base != "" && Component(x) && Component(y)
    ensures var p := base + "/" + (x + "/" + y);
            Rooted(p) == Rooted(base) && Elements(p) == Elements(base) + [x, y]
  {
    var p := base + "/" + (x + "/" + y);
    SplitAppend(base, x + "/" + y);
    SplitAppend(x, y);
    SplitNone(x, '/');
    SplitNone(y, '/');
    assert [x] + [y] == [x, y];
    ResolveComponents(Split(base, '/'), x, y, Rooted(base));
    hide Split, Resolve;
    assert Split(p, '/') == Split(base, '/') + [x, y];
  }

  lemma JoinPair(r: seq<string>, x: string, y: string)
    ensures Join(r + [x, y], '/') == (if r == [] then "" else Join(r, '/') + "/") + x + "/" + y
  {
    assert r + [x, y] == (r + [x]) + [y];
    JoinSnoc(r + [x], y);
    JoinSnoc(r, x);
    hide Join;
  }

  /** The cleaned base and its elements. */
  lemma BelowElements(base: string)
    ensures Below(CleanPath(base)) == (if Rooted(base) then "/" else "") + if Elements(base) == [] then "" else Join(Elements(base), '/') + "/"
  {
    var r := Elements(base);
    SplitFree(base, '/');
    ResolveReal(Split(base, '/'), Rooted(base));
    if r != [] { JoinReal(r); }
    hide Split, Resolve, Elements;
    if r != [] && Rooted(base) {
      assert CleanPath(base)[1] != '/';
    }
  }

  /** Joining two components onto any base puts them directly below the cleaned base. */
  lemma JoinBelow(base: string, x: string, y: string)
    requires base != "" && Component(x) && Component(y)
    ensures JoinPath([base, x, y]) == Below(CleanPath(base)) + x + "/" + y
  {
    hide Elements, Join, Below, JoinPath;
    var p := base + "/" + (x + "/" + y);
    var root := if Rooted(base) then "/" else "";
    var inner := if Elements(base) == [] then "" else Join(Elements(base), '/') + "/";
    JoinThree(base, x, y);
    ElementsBelow(base, x, y);
    JoinPair(Elements(base), x, y);
    BelowElements(base);
    assert CleanPath(p) == root + (inner + x + "/" + y);
    hide CleanPath, Rooted;
    Regroup(root, inner, x + "/" + y, x, y);
  }

  lemma Regroup(root: string, inner: string, tail: string, x: string, y: string)
    requires tail == x + "/" + y
    ensures root + (inner + x + "/" + y) == (root + inner) + x + "/" + y
  {
    assert inner + x + "/" + y == inner + tail && (root + inner) + x + "/" + y == (root + inner) + tail;
  }

  lemma JoinThree(base: string, x: string, y: string)
    requires base != ""
    ensures JoinPath([base, x, y]) == CleanPath(base + "/" + (x + "/" + y))
  {
    var s := [base, x, y];
    assert s[1..] == [x, y] && s[1..][1..] == [y];
    assert Join([x, y], '/') == x + "/" + y;
    assert Join(s, '/') == base + "/" + (x + "/" + y);
  }

  // ---------------------------------------------------------------- separation

  lemma FirstElement(rest: string, c: string)
    requires '/' !in c && c + "/" <= rest
    ensures Split(rest, '/')[0] == c
  {
    var tail := rest[|c| + 1..];
    assert rest == c + "/" + tail;
    SplitPart(c, tail, '/');
  }

  /** A path below two components of one directory shows that they are the same. */
  lemma ComponentsSeparate(prefix: string, c: string, d: string, leaf: string, path: string)
    requires Component(c) && Component(d)
    requires prefix + c + "/" + leaf <= path && prefix + d + "/" + leaf <= path
    ensures c == d
  {
    var rest := path[|prefix|..];
    assert prefix + (c + "/" + leaf) <= path && prefix + (d + "/" + leaf) <= path;
    assert c + "/" <= rest && d + "/" <= rest;
    FirstElement(rest, c);
    FirstElement(rest, d);
  }

  // ---------------------------------------------------------------- what cleaning keeps

  lemma {:induction false} ResolveKeeps(elements: seq<string>, rooted: bool)
    requires forall e :: e in elements ==> Component(e)
    ensures Resolve(elements, rooted) == elements
  {
    if elements != [] {
      var rest := elements[..|elements| - 1];
      var last := elements[|elements| - 1];
      assert elements == rest + [last] && Component(last);
      ResolveKeeps(rest, rooted);
    }
  }

  /** A path of real components is clean already, rooted or not. */
  lemma CleanKeeps(elements: seq<string>)
    requires elements != [] && forall e :: e in elements ==> Component(e)
    ensures CleanPath(Join(elements, '/')) == Join(elements, '/')
    ensures CleanPath("/" + Join(elements, '/')) == "/" + Join(elements, '/')
  {
    var t := Join(elements, '/');
    JoinReal(elements);
    SplitJoin(elements, '/');
    ResolveKeeps(elements, false);
    ResolveKeeps(elements, true);
    assert ("/" + t)[1..] == t;
    assert Split("/" + t, '/') == [""] + elements;
    ResolveEmptyHead(elements);
    hide Split, Resolve, Join;
  }

  lemma {:induction false} ResolveEmptyHead(elements: seq<string>)
    requires forall e :: e in elements ==> Component(e)
    ensures Resolve([""] + elements, true) == elements
  {
    var all := [""] + elements;
    if elements != [] {
      var rest := elements[..|elements| - 1];
      var last := elements[|elements| - 1];
      assert all[..|all| - 1] == [""] + rest && all[|all| - 1] == last && elements == rest + [last];
      assert Component(last);
      ResolveEmptyHead(rest);
    } else {
      assert all[..0] == [];
    }
  }

  /** Two dots take the component before them away, whatever stands in front. */
  lemma DotsClimb(front: seq<string>, c: string, rooted: bool)
    requires Component(c)
    ensures Resolve(front + [c, ".."], rooted) == Resolve(front, rooted)
  {
    var one, two := front + [c], front + [c, ".."];
    assert two[..|two| - 1] == one && one[..|one| - 1] == front;
  }
}
