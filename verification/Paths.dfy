/** Resolved POSIX paths: their text, and the prefix test the capsule applies to it. */
module Paths {
  const SEPARATOR := '/'

  type Name = s: string | s != "" && SEPARATOR !in s witness "a"

  /** Component names from the root; the root itself is the empty path. */
  type Path = seq<Name>

  function Flat(p: Path): string {
    if p == [] then "" else [SEPARATOR] + p[0] + Flat(p[1..])
  }

  /** str(path.resolve()) */
  function PathText(p: Path): string {
    if p == [] then [SEPARATOR] else Flat(p)
  }

  datatype Relation = Equal | Inside | Ancestor | Unrelated

  /** `_path_relation` on the two texts; `a <= b` is `b.startswith(a)`. */
  function PathRelation(source: string, shield: string): Relation {
    if source == shield then Equal
    else if shield + [SEPARATOR] <= source then Inside
    else if source + [SEPARATOR] <= shield then Ancestor
    else Unrelated
  }

  lemma {:induction false} NamePrefix(a: string, x: string, b: string, y: string)
    requires SEPARATOR !in a && SEPARATOR !in b
    requires x != "" && x[0] == SEPARATOR && (y == "" || y[0] == SEPARATOR)
    ensures a + x <= b + y <==> a == b && x <= y
  {
    if a == "" || b == "" {
      assert a == "" ==> a + x == x;
      assert b == "" ==> b + y == y;
      assert a != "" ==> (a + x)[0] in a;
      assert b != "" ==> (b + y)[0] in b;
    } else {
      NamePrefix(a[1..], x, b[1..], y);
      assert a + x == [a[0]] + (a[1..] + x) && b + y == [b[0]] + (b[1..] + y);
      assert a == [a[0]] + a[1..] && b == [b[0]] + b[1..];
      assert (a + x)[0] == a[0] && (b + y)[0] == b[0];
      if a[0] == b[0] {
        Uncons(a[0], a[1..] + x, b[1..] + y);
      }
    }
  }

  lemma {:induction false} FlatStarts(p: Path)
    ensures Flat(p) == "" <==> p == []
    ensures p != [] ==> Flat(p)[0] == SEPARATOR
  {
  }

  /** Text prefix up to a separator is proper component prefix. */
  lemma {:induction false} FlatPrefix(p: Path, s: Path)
    ensures Flat(p) + [SEPARATOR] <= Flat(s) <==> p < s
  {
    FlatStarts(s);
    if p != [] && s != [] {
      FlatPrefix(p[1..], s[1..]);
      FlatStarts(p[1..]);
      FlatStarts(s[1..]);
      var x, y := Flat(p[1..]) + [SEPARATOR], Flat(s[1..]);
      NamePrefix(p[0], x, s[0], y);
      assert Flat(p) + [SEPARATOR] == [SEPARATOR] + (p[0] + x);
      assert Flat(s) == [SEPARATOR] + (s[0] + y);
      Uncons(SEPARATOR, p[0] + x, s[0] + y);
      assert p < s <==> p[0] == s[0] && p[1..] < s[1..] by {
        assert p == [p[0]] + p[1..] && s == [s[0]] + s[1..];
      }
    }
  }

  lemma {:induction false} Uncons(c: char, a: string, b: string)
    ensures [c] + a <= [c] + b <==> a <= b
  {
    if [c] + a <= [c] + b {
      assert a == ([c] + a)[1..] && b == ([c] + b)[1..];
    }
  }

  lemma {:induction false} FlatInjective(p: Path, s: Path)
    requires Flat(p) == Flat(s)
    ensures p == s
  {
    FlatStarts(p);
    FlatStarts(s);
    if p != [] {
      assert p == p[..|p| - 1] + [p[|p| - 1]];
      FlatPrefix(p[..|p| - 1], p);
      FlatPrefix(p[..|p| - 1], s);
      if p != s {
        assert |s| >= |p|;
        FlatPrefix(s[..|s| - 1], s);
        FlatPrefix(s[..|s| - 1], p);
        assert s[..|s| - 1] < p && p[..|p| - 1] < s;
        assert |s| == |p|;
        LastNames(p, s);
      }
    }
  }

  lemma {:induction false} FlatAppend(p: Path, q: Path)
    ensures Flat(p + q) == Flat(p) + Flat(q)
  {
    if p == [] {
      assert p + q == q;
    } else {
      assert (p + q)[1..] == p[1..] + q;
      FlatAppend(p[1..], q);
    }
  }

  lemma {:induction false} LastNames(p: Path, s: Path)
    requires p != [] && |p| == |s| && p[..|p| - 1] == s[..|s| - 1] && Flat(p) == Flat(s)
    ensures p == s
  {
    var n := |p| - 1;
    FlatAppend(p[..n], [p[n]]);
    FlatAppend(s[..n], [s[n]]);
    assert p == p[..n] + [p[n]] && s == s[..n] + [s[n]];
    assert Flat([p[n]]) == [SEPARATOR] + p[n] && Flat([s[n]]) == [SEPARATOR] + s[n];
    var f := Flat(p[..n]);
    assert (f + Flat([p[n]]))[|f|..] == (f + Flat([s[n]]))[|f|..];
    assert p[n] == Flat([p[n]])[1..] == s[n];
  }

  lemma {:induction false} FlatLonger(p: Path)
    ensures p != [] ==> |Flat(p)| > 1
  {
    if p != [] {
      assert Flat(p) == [SEPARATOR] + p[0] + Flat(p[1..]) && p[0] != "";
    }
  }

  lemma {:induction false} PathTextInjective(p: Path, s: Path)
    requires PathText(p) == PathText(s)
    ensures p == s
  {
    FlatLonger(p);
    FlatLonger(s);
    if p != [] && s != [] {
      FlatInjective(p, s);
    }
  }

  /** Nothing's text starts with two separators. */
  lemma {:induction false} NoDoubleSeparator(s: Path)
    ensures !([SEPARATOR, SEPARATOR] <= PathText(s))
  {
    if s != [] {
      assert Flat(s)[1] == s[0][0];
      assert s[0][0] in s[0];
    }
  }

  /**
   * The text test agrees with the component-wise one on every path but the root: a protected or a
   * source root is related to nothing but itself, because its text already ends in the separator.
   */
  lemma {:induction false} RelationIsComponentwise(s: Path, p: Path)
    ensures var r := PathRelation(PathText(s), PathText(p));
            && (r == Equal <==> s == p)
            && (r == Inside <==> p < s && p != [])
            && (r == Ancestor <==> s < p && s != [])
  {
    if PathText(s) == PathText(p) {
      PathTextInjective(s, p);
    }
    NoDoubleSeparator(s);
    NoDoubleSeparator(p);
    FlatPrefix(p, s);
    FlatPrefix(s, p);
    RootPrefix(s, p);
    RootPrefix(p, s);
  }

  lemma {:induction false} RootPrefix(p: Path, s: Path)
    ensures PathText(p) + [SEPARATOR] <= PathText(s) <==> p < s && p != []
  {
    NoDoubleSeparator(s);
    FlatPrefix(p, s);
    if p == [] {
      assert PathText(p) + [SEPARATOR] == [SEPARATOR, SEPARATOR];
    } else if s == [] {
      FlatStarts(p);
      assert |PathText(p) + [SEPARATOR]| > |PathText(s)|;
    }
  }
}
