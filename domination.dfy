/** The classifier `is_dominating` (dominating.py:30-40). A string over
    '0'/'1' names a set of vertices of a path graph (vertex `i` is in the
    set when character `i` is '1'); the set dominates the graph when every
    vertex is in it or next to a vertex in it. The source decides this by
    matching the regular expression `^0?1(0{0,2}1)*0?$`; here that
    expression is written out as recursive predicates and proved to agree
    with the neighbour check. */
module Domination {
  import opened Wrappers
  import opened Encoding

  // ---------------------------------------------------------------------
  // The ground truth: neighbour checks on the path graph

  /** Vertex `i` is selected or has a selected neighbour on the path. */
  predicate Covered(s: string, i: int)
    requires 0 <= i < |s|
  {
    s[i] == '1' || (i > 0 && s[i - 1] == '1') || (i + 1 < |s| && s[i + 1] == '1')
  }

  /** The '1' positions of `s` form a dominating set of the path graph. */
  predicate Dominated(s: string) {
    forall i :: 0 <= i < |s| ==> Covered(s, i)
  }

  // ---------------------------------------------------------------------
  // The regular expression `0?1(0{0,2}1)*0?`, one predicate per part

  /** The whole pattern: an optional leading '0', then `LeadOne`. */
  predicate Pattern(s: string)
    ensures Pattern(s) ==> IsBinary(s) && |s| >= 1
  {
    (|s| > 0 && s[0] == '0' && LeadOne(s[1..])) || LeadOne(s)
  }

  /** `1(0{0,2}1)*0?`: a '1' followed by `Tail`. */
  predicate LeadOne(s: string)
    ensures LeadOne(s) ==> IsBinary(s)
  {
    |s| > 0 && s[0] == '1' && Tail(s[1..])
  }

  /** `(0{0,2}1)*0?`: blocks "1", "01" or "001", then an optional '0'. */
  predicate Tail(s: string)
    ensures Tail(s) ==> IsBinary(s)
    ensures Tail(s) && |s| >= 2 ==> s[|s| - 2] == '1' || s[|s| - 1] == '1'
    decreases |s|
  {
    || s == []
    || s == "0"
    || (|s| >= 1 && s[..1] == "1" && Tail(s[1..]))
    || (|s| >= 2 && s[..2] == "01" && Tail(s[2..]))
    || (|s| >= 3 && s[..3] == "001" && Tail(s[3..]))
  }

  // ---------------------------------------------------------------------
  // The classifier

  /** The part of `g` that an anchored Python pattern must consume: `$`
      matches at the end of the string and also just before one final
      newline. */
  function MatchedPart(g: string): (m: string)
    ensures m == g || g == m + "\n"
  {
    if |g| > 0 && g[|g| - 1] == '\n' then g[..|g| - 1] else g
  }

  /** `is_dominating(g)`: the assertion `^(0|1)*$` raises `AssertionError`
      on anything but binary digits, then the pattern decides. */
  function IsDominating(g: string): (r: Result<bool, Exception>)
    ensures r.Failure? ==> r.error == AssertionError
  {
    var m := MatchedPart(g);
    if !IsBinary(m) then Failure(AssertionError) else Success(Pattern(m))
  }

  // ---------------------------------------------------------------------
  // The pattern and the neighbour check agree

  /** A selected vertex cuts the path in two: each side is checked on its
      own, with the '1' as its end. */
  lemma SplitAtOne(x: string, y: string)
    ensures Dominated(x + "1" + y) <==> Dominated(x + "1") && Dominated("1" + y)
  {
    var z := x + "1" + y;
    var l := x + "1";
    var r := "1" + y;
    forall i | 0 <= i < |l|
      ensures Covered(z, i) <==> Covered(l, i)
    {
      assert z[i] == l[i];
      if i > 0 { assert z[i - 1] == l[i - 1]; }
      if i + 1 < |l| { assert z[i + 1] == l[i + 1]; }
    }
    forall i | 0 <= i < |r|
      ensures Covered(z, |x| + i) <==> Covered(r, i)
    {
      assert z[|x| + i] == r[i];
      if i > 0 { assert z[|x| + i - 1] == r[i - 1]; }
      if i + 1 < |r| { assert z[|x| + i + 1] == r[i + 1]; }
    }
    if Dominated(l) && Dominated(r) {
      forall i | 0 <= i < |z|
        ensures Covered(z, i)
      {
        if i < |l| {
          assert Covered(l, i);
        } else {
          assert Covered(r, i - |x|);
        }
      }
    }
    if Dominated(z) {
      forall i | 0 <= i < |l| ensures Covered(l, i) {
        assert Covered(z, i);
      }
      forall i | 0 <= i < |r| ensures Covered(r, i) {
        assert Covered(z, |x| + i);
      }
    }
  }

  /** Unfolding `Tail` when `t` starts with the block "1", "01" or "001":
      the other alternatives cannot apply. */
  lemma TailBlock(t: string, b: string)
    requires b == "1" || b == "01" || b == "001"
    requires |t| >= |b| && t[..|b|] == b
    ensures Tail(t) <==> Tail(t[|b|..])
  {
    if b == "1" {
      assert t[..1][0] == t[0];
      assert !(|t| >= 2 && t[..2] == "01") by { assert |t| >= 2 ==> t[..2][0] == t[0]; }
      assert !(|t| >= 3 && t[..3] == "001") by { assert |t| >= 3 ==> t[..3][0] == t[0]; }
    } else if b == "01" {
      assert t[..2][1] == t[1] && t[..2][0] == t[0];
      assert !(t[..1] == "1") by { assert t[..1][0] == t[0]; }
      assert !(|t| >= 3 && t[..3] == "001") by { assert |t| >= 3 ==> t[..3][1] == t[1]; }
    } else {
      assert t[..3][0] == t[0] && t[..3][1] == t[1];
      assert !(t[..1] == "1") by { assert t[..1][0] == t[0]; }
      assert !(t[..2] == "01") by { assert t[..2][1] == t[1]; }
    }
  }

  /** A string starting "00" that is not followed by a '1' matches no
      alternative of `Tail`. */
  lemma TailNoBlock(t: string)
    requires |t| >= 2 && t[0] == '0' && t[1] == '0' && (|t| == 2 || t[2] == '0')
    ensures !Tail(t)
  {
    assert t != "0";
    assert t[..1] != "1" by { assert t[..1][0] == t[0]; }
    assert t[..2] != "01" by { assert t[..2][1] == t[1]; }
    assert !(|t| >= 3 && t[..3] == "001") by { assert |t| >= 3 ==> t[..3][2] == t[2]; }
  }

  /** A '1' followed by a block "1", "01" or "001" is dominated on its own,
      so the block can be skipped. */
  lemma SkipBlock(b: string, u: string)
    requires b == "1" || b == "01" || b == "001"
    ensures Dominated("1" + b + u) <==> Dominated("1" + u)
  {
    var p := "1" + b[..|b| - 1];
    assert "1" + b + u == p + "1" + u;
    assert p + "1" == "1" + b;
    SplitAtOne(p, u);
    var w := "1" + b;
    forall i | 0 <= i < |w| ensures Covered(w, i) {
      if w[i] != '1' {
        if i + 1 < |w| && w[i + 1] == '1' {
        } else {
          assert i > 0 && w[i - 1] == '1';
        }
      }
    }
  }

  /** `SkipBlock` for a string `t` that starts with the block. */
  lemma DominatedBlock(t: string, b: string)
    requires b == "1" || b == "01" || b == "001"
    requires |t| >= |b| && t[..|b|] == b
    ensures Dominated("1" + t) <==> Dominated("1" + t[|b|..])
  {
    var u := t[|b|..];
    assert "1" + t == "1" + b + u by { assert t == b + u; }
    SkipBlock(b, u);
  }

  /** Three '0's after a '1', or two at the end, leave the middle '0'
      undominated; the pattern fails there too. */
  lemma NoBlockStep(t: string)
    requires |t| >= 2 && t[0] == '0' && t[1] == '0' && (|t| == 2 || t[2] == '0')
    ensures !Tail(t) && !Dominated("1" + t)
  {
    TailNoBlock(t);
    assert !Covered("1" + t, 2);
  }

  /** After a '1', the rest matches `(0{0,2}1)*0?` exactly when the path
      that starts with that '1' is dominated. */
  lemma {:induction false} TailDominated(t: string)
    requires IsBinary(t)
    ensures Tail(t) <==> Dominated("1" + t)
    decreases |t|
  {
    if t == [] {
      assert Covered("1", 0);
    } else if t == "0" {
      assert Covered("10", 0) && Covered("10", 1);
    } else if t[0] == '1' {
      TailDominated(t[1..]);
      TailBlock(t, "1");
      DominatedBlock(t, "1");
    } else if t[1] == '1' {
      TailDominated(t[2..]);
      TailBlock(t, "01");
      DominatedBlock(t, "01");
    } else if |t| > 2 && t[2] == '1' {
      TailDominated(t[3..]);
      TailBlock(t, "001");
      DominatedBlock(t, "001");
    } else {
      NoBlockStep(t);
    }
  }

  /** The comment at dominating.py:33 made exact: over binary digits the
      pattern accepts precisely the non-empty strings in which every
      vertex is selected or adjacent to a selected one. */
  lemma PatternDominated(s: string)
    requires IsBinary(s)
    ensures Pattern(s) <==> s != [] && Dominated(s)
  {
    if s == [] {
    } else if s[0] == '1' {
      TailDominated(s[1..]);
      assert s == "1" + s[1..];
    } else if |s| == 1 {
      assert !Covered(s, 0);
    } else if s[1] == '0' {
      assert !Covered(s, 0);
    } else {
      TailDominated(s[2..]);
      assert s[1..] == "1" + s[2..];
      SplitAtOne("0", s[2..]);
      assert "0" + "1" + s[2..] == s;
      assert Dominated("01") by { assert Covered("01", 0) && Covered("01", 1); }
    }
  }

  /** `is_dominating` on a string of binary digits answers the neighbour
      check; the empty string (the graph with no vertices) is rejected. */
  lemma IsDominatingCorrect(g: string)
    requires IsBinary(g)
    ensures IsDominating(g) == Success(g != [] && Dominated(g))
  {
    PatternDominated(g);
  }

  /** The assertion at dominating.py:31 fails exactly on the strings that
      are neither binary nor binary followed by one newline. */
  lemma IsDominatingRejectsNonBinary(g: string)
    ensures IsDominating(g).Failure? <==>
      !IsBinary(g) && !(|g| > 0 && g[|g| - 1] == '\n' && IsBinary(g[..|g| - 1]))
  {
  }

  /** Because `$` also matches before a final newline, a trailing "\n" is
      ignored by both patterns. */
  lemma IsDominatingFinalNewline(g: string)
    requires IsBinary(g)
    ensures IsDominating(g + "\n") == IsDominating(g)
  {
    assert (g + "\n")[..|g|] == g;
  }

  /** The empty path graph is vacuously dominated, but the pattern needs a
      '1', so `is_dominating("")` is false. */
  lemma EmptyGraph()
    ensures Dominated("") && IsDominating("") == Success(false)
  {
  }

  // ---------------------------------------------------------------------
  // The run-length view of the pattern

  predicate ZeroRunAt(s: string, i: int)
    requires 0 <= i && i + 2 < |s|
  {
    s[i] == '0' && s[i + 1] == '0' && s[i + 2] == '0'
  }

  /** At least one '1', no run of three '0's anywhere, and at most one '0'
      before the first '1' and after the last. */
  predicate RunLengthOk(s: string) {
    && (exists i :: 0 <= i < |s| && s[i] == '1')
    && !(|s| >= 2 && s[0] == '0' && s[1] == '0')
    && !(|s| >= 2 && s[|s| - 2] == '0' && s[|s| - 1] == '0')
    && (forall i :: 0 <= i && i + 2 < |s| ==> !ZeroRunAt(s, i))
  }

  /** Over binary digits, a non-empty dominated string is exactly one whose
      runs of '0' obey the limits of the pattern. */
  lemma DominatedRunLength(s: string)
    requires IsBinary(s)
    ensures s != [] && Dominated(s) <==> RunLengthOk(s)
  {
    if s != [] && Dominated(s) {
      assert Covered(s, 0);
      if |s| >= 2 { assert Covered(s, |s| - 1); }
      forall i | 0 <= i && i + 2 < |s| ensures !ZeroRunAt(s, i) {
        assert Covered(s, i + 1);
      }
      assert s[0] == '1' || s[1] == '1';
    }
    if RunLengthOk(s) {
      var j :| 0 <= j < |s| && s[j] == '1';
      forall i | 0 <= i < |s| ensures Covered(s, i) {
        if s[i] == '0' {
          if i == 0 {
            assert |s| >= 2;
          } else if i == |s| - 1 {
          } else {
            assert !ZeroRunAt(s, i - 1);
          }
        }
      }
    }
  }

  /** Everything `is_dominating` accepts contains a '1'; in particular
      every all-'0' string is rejected. */
  lemma AcceptedHasOne(g: string)
    requires IsBinary(g) && IsDominating(g) == Success(true)
    ensures exists i :: 0 <= i < |g| && g[i] == '1'
  {
    IsDominatingCorrect(g);
    DominatedRunLength(g);
  }

  /** The small cases and the examples of the module docstring. */
  lemma Examples()
    ensures IsDominating("0") == Success(false)
    ensures IsDominating("00") == Success(false)
    ensures IsDominating("1") == Success(true)
    ensures IsDominating("01") == Success(true)
    ensures IsDominating("10") == Success(true)
    ensures IsDominating("11") == Success(true)
    ensures IsDominating("10010") == Success(true)
    ensures IsDominating("10101") == Success(true)
    ensures IsDominating("10001") == Success(false)
    ensures IsDominating("01000") == Success(false)
  {
  }
}
