/** The example driver (dominating.py:44-47), with its printing left out:
    the graphs of `graphs_of_len(size)` that `is_dominating` accepts, in
    the order they are produced. */
module Driver {
  import opened Wrappers
  import opened Encoding
  import opened Domination
  import opened Enumeration

  /** The graphs of `gs` that `is_dominating` accepts, in their order. */
  function Survivors(gs: seq<string>): (r: seq<string>)
    ensures |r| <= |gs|
    ensures forall g :: g in r <==> g in gs && IsDominating(g) == Success(true)
  {
    if gs == [] then []
    else (if IsDominating(gs[0]) == Success(true) then [gs[0]] else []) + Survivors(gs[1..])
  }

  /** What the driver prints for a path graph of `size` vertices. */
  function DominatingGraphsOfLen(size: nat): (r: seq<string>)
    ensures |r| <= Pow2(size)
    ensures forall g :: g in r ==> IsBinary(g) && IsDominating(g) == Success(true)
  {
    Survivors(GraphsOfLen(size))
  }

  predicate StrictlyAscending(gs: seq<string>) {
    forall i, j :: 0 <= i < j < |gs| ==> LexLess(gs[i], gs[j])
  }

  /** Filtering keeps the order of what it filters. */
  lemma {:induction false} SurvivorsAscending(gs: seq<string>)
    requires StrictlyAscending(gs)
    ensures StrictlyAscending(Survivors(gs))
  {
    if gs != [] {
      var rest := Survivors(gs[1..]);
      SurvivorsAscending(gs[1..]);
      if IsDominating(gs[0]) == Success(true) {
        var r := [gs[0]] + rest;
        forall i, j | 0 <= i < j < |r| ensures LexLess(r[i], r[j]) {
          if i == 0 {
            assert r[j] in gs[1..];
          } else {
            assert r[i] == rest[i - 1] && r[j] == rest[j - 1];
          }
        }
      }
    }
  }

  /** The driver prints, in ascending order, exactly the dominating sets of
      the path graph on `size >= 1` vertices. */
  lemma DominatingGraphsOfLenSpec(size: nat, g: string)
    requires size >= 1
    ensures StrictlyAscending(DominatingGraphsOfLen(size))
    ensures g in DominatingGraphsOfLen(size) <==> IsBinary(g) && |g| == size && Dominated(g)
  {
    var all := GraphsOfLen(size);
    GraphsOfLenShape(size);
    GraphsOfLenAscending(size);
    SurvivorsAscending(all);
    if g in DominatingGraphsOfLen(size) {
      IsDominatingCorrect(g);
    }
    if IsBinary(g) && |g| == size && Dominated(g) {
      GraphsOfLenComplete(size, g);
      IsDominatingCorrect(g);
    }
  }
}
