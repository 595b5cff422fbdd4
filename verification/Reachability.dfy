/** Reachability in a directed graph given by a successor function. */
module Reachability {

  ghost predicate Chain(succ: string -> set<string>, ds: seq<string>) {
    ds != [] && forall i :: 0 < i < |ds| ==> ds[i] in succ(ds[i - 1])
  }

  ghost predicate Reach(succ: string -> set<string>, a: string, b: string) {
    exists ds :: Chain(succ, ds) && ds[0] == a && ds[|ds| - 1] == b
  }

  lemma ReachSelf(succ: string -> set<string>, a: string)
    ensures Reach(succ, a, a)
  {
    assert Chain(succ, [a]) && [a][|[a]| - 1] == a;
  }

  lemma ReachStep(succ: string -> set<string>, a: string, b: string, c: string)
    requires Reach(succ, a, b) && c in succ(b)
    ensures Reach(succ, a, c)
  {
    var ds :| Chain(succ, ds) && ds[0] == a && ds[|ds| - 1] == b;
    var es := ds + [c];
    assert Chain(succ, es) && es[0] == a && es[|es| - 1] == c;
  }

  /** A set that is closed under successors holds everything reachable from its members. */
  lemma {:induction false} ClosedChain(succ: string -> set<string>, ds: seq<string>, s: iset<string>)
    requires Chain(succ, ds) && ds[0] in s
    requires forall d, e :: d in s && e in succ(d) ==> e in s
    ensures ds[|ds| - 1] in s
  {
    if |ds| > 1 {
      var front := ds[..|ds| - 1];
      assert Chain(succ, front);
      ClosedChain(succ, front, s);
    }
  }

  lemma ReachClosed(succ: string -> set<string>, a: string, s: iset<string>)
    requires a in s && forall d, e :: d in s && e in succ(d) ==> e in s
    ensures forall b :: Reach(succ, a, b) ==> b in s
  {
    forall b | Reach(succ, a, b) ensures b in s {
      var ds :| Chain(succ, ds) && ds[0] == a && ds[|ds| - 1] == b;
      ClosedChain(succ, ds, s);
    }
  }

  lemma ReachTransitive(succ: string -> set<string>, a: string, b: string, c: string)
    requires Reach(succ, a, b) && Reach(succ, b, c)
    ensures Reach(succ, a, c)
  {
    var s := iset d | Reach(succ, a, d);
    forall d, e | d in s && e in succ(d) ensures e in s {
      ReachStep(succ, a, d, e);
    }
    ReachClosed(succ, b, s);
  }
}
