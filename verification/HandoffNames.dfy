/** The name a new hand-off branch gets. */
module HandoffNames {
  import Decimal
  import opened RefPlan
  import opened Replicate

  /** What the n-th name tried puts after the plain one. */
  function Suffix(n: nat): string {
    if n < 2 then "" else "-" + Decimal.Print(n)
  }

  /** The n-th name tried, from 1. */
  function Candidate(stem: Ref, n: nat): Ref {
    stem + Suffix(n)
  }

  lemma SuffixesDiffer(a: nat, b: nat)
    requires 1 <= a < b
    ensures Suffix(a) != Suffix(b)
  {
    if a >= 2 && Suffix(a) == Suffix(b) {
      assert Suffix(a)[1..] == Decimal.Print(a) && Suffix(b)[1..] == Decimal.Print(b);
      Decimal.PrintInjective(a, b);
    }
  }

  lemma CandidatesDiffer(stem: Ref, a: nat, b: nat)
    requires 1 <= a < b
    ensures Candidate(stem, a) != Candidate(stem, b)
  {
    SuffixesDiffer(a, b);
    assert Candidate(stem, a)[|stem|..] == Suffix(a) && Candidate(stem, b)[|stem|..] == Suffix(b);
  }

  lemma CandidateIsHandoff(node: string, branch: string, n: nat)
    ensures IsHandoff(Candidate(HANDOFF_PREFIX + node + "/" + branch, n))
  {
    var stem := HANDOFF_PREFIX + node + "/" + branch;
    assert stem[..|HANDOFF_PREFIX|] == HANDOFF_PREFIX;
    assert Candidate(stem, n)[..|stem|] == stem;
    assert Candidate(stem, n)[..|HANDOFF_PREFIX|] == HANDOFF_PREFIX;
  }

  /** The names tried before the n-th, all in use and all different. */
  ghost predicate Tried(stem: Ref, n: nat, taken: Refs, tried: set<Ref>) {
    && tried <= taken.Keys
    && (forall i :: 1 <= i < n ==> Candidate(stem, i) in tried)
    && (forall r :: r in tried ==> exists i :: 1 <= i < n && r == Candidate(stem, i))
  }

  lemma OneMoreTried(stem: Ref, n: nat, taken: Refs, tried: set<Ref>)
    requires n >= 1 && Tried(stem, n, taken, tried) && Candidate(stem, n) in taken
    ensures Tried(stem, n + 1, taken, tried + {Candidate(stem, n)}) && Candidate(stem, n) !in tried
  {
    var full := Candidate(stem, n);
    if full in tried {
      var i :| 1 <= i < n && full == Candidate(stem, i);
      CandidatesDiffer(stem, i, n);
    }
    forall r | r in tried + {full} ensures exists i :: 1 <= i < n + 1 && r == Candidate(stem, i) {
      if r in tried {
        var i :| 1 <= i < n && r == Candidate(stem, i);
        assert 1 <= i < n + 1;
      }
    }
  }

  lemma FirstAndNext(stem: Ref, next: nat)
    requires next >= 2
    ensures stem == Candidate(stem, 1) && stem + "-" + Decimal.Print(next) == Candidate(stem, next)
  {
    assert stem + "" == stem;
    assert stem + ("-" + Decimal.Print(next)) == stem + "-" + Decimal.Print(next);
  }

  lemma FewerLeft(taken: set<Ref>, tried: set<Ref>, full: Ref)
    requires full in taken && full !in tried
    ensures |taken - (tried + {full})| < |taken - tried|
  {
    assert taken - (tried + {full}) == (taken - tried) - {full};
  }

  /** Tries names until one is free: it always finds one, the first in line, and never one in use. */
  method FreeName(stem: Ref, taken: Refs) returns (full: Ref, ghost n: nat)
    ensures full !in taken
    ensures n >= 1 && full == Candidate(stem, n) && forall i :: 1 <= i < n ==> Candidate(stem, i) in taken
  {
    full := stem;
    n := 1;
    var next := 2;
    FirstAndNext(stem, next);
    ghost var tried: set<Ref> := {};
    while full in taken
      invariant next == n + 1 && n >= 1 && full == Candidate(stem, n)
      invariant Tried(stem, n, taken, tried)
      decreases |taken.Keys - tried|
    {
      OneMoreTried(stem, n, taken, tried);
      FewerLeft(taken.Keys, tried, full);
      FirstAndNext(stem, next);
      tried := tried + {full};
      full := stem + "-" + Decimal.Print(next);
      n := next;
      next := next + 1;
    }
  }

  /** The first name in line that is not in use: "refs/heads/forgesync/conflict/<node>/<branch>", then with -2, -3 and so on. */
  ghost predicate IsNext(full: Ref, node: string, branch: string, taken: Refs) {
    var stem := "refs/heads/forgesync/conflict/" + node + "/" + branch;
    full !in taken && (full == stem || (stem in taken && exists n: nat :: n >= 2 && IsNumbered(full, stem, n, taken)))
  }

  ghost predicate IsNumbered(full: Ref, stem: Ref, n: nat, taken: Refs) {
    full == stem + "-" + Decimal.Print(n) && forall i: nat :: 2 <= i < n ==> stem + "-" + Decimal.Print(i) in taken
  }

  method FreeBranch(node: string, branch: string, taken: Refs) returns (full: Ref)
    ensures full !in taken && IsHandoff(full) && IsNext(full, node, branch, taken)
  {
    ghost var n;
    full, n := FreeName(HANDOFF_PREFIX + node + "/" + branch, taken);
    CandidateIsHandoff(node, branch, n);
    CandidateIsNext(full, node, branch, n, taken);
  }

  lemma CandidateIsNext(full: Ref, node: string, branch: string, n: nat, taken: Refs)
    requires n >= 1 && full !in taken
    requires
      var stem := HANDOFF_PREFIX + node + "/" + branch;
      full == Candidate(stem, n) && forall i :: 1 <= i < n ==> Candidate(stem, i) in taken
    ensures IsNext(full, node, branch, taken)
  {
    var stem := HANDOFF_PREFIX + node + "/" + branch;
    FirstAndNext(stem, 2);
    if n >= 2 {
      FirstAndNext(stem, n);
      forall i: nat | 2 <= i < n ensures stem + "-" + Decimal.Print(i) in taken {
        FirstAndNext(stem, i);
        assert Candidate(stem, i) in taken;
      }
      assert Candidate(stem, 1) in taken;
      assert IsNumbered(full, stem, n, taken);
    }
  }
}
