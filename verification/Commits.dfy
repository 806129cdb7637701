/** The history of a repository: commits, and which contain which. */
module Commits {

  /** A commit's id is a hash over its content and its parents' ids, so a commit here is those two. */
  datatype Commit = Commit(content: int, parents: seq<Commit>)

  /** a is an ancestor of b, or b itself. */
  ghost predicate Ancestor(a: Commit, b: Commit)
    decreases b
  {
    a == b || exists i :: 0 <= i < |b.parents| && Ancestor(a, b.parents[i])
  }

  lemma {:induction false} AncestorTransitive(a: Commit, b: Commit, c: Commit)
    requires Ancestor(a, b) && Ancestor(b, c)
    ensures Ancestor(a, c)
    decreases c
  {
    if b != c {
      var i :| 0 <= i < |c.parents| && Ancestor(b, c.parents[i]);
      AncestorTransitive(a, b, c.parents[i]);
    }
  }

  ghost function Size(c: Commit): nat {
    1 + Sizes(c.parents)
  }

  ghost function Sizes(cs: seq<Commit>): nat {
    if cs == [] then 0 else Size(cs[0]) + Sizes(cs[1..])
  }

  lemma {:induction false} MemberSmaller(cs: seq<Commit>, i: nat)
    requires i < |cs|
    ensures Size(cs[i]) <= Sizes(cs)
  {
    if i > 0 { MemberSmaller(cs[1..], i - 1); }
  }

  lemma {:induction false} AncestorSmaller(a: Commit, b: Commit)
    requires Ancestor(a, b) && a != b
    ensures Size(a) < Size(b)
    decreases b
  {
    var i :| 0 <= i < |b.parents| && Ancestor(a, b.parents[i]);
    MemberSmaller(b.parents, i);
    if a != b.parents[i] { AncestorSmaller(a, b.parents[i]); }
  }

  /** History has no cycles. */
  lemma AncestorAntisymmetric(a: Commit, b: Commit)
    requires Ancestor(a, b) && Ancestor(b, a)
    ensures a == b
  {
    if a != b {
      AncestorSmaller(a, b);
      AncestorSmaller(b, a);
    }
  }

  /** What "is a an ancestor of b?" comes back with: git may be unable to tell. */
  datatype Answer = Yes | No | CannotTell

  type Ancestry = (Commit, Commit) -> Answer

  /** git may fail to answer, but what it answers is true. */
  ghost predicate Truthful(ask: Ancestry) {
    forall a, b :: (ask(a, b) == Yes ==> Ancestor(a, b)) && (ask(a, b) == No ==> !Ancestor(a, b))
  }

  /** Truthful, and never without an answer. */
  ghost predicate Exact(ask: Ancestry) {
    forall a, b :: ask(a, b) == if Ancestor(a, b) then Yes else No
  }
}
