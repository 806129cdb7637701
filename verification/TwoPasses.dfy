/**
 * A repository left alone: nobody pushes, every node is healthy and takes what it is sent, and
 * git can always tell. Then runPasses, of at most two passes, brings every branch that can be
 * brought together without a person to the same commit on every node.
 */
module TwoPasses {
  import opened Optional
  import opened Text
  import opened Commits
  import opened RefPlan
  import opened Replicate
  import opened Resumption

  datatype Replica = Replica(refs: Refs, base: Refs)

  datatype Repo = Repo(primary: Refs, replicas: seq<Replica>)

  /** replicate, then autoFix, on one replica, with every push accepted. */
  ghost function SyncOne(p: Refs, rep: Replica, ask: Ancestry): (Refs, Replica, bool) {
    var actions, fixes := Planned(p, rep.refs, rep.base, ask), Fixes(Flagged(p, rep.refs, rep.base, ask));
    (Pushed(p, fixes, RefsOf(fixes)),
     Replica(Pushed(rep.refs, actions, RefsOf(actions)), Rebased(rep.base, p, rep.refs, actions, RefsOf(actions))),
     fixes != [])
  }

  /** The replica loop of one pass: each replica is compared with the primary as the ones before left it. */
  ghost function Pass(p: Refs, reps: seq<Replica>, ask: Ancestry): (r: (Refs, seq<Replica>, bool))
    ensures |r.1| == |reps|
    decreases |reps|
  {
    if reps == [] then (p, [], false)
    else
      var (p1, rep, fixed) := SyncOne(p, reps[0], ask);
      var (p2, rest, again) := Pass(p1, reps[1..], ask);
      (p2, [rep] + rest, fixed || again)
  }

  ghost function AfterPasses(repo: Repo, ask: Ancestry): Repo {
    var (p1, reps1, again) := Pass(repo.primary, repo.replicas, ask);
    if !again then Repo(p1, reps1)
    else
      var (p2, reps2, _) := Pass(p1, reps1, ask);
      Repo(p2, reps2)
  }

  // ----- one ref at a time -----

  /** What a pass sees of one ref: its head on the primary and, for each replica, its head and its base. */
  datatype Copy = Copy(head: Option<Commit>, base: Option<Commit>)

  ghost function CopyOf(rep: Replica, ref: Ref): Copy {
    Copy(Lookup(rep.refs, ref), Lookup(rep.base, ref))
  }

  /** SyncOne on a branch the primary has. */
  ghost function StepCopy(p: Commit, c: Copy): (Commit, Copy) {
    if c.head.None? || c.head.value == p || Ancestor(c.head.value, p) then (p, Copy(Some(p), Some(p)))
    else if c.base == c.head || !Ancestor(p, c.head.value) then (p, c)
    else (c.head.value, c)
  }

  lemma {:induction false} FixedAt(p: Refs, issues: seq<Issue>, x: Issue)
    requires InOrder(issues, IssueRef) && x in issues
    ensures
      var fixes := Fixes(issues);
      Lookup(Pushed(p, fixes, RefsOf(fixes)), x.ref) == (if FixOf(x).Some? then FixOf(x).value.Target() else Lookup(p, x.ref))
      && (FixOf(x).Some? ==> fixes != [])
  {
    var fixes := Fixes(issues);
    FixesInOrder(issues);
    if FixOf(x).Some? {
      FixesAre(issues, FixOf(x).value);
      PushedAt(p, fixes, RefsOf(fixes), FixOf(x).value);
      assert x.ref in RefsOf(fixes);
    } else {
      forall a | a in fixes ensures a.ref != x.ref {
        FixesAre(issues, a);
        var y :| y in issues && FixOf(y) == Some(a);
        SameEntry(issues, x, y);
      }
      PushedElsewhere(p, fixes, RefsOf(fixes), x.ref);
    }
  }

  lemma SameEntry(issues: seq<Issue>, x: Issue, y: Issue)
    requires InOrder(issues, IssueRef) && x in issues && y in issues && x != y
    ensures x.ref != y.ref
  {
    var i :| 0 <= i < |issues| && issues[i] == x;
    var j :| 0 <= j < |issues| && issues[j] == y;
    var keys := KeysOf(issues, IssueRef);
    assert keys[i] == x.ref && keys[j] == y.ref;
  }

  lemma NoFixElsewhere(p: Refs, rep: Replica, ask: Ancestry, ref: Ref)
    requires !On(ref, p, rep.refs, rep.base, ask).Ask?
    ensures
      var fixes := Fixes(Flagged(p, rep.refs, rep.base, ask));
      Lookup(Pushed(p, fixes, RefsOf(fixes)), ref) == Lookup(p, ref)
  {
    var issues := Flagged(p, rep.refs, rep.base, ask);
    PlanIs(p, rep.refs, rep.base, ask);
    forall a | a in Fixes(issues) ensures a.ref != ref {
      FixesAre(issues, a);
    }
    PushedElsewhere(p, Fixes(issues), RefsOf(Fixes(issues)), ref);
  }

  /** The verdict on a branch the primary has, and what StepCopy makes of it. */
  lemma StepIsVerdict(p: Commit, c: Copy, ask: Ancestry, ref: Ref)
    requires Exact(ask) && !IsTag(ref)
    ensures
      var (head, copy) := StepCopy(p, c);
      match PlanRef(ref, Some(p), c.head, c.base, ask)
      case Leave => head == p && copy == Copy(Some(p), Some(p)) && c.head == Some(p)
      case Do(a) => head == p && copy == Copy(Some(p), Some(p)) && c.head != Some(p)
      case Ask(x) =>
        && copy == c && c.head.Some? && c.head != Some(p) && x.ref == ref
        && (if FixOf(x).Some? then FixOf(x).value.Target() == Some(head) && head != p else head == p)
  {
    if c.head.Some? && Ancestor(p, c.head.value) && Ancestor(c.head.value, p) {
      AncestorAntisymmetric(p, c.head.value);
    }
  }

  lemma SyncOneAt(p: Refs, rep: Replica, ask: Ancestry, ref: Ref)
    requires Exact(ask) && !IsTag(ref) && ref in p
    ensures
      var (p', rep', fixed) := SyncOne(p, rep, ask);
      var (head, copy) := StepCopy(p[ref], CopyOf(rep, ref));
      Lookup(p', ref) == Some(head) && CopyOf(rep', ref) == copy && (head != p[ref] ==> fixed)
  {
    var actions := Planned(p, rep.refs, rep.base, ask);
    var issues := Flagged(p, rep.refs, rep.base, ask);
    var v := On(ref, p, rep.refs, rep.base, ask);
    StepIsVerdict(p[ref], CopyOf(rep, ref), ask, ref);
    VerdictIsListed(p, rep.refs, rep.base, ask, ref);
    AfterPush(p, rep.refs, rep.base, ask, RefsOf(actions), RefsOf(actions), ref);
    if v.Ask? {
      PlanInOrder(Union(p, rep.refs, rep.base), p, rep.refs, rep.base, ask);
      FixedAt(p, issues, v.issue);
    } else {
      NoFixElsewhere(p, rep, ask, ref);
    }
  }

  ghost function PassCopies(p: Commit, cs: seq<Copy>): (r: (Commit, seq<Copy>))
    ensures |r.1| == |cs|
    decreases |cs|
  {
    if cs == [] then (p, [])
    else
      var (p1, c) := StepCopy(p, cs[0]);
      var (p2, rest) := PassCopies(p1, cs[1..]);
      (p2, [c] + rest)
  }

  ghost function CopiesOf(reps: seq<Replica>, ref: Ref): seq<Copy> {
    if reps == [] then [] else [CopyOf(reps[0], ref)] + CopiesOf(reps[1..], ref)
  }

  lemma {:induction false} PassAt(p: Refs, reps: seq<Replica>, ask: Ancestry, ref: Ref)
    requires Exact(ask) && !IsTag(ref) && ref in p
    ensures
      var (p', reps', again) := Pass(p, reps, ask);
      var (head, copies) := PassCopies(p[ref], CopiesOf(reps, ref));
      Lookup(p', ref) == Some(head) && CopiesOf(reps', ref) == copies && (head != p[ref] ==> again)
    decreases |reps|
  {
    if reps != [] {
      var (p1, rep, fixed) := SyncOne(p, reps[0], ask);
      SyncOneAt(p, reps[0], ask, ref);
      PassAt(p1, reps[1..], ask, ref);
      var cs := CopiesOf(reps, ref);
      assert cs[1..] == CopiesOf(reps[1..], ref);
      var (p2, rest, again) := Pass(p1, reps[1..], ask);
      assert ([rep] + rest)[1..] == rest;
    }
  }

  // ----- chains -----

  /** The heads of one branch on all nodes lie on one line of history, and top is the last of them. */
  ghost predicate OnChain(p: Commit, cs: seq<Copy>, chain: set<Commit>, top: Commit) {
    && p in chain && top in chain
    && (forall i :: 0 <= i < |cs| && cs[i].head.Some? ==> cs[i].head.value in chain)
    && (forall a, b :: a in chain && b in chain ==> Ancestor(a, b) || Ancestor(b, a))
    && (forall a :: a in chain ==> Ancestor(a, top))
  }

  /** Every node has top, and so does every base. */
  ghost predicate AllAt(p: Commit, cs: seq<Copy>, top: Commit) {
    p == top && forall i :: 0 <= i < |cs| ==> cs[i] == Copy(Some(top), Some(top))
  }

  /** Nothing but a person can move the primary to top: only replicas at their recorded base have it. */
  ghost predicate Stuck(p: Commit, cs: seq<Copy>, top: Commit) {
    p != top && forall i :: 0 <= i < |cs| && cs[i].head == Some(top) ==> cs[i].base == Some(top)
  }

  lemma StepOnChain(p: Commit, c: Copy, chain: set<Commit>, top: Commit)
    requires OnChain(p, [c], chain, top)
    ensures
      var (p', c') := StepCopy(p, c);
      && OnChain(p', [c'], chain, top)
      && (p == top ==> p' == top && c' == Copy(Some(top), Some(top)))
      && (p != top && c.head == Some(top) && c.base != c.head ==> p' == top)
      && (p != top && (c.head == Some(top) ==> c.base == c.head) ==>
            p' != top && (c'.head == Some(top) <==> c.head == Some(top)) && (c'.head == Some(top) ==> c' == c))
  {
    assert [c][0] == c;
    if c.head.Some? {
      var r := c.head.value;
      assert r in chain;
      assert Ancestor(p, top) && Ancestor(r, top);
      if r == top && p != top && Ancestor(top, p) { AncestorAntisymmetric(p, top); }
    }
  }

  lemma {:induction false} PassOnChain(p: Commit, cs: seq<Copy>, chain: set<Commit>, top: Commit)
    requires OnChain(p, cs, chain, top)
    ensures
      var (p', cs') := PassCopies(p, cs);
      && OnChain(p', cs', chain, top)
      && (p == top ==> AllAt(p', cs', top))
      && (Stuck(p, cs, top) ==> Stuck(p', cs', top))
      && (!Stuck(p, cs, top) ==> p' == top)
      && (forall i :: 0 <= i < |cs| && cs[i].head == Some(top) ==> cs'[i].head == Some(top))
    decreases |cs|
  {
    if cs != [] {
      assert [cs[0]][0] == cs[0];
      StepOnChain(p, cs[0], chain, top);
      var (p1, c) := StepCopy(p, cs[0]);
      assert [c][0] == c;
      PassOnChain(p1, cs[1..], chain, top);
      var (p2, rest) := PassCopies(p1, cs[1..]);
      assert PassCopies(p, cs).1 == [c] + rest;
      assert forall i :: 1 <= i < |cs| ==> cs[i] == cs[1..][i - 1];
    }
  }

  // ----- the theorem -----

  ghost predicate ChainOf(repo: Repo, ref: Ref, chain: set<Commit>, top: Commit)
    requires ref in repo.primary
  {
    OnChain(repo.primary[ref], CopiesOf(repo.replicas, ref), chain, top)
  }

  /** The branch stands at top on every node, and every base says so. */
  ghost predicate Together(repo: Repo, ref: Ref, top: Commit) {
    && Lookup(repo.primary, ref) == Some(top)
    && forall i :: 0 <= i < |repo.replicas| ==>
         Lookup(repo.replicas[i].refs, ref) == Some(top) && Lookup(repo.replicas[i].base, ref) == Some(top)
  }

  lemma {:induction false} CopiesAt(reps: seq<Replica>, ref: Ref)
    ensures |CopiesOf(reps, ref)| == |reps|
    ensures forall i :: 0 <= i < |reps| ==> CopiesOf(reps, ref)[i] == CopyOf(reps[i], ref)
  {
    if reps != [] {
      CopiesAt(reps[1..], ref);
    }
  }

  /** Somewhere the branch stands at top, free to be carried on: on the primary, or on a replica not at its recorded base. */
  ghost predicate Free(repo: Repo, ref: Ref, top: Commit) {
    Lookup(repo.primary, ref) == Some(top) ||
    exists i :: 0 <= i < |repo.replicas| && Lookup(repo.replicas[i].refs, ref) == Some(top) && Lookup(repo.replicas[i].base, ref) != Some(top)
  }

  lemma StuckUnlessFree(repo: Repo, ref: Ref, top: Commit)
    requires ref in repo.primary
    ensures Stuck(repo.primary[ref], CopiesOf(repo.replicas, ref), top) <==> !Free(repo, ref, top)
  {
    CopiesAt(repo.replicas, ref);
    var cs := CopiesOf(repo.replicas, ref);
    forall i | 0 <= i < |cs| ensures cs[i] == CopyOf(repo.replicas[i], ref) {}
  }

  lemma TogetherIsAllAt(repo: Repo, ref: Ref, top: Commit)
    requires ref in repo.primary
    ensures Together(repo, ref, top) <==> AllAt(repo.primary[ref], CopiesOf(repo.replicas, ref), top)
  {
    CopiesAt(repo.replicas, ref);
    forall i | 0 <= i < |repo.replicas|
      ensures CopiesOf(repo.replicas, ref)[i] == Copy(Lookup(repo.replicas[i].refs, ref), Lookup(repo.replicas[i].base, ref)) {}
  }

  /** runPasses, as one branch sees it. */
  lemma AfterPassesAt(repo: Repo, ask: Ancestry, ref: Ref)
    requires Exact(ask) && !IsTag(ref) && ref in repo.primary
    ensures
      var after := AfterPasses(repo, ask);
      var (p1, cs1) := PassCopies(repo.primary[ref], CopiesOf(repo.replicas, ref));
      ref in after.primary &&
      ((after.primary[ref], CopiesOf(after.replicas, ref)) == PassCopies(p1, cs1) ||
       (p1 == repo.primary[ref] && (after.primary[ref], CopiesOf(after.replicas, ref)) == (p1, cs1)))
  {
    PassAt(repo.primary, repo.replicas, ask, ref);
    var (p1, reps1, again) := Pass(repo.primary, repo.replicas, ask);
    if again { PassAt(p1, reps1, ask, ref); }
  }

  /**
   * Two passes are enough, and they are enough exactly when they can be: if a branch's heads on
   * all nodes form one chain, then after runPasses it stands at the chain's top on every node and
   * in every base, if and only if it stood at the top somewhere free to be carried on.
   */
  lemma TwoPassesSuffice(repo: Repo, ask: Ancestry, ref: Ref, chain: set<Commit>, top: Commit)
    requires Exact(ask) && !IsTag(ref) && ref in repo.primary && ChainOf(repo, ref, chain, top)
    ensures Together(AfterPasses(repo, ask), ref, top) <==> Free(repo, ref, top)
  {
    var p0, cs0 := repo.primary[ref], CopiesOf(repo.replicas, ref);
    var (p1, cs1) := PassCopies(p0, cs0);
    PassOnChain(p0, cs0, chain, top);
    PassOnChain(p1, cs1, chain, top);
    AfterPassesAt(repo, ask, ref);
    TogetherIsAllAt(AfterPasses(repo, ask), ref, top);
    StuckUnlessFree(repo, ref, top);
  }

  // ----- branches the primary does not have -----

  /** SyncOne on a ref the primary lacks: deleted where it stands at its base, taken over where it has none, else left. */
  function StepAbsent(c: Copy): (Option<Commit>, Copy) {
    if c.head.None? || c.base == c.head then (None, Copy(None, None))
    else if c.base.None? then (c.head, c)
    else (None, c)
  }

  /** What a replica's turn leaves of a ref on the primary: the fix for its issue, if it has one. */
  lemma PrimaryAfter(p: Refs, rep: Replica, ask: Ancestry, ref: Ref)
    ensures
      var v := On(ref, p, rep.refs, rep.base, ask);
      var fix := if v.Ask? then FixOf(v.issue) else None;
      var (p', _, fixed) := SyncOne(p, rep, ask);
      && Lookup(p', ref) == (if fix.Some? then fix.value.Target() else Lookup(p, ref))
      && (fix.Some? ==> fixed && fix.value.Target().Some?)
  {
    var v := On(ref, p, rep.refs, rep.base, ask);
    if v.Ask? {
      AskedInOrder(p, rep, ask, ref);
      FixedAt(p, Flagged(p, rep.refs, rep.base, ask), v.issue);
    } else {
      NoFixElsewhere(p, rep, ask, ref);
    }
  }

  lemma AskedInOrder(p: Refs, rep: Replica, ask: Ancestry, ref: Ref)
    requires On(ref, p, rep.refs, rep.base, ask).Ask?
    ensures
      var x, issues := On(ref, p, rep.refs, rep.base, ask).issue, Flagged(p, rep.refs, rep.base, ask);
      x in issues && x.ref == ref && InOrder(issues, IssueRef)
  {
    VerdictIsListed(p, rep.refs, rep.base, ask, ref);
    PlanInOrder(Union(p, rep.refs, rep.base), p, rep.refs, rep.base, ask);
  }

  lemma SyncOneAbsent(p: Refs, rep: Replica, ask: Ancestry, ref: Ref)
    requires ref !in p
    ensures
      var (p', rep', fixed) := SyncOne(p, rep, ask);
      var (head, copy) := StepAbsent(CopyOf(rep, ref));
      Lookup(p', ref) == head && CopyOf(rep', ref) == copy && (head.Some? ==> fixed)
  {
    var actions := Planned(p, rep.refs, rep.base, ask);
    PrimaryAfter(p, rep, ask, ref);
    VerdictIsListed(p, rep.refs, rep.base, ask, ref);
    AfterPush(p, rep.refs, rep.base, ask, RefsOf(actions), RefsOf(actions), ref);
  }

  lemma SyncOneHas(p: Refs, rep: Replica, ask: Ancestry, ref: Ref)
    requires ref in p
    ensures ref in SyncOne(p, rep, ask).0
  {
    PrimaryAfter(p, rep, ask, ref);
  }

  lemma {:induction false} PassHas(p: Refs, reps: seq<Replica>, ask: Ancestry, ref: Ref)
    requires ref in p
    ensures ref in Pass(p, reps, ask).0
    decreases |reps|
  {
    if reps != [] {
      SyncOneHas(p, reps[0], ask, ref);
      PassHas(SyncOne(p, reps[0], ask).0, reps[1..], ask, ref);
    }
  }

  /** The replica does not have the ref, or has what was written there. */
  predicate AtBase(rep: Replica, ref: Ref) {
    ref in rep.refs ==> Lookup(rep.base, ref) == Some(rep.refs[ref])
  }

  predicate AllAtBase(reps: seq<Replica>, ref: Ref) {
    forall i :: 0 <= i < |reps| ==> AtBase(reps[i], ref)
  }

  predicate NoneHas(reps: seq<Replica>, ref: Ref) {
    forall i :: 0 <= i < |reps| ==> ref !in reps[i].refs && ref !in reps[i].base
  }

  lemma {:induction false} PassAbsent(p: Refs, reps: seq<Replica>, ask: Ancestry, ref: Ref)
    requires ref !in p
    ensures
      var (p', reps', _) := Pass(p, reps, ask);
      if AllAtBase(reps, ref) then ref !in p' && NoneHas(reps', ref) else ref in p' || !AllAtBase(reps', ref)
    decreases |reps|
  {
    if reps != [] {
      var p1, rep := SyncOne(p, reps[0], ask).0, SyncOne(p, reps[0], ask).1;
      var rest := Pass(p1, reps[1..], ask).1;
      TurnAbsent(p, reps[0], ask, ref);
      AtBaseFirst(reps, ref);
      AtBaseFirst([rep] + rest, ref);
      assert ([rep] + rest)[1..] == rest;
      if ref in p1 {
        PassHas(p1, reps[1..], ask, ref);
      } else {
        PassAbsent(p1, reps[1..], ask, ref);
      }
    }
  }

  lemma TurnAbsent(p: Refs, rep: Replica, ask: Ancestry, ref: Ref)
    requires ref !in p
    ensures
      var (p', rep', _) := SyncOne(p, rep, ask);
      if AtBase(rep, ref) then ref !in p' && ref !in rep'.refs && ref !in rep'.base else ref in p' || !AtBase(rep', ref)
  {
    SyncOneAbsent(p, rep, ask, ref);
    var rep' := SyncOne(p, rep, ask).1;
    assert CopyOf(rep', ref).head == Lookup(rep'.refs, ref) && CopyOf(rep', ref).base == Lookup(rep'.base, ref);
  }

  lemma AtBaseFirst(reps: seq<Replica>, ref: Ref)
    requires reps != []
    ensures AllAtBase(reps, ref) <==> AtBase(reps[0], ref) && AllAtBase(reps[1..], ref)
    ensures NoneHas(reps, ref) <==> ref !in reps[0].refs && ref !in reps[0].base && NoneHas(reps[1..], ref)
  {
    assert forall i :: 1 <= i < |reps| ==> reps[i] == reps[1..][i - 1];
  }

  /**
   * A ref gone from the primary is gone from every node and every base after runPasses, if and only
   * if each replica that has it has what was last written there.
   */
  lemma GoneEverywhereExactlyWhen(repo: Repo, ask: Ancestry, ref: Ref)
    requires ref !in repo.primary
    ensures
      var after := AfterPasses(repo, ask);
      ref !in after.primary && NoneHas(after.replicas, ref) <==> AllAtBase(repo.replicas, ref)
  {
    var (p1, reps1, again) := Pass(repo.primary, repo.replicas, ask);
    PassAbsent(repo.primary, repo.replicas, ask, ref);
    if again {
      if ref in p1 { PassHas(p1, reps1, ask, ref); } else { PassAbsent(p1, reps1, ask, ref); }
    }
  }

  /** Every head lies on the chain, and no base says anything yet. */
  ghost predicate NewOnChain(cs: seq<Copy>, chain: set<Commit>, top: Commit) {
    && top in chain
    && (forall i :: 0 <= i < |cs| ==> cs[i].base.None? && (cs[i].head.Some? ==> cs[i].head.value in chain))
    && (forall a, b :: a in chain && b in chain ==> Ancestor(a, b) || Ancestor(b, a))
    && (forall a :: a in chain ==> Ancestor(a, top))
  }

  lemma NewTail(cs: seq<Copy>, chain: set<Commit>, top: Commit)
    requires cs != [] && NewOnChain(cs, chain, top)
    ensures NewOnChain(cs[1..], chain, top) && cs[0].base.None? && (cs[0].head.Some? ==> cs[0].head.value in chain)
  {
    assert forall k :: 0 <= k < |cs[1..]| ==> cs[1..][k] == cs[k + 1];
  }

  lemma ChainCons(c: Copy, cs: seq<Copy>, chain: set<Commit>, top: Commit)
    requires OnChain(top, cs, chain, top) && (c.head.Some? ==> c.head.value in chain)
    ensures OnChain(top, [c] + cs, chain, top)
  {
    assert forall k :: 1 <= k < |[c] + cs| ==> ([c] + cs)[k] == cs[k - 1];
  }

  /** The pass from the replica that has the branch on, and before it. */
  lemma PassCons(p: Refs, reps: seq<Replica>, ask: Ancestry, ref: Ref)
    requires reps != []
    ensures
      var (p1, rep, fixed) := SyncOne(p, reps[0], ask);
      var (p2, rest, again) := Pass(p1, reps[1..], ask);
      var (p', reps', more) := Pass(p, reps, ask);
      p' == p2 && more == (fixed || again) && CopiesOf(reps', ref) == [CopyOf(rep, ref)] + CopiesOf(rest, ref)
    ensures CopiesOf(reps, ref)[0] == CopyOf(reps[0], ref) && CopiesOf(reps, ref)[1..] == CopiesOf(reps[1..], ref)
  {
    var (p1, rep, fixed) := SyncOne(p, reps[0], ask);
    var (p2, rest, again) := Pass(p1, reps[1..], ask);
    assert ([rep] + rest)[1..] == rest;
  }

  lemma TurnNew(p: Refs, rep: Replica, ask: Ancestry, ref: Ref)
    requires ref !in p && CopyOf(rep, ref).base.None?
    ensures
      var (p', rep', fixed) := SyncOne(p, rep, ask);
      && Lookup(p', ref) == CopyOf(rep, ref).head == CopyOf(rep', ref).head && (ref in p' ==> fixed)
  {
    SyncOneAbsent(p, rep, ask, ref);
  }

  lemma {:induction false} PassNew(p: Refs, reps: seq<Replica>, ask: Ancestry, ref: Ref, chain: set<Commit>, top: Commit, i: nat)
    requires Exact(ask) && !IsTag(ref) && ref !in p && NewOnChain(CopiesOf(reps, ref), chain, top)
    requires i < |reps| && Lookup(reps[i].refs, ref) == Some(top)
    ensures
      var (p', reps', again) := Pass(p, reps, ask);
      again && Lookup(p', ref) == Some(top) && OnChain(top, CopiesOf(reps', ref), chain, top)
    decreases |reps|
  {
    CopiesAt(reps, ref);
    NewTail(CopiesOf(reps, ref), chain, top);
    PassCons(p, reps, ask, ref);
    TurnNew(p, reps[0], ask, ref);
    var p1, rep := SyncOne(p, reps[0], ask).0, SyncOne(p, reps[0], ask).1;
    if ref in p1 {
      FirstOfNew(p1, reps, ask, ref, chain, top, i);
    } else {
      assert reps[1..][i - 1] == reps[i];
      PassNew(p1, reps[1..], ask, ref, chain, top, i - 1);
    }
    ChainCons(CopyOf(rep, ref), CopiesOf(Pass(p1, reps[1..], ask).1, ref), chain, top);
  }

  /** The rest of a pass once the primary has taken the branch over from reps[0]. */
  lemma FirstOfNew(p1: Refs, reps: seq<Replica>, ask: Ancestry, ref: Ref, chain: set<Commit>, top: Commit, i: nat)
    requires Exact(ask) && !IsTag(ref) && i < |reps| && Lookup(reps[i].refs, ref) == Some(top)
    requires Lookup(p1, ref) == Lookup(reps[0].refs, ref) && ref in p1 && p1[ref] in chain
    requires NewOnChain(CopiesOf(reps, ref), chain, top)
    ensures
      var (p', reps', _) := Pass(p1, reps[1..], ask);
      Lookup(p', ref) == Some(top) && OnChain(top, CopiesOf(reps', ref), chain, top)
  {
    var cs := CopiesOf(reps, ref);
    CopiesAt(reps, ref);
    NewTail(cs, chain, top);
    PassCons(p1, reps, ask, ref);
    if i > 0 {
      assert cs[1..][i - 1] == cs[i] == CopyOf(reps[i], ref);
      TopIsFree(p1[ref], cs[1..], top, i - 1);
    }
    NewThenChain(p1, reps[1..], ask, ref, chain, top);
  }

  lemma TopIsFree(p: Commit, cs: seq<Copy>, top: Commit, i: nat)
    requires i < |cs| && cs[i].head == Some(top) && cs[i].base.None?
    ensures !Stuck(p, cs, top)
  {
  }

  lemma NewThenChain(p: Refs, reps: seq<Replica>, ask: Ancestry, ref: Ref, chain: set<Commit>, top: Commit)
    requires Exact(ask) && !IsTag(ref) && ref in p && p[ref] in chain && NewOnChain(CopiesOf(reps, ref), chain, top)
    ensures
      var (p', reps', _) := Pass(p, reps, ask);
      && ref in p' && OnChain(p'[ref], CopiesOf(reps', ref), chain, top)
      && (!Stuck(p[ref], CopiesOf(reps, ref), top) ==> p'[ref] == top)
  {
    PassAt(p, reps, ask, ref);
    PassOnChain(p[ref], CopiesOf(reps, ref), chain, top);
  }

  /** A branch made on replicas only, whose heads form a chain, stands at the chain's top everywhere after runPasses. */
  lemma NewBranchesSpread(repo: Repo, ask: Ancestry, ref: Ref, chain: set<Commit>, top: Commit)
    requires Exact(ask) && !IsTag(ref) && ref !in repo.primary && NewOnChain(CopiesOf(repo.replicas, ref), chain, top)
    requires exists i :: 0 <= i < |repo.replicas| && Lookup(repo.replicas[i].refs, ref) == Some(top)
    ensures Together(AfterPasses(repo, ask), ref, top)
  {
    var (p1, reps1, again) := Pass(repo.primary, repo.replicas, ask);
    var i :| 0 <= i < |repo.replicas| && Lookup(repo.replicas[i].refs, ref) == Some(top);
    PassNew(repo.primary, repo.replicas, ask, ref, chain, top, i);
    PassAt(p1, reps1, ask, ref);
    PassOnChain(top, CopiesOf(reps1, ref), chain, top);
    TogetherIsAllAt(AfterPasses(repo, ask), ref, top);
  }

  // ----- the loops -----

  method PushAll(refs: Refs, actions: seq<Action>) returns (after: Refs)
    ensures after == Pushed(refs, actions, RefsOf(actions))
  {
    after := refs;
    for i := 0 to |actions|
      invariant after == Pushed(refs, actions[..i], RefsOf(actions))
    {
      assert actions[..i + 1][..i] == actions[..i];
      after := Put(after, actions[i].ref, actions[i].Target());
    }
    assert actions[..|actions|] == actions;
  }

  type Turn = (Refs, Replica) -> (Refs, Replica, bool)

  /** A loop that does the same to every replica, whatever that is. */
  ghost function Fold(turn: Turn, p: Refs, reps: seq<Replica>): (Refs, seq<Replica>, bool)
    decreases |reps|
  {
    if reps == [] then (p, [], false)
    else
      var first := turn(p, reps[0]);
      var rest := Fold(turn, first.0, reps[1..]);
      (rest.0, [first.1] + rest.1, first.2 || rest.2)
  }

  lemma {:induction false} FoldSnoc(turn: Turn, p: Refs, reps: seq<Replica>, last: Replica)
    ensures
      var r := Fold(turn, p, reps);
      var s := turn(r.0, last);
      Fold(turn, p, reps + [last]) == (s.0, r.1 + [s.1], r.2 || s.2)
    decreases |reps|
  {
    if reps == [] {
      var s := turn(p, last);
      assert reps + [last] == [last] && [last][1..] == [];
      assert Fold(turn, s.0, []) == (s.0, [], false);
      assert [s.1] + [] == [] + [s.1];
    } else {
      var first := turn(p, reps[0]);
      FoldSnoc(turn, first.0, reps[1..], last);
      assert (reps + [last])[1..] == reps[1..] + [last];
      var rest := Fold(turn, first.0, reps[1..]);
      assert [first.1] + (rest.1 + [turn(rest.0, last).1]) == ([first.1] + rest.1) + [turn(rest.0, last).1];
    }
  }

  lemma {:induction false} PassIsFold(turn: Turn, p: Refs, reps: seq<Replica>, ask: Ancestry)
    requires forall q, rep :: turn(q, rep) == SyncOne(q, rep, ask)
    ensures Pass(p, reps, ask) == Fold(turn, p, reps)
    decreases |reps|
  {
    if reps != [] {
      PassIsFold(turn, turn(p, reps[0]).0, reps[1..], ask);
    }
  }

  ghost predicate IsPass(p: Refs, reps: seq<Replica>, ask: Ancestry, p': Refs, reps': seq<Replica>, again: bool) {
    Pass(p, reps, ask) == (p', reps', again)
  }

  lemma FoldGrows(turn: Turn, p: Refs, reps: seq<Replica>, i: nat)
    requires i < |reps|
    ensures
      var r := Fold(turn, p, reps[..i]);
      var s := turn(r.0, reps[i]);
      Fold(turn, p, reps[..i + 1]) == (s.0, r.1 + [s.1], r.2 || s.2)
  {
    FoldSnoc(turn, p, reps[..i], reps[i]);
    assert reps[..i + 1] == reps[..i] + [reps[i]];
  }

  lemma PassGrows(p: Refs, reps: seq<Replica>, i: nat, ask: Ancestry, p1: Refs, done: seq<Replica>, again: bool,
                  p2: Refs, rep: Replica, fixed: bool)
    requires i < |reps| && IsPass(p, reps[..i], ask, p1, done, again) && SyncOne(p1, reps[i], ask) == (p2, rep, fixed)
    ensures IsPass(p, reps[..i + 1], ask, p2, done + [rep], again || fixed)
  {
    var turn := (q, r) => SyncOne(q, r, ask);
    PassIsFold(turn, p, reps[..i], ask);
    PassIsFold(turn, p, reps[..i + 1], ask);
    FoldGrows(turn, p, reps, i);
  }

  /** The engine's own loops over a repository left alone. */
  class Engine {
    const ask: Ancestry
    var primary: Refs
    var replicas: seq<Replica>

    constructor (repo: Repo, ask: Ancestry)
      ensures View() == repo && this.ask == ask
    {
      this.ask := ask;
      primary, replicas := repo.primary, repo.replicas;
    }

    function View(): Repo
      reads this
    {
      Repo(primary, replicas)
    }

    /** replicate and autoFix on one replica. */
    method SyncReplica(i: nat) returns (fixed: bool)
      requires i < |replicas|
      modifies this
      ensures |replicas| == |old(replicas)| && replicas == old(replicas)[i := replicas[i]]
      ensures (primary, replicas[i], fixed) == SyncOne(old(primary), old(replicas)[i], ask)
    {
      var rep := replicas[i];
      var actions, issues := Plan(primary, rep.refs, rep.base, ask);
      var refs := PushAll(rep.refs, actions);
      var accepted := RefsOf(actions);
      var base := NextBase(rep.base, primary, rep.refs, actions, accepted);
      var fixes := CollectFixes(issues);
      primary := PushAll(primary, fixes);
      fixed := fixes != [];
      replicas := replicas[i := Replica(refs, base)];
    }

    /** One turn of the loop below, on the replica after those in done. */
    method NextReplica(i: nat, again: bool, ghost p0: Refs, ghost was: seq<Replica>, ghost done: seq<Replica>) returns (more: bool)
      requires |done| == i < |was| && replicas == done + was[i..] && IsPass(p0, was[..i], ask, primary, done, again)
      modifies this
      ensures |replicas| == |was| && replicas == done + [replicas[i]] + was[i + 1..]
      ensures IsPass(p0, was[..i + 1], ask, primary, done + [replicas[i]], more)
    {
      ghost var before := primary;
      assert replicas[i] == was[i];
      var fixed := SyncReplica(i);
      PassGrows(p0, was, i, ask, before, done, again, primary, replicas[i], fixed);
      more := again || fixed;
    }

    /** The loop over the replicas is Pass, fold and flag. */
    method RunOnce() returns (again: bool)
      modifies this
      ensures (primary, replicas, again) == Pass(old(primary), old(replicas), ask)
    {
      again := false;
      ghost var was, done := replicas, [];
      for i := 0 to |replicas|
        invariant |was| == |replicas| && |done| == i && replicas == done + was[i..]
        invariant IsPass(old(primary), was[..i], ask, primary, done, again)
      {
        again := NextReplica(i, again, old(primary), was, done);
        done := done + [replicas[i]];
      }
      assert was[..|was|] == was && replicas == done;
    }

    /** Ends in AfterPasses: two passes, or one that moved nothing on the primary. */
    method RunPasses()
      modifies this
      ensures View() == AfterPasses(old(View()), ask)
    {
      var again := RunOnce();
      if again {
        again := RunOnce();
      }
    }
  }
}
