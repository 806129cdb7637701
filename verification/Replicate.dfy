/** Carrying a plan out on one replica: the push, the new base, and the fixes made on the primary. */
module Replicate {
  import opened Optional
  import opened Text
  import opened Commits
  import opened RefPlan

  type Node = Text.Node

  const HANDOFF_PREFIX := "refs/heads/forgesync/conflict/"

  predicate IsHandoff(ref: Ref) {
    HANDOFF_PREFIX <= ref
  }

  function Ordinary(all: Refs): Refs {
    map ref | ref in all && !IsHandoff(ref) :: all[ref]
  }

  function HandoffsOf(all: Refs): Refs {
    map ref | ref in all && IsHandoff(ref) :: all[ref]
  }

  /** Splits the refs in two by ForgeSync's prefix; put together again they are all there were. */
  method SplitHandoffRefs(all: Refs) returns (refs: Refs, handoff: Refs)
    ensures refs == Ordinary(all) && handoff == HandoffsOf(all)
    ensures refs.Keys !! handoff.Keys && refs + handoff == all
  {
    refs, handoff := map[], map[];
    var left := all.Keys;
    while left != {}
      invariant left <= all.Keys
      invariant refs == map ref | ref in all && ref !in left && !IsHandoff(ref) :: all[ref]
      invariant handoff == map ref | ref in all && ref !in left && IsHandoff(ref) :: all[ref]
    {
      var ref :| ref in left;
      if IsHandoff(ref) {
        handoff := handoff[ref := all[ref]];
      } else {
        refs := refs[ref := all[ref]];
      }
      left := left - {ref};
    }
  }

  // ----- push -----

  function RefsOf(actions: seq<Action>): (refs: set<Ref>) {
    set i | 0 <= i < |actions| :: actions[i].ref
  }

  /** Refs after the actions on some of them took effect. */
  function Pushed(refs: Refs, actions: seq<Action>, landed: set<Ref>): Refs {
    if actions == [] then refs
    else
      var a := actions[|actions| - 1];
      var before := Pushed(refs, actions[..|actions| - 1], landed);
      if a.ref in landed then Put(before, a.ref, a.Target()) else before
  }

  /** What a push does to one ref, when no ref has two actions. */
  lemma {:induction false} PushedAt(refs: Refs, actions: seq<Action>, landed: set<Ref>, a: Action)
    requires InOrder(actions, ActionRef) && a in actions
    ensures Lookup(Pushed(refs, actions, landed), a.ref) == if a.ref in landed then a.Target() else Lookup(refs, a.ref)
  {
    var front, last := actions[..|actions| - 1], actions[|actions| - 1];
    FrontInOrder(actions);
    if a == last {
      assert forall x :: x in front ==> x.ref != a.ref by { LastIsNew(actions); }
      PushedElsewhere(refs, front, landed, a.ref);
    } else {
      assert a in front;
      LastIsNew(actions);
      PushedAt(refs, front, landed, a);
    }
  }

  lemma {:induction false} PushedElsewhere(refs: Refs, actions: seq<Action>, landed: set<Ref>, ref: Ref)
    requires ref !in landed || forall a :: a in actions ==> a.ref != ref
    ensures Lookup(Pushed(refs, actions, landed), ref) == Lookup(refs, ref)
  {
    if actions != [] {
      PushedElsewhere(refs, actions[..|actions| - 1], landed, ref);
    }
  }

  lemma {:induction false} PushedSame(refs: Refs, actions: seq<Action>, landed: set<Ref>, more: set<Ref>)
    requires forall a :: a in actions ==> (a.ref in landed <==> a.ref in more)
    ensures Pushed(refs, actions, landed) == Pushed(refs, actions, more)
  {
    if actions != [] {
      PushedSame(refs, actions[..|actions| - 1], landed, more);
    }
  }

  lemma FrontInOrder(actions: seq<Action>)
    requires actions != [] && InOrder(actions, ActionRef)
    ensures InOrder(actions[..|actions| - 1], ActionRef)
  {
    var keys, front := KeysOf(actions, ActionRef), KeysOf(actions[..|actions| - 1], ActionRef);
    assert forall i :: 0 <= i < |front| ==> front[i] == keys[i];
  }

  lemma LastIsNew(actions: seq<Action>)
    requires actions != [] && InOrder(actions, ActionRef)
    ensures forall x :: x in actions[..|actions| - 1] ==> x.ref != actions[|actions| - 1].ref
  {
    var keys := KeysOf(actions, ActionRef);
    forall x | x in actions[..|actions| - 1] ensures x.ref != actions[|actions| - 1].ref {
      var i :| 0 <= i < |actions| - 1 && actions[i] == x;
      assert keys[i] != keys[|actions| - 1];
    }
  }

  /** A compare-and-swap: it lands only on the expected value, and is accepted only if it landed or was there already. */
  predicate Lawful(refs: Refs, a: Action, landed: bool, ok: bool) {
    && (landed ==> Lookup(refs, a.ref) == a.Expected())
    && (ok ==> landed || Lookup(refs, a.ref) == a.Target())
  }

  /** A repository on a node. */
  class Remote {
    var refs: Refs
    ghost var asked: seq<Action>   // every update this node was sent, in order
    ghost var denied: set<Action>  // those it refused, or whose answer was lost

    constructor (refs: Refs)
      ensures this.refs == refs && asked == [] && denied == {}
    {
      this.refs, asked, denied := refs, [], {};
    }

    /**
     * One ref update under --force-with-lease. The node may refuse it, and an answer may be lost
     * although the update landed; "up to date" counts as accepted.
     */
    method PushOne(a: Action) returns (ok: bool, ghost landed: bool)
      modifies this
      ensures refs == if landed then Put(old(refs), a.ref, a.Target()) else old(refs)
      ensures landed ==> old(Lookup(refs, a.ref)) == a.Expected()
      ensures ok ==> landed || old(Lookup(refs, a.ref)) == a.Target()
      ensures asked == old(asked) + [a] && old(denied) <= denied <= old(denied) + {a}
      ensures !ok ==> a in denied || old(Lookup(refs, a.ref)) != a.Expected()
    {
      ok, landed := false, false;
      asked := asked + [a];
      if !a.Delete? && a.ref in refs && refs[a.ref] == a.target {
        ok := true;
      } else if Lookup(refs, a.ref) == a.Expected() {
        if * {
          refs := Put(refs, a.ref, a.Target());
          landed := true;
          if * {
            ok := true;
          }
        }
        if !ok { denied := denied + {a}; }
      }
    }

    /** A push of several refs: any part of it may land, and any part of what landed may be reported. */
    method Push(actions: seq<Action>) returns (ok: set<Ref>, ghost landed: set<Ref>)
      requires InOrder(actions, ActionRef)
      modifies this
      ensures refs == Pushed(old(refs), actions, landed)
      ensures ok <= RefsOf(actions) && landed <= RefsOf(actions)
      ensures forall a :: a in actions && a.ref in landed ==> old(Lookup(refs, a.ref)) == a.Expected()
      ensures forall a :: a in actions && a.ref in ok ==> a.ref in landed || old(Lookup(refs, a.ref)) == a.Target()
      ensures asked == old(asked) + actions && old(denied) <= denied
      ensures forall a :: a in actions && a.ref !in ok ==> a in denied || old(Lookup(refs, a.ref)) != a.Expected()
    {
      ok, landed := {}, {};
      ghost var start := refs;
      for i := 0 to |actions|
        invariant PushedSoFar(start, refs, actions[..i], ok, landed)
        invariant asked == old(asked) + actions[..i] && old(denied) <= denied
        invariant forall a :: a in actions[..i] && a.ref !in ok ==> a in denied || Lookup(start, a.ref) != a.Expected()
      {
        assert actions[..i + 1] == actions[..i] + [actions[i]];
        NotYetPushed(actions, i);
        PushedElsewhere(start, actions[..i], landed, actions[i].ref);
        ghost var before := refs;
        var fine, hit := PushOne(actions[i]);
        PushedOneMore(start, before, refs, actions, i, ok, landed, fine, hit);
        if fine { ok := ok + {actions[i].ref}; }
        if hit { landed := landed + {actions[i].ref}; }
      }
      assert actions[..|actions|] == actions;
    }
  }

  /** Where a push stands after some of its actions. */
  ghost predicate PushedSoFar(start: Refs, now: Refs, done: seq<Action>, ok: set<Ref>, landed: set<Ref>) {
    && now == Pushed(start, done, landed)
    && ok <= RefsOf(done) && landed <= RefsOf(done)
    && (forall a :: a in done && a.ref in landed ==> Lookup(start, a.ref) == a.Expected())
    && (forall a :: a in done && a.ref in ok ==> a.ref in landed || Lookup(start, a.ref) == a.Target())
  }

  lemma PushedOneMore(start: Refs, before: Refs, now: Refs, actions: seq<Action>, i: nat, ok: set<Ref>,
                      landed: set<Ref>, fine: bool, hit: bool)
    requires i < |actions| && InOrder(actions, ActionRef) && PushedSoFar(start, before, actions[..i], ok, landed)
    requires now == if hit then Put(before, actions[i].ref, actions[i].Target()) else before
    requires hit ==> Lookup(before, actions[i].ref) == actions[i].Expected()
    requires fine ==> hit || Lookup(before, actions[i].ref) == actions[i].Target()
    ensures PushedSoFar(start, now, actions[..i + 1], if fine then ok + {actions[i].ref} else ok, if hit then landed + {actions[i].ref} else landed)
  {
    NotYetPushed(actions, i);
    PushedElsewhere(start, actions[..i], landed, actions[i].ref);
    PushedSnoc(start, actions[..i], actions[i], landed, hit);
    assert actions[..i + 1] == actions[..i] + [actions[i]];
    MoreAccepted(start, actions[..i], actions[i], ok, landed, fine, hit);
  }

  lemma NotYetPushed(actions: seq<Action>, i: nat)
    requires i < |actions| && InOrder(actions, ActionRef)
    ensures forall a :: a in actions[..i] ==> a.ref != actions[i].ref
  {
    var keys := KeysOf(actions, ActionRef);
    forall a | a in actions[..i] ensures a.ref != actions[i].ref {
      var j :| 0 <= j < i && actions[j] == a;
      assert keys[j] != keys[i];
    }
  }

  lemma PushedSnoc(start: Refs, done: seq<Action>, a: Action, landed: set<Ref>, hit: bool)
    requires (forall x :: x in done ==> x.ref != a.ref) && a.ref !in landed
    ensures Pushed(start, done + [a], if hit then landed + {a.ref} else landed) ==
      if hit then Put(Pushed(start, done, landed), a.ref, a.Target()) else Pushed(start, done, landed)
  {
    PushedSame(start, done, landed, if hit then landed + {a.ref} else landed);
    assert (done + [a])[..|done|] == done;
  }

  lemma MoreAccepted(start: Refs, done: seq<Action>, a: Action, ok: set<Ref>, landed: set<Ref>, fine: bool, hit: bool)
    requires ok <= RefsOf(done) && landed <= RefsOf(done) && forall x :: x in done ==> x.ref != a.ref
    requires forall x :: x in done && x.ref in landed ==> Lookup(start, x.ref) == x.Expected()
    requires forall x :: x in done && x.ref in ok ==> x.ref in landed || Lookup(start, x.ref) == x.Target()
    requires (hit ==> Lookup(start, a.ref) == a.Expected()) && (fine ==> hit || Lookup(start, a.ref) == a.Target())
    ensures
      var ok', landed' := if fine then ok + {a.ref} else ok, if hit then landed + {a.ref} else landed;
      && ok' <= RefsOf(done + [a]) && landed' <= RefsOf(done + [a])
      && (forall x :: x in done + [a] && x.ref in landed' ==> Lookup(start, x.ref) == x.Expected())
      && (forall x :: x in done + [a] && x.ref in ok' ==> x.ref in landed' || Lookup(start, x.ref) == x.Target())
  {
    assert a in done + [a] && a.ref !in landed && a.ref !in ok;
    forall r | r in RefsOf(done) ensures r in RefsOf(done + [a]) {
      var x :| x in done && x.ref == r;
      assert x in done + [a];
    }
  }

  // ----- the new base -----

  /** The old base with the refs in sync brought up to date and the ones gone everywhere dropped. */
  function Settled(base: Refs, pRefs: Refs, rRefs: Refs): Refs {
    map ref | ref in base.Keys + pRefs.Keys && SettledAt(base, pRefs, rRefs, ref).Some? :: SettledAt(base, pRefs, rRefs, ref).value
  }

  function SettledAt(base: Refs, pRefs: Refs, rRefs: Refs, ref: Ref): Option<Commit> {
    if ref in pRefs && Lookup(rRefs, ref) == Some(pRefs[ref]) then Some(pRefs[ref])
    else if ref !in pRefs && ref !in rRefs then None
    else Lookup(base, ref)
  }

  /** The base that follows from a round in which ok was accepted; refs neither in sync nor in ok keep what they had. */
  function Rebased(base: Refs, pRefs: Refs, rRefs: Refs, actions: seq<Action>, ok: set<Ref>): Refs {
    Pushed(Settled(base, pRefs, rRefs), actions, ok)
  }

  method NextBase(base: Refs, pRefs: Refs, rRefs: Refs, actions: seq<Action>, ok: set<Ref>) returns (next: Refs)
    ensures next == Rebased(base, pRefs, rRefs, actions, ok)
  {
    next := base;
    var left := pRefs.Keys;
    while left != {}
      invariant left <= pRefs.Keys
      invariant forall ref ::
        Lookup(next, ref) == (if ref in pRefs && ref !in left && Lookup(rRefs, ref) == Some(pRefs[ref]) then Some(pRefs[ref]) else Lookup(base, ref))
    {
      var ref :| ref in left;
      if ref in rRefs && rRefs[ref] == pRefs[ref] {
        next := next[ref := pRefs[ref]];
      }
      left := left - {ref};
    }
    ghost var synced := next;
    left := next.Keys;
    while left != {}
      invariant left <= next.Keys
      invariant forall ref ::
        Lookup(next, ref) == (if ref !in left && ref !in pRefs && ref !in rRefs then None else Lookup(synced, ref))
    {
      var ref :| ref in left;
      if ref !in pRefs && ref !in rRefs {
        next := next - {ref};
      }
      left := left - {ref};
    }
    SameLookups(next, Settled(base, pRefs, rRefs));
    for i := 0 to |actions|
      invariant next == Pushed(Settled(base, pRefs, rRefs), actions[..i], ok)
    {
      var a := actions[i];
      assert actions[..i + 1][..i] == actions[..i];
      if a.ref !in ok {
      } else if a.Delete? {
        next := next - {a.ref};
      } else {
        next := next[a.ref := a.target];
      }
    }
    assert actions[..|actions|] == actions;
  }

  lemma SameLookups<K(!new), V>(a: map<K, V>, b: map<K, V>)
    requires forall k :: Lookup(a, k) == Lookup(b, k)
    ensures a == b
  {
    forall k ensures k in a <==> k in b {
      assert Lookup(a, k) == Lookup(b, k);
    }
    forall k | k in a ensures a[k] == b[k] {
      assert Lookup(a, k) == Lookup(b, k);
    }
  }

  // ----- fixes on the primary -----

  /** The fix that loses nothing, if an issue has one: take the replica's commits, or its ref, over. */
  function FixOf(x: Issue): Option<Action> {
    if x.kind == ReplicaAhead && x.primary.Some? then Some(FastForward(x.ref, x.primary.value, x.replica))
    else if x.kind == ReplicaExtra then Some(Create(x.ref, x.replica))
    else None
  }

  function Fixes(issues: seq<Issue>): seq<Action> {
    if issues == [] then []
    else
      var fix := FixOf(issues[|issues| - 1]);
      Fixes(issues[..|issues| - 1]) + if fix.Some? then [fix.value] else []
  }

  lemma {:induction false} FixesAre(issues: seq<Issue>, a: Action)
    ensures a in Fixes(issues) <==> exists x :: x in issues && FixOf(x) == Some(a)
  {
    if issues != [] {
      var front, last := issues[..|issues| - 1], issues[|issues| - 1];
      FixesAre(front, a);
      assert issues == front + [last];
    }
  }

  lemma {:induction false} FixesInOrder(issues: seq<Issue>)
    requires InOrder(issues, IssueRef)
    ensures InOrder(Fixes(issues), ActionRef)
  {
    if issues != [] {
      var front, last := issues[..|issues| - 1], issues[|issues| - 1];
      IssueFront(issues);
      FixesInOrder(front);
      forall a | a in Fixes(front) ensures AtMost(ActionRef(a), last.ref) && ActionRef(a) != last.ref {
        FixesAre(front, a);
        var x :| x in front && FixOf(x) == Some(a);
      }
      if FixOf(last).Some? { AppendInOrder(Fixes(front), FixOf(last).value, ActionRef); }
    }
  }

  lemma IssueFront(issues: seq<Issue>)
    requires issues != [] && InOrder(issues, IssueRef)
    ensures InOrder(issues[..|issues| - 1], IssueRef)
    ensures forall x :: x in issues[..|issues| - 1] ==> AtMost(x.ref, issues[|issues| - 1].ref) && x.ref != issues[|issues| - 1].ref
  {
    var front := issues[..|issues| - 1];
    var keys, ks := KeysOf(issues, IssueRef), KeysOf(front, IssueRef);
    assert forall i :: 0 <= i < |ks| ==> ks[i] == keys[i];
    forall x | x in front ensures AtMost(x.ref, keys[|front|]) && x.ref != keys[|front|] {
      var j :| 0 <= j < |front| && front[j] == x;
      assert keys[j] == x.ref;
    }
  }

  function Without(issues: seq<Issue>, fixed: set<Ref>): seq<Issue> {
    if issues == [] then []
    else
      var last := issues[|issues| - 1];
      Without(issues[..|issues| - 1], fixed) + if last.ref in fixed then [] else [last]
  }

  method CollectFixes(issues: seq<Issue>) returns (actions: seq<Action>)
    ensures actions == Fixes(issues)
  {
    actions := [];
    for i := 0 to |issues|
      invariant actions == Fixes(issues[..i])
    {
      var x := issues[i];
      assert issues[..i + 1][..i] == issues[..i];
      match x.kind {
        case ReplicaAhead => if x.primary.Some? { actions := actions + [FastForward(x.ref, x.primary.value, x.replica)]; }
        case ReplicaExtra => actions := actions + [Create(x.ref, x.replica)];
        case _ =>
      }
    }
    assert issues[..|issues|] == issues;
  }

  method IssuesLeft(issues: seq<Issue>, fixed: set<Ref>) returns (left: seq<Issue>)
    ensures left == Without(issues, fixed)
  {
    left := [];
    for i := 0 to |issues|
      invariant left == Without(issues[..i], fixed)
    {
      assert issues[..i + 1][..i] == issues[..i];
      if issues[i].ref !in fixed {
        left := left + [issues[i]];
      }
    }
    assert issues[..|issues|] == issues;
  }

  /** Moves the primary by the issues' fixes; afterwards the run's view differs only where a fix was accepted, and those issues are off the list. */
  method AutoFix(primary: Remote, pRefs: Refs, issues: seq<Issue>) returns (view: Refs, left: seq<Issue>,
                 fixed: set<Ref>, ghost landed: set<Ref>)
    requires InOrder(issues, IssueRef)
    modifies primary
    ensures primary.refs == Pushed(old(primary.refs), Fixes(issues), landed)
    ensures forall a :: a in Fixes(issues) && a.ref in landed ==> old(Lookup(primary.refs, a.ref)) == a.Expected()
    ensures forall a :: a in Fixes(issues) && a.ref in fixed ==> a.ref in landed || old(Lookup(primary.refs, a.ref)) == a.Target()
    ensures view == Pushed(pRefs, Fixes(issues), fixed) && fixed <= RefsOf(Fixes(issues))
    ensures left == Without(issues, fixed)
    ensures primary.asked == old(primary.asked) + Fixes(issues)
    ensures forall a :: a in Fixes(issues) && a.ref !in fixed ==>
      a in primary.denied || old(Lookup(primary.refs, a.ref)) != a.Expected()
    ensures forall x :: x in issues && x.kind == ReplicaExtra ==> Create(x.ref, x.replica) in Fixes(issues)
    ensures forall x :: x in issues && x.kind == ReplicaAhead && x.primary.Some? ==>
      FastForward(x.ref, x.primary.value, x.replica) in Fixes(issues)
  {
    var actions := CollectFixes(issues);
    FixesInOrder(issues);
    FixesTaken(issues);
    fixed, landed := primary.Push(actions);
    view := ViewAfter(pRefs, actions, fixed);
    left := IssuesLeft(issues, fixed);
  }

  method ViewAfter(pRefs: Refs, actions: seq<Action>, fixed: set<Ref>) returns (view: Refs)
    ensures view == Pushed(pRefs, actions, fixed)
  {
    view := pRefs;
    for i := 0 to |actions|
      invariant view == Pushed(pRefs, actions[..i], fixed)
    {
      assert actions[..i + 1][..i] == actions[..i];
      if actions[i].ref in fixed {
        view := Put(view, actions[i].ref, actions[i].Target());
      }
    }
    assert actions[..|actions|] == actions;
  }

  /** Both kinds of issue that lose nothing have their fix. */
  lemma FixesTaken(issues: seq<Issue>)
    ensures forall x :: x in issues && x.kind == ReplicaExtra ==> Create(x.ref, x.replica) in Fixes(issues)
    ensures forall x :: x in issues && x.kind == ReplicaAhead && x.primary.Some? ==>
      FastForward(x.ref, x.primary.value, x.replica) in Fixes(issues)
  {
    forall x | x in issues && FixOf(x).Some? ensures FixOf(x).value in Fixes(issues) { FixesAre(issues, FixOf(x).value); }
  }

  method SomeFailed(actions: seq<Action>, ok: set<Ref>) returns (failed: bool)
    ensures failed <==> exists a :: a in actions && a.ref !in ok
  {
    failed := false;
    for i := 0 to |actions|
      invariant failed <==> exists a :: a in actions[..i] && a.ref !in ok
    {
      if actions[i].ref !in ok {
        failed := true;
        assert actions[i] in actions[..i + 1];
      }
      assert actions[..i + 1] == actions[..i] + [actions[i]];
    }
    assert actions[..|actions|] == actions;
  }

  datatype State = Synced | Conflict | Failed

  /** A replica's turn from listing to base, with nobody else pushing meanwhile. */
  method BringUpToDate(pRefs: Refs, replica: Remote, base: Refs, ask: Ancestry)
    returns (state: State, next: Refs, issues: seq<Issue>, ok: set<Ref>, ghost landed: set<Ref>)
    modifies replica
    ensures
      var seen := Ordinary(old(replica.refs));
      var actions := Planned(pRefs, seen, base, ask);
      && replica.refs == Pushed(old(replica.refs), actions, landed)
      && next == Rebased(base, pRefs, seen, actions, ok)
      && issues == Flagged(pRefs, seen, base, ask)
      && ok <= RefsOf(actions)
      && (forall a :: a in actions && a.ref in landed ==> old(Lookup(replica.refs, a.ref)) == a.Expected())
      && replica.asked == old(replica.asked) + actions
      && (forall a :: a in actions && a.ref !in ok ==> a in replica.denied || old(Lookup(replica.refs, a.ref)) != a.Expected())
      && (state == Failed <==> exists a :: a in actions && a.ref !in ok)
      && (state == Synced <==> issues == [] && forall a :: a in actions ==> a.ref in ok)
  {
    var seen, _ := SplitHandoffRefs(replica.refs);
    var actions, flagged := Plan(pRefs, seen, base, ask);
    issues := flagged;
    PlanInOrder(Union(pRefs, seen, base), pRefs, seen, base, ask);
    ok, landed := replica.Push(actions);
    next := NextBase(base, pRefs, seen, actions, ok);
    var failed := SomeFailed(actions, ok);
    state := if failed then Failed else if issues != [] then Conflict else Synced;
  }
}
