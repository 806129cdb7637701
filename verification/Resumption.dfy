/** Planning again after a push that went only part of the way. */
module Resumption {
  import opened Optional
  import opened Text
  import opened Commits
  import opened RefPlan
  import opened Replicate

  function Unlanded(actions: seq<Action>, landed: set<Ref>): seq<Action> {
    if actions == [] then []
    else
      var last := actions[|actions| - 1];
      Unlanded(actions[..|actions| - 1], landed) + if last.ref in landed then [] else [last]
  }

  lemma {:induction false} UnlandedAre(actions: seq<Action>, landed: set<Ref>, a: Action)
    ensures a in Unlanded(actions, landed) <==> a in actions && a.ref !in landed
  {
    if actions != [] {
      var front := actions[..|actions| - 1];
      UnlandedAre(front, landed, a);
      assert actions == front + [actions[|actions| - 1]];
    }
  }

  lemma {:induction false} UnlandedInOrder(actions: seq<Action>, landed: set<Ref>)
    requires InOrder(actions, ActionRef)
    ensures InOrder(Unlanded(actions, landed), ActionRef)
  {
    if actions != [] {
      var front, last := actions[..|actions| - 1], actions[|actions| - 1];
      FrontInOrder(actions);
      UnlandedInOrder(front, landed);
      var left := Unlanded(front, landed);
      forall i | 0 <= i < |left| ensures AtMost(left[i].ref, last.ref) && left[i].ref != last.ref {
        UnlandedAre(front, landed, left[i]);
        var j :| 0 <= j < |front| && front[j] == left[i];
        assert KeysOf(actions, ActionRef)[j] == left[i].ref;
      }
    }
  }

  /** A plan applied to any refs gives each ref it acts on the primary's value, and leaves the rest. */
  lemma PlanApplied(refs: Refs, p: Refs, r: Refs, b: Refs, ask: Ancestry, landed: set<Ref>, ref: Ref)
    ensures Lookup(Pushed(refs, Planned(p, r, b, ask), landed), ref) ==
      if On(ref, p, r, b, ask).Do? && ref in landed then Lookup(p, ref) else Lookup(refs, ref)
  {
    var actions, v := Planned(p, r, b, ask), On(ref, p, r, b, ask);
    PlanInOrder(Union(p, r, b), p, r, b, ask);
    if v.Do? {
      assert v.action in actions by { PlanIs(p, r, b, ask); }
      PushedAt(refs, actions, landed, v.action);
    } else {
      assert forall a :: a in actions ==> a.ref != ref by { PlanIs(p, r, b, ask); }
      PushedElsewhere(refs, actions, landed, ref);
    }
  }

  /** What a push of the plan, and the base recorded for it, leave of one ref. */
  lemma AfterPush(p: Refs, r: Refs, b: Refs, ask: Ancestry, landed: set<Ref>, ok: set<Ref>, ref: Ref)
    ensures
      var actions := Planned(p, r, b, ask);
      var acted := On(ref, p, r, b, ask).Do?;
      && Lookup(Pushed(r, actions, landed), ref) == (if acted && ref in landed then Lookup(p, ref) else Lookup(r, ref))
      && Lookup(Rebased(b, p, r, actions, ok), ref) == (if acted && ref in ok then Lookup(p, ref) else SettledAt(b, p, r, ref))
  {
    PlanApplied(r, p, r, b, ask, landed, ref);
    PlanApplied(Settled(b, p, r), p, r, b, ask, ok, ref);
    assert Lookup(Settled(b, p, r), ref) == SettledAt(b, p, r, ref);
  }

  /** One ref's verdict, before and after: the replica as the push left it, and the base as it was recorded. */
  lemma VerdictAfter(p: Refs, r: Refs, b: Refs, ask: Ancestry, landed: set<Ref>, ok: set<Ref>, ref: Ref)
    requires ok <= landed
    ensures
      var actions := Planned(p, r, b, ask);
      var r', b' := Pushed(r, actions, landed), Rebased(b, p, r, actions, ok);
      On(ref, p, r', b', ask) == if On(ref, p, r, b, ask).Do? && ref in landed then Leave else On(ref, p, r, b, ask)
  {
    AfterPush(p, r, b, ask, landed, ok, ref);
  }

  /**
   * Planning again is resuming. After a push of which any part landed, and of which any part of
   * that was reported, the next plan is exactly what did not land, in the same order, and flags
   * exactly what was flagged.
   */
  lemma ReplanResumes(p: Refs, r: Refs, b: Refs, ask: Ancestry, landed: set<Ref>, ok: set<Ref>)
    requires ok <= landed
    ensures
      var actions := Planned(p, r, b, ask);
      var r', b' := Pushed(r, actions, landed), Rebased(b, p, r, actions, ok);
      Planned(p, r', b', ask) == Unlanded(actions, landed) && Flagged(p, r', b', ask) == Flagged(p, r, b, ask)
  {
    var actions := Planned(p, r, b, ask);
    var r', b' := Pushed(r, actions, landed), Rebased(b, p, r, actions, ok);
    PlanInOrder(Union(p, r, b), p, r, b, ask);
    PlanInOrder(Union(p, r', b'), p, r', b', ask);
    UnlandedInOrder(actions, landed);
    PlanIs(p, r, b, ask);
    PlanIs(p, r', b', ask);
    forall a ensures a in Planned(p, r', b', ask) <==> a in Unlanded(actions, landed) {
      VerdictAfter(p, r, b, ask, landed, ok, a.ref);
      UnlandedAre(actions, landed, a);
    }
    forall x ensures x in Flagged(p, r', b', ask) <==> x in Flagged(p, r, b, ask) {
      VerdictAfter(p, r, b, ask, landed, ok, x.ref);
    }
    SameInOrder(Planned(p, r', b', ask), Unlanded(actions, landed), ActionRef);
    SameInOrder(Flagged(p, r', b', ask), Flagged(p, r, b, ask), IssueRef);
  }

  /** Everything planned landed, and nothing needed a person. */
  ghost predicate Complete(p: Refs, r: Refs, b: Refs, ask: Ancestry, landed: set<Ref>) {
    RefsOf(Planned(p, r, b, ask)) <= landed && Flagged(p, r, b, ask) == []
  }

  lemma VerdictIsListed(p: Refs, r: Refs, b: Refs, ask: Ancestry, ref: Ref)
    ensures
      var v := On(ref, p, r, b, ask);
      (v.Ask? ==> v.issue in Flagged(p, r, b, ask)) && (v.Do? ==> ref in RefsOf(Planned(p, r, b, ask)))
  {
    PlanIs(p, r, b, ask);
    var v := On(ref, p, r, b, ask);
    if v.Do? { assert v.action in Planned(p, r, b, ask); }
  }

  /** A verdict under which the ref ends as the primary's. */
  predicate Settles(v: Verdict, landed: set<Ref>, ref: Ref) {
    v.Leave? || (v.Do? && ref in landed)
  }

  lemma CompleteVerdicts(p: Refs, r: Refs, b: Refs, ask: Ancestry, landed: set<Ref>)
    ensures Complete(p, r, b, ask, landed) <==> forall ref :: Settles(On(ref, p, r, b, ask), landed, ref)
  {
    var actions, flagged := Planned(p, r, b, ask), Flagged(p, r, b, ask);
    PlanIs(p, r, b, ask);
    if Complete(p, r, b, ask, landed) {
      forall ref ensures Settles(On(ref, p, r, b, ask), landed, ref) {
        VerdictIsListed(p, r, b, ask, ref);
      }
    } else if flagged != [] {
      assert flagged[0] in flagged;
      assert !Settles(On(flagged[0].ref, p, r, b, ask), landed, flagged[0].ref);
    } else {
      var i :| 0 <= i < |actions| && actions[i].ref !in landed;
      assert actions[i] in actions;
      assert !Settles(On(actions[i].ref, p, r, b, ask), landed, actions[i].ref);
    }
  }

  lemma SettlesIs(p: Refs, r: Refs, b: Refs, ask: Ancestry, landed: set<Ref>, ref: Ref)
    ensures Lookup(Pushed(r, Planned(p, r, b, ask), landed), ref) == Lookup(p, ref) <==> Settles(On(ref, p, r, b, ask), landed, ref)
  {
    AfterPush(p, r, b, ask, landed, {}, ref);
  }

  /** The replica ends up as the primary exactly when everything planned landed and nothing needed a person. */
  lemma ConvergesExactlyWhen(p: Refs, r: Refs, b: Refs, ask: Ancestry, landed: set<Ref>)
    ensures Pushed(r, Planned(p, r, b, ask), landed) == p <==> Complete(p, r, b, ask, landed)
  {
    var r' := Pushed(r, Planned(p, r, b, ask), landed);
    CompleteVerdicts(p, r, b, ask, landed);
    if Complete(p, r, b, ask, landed) {
      forall ref ensures Lookup(r', ref) == Lookup(p, ref) {
        SettlesIs(p, r, b, ask, landed, ref);
      }
      SameLookups(r', p);
    } else {
      var ref :| !Settles(On(ref, p, r, b, ask), landed, ref);
      SettlesIs(p, r, b, ask, landed, ref);
    }
  }

  lemma SettlesBase(p: Refs, r: Refs, b: Refs, ask: Ancestry, ok: set<Ref>, ref: Ref)
    requires Settles(On(ref, p, r, b, ask), ok, ref)
    ensures Lookup(Rebased(b, p, r, Planned(p, r, b, ask), ok), ref) == Lookup(p, ref)
  {
    AfterPush(p, r, b, ask, ok, ok, ref);
  }

  /** And then, with every push reported, the base recorded is the primary's refs too. */
  lemma BaseConverges(p: Refs, r: Refs, b: Refs, ask: Ancestry, ok: set<Ref>)
    requires Complete(p, r, b, ask, ok)
    ensures Rebased(b, p, r, Planned(p, r, b, ask), ok) == p
  {
    var b' := Rebased(b, p, r, Planned(p, r, b, ask), ok);
    CompleteVerdicts(p, r, b, ask, ok);
    forall ref ensures Lookup(b', ref) == Lookup(p, ref) {
      SettlesBase(p, r, b, ask, ok, ref);
    }
    SameLookups(b', p);
  }
}
