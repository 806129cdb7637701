/**
 * Hand-offs when runs overlap. A controller keeps its runs on a repository apart, but a run that was
 * triggered goes on after its controller has handed the lease over, and the next leader starts its
 * own. Each act is a deed of one run, on the repository as it is and on what that run holds.
 */
module Overlaps {
  import opened Optional
  import opened Commits
  import opened RefPlan
  import opened Replicate
  import opened Handoffs

  /** No run is part of site; kept is history: each time a pass found a hand-off's last replica dealt with. */
  datatype World = World(site: Site, runs: map<nat, Memory>, kept: set<(nat, int)>)

  datatype Act = Act(run: nat, deed: Deed)

  /** The repository as one run works on it. */
  function Seen(w: World, r: nat): Site {
    w.site.(run := Lookup(w.runs, r))
  }

  ghost predicate Can(w: World, a: Act) {
    Enabled(Seen(w, a.run), a.deed)
  }

  ghost function After(w: World, a: Act): World
    requires Can(w, a)
  {
    var s := Apply(Seen(w, a.run), a.deed);
    World(
      s.(run := None),
      if s.run.Some? then w.runs[a.run := s.run.value] else w.runs - {a.run},
      if a.deed.Decided? && a.deed.left == {} then w.kept + {(a.deed.id, w.runs[a.run].started)} else w.kept)
  }

  // ----- what runs must leave each other -----

  ghost predicate Fine(w: Site, h: Handoff) {
    IsHandoff(h.branch) && !IsHandoff(h.ref) && (Active(h) ==> Kept(w, h))
  }

  /** Every hand-off that is active on file, or that some run holds, is kept: a run may yet save what it holds. */
  ghost predicate Safe(w: World) {
    && w.site.run == None
    && (forall id :: id in w.site.records ==> Fine(w.site, w.site.records[id]))
    && (forall r :: r in w.runs ==> w.runs[r].started <= w.site.clock)
    && forall r, id :: r in w.runs && id in w.runs[r].handoffs ==> Active(w.runs[r].handoffs[id]) && Fine(w.site, w.runs[r].handoffs[id])
  }

  /** The branch a deed takes off a node. */
  ghost predicate Takes(w: World, a: Act, n: Node, ref: Ref)
    requires Can(w, a)
  {
    var e := a.deed;
    && (((e.FoundMerged? || e.Expires?) && e.landed) || (e.Opens? && e.undone))
    && WriteOf(Seen(w, a.run), e) == Some(Write(n, ref, None))
  }

  predicate EndsOnFile(e: Deed, id: nat) {
    (e.FoundMerged? || e.Expires?) && e.saved && e.id == id
  }

  predicate EndsInRun(a: Act, r: nat, id: nat) {
    (a.deed.FoundMerged? || a.deed.Expires?) && a.run == r && a.deed.id == id
  }

  /** When a branch is taken off, nothing else that is active on file, or held by any run, still needs it. */
  ghost predicate Spares(w: World, a: Act)
    requires Can(w, a)
  {
    && (forall id :: id in w.site.records && Active(w.site.records[id]) && !EndsOnFile(a.deed, id) ==> Spared(w, a, w.site.records[id]))
    && forall r, id :: r in w.runs && id in w.runs[r].handoffs && !EndsInRun(a, r, id) ==> Spared(w, a, w.runs[r].handoffs[id])
  }

  ghost predicate Spared(w: World, a: Act, h: Handoff)
    requires Can(w, a)
  {
    Takes(w, a, h.primary, h.branch) ==> Done(After(w, a).site, h)
  }

  /** And a hand-off is moved along only on its own primary, or to commits that are safe there already. */
  ghost predicate Considerate(w: World, a: Act)
    requires Can(w, a)
  {
    && Spares(w, a)
    && (a.deed.Extends? && a.deed.ok ==>
          AtHome(Seen(w, a.run), a.deed.id) || Kept(w.site, w.runs[a.run].handoffs[a.deed.id].(sha := a.deed.head)))
  }

  // ----- one act -----

  lemma KeptUntouched(w: World, a: Act, h: Handoff)
    requires Can(w, a) && !Touches(Seen(w, a.run), a.deed, h.primary, h.branch) && Kept(w.site, h)
    ensures Kept(After(w, a).site, h)
  {
    KeptStays(Seen(w, a.run), a.deed, h);
  }

  lemma KeptDone(w: World, a: Act, h: Handoff)
    requires Can(w, a) && Done(w.site, h)
    ensures Done(After(w, a).site, h)
  {
    DoneStays(Seen(w, a.run), a.deed, h);
  }

  lemma KeptExtended(w: World, a: Act, h: Handoff)
    requires Can(w, a) && a.deed.Extends? && Touches(Seen(w, a.run), a.deed, h.primary, h.branch) && Kept(w.site, h)
    ensures Kept(After(w, a).site, h)
  {
    var own := w.runs[a.run].handoffs[a.deed.id];
    if BackedUp(w.site, h) { AncestorTransitive(h.sha, own.sha, a.deed.head); }
  }

  /** A hand-off that is kept, and spared, stays kept. */
  lemma SparedIsKept(w: World, a: Act, h: Handoff)
    requires Safe(w) && Can(w, a) && Fine(w.site, h) && Active(h) && Spared(w, a, h)
    ensures Kept(After(w, a).site, h)
  {
    var s, e := Seen(w, a.run), a.deed;
    if e.Resets? { ResetsTouchNoBranch(w, a, h); }
    if !Touches(s, e, h.primary, h.branch) {
      KeptUntouched(w, a, h);
    } else if e.Extends? {
      KeptExtended(w, a, h);
    } else if e.Seeds? || (e.Opens? && !e.undone) {
      assert Done(w.site, h);
      KeptDone(w, a, h);
    }
  }

  lemma ResetsTouchNoBranch(w: World, a: Act, h: Handoff)
    requires Can(w, a) && a.deed.Resets? && Fine(w.site, w.runs[a.run].handoffs[a.deed.id]) && IsHandoff(h.branch)
    ensures !Touches(Seen(w, a.run), a.deed, h.primary, h.branch)
  {
  }

  /** What a deed makes of a hand-off is kept, if an extension was considerate. */
  lemma ChangedIsFine(w: World, a: Act)
    requires Safe(w) && Can(w, a) && Considerate(w, a) && ChangeOf(Seen(w, a.run), a.deed).Some?
    ensures Fine(After(w, a).site, ChangeOf(Seen(w, a.run), a.deed).value.h)
  {
    var s, e := Seen(w, a.run), a.deed;
    var h := ChangeOf(s, e).value.h;
    ChangeIs(s, e);
    if e.Opens? {
      assert Ancestor(h.sha, h.sha);
      assert BackedUp(After(w, a).site, h);
    } else {
      var was := s.run.value.handoffs[e.id];
      assert Fine(w.site, was) && Active(was);
      if Active(h) {
        assert Spared(w, a, was);
        SparedIsKept(w, a, was);
        if e.Extends? { ExtendedIsKept(w, a); }
      }
    }
  }

  lemma ExtendedIsKept(w: World, a: Act)
    requires Can(w, a) && a.deed.Extends? && a.deed.ok && IsHandoff(w.runs[a.run].handoffs[a.deed.id].branch)
    ensures
      var own := w.runs[a.run].handoffs[a.deed.id]; var h := own.(sha := a.deed.head);
      Kept(After(w, a).site, h) <==> AtHome(Seen(w, a.run), a.deed.id) || Kept(w.site, h)
  {
    var own := w.runs[a.run].handoffs[a.deed.id];
    var h := own.(sha := a.deed.head);
    assert Ancestor(a.deed.head, a.deed.head);
    if own.primary != w.runs[a.run].primary {
      assert Lookup(Handoffs.On(After(w, a).site, h.primary), h.branch) == Lookup(Handoffs.On(w.site, h.primary), h.branch);
    }
  }

  lemma RecordsFine(w: World, a: Act, id: nat)
    requires Safe(w) && Can(w, a) && Considerate(w, a) && id in After(w, a).site.records
    ensures Fine(After(w, a).site, After(w, a).site.records[id])
  {
    var change := ChangeOf(Seen(w, a.run), a.deed);
    if change.Some? && change.value.saved && change.value.id == id {
      ChangedIsFine(w, a);
    } else {
      var h := w.site.records[id];
      assert After(w, a).site.records[id] == h && Fine(w.site, h);
      if Active(h) {
        assert !EndsOnFile(a.deed, id);
        SparedIsKept(w, a, h);
      }
    }
  }

  lemma HeldFine(w: World, a: Act, r: nat, id: nat)
    requires Safe(w) && Can(w, a) && Considerate(w, a) && r in After(w, a).runs && id in After(w, a).runs[r].handoffs
    ensures var h := After(w, a).runs[r].handoffs[id]; Active(h) && Fine(After(w, a).site, h)
  {
    var s, e := Seen(w, a.run), a.deed;
    var change := ChangeOf(s, e);
    if r == a.run && e.Starts? {
      RecordsFine(w, a, id);
    } else if r == a.run && change.Some? && change.value.id == id {
      ChangedIsFine(w, a);
    } else {
      var h := w.runs[r].handoffs[id];
      assert After(w, a).runs[r].handoffs[id] == h && Fine(w.site, h) && Active(h);
      assert !EndsInRun(a, r, id);
      SparedIsKept(w, a, h);
    }
  }

  lemma SafeStep(w: World, a: Act)
    requires Safe(w) && Can(w, a) && Considerate(w, a)
    ensures Safe(After(w, a))
  {
    var after := After(w, a);
    forall id | id in after.site.records ensures Fine(after.site, after.site.records[id]) {
      RecordsFine(w, a, id);
    }
    forall r, id | r in after.runs && id in after.runs[r].handoffs
      ensures Active(after.runs[r].handoffs[id]) && Fine(after.site, after.runs[r].handoffs[id])
    {
      HeldFine(w, a, r, id);
    }
  }

  // ----- and why nothing less would do -----

  /** A branch that was taken off and is still needed is lost. */
  lemma TakenIsLost(w: World, a: Act, h: Handoff)
    requires Can(w, a) && !Spared(w, a, h)
    ensures !Kept(After(w, a).site, h)
  {
  }

  lemma NotSparedIsUnsafe(w: World, a: Act)
    requires Safe(w) && Can(w, a) && !Spares(w, a)
    ensures !Safe(After(w, a))
  {
    var after := After(w, a);
    if id :| id in w.site.records && Active(w.site.records[id]) && !EndsOnFile(a.deed, id) && !Spared(w, a, w.site.records[id]) {
      TakenIsLost(w, a, w.site.records[id]);
      StaysOnFile(w, a, id);
    } else {
      var r, id :| r in w.runs && id in w.runs[r].handoffs && !EndsInRun(a, r, id) && !Spared(w, a, w.runs[r].handoffs[id]);
      TakenIsLost(w, a, w.runs[r].handoffs[id]);
      StaysHeld(w, a, r, id);
    }
  }

  lemma StaysOnFile(w: World, a: Act, id: nat)
    requires Can(w, a) && id in w.site.records && !EndsOnFile(a.deed, id)
    requires a.deed.FoundMerged? || a.deed.Expires? || (a.deed.Opens? && a.deed.undone)
    ensures id in After(w, a).site.records && After(w, a).site.records[id] == w.site.records[id]
  {
  }

  lemma StaysHeld(w: World, a: Act, r: nat, id: nat)
    requires Can(w, a) && r in w.runs && id in w.runs[r].handoffs && !EndsInRun(a, r, id)
    requires a.deed.FoundMerged? || a.deed.Expires? || (a.deed.Opens? && a.deed.undone)
    ensures r in After(w, a).runs && id in After(w, a).runs[r].handoffs && After(w, a).runs[r].handoffs[id] == w.runs[r].handoffs[id]
  {
  }

  lemma MovedWrongIsUnsafe(w: World, a: Act)
    requires Safe(w) && Can(w, a) && a.deed.Extends? && a.deed.ok && !AtHome(Seen(w, a.run), a.deed.id)
    requires !Kept(w.site, w.runs[a.run].handoffs[a.deed.id].(sha := a.deed.head))
    ensures !Safe(After(w, a))
  {
    var after, h := After(w, a), w.runs[a.run].handoffs[a.deed.id].(sha := a.deed.head);
    assert Fine(w.site, w.runs[a.run].handoffs[a.deed.id]);
    ExtendedIsKept(w, a);
    assert a.run in after.runs && a.deed.id in after.runs[a.run].handoffs && after.runs[a.run].handoffs[a.deed.id] == h;
  }

  /** Exactly the considerate acts keep every hand-off, whatever the other runs hold and however stale it is. */
  lemma SafeExactlyWhenConsiderate(w: World, a: Act)
    requires Safe(w) && Can(w, a)
    ensures Safe(After(w, a)) <==> Considerate(w, a)
  {
    if Considerate(w, a) {
      SafeStep(w, a);
    } else if !Spares(w, a) {
      NotSparedIsUnsafe(w, a);
    } else {
      MovedWrongIsUnsafe(w, a);
    }
  }

  // ----- behaviours -----

  /** From any repository with no hand-offs yet; any number of runs, each stopping anywhere. */
  ghost predicate Behaviour(ws: seq<World>, acts: seq<Act>) {
    && |ws| == |acts| + 1
    && ws[0].site.records == map[] && ws[0].site.run == None && ws[0].runs == map[]
    && forall i :: 0 <= i < |acts| ==> Can(ws[i], acts[i]) && ws[i + 1] == After(ws[i], acts[i])
  }

  ghost predicate ConsiderateUpTo(ws: seq<World>, acts: seq<Act>, k: nat)
    requires Behaviour(ws, acts) && k <= |acts|
  {
    forall i :: 0 <= i < k ==> Considerate(ws[i], acts[i])
  }

  lemma {:induction false} SafeAlways(ws: seq<World>, acts: seq<Act>, k: nat)
    requires Behaviour(ws, acts) && k <= |acts| && ConsiderateUpTo(ws, acts, k)
    ensures Safe(ws[k])
  {
    if k > 0 {
      SafeAlways(ws, acts, k - 1);
      assert Considerate(ws[k - 1], acts[k - 1]);
      SafeStep(ws[k - 1], acts[k - 1]);
    }
  }

  /** Over every behaviour of overlapping runs: every hand-off is kept throughout exactly when every act was considerate. */
  lemma SafeThroughoutExactlyWhenConsiderate(ws: seq<World>, acts: seq<Act>)
    requires Behaviour(ws, acts)
    ensures (forall k :: 0 <= k <= |acts| ==> Safe(ws[k])) <==> ConsiderateUpTo(ws, acts, |acts|)
  {
    if ConsiderateUpTo(ws, acts, |acts|) {
      forall k | 0 <= k <= |acts| ensures Safe(ws[k]) { SafeAlways(ws, acts, k); }
    }
    if forall k :: 0 <= k <= |acts| ==> Safe(ws[k]) {
      forall i | 0 <= i < |acts| ensures Considerate(ws[i], acts[i]) {
        assert Safe(ws[i]) && Safe(ws[i + 1]);
        SafeExactlyWhenConsiderate(ws[i], acts[i]);
      }
    }
  }

  /** What a reset takes off a replica is on the hand-off's branch, unless its pull request was merged before the primary was moved. */
  lemma ResetsKeepABackup(ws: seq<World>, acts: seq<Act>, k: nat, c: Commit)
    requires Behaviour(ws, acts) && k < |acts| && ConsiderateUpTo(ws, acts, k) && acts[k].deed.Resets? && acts[k].deed.landed
    ensures
      var w, m, e := ws[k].site, ws[k].runs[acts[k].run], acts[k].deed; var h := m.handoffs[e.id];
      && Lookup(Handoffs.On(w, e.node), h.ref) == Some(h.sha)
      && (Ancestor(c, h.sha) ==>
            (h.branch in Handoffs.On(w, h.primary) && Ancestor(c, Handoffs.On(w, h.primary)[h.branch])) ||
            (h.primary != m.primary && (h.primary, h.pr) in w.merged))
  {
    SafeAlways(ws, acts, k);
    var w, h := ws[k].site, ws[k].runs[acts[k].run].handoffs[acts[k].deed.id];
    assert Fine(w, h);
    if Ancestor(c, h.sha) && BackedUp(w, h) {
      AncestorTransitive(c, h.sha, Handoffs.On(w, h.primary)[h.branch]);
    }
  }

  // ----- when a branch goes -----

  /** A time as a backup counts from a pass in which the last replica was found dealt with. */
  ghost predicate CountedFrom(w: World, id: nat, h: Handoff) {
    h.phase == KeptPrimary ==> h.backupUntil.Some? && (id, h.backupUntil.value - w.site.backupFor) in w.kept
  }

  ghost predicate SameHandoff(a: Handoff, b: Handoff) {
    a.primary == b.primary && a.branch == b.branch && a.pr == b.pr
  }

  /** Kept by every act: runs and file agree on which hand-off is which, and each backup's time counts from some pass. */
  ghost predicate Tied(w: World) {
    && (forall id :: id in w.site.records ==> CountedFrom(w, id, w.site.records[id]))
    && forall r, id :: r in w.runs && id in w.runs[r].handoffs ==>
         id in w.site.records && SameHandoff(w.runs[r].handoffs[id], w.site.records[id]) && CountedFrom(w, id, w.runs[r].handoffs[id])
  }

  lemma ChangeTied(w: World, a: Act)
    requires Tied(w) && Can(w, a) && ChangeOf(Seen(w, a.run), a.deed).Some?
    ensures
      var change := ChangeOf(Seen(w, a.run), a.deed).value;
      && CountedFrom(After(w, a), change.id, change.h)
      && (change.id in w.site.records ==> SameHandoff(change.h, w.site.records[change.id]))
      && (change.id in w.site.records || change.saved)
  {
    ChangeIs(Seen(w, a.run), a.deed);
    if !a.deed.Opens? {
      assert SameHandoff(w.runs[a.run].handoffs[a.deed.id], w.site.records[a.deed.id]);
    }
  }

  lemma StillCounted(w: World, a: Act, id: nat, h: Handoff)
    requires Can(w, a) && CountedFrom(w, id, h)
    ensures CountedFrom(After(w, a), id, h)
  {
  }

  lemma RecordTied(w: World, a: Act, id: nat)
    requires Tied(w) && Can(w, a) && id in After(w, a).site.records
    ensures CountedFrom(After(w, a), id, After(w, a).site.records[id])
    ensures id in w.site.records ==> SameHandoff(After(w, a).site.records[id], w.site.records[id])
  {
    var change := ChangeOf(Seen(w, a.run), a.deed);
    if change.Some? && change.value.saved && change.value.id == id {
      ChangeTied(w, a);
    } else {
      StillCounted(w, a, id, w.site.records[id]);
    }
  }

  lemma HeldBefore(w: World, a: Act, r: nat, id: nat)
    requires Can(w, a) && r in After(w, a).runs && id in After(w, a).runs[r].handoffs && (r == a.run ==> !a.deed.Starts?)
    requires r == a.run && ChangeOf(Seen(w, a.run), a.deed).Some? ==> ChangeOf(Seen(w, a.run), a.deed).value.id != id
    ensures r in w.runs && id in w.runs[r].handoffs && After(w, a).runs[r].handoffs[id] == w.runs[r].handoffs[id]
  {
  }

  lemma HeldTied(w: World, a: Act, r: nat, id: nat)
    requires Tied(w) && Can(w, a) && r in After(w, a).runs && id in After(w, a).runs[r].handoffs
    ensures
      var h, after := After(w, a).runs[r].handoffs[id], After(w, a);
      id in after.site.records && SameHandoff(h, after.site.records[id]) && CountedFrom(after, id, h)
  {
    var change := ChangeOf(Seen(w, a.run), a.deed);
    if r == a.run && a.deed.Starts? {
      StillCounted(w, a, id, w.site.records[id]);
    } else if r == a.run && change.Some? && change.value.id == id {
      ChangeTied(w, a);
      if id in w.site.records { RecordTied(w, a, id); }
    } else {
      HeldBefore(w, a, r, id);
      assert SameHandoff(w.runs[r].handoffs[id], w.site.records[id]) && CountedFrom(w, id, w.runs[r].handoffs[id]);
      StillCounted(w, a, id, w.runs[r].handoffs[id]);
      RecordTied(w, a, id);
    }
  }

  lemma {:induction false} TiedAlways(ws: seq<World>, acts: seq<Act>, k: nat)
    requires Behaviour(ws, acts) && k <= |acts|
    ensures Tied(ws[k])
  {
    if k > 0 {
      TiedAlways(ws, acts, k - 1);
      var w, a := ws[k - 1], acts[k - 1];
      forall id | id in ws[k].site.records ensures CountedFrom(ws[k], id, ws[k].site.records[id]) {
        RecordTied(w, a, id);
      }
      forall r, id | r in ws[k].runs && id in ws[k].runs[r].handoffs
        ensures id in ws[k].site.records && SameHandoff(ws[k].runs[r].handoffs[id], ws[k].site.records[id])
        ensures CountedFrom(ws[k], id, ws[k].runs[r].handoffs[id])
      {
        HeldTied(w, a, r, id);
      }
    }
  }

  ghost predicate TimeIsOver(w: World, id: nat) {
    exists t :: (id, t) in w.kept && w.site.clock > t + w.site.backupFor
  }

  /**
   * However runs overlap, if the acts were considerate an active hand-off's branch goes only when its own
   * pull request was reported merged, or BackupFor after a pass that found its last replica dealt with.
   */
  lemma DeletionsAreDue(ws: seq<World>, acts: seq<Act>, k: nat, id: nat)
    requires Behaviour(ws, acts) && k < |acts| && ConsiderateUpTo(ws, acts, k + 1)
    requires id in ws[k].site.records && Active(ws[k].site.records[id])
    requires
      var h := ws[k].site.records[id];
      h.branch in Handoffs.On(ws[k].site, h.primary) && h.branch !in Handoffs.On(ws[k + 1].site, h.primary)
    ensures
      var h := ws[k].site.records[id];
      (h.primary, h.pr) in ws[k + 1].site.merged || TimeIsOver(ws[k], id)
  {
    SafeAlways(ws, acts, k);
    TiedAlways(ws, acts, k);
    assert Considerate(ws[k], acts[k]);
    GoneIsDue(ws[k], acts[k], id);
  }

  lemma GoneIsDue(w: World, a: Act, id: nat)
    requires Safe(w) && Tied(w) && Can(w, a) && Spares(w, a) && id in w.site.records && Active(w.site.records[id])
    requires
      var h := w.site.records[id];
      h.branch in Handoffs.On(w.site, h.primary) && h.branch !in Handoffs.On(After(w, a).site, h.primary)
    ensures
      var h := w.site.records[id];
      (h.primary, h.pr) in After(w, a).site.merged || TimeIsOver(w, id)
  {
    var h := w.site.records[id];
    assert Fine(w.site, h) && CountedFrom(w, id, h);
    GoneIsTaken(w, a, h);
    if EndsOnFile(a.deed, id) {
      EndedIsDue(w, a, id);
    } else {
      assert Spared(w, a, h);
      SparedIsDue(w, a, id, h);
    }
  }

  lemma SparedIsDue(w: World, a: Act, id: nat, h: Handoff)
    requires Can(w, a) && Takes(w, a, h.primary, h.branch) && CountedFrom(w, id, h) && Done(After(w, a).site, h)
    ensures (h.primary, h.pr) in After(w, a).site.merged || TimeIsOver(w, id)
  {
    if Ran(w.site, h) { assert (id, h.backupUntil.value - w.site.backupFor) in w.kept; }
  }

  lemma EndedIsDue(w: World, a: Act, id: nat)
    requires Tied(w) && Can(w, a) && EndsOnFile(a.deed, id) && id in w.site.records && w.runs[a.run].started <= w.site.clock
    requires Takes(w, a, w.site.records[id].primary, w.site.records[id].branch)
    ensures (w.site.records[id].primary, w.site.records[id].pr) in After(w, a).site.merged || TimeIsOver(w, id)
  {
    var own := w.runs[a.run].handoffs[id];
    assert SameHandoff(own, w.site.records[id]) && CountedFrom(w, id, own);
    if a.deed.Expires? { assert (id, own.backupUntil.value - w.site.backupFor) in w.kept; }
  }

  lemma GoneIsTaken(w: World, a: Act, h: Handoff)
    requires Safe(w) && Can(w, a) && IsHandoff(h.branch)
    requires h.branch in Handoffs.On(w.site, h.primary) && h.branch !in Handoffs.On(After(w, a).site, h.primary)
    ensures Takes(w, a, h.primary, h.branch)
  {
    if a.deed.Resets? { ResetsTouchNoBranch(w, a, h); }
    assert Touches(Seen(w, a.run), a.deed, h.primary, h.branch);
  }

  // ----- one run at a time -----

  function Alone(s: Site, kept: set<(nat, int)>): World {
    World(s.(run := None), if s.run.Some? then map[0 := s.run.value] else map[], kept)
  }

  lemma SoundIsSafe(s: Site, kept: set<(nat, int)>)
    requires Sound(s)
    ensures Safe(Alone(s, kept))
  {
    var w := Alone(s, kept);
    forall id | id in w.site.records ensures Fine(w.site, w.site.records[id]) {
      assert RecordOk(s, id, s.records[id]);
    }
    forall r, id | r in w.runs && id in w.runs[r].handoffs
      ensures Active(w.runs[r].handoffs[id]) && Fine(w.site, w.runs[r].handoffs[id])
    {
      assert HeldOk(s, s.run.value, id, s.run.value.handoffs[id]);
    }
  }

  /** While runs do not overlap, what is proper for the one run is considerate: a name free when it was taken is all that deletions need. */
  lemma ProperAloneIsConsiderate(s: Site, e: Deed, kept: set<(nat, int)>)
    requires Sound(s) && Enabled(s, e) && Proper(s, e)
    ensures Can(Alone(s, kept), Act(0, e)) && Considerate(Alone(s, kept), Act(0, e))
  {
    var w, a := Alone(s, kept), Act(0, e);
    AfterAlone(s, e, kept);
    SoundStep(s, e);
    SoundIsSafe(s, kept);
    SoundIsSafe(Apply(s, e), After(w, a).kept);
    SafeExactlyWhenConsiderate(w, a);
  }

  lemma AfterAlone(s: Site, e: Deed, kept: set<(nat, int)>)
    requires Enabled(s, e)
    ensures
      var w, a := Alone(s, kept), Act(0, e);
      Can(w, a) && After(w, a) == Alone(Apply(s, e), After(w, a).kept)
  {
    assert Seen(Alone(s, kept), 0) == s;
  }

  // ----- what overlapping runs lose -----

  /** Where acts lead, if each can be done and is proper for a run on its own. */
  ghost function ActProperly(w: World, acts: seq<Act>): Option<World>
    decreases |acts|
  {
    if acts == [] then Some(w)
    else if Can(w, acts[0]) && Proper(Seen(w, acts[0].run), acts[0].deed) then ActProperly(After(w, acts[0]), acts[1..])
    else None
  }

  lemma FirstActed(w: World, a: Act, rest: seq<Act>)
    requires Can(w, a) && Proper(Seen(w, a.run), a.deed)
    ensures ActProperly(w, [a] + rest) == ActProperly(After(w, a), rest)
  {
    assert ([a] + rest)[1..] == rest;
  }

  lemma {:induction false} ActProperlyThen(w: World, xs: seq<Act>, ys: seq<Act>)
    requires ActProperly(w, xs).Some?
    ensures ActProperly(w, xs + ys) == ActProperly(ActProperly(w, xs).value, ys)
    decreases |xs|
  {
    if xs == [] {
      assert [] + ys == ys;
    } else {
      assert xs + ys == [xs[0]] + (xs[1..] + ys);
      FirstActed(w, xs[0], xs[1..] + ys);
      ActProperlyThen(After(w, xs[0]), xs[1..], ys);
    }
  }

  /** Two runs, each with what it read of the same repository. */
  lemma BothStart(w: World, p: Node) returns (after: World)
    requires w.runs == map[] && w.site.run == None
    ensures ActProperly(w, [Act(1, Starts(p)), Act(2, Starts(p))]) == Some(after)
    ensures after.site == w.site && after.runs == map[1 := Loaded(w.site, p), 2 := Loaded(w.site, p)] && after.kept == w.kept
  {
    var w1 := After(w, Act(1, Starts(p)));
    assert w1.site == w.site && w1.runs == map[1 := Loaded(w.site, p)];
    after := After(w1, Act(2, Starts(p)));
    assert after.site == w.site;
    FirstActed(w1, Act(2, Starts(p)), []);
    FirstActed(w, Act(1, Starts(p)), [Act(2, Starts(p))]);
  }

  lemma ExpiresIn(w: World, r: nat, id: nat)
    requires w.site.run == None && r in w.runs && id in w.runs[r].handoffs
    requires
      var m := w.runs[r]; var h := m.handoffs[id];
      && h.phase == KeptPrimary && h.backupUntil.Some? && m.started > h.backupUntil.value && h.branch in m.branches
      && Lookup(Handoffs.On(w.site, m.primary), h.branch) == Some(m.branches[h.branch])
    ensures
      var a, m := Act(r, Expires(id, true, true, true)), w.runs[r]; var h := m.handoffs[id];
      Can(w, a) && Proper(Seen(w, r), a.deed) &&
      var after := After(w, a);
      && after.site == w.site.(nodes := w.site.nodes[m.primary := Handoffs.On(w.site, m.primary) - {h.branch}],
                               records := w.site.records[id := h.(phase := Expired)])
      && after.runs == w.runs[r := m.(handoffs := m.handoffs - {id}, branches := m.branches - {h.branch})]
  {
  }

  lemma OpensIn(w: World, r: nat, id: nat, h: Handoff)
    requires w.site.run == None && r in w.runs && id !in w.site.records && h.primary == w.runs[r].primary
    requires h.phase == Open && h.decidedAt == None && h.backupUntil == None && IsHandoff(h.branch) && !IsHandoff(h.ref)
    requires h.branch !in w.runs[r].branches && h.branch !in Handoffs.On(w.site, h.primary) && (h.primary, h.pr) !in w.site.merged
    requires Indexed(w.site.records, id, h) && NameFree(w.site, h.branch)
    requires forall other :: other in w.site.records ==> (w.site.records[other].primary, w.site.records[other].pr) != (h.primary, h.pr)
    ensures
      var a, m := Act(r, Opens(id, h, true, true, true, false, true)), w.runs[r];
      Can(w, a) && Proper(Seen(w, r), a.deed) &&
      var after := After(w, a);
      && after.site == w.site.(nodes := w.site.nodes[h.primary := Handoffs.On(w.site, h.primary)[h.branch := h.sha]],
                               records := w.site.records[id := h])
      && after.runs == w.runs[r := m.(handoffs := m.handoffs[id := h], branches := m.branches[h.branch := h.sha])]
  {
  }

  /**
   * With every save working, the primary where it was and the name free, two runs still lose a
   * hand-off. Both loaded a backup whose time is over; one deletes its branch and hands the same
   * commit over again under the name it freed; the other then deletes that branch for the backup's.
   */
  lemma OverlapLosesABackup(w: World, id: nat, next: nat, h: Handoff)
    requires w.runs == map[] && w.site.run == None && id in w.site.records && next !in w.site.records
    requires
      var first := w.site.records[id];
      && first.phase == KeptPrimary && first.backupUntil.Some? && w.site.clock > first.backupUntil.value
      && h.primary == first.primary && h.branch == first.branch && Lookup(Handoffs.On(w.site, h.primary), h.branch) == Some(h.sha)
    requires h.phase == Open && h.decidedAt == None && h.backupUntil == None && IsHandoff(h.branch) && !IsHandoff(h.ref)
    requires (h.primary, h.pr) !in w.site.merged && Indexed(w.site.records, next, h)
    requires forall k :: k in w.site.records ==> (w.site.records[k].primary, w.site.records[k].pr) != (h.primary, h.pr)
    requires forall k :: k in w.site.records && k != id && Active(w.site.records[k]) ==> w.site.records[k].branch != h.branch
    ensures
      var ends := Expires(id, true, true, true);
      var end := ActProperly(w, [Act(1, Starts(h.primary)), Act(2, Starts(h.primary))] +
                                [Act(1, ends), Act(1, Opens(next, h, true, true, true, false, true)), Act(2, ends)]);
      end.Some? && Lookup(end.value.site.records, next) == Some(h) && !Kept(end.value.site, h)
  {
    var p, ends, opens := h.primary, Expires(id, true, true, true), Opens(next, h, true, true, true, false, true);
    var w2 := BothStart(w, p);
    LoadedHas(w.site, id, h.branch);
    var w5 := ReopensThenLoses(w2, id, next, h);
    ActProperlyThen(w, [Act(1, Starts(p)), Act(2, Starts(p))], [Act(1, ends), Act(1, opens), Act(2, ends)]);
  }

  lemma LoadedHas(s: Site, id: nat, branch: Ref)
    requires id in s.records && Active(s.records[id]) && IsHandoff(branch) && branch in Handoffs.On(s, s.records[id].primary)
    ensures
      var m := Loaded(s, s.records[id].primary);
      && m.primary == s.records[id].primary && m.started == s.clock
      && Lookup(m.handoffs, id) == Some(s.records[id])
      && Lookup(m.branches, branch) == Some(Handoffs.On(s, s.records[id].primary)[branch])
  {
  }

  /** The same from where both hold the backup. */
  lemma ReopensThenLoses(w: World, id: nat, next: nat, h: Handoff) returns (after: World)
    requires w.site.run == None && 1 in w.runs && w.runs == map[1 := w.runs[1], 2 := w.runs[1]] && id in w.site.records && id != next
    requires
      var m := w.runs[1];
      && Lookup(m.handoffs, id) == Some(w.site.records[id]) && m.primary == h.primary && Lookup(m.branches, h.branch) == Some(h.sha)
      && var first := w.site.records[id];
      && first.phase == KeptPrimary && first.backupUntil.Some? && m.started > first.backupUntil.value
      && first.primary == h.primary && first.branch == h.branch && Lookup(Handoffs.On(w.site, h.primary), h.branch) == Some(h.sha)
    requires next !in w.site.records && h.phase == Open && h.decidedAt == None && h.backupUntil == None
    requires IsHandoff(h.branch) && !IsHandoff(h.ref) && (h.primary, h.pr) !in w.site.merged && Indexed(w.site.records, next, h)
    requires forall k :: k in w.site.records ==> (w.site.records[k].primary, w.site.records[k].pr) != (h.primary, h.pr)
    requires forall k :: k in w.site.records && k != id && Active(w.site.records[k]) ==> w.site.records[k].branch != h.branch
    ensures
      var ends := Expires(id, true, true, true);
      ActProperly(w, [Act(1, ends), Act(1, Opens(next, h, true, true, true, false, true)), Act(2, ends)]) == Some(after)
    ensures Lookup(after.site.records, next) == Some(h) && !Kept(after.site, h)
  {
    var m, ends, opens := w.runs[1], Expires(id, true, true, true), Opens(next, h, true, true, true, false, true);
    ExpiresIn(w, 1, id);
    var w1 := After(w, Act(1, ends));
    FreedFor(w.site, w1.site, id, next, h);
    OpensIn(w1, 1, next, h);
    var w2 := After(w1, Act(1, opens));
    assert w2.runs[2] == m && Lookup(Handoffs.On(w2.site, h.primary), h.branch) == Some(h.sha);
    ExpiresIn(w2, 2, id);
    after := After(w2, Act(2, ends));
    FirstActed(w2, Act(2, ends), []);
    FirstActed(w1, Act(1, opens), [Act(2, ends)]);
    FirstActed(w, Act(1, ends), [Act(1, opens), Act(2, ends)]);
  }

  /** The name is free once the backup is recorded as over. */
  lemma FreedFor(s: Site, t: Site, id: nat, next: nat, h: Handoff)
    requires id in s.records && t.records == s.records[id := s.records[id].(phase := Expired)] && s.records[id].branch == h.branch
    requires Indexed(s.records, next, h)
    requires forall k :: k in s.records && k != id && Active(s.records[k]) ==> s.records[k].branch != h.branch
    requires forall k :: k in s.records ==> (s.records[k].primary, s.records[k].pr) != (h.primary, h.pr)
    ensures NameFree(t, h.branch) && Indexed(t.records, next, h)
    ensures forall k :: k in t.records ==> (t.records[k].primary, t.records[k].pr) != (h.primary, h.pr)
  {
  }

  /**
   * Two runs that find one diverged version do too. Both see the name free; one hands the version
   * over; the other's create is accepted because the branch is there already, its pull request is
   * refused, and the branch is taken back.
   */
  lemma OverlapTakesABranchBack(w: World, next: nat, other: nat, h: Handoff, pr: nat)
    requires w.runs == map[] && w.site.run == None && next != other && next !in w.site.records && other !in w.site.records
    requires h.phase == Open && h.decidedAt == None && h.backupUntil == None && IsHandoff(h.branch) && !IsHandoff(h.ref)
    requires h.branch !in Handoffs.On(w.site, h.primary) && NameFree(w.site, h.branch)
    requires (h.primary, h.pr) !in w.site.merged && Indexed(w.site.records, next, h)
    requires forall k :: k in w.site.records ==> (w.site.records[k].primary, w.site.records[k].pr) != (h.primary, h.pr)
    ensures
      var again := Opens(other, h.(pr := pr), false, true, false, true, false);
      var end := ActProperly(w, [Act(1, Starts(h.primary)), Act(2, Starts(h.primary))] +
                                [Act(1, Opens(next, h, true, true, true, false, true)), Act(2, again)]);
      end.Some? && Lookup(end.value.site.records, next) == Some(h) && !Kept(end.value.site, h)
  {
    var p, opens := h.primary, Opens(next, h, true, true, true, false, true);
    var again := Opens(other, h.(pr := pr), false, true, false, true, false);
    var w2 := BothStart(w, p);
    OpensIn(w2, 1, next, h);
    var w3 := After(w2, Act(1, opens));
    assert w3.runs[2] == w2.runs[2] && Lookup(Handoffs.On(w3.site, p), h.branch) == Some(h.sha);
    TakesBackIn(w3, 2, other, h.(pr := pr));
    FirstActed(w3, Act(2, again), []);
    FirstActed(w2, Act(1, opens), [Act(2, again)]);
    ActProperlyThen(w, [Act(1, Starts(p)), Act(2, Starts(p))], [Act(1, opens), Act(2, again)]);
  }

  lemma TakesBackIn(w: World, r: nat, id: nat, h: Handoff)
    requires w.site.run == None && r in w.runs && id !in w.site.records && h.primary == w.runs[r].primary
    requires h.phase == Open && h.decidedAt == None && h.backupUntil == None && IsHandoff(h.branch) && !IsHandoff(h.ref)
    requires h.branch !in w.runs[r].branches && Lookup(Handoffs.On(w.site, h.primary), h.branch) == Some(h.sha)
    ensures
      var a := Act(r, Opens(id, h, false, true, false, true, false));
      Can(w, a) && Proper(Seen(w, r), a.deed) &&
      var after := After(w, a);
      && after.site.records == w.site.records && after.site.merged == w.site.merged
      && h.branch !in Handoffs.On(after.site, h.primary)
  {
  }

  // ----- no name is safe -----

  ghost predicate LosesOne(w: World) {
    exists id :: id in w.site.records && Active(w.site.records[id]) && !Kept(w.site, w.site.records[id])
  }

  /** An open hand-off that a run on its primary finds with its branch there. */
  ghost predicate Standing(s: Site, id: nat, h: Handoff) {
    && s.run == None && Lookup(s.records, id) == Some(h) && h.phase == Open && IsHandoff(h.branch)
    && h.branch in Handoffs.On(s, h.primary) && (h.primary, h.pr) !in s.merged && Indexed(s.records, id, h)
  }

  ghost predicate Holds(w: World, r: nat, id: nat, h: Handoff) {
    r in w.runs && w.runs[r].primary == h.primary && Lookup(w.runs[r].handoffs, id) == Some(h)
  }

  lemma StartsIn(w: World, r: nat, id: nat, h: Handoff) returns (after: World)
    requires r !in w.runs && w.site.run == None && Lookup(w.site.records, id) == Some(h) && Active(h)
    ensures ActProperly(w, [Act(r, Starts(h.primary))]) == Some(after)
    ensures after.site == w.site && after.runs == w.runs[r := Loaded(w.site, h.primary)] && Holds(after, r, id, h)
  {
    after := After(w, Act(r, Starts(h.primary)));
    assert after.site == w.site;
    FirstActed(w, Act(r, Starts(h.primary)), []);
  }

  lemma ClosedIn(w: World, r: nat, id: nat, h: Handoff) returns (after: World)
    requires w.site.run == None && Holds(w, r, id, h) && h.phase == Open && (h.primary, h.pr) !in w.site.merged
    ensures ActProperly(w, [Act(r, FoundClosed(id))]) == Some(after)
    ensures after.site == w.site.(closed := w.site.closed + {(h.primary, h.pr)}) && after.runs == w.runs
  {
    after := After(w, Act(r, FoundClosed(id)));
    assert after.site == w.site.(closed := w.site.closed + {(h.primary, h.pr)});
    assert after.runs == w.runs;
    FirstActed(w, Act(r, FoundClosed(id)), []);
  }

  lemma DecidedIn(w: World, r: nat, id: nat, h: Handoff) returns (after: World, over: Handoff)
    requires w.site.run == None && Holds(w, r, id, h) && h.phase == Open
    requires (h.primary, h.pr) in w.site.closed && (h.primary, h.pr) !in w.site.merged
    ensures ActProperly(w, [Act(r, Decided(id, {}, true))]) == Some(after)
    ensures over.phase == KeptPrimary && over.backupUntil == Some(w.runs[r].started + w.site.backupFor)
    ensures over.primary == h.primary && over.branch == h.branch
    ensures after.site.records == w.site.records[id := over] && after.site.nodes == w.site.nodes && after.site.run == None
    ensures after.site.merged == w.site.merged && after.site.clock == w.site.clock
    ensures r in after.runs && after.runs == w.runs[r := after.runs[r]]
  {
    after := After(w, Act(r, Decided(id, {}, true)));
    over := after.site.records[id];
    FirstActed(w, Act(r, Decided(id, {}, true)), []);
  }

  lemma EndsAndWaits(w: World, r: nat, d: nat) returns (after: World)
    requires w.site.run == None && r in w.runs
    ensures ActProperly(w, [Act(r, Ends), Act(r, Tick(d))]) == Some(after)
    ensures after.site == w.site.(clock := w.site.clock + d) && after.runs == w.runs - {r}
  {
    var w1 := After(w, Act(r, Ends));
    assert w1.site == w.site && w1.runs == w.runs - {r};
    after := After(w1, Act(r, Tick(d)));
    FirstActed(w1, Act(r, Tick(d)), []);
    FirstActed(w, Act(r, Ends), [Act(r, Tick(d))]);
  }

  lemma ExpiresLoaded(w: World, r: nat, id: nat, over: Handoff) returns (after: World)
    requires w.site.run == None && r !in w.runs && Lookup(w.site.records, id) == Some(over) && over.phase == KeptPrimary
    requires over.backupUntil.Some? && w.site.clock > over.backupUntil.value && IsHandoff(over.branch)
    requires over.branch in Handoffs.On(w.site, over.primary)
    ensures ActProperly(w, [Act(r, Starts(over.primary)), Act(r, Expires(id, true, true, true))]) == Some(after)
    ensures over.branch !in Handoffs.On(after.site, over.primary) && after.site.run == None && after.site.merged == w.site.merged
    ensures after.site.records == w.site.records[id := over.(phase := Expired)] && forall k :: k != r && k in w.runs ==> k in after.runs && after.runs[k] == w.runs[k]
  {
    var w1 := StartsIn(w, r, id, over);
    LoadedHas(w.site, id, over.branch);
    ExpiresIn(w1, r, id);
    after := After(w1, Act(r, Expires(id, true, true, true)));
    FirstActed(w1, Act(r, Expires(id, true, true, true)), []);
    ActProperlyThen(w, [Act(r, Starts(over.primary))], [Act(r, Expires(id, true, true, true))]);
    assert [Act(r, Starts(over.primary))] + [Act(r, Expires(id, true, true, true))] ==
      [Act(r, Starts(over.primary)), Act(r, Expires(id, true, true, true))];
  }

  /** A run that still holds the hand-off as open puts it back on file so. */
  lemma JoinsIn(w: World, r: nat, id: nat, h: Handoff, n: Node) returns (after: World)
    requires w.site.run == None && Holds(w, r, id, h) && h.phase == Open && Indexed(w.site.records, id, h)
    requires h.branch !in Handoffs.On(w.site, h.primary) && (h.primary, h.pr) !in w.site.merged
    ensures ActProperly(w, [Act(r, Joins(id, {n}, true))]) == Some(after)
    ensures LosesOne(after)
  {
    after := After(w, Act(r, Joins(id, {n}, true)));
    assert after.site.records == w.site.records[id := h.(nodes := h.nodes + {n})];
    assert !Kept(after.site, after.site.records[id]);
    FirstActed(w, Act(r, Joins(id, {n}, true)), []);
  }

  lemma ActedThrough(w: World, xs: seq<Act>, w1: World, ys: seq<Act>, w2: World)
    requires ActProperly(w, xs) == Some(w1) && ActProperly(w1, ys) == Some(w2)
    ensures ActProperly(w, xs + ys) == Some(w2)
  {
    ActProperlyThen(w, xs, ys);
  }

  /** One run decides the hand-off as closed with no replica left, and ends. */
  lemma DecidesAndEnds(w: World, r: nat, id: nat, h: Handoff, d: nat) returns (acts: seq<Act>, after: World, over: Handoff)
    requires Standing(w.site, id, h) && r !in w.runs
    ensures ActProperly(w, acts) == Some(after) && after.site.run == None && after.site.merged == w.site.merged
    ensures over.phase == KeptPrimary && over.backupUntil == Some(w.site.clock + w.site.backupFor)
    ensures over.primary == h.primary && over.branch == h.branch && after.site.clock == w.site.clock + d
    ensures after.site.records == w.site.records[id := over] && after.site.nodes == w.site.nodes && after.runs == w.runs
  {
    var w1 := StartsIn(w, r, id, h);
    assert w1.runs[r].started == w.site.clock;
    var w2 := ClosedIn(w1, r, id, h);
    var w3;
    w3, over := DecidedIn(w2, r, id, h);
    after := EndsAndWaits(w3, r, d);
    var ends := [Act(r, Ends), Act(r, Tick(d))];
    ActedThrough(w2, [Act(r, Decided(id, {}, true))], w3, ends, after);
    ActedThrough(w1, [Act(r, FoundClosed(id))], w2, [Act(r, Decided(id, {}, true))] + ends, after);
    acts := [Act(r, Starts(h.primary))] + ([Act(r, FoundClosed(id))] + ([Act(r, Decided(id, {}, true))] + ends));
    ActedThrough(w, [Act(r, Starts(h.primary))], w1, [Act(r, FoundClosed(id))] + ([Act(r, Decided(id, {}, true))] + ends), after);
  }

  /** What a run keeps holding while another decides the hand-off, waits out the backup and deletes it. */
  lemma OtherRunEnds(w: World, r: nat, other: nat, id: nat, h: Handoff) returns (acts: seq<Act>, after: World)
    requires Standing(w.site, id, h) && other in w.runs && r !in w.runs
    ensures ActProperly(w, acts) == Some(after) && after.site.run == None && after.site.merged == w.site.merged
    ensures h.branch !in Handoffs.On(after.site, h.primary) && id in after.site.records
    ensures after.site.records == w.site.records[id := after.site.records[id]] && other in after.runs && after.runs[other] == w.runs[other]
  {
    var first, w1, over := DecidesAndEnds(w, r, id, h, w.site.backupFor + 1);
    assert Lookup(w1.site.records, id) == Some(over) && r !in w1.runs;
    assert over.branch in Handoffs.On(w1.site, over.primary);
    var last := [Act(r, Starts(over.primary)), Act(r, Expires(id, true, true, true))];
    after := ExpiresLoaded(w1, r, id, over);
    TwiceRecorded(w.site.records, id, over, over.(phase := Expired));
    acts := first + last;
    ActedThrough(w, first, w1, last, after);
  }

  lemma TwiceRecorded(records: map<nat, Handoff>, id: nat, a: Handoff, b: Handoff)
    ensures records[id := a][id := b] == records[id := b]
  {
  }

  /**
   * Where runs may overlap for as long as they like, no check made when a hand-off is opened is enough:
   * whichever open hand-off is standing, acts that are each proper for a run on its own lose it. One
   * run decides it and its backup's time passes; another, which holds it as it was, adds a replica to it
   * and so saves it as open.
   */
  lemma NoNameIsSafe(w: World, r: nat, other: nat, id: nat, h: Handoff, n: Node) returns (acts: seq<Act>)
    requires Standing(w.site, id, h) && r != other && r !in w.runs && other !in w.runs
    ensures ActProperly(w, acts).Some? && LosesOne(ActProperly(w, acts).value)
  {
    var w1 := StartsIn(w, other, id, h);
    var middle, w2 := OtherRunEnds(w1, r, other, id, h);
    var end := JoinsIn(w2, other, id, h, n);
    ActedThrough(w1, middle, w2, [Act(other, Joins(id, {n}, true))], end);
    acts := [Act(other, Starts(h.primary))] + (middle + [Act(other, Joins(id, {n}, true))]);
    ActedThrough(w, [Act(other, Starts(h.primary))], w1, middle + [Act(other, Joins(id, {n}, true))], end);
  }
}
