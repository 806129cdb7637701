/**
 * Replication as a protocol: runs of the engine, one push at a time, while people push, delete
 * and rewrite on any node between any two steps.
 *
 * Nothing here relies on one run at a time, on healthy nodes, on answers arriving, or on the
 * primary staying the same: any number of runs may be at work on a repository, each with its own
 * idea of the primary, each may stop anywhere, and every answer may be lost.
 */
module NoLoss {
  import opened Optional
  import opened Commits
  import opened RefPlan
  import opened Replicate

  datatype Stage =
    | Between                                       // between two replicas
    | Pushing(node: Node, seen: Refs, base: Refs, actions: seq<Action>, pushed: nat, ok: set<Ref>, issues: seq<Issue>)
    | Fixing(node: Node, next: Refs, fixes: seq<Action>, tried: nat)

  /** One run: its primary, the primary's refs as the run knows them, and where it is. */
  datatype Run = Run(primary: Node, view: Refs, stage: Stage)

  datatype World = World(nodes: map<Node, Refs>, bases: map<Node, Refs>, runs: map<nat, Run>)

  datatype Event =
    | UserMoves(node: Node, ref: Ref, to: Option<Commit>)
    | Starts(run: nat, primary: Node)               // lists the primary's refs
    | Reads(run: nat, node: Node, ask: Ancestry)    // lists a replica's refs, reads its base, plans
    | Pushes(run: nat, landed: bool, ok: bool)      // the next update of the plan
    | Abandons(run: nat)                            // the push as a whole failed: the base stays
    | Finishes(run: nat)                            // works out the new base and the fixes
    | Fixes(run: nat, landed: bool, ok: bool)       // the next fix, on the primary
    | Records(run: nat, saved: bool)                // saves the new base
    | Ends(run: nat)                                // or crashes, or loses the lease, at any point
    | Forgets(node: Node)                           // the copy was made anew: its base is dropped
    | Seeds(node: Node, ref: Ref, from: Commit)     // a ref created on a primary that had no copy

  function RefsOn(w: World, n: Node): Refs {
    if n in w.nodes then w.nodes[n] else map[]
  }

  function BaseOf(w: World, n: Node): Refs {
    if n in w.bases then w.bases[n] else map[]
  }

  ghost predicate Enabled(w: World, e: Event) {
    match e
    case UserMoves(_, _, _) => true
    case Starts(run, _) => run !in w.runs
    case Reads(run, _, ask) => run in w.runs && w.runs[run].stage.Between? && Truthful(ask)
    case Pushes(run, landed, ok) =>
      && run in w.runs && w.runs[run].stage.Pushing?
      && var s := w.runs[run].stage; s.pushed < |s.actions| && Lawful(RefsOn(w, s.node), s.actions[s.pushed], landed, ok)
    case Abandons(run) => run in w.runs && w.runs[run].stage.Pushing?
    case Finishes(run) => run in w.runs && w.runs[run].stage.Pushing? && w.runs[run].stage.pushed == |w.runs[run].stage.actions|
    case Fixes(run, landed, ok) =>
      && run in w.runs && w.runs[run].stage.Fixing?
      && var s := w.runs[run].stage; s.tried < |s.fixes| && Lawful(RefsOn(w, w.runs[run].primary), s.fixes[s.tried], landed, ok)
    case Records(run, _) => run in w.runs && w.runs[run].stage.Fixing?
    case Ends(run) => run in w.runs
    case Forgets(_) => true
    case Seeds(n, ref, to) => Lawful(RefsOn(w, n), Create(ref, to), true, true)
  }

  function Written(w: World, n: Node, ref: Ref, to: Option<Commit>): World {
    w.(nodes := w.nodes[n := Put(RefsOn(w, n), ref, to)])
  }

  function Going(w: World, run: nat, r: Run): World {
    w.(runs := w.runs[run := r])
  }

  ghost function Apply(w: World, e: Event): World
    requires Enabled(w, e)
  {
    match e
    case UserMoves(n, ref, to) => Written(w, n, ref, to)
    case Starts(run, primary) => Going(w, run, Run(primary, Ordinary(RefsOn(w, primary)), Between))
    case Reads(run, n, ask) =>
      var r := w.runs[run];
      var seen, base := Ordinary(RefsOn(w, n)), BaseOf(w, n);
      Going(w, run, r.(stage := Pushing(n, seen, base, Planned(r.view, seen, base, ask), 0, {}, Flagged(r.view, seen, base, ask))))
    case Pushes(run, landed, ok) =>
      var r := w.runs[run];
      var s := r.stage;
      var a := s.actions[s.pushed];
      var w' := Going(w, run, r.(stage := s.(pushed := s.pushed + 1, ok := if ok then s.ok + {a.ref} else s.ok)));
      if landed then Written(w', s.node, a.ref, a.Target()) else w'
    case Abandons(run) => Going(w, run, w.runs[run].(stage := Between))
    case Finishes(run) =>
      var r := w.runs[run];
      var s := r.stage;
      Going(w, run, r.(stage := Fixing(s.node, Rebased(s.base, r.view, s.seen, s.actions, s.ok), Replicate.Fixes(s.issues), 0)))
    case Fixes(run, landed, ok) =>
      var r := w.runs[run];
      var a := r.stage.fixes[r.stage.tried];
      var view := if ok then Put(r.view, a.ref, a.Target()) else r.view;
      var w' := Going(w, run, r.(view := view, stage := r.stage.(tried := r.stage.tried + 1)));
      if landed then Written(w', r.primary, a.ref, a.Target()) else w'
    case Records(run, saved) =>
      var r := w.runs[run];
      var w' := Going(w, run, r.(stage := Between));
      if saved then w'.(bases := w.bases[r.stage.node := r.stage.next]) else w'
    case Ends(run) => w.(runs := w.runs - {run})
    case Forgets(n) => w.(bases := w.bases - {n})
    case Seeds(n, ref, to) => Written(w, n, ref, Some(to))
  }

  /** A behaviour from a fresh installation: whatever is on the nodes, nothing written and nothing running. */
  ghost predicate Behaviour(ws: seq<World>, es: seq<Event>) {
    && |ws| == |es| + 1
    && ws[0].bases == map[] && ws[0].runs == map[]
    && forall i :: 0 <= i < |es| ==> Enabled(ws[i], es[i]) && ws[i + 1] == Apply(ws[i], es[i])
  }

  /** The values refs stand at, in one world, on nodes that are some run's primary. */
  ghost predicate StandsOnPrimary(w: World, ref: Ref, c: Commit) {
    exists run :: run in w.runs && Lookup(RefsOn(w, w.runs[run].primary), ref) == Some(c)
  }

  /** Some node held the ref at this commit while it was the primary of a run, up to step k. */
  ghost predicate PrimaryHeld(ws: seq<World>, k: nat, ref: Ref, c: Commit)
    requires k < |ws|
  {
    exists i :: 0 <= i <= k && StandsOnPrimary(ws[i], ref, c)
  }

  // ----- the invariant, over the set of values primaries have held so far -----

  type History = iset<(Ref, Commit)>

  ghost function Held(ws: seq<World>, k: nat): History
    requires k < |ws|
  {
    iset ref, c | PrimaryHeld(ws, k, ref, c) :: (ref, c)
  }

  ghost predicate Known(h: History, m: Refs) {
    forall ref :: ref in m ==> (ref, m[ref]) in h
  }

  /** An update that cannot lose work, wherever and whenever it lands. */
  ghost predicate SafeAction(h: History, a: Action) {
    match a
    case Create(_, _) => true
    case FastForward(ref, expected, target) => !IsTag(ref) && Ancestor(expected, target)
    case Delete(ref, expected) => (ref, expected) in h
    case Reset(_, _, _) => false
  }

  ghost predicate SafePlanned(h: History, a: Action) {
    SafeAction(h, a) && (a.Target().Some? ==> (a.ref, a.target) in h)
  }

  ghost predicate SafeFix(h: History, a: Action) {
    SafeAction(h, a) && !a.Delete?
  }

  ghost predicate SafeStage(h: History, s: Stage) {
    match s
    case Between => true
    case Pushing(_, seen, base, actions, pushed, ok, issues) =>
      && pushed <= |actions| && Known(h, base)
      && (forall a :: a in actions ==> SafePlanned(h, a))
      && (forall x :: x in issues && FixOf(x).Some? ==> SafeFix(h, FixOf(x).value))
    case Fixing(_, next, fixes, tried) =>
      && tried <= |fixes| && Known(h, next)
      && (forall a :: a in fixes ==> SafeFix(h, a))
  }

  ghost predicate SafeRun(h: History, r: Run) {
    Known(h, r.view) && SafeStage(h, r.stage)
  }

  ghost predicate Safe(h: History, w: World) {
    && (forall run :: run in w.runs ==> SafeRun(h, w.runs[run]))
    && (forall n :: n in w.bases ==> Known(h, w.bases[n]))
  }

  lemma SafeRunStays(h: History, h': History, r: Run)
    requires SafeRun(h, r) && h <= h'
    ensures SafeRun(h', r)
  {
  }

  lemma PlannedIsSafe(h: History, view: Refs, seen: Refs, base: Refs, ask: Ancestry, a: Action)
    requires Known(h, view) && Known(h, base) && Truthful(ask) && a in Planned(view, seen, base, ask)
    ensures SafePlanned(h, a)
  {
    PlanLosesNothing(view, seen, base, ask, a);
    assert a.Delete? ==> a.ref in base;
    assert a.Target().Some? ==> a.ref in view;
  }

  lemma FixIsSafe(h: History, view: Refs, seen: Refs, base: Refs, ask: Ancestry, x: Issue)
    requires Truthful(ask) && x in Flagged(view, seen, base, ask) && FixOf(x).Some?
    ensures SafeFix(h, FixOf(x).value)
  {
    PlanIs(view, seen, base, ask);
    assert On(x.ref, view, seen, base, ask) == Ask(x);
  }

  lemma {:induction false} PushedKnown(h: History, m: Refs, actions: seq<Action>, ok: set<Ref>)
    requires Known(h, m) && forall a :: a in actions ==> SafePlanned(h, a)
    ensures Known(h, Pushed(m, actions, ok))
  {
    if actions != [] {
      var front := actions[..|actions| - 1];
      var last := actions[|actions| - 1];
      assert last in actions && SafePlanned(h, last);
      assert forall a :: a in front ==> a in actions;
      PushedKnown(h, m, front, ok);
    }
  }

  lemma PlanIsSafe(h: History, view: Refs, seen: Refs, base: Refs, ask: Ancestry, n: Node)
    requires Known(h, view) && Known(h, base) && Truthful(ask)
    ensures SafeStage(h, Pushing(n, seen, base, Planned(view, seen, base, ask), 0, {}, Flagged(view, seen, base, ask)))
  {
    forall a | a in Planned(view, seen, base, ask) ensures SafePlanned(h, a) {
      PlannedIsSafe(h, view, seen, base, ask, a);
    }
    forall x | x in Flagged(view, seen, base, ask) && FixOf(x).Some? ensures SafeFix(h, FixOf(x).value) {
      FixIsSafe(h, view, seen, base, ask, x);
    }
  }

  lemma FinishIsSafe(h: History, r: Run)
    requires SafeRun(h, r) && r.stage.Pushing?
    ensures
      var s := r.stage;
      SafeStage(h, Fixing(s.node, Rebased(s.base, r.view, s.seen, s.actions, s.ok), Replicate.Fixes(s.issues), 0))
  {
    var s := r.stage;
    PushedKnown(h, Settled(s.base, r.view, s.seen), s.actions, s.ok);
    forall a | a in Replicate.Fixes(s.issues) ensures SafeFix(h, a) {
      FixesAre(s.issues, a);
    }
  }

  /** The run a step belongs to, after the step. */
  lemma OwnStep(h: History, w: World, e: Event, h': History, run: nat)
    requires Safe(h, w) && Enabled(w, e) && h <= h' && run in Apply(w, e).runs
    requires forall ref, c :: StandsOnPrimary(Apply(w, e), ref, c) ==> (ref, c) in h'
    requires run !in w.runs || Apply(w, e).runs[run] != w.runs[run]
    ensures SafeRun(h', Apply(w, e).runs[run])
  {
    var w' := Apply(w, e);
    var r' := w'.runs[run];
    if run in w.runs { SafeRunStays(h, h', w.runs[run]); }
    match e {
      case Starts(_, primary) =>
        forall ref | ref in r'.view ensures (ref, r'.view[ref]) in h' {
          assert Lookup(RefsOn(w', w'.runs[run].primary), ref) == Some(r'.view[ref]);
          assert StandsOnPrimary(w', ref, r'.view[ref]);
        }
      case Reads(_, n, ask) =>
        assert Known(h', BaseOf(w, n));
        PlanIsSafe(h', r'.view, r'.stage.seen, r'.stage.base, ask, n);
      case Pushes(_, _, _) =>
        assert r' == w.runs[run].(stage := r'.stage);
      case Finishes(_) => FinishIsSafe(h', w.runs[run]);
      case Fixes(_, landed, ok) => FixStep(h, w, e, h', run);
      case Records(_, _) =>
      case Abandons(_) =>
    }
  }

  lemma FixStep(h: History, w: World, e: Event, h': History, run: nat)
    requires e.Fixes? && e.run == run && Enabled(w, e) && SafeRun(h', w.runs[run])
    requires forall ref, c :: StandsOnPrimary(Apply(w, e), ref, c) ==> (ref, c) in h'
    ensures SafeRun(h', Apply(w, e).runs[run])
  {
    var w' := Apply(w, e);
    var a := w.runs[run].stage.fixes[w.runs[run].stage.tried];
    assert a in w.runs[run].stage.fixes;
    if e.ok {
      assert Lookup(RefsOn(w', w'.runs[run].primary), a.ref) == Some(a.target);
      assert StandsOnPrimary(w', a.ref, a.target);
    }
  }

  lemma SafeStep(h: History, w: World, e: Event, h': History)
    requires Safe(h, w) && Enabled(w, e) && h <= h'
    requires forall ref, c :: StandsOnPrimary(Apply(w, e), ref, c) ==> (ref, c) in h'
    ensures Safe(h', Apply(w, e))
  {
    var w' := Apply(w, e);
    forall run | run in w'.runs ensures SafeRun(h', w'.runs[run]) {
      if run in w.runs && w'.runs[run] == w.runs[run] {
        SafeRunStays(h, h', w.runs[run]);
      } else {
        OwnStep(h, w, e, h', run);
      }
    }
    forall n | n in w'.bases ensures Known(h', w'.bases[n]) {
      if e.Records? { assert SafeRun(h, w.runs[e.run]); }
    }
  }

  lemma HeldGrows(ws: seq<World>, k: nat)
    requires k + 1 < |ws|
    ensures Held(ws, k) <= Held(ws, k + 1)
    ensures forall ref, c :: StandsOnPrimary(ws[k + 1], ref, c) ==> (ref, c) in Held(ws, k + 1)
  {
    forall ref, c | PrimaryHeld(ws, k, ref, c) ensures PrimaryHeld(ws, k + 1, ref, c) {
      var i :| 0 <= i <= k && StandsOnPrimary(ws[i], ref, c);
    }
  }

  lemma {:induction false} SafeAlways(ws: seq<World>, es: seq<Event>, k: nat)
    requires Behaviour(ws, es) && k < |ws|
    ensures Safe(Held(ws, k), ws[k])
  {
    if k > 0 {
      SafeAlways(ws, es, k - 1);
      HeldGrows(ws, k - 1);
      SafeStep(Held(ws, k - 1), ws[k - 1], es[k - 1], Held(ws, k));
    }
  }

  // ----- the theorem -----

  /**
   * ForgeSync never overwrites work. Over every behaviour, whatever a step that is not a user's
   * changes on any node: a branch head it replaces is an ancestor of the new one, a tag is only
   * created or deleted, and what it deletes stood at a value some primary once held for that ref.
   */
  lemma NeverOverwritesWork(ws: seq<World>, es: seq<Event>, k: nat, n: Node, ref: Ref)
    requires Behaviour(ws, es) && k < |es| && !es[k].UserMoves?
    ensures
      var was, now := Lookup(RefsOn(ws[k], n), ref), Lookup(RefsOn(ws[k + 1], n), ref);
      was == now || was == None ||
      (now.Some? && !IsTag(ref) && Ancestor(was.value, now.value)) ||
      (now == None && PrimaryHeld(ws, k, ref, was.value))
  {
    SafeAlways(ws, es, k);
    var w, h := ws[k], Held(ws, k);
    match es[k] {
      case Pushes(run, landed, ok) =>
        var s := w.runs[run].stage;
        assert SafeRun(h, w.runs[run]) && s.actions[s.pushed] in s.actions;
      case Fixes(run, landed, ok) =>
        var s := w.runs[run].stage;
        assert SafeRun(h, w.runs[run]) && s.fixes[s.tried] in s.fixes;
      case _ =>
    }
  }

  /** And no base ever claims a value no primary held, so "deleted on the primary" is never made up. */
  lemma BasesAreHistory(ws: seq<World>, es: seq<Event>, k: nat, n: Node, ref: Ref)
    requires Behaviour(ws, es) && k < |ws| && ref in BaseOf(ws[k], n)
    ensures PrimaryHeld(ws, k, ref, BaseOf(ws[k], n)[ref])
  {
    SafeAlways(ws, es, k);
  }
}
