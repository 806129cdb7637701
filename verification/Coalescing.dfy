/**
 * One run at a time for each repository, and one more when something happened meanwhile: the
 * running/again flags that goroutines read and write under one lock.
 */
module Coalescing {

  /** What the two maps say about one repository. */
  datatype Flags = Flags(running: bool, again: bool)

  // The critical sections, as functions of one repository's flags.

  function AfterTrigger(f: Flags): Flags {
    if f.running then f.(again := true) else f
  }

  function AfterEnter(f: Flags): Flags {
    if f.running then f.(again := true) else f.(running := true)
  }

  /** Whether the run goes round once more; stop is a cancelled context, and for issues also a failed run. */
  predicate GoesRound(f: Flags, stop: bool) {
    f.again && !stop
  }

  function AfterPass(f: Flags, stop: bool): Flags {
    if GoesRound(f, stop) then f.(again := false) else Flags(false, false)
  }

  function AfterMissing(f: Flags): Flags {
    f.(running := false)
  }

  /** The maps as the engine holds them: only true is ever stored. */
  class Engine {
    var running: set<string>
    var again: set<string>

    constructor ()
      ensures running == {} && again == {}
    {
      running, again := {}, {};
    }

    ghost function Of(id: string): Flags
      reads this
    {
      Flags(id in running, id in again)
    }

    /** Trigger: true when it is for the caller to start a run. */
    method Trigger(id: string) returns (start: bool)
      modifies this`again
      ensures Of(id) == AfterTrigger(old(Of(id))) && start == !old(Of(id)).running
      ensures forall other :: other != id ==> Of(other) == old(Of(other))
    {
      var busy := id in running;
      if busy {
        again := again + {id};
      }
      return !busy;
    }

    /** The head of RunRepo: false is errBusy. */
    method Enter(id: string) returns (ok: bool)
      modifies this
      ensures Of(id) == AfterEnter(old(Of(id))) && ok == !old(Of(id)).running
      ensures forall other :: other != id ==> Of(other) == old(Of(other))
    {
      if id in running {
        again := again + {id};
        return false;
      }
      running := running + {id};
      return true;
    }

    /** After the passes: true goes round. */
    method Leave(id: string, cancelled: bool) returns (more: bool)
      modifies this
      ensures Of(id) == AfterPass(old(Of(id)), cancelled) && more == GoesRound(old(Of(id)), cancelled)
      ensures forall other :: other != id ==> Of(other) == old(Of(other))
    {
      if id !in again || cancelled {
        running := running - {id};
        again := again - {id};
        return false;
      }
      again := again - {id};
      return true;
    }

    /** The same in the issue syncer, which also stops when the run failed. */
    method LeaveIssues(id: string, cancelled: bool, failed: bool) returns (more: bool)
      modifies this
      ensures Of(id) == AfterPass(old(Of(id)), cancelled || failed) && more == GoesRound(old(Of(id)), cancelled || failed)
      ensures forall other :: other != id ==> Of(other) == old(Of(other))
    {
      if id !in again || cancelled || failed {
        running := running - {id};
        again := again - {id};
        return false;
      }
      again := again - {id};
      return true;
    }

    /** The record is gone. */
    method Forget(id: string)
      modifies this`running
      ensures Of(id) == AfterMissing(old(Of(id)))
      ensures forall other :: other != id ==> Of(other) == old(Of(other))
    {
      running := running - {id};
    }
  }

  // ----- the goroutines of one repository, interleaved -----

  datatype Phase =
    | Entering   // at RunRepo's first lock
    | Passing    // inside runPasses
    | Fetching   // between two rounds, reading the record again
    | Leaving    // the record was not found; at the last lock
    | Returned

  /** owed: something was triggered and no pass has begun since. */
  datatype World = World(flags: Flags, gs: seq<Phase>, owed: bool)

  datatype Step =
    | Trigger                     // a webhook or a person; starts a goroutine when nothing runs
    | Schedule                    // the periodic round starts one
    | Enter(g: nat)
    | EndPasses(g: nat, stop: bool)
    | Fetch(g: nat, found: bool)
    | Forget(g: nat)

  predicate At(w: World, g: nat, p: Phase) {
    g < |w.gs| && w.gs[g] == p
  }

  predicate Enabled(w: World, e: Step) {
    match e
    case Trigger => true
    case Schedule => true
    case Enter(g) => At(w, g, Entering)
    case EndPasses(g, _) => At(w, g, Passing)
    case Fetch(g, _) => At(w, g, Fetching)
    case Forget(g) => At(w, g, Leaving)
  }

  function Apply(w: World, e: Step): World
    requires Enabled(w, e)
  {
    match e
    case Trigger => World(AfterTrigger(w.flags), if w.flags.running then w.gs else w.gs + [Entering], true)
    case Schedule => w.(gs := w.gs + [Entering])
    case Enter(g) =>
      if w.flags.running then World(AfterEnter(w.flags), w.gs[g := Returned], w.owed)
      else World(AfterEnter(w.flags), w.gs[g := Passing], false)
    case EndPasses(g, stop) => World(AfterPass(w.flags, stop), w.gs[g := if GoesRound(w.flags, stop) then Fetching else Returned], w.owed)
    case Fetch(g, found) => if found then World(w.flags, w.gs[g := Passing], false) else w.(gs := w.gs[g := Leaving])
    case Forget(g) => World(AfterMissing(w.flags), w.gs[g := Returned], w.owed)
  }

  /** This step is where a goroutine goes into runPasses. */
  predicate BeginsPass(w: World, e: Step) {
    (e.Enter? && !w.flags.running) || (e.Fetch? && e.found)
  }

  predicate Holds(p: Phase) {
    p == Passing || p == Fetching || p == Leaving
  }

  /** The flag says running exactly when one goroutine holds the repository, and no two ever do. */
  ghost predicate OneHolder(w: World) {
    && (w.flags.running <==> exists g :: 0 <= g < |w.gs| && Holds(w.gs[g]))
    && forall g, h :: 0 <= g < h < |w.gs| ==> !(Holds(w.gs[g]) && Holds(w.gs[h]))
  }

  predicate SomeoneIs(w: World, p: Phase) {
    exists g :: 0 <= g < |w.gs| && w.gs[g] == p
  }

  /** Whatever is owed, somebody is on the way to it. */
  ghost predicate Covered(w: World) {
    w.owed ==> SomeoneIs(w, Entering) || SomeoneIs(w, Fetching) || (w.flags.again && SomeoneIs(w, Passing))
  }

  ghost predicate Behaviour(ws: seq<World>, es: seq<Step>) {
    && |ws| == |es| + 1
    && ws[0] == World(Flags(false, false), [], false)
    && forall i :: 0 <= i < |es| ==> Enabled(ws[i], es[i]) && ws[i + 1] == Apply(ws[i], es[i])
  }

  lemma OneHolderStep(w: World, e: Step)
    requires OneHolder(w) && Enabled(w, e)
    ensures OneHolder(Apply(w, e))
  {
    var t := Apply(w, e);
    match e {
      case Trigger => SameHolders(w, t);
      case Schedule => SameHolders(w, t);
      case Enter(g) =>
        if w.flags.running { SameHolders(w, t); } else { assert Holds(t.gs[g]); }
      case EndPasses(g, stop) =>
        if GoesRound(w.flags, stop) { SameHolders(w, t); }
      case Fetch(g, found) => SameHolders(w, t);
      case Forget(g) =>
    }
  }

  lemma SameHolders(w: World, t: World)
    requires OneHolder(w) && t.flags.running == w.flags.running && |t.gs| >= |w.gs|
    requires forall g :: 0 <= g < |t.gs| ==> (Holds(t.gs[g]) <==> g < |w.gs| && Holds(w.gs[g]))
    ensures OneHolder(t)
  {
    if w.flags.running {
      var g :| 0 <= g < |w.gs| && Holds(w.gs[g]);
      assert Holds(t.gs[g]);
    }
  }

  /** In every interleaving, whatever is cancelled or missing, at most one goroutine is inside runPasses. */
  lemma {:induction false} OnePassAtATime(ws: seq<World>, es: seq<Step>, k: nat)
    requires Behaviour(ws, es) && k <= |es|
    ensures OneHolder(ws[k])
    ensures forall g, h :: 0 <= g < h < |ws[k].gs| ==> !(ws[k].gs[g] == Passing && ws[k].gs[h] == Passing)
  {
    if k > 0 {
      OnePassAtATime(ws, es, k - 1);
      OneHolderStep(ws[k - 1], es[k - 1]);
    }
  }

  predicate OthersEnter(w: World, e: Step) {
    exists h :: 0 <= h < |w.gs| && w.gs[h] == Entering && e != Enter(h)
  }

  /**
   * Exactly what loses a wake-up, while no other goroutine is about to start: a run that stops
   * although it was told to go round again, a record that is gone, and asking for another round
   * after that but before the flag is cleared.
   */
  predicate Loses(w: World, e: Step) {
    && (w.owed || e.Trigger?) && !OthersEnter(w, e)
    && match e
       case Trigger => SomeoneIs(w, Leaving)
       case Enter(_) => SomeoneIs(w, Leaving)
       case EndPasses(_, stop) => stop && w.flags.again
       case Fetch(_, found) => !found
       case _ => false
  }

  lemma OnlyHolder(w: World, g: nat, p: Phase)
    requires OneHolder(w) && g < |w.gs| && Holds(w.gs[g]) && Holds(p) && p != w.gs[g]
    ensures !SomeoneIs(w, p) && SomeoneIs(w, w.gs[g])
  {
  }

  lemma HolderIs(w: World)
    requires OneHolder(w)
    ensures w.flags.running <==> SomeoneIs(w, Passing) || SomeoneIs(w, Fetching) || SomeoneIs(w, Leaving)
    ensures !(SomeoneIs(w, Passing) && SomeoneIs(w, Fetching)) &&
      !(SomeoneIs(w, Passing) && SomeoneIs(w, Leaving)) && !(SomeoneIs(w, Fetching) && SomeoneIs(w, Leaving))
  {
    if w.flags.running {
      var g :| 0 <= g < |w.gs| && Holds(w.gs[g]);
      assert SomeoneIs(w, w.gs[g]);
    }
  }

  /** Who is where after a step that moves one goroutine. */
  lemma Moved(w: World, t: World, g: nat, p: Phase)
    requires |t.gs| == |w.gs| && g < |w.gs| && t.gs == w.gs[g := t.gs[g]]
    ensures SomeoneIs(t, p) <==> t.gs[g] == p || exists h :: 0 <= h < |w.gs| && h != g && w.gs[h] == p
  {
    if exists h :: 0 <= h < |w.gs| && h != g && w.gs[h] == p {
      var h :| 0 <= h < |w.gs| && h != g && w.gs[h] == p;
      assert t.gs[h] == p;
    }
    if SomeoneIs(t, p) && t.gs[g] != p {
      var h :| 0 <= h < |t.gs| && t.gs[h] == p;
      assert w.gs[h] == p;
    }
  }

  lemma Elsewhere(w: World, g: nat, p: Phase)
    requires g < |w.gs| && w.gs[g] != p
    ensures SomeoneIs(w, p) <==> exists h :: 0 <= h < |w.gs| && h != g && w.gs[h] == p
  {
  }

  lemma CoveredTrigger(w: World)
    requires OneHolder(w)
    ensures Covered(Apply(w, Trigger)) <==> !Loses(w, Trigger)
  {
    var t := Apply(w, Trigger);
    HolderIs(w);
    if w.flags.running {
      assert t.gs == w.gs && t.flags.again;
      assert OthersEnter(w, Trigger) <==> SomeoneIs(w, Entering);
    } else {
      assert t.gs[|w.gs|] == Entering;
    }
  }

  lemma CoveredEnter(w: World, g: nat)
    requires OneHolder(w) && Covered(w) && At(w, g, Entering)
    ensures Covered(Apply(w, Enter(g))) <==> !Loses(w, Enter(g))
  {
    var t := Apply(w, Enter(g));
    HolderIs(w);
    if w.flags.running {
      Moved(w, t, g, Entering);
      Moved(w, t, g, Fetching);
      Moved(w, t, g, Passing);
      Elsewhere(w, g, Fetching);
      Elsewhere(w, g, Passing);
    }
  }

  lemma CoveredEnd(w: World, g: nat, stop: bool)
    requires OneHolder(w) && Covered(w) && At(w, g, Passing)
    ensures Covered(Apply(w, EndPasses(g, stop))) <==> !Loses(w, EndPasses(g, stop))
  {
    var e := EndPasses(g, stop);
    var t := Apply(w, e);
    OnlyHolder(w, g, Fetching);
    Moved(w, t, g, Entering);
    Moved(w, t, g, Fetching);
    Elsewhere(w, g, Entering);
    assert OthersEnter(w, e) <==> SomeoneIs(w, Entering);
  }

  lemma CoveredFetch(w: World, g: nat, found: bool)
    requires OneHolder(w) && Covered(w) && At(w, g, Fetching)
    ensures Covered(Apply(w, Fetch(g, found))) <==> !Loses(w, Fetch(g, found))
  {
    var e := Fetch(g, found);
    var t := Apply(w, e);
    OnlyHolder(w, g, Passing);
    Moved(w, t, g, Entering);
    Moved(w, t, g, Fetching);
    Moved(w, t, g, Passing);
    Elsewhere(w, g, Entering);
    assert OthersEnter(w, e) <==> SomeoneIs(w, Entering);
  }

  lemma CoveredForget(w: World, g: nat)
    requires OneHolder(w) && Covered(w) && At(w, g, Leaving)
    ensures Covered(Apply(w, Forget(g)))
  {
    OnlyHolder(w, g, Fetching);
    OnlyHolder(w, g, Passing);
    Moved(w, Apply(w, Forget(g)), g, Entering);
    Elsewhere(w, g, Entering);
  }

  lemma CoveredStep(w: World, e: Step)
    requires OneHolder(w) && Covered(w) && Enabled(w, e)
    ensures Covered(Apply(w, e)) <==> !Loses(w, e)
  {
    match e {
      case Trigger => CoveredTrigger(w);
      case Schedule => assert Apply(w, e).gs[|w.gs|] == Entering;
      case Enter(g) => CoveredEnter(w, g);
      case EndPasses(g, stop) => CoveredEnd(w, g, stop);
      case Fetch(g, found) => CoveredFetch(w, g, found);
      case Forget(g) => CoveredForget(w, g);
    }
  }

  /** No context is cancelled, no run fails where that matters, and the record exists. */
  predicate Healthy(e: Step) {
    (e.EndPasses? ==> !e.stop) && (e.Fetch? ==> e.found)
  }

  lemma LeavingStays(w: World, e: Step)
    requires Enabled(w, e) && Healthy(e)
    ensures SomeoneIs(Apply(w, e), Leaving) ==> SomeoneIs(w, Leaving)
  {
    if SomeoneIs(Apply(w, e), Leaving) {
      var g :| 0 <= g < |Apply(w, e).gs| && Apply(w, e).gs[g] == Leaving;
      assert g < |w.gs| && w.gs[g] == Leaving;
    }
  }

  lemma {:induction false} AlwaysCovered(ws: seq<World>, es: seq<Step>, k: nat)
    requires Behaviour(ws, es) && k <= |es| && forall i :: 0 <= i < |es| ==> Healthy(es[i])
    ensures OneHolder(ws[k]) && Covered(ws[k]) && !SomeoneIs(ws[k], Leaving)
  {
    if k > 0 {
      AlwaysCovered(ws, es, k - 1);
      OneHolderStep(ws[k - 1], es[k - 1]);
      CoveredStep(ws[k - 1], es[k - 1]);
      LeavingStays(ws[k - 1], es[k - 1]);
    }
  }

  lemma {:induction false} OwedUntilBegun(ws: seq<World>, es: seq<Step>, k: nat, m: nat)
    requires Behaviour(ws, es) && k < m <= |es| && es[k] == Trigger
    requires forall j :: k < j < m ==> !BeginsPass(ws[j], es[j])
    ensures ws[m].owed
    decreases m
  {
    if m > k + 1 {
      OwedUntilBegun(ws, es, k, m - 1);
    }
  }

  /** Nobody is doing anything for this repository any more. */
  predicate Quiet(w: World) {
    forall g :: 0 <= g < |w.gs| ==> w.gs[g] == Returned
  }

  /** No wake-up is lost: once everything has come to rest, every Trigger, busy or not, was followed by the start of a pass. */
  lemma EveryTriggerIsServed(ws: seq<World>, es: seq<Step>, k: nat)
    requires Behaviour(ws, es) && forall i :: 0 <= i < |es| ==> Healthy(es[i])
    requires k < |es| && es[k] == Trigger && Quiet(ws[|es|])
    ensures exists j :: k < j < |es| && BeginsPass(ws[j], es[j])
  {
    AlwaysCovered(ws, es, |es|);
    if forall j :: k < j < |es| ==> !BeginsPass(ws[j], es[j]) {
      OwedUntilBegun(ws, es, k, |es|);
    }
  }

  // ----- when one is lost -----

  predicate Asks(e: Step) {
    e.Trigger? || e.Schedule?
  }

  /** What nobody is on the way to stays so while nobody asks: no pass begins. */
  lemma LostStaysLost(w: World, e: Step)
    requires !Covered(w) && Enabled(w, e) && !Asks(e)
    ensures !BeginsPass(w, e) && !Covered(Apply(w, e))
  {
  }

  lemma {:induction false} NoPassAfterLost(ws: seq<World>, es: seq<Step>, k: nat)
    requires Behaviour(ws, es) && k <= |es| && !Covered(ws[k]) && forall i :: k <= i < |es| ==> !Asks(es[i])
    ensures forall j :: k <= j < |es| ==> !BeginsPass(ws[j], es[j])
    decreases |es| - k
  {
    if k < |es| {
      LostStaysLost(ws[k], es[k]);
      NoPassAfterLost(ws, es, k + 1);
    }
  }

  /** A losing step, before any pass has begun since. */
  ghost predicate LostAt(ws: seq<World>, es: seq<Step>, k: nat, m: nat)
    requires Behaviour(ws, es)
  {
    k <= m < |es| && Loses(ws[m], es[m]) && forall j :: k < j < m ==> !BeginsPass(ws[j], es[j])
  }

  /** From a Trigger on, as long as nobody asks again, either a step lost it or somebody is on the way. */
  lemma {:induction false} CoveredUntilLost(ws: seq<World>, es: seq<Step>, k: nat, m: nat)
    requires Behaviour(ws, es) && k < m <= |es| && es[k] == Trigger && forall i :: k < i < |es| ==> !Asks(es[i])
    ensures Covered(ws[m]) || exists l :: k <= l < m && Loses(ws[l], es[l])
    decreases m
  {
    OnePassAtATime(ws, es, m - 1);
    if m == k + 1 {
      CoveredTrigger(ws[k]);
    } else {
      CoveredUntilLost(ws, es, k, m - 1);
      if Covered(ws[m - 1]) { CoveredStep(ws[m - 1], es[m - 1]); }
    }
  }

  /** After a losing step nobody is on the way, whether or not that was so before. */
  lemma NotCoveredAfter(ws: seq<World>, es: seq<Step>, k: nat, m: nat)
    requires Behaviour(ws, es) && k <= m < |es| && es[k] == Trigger && Loses(ws[m], es[m])
    requires forall i :: k < i < |es| ==> !Asks(es[i])
    ensures !Covered(ws[m + 1]) && (k < m ==> !BeginsPass(ws[m], es[m]))
  {
    OnePassAtATime(ws, es, m);
    if m == k {
      CoveredTrigger(ws[k]);
    } else if Covered(ws[m]) {
      CoveredStep(ws[m], es[m]);
      HolderIs(ws[m]);
    } else {
      LostStaysLost(ws[m], es[m]);
    }
  }

  /** A Trigger that nobody follows up is never followed by a pass if and only if some step before the first pass lost it. */
  lemma LostExactlyWhen(ws: seq<World>, es: seq<Step>, k: nat)
    requires Behaviour(ws, es) && k < |es| && es[k] == Trigger && Quiet(ws[|es|])
    requires forall i :: k < i < |es| ==> !Asks(es[i])
    ensures (forall j :: k < j < |es| ==> !BeginsPass(ws[j], es[j])) <==> exists m :: LostAt(ws, es, k, m)
  {
    if m: nat :| LostAt(ws, es, k, m) {
      NotCoveredAfter(ws, es, k, m);
      NoPassAfterLost(ws, es, m + 1);
    }
    if forall j :: k < j < |es| ==> !BeginsPass(ws[j], es[j]) {
      OwedUntilBegun(ws, es, k, |es|);
      CoveredUntilLost(ws, es, k, |es|);
      var l :| k <= l < |es| && Loses(ws[l], es[l]);
      assert LostAt(ws, es, k, l);
    }
  }

  /** It happens: a Trigger during a pass of a scheduled run, which is then stopped, leaves nothing running and nothing to come. */
  lemma StoppedRunLosesAWakeUp(ws: seq<World>, es: seq<Step>)
    requires es == [Schedule, Enter(0), Trigger, EndPasses(0, true)]
    requires
      ws == [World(Flags(false, false), [], false), World(Flags(false, false), [Entering], false),
             World(Flags(true, false), [Passing], false), World(Flags(true, true), [Passing], true),
             World(Flags(false, false), [Returned], true)]
    ensures Behaviour(ws, es) && Quiet(ws[4]) && LostAt(ws, es, 2, 3)
    ensures forall j :: 2 < j < 4 ==> !BeginsPass(ws[j], es[j])
  {
    assert [Entering][0 := Passing] == [Passing] && [Passing][0 := Returned] == [Returned];
    forall i | 0 <= i < |es| ensures Enabled(ws[i], es[i]) && ws[i + 1] == Apply(ws[i], es[i]) {
      assert i == 0 || i == 1 || i == 2 || i == 3;
    }
  }

  // ----- and it does come to rest -----

  function Weight(p: Phase): nat {
    match p
    case Entering => 5
    case Passing => 1
    case Fetching => 2
    case Leaving => 1
    case Returned => 0
  }

  function Weights(gs: seq<Phase>): nat {
    if gs == [] then 0 else Weight(gs[0]) + Weights(gs[1..])
  }

  /** The work left: how many more steps the goroutines there are can take. */
  function Work(w: World): nat {
    Weights(w.gs) + if w.flags.again then 3 else 0
  }

  lemma {:induction false} WeightsMoved(gs: seq<Phase>, g: nat, p: Phase)
    requires g < |gs|
    ensures Weights(gs[g := p]) == Weights(gs) - Weight(gs[g]) + Weight(p)
  {
    if g == 0 {
      assert gs[0 := p][1..] == gs[1..];
    } else {
      assert gs[g := p][1..] == gs[1..][g - 1 := p];
      WeightsMoved(gs[1..], g - 1, p);
    }
  }

  /** Every step a goroutine takes leaves less to do, and none of them waits: a goroutine that has not returned has a step. */
  lemma WorkShrinks(w: World, e: Step)
    requires Enabled(w, e) && !Asks(e)
    ensures Work(Apply(w, e)) < Work(w)
  {
    var g := match e case Enter(g) => g case EndPasses(g, _) => g case Fetch(g, _) => g case Forget(g) => g;
    WeightsMoved(w.gs, g, Apply(w, e).gs[g]);
  }

  lemma SomeStep(w: World)
    requires !Quiet(w)
    ensures exists e :: Enabled(w, e) && Healthy(e) && !Asks(e)
  {
    var g :| 0 <= g < |w.gs| && w.gs[g] != Returned;
    match w.gs[g] {
      case Entering => assert Enabled(w, Enter(g)) && Healthy(Enter(g));
      case Passing => assert Enabled(w, EndPasses(g, false)) && Healthy(EndPasses(g, false));
      case Fetching => assert Enabled(w, Fetch(g, true)) && Healthy(Fetch(g, true));
      case Leaving => assert Enabled(w, Forget(g)) && Healthy(Forget(g));
    }
  }

  /** With nothing new asked for, at most Work steps remain. */
  lemma {:induction false} ComesToRest(ws: seq<World>, es: seq<Step>, k: nat)
    requires Behaviour(ws, es) && k <= |es| && forall i :: k <= i < |es| ==> !Asks(es[i])
    ensures Work(ws[|es|]) + (|es| - k) <= Work(ws[k])
    decreases |es| - k
  {
    if k < |es| {
      WorkShrinks(ws[k], es[k]);
      ComesToRest(ws, es, k + 1);
    }
  }
}
