/**
 * The election as a protocol: any number of controllers, one row, real time.
 *
 * Every controller's clock is real time plus an offset nobody knows, and so is the database's.
 * A request reaches the database after any delay and its answer comes back after any delay or
 * never; a controller may crash between any two steps, with a request still on its way. A
 * statement's now() is any instant between its being sent and its taking effect, as it is
 * when a statement has to wait for the row.
 */
module Election {
  import opened Optional
  import opened Leadership
  import opened Elector

  /** Where a controller is between two rounds of its loop. Instants are on its own clock. */
  datatype Phase =
    | Idle
    | Acquiring(sent: Instant)              // the upsert is on its way
    | Reading(sent: Instant)                // it matched no row: the row is being read instead
    | Arriving(sent: Instant, lease: Lease) // the answer is on its way back
    | Deciding                              // adopted and leading: whether to hand over is being asked
    | Releasing(asked: Instant, stops: bool)
    | Confirming(stops: bool)               // the release took effect; its answer is on its way
    | Stopped

  datatype Controller = Controller(name: string, offset: int, ttl: int, renew: int, standing: Standing, phase: Phase, alive: bool)

  datatype World = World(time: Instant, dbOffset: int, row: Option<Row>, controllers: map<string, Controller>)

  datatype Event =
    | Tick(d: nat)
    | Start(id: string, name: string, offset: int, ttl: int, renew: int)
    | Begin(id: string)
    | UpsertRuns(id: string, now: Instant)
    | SelectRuns(id: string, now: Instant)
    | Arrives(id: string)
    | Fails(id: string)        // the call returned an error: it takes no effect from here on
    | Keeps(id: string)        // nobody preferred is back
    | Yields(id: string)       // handOver: up to sending the release
    | ReleaseRuns(id: string, now: Instant)
    | ReleaseReturns(id: string) // with or without an error
    | Shutdown(id: string)     // the context ended: stepDown
    | Crash(id: string)

  ghost predicate Initial(w: World) {
    w.row == None && w.controllers == map[]
  }

  function Local(w: World, c: Controller): Instant {
    w.time + c.offset
  }

  predicate Leading(w: World, id: string) {
    id in w.controllers && w.controllers[id].alive && Leads(w.controllers[id].standing, Local(w, w.controllers[id]))
  }

  /** now() of a statement asked for at a local instant and running at this moment. */
  predicate SqlNow(w: World, c: Controller, asked: Instant, now: Instant) {
    asked - c.offset + w.dbOffset <= now <= w.time + w.dbOffset
  }

  predicate Runs(w: World, id: string) {
    id in w.controllers && w.controllers[id].alive
  }

  predicate Enabled(w: World, e: Event) {
    match e
    case Tick(_) => true
    case Start(id, _, _, ttl, renew) => id != "" && id !in w.controllers && ttl > 0 && 0 <= renew < ttl
    case Begin(id) => Runs(w, id) && var c := w.controllers[id]; c.phase == Idle && !Waits(c.standing, Local(w, c))
    case UpsertRuns(id, now) => id in w.controllers && var c := w.controllers[id]; c.phase.Acquiring? && SqlNow(w, c, c.phase.sent, now)
    case SelectRuns(id, now) => id in w.controllers && var c := w.controllers[id]; c.phase.Reading? && SqlNow(w, c, c.phase.sent, now)
    case Arrives(id) => Runs(w, id) && w.controllers[id].phase.Arriving?
    case Fails(id) => Runs(w, id) && var p := w.controllers[id].phase; p.Acquiring? || p.Reading? || p.Arriving?
    case Keeps(id) => Runs(w, id) && w.controllers[id].phase.Deciding?
    case Yields(id) => Runs(w, id) && w.controllers[id].phase.Deciding?
    case ReleaseRuns(id, now) => id in w.controllers && var c := w.controllers[id]; c.phase.Releasing? && SqlNow(w, c, c.phase.asked, now)
    case ReleaseReturns(id) => Runs(w, id) && var p := w.controllers[id].phase; p.Releasing? || p.Confirming?
    case Shutdown(id) => Runs(w, id) && w.controllers[id].phase == Idle
    case Crash(id) => Runs(w, id)
  }

  function With(w: World, id: string, c: Controller): World {
    w.(controllers := w.controllers[id := c])
  }

  function Apply(w: World, e: Event): World
    requires Enabled(w, e)
  {
    match e
    case Tick(d) => w.(time := w.time + d)
    case Start(id, name, offset, ttl, renew) => With(w, id, Controller(name, offset, ttl, renew, OUTSIDE, Idle, true))
    case Begin(id) => var c := w.controllers[id]; With(w, id, c.(phase := Acquiring(Local(w, c))))
    case UpsertRuns(id, now) =>
      var c := w.controllers[id];
      if Free(w.row, id, now) then
        var row := Some(Taken(w.row, id, c.name, c.ttl, now));
        With(w, id, c.(phase := Arriving(c.phase.sent, Read(row, now)))).(row := row)
      else
        With(w, id, c.(phase := Reading(c.phase.sent)))
    case SelectRuns(id, now) => var c := w.controllers[id]; With(w, id, c.(phase := Arriving(c.phase.sent, Read(w.row, now))))
    case Arrives(id) =>
      var c := w.controllers[id];
      var s := Adopted(c.standing, id, c.phase.sent, c.phase.lease);
      With(w, id, c.(standing := s, phase := if Leads(s, Local(w, c)) then Deciding else Idle))
    case Fails(id) => With(w, id, w.controllers[id].(phase := Idle))
    case Keeps(id) => With(w, id, w.controllers[id].(phase := Idle))
    case Yields(id) =>
      var c := w.controllers[id];
      With(w, id, c.(standing := HandedOver(c.standing, c.ttl, c.renew, Local(w, c)), phase := Releasing(Local(w, c), false)))
    case ReleaseRuns(id, now) =>
      var c := w.controllers[id];
      With(w, id, c.(phase := Confirming(c.phase.stops))).(row := Released(w.row, id, now))
    case ReleaseReturns(id) => var c := w.controllers[id]; With(w, id, c.(phase := if c.phase.stops then Stopped else Idle))
    case Shutdown(id) =>
      var c := w.controllers[id];
      if Leads(c.standing, Local(w, c))
      then With(w, id, c.(standing := c.standing.(until := None), phase := Releasing(Local(w, c), true)))
      else With(w, id, c.(phase := Stopped))
    case Crash(id) => With(w, id, w.controllers[id].(alive := false))
  }

  predicate Possible(w: World, es: seq<Event>)
    decreases |es|
  {
    es == [] || (Enabled(w, es[0]) && Possible(Apply(w, es[0]), es[1..]))
  }

  function Run(w: World, es: seq<Event>): World
    requires Possible(w, es)
    decreases |es|
  {
    if es == [] then w else Run(Apply(w, es[0]), es[1..])
  }

  // ----- the invariant -----

  predicate Asking(p: Phase) {
    p.Acquiring? || p.Reading? || p.Arriving?
  }

  /** The latest local instant a lease this controller knows of can have been counted from. */
  function LastCount(w: World, c: Controller): Instant {
    if Asking(c.phase) then c.phase.sent else Local(w, c)
  }

  /** The row still covers its holder up to an instant of the database's clock, unless that has passed. */
  predicate Covers(w: World, id: string, expiry: Instant) {
    expiry <= w.time + w.dbOffset || (w.row.Some? && w.row.value.holder == id && expiry <= w.row.value.expiresAt)
  }

  predicate Sound(w: World, id: string, c: Controller) {
    && id != "" && c.ttl > 0 && 0 <= c.renew < c.ttl
    && LastCount(w, c) <= Local(w, c)
    && (c.standing.until.Some? ==>
          && Covers(w, id, c.standing.until.value - c.offset + w.dbOffset)
          && c.standing.until.value <= LastCount(w, c) + c.ttl)
    && (c.phase.Reading? ==> w.row.Some? && w.row.value.holder != id)
    && (c.phase.Arriving? && c.phase.lease.Held() && c.phase.lease.holder == id ==>
          && Covers(w, id, c.phase.lease.expiresAt)
          && c.phase.sent - c.offset + w.dbOffset <= c.phase.lease.now
          && c.phase.lease.For() == c.ttl)
    && (c.phase.Arriving? && Leads(c.standing, Local(w, c)) ==> c.phase.lease.Held() && c.phase.lease.holder == id)
    && (c.phase.Releasing? || c.phase.Confirming? ==> c.standing.until == None)
    && (Waits(c.standing, Local(w, c)) ==> c.standing.until == None && !Asking(c.phase) && !c.phase.Deciding?)
  }

  ghost predicate Good(w: World) {
    forall id :: id in w.controllers ==> Sound(w, id, w.controllers[id])
  }

  lemma UpsertKeepsOwn(w: World, id: string, now: Instant)
    requires Enabled(w, UpsertRuns(id, now)) && Sound(w, id, w.controllers[id])
    ensures var w' := Apply(w, UpsertRuns(id, now)); Sound(w', id, w'.controllers[id])
  {
  }

  /** Another controller's row is taken only once it has run out, so nobody's cover is lost. */
  lemma UpsertKeepsOther(w: World, id: string, now: Instant, other: string)
    requires Enabled(w, UpsertRuns(id, now)) && other in w.controllers && other != id
    requires id != "" && Sound(w, other, w.controllers[other])
    ensures var w' := Apply(w, UpsertRuns(id, now)); other in w'.controllers && Sound(w', other, w'.controllers[other])
  {
  }

  lemma UpsertStep(w: World, id: string, now: Instant)
    requires Good(w) && Enabled(w, UpsertRuns(id, now))
    ensures Good(Apply(w, UpsertRuns(id, now)))
  {
    var w' := Apply(w, UpsertRuns(id, now));
    assert Sound(w, id, w.controllers[id]);
    forall other | other in w'.controllers ensures Sound(w', other, w'.controllers[other]) {
      assert other in w.controllers && Sound(w, other, w.controllers[other]);
      if other == id { UpsertKeepsOwn(w, id, now); } else { UpsertKeepsOther(w, id, now, other); }
    }
  }

  lemma ReleaseStep(w: World, id: string, now: Instant)
    requires Good(w) && Enabled(w, ReleaseRuns(id, now))
    ensures Good(Apply(w, ReleaseRuns(id, now)))
  {
    var w' := Apply(w, ReleaseRuns(id, now));
    forall other | other in w'.controllers ensures Sound(w', other, w'.controllers[other]) {
      assert other in w.controllers && Sound(w, other, w.controllers[other]);
    }
  }

  /** Where the row and a controller stay as they are, time passing harms nothing. */
  lemma Untouched(w: World, w': World, id: string)
    requires id in w.controllers && id in w'.controllers && w'.controllers[id] == w.controllers[id] && Sound(w, id, w.controllers[id])
    requires w'.row == w.row && w'.dbOffset == w.dbOffset && w'.time >= w.time
    ensures Sound(w', id, w'.controllers[id])
  {
  }

  lemma OwnAsking(w: World, e: Event)
    requires Enabled(w, e) && (e.Begin? || e.SelectRuns? || e.Arrives? || e.Fails?) && Sound(w, e.id, w.controllers[e.id])
    ensures Sound(Apply(w, e), e.id, Apply(w, e).controllers[e.id])
  {
  }

  lemma OwnLeaving(w: World, e: Event)
    requires Enabled(w, e) && (e.Keeps? || e.Yields? || e.ReleaseReturns? || e.Shutdown? || e.Crash?) &&
      Sound(w, e.id, w.controllers[e.id])
    ensures Sound(Apply(w, e), e.id, Apply(w, e).controllers[e.id])
  {
  }

  lemma RowStays(w: World, e: Event, id: string)
    requires Enabled(w, e) && !e.UpsertRuns? && !e.ReleaseRuns? && id in Apply(w, e).controllers
    requires id in w.controllers ==> Sound(w, id, w.controllers[id])
    ensures Sound(Apply(w, e), id, Apply(w, e).controllers[id])
  {
    if e.Tick? || id != e.id {
      Untouched(w, Apply(w, e), id);
    } else if e.Begin? || e.SelectRuns? || e.Arrives? || e.Fails? {
      OwnAsking(w, e);
    } else if !e.Start? {
      OwnLeaving(w, e);
    }
  }

  /** What every step of the protocol keeps. */
  lemma StepKeepsGood(w: World, e: Event)
    requires Good(w) && Enabled(w, e)
    ensures Good(Apply(w, e))
  {
    match e {
      case UpsertRuns(id, now) => UpsertStep(w, id, now);
      case ReleaseRuns(id, now) => ReleaseStep(w, id, now);
      case _ =>
        forall id | id in Apply(w, e).controllers ensures Sound(Apply(w, e), id, Apply(w, e).controllers[id]) {
          assert id in w.controllers ==> Sound(w, id, w.controllers[id]);
          RowStays(w, e, id);
        }
    }
  }

  lemma {:induction false} RunKeepsGood(w: World, es: seq<Event>)
    requires Good(w) && Possible(w, es)
    ensures Good(Run(w, es))
    decreases |es|
  {
    if es != [] {
      StepKeepsGood(w, es[0]);
      RunKeepsGood(Apply(w, es[0]), es[1..]);
    }
  }

  // ----- the theorems -----

  /** A leader's own deadline never lies beyond the database's expiry for it. */
  lemma LeaseOutlastsLeader(w0: World, es: seq<Event>, id: string)
    requires Initial(w0) && Possible(w0, es) && Leading(Run(w0, es), id)
    ensures
      var w := Run(w0, es);
      var c := w.controllers[id];
      w.row.Some? && w.row.value.holder == id && c.standing.until.value - c.offset <= w.row.value.expiresAt - w.dbOffset
  {
    RunKeepsGood(w0, es);
    assert Sound(Run(w0, es), id, Run(w0, es).controllers[id]);
  }

  /** At every moment of every run, at most one controller leads. */
  lemma OneLeader(w0: World, es: seq<Event>, a: string, b: string)
    requires Initial(w0) && Possible(w0, es)
    requires Leading(Run(w0, es), a) && Leading(Run(w0, es), b)
    ensures a == b
  {
    LeaseOutlastsLeader(w0, es, a);
    LeaseOutlastsLeader(w0, es, b);
  }

  /**
   * An answer counts from its request: a leader that is answered leads from then on until its request
   * went out plus a whole lease, which is never before the deadline it had, so there is no gap.
   */
  lemma RenewalExtends(w0: World, es: seq<Event>, id: string)
    requires Initial(w0) && Possible(w0, es) && Enabled(Run(w0, es), Arrives(id)) && Leading(Run(w0, es), id)
    ensures
      var w := Run(w0, es); var c := w.controllers[id]; var after := Apply(w, Arrives(id));
      && after.controllers[id].standing.until == Some(c.phase.sent + c.ttl)
      && c.standing.until.value <= c.phase.sent + c.ttl && Leading(after, id)
  {
    RunKeepsGood(w0, es);
    assert Sound(Run(w0, es), id, Run(w0, es).controllers[id]);
  }

  predicate StepsAside(e: Event, id: string) {
    e == Yields(id) || e == Shutdown(id) || e == Crash(id)
  }

  /** A leader's deadline only moves on, unless it steps aside. */
  lemma {:induction false} DeadlineGrows(w: World, es: seq<Event>, id: string, deadline: Instant)
    requires Good(w) && Possible(w, es) && id in w.controllers && forall e :: e in es ==> !StepsAside(e, id)
    requires w.controllers[id].alive && w.controllers[id].standing.until.Some? && deadline <= w.controllers[id].standing.until.value
    requires id in Run(w, es).controllers && Local(Run(w, es), Run(w, es).controllers[id]) < deadline
    ensures Leading(Run(w, es), id)
    decreases |es|
  {
    if es != [] {
      var w1 := Apply(w, es[0]);
      assert es[0] in es && Sound(w, id, w.controllers[id]);
      StepKeepsGood(w, es[0]);
      TimeGrows(w1, es[1..], id);
      DeadlineGrows(w1, es[1..], id, deadline);
    }
  }

  lemma {:induction false} TimeGrows(w: World, es: seq<Event>, id: string)
    requires Possible(w, es) && id in w.controllers
    ensures id in Run(w, es).controllers && Run(w, es).time >= w.time && Run(w, es).controllers[id].offset == w.controllers[id].offset
    decreases |es|
  {
    if es != [] { TimeGrows(Apply(w, es[0]), es[1..], id); }
  }

  /** So a leader that was answered leads for a whole lease from its request, whatever anybody else does, unless it steps aside. */
  lemma RenewedLeadsOn(w0: World, before: seq<Event>, id: string, after: seq<Event>)
    requires Initial(w0) && Possible(w0, before) && Enabled(Run(w0, before), Arrives(id)) && Leading(Run(w0, before), id)
    requires Possible(Apply(Run(w0, before), Arrives(id)), after) && forall e :: e in after ==> !StepsAside(e, id)
    requires
      var c := Run(w0, before).controllers[id];
      Run(Apply(Run(w0, before), Arrives(id)), after).time + c.offset < c.phase.sent + c.ttl
    ensures Leading(Run(Apply(Run(w0, before), Arrives(id)), after), id)
  {
    var w := Run(w0, before);
    var w1, c := Apply(w, Arrives(id)), w.controllers[id];
    RenewalExtends(w0, before, id);
    RunKeepsGood(w0, before);
    StepKeepsGood(w, Arrives(id));
    TimeGrows(w1, after, id);
    DeadlineGrows(w1, after, id, c.phase.sent + c.ttl);
  }

  lemma {:induction false} QuietGrows(w: World, es: seq<Event>, id: string)
    requires Good(w) && Possible(w, es) && id in w.controllers && w.controllers[id].standing.quiet.Some?
    ensures id in Run(w, es).controllers
    ensures
      var c, c' := w.controllers[id], Run(w, es).controllers[id];
      c'.offset == c.offset && c'.standing.quiet.Some? && c.standing.quiet.value <= c'.standing.quiet.value
    decreases |es|
  {
    if es != [] {
      assert Sound(w, id, w.controllers[id]);
      StepKeepsGood(w, es[0]);
      QuietGrows(Apply(w, es[0]), es[1..], id);
    }
  }

  /** A controller that handed over stays out for two renewals, or a whole lease if that is shorter, whatever happens. */
  lemma HandOverKeepsOut(w0: World, before: seq<Event>, id: string, after: seq<Event>)
    requires Initial(w0) && Possible(w0, before) && Enabled(Run(w0, before), Yields(id))
    requires Possible(Apply(Run(w0, before), Yields(id)), after)
    requires
      var w := Run(w0, before);
      var c := w.controllers[id];
      Run(Apply(w, Yields(id)), after).time < w.time + if 2 * c.renew > c.ttl then c.ttl else 2 * c.renew
    ensures !Leading(Run(Apply(Run(w0, before), Yields(id)), after), id)
  {
    RunKeepsGood(w0, before);
    var w := Run(w0, before);
    StepKeepsGood(w, Yields(id));
    var w1 := Apply(w, Yields(id));
    QuietGrows(w1, after, id);
    RunKeepsGood(w1, after);
    var w2 := Run(w1, after);
    assert Sound(w2, id, w2.controllers[id]);
  }

  /** A list of worlds, each the one before with an event applied, is a run. */
  lemma {:induction false} TraceRuns(ws: seq<World>, es: seq<Event>)
    requires |ws| == |es| + 1
    requires forall i :: 0 <= i < |es| ==> Enabled(ws[i], es[i]) && Apply(ws[i], es[i]) == ws[i + 1]
    ensures Possible(ws[0], es) && Run(ws[0], es) == ws[|es|]
    decreases |es|
  {
    if es != [] {
      TraceRuns(ws[1..], es[1..]);
    }
  }

  /**
   * Exclusion is not bought by nobody leading: once the row has run out, a controller that asks
   * leads as soon as it is answered, if and only if the answer took less than a lease.
   */
  lemma ExpiredLeaseIsTaken(w: World, id: string, there: nat, back: nat)
    requires Enabled(w, Begin(id)) && id != "" && w.controllers[id].ttl > 0
    requires w.row.None? || w.row.value.expiresAt <= w.time + w.dbOffset
    ensures
      var es := [Begin(id), Tick(there), UpsertRuns(id, w.time + there + w.dbOffset), Tick(back), Arrives(id)];
      Possible(w, es) && Run(w, es).time == w.time + there + back && Run(w, es).row.Some? && Run(w, es).row.value.holder == id &&
      (Leading(Run(w, es), id) <==> back + there < w.controllers[id].ttl) &&
      forall other :: other in w.controllers && other != id ==>
        other in Run(w, es).controllers && Run(w, es).controllers[other] == w.controllers[other]
  {
    var e := UpsertRuns(id, w.time + there + w.dbOffset);
    var w1 := Apply(w, Begin(id));
    var w2 := Apply(w1, Tick(there));
    var w3 := Apply(w2, e);
    var w4 := Apply(w3, Tick(back));
    var w5 := Apply(w4, Arrives(id));
    TraceRuns([w, w1, w2, w3, w4, w5], [Begin(id), Tick(there), e, Tick(back), Arrives(id)]);
  }

  // ----- what the exclusion rests on -----

  /**
   * A release whose call returned an error must not take effect afterwards. From any reachable
   * world with a leader, one such stray release and another controller that asks make two.
   */
  lemma StrayReleaseSplits(w0: World, es: seq<Event>, a: string, b: string)
    requires Initial(w0) && Possible(w0, es) && a != b
    requires Leading(Run(w0, es), a) && Enabled(Run(w0, es), Begin(b))
    ensures
      var w := Run(w0, es);
      var strayed := w.(row := Released(w.row, a, w.time + w.dbOffset));
      var more := [Begin(b), Tick(0), UpsertRuns(b, w.time + 0 + w.dbOffset), Tick(0), Arrives(b)];
      Possible(strayed, more) && Leading(Run(strayed, more), a) && Leading(Run(strayed, more), b)
  {
    LeaseOutlastsLeader(w0, es, a);
    RunKeepsGood(w0, es);
    var w := Run(w0, es);
    assert Sound(w, b, w.controllers[b]);
    var strayed := w.(row := Released(w.row, a, w.time + w.dbOffset));
    ExpiredLeaseIsTaken(strayed, b, 0, 0);
  }
}
