/**
 * The loops over hand-offs: acting on decisions, resetting replicas, handing a diverged version
 * over. They update the store, the nodes and what the run holds in place, and every change they make
 * is a deed of the protocol, so what is proved of the deeds is proved of them.
 */
module HandoffLoops {
  import opened Optional
  import opened Text
  import opened Commits
  import opened RefPlan
  import opened Replicate
  import opened Handoffs
  import HandoffNames

  /** What Forgejo says of a pull request. */
  datatype Answer = Failed | NotFound | IsMerged | IsClosed | IsOpen

  ghost predicate Reaches(a: Site, b: Site) {
    exists es :: ApplyAll(a, es) == Some(b)
  }

  lemma ReachesItself(a: Site)
    ensures Reaches(a, a)
  {
    assert ApplyAll(a, []) == Some(a);
  }

  lemma ReachesThrough(a: Site, b: Site, c: Site)
    requires Reaches(a, b) && Reaches(b, c)
    ensures Reaches(a, c)
  {
    var es :| ApplyAll(a, es) == Some(b);
    var fs :| ApplyAll(b, fs) == Some(c);
    ApplyAllThen(a, es, fs);
  }

  lemma ReachesByOne(a: Site, e: Deed)
    requires Enabled(a, e)
    ensures Reaches(a, Apply(a, e))
  {
    FirstApplied(a, e, []);
    assert [e] + [] == [e];
    assert ApplyAll(a, [e]) == Some(Apply(a, e));
  }

  lemma CreatedAndTakenBack(refs: Refs, ref: Ref, sha: Commit)
    ensures Put(Put(refs, ref, Some(sha)), ref, None) == Put(refs, ref, None)
  {
  }

  ghost function Created(w: Site, h: Handoff, landed: bool): map<Node, Refs> {
    if landed then w.nodes[h.primary := Put(Handoffs.On(w, h.primary), h.branch, Some(h.sha))] else w.nodes
  }

  /** A branch created without its pull request, and taken back if that works. */
  lemma OpenFailed(w: Site, after: Site, id: nat, h: Handoff, landed: bool, undone: bool)
    requires Enabled(w, Opens(id, h, landed, true, true, false, false))
    requires
      var mid := w.(nodes := Created(w, h, landed));
      after == if undone then mid.(nodes := mid.nodes[h.primary := Put(Handoffs.On(mid, h.primary), h.branch, None)]) else mid
    ensures Reaches(w, after)
  {
    CreatedAndTakenBack(Handoffs.On(w, h.primary), h.branch, h.sha);
    var e := Opens(id, h, landed, true, false, undone, false);
    assert Apply(w, e).nodes == after.nodes;
    assert Apply(w, e) == after;
    ReachesByOne(w, e);
  }

  lemma OpenUnsaved(w: Site, after: Site, id: nat, h: Handoff, landed: bool)
    requires Enabled(w, Opens(id, h, landed, true, true, false, false))
    requires after == w.(nodes := Created(w, h, landed), run := Some(w.run.value.(branches := w.run.value.branches[h.branch := h.sha])))
    ensures Reaches(w, after)
  {
    var e := Opens(id, h, landed, true, true, false, false);
    assert Apply(w, e) == after;
    ReachesByOne(w, e);
  }

  lemma ExtendReaches(w: Site, after: Site, k: nat, sha: Commit, landed: bool, saved: bool)
    requires w.run.Some? && k in w.run.value.handoffs && Enabled(w, Extends(k, sha, landed, true, saved))
    requires
      var h := w.run.value.handoffs[k].(sha := sha); var p := w.run.value.primary;
      after == w.(nodes := if landed then w.nodes[p := Put(Handoffs.On(w, p), h.branch, Some(sha))] else w.nodes,
                  records := if saved then w.records[k := h] else w.records,
                  run := Some(w.run.value.(handoffs := w.run.value.handoffs[k := h])))
    ensures Reaches(w, after)
  {
    assert after == Apply(w, Extends(k, sha, landed, true, saved));
    ReachesByOne(w, Extends(k, sha, landed, true, saved));
  }

  lemma ExtendRefused(w: Site, after: Site, k: nat, sha: Commit, landed: bool)
    requires w.run.Some? && k in w.run.value.handoffs && Enabled(w, Extends(k, sha, landed, false, false))
    requires
      var h, p := w.run.value.handoffs[k], w.run.value.primary;
      after == if landed then w.(nodes := w.nodes[p := Put(Handoffs.On(w, p), h.branch, Some(sha))]) else w
    ensures Reaches(w, after)
  {
    assert after == Apply(w, Extends(k, sha, landed, false, false));
    ReachesByOne(w, Extends(k, sha, landed, false, false));
  }

  lemma CanExtend(w: Site, k: nat, sha: Commit, landed: bool, ok: bool)
    requires Known(w, k, Open)
    requires
      var m := w.run.value; var h := m.handoffs[k];
      && Lookup(m.branches, h.branch) == Some(h.sha) && Ancestor(h.sha, sha)
      && Lawful(Handoffs.On(w, m.primary), FastForward(h.branch, h.sha, sha), landed, ok)
    ensures Enabled(w, Extends(k, sha, landed, ok, false))
    ensures Indexed(w.records, k, w.run.value.handoffs[k].(sha := sha)) ==> Enabled(w, Extends(k, sha, landed, ok, true))
  {
  }

  lemma CanOpen(w: Site, id: nat, h: Handoff, landed: bool, ok: bool)
    requires w.run.Some? && id !in w.records && h.primary == w.run.value.primary
    requires h.phase == Open && h.decidedAt == None && h.backupUntil == None && IsHandoff(h.branch) && !IsHandoff(h.ref)
    requires h.branch !in w.run.value.branches && Lawful(Handoffs.On(w, h.primary), Create(h.branch, h.sha), landed, ok)
    requires (h.primary, h.pr) !in w.merged
    requires forall other :: other in w.records ==> (w.records[other].primary, w.records[other].pr) != (h.primary, h.pr)
    ensures Enabled(w, Opens(id, h, landed, ok, ok, false, false))
    ensures Enabled(w, Opens(id, h, landed, ok, false, false, false))
  {
  }

  lemma OpenRefused(w: Site, after: Site, id: nat, h: Handoff, landed: bool)
    requires Enabled(w, Opens(id, h, landed, false, false, false, false)) && after == w.(nodes := Created(w, h, landed))
    ensures Reaches(w, after)
  {
    var e := Opens(id, h, landed, false, false, false, false);
    assert Apply(w, e) == after;
    ReachesByOne(w, e);
  }

  lemma OpenMade(w: Site, after: Site, id: nat, h: Handoff, landed: bool)
    requires Enabled(w, Opens(id, h, landed, true, true, false, false)) && Indexed(w.records, id, h)
    requires
      var m := w.run.value;
      after == w.(nodes := Created(w, h, landed), records := w.records[id := h],
                  run := Some(m.(branches := m.branches[h.branch := h.sha], handoffs := m.handoffs[id := h])))
    ensures Reaches(w, after)
  {
    var e := Opens(id, h, landed, true, true, false, true);
    assert Apply(w, e) == after;
    ReachesByOne(w, e);
  }

  function Told(answers: map<nat, Answer>, pr: nat): Answer {
    if pr in answers then answers[pr] else Answer.Failed
  }

  /** The pull request was closed: it is decided, and a backup for BackupFor once no replica waits any more. */
  ghost predicate KeptFor(was: Handoff, now: Handoff, started: int, backupFor: nat) {
    && now.nodes <= was.nodes
    && now == was.(nodes := now.nodes, decidedAt := if was.decidedAt.None? then Some(started) else was.decidedAt,
                   phase := if now.nodes == {} then KeptPrimary else Open,
                   backupUntil := if now.nodes == {} then Some(started + backupFor) else was.backupUntil)
  }

  /** What becomes of a hand-off, by what Forgejo says of its pull request; None is one the run is done with. */
  ghost predicate DecidedAs(was: Handoff, now: Option<Handoff>, answer: Answer, started: int, backupFor: nat) {
    if was.phase == Open && (answer == NotFound || answer == IsMerged) then now == None
    else if was.phase == Open && answer == IsClosed then now.Some? && KeptFor(was, now.value, started, backupFor)
    else if was.phase == KeptPrimary && was.backupUntil.Some? && started > was.backupUntil.value then now == None
    else now == Some(was)
  }

  /** Each hand-off is decided as Forgejo's answer says, but for those still to do, which are as they were. */
  ghost predicate AllDecided(was: map<nat, Handoff>, now: map<nat, Handoff>, answers: map<nat, Answer>, started: int, backupFor: nat, todo: set<nat>) {
    forall id :: id in was ==>
      if id in todo then Lookup(now, id) == Some(was[id])
      else DecidedAs(was[id], Lookup(now, id), Told(answers, was[id].pr), started, backupFor)
  }

  lemma OneMoreDecided(was: map<nat, Handoff>, before: map<nat, Handoff>, now: map<nat, Handoff>, answers: map<nat, Answer>,
                       started: int, backupFor: nat, todo: set<nat>, id: nat)
    requires id in todo && todo <= was.Keys && AllDecided(was, before, answers, started, backupFor, todo) && id in before
    requires now.Keys <= before.Keys && forall k :: k in before && k != id ==> k in now && now[k] == before[k]
    requires DecidedAs(before[id], Lookup(now, id), Told(answers, before[id].pr), started, backupFor)
    ensures AllDecided(was, now, answers, started, backupFor, todo - {id})
  {
    assert Lookup(before, id) == Some(was[id]);
    forall k | k in was && k != id ensures Lookup(now, k) == Lookup(before, k) {
    }
  }

  /** The replica no longer holds what was handed off, or holds what the primary has. */
  ghost predicate Dealt(nodes: map<Node, Refs>, view: Refs, h: Handoff, n: Node) {
    var held := if n in nodes then Lookup(nodes[n], h.ref) else None;
    held != Some(h.sha) || held == Lookup(view, h.ref)
  }

  lemma DecidedReaches(w: Site, after: Site, id: nat, left: set<Node>, saved: bool)
    requires Enabled(w, Decided(id, left, saved)) && after == Apply(w, Decided(id, left, saved))
    ensures Reaches(w, after)
  {
    ReachesByOne(w, Decided(id, left, saved));
  }

  predicate IsFor(h: Handoff, ref: Ref, sha: Commit) {
    h.phase == Open && h.ref == ref && h.sha == sha
  }

  // ----- what a run asks of others -----

  /** Updates pushed to a node, pull requests into a branch, records saved; and what came of it. */
  datatype Call =
    | Pushes(node: Node, action: Action, ok: bool, stale: bool)
    | Requests(head: Ref, into: Ref, made: bool)
    | Saves(id: nat, h: Handoff, saved: bool)

  ghost predicate Asked(calls: set<Call>, n: Node, a: Action) {
    exists ok, stale :: Pushes(n, a, ok, stale) in calls
  }

  ghost predicate SaveTried(calls: set<Call>, id: nat, h: Handoff) {
    exists saved :: Saves(id, h, saved) in calls
  }

  /** What a waiting replica is sent: the primary's value, or nothing where the owner deleted the branch, over what was handed off. */
  function ResetFor(view: Refs, h: Handoff): Action {
    if h.ref in view then Reset(h.ref, h.sha, view[h.ref]) else Delete(h.ref, h.sha)
  }

  /** A replica waits on exactly when it is unhealthy, or refused its reset. */
  ghost predicate WaitsOn(calls: set<Call>, view: Refs, healthy: set<Node>, h: Handoff, n: Node, waits: bool) {
    if n !in healthy then waits
    else exists ok, stale :: Pushes(n, ResetFor(view, h), ok, stale) in calls && (waits <==> !ok && !stale)
  }

  ghost predicate ResetsAsked(calls: set<Call>, view: Refs, healthy: set<Node>, configured: set<Node>, h: Handoff, left: set<Node>) {
    && (forall n :: n in h.nodes && n in configured ==> WaitsOn(calls, view, healthy, h, n, n in left))
    && forall n :: n in left ==> n in configured
  }

  ghost predicate DeletionAsked(calls: set<Call>, p: Node, branches: Refs, branch: Ref) {
    branch in branches ==> Asked(calls, p, Delete(branch, branches[branch]))
  }

  /** What acting on one hand-off asks for: its branch deleted where it is done with, its replicas reset where it was closed, its record saved. */
  ghost predicate ActedOn(calls: set<Call>, m: Memory, healthy: set<Node>, configured: set<Node>, backupFor: nat,
                          id: nat, was: Handoff, answer: Answer) {
    if was.phase == Open && answer == NotFound then
      SaveTried(calls, id, was.(phase := Phase.Gone, decidedAt := Some(m.started)))
    else if was.phase == Open && answer == IsMerged then
      && DeletionAsked(calls, m.primary, m.branches, was.branch)
      && SaveTried(calls, id, was.(phase := Merged, decidedAt := Some(m.started)))
    else if was.phase == Open && answer == IsClosed then
      exists now: Handoff :: ResetsAsked(calls, m.view, healthy, configured, was, now.nodes) && KeptFor(was, now, m.started, backupFor) && SaveTried(calls, id, now)
    else if was.phase == KeptPrimary && was.backupUntil.Some? && m.started > was.backupUntil.value then
      DeletionAsked(calls, m.primary, m.branches, was.branch) && SaveTried(calls, id, was.(phase := Expired))
    else true
  }

  /** A run forgets a branch only after asking for its deletion. */
  ghost predicate Shrunk(calls: set<Call>, p: Node, was: Refs, now: Refs) {
    && (forall ref :: ref in now ==> ref in was && now[ref] == was[ref])
    && forall ref :: ref in was && ref !in now ==> Asked(calls, p, Delete(ref, was[ref]))
  }

  ghost predicate AllActedOn(calls: set<Call>, m: Memory, healthy: set<Node>, configured: set<Node>, backupFor: nat,
                             answers: map<nat, Answer>, todo: set<nat>) {
    forall id :: id in m.handoffs && id !in todo ==>
      ActedOn(calls, m, healthy, configured, backupFor, id, m.handoffs[id], Told(answers, m.handoffs[id].pr))
  }

  lemma WaitsOnStays(calls: set<Call>, more: set<Call>, view: Refs, healthy: set<Node>, configured: set<Node>, h: Handoff, left: set<Node>)
    requires ResetsAsked(calls, view, healthy, configured, h, left) && calls <= more
    ensures ResetsAsked(more, view, healthy, configured, h, left)
  {
    forall n | n in h.nodes && n in configured ensures WaitsOn(more, view, healthy, h, n, n in left) {
      assert WaitsOn(calls, view, healthy, h, n, n in left);
    }
  }

  lemma OneMoreReset(calls: set<Call>, more: set<Call>, view: Refs, healthy: set<Node>, configured: set<Node>, h: Handoff,
                     waiting: set<Node>, left: set<Node>, n: Node, done: bool)
    requires ResetsAsked(calls, view, healthy, configured, h.(nodes := h.nodes - waiting), left) && calls <= more && n in waiting
    requires n in h.nodes && n !in left && if n in configured then WaitsOn(more, view, healthy, h, n, !done) else done
    ensures ResetsAsked(more, view, healthy, configured, h.(nodes := h.nodes - (waiting - {n})), if done then left else left + {n})
  {
    var after := if done then left else left + {n};
    var was, now := h.(nodes := h.nodes - waiting), h.(nodes := h.nodes - (waiting - {n}));
    assert ResetFor(view, was) == ResetFor(view, now) == ResetFor(view, h);
    forall k | k in now.nodes && k in configured ensures WaitsOn(more, view, healthy, now, k, k in after) {
      if k != n { assert WaitsOn(calls, view, healthy, was, k, k in left); }
    }
  }

  lemma DeletionStays(calls: set<Call>, more: set<Call>, p: Node, was: Refs, now: Refs, branch: Ref)
    requires Shrunk(calls, p, was, now) && calls <= more && DeletionAsked(more, p, now, branch)
    ensures DeletionAsked(more, p, was, branch)
  {
    if branch in was && branch !in now { assert Asked(calls, p, Delete(branch, was[branch])); }
  }

  /** What was done for a hand-off, on what the run knew then, was done on what it knew at the start, and stays done. */
  lemma ActedStays(calls: set<Call>, more: set<Call>, m: Memory, branches: Refs, healthy: set<Node>, configured: set<Node>, backupFor: nat,
                   id: nat, was: Handoff, answer: Answer)
    requires Shrunk(calls, m.primary, m.branches, branches) && calls <= more
    requires ActedOn(more, m.(branches := branches), healthy, configured, backupFor, id, was, answer)
    ensures ActedOn(more, m, healthy, configured, backupFor, id, was, answer)
  {
    DeletionStaysIf(calls, more, m.primary, m.branches, branches, was.branch);
  }

  lemma DeletionStaysIf(calls: set<Call>, more: set<Call>, p: Node, was: Refs, now: Refs, branch: Ref)
    requires Shrunk(calls, p, was, now) && calls <= more
    ensures DeletionAsked(more, p, now, branch) ==> DeletionAsked(more, p, was, branch)
  {
    if DeletionAsked(more, p, now, branch) { DeletionStays(calls, more, p, was, now, branch); }
  }

  lemma ActedGrows(calls: set<Call>, more: set<Call>, m: Memory, healthy: set<Node>, configured: set<Node>, backupFor: nat,
                   id: nat, was: Handoff, answer: Answer)
    requires calls <= more && ActedOn(calls, m, healthy, configured, backupFor, id, was, answer)
    ensures ActedOn(more, m, healthy, configured, backupFor, id, was, answer)
  {
    if was.phase == Open && answer == IsClosed {
      var now: Handoff :| ResetsAsked(calls, m.view, healthy, configured, was, now.nodes) && KeptFor(was, now, m.started, backupFor) && SaveTried(calls, id, now);
      WaitsOnStays(calls, more, m.view, healthy, configured, was, now.nodes);
      assert SaveTried(more, id, now);
    }
  }

  lemma ShrunkThen(calls: set<Call>, more: set<Call>, p: Node, a: Refs, b: Refs, c: Refs)
    requires Shrunk(calls, p, a, b) && Shrunk(more, p, b, c) && calls <= more
    ensures Shrunk(more, p, a, c)
  {
    forall ref | ref in a && ref !in c ensures Asked(more, p, Delete(ref, a[ref])) {
      if ref !in b { assert Asked(calls, p, Delete(ref, a[ref])); } else { assert Asked(more, p, Delete(ref, b[ref])); }
    }
  }

  /** What is asked for depends on nothing else the run holds. */
  lemma ActedAsHeld(calls: set<Call>, m: Memory, branches: Refs, handoffs: map<nat, Handoff>, healthy: set<Node>, configured: set<Node>,
                    backupFor: nat, id: nat, answer: Answer)
    requires id in m.handoffs && Lookup(handoffs, id) == Some(m.handoffs[id])
    requires ActedOn(calls, Memory(m.primary, m.view, branches, handoffs, m.started), healthy, configured, backupFor, id, handoffs[id], answer)
    ensures ActedOn(calls, m.(branches := branches), healthy, configured, backupFor, id, m.handoffs[id], answer)
  {
  }

  lemma OneMoreActed(calls: set<Call>, more: set<Call>, m: Memory, branches: Refs, healthy: set<Node>, configured: set<Node>,
                     backupFor: nat, answers: map<nat, Answer>, todo: set<nat>, id: nat)
    requires Shrunk(calls, m.primary, m.branches, branches) && calls <= more && id in m.handoffs
    requires AllActedOn(calls, m, healthy, configured, backupFor, answers, todo)
    requires ActedOn(more, m.(branches := branches), healthy, configured, backupFor, id, m.handoffs[id], Told(answers, m.handoffs[id].pr))
    ensures AllActedOn(more, m, healthy, configured, backupFor, answers, todo - {id})
  {
    forall k | k in m.handoffs && k !in todo - {id}
      ensures ActedOn(more, m, healthy, configured, backupFor, k, m.handoffs[k], Told(answers, m.handoffs[k].pr))
    {
      if k == id {
        ActedStays(calls, more, m, branches, healthy, configured, backupFor, id, m.handoffs[id], Told(answers, m.handoffs[id].pr));
      } else {
        ActedGrows(calls, more, m, healthy, configured, backupFor, k, m.handoffs[k], Told(answers, m.handoffs[k].pr));
      }
    }
  }

  /** An open hand-off holds this version for all of these replicas. */
  ghost predicate HandedOver(handoffs: map<nat, Handoff>, ref: Ref, sha: Commit, waiting: set<Node>) {
    exists k :: k in handoffs && IsFor(handoffs[k], ref, sha) && waiting <= handoffs[k].nodes
  }

  /** A replica whose branch has diverged, and where it stands. */
  datatype Divergence = Divergence(ref: Ref, sha: Commit, node: Node)

  /** What is handed over: replicas that stand at the same commit share one pull request. */
  datatype Version = Version(ref: Ref, sha: Commit)

  ghost predicate GroupedBy(groups: map<Version, set<Node>>, found: seq<Divergence>) {
    && (forall v, n :: v in groups && n in groups[v] <==> Divergence(v.ref, v.sha, n) in found)
    && forall v :: v in groups ==> groups[v] != {}
  }

  /** A replica's branch stands at one commit. */
  ghost predicate OneHead(found: seq<Divergence>) {
    forall d, e :: d in found && e in found && d.ref == e.ref && d.node == e.node ==> d == e
  }

  /** Ids and pull request numbers from these on were never given out. */
  ghost predicate Room(w: Site, id: nat, pr: nat)
    requires w.run.Some?
  {
    var m := w.run.value;
    && (forall k :: k in w.records || k in m.handoffs ==> k < id)
    && (forall q :: (m.primary, q) in w.merged ==> q < pr)
    && (forall k :: k in w.records && w.records[k].primary == m.primary ==> w.records[k].pr < pr)
    && (forall k :: k in m.handoffs && m.handoffs[k].primary == m.primary ==> m.handoffs[k].pr < pr)
  }

  /** One hand-off was put into what the run holds, and perhaps on file. */
  ghost predicate OnePut(w: Site, after: Site, k: nat, h: Handoff)
    requires w.run.Some? && after.run.Some?
  {
    && after.run.value.primary == w.run.value.primary && after.merged == w.merged
    && (after.run.value.handoffs == w.run.value.handoffs || after.run.value.handoffs == w.run.value.handoffs[k := h])
    && (after.records == w.records || after.records == w.records[k := h])
  }

  lemma RoomStays(w: Site, after: Site, k: nat, h: Handoff, id: nat, pr: nat)
    requires w.run.Some? && after.run.Some? && OnePut(w, after, k, h) && Room(w, id, pr)
    requires k < id && (h.primary == w.run.value.primary ==> h.pr < pr)
    ensures Room(after, id, pr)
  {
  }

  lemma RoomStaysFor(w: Site, after: Site, k: nat, h: Handoff)
    requires w.run.Some? && after.run.Some? && OnePut(w, after, k, h)
    ensures forall id, pr :: Room(w, id, pr) && k < id && h.pr < pr ==> Room(after, id, pr)
  {
    forall id, pr | Room(w, id, pr) && k < id && h.pr < pr ensures Room(after, id, pr) {
      RoomStays(w, after, k, h, id, pr);
    }
  }

  /** What a version's turn makes of a hand-off: nothing, or the version's replicas join it, or it is moved along to the version. */
  ghost predicate MovedFor(was: Handoff, now: Handoff, ref: Ref, sha: Commit, waiting: set<Node>) {
    || now == was
    || (IsFor(was, ref, sha) && now == was.(nodes := was.nodes + waiting))
    || (was.phase == Open && was.ref == ref && was.nodes == waiting && now == was.(sha := sha))
  }

  /** What it adds is for the version and its replicas. */
  ghost predicate OnlyNewFor(was: map<nat, Handoff>, now: map<nat, Handoff>, ref: Ref, sha: Commit, waiting: set<Node>) {
    forall k :: k in now && k !in was ==> IsFor(now[k], ref, sha) && now[k].nodes == waiting
  }

  ghost predicate AllMovedFor(was: map<nat, Handoff>, now: map<nat, Handoff>, ref: Ref, sha: Commit, waiting: set<Node>) {
    forall k :: k in was ==> k in now && MovedFor(was[k], now[k], ref, sha, waiting)
  }

  /** No hand-off is dropped, and none stops covering a replica. */
  ghost predicate NoneDropped(was: map<nat, Handoff>, now: map<nat, Handoff>) {
    forall k :: k in was ==> k in now && now[k].ref == was[k].ref && now[k].phase == was[k].phase && was[k].nodes <= now[k].nodes
  }

  /** The versions gone through are handed over, but for those that failed. */
  ghost predicate AllHandedOver(handoffs: map<nat, Handoff>, groups: map<Version, set<Node>>, todo: set<Version>, failed: set<Version>) {
    forall v :: v in groups && v !in todo && v !in failed ==> HandedOver(handoffs, v.ref, v.sha, groups[v])
  }

  /** Handing over one version takes no hand-off away from another: their replicas differ. */
  lemma StillHandedOver(was: map<nat, Handoff>, now: map<nat, Handoff>, groups: map<Version, set<Node>>,
                        found: seq<Divergence>, v: Version, other: Version)
    requires GroupedBy(groups, found) && OneHead(found) && v in groups && other in groups && v != other
    requires HandedOver(was, other.ref, other.sha, groups[other]) && AllMovedFor(was, now, v.ref, v.sha, groups[v])
    ensures HandedOver(now, other.ref, other.sha, groups[other])
  {
    var k :| k in was && IsFor(was[k], other.ref, other.sha) && groups[other] <= was[k].nodes;
    assert k in now && MovedFor(was[k], now[k], v.ref, v.sha, groups[v]);
    if v.ref == other.ref { OtherReplicas(groups, found, v, other); }
  }

  lemma OtherReplicas(groups: map<Version, set<Node>>, found: seq<Divergence>, v: Version, other: Version)
    requires GroupedBy(groups, found) && OneHead(found) && v in groups && other in groups && v != other && v.ref == other.ref
    ensures !(groups[other] <= groups[v])
  {
    var n :| n in groups[other];
    assert Divergence(other.ref, other.sha, n) in found;
    assert n in groups[v] ==> Divergence(v.ref, v.sha, n) in found;
  }

  lemma OneMoreHandedOver(was: map<nat, Handoff>, now: map<nat, Handoff>, groups: map<Version, set<Node>>,
                          found: seq<Divergence>, todo: set<Version>, failed: set<Version>, v: Version, done: bool)
    requires GroupedBy(groups, found) && OneHead(found) && v in groups
    requires AllHandedOver(was, groups, todo, failed) && AllMovedFor(was, now, v.ref, v.sha, groups[v])
    requires done ==> HandedOver(now, v.ref, v.sha, groups[v])
    ensures AllHandedOver(now, groups, todo - {v}, if done then failed else failed + {v})
  {
    var after := if done then failed else failed + {v};
    forall other | other in groups && other !in todo - {v} && other !in after
      ensures HandedOver(now, other.ref, other.sha, groups[other])
    {
      if other != v { StillHandedOver(was, now, groups, found, v, other); }
    }
  }

  // ----- what handing over asks for -----

  /** An open hand-off of the same replicas, whose head the new one contains. */
  ghost predicate FollowsOn(h: Handoff, ref: Ref, sha: Commit, waiting: set<Node>, ask: Ancestry) {
    h.phase == Open && h.ref == ref && h.nodes == waiting && ask(h.sha, sha) == Yes
  }

  predicate Untouched(branches: Refs, h: Handoff) {
    Lookup(branches, h.branch) == Some(h.sha)
  }

  /** Such a hand-off's branch was pushed the new head. */
  ghost predicate ExtensionAsked(calls: set<Call>, p: Node, handoffs: map<nat, Handoff>, ref: Ref, sha: Commit, waiting: set<Node>, ask: Ancestry) {
    exists k, ok, stale :: k in handoffs && FollowsOn(handoffs[k], ref, sha, waiting, ask) &&
      Pushes(p, FastForward(handoffs[k].branch, handoffs[k].sha, sha), ok, stale) in calls
  }

  /** A new branch was refused; or its pull request; or its record. */
  ghost predicate FellThrough(calls: set<Call>, p: Node, ref: Ref, sha: Commit, full: Ref) {
    || (exists stale :: Pushes(p, Create(full, sha), false, stale) in calls)
    || (Pushes(p, Create(full, sha), true, false) in calls &&
        (Requests(full, ref, false) in calls || (Requests(full, ref, true) in calls && RecordRefused(calls, ref, sha, full))))
  }

  ghost predicate RecordRefused(calls: set<Call>, ref: Ref, sha: Commit, full: Ref) {
    exists id, h :: Saves(id, h, false) in calls && IsFor(h, ref, sha) && h.branch == full
  }

  ghost predicate GaveUp(calls: set<Call>, p: Node, taken: Refs, ref: Ref, sha: Commit) {
    exists full :: full !in taken && IsHandoff(full) && FellThrough(calls, p, ref, sha, full)
  }

  lemma FellAtPush(calls: set<Call>, p: Node, taken: Refs, h: Handoff, stale: bool)
    requires h.branch !in taken && IsHandoff(h.branch) && Pushes(p, Create(h.branch, h.sha), false, stale) in calls
    ensures GaveUp(calls, p, taken, h.ref, h.sha)
  {
    assert FellThrough(calls, p, h.ref, h.sha, h.branch);
  }

  lemma FellAfterPush(calls: set<Call>, p: Node, taken: Refs, id: nat, h: Handoff)
    requires h.branch !in taken && IsHandoff(h.branch) && h.phase == Open && Pushes(p, Create(h.branch, h.sha), true, false) in calls
    requires Requests(h.branch, h.ref, false) in calls || (Requests(h.branch, h.ref, true) in calls && Saves(id, h, false) in calls)
    ensures GaveUp(calls, p, taken, h.ref, h.sha)
  {
    if Saves(id, h, false) in calls { assert RecordRefused(calls, h.ref, h.sha, h.branch) by { assert IsFor(h, h.ref, h.sha); } }
    assert FellThrough(calls, p, h.ref, h.sha, h.branch);
  }

  ghost predicate NoneFor(handoffs: map<nat, Handoff>, v: Version) {
    forall k :: k in handoffs ==> !IsFor(handoffs[k], v.ref, v.sha)
  }

  ghost predicate Grown(was: Refs, now: Refs) {
    forall ref :: ref in was ==> ref in now && now[ref] == was[ref]
  }

  /** Every version that failed was tried, in full, and has no open hand-off. */
  ghost predicate AllTried(calls: set<Call>, p: Node, taken: Refs, handoffs: map<nat, Handoff>, failed: set<Version>) {
    forall v :: v in failed ==> NoneFor(handoffs, v) && GaveUp(calls, p, taken, v.ref, v.sha)
  }

  lemma StillGaveUp(calls: set<Call>, more: set<Call>, p: Node, fewer: Refs, taken: Refs, ref: Ref, sha: Commit)
    requires GaveUp(calls, p, taken, ref, sha) && calls <= more && Grown(fewer, taken)
    ensures GaveUp(more, p, fewer, ref, sha)
  {
    var full :| full !in taken && IsHandoff(full) && FellThrough(calls, p, ref, sha, full);
    if RecordRefused(calls, ref, sha, full) {
      var id, h :| Saves(id, h, false) in calls && IsFor(h, ref, sha) && h.branch == full;
      assert Saves(id, h, false) in more;
    }
    assert FellThrough(more, p, ref, sha, full);
  }

  /** A version's turn gives no other version a hand-off. */
  lemma NoneForOther(was: map<nat, Handoff>, now: map<nat, Handoff>, v: Version, waiting: set<Node>, other: Version)
    requires AllMovedFor(was, now, v.ref, v.sha, waiting) && OnlyNewFor(was, now, v.ref, v.sha, waiting)
    requires other != v && NoneFor(was, other)
    ensures NoneFor(now, other)
  {
    forall k | k in now ensures !IsFor(now[k], other.ref, other.sha) {
      if k in was { assert MovedFor(was[k], now[k], v.ref, v.sha, waiting); }
    }
  }

  lemma OneMoreTried(calls: set<Call>, more: set<Call>, p: Node, taken: Refs, branches: Refs, was: map<nat, Handoff>, now: map<nat, Handoff>,
                     failed: set<Version>, v: Version, waiting: set<Node>, done: bool)
    requires AllTried(calls, p, taken, was, failed) && calls <= more && v !in failed && Grown(taken, branches)
    requires AllMovedFor(was, now, v.ref, v.sha, waiting) && OnlyNewFor(was, now, v.ref, v.sha, waiting)
    requires !done ==> NoneFor(now, v) && GaveUp(more, p, branches, v.ref, v.sha)
    ensures AllTried(more, p, taken, now, if done then failed else failed + {v})
  {
    forall o | o in failed ensures NoneFor(now, o) && GaveUp(more, p, taken, o.ref, o.sha) {
      NoneForOther(was, now, v, waiting, o);
      StillGaveUp(calls, more, p, taken, taken, o.ref, o.sha);
    }
    if !done { StillGaveUp(more, more, p, taken, branches, v.ref, v.sha); }
  }

  /** The open hand-off a version continues, where nobody else stands at its head and the version has none of its own. */
  ghost predicate Continued(handoffs: map<nat, Handoff>, branches: Refs, groups: map<Version, set<Node>>, k: nat, v: Version, ask: Ancestry) {
    && k in handoffs && v in groups && FollowsOn(handoffs[k], v.ref, v.sha, groups[v], ask) && Untouched(branches, handoffs[k])
    && Version(handoffs[k].ref, handoffs[k].sha) !in groups && NoneFor(handoffs, v)
  }

  ghost predicate AllExtended(calls: set<Call>, p: Node, handoffs: map<nat, Handoff>, branches: Refs, groups: map<Version, set<Node>>,
                              todo: set<Version>, ask: Ancestry) {
    forall k, v :: Continued(handoffs, branches, groups, k, v, ask) && v !in todo ==>
      ExtensionAsked(calls, p, handoffs, v.ref, v.sha, groups[v], ask)
  }

  /** For the versions still to come: which hand-offs of theirs there are has not changed. */
  ghost predicate AsAtStart(start: map<nat, Handoff>, now: map<nat, Handoff>, groups: map<Version, set<Node>>, v: Version)
    requires v in groups
  {
    && (NoneFor(start, v) ==> NoneFor(now, v))
    && (forall k :: k in now && now[k].ref == v.ref && now[k].nodes == groups[v] ==> k in start && now[k] == start[k])
    && (forall k :: k in start && start[k].ref == v.ref && start[k].nodes == groups[v] && Version(start[k].ref, start[k].sha) !in groups ==>
          k in now && now[k] == start[k])
  }

  lemma StillAsAtStart(start: map<nat, Handoff>, was: map<nat, Handoff>, now: map<nat, Handoff>, groups: map<Version, set<Node>>,
                       found: seq<Divergence>, v: Version, other: Version)
    requires GroupedBy(groups, found) && OneHead(found) && v in groups && other in groups && v != other
    requires AllMovedFor(was, now, v.ref, v.sha, groups[v]) && OnlyNewFor(was, now, v.ref, v.sha, groups[v])
    requires AsAtStart(start, was, groups, other)
    ensures AsAtStart(start, now, groups, other)
  {
    if NoneFor(was, other) { NoneForOther(was, now, v, groups[v], other); }
    if v.ref == other.ref { OtherReplicas(groups, found, other, v); }
    forall k | k in now && now[k].ref == other.ref && now[k].nodes == groups[other] ensures k in start && now[k] == start[k] {
      if k in was { assert MovedFor(was[k], now[k], v.ref, v.sha, groups[v]); }
    }
    forall k | k in start && start[k].ref == other.ref && start[k].nodes == groups[other] && Version(start[k].ref, start[k].sha) !in groups
      ensures k in now && now[k] == start[k]
    {
      assert MovedFor(was[k], now[k], v.ref, v.sha, groups[v]);
    }
  }

  lemma ExtensionStays(calls: set<Call>, more: set<Call>, p: Node, handoffs: map<nat, Handoff>, ref: Ref, sha: Commit, waiting: set<Node>, ask: Ancestry)
    requires ExtensionAsked(calls, p, handoffs, ref, sha, waiting, ask) && calls <= more
    ensures ExtensionAsked(more, p, handoffs, ref, sha, waiting, ask)
  {
    var k, ok, stale :| k in handoffs && FollowsOn(handoffs[k], ref, sha, waiting, ask) &&
      Pushes(p, FastForward(handoffs[k].branch, handoffs[k].sha, sha), ok, stale) in calls;
    assert Pushes(p, FastForward(handoffs[k].branch, handoffs[k].sha, sha), ok, stale) in more;
  }

  /** An extension asked for on a version's turn was of a hand-off held from the start. */
  lemma ExtensionFromStart(calls: set<Call>, p: Node, start: map<nat, Handoff>, now: map<nat, Handoff>, groups: map<Version, set<Node>>,
                           v: Version, ask: Ancestry)
    requires v in groups && AsAtStart(start, now, groups, v) && ExtensionAsked(calls, p, now, v.ref, v.sha, groups[v], ask)
    ensures ExtensionAsked(calls, p, start, v.ref, v.sha, groups[v], ask)
  {
    var k, ok, stale :| k in now && FollowsOn(now[k], v.ref, v.sha, groups[v], ask) &&
      Pushes(p, FastForward(now[k].branch, now[k].sha, v.sha), ok, stale) in calls;
    assert now[k] == start[k];
    assert FollowsOn(start[k], v.ref, v.sha, groups[v], ask) && Pushes(p, FastForward(start[k].branch, start[k].sha, v.sha), ok, stale) in calls;
  }

  lemma OneMoreExtended(calls: set<Call>, more: set<Call>, p: Node, start: map<nat, Handoff>, branches0: Refs, was: map<nat, Handoff>,
                        branches: Refs, groups: map<Version, set<Node>>, todo: set<Version>, v: Version, ask: Ancestry)
    requires AllExtended(calls, p, start, branches0, groups, todo, ask) && calls <= more && v in groups && Grown(branches0, branches)
    requires AsAtStart(start, was, groups, v)
    requires NoneFor(was, v) && (exists k :: k in was && FollowsOn(was[k], v.ref, v.sha, groups[v], ask) && Untouched(branches, was[k])) ==>
      ExtensionAsked(more, p, was, v.ref, v.sha, groups[v], ask)
    ensures AllExtended(more, p, start, branches0, groups, todo - {v}, ask)
  {
    forall k, o | Continued(start, branches0, groups, k, o, ask) && o !in todo - {v}
      ensures ExtensionAsked(more, p, start, o.ref, o.sha, groups[o], ask)
    {
      if o == v {
        assert k in was && was[k] == start[k] && Untouched(branches, was[k]);
        ExtensionFromStart(more, p, start, was, groups, v, ask);
      } else {
        ExtensionStays(calls, more, p, start, o.ref, o.sha, groups[o], ask);
      }
    }
  }

  /** Where the loop over the versions stands. */
  ghost predicate SoFar(calls: set<Call>, p: Node, start: map<nat, Handoff>, branches0: Refs, handoffs: map<nat, Handoff>, branches: Refs,
                        groups: map<Version, set<Node>>, todo: set<Version>, failed: set<Version>, ask: Ancestry) {
    && NoneDropped(start, handoffs) && Grown(branches0, branches) && failed <= groups.Keys - todo
    && AllHandedOver(handoffs, groups, todo, failed) && AllTried(calls, p, branches0, handoffs, failed)
    && AllExtended(calls, p, start, branches0, groups, todo, ask)
    && forall v :: v in todo && v in groups ==> AsAtStart(start, handoffs, groups, v)
  }

  lemma OneMoreVersion(calls: set<Call>, more: set<Call>, p: Node, start: map<nat, Handoff>, branches0: Refs, was: map<nat, Handoff>,
                       known: Refs, now: map<nat, Handoff>, branches: Refs, groups: map<Version, set<Node>>, found: seq<Divergence>,
                       todo: set<Version>, failed: set<Version>, v: Version, done: bool, ask: Ancestry)
    requires GroupedBy(groups, found) && OneHead(found) && v in todo && v in groups && calls <= more && Grown(known, branches)
    requires SoFar(calls, p, start, branches0, was, known, groups, todo, failed, ask)
    requires AllMovedFor(was, now, v.ref, v.sha, groups[v]) && OnlyNewFor(was, now, v.ref, v.sha, groups[v])
    requires if done then HandedOver(now, v.ref, v.sha, groups[v]) else NoneFor(now, v) && GaveUp(more, p, known, v.ref, v.sha)
    requires NoneFor(was, v) && (exists k :: k in was && FollowsOn(was[k], v.ref, v.sha, groups[v], ask) && Untouched(known, was[k])) ==>
      ExtensionAsked(more, p, was, v.ref, v.sha, groups[v], ask)
    ensures SoFar(more, p, start, branches0, now, branches, groups, todo - {v}, if done then failed else failed + {v}, ask)
  {
    OneMoreHandedOver(was, now, groups, found, todo, failed, v, done);
    OneMoreTried(calls, more, p, branches0, known, was, now, failed, v, groups[v], done);
    OneMoreExtended(calls, more, p, start, branches0, was, known, groups, todo, v, ask);
    forall o | o in todo - {v} && o in groups ensures AsAtStart(start, now, groups, o) {
      StillAsAtStart(start, was, now, groups, found, v, o);
    }
    NoneDroppedThen(start, was, now, v.ref, v.sha, groups[v]);
  }

  lemma NoneDroppedThen(start: map<nat, Handoff>, was: map<nat, Handoff>, now: map<nat, Handoff>, ref: Ref, sha: Commit, waiting: set<Node>)
    requires NoneDropped(start, was) && AllMovedFor(was, now, ref, sha, waiting)
    ensures NoneDropped(start, now)
  {
    forall k | k in start ensures k in now && now[k].ref == start[k].ref && now[k].phase == start[k].phase && start[k].nodes <= now[k].nodes {
      assert MovedFor(was[k], now[k], ref, sha, waiting);
    }
  }

  lemma SomeStandsAt(groups: map<Version, set<Node>>, found: seq<Divergence>, v: Version)
    requires GroupedBy(groups, found) && v in groups
    ensures exists n :: n in groups[v] && Divergence(v.ref, v.sha, n) in found
  {
    var n :| n in groups[v];
  }

  /** An open hand-off holds what this replica has, for it and every other replica at the same commit. */
  ghost predicate CoveredFor(handoffs: map<nat, Handoff>, found: seq<Divergence>, d: Divergence) {
    exists k :: k in handoffs && IsFor(handoffs[k], d.ref, d.sha) && AllWait(found, d, handoffs[k].nodes)
  }

  ghost predicate AllWait(found: seq<Divergence>, d: Divergence, nodes: set<Node>) {
    forall n :: Divergence(d.ref, d.sha, n) in found ==> n in nodes
  }

  lemma EachHandedOver(handoffs: map<nat, Handoff>, groups: map<Version, set<Node>>, found: seq<Divergence>, failed: set<Version>)
    requires GroupedBy(groups, found) && AllHandedOver(handoffs, groups, {}, failed)
    ensures forall d :: d in found && Version(d.ref, d.sha) !in failed ==> CoveredFor(handoffs, found, d)
  {
    forall d | d in found && Version(d.ref, d.sha) !in failed ensures CoveredFor(handoffs, found, d) {
      var v := Version(d.ref, d.sha);
      assert Divergence(v.ref, v.sha, d.node) in found;
      var k :| k in handoffs && IsFor(handoffs[k], v.ref, v.sha) && groups[v] <= handoffs[k].nodes;
    }
  }

  class Decisions {
    const primary: Node
    const view: Refs              // the primary's refs to replicate, as this run listed them
    const started: int            // when this pass over the hand-offs began
    const backupFor: nat
    const healthy: set<Node>
    const configured: set<Node>
    var nodes: map<Node, Refs>
    var records: map<nat, Handoff>
    var branches: Refs            // the hand-off branches on the primary, as this run knows them
    var handoffs: map<nat, Handoff>
    ghost const clock: int
    ghost var merged: set<(Node, nat)>
    ghost var closed: set<(Node, nat)>
    ghost var dealt: map<nat, int>
    ghost var calls: set<Call>

    constructor (w: Site, healthy: set<Node>, configured: set<Node>)
      requires w.run.Some?
      ensures View() == w && this.healthy == healthy && this.configured == configured && calls == {}
    {
      calls := {};
      var m := w.run.value;
      primary, view, started, backupFor := m.primary, m.view, m.started, w.backupFor;
      this.healthy, this.configured := healthy, configured;
      nodes, records, branches, handoffs := w.nodes, w.records, m.branches, m.handoffs;
      clock, merged, closed, dealt := w.clock, w.merged, w.closed, w.dealt;
    }

    ghost function View(): Site
      reads this
    {
      Site(nodes, records, Some(Memory(primary, view, branches, handoffs, started)), clock, backupFor, merged, closed, dealt)
    }

    /** One ref update on a node, conditional on what it is expected to have there; the call may fail as a whole. */
    method PushOne(n: Node, a: Action) returns (ok: bool, stale: bool, ghost landed: bool)
      modifies this`nodes, this`calls
      ensures calls == old(calls) + {Pushes(n, a, ok, stale)} && !(ok && stale)
      ensures nodes == if landed then old(nodes)[n := Put(Handoffs.On(old(View()), n), a.ref, a.Target())] else old(nodes)
      ensures Lawful(Handoffs.On(old(View()), n), a, landed, ok)
      ensures stale ==> Lookup(Handoffs.On(old(View()), n), a.ref) != a.Expected()
    {
      ok, stale, landed := false, false, false;
      var refs := if n in nodes then nodes[n] else map[];
      var heard := *;
      if a.Target().Some? && Lookup(refs, a.ref) == a.Target() {
        ok := heard;
      } else if Lookup(refs, a.ref) == a.Expected() {
        if * {
          nodes := nodes[n := Put(refs, a.ref, a.Target())];
          landed := true;
          ok := heard;
        }
      } else {
        stale := heard;
      }
      calls := calls + {Pushes(n, a, ok, stale)};
    }

    /** saveHandoff: an error is only logged, and the record may have been written all the same, unless the index forbids it. */
    method SaveHandoff(id: nat, h: Handoff) returns (ghost saved: bool)
      modifies this`records, this`calls
      ensures records == if saved then old(records)[id := h] else old(records)
      ensures calls == old(calls) + {Saves(id, h, saved)}
      ensures saved ==> Indexed(old(records), id, h)
    {
      saved := false;
      var may := *;
      if may && Indexed(records, id, h) {
        records := records[id := h];
        saved := true;
      }
      calls := calls + {Saves(id, h, saved)};
    }

    /** Deletes a hand-off's branch, if this run knows it. */
    method DeleteBranch(h: Handoff) returns (ghost landed: bool, ghost ok: bool)
      modifies this`nodes, this`branches, this`calls
      ensures old(calls) <= calls && DeletionAsked(calls, primary, old(branches), h.branch) && Shrunk(calls, primary, old(branches), branches)
      ensures DeletionLawful(old(View()), h, landed, ok)
      ensures nodes == if landed then old(nodes)[primary := Put(Handoffs.On(old(View()), primary), h.branch, None)] else old(nodes)
      ensures branches == if ok then old(branches) - {h.branch} else old(branches)
    {
      landed, ok := false, false;
      if h.branch !in branches { return; }
      var fine, stale;
      fine, stale, landed := PushOne(primary, Delete(h.branch, branches[h.branch]));
      if !fine { return; }
      ok := true;
      branches := branches - {h.branch};
    }

    method Gone(id: nat) returns (ghost e: Deed)
      requires Known(View(), id, Open)
      modifies this
      ensures Enabled(old(View()), e) && View() == Apply(old(View()), e) && e.FoundGone? && e.id == id
      ensures Frame(id)
      ensures merged == old(merged) && branches == old(branches) && old(calls) <= calls
      ensures SaveTried(calls, id, old(handoffs)[id].(phase := Phase.Gone, decidedAt := Some(started)))
    {
      var h := handoffs[id].(phase := Phase.Gone, decidedAt := Some(started));
      ghost var saved := SaveHandoff(id, h);
      handoffs := handoffs - {id};
      e := FoundGone(id, saved);
    }

    method MergedOne(id: nat) returns (ghost e: Deed)
      requires Known(View(), id, Open)
      modifies this
      ensures Enabled(old(View()), e) && View() == Apply(old(View()), e) && e.FoundMerged? && e.id == id
      ensures Frame(id)
      ensures old(calls) <= calls && Shrunk(calls, primary, old(branches), branches)
      ensures DeletionAsked(calls, primary, old(branches), old(handoffs)[id].branch)
      ensures SaveTried(calls, id, old(handoffs)[id].(phase := Merged, decidedAt := Some(started)))
    {
      var h := handoffs[id].(phase := Merged, decidedAt := Some(started));
      ghost var landed, ok := DeleteBranch(h);
      ghost var saved := SaveHandoff(id, h);
      handoffs := handoffs - {id};
      merged := merged + {(primary, h.pr)};
      e := FoundMerged(id, landed, ok, saved);
    }

    method Expire(id: nat) returns (ghost e: Deed)
      requires Known(View(), id, KeptPrimary) && handoffs[id].backupUntil.Some? && started > handoffs[id].backupUntil.value
      modifies this
      ensures Enabled(old(View()), e) && View() == Apply(old(View()), e) && e.Expires? && e.id == id
      ensures Frame(id)
      ensures merged == old(merged)
      ensures old(calls) <= calls && Shrunk(calls, primary, old(branches), branches)
      ensures DeletionAsked(calls, primary, old(branches), old(handoffs)[id].branch)
      ensures SaveTried(calls, id, old(handoffs)[id].(phase := Expired))
    {
      ghost var landed, ok := DeleteBranch(handoffs[id]);
      var h := handoffs[id].(phase := Expired);
      ghost var saved := SaveHandoff(id, h);
      handoffs := handoffs - {id};
      e := Expires(id, landed, ok, saved);
    }

    /** The other hand-offs the run holds are as they were, and only this one's pull request can have become known as merged. */
    twostate predicate Frame(id: nat)
      reads this
    {
      && handoffs.Keys <= old(handoffs).Keys && (forall k :: k in old(handoffs) && k != id ==> k in handoffs && handoffs[k] == old(handoffs)[k])
      && old(merged) <= merged && forall p :: p in merged && p !in old(merged) ==> id in old(handoffs) && p == (primary, old(handoffs)[id].pr)
    }

    /** One replica that waits for the owner's decision; true when it has been dealt with. */
    method ResetOne(id: nat, n: Node) returns (done: bool)
      requires Known(View(), id, Open) && n in handoffs[id].nodes
      requires (primary, handoffs[id].pr) in closed && (primary, handoffs[id].pr) !in merged
      modifies this`nodes, this`calls
      ensures Reaches(old(View()), View()) && old(calls) <= calls
      ensures if n in configured then WaitsOn(calls, view, healthy, handoffs[id], n, !done) else done
      ensures done && n in configured ==> n in healthy && Dealt(nodes, view, handoffs[id], n)
      ensures nodes.Keys <= old(nodes).Keys + {n} && forall k :: k in old(nodes) && k != n ==> k in nodes && nodes[k] == old(nodes)[k]
    {
      ghost var was := View();
      ReachesItself(was);
      var h := handoffs[id];
      if n !in configured { return true; }
      if n !in healthy { return false; }
      var ok, stale; ghost var landed;
      ok, stale, landed := PushOne(n, ResetFor(view, h));
      ReachesByOne(was, Resets(id, n, landed));
      done := ok || stale;
      assert Pushes(n, ResetFor(view, h), ok, stale) in calls;
    }

    method ResetReplicas(id: nat) returns (left: set<Node>)
      requires Known(View(), id, Open) && (primary, handoffs[id].pr) in closed && (primary, handoffs[id].pr) !in merged
      modifies this`nodes, this`calls
      ensures left <= handoffs[id].nodes && Reaches(old(View()), View())
      ensures old(calls) <= calls && ResetsAsked(calls, view, healthy, configured, handoffs[id], left)
      ensures forall n :: n in handoffs[id].nodes && n in configured && n !in left ==>
        n in healthy && Dealt(nodes, view, handoffs[id], n)
    {
      left := {};
      var waiting := handoffs[id].nodes;
      ReachesItself(View());
      while waiting != {}
        invariant waiting <= handoffs[id].nodes && left <= handoffs[id].nodes - waiting && Reaches(old(View()), View())
        invariant old(calls) <= calls && ResetsAsked(calls, view, healthy, configured, handoffs[id].(nodes := handoffs[id].nodes - waiting), left)
        invariant forall n :: n in handoffs[id].nodes && n in configured && n !in left && n !in waiting ==>
          n in healthy && Dealt(nodes, view, handoffs[id], n)
        decreases waiting
      {
        var n :| n in waiting;
        ghost var mid := View();
        ghost var before := calls;
        var done := ResetOne(id, n);
        ReachesThrough(old(View()), mid, View());
        OneMoreReset(before, calls, view, healthy, configured, handoffs[id], waiting, left, n, done);
        if !done { left := left + {n}; }
        waiting := waiting - {n};
      }
      assert handoffs[id].nodes - waiting == handoffs[id].nodes;
    }

    /** What is recorded once the replicas were gone through. */
    method Keep(id: nat, left: set<Node>) returns (ghost saved: bool)
      requires Known(View(), id, Open) && left <= handoffs[id].nodes
      requires (primary, handoffs[id].pr) in closed && (primary, handoffs[id].pr) !in merged
      modifies this`records, this`handoffs, this`dealt, this`calls
      ensures Enabled(old(View()), Decided(id, left, saved)) && View() == Apply(old(View()), Decided(id, left, saved))
      ensures id in handoffs && handoffs == old(handoffs)[id := handoffs[id]]
      ensures old(calls) <= calls && SaveTried(calls, id, handoffs[id])
      ensures handoffs[id].nodes == left && KeptFor(old(handoffs)[id], handoffs[id], started, backupFor)
    {
      var h := handoffs[id];
      if h.decidedAt.None? { h := h.(decidedAt := Some(started)); }
      h := h.(nodes := left);
      if left == {} {
        h := h.(phase := KeptPrimary, backupUntil := Some(started + backupFor));
        dealt := dealt[id := started];
      }
      saved := SaveHandoff(id, h);
      handoffs := handoffs[id := h];
    }

    /** Closed without merging: the owner keeps the primary's version. */
    method Closed(id: nat)
      requires Known(View(), id, Open) && (primary, handoffs[id].pr) !in merged
      modifies this
      ensures Reaches(old(View()), View()) && Frame(id) && merged == old(merged)
      ensures old(calls) <= calls && branches == old(branches) && id in handoffs
      ensures ResetsAsked(calls, view, healthy, configured, old(handoffs)[id], handoffs[id].nodes) && SaveTried(calls, id, handoffs[id])
      ensures id in handoffs && KeptFor(old(handoffs)[id], handoffs[id], started, backupFor)
      ensures forall n :: n in old(handoffs)[id].nodes && n in configured && n !in handoffs[id].nodes ==>
        n in healthy && Dealt(nodes, view, old(handoffs)[id], n)
    {
      ghost var was := View();
      ReachesByOne(was, FoundClosed(id));
      closed := closed + {(primary, handoffs[id].pr)};
      ghost var asked := View();
      var left := ResetReplicas(id);
      ghost var mid, before := View(), calls;
      ghost var saved := Keep(id, left);
      WaitsOnStays(before, calls, view, healthy, configured, old(handoffs)[id], left);
      DecidedReaches(mid, View(), id, left, saved);
      ReachesThrough(was, asked, mid);
      ReachesThrough(was, mid, View());
    }

    method DecideOne(id: nat, answer: Answer)
      requires id in handoffs
      requires answer == IsClosed && handoffs[id].phase == Open ==> (primary, handoffs[id].pr) !in merged
      modifies this
      ensures Reaches(old(View()), View()) && Frame(id)
      ensures merged != old(merged) ==> answer == IsMerged
      ensures DecidedAs(old(handoffs)[id], Lookup(handoffs, id), answer, started, backupFor)
      ensures old(calls) <= calls && Shrunk(calls, primary, old(branches), branches)
      ensures
        var m := Memory(primary, view, old(branches), old(handoffs), started);
        ActedOn(calls, m, healthy, configured, backupFor, id, old(handoffs)[id], answer)
    {
      ghost var was := View();
      ReachesItself(was);
      var h := handoffs[id];
      if h.phase == Open {
        match answer {
          case Failed =>
          case NotFound =>
            ghost var e := Gone(id);
            ReachesByOne(was, e);
          case IsMerged =>
            ghost var e := MergedOne(id);
            ReachesByOne(was, e);
          case IsClosed => Closed(id);
          case IsOpen =>
        }
      } else if h.phase == KeptPrimary && h.backupUntil.Some? && started > h.backupUntil.value {
        ghost var e := Expire(id);
        ReachesByOne(was, e);
      }
    }

    /** Acts on every hand-off the run loaded, on what Forgejo says of its pull request: nothing but deeds of the protocol. */
    method ApplyDecisions(answers: map<nat, Answer>)
      requires forall pr :: pr in answers && answers[pr] == IsClosed ==> (primary, pr) !in merged
      modifies this
      ensures Reaches(old(View()), View()) && handoffs.Keys <= old(handoffs).Keys
      ensures AllDecided(old(handoffs), handoffs, answers, started, backupFor, {})
      ensures AllActedOn(calls, Memory(primary, view, old(branches), old(handoffs), started), healthy, configured, backupFor, answers, {})
    {
      ReachesItself(View());
      ghost var m := Memory(primary, view, branches, handoffs, started);
      var todo := handoffs.Keys;
      while todo != {}
        invariant todo <= handoffs.Keys <= old(handoffs).Keys && Reaches(old(View()), View())
        invariant AllDecided(old(handoffs), handoffs, answers, started, backupFor, todo)
        invariant forall pr :: pr in answers && answers[pr] == IsClosed ==> (primary, pr) !in merged
        invariant Shrunk(calls, primary, m.branches, branches) && AllActedOn(calls, m, healthy, configured, backupFor, answers, todo)
        decreases todo
      {
        var id :| id in todo;
        ghost var mid, before, was, known := View(), handoffs, calls, branches;
        DecideOne(id, Told(answers, handoffs[id].pr));
        ReachesThrough(old(View()), mid, View());
        ActedAsHeld(calls, m, known, before, healthy, configured, backupFor, id, Told(answers, m.handoffs[id].pr));
        OneMoreActed(was, calls, m, known, healthy, configured, backupFor, answers, todo, id);
        ShrunkThen(was, calls, primary, m.branches, known, branches);
        OneMoreDecided(old(handoffs), before, handoffs, answers, started, backupFor, todo, id);
        todo := todo - {id};
      }
    }

    // ----- handing a diverged version over -----

    method FindOpen(ref: Ref, sha: Commit) returns (id: Option<nat>)
      ensures id.Some? ==> id.value in handoffs && IsFor(handoffs[id.value], ref, sha)
      ensures id.None? ==> forall k :: k in handoffs ==> !IsFor(handoffs[k], ref, sha)
    {
      var left := handoffs.Keys;
      while left != {}
        invariant left <= handoffs.Keys
        invariant forall k :: k in handoffs && k !in left ==> !IsFor(handoffs[k], ref, sha)
        decreases left
      {
        var k :| k in left;
        if IsFor(handoffs[k], ref, sha) { return Some(k); }
        left := left - {k};
      }
      id := None;
    }

    /** Moves one hand-off's branch along to the new head. */
    method ExtendOne(k: nat, sha: Commit) returns (extended: bool)
      requires Known(View(), k, Open) && Lookup(branches, handoffs[k].branch) == Some(handoffs[k].sha) &&
        Ancestor(handoffs[k].sha, sha)
      modifies this
      ensures Reaches(old(View()), View())
      ensures !extended ==> records == old(records) && merged == old(merged) && handoffs == old(handoffs)
      ensures extended ==> handoffs == old(handoffs)[k := old(handoffs)[k].(sha := sha)]
      ensures old(calls) <= calls && branches == old(branches)
      ensures exists stale :: Pushes(primary, FastForward(old(handoffs)[k].branch, old(handoffs)[k].sha, sha), extended, stale) in calls
      ensures OnePut(old(View()), View(), k, old(handoffs)[k].(sha := sha))
    {
      ghost var was := View();
      var h := handoffs[k];
      var ok, stale; ghost var landed;
      ok, stale, landed := PushOne(primary, FastForward(h.branch, h.sha, sha));
      assert Pushes(primary, FastForward(h.branch, h.sha, sha), ok, stale) in calls;
      CanExtend(was, k, sha, landed, ok);
      if !ok {
        ExtendRefused(was, View(), k, sha, landed);
        return false;
      }
      h := h.(sha := sha);
      ghost var saved := SaveHandoff(k, h);
      handoffs := handoffs[k := h];
      ExtendReaches(was, View(), k, sha, landed, saved);
      extended := true;
    }

    method Extend(ref: Ref, sha: Commit, waiting: set<Node>, ask: Ancestry) returns (extended: bool)
      requires Truthful(ask)
      modifies this
      ensures Reaches(old(View()), View())
      ensures !extended ==> records == old(records) && merged == old(merged) && handoffs == old(handoffs)
      ensures extended ==> HandedOver(handoffs, ref, sha, waiting)
      ensures AllMovedFor(old(handoffs), handoffs, ref, sha, waiting) && handoffs.Keys == old(handoffs).Keys
      ensures old(calls) <= calls && branches == old(branches)
      ensures (exists k :: k in old(handoffs) && FollowsOn(old(handoffs)[k], ref, sha, waiting, ask) && Untouched(branches, old(handoffs)[k])) ==>
        ExtensionAsked(calls, primary, old(handoffs), ref, sha, waiting, ask)
      ensures forall i, p :: Room(old(View()), i, p) ==> Room(View(), i, p)
    {
      ReachesItself(View());
      var left := handoffs.Keys;
      while left != {}
        invariant left <= handoffs.Keys && View() == old(View()) && calls == old(calls)
        invariant forall k :: k in handoffs && k !in left ==> !(FollowsOn(handoffs[k], ref, sha, waiting, ask) && Untouched(branches, handoffs[k]))
        decreases left
      {
        var k :| k in left;
        left := left - {k};
        var h := handoffs[k];
        if h.phase == Open && h.ref == ref && Untouched(branches, h) && h.nodes == waiting && ask(h.sha, sha) == Yes {
          ghost var was := View();
          extended := ExtendOne(k, sha);
          assert extended ==> handoffs[k].sha == sha;
          assert FollowsOn(old(handoffs)[k], ref, sha, waiting, ask);
          forall i, p | Room(was, i, p) ensures Room(View(), i, p) {
            RoomStays(was, View(), k, was.run.value.handoffs[k].(sha := sha), i, p);
          }
          return;
        }
      }
      extended := false;
    }

    method TakeBack(full: Ref, sha: Commit) returns (ghost undone: bool)
      modifies this`nodes, this`calls
      ensures old(calls) <= calls
      ensures nodes == if undone then old(nodes)[primary := Put(Handoffs.On(old(View()), primary), full, None)] else old(nodes)
    {
      var ok, stale;
      ok, stale, undone := PushOne(primary, Delete(full, sha));
    }

    /** The pull request for a branch just created; without it the branch is taken back. */
    method Request(id: nat, h: Handoff, ghost was: Site, ghost landed: bool) returns (made: bool)
      requires Enabled(was, Opens(id, h, landed, true, true, false, false)) && h.primary == primary
      requires View() == was.(nodes := Created(was, h, landed))
      modifies this
      ensures Reaches(was, View())
      ensures handoffs == if made then old(handoffs)[id := h] else old(handoffs)
      ensures OnePut(was, View(), id, h)
      ensures old(calls) <= calls && Grown(was.run.value.branches, branches)
      ensures !made ==> Requests(h.branch, h.ref, false) in calls || (Requests(h.branch, h.ref, true) in calls && Saves(id, h, false) in calls)
    {
      var requested := *;
      calls := calls + {Requests(h.branch, h.ref, requested)};
      if !requested { // the pull request could not be made
        ghost var undone := TakeBack(h.branch, h.sha);
        OpenFailed(was, View(), id, h, landed, undone);
        return false;
      }
      made := Record(id, h, was, landed);
    }

    /** The record of a hand-off whose branch and pull request are there. */
    method Record(id: nat, h: Handoff, ghost was: Site, ghost landed: bool) returns (made: bool)
      requires Enabled(was, Opens(id, h, landed, true, true, false, false)) && h.primary == primary
      requires View() == was.(nodes := Created(was, h, landed))
      modifies this
      ensures Reaches(was, View())
      ensures handoffs == if made then old(handoffs)[id := h] else old(handoffs)
      ensures OnePut(was, View(), id, h)
      ensures old(calls) <= calls && Grown(was.run.value.branches, branches)
      ensures Saves(id, h, made) in calls
    {
      branches := branches[h.branch := h.sha];
      var may := *;
      if !may || !Indexed(records, id, h) { // it could not be saved
        calls := calls + {Saves(id, h, false)};
        OpenUnsaved(was, View(), id, h, landed);
        return false;
      }
      records := records[id := h];
      calls := calls + {Saves(id, h, true)};
      handoffs := handoffs[id := h];
      OpenMade(was, View(), id, h, landed);
      made := true;
    }

    /** A branch under a free name, and its pull request. */
    method OpenOne(ref: Ref, branch: string, sha: Commit, waiting: set<Node>, first: Node, id: nat, pr: nat)
      returns (made: bool, ghost full: Ref)
      requires !IsHandoff(ref) && id !in records
      requires (primary, pr) !in merged && forall other :: other in records ==>
        (records[other].primary, records[other].pr) != (primary, pr)
      modifies this
      ensures Reaches(old(View()), View())
      ensures if made then HandedOver(handoffs, ref, sha, waiting) else handoffs == old(handoffs)
      ensures old(calls) <= calls && Grown(old(branches), branches)
      ensures !made ==> GaveUp(calls, primary, old(branches), ref, sha)
      ensures HandoffNames.IsNext(full, first, branch, old(branches)) && Asked(calls, primary, Create(full, sha))
      ensures made ==> handoffs == old(handoffs)[id := Handoff(ref, sha, primary, waiting, full, pr, Open, None, None)]
      ensures forall k :: k in old(handoffs) && k != id ==> k in handoffs && handoffs[k] == old(handoffs)[k]
      ensures forall i, p :: Room(old(View()), i, p) && id < i && pr < p ==> Room(View(), i, p)
    {
      var name := HandoffNames.FreeBranch(first, branch, branches);
      full := name;
      var h := Handoff(ref, sha, primary, waiting, name, pr, Open, None, None);
      made := PushNew(id, h);
      if made { assert handoffs[id] == h && IsFor(h, ref, sha); }
    }

    /** The push of a new hand-off's branch, and what follows if it is taken. */
    method PushNew(id: nat, h: Handoff) returns (made: bool)
      requires h.primary == primary && h.phase == Open && h.decidedAt == None && h.backupUntil == None
      requires IsHandoff(h.branch) && !IsHandoff(h.ref) && h.branch !in branches && id !in records
      requires (primary, h.pr) !in merged && forall other :: other in records ==>
        (records[other].primary, records[other].pr) != (primary, h.pr)
      modifies this
      ensures Reaches(old(View()), View())
      ensures handoffs == if made then old(handoffs)[id := h] else old(handoffs)
      ensures old(calls) <= calls && Grown(old(branches), branches) && Asked(calls, primary, Create(h.branch, h.sha))
      ensures !made ==> GaveUp(calls, primary, old(branches), h.ref, h.sha)
      ensures forall i, p :: Room(old(View()), i, p) && id < i && h.pr < p ==> Room(View(), i, p)
    {
      ghost var was := View();
      var ok, stale; ghost var landed;
      ok, stale, landed := PushOne(primary, Create(h.branch, h.sha));
      CanOpen(was, id, h, landed, ok);
      assert Pushes(primary, Create(h.branch, h.sha), ok, stale) in calls;
      if !ok {
        FellAtPush(calls, primary, old(branches), h, stale);
        OpenRefused(was, View(), id, h, landed);
        RoomStaysFor(was, View(), id, h);
        return false;
      }
      made := Request(id, h, was, landed);
      if !made { FellAfterPush(calls, primary, old(branches), id, h); }
      RoomStaysFor(was, View(), id, h);
    }

    /** One diverged version: joined to the hand-off it has, added to the one it continues, or handed over anew. */
    method HandOff(ref: Ref, branch: string, sha: Commit, waiting: set<Node>, first: Node, ask: Ancestry, id: nat,
                   pr: nat) returns (done: bool)
      requires Truthful(ask) && !IsHandoff(ref) && id !in records && id !in handoffs
      requires (primary, pr) !in merged && forall other :: other in records ==>
        (records[other].primary, records[other].pr) != (primary, pr)
      modifies this
      ensures Reaches(old(View()), View())
      ensures if done then HandedOver(handoffs, ref, sha, waiting) else handoffs == old(handoffs)
      ensures (exists k :: k in old(handoffs) && IsFor(old(handoffs)[k], ref, sha)) ==> done
      ensures AllMovedFor(old(handoffs), handoffs, ref, sha, waiting) && OnlyNewFor(old(handoffs), handoffs, ref, sha, waiting)
      ensures old(calls) <= calls && Grown(old(branches), branches)
      ensures !done ==> NoneFor(handoffs, Version(ref, sha)) && GaveUp(calls, primary, old(branches), ref, sha)
      ensures
        NoneFor(old(handoffs), Version(ref, sha)) &&
        (exists k :: k in old(handoffs) && FollowsOn(old(handoffs)[k], ref, sha, waiting, ask) && Untouched(old(branches), old(handoffs)[k])) ==>
          ExtensionAsked(calls, primary, old(handoffs), ref, sha, waiting, ask)
      ensures forall i, p :: Room(old(View()), i, p) && id < i && pr < p ==> Room(View(), i, p)
    {
      ghost var was := View();
      var known := FindOpen(ref, sha);
      if known.Some? {
        Join(known.value, waiting);
        assert IsFor(handoffs[known.value], ref, sha);
        return true;
      }
      done := Extend(ref, sha, waiting, ask);
      if done { return; }
      ghost var mid, before := View(), calls;
      ghost var full;
      done, full := OpenOne(ref, branch, sha, waiting, first, id, pr);
      ReachesThrough(was, mid, View());
      if ExtensionAsked(before, primary, old(handoffs), ref, sha, waiting, ask) {
        ExtensionStays(before, calls, primary, old(handoffs), ref, sha, waiting, ask);
      }
    }

    /** The same version on more replicas. */
    method Join(k: nat, waiting: set<Node>)
      requires Known(View(), k, Open)
      modifies this
      ensures Reaches(old(View()), View())
      ensures handoffs == old(handoffs)[k := old(handoffs)[k].(nodes := old(handoffs)[k].nodes + waiting)]
      ensures old(calls) <= calls && branches == old(branches)
      ensures forall i, p :: Room(old(View()), i, p) ==> Room(View(), i, p)
    {
      ghost var was := View();
      ReachesItself(was);
      if handoffs[k].nodes != waiting {
        var h := handoffs[k].(nodes := handoffs[k].nodes + waiting);
        ghost var saved := SaveHandoff(k, h);
        handoffs := handoffs[k := h];
        ReachesByOne(was, Joins(k, waiting, saved));
        forall i, p | Room(was, i, p) ensures Room(View(), i, p) {
          RoomStays(was, View(), k, h, i, p);
        }
      } else {
        assert handoffs[k].(nodes := handoffs[k].nodes + waiting) == handoffs[k];
      }
    }

    /** Which replicas stand at which version. */
    method Group(found: seq<Divergence>) returns (groups: map<Version, set<Node>>)
      ensures GroupedBy(groups, found)
    {
      groups := map[];
      for i := 0 to |found|
        invariant GroupedBy(groups, found[..i])
      {
        var v := Version(found[i].ref, found[i].sha);
        assert found[..i + 1] == found[..i] + [found[i]];
        groups := groups[v := (if v in groups then groups[v] else {}) + {found[i].node}];
      }
      assert found[..|found|] == found;
    }

    /** One version, under the next id and at least the next pull request number. */
    method HandOffNext(v: Version, waiting: set<Node>, ask: Ancestry, nextId: nat, nextPr: nat) returns (done: bool, pr: nat)
      requires Truthful(ask) && !IsHandoff(v.ref) && waiting != {} && Room(View(), nextId, nextPr)
      modifies this
      ensures Reaches(old(View()), View()) && Room(View(), nextId + 1, pr + 1)
      ensures done ==> HandedOver(handoffs, v.ref, v.sha, waiting)
      ensures AllMovedFor(old(handoffs), handoffs, v.ref, v.sha, waiting) && OnlyNewFor(old(handoffs), handoffs, v.ref, v.sha, waiting)
      ensures old(calls) <= calls && Grown(old(branches), branches)
      ensures !done ==> NoneFor(handoffs, v) && GaveUp(calls, primary, old(branches), v.ref, v.sha)
      ensures
        NoneFor(old(handoffs), v) &&
        (exists k :: k in old(handoffs) && FollowsOn(old(handoffs)[k], v.ref, v.sha, waiting, ask) && Untouched(old(branches), old(handoffs)[k])) ==>
          ExtensionAsked(calls, primary, old(handoffs), v.ref, v.sha, waiting, ask)
    {
      var names := SortedList(waiting);
      var branch := if HEADS <= v.ref then v.ref[|HEADS|..] else v.ref;
      var others := *; // pull requests people opened meanwhile
      pr := if others > 0 then nextPr + others else nextPr;
      ghost var n :| n in waiting;
      assert n in Elements(names);
      assert Room(View(), nextId + 1, pr + 1);
      done := HandOff(v.ref, branch, v.sha, waiting, names[0], ask, nextId, pr);
    }

    /**
     * Every diverged version in turn, in any order. Each ends in an open hand-off that covers all its
     * replicas; or it was tried in full, and its branch, its pull request or its record was refused.
     * None that was held is dropped or taken from another version, and a version that continues one
     * led to a push of that one's branch.
     */
    method HandOffAll(found: seq<Divergence>, ask: Ancestry, nextId: nat, nextPr: nat)
      returns (failed: set<Version>, ghost groups: map<Version, set<Node>>)
      requires Truthful(ask) && OneHead(found) && forall d :: d in found ==> !IsHandoff(d.ref)
      requires Room(View(), nextId, nextPr)
      modifies this
      ensures Reaches(old(View()), View()) && NoneDropped(old(handoffs), handoffs)
      ensures forall d :: d in found && Version(d.ref, d.sha) !in failed ==> CoveredFor(handoffs, found, d)
      ensures GroupedBy(groups, found) && failed <= groups.Keys && AllTried(calls, primary, old(branches), handoffs, failed)
      ensures AllExtended(calls, primary, old(handoffs), old(branches), groups, {}, ask)
    {
      var versions := Group(found);
      groups := versions;
      failed := {};
      ReachesItself(View());
      var todo, id, pr := versions.Keys, nextId, nextPr;
      while todo != {}
        invariant todo <= groups.Keys && Reaches(old(View()), View()) && Room(View(), id, pr)
        invariant SoFar(calls, primary, old(handoffs), old(branches), handoffs, branches, groups, todo, failed, ask)
        decreases todo
      {
        var v :| v in todo;
        ghost var mid, before, asked, known := View(), handoffs, calls, branches;
        SomeStandsAt(groups, found, v);
        var done, used := HandOffNext(v, versions[v], ask, id, pr);
        ReachesThrough(old(View()), mid, View());
        OneMoreVersion(asked, calls, primary, old(handoffs), old(branches), before, known, handoffs, branches, groups, found, todo, failed,
                       v, done, ask);
        if !done { failed := failed + {v}; }
        id, pr, todo := id + 1, used + 1, todo - {v};
      }
      EachHandedOver(handoffs, groups, found, failed);
    }
  }
}
