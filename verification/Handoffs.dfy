/**
 * Hand-offs: a diverged branch version is kept on a branch of the primary while its owner
 * decides, and as a backup after the replicas were reset.
 *
 * A run works on the hand-offs it loaded; records are saved one by one and a save may fail (the
 * engine only logs that), and the run may stop between any two steps. People move any ref of any
 * node between any two steps, except under refs/heads/forgesync/conflict/, which is ForgeSync's.
 *
 * Here runs do not overlap, as those of one controller do not; in Overlaps they do.
 */
module Handoffs {
  import opened Optional
  import opened Commits
  import opened RefPlan
  import opened Replicate

  datatype Phase = Open | Merged | Gone | KeptPrimary | Expired

  datatype Handoff = Handoff(ref: Ref, sha: Commit, primary: Node, nodes: set<Node>, branch: Ref, pr: nat,
                             phase: Phase, decidedAt: Option<int>, backupUntil: Option<int>)

  predicate Active(h: Handoff) {
    h.phase == Open || h.phase == KeptPrimary
  }

  /** What one run holds: the primary's refs split in two as it listed them, and the active hand-offs as it loaded them. */
  datatype Memory = Memory(primary: Node, view: Refs, branches: Refs, handoffs: map<nat, Handoff>, started: int)

  /**
   * merged, closed and dealt are history: the pull requests Forgejo has reported merged, or closed,
   * and for each hand-off kept as a backup, when the pass began that dealt with its last replica.
   */
  datatype Site = Site(nodes: map<Node, Refs>, records: map<nat, Handoff>, run: Option<Memory>, clock: int, backupFor: nat,
                       merged: set<(Node, nat)>, closed: set<(Node, nat)>, dealt: map<nat, int>)

  datatype Deed =
    | Tick(d: nat)
    | UserMoves(node: Node, ref: Ref, to: Option<Commit>)
    | Seeds(node: Node, ref: Ref, at: Commit)                     // any ref, to a new copy on a new primary
    | Starts(primary: Node)
    | Ends                                                        // or crashes, at any point
    | FoundGone(id: nat, saved: bool)                             // the pull request is no longer there
    | FoundMerged(id: nat, landed: bool, ok: bool, saved: bool)
    | FoundClosed(id: nat)
    | Resets(id: nat, node: Node, landed: bool)                   // then one replica is reset
    | Decided(id: nat, left: set<Node>, saved: bool)              // and the replicas have been gone through
    | Expires(id: nat, landed: bool, ok: bool, saved: bool)
    | Joins(id: nat, nodes: set<Node>, saved: bool)               // more replicas stand at the same version
    | Extends(id: nat, head: Commit, landed: bool, ok: bool, saved: bool)
    | Opens(id: nat, h: Handoff, landed: bool, ok: bool, pr: bool, undone: bool, saved: bool)

  function On(w: Site, n: Node): Refs {
    if n in w.nodes then w.nodes[n] else map[]
  }

  function Known(w: Site, id: nat, phase: Phase): bool {
    w.run.Some? && id in w.run.value.handoffs && w.run.value.handoffs[id].phase == phase
  }

  /** The push of a branch's deletion, when the run knows the branch at all. */
  predicate DeletionLawful(w: Site, h: Handoff, landed: bool, ok: bool)
    requires w.run.Some?
  {
    var m := w.run.value;
    if h.branch in m.branches then Lawful(On(w, m.primary), Delete(h.branch, m.branches[h.branch]), landed, ok) else !landed && !ok
  }

  /** The database keeps one open hand-off for each head. */
  predicate Indexed(records: map<nat, Handoff>, id: nat, h: Handoff) {
    h.phase == Open ==>
      forall k :: k in records && k != id && records[k].phase == Open ==> records[k].ref != h.ref || records[k].sha != h.sha
  }

  ghost predicate Enabled(w: Site, e: Deed) {
    match e
    case Tick(_) => true
    case UserMoves(_, ref, _) => !IsHandoff(ref)
    case Seeds(n, ref, _) => w.run.None? && ref !in On(w, n)
    case Starts(_) => w.run.None?
    case Ends => w.run.Some?
    case FoundGone(id, _) => Known(w, id, Open)
    case FoundMerged(id, landed, ok, _) => Known(w, id, Open) && DeletionLawful(w, w.run.value.handoffs[id], landed, ok)
    case FoundClosed(id) => Known(w, id, Open) && (w.run.value.primary, w.run.value.handoffs[id].pr) !in w.merged
    case Resets(id, n, landed) =>
      && Known(w, id, Open)
      && var m := w.run.value; var h := m.handoffs[id];
      && n in h.nodes && (m.primary, h.pr) in w.closed && (m.primary, h.pr) !in w.merged
      && (landed ==> Lookup(On(w, n), h.ref) == Some(h.sha))
    case Decided(id, left, saved) =>
      && Known(w, id, Open)
      && var m := w.run.value; var h := m.handoffs[id];
      && left <= h.nodes && (m.primary, h.pr) in w.closed && (m.primary, h.pr) !in w.merged
      && (saved && left != {} ==> Indexed(w.records, id, h))
    case Expires(id, landed, ok, _) =>
      && Known(w, id, KeptPrimary)
      && var h := w.run.value.handoffs[id];
      && h.backupUntil.Some? && w.run.value.started > h.backupUntil.value && DeletionLawful(w, h, landed, ok)
    case Joins(id, _, saved) => Known(w, id, Open) && (saved ==> Indexed(w.records, id, w.run.value.handoffs[id]))
    case Extends(id, head, landed, ok, saved) =>
      && Known(w, id, Open)
      && var m := w.run.value; var h := m.handoffs[id];
      && Lookup(m.branches, h.branch) == Some(h.sha) && Ancestor(h.sha, head)
      && (saved ==> Indexed(w.records, id, h.(sha := head)))
      && Lawful(On(w, m.primary), FastForward(h.branch, h.sha, head), landed, ok)
    case Opens(id, h, landed, ok, pr, undone, saved) =>
      && w.run.Some? && id !in w.records && (saved ==> Indexed(w.records, id, h))
      && var m := w.run.value;
      && h.primary == m.primary && h.phase == Open && h.decidedAt == None && h.backupUntil == None
      && IsHandoff(h.branch) && !IsHandoff(h.ref) && h.branch !in m.branches
      && Lawful(On(w, m.primary), Create(h.branch, h.sha), landed, ok)
      && (undone ==> ok && !pr)
      && (pr ==> (m.primary, h.pr) !in w.merged)
      && (pr ==> forall other :: other in w.records ==> (w.records[other].primary, w.records[other].pr) != (m.primary, h.pr))
  }

  /** The one ref a deed writes. */
  datatype Write = Write(node: Node, ref: Ref, to: Option<Commit>)

  function WriteOf(w: Site, e: Deed): Option<Write>
    requires w.run.None? ==> e.Tick? || e.UserMoves? || e.Seeds? || e.Starts?
    requires e.FoundMerged? || e.Resets? || e.Expires? || e.Extends? ==> e.id in w.run.value.handoffs
  {
    match e
    case UserMoves(n, ref, to) => Some(Write(n, ref, to))
    case Seeds(n, ref, at) => Some(Write(n, ref, Some(at)))
    case FoundMerged(id, landed, _, _) => if landed then Some(Write(w.run.value.primary, w.run.value.handoffs[id].branch, None)) else None
    case Expires(id, landed, _, _) => if landed then Some(Write(w.run.value.primary, w.run.value.handoffs[id].branch, None)) else None
    case Resets(id, n, landed) =>
      var ref := w.run.value.handoffs[id].ref;
      if landed then Some(Write(n, ref, Lookup(w.run.value.view, ref))) else None
    case Extends(id, head, landed, _, _) => if landed then Some(Write(w.run.value.primary, w.run.value.handoffs[id].branch, Some(head))) else None
    case Opens(_, h, landed, _, _, undone, _) =>
      if undone then Some(Write(h.primary, h.branch, None)) // created, and taken back
      else if landed then Some(Write(h.primary, h.branch, Some(h.sha))) else None
    case _ => None
  }

  /** What a deed makes of one hand-off, and whether that could be saved. */
  datatype Change = Change(id: nat, h: Handoff, saved: bool)

  function ChangeOf(w: Site, e: Deed): Option<Change>
    requires w.run.None? ==> e.Tick? || e.UserMoves? || e.Seeds? || e.Starts?
    requires !e.Tick? && !e.UserMoves? && !e.Seeds? && !e.Starts? && !e.Ends? && !e.Opens? ==> e.id in w.run.value.handoffs
  {
    match e
    case FoundGone(id, saved) => Some(Change(id, w.run.value.handoffs[id].(phase := Gone, decidedAt := Some(w.run.value.started)), saved))
    case FoundMerged(id, _, _, saved) => Some(Change(id, w.run.value.handoffs[id].(phase := Merged, decidedAt := Some(w.run.value.started)), saved))
    case Expires(id, _, _, saved) => Some(Change(id, w.run.value.handoffs[id].(phase := Expired), saved))
    case Decided(id, left, saved) =>
      var was, now := w.run.value.handoffs[id], w.run.value.started;
      var h := was.(nodes := left, decidedAt := if was.decidedAt.None? then Some(now) else was.decidedAt);
      Some(Change(id, if left == {} then h.(phase := KeptPrimary, backupUntil := Some(now + w.backupFor)) else h, saved))
    case Joins(id, nodes, saved) => Some(Change(id, w.run.value.handoffs[id].(nodes := w.run.value.handoffs[id].nodes + nodes), saved))
    case Extends(id, head, _, ok, saved) => if ok then Some(Change(id, w.run.value.handoffs[id].(sha := head), saved)) else None
    case Opens(id, h, _, ok, pr, _, saved) => if ok && pr && saved then Some(Change(id, h, true)) else None
    case _ => None
  }

  /** The run goes on with a hand-off that is still active and drops one that is not. */
  function Carried(handoffs: map<nat, Handoff>, change: Option<Change>): map<nat, Handoff> {
    if change.None? then handoffs
    else if Active(change.value.h) then handoffs[change.value.id := change.value.h]
    else handoffs - {change.value.id}
  }

  function Recorded(records: map<nat, Handoff>, change: Option<Change>): map<nat, Handoff> {
    if change.Some? && change.value.saved then records[change.value.id := change.value.h] else records
  }

  function BranchesAfter(m: Memory, e: Deed): Refs {
    match e
    case FoundMerged(id, _, ok, _) => if ok && id in m.handoffs then m.branches - {m.handoffs[id].branch} else m.branches
    case Expires(id, _, ok, _) => if ok && id in m.handoffs then m.branches - {m.handoffs[id].branch} else m.branches
    case Opens(_, h, _, ok, pr, _, _) => if ok && pr then m.branches[h.branch := h.sha] else m.branches
    case _ => m.branches
  }

  function Loaded(w: Site, p: Node): Memory {
    Memory(p, Ordinary(On(w, p)), HandoffsOf(On(w, p)), map id | id in w.records && Active(w.records[id]) :: w.records[id], w.clock)
  }

  function Rewritten(w: Site, write: Option<Write>): map<Node, Refs> {
    if write.None? then w.nodes else w.nodes[write.value.node := Put(On(w, write.value.node), write.value.ref, write.value.to)]
  }

  ghost function Apply(w: Site, e: Deed): Site
    requires Enabled(w, e)
  {
    var change := ChangeOf(w, e);
    Site(
      Rewritten(w, WriteOf(w, e)),
      Recorded(w.records, change),
      if e.Starts? then Some(Loaded(w, e.primary))
      else if e.Ends? || w.run.None? then None
      else Some(w.run.value.(handoffs := Carried(w.run.value.handoffs, change), branches := BranchesAfter(w.run.value, e))),
      if e.Tick? then w.clock + e.d else w.clock,
      w.backupFor,
      if e.FoundMerged? then w.merged + {(w.run.value.primary, w.run.value.handoffs[e.id].pr)} else w.merged,
      if e.FoundClosed? then w.closed + {(w.run.value.primary, w.run.value.handoffs[e.id].pr)} else w.closed,
      if e.Decided? && e.left == {} then w.dealt[e.id := w.run.value.started] else w.dealt)
  }

  // ----- what the promise rests on -----

  /** The hand-off's branch is on the primary it was opened on, and contains what was handed off. */
  ghost predicate BackedUp(w: Site, h: Handoff) {
    var b := Lookup(On(w, h.primary), h.branch);
    b.Some? && Ancestor(h.sha, b.value)
  }

  predicate Ran(w: Site, h: Handoff) {
    h.phase == KeptPrimary && h.backupUntil.Some? && w.clock > h.backupUntil.value
  }

  /** Backed up, unless it was merged or its time as a backup is over. */
  ghost predicate Kept(w: Site, h: Handoff) {
    BackedUp(w, h) || (h.primary, h.pr) in w.merged || Ran(w, h)
  }

  /** No active record, whatever its primary, carries this branch name. */
  predicate NameFree(w: Site, branch: Ref) {
    forall id :: id in w.records && Active(w.records[id]) ==> w.records[id].branch != branch
  }

  predicate AtHome(w: Site, id: nat) {
    w.run.Some? && id in w.run.value.handoffs && w.run.value.handoffs[id].primary == w.run.value.primary
  }

  /**
   * What the engine does not check for itself: a hand-off is recorded only under a free name, and one
   * is moved along only on its own primary, or to commits that are safe there already.
   */
  ghost predicate Proper(w: Site, e: Deed)
    requires Enabled(w, e)
  {
    match e
    case Opens(_, h, _, ok, pr, _, saved) => ok && pr && saved ==> NameFree(w, h.branch)
    case Extends(id, head, _, ok, _) => ok ==> AtHome(w, id) || Kept(w, w.run.value.handoffs[id].(sha := head))
    case _ => true
  }

  // ----- the invariant -----

  ghost predicate Counted(w: Site, id: nat, h: Handoff) {
    h.phase == KeptPrimary ==> id in w.dealt && h.backupUntil == Some(w.dealt[id] + w.backupFor)
  }

  ghost predicate RecordOk(w: Site, id: nat, h: Handoff) {
    && IsHandoff(h.branch) && !IsHandoff(h.ref)
    && (Active(h) ==> Kept(w, h) && Counted(w, id, h))
  }

  ghost predicate HeldOk(w: Site, m: Memory, id: nat, h: Handoff) {
    && id in w.records && Active(w.records[id]) && Active(h)
    && h.primary == w.records[id].primary && h.branch == w.records[id].branch && h.pr == w.records[id].pr
    && RecordOk(w, id, h)
    && (w.records[id].phase == KeptPrimary ==> h.phase == KeptPrimary)
    && (h.phase == KeptPrimary ==>
          h.backupUntil == Some(m.started + w.backupFor) ||
          (w.records[id].phase == KeptPrimary && w.records[id].backupUntil == h.backupUntil))
  }

  /** Merged, or over its time: kept, whatever becomes of the branch. */
  ghost predicate Done(w: Site, h: Handoff) {
    (h.primary, h.pr) in w.merged || Ran(w, h)
  }

  /** A run on a hand-off's own primary knows its branch, unless there is no need for it any more. */
  ghost predicate Remembered(w: Site, h: Handoff) {
    w.run.Some? && h.primary == w.run.value.primary ==> h.branch in w.run.value.branches || Done(w, h)
  }

  ghost predicate Sound(w: Site) {
    && (forall id :: id in w.records ==> RecordOk(w, id, w.records[id]))
    && (forall id :: id in w.records && Active(w.records[id]) ==> Remembered(w, w.records[id]))
    && (forall a, b :: a in w.records && b in w.records && a != b && Active(w.records[a]) && Active(w.records[b]) ==>
          w.records[a].branch != w.records[b].branch)
    && (w.run.Some? ==>
          && w.run.value.started <= w.clock
          && (forall id :: id in w.run.value.handoffs ==> HeldOk(w, w.run.value, id, w.run.value.handoffs[id])))
  }

  /** The deed writes this ref of this node. */
  ghost predicate Touches(w: Site, e: Deed, n: Node, ref: Ref)
    requires Enabled(w, e)
  {
    WriteOf(w, e).Some? && WriteOf(w, e).value.node == n && WriteOf(w, e).value.ref == ref
  }

  lemma KeptStays(w: Site, e: Deed, h: Handoff)
    requires Enabled(w, e) && !Touches(w, e, h.primary, h.branch) && Kept(w, h)
    ensures Kept(Apply(w, e), h)
  {
    assert Lookup(On(Apply(w, e), h.primary), h.branch) == Lookup(On(w, h.primary), h.branch);
  }

  lemma DoneStays(w: Site, e: Deed, h: Handoff)
    requires Enabled(w, e) && Done(w, h)
    ensures Done(Apply(w, e), h)
  {
  }

  /** A deed that writes an active record's branch is about that record, or makes a branch where that one is no longer needed. */
  lemma TouchesOwn(w: Site, e: Deed, id: nat)
    requires Sound(w) && Enabled(w, e) && id in w.records && Active(w.records[id])
    requires Touches(w, e, w.records[id].primary, w.records[id].branch)
    ensures if e.Opens? || e.Seeds? then Done(w, w.records[id]) else (e.FoundMerged? || e.Expires? || (e.Extends? && AtHome(w, id))) && e.id == id
  {
    assert RecordOk(w, id, w.records[id]) && Remembered(w, w.records[id]);
    if !e.Opens? && !e.Seeds? && !e.UserMoves? {
      assert HeldOk(w, w.run.value, e.id, w.run.value.handoffs[e.id]);
    }
  }

  /** What is said of the record's being done is said of the run's copy too. */
  lemma DoneAsHeld(w: Site, id: nat)
    requires Sound(w) && w.run.Some? && id in w.run.value.handoffs && id in w.records && Done(w, w.records[id])
    ensures Done(w, w.run.value.handoffs[id])
  {
    assert HeldOk(w, w.run.value, id, w.run.value.handoffs[id]);
    assert RecordOk(w, id, w.records[id]);
  }

  lemma ExtendsKeeps(w: Site, e: Deed, h: Handoff)
    requires e.Extends? && Enabled(w, e) && AtHome(w, e.id) && Kept(w, h)
    requires var own := w.run.value.handoffs[e.id]; h.primary == own.primary && h.branch == own.branch
    ensures Kept(Apply(w, e), h)
    ensures e.ok ==> BackedUp(Apply(w, e), w.run.value.handoffs[e.id].(sha := e.head))
  {
    var own := w.run.value.handoffs[e.id];
    if BackedUp(w, h) && e.landed {
      AncestorTransitive(h.sha, own.sha, e.head);
    }
    assert Ancestor(e.head, e.head);
  }

  /** A record as it stands stays kept through any deed, whether or not the deed's own save works. */
  lemma RecordKept(w: Site, e: Deed, id: nat)
    requires Sound(w) && Enabled(w, e) && id in w.records && Active(w.records[id])
    ensures Kept(Apply(w, e), w.records[id])
  {
    var h := w.records[id];
    assert RecordOk(w, id, h);
    if !Touches(w, e, h.primary, h.branch) {
      KeptStays(w, e, h);
    } else {
      TouchesOwn(w, e, id);
      if !e.Opens? && !e.Seeds? { assert HeldOk(w, w.run.value, id, w.run.value.handoffs[id]); }
      match e {
        case Opens(_, _, _, _, _, _, _) => DoneStays(w, e, h);
        case Seeds(_, _, _) => DoneStays(w, e, h);
        case FoundMerged(_, _, _, _) => assert (h.primary, h.pr) in Apply(w, e).merged;
        case Expires(_, _, _, _) => assert Ran(w, h);
        case Extends(_, _, _, _, _) => ExtendsKeeps(w, e, h);
      }
    }
  }

  /** The same for what the run holds, as long as it goes on holding it. */
  lemma HeldKept(w: Site, e: Deed, id: nat)
    requires Sound(w) && Enabled(w, e) && w.run.Some? && id in w.run.value.handoffs
    requires !((e.FoundMerged? || e.Expires?) && e.id == id)
    ensures Kept(Apply(w, e), w.run.value.handoffs[id])
  {
    var h := w.run.value.handoffs[id];
    assert HeldOk(w, w.run.value, id, h);
    if !Touches(w, e, h.primary, h.branch) {
      KeptStays(w, e, h);
    } else {
      TouchesOwn(w, e, id);
      if e.Opens? {
        DoneAsHeld(w, id);
        DoneStays(w, e, h);
      } else {
        ExtendsKeeps(w, e, h);
      }
    }
  }

  lemma CountedStays(w: Site, e: Deed, id: nat, h: Handoff)
    requires Enabled(w, e) && Counted(w, id, h) && (e.Decided? && e.id == id ==> h.phase == Open)
    ensures Counted(Apply(w, e), id, h)
  {
  }

  /** What was recorded before is in order after. */
  lemma OldRecordOk(w: Site, e: Deed, id: nat)
    requires Sound(w) && Enabled(w, e) && id in w.records
    ensures RecordOk(Apply(w, e), id, w.records[id])
  {
    assert RecordOk(w, id, w.records[id]);
    if Active(w.records[id]) {
      RecordKept(w, e, id);
      if e.Decided? && e.id == id { assert HeldOk(w, w.run.value, id, w.run.value.handoffs[id]); }
      CountedStays(w, e, id, w.records[id]);
    }
  }

  /** And so is what the run held. */
  lemma OldHeldOk(w: Site, e: Deed, id: nat)
    requires Sound(w) && Enabled(w, e) && w.run.Some? && id in w.run.value.handoffs
    requires !((e.FoundMerged? || e.Expires?) && e.id == id)
    ensures RecordOk(Apply(w, e), id, w.run.value.handoffs[id])
  {
    assert HeldOk(w, w.run.value, id, w.run.value.handoffs[id]);
    HeldKept(w, e, id);
    CountedStays(w, e, id, w.run.value.handoffs[id]);
  }

  lemma ChangeIs(w: Site, e: Deed)
    requires Enabled(w, e) && ChangeOf(w, e).Some?
    ensures ChangeOf(w, e).value.id == e.id
    ensures !e.Opens? ==>
      var was, h := w.run.value.handoffs[e.id], ChangeOf(w, e).value.h;
      && h.primary == was.primary && h.branch == was.branch && h.pr == was.pr && h.ref == was.ref
      && (Active(h) ==> was.phase == Open && (h.sha == was.sha || (e.Extends? && e.ok && h == was.(sha := e.head))))
      && (h.phase == KeptPrimary ==> h.backupUntil == Some(w.run.value.started + w.backupFor))
    ensures Active(ChangeOf(w, e).value.h) ==> Counted(Apply(w, e), e.id, ChangeOf(w, e).value.h)
  {
  }

  /** A hand-off moved along is kept exactly when the extension was proper. */
  lemma ExtendedKept(w: Site, e: Deed)
    requires Sound(w) && Enabled(w, e) && e.Extends? && e.ok
    ensures Kept(Apply(w, e), w.run.value.handoffs[e.id].(sha := e.head)) <==> Proper(w, e)
  {
    var was := w.run.value.handoffs[e.id];
    assert HeldOk(w, w.run.value, e.id, was);
    if AtHome(w, e.id) {
      ExtendsKeeps(w, e, was);
    } else {
      assert Lookup(On(Apply(w, e), was.primary), was.branch) == Lookup(On(w, was.primary), was.branch);
    }
  }

  /** The hand-off a deed changed, as it leaves it. */
  lemma ChangedOk(w: Site, e: Deed)
    requires Sound(w) && Enabled(w, e) && Proper(w, e) && ChangeOf(w, e).Some?
    ensures RecordOk(Apply(w, e), e.id, ChangeOf(w, e).value.h)
  {
    var h, w' := ChangeOf(w, e).value.h, Apply(w, e);
    ChangeIs(w, e);
    if e.Opens? {
      assert Ancestor(h.sha, h.sha);
      assert BackedUp(w', h);
    } else {
      var was := w.run.value.handoffs[e.id];
      assert HeldOk(w, w.run.value, e.id, was);
      if Active(h) {
        HeldKept(w, e, e.id);
        if e.Extends? { ExtendedKept(w, e); }
        assert Kept(w', h);
      }
    }
  }

  lemma RecordAfter(w: Site, e: Deed, id: nat)
    requires Sound(w) && Enabled(w, e) && Proper(w, e) && id in Apply(w, e).records
    ensures RecordOk(Apply(w, e), id, Apply(w, e).records[id])
  {
    var change := ChangeOf(w, e);
    if change.Some? && change.value.saved && change.value.id == id {
      ChangedOk(w, e);
    } else {
      OldRecordOk(w, e, id);
    }
  }

  /** A record a deed leaves active was active, with the same branch, or was just opened. */
  lemma BranchStays(w: Site, e: Deed, id: nat)
    requires Sound(w) && Enabled(w, e) && id in Apply(w, e).records && Active(Apply(w, e).records[id])
    ensures (e.Opens? && e.id == id) || (id in w.records && Active(w.records[id]) && Apply(w, e).records[id].branch == w.records[id].branch)
    ensures e.Opens? && e.id == id ==> Apply(w, e).records[id] == e.h
  {
    var change := ChangeOf(w, e);
    if change.Some? && change.value.saved && change.value.id == id && !e.Opens? {
      assert HeldOk(w, w.run.value, id, w.run.value.handoffs[id]);
    }
  }

  lemma PrimaryStays(w: Site, e: Deed, id: nat)
    requires Sound(w) && Enabled(w, e) && !(e.Opens? && e.id == id) && id in w.records && id in Apply(w, e).records
    ensures Apply(w, e).records[id].primary == w.records[id].primary && Apply(w, e).records[id].pr == w.records[id].pr
  {
    if ChangeOf(w, e).Some? && !e.Opens? {
      ChangeIs(w, e);
      assert HeldOk(w, w.run.value, e.id, w.run.value.handoffs[e.id]);
    }
  }

  /** A record that is done stays done, whatever is written into it while it is active. */
  lemma RecordDoneStays(w: Site, e: Deed, id: nat)
    requires Sound(w) && Enabled(w, e) && id in w.records && Active(w.records[id]) && Done(w, w.records[id])
    requires id in Apply(w, e).records && Active(Apply(w, e).records[id]) && !(e.Opens? && e.id == id)
    ensures Done(Apply(w, e), Apply(w, e).records[id])
  {
    PrimaryStays(w, e, id);
    DoneStays(w, e, w.records[id]);
    if ChangeOf(w, e).Some? && e.id == id {
      ChangeIs(w, e);
      assert HeldOk(w, w.run.value, id, w.run.value.handoffs[id]);
    }
  }

  lemma RememberedAtStart(w: Site, p: Node, id: nat)
    requires Sound(w) && Enabled(w, Starts(p)) && id in w.records && Active(w.records[id])
    ensures Remembered(Apply(w, Starts(p)), w.records[id])
  {
    assert RecordOk(w, id, w.records[id]);
  }

  /** A run forgets a branch it knew only by ending the hand-off it belongs to. */
  lemma ForgottenIsDone(w: Site, e: Deed, id: nat)
    requires Sound(w) && Enabled(w, e) && (e.FoundMerged? || e.Expires?)
    requires id in w.records && Active(w.records[id]) && w.records[id].primary == w.run.value.primary
    requires w.run.value.handoffs[e.id].branch == w.records[id].branch
    ensures e.id == id && Done(Apply(w, e), w.records[id])
  {
    assert HeldOk(w, w.run.value, e.id, w.run.value.handoffs[e.id]);
    assert e.id == id;
    if e.Expires? { assert Ran(w, w.records[id]); }
  }

  lemma RememberedAfter(w: Site, e: Deed, id: nat)
    requires Sound(w) && Enabled(w, e) && id in Apply(w, e).records && Active(Apply(w, e).records[id])
    ensures Remembered(Apply(w, e), Apply(w, e).records[id])
  {
    BranchStays(w, e, id);
    if e.Starts? {
      RememberedAtStart(w, e.primary, id);
    } else if !(e.Opens? && e.id == id) && Apply(w, e).run.Some? {
      PrimaryStays(w, e, id);
      var h := w.records[id];
      if h.primary == w.run.value.primary {
        assert Remembered(w, h);
        if Done(w, h) {
          RecordDoneStays(w, e, id);
        } else if (e.FoundMerged? || e.Expires?) && w.run.value.handoffs[e.id].branch == h.branch {
          ForgottenIsDone(w, e, id);
          EndedRecord(w, e, id);
        }
      }
    }
  }

  /** A hand-off the run ended that is still active is one whose record could not be saved. */
  lemma EndedRecord(w: Site, e: Deed, id: nat)
    requires Enabled(w, e) && (e.FoundMerged? || e.Expires?) && e.id == id && id in w.records
    requires id in Apply(w, e).records && Active(Apply(w, e).records[id])
    ensures Apply(w, e).records[id] == w.records[id]
  {
  }

  lemma UniqueAfter(w: Site, e: Deed, a: nat, b: nat)
    requires Sound(w) && Enabled(w, e) && Proper(w, e) && a != b
    requires a in Apply(w, e).records && b in Apply(w, e).records && Active(Apply(w, e).records[a]) && Active(Apply(w, e).records[b])
    ensures Apply(w, e).records[a].branch != Apply(w, e).records[b].branch
  {
    BranchStays(w, e, a);
    BranchStays(w, e, b);
  }

  lemma HeldChanged(w: Site, e: Deed)
    requires Enabled(w, e) && ChangeOf(w, e).Some? && Active(ChangeOf(w, e).value.h)
    requires RecordOk(Apply(w, e), e.id, ChangeOf(w, e).value.h)
    requires !e.Opens? ==> HeldOk(w, w.run.value, e.id, w.run.value.handoffs[e.id])
    ensures Apply(w, e).run.Some? && HeldOk(Apply(w, e), Apply(w, e).run.value, e.id, ChangeOf(w, e).value.h)
  {
    ChangeIs(w, e);
  }

  lemma HeldUnchanged(w: Site, e: Deed, id: nat)
    requires Enabled(w, e) && w.run.Some? && Apply(w, e).run.Some? && id in w.run.value.handoffs
    requires ChangeOf(w, e).Some? ==> ChangeOf(w, e).value.id != id
    requires HeldOk(w, w.run.value, id, w.run.value.handoffs[id])
    requires RecordOk(Apply(w, e), id, w.run.value.handoffs[id])
    ensures HeldOk(Apply(w, e), Apply(w, e).run.value, id, w.run.value.handoffs[id])
  {
    var change := ChangeOf(w, e);
    assert Apply(w, e).records == Recorded(w.records, change);
    assert !e.Starts?;
  }

  lemma HeldAfter(w: Site, e: Deed, id: nat)
    requires Sound(w) && Enabled(w, e) && Proper(w, e) && Apply(w, e).run.Some? && id in Apply(w, e).run.value.handoffs
    ensures HeldOk(Apply(w, e), Apply(w, e).run.value, id, Apply(w, e).run.value.handoffs[id])
  {
    var change := ChangeOf(w, e);
    if e.Starts? {
      OldRecordOk(w, e, id);
    } else if change.Some? && change.value.id == id {
      ChangeIs(w, e);
      ChangedOk(w, e);
      HeldChanged(w, e);
    } else {
      OldHeldOk(w, e, id);
      HeldUnchanged(w, e, id);
    }
  }

  lemma SoundStep(w: Site, e: Deed)
    requires Sound(w) && Enabled(w, e) && Proper(w, e)
    ensures Sound(Apply(w, e))
  {
    var w' := Apply(w, e);
    forall id | id in w'.records ensures RecordOk(w', id, w'.records[id]) {
      RecordAfter(w, e, id);
    }
    forall id | id in w'.records && Active(w'.records[id]) ensures Remembered(w', w'.records[id]) {
      RememberedAfter(w, e, id);
    }
    forall a, b | a in w'.records && b in w'.records && a != b && Active(w'.records[a]) && Active(w'.records[b])
      ensures w'.records[a].branch != w'.records[b].branch
    {
      UniqueAfter(w, e, a, b);
    }
    if w'.run.Some? {
      forall id | id in w'.run.value.handoffs ensures HeldOk(w', w'.run.value, id, w'.run.value.handoffs[id]) {
        HeldAfter(w, e, id);
      }
    }
  }

  /** Exactly the proper deeds keep the invariant. */
  lemma SoundExactlyWhenProper(w: Site, e: Deed)
    requires Sound(w) && Enabled(w, e)
    ensures Sound(Apply(w, e)) <==> Proper(w, e)
  {
    if Proper(w, e) {
      SoundStep(w, e);
    } else if e.Extends? {
      ExtendedKept(w, e);
      UnkeptIsUnsound(w, e);
    } else {
      NameTakenIsUnsound(w, e);
    }
  }

  lemma UnkeptIsUnsound(w: Site, e: Deed)
    requires Enabled(w, e) && e.Extends? && e.ok && !Kept(Apply(w, e), w.run.value.handoffs[e.id].(sha := e.head))
    ensures !Sound(Apply(w, e))
  {
    var h := w.run.value.handoffs[e.id].(sha := e.head);
    var m := Apply(w, e).run.value;
    assert e.id in m.handoffs && m.handoffs[e.id] == h;
    assert !HeldOk(Apply(w, e), m, e.id, h);
  }

  lemma NameTakenIsUnsound(w: Site, e: Deed)
    requires Enabled(w, e) && e.Opens? && e.ok && e.pr && e.saved && !NameFree(w, e.h.branch)
    ensures !Sound(Apply(w, e))
  {
    var id :| id in w.records && Active(w.records[id]) && w.records[id].branch == e.h.branch;
    var after := Apply(w, e).records;
    assert after == w.records[e.id := e.h];
    assert id in after && e.id in after && id != e.id && Active(after[id]) && Active(after[e.id]);
  }

  // ----- behaviours -----

  /** From any repository with no hand-offs yet. */
  ghost predicate Behaviour(ws: seq<Site>, es: seq<Deed>) {
    && |ws| == |es| + 1
    && ws[0].records == map[] && ws[0].run == None
    && forall i :: 0 <= i < |es| ==> Enabled(ws[i], es[i]) && ws[i + 1] == Apply(ws[i], es[i])
  }

  ghost predicate ProperUpTo(ws: seq<Site>, es: seq<Deed>, k: nat)
    requires Behaviour(ws, es) && k <= |es|
  {
    forall i :: 0 <= i < k ==> Proper(ws[i], es[i])
  }

  lemma {:induction false} SoundAlways(ws: seq<Site>, es: seq<Deed>, k: nat)
    requires Behaviour(ws, es) && k <= |es| && ProperUpTo(ws, es, k)
    ensures Sound(ws[k])
  {
    if k > 0 {
      SoundAlways(ws, es, k - 1);
      assert Proper(ws[k - 1], es[k - 1]);
      SoundStep(ws[k - 1], es[k - 1]);
    }
  }

  /**
   * What a hand-off reset or delete takes off a replica is on the hand-off's branch, whichever node
   * is the primary by then: the head it replaces was the one handed off, and every commit it contains
   * is contained in the branch, unless its pull request was merged before the primary was moved.
   */
  lemma ResetsKeepABackup(ws: seq<Site>, es: seq<Deed>, k: nat, n: Node, c: Commit)
    requires Behaviour(ws, es) && k < |es| && ProperUpTo(ws, es, k + 1) && es[k].Resets?
    requires n == es[k].node && es[k].landed
    ensures
      var h := ws[k].run.value.handoffs[es[k].id];
      && Lookup(On(ws[k], n), h.ref) == Some(h.sha)
      && (Ancestor(c, h.sha) ==>
            (h.branch in On(ws[k], h.primary) && Ancestor(c, On(ws[k], h.primary)[h.branch])) ||
            (h.primary != ws[k].run.value.primary && (h.primary, h.pr) in ws[k].merged))
  {
    SoundAlways(ws, es, k);
    assert Proper(ws[k], es[k]);
    var w := ws[k];
    var h := w.run.value.handoffs[es[k].id];
    assert HeldOk(w, w.run.value, es[k].id, h);
    if Ancestor(c, h.sha) && BackedUp(w, h) {
      AncestorTransitive(c, h.sha, On(w, h.primary)[h.branch]);
    }
  }

  /**
   * A hand-off's branch goes only when its own pull request has been reported merged, or when
   * BackupFor is over, counted from the start of the pass that dealt with its last replica; and it
   * goes by a deed about this hand-off, or as a leftover under a name that is tried again.
   */
  lemma DeletionsAreDue(ws: seq<Site>, es: seq<Deed>, k: nat, id: nat)
    requires Behaviour(ws, es) && k < |es| && ProperUpTo(ws, es, k + 1)
    requires id in ws[k].records && Active(ws[k].records[id])
    requires
      var h := ws[k].records[id];
      h.branch in On(ws[k], h.primary) && h.branch !in On(ws[k + 1], h.primary)
    ensures
      var w, e, h := ws[k], es[k], ws[k].records[id];
      && ((h.primary, h.pr) in ws[k + 1].merged || (id in w.dealt && w.clock > w.dealt[id] + w.backupFor))
      && (((e.FoundMerged? || e.Expires?) && e.id == id) || (e.Opens? && e.undone && Done(w, h)))
  {
    SoundAlways(ws, es, k);
    var w, e := ws[k], es[k];
    var h := w.records[id];
    assert Proper(w, e) && RecordOk(w, id, h);
    assert Touches(w, e, h.primary, h.branch);
    TouchesOwn(w, e, id);
    if !e.Opens? { assert HeldOk(w, w.run.value, id, w.run.value.handoffs[id]); }
  }

  /** A pull request the program took for closed was reported so, to a run on that node, for a hand-off of that number. */
  lemma {:induction false} ClosedWasReported(ws: seq<Site>, es: seq<Deed>, k: nat, p: Node, pr: nat) returns (j: nat)
    requires Behaviour(ws, es) && k <= |es| && (p, pr) in ws[k].closed && (p, pr) !in ws[0].closed
    ensures j < k && es[j].FoundClosed? && ws[j].run.value.primary == p && ws[j].run.value.handoffs[es[j].id].pr == pr
  {
    if (p, pr) in ws[k - 1].closed {
      j := ClosedWasReported(ws, es, k - 1, p, pr);
    } else {
      j := k - 1;
    }
  }

  /**
   * A replica is reset, or gone through, only after Forgejo reported the hand-off's pull request
   * number closed and not merged: on the node the run takes for the primary, so it is the hand-off's
   * own pull request exactly when the run is at home.
   */
  lemma ResetsAreAsked(ws: seq<Site>, es: seq<Deed>, k: nat) returns (j: nat)
    requires Behaviour(ws, es) && k < |es| && (es[k].Resets? || es[k].Decided?) && ws[0].closed == {}
    ensures
      var p, h := ws[k].run.value.primary, ws[k].run.value.handoffs[es[k].id];
      && j < k && es[j].FoundClosed? && (p, h.pr) !in ws[k].merged
      && (ws[j].run.value.primary, ws[j].run.value.handoffs[es[j].id].pr) == (p, h.pr)
      && ((p, h.pr) == (h.primary, h.pr) <==> AtHome(ws[k], es[k].id))
  {
    assert Enabled(ws[k], es[k]);
    j := ClosedWasReported(ws, es, k, ws[k].run.value.primary, ws[k].run.value.handoffs[es[k].id].pr);
  }

  /** Over every behaviour: all active hand-offs are in order throughout exactly when every deed was proper. */
  lemma SoundThroughoutExactlyWhenProper(ws: seq<Site>, es: seq<Deed>)
    requires Behaviour(ws, es)
    ensures (forall k :: 0 <= k <= |es| ==> Sound(ws[k])) <==> ProperUpTo(ws, es, |es|)
  {
    if ProperUpTo(ws, es, |es|) {
      forall k | 0 <= k <= |es| ensures Sound(ws[k]) { SoundAlways(ws, es, k); }
    }
    if forall k :: 0 <= k <= |es| ==> Sound(ws[k]) {
      forall i | 0 <= i < |es| ensures Proper(ws[i], es[i]) {
        assert Sound(ws[i]) && Sound(ws[i + 1]);
        SoundExactlyWhenProper(ws[i], es[i]);
      }
    }
  }

  // ----- when the conditions hold by themselves -----

  /**
   * A hand-off whose branch may be gone is recorded so, and a run starts on another primary only
   * while no hand-off of the old one is active.
   */
  ghost predicate Careful(w: Site, e: Deed) {
    && (e.FoundMerged? || e.Expires? ==> e.saved)
    && (e.Starts? ==> forall id :: id in w.records && Active(w.records[id]) ==> w.records[id].primary == e.primary)
  }

  ghost predicate FirmRecord(w: Site, h: Handoff) {
    && h.branch in On(w, h.primary)
    && (w.run.Some? ==> h.primary == w.run.value.primary && h.branch in w.run.value.branches)
  }

  ghost predicate Firm(w: Site) {
    forall id :: id in w.records && Active(w.records[id]) ==> FirmRecord(w, w.records[id])
  }

  lemma CarefulProper(w: Site, e: Deed)
    requires Sound(w) && Firm(w) && Enabled(w, e)
    ensures Proper(w, e)
  {
    if e.Extends? {
      assert HeldOk(w, w.run.value, e.id, w.run.value.handoffs[e.id]);
      assert FirmRecord(w, w.records[e.id]);
    } else if e.Opens? {
      forall id | id in w.records && Active(w.records[id]) ensures w.records[id].branch != e.h.branch {
        assert FirmRecord(w, w.records[id]);
      }
    }
  }

  /** A hand-off a deed leaves active keeps its branch on its primary. */
  lemma FirmOnNode(w: Site, e: Deed, h: Handoff)
    requires Enabled(w, e) && h.branch in On(w, h.primary)
    requires Touches(w, e, h.primary, h.branch) ==> e.Extends?
    ensures h.branch in On(Apply(w, e), h.primary)
  {
  }

  lemma FirmInMemory(w: Site, e: Deed, h: Handoff)
    requires Enabled(w, e) && IsHandoff(h.branch) && FirmRecord(w, h)
    requires e.Starts? ==> e.primary == h.primary
    requires e.FoundMerged? || e.Expires? ==> w.run.value.handoffs[e.id].branch != h.branch
    ensures Apply(w, e).run.Some? ==> h.primary == Apply(w, e).run.value.primary && h.branch in Apply(w, e).run.value.branches
  {
  }

  lemma NotEnded(w: Site, e: Deed, id: nat)
    requires Enabled(w, e) && Careful(w, e) && id in Apply(w, e).records && Active(Apply(w, e).records[id])
    ensures e.FoundMerged? || e.Expires? ==> e.id != id
  {
    if ChangeOf(w, e).Some? { ChangeIs(w, e); }
  }

  lemma OtherBranch(w: Site, m: Memory, k: nat, id: nat)
    requires k in m.handoffs && HeldOk(w, m, k, m.handoffs[k]) && id in w.records
    requires w.records[k].branch != w.records[id].branch
    ensures m.handoffs[k].branch != w.records[id].branch
  {
  }

  lemma NotTouched(w: Site, e: Deed, id: nat)
    requires Sound(w) && Enabled(w, e) && id in w.records && Active(w.records[id]) && FirmRecord(w, w.records[id])
    requires e.FoundMerged? || e.Expires? ==> e.id != id
    ensures Touches(w, e, w.records[id].primary, w.records[id].branch) ==> e.Extends?
  {
    if Touches(w, e, w.records[id].primary, w.records[id].branch) {
      if !e.Opens? { TouchesOwn(w, e, id); }
    }
  }

  lemma FirmAfter(w: Site, e: Deed, id: nat)
    requires Sound(w) && Firm(w) && Enabled(w, e) && Careful(w, e)
    requires id in Apply(w, e).records && Active(Apply(w, e).records[id])
    ensures FirmRecord(Apply(w, e), Apply(w, e).records[id])
  {
    BranchStays(w, e, id);
    if !(e.Opens? && e.id == id) {
      var h := w.records[id];
      assert RecordOk(w, id, h) && FirmRecord(w, h);
      NotEnded(w, e, id);
      PrimaryStays(w, e, id);
      if e.FoundMerged? || e.Expires? {
        assert HeldOk(w, w.run.value, e.id, w.run.value.handoffs[e.id]);
        OtherBranch(w, w.run.value, e.id, id);
      }
      NotTouched(w, e, id);
      FirmOnNode(w, e, h);
      FirmInMemory(w, e, h);
    }
  }

  lemma FirmStep(w: Site, e: Deed)
    requires Sound(w) && Firm(w) && Enabled(w, e) && Careful(w, e)
    ensures Proper(w, e) && Firm(Apply(w, e))
  {
    CarefulProper(w, e);
    forall id | id in Apply(w, e).records && Active(Apply(w, e).records[id]) ensures FirmRecord(Apply(w, e), Apply(w, e).records[id]) {
      FirmAfter(w, e, id);
    }
  }

  ghost predicate CarefulUpTo(ws: seq<Site>, es: seq<Deed>, k: nat)
    requires Behaviour(ws, es) && k <= |es|
  {
    forall i :: 0 <= i < k ==> Careful(ws[i], es[i])
  }

  /** However often the primary is moved: if only between hand-offs, and merged and expired ones are recorded as such, every deed is proper. */
  lemma {:induction false} CarefulRunsAreProper(ws: seq<Site>, es: seq<Deed>, k: nat)
    requires Behaviour(ws, es) && k <= |es| && CarefulUpTo(ws, es, k)
    ensures ProperUpTo(ws, es, k) && Firm(ws[k])
  {
    if k > 0 {
      CarefulRunsAreProper(ws, es, k - 1);
      SoundAlways(ws, es, k - 1);
      assert Careful(ws[k - 1], es[k - 1]);
      FirmStep(ws[k - 1], es[k - 1]);
    }
  }

  // ----- and when they do not -----

  /** What a list of deeds leads to, if each can be done and is proper. */
  ghost function ApplyProperly(w: Site, es: seq<Deed>): Option<Site>
    decreases |es|
  {
    if es == [] then Some(w)
    else if Enabled(w, es[0]) && Proper(w, es[0]) then ApplyProperly(Apply(w, es[0]), es[1..])
    else None
  }

  ghost predicate Lost(w: Site) {
    exists id :: id in w.records && Active(w.records[id]) && !Kept(w, w.records[id])
  }

  /** Some proper deeds lead to an active hand-off without its branch, not merged and not over its time. */
  ghost predicate CanLose(w: Site) {
    exists es :: ApplyProperly(w, es).Some? && Lost(ApplyProperly(w, es).value)
  }

  lemma LosesNow(w: Site)
    requires Lost(w)
    ensures CanLose(w)
  {
    assert ApplyProperly(w, []) == Some(w);
  }

  lemma LosesLater(w: Site, e: Deed)
    requires Enabled(w, e) && Proper(w, e) && CanLose(Apply(w, e))
    ensures CanLose(w)
  {
    var es :| ApplyProperly(Apply(w, e), es).Some? && Lost(ApplyProperly(Apply(w, e), es).value);
    assert ([e] + es)[1..] == es;
    assert ApplyProperly(w, [e] + es) == ApplyProperly(Apply(w, e), es);
  }

  lemma {:induction false} SoundAfterProper(w: Site, es: seq<Deed>)
    requires Sound(w) && ApplyProperly(w, es).Some?
    ensures Sound(ApplyProperly(w, es).value)
    decreases |es|
  {
    if es != [] {
      SoundStep(w, es[0]);
      SoundAfterProper(Apply(w, es[0]), es[1..]);
    }
  }

  lemma SoundCannotLose(w: Site)
    requires Sound(w)
    ensures !CanLose(w)
  {
    forall es | ApplyProperly(w, es).Some? ensures !Lost(ApplyProperly(w, es).value) {
      SoundAfterProper(w, es);
      var end := ApplyProperly(w, es).value;
      forall id | id in end.records && Active(end.records[id]) ensures Kept(end, end.records[id]) {
        assert RecordOk(end, id, end.records[id]);
      }
    }
  }

  /** Two active hand-offs under one name, the second open and backed up on this primary, between two runs. */
  ghost predicate Clash(w: Site, k: nat, n: nat) {
    && k in w.records && n in w.records && k != n && w.run == None
    && Active(w.records[k]) && w.records[n].phase == Open && w.records[k].branch == w.records[n].branch
    && IsHandoff(w.records[n].branch) && w.records[n].branch in On(w, w.records[n].primary)
    && (w.records[n].primary, w.records[n].pr) !in w.merged
  }

  /** The next run on that primary ends the first, and deletes the branch under the second. */
  lemma EndingLoses(w: Site, k: nat, n: nat, e: Deed)
    requires w.run.Some? && k in w.records && n in w.records && k != n && k in w.run.value.handoffs
    requires w.records[n].phase == Open && w.run.value.primary == w.records[n].primary
    requires w.run.value.handoffs[k].branch == w.records[n].branch && (w.records[n].primary, w.records[n].pr) !in w.merged
    requires e == Expires(k, true, true, true) || e == FoundMerged(k, true, true, true)
    requires e.FoundMerged? ==> (w.run.value.primary, w.run.value.handoffs[k].pr) in w.merged
    requires Enabled(w, e)
    ensures CanLose(w)
  {
    var after := Apply(w, e);
    assert after.records[n] == w.records[n];
    assert w.records[n].branch !in On(after, w.records[n].primary);
    assert after.merged == w.merged;
    LosesNow(after);
    LosesLater(w, e);
  }

  lemma StartsWith(w: Site, p: Node, id: nat, branch: Ref)
    requires w.run == None && id in w.records && Active(w.records[id]) && IsHandoff(branch) && branch in On(w, p)
    ensures
      var after := Apply(w, Starts(p));
      && after.run.Some? && after.run.value.primary == p && after.run.value.started == w.clock
      && after.records == w.records && after.merged == w.merged && after.clock == w.clock && On(after, p) == On(w, p)
      && Lookup(after.run.value.handoffs, id) == Some(w.records[id])
      && Lookup(after.run.value.branches, branch) == Some(On(w, p)[branch])
  {
  }

  lemma ClashLosesByExpiry(w: Site, k: nat, n: nat)
    requires Clash(w, k, n) && w.records[k].phase == KeptPrimary && w.records[k].backupUntil.Some?
    ensures CanLose(w)
  {
    var until, p := w.records[k].backupUntil.value, w.records[n].primary;
    var d := if until < w.clock then 0 else until + 1 - w.clock;
    var later := Apply(w, Tick(d));
    assert On(later, p) == On(w, p) && later.records == w.records && later.merged == w.merged;
    StartsWith(later, p, k, w.records[n].branch);
    EndingLoses(Apply(later, Starts(p)), k, n, Expires(k, true, true, true));
    LosesLater(later, Starts(p));
    LosesLater(w, Tick(d));
  }

  lemma ClashLosesByMerge(w: Site, k: nat, n: nat)
    requires Clash(w, k, n) && w.records[k].phase == Open && (w.records[n].primary, w.records[k].pr) in w.merged
    ensures CanLose(w)
  {
    var p := w.records[n].primary;
    StartsWith(w, p, k, w.records[n].branch);
    EndingLoses(Apply(w, Starts(p)), k, n, FoundMerged(k, true, true, true));
    LosesLater(w, Starts(p));
  }

  /** A clash with an open hand-off becomes one with a backup as soon as it is decided. */
  lemma ClashLosesByDecision(w: Site, k: nat, n: nat)
    requires Clash(w, k, n) && w.records[k].phase == Open && (w.records[n].primary, w.records[k].pr) !in w.merged
    ensures CanLose(w)
  {
    var p := w.records[n].primary;
    StartsWith(w, p, k, w.records[n].branch);
    var w1 := Apply(w, Starts(p));
    var w2 := Apply(w1, FoundClosed(k));
    assert w2.run.value.handoffs == w1.run.value.handoffs;
    var w3 := Apply(w2, Decided(k, {}, true));
    assert w3.records == w.records[k := w3.records[k]] && On(w3, p) == On(w, p) && w3.merged == w.merged;
    var w4 := Apply(w3, Ends);
    assert w4.records == w3.records && On(w4, p) == On(w3, p);
    assert Clash(w4, k, n);
    ClashLosesByExpiry(w4, k, n);
    LosesLater(w3, Ends);
    LosesLater(w2, Decided(k, {}, true));
    LosesLater(w1, FoundClosed(k));
    LosesLater(w, Starts(p));
  }

  /**
   * Recording a hand-off under a name is safe against everything that may properly follow, if and
   * only if no active record, of this primary or any other, carries the name: which could be checked
   * when the name is chosen, where only the branches of the current primary are.
   */
  lemma OpeningIsSafeExactlyWhen(w: Site, e: Deed)
    requires Sound(w) && Enabled(w, e) && e.Opens? && e.ok && e.pr && e.saved
    ensures !CanLose(Apply(w, e)) <==> NameFree(w, e.h.branch)
  {
    if NameFree(w, e.h.branch) {
      SoundStep(w, e);
      SoundCannotLose(Apply(w, e));
    } else {
      var k :| k in w.records && Active(w.records[k]) && w.records[k].branch == e.h.branch;
      assert RecordOk(w, k, w.records[k]);
      var after := Apply(w, e);
      OpenedClashes(w, e, k);
      var w1 := Apply(after, Ends);
      if w1.records[k].phase == KeptPrimary {
        ClashLosesByExpiry(w1, k, e.id);
      } else if (w1.records[e.id].primary, w1.records[k].pr) in w1.merged {
        ClashLosesByMerge(w1, k, e.id);
      } else {
        ClashLosesByDecision(w1, k, e.id);
      }
      LosesLater(after, Ends);
    }
  }

  lemma OpenedClashes(w: Site, e: Deed, k: nat)
    requires Enabled(w, e) && e.Opens? && e.ok && e.pr && e.saved
    requires k in w.records && Active(w.records[k]) && w.records[k].branch == e.h.branch
    ensures Enabled(Apply(w, e), Ends) && Clash(Apply(Apply(w, e), Ends), k, e.id)
    ensures Apply(Apply(w, e), Ends).records[k] == w.records[k]
  {
    var after := Apply(w, e);
    assert after.records == w.records[e.id := e.h] && after.merged == w.merged;
    assert e.h.branch in On(after, e.h.primary);
    var w1 := Apply(after, Ends);
    assert w1.records == after.records && On(w1, e.h.primary) == On(after, e.h.primary) && w1.merged == after.merged;
  }

  /** The first hand-off is merged and its branch deleted, but the record stays open, so the name is free for the next. */
  lemma MergedUnsaved(w: Site, id: nat)
    requires Known(w, id, Open)
    requires
      var own := w.run.value.handoffs[id]; var m := w.run.value;
      own.branch in m.branches && Lookup(On(w, m.primary), own.branch) == Some(m.branches[own.branch])
    ensures
      var e := FoundMerged(id, true, true, false);
      Enabled(w, e) &&
      var after := Apply(w, e); var own := w.run.value.handoffs[id]; var p := w.run.value.primary;
      && after.records == w.records && after.run.Some? && after.run.value.primary == p
      && own.branch !in On(after, p) && own.branch !in after.run.value.branches
      && after.merged == w.merged + {(p, own.pr)}
  {
  }

  lemma OpensUnderTheName(w: Site, id: nat, h: Handoff)
    requires w.run.Some? && id !in w.records && h.primary == w.run.value.primary
    requires h.phase == Open && h.decidedAt == None && h.backupUntil == None && IsHandoff(h.branch) && !IsHandoff(h.ref)
    requires h.branch !in w.run.value.branches && h.branch !in On(w, h.primary) && (h.primary, h.pr) !in w.merged
    requires Indexed(w.records, id, h)
    requires forall other :: other in w.records ==> (w.records[other].primary, w.records[other].pr) != (h.primary, h.pr)
    ensures
      var e := Opens(id, h, true, true, true, false, true);
      Enabled(w, e) &&
      var after := Apply(w, e);
      && after.records == w.records[id := h] && after.run.Some? && after.merged == w.merged
      && Lookup(On(after, h.primary), h.branch) == Some(h.sha)
  {
  }

  /** The next run loads the first hand-off as still open, and finds its pull request merged once more. */
  lemma MergedAgain(w: Site, id: nat, p: Node)
    requires w.run.Some? && id in w.records && w.records[id].phase == Open && w.records[id].primary == p
    requires IsHandoff(w.records[id].branch) && w.records[id].branch in On(w, p)
    ensures
      Enabled(w, Ends) &&
      var stopped := Apply(w, Ends);
      Enabled(stopped, Starts(p)) &&
      var started := Apply(stopped, Starts(p)); var e := FoundMerged(id, true, true, true);
      Enabled(started, e) &&
      var after := Apply(started, e);
      && w.records[id].branch !in On(after, p)
      && after.records == w.records[id := after.records[id]]
      && after.merged == w.merged + {(p, w.records[id].pr)}
  {
    var stopped := Apply(w, Ends);
    assert On(stopped, p) == On(w, p) && stopped.records == w.records;
    var started := Apply(stopped, Starts(p));
    assert started.run.value.handoffs[id] == w.records[id];
    assert On(started, p) == On(w, p);
    assert Lookup(started.run.value.branches, w.records[id].branch) == Lookup(On(w, p), w.records[id].branch);
  }

  ghost function ApplyAll(w: Site, es: seq<Deed>): Option<Site>
    decreases |es|
  {
    if es == [] then Some(w) else if !Enabled(w, es[0]) then None else ApplyAll(Apply(w, es[0]), es[1..])
  }

  /**
   * One failed save is enough. A hand-off is found merged and its branch deleted, but the record
   * stays open; the next hand-off of that branch takes the free name; the next run finds the first
   * one merged again, and deletes the branch under the second, which is open and not merged.
   */
  lemma FailedSaveLosesABackup(w: Site, id: nat, next: nat, h: Handoff)
    requires Known(w, id, Open) && AtHome(w, id) && Lookup(w.records, id) == Some(w.run.value.handoffs[id])
    requires
      var own := w.records[id];
      own.branch in w.run.value.branches && Lookup(On(w, own.primary), own.branch) == Lookup(w.run.value.branches, own.branch)
    requires h.branch == w.records[id].branch && h.primary == w.run.value.primary && IsHandoff(h.branch) && !IsHandoff(h.ref)
    requires h.phase == Open && h.decidedAt == None && h.backupUntil == None && next !in w.records && Indexed(w.records, next, h)
    requires (h.primary, h.pr) !in w.merged && forall other :: other in w.records ==>
      (w.records[other].primary, w.records[other].pr) != (h.primary, h.pr)
    ensures
      var es := [FoundMerged(id, true, true, false), Opens(next, h, true, true, true, false, true),
                 Ends, Starts(h.primary), FoundMerged(id, true, true, true)];
      var end := ApplyAll(w, es);
      end.Some? && Lookup(end.value.records, next) == Some(h) && !Kept(end.value, h)
  {
    var p := h.primary;
    var e1, e5 := FoundMerged(id, true, true, false), FoundMerged(id, true, true, true);
    var e2 := Opens(next, h, true, true, true, false, true);
    MergedUnsaved(w, id);
    var w1 := Apply(w, e1);
    assert (p, w.records[id].pr) != (p, h.pr);
    OpensUnderTheName(w1, next, h);
    var w2 := Apply(w1, e2);
    assert w2.records[id] == w.records[id];
    MergedAgain(w2, id, p);
    var w3 := Apply(w2, Ends);
    var w4 := Apply(w3, Starts(p));
    var w5 := Apply(w4, e5);
    FiveApplied(w, e1, e2, Ends, Starts(p), e5);
    assert w5.records[next] == w2.records[next] == h;
  }

  lemma FiveApplied(w: Site, a: Deed, b: Deed, c: Deed, d: Deed, e: Deed)
    requires Enabled(w, a)
    requires Enabled(Apply(w, a), b)
    requires Enabled(Apply(Apply(w, a), b), c)
    requires Enabled(Apply(Apply(Apply(w, a), b), c), d)
    requires Enabled(Apply(Apply(Apply(Apply(w, a), b), c), d), e)
    ensures ApplyAll(w, [a, b, c, d, e]) == Some(Apply(Apply(Apply(Apply(Apply(w, a), b), c), d), e))
  {
    var w4 := Apply(Apply(Apply(Apply(w, a), b), c), d);
    FirstApplied(w4, e, []);
    FirstApplied(Apply(Apply(Apply(w, a), b), c), d, [e]);
    FirstApplied(Apply(Apply(w, a), b), c, [d, e]);
    FirstApplied(Apply(w, a), b, [c, d, e]);
    FirstApplied(w, a, [b, c, d, e]);
  }

  lemma {:induction false} ApplyAllThen(a: Site, es: seq<Deed>, fs: seq<Deed>)
    requires ApplyAll(a, es).Some?
    ensures ApplyAll(a, es + fs) == ApplyAll(ApplyAll(a, es).value, fs)
    decreases |es|
  {
    if es == [] {
      assert [] + fs == fs;
    } else {
      ApplyAllThen(Apply(a, es[0]), es[1..], fs);
      assert (es + fs)[1..] == es[1..] + fs;
    }
  }

  lemma FirstApplied(w: Site, a: Deed, rest: seq<Deed>)
    requires Enabled(w, a)
    ensures ApplyAll(w, [a] + rest) == ApplyAll(Apply(w, a), rest)
  {
    assert ([a] + rest)[1..] == rest;
  }

  /** A backup that is over, and a name it shares with a branch of the primary the next run starts on. */
  lemma ExpiresElsewhere(w: Site, id: nat, p: Node, d: nat)
    requires w.run.Some? && id in w.records && w.records[id].phase == KeptPrimary && w.records[id].backupUntil.Some?
    requires w.clock + d > w.records[id].backupUntil.value
    requires IsHandoff(w.records[id].branch) && w.records[id].branch in On(w, p)
    ensures
      var e := Expires(id, true, true, true); var es := [Ends, Tick(d), Starts(p), e];
      var after := ApplyAll(w, es);
      && after.Some? && w.records[id].branch !in On(after.value, p)
      && after.value.records == w.records[id := w.records[id].(phase := Expired)] && after.value.merged == w.merged
  {
    var e := Expires(id, true, true, true);
    var w1 := Apply(w, Ends);
    assert w1 == w.(run := None);
    var w2 := Apply(w1, Tick(d));
    assert w2 == w1.(clock := w.clock + d);
    var w4 := StartsAndExpires(w2, id, p);
    FirstApplied(w1, Tick(d), [Starts(p), e]);
    FirstApplied(w, Ends, [Tick(d), Starts(p), e]);
  }

  lemma StartsAndExpires(w: Site, id: nat, p: Node) returns (after: Site)
    requires w.run == None && id in w.records && w.records[id].phase == KeptPrimary && w.records[id].backupUntil.Some?
    requires w.clock > w.records[id].backupUntil.value && IsHandoff(w.records[id].branch) && w.records[id].branch in On(w, p)
    ensures ApplyAll(w, [Starts(p), Expires(id, true, true, true)]) == Some(after)
    ensures w.records[id].branch !in On(after, p) && after.merged == w.merged
    ensures after.records == w.records[id := w.records[id].(phase := Expired)]
  {
    var e := Expires(id, true, true, true);
    StartsWith(w, p, id, w.records[id].branch);
    var w1 := Apply(w, Starts(p));
    after := Apply(w1, e);
    FirstApplied(w1, e, []);
    FirstApplied(w, Starts(p), [e]);
  }

  /**
   * So is moving the primary, with every save working. A backup stays recorded for its time; on the
   * new primary its name is free and is given to the next hand-off; when the time is over, a run on
   * the new primary deletes the branch of that name there, of a hand-off that is open and not merged.
   */
  lemma MovedPrimaryLosesABackup(w: Site, id: nat, p: Node, next: nat, h: Handoff, d: nat)
    requires w.run == None && id in w.records && w.records[id].phase == KeptPrimary && w.records[id].backupUntil.Some?
    requires w.records[id].primary != p && w.clock + d > w.records[id].backupUntil.value
    requires h.primary == p && h.branch == w.records[id].branch && h.branch !in On(w, p) && IsHandoff(h.branch) && !IsHandoff(h.ref)
    requires h.phase == Open && h.decidedAt == None && h.backupUntil == None && next !in w.records && Indexed(w.records, next, h)
    requires (p, h.pr) !in w.merged && forall other :: other in w.records ==> (w.records[other].primary, w.records[other].pr) != (p, h.pr)
    ensures
      var es := [Starts(p), Opens(next, h, true, true, true, false, true), Ends, Tick(d), Starts(p), Expires(id, true, true, true)];
      var end := ApplyAll(w, es);
      end.Some? && Lookup(end.value.records, next) == Some(h) && !Kept(end.value, h)
  {
    var w1 := Apply(w, Starts(p));
    assert On(w1, p) == On(w, p) && w1.records == w.records && w1.merged == w.merged;
    assert h.branch !in w1.run.value.branches;
    OpensUnderTheName(w1, next, h);
    var opens := Opens(next, h, true, true, true, false, true);
    var w2 := Apply(w1, opens);
    assert w2.records[id] == w.records[id] && w2.clock == w.clock;
    ExpiresElsewhere(w2, id, p, d);
    FirstApplied(w1, opens, [Ends, Tick(d), Starts(p), Expires(id, true, true, true)]);
    FirstApplied(w, Starts(p), [opens, Ends, Tick(d), Starts(p), Expires(id, true, true, true)]);
  }

  /** A hand-off opened on p, under a name that is free there. */
  lemma OpenedOn(w: Site, p: Node, id: nat, h: Handoff)
    requires w.run == None && id !in w.records && h.primary == p && h.branch !in On(w, p) && IsHandoff(h.branch) && !IsHandoff(h.ref)
    requires h.phase == Open && h.decidedAt == None && h.backupUntil == None && Indexed(w.records, id, h) && (p, h.pr) !in w.merged
    requires forall other :: other in w.records ==> (w.records[other].primary, w.records[other].pr) != (p, h.pr)
    ensures
      var w1, opens := Apply(w, Starts(p)), Opens(id, h, true, true, true, false, true);
      Enabled(w1, opens) &&
      var w2 := Apply(w1, opens);
      && w2.run.Some? && w2.run.value.primary == p && Lookup(w2.run.value.handoffs, id) == Some(h)
      && w2.records == w.records[id := h] && w2.merged == w.merged
      && w2.nodes == w.nodes[p := On(w, p)[h.branch := h.sha]]
  {
    var w1 := Apply(w, Starts(p));
    assert w1.nodes == w.nodes && w1.records == w.records && w1.merged == w.merged && h.branch !in w1.run.value.branches;
    OpensUnderTheName(w1, id, h);
  }

  /** By a run that does nothing else. */
  lemma OpenedByOne(w: Site, p: Node, id: nat, h: Handoff) returns (after: Site)
    requires w.run == None && id !in w.records && h.primary == p && h.branch !in On(w, p) && IsHandoff(h.branch) && !IsHandoff(h.ref)
    requires h.phase == Open && h.decidedAt == None && h.backupUntil == None && Indexed(w.records, id, h) && (p, h.pr) !in w.merged
    requires forall other :: other in w.records ==> (w.records[other].primary, w.records[other].pr) != (p, h.pr)
    ensures ApplyAll(w, [Starts(p), Opens(id, h, true, true, true, false, true), Ends]) == Some(after)
    ensures after.run == None && after.records == w.records[id := h] && after.merged == w.merged
    ensures after.nodes == w.nodes[p := On(w, p)[h.branch := h.sha]]
  {
    var opens := Opens(id, h, true, true, true, false, true);
    OpenedOn(w, p, id, h);
    var w1 := Apply(w, Starts(p));
    var w2 := Apply(w1, opens);
    after := Apply(w2, Ends);
    assert after.nodes == w2.nodes && after.records == w2.records && after.merged == w2.merged;
    FirstApplied(w2, Ends, []);
    FirstApplied(w1, opens, [Ends]);
    FirstApplied(w, Starts(p), [opens, Ends]);
  }

  lemma FoundGoneAfter(w: Site, i: nat, h: Handoff) returns (after: Site)
    requires w.run.Some? && Lookup(w.run.value.handoffs, i) == Some(h) && h.phase == Open && Lookup(w.records, i) == Some(h)
    ensures ApplyAll(w, [FoundGone(i, true), Ends]) == Some(after)
    ensures after.run == None && after.nodes == w.nodes && after.merged == w.merged
    ensures after.records == w.records[i := h.(phase := Gone, decidedAt := Some(w.run.value.started))]
  {
    var w1 := Apply(w, FoundGone(i, true));
    after := Apply(w1, Ends);
    FirstApplied(w1, Ends, []);
    FirstApplied(w, FoundGone(i, true), [Ends]);
  }

  /** What is left on b of a hand-off whose pull request was deleted: the branch, on no active record. */
  lemma LeftBehind(w: Site, b: Node, i: nat, h: Handoff) returns (after: Site, gone: Handoff)
    requires w.run == None && i !in w.records && h.primary == b && h.branch !in On(w, b) && IsHandoff(h.branch) && !IsHandoff(h.ref)
    requires h.phase == Open && h.decidedAt == None && h.backupUntil == None && Indexed(w.records, i, h) && (b, h.pr) !in w.merged
    requires forall other :: other in w.records ==> (w.records[other].primary, w.records[other].pr) != (b, h.pr)
    ensures ApplyAll(w, [Starts(b), Opens(i, h, true, true, true, false, true), FoundGone(i, true), Ends]) == Some(after)
    ensures after.run == None && after.records == w.records[i := gone] && after.merged == w.merged
    ensures gone.phase == Gone && gone.ref == h.ref && gone.pr == h.pr && gone.branch == h.branch
    ensures after.nodes == w.nodes[b := On(w, b)[h.branch := h.sha]]
  {
    var opens := Opens(i, h, true, true, true, false, true);
    OpenedOn(w, b, i, h);
    var w1 := Apply(w, Starts(b));
    var w2 := Apply(w1, opens);
    gone := h.(phase := Gone, decidedAt := Some(w2.run.value.started));
    after := FoundGoneAfter(w2, i, h);
    FirstApplied(w1, opens, [FoundGone(i, true), Ends]);
    FirstApplied(w, Starts(b), [opens, FoundGone(i, true), Ends]);
  }

  /** A run on p that takes the branch it finds there for the hand-off's. */
  lemma MovedAlong(w: Site, id: nat, p: Node, head: Commit) returns (after: Site)
    requires w.run == None && id in w.records && w.records[id].phase == Open && IsHandoff(w.records[id].branch)
    requires Lookup(On(w, p), w.records[id].branch) == Some(w.records[id].sha) && Ancestor(w.records[id].sha, head)
    requires Indexed(w.records, id, w.records[id].(sha := head))
    ensures ApplyAll(w, [Starts(p), Extends(id, head, true, true, true)]) == Some(after)
    ensures after.records == w.records[id := w.records[id].(sha := head)] && after.merged == w.merged
    ensures forall n :: n != p ==> On(after, n) == On(w, n)
  {
    StartsWith(w, p, id, w.records[id].branch);
    var w1, moves := Apply(w, Starts(p)), Extends(id, head, true, true, true);
    assert w1.nodes == w.nodes;
    after := Apply(w1, moves);
    FirstApplied(w1, moves, []);
    FirstApplied(w, Starts(p), [moves]);
  }

  /** The branch left on b, and then on a under the same name and with its record. */
  lemma OnBoth(w: Site, a: Node, b: Node, i: nat, j: nat, onB: Handoff, pr: nat) returns (w1: Site, w2: Site)
    requires w.run == None && a != b && i != j && i !in w.records && j !in w.records && pr != onB.pr
    requires onB.phase == Open && onB.decidedAt == None && onB.backupUntil == None && onB.primary == b
    requires IsHandoff(onB.branch) && !IsHandoff(onB.ref) && onB.branch !in On(w, a) && onB.branch !in On(w, b)
    requires forall k :: k in w.records && w.records[k].phase == Open ==> w.records[k].ref != onB.ref
    requires (b, onB.pr) !in w.merged && (a, pr) !in w.merged
    requires forall k :: k in w.records ==> w.records[k].pr != onB.pr && w.records[k].pr != pr
    ensures ApplyAll(w, [Starts(b), Opens(i, onB, true, true, true, false, true), FoundGone(i, true), Ends]) == Some(w1)
    ensures
      var onA := onB.(primary := a, pr := pr);
      && ApplyAll(w1, [Starts(a), Opens(j, onA, true, true, true, false, true), Ends]) == Some(w2)
      && w2.run == None && Lookup(w2.records, j) == Some(onA) && w2.merged == w.merged
    ensures Lookup(On(w2, a), onB.branch) == Lookup(On(w2, b), onB.branch) == Some(onB.sha)
    ensures forall k :: k in w2.records && k != j && w2.records[k].phase == Open ==> w2.records[k].ref != onB.ref
  {
    var gone;
    w1, gone := LeftBehind(w, b, i, onB);
    assert On(w1, a) == On(w, a);
    w2 := OpenedByOne(w1, a, j, onB.(primary := a, pr := pr));
    assert On(w2, b) == On(w1, b);
  }

  /**
   * An extension away from home loses a backup too. A hand-off on b is found gone and leaves its
   * branch there; the same version is handed off on a under the same name; back on b, a run takes the
   * leftover for its branch and moves that along, so the record names commits that are not on a.
   */
  lemma ExtendingAwayLosesABackup(w: Site, a: Node, b: Node, i: nat, j: nat, onB: Handoff, pr: nat, head: Commit)
    requires w.run == None && a != b && i != j && i !in w.records && j !in w.records && pr != onB.pr
    requires onB.phase == Open && onB.decidedAt == None && onB.backupUntil == None && onB.primary == b
    requires IsHandoff(onB.branch) && !IsHandoff(onB.ref) && onB.branch !in On(w, a) && onB.branch !in On(w, b)
    requires NameFree(w, onB.branch) && forall k :: k in w.records && w.records[k].phase == Open ==> w.records[k].ref != onB.ref
    requires (b, onB.pr) !in w.merged && (a, pr) !in w.merged
    requires forall k :: k in w.records ==> w.records[k].pr != onB.pr && w.records[k].pr != pr
    requires Ancestor(onB.sha, head) && head != onB.sha
    ensures
      var onA := onB.(primary := a, pr := pr);
      var onceOnB := [Starts(b), Opens(i, onB, true, true, true, false, true), FoundGone(i, true), Ends];
      var thenOnA := [Starts(a), Opens(j, onA, true, true, true, false, true), Ends];
      var backOnB := [Starts(b), Extends(j, head, true, true, true)];
      var end := ApplyAll(w, onceOnB + thenOnA + backOnB);
      end.Some? && Lookup(end.value.records, j) == Some(onA.(sha := head)) && !Kept(end.value, onA.(sha := head))
  {
    var onA := onB.(primary := a, pr := pr);
    var first := [Starts(b), Opens(i, onB, true, true, true, false, true), FoundGone(i, true), Ends];
    var second := [Starts(a), Opens(j, onA, true, true, true, false, true), Ends];
    var w1, w2 := OnBoth(w, a, b, i, j, onB, pr);
    var w3 := MovedAlong(w2, j, b, head);
    assert On(w3, a) == On(w2, a);
    if Ancestor(head, onB.sha) { AncestorAntisymmetric(head, onB.sha); }
    InThree(w, first, w1, second, w2, [Starts(b), Extends(j, head, true, true, true)], w3);
  }

  lemma InThree(w: Site, es: seq<Deed>, w1: Site, fs: seq<Deed>, w2: Site, gs: seq<Deed>, w3: Site)
    requires ApplyAll(w, es) == Some(w1) && ApplyAll(w1, fs) == Some(w2) && ApplyAll(w2, gs) == Some(w3)
    ensures ApplyAll(w, es + fs + gs) == Some(w3)
  {
    ApplyAllThen(w, es, fs);
    ApplyAllThen(w, es + fs, gs);
  }

  /**
   * Whichever node is the primary, a run there can reset a replica that waits; and that was the
   * owner's decision in this hand-off if and only if it is the primary the hand-off was opened on.
   * Anywhere else another pull request, of the same number, was closed.
   */
  lemma ResetsAsAsked(w: Site, id: nat, p: Node, n: Node)
    requires w.run == None && id in w.records && w.records[id].phase == Open && n in w.records[id].nodes
    requires Lookup(On(w, n), w.records[id].ref) == Some(w.records[id].sha)
    requires (w.records[id].primary, w.records[id].pr) !in w.closed && (p, w.records[id].pr) !in w.merged
    ensures
      var es := [Starts(p), FoundClosed(id), Resets(id, n, true)]; var h := w.records[id];
      var end := ApplyAll(w, es);
      end.Some? && ((h.primary, h.pr) in end.value.closed <==> p == h.primary)
  {
    var h := w.records[id];
    var w1 := Apply(w, Starts(p));
    assert w1.run.value.handoffs[id] == h && w1.closed == w.closed && w1.nodes == w.nodes;
    var w2 := Apply(w1, FoundClosed(id));
    assert w2.run.value.handoffs[id] == h && w2.closed == w.closed + {(p, h.pr)} && w2.nodes == w.nodes && w2.merged == w.merged;
    FirstApplied(w2, Resets(id, n, true), []);
    FirstApplied(w1, FoundClosed(id), [Resets(id, n, true)]);
    FirstApplied(w, Starts(p), [FoundClosed(id), Resets(id, n, true)]);
  }

  /** The backup's time runs from the start of the pass, so it is BackupFor after the reset only if no time passed between. */
  lemma BackupCountsFromPassStart(w: Site, id: nat, saved: bool)
    requires Sound(w) && Enabled(w, Decided(id, {}, saved))
    ensures
      var h := Apply(w, Decided(id, {}, saved)).run.value.handoffs[id];
      && h.phase == KeptPrimary && h.backupUntil.Some?
      && (h.backupUntil.value >= w.clock + w.backupFor <==> w.clock == w.run.value.started)
  {
    assert w.run.value.started <= w.clock;
  }
}
