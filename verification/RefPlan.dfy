/** The three-way decision for one replica: what to push, and what needs a person. */
module RefPlan {
  import opened Optional
  import opened Text
  import opened Commits

  type Ref = string
  type Refs = map<Ref, Commit>

  /** An update of one ref, which may land only on the value Expected() names. */
  datatype Action =
    | Create(ref: Ref, target: Commit)
    | FastForward(ref: Ref, expected: Commit, target: Commit)
    | Delete(ref: Ref, expected: Commit)
    | Reset(ref: Ref, expected: Commit, target: Commit)
  {
    function Expected(): Option<Commit> {
      if Create? then None else Some(expected)
    }

    function Target(): Option<Commit> {
      if Delete? then None else Some(target)
    }
  }

  datatype IssueKind = ReplicaAhead | Diverged | PrimaryRewrote | ReplicaChanged | ReplicaExtra

  datatype Issue = Issue(kind: IssueKind, ref: Ref, primary: Option<Commit>, replica: Commit)

  datatype Verdict = Leave | Do(action: Action) | Ask(issue: Issue)

  const TAGS := "refs/tags/"
  const HEADS := "refs/heads/"

  predicate IsTag(ref: Ref) {
    |ref| > 10 && ref[..10] == TAGS
  }

  /** A ref both sides have, at different commits. */
  function PlanChange(ref: Ref, p: Commit, r: Commit, b: Option<Commit>, ask: Ancestry): Verdict {
    if IsTag(ref) then
      Ask(Issue(if b == Some(r) then PrimaryRewrote else ReplicaChanged, ref, Some(p), r))
    else
      match ask(r, p)
      case CannotTell => Ask(Issue(Diverged, ref, Some(p), r))
      case Yes => Do(FastForward(ref, r, p))
      case No =>
        if b == Some(r) then Ask(Issue(PrimaryRewrote, ref, Some(p), r))
        else if ask(p, r) == Yes then Ask(Issue(ReplicaAhead, ref, Some(p), r))
        else Ask(Issue(Diverged, ref, Some(p), r))
  }

  function PlanRef(ref: Ref, p: Option<Commit>, r: Option<Commit>, b: Option<Commit>, ask: Ancestry): Verdict {
    if p.Some? && r == p then Leave
    else if p.Some? && r.None? then Do(Create(ref, p.value))
    else if p.Some? then PlanChange(ref, p.value, r.value, b, ask)
    else if r.Some? && b == r then Do(Delete(ref, r.value))
    else if r.Some? && b.Some? then Ask(Issue(ReplicaChanged, ref, None, r.value))
    else if r.Some? then Ask(Issue(ReplicaExtra, ref, None, r.value))
    else Leave
  }

  /** The verdict on a ref, from the three ref maps. */
  function On(ref: Ref, primary: Refs, replica: Refs, base: Refs, ask: Ancestry): Verdict {
    PlanRef(ref, Lookup(primary, ref), Lookup(replica, ref), Lookup(base, ref), ask)
  }

  function Actions(refs: seq<Ref>, primary: Refs, replica: Refs, base: Refs, ask: Ancestry): seq<Action> {
    if refs == [] then []
    else
      var last := On(refs[|refs| - 1], primary, replica, base, ask);
      Actions(refs[..|refs| - 1], primary, replica, base, ask) + if last.Do? then [last.action] else []
  }

  function Issues(refs: seq<Ref>, primary: Refs, replica: Refs, base: Refs, ask: Ancestry): seq<Issue> {
    if refs == [] then []
    else
      var last := On(refs[|refs| - 1], primary, replica, base, ask);
      Issues(refs[..|refs| - 1], primary, replica, base, ask) + if last.Ask? then [last.issue] else []
  }

  ghost function Union(primary: Refs, replica: Refs, base: Refs): seq<Ref> {
    Listing(primary.Keys + replica.Keys + base.Keys)
  }

  /** The whole decision, as Plan below computes it. */
  ghost function Planned(primary: Refs, replica: Refs, base: Refs, ask: Ancestry): seq<Action> {
    Actions(Union(primary, replica, base), primary, replica, base, ask)
  }

  ghost function Flagged(primary: Refs, replica: Refs, base: Refs, ask: Ancestry): seq<Issue> {
    Issues(Union(primary, replica, base), primary, replica, base, ask)
  }

  /** What is to be pushed, read off the three ref maps; a tag is "refs/tags/" and something more. */
  ghost predicate IsCalledFor(a: Action, primary: Refs, replica: Refs, base: Refs, ask: Ancestry) {
    match a
    case Create(ref, c) => Lookup(primary, ref) == Some(c) && ref !in replica
    case Delete(ref, c) => ref !in primary && Lookup(replica, ref) == Some(c) && Lookup(base, ref) == Some(c)
    case FastForward(ref, r, p) =>
      !("refs/tags/" < ref) && Lookup(replica, ref) == Some(r) && Lookup(primary, ref) == Some(p) && r != p && ask(r, p) == Yes
    case Reset(_, _, _) => false
  }

  ghost predicate ActsExactly(actions: seq<Action>, primary: Refs, replica: Refs, base: Refs, ask: Ancestry) {
    forall a: Action :: a in actions <==> IsCalledFor(a, primary, replica, base, ask)
  }

  /** What needs a person, for each kind. */
  ghost predicate NeedsAPerson(x: Issue, primary: Refs, replica: Refs, base: Refs, ask: Ancestry) {
    var ref, r := x.ref, x.replica;
    && Lookup(replica, ref) == Some(r) && x.primary == Lookup(primary, ref) && x.primary != Some(r)
    && match x.kind
       case ReplicaExtra => ref !in primary && ref !in base
       case ReplicaChanged => Lookup(base, ref) != Some(r) && if ref in primary then "refs/tags/" < ref else ref in base
       case PrimaryRewrote => ref in primary && Lookup(base, ref) == Some(r) && ("refs/tags/" < ref || ask(r, primary[ref]) == No)
       case ReplicaAhead =>
         && ref in primary && !("refs/tags/" < ref) && Lookup(base, ref) != Some(r)
         && ask(r, primary[ref]) == No && ask(primary[ref], r) == Yes
       case Diverged =>
         && ref in primary && !("refs/tags/" < ref)
         && (ask(r, primary[ref]) == CannotTell ||
             (ask(r, primary[ref]) == No && Lookup(base, ref) != Some(r) && ask(primary[ref], r) != Yes))
  }

  ghost predicate FlagsExactly(issues: seq<Issue>, primary: Refs, replica: Refs, base: Refs, ask: Ancestry) {
    forall x: Issue :: x in issues <==> NeedsAPerson(x, primary, replica, base, ask)
  }

  method Plan(primary: Refs, replica: Refs, base: Refs, ask: Ancestry) returns (actions: seq<Action>, issues: seq<Issue>)
    ensures actions == Planned(primary, replica, base, ask)
    ensures issues == Flagged(primary, replica, base, ask)
    ensures ActsExactly(actions, primary, replica, base, ask) && FlagsExactly(issues, primary, replica, base, ask)
  {
    actions, issues := [], [];
    var refs := SortedList(primary.Keys + replica.Keys + base.Keys);
    for i := 0 to |refs|
      invariant actions == Actions(refs[..i], primary, replica, base, ask)
      invariant issues == Issues(refs[..i], primary, replica, base, ask)
    {
      var ref := refs[i];
      assert refs[..i + 1][..i] == refs[..i];
      if ref in primary && ref in replica && primary[ref] == replica[ref] {
      } else if ref in primary && ref !in replica {
        actions := actions + [Create(ref, primary[ref])];
      } else if ref in primary && ref in replica {
        var verdict := PlanChange(ref, primary[ref], replica[ref], Lookup(base, ref), ask);
        match verdict {
          case Do(a) => actions := actions + [a];
          case Ask(x) => issues := issues + [x];
          case Leave =>
        }
      } else if ref in replica && ref in base && base[ref] == replica[ref] {
        actions := actions + [Delete(ref, replica[ref])];
      } else if ref in replica && ref in base {
        issues := issues + [Issue(ReplicaChanged, ref, None, replica[ref])];
      } else if ref in replica {
        issues := issues + [Issue(ReplicaExtra, ref, None, replica[ref])];
      }
    }
    assert refs[..|refs|] == refs;
    PlanExactly(primary, replica, base, ask);
  }

  // ----- what a plan is -----

  lemma {:induction false} ActionsAre(refs: seq<Ref>, primary: Refs, replica: Refs, base: Refs, ask: Ancestry, a: Action)
    ensures a in Actions(refs, primary, replica, base, ask) <==> a.ref in refs && On(a.ref, primary, replica, base, ask) == Do(a)
  {
    if refs != [] {
      var front, last := refs[..|refs| - 1], refs[|refs| - 1];
      ActionsAre(front, primary, replica, base, ask, a);
      assert refs == front + [last];
    }
  }

  lemma {:induction false} IssuesAre(refs: seq<Ref>, primary: Refs, replica: Refs, base: Refs, ask: Ancestry, x: Issue)
    ensures x in Issues(refs, primary, replica, base, ask) <==> x.ref in refs && On(x.ref, primary, replica, base, ask) == Ask(x)
  {
    if refs != [] {
      var front, last := refs[..|refs| - 1], refs[|refs| - 1];
      IssuesAre(front, primary, replica, base, ask, x);
      assert refs == front + [last];
    }
  }

  lemma InPlan(primary: Refs, replica: Refs, base: Refs, ask: Ancestry, a: Action)
    ensures a in Planned(primary, replica, base, ask) <==> On(a.ref, primary, replica, base, ask) == Do(a)
  {
    var refs := Union(primary, replica, base);
    ActionsAre(refs, primary, replica, base, ask, a);
    assert a.ref in refs <==> a.ref in Elements(refs);
  }

  lemma InFlagged(primary: Refs, replica: Refs, base: Refs, ask: Ancestry, x: Issue)
    ensures x in Flagged(primary, replica, base, ask) <==> On(x.ref, primary, replica, base, ask) == Ask(x)
  {
    var refs := Union(primary, replica, base);
    IssuesAre(refs, primary, replica, base, ask, x);
    assert x.ref in refs <==> x.ref in Elements(refs);
  }

  /** A plan holds exactly the refs whose verdict is to act, each once, and flags exactly those whose verdict is to ask. */
  lemma PlanIs(primary: Refs, replica: Refs, base: Refs, ask: Ancestry)
    ensures forall a :: a in Planned(primary, replica, base, ask) <==> On(a.ref, primary, replica, base, ask) == Do(a)
    ensures forall x :: x in Flagged(primary, replica, base, ask) <==> On(x.ref, primary, replica, base, ask) == Ask(x)
  {
    forall a ensures a in Planned(primary, replica, base, ask) <==> On(a.ref, primary, replica, base, ask) == Do(a) {
      InPlan(primary, replica, base, ask, a);
    }
    forall x ensures x in Flagged(primary, replica, base, ask) <==> On(x.ref, primary, replica, base, ask) == Ask(x) {
      InFlagged(primary, replica, base, ask, x);
    }
  }

  lemma TagIs(ref: Ref)
    ensures IsTag(ref) <==> "refs/tags/" < ref
  {
  }

  lemma ActsAre(primary: Refs, replica: Refs, base: Refs, ask: Ancestry, a: Action)
    ensures a in Planned(primary, replica, base, ask) <==> IsCalledFor(a, primary, replica, base, ask)
  {
    InPlan(primary, replica, base, ask, a);
    TagIs(a.ref);
  }

  lemma FlagsAre(primary: Refs, replica: Refs, base: Refs, ask: Ancestry, x: Issue)
    ensures x in Flagged(primary, replica, base, ask) <==> NeedsAPerson(x, primary, replica, base, ask)
  {
    InFlagged(primary, replica, base, ask, x);
    TagIs(x.ref);
  }

  /** Every action and every issue, from the refs alone. */
  lemma PlanExactly(primary: Refs, replica: Refs, base: Refs, ask: Ancestry)
    ensures ActsExactly(Planned(primary, replica, base, ask), primary, replica, base, ask)
    ensures FlagsExactly(Flagged(primary, replica, base, ask), primary, replica, base, ask)
  {
    forall a: Action ensures a in Planned(primary, replica, base, ask) <==> IsCalledFor(a, primary, replica, base, ask) {
      ActsAre(primary, replica, base, ask, a);
    }
    forall x: Issue ensures x in Flagged(primary, replica, base, ask) <==> NeedsAPerson(x, primary, replica, base, ask) {
      FlagsAre(primary, replica, base, ask, x);
    }
  }

  /**
   * The promise of the package, for one plan. Whatever ancestry answers, as long as it is true:
   * a create meets nothing on the replica, a fast-forward contains what it replaces, a delete takes
   * what ForgeSync wrote and the primary has dropped, and a tag is never moved. Reset is never planned.
   */
  lemma PlanLosesNothing(primary: Refs, replica: Refs, base: Refs, ask: Ancestry, a: Action)
    requires Truthful(ask) && a in Planned(primary, replica, base, ask)
    ensures a.Expected() == Lookup(replica, a.ref) && a.Target() == Lookup(primary, a.ref)
    ensures a.FastForward? ==> !IsTag(a.ref) && a.expected != a.target && Ancestor(a.expected, a.target)
    ensures a.Delete? ==> Lookup(base, a.ref) == Some(a.expected)
    ensures !a.Reset?
  {
    PlanIs(primary, replica, base, ask);
  }

  /** No difference is passed over, and none is both acted on and handed to a person. */
  lemma EveryDifferenceIsSettledOnce(primary: Refs, replica: Refs, base: Refs, ask: Ancestry, ref: Ref)
    ensures
      var acted := exists a :: a in Planned(primary, replica, base, ask) && a.ref == ref;
      var asked := exists x :: x in Flagged(primary, replica, base, ask) && x.ref == ref;
      (acted || asked <==> Lookup(primary, ref) != Lookup(replica, ref)) && !(acted && asked)
  {
    var v := On(ref, primary, replica, base, ask);
    ActedExactlyWhen(primary, replica, base, ask, ref);
    AskedExactlyWhen(primary, replica, base, ask, ref);
  }

  lemma ActedExactlyWhen(primary: Refs, replica: Refs, base: Refs, ask: Ancestry, ref: Ref)
    ensures (exists a :: a in Planned(primary, replica, base, ask) && a.ref == ref) <==> On(ref, primary, replica, base, ask).Do?
  {
    var v := On(ref, primary, replica, base, ask);
    if v.Do? { InPlan(primary, replica, base, ask, v.action); }
    forall a | a in Planned(primary, replica, base, ask) && a.ref == ref ensures v == Do(a) { InPlan(primary, replica, base, ask, a); }
  }

  lemma AskedExactlyWhen(primary: Refs, replica: Refs, base: Refs, ask: Ancestry, ref: Ref)
    ensures (exists x :: x in Flagged(primary, replica, base, ask) && x.ref == ref) <==> On(ref, primary, replica, base, ask).Ask?
  {
    var v := On(ref, primary, replica, base, ask);
    if v.Ask? { InFlagged(primary, replica, base, ask, v.issue); }
    forall x | x in Flagged(primary, replica, base, ask) && x.ref == ref ensures v == Ask(x) { InFlagged(primary, replica, base, ask, x); }
  }

  // ----- order -----

  function ActionRef(a: Action): Ref { a.ref }

  function IssueRef(x: Issue): Ref { x.ref }

  /** Plan goes through the refs in order, so its two lists are in ref order with one entry a ref. */
  lemma {:induction false} PlanInOrder(refs: seq<Ref>, primary: Refs, replica: Refs, base: Refs, ask: Ancestry)
    requires Sorted(refs) && Distinct(refs)
    ensures InOrder(Actions(refs, primary, replica, base, ask), ActionRef)
    ensures InOrder(Issues(refs, primary, replica, base, ask), IssueRef)
  {
    if refs != [] {
      var front, last := refs[..|refs| - 1], On(refs[|refs| - 1], primary, replica, base, ask);
      PlanInOrder(front, primary, replica, base, ask);
      var actions, issues := Actions(front, primary, replica, base, ask), Issues(front, primary, replica, base, ask);
      forall a | a in actions ensures Before(ActionRef(a), refs) {
        ActionsAre(front, primary, replica, base, ask, a);
        BeforeLast(refs, a.ref);
      }
      forall x | x in issues ensures Before(IssueRef(x), refs) {
        IssuesAre(front, primary, replica, base, ask, x);
        BeforeLast(refs, x.ref);
      }
      if last.Do? { AppendInOrder(actions, last.action, ActionRef); }
      if last.Ask? { AppendInOrder(issues, last.issue, IssueRef); }
    }
  }

  ghost predicate Before(ref: Ref, refs: seq<Ref>)
    requires refs != []
  {
    AtMost(ref, refs[|refs| - 1]) && ref != refs[|refs| - 1]
  }

  lemma BeforeLast(refs: seq<Ref>, ref: Ref)
    requires Sorted(refs) && Distinct(refs) && refs != [] && ref in refs[..|refs| - 1]
    ensures Before(ref, refs)
  {
    var i :| 0 <= i < |refs| - 1 && refs[..|refs| - 1][i] == ref;
    assert refs[i] == ref;
  }
}
