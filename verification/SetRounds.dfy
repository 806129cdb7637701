/**
 * Rounds of the set merge that go wrong: writes that fail, with or without having taken effect,
 * nodes that could not be read, a base that could not be saved, a run that stopped before saving
 * it. The nodes are fixed and nobody else edits.
 */
module SetRounds {
  import opened Text
  import opened SetMerge

  /** What every node has, and the base on record. */
  datatype Site = Site(have: Haves, base: Marks)

  function Read(have: Haves, nodes: set<Node>): Haves {
    map n | n in have && n in nodes :: have[n]
  }

  /** A node's membership once some of the planned writes were done; read is what the plan was made from. */
  predicate AfterWrites(start: Haves, read: Haves, base: Marks, done: set<(Node, string)>, n: Node, e: string)
    requires n in start
  {
    if (n, e) in done && ToAdd(read, base, n, e) then true
    else if (n, e) in done && ToRemove(read, base, n, e) then false
    else Has(start[n], e)
  }

  ghost predicate Reached(now: Haves, start: Haves, read: Haves, base: Marks, done: set<(Node, string)>) {
    && now.Keys == start.Keys
    && forall n, e :: n in now ==> Has(now[n], e) == AfterWrites(start, read, base, done, n, e)
  }

  /** The base on record is the one settled from what the run took the nodes to have. */
  ghost predicate Recorded(s: Site, t: Site, seen: Haves) {
    forall e :: Has(t.base, e) == Settled(seen, s.base, e)
  }

  /**
   * One round: these nodes were read, these planned writes reported success and these took effect;
   * seen is what the run then takes the nodes to have. A base moves only when every node was read,
   * and may not move even then.
   */
  ghost predicate Round(s: Site, t: Site, nodes: set<Node>, seen: Haves, ok: set<(Node, string)>, landed: set<(Node, string)>) {
    && ok <= landed
    && Reached(t.have, s.have, Read(s.have, nodes), s.base, landed)
    && Reached(seen, Read(s.have, nodes), Read(s.have, nodes), s.base, ok)
    && (t.base == s.base || (s.have.Keys <= nodes && Recorded(s, t, seen)))
  }

  /** The verdict on a member: whether every node is to have it. */
  predicate Wanted(s: Site, e: string) {
    if Has(s.base, e) then Everywhere(s.have, e) else Somewhere(s.have, e)
  }

  /** A node that has not been brought to the verdict yet. */
  predicate Pending(s: Site, n: Node, e: string) {
    n in s.have && Has(s.have[n], e) != Wanted(s, e)
  }

  predicate Planned(s: Site, nodes: set<Node>, n: Node, e: string) {
    ToAdd(Read(s.have, nodes), s.base, n, e) || ToRemove(Read(s.have, nodes), s.base, n, e)
  }

  lemma ReadAll(have: Haves, nodes: set<Node>)
    requires have.Keys <= nodes
    ensures Read(have, nodes) == have
  {
  }

  /** Whatever is planned is still owed, and with every node read everything owed is planned. */
  lemma PlannedIsPending(s: Site, nodes: set<Node>, n: Node, e: string)
    ensures Planned(s, nodes, n, e) ==> Pending(s, n, e)
    ensures s.have.Keys <= nodes ==> (Planned(s, nodes, n, e) <==> Pending(s, n, e))
  {
    var read := Read(s.have, nodes);
    if Somewhere(read, e) {
      var m :| m in read && Has(read[m], e);
      assert Has(s.have[m], e);
    }
    if !Everywhere(read, e) {
      var m :| m in read && !Has(read[m], e);
      assert !Has(s.have[m], e);
    }
    if s.have.Keys <= nodes { ReadAll(s.have, nodes); }
  }

  /** Members nobody planned a write for on one node keep their place there; others only move towards the verdict. */
  lemma OnlyTowards(s: Site, nodes: set<Node>, done: set<(Node, string)>, n: Node, e: string)
    requires n in s.have
    ensures
      AfterWrites(s.have, Read(s.have, nodes), s.base, done, n, e) ==
      if (n, e) in done && Planned(s, nodes, n, e) then Wanted(s, e) else Has(s.have[n], e)
  {
    PlannedIsPending(s, nodes, n, e);
  }

  lemma SeenAsWanted(s: Site, nodes: set<Node>, seen: Haves, ok: set<(Node, string)>, n: Node, e: string)
    requires s.have.Keys <= nodes && Reached(seen, Read(s.have, nodes), Read(s.have, nodes), s.base, ok) && n in seen
    ensures Has(seen[n], e) == if (n, e) in ok && Pending(s, n, e) then Wanted(s, e) else Has(s.have[n], e)
  {
    ReadAll(s.have, nodes);
    OnlyTowards(s, nodes, ok, n, e);
    PlannedIsPending(s, nodes, n, e);
  }

  /** The base a round records, member by member: settled when no node is seen short of the verdict, and kept otherwise. */
  lemma SettledIs(s: Site, nodes: set<Node>, seen: Haves, ok: set<(Node, string)>, e: string)
    requires s.have != map[] && s.have.Keys <= nodes && Reached(seen, Read(s.have, nodes), Read(s.have, nodes), s.base, ok)
    ensures Settled(seen, s.base, e) ==
      if forall n :: n in s.have && Pending(s, n, e) ==> (n, e) in ok then Wanted(s, e) else Has(s.base, e)
  {
    ReadAll(s.have, nodes);
    forall n | n in seen ensures Has(seen[n], e) == if (n, e) in ok && Pending(s, n, e) then Wanted(s, e) else Has(s.have[n], e) {
      SeenAsWanted(s, nodes, seen, ok, n, e);
    }
    var m :| m in seen;
    if forall n :: n in s.have && Pending(s, n, e) ==> (n, e) in ok {
      assert forall n :: n in seen ==> Has(seen[n], e) == Wanted(s, e);
      assert Has(seen[m], e) == Wanted(s, e);
    } else {
      var n :| n in s.have && Pending(s, n, e) && (n, e) !in ok;
      assert Has(seen[n], e) != Wanted(s, e);
      NotSettledOtherwise(s, seen, ok, e, n);
    }
  }

  lemma NotSettledOtherwise(s: Site, seen: Haves, ok: set<(Node, string)>, e: string, n: Node)
    requires n in seen && seen.Keys == s.have.Keys && Pending(s, n, e) && Has(seen[n], e) == Has(s.have[n], e)
    requires forall m :: m in seen ==> Has(seen[m], e) == if (m, e) in ok && Pending(s, m, e) then Wanted(s, e) else Has(s.have[m], e)
    ensures Settled(seen, s.base, e) == Has(s.base, e)
  {
    if Wanted(s, e) {
      var m :| m in s.have && Has(s.have[m], e);
      assert Has(seen[m], e);
    }
  }

  /** However a round goes, the verdict on every member stays what it was. */
  lemma RoundKeepsVerdicts(s: Site, t: Site, nodes: set<Node>, seen: Haves, ok: set<(Node, string)>,
                           landed: set<(Node, string)>, e: string)
    requires Round(s, t, nodes, seen, ok, landed)
    ensures Wanted(t, e) == Wanted(s, e)
  {
    forall n | n in s.have
      ensures Has(t.have[n], e) == if (n, e) in landed && Planned(s, nodes, n, e) then Wanted(s, e) else Has(s.have[n], e)
    {
      OnlyTowards(s, nodes, landed, n, e);
    }
    if t.base != s.base && s.have != map[] {
      SettledIs(s, nodes, seen, ok, e);
      if forall n :: n in s.have && Pending(s, n, e) ==> (n, e) in ok {
        forall n | n in s.have ensures Has(t.have[n], e) == Wanted(s, e) {
          PlannedIsPending(s, nodes, n, e);
        }
        var m :| m in t.have;
        assert Has(t.have[m], e) == Wanted(s, e);
      } else {
        VerdictOf(s, t, e);
      }
    } else {
      VerdictOf(s, t, e);
    }
  }

  lemma VerdictOf(s: Site, t: Site, e: string)
    requires t.have.Keys == s.have.Keys && Has(t.base, e) == Has(s.base, e)
    requires forall n :: n in s.have ==> Has(t.have[n], e) == Wanted(s, e) || Has(t.have[n], e) == Has(s.have[n], e)
    ensures Wanted(t, e) == Wanted(s, e)
  {
  }

  /** A round takes out of what is owed exactly the planned writes that took effect. */
  lemma PendingShrinks(s: Site, t: Site, nodes: set<Node>, seen: Haves, ok: set<(Node, string)>,
                       landed: set<(Node, string)>, n: Node, e: string)
    requires Round(s, t, nodes, seen, ok, landed)
    ensures Pending(t, n, e) <==> Pending(s, n, e) && !((n, e) in landed && Planned(s, nodes, n, e))
  {
    RoundKeepsVerdicts(s, t, nodes, seen, ok, landed, e);
    if n in s.have { OnlyTowards(s, nodes, landed, n, e); }
  }

  // ----- runs -----

  ghost predicate SomeRound(s: Site, t: Site) {
    exists nodes: set<Node>, seen: Haves, ok: set<(Node, string)>, landed: set<(Node, string)> :: Round(s, t, nodes, seen, ok, landed)
  }

  ghost predicate Rounds(ss: seq<Site>) {
    ss != [] && forall i :: 0 <= i < |ss| - 1 ==> SomeRound(ss[i], ss[i + 1])
  }

  /** Every node was read, every planned write reported success, and the base was saved. */
  ghost predicate PerfectRound(s: Site, t: Site) {
    exists seen: Haves, ok: set<(Node, string)>, landed: set<(Node, string)> ::
      Round(s, t, s.have.Keys, seen, ok, landed) && Recorded(s, t, seen) && forall n, e :: Pending(s, n, e) ==> (n, e) in ok
  }

  lemma SomeRoundKeeps(s: Site, t: Site, e: string)
    requires SomeRound(s, t)
    ensures Wanted(t, e) == Wanted(s, e) && t.have.Keys == s.have.Keys
  {
    var nodes: set<Node>, seen: Haves, ok: set<(Node, string)>, landed: set<(Node, string)> :| Round(s, t, nodes, seen, ok, landed);
    RoundKeepsVerdicts(s, t, nodes, seen, ok, landed, e);
  }

  lemma {:induction false} RoundsKeepVerdicts(ss: seq<Site>, k: nat, e: string)
    requires Rounds(ss) && k < |ss|
    ensures Wanted(ss[k], e) == Wanted(ss[0], e) && ss[k].have.Keys == ss[0].have.Keys
  {
    if k > 0 {
      RoundsKeepVerdicts(ss, k - 1, e);
      assert SomeRound(ss[k - 1], ss[k - 1 + 1]);
      SomeRoundKeeps(ss[k - 1], ss[k], e);
    }
  }

  /** A round that reads every node and leaves nothing owed has every node and the base at the verdict. */
  lemma PerfectReaches(s: Site, t: Site, e: string)
    requires PerfectRound(s, t) && s.have != map[]
    ensures Has(t.base, e) == Wanted(s, e)
    ensures forall n :: n in t.have ==> Has(t.have[n], e) == Wanted(s, e)
  {
    var seen: Haves, ok: set<(Node, string)>, landed: set<(Node, string)> :|
      Round(s, t, s.have.Keys, seen, ok, landed) && Recorded(s, t, seen) && forall n, e :: Pending(s, n, e) ==> (n, e) in ok;
    SettledIs(s, s.have.Keys, seen, ok, e);
    forall n | n in t.have ensures Has(t.have[n], e) == Wanted(s, e) {
      OnlyTowards(s, s.have.Keys, landed, n, e);
      PlannedIsPending(s, s.have.Keys, n, e);
    }
  }

  /** The same memberships on the same nodes, and the same base. */
  ghost predicate SameSets(a: Site, b: Site) {
    && a.have.Keys == b.have.Keys
    && forall e :: Has(a.base, e) == Has(b.base, e) && forall n :: n in a.have ==> Has(a.have[n], e) == Has(b.have[n], e)
  }

  /**
   * Half-done rounds do not matter: whatever went wrong in any number of rounds, one that goes
   * right afterwards reaches what one that had gone right at once would have reached.
   */
  lemma RoundsConverge(ss: seq<Site>, end: Site, atOnce: Site)
    requires Rounds(ss) && ss[0].have != map[]
    requires PerfectRound(ss[|ss| - 1], end) && PerfectRound(ss[0], atOnce)
    ensures SameSets(end, atOnce)
  {
    RoundsKeepVerdicts(ss, |ss| - 1, "");
    assert end.have.Keys == atOnce.have.Keys;
    forall e ensures Has(end.base, e) == Has(atOnce.base, e) && forall n :: n in end.have ==> Has(end.have[n], e) == Has(atOnce.have[n], e) {
      RoundsKeepVerdicts(ss, |ss| - 1, e);
      PerfectReaches(ss[|ss| - 1], end, e);
      PerfectReaches(ss[0], atOnce, e);
    }
  }

  /** And nothing needs to go right at one time: once every owed write has landed in some round, reading every node and saving the base is enough. */
  lemma NothingOwedSettles(s: Site, t: Site, nodes: set<Node>, seen: Haves, ok: set<(Node, string)>, landed: set<(Node, string)>)
    requires Round(s, t, nodes, seen, ok, landed) && s.have.Keys <= nodes && s.have != map[] && Recorded(s, t, seen)
    requires forall n, e :: !Pending(s, n, e)
    ensures forall e :: Has(t.base, e) == Wanted(s, e)
    ensures forall n, e :: n in t.have ==> Has(t.have[n], e) == Has(s.have[n], e) == Wanted(s, e)
  {
    forall e ensures Has(t.base, e) == Wanted(s, e) {
      SettledIs(s, nodes, seen, ok, e);
    }
    forall n, e | n in t.have ensures Has(t.have[n], e) == Has(s.have[n], e) == Wanted(s, e) {
      OnlyTowards(s, nodes, landed, n, e);
      PlannedIsPending(s, nodes, n, e);
      assert !Pending(s, n, e);
    }
  }

  // ----- why the base waits for every node -----

  /**
   * Recording the base from some of the nodes keeps a member's verdict exactly when no node left
   * out disagrees with what the others have come to.
   */
  lemma SettlingWithoutSome(s: Site, nodes: set<Node>, base: Marks, e: string)
    requires Read(s.have, nodes) != map[] && Has(base, e) == Settled(Read(s.have, nodes), s.base, e)
    ensures
      var read := Read(s.have, nodes);
      Wanted(Site(s.have, base), e) == Wanted(s, e) <==>
        && (!Has(s.base, e) && Everywhere(read, e) ==> Everywhere(s.have, e))
        && (Has(s.base, e) && !Somewhere(read, e) ==> !Somewhere(s.have, e))
  {
    var read := Read(s.have, nodes);
    var m :| m in read;
    assert m in s.have;
    if Somewhere(read, e) {
      var k :| k in read && Has(read[k], e);
      assert Has(s.have[k], e);
    }
  }

  /** The base as this code keeps it is all that stands between an unread node and everyone else's members. */
  lemma UnreadReadsAsDeletion(have: Haves, away: Node, base: Marks, e: string)
    requires away in have && have.Keys - {away} != {} && !Has(have[away], e) && !Has(base, e)
    requires forall n :: n in have && n != away ==> Has(have[n], e)
    ensures Wanted(Site(have, base), e)
    ensures Settled(Read(have, have.Keys - {away}), base, e)
    ensures forall settled :: Has(settled, e) ==> !Wanted(Site(have, settled), e)
    ensures forall settled, n :: Has(settled, e) && n in have && n != away ==> ToRemove(have, settled, n, e)
  {
    var m :| m in have.Keys - {away};
    assert Has(have[m], e);
    assert m in Read(have, have.Keys - {away});
    assert !Everywhere(have, e);
  }

  // ----- a node that joins -----

  /** A node joining with some set keeps a verdict exactly when the set agrees with it in the way the base leaves open. */
  lemma JoiningKeepsVerdict(s: Site, n: Node, brought: Marks, e: string)
    requires n !in s.have
    ensures
      Wanted(Site(s.have[n := brought], s.base), e) == Wanted(s, e) <==>
        if Has(s.base, e) then Wanted(s, e) ==> Has(brought, e) else Has(brought, e) ==> Wanted(s, e)
  {
    var joined := s.have[n := brought];
    assert joined[n] == brought;
    assert forall m :: m in s.have ==> m in joined && joined[m] == s.have[m];
  }

  /** Where everyone had agreed, the joining node's set is the new verdict: an empty one takes every member off every node. */
  lemma JoiningDecides(s: Site, n: Node, brought: Marks, e: string)
    requires n !in s.have && s.have != map[]
    requires forall m :: m in s.have ==> Has(s.have[m], e) == Has(s.base, e)
    ensures Wanted(Site(s.have[n := brought], s.base), e) == Has(brought, e)
    ensures Has(s.base, e) && !Has(brought, e) ==> forall m :: m in s.have ==> ToRemove(s.have[n := brought], s.base, m, e)
  {
    var joined := s.have[n := brought];
    assert joined[n] == brought;
    assert forall m :: m in s.have ==> m in joined && joined[m] == s.have[m];
  }
}
