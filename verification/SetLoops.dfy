/**
 * The loops that carry a set merge out: reactions, and reviews, whose words are copied along. Every
 * call to a node may fail, and a call that reported an error may have taken effect all the same.
 */
module SetLoops {
  import opened Optional
  import opened Text
  import opened SetMerge
  import opened SetRounds

  function With(s: Marks, e: string, add: bool): Marks {
    if add then s[e := true] else s - {e}
  }

  lemma ReachOne(now: Haves, start: Haves, read: Haves, base: Marks, done: set<(Node, string)>, n: Node, e: string, add: bool)
    requires Reached(now, start, read, base, done) && n in now
    requires if add then ToAdd(read, base, n, e) else ToRemove(read, base, n, e)
    ensures Reached(now[n := With(now[n], e, add)], start, read, base, done + {(n, e)})
  {
    var after := now[n := With(now[n], e, add)];
    forall m, x | m in after ensures Has(after[m], x) == AfterWrites(start, read, base, done + {(n, e)}, m, x) {
      assert Has(now[m], x) == AfterWrites(start, read, base, done, m, x);
      assert (m, x) in done + {(n, e)} <==> (m, x) in done || (m == n && x == e);
    }
  }

  lemma SameSize<T>(a: set<T>, b: set<T>)
    requires a <= b && |a| == |b|
    ensures a == b
  {
    assert b == a + (b - a);
    assert |b - a| == 0;
    assert b - a == {};
  }

  /** The base on record, as the merge reads it. */
  ghost function BaseOf(base: string): Marks {
    Marked(Elements(Parts(base)))
  }

  /** A member is a person and what they said, or a digest: never empty, never with a comma. */
  ghost predicate Plain(have: Haves, base: Marks) {
    forall e :: Has(base, e) || Somewhere(have, e) ==> e != "" && ',' !in e
  }

  /** A run that saves the base only when every copy was read, or not at all, is a round. */
  lemma RecordsARound(world: Haves, world': Haves, read: Haves, have: Haves, base: string, base': string,
                      ok: set<(Node, string)>, landed: set<(Node, string)>)
    requires read.Keys <= world.Keys && read == Read(world, read.Keys) && ok <= landed
    requires Reached(world', world, read, BaseOf(base), landed) && Reached(have, read, read, BaseOf(base), ok)
    requires base' == base || (read.Keys == world.Keys && base' == Stored(Agreed(have, BaseOf(base))))
    requires Plain(have, BaseOf(base))
    ensures Round(Site(world, BaseOf(base)), Site(world', BaseOf(base')), read.Keys, have, ok, landed)
    ensures base' == Stored(Agreed(have, BaseOf(base))) ==> Recorded(Site(world, BaseOf(base)), Site(world', BaseOf(base')), have)
  {
    if base' == Stored(Agreed(have, BaseOf(base))) {
      var agreed := Agreed(have, BaseOf(base));
      forall e | e in agreed ensures e != "" && ',' !in e {
        assert Has(BaseOf(base), e) || Somewhere(have, e) by { if have != map[] && Everywhere(have, e) { var n :| n in have; } }
      }
      StoredReadsBack(agreed);
      forall e ensures Has(BaseOf(base'), e) == Settled(have, BaseOf(base), e) {
        if Settled(have, BaseOf(base), e) && have != map[] && Everywhere(have, e) {
          var n :| n in have;
          assert Has(have[n], e);
        }
      }
    }
  }

  /** Everything planned for these nodes was done. */
  ghost predicate AllDone(nodes: seq<Node>, read: Haves, base: Marks, ok: set<(Node, string)>) {
    forall n, e :: n in nodes && (ToAdd(read, base, n, e) || ToRemove(read, base, n, e)) ==> (n, e) in ok
  }

  /** Reactions under one record: world is what the nodes really have, have is what this run believes, base is on file. */
  class Reactions {
    var world: Haves
    var have: Haves
    var complete: bool
    var base: string
    ghost var asked: set<(Node, string)>  // the writes that were sent

    constructor (world: Haves, read: set<Node>, base: string)
      ensures this.world == world && have == Read(world, read) && complete && this.base == base && asked == {}
    {
      asked := {};
      this.world, this.have, this.complete, this.base := world, Read(world, read), true, base;
    }

    /** One write. What the run takes the node to have changes only on success. */
    method React(node: Node, e: string, add: bool) returns (ghost ok: bool, ghost landed: bool)
      requires node in world && node in have
      modifies this`world, this`have, this`complete, this`asked
      ensures asked == old(asked) + {(node, e)}
      ensures ok ==> landed
      ensures world == if landed then old(world)[node := With(old(world)[node], e, add)] else old(world)
      ensures have == if ok then old(have)[node := With(old(have)[node], e, add)] else old(have)
      ensures complete == (old(complete) && ok)
    {
      ok, landed := false, false;
      asked := asked + {(node, e)};
      if add {
        if * { // nobody to react as
          complete := false;
          return;
        }
      }
      if * { // the call fails, before or after it took effect
        if * {
          landed := true;
          world := world[node := With(world[node], e, add)];
        }
        complete := false;
        return;
      }
      ok, landed := true, true;
      world := world[node := With(world[node], e, add)];
      have := have[node := if add then have[node][e := true] else have[node] - {e}];
    }

    /** One node's additions or removals. */
    method Carry(node: Node, list: seq<string>, add: bool, ghost start: Haves, ghost read: Haves, ghost want: Marks,
                 ghost ok0: set<(Node, string)>, ghost landed0: set<(Node, string)>)
      returns (ghost ok: set<(Node, string)>, ghost landed: set<(Node, string)>)
      requires forall e :: e in list ==> if add then ToAdd(read, want, node, e) else ToRemove(read, want, node, e)
      requires ok0 <= landed0 && Reached(world, start, read, want, landed0) && Reached(have, read, read, want, ok0)
      requires list != [] ==> node in world
      modifies this`world, this`have, this`complete, this`asked
      ensures old(asked) <= asked && DoneFor(node, list, asked) && asked - old(asked) <= Pairs(node, list)
      ensures ok <= landed && Reached(world, start, read, want, landed) && Reached(have, read, read, want, ok)
      ensures ok0 <= ok && (complete ==> old(complete) && DoneFor(node, list, ok))
    {
      ok, landed := ok0, landed0;
      for i := 0 to |list|
        invariant ok <= landed && Reached(world, start, read, want, landed) && Reached(have, read, read, want, ok)
        invariant ok0 <= ok && (complete ==> old(complete) && DoneFor(node, list[..i], ok))
        invariant old(asked) <= asked && DoneFor(node, list[..i], asked) && asked - old(asked) <= Pairs(node, list)
      {
        ghost var sent := asked;
        var e := list[i];
        ghost var before := ok;
        ReachOne(world, start, read, want, landed, node, e, add);
        ReachOne(have, read, read, want, ok, node, e, add);
        ghost var o, l := React(node, e, add);
        if o { ok := ok + {(node, e)}; }
        if l { landed := landed + {(node, e)}; }
        OneMoreDone(node, list, i, before, ok, complete);
        OneMoreDone(node, list, i, sent, asked, true);
      }
      assert list[..|list|] == list;
    }

    /** One node's additions, then its removals. */
    method CarryNode(node: Node, comes: seq<string>, goes: seq<string>, ghost start: Haves, ghost read: Haves, ghost want: Marks,
                     ghost ok0: set<(Node, string)>, ghost landed0: set<(Node, string)>)
      returns (ghost ok: set<(Node, string)>, ghost landed: set<(Node, string)>)
      requires forall e :: e in comes ==> ToAdd(read, want, node, e)
      requires forall e :: e in goes ==> ToRemove(read, want, node, e)
      requires ok0 <= landed0 && Reached(world, start, read, want, landed0) && Reached(have, read, read, want, ok0)
      requires comes != [] || goes != [] ==> node in world
      modifies this`world, this`have, this`complete, this`asked
      ensures old(asked) <= asked && DoneFor(node, comes, asked) && DoneFor(node, goes, asked)
      ensures asked - old(asked) <= Pairs(node, comes) + Pairs(node, goes)
      ensures ok <= landed && Reached(world, start, read, want, landed) && Reached(have, read, read, want, ok)
      ensures ok0 <= ok && (complete ==> old(complete) && DoneFor(node, comes, ok) && DoneFor(node, goes, ok))
    {
      ok, landed := Carry(node, comes, true, start, read, want, ok0, landed0);
      ok, landed := Carry(node, goes, false, start, read, want, ok, landed);
    }

    /** Every node's plan in turn; next is settled from what the run then believes. */
    method SyncReactions(nodes: seq<Node>) returns (next: string, ghost ok: set<(Node, string)>, ghost landed: set<(Node, string)>)
      requires have.Keys <= world.Keys
      modifies this`world, this`have, this`complete, this`asked
      ensures old(asked) <= asked && AllDone(nodes, old(have), BaseOf(base), asked) && OnlyPlanned(old(have), BaseOf(base), old(asked), asked)
      ensures ok <= landed
      ensures Reached(world, old(world), old(have), BaseOf(base), landed) && Reached(have, old(have), old(have), BaseOf(base), ok)
      ensures next == Stored(Agreed(have, BaseOf(base)))
      ensures complete ==> old(complete) && AllDone(nodes, old(have), BaseOf(base), ok)
    {
      var want := From(base);
      var plan := Decide(have, want);
      ok, landed := {}, {};
      ghost var start, read := world, have;
      for i := 0 to |nodes|
        invariant ok <= landed && Reached(world, start, read, want, landed) && Reached(have, read, read, want, ok)
        invariant complete ==> old(complete) && AllDone(nodes[..i], read, want, ok)
        invariant old(asked) <= asked && AllDone(nodes[..i], read, want, asked) && OnlyPlanned(read, want, old(asked), asked)
      {
        ghost var before, sent := ok, asked;
        PlanOf(plan, read, want, nodes[i]);
        ok, landed := CarryNode(nodes[i], Entry(plan.add, nodes[i]), Entry(plan.remove, nodes[i]), start, read, want, ok, landed);
        if complete { OneMoreNode(plan, nodes, i, read, want, before, ok); }
        OneMoreNode(plan, nodes, i, read, want, sent, asked);
        OnlyPlannedMore(plan, nodes[i], read, want, old(asked), sent, asked);
      }
      assert nodes[..|nodes|] == nodes;
      next := Settle(have, want);
    }

    /** A run over one issue: a new base is saved only when every copy was read, and the save may fail, which saved tells. It is one round, however it went. */
    method Run(nodes: seq<Node>, saved: bool) returns (ghost ok: set<(Node, string)>, ghost landed: set<(Node, string)>)
      requires have.Keys <= world.Keys && have == Read(world, have.Keys) && Plain(have, BaseOf(base))
      modifies this
      ensures Round(Site(old(world), BaseOf(old(base))), Site(world, BaseOf(base)), old(have.Keys), have, ok, landed)
      ensures old(asked) <= asked && AllDone(nodes, old(have), BaseOf(old(base)), asked) && OnlyPlanned(old(have), BaseOf(old(base)), old(asked), asked)
      ensures base == if saved && old(have.Keys) == old(world.Keys) then Stored(Agreed(have, BaseOf(old(base)))) else old(base)
      ensures
        complete && saved && old(have.Keys) == old(world.Keys) && (forall n :: n in old(world) ==> n in nodes) ==>
          PerfectRound(Site(old(world), BaseOf(old(base))), Site(world, BaseOf(base)))
    {
      ghost var read, was, start := have, base, world;
      var next;
      var sawAll := |have| == |world|;
      next, ok, landed := SyncReactions(nodes);
      if sawAll {
        SameSize(read.Keys, old(world).Keys);
        base := if saved then next else base;
      }
      PlainStays(have, read, BaseOf(was), ok);
      RecordsARound(start, world, read, have, was, base, ok, landed);
      if complete && saved && read.Keys == start.Keys && (forall n :: n in start ==> n in nodes) {
        IsPerfect(Site(start, BaseOf(was)), Site(world, BaseOf(base)), nodes, have, ok, landed);
      }
    }
  }

  ghost function Pairs(node: Node, list: seq<string>): set<(Node, string)> {
    set e | e in list :: (node, e)
  }

  /** What was sent to one node: these, and nothing that is not on the whole list. */
  ghost predicate SentTo(before: set<(Node, string)>, after: set<(Node, string)>, n: Node, done: seq<string>, list: seq<string>) {
    before <= after && DoneFor(n, done, after) && after - before <= Pairs(n, list)
  }

  lemma SentOneMore(before: set<(Node, string)>, sent: set<(Node, string)>, n: Node, list: seq<string>, j: nat)
    requires j < |list| && SentTo(before, sent, n, list[..j], list)
    ensures SentTo(before, sent + {(n, list[j])}, n, list[..j + 1], list)
  {
    OneMoreDone(n, list, j, sent, sent + {(n, list[j])}, true);
  }

  /** Nothing is sent that is not planned. */
  ghost predicate OnlyPlanned(read: Haves, base: Marks, before: set<(Node, string)>, after: set<(Node, string)>) {
    forall n, e :: (n, e) in after && (n, e) !in before ==> ToAdd(read, base, n, e) || ToRemove(read, base, n, e)
  }

  lemma OnlyPlannedMore(plan: Plan, n: Node, read: Haves, base: Marks, before: set<(Node, string)>, sent: set<(Node, string)>,
                        after: set<(Node, string)>)
    requires OnlyPlanned(read, base, before, sent) && after - sent <= Pairs(n, Entry(plan.add, n)) + Pairs(n, Entry(plan.remove, n))
    requires forall e :: e in Entry(plan.add, n) <==> ToAdd(read, base, n, e)
    requires forall e :: e in Entry(plan.remove, n) <==> ToRemove(read, base, n, e)
    ensures OnlyPlanned(read, base, before, after)
  {
    forall m, e | (m, e) in after && (m, e) !in before ensures ToAdd(read, base, m, e) || ToRemove(read, base, m, e) {
      if (m, e) !in sent { assert (m, e) in after - sent; }
    }
  }

  lemma PlanOf(plan: Plan, have: Haves, base: Marks, n: Node)
    requires Entry(plan.add, n) == Listing(Additions(have, base, n)) && Entry(plan.remove, n) == Listing(Removals(have, base, n))
    ensures forall e :: e in Entry(plan.add, n) <==> ToAdd(have, base, n, e)
    ensures forall e :: e in Entry(plan.remove, n) <==> ToRemove(have, base, n, e)
    ensures Entry(plan.add, n) != [] || Entry(plan.remove, n) != [] ==> n in have
  {
    forall e ensures e in Entry(plan.add, n) <==> ToAdd(have, base, n, e) {
      assert e in Entry(plan.add, n) <==> e in Elements(Listing(Additions(have, base, n)));
      if ToAdd(have, base, n, e) {
        var m :| m in have && Has(have[m], e);
        assert e in have[m];
      }
    }
    forall e ensures e in Entry(plan.remove, n) <==> ToRemove(have, base, n, e) {
      assert e in Entry(plan.remove, n) <==> e in Elements(Listing(Removals(have, base, n)));
    }
    if Entry(plan.add, n) != [] { assert Entry(plan.add, n)[0] in Entry(plan.add, n); }
    if Entry(plan.remove, n) != [] { assert Entry(plan.remove, n)[0] in Entry(plan.remove, n); }
  }

  lemma PlainStays(now: Haves, read: Haves, base: Marks, ok: set<(Node, string)>)
    requires Reached(now, read, read, base, ok) && Plain(read, base)
    ensures Plain(now, base)
  {
    forall e | Somewhere(now, e) ensures Has(base, e) || Somewhere(read, e) {
      var n :| n in now && Has(now[n], e);
      assert Has(now[n], e) == AfterWrites(read, read, base, ok, n, e);
    }
  }

  // ----- reviews -----

  type Reviewed<R> = map<Node, map<string, R>>

  function Keyed<R>(at: Reviewed<R>): Haves {
    map n | n in at :: map e | e in at[n] :: true
  }

  /** The review a member stands for: the one on the first node that has it. */
  ghost function First<R>(nodes: seq<Node>, at: Reviewed<R>, e: string): Option<R> {
    if nodes == [] then None
    else if nodes[0] in at && e in at[nodes[0]] then Some(at[nodes[0]][e])
    else First(nodes[1..], at, e)
  }

  /** What a node had is not reworded, and what it got is what the first node that had it said. */
  ghost predicate Faithful<R>(now: Reviewed<R>, start: Reviewed<R>, nodes: seq<Node>, source: Reviewed<R>) {
    && now.Keys == start.Keys
    && forall n, e :: n in now && e in now[n] ==> Same(start, nodes, source, n, e, now[n][e])
  }

  ghost predicate Same<R>(start: Reviewed<R>, nodes: seq<Node>, source: Reviewed<R>, n: Node, e: string, v: R) {
    n in start && if e in start[n] then v == start[n][e] else First(nodes, source, e) == Some(v)
  }

  /** What a run read of the nodes it goes through. */
  ghost predicate ReadFrom<R>(world: Reviewed<R>, at: Reviewed<R>, nodes: seq<Node>) {
    forall n :: n in at ==> n in nodes && n in world && world[n] == at[n]
  }

  lemma {:induction false} FirstAt<R>(nodes: seq<Node>, at: Reviewed<R>, e: string, i: nat)
    requires i < |nodes| && nodes[i] in at && e in at[nodes[i]]
    requires forall j :: 0 <= j < i ==> !(nodes[j] in at && e in at[nodes[j]])
    ensures First(nodes, at, e) == Some(at[nodes[i]][e])
  {
    if i > 0 {
      assert !(nodes[0] in at && e in at[nodes[0]]);
      forall j | 0 <= j < i - 1 ensures !(nodes[1..][j] in at && e in at[nodes[1..][j]]) {
        assert nodes[1..][j] == nodes[j + 1];
      }
      FirstAt(nodes[1..], at, e, i - 1);
    }
  }

  /** Copies made on the way do not change which words are copied. */
  lemma FirstStays<R>(now: Reviewed<R>, start: Reviewed<R>, nodes: seq<Node>, e: string, i: nat)
    requires Faithful(now, start, nodes, start) && i < |nodes| && nodes[i] in now && e in now[nodes[i]]
    requires forall j :: 0 <= j < i ==> !(nodes[j] in now && e in now[nodes[j]])
    requires forall n :: n in start && e in start[n] ==> e in now[n]
    ensures First(nodes, start, e) == Some(now[nodes[i]][e])
  {
    if e in start[nodes[i]] {
      FirstAt(nodes, start, e, i);
    }
  }

  /** Where the review loop stands after some of its writes. */
  ghost predicate Going<R>(world: Reviewed<R>, at: Reviewed<R>, have: Haves, world0: Reviewed<R>, at0: Reviewed<R>,
                           nodes: seq<Node>, want: Marks,
                           ok: set<(Node, string)>, landed: set<(Node, string)>) {
    && ok <= landed && have == Keyed(at)
    && Reached(Keyed(world), Keyed(world0), Keyed(at0), want, landed) && Reached(have, Keyed(at0), Keyed(at0), want, ok)
    && Faithful(world, world0, nodes, at0) && Faithful(at, at0, nodes, at0)
  }

  class Reviews<R> {
    var world: Reviewed<R>
    var at: Reviewed<R>
    var have: Haves
    var complete: bool
    ghost var asked: set<(Node, string)>  // the reviews nodes were asked to remove or to take

    constructor (world: Reviewed<R>, read: set<Node>)
      ensures this.world == world && at == (map n | n in world && n in read :: world[n]) && have == Keyed(at) && complete && asked == {}
    {
      asked := {};
      var mine := map n | n in world && n in read :: world[n];
      this.world, at, have, complete := world, mine, Keyed(mine), true;
    }

    /** The first node, in the run's order, that has the review. */
    method FindReview(nodes: seq<Node>, e: string) returns (r: Option<R>, ghost i: nat)
      ensures r.None? <==> forall n :: n in nodes && n in at ==> e !in at[n]
      ensures
        r.Some? ==>
          && i < |nodes| && nodes[i] in at && e in at[nodes[i]] && r.value == at[nodes[i]][e]
          && forall j :: 0 <= j < i ==> !(nodes[j] in at && e in at[nodes[j]])
    {
      i := 0;
      for k := 0 to |nodes|
        invariant forall j :: 0 <= j < k ==> !(nodes[j] in at && e in at[nodes[j]])
      {
        if nodes[k] in at && e in at[nodes[k]] { return Some(at[nodes[k]][e]), k; }
      }
      return None, 0;
    }

    method Remove(n: Node, e: string) returns (ghost ok: bool, ghost landed: bool)
      requires n in world && n in at && n in have
      modifies this
      ensures asked == old(asked) + {(n, e)}
      ensures ok ==> landed
      ensures world == if landed then old(world)[n := old(world)[n] - {e}] else old(world)
      ensures at == if ok then old(at)[n := old(at)[n] - {e}] else old(at)
      ensures have == if ok then old(have)[n := With(old(have)[n], e, false)] else old(have)
      ensures complete == (old(complete) && ok)
    {
      ok, landed := false, false;
      asked := asked + {(n, e)};
      if * {
        if * {
          landed := true;
          world := world[n := world[n] - {e}];
        }
        complete := false;
        return;
      }
      ok, landed := true, true;
      world := world[n := world[n] - {e}];
      at := at[n := at[n] - {e}];
      have := have[n := have[n] - {e}];
    }

    method Submit(n: Node, e: string, v: R) returns (ghost ok: bool, ghost landed: bool)
      requires n in world && n in at && n in have
      modifies this
      ensures asked == old(asked) + {(n, e)}
      ensures ok ==> landed
      ensures world == if landed then old(world)[n := old(world)[n][e := v]] else old(world)
      ensures at == if ok then old(at)[n := old(at)[n][e := v]] else old(at)
      ensures have == if ok then old(have)[n := With(old(have)[n], e, true)] else old(have)
      ensures complete == (old(complete) && ok)
    {
      ok, landed := false, false;
      asked := asked + {(n, e)};
      if * { // nobody to review as
        complete := false;
        return;
      }
      if * {
        if * {
          landed := true;
          world := world[n := world[n][e := v]];
        }
        complete := false;
        return;
      }
      ok, landed := true, true;
      world := world[n := world[n][e := v]];
      at := at[n := at[n][e := v]];
      have := have[n := have[n][e := true]];
    }

    method RemoveOne(n: Node, e: string, ghost world0: Reviewed<R>, ghost at0: Reviewed<R>, ghost nodes: seq<Node>, ghost want: Marks,
                     ghost ok0: set<(Node, string)>, ghost landed0: set<(Node, string)>)
      returns (ghost ok: set<(Node, string)>, ghost landed: set<(Node, string)>)
      requires Going(world, at, have, world0, at0, nodes, want, ok0, landed0) && ToRemove(Keyed(at0), want, n, e) &&
        ReadFrom(world0, at0, nodes)
      modifies this
      ensures Going(world, at, have, world0, at0, nodes, want, ok, landed)
      ensures ok0 <= ok && (complete ==> old(complete) && (n, e) in ok) && asked == old(asked) + {(n, e)}
    {
      IsThere(world, world0, at, at0, want, ok0, landed0, n);
      ReachOne(Keyed(world), Keyed(world0), Keyed(at0), want, landed0, n, e, false);
      ReachOne(have, Keyed(at0), Keyed(at0), want, ok0, n, e, false);
      KeyedWithout(world, n, e);
      KeyedWithout(at, n, e);
      FaithfulWithout(world, world0, nodes, at0, n, e);
      FaithfulWithout(at, at0, nodes, at0, n, e);
      ghost var o, l := Remove(n, e);
      ok := if o then ok0 + {(n, e)} else ok0;
      landed := if l then landed0 + {(n, e)} else landed0;
    }

    /** Some node always has the review to copy, and what is copied is what the first node said. */
    method CopyOne(n: Node, e: string, nodes: seq<Node>, ghost world0: Reviewed<R>, ghost at0: Reviewed<R>, ghost want: Marks,
                   ghost ok0: set<(Node, string)>, ghost landed0: set<(Node, string)>)
      returns (ghost ok: set<(Node, string)>, ghost landed: set<(Node, string)>)
      requires Going(world, at, have, world0, at0, nodes, want, ok0, landed0) && ToAdd(Keyed(at0), want, n, e)
      requires ReadFrom(world0, at0, nodes)
      modifies this
      ensures Going(world, at, have, world0, at0, nodes, want, ok, landed)
      ensures ok0 <= ok && (complete ==> old(complete) && (n, e) in ok) && asked == old(asked) + {(n, e)}
    {
      IsThere(world, world0, at, at0, want, ok0, landed0, n);
      StillThere(at, at0, want, ok0, n, e);
      var found; ghost var i;
      found, i := FindReview(nodes, e);
      if found.None? {
        assert false; // the program's error for this cannot occur
      } else {
        FirstStays(at, at0, nodes, e, i);
        ReachOne(Keyed(world), Keyed(world0), Keyed(at0), want, landed0, n, e, true);
        ReachOne(have, Keyed(at0), Keyed(at0), want, ok0, n, e, true);
        KeyedWith(world, n, e, found.value);
        KeyedWith(at, n, e, found.value);
        FaithfulWith(world, world0, nodes, at0, n, e, found.value);
        FaithfulWith(at, at0, nodes, at0, n, e, found.value);
        ghost var o, l := Submit(n, e, found.value);
        ok := if o then ok0 + {(n, e)} else ok0;
        landed := if l then landed0 + {(n, e)} else landed0;
      }
    }

    method RemoveAll(n: Node, goes: seq<string>, nodes: seq<Node>, ghost world0: Reviewed<R>, ghost at0: Reviewed<R>,
                     ghost want: Marks,
                     ghost ok0: set<(Node, string)>, ghost landed0: set<(Node, string)>)
      returns (ghost ok: set<(Node, string)>, ghost landed: set<(Node, string)>)
      requires Going(world, at, have, world0, at0, nodes, want, ok0, landed0)
      requires ReadFrom(world0, at0, nodes)
      requires forall i :: 0 <= i < |goes| ==> ToRemove(Keyed(at0), want, n, goes[i])
      modifies this
      ensures Going(world, at, have, world0, at0, nodes, want, ok, landed)
      ensures ok0 <= ok && (complete ==> old(complete) && DoneFor(n, goes, ok))
      ensures SentTo(old(asked), asked, n, goes, goes)
    {
      ok, landed := ok0, landed0;
      for j := 0 to |goes|
        invariant Going(world, at, have, world0, at0, nodes, want, ok, landed) && ok0 <= ok
        invariant complete ==> old(complete) && DoneFor(n, goes[..j], ok)
        invariant SentTo(old(asked), asked, n, goes[..j], goes)
      {
        ghost var before, sent := ok, asked;
        ok, landed := RemoveOne(n, goes[j], world0, at0, nodes, want, ok, landed);
        OneMoreDone(n, goes, j, before, ok, complete);
        SentOneMore(old(asked), sent, n, goes, j);
      }
      assert goes[..|goes|] == goes;
    }

    method CopyAll(n: Node, comes: seq<string>, nodes: seq<Node>, ghost world0: Reviewed<R>, ghost at0: Reviewed<R>, ghost want: Marks,
                   ghost ok0: set<(Node, string)>, ghost landed0: set<(Node, string)>)
      returns (ghost ok: set<(Node, string)>, ghost landed: set<(Node, string)>)
      requires Going(world, at, have, world0, at0, nodes, want, ok0, landed0)
      requires ReadFrom(world0, at0, nodes)
      requires forall i :: 0 <= i < |comes| ==> ToAdd(Keyed(at0), want, n, comes[i])
      modifies this
      ensures Going(world, at, have, world0, at0, nodes, want, ok, landed)
      ensures ok0 <= ok && (complete ==> old(complete) && DoneFor(n, comes, ok))
      ensures SentTo(old(asked), asked, n, comes, comes)
    {
      ok, landed := ok0, landed0;
      for j := 0 to |comes|
        invariant Going(world, at, have, world0, at0, nodes, want, ok, landed) && ok0 <= ok
        invariant complete ==> old(complete) && DoneFor(n, comes[..j], ok)
        invariant SentTo(old(asked), asked, n, comes[..j], comes)
      {
        ghost var before, sent := ok, asked;
        ok, landed := CopyOne(n, comes[j], nodes, world0, at0, want, ok, landed);
        OneMoreDone(n, comes, j, before, ok, complete);
        SentOneMore(old(asked), sent, n, comes, j);
      }
      assert comes[..|comes|] == comes;
    }

    /** One node's removals, then its additions. */
    method CarryNode(n: Node, goes: seq<string>, comes: seq<string>, nodes: seq<Node>, ghost world0: Reviewed<R>,
                     ghost at0: Reviewed<R>, ghost want: Marks,
                     ghost ok0: set<(Node, string)>, ghost landed0: set<(Node, string)>)
      returns (ghost ok: set<(Node, string)>, ghost landed: set<(Node, string)>)
      requires Going(world, at, have, world0, at0, nodes, want, ok0, landed0)
      requires ReadFrom(world0, at0, nodes)
      requires forall e :: e in goes ==> ToRemove(Keyed(at0), want, n, e)
      requires forall e :: e in comes ==> ToAdd(Keyed(at0), want, n, e)
      modifies this
      ensures Going(world, at, have, world0, at0, nodes, want, ok, landed)
      ensures ok0 <= ok && (complete ==> old(complete) && DoneFor(n, goes, ok) && DoneFor(n, comes, ok))
      ensures old(asked) <= asked && DoneFor(n, goes, asked) && DoneFor(n, comes, asked)
      ensures asked - old(asked) <= Pairs(n, goes) + Pairs(n, comes)
    {
      ok, landed := RemoveAll(n, goes, nodes, world0, at0, want, ok0, landed0);
      ok, landed := CopyAll(n, comes, nodes, world0, at0, want, ok, landed);
    }

    /** Every node's plan in turn; next is settled from what the run then believes. */
    method SyncReviews(nodes: seq<Node>, base: string) returns (next: string, ghost ok: set<(Node, string)>,
                       ghost landed: set<(Node, string)>)
      requires have == Keyed(at) && ReadFrom(world, at, nodes)
      modifies this
      ensures Going(world, at, have, old(world), old(at), nodes, BaseOf(base), ok, landed)
      ensures next == Stored(Agreed(have, BaseOf(base)))
      ensures complete ==> old(complete) && AllDone(nodes, Keyed(old(at)), BaseOf(base), ok)
      ensures old(asked) <= asked && AllDone(nodes, Keyed(old(at)), BaseOf(base), asked)
      ensures OnlyPlanned(Keyed(old(at)), BaseOf(base), old(asked), asked)
    {
      var want := From(base);
      var plan := Decide(have, want);
      ok, landed := {}, {};
      ghost var world0, at0 := world, at;
      for i := 0 to |nodes|
        invariant Going(world, at, have, world0, at0, nodes, want, ok, landed)
        invariant complete ==> old(complete) && AllDone(nodes[..i], Keyed(at0), want, ok)
        invariant old(asked) <= asked && AllDone(nodes[..i], Keyed(at0), want, asked) && OnlyPlanned(Keyed(at0), want, old(asked), asked)
      {
        ghost var before, sent := ok, asked;
        PlanOf(plan, Keyed(at0), want, nodes[i]);
        ok, landed := CarryNode(nodes[i], Entry(plan.remove, nodes[i]), Entry(plan.add, nodes[i]), nodes, world0, at0, want, ok, landed);
        if complete { OneMoreNode(plan, nodes, i, Keyed(at0), want, before, ok); }
        OneMoreNode(plan, nodes, i, Keyed(at0), want, sent, asked);
        OnlyPlannedMore(plan, nodes[i], Keyed(at0), want, old(asked), sent, asked);
      }
      assert nodes[..|nodes|] == nodes;
      next := Settle(have, want);
    }

    /** A run over one pull request: one round however it went, and nobody's words are changed. */
    method Run(nodes: seq<Node>, base: string, saved: bool) returns (base': string, ghost ok: set<(Node, string)>,
               ghost landed: set<(Node, string)>)
      requires have == Keyed(at) && ReadFrom(world, at, nodes)
      requires Plain(have, BaseOf(base))
      modifies this
      ensures Round(Site(Keyed(old(world)), BaseOf(base)), Site(Keyed(world), BaseOf(base')), old(at.Keys), have, ok, landed)
      ensures Faithful(world, old(world), nodes, old(at))
      ensures old(asked) <= asked && AllDone(nodes, Keyed(old(at)), BaseOf(base), asked)
      ensures OnlyPlanned(Keyed(old(at)), BaseOf(base), old(asked), asked)
      ensures base' == if saved && |old(at).Keys| == |old(world).Keys| then Stored(Agreed(have, BaseOf(base))) else base
      ensures complete ==> AllDone(nodes, Keyed(old(at)), BaseOf(base), ok)
      ensures
        complete && saved && old(at.Keys) == old(world.Keys) && (forall n :: n in old(world) ==> n in nodes) ==>
          PerfectRound(Site(Keyed(old(world)), BaseOf(base)), Site(Keyed(world), BaseOf(base')))
    {
      ghost var world0, at0 := world, at;
      var sawAll := |at.Keys| == |world.Keys|;
      var next;
      next, ok, landed := SyncReviews(nodes, base);
      base' := if sawAll && saved then next else base;
      ReviewsRound(world0, world, at0, have, nodes, base, base', ok, landed);
      if complete && saved && at0.Keys == world0.Keys && (forall n :: n in world0 ==> n in nodes) {
        KeyedRead(world0, at0);
        ReadAll(Keyed(world0), at0.Keys);
        IsPerfect(Site(Keyed(world0), BaseOf(base)), Site(Keyed(world), BaseOf(base')), nodes, have, ok, landed);
      }
    }
  }

  /** The premises of RecordsARound, from where the review loop ends. */
  lemma ReviewsRound<R>(world0: Reviewed<R>, world: Reviewed<R>, at0: Reviewed<R>, have: Haves, nodes: seq<Node>,
                        base: string, base': string,
                        ok: set<(Node, string)>, landed: set<(Node, string)>)
    requires forall n :: n in at0 ==> n in world0 && world0[n] == at0[n]
    requires ok <= landed && Plain(Keyed(at0), BaseOf(base))
    requires Reached(Keyed(world), Keyed(world0), Keyed(at0), BaseOf(base), landed) &&
      Reached(have, Keyed(at0), Keyed(at0), BaseOf(base), ok)
    requires base' == base || (|at0.Keys| == |world0.Keys| && base' == Stored(Agreed(have, BaseOf(base))))
    ensures Round(Site(Keyed(world0), BaseOf(base)), Site(Keyed(world), BaseOf(base')), at0.Keys, have, ok, landed)
    ensures base' == Stored(Agreed(have, BaseOf(base))) ==>
      Recorded(Site(Keyed(world0), BaseOf(base)), Site(Keyed(world), BaseOf(base')), have)
  {
    KeyedRead(world0, at0);
    PlainStays(have, Keyed(at0), BaseOf(base), ok);
    RecordsARound(Keyed(world0), Keyed(world), Keyed(at0), have, base, base', ok, landed);
  }

  lemma KeyedRead<R>(world0: Reviewed<R>, at0: Reviewed<R>)
    requires forall n :: n in at0 ==> n in world0 && world0[n] == at0[n]
    ensures Keyed(at0) == Read(Keyed(world0), at0.Keys) && Keyed(at0).Keys == at0.Keys <= Keyed(world0).Keys == world0.Keys
    ensures |at0.Keys| == |world0.Keys| ==> at0.Keys == world0.Keys
  {
    assert at0.Keys <= world0.Keys;
    if |at0.Keys| == |world0.Keys| { SameSize(at0.Keys, world0.Keys); }
    var all, mine := Keyed(world0), Keyed(at0);
    assert all.Keys == world0.Keys && mine.Keys == at0.Keys;
    assert mine == Read(all, at0.Keys);
  }

  /** Reading everything, writing everything and saving makes a perfect round. */
  lemma IsPerfect(s: Site, t: Site, nodes: seq<Node>, seen: Haves, ok: set<(Node, string)>, landed: set<(Node, string)>)
    requires Round(s, t, s.have.Keys, seen, ok, landed) && Recorded(s, t, seen)
    requires AllDone(nodes, s.have, s.base, ok) && forall n :: n in s.have ==> n in nodes
    ensures PerfectRound(s, t)
  {
    forall n, e | Pending(s, n, e) ensures (n, e) in ok {
      ReadAll(s.have, s.have.Keys);
      PlannedIsPending(s, s.have.Keys, n, e);
    }
  }

  ghost predicate DoneFor(n: Node, list: seq<string>, ok: set<(Node, string)>) {
    forall e :: e in list ==> (n, e) in ok
  }

  lemma OneMoreDone(n: Node, list: seq<string>, j: nat, before: set<(Node, string)>, ok: set<(Node, string)>, complete: bool)
    requires j < |list| && before <= ok && (complete ==> DoneFor(n, list[..j], before) && (n, list[j]) in ok)
    ensures complete ==> DoneFor(n, list[..j + 1], ok)
  {
    assert list[..j + 1] == list[..j] + [list[j]];
  }

  lemma OneMoreNode(plan: Plan, nodes: seq<Node>, i: nat, read: Haves, base: Marks, before: set<(Node, string)>, ok: set<(Node, string)>)
    requires i < |nodes| && before <= ok && AllDone(nodes[..i], read, base, before)
    requires forall e :: e in Entry(plan.add, nodes[i]) <==> ToAdd(read, base, nodes[i], e)
    requires forall e :: e in Entry(plan.remove, nodes[i]) <==> ToRemove(read, base, nodes[i], e)
    requires DoneFor(nodes[i], Entry(plan.remove, nodes[i]), ok) && DoneFor(nodes[i], Entry(plan.add, nodes[i]), ok)
    ensures AllDone(nodes[..i + 1], read, base, ok)
  {
    assert nodes[..i + 1] == nodes[..i] + [nodes[i]];
  }

  lemma IsThere<R>(world: Reviewed<R>, world0: Reviewed<R>, at: Reviewed<R>, at0: Reviewed<R>, want: Marks,
                   ok: set<(Node, string)>, landed: set<(Node, string)>, n: Node)
    requires Reached(Keyed(world), Keyed(world0), Keyed(at0), want, landed) && Reached(Keyed(at), Keyed(at0), Keyed(at0), want, ok)
    requires n in Keyed(at0) && n in world0
    ensures n in world && n in at
  {
    assert n in Keyed(world0) && n in Keyed(world) && n in Keyed(at);
  }

  lemma KeyedWith<R>(at: Reviewed<R>, n: Node, e: string, v: R)
    requires n in at
    ensures Keyed(at[n := at[n][e := v]]) == Keyed(at)[n := With(Keyed(at)[n], e, true)]
  {
    var a, b := Keyed(at[n := at[n][e := v]]), Keyed(at)[n := With(Keyed(at)[n], e, true)];
    forall m | m in a ensures a[m] == b[m] {
      assert a[m].Keys == b[m].Keys;
    }
  }

  lemma KeyedWithout<R>(at: Reviewed<R>, n: Node, e: string)
    requires n in at
    ensures Keyed(at[n := at[n] - {e}]) == Keyed(at)[n := With(Keyed(at)[n], e, false)]
  {
    var a, b := Keyed(at[n := at[n] - {e}]), Keyed(at)[n := With(Keyed(at)[n], e, false)];
    forall m | m in a ensures a[m] == b[m] {
      assert a[m].Keys == b[m].Keys;
    }
  }

  lemma FaithfulWith<R>(now: Reviewed<R>, start: Reviewed<R>, nodes: seq<Node>, source: Reviewed<R>, n: Node, e: string, v: R)
    requires Faithful(now, start, nodes, source) && n in now && e !in start[n] && First(nodes, source, e) == Some(v)
    ensures Faithful(now[n := now[n][e := v]], start, nodes, source)
  {
    var after := now[n := now[n][e := v]];
    forall m, x | m in after && x in after[m]
      ensures Same(start, nodes, source, m, x, after[m][x])
    {
      if m == n && x == e {
        assert after[m][x] == v;
      } else {
        assert m in now && x in now[m] && after[m][x] == now[m][x];
      }
    }
  }

  lemma FaithfulWithout<R>(now: Reviewed<R>, start: Reviewed<R>, nodes: seq<Node>, source: Reviewed<R>, n: Node, e: string)
    requires Faithful(now, start, nodes, source) && n in now
    ensures Faithful(now[n := now[n] - {e}], start, nodes, source)
  {
    var after := now[n := now[n] - {e}];
    forall m, x | m in after && x in after[m]
      ensures Same(start, nodes, source, m, x, after[m][x])
    {
      assert m in now && x in now[m] && after[m][x] == now[m][x];
    }
  }

  /** A member that is to be added somewhere is taken off nobody, so somebody has it all along. */
  lemma StillThere<R>(at: Reviewed<R>, at0: Reviewed<R>, want: Marks, ok: set<(Node, string)>, n: Node, e: string)
    requires Reached(Keyed(at), Keyed(at0), Keyed(at0), want, ok) && ToAdd(Keyed(at0), want, n, e)
    ensures forall m :: m in at0 && e in at0[m] ==> m in at && e in at[m]
    ensures exists m :: m in at0 && m in at && e in at[m]
    ensures e !in at0[n]
  {
    forall m | m in at0 && e in at0[m] ensures m in at && e in at[m] {
      assert m in Keyed(at0) && m in Keyed(at);
      assert Has(Keyed(at)[m], e) == AfterWrites(Keyed(at0), Keyed(at0), want, ok, m, e);
      assert Has(Keyed(at0)[m], e);
    }
    var m :| m in Keyed(at0) && Has(Keyed(at0)[m], e);
    assert m in at0 && e in at0[m];
    assert !Has(Keyed(at0)[n], e);
  }
}
