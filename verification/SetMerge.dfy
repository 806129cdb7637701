/**
 * The set merge: what is a set rather than a single value merges member by member against the
 * last set all nodes agreed on.
 */
module SetMerge {
  import opened Text

  /** The program's set of strings: a map to bool, read with false for what is absent. */
  type Marks = map<string, bool>

  type Haves = map<Node, Marks>

  predicate Has(s: Marks, e: string) {
    e in s && s[e]
  }

  function Members(s: Marks): (r: set<string>)
    ensures forall e :: e in r <==> Has(s, e)
  {
    set e | e in s && s[e]
  }

  function Marked(members: set<string>): (s: Marks)
    ensures Members(s) == members
  {
    map e | e in members :: true
  }

  // ----- the base as it is stored -----

  ghost function Stored(members: set<string>): string {
    Join(Listing(members), ',')
  }

  ghost function Parts(value: string): seq<string> {
    if value == "" then [] else Split(value, ',')
  }

  method Value(s: Marks) returns (value: string)
    ensures value == Stored(Members(s))
  {
    var out := [];
    var left := s.Keys;
    while left != {}
      invariant left <= s.Keys && Distinct(out) && forall e :: e in out <==> e in s && e !in left && s[e]
      decreases left
    {
      var e :| e in left;
      if s[e] { out := out + [e]; }
      left := left - {e};
    }
    SortSorts(out);
    DistinctPermuted(out, Sort(out));
    assert Elements(out) == Members(s);
    ListingUnique(Sort(out), Members(s));
    value := Join(Sort(out), ',');
  }

  method From(value: string) returns (out: Marks)
    ensures out == Marked(Elements(Parts(value)))
  {
    out := map[];
    var parts := if value == "" then [] else Split(value, ',');
    for i := 0 to |parts|
      invariant forall e :: e in out <==> e in parts[..i]
      invariant forall e :: e in out ==> out[e]
    {
      out := out[parts[i] := true];
    }
    assert parts[..|parts|] == parts;
  }

  lemma EmptyJoin(parts: seq<string>)
    ensures Join(parts, ',') == "" <==> parts == [] || parts == [""]
  {
  }

  lemma EmptyListing(members: set<string>)
    ensures (Listing(members) == [] <==> members == {}) && (Listing(members) == [""] <==> members == {""})
  {
    assert Elements(Listing(members)) == members;
    if members == {} {
      assert Lists([], {});
      ListingUnique([], {});
    }
    if members == {""} {
      assert Lists([""], {""});
      ListingUnique([""], {""});
    }
  }

  /**
   * A stored set reads back as it was exactly when no member holds the separator and the set is
   * not the one holding only the empty string, which is stored like the empty set.
   */
  lemma StoredReadsBack(members: set<string>)
    ensures Elements(Parts(Stored(members))) == members <==> (forall e :: e in members ==> ',' !in e) && members != {""}
  {
    var list := Listing(members);
    assert Elements(list) == members;
    EmptyJoin(list);
    EmptyListing(members);
    if (forall e :: e in members ==> ',' !in e) && members != {""} {
      if members != {} {
        SplitJoin(list, ',');
      }
    } else if members == {""} {
      assert "" !in Parts("");
    } else {
      var e :| e in members && ',' in e;
      assert e !in Parts(Stored(members));
    }
  }

  /** The stored form is canonical: equal strings exactly for equal sets. */
  lemma StoredCanonical(a: set<string>, b: set<string>)
    requires forall e :: e in a || e in b ==> e != "" && ',' !in e
    ensures Stored(a) == Stored(b) <==> a == b
  {
    assert "" !in a && "" !in b;
    StoredReadsBack(a);
    StoredReadsBack(b);
  }

  // ----- one merge -----

  predicate Somewhere(have: Haves, e: string) {
    exists n :: n in have && Has(have[n], e)
  }

  predicate Everywhere(have: Haves, e: string) {
    forall n :: n in have ==> Has(have[n], e)
  }

  /** Every string that the base or a node has an entry for. */
  ghost function Mentioned(have: Haves, base: Marks): (r: set<string>)
    ensures forall e :: e in r <==> e in base || exists n :: n in have && e in have[n]
  {
    base.Keys + set n, e | n in have && e in have[n] :: e
  }

  /** A new member the node lacks. */
  predicate ToAdd(have: Haves, base: Marks, n: Node, e: string) {
    n in have && !Has(base, e) && Somewhere(have, e) && !Has(have[n], e)
  }

  /** An agreed member the node has and another does not. */
  predicate ToRemove(have: Haves, base: Marks, n: Node, e: string) {
    n in have && Has(base, e) && !Everywhere(have, e) && Has(have[n], e)
  }

  ghost function Additions(have: Haves, base: Marks, n: Node): set<string> {
    set e | e in Mentioned(have, base) && ToAdd(have, base, n, e)
  }

  ghost function Removals(have: Haves, base: Marks, n: Node): set<string> {
    set e | e in Mentioned(have, base) && ToRemove(have, base, n, e)
  }

  predicate Settled(have: Haves, base: Marks, e: string) {
    if have != map[] && Everywhere(have, e) then true
    else if have != map[] && !Somewhere(have, e) then false
    else Has(base, e)
  }

  ghost function Agreed(have: Haves, base: Marks): set<string> {
    set e | e in Mentioned(have, base) && Settled(have, base, e)
  }

  method MembersOf(have: Haves, base: Marks) returns (out: seq<string>)
    ensures out == Listing(Mentioned(have, base))
  {
    var seen := base.Keys;
    var left := have.Keys;
    while left != {}
      invariant left <= have.Keys
      invariant forall e :: e in seen <==> e in base || exists n :: n in have && n !in left && e in have[n]
      decreases left
    {
      var n :| n in left;
      seen := seen + have[n].Keys;
      left := left - {n};
    }
    assert seen == Mentioned(have, base);
    out := SortedList(seen);
  }

  datatype Plan = Plan(add: map<Node, seq<string>>, remove: map<Node, seq<string>>)

  function Entry(m: map<Node, seq<string>>, n: Node): seq<string> {
    if n in m then m[n] else []
  }

  /** Which nodes have a member and which do not: the range over have, in any order. */
  method Divide(have: Haves, e: string) returns (with: seq<Node>, without: seq<Node>)
    ensures Distinct(with) && Distinct(without)
    ensures forall n :: n in with <==> n in have && Has(have[n], e)
    ensures forall n :: n in without <==> n in have && !Has(have[n], e)
  {
    with, without := [], [];
    var left := have.Keys;
    while left != {}
      invariant left <= have.Keys && Distinct(with) && Distinct(without)
      invariant forall n :: n in with <==> n in have && n !in left && Has(have[n], e)
      invariant forall n :: n in without <==> n in have && n !in left && !Has(have[n], e)
      decreases left
    {
      var n :| n in left;
      if Has(have[n], e) { with := with + [n]; } else { without := without + [n]; }
      left := left - {n};
    }
  }

  lemma EntryAppended(m: map<Node, seq<string>>, r: map<Node, seq<string>>, nodes: seq<Node>, i: nat, e: string)
    requires i < |nodes| && Distinct(nodes)
    requires forall n :: Entry(r, n) == Entry(m, n) + if n in nodes[..i] then [e] else []
    ensures forall n :: Entry(r[nodes[i] := Entry(r, nodes[i]) + [e]], n) == Entry(m, n) + if n in nodes[..i + 1] then [e] else []
    ensures Elements(nodes[..i + 1]) == Elements(nodes[..i]) + {nodes[i]}
  {
    assert nodes[..i + 1] == nodes[..i] + [nodes[i]];
    assert nodes[i] !in nodes[..i];
  }

  method AppendTo(m: map<Node, seq<string>>, nodes: seq<Node>, e: string) returns (r: map<Node, seq<string>>)
    requires Distinct(nodes)
    ensures forall n :: Entry(r, n) == Entry(m, n) + if n in nodes then [e] else []
    ensures r.Keys == m.Keys + Elements(nodes)
  {
    r := m;
    for i := 0 to |nodes|
      invariant forall n :: Entry(r, n) == Entry(m, n) + if n in nodes[..i] then [e] else []
      invariant r.Keys == m.Keys + Elements(nodes[..i])
    {
      EntryAppended(m, r, nodes, i, e);
      r := r[nodes[i] := Entry(r, nodes[i]) + [e]];
    }
    assert nodes[..|nodes|] == nodes;
  }

  method SortEach(m: map<Node, seq<string>>) returns (r: map<Node, seq<string>>)
    ensures r.Keys == m.Keys && forall n :: n in m ==> r[n] == Sort(m[n])
  {
    r := m;
    var left := m.Keys;
    while left != {}
      invariant left <= m.Keys == r.Keys
      invariant forall n :: n in m ==> r[n] == if n in left then m[n] else Sort(m[n])
      decreases left
    {
      var n :| n in left;
      r := r[n := Sort(r[n])];
      left := left - {n};
    }
  }

  /** The list holds, once each, what is owed of the members gone through. */
  ghost predicate Filled(list: seq<string>, owed: set<string>, done: seq<string>) {
    Distinct(list) && forall e :: e in list <==> e in owed && e in done
  }

  lemma FillOne(list: seq<string>, owed: set<string>, done: seq<string>, e: string)
    requires Filled(list, owed, done) && e !in done
    ensures Filled(if e in owed then list + [e] else list, owed, done + [e])
  {
  }

  lemma FilledSorts(list: seq<string>, owed: set<string>, done: seq<string>)
    requires Filled(list, owed, done) && forall e :: e in owed ==> e in done
    ensures Sort(list) == Listing(owed) && (list == [] <==> owed == {})
  {
    SortSorts(list);
    DistinctPermuted(list, Sort(list));
    assert Elements(list) == owed;
    ListingUnique(Sort(list), owed);
    if list != [] { assert list[0] in owed; }
  }

  /** Every node's list is filled, and there is a list only where there is something in it. */
  ghost predicate AllFilled(m: map<Node, seq<string>>, have: Haves, base: Marks, adding: bool, done: seq<string>) {
    && (forall n :: n in m ==> m[n] != [])
    && forall n :: Filled(Entry(m, n), Owed(have, base, adding, n), done)
  }

  ghost function Owed(have: Haves, base: Marks, adding: bool, n: Node): set<string> {
    if adding then Additions(have, base, n) else Removals(have, base, n)
  }

  lemma FillAll(m: map<Node, seq<string>>, r: map<Node, seq<string>>, to: seq<Node>, have: Haves, base: Marks,
                adding: bool, done: seq<string>, e: string)
    requires AllFilled(m, have, base, adding, done) && e !in done
    requires forall n :: n in to <==> e in Owed(have, base, adding, n)
    requires forall n :: Entry(r, n) == Entry(m, n) + if n in to then [e] else []
    requires r.Keys == m.Keys + Elements(to)
    ensures AllFilled(r, have, base, adding, done + [e])
  {
    forall n ensures Filled(Entry(r, n), Owed(have, base, adding, n), done + [e]) {
      FillOne(Entry(m, n), Owed(have, base, adding, n), done, e);
      assert Entry(m, n) + [] == Entry(m, n);
    }
    forall n | n in r ensures r[n] != [] {
      assert Entry(r, n) == r[n];
      if n in m { assert Entry(m, n) == m[n]; }
    }
  }

  lemma NoneOwed(m: map<Node, seq<string>>, have: Haves, base: Marks, adding: bool, done: seq<string>, e: string)
    requires AllFilled(m, have, base, adding, done) && e !in done
    requires forall n :: e !in Owed(have, base, adding, n)
    ensures AllFilled(m, have, base, adding, done + [e])
  {
    forall n ensures Filled(Entry(m, n), Owed(have, base, adding, n), done + [e]) {
      FillOne(Entry(m, n), Owed(have, base, adding, n), done, e);
    }
  }

  /** Who is owed what about one member. */
  lemma OwedFor(have: Haves, base: Marks, e: string, with: seq<Node>, without: seq<Node>)
    requires e in Mentioned(have, base)
    requires forall n :: n in with <==> n in have && Has(have[n], e)
    requires forall n :: n in without <==> n in have && !Has(have[n], e)
    ensures forall n :: e in Owed(have, base, true, n) <==> !Has(base, e) && |with| > 0 && n in without
    ensures forall n :: e in Owed(have, base, false, n) <==> Has(base, e) && |without| > 0 && n in with
  {
    assert Somewhere(have, e) <==> |with| > 0 by { if |with| > 0 { assert with[0] in with; } }
    assert !Everywhere(have, e) <==> |without| > 0 by { if |without| > 0 { assert without[0] in without; } }
  }

  /** The lists of one member's round of appends: one step of the loop in Decide. */
  method Enter(have: Haves, base: Marks, e: string, ghost done: seq<string>, add: map<Node, seq<string>>,
               remove: map<Node, seq<string>>)
    returns (add': map<Node, seq<string>>, remove': map<Node, seq<string>>)
    requires e in Mentioned(have, base) && e !in done
    requires AllFilled(add, have, base, true, done) && AllFilled(remove, have, base, false, done)
    ensures AllFilled(add', have, base, true, done + [e]) && AllFilled(remove', have, base, false, done + [e])
  {
    var with, without := Divide(have, e);
    OwedFor(have, base, e, with, without);
    add', remove' := add, remove;
    if Has(base, e) && |without| > 0 {
      remove' := AppendTo(remove, with, e);
      FillAll(remove, remove', with, have, base, false, done, e);
      NoneOwed(add, have, base, true, done, e);
    } else if !Has(base, e) && |with| > 0 {
      add' := AppendTo(add, without, e);
      FillAll(add, add', without, have, base, true, done, e);
      NoneOwed(remove, have, base, false, done, e);
    } else {
      NoneOwed(add, have, base, true, done, e);
      NoneOwed(remove, have, base, false, done, e);
    }
  }

  lemma FilledAndSorted(m: map<Node, seq<string>>, r: map<Node, seq<string>>, have: Haves, base: Marks, adding: bool,
                        members: seq<string>, n: Node)
    requires AllFilled(m, have, base, adding, members) && members == Listing(Mentioned(have, base))
    requires r.Keys == m.Keys && forall n :: n in m ==> r[n] == Sort(m[n])
    ensures Entry(r, n) == Listing(Owed(have, base, adding, n)) && (n in r <==> Owed(have, base, adding, n) != {})
  {
    assert Elements(members) == Mentioned(have, base);
    FilledSorts(Entry(m, n), Owed(have, base, adding, n), members);
  }

  /** The plan holds exactly each node's additions and removals, sorted, with no entry for a node that needs nothing. */
  method Decide(have: Haves, base: Marks) returns (p: Plan)
    ensures forall n :: Entry(p.add, n) == Listing(Additions(have, base, n)) && (n in p.add <==> Additions(have, base, n) != {})
    ensures forall n :: Entry(p.remove, n) == Listing(Removals(have, base, n)) && (n in p.remove <==> Removals(have, base, n) != {})
  {
    var members := MembersOf(have, base);
    var add, remove := map[], map[];
    for i := 0 to |members|
      invariant AllFilled(add, have, base, true, members[..i])
      invariant AllFilled(remove, have, base, false, members[..i])
    {
      assert members[i] in Elements(members);
      add, remove := Enter(have, base, members[i], members[..i], add, remove);
      assert members[..i + 1] == members[..i] + [members[i]];
    }
    assert members[..|members|] == members;
    var sortedAdd := SortEach(add);
    var sortedRemove := SortEach(remove);
    forall n ensures Entry(sortedAdd, n) == Listing(Additions(have, base, n)) && (n in sortedAdd <==> Additions(have, base, n) != {}) {
      FilledAndSorted(add, sortedAdd, have, base, true, members, n);
    }
    forall n ensures Entry(sortedRemove, n) == Listing(Removals(have, base, n)) && (n in sortedRemove <==> Removals(have, base, n) != {}) {
      FilledAndSorted(remove, sortedRemove, have, base, false, members, n);
    }
    p := Plan(sortedAdd, sortedRemove);
  }

  method AllOrNone(have: Haves, e: string) returns (all: bool, none: bool)
    ensures all == Everywhere(have, e) && none == !Somewhere(have, e)
  {
    all, none := true, true;
    var left := have.Keys;
    while left != {}
      invariant left <= have.Keys
      invariant none == forall n :: n in have && n !in left ==> !Has(have[n], e)
      invariant all == forall n :: n in have && n !in left ==> Has(have[n], e)
      decreases left
    {
      var n :| n in left;
      if Has(have[n], e) { none := false; } else { all := false; }
      left := left - {n};
    }
  }

  /** The stored form of the members agreed on, whatever order the map is gone through in. */
  method Settle(have: Haves, base: Marks) returns (value: string)
    ensures value == Stored(Agreed(have, base))
  {
    var members := MembersOf(have, base);
    assert Elements(members) == Mentioned(have, base);
    var out: Marks := map[];
    for i := 0 to |members|
      invariant forall e :: e in out <==> e in members[..i] && Settled(have, base, e)
      invariant forall e :: e in out ==> out[e]
    {
      var e := members[i];
      assert members[..i + 1] == members[..i] + [e];
      var all, none := AllOrNone(have, e);
      if |have| > 0 && all {
        out := out[e := true];
      } else if |have| > 0 && none {
        // not a member any more
      } else if Has(base, e) {
        out := out[e := true];
      }
    }
    assert members[..|members|] == members;
    AgreedIs(out, have, base, members);
    value := Value(out);
  }

  lemma AgreedIs(out: Marks, have: Haves, base: Marks, members: seq<string>)
    requires Elements(members) == Mentioned(have, base)
    requires forall e :: e in out <==> e in members && Settled(have, base, e)
    requires forall e :: e in out ==> out[e]
    ensures Members(out) == Agreed(have, base)
  {
    forall e ensures e in Members(out) <==> e in Agreed(have, base) {
      assert e in members <==> e in Elements(members);
    }
  }
}
