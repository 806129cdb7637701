/**
 * An issue's labels, translated between each node's own label ids and the ids of ForgeSync's
 * records, so that they can be compared and written across nodes.
 */
module Labels {
  import opened Optional
  import opened Text
  import SetMerge
  import Decimal
  import IssueMatching

  datatype Item = Item(id: string, copies: map<Node, nat>)

  /** Each node's label ids to record ids, and back. */
  datatype Index = Index(toItem: map<Node, map<nat, string>>, toFid: map<Node, map<string, nat>>)

  function ItemOf(x: Index, node: Node, fid: nat): Option<string> {
    if node in x.toItem then Lookup(x.toItem[node], fid) else None
  }

  function FidOf(x: Index, node: Node, id: string): Option<nat> {
    if node in x.toFid then Lookup(x.toFid[node], id) else None
  }

  predicate HasCopy(items: seq<Item>, node: Node, id: string, fid: nat) {
    exists i :: 0 <= i < |items| && items[i].id == id && node in items[i].copies && items[i].copies[node] == fid
  }

  /** No two records have one id, and on one node no two claim the same label. */
  ghost predicate Injective(items: seq<Item>) {
    && (forall i, j :: 0 <= i < j < |items| ==> items[i].id != items[j].id)
    && forall n, a, b, fid: nat :: HasCopy(items, n, a, fid) && HasCopy(items, n, b, fid) ==> a == b
  }

  /** The records as the index reads them, by the ids the database gave them. */
  function ItemsOf(recs: seq<IssueMatching.Record>): seq<Item> {
    seq(|recs|, i requires 0 <= i < |recs| => Item(Decimal.Print(recs[i].id), FidsIn(recs[i].copies)))
  }

  function FidsIn(copies: map<Node, IssueMatching.Copy>): map<Node, nat> {
    map n | n in copies :: copies[n].forgejoId
  }

  /** What the matching leaves is injective. */
  lemma MatchedItemsInjective(recs: seq<IssueMatching.Record>, store: map<nat, IssueMatching.Record>)
    requires IssueMatching.InSync(recs, store) && IssueMatching.Injective(recs)
    ensures Injective(ItemsOf(recs))
  {
    var items := ItemsOf(recs);
    forall i, j | 0 <= i < j < |items| ensures items[i].id != items[j].id {
      if items[i].id == items[j].id { Decimal.PrintInjective(recs[i].id, recs[j].id); }
    }
    forall n, a, b, fid: nat | HasCopy(items, n, a, fid) && HasCopy(items, n, b, fid) ensures a == b {
      var i :| 0 <= i < |items| && items[i].id == a && n in items[i].copies && items[i].copies[n] == fid;
      var j :| 0 <= j < |items| && items[j].id == b && n in items[j].copies && items[j].copies[n] == fid;
      assert IssueMatching.Claims(recs[i], n, fid) && IssueMatching.Claims(recs[j], n, fid);
    }
  }

  /** A run over one record keeps it so: copies may go, and one that is made gets an id the node never gave a recorded label. */
  lemma SyncedItemsInjective(items: seq<Item>, i: nat, copies: map<Node, nat>)
    requires Injective(items) && i < |items|
    requires forall n :: n in copies ==> Lookup(items[i].copies, n) == Some(copies[n]) || forall id :: !HasCopy(items, n, id, copies[n])
    ensures Injective(items[i := items[i].(copies := copies)])
  {
    var after := items[i := items[i].(copies := copies)];
    forall n, a, b, fid: nat | HasCopy(after, n, a, fid) && HasCopy(after, n, b, fid) ensures a == b {
      CopyBefore(items, i, copies, n, a, fid);
      CopyBefore(items, i, copies, n, b, fid);
    }
  }

  lemma CopyBefore(items: seq<Item>, i: nat, copies: map<Node, nat>, n: Node, id: string, fid: nat)
    requires i < |items| && HasCopy(items[i := items[i].(copies := copies)], n, id, fid)
    requires forall n :: n in copies ==> Lookup(items[i].copies, n) == Some(copies[n]) || forall id :: !HasCopy(items, n, id, copies[n])
    ensures HasCopy(items, n, id, fid) || (id == items[i].id && Lookup(copies, n) == Some(fid) && forall other :: !HasCopy(items, n, other, fid))
  {
    var after := items[i := items[i].(copies := copies)];
    var j :| 0 <= j < |after| && after[j].id == id && n in after[j].copies && after[j].copies[n] == fid;
    if j != i {
      assert items[j] == after[j];
    } else if Lookup(items[i].copies, n) == Some(copies[n]) {
      assert items[i].id == id && n in items[i].copies && items[i].copies[n] == fid;
    }
  }

  /** And so do records that are dropped. */
  lemma FewerItemsInjective(items: seq<Item>, i: nat)
    requires Injective(items) && i < |items|
    ensures Injective(items[..i] + items[i + 1..])
  {
    var after := items[..i] + items[i + 1..];
    forall n, id, fid: nat | HasCopy(after, n, id, fid) ensures HasCopy(items, n, id, fid) {
      var j :| 0 <= j < |after| && after[j].id == id && n in after[j].copies && after[j].copies[n] == fid;
      assert items[if j < i then j else j + 1] == after[j];
    }
  }

  /** The two directions undo each other. */
  ghost predicate Inverse(x: Index) {
    forall n, id, fid: nat :: FidOf(x, n, id) == Some(fid) <==> ItemOf(x, n, fid) == Some(id)
  }

  ghost predicate Indexes(x: Index, items: seq<Item>) {
    && (forall n, id, fid: nat :: FidOf(x, n, id) == Some(fid) <==> HasCopy(items, n, id, fid))
    && (forall n, id, fid: nat :: ItemOf(x, n, fid) == Some(id) <==> HasCopy(items, n, id, fid))
  }

  function Entered(x: Index, id: string, n: Node, fid: nat): Index {
    var toItem := if n in x.toItem then x.toItem[n] else map[];
    var toFid := if n in x.toFid then x.toFid[n] else map[];
    Index(x.toItem[n := toItem[fid := id]], x.toFid[n := toFid[id := fid]])
  }

  lemma EnteredIs(x: Index, id: string, n: Node, fid: nat, m: Node, other: string, g: nat)
    ensures FidOf(Entered(x, id, n, fid), m, other) == if m == n && other == id then Some(fid) else FidOf(x, m, other)
    ensures ItemOf(Entered(x, id, n, fid), m, g) == if m == n && g == fid then Some(id) else ItemOf(x, m, g)
  {
  }

  /** The records before the i-th, and of the i-th the copies on these nodes. */
  predicate HasSoFar(items: seq<Item>, i: nat, done: set<Node>, n: Node, id: string, fid: nat)
    requires i < |items|
  {
    HasCopy(items[..i], n, id, fid) || (id == items[i].id && n in done && n in items[i].copies && items[i].copies[n] == fid)
  }

  ghost predicate IndexesSoFar(x: Index, items: seq<Item>, i: nat, done: set<Node>)
    requires i < |items|
  {
    && (forall n, id, fid: nat :: FidOf(x, n, id) == Some(fid) <==> HasSoFar(items, i, done, n, id, fid))
    && (forall n, id, fid: nat :: ItemOf(x, n, fid) == Some(id) <==> HasSoFar(items, i, done, n, id, fid))
  }

  lemma EarlierCopy(items: seq<Item>, i: nat, n: Node, id: string, fid: nat)
    requires i <= |items| && HasCopy(items[..i], n, id, fid)
    ensures HasCopy(items, n, id, fid) && exists j :: 0 <= j < i && items[j].id == id
  {
    var j :| 0 <= j < i && items[..i][j].id == id && n in items[..i][j].copies && items[..i][j].copies[n] == fid;
    assert items[j].id == id;
  }

  lemma EnterOne(x: Index, items: seq<Item>, i: nat, done: set<Node>, n: Node)
    requires i < |items| && Injective(items) && IndexesSoFar(x, items, i, done) && n in items[i].copies && n !in done
    ensures IndexesSoFar(Entered(x, items[i].id, n, items[i].copies[n]), items, i, done + {n})
  {
    var it := items[i];
    var fid := it.copies[n];
    var y := Entered(x, it.id, n, fid);
    assert HasCopy(items, n, it.id, fid);
    forall m, id, g: nat ensures FidOf(y, m, id) == Some(g) <==> HasSoFar(items, i, done + {n}, m, id, g) {
      EnteredIs(x, it.id, n, fid, m, id, g);
      if HasCopy(items[..i], m, id, g) { EarlierCopy(items, i, m, id, g); }
    }
    forall m, id, g: nat ensures ItemOf(y, m, g) == Some(id) <==> HasSoFar(items, i, done + {n}, m, id, g) {
      EnteredIs(x, it.id, n, fid, m, id, g);
      if HasCopy(items[..i], m, id, g) { EarlierCopy(items, i, m, id, g); }
    }
  }

  lemma NextItem(x: Index, items: seq<Item>, i: nat, done: set<Node>)
    requires i < |items| && IndexesSoFar(x, items, i, done) && done == items[i].copies.Keys
    ensures Indexes(x, items[..i + 1])
  {
    forall n, id, fid: nat ensures HasCopy(items[..i + 1], n, id, fid) <==> HasSoFar(items, i, done, n, id, fid) {
      if HasCopy(items[..i], n, id, fid) {
        var j :| 0 <= j < i && items[..i][j].id == id && n in items[..i][j].copies && items[..i][j].copies[n] == fid;
        assert items[..i + 1][j] == items[..i][j];
      }
      if HasSoFar(items, i, done, n, id, fid) && !HasCopy(items[..i], n, id, fid) { assert items[..i + 1][i] == items[i]; }
      if HasCopy(items[..i + 1], n, id, fid) {
        var j :| 0 <= j < i + 1 && items[..i + 1][j].id == id && n in items[..i + 1][j].copies && items[..i + 1][j].copies[n] == fid;
        if j < i { assert items[..i][j] == items[j]; }
      }
    }
  }

  lemma StartItem(x: Index, items: seq<Item>, i: nat)
    requires i < |items| && Indexes(x, items[..i])
    ensures IndexesSoFar(x, items, i, {})
  {
  }

  /** The index holds exactly the copies on record, both ways. */
  method NewItemIndex(items: seq<Item>) returns (x: Index)
    requires Injective(items)
    ensures Indexes(x, items) && Inverse(x)
  {
    x := Index(map[], map[]);
    for i := 0 to |items|
      invariant Indexes(x, items[..i])
    {
      StartItem(x, items, i);
      var left := items[i].copies.Keys;
      ghost var done: set<Node> := {};
      while left != {}
        invariant left <= items[i].copies.Keys && done == items[i].copies.Keys - left
        invariant IndexesSoFar(x, items, i, done)
        decreases left
      {
        var n :| n in left;
        EnterOne(x, items, i, done, n);
        x := Entered(x, items[i].id, n, items[i].copies[n]);
        left, done := left - {n}, done + {n};
      }
      NextItem(x, items, i, done);
    }
    assert items[..|items|] == items;
  }

  // ----- a value read off an issue -----

  /** A label of ForgeSync's to move: a repository's own, and not kept there for its owner. */
  predicate Ours(x: Index, node: Node, kept: set<string>, l: nat) {
    ItemOf(x, node, l).Some? && ItemOf(x, node, l).value !in kept
  }

  ghost function IdsOn(x: Index, node: Node, kept: set<string>, labels: seq<nat>): set<string> {
    set l | l in labels && Ours(x, node, kept, l) :: ItemOf(x, node, l).value
  }

  method LabelsValue(x: Index, node: Node, labels: seq<nat>, kept: set<string>) returns (value: string)
    requires Inverse(x) && Distinct(labels)
    ensures value == SetMerge.Stored(IdsOn(x, node, kept, labels))
  {
    var ids := [];
    for i := 0 to |labels|
      invariant Distinct(ids) && Elements(ids) == IdsOn(x, node, kept, labels[..i])
    {
      var l := labels[i];
      NewId(x, node, kept, labels, i);
      var id := ItemOf(x, node, l);
      if id.Some? && id.value !in kept {
        assert id.value !in Elements(ids);
        assert Elements(ids + [id.value]) == Elements(ids) + {id.value};
        ids := ids + [id.value];
      }
    }
    assert labels[..|labels|] == labels;
    SortSorts(ids);
    DistinctPermuted(ids, Sort(ids));
    ListingUnique(Sort(ids), IdsOn(x, node, kept, labels));
    value := Join(Sort(ids), ',');
  }

  lemma NewId(x: Index, node: Node, kept: set<string>, labels: seq<nat>, i: nat)
    requires Inverse(x) && Distinct(labels) && i < |labels|
    ensures Ours(x, node, kept, labels[i]) ==> ItemOf(x, node, labels[i]).value !in IdsOn(x, node, kept, labels[..i])
    ensures IdsOn(x, node, kept, labels[..i + 1]) ==
      IdsOn(x, node, kept, labels[..i]) + if Ours(x, node, kept, labels[i]) then {ItemOf(x, node, labels[i]).value} else {}
  {
    assert labels[..i + 1] == labels[..i] + [labels[i]];
    forall l | l in labels[..i] && Ours(x, node, kept, labels[i]) ensures ItemOf(x, node, l) != ItemOf(x, node, labels[i]) {
      OneFid(x, node, labels[i], l);
    }
  }

  lemma OneFid(x: Index, node: Node, l: nat, m: nat)
    requires Inverse(x) && ItemOf(x, node, l).Some? && l != m
    ensures ItemOf(x, node, m) != ItemOf(x, node, l)
  {
    assert FidOf(x, node, ItemOf(x, node, l).value) == Some(l);
  }

  // ----- a value put on an issue -----

  ghost function FidsOf(x: Index, node: Node, ids: set<string>): set<nat> {
    set id | id in ids && FidOf(x, node, id).Some? :: FidOf(x, node, id).value
  }

  /** Labels the issue has that stay whatever the value says: an organization's, and those kept for their owner. */
  ghost function Staying(x: Index, node: Node, kept: set<string>, labels: seq<nat>): set<nat> {
    set l | l in labels && !Ours(x, node, kept, l)
  }

  /** None when the value names a record without an id on this node, so that nothing can be set. */
  method LabelFids(x: Index, node: Node, value: string, labels: seq<nat>, kept: set<string>) returns (r: Option<seq<nat>>)
    ensures r.None? <==> exists id :: id in SetMerge.Parts(value) && FidOf(x, node, id).None?
    ensures r.Some? ==> Elements(r.value) == FidsOf(x, node, Elements(SetMerge.Parts(value))) + Staying(x, node, kept, labels)
  {
    var fids: seq<nat> := [];
    var parts := if value == "" then [] else Split(value, ',');
    for i := 0 to |parts|
      invariant forall id :: id in parts[..i] ==> FidOf(x, node, id).Some?
      invariant Elements(fids) == FidsOf(x, node, Elements(parts[..i]))
    {
      var fid := FidOf(x, node, parts[i]);
      if fid.None? { return None; }
      OneMoreFid(x, node, parts, i, fids);
      fids := fids + [fid.value];
    }
    assert parts[..|parts|] == parts;
    var stay := StayingFids(x, node, labels, kept);
    BothParts(fids, stay);
    r := Some(fids + stay);
  }

  /** The loop over the issue's own labels. */
  method StayingFids(x: Index, node: Node, labels: seq<nat>, kept: set<string>) returns (fids: seq<nat>)
    ensures Elements(fids) == Staying(x, node, kept, labels)
  {
    fids := [];
    for i := 0 to |labels|
      invariant Elements(fids) == Staying(x, node, kept, labels[..i])
    {
      var id := ItemOf(x, node, labels[i]);
      OneMoreLabel(x, node, kept, labels, i, fids);
      if id.None? || id.value in kept { fids := fids + [labels[i]]; }
    }
    assert labels[..|labels|] == labels;
  }

  lemma OneMoreLabel(x: Index, node: Node, kept: set<string>, labels: seq<nat>, i: nat, fids: seq<nat>)
    requires i < |labels| && Elements(fids) == Staying(x, node, kept, labels[..i])
    ensures
      var stays := ItemOf(x, node, labels[i]).None? || ItemOf(x, node, labels[i]).value in kept;
      Elements(if stays then fids + [labels[i]] else fids) == Staying(x, node, kept, labels[..i + 1])
  {
    assert labels[..i + 1] == labels[..i] + [labels[i]];
    BothParts(fids, [labels[i]]);
    assert Elements([labels[i]]) == {labels[i]};
  }

  lemma BothParts(a: seq<nat>, b: seq<nat>)
    ensures Elements(a + b) == Elements(a) + Elements(b)
  {
  }

  lemma OneMoreFid(x: Index, node: Node, parts: seq<string>, i: nat, fids: seq<nat>)
    requires i < |parts| && FidOf(x, node, parts[i]).Some? && Elements(fids) == FidsOf(x, node, Elements(parts[..i]))
    ensures Elements(fids + [FidOf(x, node, parts[i]).value]) == FidsOf(x, node, Elements(parts[..i + 1]))
  {
    var id, fid := parts[i], FidOf(x, node, parts[i]).value;
    assert Elements(parts[..i + 1]) == Elements(parts[..i]) + {id};
    BothParts(fids, [fid]);
    assert Elements([fid]) == {fid};
    assert FidsOf(x, node, Elements(parts[..i]) + {id}) == FidsOf(x, node, Elements(parts[..i])) + {fid};
  }

  // ----- and back -----

  ghost predicate Plain(ids: set<string>) {
    forall id :: id in ids ==> id != "" && ',' !in id
  }

  /**
   * Putting a value on an issue and reading it back gives the value without what is kept there: so
   * exactly the value when it names nothing kept. An organization's labels and the kept ones stay.
   */
  lemma ReadsBack(x: Index, node: Node, ids: set<string>, labels: seq<nat>, kept: set<string>, after: seq<nat>)
    requires Inverse(x) && Plain(ids) && (forall id :: id in ids ==> FidOf(x, node, id).Some?)
    requires Elements(after) == FidsOf(x, node, Elements(SetMerge.Parts(SetMerge.Stored(ids)))) + Staying(x, node, kept, labels)
    ensures IdsOn(x, node, kept, after) == ids - kept
    ensures SetMerge.Stored(IdsOn(x, node, kept, after)) == SetMerge.Stored(ids) <==> ids !! kept
    ensures forall l :: l in labels && !Ours(x, node, kept, l) ==> l in after
  {
    assert "" !in ids;
    SetMerge.StoredReadsBack(ids);
    forall id | id in ids - kept ensures id in IdsOn(x, node, kept, after) {
      var l := FidOf(x, node, id).value;
      assert ItemOf(x, node, l) == Some(id);
      assert l in Elements(after);
    }
    forall id | id in IdsOn(x, node, kept, after) ensures id in ids - kept {
      var l :| l in after && Ours(x, node, kept, l) && ItemOf(x, node, l).value == id;
      assert l in Elements(after);
      assert l !in Staying(x, node, kept, labels);
      var other :| other in ids && FidOf(x, node, other) == Some(l);
      assert ItemOf(x, node, l) == Some(other);
    }
    SetMerge.StoredCanonical(ids - kept, ids);
    forall l | l in labels && !Ours(x, node, kept, l) ensures l in after {
      assert l in Elements(after);
    }
  }
}
