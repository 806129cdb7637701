/**
 * Matching what the nodes have to the records: every issue, label or milestone found on a node
 * becomes the copy of exactly one record. Issues go by author and title, the others by name alone,
 * which is the title here; they have no author and no number.
 */
module IssueMatching {
  import opened Text

  datatype Issue = Issue(id: nat, number: nat, author: string, title: string)

  datatype Copy = Copy(number: nat, forgejoId: nat)

  datatype Record = Record(id: nat, author: string, baseTitle: string, copies: map<Node, Copy>, deleted: bool)

  /** What was read from the participating nodes: their issues by Forgejo id. */
  type Snaps = map<Node, map<nat, Issue>>

  datatype Fresh = Fresh(node: Node, id: nat)

  /** What is matched, and how letters fold: any folding of single letters. */
  datatype Rules = Rules(byNameAlone: bool, fold: char -> char)

  predicate EqualFold(fold: char -> char, a: string, b: string) {
    |a| == |b| && forall i :: 0 <= i < |a| ==> fold(a[i]) == fold(b[i])
  }

  predicate Claims(rec: Record, n: Node, id: nat) {
    n in rec.copies && rec.copies[n].forgejoId == id
  }

  /** Two records never claim one issue of a node. */
  ghost predicate Injective(recs: seq<Record>) {
    forall i, j, n, id :: 0 <= i < |recs| && 0 <= j < |recs| && Claims(recs[i], n, id) && Claims(recs[j], n, id) ==> i == j
  }

  predicate Claimed(recs: seq<Record>, n: Node, id: nat) {
    exists i :: 0 <= i < |recs| && Claims(recs[i], n, id)
  }

  ghost predicate ClaimedOnce(recs: seq<Record>, n: Node, id: nat) {
    exists i :: 0 <= i < |recs| && Claims(recs[i], n, id) && forall j :: 0 <= j < |recs| && Claims(recs[j], n, id) ==> j == i
  }

  ghost predicate InjectiveStore(store: map<nat, Record>) {
    forall a, b, n, id :: a in store && b in store && Claims(store[a], n, id) && Claims(store[b], n, id) ==> a == b
  }

  /** The store holds exactly these records, by their ids. */
  ghost predicate InSync(recs: seq<Record>, store: map<nat, Record>) {
    && (forall i, j :: 0 <= i < j < |recs| ==> recs[i].id != recs[j].id)
    && (forall i :: 0 <= i < |recs| ==> recs[i].id in store && store[recs[i].id] == recs[i])
    && forall id :: id in store ==> exists i :: 0 <= i < |recs| && recs[i].id == id
  }

  lemma StoreInjective(recs: seq<Record>, store: map<nat, Record>)
    requires InSync(recs, store) && Injective(recs)
    ensures InjectiveStore(store)
  {
    forall a, b, n, id | a in store && b in store && Claims(store[a], n, id) && Claims(store[b], n, id) ensures a == b {
      var i :| 0 <= i < |recs| && recs[i].id == a;
      var j :| 0 <= j < |recs| && recs[j].id == b;
      assert Claims(recs[i], n, id) && Claims(recs[j], n, id);
    }
  }

  /** A record's title as the first participating node that has it shows it, or as it was last agreed. */
  function CurrentTitle(nodes: seq<Node>, snaps: Snaps, rec: Record): string {
    if nodes == [] then rec.baseTitle
    else if nodes[0] in rec.copies && nodes[0] in snaps && rec.copies[nodes[0]].forgejoId in snaps[nodes[0]] then
      snaps[nodes[0]][rec.copies[nodes[0]].forgejoId].title
    else CurrentTitle(nodes[1..], snaps, rec)
  }

  /** Taken for a record's missing copy: an issue when author and current title agree, a label when its current name does but for case. */
  predicate Matches(rules: Rules, nodes: seq<Node>, snaps: Snaps, rec: Record, node: Node, issue: Issue) {
    && node !in rec.copies
    && if rules.byNameAlone then EqualFold(rules.fold, CurrentTitle(nodes, snaps, rec), issue.title)
       else EqualFold(rules.fold, rec.author, issue.author) && CurrentTitle(nodes, snaps, rec) == issue.title
  }

  ghost predicate FirstMatch(rules: Rules, nodes: seq<Node>, snaps: Snaps, recs: seq<Record>, node: Node, issue: Issue, k: nat) {
    && k < |recs| && Matches(rules, nodes, snaps, recs[k], node, issue)
    && forall i :: 0 <= i < k ==> !Matches(rules, nodes, snaps, recs[i], node, issue)
  }

  function Attached(rec: Record, node: Node, issue: Issue, primary: Node): Record {
    rec.(copies := rec.copies[node := Copy(issue.number, issue.id)], deleted := rec.deleted && node != primary)
  }

  function NewRecord(id: nat, node: Node, issue: Issue): Record {
    Record(id, issue.author, issue.title, map[node := Copy(issue.number, issue.id)], false)
  }

  /** Where one unknown issue goes: to the first record that matches, the k-th, or to a new one at the end. */
  ghost predicate Placed(rules: Rules, nodes: seq<Node>, snaps: Snaps, primary: Node, node: Node, issue: Issue, before: seq<Record>,
                         after: seq<Record>, k: nat) {
    if k < |before| then
      FirstMatch(rules, nodes, snaps, before, node, issue, k) && after == before[k := Attached(before[k], node, issue, primary)]
    else
      && k == |before| && |after| == k + 1 && after == before + [NewRecord(after[k].id, node, issue)]
      && forall i :: 0 <= i < |before| ==> !Matches(rules, nodes, snaps, before[i], node, issue)
  }

  lemma PlacedAt(rules: Rules, nodes: seq<Node>, snaps: Snaps, primary: Node, node: Node, issue: Issue, before: seq<Record>,
                 after: seq<Record>, k: nat, i: nat, n: Node, id: nat)
    requires Placed(rules, nodes, snaps, primary, node, issue, before, after, k) && i < |after|
    ensures Claims(after[i], n, id) <==> (i < |before| && Claims(before[i], n, id)) || (i == k && n == node && id == issue.id)
  {
  }

  lemma PlacedClaims(rules: Rules, nodes: seq<Node>, snaps: Snaps, primary: Node, node: Node, issue: Issue, before: seq<Record>,
                     after: seq<Record>, k: nat, n: Node, id: nat)
    requires Placed(rules, nodes, snaps, primary, node, issue, before, after, k)
    ensures Claimed(after, n, id) <==> Claimed(before, n, id) || (n == node && id == issue.id)
  {
    if Claimed(before, n, id) {
      var i :| 0 <= i < |before| && Claims(before[i], n, id);
      PlacedAt(rules, nodes, snaps, primary, node, issue, before, after, k, i, n, id);
    }
    if Claimed(after, n, id) {
      var i :| 0 <= i < |after| && Claims(after[i], n, id);
      PlacedAt(rules, nodes, snaps, primary, node, issue, before, after, k, i, n, id);
    }
    PlacedAt(rules, nodes, snaps, primary, node, issue, before, after, k, k, node, issue.id);
  }

  lemma PlacedInjective(rules: Rules, nodes: seq<Node>, snaps: Snaps, primary: Node, node: Node, issue: Issue, before: seq<Record>,
                        after: seq<Record>, k: nat)
    requires Placed(rules, nodes, snaps, primary, node, issue, before, after, k) && Injective(before) && !Claimed(before, node, issue.id)
    ensures Injective(after)
  {
    forall i, j, n, id | 0 <= i < |after| && 0 <= j < |after| && Claims(after[i], n, id) && Claims(after[j], n, id) ensures i == j {
      PlacedAt(rules, nodes, snaps, primary, node, issue, before, after, k, i, n, id);
      PlacedAt(rules, nodes, snaps, primary, node, issue, before, after, k, j, n, id);
    }
  }

  lemma OnceFromInjective(recs: seq<Record>, n: Node, id: nat)
    requires Injective(recs) && Claimed(recs, n, id)
    ensures ClaimedOnce(recs, n, id)
  {
    var i :| 0 <= i < |recs| && Claims(recs[i], n, id);
    assert forall j :: 0 <= j < |recs| && Claims(recs[j], n, id) ==> j == i;
  }

  /** Nothing a record claimed is dropped or changed; what is added is an issue no record claimed. */
  ghost predicate OnlyAdds(before: seq<Record>, after: seq<Record>) {
    && |before| <= |after|
    && (forall i :: 0 <= i < |before| ==>
          after[i].id == before[i].id && after[i].author == before[i].author && after[i].baseTitle == before[i].baseTitle)
    && (forall i, n :: 0 <= i < |before| && n in before[i].copies ==> n in after[i].copies && after[i].copies[n] == before[i].copies[n])
  }

  /** A record marked deleted comes back only by being found again on the primary. */
  ghost predicate RevivedOnPrimary(before: seq<Record>, after: seq<Record>, primary: Node)
    requires |before| <= |after|
  {
    forall i :: 0 <= i < |before| ==>
      (after[i].deleted <==> before[i].deleted && (primary in after[i].copies ==> primary in before[i].copies))
  }

  ghost predicate PlacedSomewhere(rules: Rules, nodes: seq<Node>, snaps: Snaps, primary: Node, f: Fresh, before: seq<Record>, after: seq<Record>) {
    f.node in snaps && f.id in snaps[f.node] && exists k :: Placed(rules, nodes, snaps, primary, f.node, snaps[f.node][f.id], before, after, k)
  }

  /** The records after each unknown issue in turn. */
  ghost predicate Trace(rules: Rules, nodes: seq<Node>, snaps: Snaps, primary: Node, order: seq<Fresh>, states: seq<seq<Record>>) {
    |states| == |order| + 1 && forall i :: 0 <= i < |order| ==> PlacedSomewhere(rules, nodes, snaps, primary, order[i], states[i], states[i + 1])
  }

  lemma TraceGrows(rules: Rules, nodes: seq<Node>, snaps: Snaps, primary: Node, order: seq<Fresh>, states: seq<seq<Record>>,
                   f: Fresh, after: seq<Record>)
    requires Trace(rules, nodes, snaps, primary, order, states) && PlacedSomewhere(rules, nodes, snaps, primary, f, states[|order|], after)
    ensures Trace(rules, nodes, snaps, primary, order + [f], states + [after])
  {
  }

  /** What is left over is exactly what no record claims yet. */
  ghost predicate LeftOver(nodes: seq<Node>, snaps: Snaps, recs: seq<Record>, news: set<Fresh>)
    requires forall n :: n in nodes ==> n in snaps
  {
    && (forall f :: f in news ==> f.node in nodes && f.id in snaps[f.node] && !Claimed(recs, f.node, f.id))
    && (forall n, id :: n in nodes && id in snaps[n] ==> Claimed(recs, n, id) || Fresh(n, id) in news)
  }

  lemma OneFewer(nodes: seq<Node>, snaps: Snaps, before: seq<Record>, after: seq<Record>, news: set<Fresh>, f: Fresh)
    requires forall n :: n in nodes ==> n in snaps
    requires LeftOver(nodes, snaps, before, news)
    requires forall n, id :: Claimed(after, n, id) <==> Claimed(before, n, id) || (n == f.node && id == f.id)
    ensures LeftOver(nodes, snaps, after, news - {f})
  {
  }

  lemma AllOnce(nodes: seq<Node>, snaps: Snaps, recs: seq<Record>)
    requires forall n :: n in nodes ==> n in snaps
    requires LeftOver(nodes, snaps, recs, {}) && Injective(recs)
    ensures forall n, id :: n in nodes && id in snaps[n] ==> ClaimedOnce(recs, n, id)
  {
    forall n, id | n in nodes && id in snaps[n] ensures ClaimedOnce(recs, n, id) {
      OnceFromInjective(recs, n, id);
    }
  }

  // ----- what a match is -----

  /** A participating node shows the record's copy. */
  predicate Shows(snaps: Snaps, rec: Record, n: Node) {
    n in rec.copies && n in snaps && rec.copies[n].forgejoId in snaps[n]
  }

  /** The title people see: on the first node, in the run's order, that shows the record, or else the one last agreed. */
  ghost predicate TitleIs(nodes: seq<Node>, snaps: Snaps, rec: Record, title: string) {
    if forall n :: n in nodes ==> !Shows(snaps, rec, n) then title == rec.baseTitle
    else exists i :: FirstToShow(nodes, snaps, rec, i) && title == snaps[nodes[i]][rec.copies[nodes[i]].forgejoId].title
  }

  ghost predicate FirstToShow(nodes: seq<Node>, snaps: Snaps, rec: Record, i: int) {
    0 <= i < |nodes| && Shows(snaps, rec, nodes[i]) && forall j :: 0 <= j < i ==> !Shows(snaps, rec, nodes[j])
  }

  ghost predicate SameButForCase(fold: char -> char, a: string, b: string) {
    |a| == |b| && forall i :: 0 <= i < |a| ==> fold(a[i]) == fold(b[i])
  }

  /** The record lacks a copy on the node, and the issue has its author, but for case, and its title; or the label its name, but for case. */
  ghost predicate Agrees(rules: Rules, nodes: seq<Node>, snaps: Snaps, rec: Record, node: Node, issue: Issue) {
    && node !in rec.copies
    && if rules.byNameAlone then exists t :: TitleIs(nodes, snaps, rec, t) && SameButForCase(rules.fold, t, issue.title)
       else SameButForCase(rules.fold, rec.author, issue.author) && TitleIs(nodes, snaps, rec, issue.title)
  }

  lemma {:induction false} CurrentTitleIs(nodes: seq<Node>, snaps: Snaps, rec: Record)
    ensures TitleIs(nodes, snaps, rec, CurrentTitle(nodes, snaps, rec))
  {
    if nodes != [] {
      if Shows(snaps, rec, nodes[0]) {
        assert FirstToShow(nodes, snaps, rec, 0);
      } else {
        CurrentTitleIs(nodes[1..], snaps, rec);
        assert nodes == [nodes[0]] + nodes[1..];
        if exists n :: n in nodes[1..] && Shows(snaps, rec, n) {
          var i :| FirstToShow(nodes[1..], snaps, rec, i) &&
            CurrentTitle(nodes, snaps, rec) == snaps[nodes[1..][i]][rec.copies[nodes[1..][i]].forgejoId].title;
          LaterToShow(nodes, snaps, rec, i);
        }
      }
    }
  }

  lemma LaterToShow(nodes: seq<Node>, snaps: Snaps, rec: Record, i: int)
    requires nodes != [] && !Shows(snaps, rec, nodes[0]) && FirstToShow(nodes[1..], snaps, rec, i)
    ensures FirstToShow(nodes, snaps, rec, i + 1)
  {
    forall j | 0 <= j < i + 1 ensures !Shows(snaps, rec, nodes[j]) {
      if j > 0 { assert nodes[j] == nodes[1..][j - 1]; }
    }
  }

  lemma TitleUnique(nodes: seq<Node>, snaps: Snaps, rec: Record, s: string, t: string)
    requires TitleIs(nodes, snaps, rec, s) && TitleIs(nodes, snaps, rec, t)
    ensures s == t
  {
    if !(forall n :: n in nodes ==> !Shows(snaps, rec, n)) {
      var i :| FirstToShow(nodes, snaps, rec, i) && s == snaps[nodes[i]][rec.copies[nodes[i]].forgejoId].title;
      var j :| FirstToShow(nodes, snaps, rec, j) && t == snaps[nodes[j]][rec.copies[nodes[j]].forgejoId].title;
      assert i == j;
    }
  }

  lemma MatchesIs(rules: Rules, nodes: seq<Node>, snaps: Snaps, rec: Record, node: Node, issue: Issue)
    ensures Matches(rules, nodes, snaps, rec, node, issue) <==> Agrees(rules, nodes, snaps, rec, node, issue)
  {
    var now := CurrentTitle(nodes, snaps, rec);
    CurrentTitleIs(nodes, snaps, rec);
    if t :| TitleIs(nodes, snaps, rec, t) && SameButForCase(rules.fold, t, issue.title) { TitleUnique(nodes, snaps, rec, t, now); }
    if TitleIs(nodes, snaps, rec, issue.title) { TitleUnique(nodes, snaps, rec, issue.title, now); }
  }

  /** The issue becomes a copy of the first record that agrees with it, the k-th, or, where none does, of a new one with its author and title. */
  ghost predicate GoesTo(rules: Rules, nodes: seq<Node>, snaps: Snaps, node: Node, issue: Issue, before: seq<Record>, after: seq<Record>, k: nat) {
    && k <= |before| && (forall i :: 0 <= i < k ==> !Agrees(rules, nodes, snaps, before[i], node, issue))
    && |after| == (if k < |before| then |before| else k + 1) && (forall i :: 0 <= i < |before| && i != k ==> after[i] == before[i])
    && (if k < |before| then
          Agrees(rules, nodes, snaps, before[k], node, issue) && after[k].copies == before[k].copies[node := Copy(issue.number, issue.id)]
        else
          && after[k].copies == map[node := Copy(issue.number, issue.id)] && !after[k].deleted
          && after[k].author == issue.author && after[k].baseTitle == issue.title)
  }

  lemma GoesWhereAgreed(rules: Rules, nodes: seq<Node>, snaps: Snaps, primary: Node, node: Node, issue: Issue, before: seq<Record>,
                        after: seq<Record>, k: nat)
    requires Placed(rules, nodes, snaps, primary, node, issue, before, after, k)
    ensures GoesTo(rules, nodes, snaps, node, issue, before, after, k)
  {
    forall i | 0 <= i < |before| ensures Matches(rules, nodes, snaps, before[i], node, issue) <==> Agrees(rules, nodes, snaps, before[i], node, issue) {
      MatchesIs(rules, nodes, snaps, before[i], node, issue);
    }
  }

  /** Whatever agrees with the one agrees with the other: the authors, and the titles or the names. */
  ghost predicate Alike(rules: Rules, nodes: seq<Node>, snaps: Snaps, a: Record, b: Record) {
    && a.author == b.author
    && if rules.byNameAlone then EqualFold(rules.fold, CurrentTitle(nodes, snaps, a), CurrentTitle(nodes, snaps, b))
       else CurrentTitle(nodes, snaps, a) == CurrentTitle(nodes, snaps, b)
  }

  lemma {:induction false} AttachedTitle(nodes: seq<Node>, snaps: Snaps, rec: Record, node: Node, issue: Issue, primary: Node)
    requires node !in rec.copies && node in snaps && issue.id in snaps[node] && snaps[node][issue.id] == issue
    ensures
      var title := CurrentTitle(nodes, snaps, Attached(rec, node, issue, primary));
      title == CurrentTitle(nodes, snaps, rec) || title == issue.title
  {
    if nodes != [] && nodes[0] != node && !Shows(snaps, rec, nodes[0]) {
      AttachedTitle(nodes[1..], snaps, rec, node, issue, primary);
    }
  }

  lemma AttachedAlike(rules: Rules, nodes: seq<Node>, snaps: Snaps, rec: Record, node: Node, issue: Issue, primary: Node)
    requires node in snaps && issue.id in snaps[node] && snaps[node][issue.id] == issue && Matches(rules, nodes, snaps, rec, node, issue)
    ensures Alike(rules, nodes, snaps, rec, Attached(rec, node, issue, primary))
  {
    AttachedTitle(nodes, snaps, rec, node, issue, primary);
  }

  lemma AlikeAgrees(rules: Rules, nodes: seq<Node>, snaps: Snaps, a: Record, b: Record, node: Node, issue: Issue)
    requires Alike(rules, nodes, snaps, a, b) && node !in a.copies && Agrees(rules, nodes, snaps, b, node, issue)
    ensures Agrees(rules, nodes, snaps, a, node, issue)
  {
    MatchesIs(rules, nodes, snaps, a, node, issue);
    MatchesIs(rules, nodes, snaps, b, node, issue);
  }

  /** The records a run started with gained copies only of issues that agreed with them as they were. */
  ghost predicate GainedByAgreement(rules: Rules, nodes: seq<Node>, snaps: Snaps, start: seq<Record>, now: seq<Record>) {
    && |start| <= |now|
    && forall i, n :: 0 <= i < |start| && n in now[i].copies && n !in start[i].copies ==>
         GainedRightly(rules, nodes, snaps, start[i], n, now[i].copies[n])
  }

  ghost predicate GainedRightly(rules: Rules, nodes: seq<Node>, snaps: Snaps, was: Record, n: Node, c: Copy) {
    && n in snaps && c.forgejoId in snaps[n] && c.number == snaps[n][c.forgejoId].number
    && Agrees(rules, nodes, snaps, was, n, snaps[n][c.forgejoId])
  }

  /** A record was made for an issue only if none before it agreed with that issue. */
  ghost predicate NewWithoutAgreement(rules: Rules, nodes: seq<Node>, snaps: Snaps, start: seq<Record>, now: seq<Record>) {
    forall j :: |start| <= j < |now| ==> Founded(rules, nodes, snaps, now, j)
  }

  ghost predicate Founded(rules: Rules, nodes: seq<Node>, snaps: Snaps, now: seq<Record>, j: int)
    requires 0 <= j < |now|
  {
    exists n :: FoundedOn(rules, nodes, snaps, now, j, n)
  }

  ghost predicate FoundedOn(rules: Rules, nodes: seq<Node>, snaps: Snaps, now: seq<Record>, j: int, n: Node)
    requires 0 <= j < |now|
  {
    && Shows(snaps, now[j], n)
    && var issue := snaps[n][now[j].copies[n].forgejoId];
    && now[j].copies[n].number == issue.number && now[j].author == issue.author && now[j].baseTitle == issue.title
    && forall i :: 0 <= i < j ==> !Agrees(rules, nodes, snaps, now[i], n, issue)
  }

  ghost predicate StillAlike(rules: Rules, nodes: seq<Node>, snaps: Snaps, start: seq<Record>, now: seq<Record>) {
    |start| <= |now| && forall i :: 0 <= i < |start| ==> Alike(rules, nodes, snaps, start[i], now[i])
  }

  lemma PlacedStillAlike(rules: Rules, nodes: seq<Node>, snaps: Snaps, primary: Node, node: Node, issue: Issue, start: seq<Record>,
                         before: seq<Record>, after: seq<Record>, k: nat)
    requires Placed(rules, nodes, snaps, primary, node, issue, before, after, k)
    requires node in snaps && issue.id in snaps[node] && snaps[node][issue.id] == issue
    requires StillAlike(rules, nodes, snaps, start, before)
    ensures StillAlike(rules, nodes, snaps, start, after) && StillAlike(rules, nodes, snaps, before, after)
  {
    if k < |before| { AttachedAlike(rules, nodes, snaps, before[k], node, issue, primary); }
    forall i | 0 <= i < |before| ensures Alike(rules, nodes, snaps, before[i], after[i]) {
      if i != k { assert after[i] == before[i]; }
    }
  }

  lemma PlacedGained(rules: Rules, nodes: seq<Node>, snaps: Snaps, primary: Node, node: Node, issue: Issue, start: seq<Record>,
                     before: seq<Record>, after: seq<Record>, k: nat)
    requires Placed(rules, nodes, snaps, primary, node, issue, before, after, k)
    requires node in snaps && issue.id in snaps[node] && snaps[node][issue.id] == issue
    requires OnlyAdds(start, before) && StillAlike(rules, nodes, snaps, start, before) && GainedByAgreement(rules, nodes, snaps, start, before)
    ensures GainedByAgreement(rules, nodes, snaps, start, after)
  {
    forall i, n | 0 <= i < |start| && n in after[i].copies && n !in start[i].copies
      ensures GainedRightly(rules, nodes, snaps, start[i], n, after[i].copies[n])
    {
      if i == k && n == node {
        MatchesIs(rules, nodes, snaps, before[i], node, issue);
        AlikeAgrees(rules, nodes, snaps, start[i], before[i], node, issue);
      } else {
        assert n in before[i].copies && after[i].copies[n] == before[i].copies[n];
      }
    }
  }

  lemma PlacedFounded(rules: Rules, nodes: seq<Node>, snaps: Snaps, primary: Node, node: Node, issue: Issue, start: seq<Record>,
                      before: seq<Record>, after: seq<Record>, k: nat)
    requires Placed(rules, nodes, snaps, primary, node, issue, before, after, k)
    requires node in snaps && issue.id in snaps[node] && snaps[node][issue.id] == issue
    requires |start| <= |before| && NewWithoutAgreement(rules, nodes, snaps, start, before)
    requires StillAlike(rules, nodes, snaps, before, after) && OnlyAdds(before, after)
    ensures NewWithoutAgreement(rules, nodes, snaps, start, after)
  {
    forall j | |start| <= j < |after| ensures Founded(rules, nodes, snaps, after, j) {
      if j < |before| {
        assert Founded(rules, nodes, snaps, before, j);
        var n :| FoundedOn(rules, nodes, snaps, before, j, n);
        StillFounded(rules, nodes, snaps, before, after, j, n);
      } else {
        forall i | 0 <= i < j ensures !Agrees(rules, nodes, snaps, after[i], node, issue) {
          assert after[i] == before[i];
          MatchesIs(rules, nodes, snaps, before[i], node, issue);
        }
        assert FoundedOn(rules, nodes, snaps, after, j, node);
      }
    }
  }

  ghost predicate ByAgreement(rules: Rules, nodes: seq<Node>, snaps: Snaps, start: seq<Record>, now: seq<Record>) {
    && StillAlike(rules, nodes, snaps, start, now) && GainedByAgreement(rules, nodes, snaps, start, now)
    && NewWithoutAgreement(rules, nodes, snaps, start, now)
  }

  lemma PlacedByAgreement(rules: Rules, nodes: seq<Node>, snaps: Snaps, primary: Node, node: Node, issue: Issue, start: seq<Record>,
                          before: seq<Record>, after: seq<Record>, k: nat)
    requires Placed(rules, nodes, snaps, primary, node, issue, before, after, k)
    requires node in snaps && issue.id in snaps[node] && snaps[node][issue.id] == issue
    requires OnlyAdds(start, before) && RevivedOnPrimary(start, before, primary) && ByAgreement(rules, nodes, snaps, start, before)
    ensures ByAgreement(rules, nodes, snaps, start, after)
  {
    PlacedStillAlike(rules, nodes, snaps, primary, node, issue, start, before, after, k);
    PlacedGained(rules, nodes, snaps, primary, node, issue, start, before, after, k);
    AddsOne(before, rules, nodes, snaps, primary, node, issue, before, after, k);
    PlacedFounded(rules, nodes, snaps, primary, node, issue, start, before, after, k);
  }

  lemma StillFounded(rules: Rules, nodes: seq<Node>, snaps: Snaps, before: seq<Record>, after: seq<Record>, j: nat, n: Node)
    requires j < |before| && StillAlike(rules, nodes, snaps, before, after) && OnlyAdds(before, after)
    requires FoundedOn(rules, nodes, snaps, before, j, n)
    ensures FoundedOn(rules, nodes, snaps, after, j, n)
  {
    var issue := snaps[n][before[j].copies[n].forgejoId];
    forall i | 0 <= i < j ensures !Agrees(rules, nodes, snaps, after[i], n, issue) {
      if Agrees(rules, nodes, snaps, after[i], n, issue) {
        assert n !in before[i].copies;
        AlikeAgrees(rules, nodes, snaps, before[i], after[i], n, issue);
      }
    }
  }

  class Run {
    const rules: Rules
    const nodes: seq<Node>
    const snaps: Snaps
    const primary: Node
    var recs: seq<Record>
    var store: map<nat, Record>
    ghost var failed: bool  // some save reported an error

    constructor (rules: Rules, nodes: seq<Node>, snaps: Snaps, primary: Node, recs: seq<Record>, store: map<nat, Record>)
      ensures this.rules == rules && this.nodes == nodes && this.snaps == snaps && this.primary == primary && this.recs == recs && this.store == store && !failed
    {
      this.rules, this.nodes, this.snaps, this.primary, this.recs, this.store, failed := rules, nodes, snaps, primary, recs, store, false;
    }

    /** Saving one record; a failed save may have reached the store. */
    method Save(rec: Record) returns (ok: bool)
      modifies this`store, this`failed
      ensures failed == (old(failed) || !ok)
      ensures store == old(store)[rec.id := rec] || (!ok && store == old(store))
    {
      if * {
        if * { store := store[rec.id := rec]; }
        failed := true;
        return false;
      }
      store := store[rec.id := rec];
      return true;
    }

    method Find(node: Node, issue: Issue) returns (k: nat)
      ensures k <= |recs| && (k < |recs| ==> FirstMatch(rules, nodes, snaps, recs, node, issue, k))
      ensures k == |recs| ==> forall i :: 0 <= i < |recs| ==> !Matches(rules, nodes, snaps, recs[i], node, issue)
      ensures k < |recs| ==> Agrees(rules, nodes, snaps, recs[k], node, issue)
      ensures forall i :: 0 <= i < k ==> !Agrees(rules, nodes, snaps, recs[i], node, issue)
    {
      for i := 0 to |recs|
        invariant forall j :: 0 <= j < i ==> !Matches(rules, nodes, snaps, recs[j], node, issue)
        invariant forall j :: 0 <= j < i ==> !Agrees(rules, nodes, snaps, recs[j], node, issue)
      {
        MatchesIs(rules, nodes, snaps, recs[i], node, issue);
        if Matches(rules, nodes, snaps, recs[i], node, issue) { return i; }
      }
      return |recs|;
    }

    /** One unknown issue. */
    method Place(node: Node, issue: Issue, newId: nat) returns (ok: bool, ghost k: nat)
      requires InSync(recs, store) && Injective(recs) && !Claimed(recs, node, issue.id) && newId !in store
      modifies this`recs, this`store, this`failed
      ensures failed == (old(failed) || !ok)
      ensures InjectiveStore(store)
      ensures ok ==> Placed(rules, nodes, snaps, primary, node, issue, old(recs), recs, k) && InSync(recs, store) && Injective(recs)
      ensures ok ==> GoesTo(rules, nodes, snaps, node, issue, old(recs), recs, k)
    {
      ghost var before := recs;
      var at := Find(node, issue);
      k := at;
      var after := if at < |recs| then recs[at := Attached(recs[at], node, issue, primary)] else recs + [NewRecord(newId, node, issue)];
      PlacedInjective(rules, nodes, snaps, primary, node, issue, recs, after, k);
      SyncedAfter(rules, nodes, snaps, primary, node, issue, recs, after, k, store);
      StoreInjective(recs, store);
      StoreInjective(after, store[after[k].id := after[k]]);
      GoesWhereAgreed(rules, nodes, snaps, primary, node, issue, recs, after, k);
      ok := Save(after[at]);
      if ok { recs := after; }
    }

    method UnknownOn(node: Node, found: set<nat>) returns (news: set<Fresh>)
      ensures forall n, id :: Fresh(n, id) in news <==> n == node && id in found && !Claimed(recs, n, id)
    {
      news := {};
      var left := found;
      while left != {}
        invariant left <= found
        invariant forall n, id :: Fresh(n, id) in news <==> n == node && id in found && id !in left && !Claimed(recs, n, id)
        decreases left
      {
        var id :| id in left;
        if !Claimed(recs, node, id) { news := news + {Fresh(node, id)}; }
        left := left - {id};
      }
    }

    /** The issues no record knows. */
    method Unknown() returns (news: set<Fresh>)
      requires forall n :: n in nodes ==> n in snaps
      ensures forall n, id :: Fresh(n, id) in news <==> n in nodes && id in snaps[n] && !Claimed(recs, n, id)
    {
      news := {};
      for i := 0 to |nodes|
        invariant forall n, id :: Fresh(n, id) in news <==> n in nodes[..i] && id in snaps[n] && !Claimed(recs, n, id)
      {
        assert nodes[..i + 1] == nodes[..i] + [nodes[i]];
        var more := UnknownOn(nodes[i], snaps[nodes[i]].Keys);
        news := news + more;
      }
      assert nodes[..|nodes|] == nodes;
    }

    /**
     * The whole matching, in whatever order the unknown issues are gone through. If every save
     * works, every issue of every participating node is the copy of exactly one record; if one
     * fails, the store still holds no issue twice.
     */
    method Match() returns (ok: bool, ghost order: seq<Fresh>, ghost states: seq<seq<Record>>)
      requires InSync(recs, store) && Injective(recs)
      requires (forall n :: n in nodes ==> n in snaps) && forall n, id :: n in snaps && id in snaps[n] ==> snaps[n][id].id == id
      modifies this`recs, this`store, this`failed
      ensures failed == (old(failed) || !ok)
      ensures InjectiveStore(store)
      ensures ok ==> InSync(recs, store) && Injective(recs)
      ensures ok ==> forall n, id :: n in nodes && id in snaps[n] ==> ClaimedOnce(recs, n, id)
      ensures ok ==> OnlyAdds(old(recs), recs) && RevivedOnPrimary(old(recs), recs, primary)
      ensures ok ==> Trace(rules, nodes, snaps, primary, order, states) && states[0] == old(recs) && states[|order|] == recs
      ensures ok ==> GainedByAgreement(rules, nodes, snaps, old(recs), recs) && NewWithoutAgreement(rules, nodes, snaps, old(recs), recs)
      ensures ok ==> forall n, id :: Fresh(n, id) in order <==> n in nodes && id in snaps[n] && !Claimed(old(recs), n, id)
    {
      order, states := [], [recs];
      var news := Unknown();
      ghost var all := news;
      StoreInjective(recs, store);
      while news != {}
        invariant InSync(recs, store) && Injective(recs) && InjectiveStore(store)
        invariant OnlyAdds(old(recs), recs) && RevivedOnPrimary(old(recs), recs, primary)
        invariant LeftOver(nodes, snaps, recs, news)
        invariant ByAgreement(rules, nodes, snaps, old(recs), recs) && failed == old(failed)
        invariant Trace(rules, nodes, snaps, primary, order, states) && states[0] == old(recs) && states[|order|] == recs
        invariant news <= all && forall f :: f in order <==> f in all && f !in news
        decreases news
      {
        var f :| f in news;
        ghost var before := recs;
        ok := PlaceNext(f, old(recs));
        if !ok { return; }
        TraceGrows(rules, nodes, snaps, primary, order, states, f, recs);
        order, states := order + [f], states + [recs];
        OneFewer(nodes, snaps, before, recs, news, f);
        news := news - {f};
      }
      ok := true;
      AllOnce(nodes, snaps, recs);
    }

    method PlaceNext(f: Fresh, ghost start: seq<Record>) returns (ok: bool)
      requires InSync(recs, store) && Injective(recs) && !Claimed(recs, f.node, f.id)
      requires f.node in snaps && f.id in snaps[f.node] && snaps[f.node][f.id].id == f.id
      requires OnlyAdds(start, recs) && RevivedOnPrimary(start, recs, primary) && ByAgreement(rules, nodes, snaps, start, recs)
      modifies this`recs, this`store, this`failed
      ensures failed == (old(failed) || !ok)
      ensures InjectiveStore(store)
      ensures ok ==> ByAgreement(rules, nodes, snaps, start, recs)
      ensures ok ==> InSync(recs, store) && Injective(recs) && OnlyAdds(start, recs) && RevivedOnPrimary(start, recs, primary)
      ensures ok ==> forall n, id :: Claimed(recs, n, id) <==> old(Claimed(recs, n, id)) || (n == f.node && id == f.id)
      ensures ok ==> PlacedSomewhere(rules, nodes, snaps, primary, f, old(recs), recs)
    {
      var issue := snaps[f.node][f.id];
      SomeIdFree(store.Keys);
      var newId: nat :| newId !in store;
      ghost var before, k := recs, 0;
      ok, k := Place(f.node, issue, newId);
      if ok {
        AddsOne(start, rules, nodes, snaps, primary, f.node, issue, before, recs, k);
        PlacedByAgreement(rules, nodes, snaps, primary, f.node, issue, start, before, recs, k);
        forall n, id ensures Claimed(recs, n, id) <==> Claimed(before, n, id) || (n == f.node && id == f.id) {
          PlacedClaims(rules, nodes, snaps, primary, f.node, issue, before, recs, k, n, id);
        }
      }
    }
  }

  lemma {:induction false} SomeIdFree(ids: set<nat>)
    ensures exists id: nat :: id !in ids
  {
    var top := Above(ids);
    assert top !in ids;
  }

  lemma {:induction false} Above(ids: set<nat>) returns (top: nat)
    ensures forall id: nat :: id in ids ==> id < top
  {
    if ids == {} {
      top := 0;
    } else {
      var x: nat :| x in ids;
      top := Above(ids - {x});
      forall id: nat | id in ids ensures id < top || id == x { assert id == x || id in ids - {x}; }
      if top <= x { top := x + 1; }
    }
  }

  lemma AddsOne(start: seq<Record>, rules: Rules, nodes: seq<Node>, snaps: Snaps, primary: Node, node: Node, issue: Issue,
                before: seq<Record>, after: seq<Record>, k: nat)
    requires OnlyAdds(start, before) && RevivedOnPrimary(start, before, primary)
    requires Placed(rules, nodes, snaps, primary, node, issue, before, after, k)
    ensures OnlyAdds(start, after) && RevivedOnPrimary(start, after, primary)
  {
    forall i | 0 <= i < |before|
      ensures after[i].id == before[i].id && after[i].author == before[i].author && after[i].baseTitle == before[i].baseTitle
      ensures forall n :: n in before[i].copies ==> n in after[i].copies && after[i].copies[n] == before[i].copies[n]
      ensures after[i].deleted <==> before[i].deleted && (primary in after[i].copies ==> primary in before[i].copies)
    {
    }
  }

  lemma SyncedAfter(rules: Rules, nodes: seq<Node>, snaps: Snaps, primary: Node, node: Node, issue: Issue, before: seq<Record>,
                    after: seq<Record>, k: nat, store: map<nat, Record>)
    requires Placed(rules, nodes, snaps, primary, node, issue, before, after, k) && InSync(before, store)
    requires k == |before| ==> after[k].id !in store
    ensures InSync(after, store[after[k].id := after[k]])
  {
    var store' := store[after[k].id := after[k]];
    forall id | id in store' ensures exists i :: 0 <= i < |after| && after[i].id == id {
      if id == after[k].id {
      } else {
        var i :| 0 <= i < |before| && before[i].id == id;
        assert after[i].id == id;
      }
    }
  }
}
