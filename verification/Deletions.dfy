/**
 * One record of an issue, a comment, a label or a milestone and its copies: when a copy is deleted,
 * and when one is made. The three kinds follow the same rules over different fields.
 */
module Deletions {
  import opened Optional
  import opened Text
  import FieldMerge

  type Fields = map<string, string>

  function Get(f: Fields, field: string): string {
    if field in f then f[field] else ""
  }

  predicate SameFields(a: Fields, b: Fields, fields: seq<string>) {
    forall k :: k in fields ==> Get(a, k) == Get(b, k)
  }

  /** What was read from the participating nodes, by Forgejo id. */
  type Snaps = map<Node, map<nat, Fields>>

  predicate There(snaps: Snaps, copies: map<Node, nat>, n: Node) {
    n in copies && n in snaps && copies[n] in snaps[n]
  }

  /** The primary had a copy on record and no longer has it. */
  predicate GoneFromPrimary(snaps: Snaps, copies: map<Node, nat>, nodes: seq<Node>, primary: Node) {
    primary in nodes && primary in copies && !There(snaps, copies, primary)
  }

  predicate Submap(a: map<Node, nat>, b: map<Node, nat>) {
    forall n :: n in a ==> n in b && a[n] == b[n]
  }

  /** A copy unchanged since the nodes last agreed. */
  predicate Unchanged(snaps: Snaps, copies: map<Node, nat>, base: Fields, fields: seq<string>, n: Node) {
    There(snaps, copies, n) && forall k :: k in fields ==> Get(snaps[n][copies[n]], k) == Get(base, k)
  }

  /** The record as the database has it, which is what the next run goes by. */
  datatype Record = Record(copies: map<Node, nat>, base: Fields, deleted: bool)

  class Tracked {
    const fields: seq<string>
    var stored: Record
    var copies: map<Node, nat>
    var base: Fields
    var deleted: bool
    var forgotten: bool           // the record itself was deleted
    var complete: bool
    var restored: set<Node>       // nodes it was deleted on and is being recreated
    var kept: set<Node>           // nodes keeping a changed copy for its owner
    ghost var removed: set<(Node, nat)>
    ghost var created: nat        // copies made
    ghost var failed: bool        // some save reported an error
    ghost var deletions: set<(Node, nat)>            // copies the nodes were asked to delete
    ghost var edits: set<(Node, string, string)>     // fields they were asked to change, and to what
    ghost var made: set<(Node, Fields)>              // copies they were asked to make, with all their fields

    constructor (fields: seq<string>, copies: map<Node, nat>, base: Fields, deleted: bool)
      ensures this.fields == fields && this.copies == copies && this.base == base && this.deleted == deleted
      ensures !forgotten && complete && restored == {} && kept == {} && removed == {} && created == 0
      ensures stored == Record(copies, base, deleted) && deletions == {} && edits == {} && made == {} && !failed
    {
      failed := false;
      deletions, edits, made := {}, {}, {};
      stored := Record(copies, base, deleted);
      this.fields, this.copies, this.base, this.deleted := fields, copies, base, deleted;
      forgotten, complete, restored, kept, removed, created := false, true, {}, {}, {}, 0;
    }

    /** Saves the record, which may fail, and then ends the run over it. */
    method Save() returns (saved: bool)
      modifies this`stored, this`failed
      ensures failed == (old(failed) || !saved)
      ensures stored == if saved then Record(copies, base, deleted) else old(stored)
    {
      saved := *;
      if saved { stored := Record(copies, base, deleted); } else { failed := true; }
    }

    /** Which copies are there. One missing on another node is dropped, to be recreated; one missing on the primary is a deletion. */
    method Present(nodes: seq<Node>, primary: Node, snaps: Snaps) returns (present: map<Node, Fields>, gone: bool)
      requires forall n :: n in nodes ==> n in snaps
      modifies this`copies, this`restored, this`complete
      ensures gone <==> deleted || GoneFromPrimary(snaps, old(copies), nodes, primary)
      ensures Submap(copies, old(copies)) && (primary in old(copies) ==> primary in copies)
      ensures forall n :: n in old(copies) && n !in copies ==> n in nodes && !There(snaps, old(copies), n)
      ensures forall n :: n in present ==> n in nodes && There(snaps, copies, n) && present[n] == snaps[n][copies[n]]
      ensures !gone ==> forall n :: n in nodes && n in copies ==> n in present
      ensures !gone ==> present == PresentOf(snaps, old(copies), nodes)
    {
      present := map[];
      gone := deleted;
      ghost var was := copies;
      for i := 0 to |nodes|
        invariant gone <==> deleted || GoneFromPrimary(snaps, was, nodes[..i], primary)
        invariant Submap(copies, was) && (primary in was ==> primary in copies)
        invariant forall n :: n in was && n !in copies ==> n in nodes[..i] && !There(snaps, was, n)
        invariant forall n :: n in present ==> n in nodes[..i] && There(snaps, copies, n) && present[n] == snaps[n][copies[n]]
        invariant !gone ==> forall n :: n in nodes[..i] && n in copies ==> n in present
      {
        var n := nodes[i];
        assert nodes[..i + 1] == nodes[..i] + [n];
        if n !in copies || gone {
        } else if copies[n] in snaps[n] {
          present := present[n := snaps[n][copies[n]]];
        } else if n != primary {
          copies := copies - {n};
          restored := restored + {n};
          complete := false;
        } else {
          gone := true;
        }
      }
      assert nodes[..|nodes|] == nodes;
      if !gone { assert forall n :: n in nodes && There(snaps, was, n) ==> n in copies && n in present; }
    }

    /** Deletes one copy; a failed call may have taken effect. */
    method DeleteCopy(n: Node) returns (ok: bool)
      requires n in copies
      modifies this`complete, this`removed, this`deletions
      ensures deletions == old(deletions) + {(n, copies[n])}
      ensures old(removed) <= removed <= old(removed) + {(n, copies[n])}
      ensures ok ==> (n, copies[n]) in removed
      ensures complete == (old(complete) && ok)
    {
      deletions := deletions + {(n, copies[n])};
      if * {
        if * { removed := removed + {(n, copies[n])}; }
        complete := false;
        return false;
      }
      removed := removed + {(n, copies[n])};
      return true;
    }

    /** One other node's copy of something deleted on the primary. */
    method PurgeOne(n: Node, snaps: Snaps)
      requires n in copies && n in snaps
      modifies this`copies, this`kept, this`complete, this`removed, this`deletions
      ensures old(deletions) <= deletions
      ensures Unchanged(snaps, old(copies), base, fields, n) ==> (n, old(copies)[n]) in deletions
      ensures copies == old(copies) || copies == old(copies) - {n}
      ensures old(kept) <= kept && old(removed) <= removed <= old(removed) + {(n, old(copies)[n])}
      ensures complete ==> old(complete)
      ensures !There(snaps, old(copies), n) ==> n !in copies && removed == old(removed)
      ensures There(snaps, old(copies), n) && !Unchanged(snaps, old(copies), base, fields, n) ==>
        n in copies && n in kept && removed == old(removed)
      ensures Unchanged(snaps, old(copies), base, fields, n) ==> if n in copies then !complete else (n, old(copies)[n]) in removed
    {
      if copies[n] !in snaps[n] {
        copies := copies - {n};
      } else if !SameFields(snaps[n][copies[n]], base, fields) {
        kept := kept + {n};
      } else {
        var ok := DeleteCopy(n);
        if ok { copies := copies - {n}; }
      }
    }

    method PurgeNext(n: Node, snaps: Snaps, ghost primary: Node, ghost done: set<Node>, ghost was: Sweep)
      requires n in snaps && Swept(snaps, base, fields, primary, done, was, State())
      modifies this`copies, this`kept, this`complete, this`removed, this`deletions
      ensures Swept(snaps, base, fields, primary, done + {n}, was, State())
    {
      ghost var before := State();
      if n in copies { PurgeOne(n, snaps); }
      SweptOne(snaps, base, fields, primary, done, was, before, State(), n);
    }

    ghost function State(): Sweep
      reads this
    {
      Sweep(copies, kept, removed, deletions, complete)
    }

    /** Deleted on the primary: unchanged copies elsewhere go, changed ones stay for a person. */
    method Purge(nodes: seq<Node>, primary: Node, snaps: Snaps) returns (saved: bool)
      requires forall n :: n in nodes ==> n in snaps
      modifies this`copies, this`deleted, this`kept, this`complete, this`removed, this`deletions, this`forgotten, this`stored, this`failed
      ensures failed == (old(failed) || !saved)
      ensures deleted && primary !in copies && Submap(copies, old(copies))
      ensures Swept(snaps, base, fields, primary, Elements(nodes), old(State()), State())
      ensures forgotten == (old(forgotten) || (saved && copies == map[]))
      ensures stored == if saved then Record(copies, base, deleted) else old(stored)
    {
      deleted := true;
      ghost var was := State();
      copies := copies - {primary};
      for i := 0 to |nodes|
        invariant deleted && forgotten == old(forgotten) && stored == old(stored) && failed == old(failed)
        invariant Swept(snaps, base, fields, primary, Elements(nodes[..i]), was, State())
      {
        var n := nodes[i];
        assert Elements(nodes[..i + 1]) == Elements(nodes[..i]) + {n};
        PurgeNext(n, snaps, primary, Elements(nodes[..i]), was);
      }
      assert nodes[..|nodes|] == nodes;
      saved := Save();
      if saved && copies == map[] { forgotten := true; } // then the record is deleted instead
    }

    /** One field merged against its base. */
    method MergeField(k: string, present: map<Node, Fields>, primary: Node) returns (value: string)
      modifies this`base, this`complete, this`edits
      ensures edits == old(edits) + EditsDue(present, k, Get(old(base), k))
      ensures Settles(present, primary, k, Get(old(base), k), value)
      ensures FieldMerged(Column(present, k), Lookup(present, primary), k, Get(old(base), k), Get(base, k), value)
      ensures base == old(base) || base == old(base)[k := value]
    {
      var writes, conflict;
      ghost var was := Get(base, k);
      value, writes, conflict := FieldMerge.Merge(Column(present, k), Get(base, k));
      if conflict {
        value := if primary in present then Get(present[primary], k) else Get(base, k);
        NoEdits(present, k, was);
      } else {
        EditsAreDue(present, k, was, value);
        SendEdits(writes, k, value);
        base := base[k := value];
      }
      SettledAs(present, primary, k, was, Get(base, k), value);
    }

    /** Each edit may fail; the base moves all the same. */
    method SendEdits(nodes: seq<Node>, k: string, value: string)
      modifies this`complete, this`edits
      ensures edits == old(edits) + set n | n in nodes :: (n, k, value)
      ensures complete ==> old(complete)
    {
      for i := 0 to |nodes|
        invariant edits == old(edits) + set n | n in nodes[..i] :: (n, k, value)
        invariant complete ==> old(complete)
      {
        assert nodes[..i + 1] == nodes[..i] + [nodes[i]];
        edits := edits + {(nodes[i], k, value)};
        if * { complete := false; }
      }
      assert nodes[..|nodes|] == nodes;
    }

    /** Every field in turn; want is what a new copy gets. */
    method MergeFields(present: map<Node, Fields>, primary: Node) returns (want: Fields)
      requires Distinct(fields)
      modifies this`base, this`complete, this`edits
      ensures MadeRightly(fields, present, primary, old(base), want) && Edited(fields, present, old(base), old(edits), edits)
      ensures forall k :: k in fields ==> FieldDone(present, primary, k, old(base), base, want)
      ensures forall k :: k !in fields ==> Get(base, k) == Get(old(base), k)
    {
      want := map[];
      ghost var was := base;
      for i := 0 to |fields|
        invariant MadeRightly(fields[..i], present, primary, was, want) && Edited(fields[..i], present, was, old(edits), edits)
        invariant forall k :: k in fields[..i] ==> FieldDone(present, primary, k, was, base, want)
        invariant forall k :: k !in fields[..i] ==> Get(base, k) == Get(was, k)
      {
        assert fields[..i + 1] == fields[..i] + [fields[i]] && fields[i] !in fields[..i];
        ghost var before, had, sent := base, want, edits;
        var value := MergeField(fields[i], present, primary);
        want := want[fields[i] := value];
        OneMoreWanted(fields, i, present, primary, was, had, value);
        OneMoreEdited(fields, i, present, was, old(edits), sent);
        OneMoreDone(fields, i, present, primary, was, before, had, base, want);
      }
      assert fields[..|fields|] == fields;
    }

    /** A copy on one node that has none; once made it is recorded at once. */
    method Make(n: Node, want: Fields) returns (saved: bool)
      requires n !in copies
      modifies this`copies, this`complete, this`created, this`stored, this`made, this`failed
      ensures failed == (old(failed) || !saved)
      ensures made == old(made) + {(n, want)}
      ensures copies == old(copies) || (n in copies && copies == old(copies)[n := copies[n]] && created > old(created))
      ensures created >= old(created)
      ensures complete ==> old(complete) && n in copies
      ensures stored == old(stored) || stored == Record(copies, base, deleted)
    {
      made := made + {(n, want)};
      if * {
        if * { created := created + 1; } // made, but the answer was lost
        complete := false;
        return true;
      }
      var fid: nat := *;
      copies := copies[n := fid];
      created := created + 1;
      saved := Save();
    }

    /** Copies on the nodes that have none, until one that was made could not be recorded. */
    method Fill(nodes: seq<Node>, want: Fields) returns (saved: bool)
      modifies this`copies, this`complete, this`created, this`stored, this`made, this`failed
      ensures failed == (old(failed) || !saved)
      ensures old(made) <= made && (forall m :: m in made && m !in old(made) ==> m.0 in nodes && m.0 !in old(copies) && m.1 == want)
      ensures saved ==> forall n :: n in nodes && n !in old(copies) ==> (n, want) in made
      ensures Submap(old(copies), copies)
      ensures forall n :: n in copies && n !in old(copies) ==> n in nodes
      ensures created >= old(created) && (copies != old(copies) ==> created > old(created))
      ensures saved && complete ==> old(complete) && forall n :: n in nodes ==> n in copies
      ensures OnTheWay(old(stored), stored, old(copies), copies, base, deleted)
    {
      for i := 0 to |nodes|
        invariant Submap(old(copies), copies) && forall n :: n in copies && n !in old(copies) ==> n in nodes[..i]
        invariant created >= old(created) && (copies != old(copies) ==> created > old(created))
        invariant complete ==> old(complete) && forall n :: n in nodes[..i] ==> n in copies
        invariant OnTheWay(old(stored), stored, old(copies), copies, base, deleted)
        invariant failed == old(failed)
        invariant old(made) <= made && (forall m :: m in made && m !in old(made) ==> m.0 in nodes && m.0 !in old(copies) && m.1 == want)
        invariant forall n :: n in nodes[..i] && n !in old(copies) ==> (n, want) in made
        invariant copies.Keys - old(copies).Keys <= set m | m in made :: m.0
      {
        var n := nodes[i];
        assert nodes[..i + 1] == nodes[..i] + [n];
        if n !in copies {
          saved := Make(n, want);
          if !saved { return; }
        }
      }
      assert nodes[..|nodes|] == nodes;
      saved := true;
    }

    /** The record on file. */
    ghost function Value(): Life
      reads this
    {
      Life(stored.copies, stored.base, stored.deleted, removed, created)
    }

    /** The record as this run has it. */
    ghost function Mine(): Life
      reads this
    {
      Life(copies, base, deleted, removed, created)
    }

    /** A record the primary still has: merged field by field, edited, and copied where it is missing. */
    method Bring(nodes: seq<Node>, present: map<Node, Fields>, primary: Node) returns (saved: bool)
      requires Distinct(fields) && (forall n :: n in nodes && n in copies ==> n in present) && forall n :: n in present ==> n in copies
      modifies this`base, this`copies, this`complete, this`created, this`stored, this`edits, this`made, this`failed
      ensures failed == (old(failed) || !saved)
      ensures Edited(fields, present, old(base), old(edits), edits)
      ensures CopiesMade(fields, nodes, present, primary, old(base), old(made), made, saved)
      ensures forall k :: k in fields ==> BaseMerged(present, primary, k, Get(old(base), k), Get(base, k))
      ensures saved && complete ==> forall n :: n in nodes ==> n in copies
      ensures if saved then stored == Record(copies, base, deleted) else OnTheWay(old(stored), stored, map[], copies, base, deleted)
      ensures created >= old(created)
    {
      var want := MergeFields(present, primary);
      assert forall k :: k in fields ==> FieldDone(present, primary, k, old(base), base, want);
      saved := FillAndSave(nodes, want);
      AllMadeWith(fields, nodes, present, primary, old(base), old(copies), old(made), made, want, saved);
    }

    method FillAndSave(nodes: seq<Node>, want: Fields) returns (saved: bool)
      modifies this`copies, this`complete, this`created, this`stored, this`made, this`failed
      ensures failed == (old(failed) || !saved)
      ensures old(made) <= made && (forall m :: m in made && m !in old(made) ==> m.0 in nodes && m.0 !in old(copies) && m.1 == want)
      ensures saved ==> forall n :: n in nodes && n !in old(copies) ==> (n, want) in made
      ensures saved && complete ==> forall n :: n in nodes ==> n in copies
      ensures created >= old(created)
      ensures if saved then stored == Record(copies, base, deleted) else OnTheWay(old(stored), stored, map[], copies, base, deleted)
    {
      saved := Fill(nodes, want);
      if saved { saved := Save(); }
    }

    /** A record the primary no longer has, once the copies were looked at: r is how it was on file. */
    method TakeAway(nodes: seq<Node>, primary: Node, snaps: Snaps, ghost r: Life) returns (saved: bool)
      requires (forall n :: n in nodes ==> n in snaps) && Value() == r && base == r.base
      requires r.deleted || GoneFromPrimary(snaps, r.copies, nodes, primary)
      requires Submap(copies, r.copies) && forall n :: n in r.copies && n !in copies ==> n in nodes && !There(snaps, r.copies, n)
      modifies this`copies, this`deleted, this`kept, this`complete, this`removed, this`deletions, this`forgotten, this`stored, this`failed
      ensures failed == (old(failed) || !saved)
      ensures Synced(r, Value(), fields, nodes, primary, snaps)
      ensures SweptAll(snaps, fields, primary, nodes, r, Mine(), kept, deletions, complete)
      ensures forgotten == (old(forgotten) || (saved && copies == map[]))
      ensures if saved then Value() == Mine() else stored == old(stored)
    {
      ghost var mid := State();
      saved := Purge(nodes, primary, snaps);
      DueBefore(snaps, base, fields, primary, r.copies, mid, State(), Elements(nodes));
    }

    /** One run over one record, on file only as far as it could be saved. */
    method Sync(nodes: seq<Node>, primary: Node, snaps: Snaps) returns (saved: bool)
      requires primary in nodes && (forall n :: n in nodes ==> n in snaps) && Distinct(fields)
      requires Value() == Mine()
      modifies this
      ensures failed == (old(failed) || !saved)
      ensures Synced(old(Value()), Value(), fields, nodes, primary, snaps)
      ensures
        var gone := old(deleted) || GoneFromPrimary(snaps, old(copies), nodes, primary);
        var present := PresentOf(snaps, old(copies), nodes);
        && (gone ==> SweptAll(snaps, fields, primary, nodes, old(Mine()), Mine(), kept, deletions, complete))
        && (gone ==> forgotten == (old(forgotten) || (saved && copies == map[])))
        && (saved && (gone || present != map[]) ==> Value() == Mine())
        && (!saved && gone ==> stored == old(stored))
        && (!saved && !gone ==> OnTheWay(old(stored), stored, map[], copies, base, deleted))
        && (!gone && present != map[] ==>
              && (forall k :: k in fields ==> BaseMerged(present, primary, k, Get(old(base), k), Get(base, k)))
              && (saved && complete ==> forall n :: n in nodes ==> n in copies))
      ensures
        var gone := old(deleted) || GoneFromPrimary(snaps, old(copies), nodes, primary);
        var present := PresentOf(snaps, old(copies), nodes);
        && (gone || present == map[] ==> edits == old(edits) && made == old(made))
        && (!gone ==> deletions == old(deletions))
        && (!gone && present != map[] ==>
              && Edited(fields, present, old(base), old(edits), edits)
              && CopiesMade(fields, nodes, present, primary, old(base), old(made), made, saved))
    {
      ghost var was := Value();
      var present, gone := Present(nodes, primary, snaps);
      if gone {
        saved := TakeAway(nodes, primary, snaps, was);
        return;
      }
      saved := BringIfThere(nodes, primary, snaps, present, was);
    }

    /** A record the primary has not lost, once the copies were looked at: r is how it was on file. */
    method BringIfThere(nodes: seq<Node>, primary: Node, snaps: Snaps, present: map<Node, Fields>, ghost r: Life) returns (saved: bool)
      requires Distinct(fields) && Value() == r && base == r.base && !deleted
      requires !r.deleted && !GoneFromPrimary(snaps, r.copies, nodes, primary)
      requires (forall n :: n in nodes && n in copies ==> n in present) && forall n :: n in present ==> n in copies
      modifies this`base, this`copies, this`complete, this`created, this`stored, this`edits, this`made, this`failed
      ensures Synced(r, Value(), fields, nodes, primary, snaps) && failed == (old(failed) || !saved)
      ensures if saved then present != map[] ==> Value() == Mine() else OnTheWay(old(stored), stored, map[], copies, base, deleted)
      ensures present == map[] ==> saved && edits == old(edits) && made == old(made)
      ensures present != map[] ==>
        && Edited(fields, present, old(base), old(edits), edits)
        && CopiesMade(fields, nodes, present, primary, old(base), old(made), made, saved)
        && (forall k :: k in fields ==> BaseMerged(present, primary, k, Get(old(base), k), Get(base, k)))
        && (saved && complete ==> forall n :: n in nodes ==> n in copies)
    {
      if present == map[] { return true; } // with nothing saved
      saved := Bring(nodes, present, primary);
    }
  }

  /** One field's merge, from what the base was to what it is, and what a new copy gets. */
  ghost predicate FieldDone(present: map<Node, Fields>, primary: Node, k: string, was: Fields, base: Fields, want: Fields) {
    FieldMerged(Column(present, k), Lookup(present, primary), k, Get(was, k), Get(base, k), Get(want, k))
  }

  /** Exactly the edits that are due are asked for. */
  ghost predicate Edited(fields: seq<string>, present: map<Node, Fields>, base: Fields, before: set<(Node, string, string)>,
                         after: set<(Node, string, string)>) {
    && before <= after && (forall k :: k in fields ==> EditsDue(present, k, Get(base, k)) <= after)
    && forall e :: e in after && e !in before ==> e.1 in fields && e in EditsDue(present, e.1, Get(base, e.1))
  }

  /** Copies are asked for only where there is none, each as it should be; and, unless the run had to stop, everywhere there is none. */
  ghost predicate CopiesMade(fields: seq<string>, nodes: seq<Node>, present: map<Node, Fields>, primary: Node, base: Fields,
                             before: set<(Node, Fields)>, after: set<(Node, Fields)>, all: bool) {
    && before <= after
    && (forall m :: m in after && m !in before ==> m.0 in nodes && m.0 !in present && MadeRightly(fields, present, primary, base, m.1))
    && (all ==> forall n :: n in nodes && n !in present ==> MadeOn(fields, n, present, primary, base, after))
  }

  ghost predicate MadeOn(fields: seq<string>, n: Node, present: map<Node, Fields>, primary: Node, base: Fields, made: set<(Node, Fields)>) {
    exists f :: (n, f) in made && MadeRightly(fields, present, primary, base, f)
  }

  lemma AllMadeWith(fields: seq<string>, nodes: seq<Node>, present: map<Node, Fields>, primary: Node, base: Fields, copies: map<Node, nat>,
                    before: set<(Node, Fields)>, after: set<(Node, Fields)>, want: Fields, all: bool)
    requires MadeRightly(fields, present, primary, base, want) && before <= after
    requires (forall n :: n in nodes && n in copies ==> n in present) && forall n :: n in present ==> n in copies
    requires forall m :: m in after && m !in before ==> m.0 in nodes && m.0 !in copies && m.1 == want
    requires all ==> forall n :: n in nodes && n !in copies ==> (n, want) in after
    ensures CopiesMade(fields, nodes, present, primary, base, before, after, all)
  {
    if all {
      forall n | n in nodes && n !in present ensures MadeOn(fields, n, present, primary, base, after) {
        assert (n, want) in after;
      }
    }
  }

  lemma OneMoreWanted(fields: seq<string>, i: nat, present: map<Node, Fields>, primary: Node, was: Fields, had: Fields, value: string)
    requires i < |fields| && fields[..i + 1] == fields[..i] + [fields[i]] && fields[i] !in fields[..i]
    requires MadeRightly(fields[..i], present, primary, was, had) && Settles(present, primary, fields[i], Get(was, fields[i]), value)
    ensures MadeRightly(fields[..i + 1], present, primary, was, had[fields[i] := value])
  {
    var want := had[fields[i] := value];
    assert Elements(fields[..i + 1]) == Elements(fields[..i]) + {fields[i]};
    forall k | k in fields[..i + 1] ensures Settles(present, primary, k, Get(was, k), Get(want, k)) {
      if k != fields[i] { assert Get(want, k) == Get(had, k); }
    }
  }

  lemma EditsOf(present: map<Node, Fields>, k: string, was: string)
    ensures forall e :: e in EditsDue(present, k, was) ==> e.1 == k
  {
  }

  lemma OneMoreEdited(fields: seq<string>, i: nat, present: map<Node, Fields>, was: Fields, edits0: set<(Node, string, string)>,
                      sent: set<(Node, string, string)>)
    requires i < |fields| && fields[..i + 1] == fields[..i] + [fields[i]] && Edited(fields[..i], present, was, edits0, sent)
    ensures Edited(fields[..i + 1], present, was, edits0, sent + EditsDue(present, fields[i], Get(was, fields[i])))
  {
    EditsOf(present, fields[i], Get(was, fields[i]));
    forall k | k in fields[..i + 1] ensures EditsDue(present, k, Get(was, k)) <= sent + EditsDue(present, fields[i], Get(was, fields[i])) {
      if k != fields[i] { assert EditsDue(present, k, Get(was, k)) <= sent; }
    }
  }

  lemma OneMoreDone(fields: seq<string>, i: nat, present: map<Node, Fields>, primary: Node, was: Fields, before: Fields, had: Fields,
                    base: Fields, want: Fields)
    requires i < |fields| && fields[..i + 1] == fields[..i] + [fields[i]] && fields[i] !in fields[..i]
    requires forall k :: k in fields[..i] ==> FieldDone(present, primary, k, was, before, had)
    requires fields[i] in want && want == had[fields[i] := want[fields[i]]]
    requires base == before || base == before[fields[i] := want[fields[i]]]
    requires FieldDone(present, primary, fields[i], was, base, want)
    ensures forall k :: k in fields[..i + 1] ==> FieldDone(present, primary, k, was, base, want)
  {
    forall k | k in fields[..i] ensures FieldDone(present, primary, k, was, base, want) {
      assert Get(want, k) == Get(had, k) && Get(base, k) == Get(before, k);
      assert FieldDone(present, primary, k, was, before, had);
    }
  }

  /** The record on file is as it was, or as the run had it at some point while it made copies. */
  ghost predicate OnTheWay(was: Record, now: Record, from: map<Node, nat>, to: map<Node, nat>, base: Fields, deleted: bool) {
    now == was || (now.base == base && now.deleted == deleted && Submap(from, now.copies) && Submap(now.copies, to))
  }

  /** The copies that are there, as they are. */
  function PresentOf(snaps: Snaps, copies: map<Node, nat>, nodes: seq<Node>): map<Node, Fields> {
    map n | n in copies && n in nodes && There(snaps, copies, n) :: snaps[n][copies[n]]
  }

  ghost predicate TwoNew(present: map<Node, Fields>, k: string, was: string) {
    exists a, b :: a in present && b in present && Get(present[a], k) != was && Get(present[b], k) != was && Get(present[a], k) != Get(present[b], k)
  }

  /** The value a field comes to: the one new value, or the old one; where there are two, the primary's, or the old one if it has none. */
  ghost predicate Settles(present: map<Node, Fields>, primary: Node, k: string, was: string, value: string) {
    if TwoNew(present, k, was) then value == if primary in present then Get(present[primary], k) else was
    else if exists a :: a in present && Get(present[a], k) != was then exists a :: a in present && Get(present[a], k) != was && value == Get(present[a], k)
    else value == was
  }

  /** Where there is one new value, every copy that shows another is sent it; where there are two, none is. */
  ghost function EditsDue(present: map<Node, Fields>, k: string, was: string): set<(Node, string, string)> {
    if TwoNew(present, k, was) then {}
    else
      set n, m | n in present && m in present && Get(present[m], k) != was && Get(present[n], k) != Get(present[m], k) ::
        (n, k, Get(present[m], k))
  }

  /** A new copy has every field, at the value the field comes to. */
  ghost predicate MadeRightly(fields: seq<string>, present: map<Node, Fields>, primary: Node, base: Fields, f: Fields) {
    f.Keys == Elements(fields) && forall k :: k in fields ==> Settles(present, primary, k, Get(base, k), Get(f, k))
  }

  lemma ConflictIsTwoNew(present: map<Node, Fields>, k: string, was: string)
    ensures FieldMerge.Conflicting(Column(present, k), was) <==> TwoNew(present, k, was)
  {
    var vals := Column(present, k);
    if TwoNew(present, k, was) {
      var a, b :| a in present && b in present && Get(present[a], k) != was && Get(present[b], k) != was && Get(present[a], k) != Get(present[b], k);
      assert vals[a] != was && vals[b] != was && vals[a] != vals[b];
    }
  }

  lemma NoEdits(present: map<Node, Fields>, k: string, was: string)
    requires FieldMerge.Conflicting(Column(present, k), was)
    ensures EditsDue(present, k, was) == {}
  {
    ConflictIsTwoNew(present, k, was);
  }

  lemma EditsAreDue(present: map<Node, Fields>, k: string, was: string, value: string)
    requires !FieldMerge.Conflicting(Column(present, k), was) && FieldMerge.Wins(Column(present, k), was, value)
    ensures (set n | n in Listing(FieldMerge.Differing(Column(present, k), value)) :: (n, k, value)) == EditsDue(present, k, was)
  {
    ConflictIsTwoNew(present, k, was);
    var vals := Column(present, k);
    var list := Listing(FieldMerge.Differing(vals, value));
    var sent := set n | n in list :: (n, k, value);
    forall n ensures n in list <==> n in present && Get(present[n], k) != value {
      assert n in list <==> n in Elements(list);
    }
    forall e | e in EditsDue(present, k, was) ensures e in sent {
      var n, m :| n in present && m in present && Get(present[m], k) != was && Get(present[n], k) != Get(present[m], k) && e == (n, k, Get(present[m], k));
      assert vals[m] == value;
    }
    forall e | e in sent ensures e in EditsDue(present, k, was) {
      assert vals[e.0] != value;
      assert value != was;
      var m :| m in vals && vals[m] == value;
      assert e == (e.0, k, Get(present[m], k));
    }
  }

  lemma SettledAs(present: map<Node, Fields>, primary: Node, k: string, was: string, now: string, value: string)
    requires FieldMerged(Column(present, k), Lookup(present, primary), k, was, now, value)
    ensures Settles(present, primary, k, was, value)
  {
    ConflictIsTwoNew(present, k, was);
    var vals := Column(present, k);
    if !TwoNew(present, k, was) {
      if value != was { var a :| a in vals && vals[a] == value; assert Get(present[a], k) == value; }
      else { forall a | a in present ensures Get(present[a], k) == was { assert vals[a] == was; } }
    }
  }

  function Column(present: map<Node, Fields>, k: string): map<Node, string> {
    map n | n in present :: Get(present[n], k)
  }

  ghost predicate BaseMerged(present: map<Node, Fields>, primary: Node, k: string, was: string, now: string) {
    exists want :: FieldMerged(Column(present, k), Lookup(present, primary), k, was, now, want)
  }

  ghost predicate FieldMerged(vals: map<Node, string>, primary: Option<Fields>, k: string, was: string, now: string, want: string) {
    if FieldMerge.Conflicting(vals, was) then
      now == was && want == if primary.Some? then Get(primary.value, k) else was
    else FieldMerge.Wins(vals, was, now) && want == now
  }

  // ----- the sweep, on values -----

  datatype Sweep = Sweep(copies: map<Node, nat>, kept: set<Node>, removed: set<(Node, nat)>, asked: set<(Node, nat)>, complete: bool)

  /** What has become of a copy that was there before. */
  ghost predicate Purged(snaps: Snaps, base: Fields, fields: seq<string>, was: Sweep, now: Sweep, n: Node)
    requires n in was.copies
  {
    if !There(snaps, was.copies, n) then n !in now.copies
    else if !Unchanged(snaps, was.copies, base, fields, n) then n in now.copies && n in now.kept
    else (n, was.copies[n]) in now.asked && if n in now.copies then !now.complete else (n, was.copies[n]) in now.removed
  }

  /** A deletion this sweep made: of an unchanged copy, and not the primary's. */
  ghost predicate Due(snaps: Snaps, base: Fields, fields: seq<string>, primary: Node, was: Sweep, n: Node, fid: nat) {
    n != primary && n in was.copies && was.copies[n] == fid && Unchanged(snaps, was.copies, base, fields, n)
  }

  ghost predicate Swept(snaps: Snaps, base: Fields, fields: seq<string>, primary: Node, done: set<Node>, was: Sweep, now: Sweep) {
    && primary !in now.copies && Submap(now.copies, was.copies)
    && was.removed <= now.removed && was.asked <= now.asked && (now.complete ==> was.complete)
    && (forall n :: n in was.copies && n != primary ==> if n in done then Purged(snaps, base, fields, was, now, n) else n in now.copies)
    && (forall n, fid :: (n, fid) in now.removed && (n, fid) !in was.removed ==> Due(snaps, base, fields, primary, was, n, fid))
  }

  /** One more node gone through. */
  lemma SweptOne(snaps: Snaps, base: Fields, fields: seq<string>, primary: Node, done: set<Node>, was: Sweep,
                 before: Sweep, now: Sweep, n: Node)
    requires Swept(snaps, base, fields, primary, done, was, before)
    requires n !in before.copies ==> now == before
    requires n in before.copies ==>
      && (now.copies == before.copies || now.copies == before.copies - {n})
      && before.kept <= now.kept && before.asked <= now.asked && before.removed <= now.removed <= before.removed + {(n, before.copies[n])} && (now.complete ==> before.complete)
      && (!There(snaps, before.copies, n) ==> n !in now.copies && now.removed == before.removed)
      && (There(snaps, before.copies, n) && !Unchanged(snaps, before.copies, base, fields, n) ==>
            n in now.copies && n in now.kept && now.removed == before.removed)
      && (Unchanged(snaps, before.copies, base, fields, n) ==> (n, before.copies[n]) in now.asked)
      && (Unchanged(snaps, before.copies, base, fields, n) ==> if n in now.copies then !now.complete else (n, before.copies[n]) in now.removed)
    ensures Swept(snaps, base, fields, primary, done + {n}, was, now)
  {
    forall m | m in was.copies && m != primary ensures if m in done + {n} then Purged(snaps, base, fields, was, now, m) else m in now.copies {
      assert m in done ==> Purged(snaps, base, fields, was, before, m);
    }
    forall m, fid | (m, fid) in now.removed && (m, fid) !in was.removed ensures Due(snaps, base, fields, primary, was, m, fid) {
      if (m, fid) !in before.removed { assert m == n; }
    }
  }

  lemma DueBefore(snaps: Snaps, base: Fields, fields: seq<string>, primary: Node, was: map<Node, nat>, mid: Sweep,
                  now: Sweep, done: set<Node>)
    requires Submap(mid.copies, was) && Swept(snaps, base, fields, primary, done, mid, now)
    ensures forall n, fid :: (n, fid) in now.removed && (n, fid) !in mid.removed ==>
      n != primary && n in was && was[n] == fid && Unchanged(snaps, was, base, fields, n)
  {
    forall n, fid | (n, fid) in now.removed && (n, fid) !in mid.removed
      ensures n != primary && n in was && was[n] == fid && Unchanged(snaps, was, base, fields, n)
    {
      assert Due(snaps, base, fields, primary, mid, n, fid);
    }
  }

  // ----- whole lives of a record -----

  /** The record on file, and what was ever done with its copies, recorded or not. */
  datatype Life = Life(copies: map<Node, nat>, base: Fields, deleted: bool, removed: set<(Node, nat)>, created: nat)

  /** Something deleted on the primary: what has become of every other copy on the nodes read. */
  ghost predicate SweptAll(snaps: Snaps, fields: seq<string>, primary: Node, nodes: seq<Node>, r: Life, s: Life,
                           kept: set<Node>, asked: set<(Node, nat)>, complete: bool) {
    forall n :: n in r.copies && n != primary && n in nodes ==>
      if !There(snaps, r.copies, n) then n !in s.copies
      else if !Unchanged(snaps, r.copies, r.base, fields, n) then n in s.copies && n in kept
      else (n, r.copies[n]) in asked && if n in s.copies then !complete else (n, r.copies[n]) in s.removed
  }

  /**
   * What one run does: either something is deleted on the primary, and nothing is copied; or nothing
   * is deleted. The record may be left as it was all the same.
   */
  ghost predicate Synced(r: Life, s: Life, fields: seq<string>, nodes: seq<Node>, primary: Node, snaps: Snaps) {
    && r.removed <= s.removed && r.created <= s.created
    && if r.deleted || GoneFromPrimary(snaps, r.copies, nodes, primary) then
      && s.created == r.created && s.base == r.base && Submap(s.copies, r.copies)
      && ((s.deleted && primary !in s.copies) || (s.deleted == r.deleted && s.copies == r.copies))
      && forall n, fid :: (n, fid) in s.removed && (n, fid) !in r.removed ==>
        n != primary && n in r.copies && r.copies[n] == fid && Unchanged(snaps, r.copies, r.base, fields, n)
    else !s.deleted && s.removed == r.removed
  }

  datatype Step =
    | Runs(nodes: seq<Node>, primary: Node, snaps: Snaps)
    | Found(node: Node, fid: nat, primary: Node)     // the matching attaches a copy found on a node

  ghost predicate Steps(r: Life, s: Life, e: Step, fields: seq<string>) {
    match e
    case Runs(nodes, primary, snaps) => Synced(r, s, fields, nodes, primary, snaps)
    case Found(n, fid, primary) =>
      n !in r.copies && s == r.(copies := r.copies[n := fid], deleted := r.deleted && n != primary)
  }

  predicate Revives(e: Step) {
    e.Found? && e.node == e.primary
  }

  ghost predicate Behaviour(rs: seq<Life>, es: seq<Step>, fields: seq<string>) {
    && |rs| == |es| + 1 && !rs[0].deleted && rs[0].removed == {}
    && forall i :: 0 <= i < |es| ==> Steps(rs[i], rs[i + 1], es[i], fields)
  }

  /** The run in which the primary's copy was found gone. */
  predicate FoundGone(r: Life, e: Step) {
    e.Runs? && GoneFromPrimary(e.snaps, r.copies, e.nodes, e.primary)
  }

  /** A record marked deleted is marked because the primary's copy was gone, and was not found on the primary since. */
  lemma {:induction false} DeletedForAReason(rs: seq<Life>, es: seq<Step>, fields: seq<string>, k: nat) returns (j: nat)
    requires Behaviour(rs, es, fields) && k <= |es| && rs[k].deleted
    ensures j < k && FoundGone(rs[j], es[j]) && forall i :: j < i < k ==> !Revives(es[i])
  {
    assert Steps(rs[k - 1], rs[k], es[k - 1], fields);
    if FoundGone(rs[k - 1], es[k - 1]) {
      j := k - 1;
    } else {
      j := DeletedForAReason(rs, es, fields, k - 1);
    }
  }

  /**
   * A copy is deleted only when the primary's was gone, in this run or an earlier one with no
   * return to the primary since, and only a copy that shows the values last agreed.
   */
  lemma DeletionsAreDue(rs: seq<Life>, es: seq<Step>, fields: seq<string>, k: nat, n: Node, fid: nat) returns (j: nat)
    requires Behaviour(rs, es, fields) && k < |es| && (n, fid) in rs[k + 1].removed && (n, fid) !in rs[k].removed
    ensures j <= k && FoundGone(rs[j], es[j]) && forall i :: j < i <= k ==> !Revives(es[i])
    ensures
      es[k].Runs? && n != es[k].primary && n in rs[k].copies && rs[k].copies[n] == fid &&
      Unchanged(es[k].snaps, rs[k].copies, rs[k].base, fields, n)
    ensures n in es[k].snaps && fid in es[k].snaps[n] && forall f :: f in fields ==> Get(es[k].snaps[n][fid], f) == Get(rs[k].base, f)
    ensures
      var e := es[j];
      && e.Runs? && e.primary in e.nodes && e.primary in rs[j].copies
      && (e.primary in e.snaps ==> rs[j].copies[e.primary] !in e.snaps[e.primary])
  {
    assert Steps(rs[k], rs[k + 1], es[k], fields);
    if FoundGone(rs[k], es[k]) {
      j := k;
    } else {
      j := DeletedForAReason(rs, es, fields, k);
    }
  }

  /** A record marked deleted is copied nowhere, until it is found again on the primary. */
  lemma {:induction false} DeletedIsNotCopied(rs: seq<Life>, es: seq<Step>, fields: seq<string>, i: nat, k: nat)
    requires Behaviour(rs, es, fields) && i <= k <= |es| && rs[i].deleted
    requires forall j :: i <= j < k ==> !Revives(es[j])
    ensures rs[k].deleted && rs[k].created == rs[i].created
    decreases k - i
  {
    if i < k {
      DeletedIsNotCopied(rs, es, fields, i, k - 1);
      assert Steps(rs[k - 1], rs[k], es[k - 1], fields);
    }
  }
}
