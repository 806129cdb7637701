/**
 * Fields that hold one value: which rounds leave all nodes and the base agreed, and what becomes of
 * an edit when a write fails.
 */
module FieldMerge {
  import opened Text

  type Values = map<Node, string>

  /** Two different new values. */
  ghost predicate Conflicting(vals: Values, base: string) {
    exists a, b :: a in vals && b in vals && vals[a] != base && vals[b] != base && vals[a] != vals[b]
  }

  /** The outcome of a merge without conflict: the only value that differs from the base, or else the base. */
  ghost predicate Wins(vals: Values, base: string, value: string) {
    if value == base then forall n :: n in vals ==> vals[n] == base
    else (exists n :: n in vals && vals[n] == value) && forall n :: n in vals ==> vals[n] == base || vals[n] == value
  }

  function Differing(vals: Values, value: string): set<Node> {
    set n | n in vals && vals[n] != value
  }

  lemma WinnerUnique(vals: Values, base: string, a: string, b: string)
    requires Wins(vals, base, a) && Wins(vals, base, b)
    ensures a == b && !Conflicting(vals, base)
  {
  }

  /** The merge of one field: whatever order the maps are gone through in, the outcome is the one Wins or Conflicting names. */
  method Merge(vals: Values, base: string) returns (value: string, writes: seq<Node>, conflict: bool)
    ensures conflict <==> Conflicting(vals, base)
    ensures !conflict ==> Wins(vals, base, value) && writes == Listing(Differing(vals, value))
    ensures conflict ==> value == "" && writes == []
  {
    var changed: set<string> := {};
    var left := vals.Keys;
    while left != {}
      invariant left <= vals.Keys
      invariant forall v :: v in changed <==> v != base && exists n :: n in vals && n !in left && vals[n] == v
      decreases left
    {
      var n :| n in left;
      if vals[n] != base { changed := changed + {vals[n]}; }
      left := left - {n};
    }
    if |changed| == 0 {
      NoneDiffers(vals, base, changed);
      return base, [], false;
    }
    if |changed| == 1 {
      value :| value in changed;
      TheOne(vals, base, changed, value);
      var differing: set<Node> := {};
      left := vals.Keys;
      while left != {}
        invariant left <= vals.Keys
        invariant differing == set n | n in vals && n !in left && vals[n] != value
        decreases left
      {
        var n :| n in left;
        if vals[n] != value { differing := differing + {n}; }
        left := left - {n};
      }
      assert differing == Differing(vals, value);
      writes := SortedList(differing);
      return value, writes, false;
    }
    TwoDiffer(vals, base, changed);
    return "", [], true;
  }

  lemma NoneDiffers(vals: Values, base: string, changed: set<string>)
    requires forall v :: v in changed <==> v != base && exists n :: n in vals && vals[n] == v
    requires changed == {}
    ensures Wins(vals, base, base) && !Conflicting(vals, base) && [] == Listing(Differing(vals, base))
  {
    forall n | n in vals ensures vals[n] == base {
      assert vals[n] !in changed;
    }
    assert Differing(vals, base) == {};
    assert Lists([], {});
    ListingUnique([], {});
  }

  lemma TheOne(vals: Values, base: string, changed: set<string>, value: string)
    requires forall v :: v in changed <==> v != base && exists n :: n in vals && vals[n] == v
    requires |changed| == 1 && value in changed
    ensures Wins(vals, base, value) && !Conflicting(vals, base)
  {
    assert |changed - {value}| == 0;
    assert changed == {value};
    forall n | n in vals && vals[n] != base ensures vals[n] == value {
      assert vals[n] in changed;
    }
  }

  lemma TwoDiffer(vals: Values, base: string, changed: set<string>)
    requires forall v :: v in changed <==> v != base && exists n :: n in vals && vals[n] == v
    requires |changed| >= 2
    ensures Conflicting(vals, base)
  {
    var v :| v in changed;
    assert |changed - {v}| >= 1;
    var w :| w in changed - {v};
    var a :| a in vals && vals[a] == v;
    var b :| b in vals && vals[b] == w;
  }

  // ----- one round over one field -----

  /** The values compared: not those of a node left alone, nor of one whose value is nobody's decision. */
  function Compared(at: Values, kept: set<Node>, skipped: set<Node>): Values {
    map n | n in at && n !in kept && n !in skipped :: at[n]
  }

  /** Written everywhere it is to be written and the write took effect. */
  function Written(at: Values, value: string, kept: set<Node>, landed: set<Node>): Values {
    map n | n in at :: if n in landed && n !in kept then value else at[n]
  }

  ghost predicate Stuck(vals: Values, base: string, refused: set<string>) {
    Conflicting(vals, base) || base in refused || exists value :: value in refused && Wins(vals, base, value)
  }

  /** What a round does: nothing at all when it is stuck, and otherwise the winner wherever the write took effect, and as the base. */
  ghost predicate Round(at: Values, base: string, at': Values, base': string, kept: set<Node>, skipped: set<Node>,
                        refused: set<string>, landed: set<Node>) {
    var vals := Compared(at, kept, skipped);
    if Stuck(vals, base, refused) then at' == at && base' == base
    else Wins(vals, base, base') && at' == Written(at, base', kept, landed)
  }

  /** A node that is compared: neither left alone nor only to catch up. */
  predicate Votes(at: Values, kept: set<Node>, skipped: set<Node>, n: Node) {
    n in at && n !in kept && n !in skipped
  }

  /** A node with the one new value among those compared. */
  ghost predicate OnlyNew(at: Values, base: string, kept: set<Node>, skipped: set<Node>, a: Node) {
    Votes(at, kept, skipped, a) && at[a] != base && forall b :: Votes(at, kept, skipped, b) ==> at[b] == base || at[b] == at[a]
  }

  /**
   * A round, node by node. Where every compared value is the base or one other, and neither that one
   * nor the base is refused, it becomes the base, and a node not left alone has it wherever the write
   * took effect; where two differ, or one is refused, nothing changes anywhere.
   */
  ghost predicate DecidedByVotes(at: Values, base: string, at': Values, base': string, kept: set<Node>, skipped: set<Node>,
                                 refused: set<string>, landed: set<Node>) {
    && at'.Keys == at.Keys
    && (forall a, b :: Votes(at, kept, skipped, a) && Votes(at, kept, skipped, b) && at[a] != base && at[b] != base && at[a] != at[b] ==>
          at' == at && base' == base)
    && (base in refused ==> at' == at && base' == base)
    && (forall a :: OnlyNew(at, base, kept, skipped, a) ==>
          if base in refused || at[a] in refused then at' == at && base' == base else base' == at[a])
    && ((forall a :: Votes(at, kept, skipped, a) ==> at[a] == base) ==> base' == base)
    && (forall n :: n in at ==> at'[n] == at[n] || (at'[n] == base' && n in landed && n !in kept))
    && ((forall a :: Votes(at, kept, skipped, a) ==> at[a] == base) && base !in refused ==>
          forall n :: n in at && n in landed && n !in kept ==> at'[n] == base')
    && (base' != base ==> forall n :: n in at && n in landed && n !in kept ==> at'[n] == base')
  }

  lemma VotesDecide(at: Values, base: string, at': Values, base': string, kept: set<Node>, skipped: set<Node>, refused: set<string>,
                    landed: set<Node>)
    requires Round(at, base, at', base', kept, skipped, refused, landed)
    ensures DecidedByVotes(at, base, at', base', kept, skipped, refused, landed)
  {
    var vals := Compared(at, kept, skipped);
    assert forall n :: Votes(at, kept, skipped, n) <==> n in vals;
    forall a | OnlyNew(at, base, kept, skipped, a)
      ensures if base in refused || at[a] in refused then at' == at && base' == base else base' == at[a]
    {
      assert vals[a] == at[a] && Wins(vals, base, at[a]);
      if at[a] !in refused && base !in refused {
        forall v | v in refused && Wins(vals, base, v) ensures false { WinnerUnique(vals, base, v, at[a]); }
        assert !Stuck(vals, base, refused);
        WinnerUnique(vals, base, base', at[a]);
      }
    }
    forall a, b | Votes(at, kept, skipped, a) && Votes(at, kept, skipped, b) && at[a] != base && at[b] != base && at[a] != at[b]
      ensures at' == at && base' == base
    {
      assert vals[a] == at[a] && vals[b] == at[b] && Conflicting(vals, base);
    }
    if forall a :: Votes(at, kept, skipped, a) ==> at[a] == base {
      assert Wins(vals, base, base);
      if !Stuck(vals, base, refused) { WinnerUnique(vals, base, base', base); }
      if base !in refused && Stuck(vals, base, refused) {
        if v :| v in refused && Wins(vals, base, v) { WinnerUnique(vals, base, v, base); }
      }
    }
  }

  lemma WrittenMore(at: Values, value: string, landed: set<Node>, n: Node)
    requires n in at
    ensures Written(at, value, {}, landed)[n := value] == Written(at, value, {}, landed + {n})
  {
  }

  class Field {
    var at: Values
    var base: string
    var complete: bool
    ghost var asked: set<(Node, string)>  // the nodes that were sent a value

    constructor (at: Values, base: string)
      ensures this.at == at && this.base == base && complete && asked == {}
    {
      this.at, this.base, complete, asked := at, base, true, {};
    }

    /** One write; a failed one may have taken effect. */
    method WriteOne(n: Node, value: string) returns (ghost landed: bool)
      requires n in at
      modifies this`at, this`complete, this`asked
      ensures asked == old(asked) + {(n, value)}
      ensures at == if landed then old(at)[n := value] else old(at)
      ensures complete ==> old(complete) && landed
    {
      landed := false;
      asked := asked + {(n, value)};
      if * {
        if * {
          at := at[n := value];
          landed := true;
        }
        complete := false;
      } else {
        at := at[n := value];
        landed := true;
      }
    }

    /** The writes, in order; a failed one does not stop the others. */
    method Write(writes: seq<Node>, value: string) returns (ghost landed: set<Node>)
      requires forall n :: n in writes ==> n in at
      modifies this`at, this`complete, this`asked
      ensures asked == old(asked) + Asks(writes, value)
      ensures landed <= Elements(writes) && at == Written(old(at), value, {}, landed)
      ensures complete ==> old(complete) && landed == Elements(writes)
    {
      landed := {};
      ghost var was := at;
      assert at == Written(was, value, {}, {});
      for i := 0 to |writes|
        invariant landed <= Elements(writes[..i]) && at == Written(was, value, {}, landed)
        invariant asked == old(asked) + Asks(writes[..i], value)
        invariant complete ==> old(complete) && landed == Elements(writes[..i])
      {
        WrittenMore(was, value, landed, writes[i]);
        AsksMore(writes, i, value);
        ghost var l := WriteOne(writes[i], value);
        if l { landed := landed + {writes[i]}; }
      }
      assert writes[..|writes|] == writes;
    }

    /** One field of one issue; want is what a new copy is to be made with. */
    method Sync(kept: set<Node>, skipped: set<Node>, refused: set<string>, primary: Node) returns (want: string,
                ghost landed: set<Node>)
      modifies this
      ensures Round(old(at), old(base), at, base, kept, skipped, refused, landed)
      ensures DecidedByVotes(old(at), old(base), at, base, kept, skipped, refused, landed)
      ensures forall n :: n in landed ==> n in old(at) && n !in kept && old(at)[n] != base
      ensures Stuck(Compared(old(at), kept, skipped), old(base), refused) ==> asked == old(asked)
      ensures !Stuck(Compared(old(at), kept, skipped), old(base), refused) ==> asked == old(asked) + Due(old(at), kept, base)
      ensures complete ==>
        old(complete) && (Stuck(Compared(old(at), kept, skipped), old(base), refused) || landed == Differing(old(at), base) - kept)
      ensures Stuck(Compared(old(at), kept, skipped), old(base), refused) ==> want == if primary in at then at[primary] else base
      ensures !Stuck(Compared(old(at), kept, skipped), old(base), refused) ==> want == base
    {
      var vals := Compared(at, kept, skipped);
      var stuck := base in refused;
      var value, writes, conflict := Merge(vals, base);
      landed := {};
      StuckIs(vals, base, refused, conflict, value);
      if conflict || stuck || value in refused {
        want := if primary in at then at[primary] else base;
        VotesDecide(at, base, at, base, kept, skipped, refused, landed);
        return;
      }
      want := value;
      writes := SortedList(Differing(vals, value) + set n | n in at && n in skipped && n !in kept && at[n] != value);
      ghost var was, wasBase := at, base;
      AllWrites(at, kept, skipped, value, writes);
      AskedIsDue(at, kept, value, writes);
      landed := Write(writes, value);
      base := value;
      RoundDone(was, wasBase, at, value, kept, skipped, refused, landed);
      VotesDecide(was, wasBase, at, base, kept, skipped, refused, landed);
    }
  }

  /** Who is to be sent the value: every node that shows another and is not left alone. */
  ghost function Due(at: Values, kept: set<Node>, value: string): set<(Node, string)> {
    set n | n in at && n !in kept && at[n] != value :: (n, value)
  }

  ghost function Asks(writes: seq<Node>, value: string): set<(Node, string)> {
    set n | n in writes :: (n, value)
  }

  lemma AsksMore(writes: seq<Node>, i: nat, value: string)
    requires i < |writes|
    ensures Asks(writes[..i + 1], value) == Asks(writes[..i], value) + {(writes[i], value)}
    ensures Elements(writes[..i + 1]) == Elements(writes[..i]) + {writes[i]}
  {
    assert writes[..i + 1] == writes[..i] + [writes[i]];
  }

  lemma AskedIsDue(at: Values, kept: set<Node>, value: string, writes: seq<Node>)
    requires Elements(writes) == Differing(at, value) - kept
    ensures Asks(writes, value) == Due(at, kept, value)
  {
    assert forall n :: n in writes <==> n in Elements(writes);
  }

  lemma StuckIs(vals: Values, base: string, refused: set<string>, conflict: bool, value: string)
    requires conflict <==> Conflicting(vals, base)
    requires !conflict ==> Wins(vals, base, value)
    ensures Stuck(vals, base, refused) <==> conflict || base in refused || value in refused
  {
    if !conflict && exists v :: v in refused && Wins(vals, base, v) {
      var v :| v in refused && Wins(vals, base, v);
      WinnerUnique(vals, base, v, value);
    }
  }

  lemma AllWrites(at: Values, kept: set<Node>, skipped: set<Node>, value: string, writes: seq<Node>)
    requires writes == Listing(Differing(Compared(at, kept, skipped), value) + set n | n in at && n in skipped && n !in kept && at[n] != value)
    ensures Elements(writes) == Differing(at, value) - kept
    ensures forall n :: n in writes ==> n in at
  {
    forall n ensures n in Elements(writes) <==> n in at && n !in kept && at[n] != value {}
    forall n | n in writes ensures n in at { assert n in Elements(writes); }
  }

  lemma RoundDone(was: Values, wasBase: string, at: Values, value: string, kept: set<Node>, skipped: set<Node>,
                  refused: set<string>, landed: set<Node>)
    requires !Stuck(Compared(was, kept, skipped), wasBase, refused) && Wins(Compared(was, kept, skipped), wasBase, value)
    requires landed <= Differing(was, value) - kept && at == Written(was, value, {}, landed)
    ensures Round(was, wasBase, at, value, kept, skipped, refused, landed)
  {
    assert Written(was, value, {}, landed) == Written(was, value, kept, landed);
  }

  // ----- the field as one register shared by all nodes -----

  ghost predicate AllAt(at: Values, value: string) {
    forall n :: n in at ==> at[n] == value
  }

  /** Every copy takes part, any value can be held anywhere, and every write succeeds. */
  ghost predicate FullRound(at: Values, base: string, at': Values, base': string) {
    exists landed :: Round(at, base, at', base', {}, {}, {}, landed) && (Conflicting(at, base) || landed == Differing(at, base'))
  }

  lemma AllCompared(at: Values)
    ensures Compared(at, {}, {}) == at
  {
  }

  /**
   * A full round leaves every node and the base at one value exactly when at most one new value was
   * introduced; otherwise it changes nothing.
   */
  lemma SharedRegister(at: Values, base: string, at': Values, base': string)
    requires FullRound(at, base, at', base')
    ensures AllAt(at', base') <==> !Conflicting(at, base)
    ensures Conflicting(at, base) ==> at' == at && base' == base
    ensures !Conflicting(at, base) ==> base' == base || exists n :: n in at && at[n] == base'
  {
    AllCompared(at);
  }

  /** One person's new value, however many nodes it was put on, is what everyone has afterwards. */
  lemma OneEditWins(at: Values, base: string, edit: string, at': Values, base': string)
    requires FullRound(at, base, at', base') && base != edit
    requires (forall n :: n in at ==> at[n] == base || at[n] == edit) && exists n :: n in at && at[n] == edit
    ensures AllAt(at', edit) && base' == edit
  {
    AllCompared(at);
  }

  /** Where all agree with the base, the next round is empty: the outcome is the same and nothing is written. */
  lemma AgreementIsQuiet(at: Values, base: string, kept: set<Node>, skipped: set<Node>, refused: set<string>,
                         at': Values, base': string, landed: set<Node>)
    requires AllAt(at, base) && Round(at, base, at', base', kept, skipped, refused, landed)
    ensures at' == at && base' == base && Differing(at, base) == {}
  {
    var vals := Compared(at, kept, skipped);
    if !Stuck(vals, base, refused) {
      WinnerUnique(vals, base, base, base');
      assert Written(at, base, kept, landed) == at;
    }
  }

  /**
   * The base moves even where a write failed or a copy took no part, and then the value left behind
   * is the only new one: the next full round takes the edit back everywhere. It keeps the edit
   * exactly when every node that was behind was written.
   */
  lemma MissedWriteUndoesTheEdit(at: Values, base: string, edit: string, out: set<Node>, landed: set<Node>,
                                 at1: Values, base1: string, at2: Values, base2: string)
    requires base != edit && forall n :: n in at ==> at[n] == base || at[n] == edit
    requires exists n :: n in at && n !in out && at[n] == edit
    requires Round(at, base, at1, base1, out, {}, {}, landed) && FullRound(at1, base1, at2, base2)
    ensures base1 == edit
    ensures
      var missed := exists n :: n in at && at[n] == base && (n in out || n !in landed);
      if missed then AllAt(at2, base) && base2 == base else AllAt(at2, edit) && base2 == edit
  {
    var vals := Compared(at, out, {});
    assert Wins(vals, base, edit) by {
      var n :| n in at && n !in out && at[n] == edit;
      assert vals[n] == edit;
    }
    assert !Stuck(vals, base, {});
    WinnerUnique(vals, base, base1, edit);
    AllCompared(at1);
    if exists n :: n in at && at[n] == base && (n in out || n !in landed) {
      var n :| n in at && at[n] == base && (n in out || n !in landed);
      assert at1[n] == base;
      assert Wins(at1, edit, base);
      WinnerUnique(at1, edit, base2, base);
    } else {
      assert AllAt(at1, edit);
      assert Wins(at1, edit, edit);
      WinnerUnique(at1, edit, base2, edit);
    }
  }
}
