/**
 * Strings as the program handles them: the order of sort.Strings, the sorted listing of a
 * set of strings, and strings.Join / strings.Split on one separator.
 */
module Text {

  /** A node, by name. */
  type Node = string

  /** Go's string order: bytewise, a prefix before what it is a prefix of. */
  predicate AtMost(a: string, b: string) {
    a == "" || (b != "" && (a[0] < b[0] || (a[0] == b[0] && AtMost(a[1..], b[1..]))))
  }

  lemma {:induction false} AtMostTotal(a: string, b: string)
    ensures AtMost(a, b) || AtMost(b, a)
  {
    if a != "" && b != "" && a[0] == b[0] {
      AtMostTotal(a[1..], b[1..]);
    }
  }

  lemma {:induction false} AtMostAntisymmetric(a: string, b: string)
    requires AtMost(a, b) && AtMost(b, a)
    ensures a == b
  {
    if a != "" && b != "" {
      AtMostAntisymmetric(a[1..], b[1..]);
      assert a == [a[0]] + a[1..] && b == [b[0]] + b[1..];
    }
  }

  lemma {:induction false} AtMostTransitive(a: string, b: string, c: string)
    requires AtMost(a, b) && AtMost(b, c)
    ensures AtMost(a, c)
  {
    if a != "" && a[0] == b[0] && b[0] == c[0] {
      AtMostTransitive(a[1..], b[1..], c[1..]);
    }
  }

  /** In order, equal strings allowed. */
  ghost predicate Sorted(s: seq<string>) {
    forall i, j :: 0 <= i < j < |s| ==> AtMost(s[i], s[j])
  }

  ghost predicate Distinct<T>(s: seq<T>) {
    forall i, j :: 0 <= i < j < |s| ==> s[i] != s[j]
  }

  ghost function Elements<T>(s: seq<T>): (r: set<T>) {
    set x | x in s
  }

  /** Puts one string in its place: the step of the sort below. */
  function Insert(x: string, s: seq<string>): seq<string> {
    if s == [] || AtMost(x, s[0]) then [x] + s else [s[0]] + Insert(x, s[1..])
  }

  /** The library's sort.Strings. */
  function Sort(s: seq<string>): seq<string> {
    if s == [] then [] else Insert(s[0], Sort(s[1..]))
  }

  lemma {:induction false} InsertKeeps(x: string, s: seq<string>)
    ensures multiset(Insert(x, s)) == multiset(s) + multiset{x}
  {
    if s != [] {
      assert s == [s[0]] + s[1..];
      if !AtMost(x, s[0]) {
        InsertKeeps(x, s[1..]);
      }
    }
  }

  lemma SameElements<T>(a: seq<T>, b: seq<T>)
    requires multiset(a) == multiset(b)
    ensures forall x :: x in a <==> x in b
  {
    forall x ensures x in a <==> x in b {
      assert x in multiset(a) <==> x in a;
      assert x in multiset(b) <==> x in b;
    }
  }

  lemma {:induction false} InsertSorted(x: string, s: seq<string>)
    requires Sorted(s)
    ensures Sorted(Insert(x, s))
  {
    if s == [] {
    } else if AtMost(x, s[0]) {
      forall j | 0 <= j < |s| ensures AtMost(x, s[j]) {
        if j > 0 { AtMostTransitive(x, s[0], s[j]); }
      }
    } else {
      AtMostTotal(x, s[0]);
      InsertSorted(x, s[1..]);
      InsertKeeps(x, s[1..]);
      var t := Insert(x, s[1..]);
      forall j | 0 <= j < |t| ensures AtMost(s[0], t[j]) {
        assert t[j] in multiset(t);
        assert t[j] == x || t[j] in s[1..];
      }
    }
  }

  /** What the sort is for: the same strings, in order. */
  lemma {:induction false} SortSorts(s: seq<string>)
    ensures Sorted(Sort(s)) && multiset(Sort(s)) == multiset(s)
  {
    if s != [] {
      assert s == [s[0]] + s[1..];
      SortSorts(s[1..]);
      InsertSorted(s[0], Sort(s[1..]));
      InsertKeeps(s[0], Sort(s[1..]));
    }
  }

  lemma FirstIsLeast(s: seq<string>, x: string)
    requires Sorted(s) && x in s
    ensures AtMost(s[0], x)
  {
    AtMostTotal(x, x);
  }

  lemma TailMultiset(s: seq<string>)
    requires s != []
    ensures multiset(s[1..]) == multiset(s) - multiset{s[0]}
  {
    assert s == [s[0]] + s[1..];
  }

  /** A sorted list is settled by what is in it. */
  lemma {:induction false} SortedUnique(a: seq<string>, b: seq<string>)
    requires Sorted(a) && Sorted(b) && multiset(a) == multiset(b)
    ensures a == b
  {
    assert |a| == |multiset(a)| == |multiset(b)| == |b|;
    if a != [] {
      SameElements(a, b);
      FirstIsLeast(a, b[0]);
      FirstIsLeast(b, a[0]);
      AtMostAntisymmetric(a[0], b[0]);
      TailMultiset(a);
      TailMultiset(b);
      SortedUnique(a[1..], b[1..]);
      assert a == [a[0]] + a[1..] && b == [b[0]] + b[1..];
    }
  }

  lemma DistinctMultiset<T>(s: seq<T>)
    requires Distinct(s)
    ensures multiset(s) == multiset(Elements(s))
  {
    if s != [] {
      var front, last := s[..|s| - 1], s[|s| - 1];
      assert s == front + [last];
      DistinctMultiset(front);
      assert Elements(s) == Elements(front) + {last};
      assert last !in front;
    }
  }

  /** A sorted list without duplicates is settled by its set of elements. */
  lemma SortedSetUnique(a: seq<string>, b: seq<string>)
    requires Sorted(a) && Distinct(a) && Sorted(b) && Distinct(b) && Elements(a) == Elements(b)
    ensures a == b
  {
    DistinctMultiset(a);
    DistinctMultiset(b);
    SortedUnique(a, b);
  }

  lemma OncePlaced<T>(s: seq<T>, i: nat, j: nat)
    requires i < j < |s| && multiset(s)[s[i]] <= 1
    ensures s[i] != s[j]
  {
    assert s == s[..j] + [s[j]] + s[j + 1..];
    assert s[i] == s[..j][i] && s[i] in s[..j];
    assert s[i] in multiset(s[..j]);
  }

  lemma DistinctPermuted<T>(a: seq<T>, b: seq<T>)
    requires Distinct(a) && multiset(a) == multiset(b)
    ensures Distinct(b) && Elements(a) == Elements(b)
  {
    DistinctMultiset(a);
    SameElements(a, b);
    forall i, j | 0 <= i < j < |b| ensures b[i] != b[j] {
      OncePlaced(b, i, j);
    }
  }

  ghost function KeysOf<T>(s: seq<T>, key: T -> string): (keys: seq<string>)
    ensures |keys| == |s| && forall i :: 0 <= i < |s| ==> keys[i] == key(s[i])
  {
    seq(|s|, i requires 0 <= i < |s| => key(s[i]))
  }

  function Without<T>(s: seq<T>, j: nat): seq<T>
    requires j < |s|
  {
    s[..j] + s[j + 1..]
  }

  lemma TakeOut<T>(s: seq<T>, j: nat)
    requires j < |s|
    ensures multiset(s) == multiset(Without(s, j)) + multiset{s[j]}
  {
    assert s == s[..j] + [s[j]] + s[j + 1..];
  }

  lemma KeysTakeOut<T>(s: seq<T>, j: nat, key: T -> string)
    requires j < |s|
    ensures multiset(KeysOf(s, key)) == multiset(KeysOf(Without(s, j), key)) + multiset{key(s[j])}
  {
    TakeOut(KeysOf(s, key), j);
    assert KeysOf(Without(s, j), key) == Without(KeysOf(s, key), j);
  }

  lemma {:induction false} KeysPermuted<T>(a: seq<T>, b: seq<T>, key: T -> string)
    requires multiset(a) == multiset(b)
    ensures multiset(KeysOf(a, key)) == multiset(KeysOf(b, key))
    decreases |a|
  {
    assert |a| == |multiset(a)| == |multiset(b)| == |b|;
    if a != [] {
      assert a[0] in multiset(b);
      var j :| 0 <= j < |b| && b[j] == a[0];
      TakeOut(a, 0);
      TakeOut(b, j);
      assert multiset(Without(a, 0)) == multiset(a) - multiset{a[0]} == multiset(Without(b, j));
      KeysPermuted(Without(a, 0), Without(b, j), key);
      KeysTakeOut(a, 0, key);
      KeysTakeOut(b, j, key);
    }
  }

  /** In key order, one entry a key. */
  ghost predicate InOrder<T>(s: seq<T>, key: T -> string) {
    Sorted(KeysOf(s, key)) && Distinct(KeysOf(s, key))
  }

  lemma AppendInOrder<T>(s: seq<T>, x: T, key: T -> string)
    requires InOrder(s, key) && forall y :: y in s ==> AtMost(key(y), key(x)) && key(y) != key(x)
    ensures InOrder(s + [x], key)
  {
    var ks, all := KeysOf(s, key), KeysOf(s + [x], key);
    assert all == ks + [key(x)];
    forall i | 0 <= i < |ks| ensures AtMost(ks[i], key(x)) && ks[i] != key(x) {
      assert s[i] in s;
    }
  }

  lemma KeyOfMember<T>(s: seq<T>, key: T -> string, x: T)
    requires x in s
    ensures key(x) in KeysOf(s, key)
  {
    var i :| 0 <= i < |s| && s[i] == x;
    assert KeysOf(s, key)[i] == key(x);
  }

  lemma MemberOfKey<T>(s: seq<T>, key: T -> string, k: string) returns (x: T)
    requires k in KeysOf(s, key)
    ensures x in s && key(x) == k
  {
    var i :| 0 <= i < |s| && KeysOf(s, key)[i] == k;
    x := s[i];
  }

  /** Two lists in key order that hold the same entries are the same list. */
  lemma SameInOrder<T(!new)>(a: seq<T>, b: seq<T>, key: T -> string)
    requires InOrder(a, key) && InOrder(b, key)
    requires forall x :: x in a <==> x in b
    ensures a == b
  {
    var ka, kb := KeysOf(a, key), KeysOf(b, key);
    forall k ensures k in Elements(ka) <==> k in Elements(kb) {
      if k in ka { var x := MemberOfKey(a, key, k); KeyOfMember(b, key, x); }
      if k in kb { var x := MemberOfKey(b, key, k); KeyOfMember(a, key, x); }
    }
    SortedSetUnique(ka, kb);
    forall i | 0 <= i < |a| ensures a[i] == b[i] {
      assert a[i] in b;
      var j :| 0 <= j < |b| && b[j] == a[i];
      assert kb[j] == ka[i] == kb[i];
    }
  }

  /** The members of a set in sorted order, each once. */
  ghost predicate Lists(s: seq<string>, members: set<string>) {
    Sorted(s) && Distinct(s) && Elements(s) == members
  }

  ghost function Listing(members: set<string>): (s: seq<string>)
    ensures Lists(s, members)
  {
    ListingExists(members);
    var s :| Lists(s, members);
    s
  }

  lemma {:induction false} ListingExists(members: set<string>)
    ensures exists s :: Lists(s, members)
  {
    if members == {} {
      assert Lists([], {});
    } else {
      var x :| x in members;
      ListingExists(members - {x});
      var rest :| Lists(rest, members - {x});
      var s := Insert(x, rest);
      InsertSorted(x, rest);
      InsertKeeps(x, rest);
      assert x !in Elements(rest);
      assert Distinct([x] + rest);
      assert multiset([x] + rest) == multiset(s);
      DistinctPermuted([x] + rest, s);
      assert Elements([x] + rest) == {x} + Elements(rest) == members;
      assert Lists(s, members);
    }
  }

  lemma ListingUnique(s: seq<string>, members: set<string>)
    requires Lists(s, members)
    ensures s == Listing(members)
  {
    SortedSetUnique(s, Listing(members));
  }

  /** Ranging over a Go map and sorting what was collected: the range visits the keys in any order. */
  method SortedList(members: set<string>) returns (out: seq<string>)
    ensures out == Listing(members)
  {
    out := [];
    var left := members;
    while left != {}
      invariant left <= members && Elements(out) == members - left && Distinct(out)
      decreases left
    {
      var k :| k in left;
      assert k !in Elements(out);
      assert Elements(out + [k]) == Elements(out) + {k};
      out := out + [k];
      left := left - {k};
    }
    SortSorts(out);
    DistinctPermuted(out, Sort(out));
    out := Sort(out);
    ListingUnique(out, members);
  }

  /** strings.Join with a one-character separator. */
  function Join(parts: seq<string>, sep: char): string {
    if parts == [] then "" else if |parts| == 1 then parts[0] else parts[0] + [sep] + Join(parts[1..], sep)
  }

  /** strings.Split with a one-character separator: never empty. */
  function Split(s: string, sep: char): (parts: seq<string>)
    ensures |parts| >= 1
    ensures forall p :: p in parts ==> sep !in p
  {
    if s == "" then [""]
    else
      var rest := Split(s[1..], sep);
      if s[0] == sep then [""] + rest else [[s[0]] + rest[0]] + rest[1..]
  }

  lemma {:induction false} SplitOne(p: string, sep: char)
    requires sep !in p
    ensures Split(p, sep) == [p]
  {
    if p != "" {
      assert forall c :: c in p[1..] ==> c in p;
      SplitOne(p[1..], sep);
      assert p == [p[0]] + p[1..];
    }
  }

  lemma {:induction false} SplitAppend(p: string, rest: string, sep: char)
    requires sep !in p
    ensures Split(p + [sep] + rest, sep) == [p] + Split(rest, sep)
  {
    var s := p + [sep] + rest;
    if p == "" {
      assert s[1..] == rest;
    } else {
      assert forall c :: c in p[1..] ==> c in p;
      SplitAppend(p[1..], rest, sep);
      assert s[1..] == p[1..] + [sep] + rest;
      assert p == [p[0]] + p[1..];
    }
  }

  /** Splitting undoes joining, whenever no part holds the separator. */
  lemma {:induction false} SplitJoin(parts: seq<string>, sep: char)
    requires parts != [] && forall p :: p in parts ==> sep !in p
    ensures Split(Join(parts, sep), sep) == parts
  {
    if |parts| == 1 {
      SplitOne(parts[0], sep);
    } else {
      assert parts == [parts[0]] + parts[1..];
      SplitJoin(parts[1..], sep);
      SplitAppend(parts[0], Join(parts[1..], sep), sep);
    }
  }
}
