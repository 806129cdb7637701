/**
 * Which nodes a controller runs with, and the fingerprint by which it notices that they changed and
 * restarts. The two hashes and the node key are parameters.
 */
module NodeSet {
  import opened Optional
  import opened Text
  import Decimal

  datatype Node = Node(name: string, url: string, site: string, serviceUser: string, sourceId: int, token: string, fromDatabase: bool)

  /** One node of the config file. */
  datatype Config = Config(name: string, url: string, site: string, serviceUser: string, sourceId: int, token: string)

  /** One row of the database; an empty sealed token is none. */
  datatype Record = Record(name: string, url: string, site: string, serviceUser: string, sourceId: int, sealedToken: string)

  datatype Result<+T> = Ok(value: T) | SealedWithoutKey(name: string) | CannotOpen(name: string) | NoToken(name: string) | StoreFailed

  /** What a key opens; None is a controller without one. */
  type Key = Option<map<string, string>>

  datatype Hash = Hash(ofToken: string -> string, whole: string -> string)

  function ConfigNode(c: Config): Node {
    Node(c.name, c.url, c.site, c.serviceUser, c.sourceId, c.token, false)
  }

  /** The config file by name: the last entry of a name counts. */
  function ByName(configured: seq<Config>): map<string, Config> {
    if configured == [] then map[]
    else ByName(configured[..|configured| - 1])[configured[|configured| - 1].name := configured[|configured| - 1]]
  }

  function FromRecord(rec: Record, byName: map<string, Config>, key: Key): Result<Node> {
    if rec.sealedToken != "" then
      if key.None? then SealedWithoutKey(rec.name)
      else if rec.sealedToken !in key.value then CannotOpen(rec.name)
      else Ok(Node(rec.name, rec.url, rec.site, rec.serviceUser, rec.sourceId, key.value[rec.sealedToken], true))
    else if rec.name !in byName || byName[rec.name].token == "" then NoToken(rec.name)
    else
      var c := byName[rec.name];
      Ok(Node(rec.name, c.url, c.site, c.serviceUser, c.sourceId, c.token, false))
  }

  // ----- the fingerprint -----

  function PrintInt(i: int): string {
    if i < 0 then "-" + Decimal.Print(-i) else Decimal.Print(i)
  }

  function FieldsOf(n: Node, h: Hash): seq<string> {
    [n.name, n.url, n.site, n.serviceUser, PrintInt(n.sourceId), h.ofToken(n.token)]
  }

  /** One node's line: its fields with a NUL between them. */
  function Line(n: Node, h: Hash): string {
    Join(FieldsOf(n, h), '\0')
  }

  function Written(lines: seq<string>): string {
    if lines == [] then "" else lines[0] + "\n" + Written(lines[1..])
  }

  ghost function LinesOf(ns: seq<Node>, h: Hash): seq<string> {
    KeysOf(ns, n => Line(n, h))
  }

  ghost function FingerprintOf(ns: seq<Node>, h: Hash): string {
    h.whole(Written(Sort(LinesOf(ns, h))))
  }

  lemma {:induction false} WrittenAppend(a: seq<string>, l: string)
    ensures Written(a + [l]) == Written(a) + l + "\n"
  {
    if a == [] {
      assert [l][1..] == [];
    } else {
      assert (a + [l])[1..] == a[1..] + [l];
      WrittenAppend(a[1..], l);
    }
  }

  method Fingerprint(ns: seq<Node>, h: Hash) returns (sum: string)
    ensures sum == FingerprintOf(ns, h)
  {
    var lines := [];
    for i := 0 to |ns|
      invariant |lines| == i && forall j :: 0 <= j < i ==> lines[j] == Line(ns[j], h)
    {
      lines := lines + [Line(ns[i], h)];
    }
    assert lines == LinesOf(ns, h);
    lines := Sort(lines);
    var text := "";
    for i := 0 to |lines|
      invariant text == Written(lines[..i])
    {
      WrittenAppend(lines[..i], lines[i]);
      assert lines[..i + 1] == lines[..i] + [lines[i]];
      text := text + lines[i];
      text := text + "\n";
    }
    assert lines[..|lines|] == lines;
    sum := h.whole(text);
  }

  // ----- what the fingerprint tells apart -----

  lemma {:induction false} WrittenIsJoin(lines: seq<string>)
    ensures Written(lines) == Join(lines + [""], '\n')
  {
    if lines == [] {
      assert [""][0] == "";
    } else {
      WrittenIsJoin(lines[1..]);
      assert (lines + [""])[1..] == lines[1..] + [""];
    }
  }

  lemma WrittenInjective(a: seq<string>, b: seq<string>)
    requires (forall l :: l in a ==> '\n' !in l) && (forall l :: l in b ==> '\n' !in l)
    requires Written(a) == Written(b)
    ensures a == b
  {
    WrittenIsJoin(a);
    WrittenIsJoin(b);
    SplitJoin(a + [""], '\n');
    SplitJoin(b + [""], '\n');
    assert a == (a + [""])[..|a + [""]| - 1] && b == (b + [""])[..|b + [""]| - 1];
  }

  /** Everything of a node that is wired, which is all but where its token came from. */
  datatype Wiring = Wiring(name: string, url: string, site: string, serviceUser: string, sourceId: int, token: string)

  function WiringOf(n: Node): Wiring {
    Wiring(n.name, n.url, n.site, n.serviceUser, n.sourceId, n.token)
  }

  ghost predicate Collisionfree(h: Hash) {
    && (forall a, b :: h.ofToken(a) == h.ofToken(b) ==> a == b)
    && (forall a, b :: h.whole(a) == h.whole(b) ==> a == b)
    && (forall a :: '\0' !in h.ofToken(a) && '\n' !in h.ofToken(a))
  }

  ghost predicate Plain(s: string) {
    '\0' !in s && '\n' !in s
  }

  ghost predicate PlainNode(n: Node) {
    Plain(n.name) && Plain(n.url) && Plain(n.site) && Plain(n.serviceUser)
  }

  lemma PrintIntPlain(i: int)
    ensures Plain(PrintInt(i))
  {
  }

  lemma SignShows(i: int)
    ensures PrintInt(i) != "" && (PrintInt(i)[0] == '-' <==> i < 0)
  {
    if i >= 0 { assert Decimal.IsDigit(Decimal.Print(i)[0]); }
  }

  lemma PrintIntInjective(i: int, j: int)
    requires PrintInt(i) == PrintInt(j)
    ensures i == j
  {
    SignShows(i);
    SignShows(j);
    if i < 0 {
      assert PrintInt(i)[1..] == Decimal.Print(-i) && PrintInt(j)[1..] == Decimal.Print(-j);
      Decimal.PrintInjective(-i, -j);
    } else {
      Decimal.PrintInjective(i, j);
    }
  }

  lemma {:induction false} JoinPlain(parts: seq<string>, sep: char, c: char)
    requires c != sep && forall p :: p in parts ==> c !in p
    ensures c !in Join(parts, sep)
  {
    if |parts| > 1 {
      JoinPlain(parts[1..], sep, c);
    }
  }

  lemma LineInjective(a: Node, b: Node, h: Hash)
    requires Collisionfree(h) && PlainNode(a) && PlainNode(b)
    ensures Line(a, h) == Line(b, h) <==> WiringOf(a) == WiringOf(b)
    ensures '\n' !in Line(a, h)
  {
    PrintIntPlain(a.sourceId);
    PrintIntPlain(b.sourceId);
    JoinPlain(FieldsOf(a, h), '\0', '\n');
    if Line(a, h) == Line(b, h) {
      SplitJoin(FieldsOf(a, h), '\0');
      SplitJoin(FieldsOf(b, h), '\0');
      var fa, fb := FieldsOf(a, h), FieldsOf(b, h);
      assert fa[0] == fb[0] && fa[1] == fb[1] && fa[2] == fb[2] && fa[3] == fb[3] && fa[4] == fb[4] && fa[5] == fb[5];
      PrintIntInjective(a.sourceId, b.sourceId);
    }
  }

  ghost function WiringList(ns: seq<Node>): (r: seq<Wiring>)
    ensures |r| == |ns| && forall i :: 0 <= i < |ns| ==> r[i] == WiringOf(ns[i])
  {
    seq(|ns|, i requires 0 <= i < |ns| => WiringOf(ns[i]))
  }

  ghost function Wirings(ns: seq<Node>): multiset<Wiring> {
    multiset(WiringList(ns))
  }

  lemma WiringsSplit(ns: seq<Node>, j: nat)
    requires j < |ns|
    ensures Wirings(ns) == Wirings(Without(ns, j)) + multiset{WiringOf(ns[j])}
  {
    TakeOut(WiringList(ns), j);
    assert WiringList(Without(ns, j)) == Without(WiringList(ns), j);
  }

  lemma LinesSplit(ns: seq<Node>, j: nat, h: Hash)
    requires j < |ns|
    ensures multiset(LinesOf(ns, h)) == multiset(LinesOf(Without(ns, j), h)) + multiset{Line(ns[j], h)}
  {
    KeysTakeOut(ns, j, n => Line(n, h));
  }

  /** The lines agree, as multisets, exactly when the wirings do. */
  lemma {:induction false} SameLines(a: seq<Node>, b: seq<Node>, h: Hash)
    requires Collisionfree(h) && (forall n :: n in a ==> PlainNode(n)) && forall n :: n in b ==> PlainNode(n)
    ensures multiset(LinesOf(a, h)) == multiset(LinesOf(b, h)) <==> Wirings(a) == Wirings(b)
    decreases |a|
  {
    if a == [] {
      NoLines(b, h);
    } else if Line(a[0], h) in multiset(LinesOf(b, h)) || WiringOf(a[0]) in Wirings(b) {
      var j := FindEither(a[0], b, h);
      SameLines(a[1..], Without(b, j), h);
      SameStep(a, b, j, h);
    } else {
      HeadMissing(a, b, h);
    }
  }

  lemma SameStep(a: seq<Node>, b: seq<Node>, j: nat, h: Hash)
    requires a != [] && j < |b| && Line(b[j], h) == Line(a[0], h) && WiringOf(b[j]) == WiringOf(a[0])
    requires multiset(LinesOf(a[1..], h)) == multiset(LinesOf(Without(b, j), h)) <==> Wirings(a[1..]) == Wirings(Without(b, j))
    ensures multiset(LinesOf(a, h)) == multiset(LinesOf(b, h)) <==> Wirings(a) == Wirings(b)
  {
    assert Without(a, 0) == a[1..];
    WiringsSplit(a, 0);
    LinesSplit(a, 0, h);
    WiringsSplit(b, j);
    LinesSplit(b, j, h);
    MultisetTake(Wirings(a[1..]), Wirings(Without(b, j)), WiringOf(a[0]));
    MultisetTake(multiset(LinesOf(a[1..], h)), multiset(LinesOf(Without(b, j), h)), Line(a[0], h));
  }

  lemma MultisetTake<T>(a: multiset<T>, b: multiset<T>, x: T)
    ensures a + multiset{x} == b + multiset{x} <==> a == b
  {
    if a + multiset{x} == b + multiset{x} {
      assert a == a + multiset{x} - multiset{x} && b == b + multiset{x} - multiset{x};
    }
  }

  lemma HeadMissing(a: seq<Node>, b: seq<Node>, h: Hash)
    requires a != [] && Line(a[0], h) !in multiset(LinesOf(b, h)) && WiringOf(a[0]) !in Wirings(b)
    ensures multiset(LinesOf(a, h)) != multiset(LinesOf(b, h)) && Wirings(a) != Wirings(b)
  {
    LinesSplit(a, 0, h);
    WiringsSplit(a, 0);
    assert Line(a[0], h) in multiset(LinesOf(a, h)) && WiringOf(a[0]) in Wirings(a);
  }

  lemma NoLines(b: seq<Node>, h: Hash)
    ensures multiset(LinesOf([], h)) == multiset(LinesOf(b, h)) <==> b == []
    ensures Wirings([]) == Wirings(b) <==> b == []
  {
    assert |multiset(LinesOf(b, h))| == |b| && |Wirings(b)| == |b|;
  }

  lemma FindLine(n: Node, b: seq<Node>, h: Hash) returns (j: nat)
    requires Collisionfree(h) && PlainNode(n) && (forall m :: m in b ==> PlainNode(m)) && Line(n, h) in multiset(LinesOf(b, h))
    ensures j < |b| && Line(b[j], h) == Line(n, h) && WiringOf(b[j]) == WiringOf(n)
  {
    j :| 0 <= j < |b| && LinesOf(b, h)[j] == Line(n, h);
    LineInjective(n, b[j], h);
  }

  lemma FindWiring(n: Node, b: seq<Node>, h: Hash) returns (j: nat)
    requires WiringOf(n) in Wirings(b)
    ensures j < |b| && Line(b[j], h) == Line(n, h) && WiringOf(b[j]) == WiringOf(n)
  {
    j :| 0 <= j < |b| && WiringList(b)[j] == WiringOf(n);
  }

  lemma FindEither(n: Node, b: seq<Node>, h: Hash) returns (j: nat)
    requires Collisionfree(h) && PlainNode(n) && forall m :: m in b ==> PlainNode(m)
    requires Line(n, h) in multiset(LinesOf(b, h)) || WiringOf(n) in Wirings(b)
    ensures j < |b| && Line(b[j], h) == Line(n, h) && WiringOf(b[j]) == WiringOf(n)
  {
    if Line(n, h) in multiset(LinesOf(b, h)) { j := FindLine(n, b, h); } else { j := FindWiring(n, b, h); }
  }

  /** The fingerprint depends on the nodes and not on their order. */
  lemma OrderDoesNotMatter(a: seq<Node>, b: seq<Node>, h: Hash)
    requires multiset(a) == multiset(b)
    ensures FingerprintOf(a, h) == FingerprintOf(b, h)
  {
    KeysPermuted(a, b, n => Line(n, h));
    SortSorts(LinesOf(a, h));
    SortSorts(LinesOf(b, h));
    SortedUnique(Sort(LinesOf(a, h)), Sort(LinesOf(b, h)));
  }

  /** With hashes that do not collide, two fingerprints agree exactly when the same nodes would be wired. */
  lemma FingerprintTellsApart(a: seq<Node>, b: seq<Node>, h: Hash)
    requires Collisionfree(h) && (forall n :: n in a ==> PlainNode(n)) && forall n :: n in b ==> PlainNode(n)
    ensures FingerprintOf(a, h) == FingerprintOf(b, h) <==> Wirings(a) == Wirings(b)
  {
    SameLines(a, b, h);
    SortSorts(LinesOf(a, h));
    SortSorts(LinesOf(b, h));
    LinesPlain(a, h);
    LinesPlain(b, h);
    if FingerprintOf(a, h) == FingerprintOf(b, h) {
      WrittenInjective(Sort(LinesOf(a, h)), Sort(LinesOf(b, h)));
    }
    if Wirings(a) == Wirings(b) {
      SortedUnique(Sort(LinesOf(a, h)), Sort(LinesOf(b, h)));
    }
  }

  lemma LinesPlain(a: seq<Node>, h: Hash)
    requires Collisionfree(h) && forall n :: n in a ==> PlainNode(n)
    ensures forall l :: l in Sort(LinesOf(a, h)) ==> '\n' !in l
  {
    SortSorts(LinesOf(a, h));
    SameElements(Sort(LinesOf(a, h)), LinesOf(a, h));
    forall l | l in LinesOf(a, h) ensures '\n' !in l {
      var i :| 0 <= i < |a| && LinesOf(a, h)[i] == l;
      LineInjective(a[i], a[i], h);
    }
  }

  // ----- settling the nodes, and looking again -----

  lemma {:induction false} ByNameIs(configured: seq<Config>, c: Config)
    requires c in configured && forall i, j :: 0 <= i < j < |configured| ==> configured[i].name != configured[j].name
    ensures c.name in ByName(configured) && ByName(configured)[c.name] == c
  {
    var front, last := configured[..|configured| - 1], configured[|configured| - 1];
    if c != last {
      assert c in front;
      ByNameIs(front, c);
      var i :| 0 <= i < |front| && front[i] == c;
      assert configured[i].name != last.name;
    }
  }

  /** The nodes table: removed rows stay, and are the retired names. */
  class Database {
    var rows: map<string, Record>
    var removed: set<string>
    const up: bool  // whether it can be relied on; if not, any call may fail

    ghost predicate Valid()
      reads this
    {
      removed <= rows.Keys && forall name :: name in rows ==> rows[name].name == name
    }

    predicate Live(rec: Record)
      reads this
    {
      rec.name in rows && rec.name !in removed && rows[rec.name] == rec
    }

    /** A reading of the table: each live row once, in some order. */
    ghost predicate Reads(list: seq<Record>)
      reads this
    {
      && (forall i, j :: 0 <= i < j < |list| ==> list[i].name != list[j].name)
      && forall rec :: rec in list <==> Live(rec)
    }

    method Nodes() returns (list: Option<seq<Record>>)
      requires Valid()
      ensures list.Some? ==> Reads(list.value)
      ensures up ==> list.Some?
    {
      var answers := *;
      if !up && !answers { return None; }
      var out: seq<Record> := [];
      var left := rows.Keys;
      while left != {}
        invariant left <= rows.Keys
        invariant forall i, j :: 0 <= i < j < |out| ==> out[i].name != out[j].name
        invariant forall rec :: rec in out <==> Live(rec) && rec.name !in left
        decreases left
      {
        var name :| name in left;
        if name !in removed { out := out + [rows[name]]; }
        left := left - {name};
      }
      list := Some(out);
    }

    /** The upsert: an empty service user gets its default, a missing sealed token keeps the one there, and the row is live again. */
    method SaveNode(rec: Record) returns (ok: bool)
      requires Valid()
      modifies this
      ensures Valid()
      ensures !ok ==> rows == old(rows) && removed == old(removed)
      ensures up ==> ok
      ensures ok ==> removed == old(removed) - {rec.name} && rec.name in rows && rows == old(rows)[rec.name := rows[rec.name]]
      ensures ok && rec.name !in old(rows) ==>
        rows[rec.name] == rec.(serviceUser := if rec.serviceUser == "" then "forgesync" else rec.serviceUser)
      ensures ok && rec.name in old(rows) ==>
        rows[rec.name] == rec.(serviceUser := if rec.serviceUser == "" then "forgesync" else rec.serviceUser,
                               sealedToken := if rec.sealedToken == "" then old(rows)[rec.name].sealedToken else rec.sealedToken)
    {
      var answers := *;
      if !up && !answers { return false; }
      var user := if rec.serviceUser == "" then "forgesync" else rec.serviceUser;
      var sealed := if rec.sealedToken == "" && rec.name in rows then rows[rec.name].sealedToken else rec.sealedToken;
      rows := rows[rec.name := rec.(serviceUser := user, sealedToken := sealed)];
      removed := removed - {rec.name};
      ok := true;
    }
  }

  /** A node the controller runs with, against its row: the same, but that a row without any token cannot be read back. */
  ghost predicate Backed(rec: Record, n: Node, byName: map<string, Config>, key: Key) {
    && FromRecord(rec, byName, key) == (if rec.sealedToken == "" && n.token == "" then NoToken(rec.name) else Ok(n))
    && (rec.sealedToken == "" && n.token == "" ==> rec.name in byName && n == ConfigNode(byName[rec.name]) && n.name == rec.name)
  }

  /** A row with a sealed token is wired as the row says, with what the key opens; any other as the config file says, token and all. */
  ghost predicate WiredRightly(rec: Record, configured: seq<Config>, key: Key, n: Node) {
    n.name == rec.name &&
    if rec.sealedToken != "" then
      && key.Some? && rec.sealedToken in key.value && n.token == key.value[rec.sealedToken] && n.fromDatabase
      && n.url == rec.url && n.site == rec.site && n.serviceUser == rec.serviceUser && n.sourceId == rec.sourceId
    else
      exists c :: c in configured && c.name == rec.name && n.token == c.token && !n.fromDatabase &&
        n.url == c.url && n.site == c.site && n.serviceUser == c.serviceUser && n.sourceId == c.sourceId
  }

  ghost predicate AllWiredRightly(listed: seq<Record>, configured: seq<Config>, key: Key, out: seq<Node>) {
    |listed| == |out| && forall i :: 0 <= i < |out| ==> WiredRightly(listed[i], configured, key, out[i])
  }

  lemma {:induction false} ByNameFrom(configured: seq<Config>, name: string)
    ensures name in ByName(configured) ==> ByName(configured)[name] in configured && ByName(configured)[name].name == name
  {
    if configured != [] {
      ByNameFrom(configured[..|configured| - 1], name);
    }
  }

  lemma BackedWired(listed: seq<Record>, out: seq<Node>, configured: seq<Config>, key: Key)
    requires AllBacked(listed, out, ByName(configured), key)
    ensures AllWiredRightly(listed, configured, key, out)
  {
    forall i | 0 <= i < |out| ensures WiredRightly(listed[i], configured, key, out[i]) {
      assert Backed(listed[i], out[i], ByName(configured), key);
      ByNameFrom(configured, listed[i].name);
    }
  }

  /** What wakes the watcher or not: a row can be wired exactly when its token can be had. */
  lemma WireableExactlyWhen(rec: Record, configured: seq<Config>, key: Key)
    requires UniqueNames(configured)
    ensures
      FromRecord(rec, ByName(configured), key).Ok? <==>
        if rec.sealedToken != "" then key.Some? && rec.sealedToken in key.value
        else exists c :: c in configured && c.name == rec.name && c.token != ""
    ensures
      var r := FromRecord(rec, ByName(configured), key);
      r.Ok? ==> WiredRightly(rec, configured, key, r.value)
  {
    ByNameFrom(configured, rec.name);
    if c :| c in configured && c.name == rec.name && c.token != "" { ByNameIs(configured, c); }
  }

  ghost predicate AllBacked(listed: seq<Record>, out: seq<Node>, byName: map<string, Config>, key: Key) {
    |listed| == |out| && forall i :: 0 <= i < |out| ==> Backed(listed[i], out[i], byName, key)
  }

  ghost predicate UniqueNames(configured: seq<Config>) {
    forall i, j :: 0 <= i < j < |configured| ==> configured[i].name != configured[j].name
  }

  /** The nodes these rows stand for, row by row. */
  ghost predicate GiveBack(rows: seq<Record>, ns: seq<Node>, byName: map<string, Config>, key: Key) {
    |ns| == |rows| && forall i :: 0 <= i < |ns| ==> FromRecord(rows[i], byName, key) == Ok(ns[i])
  }

  /** The nodes of the rows read, or the first error. */
  method FromRecords(stored: seq<Record>, byName: map<string, Config>, key: Key) returns (r: Result<seq<Node>>)
    ensures r.Ok? ==> GiveBack(stored, r.value, byName, key)
    ensures !r.Ok? ==> !r.StoreFailed? && exists rec :: rec in stored && !FromRecord(rec, byName, key).Ok?
  {
    var out: seq<Node> := [];
    for i := 0 to |stored|
      invariant |out| == i && forall j :: 0 <= j < i ==> FromRecord(stored[j], byName, key) == Ok(out[j])
    {
      var n := FromRecord(stored[i], byName, key);
      match n {
        case Ok(node) => out := out + [node];
        case SealedWithoutKey(name) => return SealedWithoutKey(name);
        case CannotOpen(name) => return CannotOpen(name);
        case NoToken(name) => return NoToken(name);
        case StoreFailed => return StoreFailed;
      }
    }
    r := Ok(out);
  }

  method FingerprintStored(stored: seq<Record>, configured: seq<Config>, key: Key, h: Hash) returns (r: Result<string>)
    ensures r.Ok? <==> forall rec :: rec in stored ==> FromRecord(rec, ByName(configured), key).Ok?
    ensures r.Ok? ==>
      exists ns :: GiveBack(stored, ns, ByName(configured), key) && r.value == FingerprintOf(ns, h)
  {
    var ns := FromRecords(stored, ByName(configured), key);
    match ns {
      case Ok(list) =>
        var sum := Fingerprint(list, h);
        r := Ok(sum);
      case SealedWithoutKey(name) => r := SealedWithoutKey(name);
      case CannotOpen(name) => r := CannotOpen(name);
      case NoToken(name) => r := NoToken(name);
      case StoreFailed => r := StoreFailed;
    }
  }

  /** Taking in what the config file lists and the database has never had; a retired name stays out. */
  method TakeIn(db: Database, c: Config, known: set<string>, gone: set<string>) returns (r: Option<seq<Node>>)
    requires db.Valid()
    requires c.name in known || c.name in gone || c.name !in db.rows
    modifies db
    ensures db.Valid() && (db.up ==> r.Some?)
    ensures r.Some? && (c.name in known || c.name in gone) ==>
      r.value == [] && db.rows == old(db.rows) && db.removed == old(db.removed)
    ensures
      r.Some? && !(c.name in known || c.name in gone) ==>
        && r.value == [ConfigNode(c)] && c.name in db.rows && db.rows == old(db.rows)[c.name := db.rows[c.name]]
        && db.rows[c.name].sealedToken == "" && db.removed == old(db.removed) - {c.name}
  {
    if c.name in known { return Some([]); }
    if c.name in gone { return Some([]); }
    var ok := db.SaveNode(Record(c.name, c.url, c.site, c.serviceUser, c.sourceId, ""));
    if !ok { return None; }
    r := Some([ConfigNode(c)]);
  }

  predicate Named(done: seq<Config>, name: string) {
    exists j :: 0 <= j < |done| && done[j].name == name
  }

  /** Every row is of a node known at the start, retired, or already gone through. */
  ghost predicate Accounted(rows: map<string, Record>, known: set<string>, gone: set<string>, done: seq<Config>) {
    forall name :: name in rows ==> name in known || name in gone || Named(done, name)
  }

  lemma NotYetThere(rows: map<string, Record>, known: set<string>, gone: set<string>, configured: seq<Config>, i: nat)
    requires i < |configured| && UniqueNames(configured) && Accounted(rows, known, gone, configured[..i])
    ensures configured[i].name in known || configured[i].name in gone || configured[i].name !in rows
  {
  }

  lemma OneMoreAccounted(rows: map<string, Record>, rows': map<string, Record>, known: set<string>, gone: set<string>,
                         configured: seq<Config>, i: nat)
    requires i < |configured| && Accounted(rows, known, gone, configured[..i])
    requires forall name :: name in rows' ==> name in rows || name == configured[i].name
    ensures Accounted(rows', known, gone, configured[..i + 1])
  {
    forall name | name in rows' && name !in known && name !in gone ensures Named(configured[..i + 1], name) {
      if name == configured[i].name {
        assert configured[..i + 1][i].name == name;
      } else {
        var j :| 0 <= j < i && configured[..i][j].name == name;
        assert configured[..i + 1][j].name == name;
      }
    }
  }

  method TakeNext(db: Database, configured: seq<Config>, i: nat, key: Key, known: set<string>, gone: set<string>,
                  out: seq<Node>, ghost listed: seq<Record>)
    returns (out': Option<seq<Node>>, ghost listed': seq<Record>)
    requires db.Valid() && db.removed == gone && db.Reads(listed) && AllBacked(listed, out, ByName(configured), key)
    requires i < |configured| && UniqueNames(configured) && Accounted(db.rows, known, gone, configured[..i])
    modifies db
    ensures db.Valid() && (db.up ==> out'.Some?)
    ensures out'.Some? ==>
      && db.removed == gone && db.Reads(listed') && AllBacked(listed', out'.value, ByName(configured), key)
      && Accounted(db.rows, known, gone, configured[..i + 1])
      && Kept(old(db.rows), db.rows)
      && (configured[i].name in known || configured[i].name in gone || configured[i].name in db.rows)
  {
    var c := configured[i];
    NotYetThere(db.rows, known, gone, configured, i);
    ghost var before := db.rows;
    ghost var taken := !(c.name in known || c.name in gone);
    assert taken ==> forall k :: 0 <= k < |listed| ==> listed[k] in listed && listed[k].name != c.name;
    var more := TakeIn(db, c, known, gone);
    if more.None? { return None, listed; }
    OneMoreAccounted(before, db.rows, known, gone, configured, i);
    if more.value == [] { return Some(out), listed; }
    ByNameIs(configured, c);
    listed' := listed + [db.rows[c.name]];
    out' := Some(out + more.value);
  }

  /** The nodes of the database, and those of the config file the database has never had. */
  method Resolve(db: Database, key: Key, configured: seq<Config>) returns (r: Result<seq<Node>>, ghost listed: seq<Record>)
    requires db.Valid() && UniqueNames(configured)
    modifies db
    ensures db.Valid()
    ensures r.Ok? ==> db.Reads(listed) && AllBacked(listed, r.value, ByName(configured), key)
    ensures r.Ok? ==> AllWiredRightly(listed, configured, key, r.value)
    ensures r.Ok? ==>
      db.removed == old(db.removed) && Kept(old(db.rows), db.rows) && Accounted(db.rows, old(db.rows).Keys, {}, configured)
    ensures r.Ok? ==> forall c :: c in configured ==> c.name in db.rows
    ensures db.up && (forall rec :: old(db.Live(rec)) ==> FromRecord(rec, ByName(configured), key).Ok?) ==> r.Ok?
    ensures db.up ==> !r.StoreFailed?
  {
    listed := [];
    var stored := db.Nodes();
    if stored.None? { return StoreFailed, listed; }
    r := FromRecords(stored.value, ByName(configured), key);
    if !r.Ok? { return; }
    var out := r.value;
    var known := set rec | rec in stored.value :: rec.name;
    var answers := *;
    if !db.up && !answers { return StoreFailed, listed; } // the retired names could not be read
    var gone := db.removed;
    listed := stored.value;
    assert forall rec :: rec in stored.value ==> rec.name in db.rows;
    KnownAtStart(db, listed, known);
    assert known <= db.rows.Keys;
    ghost var rows := db.rows;
    var all;
    all, listed := TakeInAll(db, configured, key, known, gone, out, listed);
    if all.None? { return StoreFailed, listed; }
    r := Ok(all.value);
    AllThere(rows, db.rows, known, gone, configured);
    BackedWired(listed, all.value, configured, key);
  }

  /** The loop over the config file. */
  method TakeInAll(db: Database, configured: seq<Config>, key: Key, known: set<string>, gone: set<string>, out0: seq<Node>, ghost listed0: seq<Record>)
    returns (out: Option<seq<Node>>, ghost listed: seq<Record>)
    requires db.Valid() && db.removed == gone && db.Reads(listed0) && AllBacked(listed0, out0, ByName(configured), key)
    requires UniqueNames(configured) && Accounted(db.rows, known, gone, [])
    modifies db
    ensures db.Valid() && (db.up ==> out.Some?)
    ensures out.Some? ==>
      && db.removed == gone && db.Reads(listed) && AllBacked(listed, out.value, ByName(configured), key)
      && Accounted(db.rows, known, gone, configured) && Kept(old(db.rows), db.rows) && Seen(db.rows, known, gone, configured)
  {
    var so := out0;
    listed := listed0;
    for i := 0 to |configured|
      invariant db.Valid() && db.removed == gone && db.Reads(listed) && AllBacked(listed, so, ByName(configured), key)
      invariant Accounted(db.rows, known, gone, configured[..i]) && Kept(old(db.rows), db.rows) && Seen(db.rows, known, gone, configured[..i])
    {
      ghost var before := db.rows;
      var next;
      next, listed := TakeNext(db, configured, i, key, known, gone, so, listed);
      if next.None? { return None, listed; }
      so := next.value;
      OneMoreSeen(before, db.rows, known, gone, configured, i);
    }
    assert configured[..|configured|] == configured;
    out := Some(so);
  }

  /** Every node gone through was known, is retired, or has a row now. */
  ghost predicate Seen(rows: map<string, Record>, known: set<string>, gone: set<string>, done: seq<Config>) {
    forall c :: c in done ==> c.name in known || c.name in gone || c.name in rows
  }

  lemma OneMoreSeen(before: map<string, Record>, rows: map<string, Record>, known: set<string>, gone: set<string>, configured: seq<Config>, i: nat)
    requires i < |configured| && Seen(before, known, gone, configured[..i]) && Kept(before, rows)
    requires configured[i].name in known || configured[i].name in gone || configured[i].name in rows
    ensures Seen(rows, known, gone, configured[..i + 1])
  {
    assert configured[..i + 1] == configured[..i] + [configured[i]];
  }

  lemma AllThere(before: map<string, Record>, rows: map<string, Record>, known: set<string>, gone: set<string>, configured: seq<Config>)
    requires known <= before.Keys && gone <= before.Keys && Kept(before, rows)
    requires Accounted(rows, known, gone, configured) && Seen(rows, known, gone, configured)
    ensures Accounted(rows, before.Keys, {}, configured) && forall c :: c in configured ==> c.name in rows
  {
  }

  /** No row is changed or lost. */
  ghost predicate Kept(before: map<string, Record>, after: map<string, Record>) {
    forall name :: name in before ==> name in after && after[name] == before[name]
  }

  lemma KnownAtStart(db: Database, stored: seq<Record>, known: set<string>)
    requires db.Valid() && db.Reads(stored) && known == set rec | rec in stored :: rec.name
    ensures Accounted(db.rows, known, db.removed, [])
  {
    forall name | name in db.rows && name !in db.removed ensures name in known {
      assert db.Live(db.rows[name]);
    }
  }

  // ----- no restart for nothing -----

  /** A row's line as the watcher would write it. */
  ghost function RowLine(rec: Record, byName: map<string, Config>, key: Key, h: Hash): string {
    var n := FromRecord(rec, byName, key);
    if n.Ok? then Line(n.value, h) else ""
  }

  lemma RowLines(listed: seq<Record>, out: seq<Node>, byName: map<string, Config>, key: Key, h: Hash)
    requires GiveBack(listed, out, byName, key)
    ensures KeysOf(listed, rec => RowLine(rec, byName, key, h)) == LinesOf(out, h)
  {
  }

  lemma SameRows(db: Database, a: seq<Record>, b: seq<Record>)
    requires db.Reads(a) && db.Reads(b)
    ensures multiset(a) == multiset(b)
  {
    assert Distinct(a) && Distinct(b);
    assert Elements(a) == Elements(b);
    DistinctMultiset(a);
    DistinctMultiset(b);
  }

  /** Whichever order the rows come in, the fingerprint built from them is that of the nodes they stand for. */
  lemma SamePrint(a: seq<Record>, ns: seq<Node>, b: seq<Record>, ms: seq<Node>, byName: map<string, Config>, key: Key, h: Hash)
    requires multiset(a) == multiset(b)
    requires GiveBack(a, ns, byName, key)
    requires GiveBack(b, ms, byName, key)
    ensures FingerprintOf(ns, h) == FingerprintOf(ms, h)
  {
    RowLines(a, ns, byName, key, h);
    RowLines(b, ms, byName, key, h);
    KeysPermuted(a, b, rec => RowLine(rec, byName, key, h));
    SortSorts(LinesOf(ns, h));
    SortSorts(LinesOf(ms, h));
    SortedUnique(Sort(LinesOf(ns, h)), Sort(LinesOf(ms, h)));
  }

  /** Every node has a token, sealed in its row or in the config file. */
  ghost predicate Tokens(listed: seq<Record>, out: seq<Node>)
    requires |listed| == |out|
  {
    forall i :: 0 <= i < |out| ==> out[i].token != "" || listed[i].sealedToken != ""
  }

  lemma ReadableExactlyWhen(listed: seq<Record>, out: seq<Node>, byName: map<string, Config>, key: Key)
    requires AllBacked(listed, out, byName, key)
    ensures (forall rec :: rec in listed ==> FromRecord(rec, byName, key).Ok?) <==> Tokens(listed, out)
    ensures Tokens(listed, out) ==> GiveBack(listed, out, byName, key)
  {
    forall i | 0 <= i < |out| ensures FromRecord(listed[i], byName, key).Ok? <==> out[i].token != "" || listed[i].sealedToken != "" {
      assert Backed(listed[i], out[i], byName, key);
    }
    if !Tokens(listed, out) {
      var i :| 0 <= i < |out| && !(out[i].token != "" || listed[i].sealedToken != "");
      assert listed[i] in listed;
    }
  }

  /** One turn of the watcher; None is a database that could not be read. It restarts only on another fingerprint. */
  method Look(db: Database, key: Key, configured: seq<Config>, was: string,
              h: Hash) returns (now: Option<Result<string>>, restart: bool, ghost stored: seq<Record>)
    requires db.Valid()
    ensures restart <==> now.Some? && now.value.Ok? && now.value.value != was
    ensures now.Some? ==> db.Reads(stored)
    ensures db.up ==> now.Some?
    ensures now.Some? ==> (now.value.Ok? <==> forall rec :: rec in stored ==> FromRecord(rec, ByName(configured), key).Ok?)
    ensures now.Some? && now.value.Ok? ==>
      exists ns :: GiveBack(stored, ns, ByName(configured), key) && now.value.value == FingerprintOf(ns, h)
  {
    stored := [];
    var read := db.Nodes();
    if read.None? { return None, false, stored; }
    stored := read.value;
    var sum := FingerprintStored(read.value, configured, key, h);
    now := Some(sum);
    restart := sum.Ok? && sum.value != was;
  }

  /**
   * A controller settles its nodes, and later looks at the same database again: it never restarts
   * itself for nothing. The fingerprint can be built again exactly when every node has a token, and
   * then it is the one it started with; otherwise the watcher reports and goes on.
   */
  method SettleThenLook(db: Database, key: Key, configured: seq<Config>, h: Hash)
    returns (out: Result<seq<Node>>, was: string, now: Option<Result<string>>, restart: bool, ghost listed: seq<Record>)
    requires db.Valid() && UniqueNames(configured)
    modifies db
    ensures !restart && (out.Ok? ==> was == FingerprintOf(out.value, h))
    ensures out.Ok? ==> db.Reads(listed) && AllBacked(listed, out.value, ByName(configured), key)
    ensures out.Ok? && now.Some? ==> (now.value.Ok? <==> Tokens(listed, out.value)) && (now.value.Ok? ==> now.value.value == was)
  {
    restart, was, now := false, "", None;
    out, listed := Resolve(db, key, configured);
    if !out.Ok? { return; }
    was := Fingerprint(out.value, h);
    ghost var stored;
    now, restart, stored := Look(db, key, configured, was, h);
    if now.None? { return; }
    SameRows(db, stored, listed);
    SameElements(stored, listed);
    ReadableExactlyWhen(listed, out.value, ByName(configured), key);
    if !now.value.Ok? { return; }
    ghost var ns :| GiveBack(stored, ns, ByName(configured), key) && now.value.value == FingerprintOf(ns, h);
    SamePrint(stored, ns, listed, out.value, ByName(configured), key, h);
  }

  /** No two nodes of the list have one name. */
  ghost predicate NamedOnce(ns: seq<Node>) {
    forall i, j :: 0 <= i < j < |ns| ==> ns[i].name != ns[j].name
  }

  lemma NamedOnceWithout(ns: seq<Node>, p: nat, q: nat)
    requires NamedOnce(ns) && p < |ns| && q < |Without(ns, p)|
    ensures Without(ns, p)[q].name != ns[p].name
  {
    assert Without(ns, p)[q] == ns[if q < p then q else q + 1];
  }

  lemma NamedOnceByWirings(ns: seq<Node>, ms: seq<Node>, h: Hash)
    requires Wirings(ns) == Wirings(ms) && NamedOnce(ms)
    ensures NamedOnce(ns)
  {
    forall i, j | 0 <= i < j < |ns| ensures ns[i].name != ns[j].name {
      WiringsSplit(ns, j);
      assert WiringOf(ns[j]) in Wirings(ns);
      var p := FindWiring(ns[j], ms, h);
      WiringsSplit(ms, p);
      MultisetTake(Wirings(Without(ns, j)), Wirings(Without(ms, p)), WiringOf(ns[j]));
      assert WiringList(Without(ns, j))[i] == WiringOf(ns[i]);
      assert WiringOf(ns[i]) in Wirings(Without(ms, p));
      var q := FindWiring(ns[i], Without(ms, p), h);
      NamedOnceWithout(ms, p, q);
    }
  }

  /**
   * Nodes wired with one name twice never have the fingerprint that the rows give, in which a name
   * stands once, whatever the rows are: the next look restarts.
   */
  lemma TwiceNamedRestarts(wired: seq<Node>, db: Database, listed: seq<Record>, ns: seq<Node>, byName: map<string, Config>,
                           key: Key, h: Hash)
    requires Collisionfree(h) && (forall n :: n in wired ==> PlainNode(n)) && forall n :: n in ns ==> PlainNode(n)
    requires !NamedOnce(wired) && db.Reads(listed) && GiveBack(listed, ns, byName, key)
    ensures FingerprintOf(ns, h) != FingerprintOf(wired, h)
  {
    forall i, j | 0 <= i < j < |ns| ensures ns[i].name != ns[j].name {
      assert ns[i].name == listed[i].name && ns[j].name == listed[j].name;
    }
    FingerprintTellsApart(ns, wired, h);
    if Wirings(wired) == Wirings(ns) { NamedOnceByWirings(wired, ns, h); }
  }
}
