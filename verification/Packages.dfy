/**
 * An owner's packages as a set merge: what each node is asked to delete or to take, that contested
 * names are left alone, and what a deletion by version takes besides the plan. Names are whatever a
 * registry lists, a bar included.
 */
module Packages {
  import opened Optional
  import opened Text
  import opened SetMerge

  datatype File = File(kind: string, name: string, version: string, file: string, digest: string)

  function Short(digest: string): string {
    if |digest| > 12 then digest[..12] else digest
  }

  function PartsOf(f: File): seq<string> {
    [f.kind, f.name, f.version, f.file, Short(f.digest)]
  }

  function Member(f: File): string {
    Join(PartsOf(f), '|')
  }

  function Parse(member: string): Option<File> {
    var parts := Split(member, '|');
    if |parts| != 5 then None else Some(File(parts[0], parts[1], parts[2], parts[3], parts[4]))
  }

  function Count(s: string, sep: char): nat {
    if s == "" then 0 else (if s[0] == sep then 1 else 0) + Count(s[1..], sep)
  }

  lemma {:induction false} SplitCounts(s: string, sep: char)
    ensures |Split(s, sep)| == Count(s, sep) + 1
  {
    if s != "" { SplitCounts(s[1..], sep); }
  }

  lemma {:induction false} CountAppend(a: string, b: string, sep: char)
    ensures Count(a + b, sep) == Count(a, sep) + Count(b, sep)
  {
    if a == "" {
      assert a + b == b;
    } else {
      assert (a + b)[1..] == a[1..] + b;
      CountAppend(a[1..], b, sep);
    }
  }

  lemma {:induction false} CountZero(s: string, sep: char)
    ensures Count(s, sep) == 0 <==> sep !in s
  {
    if s != "" { CountZero(s[1..], sep); assert s == [s[0]] + s[1..]; }
  }

  lemma {:induction false} JoinCounts(parts: seq<string>, sep: char)
    requires parts != []
    ensures Count(Join(parts, sep), sep) >= |parts| - 1
    ensures Count(Join(parts, sep), sep) == |parts| - 1 <==> forall p :: p in parts ==> sep !in p
  {
    CountZero(parts[0], sep);
    assert parts == [parts[0]] + parts[1..];
    if |parts| > 1 {
      JoinCounts(parts[1..], sep);
      CountAppend(parts[0] + [sep], Join(parts[1..], sep), sep);
      CountAppend(parts[0], [sep], sep);
      assert [sep][1..] == "";
    }
  }

  /**
   * A member is taken apart again into the file it was made from, up to the length of the digest,
   * exactly when no part holds a bar; otherwise it is not taken apart at all.
   */
  lemma MemberTakenApart(f: File)
    ensures Parse(Member(f)) == if forall p :: p in PartsOf(f) ==> '|' !in p then Some(f.(digest := Short(f.digest))) else None
    ensures Short(f.digest) == if |f.digest| <= 12 then f.digest else f.digest[..12]
    ensures PartsOf(f) == [f.kind, f.name, f.version, f.file, Short(f.digest)]
  {
    SplitCounts(Member(f), '|');
    JoinCounts(PartsOf(f), '|');
    if forall p :: p in PartsOf(f) ==> '|' !in p {
      SplitJoin(PartsOf(f), '|');
    }
  }

  // ----- what a registry lists -----

  datatype Upload = Upload(name: string, digest: string)

  datatype Package = Package(kind: string, name: string, version: string, files: seq<Upload>)

  /** Files a node makes itself go by their names alone. */
  predicate NodeBuilt(kind: string, file: string) {
    || (kind == "maven" && "maven-metadata.xml" <= file)
    || (kind == "nuget" && |".nuspec"| <= |file| && file[|file| - |".nuspec"|..] == ".nuspec")
  }

  predicate IsListed(registry: seq<Package>, f: File) {
    exists p, x :: p in registry && x in p.files && f == FileOf(p, x)
  }

  function FileOf(p: Package, x: Upload): File {
    File(p.kind, p.name, p.version, x.name, x.digest)
  }

  /** What ForgeSync knows of a registry: the members of the files it takes for uploaded. */
  ghost predicate IsMember(registry: seq<Package>, m: string) {
    exists f :: IsListed(registry, f) && !NodeBuilt(f.kind, f.file) && m == Member(f)
  }

  /** A maven file whose name starts as the node's own index does, or a nuget file with its ending. */
  ghost predicate MadeByNode(kind: string, file: string) {
    || (kind == "maven" && exists rest: string :: file == "maven-metadata.xml" + rest)
    || (kind == "nuget" && exists stem: string :: file == stem + ".nuspec")
  }

  lemma NodeBuiltIs(kind: string, file: string)
    ensures NodeBuilt(kind, file) <==> MadeByNode(kind, file)
  {
    if "maven-metadata.xml" <= file { assert file == "maven-metadata.xml" + file[|"maven-metadata.xml"|..]; }
    var n := |".nuspec"|;
    if |file| >= n && file[|file| - n..] == ".nuspec" { assert file == file[..|file| - n] + ".nuspec"; }
  }

  ghost predicate IsMemberOf(p: Package, files: seq<Upload>, m: string) {
    exists x :: x in files && !NodeBuilt(p.kind, x.name) && m == Member(FileOf(p, x))
  }

  lemma {:induction false} OnePackageMore(registry: seq<Package>, p: Package, m: string)
    ensures IsMember(registry + [p], m) <==> IsMember(registry, m) || IsMemberOf(p, p.files, m)
  {
    if IsMember(registry + [p], m) {
      var f :| IsListed(registry + [p], f) && !NodeBuilt(f.kind, f.file) && m == Member(f);
      var q, x :| q in registry + [p] && x in q.files && f == FileOf(q, x);
      if q in registry { assert IsListed(registry, f); }
    }
    if IsMember(registry, m) {
      var f :| IsListed(registry, f) && !NodeBuilt(f.kind, f.file) && m == Member(f);
      var q, x :| q in registry && x in q.files && f == FileOf(q, x);
      assert q in registry + [p] && IsListed(registry + [p], f);
    }
    if IsMemberOf(p, p.files, m) {
      var x :| x in p.files && !NodeBuilt(p.kind, x.name) && m == Member(FileOf(p, x));
      assert p in registry + [p] && IsListed(registry + [p], FileOf(p, x));
    }
  }

  method AddPackage(members0: Marks, p: Package) returns (members: Marks)
    ensures forall m :: m in members <==> m in members0 || IsMemberOf(p, p.files, m)
    ensures forall m :: m in members && !(m in members0 && !members0[m]) ==> members[m]
  {
    members := members0;
    for j := 0 to |p.files|
      invariant forall m :: m in members <==> m in members0 || IsMemberOf(p, p.files[..j], m)
      invariant forall m :: m in members && !(m in members0 && !members0[m]) ==> members[m]
    {
      var x := p.files[j];
      assert p.files[..j + 1] == p.files[..j] + [x];
      if !NodeBuilt(p.kind, x.name) { members := members[Member(FileOf(p, x)) := true]; }
    }
    assert p.files[..|p.files|] == p.files;
  }

  /** Reads a registry page by page, until a page is not full: every file of every package, but for those taken for node-built. */
  method PackagesOn(registry: seq<Package>) returns (members: Marks)
    ensures forall m :: m in members <==> IsMember(registry, m)
    ensures forall m :: m in members ==> members[m]
  {
    members := map[];
    var at, more := 0, true;
    while more
      invariant at <= |registry| && (!more ==> at == |registry|)
      invariant forall m :: m in members <==> IsMember(registry[..at], m)
      invariant forall m :: m in members ==> members[m]
      decreases |registry| - at, more
    {
      var end := if at + 50 <= |registry| then at + 50 else |registry|;
      more := end - at == 50;
      for i := at to end
        invariant forall m :: m in members <==> IsMember(registry[..i], m)
        invariant forall m :: m in members ==> members[m]
      {
        assert registry[..i + 1] == registry[..i] + [registry[i]];
        forall m ensures IsMember(registry[..i + 1], m) <==> IsMember(registry[..i], m) || IsMemberOf(registry[i], registry[i].files, m) {
          OnePackageMore(registry[..i], registry[i], m);
        }
        members := AddPackage(members, registry[i]);
      }
      at := end;
    }
    assert registry[..|registry|] == registry;
  }

  function VersionOf(f: File): string {
    f.kind + " " + f.name + " " + f.version
  }

  function NameOf(f: File): string {
    VersionOf(f) + "|" + f.file
  }

  predicate InVersion(member: string, version: string) {
    Parse(member).Some? && VersionOf(Parse(member).value) == version
  }

  predicate Named(member: string, name: string) {
    Parse(member).Some? && NameOf(Parse(member).value) == name
  }

  /** A type ForgeSync can publish. */
  predicate Carried(kind: string) {
    kind == "generic" || kind == "maven" || kind == "nuget" || kind == "rubygems" || kind == "helm"
  }

  predicate CanDeleteFile(kind: string) {
    kind == "generic"
  }

  // ----- contested files -----

  predicate Held(at: Haves, m: string) {
    exists n :: n in at && m in at[n]
  }

  /** Different content is held under one name. */
  ghost predicate Contested(at: Haves, name: string) {
    exists m, m' :: Held(at, m) && Held(at, m') && Named(m, name) && Named(m', name) && Parse(m).value.digest != Parse(m').value.digest
  }

  /** The same file of the same version: type, name and version read the same when joined by spaces, and the file's name is the same. */
  ghost predicate SameFile(f: File, g: File) {
    f.file == g.file && f.kind + " " + f.name + " " + f.version == g.kind + " " + g.name + " " + g.version
  }

  predicate Spaceless(f: File) {
    ' ' !in f.kind && ' ' !in f.name && ' ' !in f.version
  }

  lemma HeadIs(a: string, b: string, sep: char)
    ensures a == "" ==> (a + [sep] + b)[0] == sep
    ensures a != "" ==> (a + [sep] + b)[0] in a
  {
    if a != "" { assert (a + [sep] + b)[0] == a[0]; }
  }

  lemma {:induction false} CutAt(a: string, b: string, c: string, d: string, sep: char)
    requires sep !in a && sep !in c && a + [sep] + b == c + [sep] + d
    ensures a == c && b == d
  {
    HeadIs(a, b, sep);
    HeadIs(c, d, sep);
    if a == "" {
      assert (a + [sep] + b)[1..] == b && (c + [sep] + d)[1..] == d;
    } else {
      assert (a + [sep] + b)[0] == a[0] && (c + [sep] + d)[0] == c[0];
      assert (a + [sep] + b)[1..] == a[1..] + [sep] + b && (c + [sep] + d)[1..] == c[1..] + [sep] + d;
      CutAt(a[1..], b, c[1..], d, sep);
      assert a == [a[0]] + a[1..] && c == [c[0]] + c[1..];
    }
  }

  /** Two names are the same exactly for the same file of the same version; where no part holds a space, that is the same type, name, version and file. */
  lemma NamesAgreeExactlyWhen(f: File, g: File)
    requires (forall p :: p in PartsOf(f) ==> '|' !in p) && forall p :: p in PartsOf(g) ==> '|' !in p
    ensures NameOf(f) == NameOf(g) <==> SameFile(f, g)
    ensures Spaceless(f) && Spaceless(g) ==> (SameFile(f, g) <==> f.kind == g.kind && f.name == g.name && f.version == g.version && f.file == g.file)
  {
    assert f.kind in PartsOf(f) && f.name in PartsOf(f) && f.version in PartsOf(f) && f.file in PartsOf(f);
    assert g.kind in PartsOf(g) && g.name in PartsOf(g) && g.version in PartsOf(g) && g.file in PartsOf(g);
    if NameOf(f) == NameOf(g) {
      assert NameOf(f) == VersionOf(f) + ['|'] + f.file && NameOf(g) == VersionOf(g) + ['|'] + g.file;
      CutAt(VersionOf(f), f.file, VersionOf(g), g.file, '|');
    }
    if Spaceless(f) && Spaceless(g) && SameFile(f, g) {
      assert VersionOf(f) == f.kind + [' '] + (f.name + [' '] + f.version) && VersionOf(g) == g.kind + [' '] + (g.name + [' '] + g.version);
      CutAt(f.kind, f.name + [' '] + f.version, g.kind, g.name + [' '] + g.version, ' ');
      CutAt(f.name, f.version, g.name, g.version, ' ');
    }
  }

  lemma {:induction false} SplitParts(s: string, sep: char)
    ensures forall p :: p in Split(s, sep) ==> sep !in p
  {
    if s != "" { SplitParts(s[1..], sep); }
  }

  lemma ParsedPlain(m: string)
    ensures Parse(m).Some? ==> var f := Parse(m).value; '|' !in f.kind && '|' !in f.name && '|' !in f.version && '|' !in f.file && '|' !in f.digest
  {
    SplitParts(m, '|');
  }

  /** A held file is contested exactly when the same file is held somewhere with another digest. */
  lemma ContestedExactlyWhen(at: Haves, m: string)
    requires Held(at, m) && Parse(m).Some?
    ensures
      Contested(at, NameOf(Parse(m).value)) <==>
        exists k :: Held(at, k) && Parse(k).Some? && SameFile(Parse(m).value, Parse(k).value) && Parse(k).value.digest != Parse(m).value.digest
  {
    var f, name := Parse(m).value, NameOf(Parse(m).value);
    ParsedPlain(m);
    forall k | Held(at, k) && Parse(k).Some? ensures Named(k, name) <==> SameFile(f, Parse(k).value) {
      ParsedPlain(k);
      NamesAgreeExactlyWhen(f.(digest := ""), Parse(k).value.(digest := ""));
    }
    if Contested(at, name) {
      var k, k' :| Held(at, k) && Held(at, k') && Named(k, name) && Named(k', name) && Parse(k).value.digest != Parse(k').value.digest;
      if Parse(k).value.digest == f.digest { assert SameFile(f, Parse(k').value); } else { assert SameFile(f, Parse(k).value); }
    }
    if k :| Held(at, k) && Parse(k).Some? && SameFile(f, Parse(k).value) && Parse(k).value.digest != f.digest {
      assert Named(k, name) && Named(m, name);
    }
  }

  /** What a round gathers under each name. */
  ghost predicate Gathered(digests: map<string, set<string>>, seen: set<string>) {
    && (forall name, d :: name in digests && d in digests[name] ==> exists m :: m in seen && Named(m, name) && Parse(m).value.digest == d)
    && (forall m :: m in seen && Parse(m).Some? ==> NameOf(Parse(m).value) in digests && Parse(m).value.digest in digests[NameOf(Parse(m).value)])
  }

  function Noted(digests: map<string, set<string>>, m: string): map<string, set<string>> {
    match Parse(m)
    case None => digests
    case Some(f) =>
      var so := if NameOf(f) in digests then digests[NameOf(f)] else {};
      digests[NameOf(f) := so + {f.digest}]
  }

  lemma NotedIs(digests: map<string, set<string>>, seen: set<string>, m: string)
    requires Gathered(digests, seen)
    ensures Gathered(Noted(digests, m), seen + {m})
  {
    var after := Noted(digests, m);
    forall name, d | name in after && d in after[name] ensures exists k :: k in seen + {m} && Named(k, name) && Parse(k).value.digest == d {
      if name in digests && d in digests[name] {
        var k :| k in seen && Named(k, name) && Parse(k).value.digest == d;
        assert k in seen + {m};
      } else {
        assert Named(m, name) && Parse(m).value.digest == d;
      }
    }
  }

  method NoteAll(members: set<string>, digests: map<string, set<string>>,
                 ghost seen: set<string>) returns (r: map<string, set<string>>)
    requires Gathered(digests, seen)
    ensures Gathered(r, seen + members)
  {
    r := digests;
    var left := members;
    while left != {}
      invariant left <= members && Gathered(r, seen + (members - left))
      decreases left
    {
      var m :| m in left;
      NotedIs(r, seen + (members - left), m);
      assert seen + (members - left) + {m} == seen + (members - (left - {m}));
      r := Noted(r, m);
      left := left - {m};
    }
    assert members - {} == members;
  }

  ghost function Everything(at: Haves, nodes: set<Node>): (r: set<string>)
    ensures forall m :: m in r <==> exists n :: n in nodes && n in at && m in at[n]
  {
    set n, m | n in nodes && n in at && m in at[n] :: m
  }

  method ContestedFiles(at: Haves) returns (out: set<string>)
    ensures forall name :: name in out <==> Contested(at, name)
  {
    var digests: map<string, set<string>> := map[];
    var left := at.Keys;
    while left != {}
      invariant left <= at.Keys && Gathered(digests, Everything(at, at.Keys - left))
      decreases left
    {
      var n :| n in left;
      digests := NoteAll(at[n].Keys, digests, Everything(at, at.Keys - left));
      assert Everything(at, at.Keys - left) + at[n].Keys == Everything(at, at.Keys - (left - {n}));
      left := left - {n};
    }
    assert at.Keys - {} == at.Keys;
    out := set name | name in digests && |digests[name]| > 1;
    forall name ensures name in out <==> Contested(at, name) {
      ContestedIs(at, digests, name);
    }
  }

  lemma ContestedIs(at: Haves, digests: map<string, set<string>>, name: string)
    requires Gathered(digests, Everything(at, at.Keys))
    ensures name in digests && |digests[name]| > 1 <==> Contested(at, name)
  {
    if name in digests && |digests[name]| > 1 {
      TwoContents(at, digests, name);
    }
    if Contested(at, name) {
      var m, m' :| Held(at, m) && Held(at, m') && Named(m, name) && Named(m', name) && Parse(m).value.digest != Parse(m').value.digest;
      assert m in Everything(at, at.Keys) && m' in Everything(at, at.Keys);
      TwoIn(digests[name], Parse(m).value.digest, Parse(m').value.digest);
    }
  }

  lemma TwoContents(at: Haves, digests: map<string, set<string>>, name: string)
    requires Gathered(digests, Everything(at, at.Keys)) && name in digests && |digests[name]| > 1
    ensures Contested(at, name)
  {
    var a :| a in digests[name];
    assert |digests[name] - {a}| > 0;
    var b :| b in digests[name] - {a};
    var m :| m in Everything(at, at.Keys) && Named(m, name) && Parse(m).value.digest == a;
    var m' :| m' in Everything(at, at.Keys) && Named(m', name) && Parse(m').value.digest == b;
    assert Held(at, m) && Held(at, m');
  }

  lemma TwoIn(s: set<string>, a: string, b: string)
    requires a in s && b in s && a != b
    ensures |s| > 1
  {
    assert |s - {a}| > 0 by { assert b in s - {a}; }
  }

  /** The members left when contested files are taken out of a plan. */
  method WithoutContested(members: seq<string>, contested: set<string>) returns (out: seq<string>)
    requires Distinct(members)
    ensures Distinct(out) && forall m :: m in out <==> m in members && !(Parse(m).Some? && NameOf(Parse(m).value) in contested)
  {
    out := [];
    for i := 0 to |members|
      invariant Distinct(out) && forall m :: m in out <==>
        m in members[..i] && !(Parse(m).Some? && NameOf(Parse(m).value) in contested)
    {
      var f := Parse(members[i]);
      assert members[..i + 1] == members[..i] + [members[i]] && members[i] !in members[..i];
      if !(f.Some? && NameOf(f.value) in contested) { out := out + [members[i]]; }
    }
    assert members[..|members|] == members;
  }

  // ----- counting a version -----

  /** A version as the registry deletes it. */
  datatype Whole = Whole(node: Node, kind: string, name: string, version: string)

  ghost function OfVersion(members: set<string>, version: string): set<string> {
    set m | m in members && InVersion(m, version)
  }

  lemma OneMoreIn(seen: set<string>, m: string, version: string)
    requires m !in seen
    ensures |OfVersion(seen + {m}, version)| == |OfVersion(seen, version)| + if InVersion(m, version) then 1 else 0
  {
    assert OfVersion(seen + {m}, version) == OfVersion(seen, version) + if InVersion(m, version) then {m} else {};
  }

  method FilesOn(members: set<string>, version: string) returns (k: nat)
    ensures k == |OfVersion(members, version)|
  {
    k := 0;
    var left := members;
    ghost var seen: set<string> := {};
    while left != {}
      invariant members == seen + left && seen !! left && k == |OfVersion(seen, version)|
      decreases left
    {
      var m :| m in left;
      OneMoreIn(seen, m, version);
      if InVersion(m, version) { k := k + 1; }
      left, seen := left - {m}, seen + {m};
    }
    assert seen == members;
  }

  function Tally(going: map<string, nat>, version: string): nat {
    if version in going then going[version] else 0
  }

  lemma OneMoreOf(remove: seq<string>, i: nat, v: string)
    requires Distinct(remove) && i < |remove|
    ensures |OfVersion(Elements(remove[..i + 1]), v)| == |OfVersion(Elements(remove[..i]), v)| + if InVersion(remove[i], v) then 1 else 0
  {
    assert remove[..i + 1] == remove[..i] + [remove[i]] && remove[i] !in remove[..i];
    assert OfVersion(Elements(remove[..i + 1]), v) == OfVersion(Elements(remove[..i]), v) + if InVersion(remove[i], v) then {remove[i]} else {};
  }

  /** How many members of the plan are of each version. */
  method Going(remove: seq<string>) returns (going: map<string, nat>)
    requires Distinct(remove)
    ensures forall v :: Tally(going, v) == |OfVersion(Elements(remove), v)|
    ensures forall m :: m in remove && Parse(m).Some? ==> VersionOf(Parse(m).value) in going
  {
    going := map[];
    assert forall v :: OfVersion(Elements(remove[..0]), v) == {};
    for i := 0 to |remove|
      invariant forall v :: Tally(going, v) == |OfVersion(Elements(remove[..i]), v)|
      invariant forall j :: 0 <= j < i && Parse(remove[j]).Some? ==> VersionOf(Parse(remove[j]).value) in going
    {
      ghost var before := going;
      var f := Parse(remove[i]);
      if f.Some? {
        var v := VersionOf(f.value);
        going := going[v := Tally(going, v) + 1];
      }
      forall v ensures Tally(going, v) == |OfVersion(Elements(remove[..i + 1]), v)| {
        OneMoreOf(remove, i, v);
        assert Tally(before, v) == |OfVersion(Elements(remove[..i]), v)|;
      }
    }
    assert remove[..|remove|] == remove;
  }

  /** Everything the node lists under a version is in the plan. */
  ghost predicate AllGoing(here: set<string>, remove: seq<string>, version: string) {
    forall m :: m in here && InVersion(m, version) ==> m in remove
  }

  lemma CountsAgree(here: set<string>, remove: seq<string>, version: string)
    requires Elements(remove) <= here
    ensures |OfVersion(Elements(remove), version)| == |OfVersion(here, version)| <==> AllGoing(here, remove, version)
  {
    var some, all := OfVersion(Elements(remove), version), OfVersion(here, version);
    assert some <= all && all == some + (all - some);
    if |some| == |all| {
      assert |all - some| == 0;
      assert all - some == {};
      forall m | m in here && InVersion(m, version) ensures m in remove { assert m in all; }
    }
    if AllGoing(here, remove, version) {
      assert some == all;
    }
  }

  /** By counting alone: the planned versions all of whose files here are planned. */
  method WholeVersions(here: set<string>, remove: seq<string>) returns (whole: set<string>)
    requires Distinct(remove) && Elements(remove) <= here
    ensures forall v :: v in whole ==> AllGoing(here, remove, v)
    ensures forall m :: m in remove && Parse(m).Some? && AllGoing(here, remove, VersionOf(Parse(m).value)) ==>
      VersionOf(Parse(m).value) in whole
  {
    whole := {};
    var going := Going(remove);
    var left := going.Keys;
    while left != {}
      invariant left <= going.Keys
      invariant forall v :: v in whole <==> v in going && v !in left && AllGoing(here, remove, v)
      decreases left
    {
      var v :| v in left;
      assert going[v] == Tally(going, v);
      var k := FilesOn(here, v);
      CountsAgree(here, remove, v);
      if going[v] == k { whole := whole + {v}; }
      left := left - {v};
    }
  }

  // ----- carrying the plan out -----

  class Owner {
    var at: Haves
    ghost var wholes: set<Whole>             // versions asked to be deleted
    ghost var singles: set<(Node, string)>   // files asked to be deleted on their own
    ghost var published: set<(Node, string)> // files a node was asked to take

    constructor (at: Haves)
      ensures this.at == at && wholes == {} && singles == {} && published == {}
    {
      this.at, wholes, singles, published := at, {}, {}, {};
    }

    /** What this node's removals may ask for. */
    ghost predicate RemovalsDue(n: Node, here: set<string>, remove: seq<string>, wholes0: set<Whole>, singles0: set<(Node, string)>)
      reads this
    {
      && wholes0 <= wholes && singles0 <= singles
      && (forall w :: w in wholes && w !in wholes0 ==> w.node == n && AllGoing(here, remove, VersionOf(File(w.kind, w.name, w.version, "", ""))))
      && (forall k, m :: (k, m) in singles && (k, m) !in singles0 ==> k == n && m in remove && Parse(m).Some? && CanDeleteFile(Parse(m).value.kind))
    }

    /** Only planned members go from what the run takes the node to have. */
    ghost predicate OnlyPlannedGone(n: Node, at0: Haves, remove: seq<string>)
      requires n in at0
      reads this
    {
      && n in at && at == at0[n := at[n]]
      && (forall m :: m in at[n] ==> m in at0[n] && at[n][m] == at0[n][m])
      && forall m :: m in at0[n] && m !in at[n] ==> m in remove
    }

    method RemoveOne(n: Node, m: string, remove: seq<string>, whole: set<string>, ghost at0: Haves,
                     ghost wholes0: set<Whole>, ghost singles0: set<(Node, string)>)
      requires n in at0 && OnlyPlannedGone(n, at0, remove) && RemovalsDue(n, at0[n].Keys, remove, wholes0, singles0)
      requires m in remove && forall v :: v in whole ==> AllGoing(at0[n].Keys, remove, v)
      requires Parse(m).Some? && AllGoing(at0[n].Keys, remove, VersionOf(Parse(m).value)) ==> VersionOf(Parse(m).value) in whole
      modifies this`at, this`wholes, this`singles
      ensures OnlyPlannedGone(n, at0, remove) && RemovalsDue(n, at0[n].Keys, remove, wholes0, singles0)
      ensures RemovalAsked(n, at0[n].Keys, remove, m, wholes, singles)
      ensures old(wholes) <= wholes && old(singles) <= singles
    {
      var f := Parse(m);
      if f.None? { return; }
      var version := VersionOf(f.value);
      if version in whole {
        assert VersionOf(File(f.value.kind, f.value.name, f.value.version, "", "")) == version;
        wholes := wholes + {Whole(n, f.value.kind, f.value.name, f.value.version)};
      } else if CanDeleteFile(f.value.kind) {
        singles := singles + {(n, m)};
      } else {
        return; // reported, and nothing is asked of the node
      }
      if * { return; } // the call failed
      var left := at[n] - {m};
      if version in whole {
        left := map k | k in left && !InVersion(k, version) :: left[k];
      }
      at := at[n := left];
    }

    /** Asks node n for each planned removal in the one way it can go, and forgets only planned members. */
    method RemoveFiles(n: Node, remove: seq<string>)
      requires n in at && Distinct(remove) && Elements(remove) <= at[n].Keys
      modifies this`at, this`wholes, this`singles
      ensures OnlyPlannedGone(n, old(at), remove) && RemovalsDue(n, old(at)[n].Keys, remove, old(wholes), old(singles))
      ensures forall m :: m in remove ==> RemovalAsked(n, old(at)[n].Keys, remove, m, wholes, singles)
    {
      var whole := WholeVersions(at[n].Keys, remove);
      assert at == at[n := at[n]];
      for i := 0 to |remove|
        invariant OnlyPlannedGone(n, old(at), remove) && RemovalsDue(n, old(at)[n].Keys, remove, old(wholes), old(singles))
        invariant forall j :: 0 <= j < i ==> RemovalAsked(n, old(at)[n].Keys, remove, remove[j], wholes, singles)
      {
        RemoveOne(n, remove[i], remove, whole, old(at), old(wholes), old(singles));
      }
    }

    /** Whom to fetch a file from: some other node that has it, and none only if no other has. */
    method Source(order: seq<Node>, m: string, not: Node) returns (from: Option<Node>)
      ensures from.Some? ==> from.value in order && from.value != not && from.value in at && Has(at[from.value], m)
      ensures from.None? ==> forall k :: k in order && k != not ==> !(k in at && Has(at[k], m))
    {
      for i := 0 to |order|
        invariant forall k :: k in order[..i] && k != not ==> !(k in at && Has(at[k], m))
      {
        assert order[..i + 1] == order[..i] + [order[i]];
        if order[i] != not && order[i] in at && Has(at[order[i]], m) { return Some(order[i]); }
      }
      assert order[..|order|] == order;
      from := None;
    }

    /** Asks node n to take each planned file of a carried type that can come from somewhere; nothing else is touched. */
    method AddFiles(order: seq<Node>, n: Node, add: seq<string>)
      requires n in at
      modifies this`at, this`published
      ensures n in at && at == old(at)[n := at[n]] && forall m :: Has(old(at)[n], m) ==> Has(at[n], m)
      ensures old(published) <= published
      ensures forall k, m :: (k, m) in published && (k, m) !in old(published) ==>
        k == n && m in add && Parse(m).Some? && Carried(Parse(m).value.kind)
      ensures forall m :: m in add && CanCome(old(at), order, n, m) ==> (n, m) in published
    {
      assert at == at[n := at[n]];
      for i := 0 to |add|
        invariant n in at && at == old(at)[n := at[n]] && forall m :: Has(old(at)[n], m) ==> Has(at[n], m)
        invariant old(published) <= published
        invariant forall k, m :: (k, m) in published && (k, m) !in old(published) ==>
          k == n && m in add && Parse(m).Some? && Carried(Parse(m).value.kind)
        invariant forall j :: 0 <= j < i && CanCome(old(at), order, n, add[j]) ==> (n, add[j]) in published
      {
        var m := add[i];
        var f := Parse(m);
        if f.Some? && Carried(f.value.kind) {
          var from := Source(order, m, n);
          if from.Some? {
            published := published + {(n, m)};
            if * { // it arrived, and the node said so
              at := at[n := at[n][m := true]];
            }
          }
        }
      }
    }

    ghost function Asked(): Calls
      reads this
    {
      Calls(wholes, singles, published)
    }

    /** One node's removals. */
    method BringRemovals(n: Node, remove: seq<string>, contested: set<string>, ghost at0: Haves, ghost base: Marks)
      requires n in at && n in at0 && at[n] == at0[n] && Survives(at0, at, base)
      requires Distinct(remove) && Uncontested(remove, Removals(at0, base, n), contested) && AreContested(at0, contested)
      modifies this`at, this`wholes, this`singles
      ensures n in at && at == old(at)[n := at[n]] && Survives(at0, at, base)
      ensures OnlyDue(at0, base, old(Asked()), Asked()) && RemovalsAskedOf(at0, base, n, Asked())
    {
      assert forall m :: m in Elements(remove) ==> m in Removals(at0, base, n) && m in at[n].Keys;
      ghost var before, at1 := Asked(), at;
      RemoveFiles(n, remove);
      WholesDue(at0, base, n, remove, contested, before, Asked());
      StillSurvives(at0, base, n, remove, at1, at);
      RemovalsAsked(at0, base, n, remove, contested, Asked());
    }

    /** One node's additions. */
    method BringAdditions(order: seq<Node>, n: Node, add: seq<string>, contested: set<string>, ghost at0: Haves, ghost base: Marks)
      requires n in at && n in at0 && Survives(at0, at, base) && forall k :: k in at0 ==> k in order
      requires Uncontested(add, Additions(at0, base, n), contested) && AreContested(at0, contested)
      modifies this`at, this`published
      ensures n in at && at == old(at)[n := at[n]] && Survives(at0, at, base)
      ensures OnlyDue(at0, base, old(Asked()), Asked()) && AdditionsAskedOf(at0, base, n, Asked())
    {
      AllCanCome(at0, base, n, add, at, order, contested);
      AddFiles(order, n, add);
    }

    /** One node's turn: contested files are left out, then removals, then additions. */
    method Bring(order: seq<Node>, n: Node, plan: Plan, contested: set<string>, ghost at0: Haves, ghost base: Marks)
      requires n in at && n in at0 && at[n] == at0[n] && Survives(at0, at, base) && forall k :: k in at0 ==> k in order
      requires PlanFor(plan, at0, base, n) && AreContested(at0, contested)
      modifies this
      ensures n in at && at == old(at)[n := at[n]] && Survives(at0, at, base)
      ensures OnlyDue(at0, base, old(Asked()), Asked()) && NodeAsked(at0, base, n, Asked())
    {
      var remove := WithoutContested(Entry(plan.remove, n), contested);
      var add := WithoutContested(Entry(plan.add, n), contested);
      InPlan(remove, Removals(at0, base, n), contested, Entry(plan.remove, n));
      InPlan(add, Additions(at0, base, n), contested, Entry(plan.add, n));
      ghost var before := Asked();
      BringRemovals(n, remove, contested, at0, base);
      ghost var mid := Asked();
      BringAdditions(order, n, add, contested, at0, base);
      OnlyDueThen(at0, base, before, mid, Asked());
    }

    /** One owner's packages on every node that was read: every node is asked for exactly what is due. */
    method Sync(order: seq<Node>, base: Marks)
      requires Distinct(order) && forall n :: n in at ==> n in order
      modifies this
      ensures OnlyDue(old(at), base, old(Asked()), Asked())
      ensures |old(at)| >= 2 ==> AllAsked(old(at), base, order, Asked())
    {
      if |at| < 2 { return; }
      ghost var at0 := at;
      var plan := Decide(at, base);
      var contested := ContestedFiles(at);
      for i := 0 to |order|
        invariant at.Keys == at0.Keys && forall j :: i <= j < |order| && order[j] in at ==> at[order[j]] == at0[order[j]]
        invariant Survives(at0, at, base) && OnlyDue(at0, base, old(Asked()), Asked())
        invariant AllAsked(at0, base, order[..i], Asked())
      {
        ghost var before := Asked();
        if order[i] in at {
          Bring(order, order[i], plan, contested, at0, base);
        }
        OnlyDueThen(at0, base, old(Asked()), before, Asked());
        OneMoreAsked(at0, base, order, i, before, Asked());
      }
      assert order[..|order|] == order;
    }
  }

  /** What nodes were asked: whole versions deleted, files deleted on their own, files taken. */
  datatype Calls = Calls(wholes: set<Whole>, singles: set<(Node, string)>, published: set<(Node, string)>)

  ghost predicate OnlyDue(at: Haves, base: Marks, before: Calls, after: Calls) {
    && before.wholes <= after.wholes && before.singles <= after.singles && before.published <= after.published
    && (forall w :: w in after.wholes && w !in before.wholes ==> WholeDue(at, base, w))
    && (forall k, m :: (k, m) in after.singles && (k, m) !in before.singles ==> SingleDue(at, base, k, m))
    && (forall k, m :: (k, m) in after.published && (k, m) !in before.published ==> PublicationDue(at, base, k, m))
  }

  lemma OnlyDueThen(at: Haves, base: Marks, a: Calls, b: Calls, c: Calls)
    requires OnlyDue(at, base, a, b) && OnlyDue(at, base, b, c)
    ensures OnlyDue(at, base, a, c)
  {
  }

  ghost predicate AllAsked(at: Haves, base: Marks, nodes: seq<Node>, calls: Calls) {
    forall n :: n in nodes && n in at ==> NodeAsked(at, base, n, calls)
  }

  lemma OneMoreAsked(at: Haves, base: Marks, order: seq<Node>, i: nat, before: Calls, after: Calls)
    requires i < |order| && AllAsked(at, base, order[..i], before) && OnlyDue(at, base, before, after)
    requires order[i] in at ==> NodeAsked(at, base, order[i], after)
    ensures AllAsked(at, base, order[..i + 1], after)
  {
    assert order[..i + 1] == order[..i] + [order[i]];
    forall n | n in order[..i + 1] && n in at ensures NodeAsked(at, base, n, after) {
      if n in order[..i] {
        assert NodeAsked(at, base, n, before);
        StillAsked(at, base, n, before, after);
      }
    }
  }

  lemma StillAsked(at: Haves, base: Marks, n: Node, before: Calls, after: Calls)
    requires n in at && NodeAsked(at, base, n, before) && OnlyDue(at, base, before, after)
    ensures NodeAsked(at, base, n, after)
  {
  }

  ghost predicate PlanFor(plan: Plan, at: Haves, base: Marks, n: Node) {
    Entry(plan.add, n) == Listing(Additions(at, base, n)) && Entry(plan.remove, n) == Listing(Removals(at, base, n))
  }

  ghost predicate AreContested(at: Haves, contested: set<string>) {
    forall name :: name in contested <==> Contested(at, name)
  }

  /** The list is what is planned, without contested files. */
  ghost predicate Uncontested(list: seq<string>, planned: set<string>, contested: set<string>) {
    forall m :: m in list <==> m in planned && !(Parse(m).Some? && NameOf(Parse(m).value) in contested)
  }

  lemma WholesDue(at: Haves, base: Marks, n: Node, remove: seq<string>, contested: set<string>, before: Calls, after: Calls)
    requires n in at && Uncontested(remove, Removals(at, base, n), contested) && AreContested(at, contested)
    requires before.wholes <= after.wholes && before.singles <= after.singles && after.published == before.published
    requires forall w :: w in after.wholes && w !in before.wholes ==>
      w.node == n && AllGoing(at[n].Keys, remove, VersionOf(File(w.kind, w.name, w.version, "", "")))
    requires forall k, m :: (k, m) in after.singles && (k, m) !in before.singles ==>
      k == n && m in remove && Parse(m).Some? && CanDeleteFile(Parse(m).value.kind)
    ensures OnlyDue(at, base, before, after)
  {
    forall w | w in after.wholes && w !in before.wholes ensures WholeDue(at, base, w) {
      forall m | m in at[n] && InVersion(m, VersionOf(File(w.kind, w.name, w.version, "", "")))
        ensures m in Removals(at, base, n) && !Contested(at, NameOf(Parse(m).value))
      {
        assert m in remove;
      }
    }
  }

  /** The call a planned removal leads to: the version whole when all of it goes, the file alone when its type allows that. */
  ghost predicate RemovalAsked(n: Node, here: set<string>, remove: seq<string>, m: string, wholes: set<Whole>,
                               singles: set<(Node, string)>) {
    Parse(m).Some? ==>
      var f := Parse(m).value;
      if AllGoing(here, remove, VersionOf(f)) then Whole(n, f.kind, f.name, f.version) in wholes
      else CanDeleteFile(f.kind) ==> (n, m) in singles
  }

  /** Another node has the file to publish from. */
  predicate CanCome(at: Haves, order: seq<Node>, n: Node, m: string) {
    Parse(m).Some? && Carried(Parse(m).value.kind) && exists k :: k in order && k != n && k in at && Has(at[k], m)
  }

  /** Members that were never agreed on stay where they are: no removal takes them. */
  ghost predicate Survives(at0: Haves, at: Haves, base: Marks) {
    forall k, m :: k in at0 && Has(at0[k], m) && !Has(base, m) ==> k in at && Has(at[k], m)
  }

  /** Everything listed there under a version is to go, and none of it is contested. */
  ghost predicate VersionGoes(at: Haves, base: Marks, n: Node, version: string)
    requires n in at
  {
    forall m :: m in at[n] && InVersion(m, version) ==> m in Removals(at, base, n) && !Contested(at, NameOf(Parse(m).value))
  }

  ghost predicate RemovalsAskedOf(at: Haves, base: Marks, n: Node, calls: Calls)
    requires n in at
  {
    forall m :: m in Removals(at, base, n) && Parse(m).Some? && !Contested(at, NameOf(Parse(m).value)) ==>
      var f := Parse(m).value;
      if VersionGoes(at, base, n, VersionOf(f)) then Whole(n, f.kind, f.name, f.version) in calls.wholes
      else f.kind == "generic" ==> (n, m) in calls.singles
  }

  ghost predicate AdditionsAskedOf(at: Haves, base: Marks, n: Node, calls: Calls) {
    forall m :: PublicationDue(at, base, n, m) ==> (n, m) in calls.published
  }

  /** A node was asked for everything planned for it that is not contested. */
  ghost predicate NodeAsked(at: Haves, base: Marks, n: Node, calls: Calls)
    requires n in at
  {
    RemovalsAskedOf(at, base, n, calls) && AdditionsAskedOf(at, base, n, calls)
  }

  lemma StillSurvives(at0: Haves, base: Marks, n: Node, remove: seq<string>, before: Haves, at: Haves)
    requires n in at0 && n in before && before[n] == at0[n] && n in at && at == before[n := at[n]] && Survives(at0, before, base)
    requires forall m :: m in remove ==> m in Removals(at0, base, n)
    requires forall m :: m in at[n] ==> m in at0[n] && at[n][m] == at0[n][m]
    requires forall m :: m in at0[n] && m !in at[n] ==> m in remove
    ensures Survives(at0, at, base)
  {
    forall m | Has(at0[n], m) && !Has(base, m) ensures Has(at[n], m) {
      assert m !in Removals(at0, base, n);
    }
    forall k, m | k in at0 && Has(at0[k], m) && !Has(base, m) ensures k in at && Has(at[k], m) {
      assert k in before && Has(before[k], m);
    }
  }

  lemma AllCanCome(at0: Haves, base: Marks, n: Node, add: seq<string>, at: Haves, order: seq<Node>, contested: set<string>)
    requires n in at0 && Survives(at0, at, base) && (forall k :: k in at0 ==> k in order)
    requires Uncontested(add, Additions(at0, base, n), contested) && AreContested(at0, contested)
    ensures forall m :: m in add && Parse(m).Some? && Carried(Parse(m).value.kind) ==> CanCome(at, order, n, m)
  {
    forall m | m in add && Parse(m).Some? && Carried(Parse(m).value.kind) ensures CanCome(at, order, n, m) {
      assert ToAdd(at0, base, n, m);
      var k :| k in at0 && Has(at0[k], m);
      assert k in order && k != n && k in at && Has(at[k], m);
    }
  }

  lemma RemovalsAsked(at0: Haves, base: Marks, n: Node, remove: seq<string>, contested: set<string>, calls: Calls)
    requires n in at0 && Uncontested(remove, Removals(at0, base, n), contested) && AreContested(at0, contested)
    requires forall m :: m in remove ==> RemovalAsked(n, at0[n].Keys, remove, m, calls.wholes, calls.singles)
    ensures RemovalsAskedOf(at0, base, n, calls)
  {
    forall m | m in Removals(at0, base, n) && Parse(m).Some? && !Contested(at0, NameOf(Parse(m).value))
      ensures
        var f := Parse(m).value;
        if VersionGoes(at0, base, n, VersionOf(f)) then Whole(n, f.kind, f.name, f.version) in calls.wholes
        else CanDeleteFile(f.kind) ==> (n, m) in calls.singles
    {
      assert m in remove && RemovalAsked(n, at0[n].Keys, remove, m, calls.wholes, calls.singles);
      VersionGoesIs(at0, base, n, remove, contested, VersionOf(Parse(m).value));
    }
  }

  lemma VersionGoesIs(at0: Haves, base: Marks, n: Node, remove: seq<string>, contested: set<string>, v: string)
    requires n in at0 && Uncontested(remove, Removals(at0, base, n), contested) && AreContested(at0, contested)
    ensures VersionGoes(at0, base, n, v) <==> AllGoing(at0[n].Keys, remove, v)
  {
  }

  lemma InPlan(list: seq<string>, planned: set<string>, contested: set<string>, whole: seq<string>)
    requires Elements(whole) == planned
    requires forall m :: m in list <==> m in whole && !(Parse(m).Some? && NameOf(Parse(m).value) in contested)
    ensures forall m :: m in list <==> m in planned && !(Parse(m).Some? && NameOf(Parse(m).value) in contested)
  {
    forall m ensures m in whole <==> m in planned { assert m in whole <==> m in Elements(whole); }
  }

  // ----- what may be asked of a node -----

  /** A whole version goes only when every file listed there under it is to go, and none of them is contested. */
  ghost predicate WholeDue(at: Haves, base: Marks, w: Whole) {
    && w.node in at
    && forall m :: m in at[w.node] && InVersion(m, VersionOf(File(w.kind, w.name, w.version, "", ""))) ==>
         m in Removals(at, base, w.node) && !Contested(at, NameOf(Parse(m).value))
  }

  ghost predicate SingleDue(at: Haves, base: Marks, n: Node, m: string) {
    n in at && m in Removals(at, base, n) && Parse(m).Some? && Parse(m).value.kind == "generic" && !Contested(at, NameOf(Parse(m).value))
  }

  /** A file is put only where it is missing, and nowhere is there other content under its name. */
  ghost predicate PublicationDue(at: Haves, base: Marks, n: Node, m: string) {
    n in at && m in Additions(at, base, n) && Parse(m).Some? && Parse(m).value.kind in ["generic", "maven", "nuget", "rubygems", "helm"] && !Contested(at, NameOf(Parse(m).value))
  }

  /** So what is published never stands beside other content of the same name, on that node or another. */
  lemma NothingPublishedOver(at: Haves, base: Marks, n: Node, m: string, k: Node, other: string)
    requires PublicationDue(at, base, n, m) && k in at && other in at[k] && Named(other, NameOf(Parse(m).value))
    ensures Parse(other).value.digest == Parse(m).value.digest
  {
    assert ToAdd(at, base, n, m);
    var src :| src in at && Has(at[src], m);
    assert Held(at, m) && Held(at, other) && Named(m, NameOf(Parse(m).value));
  }

  predicate Barred(f: File) {
    exists p :: p in PartsOf(f) && '|' in p
  }

  /** The round knows of the file and means it to go. */
  ghost predicate Planned(at: Haves, base: Marks, n: Node, f: File)
    requires n in at
  {
    !NodeBuilt(f.kind, f.file) && Member(f) in Removals(at, base, n)
  }

  ghost predicate ReadFrom(at: Haves, n: Node, registry: seq<Package>) {
    n in at && forall m :: m in at[n] <==> IsMember(registry, m)
  }

  /**
   * What deleting a version takes besides the plan, of any files the registry lists under it, say
   * those people uploaded: exactly the ones taken for node-built by their names, and the ones whose
   * member cannot be taken apart, because a part holds a bar, and that are not in the plan.
   */
  lemma WholeTakesOnlyThePlan(at: Haves, base: Marks, w: Whole, registry: seq<Package>, files: set<File>)
    requires WholeDue(at, base, w) && ReadFrom(at, w.node, registry)
    requires forall f :: f in files ==> f.kind == w.kind && f.name == w.name && f.version == w.version && IsListed(registry, f)
    ensures
      (forall f :: f in files ==> Planned(at, base, w.node, f)) <==>
      (forall f :: f in files ==> !NodeBuilt(f.kind, f.file) && (Barred(f) ==> Member(f) in Removals(at, base, w.node)))
  {
    forall f | f in files && !NodeBuilt(f.kind, f.file) && !Barred(f) ensures Member(f) in Removals(at, base, w.node) {
      MemberTakenApart(f);
      assert IsMember(registry, Member(f)) && Member(f) in at[w.node];
      assert InVersion(Member(f), VersionOf(File(w.kind, w.name, w.version, "", "")));
    }
  }

  lemma OtherMember(f: File, g: File)
    requires !Barred(f) && !NodeBuilt(f.kind, f.file) && g.kind == f.kind && ('|' in g.file || NodeBuilt(g.kind, g.file))
    ensures Parse(Member(f)) == Some(f.(digest := Short(f.digest))) && Member(g) != Member(f)
    ensures '|' in g.file ==> Parse(Member(g)).None?
  {
    MemberTakenApart(f);
    MemberTakenApart(g);
    assert g.file in PartsOf(g);
  }

  /**
   * It happens: two files of one version, the second with a bar in its own name, so that ForgeSync can
   * neither carry it nor count it to the version, or with a name it takes for node-built, so that it
   * never sees it. Once the first is deleted on the other node, the whole version is asked for, and
   * the second goes with it, which was never agreed and is nowhere else.
   */
  lemma WholeTakesAnUnplannedFile(at: Haves, base: Marks, a: Node, b: Node, registry: seq<Package>, f: File, g: File)
    requires a != b && at.Keys == {a, b} && at[b] == map[] && base == map[Member(f) := true]
    requires ReadFrom(at, a, registry) && (forall m :: m in at[a] ==> at[a][m]) && forall x :: IsListed(registry, x) <==> x == f || x == g
    requires !Barred(f) && !NodeBuilt(f.kind, f.file) && ('|' in g.file || NodeBuilt(g.kind, g.file))
    requires g.kind == f.kind && g.name == f.name && g.version == f.version
    ensures
      var w := Whole(a, f.kind, f.name, f.version);
      && WholeDue(at, base, w) && (forall calls :: NodeAsked(at, base, a, calls) ==> w in calls.wholes)
      && IsListed(registry, g) && !Planned(at, base, a, g) && !Has(base, Member(g)) && !Has(at[b], Member(g))
  {
    var m, v := Member(f), VersionOf(f);
    OtherMember(f, g);
    assert IsMember(registry, m);
    forall k | k in at[a] && Parse(k).Some? ensures k == m {
      assert IsMember(registry, k);
    }
    assert !Has(at[b], m) && ToRemove(at, base, a, m);
    assert forall k :: Held(at, k) && Parse(k).Some? ==> k == m;
    assert !Contested(at, NameOf(Parse(m).value));
    assert VersionGoes(at, base, a, v);
    forall calls | NodeAsked(at, base, a, calls) ensures Whole(a, f.kind, f.name, f.version) in calls.wholes {
      assert m in Removals(at, base, a);
    }
  }

  /** As when notes are uploaded beside a maven file under a name that starts as the node's own do. */
  lemma NotesGoWithTheirVersion(at: Haves, base: Marks, a: Node, b: Node, digest: string, notes: string)
    requires a != b && '|' !in digest
    requires
      var f := File("maven", "lib", "1", "f.jar", digest);
      at == map[a := map[Member(f) := true], b := map[]] && base == map[Member(f) := true]
    ensures
      var registry := [Package("maven", "lib", "1", [Upload("f.jar", digest), Upload("maven-metadata.xml.notes", notes)])];
      && ReadFrom(at, a, registry) && WholeDue(at, base, Whole(a, "maven", "lib", "1"))
      && forall calls :: NodeAsked(at, base, a, calls) ==> Whole(a, "maven", "lib", "1") in calls.wholes
  {
    var p := Package("maven", "lib", "1", [Upload("f.jar", digest), Upload("maven-metadata.xml.notes", notes)]);
    var f, g := FileOf(p, p.files[0]), FileOf(p, p.files[1]);
    assert "maven-metadata.xml.notes"[..|"maven-metadata.xml"|] == "maven-metadata.xml";
    assert f.file[0] != "maven-metadata.xml"[0];
    forall x | IsListed([p], x) ensures x == f || x == g {
      var q, u :| q in [p] && u in q.files && x == FileOf(q, u);
    }
    assert p in [p] && p.files[0] in p.files && p.files[1] in p.files;
    assert IsListed([p], f) && IsListed([p], g);
    assert IsMember([p], Member(f));
    WholeTakesAnUnplannedFile(at, base, a, b, [p], f, g);
  }
}
