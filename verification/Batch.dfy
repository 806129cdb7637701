/** Taking the output of `git cat-file --batch` apart: a header line, so many bytes, a newline, and again. */
module Batch {
  import opened Optional
  import Decimal

  const MAX_INT := 0x7fff_ffff_ffff_ffff

  predicate IsSpace(c: char) {
    c == ' ' || '\t' <= c <= '\r'
  }

  /** strings.Cut at the first newline. */
  function Cut(s: string): Option<(string, string)> {
    if s == "" then None
    else if s[0] == '\n' then Some(("", s[1..]))
    else match Cut(s[1..])
      case None => None
      case Some(p) => Some(([s[0]] + p.0, p.1))
  }

  lemma {:induction false} CutIs(s: string)
    ensures Cut(s).None? <==> '\n' !in s
    ensures Cut(s).Some? ==> '\n' !in Cut(s).value.0 && s == Cut(s).value.0 + "\n" + Cut(s).value.1
  {
    if s != "" {
      assert s == [s[0]] + s[1..];
      if s[0] != '\n' { CutIs(s[1..]); }
    }
  }

  lemma {:induction false} CutLine(line: string, rest: string)
    requires '\n' !in line
    ensures Cut(line + ("\n" + rest)) == Some((line, rest))
  {
    var s := line + ("\n" + rest);
    if line == "" {
      assert s == "\n" + rest && s[1..] == rest;
    } else {
      assert forall c :: c in line[1..] ==> c in line;
      CutLine(line[1..], rest);
      assert s[1..] == line[1..] + ("\n" + rest);
      assert line == [line[0]] + line[1..];
    }
  }

  function Word(s: string): (w: string)
    ensures |w| <= |s| && w == s[..|w|]
  {
    if s == "" || IsSpace(s[0]) then "" else [s[0]] + Word(s[1..])
  }

  /** strings.Fields: the words between runs of white space. */
  function Fields(s: string): seq<string>
    decreases |s|
  {
    if s == "" then []
    else if IsSpace(s[0]) then Fields(s[1..])
    else [Word(s)] + Fields(s[|Word(s)|..])
  }

  predicate Solid(s: string) {
    s != "" && forall c :: c in s ==> !IsSpace(c)
  }

  lemma {:induction false} WordIs(w: string, rest: string)
    requires (forall c :: c in w ==> !IsSpace(c)) && (rest == "" || IsSpace(rest[0]))
    ensures Word(w + rest) == w
  {
    if w == "" {
      assert w + rest == rest;
    } else {
      assert forall c :: c in w[1..] ==> c in w;
      WordIs(w[1..], rest);
      assert (w + rest)[1..] == w[1..] + rest && w == [w[0]] + w[1..];
    }
  }

  lemma FieldsFirst(w: string, rest: string)
    requires Solid(w) && (rest == "" || IsSpace(rest[0]))
    ensures Fields(w + rest) == [w] + if rest == "" then [] else Fields(rest[1..])
  {
    assert w[0] in w;
    WordIs(w, rest);
    assert (w + rest)[|w|..] == rest;
  }

  lemma FieldThenMore(w: string, rest: string)
    requires Solid(w)
    ensures Fields(w + (" " + rest)) == [w] + Fields(rest)
  {
    assert (" " + rest)[1..] == rest;
    FieldsFirst(w, " " + rest);
  }

  lemma LastField(w: string)
    requires Solid(w)
    ensures Fields(w) == [w]
  {
    FieldsFirst(w, "");
    assert w + "" == w;
  }

  function Three(a: string, b: string, c: string): string {
    a + (" " + (b + (" " + c)))
  }

  lemma ThreeFields(a: string, b: string, c: string)
    requires Solid(a) && Solid(b) && Solid(c)
    ensures Fields(Three(a, b, c)) == [a, b, c]
    ensures '\n' !in Three(a, b, c)
  {
    FieldThenMore(a, b + (" " + c));
    FieldThenMore(b, c);
    LastField(c);
    assert IsSpace('\n');
  }

  /** strconv.Atoi: an optional sign, then digits, within an int. */
  function Atoi(s: string): Option<int> {
    var signed := s != "" && (s[0] == '+' || s[0] == '-');
    var digits := if signed then s[1..] else s;
    if digits == "" || !Decimal.AllDigits(digits) then None
    else
      var n := Decimal.Value(digits);
      if signed && s[0] == '-' then
        var negative: int := 0 - n;
        if n <= MAX_INT + 1 then Some(negative) else None
      else if n <= MAX_INT then Some(n) else None
  }

  lemma AtoiPrint(n: nat)
    requires n <= MAX_INT
    ensures Atoi(Decimal.Print(n)) == Some(n)
  {
    Decimal.ValuePrint(n);
    assert Decimal.IsDigit(Decimal.Print(n)[0]);
  }

  /** A slice with a negative bound panics. */
  datatype Outcome = Contents(objects: seq<string>) | Panics

  function TrimNewline(s: string): string {
    if s != "" && s[0] == '\n' then s[1..] else s
  }

  datatype Step = Stop | Crash | Object(content: string, rest: string)

  /** One turn of the loop. */
  function Next(rest: string): (r: Step)
    ensures r.Object? ==> |r.rest| < |rest|
  {
    CutIs(rest);
    match Cut(rest)
    case None => Stop
    case Some(p) =>
      var f := Fields(p.0);
      if |f| != 3 then Stop
      else match Atoi(f[2])
        case None => Stop
        case Some(size) =>
          if size > |p.1| then Stop
          else if size < 0 then Crash
          else Object(p.1[..size], TrimNewline(p.1[size..]))
  }

  function Parsed(out: string): Outcome
    decreases |out|
  {
    if out == "" then Contents([])
    else match Next(out)
      case Stop => Contents([])
      case Crash => Panics
      case Object(content, rest) =>
        match Parsed(rest)
        case Panics => Panics
        case Contents(more) => Contents([content] + more)
  }

  function Prefixed(done: seq<string>, o: Outcome): Outcome {
    match o
    case Panics => Panics
    case Contents(more) => Contents(done + more)
  }

  /** The loop: it ends on every input. */
  method BatchContents(out: string) returns (r: Outcome)
    ensures r == Parsed(out)
  {
    var contents: seq<string> := [];
    var rest := out;
    while rest != ""
      invariant Parsed(out) == Prefixed(contents, Parsed(rest))
      decreases |rest|
    {
      CutIs(rest);
      var cut := Cut(rest);
      if cut.None? { break; }
      var header, body := cut.value.0, cut.value.1;
      var f := Fields(header);
      if |f| != 3 { break; }
      var size := Atoi(f[2]);
      if size.None? || size.value > |body| { break; }
      if size.value < 0 { return Panics; }
      assert Next(rest) == Object(body[..size.value], TrimNewline(body[size.value..]));
      contents := contents + [body[..size.value]];
      rest := TrimNewline(body[size.value..]);
    }
    r := Contents(contents);
  }

  // ----- what it reads -----

  /** An object as the command prints it: its id, its type and its bytes. */
  datatype Printed = Printed(oid: string, kind: string, content: string)

  predicate Proper(o: Printed) {
    Solid(o.oid) && Solid(o.kind) && |o.content| <= MAX_INT
  }

  /** "<oid> <type> <size>", a newline, the bytes, a newline, and what follows. */
  function Framed(o: Printed, rest: string): string {
    Three(o.oid, o.kind, Decimal.Print(|o.content|)) + ("\n" + (o.content + ("\n" + rest)))
  }

  function Layout(os: seq<Printed>): string {
    if os == [] then "" else Framed(os[0], Layout(os[1..]))
  }

  function ContentsOf(os: seq<Printed>): seq<string> {
    if os == [] then [] else [os[0].content] + ContentsOf(os[1..])
  }

  lemma {:induction false} SolidNumber(n: nat)
    ensures Solid(Decimal.Print(n))
  {
    forall c | c in Decimal.Print(n) ensures !IsSpace(c) {
      assert Decimal.IsDigit(c);
    }
  }

  lemma OneObject(o: Printed, rest: string)
    requires Proper(o)
    ensures Next(Framed(o, rest)) == Object(o.content, rest)
  {
    var size := Decimal.Print(|o.content|);
    var body := o.content + ("\n" + rest);
    SolidNumber(|o.content|);
    ThreeFields(o.oid, o.kind, size);
    CutLine(Three(o.oid, o.kind, size), body);
    AtoiPrint(|o.content|);
    assert body[..|o.content|] == o.content;
    assert body[|o.content|..] == "\n" + rest && ("\n" + rest)[1..] == rest;
  }

  lemma FramedAppend(o: Printed, a: string, b: string)
    ensures Framed(o, a) + b == Framed(o, a + b)
  {
    var head := Three(o.oid, o.kind, Decimal.Print(|o.content|));
    assert ("\n" + a) + b == "\n" + (a + b);
    assert (o.content + ("\n" + a)) + b == o.content + ("\n" + (a + b));
    assert ("\n" + (o.content + ("\n" + a))) + b == "\n" + (o.content + ("\n" + (a + b)));
  }

  /**
   * Objects come back whole whatever is in them, newlines and header-like text included, and
   * whatever follows is read as it would be alone.
   */
  lemma {:induction false} ObjectsThenRest(os: seq<Printed>, rest: string)
    requires forall o :: o in os ==> Proper(o)
    ensures Parsed(Layout(os) + rest) == Prefixed(ContentsOf(os), Parsed(rest))
  {
    if os == [] {
      assert "" + rest == rest;
    } else {
      ObjectsThenRest(os[1..], rest);
      OneMore(os[0], Layout(os[1..]) + rest);
      FramedAppend(os[0], Layout(os[1..]), rest);
      PrefixedTwice([os[0].content], ContentsOf(os[1..]), Parsed(rest));
    }
  }

  lemma OneMore(o: Printed, more: string)
    requires Proper(o)
    ensures Parsed(Framed(o, more)) == Prefixed([o.content], Parsed(more))
  {
    OneObject(o, more);
    assert Framed(o, more) != "" by { assert |Framed(o, more)| >= |o.oid|; }
  }

  lemma PrefixedTwice(a: seq<string>, b: seq<string>, o: Outcome)
    ensures Prefixed(a, Prefixed(b, o)) == Prefixed(a + b, o)
  {
    if o.Contents? { assert a + (b + o.objects) == (a + b) + o.objects; }
  }

  /** Reading undoes the layout. */
  lemma RoundTrip(os: seq<Printed>)
    requires forall o :: o in os ==> Proper(o)
    ensures Parsed(Layout(os)) == Contents(ContentsOf(os))
  {
    ObjectsThenRest(os, "");
    assert Layout(os) + "" == Layout(os);
  }

  /** What the command says of one object it was asked for. */
  datatype Reply = Present(blob: Printed) | Missing(oid: string)

  ghost predicate Wellformed(rs: seq<Reply>) {
    forall r :: r in rs ==> if r.Present? then Proper(r.blob) else Solid(r.oid)
  }

  function Replies(rs: seq<Reply>): string {
    if rs == [] then ""
    else match rs[0]
      case Present(o) => Framed(o, Replies(rs[1..]))
      case Missing(oid) => oid + (" " + "missing") + ("\n" + Replies(rs[1..]))
  }

  function AllPresent(rs: seq<Reply>): seq<string> {
    if rs == [] then [] else (if rs[0].Present? then [rs[0].blob.content] else []) + AllPresent(rs[1..])
  }

  function UntilMissing(rs: seq<Reply>): seq<string> {
    if rs == [] || rs[0].Missing? then [] else [rs[0].blob.content] + UntilMissing(rs[1..])
  }

  lemma MissingStops(oid: string, more: string)
    requires Solid(oid)
    ensures Parsed(oid + (" " + "missing") + ("\n" + more)) == Contents([])
  {
    var line := oid + (" " + "missing");
    assert Solid("missing");
    FieldThenMore(oid, "missing");
    LastField("missing");
    assert IsSpace('\n') && '\n' !in line;
    CutLine(line, more);
  }

  /** An object reported missing ends the reading: the contents before it come back, and nothing after it. */
  lemma {:induction false} MissingEndsIt(rs: seq<Reply>)
    requires Wellformed(rs)
    ensures Parsed(Replies(rs)) == Contents(UntilMissing(rs))
  {
    if rs != [] {
      assert rs[0] in rs;
      assert forall r :: r in rs[1..] ==> r in rs;
      match rs[0] {
        case Present(o) =>
          MissingEndsIt(rs[1..]);
          OneMore(o, Replies(rs[1..]));
        case Missing(oid) => MissingStops(oid, Replies(rs[1..]));
      }
    }
  }

  lemma {:induction false} NonePresent(rs: seq<Reply>)
    ensures AllPresent(rs) == [] <==> forall r :: r in rs ==> r.Missing?
  {
    if rs != [] {
      NonePresent(rs[1..]);
      assert rs == [rs[0]] + rs[1..];
      if rs[0].Present? {
        assert rs[0] in rs && AllPresent(rs)[0] == rs[0].blob.content;
      } else {
        assert AllPresent(rs) == [] + AllPresent(rs[1..]) == AllPresent(rs[1..]);
      }
    }
  }

  lemma {:induction false} UntilIsAll(rs: seq<Reply>)
    ensures UntilMissing(rs) == AllPresent(rs) <==> forall i, j :: 0 <= i < j < |rs| && rs[i].Missing? ==> rs[j].Missing?
  {
    if rs != [] {
      UntilIsAll(rs[1..]);
      NonePresent(rs[1..]);
      if rs[0].Present? {
        assert UntilMissing(rs)[1..] == UntilMissing(rs[1..]) && AllPresent(rs)[1..] == AllPresent(rs[1..]);
        assert UntilMissing(rs)[0] == AllPresent(rs)[0];
        SameTails(UntilMissing(rs), AllPresent(rs));
        HeadPresent(rs);
      } else {
        assert AllPresent(rs) == AllPresent(rs[1..]);
        HeadMissing(rs);
      }
    }
  }

  lemma SameTails(a: seq<string>, b: seq<string>)
    requires a != [] && b != [] && a[0] == b[0]
    ensures a == b <==> a[1..] == b[1..]
  {
    if a[1..] == b[1..] {
      assert a == [a[0]] + a[1..] && b == [b[0]] + b[1..];
    }
  }

  lemma HeadPresent(rs: seq<Reply>)
    requires rs != [] && rs[0].Present?
    ensures
      (forall i, j :: 0 <= i < j < |rs| && rs[i].Missing? ==> rs[j].Missing?) <==>
      (forall i, j :: 0 <= i < j < |rs[1..]| && rs[1..][i].Missing? ==> rs[1..][j].Missing?)
  {
    if forall i, j :: 0 <= i < j < |rs[1..]| && rs[1..][i].Missing? ==> rs[1..][j].Missing? {
      forall i, j | 0 <= i < j < |rs| && rs[i].Missing? ensures rs[j].Missing? {
        assert rs[1..][i - 1] == rs[i] && rs[1..][j - 1] == rs[j];
      }
    }
  }

  lemma HeadMissing(rs: seq<Reply>)
    requires rs != [] && rs[0].Missing?
    ensures (forall i, j :: 0 <= i < j < |rs| && rs[i].Missing? ==> rs[j].Missing?) <==> forall r :: r in rs[1..] ==> r.Missing?
  {
    if forall i, j :: 0 <= i < j < |rs| && rs[i].Missing? ==> rs[j].Missing? {
      forall r | r in rs[1..] ensures r.Missing? {
        var j :| 0 <= j < |rs[1..]| && rs[1..][j] == r;
        assert rs[j + 1] == r;
      }
    }
  }

  /** Every object that is there comes back, if and only if none that is there comes after one that is not. */
  lemma ReadsAllExactlyWhen(rs: seq<Reply>)
    requires Wellformed(rs)
    ensures Parsed(Replies(rs)) == Contents(AllPresent(rs)) <==> forall i, j :: 0 <= i < j < |rs| && rs[i].Missing? ==> rs[j].Missing?
  {
    MissingEndsIt(rs);
    UntilIsAll(rs);
  }

  /** A negative size, which the command never prints, would panic rather than end the reading. */
  lemma NegativePanics(os: seq<Printed>, oid: string, kind: string, n: nat, body: string)
    requires (forall o :: o in os ==> Proper(o)) && Solid(oid) && Solid(kind) && 0 < n <= MAX_INT
    ensures Parsed(Layout(os) + (Three(oid, kind, "-" + Decimal.Print(n)) + ("\n" + body))) == Panics
  {
    var size := "-" + Decimal.Print(n);
    SolidNumber(n);
    assert Solid(size);
    ThreeFields(oid, kind, size);
    AtoiMinus(n);
    CutLine(Three(oid, kind, size), body);
    ObjectsThenRest(os, Three(oid, kind, size) + ("\n" + body));
  }

  lemma AtoiMinus(n: nat)
    requires 0 < n <= MAX_INT
    ensures Atoi("-" + Decimal.Print(n)).Some? && Atoi("-" + Decimal.Print(n)).value < 0
  {
    Decimal.ValuePrint(n);
    assert ("-" + Decimal.Print(n))[1..] == Decimal.Print(n);
  }
}
