/** The text of a catalog page: one line per record, and reading it back. */
module CatalogText {
  import opened Catalog

  const LINE: nat := 128

  // ---------------------------------------------------------------------------
  // Lines
  // ---------------------------------------------------------------------------

  function Decimal(n: nat): string {
    if n < 10 then ['0' + n as char] else Decimal(n / 10) + ['0' + (n % 10) as char]
  }

  /** One labelled number of a line. */
  datatype Field = Field(name: string, quoted: bool, value: nat)

  function Tag(name: string): string {
    "\"" + name + "\":"
  }

  function Number(f: Field): string {
    if f.quoted then "\"" + Decimal(f.value) + "\"" else Decimal(f.value)
  }

  /** The rest of a line from a field on. */
  function Fields(fields: seq<Field>): string
    decreases |fields|, 1
  {
    if fields == [] then "}\n" else Tag(fields[0].name) + (Number(fields[0]) + Tail(fields))
  }

  function Tail(fields: seq<Field>): string
    requires fields != []
    decreases |fields|, 0
  {
    (if |fields| == 1 then "" else ",") + Fields(fields[1..])
  }

  function FieldsOf(r: Record): seq<Field> {
    [Field("id", true, r.id), Field("k", true, r.key), Field("s", false, r.status),
     Field("t", false, r.lastSeen), Field("d", false, r.desired), Field("r", false, r.reported)]
  }

  /** The line for a record: its fields in order, each with its label. */
  function Line(r: Record): string {
    "{" + Fields(FieldsOf(r))
  }

  function Lines(page: seq<Record>): string {
    if page == [] then "" else Lines(page[..|page| - 1]) + Line(page[|page| - 1])
  }

  function Pow10(e: nat): nat {
    if e == 0 then 1 else 10 * Pow10(e - 1)
  }

  lemma {:induction false} DecimalLength(n: nat, e: nat)
    requires e > 0 && n < Pow10(e)
    ensures 1 <= |Decimal(n)| <= e
  {
    if n >= 10 {
      assert Pow10(1) == 10 * Pow10(0);
      DecimalLength(n / 10, e - 1);
    }
  }

  /** Whatever the fields hold, a line has at most 112 characters, and its one newline ends it. */
  lemma LineFits(r: Record)
    ensures |Line(r)| <= 112 < LINE && OneLine(Line(r))
  {
    LineLength(r);
    var f := FieldsOf(r);
    hide Fields;
    assert Named(f);
    OneNewline(f);
    hide Named, FieldsOf;
    LineAfter("{", Fields(f));
  }

  /** A newline at the end and nowhere else. */
  predicate OneLine(s: string) {
    s != "" && s[|s| - 1] == '\n' && forall i :: 0 <= i < |s| - 1 ==> s[i] != '\n'
  }

  lemma LineLength(r: Record)
    ensures |Line(r)| <= 112
  {
    assert Pow10(5) == 100000 && Pow10(10) == 100000 * Pow10(5) by { PowSplit(5, 5); }
    assert Pow10(20) == Pow10(10) * Pow10(10) by { PowSplit(10, 10); }
    DecimalLength(r.id, 20);
    DecimalLength(r.key, 20);
    DecimalLength(r.status, 5);
    DecimalLength(r.lastSeen, 10);
    DecimalLength(r.desired, 10);
    DecimalLength(r.reported, 10);
    var f := FieldsOf(r);
    hide Decimal, Pow10, Fields;
    FieldsLength(f);
    FieldsLength(f[1..]);
    FieldsLength(f[2..]);
    FieldsLength(f[3..]);
    FieldsLength(f[4..]);
    FieldsLength(f[5..]);
    assert f[1..][1..] == f[2..] && f[2..][1..] == f[3..] && f[3..][1..] == f[4..] && f[4..][1..] == f[5..];
    assert f[5..][1..] == [];
  }

  lemma FieldsLength(fields: seq<Field>)
    ensures |Fields([])| == 2
    ensures fields != [] ==>
              var f := fields[0];
              |Fields(fields)| == |f.name| + 3 + |Decimal(f.value)| + (if f.quoted then 2 else 0) +
                                  (if |fields| == 1 then 0 else 1) + |Fields(fields[1..])|
  {
    hide Decimal;
  }

  lemma {:induction false} PowSplit(a: nat, b: nat)
    ensures Pow10(a + b) == Pow10(a) * Pow10(b)
  {
    if a > 0 { PowSplit(a - 1, b); }
  }

  // ---------------------------------------------------------------------------
  // Reading a number
  // ---------------------------------------------------------------------------

  predicate IsDigit(c: char) {
    '0' <= c <= '9'
  }

  predicate AllDigits(s: string) {
    forall i :: 0 <= i < |s| ==> IsDigit(s[i])
  }

  /** The number that a string of digits stands for. */
  function DecimalValue(s: string): nat
    requires AllDigits(s)
  {
    if s == "" then 0 else 10 * DecimalValue(s[..|s| - 1]) + (s[|s| - 1] - '0') as nat
  }

  /** A number is written in digits that stand for it, without a leading zero. */
  lemma {:induction false} DecimalRoundTrip(n: nat)
    ensures Decimal(n) != "" && AllDigits(Decimal(n)) && DecimalValue(Decimal(n)) == n
    ensures n > 0 ==> Decimal(n)[0] != '0'
  {
    if n >= 10 {
      DecimalRoundTrip(n / 10);
      var s := Decimal(n);
      assert s[..|s| - 1] == Decimal(n / 10) && s[0] == Decimal(n / 10)[0];
    } else {
      assert Decimal(n)[..0] == "";
    }
  }

  /** The length of the run of digits that a text begins with. */
  function DigitRun(s: string): (k: nat)
    ensures k <= |s| && AllDigits(s[..k]) && (k < |s| ==> !IsDigit(s[k]))
  {
    if s == "" || !IsDigit(s[0]) then 0
    else
      var k := DigitRun(s[1..]);
      assert forall i :: 0 <= i < k ==> s[1..][..k][i] == s[i + 1];
      k + 1
  }

  /** The number a text begins with, in quotes or not. */
  function ReadNumber(s: string): nat {
    if s != "" && s[0] == '"' then ReadDigits(s[1..]) else ReadDigits(s)
  }

  function ReadDigits(s: string): nat {
    DecimalValue(s[..DigitRun(s)])
  }

  lemma RunIs(digits: string, rest: string)
    requires AllDigits(digits) && (rest != "" ==> !IsDigit(rest[0]))
    ensures DigitRun(digits + rest) == |digits|
  {
    hide DigitRun;
    var s := digits + rest;
    var k := DigitRun(s);
    assert forall i :: 0 <= i < |digits| ==> s[i] == digits[i];
    assert forall i :: 0 <= i < k ==> s[..k][i] == s[i];
    assert rest != "" ==> s[|digits|] == rest[0];
  }

  lemma ReadsDigits(n: nat, rest: string)
    requires rest != "" ==> !IsDigit(rest[0])
    ensures ReadDigits(Decimal(n) + rest) == n
  {
    DecimalRoundTrip(n);
    RunIs(Decimal(n), rest);
    hide Decimal, DigitRun, DecimalValue;
    assert (Decimal(n) + rest)[..|Decimal(n)|] == Decimal(n);
  }

  lemma ReadsValue(f: Field, rest: string)
    requires rest != "" && !IsDigit(rest[0])
    ensures ReadNumber(Number(f) + rest) == f.value
  {
    DecimalRoundTrip(f.value);
    hide Decimal, DigitRun, DecimalValue, ReadDigits;
    var d := Decimal(f.value);
    if f.quoted {
      ReadsDigits(f.value, "\"" + rest);
      assert (Number(f) + rest)[1..] == d + ("\"" + rest);
    } else {
      ReadsDigits(f.value, rest);
      assert (d + rest)[0] == d[0];
    }
  }

  // ---------------------------------------------------------------------------
  // Finding a label
  // ---------------------------------------------------------------------------

  /** What follows the first occurrence of a pattern. */
  function After(s: string, pattern: string): string {
    if |s| < |pattern| || s == "" then ""
    else if pattern <= s then s[|pattern|..]
    else After(s[1..], pattern)
  }

  /** The number with this label, wherever in the text it is. */
  function Labelled(s: string, name: string): nat {
    ReadNumber(After(s, Tag(name)))
  }

  /** No label of a name beginning with `c` begins in this part, wherever it stands. */
  predicate Clear(part: string, c: char) {
    forall i :: 0 <= i < |part| && part[i] == '"' ==> i + 1 < |part| && part[i + 1] != c
  }

  lemma ClearBoth(a: string, b: string, c: char)
    requires Clear(a, c) && Clear(b, c)
    ensures Clear(a + b, c)
  {
    var s := a + b;
    forall i | 0 <= i < |s| && s[i] == '"' ensures i + 1 < |s| && s[i + 1] != c {
      if i < |a| {
        assert a[i] == '"' && s[i + 1] == a[i + 1];
      } else {
        assert b[i - |a|] == '"' && s[i + 1] == b[i - |a| + 1];
      }
    }
  }

  lemma {:induction false} Skips(part: string, rest: string, name: string)
    requires name != "" && Clear(part, name[0]) && |rest| >= |Tag(name)|
    ensures After(part + rest, Tag(name)) == After(rest, Tag(name))
  {
    var s := part + rest;
    if part == "" {
      assert s == rest;
    } else {
      assert Tag(name)[0] == '"' && Tag(name)[1] == name[0];
      assert s[0] == part[0] && (s[0] == '"' ==> s[1] == part[1]);
      assert s[1..] == part[1..] + rest;
      assert forall i :: 0 <= i < |part[1..]| ==> part[1..][i] == part[i + 1];
      Skips(part[1..], rest, name);
    }
  }

  predicate IsName(s: string) {
    s != "" && forall i :: 0 <= i < |s| ==> 'a' <= s[i] <= 'z'
  }

  lemma TagIsClear(name: string, c: char)
    requires IsName(name) && name[0] != c && c != ':'
    ensures Clear(Tag(name), c)
  {
    var t := Tag(name);
    assert t[0] == '"' && t[1] == name[0] && t[|name| + 1] == '"' && t[|name| + 2] == ':';
    assert forall i :: 0 < i <= |name| ==> t[i] == name[i - 1];
  }

  /** A number and the comma after it. */
  lemma NumberIsClear(f: Field, c: char)
    requires !IsDigit(c) && c != ','
    ensures Clear(Number(f) + ",", c)
  {
    DecimalRoundTrip(f.value);
    hide Decimal, DecimalValue;
    var d, part := Decimal(f.value), Number(f) + ",";
    if f.quoted {
      assert part[0] == '"' && part[|d| + 1] == '"' && part[|d| + 2] == ',';
      assert forall i :: 0 < i <= |d| ==> part[i] == d[i - 1] && IsDigit(part[i]);
    } else {
      assert part == d + ",";
      assert forall i :: 0 <= i < |d| ==> part[i] == d[i] && IsDigit(part[i]);
    }
  }

  /** The fields' names are letters and begin with different ones. */
  predicate Named(fields: seq<Field>) {
    && (forall i :: 0 <= i < |fields| ==> IsName(fields[i].name))
    && (forall i, j :: 0 <= i < j < |fields| ==> fields[i].name[0] != fields[j].name[0])
  }

  lemma SkipsField(fields: seq<Field>, name: string)
    requires |fields| > 1 && IsName(fields[0].name) && IsName(name) && fields[0].name[0] != name[0]
    requires |Fields(fields[1..])| >= |Tag(name)|
    ensures After(Fields(fields), Tag(name)) == After(Fields(fields[1..]), Tag(name))
  {
    var f, rest, c := fields[0], Fields(fields[1..]), name[0];
    var t, u := Tag(f.name), Number(f) + ",";
    assert Fields(fields) == t + (Number(f) + ("," + rest));
    hide Fields, After, Number, Tag;
    assert 'a' <= c <= 'z';
    TagIsClear(f.name, c);
    NumberIsClear(f, c);
    hide IsName, Clear;
    ClearBoth(t, u, c);
    Skips(t + u, rest, name);
    Regroup(t, Number(f), ",", rest);
  }

  lemma Regroup(a: string, b: string, c: string, d: string)
    ensures a + (b + (c + d)) == (a + (b + c)) + d
  {
  }

  lemma FirstField(fields: seq<Field>)
    requires fields != []
    ensures |Fields(fields)| >= |Tag(fields[0].name)|
    ensures After(Fields(fields), Tag(fields[0].name)) == Number(fields[0]) + Tail(fields)
  {
    var t, s := Tag(fields[0].name), Number(fields[0]) + Tail(fields);
    assert Fields(fields) == t + s;
    hide Fields, Number, Tail;
    assert t <= t + s && (t + s)[|t|..] == s;
  }

  lemma TailBegins(fields: seq<Field>)
    requires fields != []
    ensures Tail(fields) != "" && !IsDigit(Tail(fields)[0])
  {
    hide Tag, Number;
    assert |fields| == 1 ==> Fields(fields[1..]) == "}\n";
  }

  /** Each field is found by its name, whatever the fields hold. */
  lemma {:induction false} FindsField(fields: seq<Field>, i: nat)
    requires Named(fields) && i < |fields|
    ensures |Fields(fields)| >= |Tag(fields[i].name)|
    ensures Labelled(Fields(fields), fields[i].name) == fields[i].value
  {
    hide Tag, Number, ReadNumber, After, IsName;
    if i == 0 {
      TailBegins(fields);
      hide Fields, Tail;
      FirstField(fields);
      ReadsValue(fields[0], Tail(fields));
    } else {
      assert Named(fields[1..]) && fields[1..][i - 1] == fields[i];
      FindsField(fields[1..], i - 1);
      assert |Fields(fields)| >= |Fields(fields[1..])|;
      hide Fields;
      SkipsField(fields, fields[i].name);
    }
  }

  // ---------------------------------------------------------------------------
  // Reading a page
  // ---------------------------------------------------------------------------

  /** What a listing shows of a record. */
  datatype Listing = Listing(id: nat, key: nat, status: nat, lastSeen: nat, desired: nat, reported: nat)

  function ListingOf(r: Record): Listing {
    Listing(r.id, r.key, r.status, r.lastSeen, r.desired, r.reported)
  }

  function Listings(page: seq<Record>): seq<Listing> {
    seq(|page|, i requires 0 <= i < |page| => ListingOf(page[i]))
  }

  /** A reader that knows the labels only. */
  function ReadLine(s: string): Listing {
    Listing(Labelled(s, "id"), Labelled(s, "k"), Labelled(s, "s"), Labelled(s, "t"), Labelled(s, "d"), Labelled(s, "r"))
  }

  /** The position of the first newline, or the length. */
  function LineEnd(s: string): (k: nat)
    ensures k <= |s|
  {
    if s == "" || s[0] == '\n' then 0 else 1 + LineEnd(s[1..])
  }

  /** The listings in a text, one for each newline. */
  function ReadPage(s: string): seq<Listing>
    decreases |s|
  {
    var k := LineEnd(s);
    if k == |s| then [] else [ReadLine(s[..k + 1])] + ReadPage(s[k + 1..])
  }

  /** A line reads back as its record: each label is followed by that field. */
  lemma LineReadsBack(r: Record)
    ensures Labelled(Line(r), "id") == r.id && Labelled(Line(r), "k") == r.key
    ensures Labelled(Line(r), "s") == r.status && Labelled(Line(r), "t") == r.lastSeen
    ensures Labelled(Line(r), "d") == r.desired && Labelled(Line(r), "r") == r.reported
  {
    var f := FieldsOf(r);
    assert Named(f);
    forall i | 0 <= i < |f| ensures Labelled(Line(r), f[i].name) == f[i].value {
      FindsField(f, i);
      assert f[i].name != "";
      hide Fields, ReadNumber, After, Tag, FieldsOf, Named;
      Skips("{", Fields(f), f[i].name);
    }
    hide Line, Labelled, Fields, Named;
    assert f[0].name == "id" && f[1].name == "k" && f[2].name == "s";
    assert f[3].name == "t" && f[4].name == "d" && f[5].name == "r";
    assert f[0].value == r.id && f[1].value == r.key && f[2].value == r.status;
    assert f[3].value == r.lastSeen && f[4].value == r.desired && f[5].value == r.reported;
  }

  lemma {:induction false} OneNewline(fields: seq<Field>)
    requires Named(fields)
    ensures OneLine(Fields(fields))
  {
    if fields != [] {
      var f := fields[0];
      OneNewline(fields[1..]);
      hide Named;
      NoNewline(f);
      var rest := Fields(fields[1..]);
      hide OneLine, Number;
      LineAfter(",", rest);
      assert OneLine(Tail(fields)) by { assert |fields| == 1 ==> Tail(fields) == rest; }
      hide Fields, Tag, Tail;
      LineAfter(Number(f), Tail(fields));
      LineAfter(Tag(f.name), Number(f) + Tail(fields));
    }
  }

  lemma NoNewline(f: Field)
    requires IsName(f.name)
    ensures forall i :: 0 <= i < |Tag(f.name)| ==> Tag(f.name)[i] != '\n'
    ensures forall i :: 0 <= i < |Number(f)| ==> Number(f)[i] != '\n'
  {
    DecimalRoundTrip(f.value);
    hide Decimal, DecimalValue;
    var d := Decimal(f.value);
    assert forall i :: 0 <= i < |d| ==> IsDigit(d[i]);
  }

  lemma LineAfter(a: string, s: string)
    requires OneLine(s) && forall i :: 0 <= i < |a| ==> a[i] != '\n'
    ensures OneLine(a + s)
  {
  }

  lemma {:induction false} LineEndIs(s: string, rest: string)
    requires OneLine(s)
    ensures LineEnd(s + rest) == |s| - 1
  {
    if |s| > 1 {
      assert s[0] != '\n' && (s + rest)[1..] == s[1..] + rest;
      LineEndIs(s[1..], rest);
    }
  }

  lemma {:induction false} LinesCons(r: Record, page: seq<Record>)
    ensures Lines([r] + page) == Line(r) + Lines(page)
  {
    hide Line;
    var s := [r] + page;
    if page == [] {
      assert s[..0] == [];
    } else {
      assert s[..|s| - 1] == [r] + page[..|page| - 1];
      LinesCons(r, page[..|page| - 1]);
    }
  }

  /** A page reads back, line by line, as its records: one listing for each, in their order. */
  lemma {:induction false} PageReadsBack(page: seq<Record>)
    ensures ReadPage(Lines(page)) == Listings(page)
  {
    hide Line, Fields, Labelled;
    if page != [] {
      var l, rest := Line(page[0]), Lines(page[1..]);
      assert page == [page[0]] + page[1..];
      LinesCons(page[0], page[1..]);
      LineFits(page[0]);
      LineReadsBack(page[0]);
      PageReadsBack(page[1..]);
      hide Lines;
      LineEndIs(l, rest);
      assert ReadLine(l) == ListingOf(page[0]);
      hide LineEnd, OneLine, ReadLine;
      assert (l + rest)[..|l|] == l && (l + rest)[|l|..] == rest;
    }
  }

  /** Two pages with the same text list the same records. */
  lemma SameTextSameListing(p: seq<Record>, q: seq<Record>)
    requires Lines(p) == Lines(q)
    ensures |p| == |q| && forall i :: 0 <= i < |p| ==> ListingOf(p[i]) == ListingOf(q[i])
  {
    PageReadsBack(p);
    PageReadsBack(q);
    hide Lines, ReadPage, ListingOf;
    assert forall i :: 0 <= i < |p| ==> Listings(p)[i] == ListingOf(p[i]);
    assert forall i :: 0 <= i < |q| ==> Listings(q)[i] == ListingOf(q[i]);
  }
}
