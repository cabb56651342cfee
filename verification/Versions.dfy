/** parse_version and the `>=` the update command applies to its results:
    a version string is cut at every '.', its first three fields become a
    (major, minor, patch) triple, and triples are compared as Python compares
    tuples. */
module Versions {
  import opened Results
  import opened Strings

  datatype Version = Version(major: nat, minor: nat, patch: nat)

  /** How parse_version raises: an IndexError when field `index` does not
      exist, a ValueError when int() refuses field `index`. */
  datatype VersionError =
    | MissingField(index: nat)
    | NotAnInteger(index: nat, field: string)

  /** `int(fields[i])`, raising as Python does. */
  function Field(fields: seq<string>, i: nat): (r: Result<nat, VersionError>)
    ensures r.Ok? <==> i < |fields| && IsNumeral(fields[i])
    ensures r.Ok? ==> Some(r.value) == ParseNat(fields[i])
    ensures r.Err? ==> r.error == if i >= |fields| then MissingField(i) else NotAnInteger(i, fields[i])
  {
    if i >= |fields| then Err(MissingField(i))
    else match ParseNat(fields[i])
      case None => Err(NotAnInteger(i, fields[i]))
      case Some(n) => Ok(n)
  }

  /** A string parse_version accepts. */
  predicate WellFormed(s: string) {
    var fields := Split(s, '.');
    |fields| >= 3 && IsNumeral(fields[0]) && IsNumeral(fields[1]) && IsNumeral(fields[2])
  }

  /** `parse_version(s)`: the tuple is built left to right, so field 0 is
      converted before field 1 is looked up, and the first field that is
      missing or not an integer decides the exception. */
  function ParseVersion(s: string): (r: Result<Version, VersionError>)
    ensures r.Ok? <==> WellFormed(s)
    ensures r.Ok? ==> var fields := Split(s, '.');
      && Some(r.value.major) == ParseNat(fields[0])
      && Some(r.value.minor) == ParseNat(fields[1])
      && Some(r.value.patch) == ParseNat(fields[2])
    ensures r.Err? ==> var fields := Split(s, '.');
      && r.error.index < 3
      && r.error.index <= |fields|
      && (forall j :: 0 <= j < r.error.index ==> IsNumeral(fields[j]))
      && (r.error.MissingField? <==> r.error.index == |fields|)
      && (r.error.NotAnInteger? ==>
            r.error.index < |fields| && r.error.field == fields[r.error.index] && !IsNumeral(r.error.field))
  {
    var fields := Split(s, '.');
    var major :- Field(fields, 0);
    var minor :- Field(fields, 1);
    var patch :- Field(fields, 2);
    Ok(Version(major, minor, patch))
  }

  /** The dotted decimal rendering "major.minor.patch". */
  function Render(v: Version): string {
    Decimal(v.major) + "." + Decimal(v.minor) + "." + Decimal(v.patch)
  }

  lemma {:induction false} SplitRender(v: Version)
    ensures Split(Render(v), '.') == [Decimal(v.major), Decimal(v.minor), Decimal(v.patch)]
  {
    DecimalHasNoSep(v.major, '.');
    DecimalHasNoSep(v.minor, '.');
    DecimalHasNoSep(v.patch, '.');
    SplitNoSep(Decimal(v.major), '.');
    SplitNoSep(Decimal(v.minor), '.');
    SplitNoSep(Decimal(v.patch), '.');
    SplitAppend(Decimal(v.major), Decimal(v.minor), '.');
    SplitAppend(Decimal(v.major) + "." + Decimal(v.minor), Decimal(v.patch), '.');
  }

  /** Round trip: parsing the rendering of a triple gives the triple back,
      whatever further '.'-separated fields follow it. */
  lemma {:induction false} ParseRender(v: Version, rest: string)
    requires rest == [] || rest[0] == '.'
    ensures ParseVersion(Render(v) + rest) == Ok(v)
  {
    SplitRender(v);
    ParseDecimal(v.major);
    ParseDecimal(v.minor);
    ParseDecimal(v.patch);
    if rest == [] {
      assert Render(v) + rest == Render(v);
    } else {
      assert Render(v) + rest == Render(v) + ['.'] + rest[1..];
      SplitAppend(Render(v), rest[1..], '.');
    }
  }

  /** A fourth or later field is never looked at. */
  lemma {:induction false} ParseIgnoresLaterFields(s: string, tail: string)
    requires |Split(s, '.')| >= 3
    ensures ParseVersion(s + "." + tail) == ParseVersion(s)
  {
    SplitAppend(s, tail, '.');
    var fields := Split(s + "." + tail, '.');
    assert fields[..3] == Split(s, '.')[..3];
  }

  /** Fewer than three fields can never parse. */
  lemma TooFewFieldsFail(s: string)
    requires |Split(s, '.')| < 3
    ensures ParseVersion(s).Err?
    ensures forall j :: 0 <= j < |Split(s, '.')| && IsNumeral(Split(s, '.')[j]) ==> ParseVersion(s).error.index != j
  {
  }

  /** Python's `a >= b` on the tuples (major, minor, patch), written field
      by field and shown equal to the sequence comparison below. */
  function AtLeast(a: Version, b: Version): (r: bool)
    ensures r <==> TupleAtLeast(AsTuple(a), AsTuple(b))
  {
    var s, t := AsTuple(a), AsTuple(b);
    assert s[1..] == [a.minor, a.patch] && t[1..] == [b.minor, b.patch];
    assert [a.minor, a.patch][1..] == [a.patch] && [b.minor, b.patch][1..] == [b.patch];
    assert [a.patch][1..] == [] && [b.patch][1..] == [];
    assert TupleAtLeast([a.patch], [b.patch]) == (a.patch >= b.patch);
    assert TupleAtLeast([a.minor, a.patch], [b.minor, b.patch])
      == if a.minor != b.minor then a.minor > b.minor else a.patch >= b.patch;
    || a.major > b.major
    || (a.major == b.major && a.minor > b.minor)
    || (a.major == b.major && a.minor == b.minor && a.patch >= b.patch)
  }

  /** Python's `>=` on two sequences of integers: the first difference
      decides, and a sequence is at least every prefix of itself. */
  predicate TupleAtLeast(s: seq<int>, t: seq<int>) {
    if t == [] then true
    else if s == [] then false
    else if s[0] != t[0] then s[0] > t[0]
    else TupleAtLeast(s[1..], t[1..])
  }

  function AsTuple(v: Version): seq<int> {
    [v.major, v.minor, v.patch]
  }

  lemma AtLeastReflexive(a: Version)
    ensures AtLeast(a, a)
  {
  }

  lemma AtLeastAntisymmetric(a: Version, b: Version)
    requires AtLeast(a, b) && AtLeast(b, a)
    ensures a == b
  {
  }

  lemma AtLeastTransitive(a: Version, b: Version, c: Version)
    requires AtLeast(a, b) && AtLeast(b, c)
    ensures AtLeast(a, c)
  {
  }

  lemma AtLeastTotal(a: Version, b: Version)
    ensures AtLeast(a, b) || AtLeast(b, a)
  {
  }

  /** "1.2" lacks the patch field: the IndexError of update.py:14. */
  lemma TwoFieldsExample()
    ensures ParseVersion("1.2") == Err(MissingField(2))
  {
  }

  /** "a.b.c" fails on its first field: the ValueError of update.py:14. */
  lemma NonNumericExample()
    ensures ParseVersion("a.b.c") == Err(NotAnInteger(0, "a"))
  {
    assert Join(["a", "b", "c"], '.') == "a.b.c";
    SplitJoin(["a", "b", "c"], '.');
  }

  /** Installed 2.0.0 against latest 1.9.9 counts as up to date; 1.2.3
      against 1.2.4 does not. */
  lemma OrderExamples()
    ensures AtLeast(Version(2, 0, 0), Version(1, 9, 9))
    ensures !AtLeast(Version(1, 2, 3), Version(1, 2, 4))
  {
  }
}
