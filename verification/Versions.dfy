/** Version numbers: packed in 32 bits, written out, and read back in order. */
module Versions {
  import opened Options

  datatype Version = Version(major: nat, minor: nat, patch: nat)

  function Digit(n: nat): char
    requires n < 10
  {
    '0' + n as char
  }

  predicate IsDigit(c: char) { '0' <= c <= '9' }

  function Value(c: char): (n: nat)
    requires IsDigit(c)
    ensures n < 10
  {
    c as int - '0' as int
  }

  function Decimal(n: nat): (s: string)
    ensures s != []
  {
    if n < 10 then [Digit(n)] else Decimal(n / 10) + [Digit(n % 10)]
  }

  predicate AllDigits(s: string) { forall i :: 0 <= i < |s| ==> IsDigit(s[i]) }

  function Number(s: string): nat
    requires AllDigits(s)
  {
    if s == [] then 0 else 10 * Number(s[..|s| - 1]) + Value(s[|s| - 1])
  }

  /** The parts of a string between dots. */
  function Split(s: string): (parts: seq<string>)
    ensures parts != []
  {
    if s == [] then [""]
    else
      var rest := Split(s[1..]);
      if s[0] == '.' then [""] + rest else [[s[0]] + rest[0]] + rest[1..]
  }

  predicate IsDecimal(part: string) { part != [] && AllDigits(part) }

  /** A version of one to three numbers; missing ones are zero. */
  function Parse(s: string): Option<Version> {
    var parts := Split(s);
    if |parts| > 3 || exists i :: 0 <= i < |parts| && !IsDecimal(parts[i]) then None
    else
      Some(Version(Number(parts[0]),
                   if |parts| > 1 then Number(parts[1]) else 0,
                   if |parts| > 2 then Number(parts[2]) else 0))
  }

  function PackedVersion(v: nat): string {
    Decimal(v / 0x1_0000) + "." + Decimal(v / 0x100 % 0x100) + "." + Decimal(v % 0x100)
  }

  predicate Before(a: Version, b: Version) {
    a.major < b.major || (a.major == b.major && (a.minor < b.minor || (a.minor == b.minor && a.patch < b.patch)))
  }

  // ----------------------------------------------------------- reading back

  lemma {:induction false} DecimalReadsBack(n: nat)
    ensures AllDigits(Decimal(n)) && Number(Decimal(n)) == n
  {
    if n >= 10 {
      DecimalReadsBack(n / 10);
      assert Decimal(n)[..|Decimal(n)| - 1] == Decimal(n / 10);
    } else {
      assert Decimal(n)[..0] == [];
    }
  }

  lemma {:induction false} SplitDigits(s: string)
    requires AllDigits(s)
    ensures Split(s) == [s]
  {
    if s != [] {
      SplitDigits(s[1..]);
      assert [s[0]] + s[1..] == s;
    }
  }

  lemma {:induction false} SplitAtDot(s: string, rest: string)
    requires AllDigits(s)
    ensures Split(s + "." + rest) == [s] + Split(rest)
  {
    var whole := s + "." + rest;
    if s == [] {
      assert whole[1..] == rest;
    } else {
      assert whole[1..] == s[1..] + "." + rest;
      SplitAtDot(s[1..], rest);
      assert [s[0]] + s[1..] == s;
    }
  }

  function Dotted(parts: seq<string>): string
    requires parts != []
  {
    if |parts| == 1 then parts[0] else parts[0] + "." + Dotted(parts[1..])
  }

  lemma {:induction false} SplitJoins(s: string)
    ensures Dotted(Split(s)) == s
  {
    if s != [] {
      SplitJoins(s[1..]);
      var rest := Split(s[1..]);
      if s[0] == '.' {
        assert Split(s)[1..] == rest;
      } else {
        assert Split(s)[1..] == rest[1..];
        assert s == [s[0]] + s[1..];
      }
    }
  }

  lemma {:induction false} SplitsDotted(parts: seq<string>)
    requires parts != [] && forall i :: 0 <= i < |parts| ==> AllDigits(parts[i])
    ensures Split(Dotted(parts)) == parts
  {
    if |parts| == 1 {
      SplitDigits(parts[0]);
    } else {
      SplitsDotted(parts[1..]);
      SplitAtDot(parts[0], Dotted(parts[1..]));
    }
  }

  /** One to three decimal numbers. */
  predicate Numbers(parts: seq<string>) {
    1 <= |parts| <= 3 && forall i :: 0 <= i < |parts| ==> IsDecimal(parts[i])
  }

  function NumberAt(parts: seq<string>, i: nat): nat
    requires Numbers(parts)
  {
    if i < |parts| then Number(parts[i]) else 0
  }

  /** A string is a version exactly when it is one to three decimal numbers with dots between, and then it is these numbers. */
  lemma ParseExactly(s: string, parts: seq<string>)
    requires parts != [] && s == Dotted(parts)
    ensures Numbers(parts) ==> Parse(s) == Some(Version(NumberAt(parts, 0), NumberAt(parts, 1), NumberAt(parts, 2)))
    ensures Parse(s).Some? <==> exists ps: seq<string> :: Numbers(ps) && s == Dotted(ps)
  {
    if Numbers(parts) { SplitsDotted(parts); }
    SplitJoins(s);
    if ps: seq<string> :| Numbers(ps) && s == Dotted(ps) { SplitsDotted(ps); }
    if Parse(s).Some? { assert Numbers(Split(s)); }
  }

  lemma NumbersReadBack(x: nat, y: nat, z: nat)
    ensures Parse(Decimal(x) + "." + Decimal(y) + "." + Decimal(z)) == Some(Version(x, y, z))
  {
    var a, b, c := Decimal(x), Decimal(y), Decimal(z);
    DecimalReadsBack(x);
    DecimalReadsBack(y);
    DecimalReadsBack(z);
    SplitDigits(c);
    SplitAtDot(b, c);
    SplitAtDot(a, b + "." + c);
    assert a + "." + b + "." + c == a + "." + (b + "." + c);
    assert Split(a + "." + b + "." + c) == [a, b, c];
  }

  /** Writing a packed version and reading it gives its three fields. */
  lemma PackedReadsBack(v: nat)
    ensures Parse(PackedVersion(v)) == Some(Version(v / 0x1_0000, v / 0x100 % 0x100, v % 0x100))
  {
    NumbersReadBack(v / 0x1_0000, v / 0x100 % 0x100, v % 0x100);
  }

  lemma Fields(v: nat)
    ensures v == v / 0x1_0000 * 0x1_0000 + v / 0x100 % 0x100 * 0x100 + v % 0x100
  {
    assert v / 0x100 / 0x100 == v / 0x1_0000;
  }

  lemma PackedOrder(v: nat, w: nat)
    ensures v < w <==> Before(Version(v / 0x1_0000, v / 0x100 % 0x100, v % 0x100), Version(w / 0x1_0000, w / 0x100 % 0x100, w % 0x100))
  {
    Fields(v);
    Fields(w);
    FieldOrder(v / 0x1_0000, v / 0x100 % 0x100, v % 0x100, w / 0x1_0000, w / 0x100 % 0x100, w % 0x100);
  }

  lemma FieldOrder(a: nat, b: nat, c: nat, x: nat, y: nat, z: nat)
    requires b < 0x100 && c < 0x100 && y < 0x100 && z < 0x100
    ensures a * 0x1_0000 + b * 0x100 + c < x * 0x1_0000 + y * 0x100 + z <==> Before(Version(a, b, c), Version(x, y, z))
  {
  }

  /** Writing out keeps the order of packed versions. */
  lemma WrittenOrder(v: nat, w: nat)
    ensures Parse(PackedVersion(v)).Some? && Parse(PackedVersion(w)).Some?
    ensures v < w <==> Before(Parse(PackedVersion(v)).value, Parse(PackedVersion(w)).value)
  {
    PackedReadsBack(v);
    PackedReadsBack(w);
    PackedOrder(v, w);
  }

  /** A shorter version is the longer one with zeros. */
  lemma MissingPartsAreZero(major: nat, minor: nat)
    ensures Parse(Decimal(major)) == Some(Version(major, 0, 0))
    ensures Parse(Decimal(major) + "." + Decimal(minor)) == Some(Version(major, minor, 0))
  {
    DecimalReadsBack(major);
    DecimalReadsBack(minor);
    SplitDigits(Decimal(major));
    SplitDigits(Decimal(minor));
    SplitAtDot(Decimal(major), Decimal(minor));
  }
}
