/** npm versions: the strings accepted, and what they are read as. */
module SemVer {
  import opened Wrappers

  // ----- decimal numbers ---------------------------------------------------------------------

  predicate Digit(c: char) {
    '0' <= c <= '9'
  }

  predicate Digits(s: string) {
    forall c :: c in s ==> Digit(c)
  }

  predicate Numeric(s: string) {
    s != [] && Digits(s)
  }

  /** A number without superfluous leading zeros. */
  predicate Canonical(s: string) {
    Numeric(s) && (|s| == 1 || s[0] != '0')
  }

  function DigitChar(d: nat): char
    requires d < 10
  {
    '0' + d as char
  }

  function DigitValue(c: char): nat {
    if Digit(c) then c as int - '0' as int else 0
  }

  function Value(s: string): nat {
    if s == [] then 0 else Value(s[..|s| - 1]) * 10 + DigitValue(s[|s| - 1])
  }

  function Decimal(n: nat): string {
    if n < 10 then [DigitChar(n)] else Decimal(n / 10) + [DigitChar(n % 10)]
  }

  lemma {:induction false} ValueOfDecimal(n: nat)
    ensures Canonical(Decimal(n)) && Value(Decimal(n)) == n
    ensures n > 0 ==> Decimal(n)[0] != '0'
  {
    if n < 10 {
      assert Value([]) == 0;
      assert [DigitChar(n)][..0] == [];
    } else {
      ValueOfDecimal(n / 10);
      var front := Decimal(n / 10);
      assert (front + [DigitChar(n % 10)])[..|front|] == front;
      assert forall c :: c in Decimal(n) ==> c in front || c == DigitChar(n % 10);
    }
  }

  lemma {:induction false} DecimalOfValue(s: string)
    requires Canonical(s)
    ensures Decimal(Value(s)) == s
    ensures s[0] != '0' ==> Value(s) > 0
  {
    var front, last := s[..|s| - 1], s[|s| - 1];
    if |s| == 1 {
      assert s == [last] && DigitChar(DigitValue(last)) == last;
    } else {
      assert forall c :: c in front ==> c in s;
      DecimalOfValue(front);
      assert s == front + [last];
    }
  }

  // ----- splitting and joining ---------------------------------------------------------------

  function Split(s: string, sep: char): (r: seq<string>)
    ensures |r| >= 1
  {
    if s == [] then [[]]
    else
      var rest := Split(s[1..], sep);
      if s[0] == sep then [[]] + rest else [[s[0]] + rest[0]] + rest[1..]
  }

  function Join(parts: seq<string>, sep: char): string
    requires parts != []
  {
    if |parts| == 1 then parts[0] else parts[0] + [sep] + Join(parts[1..], sep)
  }

  predicate Without(parts: seq<string>, c: char) {
    forall p :: p in parts ==> c !in p
  }

  lemma {:induction false} JoinSplit(s: string, sep: char)
    ensures Join(Split(s, sep), sep) == s
    ensures Without(Split(s, sep), sep)
  {
    if s != [] {
      JoinSplit(s[1..], sep);
      var rest := Split(s[1..], sep);
      if s[0] == sep {
        assert ([[]] + rest)[1..] == rest;
        assert s == [sep] + s[1..];
      } else {
        var r := [[s[0]] + rest[0]] + rest[1..];
        assert r[1..] == rest[1..];
        assert s == [s[0]] + s[1..];
        assert Join(r, sep) == [s[0]] + Join(rest, sep);
      }
    }
  }

  lemma {:induction false} SplitWithout(s: string, sep: char)
    requires sep !in s
    ensures Split(s, sep) == [s]
  {
    if s != [] {
      SplitWithout(s[1..], sep);
      assert s == [s[0]] + s[1..];
    }
  }

  lemma {:induction false} SplitAtSeparator(p: string, tail: string, sep: char)
    requires sep !in p
    ensures Split(p + [sep] + tail, sep) == [p] + Split(tail, sep)
  {
    var s := p + [sep] + tail;
    if p == [] {
      assert s[1..] == tail;
    } else {
      assert s[1..] == p[1..] + [sep] + tail;
      SplitAtSeparator(p[1..], tail, sep);
      assert p == [p[0]] + p[1..];
    }
  }

  lemma {:induction false} SplitJoin(parts: seq<string>, sep: char)
    requires parts != [] && Without(parts, sep)
    ensures Split(Join(parts, sep), sep) == parts
  {
    assert parts[0] in parts;
    if |parts| == 1 {
      SplitWithout(parts[0], sep);
    } else {
      SplitJoin(parts[1..], sep);
      SplitAtSeparator(parts[0], Join(parts[1..], sep), sep);
    }
  }

  /** The text before the first separator, and the text after it if there is one. */
  function Cut(s: string, sep: char): (string, Option<string>) {
    if s == [] then ([], None)
    else if s[0] == sep then ([], Some(s[1..]))
    else var (before, after) := Cut(s[1..], sep); ([s[0]] + before, after)
  }

  function Uncut(before: string, sep: char, after: Option<string>): string {
    match after
    case None => before
    case Some(rest) => before + [sep] + rest
  }

  lemma {:induction false} CutIsFirst(s: string, sep: char)
    ensures var (before, after) := Cut(s, sep); sep !in before && Uncut(before, sep, after) == s
  {
    if s != [] && s[0] != sep {
      CutIsFirst(s[1..], sep);
    }
  }

  lemma {:induction false} CutUncut(before: string, sep: char, after: Option<string>)
    requires sep !in before
    ensures Cut(Uncut(before, sep, after), sep) == (before, after)
  {
    var s := Uncut(before, sep, after);
    if before != [] {
      assert s[1..] == Uncut(before[1..], sep, after);
      CutUncut(before[1..], sep, after);
      assert before == [before[0]] + before[1..];
    } else if after.Some? {
      assert s[1..] == after.value;
    }
  }

  // ----- versions ----------------------------------------------------------------------------

  predicate IdentifierChar(c: char) {
    Digit(c) || 'a' <= c <= 'z' || 'A' <= c <= 'Z' || c == '-'
  }

  predicate BuildIdentifier(s: string) {
    s != [] && forall c :: c in s ==> IdentifierChar(c)
  }

  predicate PreIdentifier(s: string) {
    BuildIdentifier(s) && !(Digits(s) && |s| > 1 && s[0] == '0')
  }

  lemma CapitalIs(c: char)
    ensures c in "ABCDEFGHIJKLMNOPQRSTUVWXYZ" <==> 'A' <= c <= 'Z'
  {
    var letters := "ABCDEFGHIJKLMNOPQRSTUVWXYZ";
    if 'A' <= c <= 'Z' {
      assert letters[c as int - 'A' as int] == c;
    }
  }

  lemma SmallIs(c: char)
    ensures c in "abcdefghijklmnopqrstuvwxyz" <==> 'a' <= c <= 'z'
  {
    var letters := "abcdefghijklmnopqrstuvwxyz";
    if 'a' <= c <= 'z' {
      assert letters[c as int - 'a' as int] == c;
    }
  }

  lemma DigitIs(c: char)
    ensures c in "0123456789" <==> '0' <= c <= '9'
  {
    var digits := "0123456789";
    if '0' <= c <= '9' {
      assert digits[c as int - '0' as int] == c;
    }
  }

  /** The characters of items 9 and 10 of Semantic Versioning 2.0.0. */
  predicate AllowedIn(c: char) {
    c in "0123456789" || c in "ABCDEFGHIJKLMNOPQRSTUVWXYZ" || c in "abcdefghijklmnopqrstuvwxyz" || c == '-'
  }

  /** Identifiers are not empty, and a numeric one of a pre-release has no leading zero. */
  lemma IdentifiersAre(s: string)
    ensures BuildIdentifier(s) <==> |s| >= 1 && forall i :: 0 <= i < |s| ==> AllowedIn(s[i])
    ensures PreIdentifier(s) <==>
              BuildIdentifier(s) && (s == "0" || s[0] != '0' || exists i :: 0 <= i < |s| && s[i] !in "0123456789")
  {
    forall c: char ensures AllowedIn(c) <==> IdentifierChar(c)
      ensures Digit(c) <==> c in "0123456789"
    {
      CapitalIs(c);
      SmallIs(c);
      DigitIs(c);
    }
    hide AllowedIn, IdentifierChar;
    assert forall i :: 0 <= i < |s| ==> s[i] in s;
  }

  datatype Version = Version(major: nat, minor: nat, patch: nat, pre: seq<string>, build: seq<string>)

  predicate Valid(v: Version) {
    (forall p :: p in v.pre ==> PreIdentifier(p)) && (forall p :: p in v.build ==> BuildIdentifier(p))
  }

  function Identifiers(text: Option<string>): seq<string> {
    match text
    case None => []
    case Some(t) => Split(t, '.')
  }

  function Parse(s: string): Option<Version> {
    var (left, build) := Cut(s, '+');
    var (core, pre) := Cut(left, '-');
    var numbers := Split(core, '.');
    if |numbers| != 3 || !(forall n :: n in numbers ==> Canonical(n)) then None
    else if !(forall p :: p in Identifiers(build) ==> BuildIdentifier(p)) then None
    else if !(forall p :: p in Identifiers(pre) ==> PreIdentifier(p)) then None
    else Some(Version(Value(numbers[0]), Value(numbers[1]), Value(numbers[2]), Identifiers(pre), Identifiers(build)))
  }

  function Dotted(ids: seq<string>): Option<string> {
    if ids == [] then None else Some(Join(ids, '.'))
  }

  function Core(v: Version): string {
    Join([Decimal(v.major), Decimal(v.minor), Decimal(v.patch)], '.')
  }

  function Show(v: Version): string {
    Uncut(Uncut(Core(v), '-', Dotted(v.pre)), '+', Dotted(v.build))
  }

  lemma CanonicalHasNo(s: string, c: char)
    requires Numeric(s) && !Digit(c)
    ensures c !in s
  {
  }

  lemma {:induction false} JoinHasNo(parts: seq<string>, c: char)
    requires parts != [] && Without(parts, c) && c != '.'
    ensures c !in Join(parts, '.')
  {
    assert parts[0] in parts;
    if |parts| > 1 {
      JoinHasNo(parts[1..], c);
    }
  }

  lemma CoreParses(v: Version)
    ensures Split(Core(v), '.') == [Decimal(v.major), Decimal(v.minor), Decimal(v.patch)]
    ensures '-' !in Core(v) && '+' !in Core(v)
  {
    ValueOfDecimal(v.major);
    ValueOfDecimal(v.minor);
    ValueOfDecimal(v.patch);
    var numbers := [Decimal(v.major), Decimal(v.minor), Decimal(v.patch)];
    SplitJoin(numbers, '.');
    JoinHasNo(numbers, '-');
    JoinHasNo(numbers, '+');
  }

  lemma DottedParses(ids: seq<string>)
    requires forall p :: p in ids ==> BuildIdentifier(p)
    ensures Identifiers(Dotted(ids)) == ids
    ensures ids != [] ==> '+' !in Join(ids, '.')
  {
    if ids != [] {
      SplitJoin(ids, '.');
      JoinHasNo(ids, '+');
    }
  }

  /** Every version is accepted in the form it is written in, and read back as itself. */
  lemma ParseShow(v: Version)
    requires Valid(v)
    ensures Parse(Show(v)) == Some(v)
  {
    CoreParses(v);
    DottedParses(v.pre);
    DottedParses(v.build);
    var left := Uncut(Core(v), '-', Dotted(v.pre));
    CutUncut(left, '+', Dotted(v.build));
    CutUncut(Core(v), '-', Dotted(v.pre));
    ValueOfDecimal(v.major);
    ValueOfDecimal(v.minor);
    ValueOfDecimal(v.patch);
  }

  lemma DottedOfIdentifiers(text: Option<string>)
    ensures Dotted(Identifiers(text)) == text
  {
    if text.Some? {
      JoinSplit(text.value, '.');
    }
  }

  /** Nothing else is accepted: whatever parses is the written form of a valid version. */
  lemma ShowParse(s: string)
    requires Parse(s).Some?
    ensures Valid(Parse(s).value) && Show(Parse(s).value) == s
  {
    var (left, build) := Cut(s, '+');
    var (core, pre) := Cut(left, '-');
    var numbers := Split(core, '.');
    CutIsFirst(s, '+');
    CutIsFirst(left, '-');
    JoinSplit(core, '.');
    assert numbers[0] in numbers && numbers[1] in numbers && numbers[2] in numbers;
    DecimalOfValue(numbers[0]);
    DecimalOfValue(numbers[1]);
    DecimalOfValue(numbers[2]);
    assert numbers == [numbers[0], numbers[1], numbers[2]];
    DottedOfIdentifiers(pre);
    DottedOfIdentifiers(build);
  }
}
