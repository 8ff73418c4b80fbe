/** npm range expressions: comparator sets, caret and tilde, with three-valued results. */
module NpmRange {
  import opened Wrappers
  import opened SemVer
  import opened VersionOrder

  const MAX_EXPRESSION := 200
  const MAX_ALTERNATIVES := 20
  const MAX_TERMS := 20

  // ----- reading an expression ---------------------------------------------------------------

  datatype Operator = Eq | Lt | Gt | Le | Ge | Caret | Tilde

  predicate Blank(c: char) {
    c == ' ' || c == ',' || 9 <= c as int <= 13 || 28 <= c as int <= 31
  }

  function Alternatives(s: string): (r: seq<string>)
    ensures |r| >= 1
  {
    if s == [] then [[]]
    else if |s| >= 2 && s[0] == '|' && s[1] == '|' then [[]] + Alternatives(s[2..])
    else var rest := Alternatives(s[1..]); [[s[0]] + rest[0]] + rest[1..]
  }

  /** Terms separated by blanks or commas; `word` is the term being read. */
  function Terms(s: string, word: string): seq<string> {
    if s == [] then (if word == [] then [] else [word])
    else if Blank(s[0]) then (if word == [] then [] else [word]) + Terms(s[1..], [])
    else Terms(s[1..], word + [s[0]])
  }

  function TermOf(t: string): (Operator, string) {
    if StartsWith(t, "<=") then (Le, t[2..])
    else if StartsWith(t, ">=") then (Ge, t[2..])
    else if StartsWith(t, "<") then (Lt, t[1..])
    else if StartsWith(t, ">") then (Gt, t[1..])
    else if StartsWith(t, "=") then (Eq, t[1..])
    else if StartsWith(t, "^") then (Caret, t[1..])
    else if StartsWith(t, "~") then (Tilde, t[1..])
    else (Eq, t)
  }

  predicate StartsWith(s: string, prefix: string) {
    |prefix| <= |s| && s[..|prefix|] == prefix
  }

  predicate Readable(t: string) {
    Parse(TermOf(t).1).Some?
  }

  function Bound(t: string): Version
    requires Readable(t)
  {
    Parse(TermOf(t).1).value
  }

  predicate SupportedAlternative(text: string) {
    var terms := Terms(text, []);
    0 < |terms| <= MAX_TERMS && forall t :: t in terms ==> Readable(t)
  }

  predicate Supported(version: string, expression: string) {
    && Parse(version).Some?
    && 0 < |expression| <= MAX_EXPRESSION
    && |Alternatives(expression)| <= MAX_ALTERNATIVES
    && forall a :: a in Alternatives(expression) ==> SupportedAlternative(a)
  }

  // ----- what an expression means ------------------------------------------------------------

  function Triple(v: Version): (nat, nat, nat) {
    (v.major, v.minor, v.patch)
  }

  predicate TripleBelow(a: (nat, nat, nat), b: (nat, nat, nat)) {
    a.0 < b.0 || (a.0 == b.0 && (a.1 < b.1 || (a.1 == b.1 && a.2 < b.2)))
  }

  /** The first triple outside a caret or tilde range. */
  function NextTriple(op: Operator, b: Version): (nat, nat, nat) {
    if op.Caret? && b.major > 0 then (b.major + 1, 0, 0)
    else if op.Tilde? || b.minor > 0 then (b.major, b.minor + 1, 0)
    else (0, 0, b.patch + 1)
  }

  ghost predicate Satisfies(v: Version, op: Operator, b: Version) {
    match op
    case Eq => v == b.(build := v.build)
    case Lt => Precedes(v, b)
    case Gt => Precedes(b, v)
    case Le => !Precedes(b, v)
    case Ge => !Precedes(v, b)
    case Caret => !Precedes(v, b) && TripleBelow(Triple(v), NextTriple(Caret, b))
    case Tilde => !Precedes(v, b) && TripleBelow(Triple(v), NextTriple(Tilde, b))
  }

  /** All terms hold, and a pre-release is admitted only if some term names a pre-release of the same triple. */
  ghost predicate Accepts(v: Version, terms: seq<string>)
    requires forall t :: t in terms ==> Readable(t)
  {
    && (forall t :: t in terms ==> Satisfies(v, TermOf(t).0, Bound(t)))
    && (v.pre == [] || exists t :: t in terms && Bound(t).pre != [] && Triple(Bound(t)) == Triple(v))
  }

  ghost predicate AcceptsText(v: Version, text: string) {
    SupportedAlternative(text) && Accepts(v, Terms(text, []))
  }

  // ----- how it is evaluated -----------------------------------------------------------------

  /** The "-0" pre-release of a triple. */
  function Floor(t: (nat, nat, nat)): Key {
    Key(t.0, t.1, t.2, PreRelease([Number(0)]))
  }

  /** No version of a triple is below its "-0" bound, so comparing with the bound compares triples only. */
  lemma FloorIsLeast(v: Version, t: (nat, nat, nat))
    ensures Less(KeyOf(v), Floor(t)) <==> TripleBelow(Triple(v), t)
  {
    if v.pre != [] {
      var ids := IdentsOf(v.pre);
      assert !IdentLess(ids[0], Number(0));
      assert !Lex(IdentLess, ids, [Number(0)]);
    }
  }

  function Compare(current: Key, op: Operator, b: Version): bool {
    var bound := KeyOf(b);
    match op
    case Eq => current == bound
    case Lt => Less(current, bound)
    case Gt => Less(bound, current)
    case Le => Less(current, bound) || current == bound
    case Ge => Less(bound, current) || current == bound
    case _ => (Less(bound, current) || current == bound) && Less(current, Floor(NextTriple(op, b)))
  }

  lemma NotLess(a: Key, b: Key)
    ensures Less(b, a) || a == b <==> !Less(a, b)
  {
    LessTotal();
    assert a == b || Less(a, b) || Less(b, a);
    assert !Less(a, a);
    assert Less(a, b) && Less(b, a) ==> Less(a, a);
  }

  /** Comparing keys, with the "-0" bound as the upper end of caret and tilde, decides what each operator means. */
  lemma CompareIsSatisfies(v: Version, op: Operator, b: Version)
    requires Valid(v) && Valid(b)
    ensures Compare(KeyOf(v), op, b) <==> Satisfies(v, op, b)
  {
    LessIsPrecedence(v, b);
    LessIsPrecedence(b, v);
    SameKeyIffSameUpToBuild(v, b);
    NotLess(KeyOf(v), KeyOf(b));
    NotLess(KeyOf(b), KeyOf(v));
    FloorIsLeast(v, NextTriple(op, b));
  }

  /** One term of an alternative: whether it can be read, whether it holds, and whether it names a pre-release of the
      version's triple. */
  datatype Verdict = Verdict(readable: bool, holds: bool, names: bool)

  function Judge(v: Version, term: string): Verdict {
    var (op, text) := TermOf(term);
    match Parse(text)
    case None => Verdict(false, false, false)
    case Some(bound) => Verdict(true, Compare(KeyOf(v), op, bound), bound.pre != [] && Triple(bound) == Triple(v))
  }

  lemma JudgeIs(v: Version, term: string)
    requires Valid(v)
    ensures Judge(v, term).readable <==> Readable(term)
    ensures Readable(term) ==>
              (Judge(v, term).holds <==> Satisfies(v, TermOf(term).0, Bound(term)))
              && (Judge(v, term).names <==> Bound(term).pre != [] && Triple(Bound(term)) == Triple(v))
  {
    if Readable(term) {
      ShowParse(TermOf(term).1);
      CompareIsSatisfies(v, TermOf(term).0, Bound(term));
    }
  }

  lemma JudgedTerms(v: Version, terms: seq<string>)
    requires Valid(v)
    ensures (forall t :: t in terms ==> Judge(v, t).readable) <==> forall t :: t in terms ==> Readable(t)
    ensures (forall t :: t in terms ==> Readable(t)) ==>
              (Accepts(v, terms) <==>
                 (forall t :: t in terms ==> Judge(v, t).holds) && (v.pre == [] || exists t :: t in terms && Judge(v, t).names))
  {
    forall t | t in terms
      ensures Judge(v, t).readable <==> Readable(t)
      ensures Readable(t) ==> (Judge(v, t).holds <==> Satisfies(v, TermOf(t).0, Bound(t)))
                              && (Judge(v, t).names <==> Bound(t).pre != [] && Triple(Bound(t)) == Triple(v))
    {
      JudgeIs(v, t);
    }
  }

  predicate AllTo(p: string -> bool, xs: seq<string>, n: nat)
    requires n <= |xs|
  {
    n == 0 || (AllTo(p, xs, n - 1) && p(xs[n - 1]))
  }

  predicate AnyTo(p: string -> bool, xs: seq<string>, n: nat)
    requires n <= |xs|
  {
    n > 0 && (AnyTo(p, xs, n - 1) || p(xs[n - 1]))
  }

  lemma {:induction false} AllToIs(p: string -> bool, xs: seq<string>, n: nat)
    requires n <= |xs|
    ensures AllTo(p, xs, n) <==> forall x :: x in xs[..n] ==> p(x)
  {
    if n > 0 {
      assert xs[..n] == xs[..n - 1] + [xs[n - 1]];
      AllToIs(p, xs, n - 1);
    }
  }

  lemma {:induction false} AnyToIs(p: string -> bool, xs: seq<string>, n: nat)
    requires n <= |xs|
    ensures AnyTo(p, xs, n) <==> exists x :: x in xs[..n] && p(x)
  {
    if n > 0 {
      assert xs[..n] == xs[..n - 1] + [xs[n - 1]];
      AnyToIs(p, xs, n - 1);
    }
  }

  lemma WholeList(p: string -> bool, xs: seq<string>)
    ensures AllTo(p, xs, |xs|) <==> forall x :: x in xs ==> p(x)
    ensures AnyTo(p, xs, |xs|) <==> exists x :: x in xs && p(x)
  {
    assert xs[..|xs|] == xs;
    AllToIs(p, xs, |xs|);
    AnyToIs(p, xs, |xs|);
  }

  /** Judges the terms one after the other; the first that cannot be read ends it. */
  method JudgeAll(judge: string -> Verdict, terms: seq<string>) returns (r: Verdict)
    ensures r.readable <==> forall t :: t in terms ==> judge(t).readable
    ensures r.readable ==> (r.holds <==> forall t :: t in terms ==> judge(t).holds)
                           && (r.names <==> exists t :: t in terms && judge(t).names)
  {
    var all, named := true, false;
    for i := 0 to |terms|
      invariant forall j :: 0 <= j < i ==> judge(terms[j]).readable
      invariant all <==> forall j :: 0 <= j < i ==> judge(terms[j]).holds
      invariant named <==> exists j :: 0 <= j < i && judge(terms[j]).names
    {
      var verdict := judge(terms[i]);
      if !verdict.readable {
        return Verdict(false, false, false);
      }
      all, named := all && verdict.holds, named || verdict.names;
    }
    return Verdict(true, all, named);
  }

  method EvaluateAlternative(v: Version, text: string) returns (r: Option<bool>)
    requires Valid(v)
    ensures r.Some? <==> SupportedAlternative(text)
    ensures r.Some? ==> (r.value <==> AcceptsText(v, text))
  {
    var terms := Terms(text, []);
    if terms == [] || |terms| > MAX_TERMS {
      return None;
    }
    var verdict := JudgeAll(t => Judge(v, t), terms);
    JudgedTerms(v, terms);
    if !verdict.readable {
      return None;
    }
    return Some(verdict.holds && (v.pre == [] || verdict.names));
  }

  /** Nothing is decided when any part is not understood; otherwise the answer is whether some alternative accepts
      the version. */
  method EvaluateRange(version: string, expression: string) returns (r: Option<bool>)
    ensures r.Some? <==> Supported(version, expression)
    ensures r.Some? ==>
              (r.value <==> exists a :: a in Alternatives(expression) && AcceptsText(Parse(version).value, a))
  {
    if !(0 < |expression| <= MAX_EXPRESSION) || Parse(version) == None {
      return None;
    }
    var v := Parse(version).value;
    ShowParse(version);
    var alternatives := Alternatives(expression);
    if |alternatives| > MAX_ALTERNATIVES {
      return None;
    }

    ghost var supported: string -> bool, accepted: string -> bool := a => SupportedAlternative(a), a => AcceptsText(v, a);
    WholeList(supported, alternatives);
    WholeList(accepted, alternatives);
    var any := false;
    for i := 0 to |alternatives|
      invariant AllTo(supported, alternatives, i) && (any <==> AnyTo(accepted, alternatives, i))
    {
      var one := EvaluateAlternative(v, alternatives[i]);
      if one == None {
        assert !supported(alternatives[i]) && alternatives[i] in alternatives;
        return None;
      }
      assert supported(alternatives[i]) && (one.value <==> accepted(alternatives[i]));
      any := any || one.value;
    }
    return Some(any);
  }

  // ----- the meaning of the written text -----------------------------------------------------

  // The comparators as they are written, and what each asks of a version, apart from how they are read and compared.

  const WRITTEN := {"", "=", "<", ">", "<=", ">=", "^", "~"}
  const BLANKS := {' ', ',', '\t', '\n', '\r', '\U{000B}', '\U{000C}', '\U{001C}', '\U{001D}', '\U{001E}', '\U{001F}'}

  datatype Term = Term(written: string, bound: Version)

  function Text(t: Term): string {
    t.written + Show(t.bound)
  }

  predicate WellWritten(t: Term) {
    t.written in WRITTEN && Valid(t.bound)
  }

  /** The same from the left up to the first number that is not zero. */
  predicate SameLeadingNumber(v: Version, b: Version) {
    if b.major > 0 then v.major == b.major
    else if b.minor > 0 then v.major == 0 && v.minor == b.minor
    else v.major == 0 && v.minor == 0 && v.patch == b.patch
  }

  ghost predicate Holds(v: Version, t: Term) {
    var b := t.bound;
    if t.written == "<" then Precedes(v, b)
    else if t.written == "<=" then !Precedes(b, v)
    else if t.written == ">" then Precedes(b, v)
    else if t.written == ">=" then !Precedes(v, b)
    else if t.written == "^" then !Precedes(v, b) && SameLeadingNumber(v, b)
    else if t.written == "~" then !Precedes(v, b) && v.major == b.major && v.minor == b.minor
    else !Precedes(v, b) && !Precedes(b, v)
  }

  /** Every comparator holds, and a pre-release needs one that names a pre-release of its own major, minor and patch. */
  ghost predicate AllHold(v: Version, terms: seq<Term>) {
    && (forall t :: t in terms ==> Holds(v, t))
    && (v.pre == [] || exists t :: t in terms && t.bound.pre != []
                                   && t.bound.major == v.major && t.bound.minor == v.minor && t.bound.patch == v.patch)
  }

  lemma ShowStartsWithDigit(v: Version)
    ensures Show(v) != [] && Digit(Show(v)[0])
  {
    ValueOfDecimal(v.major);
    assert Core(v)[0] == Decimal(v.major)[0];
    assert Show(v)[0] == Core(v)[0];
  }

  function OperatorWritten(written: string): Operator {
    if written == "<" then Lt
    else if written == "<=" then Le
    else if written == ">" then Gt
    else if written == ">=" then Ge
    else if written == "^" then Caret
    else if written == "~" then Tilde
    else Eq
  }

  lemma OperatorIsRead(written: string, rest: string)
    requires written in WRITTEN && rest != [] && Digit(rest[0])
    ensures TermOf(written + rest) == (OperatorWritten(written), rest)
  {
    var text := written + rest;
    if |written| == 0 {
      assert text == rest;
    } else if |written| == 1 {
      assert text[0] == written[0] && text[1] == rest[0] && text[1..] == rest && text[..1] == written;
      assert text[..2][1] == rest[0];
    } else {
      assert text[..2] == written && text[2..] == rest;
    }
  }

  /** Reading a comparator gives back the operator written and the version. */
  lemma TermIsRead(t: Term)
    requires WellWritten(t)
    ensures TermOf(Text(t)) == (OperatorWritten(t.written), Show(t.bound))
    ensures Readable(Text(t)) && Bound(Text(t)) == t.bound
  {
    ShowStartsWithDigit(t.bound);
    ParseShow(t.bound);
    hide TermOf, Show, Parse, Valid;
    OperatorIsRead(t.written, Show(t.bound));
  }

  lemma SameVersionIff(v: Version, b: Version)
    requires Valid(v) && Valid(b)
    ensures v == b.(build := v.build) <==> !Precedes(v, b) && !Precedes(b, v)
  {
    LessIsPrecedence(v, b);
    LessIsPrecedence(b, v);
    SameKeyIffSameUpToBuild(v, b);
    NotLess(KeyOf(v), KeyOf(b));
    LessTotal();
    assert !Less(KeyOf(v), KeyOf(v));
  }

  lemma HoldsIsSatisfies(v: Version, t: Term)
    requires Valid(v) && WellWritten(t)
    ensures Satisfies(v, TermOf(Text(t)).0, t.bound) <==> Holds(v, t)
  {
    TermIsRead(t);
    SameVersionIff(v, t.bound);
    hide TermOf, Show, Parse;
  }

  // ----- terms and alternatives in a text ----------------------------------------------------

  function Spaced(gaps: seq<string>, words: seq<string>): string
    requires |gaps| == |words| + 1
    decreases |words|
  {
    if words == [] then gaps[0] else gaps[0] + words[0] + Spaced(gaps[1..], words[1..])
  }

  predicate BlankText(s: string) {
    forall c :: c in s ==> c in BLANKS
  }

  /** Blanks around the words, and at least one between two words. */
  predicate Gaps(gaps: seq<string>) {
    && (forall g :: g in gaps ==> BlankText(g))
    && forall i :: 0 < i < |gaps| - 1 ==> gaps[i] != ""
  }

  predicate Word(s: string) {
    s != [] && forall c :: c in s ==> c !in BLANKS
  }

  lemma BlanksAreBlank(c: char)
    ensures Blank(c) <==> c in BLANKS
  {
  }

  lemma {:induction false} BlanksAreSkipped(gap: string, rest: string)
    requires BlankText(gap)
    ensures Terms(gap + rest, []) == Terms(rest, [])
  {
    if gap == [] {
      assert gap + rest == rest;
    } else {
      BlanksAreBlank(gap[0]);
      assert gap[0] in gap && (gap + rest)[1..] == gap[1..] + rest;
      BlanksAreSkipped(gap[1..], rest);
    }
  }

  lemma {:induction false} WordIsRead(w: string, rest: string, read: string)
    requires forall c :: c in w ==> c !in BLANKS
    ensures Terms(w + rest, read) == Terms(rest, read + w)
    decreases |w|
  {
    if w == [] {
      assert w + rest == rest && read + w == read;
    } else {
      BlanksAreBlank(w[0]);
      assert w[0] in w && (w + rest)[1..] == w[1..] + rest;
      WordIsRead(w[1..], rest, read + [w[0]]);
      assert read + [w[0]] + w[1..] == read + w;
    }
  }

  lemma WordEnds(w: string, rest: string)
    requires w != [] && (rest == [] || rest[0] in BLANKS)
    ensures Terms(rest, w) == [w] + Terms(rest, [])
  {
    if rest != [] {
      BlanksAreBlank(rest[0]);
    }
  }

  /** Words with blanks or commas around them read back as the list of words. */
  lemma {:induction false} TermsOfSpaced(gaps: seq<string>, words: seq<string>)
    requires |gaps| == |words| + 1 && Gaps(gaps) && forall w :: w in words ==> Word(w)
    ensures Terms(Spaced(gaps, words), []) == words
    decreases |words|
  {
    assert gaps[0] in gaps;
    if words == [] {
      assert gaps[0] + [] == gaps[0];
      BlanksAreSkipped(gaps[0], []);
    } else {
      var rest := Spaced(gaps[1..], words[1..]);
      assert words[0] in words && gaps[0] + words[0] + rest == gaps[0] + (words[0] + rest);
      BlanksAreSkipped(gaps[0], words[0] + rest);
      WordIsRead(words[0], rest, []);
      assert [] + words[0] == words[0];
      NextGap(gaps, words);
      WordEnds(words[0], rest);
      assert forall i :: 0 < i < |gaps[1..]| - 1 ==> gaps[1..][i] == gaps[i + 1];
      TermsOfSpaced(gaps[1..], words[1..]);
    }
  }

  lemma NextGap(gaps: seq<string>, words: seq<string>)
    requires words != [] && |gaps| == |words| + 1 && Gaps(gaps)
    ensures var rest := Spaced(gaps[1..], words[1..]); rest == [] || rest[0] in BLANKS
  {
    assert gaps[1] in gaps;
    if |words| > 1 {
      assert gaps[1] != "" && Spaced(gaps[1..], words[1..])[0] == gaps[1][0] && gaps[1][0] in gaps[1];
    } else if gaps[1] != "" {
      assert gaps[1][0] in gaps[1];
    }
  }

  function Barred(parts: seq<string>): string
    requires parts != []
  {
    if |parts| == 1 then parts[0] else parts[0] + "||" + Barred(parts[1..])
  }

  lemma {:induction false} OneAlternative(s: string)
    requires '|' !in s
    ensures Alternatives(s) == [s]
  {
    if s != [] {
      assert s[0] in s;
      OneAlternative(s[1..]);
      assert s == [s[0]] + s[1..];
    }
  }

  lemma {:induction false} AlternativeEnds(s: string, rest: string)
    requires '|' !in s
    ensures Alternatives(s + "||" + rest) == [s] + Alternatives(rest)
  {
    var text := s + "||" + rest;
    if s == [] {
      assert text == "||" + rest && text[2..] == rest;
    } else {
      assert s[0] in s && text[0] == s[0] && text[1..] == s[1..] + "||" + rest;
      AlternativeEnds(s[1..], rest);
      assert s == [s[0]] + s[1..];
    }
  }

  /** Alternatives joined with bars read back as the list of alternatives. */
  lemma {:induction false} AlternativesOfBarred(parts: seq<string>)
    requires parts != [] && forall p :: p in parts ==> '|' !in p
    ensures Alternatives(Barred(parts)) == parts
  {
    assert parts[0] in parts;
    if |parts| == 1 {
      OneAlternative(parts[0]);
    } else {
      AlternativesOfBarred(parts[1..]);
      AlternativeEnds(parts[0], Barred(parts[1..]));
    }
  }

  // ----- whole expressions -------------------------------------------------------------------

  datatype Alternative = Alternative(gaps: seq<string>, terms: seq<Term>)

  function Texts(terms: seq<Term>): (r: seq<string>)
    ensures |r| == |terms| && forall i :: 0 <= i < |terms| ==> r[i] == Text(terms[i])
  {
    seq(|terms|, i requires 0 <= i < |terms| => Text(terms[i]))
  }

  predicate WellFormed(a: Alternative) {
    && 1 <= |a.terms| <= MAX_TERMS && |a.gaps| == |a.terms| + 1 && Gaps(a.gaps)
    && forall t :: t in a.terms ==> WellWritten(t)
  }

  function Phrase(a: Alternative): string
    requires WellFormed(a)
  {
    Spaced(a.gaps, Texts(a.terms))
  }

  function Phrases(alternatives: seq<Alternative>): (r: seq<string>)
    requires forall a :: a in alternatives ==> WellFormed(a)
    ensures |r| == |alternatives| && forall i :: 0 <= i < |alternatives| ==> r[i] == Phrase(alternatives[i])
  {
    seq(|alternatives|, i requires 0 <= i < |alternatives| => Phrase(alternatives[i]))
  }

  function Expression(alternatives: seq<Alternative>): string
    requires alternatives != [] && forall a :: a in alternatives ==> WellFormed(a)
  {
    Barred(Phrases(alternatives))
  }

  predicate VersionChar(c: char) {
    IdentifierChar(c) || c == '.' || c == '+'
  }

  lemma {:induction false} JoinChars(parts: seq<string>)
    requires parts != [] && forall p, c :: p in parts && c in p ==> VersionChar(c)
    ensures forall c :: c in Join(parts, '.') ==> VersionChar(c)
  {
    assert parts[0] in parts;
    if |parts| > 1 {
      JoinChars(parts[1..]);
    }
  }

  lemma ShowChars(v: Version)
    requires Valid(v)
    ensures forall c :: c in Show(v) ==> VersionChar(c)
  {
    ValueOfDecimal(v.major);
    ValueOfDecimal(v.minor);
    ValueOfDecimal(v.patch);
    JoinChars([Decimal(v.major), Decimal(v.minor), Decimal(v.patch)]);
    if v.pre != [] {
      JoinChars(v.pre);
    }
    if v.build != [] {
      JoinChars(v.build);
    }
  }

  predicate InWords(c: char) {
    c !in BLANKS && c != '|'
  }

  lemma OperatorChars(written: string)
    requires written in WRITTEN
    ensures forall c :: c in written ==> InWords(c)
  {
    assert forall c :: c in written ==> c in {'<', '=', '>', '^', '~'};
  }

  lemma VersionCharInWords(c: char)
    requires VersionChar(c)
    ensures InWords(c)
  {
  }

  lemma TextIsWord(t: Term)
    requires WellWritten(t)
    ensures Word(Text(t)) && '|' !in Text(t)
  {
    ShowStartsWithDigit(t.bound);
    ShowChars(t.bound);
    OperatorChars(t.written);
    hide Show, VersionChar;
    forall c | c in Text(t) ensures InWords(c) {
      if c in Show(t.bound) {
        VersionCharInWords(c);
      }
    }
  }

  lemma {:induction false} SpacedHasNoBar(gaps: seq<string>, words: seq<string>)
    requires |gaps| == |words| + 1 && (forall g :: g in gaps ==> BlankText(g)) && forall w :: w in words ==> '|' !in w
    ensures '|' !in Spaced(gaps, words)
    decreases |words|
  {
    assert gaps[0] in gaps;
    if words != [] {
      assert words[0] in words;
      SpacedHasNoBar(gaps[1..], words[1..]);
    }
  }

  lemma PhraseIsRead(a: Alternative)
    requires WellFormed(a)
    ensures Terms(Phrase(a), []) == Texts(a.terms) && '|' !in Phrase(a)
  {
    forall i | 0 <= i < |a.terms| ensures Word(Texts(a.terms)[i]) && '|' !in Texts(a.terms)[i] {
      TextIsWord(a.terms[i]);
    }
    hide Text, Word;
    TermsOfSpaced(a.gaps, Texts(a.terms));
    SpacedHasNoBar(a.gaps, Texts(a.terms));
  }

  lemma TermsAreRead(v: Version, terms: seq<Term>)
    requires Valid(v) && forall t :: t in terms ==> WellWritten(t)
    ensures forall x :: x in Texts(terms) ==> Readable(x)
    ensures Accepts(v, Texts(terms)) <==> AllHold(v, terms)
  {
    var xs := Texts(terms);
    forall i | 0 <= i < |terms|
      ensures Readable(xs[i]) && Bound(xs[i]) == terms[i].bound && (Satisfies(v, TermOf(xs[i]).0, Bound(xs[i])) <==> Holds(v, terms[i]))
    {
      TermIsRead(terms[i]);
      HoldsIsSatisfies(v, terms[i]);
    }
    hide TermOf, Text, Satisfies, Holds, Readable, Bound;
  }

  lemma PhraseMeans(v: Version, a: Alternative)
    requires Valid(v) && WellFormed(a)
    ensures SupportedAlternative(Phrase(a)) && (AcceptsText(v, Phrase(a)) <==> AllHold(v, a.terms))
  {
    hide Phrase, Terms, Readable, Accepts, AllHold;
    PhraseIsRead(a);
    TermsAreRead(v, a.terms);
  }

  /** What a written expression is decided to mean: some alternative has all its comparators hold. */
  lemma ExpressionMeans(v: Version, alternatives: seq<Alternative>)
    requires Valid(v) && 1 <= |alternatives| <= MAX_ALTERNATIVES && forall a :: a in alternatives ==> WellFormed(a)
    requires |Expression(alternatives)| <= MAX_EXPRESSION
    ensures Supported(Show(v), Expression(alternatives)) && Parse(Show(v)) == Some(v)
    ensures (exists x :: x in Alternatives(Expression(alternatives)) && AcceptsText(v, x)) <==>
              exists a :: a in alternatives && AllHold(v, a.terms)
  {
    ParseShow(v);
    var phrases := Phrases(alternatives);
    forall i | 0 <= i < |alternatives|
      ensures '|' !in phrases[i] && phrases[i] != []
      ensures SupportedAlternative(phrases[i]) && (AcceptsText(v, phrases[i]) <==> AllHold(v, alternatives[i].terms))
    {
      PhraseIsRead(alternatives[i]);
      PhraseMeans(v, alternatives[i]);
    }
    AlternativesOfBarred(phrases);
    assert phrases[0] == Phrase(alternatives[0]);
    hide Show, Parse, Phrase, AllHold, AcceptsText, SupportedAlternative;
  }

  /** One comparator alone, however it is written. */
  lemma ComparatorMeans(v: Version, t: Term)
    requires Valid(v) && WellWritten(t) && |Text(t)| <= MAX_EXPRESSION
    ensures Supported(Show(v), Text(t)) && Alternatives(Text(t)) == [Text(t)]
    ensures AcceptsText(v, Text(t)) <==>
              Holds(v, t) && (v.pre == [] || (t.bound.pre != [] && t.bound.major == v.major && t.bound.minor == v.minor
                                              && t.bound.patch == v.patch))
  {
    hide Show, Parse, Text, Spaced, AllHold, Holds, Accepts, Terms, Alternatives, Gaps;
    var a := Alternative(["", ""], [t]);
    OneTerm(t);
    TextIsWord(t);
    OneAlternative(Text(t));
    PhraseMeans(v, a);
    OneHolds(v, t);
    assert Phrases([a]) == [Text(t)] && Expression([a]) == Text(t);
    ExpressionMeans(v, [a]);
  }

  lemma OneTerm(t: Term)
    requires WellWritten(t)
    ensures WellFormed(Alternative(["", ""], [t])) && Phrase(Alternative(["", ""], [t])) == Text(t)
  {
    hide Text;
    assert Texts([t]) == [Text(t)];
    assert Spaced([""], []) == "" && ["", ""][1..] == [""] && [Text(t)][1..] == [];
    assert Spaced(["", ""], [Text(t)]) == "" + Text(t) + "";
  }

  lemma OneHolds(v: Version, t: Term)
    ensures AllHold(v, [t]) <==>
              Holds(v, t) && (v.pre == [] || (t.bound.pre != [] && t.bound.major == v.major && t.bound.minor == v.minor
                                              && t.bound.patch == v.patch))
  {
    hide Holds;
    assert forall x :: x in [t] <==> x == t;
  }

  /** Only written comparators can be read. */
  lemma ReadableIsWritten(text: string)
    requires Readable(text)
    ensures exists t :: WellWritten(t) && Text(t) == text
  {
    hide TermOf, Parse, Show;
    ShowParse(TermOf(text).1);
    var written := OperatorWas(text);
    var t := Term(written, Bound(text));
    assert WellWritten(t) && Text(t) == text;
  }

  lemma OperatorWas(text: string) returns (written: string)
    ensures written in WRITTEN && text == written + TermOf(text).1
  {
    var rest := TermOf(text).1;
    written := text[..|text| - |rest|];
    assert |rest| <= |text| && text[|text| - |rest|..] == rest;
    assert |written| == 1 ==> written == [text[0]];
  }
}
