/** The sort key of a version, and its order. */
module VersionOrder {
  // The order Python gives the keys is proved to be the precedence of section 11 of Semantic Versioning 2.0.0.

  import opened SemVer

  // ----- lexicographic comparison ------------------------------------------------------------

  ghost predicate StrictTotal<T(!new)>(less: (T, T) -> bool) {
    && (forall a :: !less(a, a))
    && (forall a, b, c :: less(a, b) && less(b, c) ==> less(a, c))
    && (forall a, b :: a == b || less(a, b) || less(b, a))
  }

  /** Python's comparison of two sequences. */
  predicate Lex<T(==)>(less: (T, T) -> bool, a: seq<T>, b: seq<T>) {
    if b == [] then false
    else if a == [] then true
    else less(a[0], b[0]) || (a[0] == b[0] && Lex(less, a[1..], b[1..]))
  }

  /** The first difference, at k, is in a's favour: either a ends there or its element is smaller. */
  ghost predicate DiffersAt<T>(less: (T, T) -> bool, a: seq<T>, b: seq<T>, k: nat) {
    k <= |a| && k < |b| && a[..k] == b[..k] && (k == |a| || less(a[k], b[k]))
  }

  lemma {:induction false} LexIff<T>(less: (T, T) -> bool, a: seq<T>, b: seq<T>)
    ensures Lex(less, a, b) <==> exists k: nat :: DiffersAt(less, a, b, k)
  {
    if a == [] || b == [] {
      if b != [] { assert DiffersAt(less, a, b, 0); }
    } else {
      LexIff(less, a[1..], b[1..]);
      if less(a[0], b[0]) {
        assert DiffersAt(less, a, b, 0);
      } else if Lex(less, a, b) {
        var k: nat :| DiffersAt(less, a[1..], b[1..], k);
        assert a[..k + 1] == [a[0]] + a[1..][..k] && b[..k + 1] == [b[0]] + b[1..][..k];
        assert DiffersAt(less, a, b, k + 1);
      }
      forall k: nat | DiffersAt(less, a, b, k) ensures Lex(less, a, b) {
        if k > 0 {
          assert a[0] == a[..k][0] == b[..k][0];
          assert a[1..][..k - 1] == a[..k][1..] && b[1..][..k - 1] == b[..k][1..];
          assert DiffersAt(less, a[1..], b[1..], k - 1);
        }
      }
    }
  }

  lemma {:induction false} LexIrreflexive<T(!new)>(less: (T, T) -> bool, a: seq<T>)
    requires StrictTotal(less)
    ensures !Lex(less, a, a)
  {
    if a != [] {
      LexIrreflexive(less, a[1..]);
    }
  }

  lemma {:induction false} LexTrichotomy<T(!new)>(less: (T, T) -> bool, a: seq<T>, b: seq<T>)
    requires StrictTotal(less)
    ensures a == b || Lex(less, a, b) || Lex(less, b, a)
    ensures !(Lex(less, a, b) && Lex(less, b, a))
  {
    if a != [] && b != [] {
      LexTrichotomy(less, a[1..], b[1..]);
      assert a == [a[0]] + a[1..] && b == [b[0]] + b[1..];
    }
  }

  lemma {:induction false} LexTransitive<T(!new)>(less: (T, T) -> bool, a: seq<T>, b: seq<T>, c: seq<T>)
    requires StrictTotal(less) && Lex(less, a, b) && Lex(less, b, c)
    ensures Lex(less, a, c)
  {
    if a != [] && a[0] == b[0] == c[0] {
      LexTransitive(less, a[1..], b[1..], c[1..]);
    }
  }

  // ----- the sort key ------------------------------------------------------------------------

  datatype Ident = Number(n: nat) | Text(s: string)
  datatype Stage = Release | PreRelease(ids: seq<Ident>)
  datatype Key = Key(major: nat, minor: nat, patch: nat, stage: Stage)

  predicate CharLess(a: char, b: char) {
    a < b
  }

  /** Tuples (0, number) and (1, text). */
  predicate IdentLess(a: Ident, b: Ident) {
    match (a, b)
    case (Number(m), Number(n)) => m < n
    case (Number(_), Text(_)) => true
    case (Text(_), Number(_)) => false
    case (Text(s), Text(t)) => Lex(CharLess, s, t)
  }

  /** Tuples (1,) for a release and (0, identifiers) for a pre-release. */
  predicate StageLess(a: Stage, b: Stage) {
    match (a, b)
    case (PreRelease(x), PreRelease(y)) => Lex(IdentLess, x, y)
    case (PreRelease(_), Release) => true
    case (Release, _) => false
  }

  predicate TripleLess(a: Key, b: Key) {
    || a.major < b.major
    || (a.major == b.major && (a.minor < b.minor || (a.minor == b.minor && a.patch < b.patch)))
  }

  predicate SameTriple(a: Key, b: Key) {
    a.major == b.major && a.minor == b.minor && a.patch == b.patch
  }

  predicate Less(a: Key, b: Key) {
    TripleLess(a, b) || (SameTriple(a, b) && StageLess(a.stage, b.stage))
  }

  function IdentOf(part: string): Ident {
    if Numeric(part) then Number(Value(part)) else Text(part)
  }

  function IdentsOf(parts: seq<string>): (r: seq<Ident>)
    ensures |r| == |parts| && forall i :: 0 <= i < |parts| ==> r[i] == IdentOf(parts[i])
  {
    seq(|parts|, i requires 0 <= i < |parts| => IdentOf(parts[i]))
  }

  function KeyOf(v: Version): Key {
    Key(v.major, v.minor, v.patch, if v.pre == [] then Release else PreRelease(IdentsOf(v.pre)))
  }

  lemma CharLessTotal()
    ensures StrictTotal(CharLess)
  {
  }

  lemma IdentTrichotomy(a: Ident, b: Ident)
    ensures a == b || IdentLess(a, b) || IdentLess(b, a)
    ensures !IdentLess(a, a)
  {
    CharLessTotal();
    if a.Text? {
      LexIrreflexive(CharLess, a.s);
      if b.Text? { LexTrichotomy(CharLess, a.s, b.s); }
    }
  }

  lemma IdentTransitive(a: Ident, b: Ident, c: Ident)
    requires IdentLess(a, b) && IdentLess(b, c)
    ensures IdentLess(a, c)
  {
    CharLessTotal();
    if a.Text? { LexTransitive(CharLess, a.s, b.s, c.s); }
  }

  lemma IdentLessTotal()
    ensures StrictTotal(IdentLess)
  {
    forall a, b ensures (a == b || IdentLess(a, b) || IdentLess(b, a)) && !IdentLess(a, a) { IdentTrichotomy(a, b); }
    forall a, b, c | IdentLess(a, b) && IdentLess(b, c) ensures IdentLess(a, c) { IdentTransitive(a, b, c); }
  }

  /** The order on keys is a strict total order. */
  lemma LessTotal()
    ensures StrictTotal(Less)
  {
    IdentLessTotal();
    forall a: Key, b: Key ensures (a == b || Less(a, b) || Less(b, a)) && !Less(a, a) {
      if a.stage.PreRelease? {
        LexIrreflexive(IdentLess, a.stage.ids);
        if b.stage.PreRelease? { LexTrichotomy(IdentLess, a.stage.ids, b.stage.ids); }
      }
    }
    forall a: Key, b: Key, c: Key | Less(a, b) && Less(b, c) ensures Less(a, c) {
      if SameTriple(a, b) && SameTriple(b, c) && c.stage.PreRelease? {
        LexTransitive(IdentLess, a.stage.ids, b.stage.ids, c.stage.ids);
      }
    }
  }

  // ----- section 11 of Semantic Versioning ---------------------------------------------------

  /** Two differing identifiers: numbers numerically, words in ASCII order, numbers below words. */
  ghost predicate LowerIdentifier(a: string, b: string) {
    if Numeric(a) && Numeric(b) then Value(a) < Value(b)
    else if Numeric(a) || Numeric(b) then Numeric(a)
    else exists k: nat :: DiffersAt(CharLess, a, b, k)
  }

  ghost predicate Precedes(v: Version, w: Version) {
    || v.major < w.major
    || (v.major == w.major && v.minor < w.minor)
    || (v.major == w.major && v.minor == w.minor && v.patch < w.patch)
    || (v.major == w.major && v.minor == w.minor && v.patch == w.patch
        && (if w.pre == [] then v.pre != []
            else v.pre != [] && exists k: nat :: k <= |v.pre| && k < |w.pre| && v.pre[..k] == w.pre[..k]
                                                 && (k == |v.pre| || LowerIdentifier(v.pre[k], w.pre[k]))))
  }

  lemma IdentOfInjective(a: string, b: string)
    requires PreIdentifier(a) && PreIdentifier(b) && IdentOf(a) == IdentOf(b)
    ensures a == b
  {
    if Numeric(a) {
      DecimalOfValue(a);
      DecimalOfValue(b);
    }
  }

  lemma LowerIdentifierIff(a: string, b: string)
    ensures IdentLess(IdentOf(a), IdentOf(b)) <==> LowerIdentifier(a, b)
  {
    LexIff(CharLess, a, b);
  }

  lemma PreLessIff(p: seq<string>, q: seq<string>)
    requires forall s :: s in p || s in q ==> PreIdentifier(s)
    ensures Lex(IdentLess, IdentsOf(p), IdentsOf(q)) <==>
              exists k: nat :: k <= |p| && k < |q| && p[..k] == q[..k] && (k == |p| || LowerIdentifier(p[k], q[k]))
  {
    var x, y := IdentsOf(p), IdentsOf(q);
    LexIff(IdentLess, x, y);
    forall k: nat | k <= |p| && k < |q|
      ensures x[..k] == y[..k] <==> p[..k] == q[..k]
    {
      if x[..k] == y[..k] {
        forall i | 0 <= i < k ensures p[i] == q[i] {
          assert x[i] == x[..k][i] == y[..k][i] == y[i];
          IdentOfInjective(p[i], q[i]);
        }
      } else if p[..k] == q[..k] {
        forall i | 0 <= i < k ensures x[i] == y[i] {
          assert p[i] == p[..k][i] == q[..k][i] == q[i];
        }
      }
    }
    forall k: nat | k < |p| && k < |q|
      ensures IdentLess(x[k], y[k]) <==> LowerIdentifier(p[k], q[k])
    {
      LowerIdentifierIff(p[k], q[k]);
    }
    forall k: nat | k <= |p| && k < |q|
      ensures DiffersAt(IdentLess, x, y, k) <==> p[..k] == q[..k] && (k == |p| || LowerIdentifier(p[k], q[k]))
    {
    }
  }

  /** Comparing keys is exactly the precedence the standard defines. */
  lemma LessIsPrecedence(v: Version, w: Version)
    requires Valid(v) && Valid(w)
    ensures Less(KeyOf(v), KeyOf(w)) <==> Precedes(v, w)
  {
    if v.pre != [] && w.pre != [] {
      PreLessIff(v.pre, w.pre);
    }
  }

  /** Two versions have the same key exactly when they differ in build metadata only. */
  lemma SameKeyIffSameUpToBuild(v: Version, w: Version)
    requires Valid(v) && Valid(w)
    ensures KeyOf(v) == KeyOf(w) <==> v == w.(build := v.build)
  {
    if KeyOf(v) == KeyOf(w) && v.pre != [] {
      var x := IdentsOf(v.pre);
      assert x == IdentsOf(w.pre);
      forall i | 0 <= i < |v.pre| ensures v.pre[i] == w.pre[i] {
        assert IdentOf(v.pre[i]) == x[i] == IdentOf(w.pre[i]);
        IdentOfInjective(v.pre[i], w.pre[i]);
      }
    }
  }
}
