/** Artifact paths: percent quoting on the way out, and the normalization every path passes on the way in.

    Quoting is undone by unquoting, for every text; cleaning is idempotent; and a path that was normalized and quoted is
    read back unless its quoted form is too long or it is no relative path any more. */
module ReportPaths {
  import opened Wrappers
  import opened Utf8

  const MAX_PATH := 2048

  // ----- percent quoting ---------------------------------------------------------------------

  predicate Unreserved(c: char) {
    '0' <= c <= '9' || 'a' <= c <= 'z' || 'A' <= c <= 'Z' || c in "_.-~/"
  }

  function HexDigit(n: nat): char
    requires n < 16
  {
    "0123456789ABCDEF"[n]
  }

  function HexValue(c: char): (r: int)
    ensures -1 <= r < 16
  {
    if '0' <= c <= '9' then c as int - '0' as int
    else if 'A' <= c <= 'F' then c as int - 'A' as int + 10
    else if 'a' <= c <= 'f' then c as int - 'a' as int + 10
    else -1
  }

  function Escape(b: Byte): string {
    ['%', HexDigit(b / 16), HexDigit(b % 16)]
  }

  function EscapeAll(bs: seq<Byte>): string {
    if bs == [] then [] else Escape(bs[0]) + EscapeAll(bs[1..])
  }

  function Quote(s: string): string {
    if s == [] then []
    else (if Unreserved(s[0]) then [s[0]] else EscapeAll(Encode(s[0]))) + Quote(s[1..])
  }

  /** Letters, digits and five signs stand for themselves (section 2.3 of RFC 3986 and the slash); of every other character
      each byte is written with two hexadecimal digits (section 2.1). */
  lemma QuotedCharacter(c: char)
    ensures (c in "ABCDEFGHIJKLMNOPQRSTUVWXYZ" || c in "abcdefghijklmnopqrstuvwxyz" || c in "0123456789" || c in "-._~/") <==>
              Quote([c]) == [c]
    ensures Quote([c]) == [c] || Quote([c]) == EscapeAll(Encode(c))
  {
    assert [c][1..] == [] && [c] + [] == [c];
    assert EscapeAll(Encode(c)) + [] == EscapeAll(Encode(c));
    assert !Unreserved(c) ==> |EscapeAll(Encode(c))| >= 3;
    IsCapital(c);
    IsSmall(c);
    IsDigit(c);
    IsSign(c);
  }

  lemma IsCapital(c: char)
    ensures c in "ABCDEFGHIJKLMNOPQRSTUVWXYZ" <==> 'A' <= c <= 'Z'
  {
    var letters := "ABCDEFGHIJKLMNOPQRSTUVWXYZ";
    if 'A' <= c <= 'Z' {
      assert letters[c as int - 'A' as int] == c;
    }
  }

  lemma IsSmall(c: char)
    ensures c in "abcdefghijklmnopqrstuvwxyz" <==> 'a' <= c <= 'z'
  {
    var letters := "abcdefghijklmnopqrstuvwxyz";
    if 'a' <= c <= 'z' {
      assert letters[c as int - 'a' as int] == c;
    }
  }

  lemma IsDigit(c: char)
    ensures c in "0123456789" <==> '0' <= c <= '9'
  {
    var digits := "0123456789";
    if '0' <= c <= '9' {
      assert digits[c as int - '0' as int] == c;
    }
  }

  lemma IsSign(c: char)
    ensures c in "-._~/" <==> c in "_.-~/"
  {
    assert "-._~/" == ['-', '.', '_', '~', '/'] && "_.-~/" == ['_', '.', '-', '~', '/'];
  }

  lemma EscapedDigits(b: Byte)
    ensures exists high: nat, low: nat :: high < 16 && low < 16 && b == 16 * high + low
              && Escape(b) == ['%', "0123456789ABCDEF"[high], "0123456789ABCDEF"[low]]
  {
    var high: nat, low: nat := b / 16, b % 16;
    assert b == 16 * high + low && Escape(b) == ['%', "0123456789ABCDEF"[high], "0123456789ABCDEF"[low]];
  }

  predicate Ascii(s: string) {
    forall i :: 0 <= i < |s| ==> s[i] as int < 0x80
  }

  /** The bytes of ASCII text, with every valid escape replaced by its byte. */
  function Unescape(s: string): seq<Byte>
    requires Ascii(s)
    decreases |s|
  {
    if s == [] then []
    else if s[0] == '%' && |s| >= 3 && HexValue(s[1]) >= 0 && HexValue(s[2]) >= 0
    then
      var b: Byte := HexValue(s[1]) * 16 + HexValue(s[2]);
      [b] + Unescape(s[3..])
    else
      var b: Byte := s[0] as int;
      [b] + Unescape(s[1..])
  }

  function AsciiRun(s: string): (n: nat)
    ensures n <= |s| && Ascii(s[..n])
  {
    if s == [] || s[0] as int >= 0x80 then 0
    else
      var n := AsciiRun(s[1..]);
      assert s[..1 + n] == [s[0]] + s[1..][..n];
      1 + n
  }

  /** Each run of ASCII text is unescaped and decoded; other characters are kept. */
  function UnquoteRuns(s: string): string
    decreases |s|
  {
    if s == [] then []
    else
      var n := AsciiRun(s);
      if n == 0 then [s[0]] + UnquoteRuns(s[1..]) else Decode(Unescape(s[..n])) + UnquoteRuns(s[n..])
  }

  function Unquote(s: string): string {
    if '%' !in s then s else UnquoteRuns(s)
  }

  lemma EscapedByte(b: Byte, rest: string)
    requires Ascii(rest)
    ensures Ascii(Escape(b) + rest) && Unescape(Escape(b) + rest) == [b] + Unescape(rest)
  {
    var all := Escape(b) + rest;
    assert HexValue(HexDigit(b / 16)) == b / 16 && HexValue(HexDigit(b % 16)) == b % 16;
    assert all[3..] == rest;
  }

  lemma Regroup(a: seq<Byte>, b: seq<Byte>)
    requires a != []
    ensures [a[0]] + (a[1..] + b) == a + b
  {
  }

  lemma {:induction false} EscapedBytes(bs: seq<Byte>, rest: string)
    requires Ascii(rest)
    ensures Ascii(EscapeAll(bs) + rest) && Unescape(EscapeAll(bs) + rest) == bs + Unescape(rest)
  {
    if bs == [] {
      assert EscapeAll(bs) + rest == rest;
    } else {
      EscapedBytes(bs[1..], rest);
      var tail := EscapeAll(bs[1..]) + rest;
      EscapedByte(bs[0], tail);
      assert EscapeAll(bs) + rest == Escape(bs[0]) + tail;
      Regroup(bs, Unescape(rest));
    }
  }

  lemma {:induction false} QuotedBytes(s: string)
    ensures Ascii(Quote(s)) && Unescape(Quote(s)) == EncodeAll(s)
  {
    if s != [] {
      QuotedBytes(s[1..]);
      if Unreserved(s[0]) {
        assert ([s[0]] + Quote(s[1..]))[1..] == Quote(s[1..]);
      } else {
        EscapedBytes(Encode(s[0]), Quote(s[1..]));
      }
    }
  }

  lemma {:induction false} AllAsciiRun(s: string)
    requires Ascii(s)
    ensures AsciiRun(s) == |s|
  {
    if s != [] {
      AllAsciiRun(s[1..]);
    }
  }

  lemma EscapedHasPercent(s: string)
    requires s != [] && !Unreserved(s[0])
    ensures '%' in Quote(s)
  {
    assert EscapeAll(Encode(s[0]))[0] == '%';
    assert Quote(s)[0] == '%';
  }

  lemma {:induction false} NothingEscaped(s: string)
    requires '%' !in Quote(s)
    ensures Quote(s) == s
  {
    if s != [] {
      if Unreserved(s[0]) {
        assert forall c :: c in Quote(s[1..]) ==> c in Quote(s);
        NothingEscaped(s[1..]);
      } else {
        EscapedHasPercent(s);
      }
    }
  }

  /** Unquoting undoes quoting, for every text. */
  lemma UnquoteQuote(s: string)
    ensures Unquote(Quote(s)) == s
  {
    var q := Quote(s);
    if '%' !in q {
      NothingEscaped(s);
    } else {
      QuotedBytes(s);
      AllAsciiRun(q);
      DecodeEncoded(s);
      assert q[..|q|] == q && q[|q|..] == [];
      assert UnquoteRuns(q) == Decode(Unescape(q)) + UnquoteRuns([]);
    }
  }

  lemma {:induction false} QuoteNotShorter(s: string)
    ensures |Quote(s)| >= |s|
  {
    if s != [] {
      QuoteNotShorter(s[1..]);
      assert |EscapeAll(Encode(s[0]))| >= 1;
    }
  }

  // ----- text --------------------------------------------------------------------------------

  /** Characters kept in report text: no controls but line breaks and tabs, no bidirectional overrides. */
  predicate Kept(c: char) {
    (c as int >= 32 || c == '\n' || c == '\t') && !(0x202A <= c as int <= 0x202E) && !(0x2066 <= c as int <= 0x2069)
  }

  function Strip(s: string): string {
    if s == [] then [] else (if Kept(s[0]) then [s[0]] else []) + Strip(s[1..])
  }

  const MARK := "[REDACTED]\n"

  predicate CweId(s: string) {
    && 5 <= |s| <= 9 && s[..4] == "CWE-" && '1' <= s[4] <= '9'
    && forall i :: 5 <= i < |s| ==> '0' <= s[i] <= '9'
  }

  /** "CWE-" and a number of at most five digits, without a leading zero. */
  lemma CweIdIs(s: string)
    ensures CweId(s) <==>
              exists number: string :: s == "CWE-" + number && 1 <= |number| <= 5 && number[0] in "0123456789" && number[0] != '0'
                                       && forall i :: 0 <= i < |number| ==> number[i] in "0123456789"
  {
    forall c: char ensures c in "0123456789" <==> '0' <= c <= '9' {
      IsDigit(c);
    }
    if CweId(s) {
      assert s == "CWE-" + s[4..];
    }
  }

  /** Secret redaction: redacting twice changes nothing more, nothing but the redaction mark is inserted, and the
      program's own words are no secrets. */
  ghost predicate Redaction(redact: string -> string) {
    && (forall s :: redact(redact(s)) == redact(s))
    && (forall s, c :: c in redact(s) ==> c in s || c in MARK)
    && redact([]) == []
    && (forall s :: s in PROGRAM_WORDS || CweId(s) ==> redact(s) == s)
  }

  const PROGRAM_WORDS := {"Security finding", "security-finding", "unverified", "suspected", "false_positive",
                          "Recorded false-positive decision", "CRITICAL", "HIGH", "MEDIUM", "LOW", "INFO"}

  function Cleaned(redact: string -> string, s: string): string {
    redact(Strip(s))
  }

  function Text(redact: string -> string, s: string, maximum: nat): Result<string> {
    if |s| > maximum then Err else Ok(Cleaned(redact, s))
  }

  lemma {:induction false} StripKept(s: string)
    requires forall c :: c in s ==> Kept(c)
    ensures Strip(s) == s
  {
    if s != [] {
      StripKept(s[1..]);
    }
  }

  lemma {:induction false} StripKeeps(s: string)
    ensures forall c :: c in Strip(s) ==> c in s && Kept(c)
  {
    if s != [] {
      StripKeeps(s[1..]);
    }
  }

  /** Cleaning text twice is cleaning it once. */
  lemma CleanedTwice(redact: string -> string, s: string)
    requires Redaction(redact)
    ensures Cleaned(redact, Cleaned(redact, s)) == Cleaned(redact, s)
    ensures forall c :: c in Cleaned(redact, s) ==> c in s || c in MARK
  {
    StripKeeps(s);
    assert forall c :: c in MARK ==> Kept(c);
    StripKept(redact(Strip(s)));
  }

  /** Cleaned text has no control characters but line breaks and tabs, and no overrides of the writing direction; text without
      any of them is only redacted. */
  lemma CleanedText(redact: string -> string, s: string)
    requires Redaction(redact)
    ensures forall c :: c in Cleaned(redact, s) ==>
              (c == '\n' || c == '\t' || c as int >= 32) && !(0x202A <= c as int <= 0x202E) && !(0x2066 <= c as int <= 0x2069)
    ensures (forall c :: c in s ==> c as int >= 32 && c as int < 0x202A) ==> Cleaned(redact, s) == redact(s)
  {
    StripKeeps(s);
    forall c | c in Cleaned(redact, s) ensures Kept(c) {
      assert c in Strip(s) || c in MARK;
    }
    hide Redaction;
    if forall c :: c in s ==> c as int >= 32 && c as int < 0x202A {
      StripKept(s);
    }
  }

  // ----- artifact paths ----------------------------------------------------------------------

  function Decoded(s: string, rounds: nat): string
    decreases rounds
  {
    if rounds == 0 || Unquote(s) == s then s else Decoded(Unquote(s), rounds - 1)
  }

  function DropDots(s: string): (r: string)
    ensures |r| <= |s|
    decreases |s|
  {
    if |s| >= 2 && s[0] == '.' && s[1] == '/' then DropDots(s[2..]) else s
  }

  function Parts(s: string): (r: seq<string>)
    ensures |r| >= 1
  {
    if s == [] then [[]]
    else
      var rest := Parts(s[1..]);
      if s[0] == '/' then [[]] + rest else [[s[0]] + rest[0]] + rest[1..]
  }

  /** A relative repository path without empty, "." or ".." parts. */
  predicate Relative(s: string) {
    && s != [] && s[0] != '/'
    && (forall c :: c in s ==> c as int >= 32 && c !in "\\:%?#")
    && (forall p :: p in Parts(s) ==> p != "" && p != "." && p != "..")
  }

  /** s[i..j] stands between slashes, or between a slash and an end. */
  predicate Component(s: string, i: int, j: int) {
    && 0 <= i <= j <= |s| && (i == 0 || s[i - 1] == '/') && (j == |s| || s[j] == '/')
    && forall k :: i <= k < j ==> s[k] != '/'
  }

  function FirstEnd(s: string): (n: nat)
    ensures n <= |s|
  {
    if s == [] || s[0] == '/' then 0 else 1 + FirstEnd(s[1..])
  }

  lemma {:induction false} FirstComponent(s: string)
    ensures Component(s, 0, FirstEnd(s)) && Parts(s)[0] == s[..FirstEnd(s)]
    ensures forall j :: Component(s, 0, j) ==> j == FirstEnd(s)
  {
    if s != [] && s[0] != '/' {
      var t := s[1..];
      FirstComponent(t);
      var n := FirstEnd(t);
      assert forall k :: 0 <= k < |t| ==> t[k] == s[k + 1];
      assert s[..1 + n] == [s[0]] + t[..n];
      forall j | Component(s, 0, j) ensures j == 1 + n {
        assert j > 0 && Component(t, 0, j - 1);
      }
    }
  }

  /** The later components of a text are all components of what follows its first character that begin there. */
  lemma LaterComponent(s: string, i: int, j: int)
    requires s != [] && i > 0
    ensures Component(s, i, j) <==> Component(s[1..], i - 1, j - 1) && (i > 1 || s[0] == '/')
    ensures Component(s, i, j) ==> s[i..j] == s[1..][i - 1..j - 1]
  {
    var t := s[1..];
    assert forall k :: 0 <= k < |t| ==> t[k] == s[k + 1];
    if 0 < i <= j <= |s| && forall k :: i - 1 <= k < j - 1 ==> t[k] != '/' {
      forall k | i <= k < j ensures s[k] != '/' {
        assert t[k - 1] != '/';
      }
    }
  }

  ghost predicate LaterPart(s: string, p: string) {
    exists i, j :: i > 0 && Component(s, i, j) && s[i..j] == p
  }

  /** The parts are the components, the first one first. */
  lemma {:induction false} PartsAreComponents(s: string)
    ensures Parts(s)[0] == s[..FirstEnd(s)]
    ensures forall p :: p in Parts(s)[1..] <==> LaterPart(s, p)
  {
    FirstComponent(s);
    if s != [] {
      var t := s[1..];
      PartsAreComponents(t);
      FirstComponent(t);
      forall p ensures p in Parts(s)[1..] <==> LaterPart(s, p) {
        PartOfTail(s, p);
      }
    }
  }

  lemma LaterPartOfTail(s: string, p: string)
    requires s != [] && LaterPart(s[1..], p)
    ensures LaterPart(s, p)
  {
    var t := s[1..];
    var i, j :| i > 0 && Component(t, i, j) && t[i..j] == p;
    LaterComponent(s, i + 1, j + 1);
    assert Component(s, i + 1, j + 1) && s[i + 1..j + 1] == p;
  }

  lemma FirstPartOfTail(s: string)
    requires s != [] && s[0] == '/'
    ensures LaterPart(s, s[1..][..FirstEnd(s[1..])])
  {
    var t := s[1..];
    FirstComponent(t);
    LaterComponent(s, 1, FirstEnd(t) + 1);
    assert Component(s, 1, FirstEnd(t) + 1) && s[1..FirstEnd(t) + 1] == t[..FirstEnd(t)];
  }

  lemma LaterPartComesFrom(s: string, p: string)
    requires s != [] && LaterPart(s, p)
    ensures LaterPart(s[1..], p) || (s[0] == '/' && p == s[1..][..FirstEnd(s[1..])])
  {
    var t := s[1..];
    FirstComponent(t);
    var i, j :| i > 0 && Component(s, i, j) && s[i..j] == p;
    LaterComponent(s, i, j);
    assert t[i - 1..j - 1] == p;
  }

  lemma PartOfTail(s: string, p: string)
    requires s != [] && forall q :: q in Parts(s[1..])[1..] <==> LaterPart(s[1..], q)
    requires Parts(s[1..])[0] == s[1..][..FirstEnd(s[1..])]
    ensures p in Parts(s)[1..] <==> LaterPart(s, p)
  {
    var t := s[1..];
    var rest := Parts(t);
    assert rest == [rest[0]] + rest[1..];
    assert Parts(s)[1..] == if s[0] == '/' then rest else rest[1..];
    hide Parts, FirstEnd, LaterPart;
    if LaterPart(t, p) {
      LaterPartOfTail(s, p);
    }
    if s[0] == '/' {
      FirstPartOfTail(s);
    }
    if LaterPart(s, p) {
      LaterPartComesFrom(s, p);
    }
  }

  /** A path is relative exactly if no component is empty or climbs, and no character is special to a shell, an address or a
      terminal. */
  lemma RelativeIff(s: string)
    ensures Relative(s) <==>
              && (forall c :: c in s ==> c as int >= 32 && c != '\\' && c != ':' && c != '%' && c != '?' && c != '#')
              && forall i, j :: Component(s, i, j) ==> s[i..j] != "" && s[i..j] != "." && s[i..j] != ".."
  {
    PartsAreComponents(s);
    FirstComponent(s);
    assert Parts(s) == [Parts(s)[0]] + Parts(s)[1..];
    hide Parts;
    assert s == [] || s[0] == '/' ==> FirstEnd(s) == 0;
    if forall p :: p in Parts(s) ==> p != "" && p != "." && p != ".." {
      forall i, j | Component(s, i, j) ensures s[i..j] != "" && s[i..j] != "." && s[i..j] != ".." {
        if i == 0 {
          assert s[i..j] == Parts(s)[0] && Parts(s)[0] in Parts(s);
        } else {
          assert LaterPart(s, s[i..j]);
          assert s[i..j] in Parts(s)[1..] && s[i..j] in Parts(s);
        }
      }
    }
  }

  function Path(redact: string -> string, s: string): Result<string> {
    if |s| > MAX_PATH then Err
    else
      var path := DropDots(Decoded(s, 4));
      if !Relative(path) then Err else Text(redact, path, MAX_PATH)
  }

  /** What becomes of a path that was normalized, exported as a quoted URI and read back: it is refused exactly when
      the quoted form is too long or the path is not (or no longer, after cleaning) a relative path. */
  lemma PathReadBack(redact: string -> string, p: string)
    requires '%' !in p
    ensures var q := DropDots(p);
            Path(redact, Quote(p)) ==
              if |Quote(p)| <= MAX_PATH && Relative(q) then Ok(Cleaned(redact, q)) else Err
  {
    UnquoteQuote(p);
    QuoteNotShorter(p);
    assert Unquote(p) == p;
    assert Decoded(Quote(p), 4) == p by {
      if Quote(p) != p {
        assert Decoded(Quote(p), 4) == Decoded(p, 3);
      }
    }
  }

  function QuotedTimes(p: string, k: nat): string {
    if k == 0 then p else Quote(QuotedTimes(p, k - 1))
  }

  lemma {:induction false} QuotedChanges(s: string)
    ensures |Quote(s)| >= |s| && ('%' in s ==> |Quote(s)| > |s|)
  {
    if s != [] {
      QuotedChanges(s[1..]);
      if !Unreserved(s[0]) {
        assert |EscapeAll(Encode(s[0]))| >= 3 by { EscapedLength(Encode(s[0])); }
      }
    }
  }

  lemma {:induction false} EscapedLength(bs: seq<Byte>)
    ensures |EscapeAll(bs)| == 3 * |bs|
  {
    if bs != [] {
      EscapedLength(bs[1..]);
    }
  }

  /** A text that quoting leaves without a percent sign was never changed. */
  lemma {:induction false} NeverQuoted(p: string, k: nat)
    requires '%' !in QuotedTimes(p, k)
    ensures QuotedTimes(p, k) == p
  {
    if k > 0 {
      NothingEscaped(QuotedTimes(p, k - 1));
      NeverQuoted(p, k - 1);
    }
  }

  lemma {:induction false} DecodedLayers(p: string, k: nat, rounds: nat)
    requires '%' !in p && Quote(p) != p
    ensures Decoded(QuotedTimes(p, k), rounds) == QuotedTimes(p, if k <= rounds then 0 else k - rounds)
    decreases k
  {
    hide Quote, Unquote, Decoded;
    if k == 0 || rounds == 0 {
      NotDecoded(p, rounds);
      NotDecoded(QuotedTimes(p, k), 0);
    } else {
      var inner := QuotedTimes(p, k - 1);
      assert QuotedTimes(p, k) == Quote(inner);
      hide QuotedTimes;
      if Quote(inner) == inner {
        QuotedChanges(inner);
        NeverQuoted(p, k - 1);
      }
      OneRound(inner, rounds);
      DecodedLayers(p, k - 1, rounds - 1);
    }
  }

  lemma NotDecoded(s: string, rounds: nat)
    requires '%' !in s || rounds == 0
    ensures Decoded(s, rounds) == s
  {
  }

  lemma OneRound(inner: string, rounds: nat)
    requires Quote(inner) != inner && rounds > 0
    ensures Decoded(Quote(inner), rounds) == Decoded(inner, rounds - 1)
  {
    UnquoteQuote(inner);
  }

  /** A path that is quoted up to four times is read back; quoted once more it is refused, if quoting changes it at all. */
  lemma FourLayers(redact: string -> string, p: string, k: nat)
    requires '%' !in p && Quote(p) != p
    ensures k <= 4 ==>
              Path(redact, QuotedTimes(p, k))
              == if |QuotedTimes(p, k)| <= 2048 && Relative(DropDots(p)) then Ok(Cleaned(redact, DropDots(p))) else Err
    ensures k > 4 ==> Path(redact, QuotedTimes(p, k)) == Err
  {
    DecodedLayers(p, k, 4);
    hide Quote, Decoded, Relative, QuotedTimes;
    if k > 4 {
      if '%' !in QuotedTimes(p, k - 4) {
        NeverQuoted(p, k - 4);
        FirstLayer(p, k - 4);
      }
      PercentStays(QuotedTimes(p, k - 4));
      PercentIsRefused(DropDots(QuotedTimes(p, k - 4)));
    } else if Relative(DropDots(p)) {
      LayersGrow(p, k);
    }
  }

  lemma PercentIsRefused(s: string)
    requires '%' in s
    ensures !Relative(s)
  {
  }

  lemma FirstLayer(p: string, k: nat)
    requires k > 0 && '%' !in p && QuotedTimes(p, k) == p
    ensures Quote(p) == p
  {
    NothingEscaped(QuotedTimes(p, k - 1));
    NeverQuoted(p, k - 1);
  }

  lemma {:induction false} LayersGrow(p: string, k: nat)
    ensures |p| <= |QuotedTimes(p, k)|
  {
    if k > 0 {
      LayersGrow(p, k - 1);
      QuotedChanges(QuotedTimes(p, k - 1));
    }
  }

  lemma {:induction false} PercentStays(s: string)
    requires '%' in s
    ensures '%' in DropDots(s)
    decreases |s|
  {
    if |s| >= 2 && s[0] == '.' && s[1] == '/' {
      PercentStays(s[2..]);
    }
  }

  lemma {:induction false} DropDotsKeeps(s: string)
    ensures forall c :: c in DropDots(s) ==> c in s
    decreases |s|
  {
    if |s| >= 2 && s[0] == '.' && s[1] == '/' {
      DropDotsKeeps(s[2..]);
    }
  }

  /** A normalized path is clean and has no percent sign. */
  lemma NormalizedPath(redact: string -> string, s: string)
    requires Redaction(redact) && Path(redact, s).Ok?
    ensures var p := Path(redact, s).value; '%' !in p && Cleaned(redact, p) == p
  {
    var path := DropDots(Decoded(s, 4));
    CleanedTwice(redact, path);
    assert '%' !in MARK;
  }

  /** A short path whose every character takes three bytes: it is a valid path, but its quoted form is too long. */
  lemma LongQuotedPath(p: string)
    requires |p| == 300 && forall i :: 0 <= i < |p| ==> p[i] == '\U{20AC}'
    ensures Relative(p) && |Quote(p)| == 2700
  {
    QuotedEuros(p);
    OnePart(p);
  }

  lemma {:induction false} OnePart(p: string)
    requires '/' !in p
    ensures Parts(p) == [p]
  {
    if p != [] {
      OnePart(p[1..]);
      assert p == [p[0]] + p[1..];
    }
  }

  lemma {:induction false} QuotedEuros(p: string)
    requires forall i :: 0 <= i < |p| ==> p[i] == '\U{20AC}'
    ensures |Quote(p)| == 9 * |p|
  {
    if p != [] {
      var bs := Encode(p[0]);
      assert |bs| == 3;
      assert |EscapeAll(bs[3..])| == 0 && |EscapeAll(bs[2..])| == 3 && |EscapeAll(bs[1..])| == 6;
      QuotedEuros(p[1..]);
    }
  }
}
