/** Evaluating one SEMVER range of an OSV record: events read from text, with three-valued results. */
module OsvEvents {
  import opened Wrappers
  import opened SemVer
  import opened VersionOrder
  import opened OsvRange

  const MAX_EVENTS := 200
  const MAX_VALUE := 120

  /** One entry of the event list: an object with one key and a text value, or anything else. */
  datatype RawEvent = RawEvent(kind: string, value: string) | Malformed

  function PointOf(value: string): Option<Key> {
    match Parse(value)
    case None => None
    case Some(v) => Some(KeyOf(v))
  }

  function EventOf(raw: RawEvent): Option<Event<Key>> {
    if raw.Malformed? || |raw.value| > MAX_VALUE || raw.kind !in {"introduced", "fixed", "last_affected", "limit"} then None
    else if raw.kind == "introduced" && raw.value == "0" then Some(Introduce(None))
    else if raw.kind == "limit" && raw.value == "*" then Some(Limit(None))
    else match PointOf(raw.value)
      case None => None
      case Some(p) =>
        if raw.kind == "introduced" then Some(Introduce(Some(p)))
        else if raw.kind == "limit" then Some(Limit(Some(p)))
        else Some(Close(raw.kind == "last_affected", p))
  }

  predicate AllRead(raws: seq<RawEvent>) {
    forall r :: r in raws ==> EventOf(r).Some?
  }

  function Events(raws: seq<RawEvent>): (es: seq<Event<Key>>)
    requires AllRead(raws)
    ensures |es| == |raws| && forall i :: 0 <= i < |raws| ==> es[i] == EventOf(raws[i]).value
  {
    seq(|raws|, i requires 0 <= i < |raws| => EventOf(raws[i]).value)
  }

  lemma {:induction false} ReadAllSplit(r: Reading<Key>, a: seq<Event<Key>>, e: Event<Key>)
    ensures ReadAll(Less, r, a + [e]) ==
              match ReadAll(Less, r, a)
              case None => None
              case Some(next) => Read(Less, next, e)
    decreases |a|
  {
    if a == [] {
      assert (a + [e])[1..] == [];
    } else {
      assert (a + [e])[1..] == a[1..] + [e];
      if Read(Less, r, a[0]).Some? {
        ReadAllSplit(Read(Less, r, a[0]).value, a[1..], e);
      }
    }
  }

  /** Once a list cannot be read, no continuation of it can. */
  lemma {:induction false} ReadAllStuck(r: Reading<Key>, a: seq<Event<Key>>, b: seq<Event<Key>>)
    requires ReadAll(Less, r, a) == None
    ensures ReadAll(Less, r, a + b) == None
    decreases |a|
  {
    assert (a + b)[1..] == a[1..] + b;
    if Read(Less, r, a[0]).Some? {
      ReadAllStuck(Read(Less, r, a[0]).value, a[1..], b);
    }
  }

  method ReadEvents(raws: seq<RawEvent>) returns (r: Option<Reading<Key>>)
    ensures r.Some? <==> AllRead(raws) && ReadAll(Less, Start(), Events(raws)).Some?
    ensures r.Some? ==> r == ReadAll(Less, Start(), Events(raws))
  {
    hide EventOf, Read, Less;
    var reading := Start();
    for i := 0 to |raws|
      invariant AllRead(raws[..i])
      invariant ReadAll(Less, Start(), Events(raws[..i])) == Some(reading)
    {
      var e := EventOf(raws[i]);
      if e == None {
        assert raws[i] in raws;
        return None;
      }
      assert raws[..i + 1] == raws[..i] + [raws[i]];
      assert Events(raws[..i + 1]) == Events(raws[..i]) + [e.value];
      ReadAllSplit(Start(), Events(raws[..i]), e.value);
      var next := Read(Less, reading, e.value);
      if next == None {
        if AllRead(raws) {
          assert Events(raws) == Events(raws[..i + 1]) + Events(raws)[i + 1..];
          ReadAllStuck(Start(), Events(raws[..i + 1]), Events(raws)[i + 1..]);
        }
        return None;
      }
      reading := next.value;
    }
    assert raws[..|raws|] == raws;
    return Some(reading);
  }

  lemma {:induction false} LimitsRead(r: Reading<Key>, es: seq<Event<Key>>, v: Key)
    requires ReadAll(Less, r, es).Some?
    ensures (forall l :: l in ReadAll(Less, r, es).value.limits ==> Less(v, l)) <==>
              (forall l :: l in r.limits ==> Less(v, l)) && BelowAllLimits(Less, es, v)
    decreases |es|
  {
    if es != [] {
      var next := Read(Less, r, es[0]).value;
      LimitsRead(next, es[1..], v);
      assert BelowAllLimits(Less, es, v) <==>
        (es[0].Limit? && es[0].bound.Some? ==> Less(v, es[0].bound.value)) && BelowAllLimits(Less, es[1..], v) by {
        assert forall i :: 0 <= i < |es| - 1 ==> es[1..][i] == es[i + 1];
      }
    }
  }

  // ----- the meaning of the written events ---------------------------------------------------

  // What an event list says, by the kind and the version that each event has in writing.

  predicate IsVersion(text: string) {
    Parse(text).Some?
  }

  predicate Understood(raw: RawEvent) {
    && !raw.Malformed? && |raw.value| <= MAX_VALUE
    && (|| (raw.kind == "introduced" && (raw.value == "0" || IsVersion(raw.value)))
        || (raw.kind == "fixed" && IsVersion(raw.value))
        || (raw.kind == "last_affected" && IsVersion(raw.value))
        || (raw.kind == "limit" && (raw.value == "*" || IsVersion(raw.value))))
  }

  predicate AllUnderstood(raws: seq<RawEvent>) {
    forall r :: r in raws ==> Understood(r)
  }

  predicate IsLimit(raw: RawEvent) {
    raw.RawEvent? && raw.kind == "limit"
  }

  function KindWritten(raw: RawEvent): Kind
    requires Understood(raw) && !IsLimit(raw)
  {
    if raw.kind == "introduced" then Introduced else if raw.kind == "fixed" then Fixed else LastAffected
  }

  /** "introduced": "0" is before every version. */
  function MarkWritten(raw: RawEvent): Mark<Key>
    requires Understood(raw) && !IsLimit(raw)
  {
    Mark(KindWritten(raw), if raw.value == "0" then None else Some(KeyOf(Parse(raw.value).value)))
  }

  /** The marks of the events, limits apart, as they are listed. */
  function Listed(raws: seq<RawEvent>): seq<Mark<Key>>
    requires AllUnderstood(raws)
  {
    if raws == [] then []
    else
      assert raws[0] in raws;
      (if IsLimit(raws[0]) then [] else [MarkWritten(raws[0])]) + Listed(raws[1..])
  }

  ghost predicate Decidable(rangeType: string, version: string, raws: seq<RawEvent>) {
    && rangeType == "SEMVER" && IsVersion(version) && 1 <= |raws| <= MAX_EVENTS
    && AllUnderstood(raws) && WellListed(Less, Listed(raws))
  }

  /** The scan of the OSV Schema: the marks in version order, up to the version. */
  ghost predicate Affected(raws: seq<RawEvent>, v: Version)
    requires AllUnderstood(raws)
  {
    exists ordered :: multiset(ordered) == multiset(Listed(raws)) && InVersionOrder(Less, ordered)
                      && Scan(Less, ordered, KeyOf(v), false)
  }

  ghost predicate Below(v: Version, raw: RawEvent)
    requires Understood(raw) && IsLimit(raw)
  {
    raw.value == "*" || Precedes(v, Parse(raw.value).value)
  }

  /** The version is below every limit. */
  ghost predicate BelowLimits(raws: seq<RawEvent>, v: Version)
    requires AllUnderstood(raws)
  {
    forall r :: r in raws && IsLimit(r) ==> Below(v, r)
  }

  /** What the schema asks: there is no limit, or the version is below one. */
  ghost predicate BelowSomeLimit(raws: seq<RawEvent>, v: Version)
    requires AllUnderstood(raws)
  {
    (forall r :: r in raws ==> !IsLimit(r)) || exists r :: r in raws && IsLimit(r) && Below(v, r)
  }

  predicate OneLimit(raws: seq<RawEvent>) {
    forall i, j :: 0 <= i < |raws| && 0 <= j < |raws| && IsLimit(raws[i]) && IsLimit(raws[j]) ==> i == j
  }

  lemma EventRead(raw: RawEvent)
    ensures EventOf(raw).Some? <==> Understood(raw)
    ensures Understood(raw) ==>
              Marks([EventOf(raw).value]) == if IsLimit(raw) then [] else [MarkWritten(raw)]
    ensures Understood(raw) ==> (EventOf(raw).value.Limit? <==> IsLimit(raw))
    ensures Understood(raw) && IsLimit(raw) ==>
              EventOf(raw).value.bound == if raw.value == "*" then None else Some(KeyOf(Parse(raw.value).value))
  {
    ZeroIsNoVersion();
    if Understood(raw) {
      OneMark(EventOf(raw).value);
    }
    hide Parse, KeyOf, Marks;
  }

  lemma ZeroIsNoVersion()
    ensures !IsVersion("0") && !IsVersion("*")
  {
    TooShort("0");
    TooShort("*");
  }

  lemma TooShort(s: string)
    requires '+' !in s && '-' !in s && '.' !in s
    ensures !IsVersion(s)
  {
    assert Cut(s, '+') == (s, None) by { CutUncut(s, '+', None); }
    assert Cut(s, '-') == (s, None) by { CutUncut(s, '-', None); }
    SplitWithout(s, '.');
  }

  lemma {:induction false} MarksAreListed(raws: seq<RawEvent>)
    requires AllUnderstood(raws) && AllRead(raws)
    ensures Marks(Events(raws)) == Listed(raws)
  {
    if raws != [] {
      var es := Events(raws);
      EventRead(raws[0]);
      MarksCons(es);
      assert es[1..] == Events(raws[1..]);
      MarksAreListed(raws[1..]);
    }
  }

  lemma ReadIffUnderstood(raws: seq<RawEvent>)
    ensures AllRead(raws) <==> AllUnderstood(raws)
  {
    forall r | r in raws ensures EventOf(r).Some? <==> Understood(r) {
      EventRead(r);
    }
  }

  lemma LimitIsAbove(raw: RawEvent, v: Version)
    requires Understood(raw) && IsLimit(raw) && Valid(v)
    ensures EventOf(raw).Some? && EventOf(raw).value.Limit?
    ensures PassesLimit(Less, EventOf(raw).value, KeyOf(v)) <==> Below(v, raw)
  {
    EventRead(raw);
    if raw.value != "*" {
      ShowParse(raw.value);
      LessIsPrecedence(v, Parse(raw.value).value);
    }
  }

  lemma LimitsAreBelow(raws: seq<RawEvent>, v: Version)
    requires AllUnderstood(raws) && AllRead(raws) && Valid(v)
    ensures BelowAllLimits(Less, Events(raws), KeyOf(v)) <==> BelowLimits(raws, v)
    ensures OneLimit(raws) ==> (BelowLimits(raws, v) <==> BelowSomeLimit(raws, v))
  {
    var es := Events(raws);
    forall i | 0 <= i < |raws|
      ensures es[i].Limit? <==> IsLimit(raws[i])
      ensures es[i].Limit? ==> (PassesLimit(Less, es[i], KeyOf(v)) <==> Below(v, raws[i]))
    {
      assert raws[i] in raws;
      EventRead(raws[i]);
      if IsLimit(raws[i]) {
        LimitIsAbove(raws[i], v);
      }
    }
    hide Below, Less, KeyOf, EventOf;
  }

  /** If the events describe disjoint intervals, a version is inside one exactly if the scan says that it is affected. */
  lemma InsideIffAffected(raws: seq<RawEvent>, v: Version)
    requires AllUnderstood(raws) && AllRead(raws) && Accepted(Less, Events(raws))
    ensures Affected(raws, v) <==>
              exists iv :: iv in Intervals(ReadAll(Less, Start(), Events(raws)).value) && Inside(Less, iv, KeyOf(v))
  {
    var ivs := Intervals(ReadAll(Less, Start(), Events(raws)).value);
    var sorted := SortByStart(Less, ivs);
    LessTotal();
    MarksAreListed(raws);
    IntervalsHoldTheMarks(Less, Events(raws));
    SortKeeps(Less, ivs);
    SameMembers(sorted, ivs);
    FlatPermutes(sorted, ivs);
    SeparatedInOrder(Less, sorted);
    IntervalsAreTheScan(Less, Events(raws), Flat(sorted), KeyOf(v));
    hide Listed, Less, Scan, Flat, InVersionOrder, KeyOf, Intervals, ReadAll, Inside;
    forall ordered | multiset(ordered) == multiset(Listed(raws)) && InVersionOrder(Less, ordered)
      ensures ordered == Flat(sorted)
    {
      OrderIsUnique(Less, ordered, Flat(sorted));
    }
  }

  /** A range is decided exactly when every event is understood and the events describe disjoint intervals; the answer
      is then that of the OSV Schema's scan in version order, together with the limits. */
  method EventRange(rangeType: string, version: string, raws: seq<RawEvent>) returns (r: Option<bool>)
    ensures r.Some? <==> Decidable(rangeType, version, raws)
    ensures r.Some? ==>
              (r.value <==> Affected(raws, Parse(version).value) && BelowLimits(raws, Parse(version).value))
    ensures r.Some? && OneLimit(raws) ==>
              (BelowLimits(raws, Parse(version).value) <==> BelowSomeLimit(raws, Parse(version).value))
  {
    ReadIffUnderstood(raws);
    if rangeType != "SEMVER" || Parse(version) == None || !(1 <= |raws| <= MAX_EVENTS) {
      return None;
    }
    var current := KeyOf(Parse(version).value);
    var reading := ReadEvents(raws);
    LessTotal();
    if AllRead(raws) {
      MarksAreListed(raws);
      AcceptedIff(Less, Events(raws));
    }
    if reading == None || |reading.value.modes| > 1 || !exists i :: 0 <= i < |raws| && EventOf(raws[i]).value.Introduce? {
      return None;
    }
    var ivs := Intervals(reading.value);
    if !Separated(Less, SortByStart(Less, ivs)) {
      return None;
    }
    r := Some((exists iv :: iv in ivs && Inside(Less, iv, current))
              && forall l :: l in reading.value.limits ==> Less(current, l));
    ShowParse(version);
    LimitsRead(Start(), Events(raws), current);
    LimitsAreBelow(raws, Parse(version).value);
    InsideIffAffected(raws, Parse(version).value);
  }

  // ----- what the kinds of events mean for a version -----------------------------------------

  function Introduction(a: Version): RawEvent {
    RawEvent("introduced", Show(a))
  }

  const FROM_THE_START := RawEvent("introduced", "0")

  predicate Writable(v: Version) {
    Valid(v) && |Show(v)| <= MAX_VALUE
  }

  lemma WrittenVersion(v: Version)
    requires Writable(v)
    ensures Parse(Show(v)) == Some(v) && Show(v) != "0"
  {
    ParseShow(v);
    ZeroIsNoVersion();
  }

  lemma TwoListed(a: RawEvent, b: RawEvent)
    requires Understood(a) && Understood(b) && !IsLimit(a) && !IsLimit(b)
    ensures Listed([a, b]) == [MarkWritten(a), MarkWritten(b)] && Listed([a]) == [MarkWritten(a)]
  {
    assert [a, b][1..] == [b] && [b][1..] == [] && [a][1..] == [];
    assert Listed([]) == [] && Listed([b]) == [MarkWritten(b)] + Listed([]) && Listed([a]) == [MarkWritten(a)] + Listed([]);
  }

  /** A range of one interval: decided if the interval is proper, and then about the versions inside. */
  lemma OneInterval(raws: seq<RawEvent>, iv: Interval<Key>, v: Version)
    requires AllUnderstood(raws) && Listed(raws) == MarksOf(iv) && Proper(Less, iv)
    ensures WellListed(Less, Listed(raws))
    ensures Affected(raws, v) <==> Inside(Less, iv, KeyOf(v))
  {
    var ms := MarksOf(iv);
    hide Less, KeyOf;
    LessTotal();
    OneSpan(iv);
    assert Flat([iv]) == ms by { assert [iv][1..] == [] && ms + [] == ms; }
    SeparatedInOrder(Less, [iv]);
    ScanOne(Less, iv, KeyOf(v));
    hide MarksOf, Flat, StrictTotal, Scan, Inside, InVersionOrder, Proper, Listed;
    forall ordered | multiset(ordered) == multiset(ms) && InVersionOrder(Less, ordered) ensures ordered == ms {
      OrderIsUnique(Less, ordered, ms);
    }
  }

  lemma OneSpan(iv: Interval<Key>)
    requires Proper(Less, iv)
    ensures WellListed(Less, MarksOf(iv))
  {
    hide Less;
    var ms := MarksOf(iv);
    assert |ms| == 2 ==> ms[2..] == [];
    assert ListedInPairs(Less, ms);
    assert OneKindOfEnd(ms);
    assert |Spans(ms)| == 1;
  }

  lemma IntervalMeans(v: Version, low: Option<Version>, high: Option<Version>, last: bool)
    requires Valid(v) && (low.Some? ==> Valid(low.value)) && (high.Some? ==> Valid(high.value))
    ensures var iv := Interval(if low.Some? then Some(KeyOf(low.value)) else None,
                               if high.Some? then Some(KeyOf(high.value)) else None, last);
            && (Inside(Less, iv, KeyOf(v)) <==>
                  && (low.Some? ==> !Precedes(v, low.value))
                  && (high.Some? ==> if last then !Precedes(high.value, v) else Precedes(v, high.value)))
            && (low.Some? && high.Some? ==>
                  (Proper(Less, iv) <==> if last then !Precedes(high.value, low.value) else Precedes(low.value, high.value)))
  {
    LessTotal();
    if low.Some? {
      LessIsPrecedence(v, low.value);
    }
    if high.Some? {
      LessIsPrecedence(v, high.value);
      LessIsPrecedence(high.value, v);
      Trichotomy(KeyOf(v), KeyOf(high.value));
    }
    if low.Some? && high.Some? {
      LessIsPrecedence(low.value, high.value);
      LessIsPrecedence(high.value, low.value);
      Trichotomy(KeyOf(low.value), KeyOf(high.value));
    }
    hide Less, KeyOf, Precedes;
  }

  lemma Trichotomy(a: Key, b: Key)
    ensures a == b || Less(a, b) || Less(b, a)
    ensures !(Less(a, b) && Less(b, a)) && (a == b ==> !Less(a, b))
  {
    LessTotal();
    assert Less(a, b) && Less(b, a) ==> Less(a, a);
  }

  /** Introduced a, fixed b: decided exactly if a is before b, and then about the versions from a up to but not including b. */
  lemma FixedMeans(v: Version, a: Version, b: Version)
    requires Writable(v) && Writable(a) && Writable(b)
    ensures var raws := [Introduction(a), RawEvent("fixed", Show(b))];
            && (Decidable("SEMVER", Show(v), raws) <==> Precedes(a, b))
            && (Precedes(a, b) ==> (Affected(raws, v) <==> !Precedes(v, a) && Precedes(v, b)))
  {
    ClosedRange(v, a, RawEvent("fixed", Show(b)), b);
  }

  /** Introduced a, last affected b: decided exactly if b is not before a, and then about the versions from a to b, both
      included. */
  lemma LastAffectedMeans(v: Version, a: Version, b: Version)
    requires Writable(v) && Writable(a) && Writable(b)
    ensures var raws := [Introduction(a), RawEvent("last_affected", Show(b))];
            && (Decidable("SEMVER", Show(v), raws) <==> !Precedes(b, a))
            && (!Precedes(b, a) ==> (Affected(raws, v) <==> !Precedes(v, a) && !Precedes(b, v)))
  {
    ClosedRange(v, a, RawEvent("last_affected", Show(b)), b);
  }

  lemma ClosedRange(v: Version, a: Version, end: RawEvent, b: Version)
    requires Writable(v) && Writable(a) && Writable(b)
    requires end.RawEvent? && end.kind in {"fixed", "last_affected"} && end.value == Show(b)
    ensures var raws, last := [Introduction(a), end], end.kind == "last_affected";
            var proper := if last then !Precedes(b, a) else Precedes(a, b);
            && AllUnderstood(raws) && (Decidable("SEMVER", Show(v), raws) <==> proper)
            && (proper ==> (Affected(raws, v) <==> !Precedes(v, a) && if last then !Precedes(b, v) else Precedes(v, b)))
  {
    var raws, last := [Introduction(a), end], end.kind == "last_affected";
    var iv := Interval(Some(KeyOf(a)), Some(KeyOf(b)), last);
    WrittenVersion(a);
    WrittenVersion(b);
    WrittenVersion(v);
    hide Parse, Show, Less, KeyOf, Precedes, Affected, Valid, Inside, Proper;
    TwoListed(raws[0], raws[1]);
    IntervalMeans(v, Some(a), Some(b), last);
    assert Listed(raws) == MarksOf(iv);
    if Proper(Less, iv) {
      OneInterval(raws, iv, v);
    } else {
      ImproperIsRefused(Listed(raws), iv);
    }
  }

  lemma ImproperIsRefused(ms: seq<Mark<Key>>, iv: Interval<Key>)
    requires ms == MarksOf(iv) && iv.low.Some? && iv.high.Some? && !Proper(Less, iv)
    ensures !WellListed(Less, ms)
  {
    hide Less;
    assert !EndsAfter(Less, ms[0], ms[1]);
  }

  /** Introduced a and never fixed: about every version from a on. */
  lemma IntroducedMeans(v: Version, a: Version)
    requires Writable(v) && Writable(a)
    ensures Decidable("SEMVER", Show(v), [Introduction(a)])
    ensures Affected([Introduction(a)], v) <==> !Precedes(v, a)
  {
    var iv := Interval(Some(KeyOf(a)), None, false);
    WrittenVersion(a);
    WrittenVersion(v);
    hide Parse, Show, Less, KeyOf, Precedes, Affected, Valid, Inside, WellListed;
    TwoListed(Introduction(a), Introduction(a));
    IntervalMeans(v, Some(a), None, false);
    OneInterval([Introduction(a)], iv, v);
  }

  /** Introduced "0" has no lower bound. */
  lemma FromTheStartMeans(v: Version, b: Version)
    requires Writable(v) && Writable(b)
    ensures var raws := [FROM_THE_START, RawEvent("fixed", Show(b))];
            Decidable("SEMVER", Show(v), raws) && (Affected(raws, v) <==> Precedes(v, b))
  {
    var raws := [FROM_THE_START, RawEvent("fixed", Show(b))];
    WrittenVersion(b);
    WrittenVersion(v);
    hide Parse, Show, Less, KeyOf, Precedes, Affected, Valid, Inside, WellListed, Listed;
    TwoListed(raws[0], raws[1]);
    IntervalMeans(v, None, Some(b), false);
    OneInterval(raws, Interval(None, Some(KeyOf(b)), false), v);
  }

  /** And alone it is about every version. */
  lemma FromTheStartAlone(v: Version)
    requires Writable(v)
    ensures Decidable("SEMVER", Show(v), [FROM_THE_START]) && Affected([FROM_THE_START], v)
  {
    WrittenVersion(v);
    hide Parse, Show, Less, KeyOf, Precedes, Affected, Valid, Inside, WellListed, Listed;
    TwoListed(FROM_THE_START, FROM_THE_START);
    IntervalMeans(v, None, None, false);
    OneInterval([FROM_THE_START], Interval(None, None, false), v);
  }
}
