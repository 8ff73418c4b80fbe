/** Draining the pipes of a child process: a bounded tail per pipe, with a label when something was cut off. */
module TailKeeper {
  import opened Utf8

  /** The bytes of ASCII text. */
  function AsBytes(text: string): seq<Byte> {
    seq(|text|, i requires 0 <= i < |text| => text[i] as int % 256)
  }

  const LABEL := "[output truncated; showing tail]\n"
  const MARKER := AsBytes(LABEL)

  predicate IsAscii(bs: seq<Byte>) {
    forall i :: 0 <= i < |bs| ==> bs[i] < 0x80
  }

  lemma MarkerIsLabel()
    ensures |MARKER| == 33 && IsAscii(MARKER)
  {
    LabelIsAscii();
    hide LABEL;
  }

  lemma LabelIsAscii()
    ensures |LABEL| == 33 && forall i :: 0 <= i < 33 ==> LABEL[i] as int < 0x80
  {
  }

  function Concat(chunks: seq<seq<Byte>>): seq<Byte> {
    if chunks == [] then [] else Concat(chunks[..|chunks| - 1]) + chunks[|chunks| - 1]
  }

  /** Python's `del tail[:-keep]`, which deletes nothing when `keep` is zero. */
  function KeepLast(tail: seq<Byte>, keep: nat): seq<Byte> {
    if keep == 0 || keep >= |tail| then tail else tail[|tail| - keep..]
  }

  function DropContinuations(tail: seq<Byte>): seq<Byte> {
    if tail != [] && Continuation(tail[0]) then DropContinuations(tail[1..]) else tail
  }

  /** What is returned for a whole stream, with this label for a truncated one. */
  function Bounded(banner: seq<Byte>, stream: seq<Byte>, limit: nat): seq<Byte>
    requires limit >= |banner|
  {
    if |stream| <= limit then stream
    else banner + DropContinuations(KeepLast(KeepLast(stream, limit), limit - |banner|))
  }

  /** The result depends on the stream alone, not on how it arrived in chunks. */
  method Drain(banner: seq<Byte>, chunks: seq<seq<Byte>>, limit: nat) returns (r: seq<Byte>)
    requires limit >= |banner| > 0
    ensures r == Bounded(banner, Concat(chunks), limit)
  {
    var tail: seq<Byte> := [];
    var truncated := false;
    for i := 0 to |chunks|
      invariant truncated <==> |Concat(chunks[..i])| > limit
      invariant tail == KeepLast(Concat(chunks[..i]), limit)
    {
      assert chunks[..i + 1][..i] == chunks[..i] && chunks[..i + 1][i] == chunks[i];
      KeepLastOfMore(Concat(chunks[..i]), chunks[i], limit);
      tail := tail + chunks[i];
      if |tail| > limit {
        truncated := true;
        tail := tail[|tail| - limit..];
      }
    }
    assert chunks[..|chunks|] == chunks;
    if truncated {
      tail := KeepLast(tail, limit - |banner|);
      tail := StripContinuations(tail);
      return banner + tail;
    }
    return tail;
  }

  method StripContinuations(tail: seq<Byte>) returns (r: seq<Byte>)
    ensures r == DropContinuations(tail)
  {
    r := tail;
    while r != [] && Continuation(r[0])
      invariant DropContinuations(r) == DropContinuations(tail)
    {
      r := r[1..];
    }
  }

  lemma KeepLastOfMore(stream: seq<Byte>, chunk: seq<Byte>, limit: nat)
    requires limit > 0
    ensures var tail := KeepLast(stream, limit) + chunk;
            && KeepLast(stream + chunk, limit) == (if |tail| > limit then tail[|tail| - limit..] else tail)
            && (|stream + chunk| > limit <==> |tail| > limit || |stream| > limit)
  {
  }

  // ----- bounds ------------------------------------------------------------------------------

  ghost predicate SuffixOf(s: seq<Byte>, whole: seq<Byte>) {
    |s| <= |whole| && whole[|whole| - |s|..] == s
  }

  lemma {:induction false} DroppedIsSuffix(tail: seq<Byte>)
    ensures SuffixOf(DropContinuations(tail), tail)
    ensures forall i :: 0 <= i < |tail| - |DropContinuations(tail)| ==> Continuation(tail[i])
  {
    if tail != [] && Continuation(tail[0]) {
      DroppedIsSuffix(tail[1..]);
    }
  }

  /** The part of a truncated stream that is looked at. */
  function LastPart(banner: seq<Byte>, stream: seq<Byte>, limit: nat): seq<Byte>
    requires |banner| < limit < |stream|
  {
    stream[|stream| - (limit - |banner|)..]
  }

  lemma BoundedIs(banner: seq<Byte>, stream: seq<Byte>, limit: nat)
    requires |banner| < limit < |stream|
    ensures Bounded(banner, stream, limit) == banner + DropContinuations(LastPart(banner, stream, limit))
  {
    assert KeepLast(KeepLast(stream, limit), limit - |banner|) == LastPart(banner, stream, limit);
  }

  /** Above its limit a stream becomes the label and a suffix of the stream, within the limit; all that is missing from
      a full tail are leading continuation bytes. */
  lemma TruncatedIsBoundedSuffix(banner: seq<Byte>, stream: seq<Byte>, limit: nat)
    requires |banner| < limit < |stream|
    ensures var r := Bounded(banner, stream, limit);
            && |banner| <= |r| <= limit && r[..|banner|] == banner && SuffixOf(r[|banner|..], stream)
            && forall i :: |stream| - (limit - |banner|) <= i < |stream| - (|r| - |banner|) ==> Continuation(stream[i])
  {
    var part := LastPart(banner, stream, limit);
    BoundedIs(banner, stream, limit);
    DroppedIsSuffix(part);
    assert (banner + DropContinuations(part))[|banner|..] == DropContinuations(part);
    forall i | |stream| - |part| <= i < |stream| - |DropContinuations(part)| ensures Continuation(stream[i]) {
      assert stream[i] == part[i - (|stream| - |part|)];
    }
  }

  /** The bound holds for every stream exactly when the limit is above the label's length: at equality nothing is
      deleted, and the label comes on top of a full tail. */
  lemma BoundHoldsIff(banner: seq<Byte>, limit: nat)
    requires limit >= |banner| > 0
    ensures (forall stream :: |Bounded(banner, stream, limit)| <= limit) <==> limit > |banner|
  {
    if limit > |banner| {
      forall stream ensures |Bounded(banner, stream, limit)| <= limit {
        if |stream| > limit { TruncatedIsBoundedSuffix(banner, stream, limit); }
      }
    } else {
      var noisy: seq<Byte> := seq(limit + 1, i => 65);
      NothingDeleted(banner, noisy);
    }
  }

  /** One byte more than the label's length, where that is the limit, comes back as twice the limit. */
  lemma NothingDeleted(banner: seq<Byte>, stream: seq<Byte>)
    requires banner != [] && |stream| == |banner| + 1 && !Continuation(stream[1])
    ensures |Bounded(banner, stream, |banner|)| == 2 * |banner|
  {
    assert KeepLast(stream, |banner|) == stream[1..];
    assert KeepLast(stream[1..], 0) == stream[1..];
  }

  // ----- well-formed output ------------------------------------------------------------------

  lemma WellFormedIsNotCut(bs: seq<Byte>)
    requires WellFormed(bs)
    ensures DropContinuations(bs) == bs
  {
  }

  lemma {:induction false} DropAll(lead: seq<Byte>, rest: seq<Byte>)
    requires forall i :: 0 <= i < |lead| ==> Continuation(lead[i])
    ensures DropContinuations(lead + rest) == DropContinuations(rest)
  {
    if lead == [] {
      assert lead + rest == rest;
    } else {
      assert (lead + rest)[1..] == lead[1..] + rest;
      DropAll(lead[1..], rest);
    }
  }

  /** Dropping the leading continuation bytes of any suffix of well-formed text leaves well-formed text, and drops at
      most three bytes. */
  lemma {:induction false} SuffixOfText(text: seq<Byte>, cut: nat)
    requires WellFormed(text) && cut <= |text|
    ensures WellFormed(DropContinuations(text[cut..]))
    ensures |text[cut..]| - |DropContinuations(text[cut..])| <= 3
    decreases |text|
  {
    if cut == 0 {
      assert text[0..] == text;
      WellFormedIsNotCut(text);
    } else {
      var n := SequenceLength(text[0]);
      if cut >= n {
        SuffixOfText(text[n..], cut - n);
        assert text[cut..] == text[n..][cut - n..];
      } else {
        var lead := text[cut..n];
        assert text[cut..] == lead + text[n..];
        DropAll(lead, text[n..]);
        WellFormedIsNotCut(text[n..]);
      }
    }
  }

  lemma {:induction false} AsciiBefore(banner: seq<Byte>, text: seq<Byte>)
    requires IsAscii(banner) && WellFormed(text)
    ensures WellFormed(banner + text)
  {
    if banner == [] {
      assert banner + text == text;
    } else {
      assert (banner + text)[1..] == banner[1..] + text;
      AsciiBefore(banner[1..], text);
    }
  }

  /** Textual output stays decodable: a well-formed stream gives a well-formed result that lacks at most three bytes
      of a full tail. */
  lemma TextStaysText(banner: seq<Byte>, stream: seq<Byte>, limit: nat)
    requires WellFormed(stream) && IsAscii(banner) && limit > |banner|
    ensures WellFormed(Bounded(banner, stream, limit))
    ensures |stream| > limit ==> |Bounded(banner, stream, limit)| >= limit - 3
  {
    if |stream| > limit {
      BoundedIs(banner, stream, limit);
      SuffixOfText(stream, |stream| - (limit - |banner|));
      AsciiBefore(banner, DropContinuations(LastPart(banner, stream, limit)));
    }
  }

  // ----- both pipes --------------------------------------------------------------------------

  datatype Pipe = NoPipe | Chunks(chunks: seq<seq<Byte>>)
  datatype Captured = Captured(out: seq<Byte>, err: seq<Byte>) | BadBounds

  function Streams(out: Pipe, err: Pipe): nat {
    (if out.Chunks? then 1 else 0) + (if err.Chunks? then 1 else 0)
  }

  function Limit(maxStream: nat, maxTotal: nat, streams: nat): nat {
    var share := maxTotal / (if streams > 1 then streams else 1);
    if maxStream < share then maxStream else share
  }

  function Result(p: Pipe, limit: nat): seq<Byte>
    requires limit >= |MARKER|
  {
    if p.Chunks? then Bounded(MARKER, Concat(p.chunks), limit) else []
  }

  lemma SharesFit(maxStream: nat, maxTotal: nat, streams: nat)
    requires maxStream >= 66 && maxTotal >= 66 && streams <= 2
    ensures var limit := Limit(maxStream, maxTotal, streams);
            && 33 <= limit <= maxStream && limit <= maxTotal
            && (streams == 2 ==> 2 * limit <= maxTotal)
            && (streams < 2 || maxTotal >= 68 ==> limit > 33)
  {
  }

  lemma PipesFit(out: Pipe, err: Pipe, limit: nat, maxTotal: nat)
    requires limit > |MARKER| && limit <= maxTotal && (Streams(out, err) == 2 ==> 2 * limit <= maxTotal)
    ensures |Result(out, limit)| <= limit && |Result(err, limit)| <= limit
    ensures |Result(out, limit)| + |Result(err, limit)| <= maxTotal
  {
    MarkerIsLabel();
    BoundHoldsIff(MARKER, limit);
  }

  method DrainPipe(p: Pipe, limit: nat) returns (r: seq<Byte>)
    requires limit >= |MARKER|
    ensures r == Result(p, limit)
  {
    MarkerIsLabel();
    r := [];
    if p.Chunks? {
      r := Drain(MARKER, p.chunks, limit);
    }
  }

  /** Captures both pipes. Together they fit the total, and each its own bound, unless two pipes share a total of
      exactly two labels. */
  method Communicate(out: Pipe, err: Pipe, maxStream: nat, maxTotal: nat) returns (r: Captured)
    ensures r.BadBounds? <==> maxStream < 66 || maxTotal < 66
    ensures r.Captured? ==>
              var share := if out.Chunks? && err.Chunks? then maxTotal / 2 else maxTotal;
              var limit := if maxStream < share then maxStream else share;
              limit >= |MARKER| && r.out == Result(out, limit) && r.err == Result(err, limit)
    ensures r.Captured? && (out.NoPipe? || err.NoPipe? || maxTotal >= 68) ==>
              |r.out| <= maxStream && |r.err| <= maxStream && |r.out| + |r.err| <= maxTotal
  {
    MarkerIsLabel();
    if maxStream < 2 * |MARKER| || maxTotal < 2 * |MARKER| {
      return BadBounds;
    }
    SharesFit(maxStream, maxTotal, Streams(out, err));
    var limit := Limit(maxStream, maxTotal, Streams(out, err));
    var first := DrainPipe(out, limit);
    var second := DrainPipe(err, limit);
    if Streams(out, err) < 2 || maxTotal >= 68 {
      PipesFit(out, err, limit, maxTotal);
    }
    return Captured(first, second);
  }

  /** The totals that are too small for two pipes: 66 and 67 pass the check, and two noisy pipes then return 132 bytes. */
  lemma TotalTooSmallForTwo(maxStream: nat, maxTotal: nat, a: seq<Byte>, b: seq<Byte>)
    requires maxStream >= 66 && 66 <= maxTotal < 68 && |a| == |b| == 34 && !Continuation(a[1]) && !Continuation(b[1])
    ensures Limit(maxStream, maxTotal, 2) == |MARKER| == 33
    ensures |Bounded(MARKER, a, 33)| + |Bounded(MARKER, b, 33)| == 132
  {
    MarkerIsLabel();
    NothingDeleted(MARKER, a);
    NothingDeleted(MARKER, b);
  }
}
