/** Bounded capture of a process output stream. The stream arrives in chunks of
    any size; what is retained depends on the bytes alone. */
module Capture {
  import opened Common

  /** When a captured value has reached its logical end. */
  datatype CaptureEnd = EndOfStream | Bytes(size: nat) | Delimiter(bytes: seq<byte>) | Line

  datatype OverflowPolicy = Stop | Truncate

  datatype Options = Options(limit: nat, overflow: OverflowPolicy, end: CaptureEnd)

  datatype Result = Captured(bytes: seq<byte>) | LimitExceeded(limit: nat) | AllocationFailed(requested: nat)

  const NEWLINE: byte := 10

  // ---------------------------------------------------------------------
  // The logical end of a stream
  // ---------------------------------------------------------------------

  predicate OccursAt(s: seq<byte>, delimiter: seq<byte>, at: nat) {
    at + |delimiter| <= |s| && s[at..at + |delimiter|] == delimiter
  }

  /** Where the first occurrence of a non-empty delimiter ends. */
  ghost predicate IsFirstEnd(s: seq<byte>, delimiter: seq<byte>, end: nat) {
    && |delimiter| > 0 && |delimiter| <= end
    && OccursAt(s, delimiter, end - |delimiter|)
    && forall at: nat :: at < end - |delimiter| ==> !OccursAt(s, delimiter, at)
  }

  ghost predicate NoEnd(s: seq<byte>, delimiter: seq<byte>) {
    |delimiter| == 0 || forall at: nat :: !OccursAt(s, delimiter, at)
  }

  /** The logical end of the stream s, which no chunk boundary can influence. */
  ghost predicate EndsAt(end: CaptureEnd, s: seq<byte>, e: nat) {
    match end
    case EndOfStream => e == |s|
    case Bytes(size) => e == if size < |s| then size else |s|
    case Delimiter(d) => IsFirstEnd(s, d, e) || (NoEnd(s, d) && e == |s|)
    case Line => IsFirstEnd(s, [NEWLINE], e) || (NoEnd(s, [NEWLINE]) && e == |s|)
  }

  /** More output cannot move the end any more. */
  ghost predicate Closed(end: CaptureEnd, s: seq<byte>, e: nat) {
    match end
    case EndOfStream => false
    case Bytes(size) => e == size <= |s|
    case Delimiter(d) => IsFirstEnd(s, d, e)
    case Line => IsFirstEnd(s, [NEWLINE], e)
  }

  /** What a capture of the stream s must return. */
  ghost predicate IsCapture(o: Options, s: seq<byte>, r: Result) {
    exists e: nat :: EndsAt(o.end, s, e) && e <= |s| && r == Cut(o, s, e)
  }

  function Cut(o: Options, s: seq<byte>, e: nat): Result
    requires e <= |s|
  {
    if e <= o.limit then Captured(s[..e])
    else match o.overflow
      case Stop => LimitExceeded(o.limit)
      case Truncate => Captured(s[..o.limit])
  }

  lemma OccursInPrefix(s: seq<byte>, more: seq<byte>, d: seq<byte>, at: nat)
    requires at + |d| <= |s|
    ensures OccursAt(s + more, d, at) <==> OccursAt(s, d, at)
  {
    assert (s + more)[at..at + |d|] == s[at..at + |d|];
  }

  lemma EndsWithin(end: CaptureEnd, s: seq<byte>, e: nat)
    requires EndsAt(end, s, e)
    ensures e <= |s|
  {
  }

  lemma FirstEndUnique(s: seq<byte>, d: seq<byte>, e: nat, e': nat)
    requires IsFirstEnd(s, d, e) && (IsFirstEnd(s, d, e') || NoEnd(s, d))
    ensures IsFirstEnd(s, d, e') && e == e'
  {
    assert OccursAt(s, d, e - |d|);
    assert OccursAt(s, d, e' - |d|);
  }

  lemma EndUnique(end: CaptureEnd, s: seq<byte>, e: nat, e': nat)
    requires EndsAt(end, s, e) && EndsAt(end, s, e')
    ensures e == e'
  {
    if end.Delimiter? || end.Line? {
      var d := if end.Line? then [NEWLINE] else end.bytes;
      if IsFirstEnd(s, d, e) {
        FirstEndUnique(s, d, e, e');
      } else if IsFirstEnd(s, d, e') {
        FirstEndUnique(s, d, e', e);
      }
    }
  }

  lemma FirstEndStays(s: seq<byte>, more: seq<byte>, d: seq<byte>, e: nat)
    requires IsFirstEnd(s, d, e)
    ensures IsFirstEnd(s + more, d, e)
  {
    forall at: nat | at <= e - |d|
      ensures OccursAt(s + more, d, at) <==> OccursAt(s, d, at)
    {
      OccursInPrefix(s, more, d, at);
    }
  }

  /** A closed end stays where it is, whatever follows. */
  lemma ClosedStays(end: CaptureEnd, s: seq<byte>, more: seq<byte>, e: nat)
    requires Closed(end, s, e)
    ensures Closed(end, s + more, e) && EndsAt(end, s + more, e)
  {
    if end.Delimiter? || end.Line? {
      FirstEndStays(s, more, if end.Line? then [NEWLINE] else end.bytes, e);
    }
  }

  lemma FirstEndAfter(s: seq<byte>, more: seq<byte>, d: seq<byte>, e: nat)
    requires NoEnd(s, d) && IsFirstEnd(s + more, d, e)
    ensures e > |s|
  {
    if e <= |s| {
      OccursInPrefix(s, more, d, e - |d|);
    }
  }

  /** The end never moves back as output arrives. */
  lemma EndMonotone(end: CaptureEnd, s: seq<byte>, more: seq<byte>, e: nat, e': nat)
    requires EndsAt(end, s, e) && EndsAt(end, s + more, e')
    ensures e <= e'
    ensures !Closed(end, s, e) ==> e == |s|
  {
    if end.Delimiter? || end.Line? {
      var d := if end.Line? then [NEWLINE] else end.bytes;
      if IsFirstEnd(s, d, e) {
        FirstEndStays(s, more, d, e);
        FirstEndUnique(s + more, d, e, e');
      } else if IsFirstEnd(s + more, d, e') {
        FirstEndAfter(s, more, d, e');
      }
    }
  }

  /** The result of a capture is a function of the stream. */
  lemma CaptureUnique(o: Options, s: seq<byte>, r: Result, r': Result)
    requires IsCapture(o, s, r) && IsCapture(o, s, r')
    ensures r == r'
  {
    var e: nat :| EndsAt(o.end, s, e) && e <= |s| && r == Cut(o, s, e);
    var e': nat :| EndsAt(o.end, s, e') && e' <= |s| && r' == Cut(o, s, e');
    EndUnique(o.end, s, e, e');
  }

  // ---------------------------------------------------------------------
  // Searching for the delimiter across the chunk boundary
  // ---------------------------------------------------------------------

  /** Search the retained bytes followed by the incoming ones without joining them. */
  method FindDelimiterEnd(existing: seq<byte>, incoming: seq<byte>, delimiter: seq<byte>) returns (end: Option<nat>)
    ensures end.Some? ==> IsFirstEnd(existing + incoming, delimiter, end.value)
    ensures end.None? ==> NoEnd(existing + incoming, delimiter)
  {
    var total := |existing| + |incoming|;
    ghost var all := existing + incoming;
    if |delimiter| == 0 || |delimiter| > total {
      return None;
    }
    for start := 0 to total - |delimiter| + 1
      invariant forall at: nat :: at < start ==> !OccursAt(all, delimiter, at)
    {
      var matched := true;
      var offset := 0;
      while offset < |delimiter| && matched
        invariant 0 <= offset <= |delimiter|
        invariant matched ==> all[start..start + offset] == delimiter[..offset]
        invariant !matched ==> !OccursAt(all, delimiter, start)
        decreases |delimiter| - offset, matched
      {
        var index := start + offset;
        var actual := if index < |existing| then existing[index] else incoming[index - |existing|];
        if actual != delimiter[offset] {
          matched := false;
          assert all[start..start + |delimiter|][offset] != delimiter[offset];
        } else {
          assert all[start..start + offset + 1] == all[start..start + offset] + [all[index]];
          assert delimiter[..offset + 1] == delimiter[..offset] + [delimiter[offset]];
          offset := offset + 1;
        }
      }
      if matched {
        assert delimiter[..|delimiter|] == delimiter;
        return Some(start + |delimiter|);
      }
    }
    return None;
  }

  // ---------------------------------------------------------------------
  // The accumulator
  // ---------------------------------------------------------------------

  ghost predicate BeyondLimit(o: Options, s: seq<byte>) {
    exists e: nat :: EndsAt(o.end, s, e) && e > o.limit
  }

  /** The capture of s is settled: the end is closed, or the limit was hit and the rest is dropped. */
  ghost predicate Finished(o: Options, s: seq<byte>, bytes: seq<byte>) {
    && bytes <= s && |bytes| <= o.limit
    && (Closed(o.end, s, |bytes|) || (o.overflow == Truncate && |bytes| == o.limit && BeyondLimit(o, s)))
  }

  lemma EndExists(end: CaptureEnd, s: seq<byte>) returns (e: nat)
    ensures EndsAt(end, s, e)
  {
    match end
    case EndOfStream => e := |s|;
    case Bytes(size) => e := if size < |s| then size else |s|;
    case Delimiter(d) => e := DelimitedEnd(s, d);
    case Line => e := DelimitedEnd(s, [NEWLINE]);
  }

  lemma DelimitedEnd(s: seq<byte>, d: seq<byte>) returns (e: nat)
    ensures IsFirstEnd(s, d, e) || (NoEnd(s, d) && e == |s|)
  {
    if |d| == 0 {
      return |s|;
    }
    e := 0;
    while e + |d| <= |s|
      invariant forall at: nat :: at < e ==> !OccursAt(s, d, at)
    {
      if OccursAt(s, d, e) {
        return e + |d|;
      }
      e := e + 1;
    }
    e := |s|;
  }

  lemma BeyondLimitStays(o: Options, s: seq<byte>, more: seq<byte>)
    requires BeyondLimit(o, s)
    ensures BeyondLimit(o, s + more)
  {
    var e: nat :| EndsAt(o.end, s, e) && e > o.limit;
    var e' := EndExists(o.end, s + more);
    EndMonotone(o.end, s, more, e, e');
  }

  lemma FinishedStays(o: Options, s: seq<byte>, more: seq<byte>, bytes: seq<byte>)
    requires Finished(o, s, bytes)
    ensures Finished(o, s + more, bytes)
  {
    if Closed(o.end, s, |bytes|) {
      ClosedStays(o.end, s, more, |bytes|);
    } else {
      BeyondLimitStays(o, s, more);
    }
  }

  /** A settled or open capture holds exactly what a capture of the stream must return. */
  lemma FinishedIsCapture(o: Options, s: seq<byte>, bytes: seq<byte>)
    requires Finished(o, s, bytes)
    ensures IsCapture(o, s, Captured(bytes))
  {
    if Closed(o.end, s, |bytes|) {
      assert EndsAt(o.end, s, |bytes|) && s[..|bytes|] == bytes;
    } else {
      var e: nat :| EndsAt(o.end, s, e) && e > o.limit;
      EndsWithin(o.end, s, e);
      assert Cut(o, s, e) == Captured(bytes);
    }
  }

  datatype PushResult = Pushed | OverLimit | OutOfMemory(requested: nat)

  class Accumulator {
    const options: Options
    /** Reservations of more than this many retained bytes fail. */
    const memory: nat
    var bytes: seq<byte>
    var endReached: bool
    /** Everything pushed so far. */
    ghost var stream: seq<byte>

    ghost predicate Open()
      reads this
    {
      && bytes == stream && |stream| <= options.limit && EndsAt(options.end, stream, |stream|)
      && (stream == [] || !Closed(options.end, stream, |stream|))
    }

    ghost predicate Valid()
      reads this
    {
      |bytes| <= memory && if endReached then Finished(options, stream, bytes) else Open()
    }

    constructor (options: Options, memory: nat)
      ensures Valid() && stream == [] && !endReached && this.options == options && this.memory == memory
    {
      this.options, this.memory := options, memory;
      bytes, endReached, stream := [], false, [];
    }

    /** Retain up to the limit. `incoming` is the part of the chunk before the logical end. */
    method Append(incoming: seq<byte>) returns (result: PushResult)
      requires |bytes| <= options.limit
      modifies this`bytes, this`endReached
      ensures result.Pushed? ==>
                bytes == old(bytes) + (if |old(bytes)| + |incoming| <= options.limit then incoming
                                       else incoming[..options.limit - |old(bytes)|])
      ensures result.Pushed? ==> endReached == (old(endReached) || |old(bytes)| + |incoming| > options.limit)
      ensures result.Pushed? && |old(bytes)| + |incoming| > options.limit ==> options.overflow == Truncate
      ensures result.OverLimit? <==> options.overflow == Stop && |old(bytes)| + |incoming| > options.limit
      ensures result.OutOfMemory? ==>
                memory < result.requested <= options.limit && result.requested <= |old(bytes)| + |incoming|
      ensures result.Pushed? ==> |bytes| <= memory
      ensures !result.Pushed? ==> bytes == old(bytes)
    {
      var remaining := options.limit - |bytes|;
      var overflowed := |incoming| > remaining;
      if overflowed && options.overflow == Stop {
        return OverLimit;
      }
      var count := if remaining < |incoming| then remaining else |incoming|;
      if overflowed {
        endReached := true;
      }
      var needed := |bytes| + count;
      if needed > memory {
        return OutOfMemory(needed);
      }
      bytes := bytes + incoming[..count];
      return Pushed;
    }

    /** Append the part of the chunk before the logical end; `closes` says the end is now fixed. */
    method Advance(incoming: seq<byte>, count: nat, closes: bool) returns (result: PushResult)
      requires !endReached && |bytes| <= options.limit && count <= |incoming| && stream == bytes + incoming
      requires EndsAt(options.end, stream, |bytes| + count)
      requires closes <==> Closed(options.end, stream, |bytes| + count)
      requires !closes ==> count == |incoming|
      modifies this`bytes, this`endReached
      ensures result.Pushed? ==> Valid()
      ensures result.OverLimit? ==> options.overflow == Stop && BeyondLimit(options, stream)
      ensures result.OutOfMemory? ==>
                memory < result.requested <= options.limit && ReachesEnd(options, stream, result.requested)
    {
      ghost var before := bytes;
      ghost var e := |bytes| + count;
      result := Append(incoming[..count]);
      if result.Pushed? && closes {
        endReached := true;
      }
      if result.Pushed? {
        if e <= options.limit {
          assert bytes == stream[..e];
          assert incoming[..|incoming|] == incoming;
        } else {
          assert bytes == stream[..options.limit];
          assert BeyondLimit(options, stream);
        }
      }
    }

    method PushDelimited(delimiter: seq<byte>, incoming: seq<byte>) returns (result: PushResult)
      requires !endReached && |bytes| <= options.limit && stream == bytes + incoming && |incoming| > 0
      requires options.end == Delimiter(delimiter) || (options.end == Line && delimiter == [NEWLINE])
      requires NoEnd(bytes, delimiter)
      modifies this`bytes, this`endReached
      ensures result.Pushed? ==> Valid()
      ensures result.OverLimit? ==> options.overflow == Stop && BeyondLimit(options, stream)
      ensures result.OutOfMemory? ==>
                memory < result.requested <= options.limit && ReachesEnd(options, stream, result.requested)
    {
      var end := FindDelimiterEnd(bytes, incoming, delimiter);
      if end.Some? {
        FirstEndAfter(bytes, incoming, delimiter, end.value);
        result := Advance(incoming, end.value - |bytes|, true);
      } else {
        result := Advance(incoming, |incoming|, false);
      }
    }

    /** Take one chunk. It is refused only when the stream so far, chunk included,
        has its logical end beyond the limit under the stopping policy. */
    method Push(incoming: seq<byte>) returns (result: PushResult)
      requires Valid()
      modifies this`bytes, this`endReached, this`stream
      ensures stream == old(stream) + incoming
      ensures result.Pushed? ==> Valid()
      ensures result.OverLimit? ==> options.overflow == Stop && BeyondLimit(options, stream)
      ensures result.OutOfMemory? ==>
                memory < result.requested <= options.limit && ReachesEnd(options, stream, result.requested)
    {
      stream := stream + incoming;
      if |incoming| == 0 {
        assert stream == old(stream);
        return Pushed;
      }
      if endReached {
        FinishedStays(options, old(stream), incoming, bytes);
        return Pushed;
      }
      match options.end {
        case EndOfStream =>
          result := Advance(incoming, |incoming|, false);
        case Bytes(size) =>
          var remaining := size - |bytes|;
          var count := if remaining < |incoming| then remaining else |incoming|;
          result := Advance(incoming, count, |bytes| + count >= size);
        case Delimiter(delimiter) =>
          result := PushDelimited(delimiter, incoming);
        case Line =>
          result := PushDelimited([NEWLINE], incoming);
      }
    }
  }

  /** Retaining n bytes of s is called for by its logical end. */
  ghost predicate ReachesEnd(o: Options, s: seq<byte>, n: nat) {
    exists e: nat :: EndsAt(o.end, s, e) && n <= e
  }

  // ---------------------------------------------------------------------
  // Draining
  // ---------------------------------------------------------------------

  /** The bytes a reader delivers before its first empty read. */
  function Delivered(chunks: seq<seq<byte>>): seq<byte> {
    if |chunks| == 0 || |chunks[0]| == 0 then [] else chunks[0] + Delivered(chunks[1..])
  }

  lemma {:induction false} DeliveredPrefix(chunks: seq<seq<byte>>, n: nat)
    requires n < |chunks| && forall i :: 0 <= i < n ==> |chunks[i]| > 0
    ensures Delivered(chunks) == Delivered(chunks[..n]) + Delivered(chunks[n..])
    decreases n
  {
    if n == 0 {
      assert chunks[..0] == [] && chunks[0..] == chunks;
    } else {
      DeliveredPrefix(chunks[1..], n - 1);
      assert chunks[1..][..n - 1] == chunks[..n][1..] && chunks[1..][n - 1..] == chunks[n..];
    }
  }

  lemma {:induction false} DeliveredOneMore(chunks: seq<seq<byte>>, n: nat)
    requires n < |chunks| && forall i :: 0 <= i <= n ==> |chunks[i]| > 0
    ensures Delivered(chunks[..n + 1]) == Delivered(chunks[..n]) + chunks[n]
  {
    var front := chunks[..n + 1];
    DeliveredPrefix(front, n);
    assert front[..n] == chunks[..n] && front[n..] == [chunks[n]];
    assert Delivered([chunks[n]]) == chunks[n] + Delivered([]);
  }

  /** The stream up to some read already calls for more than fits. */
  lemma OverLimitIsCapture(o: Options, s: seq<byte>, more: seq<byte>)
    requires BeyondLimit(o, s) && o.overflow == Stop
    ensures IsCapture(o, s + more, LimitExceeded(o.limit))
  {
    BeyondLimitStays(o, s, more);
    var e: nat :| EndsAt(o.end, s + more, e) && e > o.limit;
    EndsWithin(o.end, s + more, e);
    assert Cut(o, s + more, e) == LimitExceeded(o.limit);
  }

  lemma ReachesEndStays(o: Options, s: seq<byte>, more: seq<byte>, n: nat)
    requires ReachesEnd(o, s, n)
    ensures ReachesEnd(o, s + more, n)
  {
    var e: nat :| EndsAt(o.end, s, e) && n <= e;
    var e' := EndExists(o.end, s + more);
    EndMonotone(o.end, s, more, e, e');
  }

  /** Drain one captured stream. Whatever the chunk boundaries, the result is the
      capture of the delivered bytes; only when that capture needs more memory
      than there is may the drain fail for memory instead. */
  method DrainCapture(o: Options, memory: nat, chunks: seq<seq<byte>>) returns (result: Result)
    ensures !result.AllocationFailed? ==> IsCapture(o, Delivered(chunks), result)
    ensures result.Captured? ==> |result.bytes| <= memory
    ensures result.AllocationFailed? ==>
              memory < result.requested <= o.limit && ReachesEnd(o, Delivered(chunks), result.requested)
  {
    var capture := new Accumulator(o, memory);
    var n := 0;
    while n < |chunks| && |chunks[n]| > 0
      invariant 0 <= n <= |chunks| && capture.Valid() && fresh(capture) && capture.options == o
      invariant capture.memory == memory
      invariant forall i :: 0 <= i < n ==> |chunks[i]| > 0
      invariant capture.stream == Delivered(chunks[..n])
    {
      var pushed := capture.Push(chunks[n]);
      DeliveredOneMore(chunks, n);
      ghost var rest := SplitDelivered(chunks, n + 1);
      match pushed {
        case Pushed => n := n + 1;
        case OverLimit =>
          OverLimitIsCapture(o, capture.stream, rest);
          return LimitExceeded(o.limit);
        case OutOfMemory(requested) =>
          ReachesEndStays(o, capture.stream, rest, requested);
          return AllocationFailed(requested);
      }
    }
    ghost var rest := SplitDelivered(chunks, n);
    assert rest == [] by {
      if n < |chunks| {
        DeliveredPrefix(chunks, n);
        assert Delivered(chunks[n..]) == [];
      } else {
        assert chunks[..n] == chunks;
      }
    }
    assert capture.stream + [] == capture.stream;
    if capture.endReached {
      FinishedIsCapture(o, capture.stream, capture.bytes);
    } else {
      assert Cut(o, capture.stream, |capture.stream|) == Captured(capture.bytes);
    }
    return Captured(capture.bytes);
  }

  lemma SplitDelivered(chunks: seq<seq<byte>>, n: nat) returns (rest: seq<byte>)
    requires n <= |chunks| && forall i :: 0 <= i < n ==> |chunks[i]| > 0
    ensures Delivered(chunks) == Delivered(chunks[..n]) + rest
    ensures n == |chunks| ==> rest == []
  {
    if n == |chunks| {
      assert chunks[..n] == chunks;
      rest := [];
    } else {
      DeliveredPrefix(chunks, n);
      rest := Delivered(chunks[n..]);
    }
  }

  /** Two splits of one stream give the same capture, delimiters across chunk
      boundaries included: any two results the drain may return agree. */
  lemma ChunkingIndependence(o: Options, chunks: seq<seq<byte>>, chunks': seq<seq<byte>>, r: Result, r': Result)
    requires Delivered(chunks) == Delivered(chunks')
    requires IsCapture(o, Delivered(chunks), r) && IsCapture(o, Delivered(chunks'), r')
    ensures r == r'
    ensures r.Captured? ==> |r.bytes| <= o.limit && r.bytes <= Delivered(chunks)
  {
    CaptureUnique(o, Delivered(chunks), r, r');
  }
}
