/** What an initramfs archive means, whatever reads its entries: a sequence of
    entries closed by one named TRAILER!!!, followed by zero padding. */
module Archive {
  import opened Common

  // Positions of the header numbers.
  const INO: nat := 0
  const MODE: nat := 1
  const LINKS: nat := 4
  const FILE_SIZE: nat := 6
  const NAME_SIZE: nat := 11
  const FIELDS: nat := 13

  /** An entry: the numbers of its header, its name and its data. */
  datatype Entry = Entry(numbers: seq<nat>, name: seq<byte>, data: seq<byte>)

  /** An entry read: the size it takes and whether it is the trailer. */
  datatype Item = Item(entry: Entry, size: nat, trailer: bool)

  /** What the bytes start with, if that is a complete entry. */
  type Reader = seq<byte> -> Option<Item>

  predicate Advances(read: Reader, s: seq<byte>) {
    read(s).Some? && 0 < read(s).value.size <= |s|
  }

  /** What follows the entry at the start of s does not matter to the reader. */
  ghost predicate LocalAt(read: Reader, s: seq<byte>, x: seq<byte>) {
    Advances(read, s) ==> read(s[..read(s).value.size] + x) == read(s)
  }

  ghost predicate Local(read: Reader) {
    forall s: seq<byte>, x: seq<byte> :: LocalAt(read, s, x)
  }

  predicate AllZero(s: seq<byte>) {
    forall i :: 0 <= i < |s| ==> s[i] == 0
  }

  datatype Listing = Listing(entries: seq<Entry>, bodySize: nat)

  /** The entries before the trailer and the size of the body they take, if s is
      a complete archive followed by nothing but zero bytes. */
  function Parse(read: Reader, s: seq<byte>): (r: Option<Listing>)
    ensures r.Some? ==> r.value.bodySize <= |s|
    decreases |s|
  {
    if !Advances(read, s) then None
    else
      var Item(e, n, trailer) := read(s).value;
      if trailer then
        if |e.data| == 0 && AllZero(s[n..]) then Some(Listing([], 0)) else None
      else Prepend([e], n, Parse(read, s[n..]))
  }

  function Prepend(entries: seq<Entry>, size: nat, r: Option<Listing>): Option<Listing> {
    if r.None? then None else Some(Listing(entries + r.value.entries, size + r.value.bodySize))
  }

  lemma PrependNothing(r: Option<Listing>)
    ensures Prepend([], 0, r) == r
  {
    if r.Some? {
      assert [] + r.value.entries == r.value.entries;
    }
  }

  lemma PrependTwice(a: seq<Entry>, m: nat, b: seq<Entry>, n: nat, r: Option<Listing>)
    ensures Prepend(a, m, Prepend(b, n, r)) == Prepend(a + b, m + n, r)
  {
    if r.Some? {
      assert a + (b + r.value.entries) == (a + b) + r.value.entries;
    }
  }

  lemma CutTwice(s: seq<byte>, n: nat, m: nat, x: seq<byte>)
    requires n + m <= |s|
    ensures s[..n + m] + x == s[..n] + (s[n..][..m] + x)
  {
  }

  lemma DropFront(a: seq<byte>, b: seq<byte>)
    ensures (a + b)[|a|..] == b
  {
  }

  lemma Regroup(a: seq<byte>, b: seq<byte>, c: seq<byte>)
    ensures a + b + c == a + (b + c)
  {
  }

  /** One entry, followed by anything, reads as that entry and then the rest. */
  lemma EntryThen(read: Reader, s: seq<byte>, x: seq<byte>)
    requires Local(read) && Advances(read, s) && !read(s).value.trailer
    ensures var Item(e, n, _) := read(s).value; Parse(read, s[..n] + x) == Prepend([e], n, Parse(read, x))
  {
    var n := read(s).value.size;
    assert LocalAt(read, s, x);
    DropFront(s[..n], x);
  }

  /** The body of an archive, followed by anything, reads as its entries and then the rest. */
  lemma {:induction false} BodyThen(read: Reader, s: seq<byte>, x: seq<byte>)
    requires Local(read) && Parse(read, s).Some?
    ensures var l := Parse(read, s).value;
            Parse(read, s[..l.bodySize] + x) == Prepend(l.entries, l.bodySize, Parse(read, x))
    decreases |s|
  {
    var Item(e, n, trailer) := read(s).value;
    if trailer {
      assert s[..0] + x == x;
      PrependNothing(Parse(read, x));
    } else {
      var rest := Parse(read, s[n..]).value;
      BodyThen(read, s[n..], x);
      var tail := s[n..][..rest.bodySize] + x;
      CutTwice(s, n, rest.bodySize, x);
      EntryThen(read, s, tail);
      PrependTwice([e], n, rest.entries, rest.bodySize, Parse(read, x));
    }
  }

  /** These bytes, before any others, are these entries. */
  ghost predicate ReadsBefore(read: Reader, bytes: seq<byte>, entries: seq<Entry>, x: seq<byte>) {
    Parse(read, bytes + x) == Prepend(entries, |bytes|, Parse(read, x))
  }

  ghost predicate IsBody(read: Reader, bytes: seq<byte>, entries: seq<Entry>) {
    forall x: seq<byte> :: ReadsBefore(read, bytes, entries, x)
  }

  lemma BodyOfArchive(read: Reader, s: seq<byte>)
    requires Local(read) && Parse(read, s).Some?
    ensures IsBody(read, s[..Parse(read, s).value.bodySize], Parse(read, s).value.entries)
  {
    forall x: seq<byte>
      ensures ReadsBefore(read, s[..Parse(read, s).value.bodySize], Parse(read, s).value.entries, x)
    {
      BodyThen(read, s, x);
    }
  }

  lemma EmptyBody(read: Reader)
    ensures IsBody(read, [], [])
  {
    forall x: seq<byte>
      ensures ReadsBefore(read, [], [], x)
    {
      assert [] + x == x;
      PrependNothing(Parse(read, x));
    }
  }

  lemma JoinBodies(read: Reader, a: seq<byte>, front: seq<Entry>, b: seq<byte>, back: seq<Entry>)
    requires IsBody(read, a, front) && IsBody(read, b, back)
    ensures IsBody(read, a + b, front + back)
  {
    forall x: seq<byte>
      ensures ReadsBefore(read, a + b, front + back, x)
    {
      assert ReadsBefore(read, a, front, b + x) && ReadsBefore(read, b, back, x);
      JoinBefore(s => Parse(read, s), a, front, b, back, x);
    }
  }

  lemma JoinBefore(parse: seq<byte> -> Option<Listing>, a: seq<byte>, front: seq<Entry>, b: seq<byte>, back: seq<Entry>,
                   x: seq<byte>)
    requires parse(a + (b + x)) == Prepend(front, |a|, parse(b + x))
    requires parse(b + x) == Prepend(back, |b|, parse(x))
    ensures parse(a + b + x) == Prepend(front + back, |a + b|, parse(x))
  {
    Regroup(a, b, x);
    PrependTwice(front, |a|, back, |b|, parse(x));
  }

  /** Entries written one after the other. */
  function Written(write: Entry -> seq<byte>, entries: seq<Entry>): seq<byte> {
    if |entries| == 0 then []
    else Written(write, entries[..|entries| - 1]) + write(entries[|entries| - 1])
  }

  ghost predicate RoundTrips(read: Reader, write: Entry -> seq<byte>, e: Entry) {
    IsBody(read, write(e), [e])
  }

  lemma {:induction false} WrittenIsBody(read: Reader, write: Entry -> seq<byte>, entries: seq<Entry>)
    requires forall i :: 0 <= i < |entries| ==> RoundTrips(read, write, entries[i])
    ensures IsBody(read, Written(write, entries), entries)
  {
    if |entries| == 0 {
      EmptyBody(read);
    } else {
      var init, last := entries[..|entries| - 1], entries[|entries| - 1];
      WrittenIsBody(read, write, init);
      assert RoundTrips(read, write, last);
      JoinBodies(read, Written(write, init), init, write(last), [last]);
      assert entries == init + [last];
    }
  }

  /** The bytes of a trailer: an archive of no entries. */
  ghost predicate Closes(read: Reader, closing: seq<byte>) {
    Parse(read, closing) == Some(Listing([], 0))
  }

  lemma CloseBody(read: Reader, body: seq<byte>, entries: seq<Entry>, closing: seq<byte>)
    requires IsBody(read, body, entries) && Closes(read, closing)
    ensures Parse(read, body + closing) == Some(Listing(entries, |body|))
  {
    assert ReadsBefore(read, body, entries, closing);
    assert entries + [] == entries;
  }

  // ---------------------------------------------------------------------
  // Reading an archive
  // ---------------------------------------------------------------------

  /** Find the body of an archive by consuming every entry up to the trailer. */
  method StripTrailer(read: Reader, bytes: seq<byte>) returns (body: Option<seq<byte>>)
    ensures body.Some? <==> Parse(read, bytes).Some?
    ensures body.Some? ==> body.value == bytes[..Parse(read, bytes).value.bodySize]
  {
    var remaining := bytes;
    var bodyLen := 0;
    ghost var seen: seq<Entry> := [];
    PrependNothing(Parse(read, bytes));
    while true
      invariant bodyLen + |remaining| == |bytes| && remaining == bytes[bodyLen..]
      invariant Parse(read, bytes) == Prepend(seen, bodyLen, Parse(read, remaining))
      decreases |remaining|
    {
      if !Advances(read, remaining) {
        return None;
      }
      var Item(e, consumed, trailer) := read(remaining).value;
      if trailer {
        if |e.data| != 0 {
          return None;
        }
        var tail := remaining[consumed..];
        if exists i :: 0 <= i < |tail| && tail[i] != 0 {
          return None;
        }
        return Some(bytes[..bodyLen]);
      }
      PrependTwice(seen, bodyLen, [e], consumed, Parse(read, remaining[consumed..]));
      seen := seen + [e];
      bodyLen := bodyLen + consumed;
      remaining := remaining[consumed..];
    }
  }

  /** Read the tail in buffers of any size and look for a byte that is not padding. */
  method TailIsPadding(tail: seq<byte>, buffers: seq<nat>) returns (ok: bool)
    ensures ok <==> AllZero(tail)
  {
    var at := 0;
    var n := 0;
    while at < |tail|
      invariant 0 <= at <= |tail| && AllZero(tail[..at])
      decreases |tail| - at
    {
      var offered := if n < |buffers| && buffers[n] > 0 then buffers[n] else 1;
      var read := if offered < |tail| - at then offered else |tail| - at;
      n := n + 1;
      if exists i :: at <= i < at + read && tail[i] != 0 {
        return false;
      }
      assert tail[..at + read] == tail[..at] + tail[at..at + read];
      at := at + read;
    }
    assert tail[..|tail|] == tail;
    return true;
  }

  /** The streaming validator of a cached file: the expected size and a complete
      archive. It accepts exactly what the trailer stripper accepts. */
  method CachedIsValid(read: Reader, file: Option<seq<byte>>, expectedSize: nat, buffers: seq<nat>) returns (ok: bool)
    ensures ok <==> file.Some? && |file.value| == expectedSize && Parse(read, file.value).Some?
  {
    if file.None? || |file.value| != expectedSize {
      return false;
    }
    var remaining := file.value;
    while true
      invariant Parse(read, file.value).Some? <==> Parse(read, remaining).Some?
      decreases |remaining|
    {
      if !Advances(read, remaining) {
        return false;
      }
      var Item(e, consumed, trailer) := read(remaining).value;
      if trailer {
        if |e.data| != 0 {
          return false;
        }
        ok := TailIsPadding(remaining[consumed..], buffers);
        return;
      }
      remaining := remaining[consumed..];
    }
  }

  // ---------------------------------------------------------------------
  // Merging
  // ---------------------------------------------------------------------

  function MergedBytes(read: Reader, base: seq<byte>, overlay: seq<byte>, closing: seq<byte>): Option<seq<byte>> {
    var b, o := Parse(read, base), Parse(read, overlay);
    if b.None? || o.None? then None
    else Some(base[..b.value.bodySize] + overlay[..o.value.bodySize] + closing)
  }

  /** Strip both trailers, join the bodies, close with one trailer. */
  method MergeRootfs(read: Reader, base: seq<byte>, overlay: seq<byte>, closing: seq<byte>)
    returns (merged: Option<seq<byte>>)
    ensures merged == MergedBytes(read, base, overlay, closing)
  {
    var first := StripTrailer(read, base);
    if first.None? {
      return None;
    }
    var second := StripTrailer(read, overlay);
    if second.None? {
      return None;
    }
    return Some(first.value + second.value + closing);
  }

  /** A merge is a complete archive whose entries are those of the base followed by those of the overlay. */
  lemma MergeParses(read: Reader, base: seq<byte>, overlay: seq<byte>, closing: seq<byte>)
    requires Local(read) && Closes(read, closing) && Parse(read, base).Some? && Parse(read, overlay).Some?
    ensures var b, o := Parse(read, base).value, Parse(read, overlay).value;
            Parse(read, MergedBytes(read, base, overlay, closing).value)
            == Some(Listing(b.entries + o.entries, b.bodySize + o.bodySize))
  {
    var b, o := Parse(read, base).value, Parse(read, overlay).value;
    BodyOfArchive(read, base);
    BodyOfArchive(read, overlay);
    JoinBodies(read, base[..b.bodySize], b.entries, overlay[..o.bodySize], o.entries);
    CloseBody(read, base[..b.bodySize] + overlay[..o.bodySize], b.entries + o.entries, closing);
  }

  /** Merging overlays one after the other is merging their merge: layers compose. */
  lemma MergeAssociates(read: Reader, a: seq<byte>, b: seq<byte>, c: seq<byte>, closing: seq<byte>)
    requires Local(read) && Closes(read, closing)
    requires Parse(read, a).Some? && Parse(read, b).Some? && Parse(read, c).Some?
    ensures var ab, bc := MergedBytes(read, a, b, closing).value, MergedBytes(read, b, c, closing).value;
            MergedBytes(read, ab, c, closing) == MergedBytes(read, a, bc, closing)
  {
    MergeParses(read, a, b, closing);
    MergeParses(read, b, c, closing);
    var x, y, z := Parse(read, a).value.bodySize, Parse(read, b).value.bodySize, Parse(read, c).value.bodySize;
    BodyOfJoin(a[..x], b[..y], closing);
    BodyOfJoin(b[..y], c[..z], closing);
    Regroup(a[..x], b[..y], c[..z]);
  }

  lemma BodyOfJoin(a: seq<byte>, b: seq<byte>, c: seq<byte>)
    ensures (a + b + c)[..|a| + |b|] == a + b
  {
  }
}
