/** Archives in the `newc` format (magic 070701) of the Linux kernel's initramfs
    buffer format document: entries of a 110-byte header, a NUL-terminated name and
    the data, each padded to four bytes, closed by an entry named TRAILER!!!. */
module Cpio {
  import opened Archive
  import opened Common

  const U32_LIMIT: nat := 0x1_0000_0000
  const HEADER: nat := 110
  const MAGIC: seq<byte> := [48, 55, 48, 55, 48, 49]

  // ---------------------------------------------------------------------
  // Hexadecimal fields
  // ---------------------------------------------------------------------

  function HexDigit(d: nat): (b: byte)
    requires d < 16
    ensures IsHex(b) && HexValue(b) == d
  {
    if d < 10 then 48 + d else 87 + d
  }

  predicate IsHex(b: byte) {
    48 <= b <= 57 || 97 <= b <= 102 || 65 <= b <= 70
  }

  function HexValue(b: byte): (v: nat)
    ensures v < 16
  {
    if 48 <= b <= 57 then b - 48
    else if 97 <= b <= 102 then b - 87
    else if 65 <= b <= 70 then b - 55
    else 0
  }

  const LOWER_DIGITS: seq<byte> := [48, 49, 50, 51, 52, 53, 54, 55, 56, 57, 97, 98, 99, 100, 101, 102]
  const UPPER_DIGITS: seq<byte> := [48, 49, 50, 51, 52, 53, 54, 55, 56, 57, 65, 66, 67, 68, 69, 70]

  /** Digits are read in either case, and nothing else is one. */
  lemma DigitsOfBothCases(b: byte)
    ensures IsHex(b) <==> b in LOWER_DIGITS || b in UPPER_DIGITS
    ensures IsHex(b) ==> b == LOWER_DIGITS[HexValue(b)] || b == UPPER_DIGITS[HexValue(b)]
  {
  }

  /** The number in four hexadecimal digits. */
  function Half(v: seq<byte>): (n: nat)
    requires |v| == 4
    ensures n < 0x1_0000
  {
    16 * (16 * (16 * HexValue(v[0]) + HexValue(v[1])) + HexValue(v[2])) + HexValue(v[3])
  }

  /** The number in eight hexadecimal digits. */
  function Number(v: seq<byte>): (n: nat)
    requires |v| == 8
    ensures n < U32_LIMIT
  {
    0x1_0000 * Half(v[..4]) + Half(v[4..])
  }

  function HalfToHex(n: nat): (v: seq<byte>)
    requires n < 0x1_0000
    ensures |v| == 4 && AllHex(v) && Half(v) == n
  {
    var a := n / 16;
    var b := a / 16;
    [HexDigit(b / 16), HexDigit(b % 16), HexDigit(a % 16), HexDigit(n % 16)]
  }

  function ToHex(n: nat): (v: seq<byte>)
    requires n < U32_LIMIT
    ensures |v| == 8 && AllHex(v) && Number(v) == n
  {
    var v := HalfToHex(n / 0x1_0000) + HalfToHex(n % 0x1_0000);
    assert v[..4] == HalfToHex(n / 0x1_0000) && v[4..] == HalfToHex(n % 0x1_0000);
    v
  }

  predicate AllHex(v: seq<byte>) {
    forall i :: 0 <= i < |v| ==> IsHex(v[i])
  }

  /** The numbers of a header. */
  function Numbers(fields: seq<byte>): (numbers: seq<nat>)
    requires |fields| == 8 * FIELDS
    ensures |numbers| == FIELDS
  {
    seq(FIELDS, k requires 0 <= k < FIELDS => Number(fields[8 * k..8 * k + 8]))
  }

  /** Eight-byte blocks, one after the other. */
  function Flat(blocks: seq<seq<byte>>): (v: seq<byte>)
    requires forall k :: 0 <= k < |blocks| ==> |blocks[k]| == 8
    ensures |v| == 8 * |blocks|
  {
    seq(8 * |blocks|, i requires 0 <= i < 8 * |blocks| => blocks[i / 8][i % 8])
  }

  lemma Place(k: nat, j: nat)
    requires j < 8
    ensures (8 * k + j) / 8 == k && (8 * k + j) % 8 == j
  {
  }

  lemma BlockAt(blocks: seq<seq<byte>>, k: nat)
    requires k < |blocks| && forall i :: 0 <= i < |blocks| ==> |blocks[i]| == 8
    ensures Flat(blocks)[8 * k..8 * k + 8] == blocks[k]
  {
    forall j | 0 <= j < 8
      ensures Flat(blocks)[8 * k + j] == blocks[k][j]
    {
      Place(k, j);
    }
  }

  lemma FlatIsHex(blocks: seq<seq<byte>>)
    requires forall i :: 0 <= i < |blocks| ==> |blocks[i]| == 8 && AllHex(blocks[i])
    ensures AllHex(Flat(blocks))
  {
  }

  predicate AllU32(numbers: seq<nat>) {
    forall k :: 0 <= k < |numbers| ==> numbers[k] < U32_LIMIT
  }

  function Blocks(numbers: seq<nat>): (blocks: seq<seq<byte>>)
    requires AllU32(numbers)
    ensures |blocks| == |numbers|
    ensures forall k :: 0 <= k < |blocks| ==> |blocks[k]| == 8 && AllHex(blocks[k]) && Number(blocks[k]) == numbers[k]
  {
    seq(|numbers|, k requires 0 <= k < |numbers| => ToHex(numbers[k]))
  }

  /** The header fields of some numbers, truncated to 32 bits. */
  function Fields(numbers: seq<nat>): (v: seq<byte>)
    ensures |v| == 8 * |numbers|
  {
    Flat(Blocks(seq(|numbers|, k requires 0 <= k < |numbers| => numbers[k] % U32_LIMIT)))
  }

  lemma FieldsRoundTrip(numbers: seq<nat>)
    requires |numbers| == FIELDS && AllU32(numbers)
    ensures AllHex(Fields(numbers)) && Numbers(Fields(numbers)) == numbers
  {
    var truncated := seq(|numbers|, k requires 0 <= k < |numbers| => numbers[k] % U32_LIMIT);
    assert truncated == numbers;
    FlatIsHex(Blocks(numbers));
    forall k | 0 <= k < FIELDS
      ensures Numbers(Fields(numbers))[k] == numbers[k]
    {
      BlockAt(Blocks(numbers), k);
    }
  }

  // ---------------------------------------------------------------------
  // Entries
  // ---------------------------------------------------------------------

  function Pad(n: nat): (p: nat)
    ensures p < 4 && (n + p) % 4 == 0
  {
    (4 - n % 4) % 4
  }

  function Zeros(n: nat): (s: seq<byte>)
    ensures |s| == n && forall i :: 0 <= i < n ==> s[i] == 0
  {
    seq(n, _ => 0)
  }

  function DataStart(nameSize: nat): nat {
    HEADER + nameSize + Pad(HEADER + nameSize)
  }

  function EntrySize(nameSize: nat, fileSize: nat): nat {
    DataStart(nameSize) + fileSize + Pad(fileSize)
  }

  /** The header says what the entry holds. */
  predicate Encodable(e: Entry) {
    && |e.numbers| == FIELDS && AllU32(e.numbers)
    && e.numbers[NAME_SIZE] == |e.name| + 1 && e.numbers[FILE_SIZE] == |e.data|
  }

  function Encode(e: Entry): seq<byte> {
    Layout(Fields(e.numbers), e.name, e.data)
  }

  function Layout(fields: seq<byte>, name: seq<byte>, data: seq<byte>): (s: seq<byte>)
    ensures |fields| == 8 * FIELDS ==> |s| == EntrySize(|name| + 1, |data|)
  {
    MAGIC + fields + name + [0] + Zeros(Pad(HEADER + |name| + 1)) + data + Zeros(Pad(|data|))
  }

  /** The entry at the start of s and its size, if there is a complete one. */
  function Decode(s: seq<byte>): (r: Option<Item>)
    ensures r.Some? ==> HEADER < r.value.size <= |s|
  {
    if |s| < HEADER || s[..6] != MAGIC || !AllHex(s[6..HEADER]) then None
    else DecodeWith(Numbers(s[6..HEADER]), s)
  }

  function DecodeWith(numbers: seq<nat>, s: seq<byte>): (r: Option<Item>)
    requires |numbers| == FIELDS && |s| >= HEADER
    ensures r.Some? ==> HEADER < r.value.size <= |s|
  {
    var nameSize, fileSize := numbers[NAME_SIZE], numbers[FILE_SIZE];
    if nameSize == 0 || |s| < EntrySize(nameSize, fileSize) || s[HEADER + nameSize - 1] != 0 then None
    else
      var start := DataStart(nameSize);
      var name := s[HEADER..HEADER + nameSize - 1];
      Some(Item(Entry(numbers, name, s[start..start + fileSize]), EntrySize(nameSize, fileSize), name == TRAILER_NAME))
  }

  lemma TakeFront(a: seq<byte>, b: seq<byte>)
    ensures (a + b)[..|a|] == a
  {
  }

  lemma LayoutParts(fields: seq<byte>, name: seq<byte>, data: seq<byte>)
    requires |fields| == 8 * FIELDS
    ensures var s := Layout(fields, name, data);
            && s[..6] == MAGIC
            && s[6..HEADER] == fields
            && s[HEADER..HEADER + |name|] == name
            && s[HEADER + |name|] == 0
            && s[DataStart(|name| + 1)..DataStart(|name| + 1) + |data|] == data
  {
    var a := MAGIC + fields;
    var b := name + [0] + Zeros(Pad(HEADER + |name| + 1));
    var c := data + Zeros(Pad(|data|));
    assert Layout(fields, name, data) == a + b + c;
    assert a[..6] == MAGIC && a[6..HEADER] == fields;
    TakeFront(name, [0] + Zeros(Pad(HEADER + |name| + 1)));
    assert b == name + ([0] + Zeros(Pad(HEADER + |name| + 1)));
    assert b[|name|] == 0;
    TakeFront(data, Zeros(Pad(|data|)));
  }

  lemma DecodeWithLocal(numbers: seq<nat>, s: seq<byte>, x: seq<byte>)
    requires |numbers| == FIELDS && |s| >= HEADER && DecodeWith(numbers, s).Some?
    ensures DecodeWith(numbers, s[..DecodeWith(numbers, s).value.size] + x) == DecodeWith(numbers, s)
  {
    var t := s[..DecodeWith(numbers, s).value.size] + x;
    var nameSize, fileSize := numbers[NAME_SIZE], numbers[FILE_SIZE];
    var start := DataStart(nameSize);
    assert t[HEADER + nameSize - 1] == s[HEADER + nameSize - 1];
    assert t[HEADER..HEADER + nameSize - 1] == s[HEADER..HEADER + nameSize - 1];
    assert t[start..start + fileSize] == s[start..start + fileSize];
  }

  /** Only the entry's own bytes matter: what follows it does not. */
  lemma DecodeLocal(s: seq<byte>, x: seq<byte>)
    requires Decode(s).Some?
    ensures Decode(s[..Decode(s).value.size] + x) == Decode(s)
  {
    var t := s[..Decode(s).value.size] + x;
    assert t[..6] == s[..6] && t[6..HEADER] == s[6..HEADER];
    DecodeWithLocal(Numbers(s[6..HEADER]), s, x);
  }

  /** Decoding an encoded entry gives it back, whatever follows. */
  lemma EntryRoundTrip(e: Entry, x: seq<byte>)
    requires Encodable(e)
    ensures Decode(Encode(e) + x) == Some(Item(e, |Encode(e)|, e.name == TRAILER_NAME))
  {
    var s := Encode(e);
    FieldsRoundTrip(e.numbers);
    LayoutParts(Fields(e.numbers), e.name, e.data);
    assert Decode(s) == Some(Item(e, |s|, e.name == TRAILER_NAME));
    DecodeLocal(s, x);
    assert s[..|s|] == s;
  }

  lemma DecodeIsLocal()
    ensures Local(Decode)
  {
    forall s: seq<byte>, x: seq<byte>
      ensures LocalAt(Decode, s, x)
    {
      if Decode(s).Some? {
        DecodeLocal(s, x);
      }
    }
  }

  /** A trailer, whatever its other header fields are. */
  predicate IsTrailer(t: Entry) {
    t.name == TRAILER_NAME && t.data == [] && Encodable(t)
  }

  lemma TrailerCloses(t: Entry)
    requires IsTrailer(t)
    ensures Closes(Decode, Encode(t))
  {
    var s := Encode(t);
    EntryRoundTrip(t, []);
    assert s + [] == s;
    assert s[|s|..] == [];
  }

  /** The trailer as it is written: no inode, no mode, one link. */
  function Trailer(): Entry {
    Entry([0, 0, 0, 0, 1, 0, 0, 0, 0, 0, 0, 11, 0], TRAILER_NAME, [])
  }

  lemma TrailerIsOne()
    ensures IsTrailer(Trailer())
  {
  }

  /** The trailer that is written closes an archive. */
  lemma WrittenTrailerCloses()
    ensures Closes(Decode, Encode(Trailer()))
  {
    TrailerIsOne();
    TrailerCloses(Trailer());
  }

  // ---------------------------------------------------------------------
  // Emitting
  // ---------------------------------------------------------------------

  predicate Emittable(e: Entry) {
    Encodable(e) && e.name != TRAILER_NAME
  }

  /** An encoded entry, before any other bytes, reads back as that entry. */
  lemma EncodedIsBody(e: Entry)
    requires Emittable(e)
    ensures IsBody(Decode, Encode(e), [e])
  {
    forall x: seq<byte>
      ensures ReadsBefore(Decode, Encode(e), [e], x)
    {
      EntryRoundTrip(e, x);
      DropFront(Encode(e), x);
    }
  }
}
