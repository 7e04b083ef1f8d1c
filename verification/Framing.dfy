/** Length-prefixed frames over a byte stream: a little-endian 32-bit length and the payload. */
module Framing {
  import opened Common

  datatype FrameError = FrameTooLarge | FrameAllocation | FrameTruncated

  datatype Result<+T> = Ok(value: T) | Err(error: FrameError)

  const MAX_COMMAND_FRAME: nat := 16 * 1024 * 1024
  const U32_MAX: nat := 0xFFFF_FFFF

  function ToLittleEndian(n: nat): (bytes: seq<byte>)
    requires n <= U32_MAX
    ensures |bytes| == 4
  {
    [n % 256, n / 256 % 256, n / 65536 % 256, n / 16777216]
  }

  function FromLittleEndian(bytes: seq<byte>): nat
    requires |bytes| == 4
  {
    var b0: int, b1: int, b2: int, b3: int := bytes[0], bytes[1], bytes[2], bytes[3];
    b0 + 256 * b1 + 65536 * b2 + 16777216 * b3
  }

  /** The weight of byte i of a number whose lowest byte comes first. */
  function Place(i: nat): (p: nat)
    ensures p > 0
  {
    if i == 0 then 1 else 256 * Place(i - 1)
  }

  lemma Places()
    ensures Place(0) == 1 && Place(1) == 256 && Place(2) == 65536 && Place(3) == 16777216
  {
    assert Place(1) == 256 * Place(0);
    assert Place(2) == 256 * Place(1);
    assert Place(3) == 256 * Place(2);
  }

  lemma LowestFirst(n: nat, i: nat)
    requires n <= U32_MAX && i < 4
    ensures ToLittleEndian(n)[i] == n / Place(i) % 256
  {
    Places();
  }

  lemma LittleEndianRoundTrip(n: nat)
    requires n <= U32_MAX
    ensures FromLittleEndian(ToLittleEndian(n)) == n
  {
    var a := n / 256;
    var b := a / 256;
    assert n / 65536 == b;
    assert n / 16777216 == b / 256;
    assert n == 256 * a + n % 256 && a == 256 * b + a % 256 && b == 256 * (b / 256) + b % 256;
  }

  // ---------------------------------------------------------------------
  // One frame
  // ---------------------------------------------------------------------

  function CheckedFrameLen(length: nat, maximum: nat): (r: Result<nat>)
    ensures r.Ok? <==> maximum <= MAX_COMMAND_FRAME && length <= maximum
    ensures r.Ok? ==> r.value == length <= U32_MAX
    ensures r.Err? ==> r.error == FrameTooLarge
  {
    if maximum > MAX_COMMAND_FRAME then Err(FrameTooLarge)
    else if length > maximum then Err(FrameTooLarge)
    else if length > U32_MAX then Err(FrameTooLarge)
    else Ok(length)
  }

  function Frame(data: seq<byte>): seq<byte>
    requires |data| <= U32_MAX
  {
    ToLittleEndian(|data|) + data
  }

  /** One read: the payload or the error, and what is left of the stream. A length
      beyond the bound is refused before anything is reserved for it. */
  function ReadOne(bytes: seq<byte>, maximum: nat, memory: nat): (r: (Result<seq<byte>>, seq<byte>))
    ensures |r.1| <= |bytes|
    ensures r.0.Ok? ==> |r.1| < |bytes|
  {
    if maximum > MAX_COMMAND_FRAME then (Err(FrameTooLarge), bytes)
    else if |bytes| < 4 then (Err(FrameTruncated), [])
    else
      var length := FromLittleEndian(bytes[..4]);
      if length > maximum then (Err(FrameTooLarge), bytes[4..])
      else if length > memory then (Err(FrameAllocation), bytes[4..])
      else if |bytes| < 4 + length then (Err(FrameTruncated), [])
      else (Ok(bytes[4..4 + length]), bytes[4 + length..])
  }

  /** A byte pipe: writes append at the end, reads consume from the front. */
  class Pipe {
    var bytes: seq<byte>

    constructor ()
      ensures bytes == []
    {
      bytes := [];
    }

    method WriteBytes(data: seq<byte>)
      modifies this
      ensures bytes == old(bytes) + data
    {
      bytes := bytes + data;
    }

    /** Fill a buffer completely or fail at the end of the stream. */
    method ReadExact(count: nat) returns (result: Result<seq<byte>>)
      modifies this
      ensures |old(bytes)| < count ==> result == Err(FrameTruncated) && bytes == []
      ensures |old(bytes)| >= count ==> result == Ok(old(bytes)[..count]) && bytes == old(bytes)[count..]
    {
      if |bytes| < count {
        bytes := [];
        return Err(FrameTruncated);
      }
      result := Ok(bytes[..count]);
      bytes := bytes[count..];
    }
  }

  /** Write one frame; a payload that is refused writes no byte. */
  method WriteFrame(io: Pipe, data: seq<byte>, maximum: nat) returns (result: Result<()>)
    modifies io
    ensures result.Ok? <==> maximum <= MAX_COMMAND_FRAME && |data| <= maximum
    ensures result.Ok? ==> io.bytes == old(io.bytes) + Frame(data)
    ensures result.Ok? ==>
              var written := io.bytes[|old(io.bytes)|..];
              && |written| == 4 + |data| && written[4..] == data
              && forall i :: 0 <= i < 4 ==> written[i] == |data| / Place(i) % 256
    ensures result.Err? ==> result.error == FrameTooLarge && io.bytes == old(io.bytes)
  {
    var length := CheckedFrameLen(|data|, maximum);
    if length.Err? {
      return Err(length.error);
    }
    io.WriteBytes(ToLittleEndian(length.value));
    io.WriteBytes(data);
    forall i: nat | i < 4
      ensures Frame(data)[i] == |data| / Place(i) % 256
    {
      LowestFirst(|data|, i);
    }
    return Ok(());
  }

  method ReadFrame(io: Pipe, maximum: nat, memory: nat) returns (result: Result<seq<byte>>)
    modifies io
    ensures (result, io.bytes) == ReadOne(old(io.bytes), maximum, memory)
  {
    if maximum > MAX_COMMAND_FRAME {
      return Err(FrameTooLarge);
    }
    var header := io.ReadExact(4);
    if header.Err? {
      return Err(header.error);
    }
    var length := FromLittleEndian(header.value);
    if length > maximum {
      return Err(FrameTooLarge);
    }
    if length > memory {
      return Err(FrameAllocation);
    }
    ghost var rest := io.bytes;
    result := io.ReadExact(length);
    assert |rest| >= length ==>
      rest[..length] == old(io.bytes)[4..4 + length] && rest[length..] == old(io.bytes)[4 + length..];
  }

  // ---------------------------------------------------------------------
  // Streams of frames
  // ---------------------------------------------------------------------

  predicate AllWithin(frames: seq<seq<byte>>, bound: nat) {
    forall i :: 0 <= i < |frames| ==> |frames[i]| <= bound
  }

  function Stream(frames: seq<seq<byte>>): seq<byte>
    requires AllWithin(frames, U32_MAX)
  {
    if |frames| == 0 then [] else Frame(frames[0]) + Stream(frames[1..])
  }

  /** Read until the first error: the frames read and the error. */
  function ReadAll(bytes: seq<byte>, maximum: nat, memory: nat): (seq<seq<byte>>, FrameError)
    decreases |bytes|
  {
    var (r, rest) := ReadOne(bytes, maximum, memory);
    match r
    case Err(error) => ([], error)
    case Ok(payload) =>
      var (more, error) := ReadAll(rest, maximum, memory);
      ([payload] + more, error)
  }

  /** How many leading frames lie completely within the first k bytes of the stream. */
  function WholeFrames(frames: seq<seq<byte>>, k: nat): (n: nat)
    requires AllWithin(frames, U32_MAX)
    ensures n <= |frames|
  {
    if |frames| == 0 || k < 4 + |frames[0]| then 0
    else 1 + WholeFrames(frames[1..], k - 4 - |frames[0]|)
  }

  lemma ReadCutInside(f: seq<byte>, tail: seq<byte>, k: nat, maximum: nat, memory: nat)
    requires |f| <= maximum <= MAX_COMMAND_FRAME && |f| <= memory && k < 4 + |f|
    ensures ReadAll((Frame(f) + tail)[..k], maximum, memory) == ([], FrameTruncated)
  {
    var cut := (Frame(f) + tail)[..k];
    if k >= 4 {
      assert cut[..4] == ToLittleEndian(|f|);
      LittleEndianRoundTrip(|f|);
    }
  }

  lemma ReadPastFirst(f: seq<byte>, tail: seq<byte>, maximum: nat, memory: nat)
    requires |f| <= maximum <= MAX_COMMAND_FRAME && |f| <= memory
    ensures ReadOne(Frame(f) + tail, maximum, memory) == (Ok(f), tail)
  {
    var s := Frame(f) + tail;
    assert s[..4] == ToLittleEndian(|f|);
    LittleEndianRoundTrip(|f|);
    assert s[4..4 + |f|] == f && s[4 + |f|..] == tail;
  }

  /** A stream cut anywhere gives the whole frames before the cut and then
      FrameTruncated. A cut on a frame boundary, the end of the stream included,
      reads the same way: the reader cannot tell it from a cut inside a frame. */
  lemma {:induction false} CutStream(frames: seq<seq<byte>>, k: nat, maximum: nat, memory: nat)
    requires maximum <= MAX_COMMAND_FRAME && AllWithin(frames, maximum) && AllWithin(frames, memory)
    requires k <= |Stream(frames)|
    ensures ReadAll(Stream(frames)[..k], maximum, memory) == (frames[..WholeFrames(frames, k)], FrameTruncated)
    decreases |frames|
  {
    if |frames| == 0 {
      assert Stream(frames)[..k] == [];
    } else {
      var f, rest := frames[0], frames[1..];
      var tail := Stream(rest);
      if k < 4 + |f| {
        ReadCutInside(f, tail, k, maximum, memory);
      } else {
        var k' := k - 4 - |f|;
        assert Stream(frames)[..k] == Frame(f) + tail[..k'];
        ReadPastFirst(f, tail[..k'], maximum, memory);
        CutStream(rest, k', maximum, memory);
        assert frames[..WholeFrames(frames, k)] == [f] + rest[..WholeFrames(rest, k')];
      }
    }
  }

  lemma {:induction false} AllWhole(frames: seq<seq<byte>>)
    requires AllWithin(frames, U32_MAX)
    ensures WholeFrames(frames, |Stream(frames)|) == |frames|
    decreases |frames|
  {
    if |frames| > 0 {
      AllWhole(frames[1..]);
    }
  }

  /** Reading back any sequence of accepted frames gives the same sequence. */
  lemma StreamRoundTrip(frames: seq<seq<byte>>, maximum: nat, memory: nat)
    requires maximum <= MAX_COMMAND_FRAME && AllWithin(frames, maximum) && AllWithin(frames, memory)
    ensures ReadAll(Stream(frames), maximum, memory) == (frames, FrameTruncated)
  {
    var s := Stream(frames);
    CutStream(frames, |s|, maximum, memory);
    AllWhole(frames);
    assert s[..|s|] == s && frames[..|frames|] == frames;
  }

  /** A reader with a smaller bound gets the frames before the first one beyond it, then FrameTooLarge. */
  lemma {:induction false} SmallerReader(frames: seq<seq<byte>>, big: nat, maximum: nat, memory: nat)
    requires maximum <= MAX_COMMAND_FRAME && big < |frames| && AllWithin(frames, U32_MAX)
    requires |frames[big]| > maximum && AllWithin(frames[..big], maximum) && AllWithin(frames[..big], memory)
    ensures ReadAll(Stream(frames), maximum, memory) == (frames[..big], FrameTooLarge)
    decreases big
  {
    var f, tail := frames[0], Stream(frames[1..]);
    var s := Frame(f) + tail;
    if big == 0 {
      assert s[..4] == ToLittleEndian(|f|);
      LittleEndianRoundTrip(|f|);
    } else {
      assert frames[..big][0] == f;
      assert frames[1..][..big - 1] == frames[..big][1..];
      ReadPastFirst(f, tail, maximum, memory);
      SmallerReader(frames[1..], big - 1, maximum, memory);
      assert frames[..big] == [f] + frames[1..][..big - 1];
    }
  }
}
