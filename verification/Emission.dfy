/** Emitting a validated overlay as an archive, directories before files. */
module Emission {
  import opened Archive
  import opened Common
  import opened Cpio
  import opened Overlay

  const INODE_BASE: nat := 0x8000_0000
  const DIR_BITS: nat := 0x4000
  const FILE_BITS: nat := 0x8000

  function Inode(k: nat): nat {
    (INODE_BASE + k) % U32_LIMIT
  }

  /** The type bits and the nine permission bits. */
  function Mode(n: Node): (m: nat)
    ensures m < U32_LIMIT
  {
    (if n.DirNode? then DIR_BITS else FILE_BITS) + n.mode % 512
  }

  function Content(n: Node): seq<byte> {
    if n.FileNode? then n.data else []
  }

  predicate Fits(n: Node) {
    |Content(n)| < U32_LIMIT
  }

  /** What a canonical, unreserved path is to the archive: a name it can hold. */
  predicate Nameable(n: Node) {
    |n.path| + 1 < U32_LIMIT && n.path != TRAILER_NAME
  }

  predicate AllNameable(nodes: seq<Node>) {
    forall i :: 0 <= i < |nodes| ==> Nameable(nodes[i])
  }

  predicate AllFit(nodes: seq<Node>) {
    forall i :: 0 <= i < |nodes| ==> Fits(nodes[i])
  }

  predicate Emits(nodes: seq<Node>) {
    AllNameable(nodes) && AllFit(nodes)
  }

  /** The archive entry of the k-th node. */
  function EntryOf(n: Node, k: nat): Entry {
    Entry([Inode(k), Mode(n), 0, 0, Links(n), 0, |Content(n)|, 0, 0, 0, 0, |n.path| + 1, 0], n.path, Content(n))
  }

  function Links(n: Node): nat {
    if n.DirNode? then 2 else 1
  }

  lemma EntryIsEmittable(n: Node, k: nat)
    requires Nameable(n) && Fits(n)
    ensures Emittable(EntryOf(n, k))
  {
  }

  /** How a node becomes an entry. */
  type Maker = (Node, nat) -> Entry

  function EntriesOf(make: Maker, nodes: seq<Node>): (entries: seq<Entry>)
    ensures |entries| == |nodes|
  {
    seq(|nodes|, i requires 0 <= i < |nodes| => make(nodes[i], i))
  }

  lemma EntriesAreWritable(nodes: seq<Node>)
    requires Emits(nodes)
    ensures forall i :: 0 <= i < |nodes| ==> RoundTrips(Decode, Encode, EntriesOf(EntryOf, nodes)[i])
  {
    forall i | 0 <= i < |nodes|
      ensures RoundTrips(Decode, Encode, EntriesOf(EntryOf, nodes)[i])
    {
      EntryIsEmittable(nodes[i], i);
      EncodedIsBody(EntryOf(nodes[i], i));
    }
  }

  /** Parsing what was emitted gives back the nodes, one entry each, in order. */
  lemma EmittedReadsBack(nodes: seq<Node>, closing: seq<byte>)
    requires Emits(nodes) && Closes(Decode, closing)
    ensures var entries := EntriesOf(EntryOf, nodes);
            Parse(Decode, Written(Encode, entries) + closing) == Some(Listing(entries, |Written(Encode, entries)|))
  {
    var entries := EntriesOf(EntryOf, nodes);
    EntriesAreWritable(nodes);
    WrittenIsBody(Decode, Encode, entries);
    CloseBody(Decode, Written(Encode, entries), entries, closing);
  }

  /** The bytes of the first k nodes. */
  function EmittedTo(make: Maker, write: Entry -> seq<byte>, nodes: seq<Node>, k: nat): seq<byte>
    requires k <= |nodes|
  {
    if k == 0 then [] else EmittedTo(make, write, nodes, k - 1) + write(make(nodes[k - 1], k - 1))
  }

  lemma {:induction false} EmittedIsWritten(make: Maker, write: Entry -> seq<byte>, nodes: seq<Node>, k: nat)
    requires k <= |nodes|
    ensures EmittedTo(make, write, nodes, k) == Written(write, EntriesOf(make, nodes)[..k])
  {
    if k > 0 {
      var entries := EntriesOf(make, nodes);
      assert entries[..k][..k - 1] == entries[..k - 1];
      EmittedIsWritten(make, write, nodes, k - 1);
    }
  }

  /** Directories first, so that a later file's parent already exists; then the files. */
  method OverlayToCpio(make: Maker, write: Entry -> seq<byte>, o: Overlay, closing: seq<byte>)
    returns (r: Option<seq<byte>>)
    ensures r.Some? <==> AllFit(o.files)
    ensures r.Some? ==> r.value == Written(write, EntriesOf(make, o.dirs + o.files)) + closing
  {
    var out, k := [], 0;
    ghost var all := o.dirs + o.files;
    for i := 0 to |o.dirs|
      invariant k == i && out == EmittedTo(make, write, all, k)
    {
      assert all[k] == o.dirs[i];
      out := out + write(make(o.dirs[i], k));
      k := k + 1;
    }
    for i := 0 to |o.files|
      invariant k == |o.dirs| + i && out == EmittedTo(make, write, all, k)
      invariant forall j :: 0 <= j < i ==> Fits(o.files[j])
    {
      if !Fits(o.files[i]) {
        return None;
      }
      assert all[k] == o.files[i];
      out := out + write(make(o.files[i], k));
      k := k + 1;
    }
    EmittedIsWritten(make, write, all, |all|);
    assert EntriesOf(make, all)[..|all|] == EntriesOf(make, all);
    return Some(out + closing);
  }

  // ---------------------------------------------------------------------
  // Meaning
  // ---------------------------------------------------------------------

  /** What the emitted entry of a node says: its path, its bytes, its type, the nine mode
      bits and nothing above them, and how many links point at it; everything else is zero. */
  lemma EntryTellsNode(n: Node, k: nat)
    ensures var e := EntryOf(n, k);
            && e.name == n.path && e.data == (if n.FileNode? then n.data else []) && |e.numbers| == FIELDS
            && e.numbers[MODE] / 0x1000 == (if n.DirNode? then 4 else 8)
            && e.numbers[MODE] % 0x1000 == n.mode % 512
            && e.numbers[FILE_SIZE] == |e.data| && e.numbers[NAME_SIZE] == |e.name| + 1
            && e.numbers[LINKS] == (if n.DirNode? then 2 else 1)
            && forall f :: 0 <= f < FIELDS && f !in {INO, MODE, LINKS, FILE_SIZE, NAME_SIZE} ==> e.numbers[f] == 0
  {
  }

  /** Two overlay entries share an inode only a whole 32-bit wrap-around apart. */
  lemma InodesAreApart(a: Node, i: nat, b: Node, j: nat)
    requires i <= j
    ensures EntryOf(a, i).numbers[INO] == EntryOf(b, j).numbers[INO] <==> (j - i) % U32_LIMIT == 0
  {
  }
}
