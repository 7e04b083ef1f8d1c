/** Inputs on which natural claims about the boot image fail: a base that keeps /init
    to itself, a base whose link leads a file to /init, and a file without a parent. */
module BootExamples {
  import opened Archive
  import opened BootImage
  import opened Common
  import Cpio
  import opened Emission
  import GuestPath
  import Initramfs
  import opened Overlay
  import Text

  const READABLE: nat := 0x1A4
  const LINK: seq<byte> := [122]
  const TARGET: seq<byte> := [47]

  function Closing(): seq<byte> {
    Cpio.Encode(Cpio.Trailer())
  }

  function ArchiveOf(entries: seq<Entry>): seq<byte> {
    Written(Cpio.Encode, entries) + Closing()
  }

  lemma ArchiveReads(entries: seq<Entry>)
    requires forall i :: 0 <= i < |entries| ==> Cpio.Emittable(entries[i])
    ensures Closes(Cpio.Decode, Closing())
    ensures Parse(Cpio.Decode, ArchiveOf(entries)).Some?
    ensures Parse(Cpio.Decode, ArchiveOf(entries)).value.entries == entries
  {
    Cpio.WrittenTrailerCloses();
    forall i | 0 <= i < |entries|
      ensures RoundTrips(Cpio.Decode, Cpio.Encode, entries[i])
    {
      Cpio.EncodedIsBody(entries[i]);
    }
    WrittenIsBody(Cpio.Decode, Cpio.Encode, entries);
    CloseBody(Cpio.Decode, Written(Cpio.Encode, entries), entries, Closing());
  }

  // ---------------------------------------------------------------------
  // /init is taken
  // ---------------------------------------------------------------------

  function TakenDir(): Entry {
    EntryOf(DirNode(GuestPath.INIT, INIT_MODE), 0)
  }

  function TakenFile(): Entry {
    EntryOf(FileNode(GuestPath.INIT + [GuestPath.SLASH, 120], READABLE, [], ""), 1)
  }

  /** A base with a directory /init and a file in it. */
  function TakenBase(): seq<byte> {
    ArchiveOf([TakenDir(), TakenFile()])
  }

  lemma TakenEntries()
    ensures Cpio.Emittable(TakenDir()) && Cpio.Emittable(TakenFile())
    ensures Initramfs.IsDir(TakenDir()) && !Initramfs.IsLink(TakenDir())
  {
    EntryIsEmittable(DirNode(GuestPath.INIT, INIT_MODE), 0);
    EntryIsEmittable(FileNode(GuestPath.INIT + [GuestPath.SLASH, 120], READABLE, [], ""), 1);
  }

  lemma TwoUnpack(resolve: Initramfs.Resolver, tree: Initramfs.Tree, a: Entry, b: Entry)
    ensures var t := Initramfs.Put(tree, Initramfs.PlaceOf(resolve, tree, a.name), a);
            Initramfs.Unpack(resolve, tree, [a, b]) == Initramfs.Put(t, Initramfs.PlaceOf(resolve, t, b.name), b)
  {
    var entries := [a, b];
    Initramfs.UnpackNext(resolve, tree, entries, 0);
    Initramfs.UnpackNext(resolve, tree, entries, 1);
    assert entries[..0] == [] && entries[..2] == entries;
  }

  lemma TakenUnpacks(resolve: Initramfs.Resolver)
    ensures InitIsTaken(Initramfs.Unpack(resolve, map[], [TakenDir(), TakenFile()]))
  {
    var dir, file := TakenDir(), TakenFile();
    TakenEntries();
    TwoUnpack(resolve, map[], dir, file);
    assert GuestPath.SLASH !in GuestPath.INIT;
    var one := Initramfs.Put(map[], dir.name, dir);
    assert one == map[dir.name := dir];
    assert GuestPath.LastSlash(file.name) == 4 && file.name[..4] == dir.name;
    assert GuestPath.Ancestor(dir.name, file.name);
    var two := Initramfs.Put(one, file.name, file);
    assert two[dir.name] == dir && file.name in two;
  }

  lemma TakenBaseReads(resolve: Initramfs.Resolver)
    ensures Closes(Cpio.Decode, Closing())
    ensures Parse(Cpio.Decode, TakenBase()).Some? && InitIsTaken(Tree(resolve, TakenBase()))
  {
    TakenEntries();
    ArchiveReads([TakenDir(), TakenFile()]);
    TakenUnpacks(resolve);
  }

  /** The claim that /init always wins fails on this base, with no entries at all. */
  lemma TakenInitExample(resolve: Initramfs.Resolver, bytes: seq<byte>)
    requires |bytes| < Cpio.U32_LIMIT
    ensures var image := Rebuild(Closing(), TakenBase(), Overlay([InitNode(bytes)], []));
            && image.Some? && Parse(Cpio.Decode, image.value).Some?
            && Initramfs.DirAt(Tree(resolve, image.value), GuestPath.INIT)
  {
    var o, nodes := Overlay([InitNode(bytes)], []), [InitNode(bytes)];
    TakenBaseReads(resolve);
    assert IsOverlayOf(o, nodes) && InitNode(bytes) in nodes;
    assert GuestPath.SLASH !in GuestPath.INIT;
    assert Unlinked(Tree(resolve, TakenBase()), nodes);
    InitPrevails(resolve, Closing(), TakenBase(), o, nodes, bytes);
  }

  // ---------------------------------------------------------------------
  // Two entries
  // ---------------------------------------------------------------------

  lemma TwoPartsAreCanonical(a: seq<byte>, b: seq<byte>)
    requires GuestPath.IsName(a) && GuestPath.IsName(b) && !GuestPath.IsDrive(a) && |a| + |b| < 100
    requires forall x :: x in a || x in b ==> x != 0 && x != GuestPath.SLASH && x != GuestPath.BACKSLASH
    ensures GuestPath.Canonical(a + [GuestPath.SLASH] + b)
  {
    var path := a + [GuestPath.SLASH] + b;
    assert path[|a|] == GuestPath.SLASH;
    assert forall i :: 0 <= i < |a| ==> path[i] in a;
    assert path[..|a|] == a && path[|a| + 1..] == b;
    assert Text.Split(b, GuestPath.SLASH) == [b];
    assert Text.Split(path, GuestPath.SLASH) == [a] + [b];
  }

  function OneFile(path: seq<byte>, data: seq<byte>): seq<OverlayEntry> {
    [OverlayEntry(path, File(data, READABLE, ""))]
  }

  function FileAt(path: seq<byte>, data: seq<byte>): Node {
    FileNode(path, READABLE, data, "")
  }

  /** One file under a canonical path that is not reserved is accepted, and joined by /init. */
  lemma OneFileIsAccepted(path: seq<byte>, data: seq<byte>, bytes: seq<byte>)
    requires GuestPath.Canonical(path) && !GuestPath.IsReserved(path)
    ensures TreeShaped(GuestPath.Denoted, OneFile(path, data))
    ensures Nodes(GuestPath.Denoted, OneFile(path, data)) + [InitNode(bytes)] == [FileAt(path, data), InitNode(bytes)]
    ensures IsTree([FileAt(path, data), InitNode(bytes)])
  {
    GuestPath.CanonicalDenotesItself(path);
    InitFits(GuestPath.Denoted, OneFile(path, data), bytes);
  }

  // ---------------------------------------------------------------------
  // A file without a parent
  // ---------------------------------------------------------------------

  const ORPHAN: seq<byte> := [97, 47, 98]

  lemma OrphanIsAccepted(data: seq<byte>, bytes: seq<byte>)
    ensures TreeShaped(GuestPath.Denoted, OneFile(ORPHAN, data))
    ensures var nodes := Nodes(GuestPath.Denoted, OneFile(ORPHAN, data)) + [InitNode(bytes)];
            && nodes == [FileAt(ORPHAN, data), InitNode(bytes)] && IsTree(nodes) && AllNameable(nodes)
            && IsOverlayOf(Overlay(nodes, []), nodes)
  {
    TwoPartsAreCanonical([97], [98]);
    assert [97] + [GuestPath.SLASH] + [98] == ORPHAN;
    OneFileIsAccepted(ORPHAN, data, bytes);
  }

  /** A file whose parent is neither in the base nor in the overlay is dropped: a/b on
      an empty base. */
  lemma OrphanExample(resolve: Initramfs.Resolver, data: seq<byte>, bytes: seq<byte>)
    requires |data| < Cpio.U32_LIMIT && |bytes| < Cpio.U32_LIMIT
    ensures TreeShaped(GuestPath.Denoted, OneFile(ORPHAN, data))
    ensures var o := Overlay([FileAt(ORPHAN, data), InitNode(bytes)], []);
            var image := Rebuild(Closing(), ArchiveOf([]), o);
            && IsOverlayOf(o, Nodes(GuestPath.Denoted, OneFile(ORPHAN, data)) + [InitNode(bytes)])
            && image.Some? && Parse(Cpio.Decode, image.value).Some? && ORPHAN !in Tree(resolve, image.value)
  {
    var nodes := [FileAt(ORPHAN, data), InitNode(bytes)];
    var o := Overlay(nodes, []);
    OrphanIsAccepted(data, bytes);
    ArchiveReads([]);
    NodesPrevail(resolve, Closing(), ArchiveOf([]), o, nodes);
    var tree := Tree(resolve, Rebuild(Closing(), ArchiveOf([]), o).value);
    Initramfs.TreeIsWellFormed(resolve, Cpio.Decode, Rebuild(Closing(), ArchiveOf([]), o).value);
    assert NoNodeAt(nodes, [97]) && [97] !in tree;
    assert GuestPath.LastSlash(ORPHAN) == 1 && ORPHAN[..1] == [97];
  }

  // ---------------------------------------------------------------------
  // A link that leads to /init
  // ---------------------------------------------------------------------

  const LED: seq<byte> := [122, 47, 105, 110, 105, 116]

  /** The symbolic link z, to the root. */
  function LinkEntry(): Entry {
    Entry([1, 0xA1FF, 0, 0, 1, 0, 1, 0, 0, 0, 0, 2, 0], LINK, TARGET)
  }

  lemma LinkIsOne()
    ensures Cpio.Emittable(LinkEntry()) && Initramfs.IsLink(LinkEntry())
  {
  }

  /** The resolver follows the link z to the root. */
  ghost predicate Follows(resolve: Initramfs.Resolver) {
    forall tree: Initramfs.Tree :: LINK in tree && tree[LINK] == LinkEntry() ==> resolve(tree, LED) == GuestPath.INIT
  }

  lemma LedIsAccepted(data: seq<byte>, bytes: seq<byte>)
    ensures TreeShaped(GuestPath.Denoted, OneFile(LED, data))
    ensures var nodes := Nodes(GuestPath.Denoted, OneFile(LED, data)) + [InitNode(bytes)];
            && nodes == [FileAt(LED, data), InitNode(bytes)] && IsTree(nodes) && AllNameable(nodes)
            && IsOverlayOf(Overlay([InitNode(bytes), FileAt(LED, data)], []), nodes)
  {
    TwoPartsAreCanonical(LINK, GuestPath.INIT);
    assert LINK + [GuestPath.SLASH] + GuestPath.INIT == LED;
    OneFileIsAccepted(LED, data, bytes);
  }

  lemma LedUnpacks(resolve: Initramfs.Resolver, init: Entry, led: Entry)
    requires Follows(resolve) && init.name == GuestPath.INIT && led.name == LED && !Initramfs.IsDir(init)
    ensures var tree := Initramfs.Unpack(resolve, map[LINK := LinkEntry()], [init, led]);
            GuestPath.INIT in tree && tree[GuestPath.INIT] == led
  {
    var base: Initramfs.Tree := map[LINK := LinkEntry()];
    LinkIsOne();
    TwoUnpack(resolve, base, init, led);
    assert GuestPath.SLASH !in GuestPath.INIT;
    var one := Initramfs.Put(base, GuestPath.INIT, init);
    assert one[LINK] == LinkEntry() && GuestPath.Ancestor(LINK, LED);
    assert Initramfs.LinkAbove(one, LED);
  }

  lemma LinkBaseReads(resolve: Initramfs.Resolver)
    ensures Closes(Cpio.Decode, Closing())
    ensures Parse(Cpio.Decode, ArchiveOf([LinkEntry()])).Some?
    ensures Tree(resolve, ArchiveOf([LinkEntry()])) == map[LINK := LinkEntry()]
  {
    LinkIsOne();
    ArchiveReads([LinkEntry()]);
    assert [LinkEntry()][..0] == [];
    assert GuestPath.SLASH !in LINK;
  }

  /** With a link in the base the caller's own file is /init: the overlay holds z/init,
      z leads to the root, and z/init comes after /init. */
  lemma LedInitExample(resolve: Initramfs.Resolver, data: seq<byte>, bytes: seq<byte>)
    requires Follows(resolve) && |data| < Cpio.U32_LIMIT && |bytes| < Cpio.U32_LIMIT
    ensures TreeShaped(GuestPath.Denoted, OneFile(LED, data))
    ensures var o := Overlay([InitNode(bytes), FileAt(LED, data)], []);
            var image := Rebuild(Closing(), ArchiveOf([LinkEntry()]), o);
            && IsOverlayOf(o, Nodes(GuestPath.Denoted, OneFile(LED, data)) + [InitNode(bytes)])
            && image.Some? && Parse(Cpio.Decode, image.value).Some?
            && GuestPath.INIT in Tree(resolve, image.value) && Tree(resolve, image.value)[GuestPath.INIT].data == data
  {
    var o := Overlay([InitNode(bytes), FileAt(LED, data)], []);
    LedIsAccepted(data, bytes);
    LinkBaseReads(resolve);
    ImageMeaning(resolve, Closing(), ArchiveOf([LinkEntry()]), o, [FileAt(LED, data), InitNode(bytes)]);
    var init, led := EntryOf(InitNode(bytes), 0), EntryOf(FileAt(LED, data), 1);
    assert OverlayEntries(o) == [init, led];
    EntriesMirrorNodes();
    LedUnpacks(resolve, init, led);
  }
}
