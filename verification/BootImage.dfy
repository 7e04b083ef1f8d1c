/** The boot image as a whole: what assembling entries onto a base archive means
    for the guest's file tree. */
module BootImage {
  import opened Archive
  import Assembly
  import opened Common
  import Cpio
  import opened Emission
  import GuestPath
  import Initramfs
  import opened Overlay
  import Publish
  import Writers

  /** The image of a base archive and an overlay. */
  function Rebuild(closing: seq<byte>, base: seq<byte>, o: Overlay): Option<seq<byte>> {
    if !AllFit(o.files) then None
    else MergedBytes(Cpio.Decode, base, Written(Cpio.Encode, EntriesOf(EntryOf, o.dirs + o.files)) + closing, closing)
  }

  function Rebuilder(closing: seq<byte>): Assembly.Builder {
    (base, o) => Rebuild(closing, base, o)
  }

  /** Emit the overlay and merge it onto the base. */
  method BuildRootfs(closing: seq<byte>, base: seq<byte>, o: Overlay) returns (image: Option<seq<byte>>)
    ensures image == Rebuild(closing, base, o)
  {
    var overlay := OverlayToCpio(EntryOf, Cpio.Encode, o, closing);
    if overlay.None? {
      return None;
    }
    image := MergeRootfs(Cpio.Decode, base, overlay.value, closing);
  }

  // ---------------------------------------------------------------------
  // What the image holds
  // ---------------------------------------------------------------------

  lemma OverlayEmits(o: Overlay, nodes: seq<Node>)
    requires IsOverlayOf(o, nodes) && AllNameable(nodes) && AllFit(o.files)
    ensures Emits(o.dirs + o.files)
  {
    forall i | 0 <= i < |o.dirs + o.files|
      ensures Nameable((o.dirs + o.files)[i]) && Fits((o.dirs + o.files)[i])
    {
      InNodes(o, nodes, (o.dirs + o.files)[i]);
      assert i < |o.dirs| ==> o.dirs[i] in o.dirs;
    }
  }

  /** The tree an archive unpacks to. */
  ghost function Tree(resolve: Initramfs.Resolver, archive: seq<byte>): Initramfs.Tree
    requires Parse(Cpio.Decode, archive).Some?
  {
    Initramfs.TreeOf(resolve, Cpio.Decode, archive)
  }

  function OverlayEntries(o: Overlay): seq<Entry> {
    EntriesOf(EntryOf, o.dirs + o.files)
  }

  /** The image is a complete archive exactly when the base is one and every file
      fits; it unpacks to the base's tree with the overlay unpacked onto it. */
  lemma ImageMeaning(resolve: Initramfs.Resolver, closing: seq<byte>, base: seq<byte>, o: Overlay, nodes: seq<Node>)
    requires Closes(Cpio.Decode, closing) && IsOverlayOf(o, nodes) && AllNameable(nodes)
    ensures var image := Rebuild(closing, base, o);
            && (image.Some? <==> Parse(Cpio.Decode, base).Some? && AllFit(o.files))
            && (image.Some? ==>
                  && Parse(Cpio.Decode, image.value).Some?
                  && Tree(resolve, image.value)
                     == Initramfs.Unpack(resolve, Tree(resolve, base), OverlayEntries(o)))
  {
    if AllFit(o.files) {
      OverlayEmits(o, nodes);
      Cpio.DecodeIsLocal();
      EmittedReadsBack(o.dirs + o.files, closing);
      Initramfs.MergeMeaning(resolve, Cpio.Decode, base, Written(Cpio.Encode, OverlayEntries(o)) + closing, closing);
    }
  }

  // ---------------------------------------------------------------------
  // Which nodes stand
  // ---------------------------------------------------------------------

  /** Entries made of nodes carry their paths and kinds. */
  ghost predicate Mirrors(make: Maker) {
    forall n: Node, k: nat :: make(n, k).name == n.path && (Initramfs.IsDir(make(n, k)) <==> n.DirNode?)
  }

  lemma EntriesMirrorNodes()
    ensures Mirrors(EntryOf)
  {
  }

  lemma OverlayIsLayered(make: Maker, o: Overlay, nodes: seq<Node>)
    requires Mirrors(make) && IsOverlayOf(o, nodes) && IsTree(nodes)
    ensures Initramfs.Layered(EntriesOf(make, o.dirs + o.files))
  {
    var all := o.dirs + o.files;
    var entries := EntriesOf(make, all);
    OverlayIsDistinct(o, nodes);
    forall i, j | 0 <= i < |all| && 0 <= j < |all| && GuestPath.Ancestor(entries[i].name, entries[j].name)
      ensures i < j && Initramfs.IsDir(entries[i])
    {
      AncestorsComeFirst(o, nodes, i, j);
    }
  }

  predicate HasDirNode(nodes: seq<Node>, path: seq<byte>) {
    exists n :: n in nodes && n.DirNode? && n.path == path
  }

  /** What it takes for a node to stand on a tree: each of its ancestors is a directory
      there or among the nodes, and no directory that is not empty is in its way. */
  ghost predicate NodeFits(tree: Initramfs.Tree, nodes: seq<Node>, n: Node) {
    && (forall a :: GuestPath.Ancestor(a, n.path) ==> Initramfs.DirAt(tree, a) || HasDirNode(nodes, a))
    && !(n.FileNode? && Initramfs.DirAt(tree, n.path) && Initramfs.HoldsSomething(tree, n.path))
  }

  lemma SameDirs(make: Maker, o: Overlay, nodes: seq<Node>, path: seq<byte>)
    requires Mirrors(make) && IsOverlayOf(o, nodes)
    ensures Initramfs.HasDir(EntriesOf(make, o.dirs + o.files), path) <==> HasDirNode(nodes, path)
  {
    var all := o.dirs + o.files;
    var entries := EntriesOf(make, all);
    if i :| 0 <= i < |entries| && entries[i].name == path && Initramfs.IsDir(entries[i]) {
      InNodes(o, nodes, all[i]);
    }
    if n :| n in nodes && n.DirNode? && n.path == path {
      InNodes(o, nodes, n);
      var i :| 0 <= i < |all| && all[i] == n;
      assert entries[i].name == path;
    }
  }

  lemma SameFit(make: Maker, tree: Initramfs.Tree, o: Overlay, nodes: seq<Node>, i: nat)
    requires Mirrors(make) && IsOverlayOf(o, nodes) && i < |o.dirs + o.files|
    ensures Initramfs.Fits(tree, EntriesOf(make, o.dirs + o.files), make((o.dirs + o.files)[i], i))
            <==> NodeFits(tree, nodes, (o.dirs + o.files)[i])
  {
    forall a: seq<byte>
      ensures Initramfs.HasDir(EntriesOf(make, o.dirs + o.files), a) <==> HasDirNode(nodes, a)
    {
      SameDirs(make, o, nodes, a);
    }
  }

  /** The tree has no symbolic link above a node, but where the overlay puts a directory instead. */
  ghost predicate Unlinked(tree: Initramfs.Tree, nodes: seq<Node>) {
    forall n, a :: n in nodes && GuestPath.Ancestor(a, n.path) && Initramfs.LinkAt(tree, a) ==> HasDirNode(nodes, a)
  }

  lemma UnlinkedIsLinkFree(make: Maker, tree: Initramfs.Tree, o: Overlay, nodes: seq<Node>)
    requires Mirrors(make) && IsOverlayOf(o, nodes) && Unlinked(tree, nodes)
    ensures Initramfs.LinkFree(tree, EntriesOf(make, o.dirs + o.files))
  {
    var all := o.dirs + o.files;
    var entries := EntriesOf(make, all);
    forall i, a | 0 <= i < |entries| && GuestPath.Ancestor(a, entries[i].name) && Initramfs.LinkAt(tree, a)
      ensures Initramfs.HasDir(entries, a)
    {
      InNodes(o, nodes, all[i]);
      SameDirs(make, o, nodes, a);
    }
  }

  lemma NodesStandExactly(resolve: Initramfs.Resolver, make: Maker, tree: Initramfs.Tree, o: Overlay, nodes: seq<Node>)
    requires Mirrors(make) && IsOverlayOf(o, nodes) && IsTree(nodes)
    requires Initramfs.WellFormed(tree) && Unlinked(tree, nodes)
    ensures var all := o.dirs + o.files;
            var t := Initramfs.Unpack(resolve, tree, EntriesOf(make, all));
            && (forall i :: 0 <= i < |all| ==>
                  (Initramfs.Stands(t, make(all[i], i)) <==> NodeFits(tree, nodes, all[i])))
            && (forall p :: NoNodeAt(nodes, p) ==> Initramfs.Same(t, tree, p))
  {
    var all := o.dirs + o.files;
    var entries := EntriesOf(make, all);
    OverlayIsLayered(make, o, nodes);
    UnlinkedIsLinkFree(make, tree, o, nodes);
    Initramfs.StandsExactly(resolve, tree, entries);
    forall i | 0 <= i < |all|
      ensures Initramfs.Stands(Initramfs.Unpack(resolve, tree, entries), make(all[i], i))
              <==> NodeFits(tree, nodes, all[i])
    {
      SameFit(make, tree, o, nodes, i);
      assert entries[i] == make(all[i], i);
    }
    forall p | NoNodeAt(nodes, p)
      ensures Initramfs.Unnamed(entries, p)
    {
      forall i | 0 <= i < |entries|
        ensures entries[i].name != p
      {
        InNodes(o, nodes, all[i]);
      }
    }
  }

  predicate NoNodeAt(nodes: seq<Node>, path: seq<byte>) {
    forall n :: n in nodes ==> n.path != path
  }

  /** In the tree the image unpacks to, if the base has no links above the nodes, a node
      stands under its own path exactly if its ancestors are directories of the base or
      the overlay and the base has no directory with something in it there; every other
      path is as in the base. */
  lemma NodesPrevail(resolve: Initramfs.Resolver, closing: seq<byte>, base: seq<byte>, o: Overlay, nodes: seq<Node>)
    requires Closes(Cpio.Decode, closing) && IsOverlayOf(o, nodes) && IsTree(nodes) && AllNameable(nodes)
    requires Parse(Cpio.Decode, base).Some? && AllFit(o.files)
    ensures Rebuild(closing, base, o).Some? && Parse(Cpio.Decode, Rebuild(closing, base, o).value).Some?
    ensures var all, was, tree := o.dirs + o.files, Tree(resolve, base), Tree(resolve, Rebuild(closing, base, o).value);
            Unlinked(was, nodes) ==>
              && (forall i :: 0 <= i < |all| ==>
                    (Initramfs.Stands(tree, EntryOf(all[i], i)) <==> NodeFits(was, nodes, all[i])))
              && (forall p :: NoNodeAt(nodes, p) ==> Initramfs.Same(tree, was, p))
  {
    ImageMeaning(resolve, closing, base, o, nodes);
    Initramfs.TreeIsWellFormed(resolve, Cpio.Decode, base);
    EntriesMirrorNodes();
    if Unlinked(Tree(resolve, base), nodes) {
      NodesStandExactly(resolve, EntryOf, Tree(resolve, base), o, nodes);
    }
  }

  // ---------------------------------------------------------------------
  // The pid-1 stage
  // ---------------------------------------------------------------------

  /** The base has a directory at /init with something in it. */
  predicate InitIsTaken(tree: Initramfs.Tree) {
    Initramfs.DirAt(tree, GuestPath.INIT) && Initramfs.HoldsSomething(tree, GuestPath.INIT)
  }

  lemma InitFitsUnlessTaken(tree: Initramfs.Tree, nodes: seq<Node>, bytes: seq<byte>)
    ensures NodeFits(tree, nodes, InitNode(bytes)) <==> !InitIsTaken(tree)
  {
  }

  /** Without links above its nodes, the pid-1 stage wins over whatever the base and the
      caller supply, except over a directory of the base at /init that is not empty,
      which stays. */
  lemma InitPrevails(resolve: Initramfs.Resolver, closing: seq<byte>, base: seq<byte>, o: Overlay, nodes: seq<Node>,
                     bytes: seq<byte>)
    requires Closes(Cpio.Decode, closing) && IsOverlayOf(o, nodes) && IsTree(nodes) && AllNameable(nodes)
    requires Parse(Cpio.Decode, base).Some? && AllFit(o.files) && InitNode(bytes) in nodes
    ensures Rebuild(closing, base, o).Some? && Parse(Cpio.Decode, Rebuild(closing, base, o).value).Some?
    ensures var was, tree := Tree(resolve, base), Tree(resolve, Rebuild(closing, base, o).value);
            Unlinked(was, nodes) ==>
              if InitIsTaken(was) then Initramfs.Same(tree, was, GuestPath.INIT)
              else GuestPath.INIT in tree && IsInit(tree[GuestPath.INIT], bytes)
  {
    NodesPrevail(resolve, closing, base, o, nodes);
    var was := Tree(resolve, base);
    var i := InitIndex(o, nodes, bytes);
    InitFitsUnlessTaken(was, nodes, bytes);
    InitEntry(bytes, i);
    if Unlinked(was, nodes) && InitIsTaken(was) {
      ImageMeaning(resolve, closing, base, o, nodes);
      EntriesMirrorNodes();
      OverlayIsLayered(EntryOf, o, nodes);
      UnlinkedIsLinkFree(EntryOf, was, o, nodes);
      Initramfs.BlockedStays(resolve, was, OverlayEntries(o), i);
    }
  }

  lemma InitIndex(o: Overlay, nodes: seq<Node>, bytes: seq<byte>) returns (i: nat)
    requires IsOverlayOf(o, nodes) && InitNode(bytes) in nodes
    ensures i < |o.dirs + o.files| && (o.dirs + o.files)[i] == InitNode(bytes)
    ensures OverlayEntries(o)[i] == EntryOf(InitNode(bytes), i)
  {
    InNodes(o, nodes, InitNode(bytes));
    i :| 0 <= i < |o.dirs + o.files| && (o.dirs + o.files)[i] == InitNode(bytes);
  }

  /** With whatever links, the entry of /init stands exactly if no directory that is not
      empty is there when its turn comes and no later entry is led to /init by a link. */
  lemma InitStandsExactly(resolve: Initramfs.Resolver, closing: seq<byte>, base: seq<byte>, o: Overlay,
                          nodes: seq<Node>, bytes: seq<byte>)
    returns (i: nat)
    requires Closes(Cpio.Decode, closing) && IsOverlayOf(o, nodes) && IsTree(nodes) && AllNameable(nodes)
    requires Parse(Cpio.Decode, base).Some? && AllFit(o.files) && InitNode(bytes) in nodes
    ensures Rebuild(closing, base, o).Some? && Parse(Cpio.Decode, Rebuild(closing, base, o).value).Some?
    ensures i < |o.dirs + o.files| && (o.dirs + o.files)[i] == InitNode(bytes)
    ensures var was, entries := Tree(resolve, base), OverlayEntries(o);
            Initramfs.Stands(Tree(resolve, Rebuild(closing, base, o).value), EntryOf(InitNode(bytes), i))
            <==> && !InitIsTaken(Initramfs.Unpack(resolve, was, entries[..i]))
                 && GuestPath.INIT !in Initramfs.Landings(resolve, was, entries)[i + 1..]
  {
    ImageMeaning(resolve, closing, base, o, nodes);
    i := InitIndex(o, nodes, bytes);
    EntriesMirrorNodes();
    OverlayIsLayered(EntryOf, o, nodes);
    Initramfs.TopLevelStandsExactly(resolve, Tree(resolve, base), OverlayEntries(o), i);
  }

  /** A regular file that may be executed, holding these bytes. */
  predicate IsInit(e: Entry, bytes: seq<byte>) {
    e.data == bytes && |e.numbers| == FIELDS && e.numbers[MODE] == FILE_BITS + INIT_MODE
  }

  lemma InitEntry(bytes: seq<byte>, k: nat)
    ensures EntryOf(InitNode(bytes), k).name == GuestPath.INIT && IsInit(EntryOf(InitNode(bytes), k), bytes)
  {
  }

  // ---------------------------------------------------------------------
  // The whole assembly
  // ---------------------------------------------------------------------

  lemma ParsedIsNameable(entries: seq<OverlayEntry>, bytes: seq<byte>)
    requires AllResolve(GuestPath.Denoted, entries)
    ensures AllNameable(Nodes(GuestPath.Denoted, entries) + [InitNode(bytes)])
  {
    var nodes := Nodes(GuestPath.Denoted, entries);
    forall i | 0 <= i < |nodes|
      ensures Nameable(nodes[i])
    {
      NodeOfMeans(GuestPath.Denoted, entries[i], nodes[i]);
      GuestPath.DenotedIsCanonical(entries[i].path);
    }
  }

  /** On success every path of the overlay, /init included, is a fixed point of parsing. */
  lemma PathsAreFixed(entries: seq<OverlayEntry>, bytes: seq<byte>, n: Node)
    requires AllResolve(GuestPath.Denoted, entries) && n in Nodes(GuestPath.Denoted, entries) + [InitNode(bytes)]
    ensures GuestPath.Canonical(n.path) && GuestPath.Denoted(n.path) == GuestPath.Path(n.path)
  {
    var nodes := Nodes(GuestPath.Denoted, entries);
    if n in nodes {
      var i :| 0 <= i < |nodes| && nodes[i] == n;
      NodeOfMeans(GuestPath.Denoted, entries[i], n);
      GuestPath.DenotedIsCanonical(entries[i].path);
    } else {
      GuestPath.InitIsCanonical();
    }
    GuestPath.CanonicalDenotesItself(n.path);
  }

  /** Equal keys are keys of the same base, files and directories, and so of the same image. */
  lemma EqualKeysEqualImages(closing: seq<byte>, base: seq<byte>, o: Overlay, base': seq<byte>, o': Overlay)
    requires Assembly.Split(o) && Assembly.Split(o') && Assembly.ManifestKey(base, o) == Assembly.ManifestKey(base', o')
    ensures base == base' && o == o' && Rebuild(closing, base, o) == Rebuild(closing, base', o')
  {
    Assembly.KeyTellsInputs(base, o);
    Assembly.KeyTellsInputs(base', o');
  }

  datatype Assembled = Rejected(refusal: Refusal) | Prepared(overlay: Overlay, preparation: Assembly.Preparation)

  /** Validate every entry before anything is touched, append /init, then serve the
      image from the cache or rebuild it. */
  method PrepareBootArtifacts(dir: Publish.CacheDirectory<Assembly.Name, Assembly.Content>, closing: seq<byte>,
                              base: seq<byte>, entries: seq<OverlayEntry>, init: seq<byte>, buffers: seq<nat>,
                              ios: (Publish.Io<Assembly.Content>, Publish.Io<Assembly.Content>),
                              faults: Assembly.Faults)
    returns (r: Assembled)
    requires dir.Valid() && Assembly.Offers(Rebuilder(closing), dir.offered)
    requires Assembly.Honest(Rebuilder(closing), dir.world.files)
    modifies dir
    ensures r.Rejected? <==> !TreeShaped(GuestPath.Denoted, entries)
    ensures r.Rejected? ==> unchanged(dir) && Explains(GuestPath.Denoted, entries, r.refusal)
    ensures r.Prepared? ==>
              var nodes := Nodes(GuestPath.Denoted, entries) + [InitNode(init)];
              IsTree(nodes) && IsOverlayOf(r.overlay, nodes) && AllNameable(nodes) && Assembly.Split(r.overlay)
    ensures dir.Valid() && old(dir.trace) <= dir.trace
    ensures r.Prepared? && !r.preparation.Failed? ==>
              && Served(dir.trace, |old(dir.trace)| - 1, closing, base, r.overlay)
              && StaysExact(dir.world.files, closing, base, r.overlay)
    ensures r.Prepared? && r.preparation.Failed? && old(dir.others) == [] ==>
              || faults.structure || faults.stored || Rebuild(closing, base, r.overlay).None?
              || !Assembly.BothFavour(ios)
  {
    var verdict := ValidateEntries(GuestPath.Denoted, entries);
    if verdict.Refused? {
      return Rejected(verdict.refusal);
    }
    ghost var nodes := Nodes(GuestPath.Denoted, entries);
    InitFits(GuestPath.Denoted, entries, init);
    ParsedIsNameable(entries, init);
    var overlay := AppendInit(verdict.overlay, nodes, init);
    PartsAreSplit(overlay, nodes + [InitNode(init)]);
    var preparation := Assembly.PrepareInner(dir, Rebuilder(closing), base, overlay, Cpio.Decode,
                                             buffers, ios, faults);
    if !preparation.Failed? {
      SettledIsExact(closing, base, overlay, dir.offered, dir.world.files);
    }
    return Prepared(overlay, preparation);
  }

  lemma PartsAreSplit(o: Overlay, nodes: seq<Node>)
    requires IsOverlayOf(o, nodes)
    ensures Assembly.Split(o)
  {
    assert forall i :: 0 <= i < |o.files| ==> o.files[i] in o.files;
    assert forall i :: 0 <= i < |o.dirs| ==> o.dirs[i] in o.dirs;
  }

  /** At some moment of the call the file served held exactly the image a rebuild gives. */
  ghost predicate Served(trace: seq<Writers.World<Assembly.Name, Assembly.Content>>, from: int, closing: seq<byte>,
                         base: seq<byte>, o: Overlay)
  {
    && Assembly.Split(o) && Rebuild(closing, base, o).Some?
    && Publish.Held(trace, from, Assembly.CpioFile(Assembly.ManifestKey(base, o)),
                    Assembly.Raw(Rebuild(closing, base, o).value))
  }

  /** The file served is absent or holds exactly that image. */
  ghost predicate StaysExact(files: map<Assembly.Name, Assembly.Content>, closing: seq<byte>, base: seq<byte>,
                             o: Overlay)
    requires Assembly.Split(o)
  {
    var name := Assembly.CpioFile(Assembly.ManifestKey(base, o));
    name in files ==> Rebuild(closing, base, o).Some? && files[name] == Assembly.Raw(Rebuild(closing, base, o).value)
  }

  lemma SettledIsExact(closing: seq<byte>, base: seq<byte>, o: Overlay,
                       offered: (Assembly.Name, Assembly.Content) -> bool,
                       files: map<Assembly.Name, Assembly.Content>)
    requires Assembly.Split(o) && Assembly.Offers(Rebuilder(closing), offered)
    requires Writers.Settled(offered, files, Assembly.CpioFile(Assembly.ManifestKey(base, o)))
    ensures StaysExact(files, closing, base, o)
  {
    var name := Assembly.CpioFile(Assembly.ManifestKey(base, o));
    Assembly.KeyTellsInputs(base, o);
    if name in files {
      assert Assembly.Offer(Rebuilder(closing), name, files[name]);
    }
  }

  /** And so it stays, whatever any number of assemblies do afterwards. */
  lemma ExactForever(closing: seq<byte>, base: seq<byte>, o: Overlay,
                     offered: (Assembly.Name, Assembly.Content) -> bool,
                     worlds: seq<Writers.World<Assembly.Name, Assembly.Content>>,
                     steps: seq<Writers.Step<Assembly.Name, Assembly.Content>>, i: nat, j: nat)
    requires Assembly.Split(o) && Assembly.Offers(Rebuilder(closing), offered)
    requires Writers.IsRun(offered, worlds, steps) && i <= j < |worlds|
    requires StaysExact(worlds[i].files, closing, base, o)
    ensures StaysExact(worlds[j].files, closing, base, o)
  {
    var name := Assembly.CpioFile(Assembly.ManifestKey(base, o));
    Writers.RunIsAllowed(offered, worlds, steps, i, j);
    if name in worlds[i].files {
      assert offered(name, worlds[i].files[name]) by {
        Assembly.KeyTellsInputs(base, o);
        assert Assembly.Offer(Rebuilder(closing), name, worlds[i].files[name]);
      }
    }
    Writers.SettledStays(offered, worlds[i].files, worlds[j].files, name);
    SettledIsExact(closing, base, o, offered, worlds[j].files);
  }
}
