/** Validation of overlay entries: canonical paths, duplicates, conflicts and
    file ancestors, and the sorted lists every later stage consumes. */
module Overlay {
  import opened Common
  import GuestPath

  // ---------------------------------------------------------------------
  // Byte order of paths
  // ---------------------------------------------------------------------

  predicate Below(a: seq<byte>, b: seq<byte>) {
    |b| > 0 && (|a| == 0 || a[0] < b[0] || (a[0] == b[0] && Below(a[1..], b[1..])))
  }

  lemma BelowIrreflexive(a: seq<byte>)
    ensures !Below(a, a)
  {
  }

  lemma {:induction false} BelowTransitive(a: seq<byte>, b: seq<byte>, c: seq<byte>)
    requires Below(a, b) && Below(b, c)
    ensures Below(a, c)
  {
    if |a| > 0 && a[0] == b[0] == c[0] {
      BelowTransitive(a[1..], b[1..], c[1..]);
    }
  }

  lemma {:induction false} BelowTotal(a: seq<byte>, b: seq<byte>)
    requires a != b
    ensures Below(a, b) || Below(b, a)
  {
    if |a| > 0 && |b| > 0 && a[0] == b[0] {
      assert a == [a[0]] + a[1..] && b == [b[0]] + b[1..];
      BelowTotal(a[1..], b[1..]);
    }
  }

  /** A path comes before everything beneath it. */
  lemma {:induction false} PrefixIsBelow(a: seq<byte>, b: seq<byte>)
    requires |a| < |b| && b[..|a|] == a
    ensures Below(a, b)
  {
    if |a| > 0 {
      assert b[..|a|][0] == a[0];
      assert b[1..][..|a| - 1] == b[..|a|][1..];
      PrefixIsBelow(a[1..], b[1..]);
    }
  }

  // ---------------------------------------------------------------------
  // Entries and nodes
  // ---------------------------------------------------------------------

  /** An entry as the caller supplies it. */
  datatype Kind = File(content: seq<byte>, mode: nat, origin: string) | Directory(dirMode: nat)
  datatype OverlayEntry = OverlayEntry(path: seq<byte>, kind: Kind)

  /** A validated file or directory, named by its canonical path. */
  datatype Node =
    | FileNode(path: seq<byte>, mode: nat, data: seq<byte>, origin: string)
    | DirNode(path: seq<byte>, mode: nat)

  datatype Overlay = Overlay(files: seq<Node>, dirs: seq<Node>)

  datatype Refusal =
    | InvalidGuestPath(reason: GuestPath.Fault)
    | ReservedOverlayPath(path: seq<byte>)
    | DuplicateOverlayPath(path: seq<byte>)
    | OverlayPathConflict(path: seq<byte>)

  datatype Verdict = Valid(overlay: Overlay) | Refused(refusal: Refusal)

  /** How raw paths are parsed. */
  type Parser = seq<byte> -> GuestPath.Outcome

  /** The node an entry stands for, if its path parses to an unreserved one. */
  function NodeOf(parse: Parser, e: OverlayEntry): Option<Node> {
    var parsed := parse(e.path);
    if parsed.Invalid? || GuestPath.IsReserved(parsed.path) then None
    else
      match e.kind
      case File(content, mode, origin) => Some(FileNode(parsed.path, mode, content, origin))
      case Directory(mode) => Some(DirNode(parsed.path, mode))
  }

  /** Two nodes that can stand in one tree. */
  predicate Compatible(a: Node, b: Node) {
    && a.path != b.path
    && !(a.FileNode? && GuestPath.Ancestor(a.path, b.path))
    && !(b.FileNode? && GuestPath.Ancestor(b.path, a.path))
  }

  predicate IsTree(nodes: seq<Node>) {
    forall i, j :: 0 <= i < j < |nodes| ==> Compatible(nodes[i], nodes[j])
  }

  predicate AllResolve(parse: Parser, entries: seq<OverlayEntry>) {
    forall i :: 0 <= i < |entries| ==> NodeOf(parse, entries[i]).Some?
  }

  function Nodes(parse: Parser, entries: seq<OverlayEntry>): seq<Node>
    requires AllResolve(parse, entries)
  {
    seq(|entries|, i requires 0 <= i < |entries| => NodeOf(parse, entries[i]).value)
  }

  /** The entries form a tree. */
  predicate TreeShaped(parse: Parser, entries: seq<OverlayEntry>) {
    AllResolve(parse, entries) && IsTree(Nodes(parse, entries))
  }

  // ---------------------------------------------------------------------
  // Sorting
  // ---------------------------------------------------------------------

  predicate Ascending(nodes: seq<Node>) {
    forall i, j :: 0 <= i < j < |nodes| ==> Below(nodes[i].path, nodes[j].path)
  }

  predicate DistinctPaths(nodes: seq<Node>) {
    forall i, j :: 0 <= i < j < |nodes| ==> nodes[i].path != nodes[j].path
  }

  function Insert(x: Node, nodes: seq<Node>): (r: seq<Node>)
    requires Ascending(nodes) && forall i :: 0 <= i < |nodes| ==> nodes[i].path != x.path
    ensures Ascending(r) && |r| == |nodes| + 1
    ensures forall n :: n in r <==> n == x || n in nodes
  {
    if |nodes| == 0 then [x]
    else if Below(x.path, nodes[0].path) then
      InsertFront(x, nodes);
      assert forall n :: n in [x] + nodes <==> n == x || n in nodes;
      [x] + nodes
    else
      BelowTotal(x.path, nodes[0].path);
      var rest := Insert(x, nodes[1..]);
      InsertFront(nodes[0], rest);
      assert nodes == [nodes[0]] + nodes[1..];
      assert forall n :: n in [nodes[0]] + rest <==> n == nodes[0] || n in rest;
      [nodes[0]] + rest
  }

  lemma InsertFront(x: Node, nodes: seq<Node>)
    requires Ascending(nodes) && (|nodes| > 0 ==> Below(x.path, nodes[0].path))
    ensures Ascending([x] + nodes)
  {
    forall j | 0 < j < |nodes|
      ensures Below(x.path, nodes[j].path)
    {
      BelowTransitive(x.path, nodes[0].path, nodes[j].path);
    }
  }

  function Sort(nodes: seq<Node>): (r: seq<Node>)
    requires DistinctPaths(nodes)
    ensures Ascending(r) && |r| == |nodes|
    ensures forall n :: n in r <==> n in nodes
  {
    if |nodes| == 0 then []
    else
      var init, last := nodes[..|nodes| - 1], nodes[|nodes| - 1];
      assert nodes == init + [last];
      var sorted := Sort(init);
      assert forall i :: 0 <= i < |sorted| ==> sorted[i] in init;
      Insert(last, sorted)
  }

  /** A strictly ascending list is determined by its members. */
  lemma {:induction false} AscendingUnique(a: seq<Node>, b: seq<Node>)
    requires Ascending(a) && Ascending(b) && forall n :: n in a <==> n in b
    ensures a == b
    decreases |a|
  {
    assert |b| > 0 ==> b[0] in b;
    if |a| > 0 {
      assert a[0] in a;
      SameLeast(a, b);
      SameRest(a, b);
      AscendingUnique(a[1..], b[1..]);
      assert a == [a[0]] + a[1..] && b == [b[0]] + b[1..];
    }
  }

  lemma SameLeast(a: seq<Node>, b: seq<Node>)
    requires Ascending(a) && Ascending(b) && |a| > 0 && |b| > 0 && a[0] in b && b[0] in a
    ensures a[0] == b[0]
  {
    if a[0] != b[0] {
      BelowTransitive(a[0].path, b[0].path, a[0].path);
      BelowIrreflexive(a[0].path);
    }
  }

  lemma SameRest(a: seq<Node>, b: seq<Node>)
    requires Ascending(a) && Ascending(b) && |a| > 0 && |b| > 0 && a[0] == b[0]
    requires forall n :: n in a <==> n in b
    ensures forall n :: n in a[1..] <==> n in b[1..]
  {
    RestMembers(a);
    RestMembers(b);
  }

  lemma RestMembers(a: seq<Node>)
    requires Ascending(a) && |a| > 0
    ensures forall n :: n in a[1..] <==> n in a && n != a[0]
  {
    assert a == [a[0]] + a[1..];
    forall i | 0 < i < |a|
      ensures a[i] != a[0]
    {
      BelowIrreflexive(a[0].path);
    }
  }

  // ---------------------------------------------------------------------
  // The registry
  // ---------------------------------------------------------------------

  datatype EntryKind = AsFile | AsDirectory

  type Registry = map<seq<byte>, EntryKind>

  function KindOf(n: Node): EntryKind {
    if n.FileNode? then AsFile else AsDirectory
  }

  /** The registry holds the kind of each node under its path, and nothing else. */
  ghost predicate Registered(registry: Registry, nodes: seq<Node>) {
    && DistinctPaths(nodes)
    && (forall i :: 0 <= i < |nodes| ==> nodes[i].path in registry && registry[nodes[i].path] == KindOf(nodes[i]))
    && (forall p :: p in registry ==> exists i :: 0 <= i < |nodes| && nodes[i].path == p)
  }

  lemma RegisterMore(registry: Registry, nodes: seq<Node>, x: Node)
    requires Registered(registry, nodes) && x.path !in registry
    ensures Registered(registry[x.path := KindOf(x)], nodes + [x])
  {
    var more := nodes + [x];
    assert more[|nodes|] == x;
    forall p | p in registry
      ensures exists i :: 0 <= i < |more| && more[i].path == p
    {
      var i :| 0 <= i < |nodes| && nodes[i].path == p;
      assert more[i] == nodes[i];
    }
  }

  method Register(registry: Registry, path: seq<byte>, kind: EntryKind)
    returns (updated: Registry, refusal: Option<Refusal>)
    ensures refusal == (if GuestPath.IsReserved(path) then Some(ReservedOverlayPath(path))
                        else if path !in registry then None
                        else if registry[path] == kind then Some(DuplicateOverlayPath(path))
                        else Some(OverlayPathConflict(path)))
    ensures refusal.None? ==> updated == registry[path := kind]
  {
    updated := registry;
    if GuestPath.IsReserved(path) {
      return updated, Some(ReservedOverlayPath(path));
    }
    updated := registry[path := kind];
    if path !in registry {
      return updated, None;
    } else if registry[path] == kind {
      return updated, Some(DuplicateOverlayPath(path));
    } else {
      return updated, Some(OverlayPathConflict(path));
    }
  }

  ghost predicate FileAbove(registry: Registry, path: seq<byte>, from: nat) {
    exists k :: from <= k < |path| && path[k] == GuestPath.SLASH
                && path[..k] in registry && registry[path[..k]] == AsFile
  }

  /** Walk from a path up to the root looking for a file. */
  method HasFileAncestor(registry: Registry, path: seq<byte>) returns (found: bool)
    ensures found <==> FileAbove(registry, path, 0)
  {
    var parent := path;
    while GuestPath.SLASH in parent
      invariant |parent| <= |path| && parent == path[..|parent|]
      invariant !FileAbove(registry, path, |parent|)
      decreases |parent|
    {
      var separator := GuestPath.LastSlash(parent);
      assert forall k :: separator < k < |parent| ==> path[k] == parent[separator + 1..][k - separator - 1];
      parent := parent[..separator];
      assert parent == path[..separator];
      if parent in registry && registry[parent] == AsFile {
        return true;
      }
    }
    assert forall k :: 0 <= k < |parent| ==> path[k] == parent[k];
    return false;
  }

  method CheckAncestors(registry: Registry) returns (refusal: Option<Refusal>)
    ensures refusal.None? <==> forall p :: p in registry ==> !FileAbove(registry, p, 0)
    ensures refusal.Some? ==>
              refusal.value.OverlayPathConflict? && refusal.value.path in registry
              && FileAbove(registry, refusal.value.path, 0)
  {
    var left := registry.Keys;
    while left != {}
      invariant left <= registry.Keys
      invariant forall p :: p in registry && p !in left ==> !FileAbove(registry, p, 0)
      decreases |left|
    {
      var path :| path in left;
      var found := HasFileAncestor(registry, path);
      if found {
        return Some(OverlayPathConflict(path));
      }
      left := left - {path};
    }
    return None;
  }

  lemma FileAboveMeans(registry: Registry, nodes: seq<Node>, path: seq<byte>)
    requires Registered(registry, nodes)
    ensures FileAbove(registry, path, 0)
            <==> exists i :: 0 <= i < |nodes| && nodes[i].FileNode? && GuestPath.Ancestor(nodes[i].path, path)
  {
    if FileAbove(registry, path, 0) {
      var k :| 0 <= k < |path| && path[k] == GuestPath.SLASH && path[..k] in registry && registry[path[..k]] == AsFile;
      var i :| 0 <= i < |nodes| && nodes[i].path == path[..k];
      assert GuestPath.Ancestor(nodes[i].path, path);
    }
    if i :| 0 <= i < |nodes| && nodes[i].FileNode? && GuestPath.Ancestor(nodes[i].path, path) {
      assert path[..|nodes[i].path|] in registry;
    }
  }

  /** A registry without file ancestors is a tree, and the other way round. */
  lemma AncestorsDecideTree(registry: Registry, nodes: seq<Node>)
    requires Registered(registry, nodes)
    ensures (forall p :: p in registry ==> !FileAbove(registry, p, 0)) <==> IsTree(nodes)
  {
    if forall p :: p in registry ==> !FileAbove(registry, p, 0) {
      forall i, j | 0 <= i < j < |nodes|
        ensures Compatible(nodes[i], nodes[j])
      {
        FileAboveMeans(registry, nodes, nodes[i].path);
        FileAboveMeans(registry, nodes, nodes[j].path);
      }
    }
    if IsTree(nodes) {
      forall p | p in registry
        ensures !FileAbove(registry, p, 0)
      {
        FileAboveMeans(registry, nodes, p);
        var j :| 0 <= j < |nodes| && nodes[j].path == p;
        assert forall i :: 0 <= i < |nodes| && i != j ==>
          Compatible(nodes[i], nodes[j]) || Compatible(nodes[j], nodes[i]);
      }
    }
  }

  // ---------------------------------------------------------------------
  // Validation
  // ---------------------------------------------------------------------

  /** The files and the directories of the nodes. */
  ghost predicate Parted(files: seq<Node>, dirs: seq<Node>, nodes: seq<Node>) {
    && (forall n :: n in files <==> n in nodes && n.FileNode?)
    && (forall n :: n in dirs <==> n in nodes && n.DirNode?)
  }

  lemma PartMore(files: seq<Node>, dirs: seq<Node>, nodes: seq<Node>, x: Node)
    requires Parted(files, dirs, nodes) && DistinctPaths(files) && DistinctPaths(dirs) && DistinctPaths(nodes + [x])
    ensures x.FileNode? ==> Parted(files + [x], dirs, nodes + [x]) && DistinctPaths(files + [x])
    ensures x.DirNode? ==> Parted(files, dirs + [x], nodes + [x]) && DistinctPaths(dirs + [x])
  {
    var more := nodes + [x];
    assert more[|nodes|] == x;
    forall n | n in nodes
      ensures n.path != x.path
    {
      var i :| 0 <= i < |nodes| && nodes[i] == n;
      assert more[i] == n;
    }
    assert forall i :: 0 <= i < |files| ==> files[i] in nodes;
    assert forall i :: 0 <= i < |dirs| ==> dirs[i] in nodes;
  }

  /** The two lists a valid overlay is split into: determined by the nodes alone. */
  ghost predicate IsOverlayOf(o: Overlay, nodes: seq<Node>) {
    Ascending(o.files) && Ascending(o.dirs) && Parted(o.files, o.dirs, nodes)
  }

  lemma SortedOverlay(files: seq<Node>, dirs: seq<Node>, nodes: seq<Node>)
    requires Parted(files, dirs, nodes) && DistinctPaths(files) && DistinctPaths(dirs)
    ensures IsOverlayOf(Overlay(Sort(files), Sort(dirs)), nodes)
  {
  }

  /** Why a list of entries was refused. */
  ghost predicate Explains(parse: Parser, entries: seq<OverlayEntry>, refusal: Refusal) {
    match refusal
    case InvalidGuestPath(reason) =>
      exists i :: 0 <= i < |entries| && parse(entries[i].path) == GuestPath.Invalid(reason)
    case ReservedOverlayPath(path) =>
      GuestPath.IsReserved(path) && exists i :: 0 <= i < |entries| && parse(entries[i].path) == GuestPath.Path(path)
    case DuplicateOverlayPath(path) =>
      exists i, j :: 0 <= i < j < |entries| && NodesAt(parse, entries, i, j, path)
                     && (entries[i].kind.File? <==> entries[j].kind.File?)
    case OverlayPathConflict(path) =>
      || (exists i, j :: 0 <= i < j < |entries| && NodesAt(parse, entries, i, j, path)
                         && !(entries[i].kind.File? <==> entries[j].kind.File?))
      || (exists i, j :: 0 <= i < |entries| && 0 <= j < |entries| && FileOver(parse, entries, i, j, path))
  }

  ghost predicate NodesAt(parse: Parser, entries: seq<OverlayEntry>, i: nat, j: nat, path: seq<byte>)
    requires i < |entries| && j < |entries|
  {
    parse(entries[i].path) == parse(entries[j].path) == GuestPath.Path(path)
  }

  ghost predicate FileOver(parse: Parser, entries: seq<OverlayEntry>, i: nat, j: nat, path: seq<byte>)
    requires i < |entries| && j < |entries|
  {
    && entries[i].kind.File? && parse(entries[i].path).Path? && parse(entries[j].path) == GuestPath.Path(path)
    && GuestPath.Ancestor(parse(entries[i].path).path, path)
  }

  lemma NodeOfMeans(parse: Parser, e: OverlayEntry, n: Node)
    requires NodeOf(parse, e) == Some(n)
    ensures parse(e.path) == GuestPath.Path(n.path) && (e.kind.File? <==> n.FileNode?) && !GuestPath.IsReserved(n.path)
  {
  }

  /** The state of registration after the first |nodes| entries. */
  ghost predicate Gathered(parse: Parser, entries: seq<OverlayEntry>, registry: Registry, files: seq<Node>,
                           dirs: seq<Node>, nodes: seq<Node>)
  {
    && |nodes| <= |entries| && (forall i :: 0 <= i < |nodes| ==> NodeOf(parse, entries[i]) == Some(nodes[i]))
    && Registered(registry, nodes)
    && Parted(files, dirs, nodes) && DistinctPaths(files) && DistinctPaths(dirs)
  }

  lemma GatherMore(parse: Parser, entries: seq<OverlayEntry>, registry: Registry, files: seq<Node>, dirs: seq<Node>,
                   nodes: seq<Node>, x: Node)
    requires Gathered(parse, entries, registry, files, dirs, nodes)
    requires |nodes| < |entries| && NodeOf(parse, entries[|nodes|]) == Some(x) && x.path !in registry
    ensures Gathered(parse, entries, registry[x.path := KindOf(x)], if x.FileNode? then files + [x] else files,
                     if x.DirNode? then dirs + [x] else dirs, nodes + [x])
  {
    RegisterMore(registry, nodes, x);
    PartMore(files, dirs, nodes, x);
  }

  /** Register every entry, in order, until one is refused. */
  method RegisterAll(parse: Parser, entries: seq<OverlayEntry>)
    returns (registry: Registry, files: seq<Node>, dirs: seq<Node>, refusal: Option<Refusal>)
    ensures refusal.None? ==>
              && AllResolve(parse, entries)
              && Gathered(parse, entries, registry, files, dirs, Nodes(parse, entries))
    ensures refusal.Some? ==> !TreeShaped(parse, entries) && Explains(parse, entries, refusal.value)
  {
    registry, files, dirs := map[], [], [];
    ghost var nodes: seq<Node> := [];
    for n := 0 to |entries|
      invariant |nodes| == n && Gathered(parse, entries, registry, files, dirs, nodes)
    {
      var parsed := parse(entries[n].path);
      if parsed.Invalid? {
        InvalidIsRight(parse, entries, n);
        return registry, files, dirs, Some(InvalidGuestPath(parsed.reason));
      }
      var x := match entries[n].kind
        case File(content, mode, origin) => FileNode(parsed.path, mode, content, origin)
        case Directory(mode) => DirNode(parsed.path, mode);
      var updated, refused := Register(registry, parsed.path, KindOf(x));
      if refused.Some? {
        RefusalIsRight(parse, entries, nodes, registry);
        return registry, files, dirs, refused;
      }
      GatherMore(parse, entries, registry, files, dirs, nodes, x);
      registry := updated;
      if x.FileNode? {
        files := files + [x];
      } else {
        dirs := dirs + [x];
      }
      nodes := nodes + [x];
    }
    assert nodes == Nodes(parse, entries);
    refusal := None;
  }

  /** Validate every path, detect duplicates and conflicts, and split the entries
      into sorted files and directories. */
  method ValidateEntries(parse: Parser, entries: seq<OverlayEntry>) returns (r: Verdict)
    ensures r.Valid? <==> TreeShaped(parse, entries)
    ensures r.Valid? ==> IsOverlayOf(r.overlay, Nodes(parse, entries))
    ensures r.Refused? ==> Explains(parse, entries, r.refusal)
  {
    var registry, files, dirs, refusal := RegisterAll(parse, entries);
    if refusal.Some? {
      return Refused(refusal.value);
    }
    ghost var nodes := Nodes(parse, entries);
    AncestorsDecideTree(registry, nodes);
    refusal := CheckAncestors(registry);
    if refusal.Some? {
      ConflictIsRight(parse, entries, registry, refusal.value.path);
      return Refused(refusal.value);
    }
    SortedOverlay(files, dirs, nodes);
    return Valid(Overlay(Sort(files), Sort(dirs)));
  }

  lemma InvalidIsRight(parse: Parser, entries: seq<OverlayEntry>, n: nat)
    requires n < |entries| && parse(entries[n].path).Invalid?
    ensures !TreeShaped(parse, entries) && Explains(parse, entries, InvalidGuestPath(parse(entries[n].path).reason))
  {
    assert NodeOf(parse, entries[n]).None?;
  }

  lemma PairExplains(parse: Parser, entries: seq<OverlayEntry>, i: nat, j: nat, path: seq<byte>)
    requires i < j < |entries| && NodesAt(parse, entries, i, j, path)
    ensures Explains(parse, entries, if entries[i].kind.File? <==> entries[j].kind.File? then DuplicateOverlayPath(path)
                                     else OverlayPathConflict(path))
  {
  }

  lemma FileExplains(parse: Parser, entries: seq<OverlayEntry>, i: nat, j: nat, path: seq<byte>)
    requires i < |entries| && j < |entries| && FileOver(parse, entries, i, j, path)
    ensures Explains(parse, entries, OverlayPathConflict(path))
  {
  }

  lemma SamePathIsNoTree(parse: Parser, entries: seq<OverlayEntry>, i: nat, j: nat, path: seq<byte>)
    requires i < j < |entries| && NodesAt(parse, entries, i, j, path)
    ensures !TreeShaped(parse, entries)
  {
    if AllResolve(parse, entries) {
      assert !Compatible(Nodes(parse, entries)[i], Nodes(parse, entries)[j]);
    }
  }

  /** A path refused at registration is refused for a reason no order can mend. */
  lemma RefusalIsRight(parse: Parser, entries: seq<OverlayEntry>, nodes: seq<Node>, registry: Registry)
    requires |nodes| < |entries| && Registered(registry, nodes) && parse(entries[|nodes|].path).Path?
    requires forall i :: 0 <= i < |nodes| ==> NodeOf(parse, entries[i]) == Some(nodes[i])
    requires var path := parse(entries[|nodes|].path).path; GuestPath.IsReserved(path) || path in registry
    ensures !TreeShaped(parse, entries)
    ensures var path := parse(entries[|nodes|].path).path;
            Explains(parse, entries,
                     if GuestPath.IsReserved(path) then ReservedOverlayPath(path)
                     else if registry[path] == (if entries[|nodes|].kind.File? then AsFile else AsDirectory)
                     then DuplicateOverlayPath(path) else OverlayPathConflict(path))
  {
    var n := |nodes|;
    var path := parse(entries[n].path).path;
    if GuestPath.IsReserved(path) {
      assert NodeOf(parse, entries[n]).None?;
    } else {
      var i :| 0 <= i < n && nodes[i].path == path;
      NodeOfMeans(parse, entries[i], nodes[i]);
      assert NodesAt(parse, entries, i, n, path);
      PairExplains(parse, entries, i, n, path);
      SamePathIsNoTree(parse, entries, i, n, path);
    }
  }

  lemma ConflictIsRight(parse: Parser, entries: seq<OverlayEntry>, registry: Registry, path: seq<byte>)
    requires AllResolve(parse, entries) && Registered(registry, Nodes(parse, entries))
    requires path in registry && FileAbove(registry, path, 0)
    ensures Explains(parse, entries, OverlayPathConflict(path))
  {
    var nodes := Nodes(parse, entries);
    FileAboveMeans(registry, nodes, path);
    var i :| 0 <= i < |nodes| && nodes[i].FileNode? && GuestPath.Ancestor(nodes[i].path, path);
    var j :| 0 <= j < |nodes| && nodes[j].path == path;
    NodeOfMeans(parse, entries[i], nodes[i]);
    NodeOfMeans(parse, entries[j], nodes[j]);
    FileExplains(parse, entries, i, j, path);
  }

  // ---------------------------------------------------------------------
  // Order does not matter
  // ---------------------------------------------------------------------

  lemma {:induction false} TwiceAt<T>(s: seq<T>, x: T) returns (i: nat, j: nat)
    requires multiset(s)[x] >= 2
    ensures i < j < |s| && s[i] == x && s[j] == x
    decreases |s|
  {
    var init, last := s[..|s| - 1], s[|s| - 1];
    assert s == init + [last];
    if last == x {
      assert multiset(init)[x] >= 1;
      i :| 0 <= i < |init| && init[i] == x;
      j := |s| - 1;
    } else {
      i, j := TwiceAt(init, x);
    }
  }

  lemma CountedTwice<T>(s: seq<T>, i: nat, j: nat)
    requires i < j < |s| && s[i] == s[j]
    ensures multiset(s)[s[i]] >= 2
  {
    assert s == s[..j] + [s[j]] + s[j + 1..];
    assert s[i] in s[..j];
    assert multiset(s[..j])[s[i]] >= 1;
  }

  lemma PermutedMembers<T>(a: seq<T>, b: seq<T>)
    requires multiset(a) == multiset(b)
    ensures forall x :: x in a <==> x in b
  {
    assert forall x :: x in a <==> x in multiset(a);
    assert forall x :: x in b <==> x in multiset(b);
  }

  lemma OnceInTree(parse: Parser, entries: seq<OverlayEntry>, e: OverlayEntry)
    requires TreeShaped(parse, entries)
    ensures multiset(entries)[e] <= 1
  {
    if multiset(entries)[e] >= 2 {
      var i, j := TwiceAt(entries, e);
      NodeOfMeans(parse, entries[i], Nodes(parse, entries)[i]);
      SamePathIsNoTree(parse, entries, i, j, Nodes(parse, entries)[i].path);
    }
  }

  lemma TreePair(parse: Parser, a: seq<OverlayEntry>, b: seq<OverlayEntry>, i: nat, j: nat)
    requires TreeShaped(parse, a) && AllResolve(parse, b) && multiset(a) == multiset(b) && i < j < |b|
    ensures Compatible(Nodes(parse, b)[i], Nodes(parse, b)[j])
  {
    PermutedMembers(a, b);
    if b[i] == b[j] {
      CountedTwice(b, i, j);
      OnceInTree(parse, a, b[i]);
    } else {
      assert b[i] in a && b[j] in a;
      var k :| 0 <= k < |a| && a[k] == b[i];
      var l :| 0 <= l < |a| && a[l] == b[j];
      assert Compatible(Nodes(parse, a)[if k < l then k else l], Nodes(parse, a)[if k < l then l else k]);
    }
  }

  lemma PermutedTree(parse: Parser, a: seq<OverlayEntry>, b: seq<OverlayEntry>)
    requires TreeShaped(parse, a) && multiset(a) == multiset(b)
    ensures TreeShaped(parse, b)
  {
    PermutedMembers(a, b);
    assert forall i :: 0 <= i < |b| ==> b[i] in a;
    forall i, j | 0 <= i < j < |b|
      ensures Compatible(Nodes(parse, b)[i], Nodes(parse, b)[j])
    {
      TreePair(parse, a, b, i, j);
    }
  }

  lemma NodeMembers(parse: Parser, a: seq<OverlayEntry>, b: seq<OverlayEntry>)
    requires AllResolve(parse, a) && AllResolve(parse, b) && forall e :: e in a ==> e in b
    ensures forall n :: n in Nodes(parse, a) ==> n in Nodes(parse, b)
  {
    forall n | n in Nodes(parse, a)
      ensures n in Nodes(parse, b)
    {
      var i :| 0 <= i < |a| && Nodes(parse, a)[i] == n;
      assert a[i] in b;
      var j :| 0 <= j < |b| && b[j] == a[i];
      assert Nodes(parse, b)[j] == n;
    }
  }

  /** The lists are determined by which nodes there are. */
  lemma OverlayUnique(a: Overlay, b: Overlay, m: seq<Node>, n: seq<Node>)
    requires IsOverlayOf(a, m) && IsOverlayOf(b, n) && forall x :: x in m <==> x in n
    ensures a == b
  {
    AscendingUnique(a.files, b.files);
    AscendingUnique(a.dirs, b.dirs);
  }

  /** Any order of the same entries is accepted or refused alike, and gives the same lists. */
  lemma OrderDoesNotMatter(parse: Parser, a: seq<OverlayEntry>, b: seq<OverlayEntry>)
    requires multiset(a) == multiset(b)
    ensures TreeShaped(parse, a) <==> TreeShaped(parse, b)
    ensures TreeShaped(parse, a) ==>
              forall x: Overlay, y: Overlay ::
                IsOverlayOf(x, Nodes(parse, a)) && IsOverlayOf(y, Nodes(parse, b)) ==> x == y
  {
    if TreeShaped(parse, a) {
      PermutedTree(parse, a, b);
      PermutedMembers(a, b);
      NodeMembers(parse, a, b);
      NodeMembers(parse, b, a);
      forall x: Overlay, y: Overlay | IsOverlayOf(x, Nodes(parse, a)) && IsOverlayOf(y, Nodes(parse, b))
        ensures x == y
      {
        OverlayUnique(x, y, Nodes(parse, a), Nodes(parse, b));
      }
    }
    if TreeShaped(parse, b) {
      PermutedTree(parse, b, a);
    }
  }

  lemma TreePairOf(nodes: seq<Node>, a: Node, b: Node)
    requires IsTree(nodes) && a in nodes && b in nodes && a != b
    ensures Compatible(a, b)
  {
    var i :| 0 <= i < |nodes| && nodes[i] == a;
    var j :| 0 <= j < |nodes| && nodes[j] == b;
    assert Compatible(nodes[if i < j then i else j], nodes[if i < j then j else i]);
  }

  lemma InNodes(o: Overlay, nodes: seq<Node>, n: Node)
    requires IsOverlayOf(o, nodes)
    ensures n in o.dirs + o.files <==> n in nodes
  {
  }

  /** Directories before files, each list in path order: every ancestor precedes its
      descendants, and what is an ancestor is a directory. */
  lemma AncestorsComeFirst(o: Overlay, nodes: seq<Node>, i: nat, j: nat)
    requires IsOverlayOf(o, nodes) && IsTree(nodes) && i < |o.dirs + o.files| && j < |o.dirs + o.files|
    requires GuestPath.Ancestor((o.dirs + o.files)[i].path, (o.dirs + o.files)[j].path)
    ensures i < j && (o.dirs + o.files)[i].DirNode?
  {
    var all := o.dirs + o.files;
    InNodes(o, nodes, all[i]);
    InNodes(o, nodes, all[j]);
    TreePairOf(nodes, all[i], all[j]);
    assert i < |o.dirs|;
    if j <= i {
      PrefixIsBelow(all[i].path, all[j].path);
      BelowTransitive(all[i].path, all[j].path, all[i].path);
      BelowIrreflexive(all[i].path);
    }
  }

  lemma OverlayIsDistinct(o: Overlay, nodes: seq<Node>)
    requires IsOverlayOf(o, nodes) && IsTree(nodes)
    ensures DistinctPaths(o.dirs + o.files)
  {
    AscendingIsDistinct(o.dirs);
    AscendingIsDistinct(o.files);
    forall i, j | 0 <= i < |o.dirs| && 0 <= j < |o.files|
      ensures o.dirs[i].path != o.files[j].path
    {
      assert o.dirs[i] in nodes && o.files[j] in nodes;
      TreePairOf(nodes, o.dirs[i], o.files[j]);
    }
  }

  // ---------------------------------------------------------------------
  // The pid-1 stage
  // ---------------------------------------------------------------------

  const INIT_MODE: nat := 0x1ED

  function InitNode(bytes: seq<byte>): Node {
    FileNode(GuestPath.INIT, INIT_MODE, bytes, "crate:init")
  }

  /** Nothing a validated overlay holds stands in the way of /init. */
  lemma InitFits(parse: Parser, entries: seq<OverlayEntry>, bytes: seq<byte>)
    requires TreeShaped(parse, entries)
    ensures IsTree(Nodes(parse, entries) + [InitNode(bytes)])
  {
    var nodes := Nodes(parse, entries);
    forall i | 0 <= i < |nodes|
      ensures Compatible(nodes[i], InitNode(bytes))
    {
      NodeOfMeans(parse, entries[i], nodes[i]);
      GuestPath.UnreservedSparesInit(nodes[i].path);
    }
  }

  lemma TreeIsDistinct(nodes: seq<Node>)
    requires IsTree(nodes)
    ensures DistinctPaths(nodes)
  {
    assert forall i, j :: 0 <= i < j < |nodes| ==> Compatible(nodes[i], nodes[j]);
  }

  lemma AscendingIsDistinct(nodes: seq<Node>)
    requires Ascending(nodes)
    ensures DistinctPaths(nodes)
  {
    forall i, j | 0 <= i < j < |nodes|
      ensures nodes[i].path != nodes[j].path
    {
      BelowIrreflexive(nodes[i].path);
    }
  }

  /** Push /init behind the validated files and sort again. */
  method AppendInit(o: Overlay, ghost nodes: seq<Node>, bytes: seq<byte>) returns (r: Overlay)
    requires IsOverlayOf(o, nodes) && IsTree(nodes + [InitNode(bytes)])
    ensures IsOverlayOf(r, nodes + [InitNode(bytes)]) && r.dirs == o.dirs
  {
    AscendingIsDistinct(o.files);
    AscendingIsDistinct(o.dirs);
    TreeIsDistinct(nodes + [InitNode(bytes)]);
    PartMore(o.files, o.dirs, nodes, InitNode(bytes));
    var resolved := o.files + [InitNode(bytes)];
    return Overlay(Sort(resolved), o.dirs);
  }
}
