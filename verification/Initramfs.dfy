/** What the Linux kernel makes of the entries of an initramfs: it creates no parent
    directories, replaces a file by whatever comes later, replaces a directory by
    something else only while it is empty, and follows symbolic links above a name. */
module Initramfs {
  import opened Archive
  import opened Common
  import opened GuestPath

  type Tree = map<seq<byte>, Entry>

  const FORMAT_UNIT: nat := 0x1000
  const DIR_FORMAT: nat := 4
  const LINK_FORMAT: nat := 10

  predicate HasFormat(e: Entry, format: nat) {
    |e.numbers| > MODE && e.numbers[MODE] / FORMAT_UNIT % 16 == format
  }

  predicate IsDir(e: Entry) {
    HasFormat(e, DIR_FORMAT)
  }

  predicate IsLink(e: Entry) {
    HasFormat(e, LINK_FORMAT)
  }

  predicate DirAt(tree: Tree, path: seq<byte>) {
    path in tree && IsDir(tree[path])
  }

  predicate ParentStands(tree: Tree, path: seq<byte>) {
    SLASH in path ==> DirAt(tree, path[..LastSlash(path)])
  }

  predicate HoldsSomething(tree: Tree, path: seq<byte>) {
    exists q :: q in tree && Ancestor(path, q)
  }

  /** Put an entry at a place: without a parent directory, or instead of a directory
      that is not empty, it is dropped. */
  function Put(tree: Tree, place: seq<byte>, e: Entry): Tree {
    if place in tree then
      if !IsDir(e) && IsDir(tree[place]) && HoldsSomething(tree, place) then tree else tree[place := e]
    else if ParentStands(tree, place) then tree[place := e]
    else tree
  }

  /** Where a name leads if there are symbolic links above it: any function will do. */
  type Resolver = (Tree, seq<byte>) -> seq<byte>

  predicate LinkAt(tree: Tree, path: seq<byte>) {
    path in tree && IsLink(tree[path])
  }

  predicate LinkAbove(tree: Tree, path: seq<byte>) {
    exists a :: a in tree && Ancestor(a, path) && IsLink(tree[a])
  }

  function PlaceOf(resolve: Resolver, tree: Tree, path: seq<byte>): seq<byte> {
    if LinkAbove(tree, path) then resolve(tree, path) else path
  }

  function Unpack(resolve: Resolver, tree: Tree, entries: seq<Entry>): Tree {
    if |entries| == 0 then tree
    else
      var t, e := Unpack(resolve, tree, entries[..|entries| - 1]), entries[|entries| - 1];
      Put(t, PlaceOf(resolve, t, e.name), e)
  }

  /** Unpacking one list after another is unpacking the second onto the first. */
  lemma {:induction false} UnpackConcat(resolve: Resolver, tree: Tree, a: seq<Entry>, b: seq<Entry>)
    ensures Unpack(resolve, tree, a + b) == Unpack(resolve, Unpack(resolve, tree, a), b)
    decreases |b|
  {
    if |b| == 0 {
      assert a + b == a;
    } else {
      UnpackConcat(resolve, tree, a, b[..|b| - 1]);
      assert (a + b)[..|a + b| - 1] == a + b[..|b| - 1];
    }
  }

  lemma UnpackNext(resolve: Resolver, tree: Tree, entries: seq<Entry>, k: nat)
    requires k < |entries|
    ensures var t := Unpack(resolve, tree, entries[..k]);
            Unpack(resolve, tree, entries[..k + 1]) == Put(t, PlaceOf(resolve, t, entries[k].name), entries[k])
  {
    assert entries[..k + 1][..k] == entries[..k];
  }

  /** Unpacking where no links are in the way. */
  function Lay(tree: Tree, entries: seq<Entry>): Tree {
    if |entries| == 0 then tree
    else
      var e := entries[|entries| - 1];
      Put(Lay(tree, entries[..|entries| - 1]), e.name, e)
  }

  // ---------------------------------------------------------------------
  // Trees
  // ---------------------------------------------------------------------

  predicate WellFormed(tree: Tree) {
    forall p :: p in tree ==> ParentStands(tree, p)
  }

  lemma ParentIsAncestor(path: seq<byte>)
    requires SLASH in path
    ensures Ancestor(path[..LastSlash(path)], path)
  {
  }

  /** An ancestor is the parent or an ancestor of the parent. */
  lemma AncestorOrParent(a: seq<byte>, path: seq<byte>)
    requires Ancestor(a, path)
    ensures SLASH in path && (a == path[..LastSlash(path)] || Ancestor(a, path[..LastSlash(path)]))
  {
    assert path[|a|] == SLASH;
    var i := LastSlash(path);
    assert forall k :: i < k < |path| ==> path[k] == path[i + 1..][k - i - 1];
    assert path[..i][..|a|] == a;
  }

  lemma AncestorTransitive(a: seq<byte>, b: seq<byte>, path: seq<byte>)
    requires Ancestor(a, b) && Ancestor(b, path)
    ensures Ancestor(a, path)
  {
    assert path[..|b|] == b;
    assert path[..|a|] == b[..|a|];
  }

  lemma {:induction false} AncestorsAreDirs(tree: Tree, a: seq<byte>, path: seq<byte>)
    requires WellFormed(tree) && Ancestor(a, path) && ParentStands(tree, path)
    ensures DirAt(tree, a)
    decreases |path|
  {
    AncestorOrParent(a, path);
    var parent := path[..LastSlash(path)];
    if a != parent {
      AncestorsAreDirs(tree, a, parent);
    }
  }

  lemma PutKeepsTree(tree: Tree, place: seq<byte>, e: Entry)
    requires WellFormed(tree)
    ensures WellFormed(Put(tree, place, e))
  {
    var tree' := Put(tree, place, e);
    forall p | p in tree'
      ensures ParentStands(tree', p)
    {
      if SLASH in p {
        ParentIsAncestor(p);
        assert p in tree ==> ParentStands(tree, p);
      }
    }
  }

  lemma {:induction false} UnpackKeepsTree(resolve: Resolver, tree: Tree, entries: seq<Entry>)
    requires WellFormed(tree)
    ensures WellFormed(Unpack(resolve, tree, entries))
  {
    if |entries| > 0 {
      var t, e := Unpack(resolve, tree, entries[..|entries| - 1]), entries[|entries| - 1];
      UnpackKeepsTree(resolve, tree, entries[..|entries| - 1]);
      PutKeepsTree(t, PlaceOf(resolve, t, e.name), e);
    }
  }

  lemma {:induction false} LayKeepsTree(tree: Tree, entries: seq<Entry>)
    requires WellFormed(tree)
    ensures WellFormed(Lay(tree, entries))
  {
    if |entries| > 0 {
      LayKeepsTree(tree, entries[..|entries| - 1]);
      PutKeepsTree(Lay(tree, entries[..|entries| - 1]), entries[|entries| - 1].name, entries[|entries| - 1]);
    }
  }

  // ---------------------------------------------------------------------
  // Which entries stand
  // ---------------------------------------------------------------------

  /** Entries of distinct names, parents before children, nothing beneath a file. */
  predicate Layered(entries: seq<Entry>) {
    && (forall i, j :: 0 <= i < j < |entries| ==> entries[i].name != entries[j].name)
    && (forall i, j :: 0 <= i < j < |entries| ==> !Ancestor(entries[j].name, entries[i].name))
    && (forall i, j :: 0 <= i < |entries| && 0 <= j < |entries| && Ancestor(entries[i].name, entries[j].name) ==>
          IsDir(entries[i]))
  }

  predicate HasDir(entries: seq<Entry>, path: seq<byte>) {
    exists i :: 0 <= i < |entries| && entries[i].name == path && IsDir(entries[i])
  }

  /** Every ancestor is a directory, of the tree below or of the entries. */
  ghost predicate Supported(tree: Tree, entries: seq<Entry>, path: seq<byte>) {
    forall a :: Ancestor(a, path) ==> DirAt(tree, a) || HasDir(entries, a)
  }

  /** A directory that is not empty stands where the file is to go. */
  predicate Blocked(tree: Tree, e: Entry) {
    !IsDir(e) && DirAt(tree, e.name) && HoldsSomething(tree, e.name)
  }

  ghost predicate Fits(tree: Tree, entries: seq<Entry>, e: Entry) {
    Supported(tree, entries, e.name) && !Blocked(tree, e)
  }

  predicate Stands(tree: Tree, e: Entry) {
    e.name in tree && tree[e.name] == e
  }

  predicate Same(a: Tree, b: Tree, p: seq<byte>) {
    (p in a <==> p in b) && (p in a ==> a[p] == b[p])
  }

  predicate Unnamed(entries: seq<Entry>, p: seq<byte>) {
    forall i :: 0 <= i < |entries| ==> entries[i].name != p
  }

  lemma {:induction false} OthersStay(tree: Tree, entries: seq<Entry>, k: nat, p: seq<byte>)
    requires k <= |entries| && Unnamed(entries[..k], p)
    ensures Same(Lay(tree, entries[..k]), tree, p)
  {
    if k > 0 {
      assert entries[..k][..k - 1] == entries[..k - 1];
      assert entries[..k][k - 1] == entries[k - 1];
      assert forall i :: 0 <= i < k - 1 ==> entries[..k - 1][i] == entries[..k][i];
      OthersStay(tree, entries, k - 1, p);
    }
  }

  /** What is in the tree has its ancestors there. */
  lemma PresentIsSupported(tree: Tree, entries: seq<Entry>, path: seq<byte>)
    requires WellFormed(tree) && path in tree
    ensures Supported(tree, entries, path)
  {
    forall a | Ancestor(a, path)
      ensures DirAt(tree, a)
    {
      AncestorsAreDirs(tree, a, path);
    }
  }

  /** The entries before k stand exactly if they fit. */
  ghost predicate Decided(tree: Tree, entries: seq<Entry>, k: nat)
    requires k <= |entries|
  {
    forall i :: 0 <= i < k ==> (Stands(Lay(tree, entries[..k]), entries[i]) <==> Fits(tree, entries, entries[i]))
  }

  /** Before entry k the tree has at its ancestors what supports it. */
  lemma SupportIsThere(tree: Tree, entries: seq<Entry>, k: nat, a: seq<byte>)
    requires Layered(entries) && k < |entries| && Decided(tree, entries, k)
    requires Supported(tree, entries, entries[k].name) && Ancestor(a, entries[k].name)
    ensures DirAt(Lay(tree, entries[..k]), a)
  {
    var t := Lay(tree, entries[..k]);
    if i :| 0 <= i < |entries| && entries[i].name == a {
      assert IsDir(entries[i]) && i < k;
      forall b | Ancestor(b, a)
        ensures DirAt(tree, b) || HasDir(entries, b)
      {
        AncestorTransitive(b, a, entries[k].name);
      }
      assert Fits(tree, entries, entries[i]);
    } else {
      assert Unnamed(entries[..k], a);
      OthersStay(tree, entries, k, a);
    }
  }

  /** And what is there at its ancestors supports it. */
  lemma ThereIsSupport(tree: Tree, entries: seq<Entry>, k: nat)
    requires WellFormed(tree) && Layered(entries) && k < |entries|
    requires ParentStands(Lay(tree, entries[..k]), entries[k].name)
    ensures Supported(tree, entries, entries[k].name)
  {
    var t := Lay(tree, entries[..k]);
    LayKeepsTree(tree, entries[..k]);
    forall a | Ancestor(a, entries[k].name)
      ensures DirAt(tree, a) || HasDir(entries, a)
    {
      AncestorsAreDirs(t, a, entries[k].name);
      if i :| 0 <= i < |entries| && entries[i].name == a {
        assert IsDir(entries[i]);
      } else {
        assert Unnamed(entries[..k], a);
        OthersStay(tree, entries, k, a);
      }
    }
  }

  lemma ParentIffSupported(tree: Tree, entries: seq<Entry>, k: nat)
    requires WellFormed(tree) && Layered(entries) && k < |entries| && Decided(tree, entries, k)
    ensures ParentStands(Lay(tree, entries[..k]), entries[k].name) <==> Supported(tree, entries, entries[k].name)
  {
    var p := entries[k].name;
    if ParentStands(Lay(tree, entries[..k]), p) {
      ThereIsSupport(tree, entries, k);
    }
    if Supported(tree, entries, p) && SLASH in p {
      ParentIsAncestor(p);
      SupportIsThere(tree, entries, k, p[..LastSlash(p)]);
    }
  }

  /** Nothing beneath a file is touched before it. */
  lemma BeneathIsSame(tree: Tree, entries: seq<Entry>, k: nat)
    requires Layered(entries) && k < |entries| && !IsDir(entries[k])
    ensures HoldsSomething(Lay(tree, entries[..k]), entries[k].name) <==> HoldsSomething(tree, entries[k].name)
  {
    forall q | Ancestor(entries[k].name, q)
      ensures Same(Lay(tree, entries[..k]), tree, q)
    {
      assert Unnamed(entries[..k], q);
      OthersStay(tree, entries, k, q);
    }
  }

  lemma NextIsDecided(tree: Tree, entries: seq<Entry>, k: nat)
    requires WellFormed(tree) && Layered(entries) && k < |entries| && Decided(tree, entries, k)
    ensures Stands(Put(Lay(tree, entries[..k]), entries[k].name, entries[k]), entries[k])
            <==> Fits(tree, entries, entries[k])
  {
    var e, t := entries[k], Lay(tree, entries[..k]);
    assert Unnamed(entries[..k], e.name);
    OthersStay(tree, entries, k, e.name);
    if e.name in tree {
      PresentIsSupported(tree, entries, e.name);
      if !IsDir(e) {
        BeneathIsSame(tree, entries, k);
      }
    } else {
      ParentIffSupported(tree, entries, k);
    }
  }

  lemma LayNext(tree: Tree, entries: seq<Entry>, k: nat)
    requires k < |entries|
    ensures Lay(tree, entries[..k + 1]) == Put(Lay(tree, entries[..k]), entries[k].name, entries[k])
  {
    assert entries[..k + 1][..k] == entries[..k];
  }

  lemma PutElsewhere(tree: Tree, e: Entry, x: Entry)
    requires e.name != x.name
    ensures Stands(Put(tree, e.name, e), x) <==> Stands(tree, x)
  {
  }

  lemma {:induction false} AllDecided(tree: Tree, entries: seq<Entry>, k: nat)
    requires WellFormed(tree) && Layered(entries) && k <= |entries|
    ensures Decided(tree, entries, k)
  {
    if k > 0 {
      AllDecided(tree, entries, k - 1);
      NextIsDecided(tree, entries, k - 1);
      var t := Lay(tree, entries[..k - 1]);
      LayNext(tree, entries, k - 1);
      forall i | 0 <= i < k - 1
        ensures Stands(Put(t, entries[k - 1].name, entries[k - 1]), entries[i]) <==> Stands(t, entries[i])
      {
        PutElsewhere(t, entries[k - 1], entries[i]);
      }
    }
  }

  lemma LaidStandsExactly(tree: Tree, entries: seq<Entry>)
    requires WellFormed(tree) && Layered(entries)
    ensures forall i :: 0 <= i < |entries| ==>
              (Stands(Lay(tree, entries), entries[i]) <==> Fits(tree, entries, entries[i]))
    ensures forall p :: Unnamed(entries, p) ==> Same(Lay(tree, entries), tree, p)
  {
    assert entries[..|entries|] == entries;
    AllDecided(tree, entries, |entries|);
    forall p | Unnamed(entries, p)
      ensures Same(Lay(tree, entries), tree, p)
    {
      OthersStay(tree, entries, |entries|, p);
    }
  }

  // ---------------------------------------------------------------------
  // Links
  // ---------------------------------------------------------------------

  /** The tree has no link above an entry, but where an entry puts a directory in its place. */
  ghost predicate LinkFree(tree: Tree, entries: seq<Entry>) {
    forall i, a :: 0 <= i < |entries| && Ancestor(a, entries[i].name) && LinkAt(tree, a) ==> HasDir(entries, a)
  }

  /** What a directory entry names is that directory from then on, or nothing. */
  lemma DirIsLaid(tree: Tree, entries: seq<Entry>, i: nat, k: nat)
    requires Layered(entries) && i < k <= |entries| && IsDir(entries[i])
    ensures entries[i].name in Lay(tree, entries[..k]) ==> Lay(tree, entries[..k])[entries[i].name] == entries[i]
    decreases k
  {
    LayNext(tree, entries, k - 1);
    if i < k - 1 {
      DirIsLaid(tree, entries, i, k - 1);
    }
  }

  /** When the turn comes to an entry, no link is above it any more. */
  lemma NoLinkAbove(tree: Tree, entries: seq<Entry>, k: nat)
    requires Layered(entries) && LinkFree(tree, entries) && k < |entries|
    ensures !LinkAbove(Lay(tree, entries[..k]), entries[k].name)
  {
    var t := Lay(tree, entries[..k]);
    forall a | a in t && Ancestor(a, entries[k].name)
      ensures !IsLink(t[a])
    {
      if i :| 0 <= i < |entries| && entries[i].name == a {
        assert IsDir(entries[i]) && i < k;
        DirIsLaid(tree, entries, i, k);
      } else {
        assert Unnamed(entries[..k], a);
        OthersStay(tree, entries, k, a);
        assert LinkAt(tree, a) ==> HasDir(entries, a);
      }
    }
  }

  lemma {:induction false} LinkFreeIsLaid(resolve: Resolver, tree: Tree, entries: seq<Entry>, k: nat)
    requires Layered(entries) && LinkFree(tree, entries) && k <= |entries|
    ensures Unpack(resolve, tree, entries[..k]) == Lay(tree, entries[..k])
  {
    if k > 0 {
      LinkFreeIsLaid(resolve, tree, entries, k - 1);
      NoLinkAbove(tree, entries, k - 1);
      UnpackNext(resolve, tree, entries, k - 1);
      LayNext(tree, entries, k - 1);
    }
  }

  /** Unpacking layered entries onto a tree without links above them: an entry stands
      exactly if each of its ancestors is a directory of the tree or of the entries and
      no directory that is not empty is in its way; every other path is as it was. */
  lemma StandsExactly(resolve: Resolver, tree: Tree, entries: seq<Entry>)
    requires WellFormed(tree) && Layered(entries) && LinkFree(tree, entries)
    ensures var t := Unpack(resolve, tree, entries);
            && (forall i :: 0 <= i < |entries| ==> (Stands(t, entries[i]) <==> Fits(tree, entries, entries[i])))
            && (forall p :: Unnamed(entries, p) ==> Same(t, tree, p))
  {
    assert entries[..|entries|] == entries;
    LinkFreeIsLaid(resolve, tree, entries, |entries|);
    LaidStandsExactly(tree, entries);
  }

  /** A directory in the way of a file stays as it was. */
  lemma BlockedStays(resolve: Resolver, tree: Tree, entries: seq<Entry>, k: nat)
    requires Layered(entries) && LinkFree(tree, entries) && k < |entries| && Blocked(tree, entries[k])
    ensures Same(Unpack(resolve, tree, entries), tree, entries[k].name)
  {
    assert entries[..|entries|] == entries;
    LinkFreeIsLaid(resolve, tree, entries, |entries|);
    BlockedIsLaid(tree, entries, k, |entries|);
  }

  lemma {:induction false} BlockedIsLaid(tree: Tree, entries: seq<Entry>, k: nat, n: nat)
    requires Layered(entries) && k < n <= |entries| && Blocked(tree, entries[k])
    ensures Same(Lay(tree, entries[..n]), tree, entries[k].name)
    decreases n
  {
    LayNext(tree, entries, n - 1);
    if n == k + 1 {
      assert Unnamed(entries[..k], entries[k].name);
      OthersStay(tree, entries, k, entries[k].name);
      BeneathIsSame(tree, entries, k);
    } else {
      BlockedIsLaid(tree, entries, k, n - 1);
    }
  }

  /** The place entry k is put at. */
  function Landing(resolve: Resolver, tree: Tree, entries: seq<Entry>, k: nat): seq<byte>
    requires k < |entries|
  {
    PlaceOf(resolve, Unpack(resolve, tree, entries[..k]), entries[k].name)
  }

  lemma TopLevelLands(resolve: Resolver, tree: Tree, entries: seq<Entry>, k: nat)
    requires k < |entries| && SLASH !in entries[k].name
    ensures Landing(resolve, tree, entries, k) == entries[k].name
  {
  }

  lemma PutFirst(tree: Tree, x: Entry)
    requires SLASH !in x.name && !IsDir(x)
    ensures Stands(Put(tree, x.name, x), x) <==> !Blocked(tree, x)
  {
  }

  lemma PutLater(tree: Tree, place: seq<byte>, e: Entry, x: Entry)
    requires e != x && !IsDir(x)
    ensures Stands(Put(tree, place, e), x) <==> Stands(tree, x) && place != x.name
  {
  }

  /** The trees one gets by putting each entry at its place. */
  predicate Grows(trees: seq<Tree>, places: seq<seq<byte>>, entries: seq<Entry>) {
    && |trees| == |entries| + 1 && |places| == |entries|
    && forall i :: 0 <= i < |entries| ==> trees[i + 1] == Put(trees[i], places[i], entries[i])
  }

  lemma {:induction false} TopLevelStandsBefore(trees: seq<Tree>, places: seq<seq<byte>>, entries: seq<Entry>, k: nat,
                                                n: nat)
    requires Grows(trees, places, entries) && k < n <= |entries| && SLASH !in entries[k].name && !IsDir(entries[k])
    requires places[k] == entries[k].name && forall i :: k < i < |entries| ==> entries[i] != entries[k]
    ensures Stands(trees[n], entries[k])
            <==> !Blocked(trees[k], entries[k]) && forall j :: k < j < n ==> places[j] != entries[k].name
    decreases n
  {
    assert trees[n - 1 + 1] == Put(trees[n - 1], places[n - 1], entries[n - 1]);
    if n == k + 1 {
      PutFirst(trees[k], entries[k]);
    } else {
      TopLevelStandsBefore(trees, places, entries, k, n - 1);
      PutLater(trees[n - 1], places[n - 1], entries[n - 1], entries[k]);
    }
  }

  ghost function Landings(resolve: Resolver, tree: Tree, entries: seq<Entry>): (places: seq<seq<byte>>)
    ensures |places| == |entries|
  {
    seq(|entries|, i requires 0 <= i < |entries| => Landing(resolve, tree, entries, i))
  }

  lemma UnpackGrows(resolve: Resolver, tree: Tree, entries: seq<Entry>) returns (trees: seq<Tree>)
    ensures Grows(trees, Landings(resolve, tree, entries), entries)
    ensures forall i :: 0 <= i <= |entries| ==> trees[i] == Unpack(resolve, tree, entries[..i])
  {
    trees := seq(|entries| + 1, i requires 0 <= i <= |entries| => Unpack(resolve, tree, entries[..i]));
    forall i | 0 <= i < |entries|
      ensures trees[i + 1] == Put(trees[i], Landings(resolve, tree, entries)[i], entries[i])
    {
      UnpackNext(resolve, tree, entries, i);
    }
  }

  /** Whatever links there are: a file at the top stands exactly if no directory that is
      not empty is in its way when its turn comes and no later entry is led there. */
  lemma TopLevelStandsExactly(resolve: Resolver, tree: Tree, entries: seq<Entry>, k: nat)
    requires k < |entries| && SLASH !in entries[k].name && !IsDir(entries[k])
    requires forall i :: k < i < |entries| ==> entries[i] != entries[k]
    ensures Stands(Unpack(resolve, tree, entries), entries[k])
            <==> && !Blocked(Unpack(resolve, tree, entries[..k]), entries[k])
                 && entries[k].name !in Landings(resolve, tree, entries)[k + 1..]
  {
    var trees := UnpackGrows(resolve, tree, entries);
    var places := Landings(resolve, tree, entries);
    TopLevelLands(resolve, tree, entries, k);
    assert entries[..|entries|] == entries;
    TopLevelStandsBefore(trees, places, entries, k, |entries|);
    assert forall j :: k < j < |entries| ==> places[j] == places[k + 1..][j - k - 1];
  }

  // ---------------------------------------------------------------------
  // Merging
  // ---------------------------------------------------------------------

  /** The tree an archive unpacks to. */
  ghost function TreeOf(resolve: Resolver, read: Reader, archive: seq<byte>): Tree
    requires Archive.Parse(read, archive).Some?
  {
    Unpack(resolve, map[], Archive.Parse(read, archive).value.entries)
  }

  /** Merging succeeds exactly on two complete archives, and the merge unpacks to the
      tree of the base with the entries of the overlay unpacked onto it. */
  lemma MergeMeaning(resolve: Resolver, read: Reader, base: seq<byte>, overlay: seq<byte>, closing: seq<byte>)
    requires Local(read) && Closes(read, closing)
    ensures var merged := MergedBytes(read, base, overlay, closing);
            && (merged.Some? <==> Archive.Parse(read, base).Some? && Archive.Parse(read, overlay).Some?)
            && (merged.Some? ==>
                  && Archive.Parse(read, merged.value).Some?
                  && TreeOf(resolve, read, merged.value)
                     == Unpack(resolve, TreeOf(resolve, read, base), Archive.Parse(read, overlay).value.entries))
  {
    if Archive.Parse(read, base).Some? && Archive.Parse(read, overlay).Some? {
      MergeParses(read, base, overlay, closing);
      UnpackConcat(resolve, map[], Archive.Parse(read, base).value.entries, Archive.Parse(read, overlay).value.entries);
    }
  }

  lemma TreeIsWellFormed(resolve: Resolver, read: Reader, archive: seq<byte>)
    requires Archive.Parse(read, archive).Some?
    ensures WellFormed(TreeOf(resolve, read, archive))
  {
    UnpackKeepsTree(resolve, map[], Archive.Parse(read, archive).value.entries);
  }
}
