/** Assembling a boot image: validate the overlay, merge it onto the base archive,
    and cache the result under a key derived from everything it is made of. */
module Assembly {
  import opened Archive
  import opened Common
  import opened Cpio
  import opened Emission
  import opened Overlay
  import Publish
  import Writers

  const CACHE_SCHEMA_VERSION: nat := 2

  // ---------------------------------------------------------------------
  // The cache key
  // ---------------------------------------------------------------------

  /** A BLAKE3 digest, taken to be collision-free: it stands for its preimage. */
  datatype Digest = Digest(preimage: seq<byte>)

  datatype FileManifest = FileManifest(origin: string, path: seq<byte>, mode: nat, digest: Digest, size: nat)
  datatype DirManifest = DirManifest(path: seq<byte>, mode: nat)

  /** The digest of the serialised manifest, likewise collision-free. */
  datatype Key = Key(schemaVersion: nat, base: Digest, baseSize: nat, files: seq<FileManifest>, dirs: seq<DirManifest>)

  predicate Split(o: Overlay) {
    && (forall i :: 0 <= i < |o.files| ==> o.files[i].FileNode?)
    && (forall i :: 0 <= i < |o.dirs| ==> o.dirs[i].DirNode?)
  }

  function ManifestKey(base: seq<byte>, o: Overlay): Key
    requires Split(o)
  {
    Key(CACHE_SCHEMA_VERSION, Digest(base), |base|,
        seq(|o.files|, i requires 0 <= i < |o.files| =>
          var f := o.files[i];
          FileManifest(f.origin, f.path, f.mode, Digest(f.data), |f.data|)),
        seq(|o.dirs|, i requires 0 <= i < |o.dirs| => DirManifest(o.dirs[i].path, o.dirs[i].mode)))
  }

  /** The overlay a key stands for. */
  function OverlayOf(key: Key): Overlay {
    Overlay(seq(|key.files|, i requires 0 <= i < |key.files| =>
              var f := key.files[i];
              FileNode(f.path, f.mode, f.digest.preimage, f.origin)),
            seq(|key.dirs|, i requires 0 <= i < |key.dirs| => DirNode(key.dirs[i].path, key.dirs[i].mode)))
  }

  /** A key determines everything the image is made of. */
  lemma KeyTellsInputs(base: seq<byte>, o: Overlay)
    requires Split(o)
    ensures ManifestKey(base, o).base.preimage == base && OverlayOf(ManifestKey(base, o)) == o
  {
    var key := ManifestKey(base, o);
    assert OverlayOf(key).files == o.files;
    assert OverlayOf(key).dirs == o.dirs;
  }

  /** How an image is built from a base archive and an overlay. */
  type Builder = (seq<byte>, Overlay) -> Option<seq<byte>>

  /** The image a key stands for. */
  function Built(build: Builder, key: Key): Option<seq<byte>> {
    build(key.base.preimage, OverlayOf(key))
  }

  // ---------------------------------------------------------------------
  // The cache
  // ---------------------------------------------------------------------

  datatype Artifact = Artifact(digest: Digest, size: nat)

  function ArtifactOf(bytes: seq<byte>): Artifact {
    Artifact(Digest(bytes), |bytes|)
  }

  datatype Name = CpioFile(key: Key) | MetadataFile(key: Key)

  /** A file: a completion record, or any other bytes. */
  datatype Content = Raw(bytes: seq<byte>) | Metadata(schemaVersion: nat, key: Key, artifact: Artifact)

  /** What an assembly publishes under a name. */
  predicate Offer(build: Builder, n: Name, c: Content) {
    var image := Built(build, n.key);
    image.Some? && c == (if n.CpioFile? then Raw(image.value)
                         else Metadata(CACHE_SCHEMA_VERSION, n.key, ArtifactOf(image.value)))
  }

  ghost predicate Offers(build: Builder, offered: (Name, Content) -> bool) {
    forall n, c :: offered(n, c) <==> Offer(build, n, c)
  }

  /** A completion record a cache hit may rely on. */
  predicate Vouches(c: Content, key: Key) {
    c.Metadata? && c.schemaVersion == CACHE_SCHEMA_VERSION && c.key == key
  }

  /** Every completion record names the image its key stands for. What the image
      files themselves hold is not restricted. */
  ghost predicate Honest(build: Builder, files: map<Name, Content>) {
    forall key :: MetadataFile(key) in files && Vouches(files[MetadataFile(key)], key) ==>
      Built(build, key).Some? && files[MetadataFile(key)].artifact == ArtifactOf(Built(build, key).value)
  }

  lemma HonestStays(build: Builder, offered: (Name, Content) -> bool, before: map<Name, Content>,
                    after: map<Name, Content>)
    requires Offers(build, offered) && Writers.Allowed(offered, before, after) && Honest(build, before)
    ensures Honest(build, after)
  {
    forall key | MetadataFile(key) in after && Vouches(after[MetadataFile(key)], key)
      ensures Built(build, key).Some? && after[MetadataFile(key)].artifact == ArtifactOf(Built(build, key).value)
    {
      var n := MetadataFile(key);
      if !(n in before && before[n] == after[n]) {
        assert offered(n, after[n]);
      }
    }
  }

  /** Whatever any number of assemblies do, in whatever order, and wherever one of
      them stops: at every moment the completion records are honest. */
  lemma EveryMomentIsHonest(build: Builder, offered: (Name, Content) -> bool, worlds: seq<Writers.World<Name, Content>>,
                            steps: seq<Writers.Step<Name, Content>>, k: nat)
    requires Offers(build, offered) && Writers.IsRun(offered, worlds, steps) && k < |worlds|
    requires Honest(build, worlds[0].files)
    ensures Honest(build, worlds[k].files)
  {
    Writers.RunIsAllowed(offered, worlds, steps, 0, k);
    HonestStays(build, offered, worlds[0].files, worlds[k].files);
  }

  datatype Preparation = FromCache | Rebuilt | Failed

  /** Which reads fail: looking up, of the record, the digest and the structure; and, once the
      image is stored, of the image again for its record. */
  datatype Faults = Faults(record: bool, digest: bool, structure: bool, stored: bool)

  /** Both files are as an assembly leaves them. */
  ghost predicate Complete(build: Builder, files: map<Name, Content>, key: Key) {
    && CpioFile(key) in files && Offer(build, CpioFile(key), files[CpioFile(key)])
    && MetadataFile(key) in files && Offer(build, MetadataFile(key), files[MetadataFile(key)])
  }

  /** Both files are as an assembly leaves them, and the image reads as an archive. */
  ghost predicate Hit(build: Builder, files: map<Name, Content>, key: Key, read: Reader) {
    Complete(build, files, key) && Parse(read, Built(build, key).value).Some?
  }

  predicate NoFault(faults: Faults) {
    !faults.record && !faults.digest && !faults.structure
  }

  /** Look the image up: the completion record and the artifact must both be valid. */
  method LookUp(dir: Publish.CacheDirectory<Name, Content>, ghost build: Builder, key: Key, read: Reader,
                buffers: seq<nat>, faults: Faults)
    returns (found: Option<bool>)
    requires dir.Valid() && Offers(build, dir.offered) && Honest(build, dir.world.files)
    modifies dir`world, dir`others, dir`trace, dir`steps
    ensures dir.Valid() && old(dir.trace) <= dir.trace
    ensures found == Some(true) ==>
              && NoFault(faults)
              && Built(build, key).Some? && Parse(read, Built(build, key).value).Some?
              && Publish.Held(dir.trace, |old(dir.trace)| - 1, CpioFile(key), Raw(Built(build, key).value))
              && Writers.Settled(dir.offered, dir.world.files, CpioFile(key))
    ensures old(dir.others) == [] ==>
              && dir.others == [] && dir.world.files == old(dir.world.files)
              && (found == Some(true) <==> Hit(build, old(dir.world.files), key, read) && NoFault(faults))
    ensures found.None? ==> faults.structure
  {
    dir.Interfere();
    dir.SinceIsAllowed();
    HonestStays(build, dir.offered, old(dir.world.files), dir.world.files);
    if faults.record {
      return Some(false);
    }
    if MetadataFile(key) !in dir.world.files || !Vouches(dir.world.files[MetadataFile(key)], key) {
      return Some(false);
    }
    var expected := dir.world.files[MetadataFile(key)].artifact;
    dir.Interfere();
    if CpioFile(key) !in dir.world.files || !dir.world.files[CpioFile(key)].Raw?
       || |dir.world.files[CpioFile(key)].bytes| != expected.size
    {
      return Some(false);
    }
    dir.Interfere();
    if faults.digest {
      return Some(false);
    }
    if CpioFile(key) !in dir.world.files || !dir.world.files[CpioFile(key)].Raw?
       || ArtifactOf(dir.world.files[CpioFile(key)].bytes) != expected
    {
      return Some(false);
    }
    assert Writers.Holds(dir.trace[|dir.steps|].files, CpioFile(key), Raw(Built(build, key).value));
    label Matched:
    dir.Interfere();
    dir.SinceIsAllowed@Matched();
    Writers.SettledStays(dir.offered, old@Matched(dir.world.files), dir.world.files, CpioFile(key));
    if faults.structure {
      return None;
    }
    var present := CpioFile(key) in dir.world.files && dir.world.files[CpioFile(key)].Raw?;
    var file := if present then Some(dir.world.files[CpioFile(key)].bytes) else None;
    var valid := CachedIsValid(read, file, expected.size, buffers);
    return Some(valid);
  }

  /** Serve the image of a base and an overlay, from the cache or rebuilt. */
  method PrepareInner(dir: Publish.CacheDirectory<Name, Content>, build: Builder, base: seq<byte>, o: Overlay,
                      read: Reader, buffers: seq<nat>, ios: (Publish.Io<Content>, Publish.Io<Content>), faults: Faults)
    returns (r: Preparation)
    requires Split(o) && dir.Valid() && Offers(build, dir.offered) && Honest(build, dir.world.files)
    modifies dir
    ensures dir.Valid() && old(dir.trace) <= dir.trace
    ensures !r.Failed? ==>
              && build(base, o).Some?
              && Publish.Held(dir.trace, |old(dir.trace)| - 1,
                              CpioFile(ManifestKey(base, o)), Raw(build(base, o).value))
              && Writers.Settled(dir.offered, dir.world.files, CpioFile(ManifestKey(base, o)))
    ensures r.FromCache? ==> NoFault(faults) && Parse(read, build(base, o).value).Some?
    ensures old(dir.others) == [] ==>
              && (r.FromCache? <==> Hit(build, old(dir.world.files), ManifestKey(base, o), read) && NoFault(faults))
              && (r.FromCache? ==> dir.world.files == old(dir.world.files))
              && (r.Rebuilt? ==> Complete(build, dir.world.files, ManifestKey(base, o)))
              && (r.Failed? ==> faults.structure || faults.stored || build(base, o).None? || !BothFavour(ios))
  {
    var key := ManifestKey(base, o);
    KeyTellsInputs(base, o);
    var found := LookUp(dir, build, key, read, buffers, faults);
    if found.None? {
      return Failed;
    }
    if found.value {
      return FromCache;
    }
    var merged := build(base, o);
    if merged.None? {
      return Failed;
    }
    r := Store(dir, build, key, merged.value, ios, faults.stored);
  }

  /** Both files can be published: the image and its record. */
  ghost predicate BothFavour(ios: (Publish.Io<Content>, Publish.Io<Content>)) {
    Publish.Favours(ios.0) && Publish.Favours(ios.1)
  }

  /** Publish the image and then, as the completion sentinel, its record. */
  method Store(dir: Publish.CacheDirectory<Name, Content>, ghost build: Builder, key: Key, image: seq<byte>,
               ios: (Publish.Io<Content>, Publish.Io<Content>), fault: bool)
    returns (r: Preparation)
    requires dir.Valid() && Offers(build, dir.offered) && Built(build, key) == Some(image)
    modifies dir
    ensures dir.Valid() && old(dir.trace) <= dir.trace
    ensures r.Failed? || r.Rebuilt?
    ensures r.Rebuilt? ==>
              && Publish.Held(dir.trace, |old(dir.trace)| - 1, CpioFile(key), Raw(image))
              && Publish.Held(dir.trace, |old(dir.trace)| - 1, MetadataFile(key),
                              Metadata(CACHE_SCHEMA_VERSION, key, ArtifactOf(image)))
              && Writers.Settled(dir.offered, dir.world.files, CpioFile(key))
    ensures old(dir.others) == [] ==>
              && (r.Failed? ==> fault || !BothFavour(ios))
              && (r.Rebuilt? ==> !fault && Complete(build, dir.world.files, key))
  {
    assert dir.offered(CpioFile(key), Raw(image));
    var published := dir.AtomicWrite(CpioFile(key), Raw(image), ios.0);
    if published.Refused? {
      return Failed;
    }
    label Cpio:
    dir.Interfere();
    dir.SinceIsAllowed@Cpio();
    Writers.SettledStays(dir.offered, old@Cpio(dir.world.files), dir.world.files, CpioFile(key));
    if fault {
      return Failed;
    }
    if CpioFile(key) !in dir.world.files {
      return Failed;
    }
    var content := dir.world.files[CpioFile(key)];
    assert Offer(build, CpioFile(key), content);
    var record := Metadata(CACHE_SCHEMA_VERSION, key, ArtifactOf(content.bytes));
    assert dir.offered(MetadataFile(key), record);
    label Read:
    published := dir.AtomicWrite(MetadataFile(key), record, ios.1);
    if published.Refused? {
      return Failed;
    }
    dir.SinceIsAllowed@Read();
    Writers.SettledStays(dir.offered, old@Read(dir.world.files), dir.world.files, CpioFile(key));
    return Rebuilt;
  }
}
