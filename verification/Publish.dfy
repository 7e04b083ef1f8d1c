/** Publishing a file as the code runs: every operation on the directory is a step
    of one writer, with the steps of other writers in between. */
module Publish {
  import opened Common
  import opened Writers

  /** How the retries end: an own rename won, a matching file was seen, an error that
      is not contention, or no decision. */
  datatype Contest = Won | Accepted | Broken | Exhausted

  /** At some moment from a position of the trace on, the name held the content. */
  ghost predicate Held<N, C>(trace: seq<World<N, C>>, from: int, n: N, c: C) {
    exists i :: 0 <= i < |trace| && from <= i && Holds(trace[i].files, n, c)
  }

  lemma HeldLonger<N, C>(trace: seq<World<N, C>>, longer: seq<World<N, C>>, from: int, n: N, c: C)
    requires Held(trace, from, n, c) && trace <= longer
    ensures Held(longer, from, n, c)
  {
    var i :| 0 <= i < |trace| && from <= i && Holds(trace[i].files, n, c);
    assert longer[i] == trace[i];
  }

  /** How reading the published file goes: through, into another writer's way, or wrong. */
  datatype Reading = ReadWhole | ReadBlocked | ReadBroken

  /** What the file system answers to one call that publishes a file: whether the temporary
      file can be written, what is left of it if not, how each rename and each read in turn
      ends, and whether the temporary and the stale file can be removed. */
  datatype Io<C> = Io(written: bool, partial: Option<C>, renames: nat -> Rename, readings: nat -> Reading,
                      removes: bool, removesStale: bool)

  /** So many renames met contention, and so many reads no error. */
  ghost predicate Waits<C>(io: Io<C>, renames: int, readings: int) {
    && io.written
    && (forall k: nat :: k < renames ==> io.renames(k) == RenameContended)
    && (forall k: nat :: k < readings ==> io.readings(k) != ReadBroken)
  }

  /** How a call ends is told by the last answer it got, all before having been contention. */
  ghost predicate Told<N, C>(io: Io<C>, x: Writer<N, C>, r: Publication) {
    if !io.written then r == Refused && x.renames == 0
    else
      && x.renames >= 1
      && match r
         case Published =>
           if x.won then
             && io.renames(x.renames - 1) == Renamed && Waits(io, x.renames - 1, x.validations)
             && x.validations == Tries(x.renames - 1)
           else
             x.validations >= 1 && io.readings(x.validations - 1) == ReadWhole && Waits(io, x.renames, x.validations)
         case Refused =>
           || (io.renames(x.renames - 1) == RenameFailed && Waits(io, x.renames - 1, x.validations))
           || (x.validations == x.renames && io.readings(x.validations - 1) == ReadBroken
               && Waits(io, x.renames, x.validations - 1))
           || (x.renames == 6 && Waits(io, 6, 4))
  }

  /** What a writer has met so far is what the file system answered. */
  ghost predicate Faithful<N, C>(io: Io<C>, x: Writer<N, C>) {
    && (x.stuck ==> !io.removes)
    && match x.at
       case Writing => true
       case Finished(r) => Told(io, x, r)
       case ToDiscard(r) => Told(io, x, r)
       case ToDiscardAgain => Told(io, x, Refused)
       case Dead => true
       case _ => Waits(io, x.renames, x.validations)
  }

  /** The step is the one the file system's next answer makes of it. */
  predicate Answered<N, C>(io: Io<C>, x: Writer<N, C>, step: Step<N, C>) {
    match step
    case WriteAll(_) => io.written
    case FailWrite(_) => !io.written
    case TryRename(_, rename) => rename == io.renames(x.renames)
    case TryValidate(_, validation) =>
      && (validation == ReadContended <==> io.readings(x.validations) == ReadBlocked)
      && (validation == ReadFailed <==> io.readings(x.validations) == ReadBroken)
    case RemoveStale(_, removes) => removes == io.removesStale
    case Discard(_, removes) => removes == io.removes
    case _ => true
  }

  lemma RenameKeepsFaith<N, C>(files: map<N, C>, io: Io<C>, x: Writer<N, C>, step: Step<N, C>)
    requires WriterInv(x) && Faithful(io, x) && May(files, x, step) && Answered(io, x, step) && step.TryRename?
    ensures Faithful(io, Moved(x, step))
  {
  }

  lemma ValidateKeepsFaith<N, C>(files: map<N, C>, io: Io<C>, x: Writer<N, C>, step: Step<N, C>)
    requires WriterInv(x) && Faithful(io, x) && May(files, x, step) && Answered(io, x, step) && step.TryValidate?
    ensures Faithful(io, Moved(x, step))
  {
  }

  lemma StepKeepsFaith<N, C>(files: map<N, C>, io: Io<C>, x: Writer<N, C>, step: Step<N, C>)
    requires WriterInv(x) && Faithful(io, x) && May(files, x, step) && Answered(io, x, step)
    ensures Faithful(io, Moved(x, step))
  {
    match step
    case TryRename(_, _) => RenameKeepsFaith(files, io, x, step);
    case TryValidate(_, _) => ValidateKeepsFaith(files, io, x, step);
    case _ =>
  }

  /** Reads between the first rename and that many more. */
  function Tries(renames: int): int {
    if renames <= PUBLISH_RETRY_ATTEMPTS + 1 then renames else PUBLISH_RETRY_ATTEMPTS + 1
  }

  /** Some rename goes through, and until then there is only contention. */
  ghost predicate Favours<C>(io: Io<C>) {
    exists k: nat :: k < 6 && io.renames(k) == Renamed && Waits(io, k, Tries(k))
  }

  lemma FavouredIsPublished<N, C>(io: Io<C>, x: Writer<N, C>, r: Publication)
    requires Told(io, x, r) && Favours(io) && x.renames <= 6 && x.validations <= 4
    ensures r == Published
  {
    var k: nat :| k < 6 && io.renames(k) == Renamed && Waits(io, k, Tries(k));
  }

  /** What a call leaves of the files when nobody else is at work. */
  ghost predicate Leaves<N, C>(io: Io<C>, before: map<N, C>, after: map<N, C>, n: N, c: C, r: Publication) {
    if r == Published then after == before[n := c]
    else after == before || (io.removesStale && after == before - {n})
  }

  /** The same writers of this process, in the same places. */
  ghost predicate OwnKept<N, C>(before: map<int, Writer<N, C>>, after: map<int, Writer<N, C>>) {
    forall w :: w < 0 && (w in before || w in after) ==> w in before && w in after && after[w] == before[w]
  }

  /** A cache directory as one process sees it. Its own writers are numbered -1, -2, ...
      as it starts them; the others have the numbers from 0 on. */
  class CacheDirectory<N(!new,==), C(==)> {
    var world: World<N, C>
    var calls: nat
    /** What the other writers are going to do. */
    var others: seq<Step<N, C>>
    /** What a writer may publish under a name. */
    const offered: (N, C) -> bool
    /** Every state so far and the steps between them, this process's and the others' alike. */
    ghost var trace: seq<World<N, C>>
    ghost var steps: seq<Step<N, C>>

    constructor (initial: map<N, C>, others: seq<Step<N, C>>, offered: (N, C) -> bool)
      ensures Valid() && world == World(initial, map[]) && trace == [world]
      ensures this.offered == offered && this.others == others
    {
      world, calls, this.others, this.offered := World(initial, map[]), 0, others, offered;
      trace, steps := [World(initial, map[])], [];
    }

    ghost predicate Valid()
      reads this
    {
      && IsRun(offered, trace, steps) && trace[|steps|] == world
      && (forall w :: w in world.writers && w < 0 ==> -w <= calls)
    }

    /** The run so far goes on. */
    twostate predicate GoesOn()
      reads this
    {
      Valid() && old(trace) <= trace
    }

    /** What the run did to the files since is what any writer may do. */
    twostate lemma SinceIsAllowed()
      requires old(Valid()) && GoesOn()
      ensures Allowed(offered, old(world.files), world.files)
    {
      RunIsAllowed(offered, trace, steps, |old(steps)|, |steps|);
    }

    /** One step of some writer. */
    method Perform(step: Step<N, C>)
      requires Valid() && CanStep(offered, world, step) && (step.Spawn? && step.w < 0 ==> -step.w <= calls)
      modifies this`world, this`trace, this`steps
      ensures GoesOn() && world == DoStep(offered, old(world), step)
    {
      world := DoStep(offered, world, step);
      trace, steps := trace + [world], steps + [step];
    }

    /** What the other writers do before the next step of this process. */
    method Interfere()
      requires Valid()
      modifies this`world, this`others, this`trace, this`steps
      ensures GoesOn() && OwnKept(old(world.writers), world.writers)
      ensures old(others) == [] ==> world == old(world) && others == []
    {
      while |others| > 0
        invariant GoesOn() && OwnKept(old(world.writers), world.writers)
        invariant old(others) == [] ==> world == old(world) && others == []
        decreases |others|
      {
        if * {
          break;
        }
        var step := others[0];
        others := others[1..];
        if step.w >= 0 && CanStep(offered, world, step) {
          Perform(step);
        }
      }
    }

    /** An own writer has got from one position to another as the file system answered. */
    twostate predicate Went(me: int, io: Io<C>, at: Position)
      requires me in old(world.writers)
      reads this
    {
      && GoesOn() && me in world.writers && world.writers[me].at == at && Faithful(io, world.writers[me])
      && world.writers[me].name == old(world.writers[me].name)
      && world.writers[me].content == old(world.writers[me].content)
    }

    /** An own writer is at a place, having met what the file system answered. */
    ghost predicate IsAt(me: int, io: Io<C>, at: Position)
      reads this
    {
      Valid() && me < 0 && me in world.writers && world.writers[me].at == at && Faithful(io, world.writers[me])
    }

    method Take(me: int, io: Io<C>, step: Step<N, C>)
      requires Valid() && me < 0 && me in world.writers && step.w == me && CanStep(offered, world, step)
      requires Faithful(io, world.writers[me]) && Answered(io, world.writers[me], step)
      modifies this`world, this`trace, this`steps
      ensures Went(me, io, Moved(old(world.writers[me]), step).at)
      ensures step.TryRename? && step.rename == Renamed ==> world.writers[me].won
      ensures world.files == FilesAfter(old(world.files), old(world.writers[me]), step)
    {
      OwnIsSound(me);
      StepKeepsFaith(world.files, io, world.writers[me], step);
      Perform(step);
    }

    lemma OwnIsSound(me: int)
      requires Valid() && me in world.writers
      ensures Sound(offered, world.writers[me])
    {
      RunInv(offered, trace, steps, |steps|);
    }

    /** The own content is in place now, after being put or seen there. */
    twostate predicate InPlace(me: int)
      requires me in world.writers && |trace| > 0
      reads this
    {
      && Held(trace, |old(trace)| - 1, world.writers[me].name, world.writers[me].content)
      && Settled(offered, world.files, world.writers[me].name)
    }

    /** Nobody else has been or will be at work, and the files are these. */
    twostate predicate Undisturbed(new files: map<N, C>)
      reads this
    {
      old(others) == [] ==> others == [] && world.files == files
    }

    /** Rename the temporary file over the name. */
    method Rename(me: int, io: Io<C>) returns (r: Rename)
      requires me in world.writers && IsAt(me, io, world.writers[me].at)
      requires var at := world.writers[me].at; at == Ready || at.ToRetry? || at == ToRenameLast
      modifies this`world, this`others, this`trace, this`steps
      ensures Went(me, io, if r == Renamed then Finished(Published) else Beaten(old(world.writers[me].at), r))
      ensures r == Renamed ==> InPlace(me) && world.writers[me].won
      ensures Undisturbed(if r == Renamed then old(world.files)[world.writers[me].name := world.writers[me].content]
                          else old(world.files))
    {
      Interfere();
      OwnIsSound(me);
      r := io.renames(world.writers[me].renames);
      Take(me, io, TryRename(me, r));
      assert r == Renamed ==> Holds(trace[|steps|].files, world.writers[me].name, world.writers[me].content);
    }

    /** Read the file under the name and compare it with the expected content. */
    method Validate(me: int, io: Io<C>) returns (r: Validation)
      requires me in world.writers && IsAt(me, io, world.writers[me].at) && world.writers[me].at.ToValidate?
      modifies this`world, this`others, this`trace, this`steps
      ensures Went(me, io, match r
                           case Matches => ToDiscard(Published)
                           case ReadFailed => ToDiscard(Refused)
                           case _ => ToRetry(old(world.writers[me].at.attempt)))
      ensures r == Matches ==> InPlace(me)
      ensures Undisturbed(old(world.files))
      ensures old(others) == [] && r == Matches ==>
                Holds(old(world.files), world.writers[me].name, world.writers[me].content)
    {
      Interfere();
      OwnIsSound(me);
      var x := world.writers[me];
      match io.readings(x.validations) {
        case ReadBlocked =>
          r := ReadContended;
        case ReadBroken =>
          r := ReadFailed;
        case ReadWhole =>
          r := if x.name in world.files && world.files[x.name] == x.content then Matches else Differs;
      }
      Take(me, io, TryValidate(me, r));
      assert r == Matches ==> Holds(trace[|steps|].files, x.name, x.content);
    }

    /** Try to remove the temporary file; failure is ignored. */
    method RemoveTemp(me: int, io: Io<C>)
      requires me in world.writers && IsAt(me, io, world.writers[me].at)
      requires world.writers[me].at.ToDiscard? || world.writers[me].at == ToDiscardAgain
      modifies this`world, this`trace, this`steps
      ensures Went(me, io, match old(world.writers[me].at)
                           case ToDiscard(Published) => Finished(Published)
                           case ToDiscard(Refused) => ToDiscardAgain
                           case _ => Finished(Refused))
      ensures world.files == old(world.files)
    {
      Take(me, io, Discard(me, io.removes));
    }

    /** Validate and rename in turn until one of them decides. */
    method Contend(me: int, io: Io<C>) returns (outcome: Contest)
      requires IsAt(me, io, ToValidate(0))
      modifies this`world, this`others, this`trace, this`steps
      ensures Went(me, io, match outcome
                           case Won => Finished(Published)
                           case Accepted => ToDiscard(Published)
                           case Broken => ToDiscard(Refused)
                           case Exhausted => ToRemoveStale)
      ensures outcome.Won? || outcome.Accepted? ==> InPlace(me)
      ensures outcome.Won? ==> world.writers[me].won
      ensures var x := world.writers[me];
              Undisturbed(if outcome == Won then old(world.files)[x.name := x.content] else old(world.files))
      ensures var x := world.writers[me];
              old(others) == [] && outcome == Accepted ==> Holds(old(world.files), x.name, x.content)
    {
      for attempt := 0 to PUBLISH_RETRY_ATTEMPTS + 1
        invariant Went(me, io, if attempt <= PUBLISH_RETRY_ATTEMPTS then ToValidate(attempt) else ToRemoveStale)
        invariant Undisturbed(old(world.files))
      {
        var validation := Validate(me, io);
        if validation == Matches {
          return Accepted;
        }
        if validation == ReadFailed {
          return Broken;
        }
        var again := Rename(me, io);
        if again == Renamed {
          return Won;
        }
        if again == RenameFailed {
          return Broken;
        }
      }
      return Exhausted;
    }

    /** Try to remove a stale destination; failure is ignored. */
    method RemoveStaleFile(me: int, io: Io<C>)
      requires IsAt(me, io, ToRemoveStale)
      modifies this`world, this`others, this`trace, this`steps
      ensures Went(me, io, ToRenameLast)
      ensures Undisturbed(if io.removesStale then old(world.files) - {world.writers[me].name} else old(world.files))
    {
      Interfere();
      Take(me, io, RemoveStale(me, io.removesStale));
    }

    /** Remove a stale destination, ignoring failure, and rename once more. */
    method ReplaceStale(me: int, io: Io<C>) returns (r: Publication)
      requires IsAt(me, io, ToRemoveStale)
      modifies this`world, this`others, this`trace, this`steps
      ensures Went(me, io, if r == Published then Finished(Published) else ToDiscardAgain)
      ensures r == Published ==> InPlace(me) && world.writers[me].won
      ensures var x := world.writers[me];
              old(others) == [] ==>
                others == [] && Leaves(io, old(world.files), world.files, x.name, x.content, r)
    {
      RemoveStaleFile(me, io);
      label Removed:
      var last := Rename(me, io);
      if last == Renamed {
        assert old@Removed(world.files)[world.writers[me].name := world.writers[me].content]
            == old(world.files)[world.writers[me].name := world.writers[me].content] || old(others) != [];
        return Published;
      }
      RemoveTemp(me, io);
      return Refused;
    }

    /** Publish the temporary file after a first rename that met contention. */
    method OutlastContention(me: int, io: Io<C>) returns (r: Publication)
      requires IsAt(me, io, ToValidate(0))
      modifies this`world, this`others, this`trace, this`steps
      ensures Went(me, io, if r == Published then Finished(Published) else ToDiscardAgain)
      ensures r == Published ==> InPlace(me)
      ensures old(others) == [] ==>
                var x := world.writers[me];
                && others == [] && Leaves(io, old(world.files), world.files, x.name, x.content, r)
                && (r == Published ==> x.won || Holds(old(world.files), x.name, x.content))
    {
      var outcome := Contend(me, io);
      match outcome {
        case Won =>
          return Published;
        case Accepted =>
          ghost var before := trace;
          RemoveTemp(me, io);
          HeldLonger(before, trace, |old(trace)| - 1, world.writers[me].name, world.writers[me].content);
          return Published;
        case Broken =>
          RemoveTemp(me, io);
          return Refused;
        case Exhausted =>
          r := ReplaceStale(me, io);
      }
    }

    /** Publish the temporary file under the name, tolerating concurrent publishers. */
    method PublishTemp(me: int, io: Io<C>) returns (r: Publication)
      requires IsAt(me, io, Ready)
      modifies this`world, this`others, this`trace, this`steps
      ensures Went(me, io, if r == Published then Finished(Published) else ToDiscardAgain)
      ensures r == Published ==> InPlace(me)
      ensures old(others) == [] ==>
                var x := world.writers[me];
                && others == [] && Leaves(io, old(world.files), world.files, x.name, x.content, r)
                && (r == Published ==> x.won || Holds(old(world.files), x.name, x.content))
    {
      var first := Rename(me, io);
      if first == Renamed {
        return Published;
      }
      if first == RenameFailed {
        RemoveTemp(me, io);
        return Refused;
      }
      r := OutlastContention(me, io);
    }

    /** Write the temporary file; on failure it may hold anything or be missing. */
    method WriteTemp(me: int, io: Io<C>)
      requires IsAt(me, io, Writing)
      modifies this`world, this`trace, this`steps
      ensures Went(me, io, if io.written then Ready else ToDiscardAgain)
      ensures world.files == old(world.files)
    {
      if io.partial.Some? {
        Take(me, io, WriteSome(me, io.partial.value));
      }
      Take(me, io, if io.written then WriteAll(me) else FailWrite(me));
    }

    /** Start a writer of its own. */
    method Start(n: N, content: C, ghost io: Io<C>) returns (me: int)
      requires Valid() && offered(n, content)
      modifies this`world, this`calls, this`trace, this`steps
      ensures GoesOn() && calls == old(calls) + 1 && me == 0 - calls && IsAt(me, io, Writing)
      ensures world.writers[me].name == n && world.writers[me].content == content
      ensures world.files == old(world.files)
    {
      calls := calls + 1;
      me := 0 - calls;
      Perform(Spawn(me, n, content));
    }

    /** Write the temporary file and publish it; on any failure remove it. */
    method WriteAndPublish(me: int, io: Io<C>) returns (r: Publication)
      requires IsAt(me, io, Writing)
      modifies this`world, this`others, this`trace, this`steps
      ensures Went(me, io, Finished(r))
      ensures r == Published ==> InPlace(me)
      ensures old(others) == [] ==>
                var x := world.writers[me];
                && others == [] && Leaves(io, old(world.files), world.files, x.name, x.content, r)
                && (r == Published ==> x.won || Holds(old(world.files), x.name, x.content))
    {
      WriteTemp(me, io);
      if !io.written {
        RemoveTemp(me, io);
        return Refused;
      }
      r := PublishTemp(me, io);
      if r == Refused {
        RemoveTemp(me, io);
      }
    }

    /** Write a unique sibling, then rename it into place. The call is one writer of the
        run; when it returns, that writer has finished with the result returned. */
    method AtomicWrite(n: N, content: C, io: Io<C>) returns (r: Publication)
      requires Valid() && offered(n, content)
      modifies this`world, this`calls, this`others, this`trace, this`steps
      ensures GoesOn() && calls == old(calls) + 1 && 0 - calls in world.writers
      ensures var x := world.writers[0 - calls];
              && x.name == n && x.content == content && x.at == Finished(r)
              && x.renames <= 6 && x.validations <= 4 && (x.temp.Some? ==> x.stuck && !io.removes)
              && (r == Refused ==> !x.won && (x.broken || (x.renames == 6 && x.validations == 4)))
              && Told(io, x, r)
      ensures r == Published ==> Held(trace, |old(trace)| - 1, n, content) && Settled(offered, world.files, n)
      ensures Favours(io) ==> r == Published
      ensures old(others) == [] ==>
                && others == [] && Leaves(io, old(world.files), world.files, n, content, r)
                && (r == Published && !Holds(old(world.files), n, content) ==> Favours(io))
    {
      var me := Start(n, content, io);
      r := WriteAndPublish(me, io);
      OwnIsSound(me);
      ghost var x := world.writers[me];
      if Favours(io) {
        FavouredIsPublished(io, x, r);
      }
      assert r == Published && x.won ==> io.renames(x.renames - 1) == Renamed;
    }
  }
}
