/** The launch as it runs, from the journaled intent to the running VM or the
    completed rollback, and the recovery of one stale session. */
module Provisioning {
  import opened Common
  import opened Journal
  import opened Protocol
  import opened Ownership
  import opened Cleanup

  datatype Materialization = Create | Reuse | ReuseAndReclassify | Reject

  /** What to do with the file at a disk's path. */
  function ClassifyDisk(exists_: bool, retention: Retention, policy: ExistingPolicy): Materialization {
    if !exists_ then Create
    else match (retention, policy)
      case (_, RejectExisting) => Reject
      case (Ephemeral, ReuseAndKeep) => ReuseAndReclassify
      case (Persistent, ReuseAndKeep) => Reuse
  }

  /** The documented table: it makes the policy matter for ephemeral disks only. */
  function DocumentedMaterialization(exists_: bool, retention: Retention, policy: ExistingPolicy): Materialization {
    if !exists_ then Create
    else if retention == Persistent then Reuse
    else if policy == ReuseAndKeep then ReuseAndReclassify
    else Reject
  }

  /** The code departs from the table exactly for an existing file wanted as a persistent
      disk under the policy that rejects existing files: it rejects it. */
  lemma TableIsFollowedExactly(exists_: bool, retention: Retention, policy: ExistingPolicy)
    ensures ClassifyDisk(exists_, retention, policy) == DocumentedMaterialization(exists_, retention, policy)
            <==> !(exists_ && retention == Persistent && policy == RejectExisting)
    ensures ClassifyDisk(true, Persistent, RejectExisting) == Reject
  {
  }

  /** The launch is about to materialize disk i. */
  ghost predicate DiskIsDue(host: Host, vm: VmId, i: nat, specs: seq<DiskSpec>)
    reads host, host.journal
  {
    && host.journal.Valid() && vm in host.journal.vms
    && host.activity.Launching? && host.activity.step == DiskDue(i) && host.activity.specs == specs
    && |specs| == |host.journal.vms[vm].disks|
  }

  /** The recorded disk describes the file at its path when its identity was read: a
      file found there is never owned, never initialized and kept; a file created
      here is owned under an identity never seen before. */
  predicate Materialized(d: Disk, spec: DiskSpec, vm: VmId, i: nat, before: Files, after: Files) {
    && d.state == Created && d.aceAdded && d.identity.Some?
    && (if d.origin == PreExisting then
          spec.onExisting == ReuseAndKeep && d.effective == Persistent && !d.initRequested
        else
          && d.effective == d.requested && d.initRequested
          && d.identity.value !in before.known && MadeBy(after, d.identity.value, vm, i))
  }

  function WithDisk(r: VmRecord, i: nat, d: Disk): VmRecord {
    if i < |r.disks| then r.(disks := r.disks[i := d]) else r
  }

  /** Journal the captured identity before the disk is attached. */
  method JournalIdentity(host: Host, vm: VmId, session: SessionId, i: nat, identity: FileIdentity, mine: bool)
    returns (ok: bool)
    requires host.journal.Valid() && host.Tracking(vm, session) && vm in host.journal.vms
    requires host.activity.Launching? && host.activity.step == DiskSeen(i, identity, mine)
    requires i < |host.journal.vms[vm].disks| == |host.activity.specs|
    modifies host.journal`vms, host`activity
    ensures host.journal.Valid() && host.Tracking(vm, session) && host.activity.Launching?
    ensures host.activity == if ok then old(host.activity).(step := DiskNoted(i)) else old(host.activity)
    ensures ok ==> vm in host.journal.vms &&
                   var r := old(host.journal.vms)[vm];
                   host.journal.vms[vm] == WithDisk(r, i, NotedDisk(r.disks[i], identity, mine))
    ensures host.reliable ==> ok
  {
    ghost var before := host.View(vm, session);
    ok := host.TryUpdate(vm, (r: VmRecord) => if i < |r.disks|
                                              then WithDisk(r, i, NotedDisk(r.disks[i], identity, mine)) else r);
    if ok {
      host.activity := host.activity.(step := DiskNoted(i));
      host.Performed(vm, session, before, InLaunch(NoteDisk));
    }
  }

  /** Grant the VM access to the file and journal the temporary access entry; either may fail. */
  method JournalAccess(host: Host, vm: VmId, session: SessionId, i: nat, grants: bool) returns (ok: bool)
    requires host.journal.Valid() && host.Tracking(vm, session) && vm in host.journal.vms
    requires host.activity.Launching? && host.activity.step == DiskNoted(i)
    requires i < |host.journal.vms[vm].disks| == |host.activity.specs|
    modifies host.journal`vms, host`activity
    ensures host.journal.Valid() && host.Tracking(vm, session) && host.activity.Launching?
    ensures host.activity == if ok then old(host.activity).(step := DiskDue(i + 1)) else old(host.activity)
    ensures ok ==> vm in host.journal.vms &&
                   var r := old(host.journal.vms)[vm];
                   host.journal.vms[vm] == WithDisk(r, i, r.disks[i].(aceAdded := true))
    ensures ok ==> grants
    ensures host.reliable && grants ==> ok
  {
    if !grants {
      return false;
    }
    ghost var before := host.View(vm, session);
    ok := host.TryUpdate(vm, (r: VmRecord) => if i < |r.disks|
                                              then WithDisk(r, i, r.disks[i].(aceAdded := true)) else r);
    if ok {
      host.activity := host.activity.(step := DiskDue(i + 1));
      host.Performed(vm, session, before, InLaunch(NoteAce));
    }
  }

  /** What the host answers while one disk is materialized: whether the file is created and
      under which identity, whether the identity can be read, whether a file found is a
      valid image, whether access can be granted. */
  datatype DiskWork = DiskWork(creates: bool, identity: FileIdentity, readable: bool, valid: bool, grants: bool)

  /** Create the file under an identity never seen before; it fails if the path is taken by then. */
  method CreateFile(host: Host, vm: VmId, session: SessionId, i: nat, work: DiskWork) returns (ok: bool)
    requires host.Tracking(vm, session) && vm in host.journal.vms
    requires host.activity.Launching? && host.activity.step == DiskDue(i)
    requires i < |host.journal.vms[vm].disks| == |host.activity.specs|
    modifies host`activity, host`fs
    ensures host.Tracking(vm, session) && host.activity.Launching?
    ensures host.activity == if ok then old(host.activity).(step := DiskMade(i)) else old(host.activity)
    ensures host.fs.known >= old(host.fs).known
    ensures ok ==> var path := host.journal.vms[vm].disks[i].path;
                   path in host.fs.at && host.fs.at[path] == work.identity && work.identity !in old(host.fs).known
                   && MadeBy(host.fs, work.identity, vm, i)
    ensures !host.shared ==> (ok <==> work.creates && host.journal.vms[vm].disks[i].path !in old(host.fs).at
                                      && work.identity !in old(host.fs).known)
    ensures !host.shared ==>
              host.fs == if ok then WithFile(old(host.fs), host.journal.vms[vm].disks[i].path, work, vm, i)
                         else old(host.fs)
  {
    var path := host.journal.vms[vm].disks[i].path;
    host.Others(vm, session);
    ok := work.creates && path !in host.fs.at && work.identity !in host.fs.known;
    if ok {
      ghost var before := host.View(vm, session);
      host.fs := host.fs.(at := host.fs.at[path := work.identity], known := host.fs.known + {work.identity},
                          made := host.fs.made[work.identity := Maker(vm, i)]);
      host.activity := host.activity.(step := DiskMade(i));
      host.Performed(vm, session, before, InLaunch(MakeDisk(work.identity)));
    }
  }

  /** The files with one more, made for disk i of the VM. */
  ghost function WithFile(fs: Files, path: Path, work: DiskWork, vm: VmId, i: nat): Files {
    fs.(at := fs.at[path := work.identity], known := fs.known + {work.identity},
        made := fs.made[work.identity := Maker(vm, i)])
  }

  /** Undisturbed, a disk is acquired exactly so: a file at its path is reused if the policy
      keeps existing files and it is a valid image; a missing one has to be created. */
  predicate Acquirable(fs: Files, spec: DiskSpec, path: Path, work: DiskWork) {
    if path in fs.at then spec.onExisting == ReuseAndKeep && work.valid
    else work.creates && work.identity !in fs.known
  }

  /** Classify the path and create the file if it is free. When the path is taken
      while the file is being created, the existing-file policy is applied after all. */
  method ClassifyOrCreate(host: Host, vm: VmId, session: SessionId, i: nat, specs: seq<DiskSpec>, work: DiskWork)
    returns (ok: bool, mine: bool)
    requires DiskIsDue(host, vm, i, specs) && i < |specs| && host.Tracking(vm, session)
    modifies host`activity, host`fs
    ensures host.Tracking(vm, session) && host.fs.known >= old(host.fs).known
    ensures host.activity == if ok && mine then old(host.activity).(step := DiskMade(i)) else old(host.activity)
    ensures ok && !mine ==> specs[i].onExisting == ReuseAndKeep && work.valid
    ensures !ok && host.journal.vms[vm].disks[i].path in host.fs.at ==>
              !(specs[i].onExisting == ReuseAndKeep && work.valid)
    ensures ok && mine ==> var path := host.journal.vms[vm].disks[i].path;
                           && path in host.fs.at && host.fs.at[path] == work.identity
                           && work.identity !in old(host.fs).known
                           && MadeBy(host.fs, work.identity, vm, i)
    ensures !host.shared ==>
              var path := host.journal.vms[vm].disks[i].path;
              && (ok <==> Acquirable(old(host.fs), specs[i], path, work))
              && (ok ==> (mine <==> path !in old(host.fs).at))
              && host.fs == if ok && mine then WithFile(old(host.fs), path, work, vm, i) else old(host.fs)
  {
    var path := host.journal.vms[vm].disks[i].path;
    host.Others(vm, session);
    var classification := ClassifyDisk(path in host.fs.at, specs[i].retention, specs[i].onExisting);
    if classification == Create {
      ok := CreateFile(host, vm, session, i, work);
      if ok {
        return true, true;
      }
      host.Others(vm, session);
      if path !in host.fs.at {
        return false, false;
      }
      classification := ClassifyDisk(true, specs[i].retention, specs[i].onExisting);
    }
    return classification != Reject && work.valid, false;
  }

  /** Create or reuse the file and capture its identity; a file created here is guarded. */
  method AcquireFile(host: Host, vm: VmId, session: SessionId, i: nat, specs: seq<DiskSpec>, work: DiskWork,
                     guarded: seq<GuardedFile>)
    returns (ok: bool, identity: FileIdentity, mine: bool, guarded': seq<GuardedFile>)
    requires DiskIsDue(host, vm, i, specs) && i < |specs| && host.Tracking(vm, session)
    requires host.activity.guarded == guarded
    modifies host`activity, host`fs
    ensures host.Tracking(vm, session) && host.activity.Launching? && host.activity.guarded == guarded'
    ensures ok ==> host.activity == Launching(DiskSeen(i, identity, mine), guarded', specs)
    ensures ok && !mine ==> specs[i].onExisting == ReuseAndKeep && work.valid && guarded' == guarded
    ensures ok && mine ==>
              && identity == work.identity && identity !in old(host.fs).known && MadeBy(host.fs, identity, vm, i)
              && guarded' == guarded + [GuardedFile(host.journal.vms[vm].disks[i].path, identity)]
    ensures !host.shared ==>
              var path := host.journal.vms[vm].disks[i].path;
              && (ok <==> Acquirable(old(host.fs), specs[i], path, work) && work.readable)
              && (ok ==> (mine <==> path !in old(host.fs).at)
                         && identity == if mine then work.identity else old(host.fs).at[path])
              && (ok ==> host.fs == if mine then WithFile(old(host.fs), path, work, vm, i) else old(host.fs))
  {
    guarded', identity := guarded, FileIdentity(0, 0);
    var path := host.journal.vms[vm].disks[i].path;
    ok, mine := ClassifyOrCreate(host, vm, session, i, specs, work);
    if !ok {
      return;
    }
    host.Others(vm, session);
    ok := work.readable && path in host.fs.at;
    if ok {
      ghost var before := host.View(vm, session);
      assert mine ==> path in CreateWindow(before.local);
      identity := host.fs.at[path];
      if mine {
        guarded' := guarded + [GuardedFile(path, identity)];
      }
      host.activity := Launching(DiskSeen(i, identity, mine), guarded', specs);
      host.Performed(vm, session, before, InLaunch(SeeDisk));
    }
  }

  /** Classify, create or validate, capture the identity, journal it. */
  method MaterializeDisk(host: Host, vm: VmId, session: SessionId, i: nat, specs: seq<DiskSpec>, work: DiskWork,
                         guarded: seq<GuardedFile>)
    returns (ok: bool, guarded': seq<GuardedFile>)
    requires DiskIsDue(host, vm, i, specs) && i < |specs| && host.Tracking(vm, session)
    requires host.activity.guarded == guarded
    modifies host.journal`vms, host`activity, host`fs
    ensures host.journal.Valid() && host.Tracking(vm, session) && host.activity.Launching?
    ensures host.activity.guarded == guarded'
    ensures ok ==> DiskIsDue(host, vm, i + 1, specs)
    ensures ok ==> Materialized(host.journal.vms[vm].disks[i], specs[i], vm, i, old(host.fs), host.fs)
    ensures ok ==> forall j :: 0 <= j < |specs| && j != i ==>
              host.journal.vms[vm].disks[j] == old(host.journal.vms)[vm].disks[j]
    ensures ok ==> SameShape(host.journal.vms[vm], old(host.journal.vms)[vm])
    ensures ok ==> host.journal.vms[vm] == old(host.journal.vms)[vm].(disks := host.journal.vms[vm].disks)
    ensures !host.shared && ok ==>
              var path := old(host.journal.vms)[vm].disks[i].path;
              && Acquirable(old(host.fs), specs[i], path, work) && work.readable && work.grants
              && host.fs == (if path in old(host.fs).at then old(host.fs)
                             else WithFile(old(host.fs), path, work, vm, i))
              && host.journal.vms[vm].disks[i].identity
                 == Some(if path in old(host.fs).at then old(host.fs).at[path] else work.identity)
    ensures !host.shared && host.reliable && work.readable && work.grants ==>
              Acquirable(old(host.fs), specs[i], old(host.journal.vms)[vm].disks[i].path, work) ==> ok
  {
    var identity, mine;
    ok, identity, mine, guarded' := AcquireFile(host, vm, session, i, specs, work, guarded);
    if ok {
      ok := JournalIdentity(host, vm, session, i, identity, mine);
      if ok {
        ok := JournalAccess(host, vm, session, i, work.grants);
      }
    }
  }

  // ---------------------------------------------------------------------
  // The provisioning guard
  // ---------------------------------------------------------------------

  function Identities(guarded: seq<GuardedFile>): set<FileIdentity> {
    set i | 0 <= i < |guarded| :: guarded[i].identity
  }

  /** A guarded file is where it was made. */
  predicate InPlace(fs: Files, g: GuardedFile) {
    g.path in fs.at && fs.at[g.path] == g.identity
  }

  /** Files are only taken away. */
  ghost predicate Shrinks(fs: Files, fs': Files) {
    forall p :: p in fs'.at ==> p in fs.at && fs'.at[p] == fs.at[p]
  }

  /** Nothing stands in the way of removing files. */
  ghost predicate AllUnlink(answers: nat -> DiskAnswer) {
    forall n :: answers(n).readable && answers(n).unlinks
  }

  /** Remove one guarded file if it still carries the captured identity when it is
      compared. Others act before the comparison and between it and the unlink. */
  method SweepOne(host: Host, vm: VmId, session: SessionId, g: GuardedFile, rest: seq<GuardedFile>, answer: DiskAnswer)
    requires host.Tracking(vm, session) && host.activity == Sweeping([g] + rest, false)
    modifies host`fs, host`activity
    ensures host.Tracking(vm, session) && host.activity == Sweeping(rest, false)
    ensures DeletesOnly(vm, old(host.fs), host.fs, {g.identity})
    ensures MadeGrows(old(host.fs), host.fs)
    ensures answer.readable && answer.unlinks ==> !InPlace(host.fs, g)
    ensures !host.shared ==> Shrinks(old(host.fs), host.fs)
  {
    host.Others(vm, session);
    ghost var before := host.View(vm, session);
    if !answer.readable || !InPlace(host.fs, g) {
      host.activity := Sweeping(rest, false);
      host.Performed(vm, session, before, InLife(CheckFile(answer.readable)));
      return;
    }
    host.activity := Sweeping([g] + rest, true);
    host.Performed(vm, session, before, InLife(CheckFile(answer.readable)));
    host.Others(vm, session);
    before := host.View(vm, session);
    assert g.path in CheckWindow(before.local);
    if answer.unlinks && g.path in host.fs.at {
      host.fs := Unlink(host.fs, g.path);
    }
    host.activity := Sweeping(rest, false);
    host.Performed(vm, session, before, InLife(SweepFile(answer.unlinks)));
  }

  predicate MadeGrows(fs: Files, fs': Files) {
    forall id :: id in fs.made ==> id in fs'.made && fs'.made[id] == fs.made[id]
  }

  /** Remove the files this launch created: of its own files only guarded ones go. */
  method SweepGuard(host: Host, vm: VmId, session: SessionId, guarded: seq<GuardedFile>, answers: nat -> DiskAnswer)
    requires host.Tracking(vm, session) && host.activity == Sweeping(guarded, false)
    modifies host`fs, host`activity
    ensures host.Tracking(vm, session) && host.activity == Idle
    ensures DeletesOnly(vm, old(host.fs), host.fs, Identities(guarded))
    ensures !host.shared && AllUnlink(answers) ==> forall g :: g in guarded ==> !InPlace(host.fs, g)
  {
    for n := 0 to |guarded|
      invariant host.Tracking(vm, session) && host.activity == Sweeping(guarded[n..], false)
      invariant DeletesOnly(vm, old(host.fs), host.fs, Identities(guarded))
      invariant !host.shared && AllUnlink(answers) ==> forall i :: 0 <= i < n ==> !InPlace(host.fs, guarded[i])
    {
      assert guarded[n..] == [guarded[n]] + guarded[n + 1..];
      SweepOne(host, vm, session, guarded[n], guarded[n + 1..], answers(n));
      assert guarded[n].identity in Identities(guarded);
    }
    ghost var before := host.View(vm, session);
    host.activity := Idle;
    host.Performed(vm, session, before, InLife(EndSweep));
  }

  /** A record after one pass over it: gone, given up on the last attempt, or with one attempt more. */
  ghost predicate HadAPass(r: VmRecord, vm: VmId, now: map<VmId, VmRecord>) {
    || vm !in now
    || (IsComplete(now[vm]) && r.attempts + 1 >= MAX_CLEANUP_ATTEMPTS)
    || now[vm].attempts == r.attempts + 1
  }

  /** Dropping the armed guard: one cleanup pass, then the sweep of the created files. */
  method DropGuard(host: Host, vm: VmId, session: SessionId, guarded: seq<GuardedFile>, answers: Answers,
                   sweep: nat -> DiskAnswer, now: nat)
    requires host.journal.Valid() && host.Tracking(vm, session) && host.activity.Launching?
    requires host.activity.guarded == guarded
    modifies host.journal, host`systems, host`networks, host`fs, host`activity, host`errPasses
    ensures host.journal.Valid() && host.Tracking(vm, session) && host.activity == Idle
    ensures host.Rest(vm) == old(host.Rest(vm))
    ensures host.reliable && vm in old(host.journal.vms) ==> HadAPass(old(host.journal.vms)[vm], vm, host.journal.vms)
    ensures !host.shared && AllUnlink(sweep) ==> forall g :: g in guarded ==> !InPlace(host.fs, g)
  {
    ghost var before := host.View(vm, session);
    host.activity := Cleaning(Begin, ByGuard(guarded));
    host.Performed(vm, session, before, InLaunch(FailLaunch));
    var result, summary := host.CleanupRecord(vm, session, answers, now, Summary(0, 0, 0, 0));
    SweepGuard(host, vm, session, guarded, sweep);
  }

  // ---------------------------------------------------------------------
  // The launch
  // ---------------------------------------------------------------------

  /** Create the network and endpoint, then journal them. */
  method ProvisionNetwork(host: Host, vm: VmId, session: SessionId, creates: bool) returns (ok: bool)
    requires host.journal.Valid() && host.Tracking(vm, session) && vm in host.journal.vms
    requires host.journal.vms[vm].network.Some?
    requires host.activity.Launching? && host.activity.step == NetworkDue
    modifies host.journal`vms, host`networks, host`activity
    ensures host.journal.Valid() && host.Tracking(vm, session)
    ensures host.activity.Launching? && host.activity.guarded == old(host.activity.guarded)
    ensures host.activity.specs == old(host.activity.specs)
    ensures ok ==> host.activity.step == DiskDue(0)
    ensures ok ==> host.journal.vms == old(host.journal.vms)[vm := old(host.journal.vms)[vm].(network := Some(Created))]
    ensures ok ==> creates && vm in host.networks
    ensures host.reliable && creates ==> ok
  {
    if !creates {
      return false;
    }
    ghost var before := host.View(vm, session);
    host.networks := host.networks + {vm};
    host.activity := host.activity.(step := NetworkMade);
    host.Performed(vm, session, before, InLaunch(MakeNetwork));
    before := host.View(vm, session);
    ok := host.TryUpdate(vm, (r: VmRecord) => r.(network := Some(Created)));
    if ok {
      host.activity := host.activity.(step := DiskDue(0));
      host.Performed(vm, session, before, InLaunch(NoteNetwork));
    }
  }

  /** Create the compute system, then journal it. */
  method ProvisionCompute(host: Host, vm: VmId, session: SessionId, creates: bool) returns (ok: bool)
    requires host.journal.Valid() && host.Tracking(vm, session) && vm in host.journal.vms
    requires host.activity.Launching? && host.activity.step == DiskDue(|host.journal.vms[vm].disks|)
    modifies host.journal`vms, host`systems, host`activity
    ensures host.journal.Valid() && host.Tracking(vm, session)
    ensures if ok then host.activity == Running
            else host.activity.Launching? && host.activity.guarded == old(host.activity.guarded)
    ensures ok ==> creates && vm in host.systems
    ensures ok ==>
              host.journal.vms
              == old(host.journal.vms)[vm := old(host.journal.vms)[vm].(compute := Created, phase := Starting)]
    ensures host.reliable && creates ==> ok
  {
    if !creates {
      return false;
    }
    ghost var before := host.View(vm, session);
    host.systems := host.systems + {vm};
    host.activity := host.activity.(step := ComputeMade);
    host.Performed(vm, session, before, InLaunch(MakeCompute));
    before := host.View(vm, session);
    ok := host.TryUpdate(vm, (r: VmRecord) => r.(compute := Created, phase := Starting));
    if ok {
      host.activity := Running;
      host.Performed(vm, session, before, InLaunch(NoteCompute));
    }
  }

  /** Undisturbed, the disks from n on can be materialized: each path holds a valid image to
      be kept, or is free for a new file of its own. */
  predicate RestGoes(fs: Files, specs: seq<DiskSpec>, work: nat -> DiskWork, n: nat) {
    && (forall i :: n <= i < |specs| ==>
          Acquirable(fs, specs[i], specs[i].path, work(i)) && work(i).readable && work(i).grants)
    && (forall i, j :: n <= i < j < |specs| ==>
          specs[i].path != specs[j].path && work(i).identity != work(j).identity)
  }

  lemma RestGoesOn(fs: Files, specs: seq<DiskSpec>, work: nat -> DiskWork, n: nat, fs': Files, vm: VmId)
    requires n < |specs| && RestGoes(fs, specs, work, n)
    requires fs' == if specs[n].path in fs.at then fs else WithFile(fs, specs[n].path, work(n), vm, n)
    ensures RestGoes(fs', specs, work, n + 1)
  {
  }

  method ProvisionDisks(host: Host, vm: VmId, session: SessionId, specs: seq<DiskSpec>, work: nat -> DiskWork)
    returns (ok: bool, guarded: seq<GuardedFile>)
    requires DiskIsDue(host, vm, 0, specs) && host.Tracking(vm, session) && host.activity.guarded == []
    requires forall i :: 0 <= i < |specs| ==> host.journal.vms[vm].disks[i].path == specs[i].path
    modifies host.journal`vms, host`activity, host`fs
    ensures host.journal.Valid() && host.Tracking(vm, session) && host.activity.Launching?
    ensures host.activity.guarded == guarded
    ensures ok ==> DiskIsDue(host, vm, |specs|, specs)
    ensures ok ==> SameShape(host.journal.vms[vm], old(host.journal.vms)[vm])
    ensures ok ==> host.journal.vms[vm] == old(host.journal.vms)[vm].(disks := host.journal.vms[vm].disks)
    ensures ok ==> forall j :: 0 <= j < |specs| ==>
              host.journal.vms[vm].disks[j].state == Created && host.journal.vms[vm].disks[j].identity.Some?
    ensures host.reliable && !host.shared && RestGoes(old(host.fs), specs, work, 0) ==> ok
  {
    ok, guarded := true, [];
    var i := 0;
    while i < |specs|
      invariant 0 <= i <= |specs| && ok && DiskIsDue(host, vm, i, specs) && host.Tracking(vm, session)
      invariant host.activity.guarded == guarded
      invariant SameShape(host.journal.vms[vm], old(host.journal.vms)[vm])
      invariant host.journal.vms[vm] == old(host.journal.vms)[vm].(disks := host.journal.vms[vm].disks)
      invariant forall j :: 0 <= j < i ==>
                  host.journal.vms[vm].disks[j].state == Created && host.journal.vms[vm].disks[j].identity.Some?
      invariant !host.shared && RestGoes(old(host.fs), specs, work, 0) ==> RestGoes(host.fs, specs, work, i)
    {
      ghost var before := host.fs;
      ok, guarded := MaterializeDisk(host, vm, session, i, specs, work(i), guarded);
      if !ok {
        return;
      }
      if !host.shared && RestGoes(before, specs, work, i) {
        RestGoesOn(before, specs, work, i, host.fs, vm);
      }
      i := i + 1;
    }
  }

  /** Nothing has been recorded or created under this identifier before. */
  ghost predicate Unused(host: Host, vm: VmId)
    reads host, host.journal
  {
    && vm !in host.journal.vms && vm !in host.journal.rows && vm !in host.systems && vm !in host.networks
    && FilesInv(host.fs) && (forall id :: id in host.fs.made ==> host.fs.made[id].vm != vm)
  }

  lemma LaunchStartsInvariant(vm: VmId, session: SessionId, withNetwork: bool, specs: seq<DiskSpec>, fs: Files)
    requires FilesInv(fs) && forall id :: id in fs.made ==> fs.made[id].vm != vm
    ensures SceneInv(Scene(Launched(vm, session, withNetwork, specs), fs))
  {
    LaunchedInv(vm, session, withNetwork, specs);
  }

  /** Journal the intent of a launch: no side effect has happened yet. */
  method JournalIntent(host: Host, vm: VmId, session: SessionId, withNetwork: bool, specs: seq<DiskSpec>)
    requires host.journal.Valid() && Unused(host, vm)
    modifies host.journal`vms, host`activity, host`errPasses, host`start
    ensures host.journal.Valid() && host.Tracking(vm, session) && SceneInv(host.start)
    ensures host.View(vm, session) == Scene(Launched(vm, session, withNetwork, specs), host.fs)
  {
    LaunchStartsInvariant(vm, session, withNetwork, specs, host.fs);
    host.journal.PutVm(PlannedRecord(vm, withNetwork, specs));
    host.errPasses := 0;
    host.activity := Launching(if withNetwork then NetworkDue else DiskDue(0), [], specs);
    host.start := host.View(vm, session);
  }

  /** What the host answers during one launch, and during its rollback. */
  datatype LaunchAnswers = LaunchAnswers(network: bool, disks: nat -> DiskWork, compute: bool, rollback: Answers,
                                         sweep: nat -> DiskAnswer)

  /** The launch is recorded as it stands: everything created and journaled so. */
  ghost predicate IsUp(host: Host, vm: VmId, withNetwork: bool, specs: seq<DiskSpec>)
    reads host, host.journal
  {
    && vm in host.systems && (withNetwork ==> vm in host.networks) && vm in host.journal.vms
    && var r := host.journal.vms[vm];
       && r.phase == Starting && r.compute == Created && r.network == (if withNetwork then Some(Created) else None)
       && |r.disks| == |specs|
       && forall i :: 0 <= i < |specs| ==>
            r.disks[i].path == specs[i].path && r.disks[i].state == Created && r.disks[i].identity.Some?
  }

  /** Create and journal the network, the disks and the compute system, in this order. */
  method Provision(host: Host, vm: VmId, session: SessionId, withNetwork: bool, specs: seq<DiskSpec>,
                   answers: LaunchAnswers)
    returns (ok: bool, guarded: seq<GuardedFile>)
    requires host.journal.Valid() && host.Tracking(vm, session)
    requires host.View(vm, session) == Scene(Launched(vm, session, withNetwork, specs), host.fs)
    modifies host.journal`vms, host`systems, host`networks, host`fs, host`activity
    ensures host.journal.Valid() && host.Tracking(vm, session)
    ensures ok ==> host.activity == Running && IsUp(host, vm, withNetwork, specs)
    ensures ok ==> (withNetwork ==> answers.network) && answers.compute
    ensures !ok ==> host.activity.Launching? && host.activity.guarded == guarded
    ensures host.reliable && !host.shared && (withNetwork ==> answers.network) && answers.compute ==>
              RestGoes(old(host.fs), specs, answers.disks, 0) ==> ok
  {
    ok, guarded := true, [];
    if withNetwork {
      ok := ProvisionNetwork(host, vm, session, answers.network);
    }
    if ok {
      ok, guarded := ProvisionDisks(host, vm, session, specs, answers.disks);
    }
    if ok {
      ok := ProvisionCompute(host, vm, session, answers.compute);
    }
  }

  /** A launch that failed has a record with no attempt counted; the rollback counts one. */
  method RollBack(host: Host, vm: VmId, session: SessionId, guarded: seq<GuardedFile>, answers: LaunchAnswers, now: nat)
    requires host.journal.Valid() && host.Tracking(vm, session) && host.activity.Launching? && SceneInv(host.start)
    requires host.activity.guarded == guarded
    modifies host.journal, host`systems, host`networks, host`fs, host`activity, host`errPasses
    ensures host.journal.Valid() && host.Tracking(vm, session) && host.activity == Idle
    ensures host.reliable ==> vm !in host.journal.vms || host.journal.vms[vm].attempts == 1
    ensures !host.shared && AllUnlink(answers.sweep) ==> forall g :: g in guarded ==> !InPlace(host.fs, g)
  {
    ReachesKeepsScene(host.start, host.View(vm, session));
    ghost var r := host.journal.vms[vm];
    assert r.attempts == 0;
    DropGuard(host, vm, session, guarded, answers.rollback, answers.sweep, now);
  }

  /** A launch: the intent is durable before the first side effect; afterwards the
      VM runs, or the armed guard has rolled it back. Either way the scene
      invariant holds, so whatever is still up is named by the journal. */
  method LaunchVm(host: Host, vm: VmId, session: SessionId, withNetwork: bool, specs: seq<DiskSpec>,
                  answers: LaunchAnswers, now: nat)
    returns (running: bool)
    requires host.journal.Valid() && Unused(host, vm)
    modifies host, host.journal
    ensures host.journal.Valid() && SceneInv(host.View(vm, session))
    ensures host.activity == if running then Running else Idle
    ensures running ==> IsUp(host, vm, withNetwork, specs)
    ensures running ==> (withNetwork ==> answers.network) && answers.compute
    ensures !running && host.reliable ==> vm !in host.journal.vms || host.journal.vms[vm].attempts == 1
    ensures host.reliable && !host.shared && (withNetwork ==> answers.network) && answers.compute ==>
              RestGoes(old(host.fs), specs, answers.disks, 0) ==> running
  {
    JournalIntent(host, vm, session, withNetwork, specs);
    var guarded;
    running, guarded := Provision(host, vm, session, withNetwork, specs, answers);
    if !running {
      RollBack(host, vm, session, guarded, answers, now);
    }
    ReachesKeepsScene(host.start, host.View(vm, session));
  }

  // ---------------------------------------------------------------------
  // Recovery of one stale session
  // ---------------------------------------------------------------------

  /** The durable state of one VM of the session while no code works on it. */
  ghost function Resting(host: Host, vm: VmId, session: SessionId, errs: map<VmId, nat>): Local
    requires vm in errs
    reads host, host.journal
  {
    LocalOf(vm, session, host.journal.vms, host.journal.rows, host.systems, host.networks, Idle, errs[vm])
  }

  /** `errs` names the VMs the session ever launched and how many of their passes failed. */
  ghost predicate AllResting(host: Host, session: SessionId, errs: map<VmId, nat>)
    reads host, host.journal
  {
    && host.journal.vms.Keys <= errs.Keys && host.journal.rows.Keys <= errs.Keys
    && forall vm :: vm in errs ==> LocalInv(Resting(host, vm, session, errs))
  }

  lemma SameElsewhere<V>(m: map<VmId, V>, m': map<VmId, V>, vm: VmId, other: VmId)
    requires m - {vm} == m' - {vm} && other != vm
    ensures other in m <==> other in m'
    ensures other in m ==> m[other] == m'[other]
  {
    assert other in m <==> other in m - {vm};
    assert other in m' <==> other in m' - {vm};
    if other in m {
      assert (m - {vm})[other] == (m' - {vm})[other];
    }
  }

  /** What recovery does to a record it finds: a terminal one is dropped; any other gets
      one pass, which leaves it gone, given up on the last attempt, or with one attempt
      and one failed pass more. */
  ghost predicate Recovered(r: VmRecord, vm: VmId, now: map<VmId, VmRecord>, errs: nat, errs': nat) {
    if IsComplete(r) then vm !in now && errs' == errs
    else
      || (vm !in now && errs' == errs)
      || (vm in now && IsComplete(now[vm]) && r.attempts + 1 >= MAX_CLEANUP_ATTEMPTS && errs' == errs)
      || (vm in now && now[vm].attempts == r.attempts + 1 < MAX_CLEANUP_ATTEMPTS && errs' == errs + 1)
  }

  /** How many resources recovery has to deal with for a record. */
  function Due(r: VmRecord): nat {
    if IsComplete(r) then 0 else Unremoved(r, Count(r))
  }

  /** One record of a stale session: dropped when terminal, otherwise cleaned up once. */
  method RecoverRecord(host: Host, session: SessionId, vm: VmId, answers: Answers, now: nat, before: Summary,
                       ghost errs: map<VmId, nat>)
    returns (summary: Summary, ghost errs': map<VmId, nat>)
    requires host.journal.Valid() && vm in host.journal.vms && vm in errs && LocalInv(Resting(host, vm, session, errs))
    modifies host, host.journal
    ensures host.journal.Valid() && host.Rest(vm) == old(host.Rest(vm))
    ensures vm in errs' && errs' == errs[vm := errs'[vm]]
    ensures LocalInv(Resting(host, vm, session, errs'))
    ensures host.reliable ==> Recovered(old(host.journal.vms)[vm], vm, host.journal.vms, errs[vm], errs'[vm])
    ensures host.reliable ==> Handled(summary) == Handled(before) + Due(old(host.journal.vms)[vm])
  {
    summary, errs' := before, errs;
    if IsComplete(host.journal.vms[vm]) {
      TerminalRecordMayGo(Resting(host, vm, session, errs));
      host.journal.RemoveVm(vm);
    } else {
      host.activity, host.errPasses := Cleaning(Begin, ByRecovery), errs[vm];
      host.start := host.View(vm, session);
      var result;
      result, summary := host.CleanupRecord(vm, session, answers, now, before);
      ReachesKeepsLocal(host.start, host.View(vm, session));
      errs' := errs[vm := host.errPasses];
    }
  }

  method RecoverOne(host: Host, session: SessionId, vm: VmId, answers: Answers, now: nat, before: Summary,
                    ghost errs: map<VmId, nat>)
    returns (summary: Summary, ghost errs': map<VmId, nat>)
    requires host.journal.Valid() && AllResting(host, session, errs) && vm in host.journal.vms
    modifies host, host.journal
    ensures host.journal.Valid() && AllResting(host, session, errs') && errs'.Keys == errs.Keys
    ensures host.journal.vms - {vm} == old(host.journal.vms) - {vm}
    ensures forall other :: other in errs && other != vm ==> errs'[other] == errs[other]
    ensures host.reliable ==> Recovered(old(host.journal.vms)[vm], vm, host.journal.vms, errs[vm], errs'[vm])
    ensures host.reliable ==> Handled(summary) == Handled(before) + Due(old(host.journal.vms)[vm])
  {
    ghost var vms, rows, systems, networks := host.journal.vms, host.journal.rows, host.systems, host.networks;
    assert forall other :: other in errs ==>
      LocalInv(LocalOf(other, session, vms, rows, systems, networks, Idle, errs[other]));
    summary, errs' := RecoverRecord(host, session, vm, answers, now, before, errs);
    forall other | other in errs' && other != vm
      ensures LocalInv(Resting(host, other, session, errs'))
    {
      SameElsewhere(vms, host.journal.vms, vm, other);
      SameElsewhere(rows, host.journal.rows, vm, other);
      assert other in systems <==> other in systems - {vm};
      assert other in networks <==> other in networks - {vm};
      assert Resting(host, other, session, errs')
             == LocalOf(other, session, vms, rows, systems, networks, Idle, errs[other]);
    }
    forall other | other in host.journal.vms || other in host.journal.rows
      ensures other in errs'
    {
      if other != vm {
        SameElsewhere(vms, host.journal.vms, vm, other);
        SameElsewhere(rows, host.journal.rows, vm, other);
      }
    }
  }

  /** How many resources recovery has to deal with for the first n records. */
  ghost function DueIn(vms: map<VmId, VmRecord>, order: seq<VmId>, n: nat): nat
    requires n <= |order| && forall vm :: vm in order ==> vm in vms
  {
    if n == 0 then 0 else DueIn(vms, order, n - 1) + Due(vms[order[n - 1]])
  }

  /** The first n records have been recovered, the others not yet touched. */
  ghost predicate RecoveredFirst(vms: map<VmId, VmRecord>, order: seq<VmId>, n: nat, now: map<VmId, VmRecord>,
                                 errs: map<VmId, nat>, errs': map<VmId, nat>)
    requires n <= |order| && errs'.Keys == errs.Keys && forall vm :: vm in order ==> vm in vms && vm in errs
  {
    && (forall i :: 0 <= i < n ==> Recovered(vms[order[i]], order[i], now, errs[order[i]], errs'[order[i]]))
    && (forall i :: n <= i < |order| ==>
          && order[i] in now && now[order[i]] == vms[order[i]] && errs'[order[i]] == errs[order[i]])
  }

  lemma RecoveredOneMore(vms: map<VmId, VmRecord>, order: seq<VmId>, n: nat, mid: map<VmId, VmRecord>,
                         now: map<VmId, VmRecord>, errs: map<VmId, nat>, mids: map<VmId, nat>, errs': map<VmId, nat>)
    requires n < |order| && errs'.Keys == mids.Keys == errs.Keys && forall vm :: vm in order ==> vm in vms && vm in errs
    requires forall i, j :: 0 <= i < j < |order| ==> order[i] != order[j]
    requires RecoveredFirst(vms, order, n, mid, errs, mids) && now - {order[n]} == mid - {order[n]}
    requires forall vm :: vm in errs && vm != order[n] ==> errs'[vm] == mids[vm]
    requires Recovered(vms[order[n]], order[n], now, errs[order[n]], errs'[order[n]])
    ensures RecoveredFirst(vms, order, n + 1, now, errs, errs')
  {
    forall i | 0 <= i < |order| && i != n
      ensures order[i] != order[n] && (order[i] in now <==> order[i] in mid)
      ensures order[i] in now ==> now[order[i]] == mid[order[i]]
    {
      SameElsewhere(mid, now, order[n], order[i]);
    }
  }

  /** Each record of the session, in turn. */
  method RecoverAll(host: Host, session: SessionId, ids: seq<VmId>, answers: VmId -> Answers, now: nat,
                    ghost errs: map<VmId, nat>)
    returns (summary: Summary, ghost errs': map<VmId, nat>)
    requires host.journal.Valid() && AllResting(host, session, errs)
    requires forall vm :: vm in ids ==> vm in host.journal.vms
    requires forall i, j :: 0 <= i < j < |ids| ==> ids[i] != ids[j]
    modifies host, host.journal
    ensures host.journal.Valid() && AllResting(host, session, errs') && errs'.Keys == errs.Keys
    ensures host.reliable ==>
              && RecoveredFirst(old(host.journal.vms), ids, |ids|, host.journal.vms, errs, errs')
              && Handled(summary) == DueIn(old(host.journal.vms), ids, |ids|)
  {
    summary, errs' := Summary(0, 0, 0, 0), errs;
    ghost var vms := host.journal.vms;
    for n := 0 to |ids|
      invariant host.journal.Valid() && AllResting(host, session, errs') && errs'.Keys == errs.Keys
      invariant Untouched(vms, ids, n, host.journal.vms)
      invariant host.reliable ==> RecoveredFirst(vms, ids, n, host.journal.vms, errs, errs')
      invariant host.reliable ==> Handled(summary) == DueIn(vms, ids, n)
    {
      summary, errs' := RecoverNext(host, session, ids, n, answers, now, summary, vms, errs, errs');
    }
  }

  method RecoverNext(host: Host, session: SessionId, ids: seq<VmId>, n: nat, answers: VmId -> Answers, now: nat,
                     before: Summary, ghost vms: map<VmId, VmRecord>, ghost errs: map<VmId, nat>,
                     ghost mids: map<VmId, nat>)
    returns (summary: Summary, ghost errs': map<VmId, nat>)
    requires host.journal.Valid() && AllResting(host, session, mids) && mids.Keys == errs.Keys && n < |ids|
    requires forall vm :: vm in ids ==> vm in vms && vm in errs
    requires forall i, j :: 0 <= i < j < |ids| ==> ids[i] != ids[j]
    requires Untouched(vms, ids, n, host.journal.vms)
    requires host.reliable ==> RecoveredFirst(vms, ids, n, host.journal.vms, errs, mids)
    modifies host, host.journal
    ensures host.journal.Valid() && AllResting(host, session, errs') && errs'.Keys == errs.Keys
    ensures Untouched(vms, ids, n + 1, host.journal.vms)
    ensures host.reliable ==> RecoveredFirst(vms, ids, n + 1, host.journal.vms, errs, errs')
    ensures host.reliable ==> Handled(summary) == Handled(before) + Due(vms[ids[n]])
  {
    ghost var mid := host.journal.vms;
    summary, errs' := RecoverOne(host, session, ids[n], answers(ids[n]), now, before, mids);
    UntouchedStay(vms, ids, n, mid, host.journal.vms);
    if host.reliable {
      RecoveredOneMore(vms, ids, n, mid, host.journal.vms, errs, mids, errs');
    }
  }

  /** The records from n on are as they were. */
  ghost predicate Untouched(vms: map<VmId, VmRecord>, ids: seq<VmId>, n: nat, now: map<VmId, VmRecord>) {
    forall i :: n <= i < |ids| ==> ids[i] in vms && ids[i] in now && now[ids[i]] == vms[ids[i]]
  }

  lemma UntouchedStay(vms: map<VmId, VmRecord>, ids: seq<VmId>, n: nat, mid: map<VmId, VmRecord>,
                      now: map<VmId, VmRecord>)
    requires n < |ids| && Untouched(vms, ids, n, mid) && now - {ids[n]} == mid - {ids[n]}
    requires forall i, j :: 0 <= i < j < |ids| ==> ids[i] != ids[j]
    ensures Untouched(vms, ids, n + 1, now)
  {
    forall i | n < i < |ids|
      ensures ids[i] in now && now[ids[i]] == vms[ids[i]]
    {
      SameElsewhere(mid, now, ids[n], ids[i]);
    }
  }

  /** Recover a stale session: every record it holds is dropped or gets one pass. Its
      database file may be deleted only when nothing the session ever launched is still up. */
  method RecoverSession(host: Host, session: SessionId, answers: VmId -> Answers, now: nat, ghost errs: map<VmId, nat>)
    returns (finished: bool, summary: Summary, ghost errs': map<VmId, nat>, ghost order: seq<VmId>)
    requires host.journal.Valid() && AllResting(host, session, errs)
    modifies host, host.journal
    ensures host.journal.Valid() && AllResting(host, session, errs') && errs'.Keys == errs.Keys
    ensures forall vm :: vm in order <==> vm in old(host.journal.vms)
    ensures forall i, j :: 0 <= i < j < |order| ==> order[i] != order[j]
    ensures host.reliable ==>
              && RecoveredFirst(old(host.journal.vms), order, |order|, host.journal.vms, errs, errs')
              && Handled(summary) == DueIn(old(host.journal.vms), order, |order|)
    ensures finished <==>
              (forall vm :: vm in host.journal.vms ==> IsComplete(host.journal.vms[vm])) && host.journal.rows == map[]
    ensures finished ==> forall vm :: vm in errs ==> vm !in host.systems && vm !in host.networks
  {
    var ids := host.journal.AllVms();
    order := ids;
    summary, errs' := RecoverAll(host, session, ids, answers, now, errs);
    finished := (forall vm :: vm in host.journal.vms ==> IsComplete(host.journal.vms[vm]))
                && host.journal.rows == map[];
    if finished {
      forall vm | vm in errs
        ensures vm !in host.systems && vm !in host.networks
      {
        FinishedIsSettled(Resting(host, vm, session, errs'));
      }
    }
  }
}
