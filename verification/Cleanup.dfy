/** The cleanup pass as it runs: it updates the journal and the host in place.
    Every journal transaction and every external effect is replayed as one action
    of the protocol, with steps of others on the files in between, so each
    intermediate state of a pass is a state the protocol reaches, and a crash there
    is covered by what the protocol keeps. */
module Cleanup {
  import opened Common
  import opened Journal
  import opened Protocol
  import opened Ownership

  // ---------------------------------------------------------------------
  // Reaching scenes by own actions and steps of others on the files
  // ---------------------------------------------------------------------

  predicate OthersMayAt(l: Local, fs: Files, fs': Files) {
    OthersMay(l.vm, CreateWindow(l), CheckWindow(l), fs, fs')
  }

  ghost predicate Closed(scenes: iset<Scene>) {
    && (forall s, a :: s in scenes && Can(s, a) ==> Do(s, a) in scenes)
    && (forall s, fs' :: s in scenes && OthersMayAt(s.local, s.fs, fs') ==> Scene(s.local, fs') in scenes)
  }

  /** A scene is reached by some sequence of steps: it lies in every closed set that holds the start. */
  ghost predicate Reaches(s: Scene, s': Scene) {
    forall scenes: iset<Scene> :: s in scenes && Closed(scenes) ==> s' in scenes
  }

  lemma ReachesNext(s: Scene, mid: Scene, a: Action)
    requires Reaches(s, mid) && Can(mid, a)
    ensures Reaches(s, Do(mid, a))
  {
    forall scenes: iset<Scene> | s in scenes && Closed(scenes)
      ensures Do(mid, a) in scenes
    {
      assert mid in scenes;
    }
  }

  lemma ReachesOthers(s: Scene, mid: Scene, fs': Files)
    requires Reaches(s, mid) && OthersMayAt(mid.local, mid.fs, fs')
    ensures Reaches(s, Scene(mid.local, fs'))
  {
    forall scenes: iset<Scene> | s in scenes && Closed(scenes)
      ensures Scene(mid.local, fs') in scenes
    {
      assert mid in scenes;
    }
  }

  /** Whatever a pass reaches satisfies the scene invariant. */
  lemma ReachesKeepsScene(s: Scene, s': Scene)
    requires SceneInv(s) && Reaches(s, s')
    ensures SceneInv(s')
  {
    var scenes := iset x: Scene | SceneInv(x);
    forall x, a | x in scenes && Can(x, a)
      ensures Do(x, a) in scenes
    {
      ActionKeepsScene(x, a);
    }
    forall x, fs' | x in scenes && OthersMayAt(x.local, x.fs, fs')
      ensures Scene(x.local, fs') in scenes
    {
      OthersKeepFiles(x.local, x.fs, fs');
    }
    assert Closed(scenes);
  }

  lemma ReachesKeepsLocal(s: Scene, s': Scene)
    requires LocalInv(s.local) && Reaches(s, s')
    ensures LocalInv(s'.local)
  {
    var scenes := iset x: Scene | LocalInv(x.local);
    forall x, a | x in scenes && Can(x, a)
      ensures Do(x, a) in scenes
    {
      ActionKeepsLocal(x, a);
    }
    assert Closed(scenes);
  }

  // ---------------------------------------------------------------------
  // Counting
  // ---------------------------------------------------------------------

  /** Outcome counts of cleanup passes. */
  datatype Summary = Summary(recovered: nat, absent: nat, failed: nat, abandoned: nat)

  function Handled(s: Summary): nat {
    s.recovered + s.absent + s.failed
  }

  function Unremoved(r: VmRecord, n: nat): nat
    requires n <= Count(r)
  {
    if n == 0 then 0 else Unremoved(r, n - 1) + (if StateAt(r, n - 1) == Removed then 0 else 1)
  }

  lemma {:induction false} UnremovedSame(r: VmRecord, r': VmRecord, n: nat)
    requires SameResources(r, r') && n <= Count(r)
    ensures n <= Count(r') && Unremoved(r', n) == Unremoved(r, n)
  {
    if n > 0 {
      UnremovedSame(r, r', n - 1);
      SameResourcesAt(r, r');
    }
  }

  /** An outcome recorded for the next resource counts it among the unremoved if it failed. */
  lemma OutcomeUnremoved(r: VmRecord, k: nat, outcome: Outcome)
    requires k < Count(r)
    ensures var r' := RecordOutcome(r, k, outcome);
            Count(r') == Count(r) && Unremoved(r', k + 1) == Unremoved(r, k) + (if outcome.Failed? then 1 else 0)
  {
    UnremovedBefore(r, RecordOutcome(r, k, outcome), k);
  }

  lemma {:induction false} UnremovedBefore(r: VmRecord, r': VmRecord, n: nat)
    requires n <= Count(r) == Count(r') && forall k: nat :: k < n ==> StateAt(r', k) == StateAt(r, k)
    ensures Unremoved(r', n) == Unremoved(r, n)
  {
    if n > 0 {
      UnremovedBefore(r, r', n - 1);
    }
  }

  lemma {:induction false} LeftoversCount(r: VmRecord, n: nat, failures: seq<Failure>, now: nat)
    requires n <= Count(r)
    ensures |Leftovers(r, n, failures, now)| == Unremoved(r, n)
  {
    if n > 0 {
      LeftoversCount(r, n - 1, failures, now);
    }
  }

  /** What the host answers when asked to remove a compute system or network: `Done` and
      `WasAbsent` mean it is gone; with a failure it may be gone or not. */
  datatype Removal = Removal(outcome: Outcome, gone: bool)

  /** What the file system answers about one disk: the revoked access entry, the reading
      of the identity, the unlink. */
  datatype DiskAnswer = DiskAnswer(revoke: Outcome, readable: bool, unlinks: bool)

  /** All the answers one cleanup pass gets. */
  datatype Answers = Answers(compute: Removal, network: Removal, disks: nat -> DiskAnswer)

  /** A disk whose file its launch has to delete: made by it, and ephemeral or never published. */
  predicate Owed(d: Disk) {
    d.state != Planned && d.origin == CreatedByLaunch && !(d.published && d.effective == Persistent)
  }

  /** What an outcome reported for a disk means, given the files at that moment. `Done`
      leaves nothing that is owed; a failure has a cause, and absence is what the
      access entry was reported to be. */
  predicate Justified(d: Disk, answer: DiskAnswer, outcome: Outcome, fs: Files) {
    match outcome
    case Done => Owed(d) ==> d.path !in fs.at
    case WasAbsent => d.state != Planned && d.aceAdded && answer.revoke == WasAbsent
    case Failed(_) =>
      || (d.state != Planned && d.aceAdded && answer.revoke.Failed?)
      || (&& Owed(d) && d.path in fs.at
          && (d.identity.None? || !answer.readable || fs.at[d.path] != d.identity.value || !answer.unlinks))
  }

  /** What the hook of resource k reports, given the answers and, for a disk, the files. */
  predicate AnsweredBy(r: VmRecord, k: nat, answers: Answers, outcome: Outcome, fs: Files)
    requires k < Count(r)
  {
    if k == 0 then outcome == answers.compute.outcome
    else if k < DiskBase(r) then outcome == answers.network.outcome
    else Justified(r.disks[k - DiskBase(r)], answers.disks(k - DiskBase(r)), outcome, fs)
  }

  /** The first k resources of the record are removed or failed, as the host answered
      for the compute system and the network; each failure is one not removed. */
  predicate Visited(snapshot: VmRecord, r: VmRecord, k: nat, answers: Answers, failures: seq<Failure>)
  {
    && SameShape(snapshot, r) && k <= Count(r) && Unremoved(r, k) == |failures|
    && (k > 0 ==> (r.compute == Removed <==> snapshot.compute == Removed || !answers.compute.outcome.Failed?))
    && (k > 1 && r.network.Some? ==>
          (r.network.value == Removed <==> snapshot.network.value == Removed || !answers.network.outcome.Failed?))
  }

  lemma VisitedOneMore(snapshot: VmRecord, r: VmRecord, k: nat, answers: Answers, failures: seq<Failure>,
                       outcome: Outcome)
    requires SameFrom(snapshot, r, k) && k < Count(r) && Visited(snapshot, r, k, answers, failures)
    requires StateAt(snapshot, k) != Removed
    requires k == 0 ==> outcome == answers.compute.outcome
    requires 0 < k < DiskBase(r) ==> outcome == answers.network.outcome
    ensures SameFrom(snapshot, RecordOutcome(r, k, outcome), k + 1)
    ensures Visited(snapshot, RecordOutcome(r, k, outcome), k + 1, answers, AddFailure(r, k, outcome, failures))
  {
    OutcomeUnremoved(r, k, outcome);
  }

  lemma VisitedSkipped(snapshot: VmRecord, r: VmRecord, k: nat, answers: Answers, failures: seq<Failure>)
    requires SameFrom(snapshot, r, k) && k < Count(r) && Visited(snapshot, r, k, answers, failures)
    requires StateAt(snapshot, k) == Removed
    ensures SameFrom(snapshot, r, k + 1) && Visited(snapshot, r, k + 1, answers, failures)
  {
  }

  datatype PassResult = PassOk | PassFailed(failures: seq<Failure>) | JournalFailed

  /** The resources the pass has not visited yet are still as the pass read them. */
  predicate SameFrom(snapshot: VmRecord, r: VmRecord, k: nat) {
    && SameShape(snapshot, r) && r.attempts == snapshot.attempts && k <= Count(r)
    && (k == 0 ==> r.compute == snapshot.compute)
    && (k <= 1 ==> r.network == snapshot.network)
    && (forall i :: 0 <= i < |r.disks| && k <= DiskBase(r) + i ==> r.disks[i] == snapshot.disks[i])
  }

  lemma SameFromAfterOutcome(snapshot: VmRecord, r: VmRecord, k: nat, outcome: Outcome)
    requires SameFrom(snapshot, r, k) && k < Count(r)
    ensures StateAt(r, k) == StateAt(snapshot, k)
    ensures KindAt(r, k) == KindAt(snapshot, k) && IdentityAt(r, k) == IdentityAt(snapshot, k)
    ensures SameFrom(snapshot, RecordOutcome(r, k, outcome), k + 1)
  {
  }

  lemma MergeOneMore(entries: seq<Entry>, added: seq<Entry>, e: Entry)
    ensures Merge(entries, added + [e]) == Upsert(Merge(entries, added), e)
  {
    assert (added + [e])[..|added|] == added;
  }

  lemma LeftoversStep(record: VmRecord, k: nat, failures: seq<Failure>, now: nat, previous: seq<Entry>,
                      entries: seq<Entry>)
    requires k < Count(record) && entries == Merge(previous, Leftovers(record, k, failures, now))
    ensures StateAt(record, k) == Removed ==> entries == Merge(previous, Leftovers(record, k + 1, failures, now))
    ensures StateAt(record, k) != Removed ==>
              Upsert(entries, EntryAt(record, k, failures, now))
              == Merge(previous, Leftovers(record, k + 1, failures, now))
  {
    var left := Leftovers(record, k, failures, now);
    assert left + [] == left;
    MergeOneMore(previous, left, EntryAt(record, k, failures, now));
  }

  /** The inventory entries of everything unremoved, folded into the entries already recorded. */
  method CollectLeftovers(record: VmRecord, previous: seq<Entry>, failures: seq<Failure>, now: nat)
    returns (entries: seq<Entry>, count: nat)
    ensures entries == Merge(previous, Leftovers(record, Count(record), failures, now))
    ensures count == Unremoved(record, Count(record))
  {
    entries, count := previous, 0;
    var total := Count(record);
    for k := 0 to total
      invariant entries == Merge(previous, Leftovers(record, k, failures, now))
      invariant count == Unremoved(record, k)
    {
      entries, count := CollectOne(record, k, previous, failures, now, entries, count);
    }
  }

  method CollectOne(record: VmRecord, k: nat, ghost previous: seq<Entry>, failures: seq<Failure>, now: nat,
                    entries: seq<Entry>, count: nat)
    returns (entries': seq<Entry>, count': nat)
    requires k < Count(record) && entries == Merge(previous, Leftovers(record, k, failures, now))
    requires count == Unremoved(record, k)
    ensures entries' == Merge(previous, Leftovers(record, k + 1, failures, now)) && count' == Unremoved(record, k + 1)
  {
    LeftoversStep(record, k, failures, now, previous, entries);
    entries', count' := entries, count;
    if StateAt(record, k) != Removed {
      entries' := Upsert(entries, EntryAt(record, k, failures, now));
      count' := count + 1;
    }
  }

  /** Of the files made by this VM's launch, only these were deleted. */
  predicate DeletesOnly(vm: VmId, fs: Files, fs': Files, ids: set<FileIdentity>) {
    forall id :: id in fs'.deleted && id !in fs.deleted ==> id in ids || (id in fs'.made && fs'.made[id].vm != vm)
  }

  // ---------------------------------------------------------------------
  // The host
  // ---------------------------------------------------------------------

  function LocalOf(vm: VmId, session: SessionId, vms: map<VmId, VmRecord>, rows: map<VmId, seq<Entry>>,
                   systems: set<VmId>, networks: set<VmId>, activity: Activity, errPasses: nat): Local
  {
    Local(vm, session, if vm in vms then Some(vms[vm]) else None, if vm in rows then Some(rows[vm]) else None,
          vm in systems, vm in networks, activity, errPasses)
  }

  class Host {
    const journal: SessionJournal
    /** The journal accepts every write; otherwise any write may fail without effect. */
    const reliable: bool
    /** Others act on the files of this host while this code runs. */
    const shared: bool
    var systems: set<VmId>
    var networks: set<VmId>
    var fs: Files
    /** Where the code that works on the current VM is. */
    var activity: Activity
    ghost var errPasses: nat
    /** The scene in which tracking started. */
    ghost var start: Scene

    constructor (journal: SessionJournal, reliable: bool, shared: bool, fs: Files, vm: VmId, session: SessionId)
      ensures this.journal == journal && this.reliable == reliable && this.shared == shared
      ensures systems == {} && networks == {} && this.fs == fs
      ensures activity == Idle && errPasses == 0 && Tracking(vm, session)
    {
      this.journal, this.reliable, this.shared := journal, reliable, shared;
      this.fs := fs;
      systems, networks := {}, {};
      activity, errPasses := Idle, 0;
      new;
      start := View(vm, session);
    }

    /** The scene of one VM of this session. */
    ghost function View(vm: VmId, session: SessionId): Scene
      reads this, journal
    {
      Scene(LocalOf(vm, session, journal.vms, journal.rows, systems, networks, activity, errPasses), fs)
    }

    /** Everything that belongs to the other VMs of the session. */
    ghost function Rest(vm: VmId): (map<VmId, VmRecord>, map<VmId, seq<Entry>>, set<VmId>, set<VmId>)
      reads this, journal
    {
      (journal.vms - {vm}, journal.rows - {vm}, systems - {vm}, networks - {vm})
    }

    /** The present scene is one the protocol's own actions lead to. */
    ghost predicate Tracking(vm: VmId, session: SessionId)
      reads this, journal
    {
      Reaches(start, View(vm, session))
    }

    /** What just happened was one action of the protocol. */
    lemma Performed(vm: VmId, session: SessionId, before: Scene, a: Action)
      requires Reaches(start, before) && Can(before, a) && View(vm, session) == Do(before, a)
      ensures Tracking(vm, session)
    {
      ReachesNext(start, before, a);
    }

    /** What others do to the files before the next step on them. */
    method Others(vm: VmId, session: SessionId)
      requires Tracking(vm, session)
      modifies this`fs
      ensures Tracking(vm, session) && (fs == old(fs) || (shared && OthersMayAt(View(vm, session).local, old(fs), fs)))
    {
      var local := LocalOf(vm, session, journal.vms, journal.rows, systems, networks, activity, 0);
      var next: Files := *;
      if shared && OthersMayAt(local, fs, next) {
        assert CreateWindow(local) == CreateWindow(View(vm, session).local);
        assert CheckWindow(local) == CheckWindow(View(vm, session).local);
        ReachesOthers(start, View(vm, session), next);
        fs := next;
      }
    }

    /** Ask the host to remove the compute system (k is 0) or the network (k is 1). */
    method RemoveByHost(vm: VmId, session: SessionId, k: nat, failures: seq<Failure>, answer: Removal)
      returns (outcome: Outcome)
      requires Tracking(vm, session)
      requires vm in journal.vms && k < DiskBase(journal.vms[vm]) && StateAt(journal.vms[vm], k) != Removed
      requires activity.Cleaning? && activity.pass == Walk(k, failures)
      modifies this`systems, this`networks, this`activity
      ensures Rest(vm) == old(Rest(vm))
      ensures Tracking(vm, session) && outcome == answer.outcome
      ensures activity == Cleaning(Applied(k, failures, outcome), old(activity.caller))
      ensures !outcome.Failed? ==> if k == 0 then vm !in systems else vm !in networks
    {
      ghost var before := View(vm, session);
      outcome := answer.outcome;
      var gone := answer.gone || !outcome.Failed?;
      activity := activity.(pass := Applied(k, failures, outcome));
      if k == 0 {
        systems := if gone then systems - {vm} else systems;
        assert systems - {vm} == old(systems) - {vm};
        Performed(vm, session, before, InVisit(HookCompute(outcome, answer.gone)));
      } else {
        networks := if gone then networks - {vm} else networks;
        assert networks - {vm} == old(networks) - {vm};
        Performed(vm, session, before, InVisit(HookNetwork(outcome, answer.gone)));
      }
    }

    /** Revoke the temporary access entry, then apply the deletion predicate up to
        the comparison of identities: an outcome, or the file is to be unlinked. */
    method CheckDiskFile(vm: VmId, session: SessionId, d: Disk, k: nat, failures: seq<Failure>, answer: DiskAnswer)
      returns (outcome: Option<Outcome>)
      requires Tracking(vm, session)
      requires vm in journal.vms && DiskBase(journal.vms[vm]) <= k < Count(journal.vms[vm])
      requires d == journal.vms[vm].disks[k - DiskBase(journal.vms[vm])] && d.state != Removed
      requires activity.Cleaning? && activity.pass == Walk(k, failures)
      modifies this`activity
      ensures Tracking(vm, session)
      ensures outcome.Some? ==> activity == Cleaning(Applied(k, failures, outcome.value), old(activity.caller))
      ensures outcome.None? ==> activity == Cleaning(Checked(k, failures), old(activity.caller))
      ensures outcome.None? ==> Owed(d) && d.path in fs.at && d.identity == Some(fs.at[d.path])
      ensures outcome.Some? ==> Justified(d, answer.(unlinks := true), outcome.value, fs)
    {
      ghost var before := View(vm, session);
      outcome := None;
      if d.state == Planned {
        outcome := Some(Done);
      } else if d.aceAdded && d.path in fs.at && answer.revoke != Done {
        outcome := Some(answer.revoke);
      } else if d.origin == PreExisting {
        outcome := Some(Done);
      } else if d.effective != Ephemeral && d.published {
        outcome := Some(Done);
      } else if d.path !in fs.at {
        outcome := Some(Done);
      } else if d.identity.None? {
        outcome := Some(Failed("no recorded file identity"));
      } else if !answer.readable {
        outcome := Some(Failed("identity unreadable"));
      } else if fs.at[d.path] != d.identity.value {
        outcome := Some(Failed("file identity changed"));
      }
      activity := activity.(pass := if outcome.Some? then Applied(k, failures, outcome.value)
                                    else Checked(k, failures));
      Performed(vm, session, before, InVisit(HookDisk(DiskEnv(answer.revoke, answer.readable))));
    }

    /** Remove one journaled disk. Others act on the files before the comparison and
        between it and the unlink. Of this VM's files only the recorded one goes. */
    method RemoveDiskAt(vm: VmId, session: SessionId, d: Disk, k: nat, failures: seq<Failure>, answer: DiskAnswer)
      returns (outcome: Outcome)
      requires Tracking(vm, session)
      requires vm in journal.vms && DiskBase(journal.vms[vm]) <= k < Count(journal.vms[vm])
      requires d == journal.vms[vm].disks[k - DiskBase(journal.vms[vm])] && d.state != Removed
      requires activity.Cleaning? && activity.pass == Walk(k, failures)
      modifies this`fs, this`activity
      ensures Tracking(vm, session)
      ensures activity == Cleaning(Applied(k, failures, outcome), old(activity.caller))
      ensures DeletesOnly(vm, old(fs), fs, if Owed(d) && d.identity.Some? then {d.identity.value} else {})
      ensures Justified(d, answer, outcome, fs)
    {
      Others(vm, session);
      var checked := CheckDiskFile(vm, session, d, k, failures, answer);
      if checked.Some? {
        return checked.value;
      }
      Others(vm, session);
      ghost var before := View(vm, session);
      assert CheckedDisk(before.local) == d && d.path in CheckWindow(before.local);
      outcome := Done;
      if d.path in fs.at {
        if answer.unlinks {
          fs := Unlink(fs, d.path);
        } else {
          outcome := Failed("remove failed");
        }
      }
      activity := activity.(pass := Applied(k, failures, outcome));
      Performed(vm, session, before, InVisit(UnlinkDisk(answer.unlinks)));
    }

    /** Record one outcome in the journal and count it. */
    method ApplyOutcome(vm: VmId, session: SessionId, k: nat, outcome: Outcome, failures: seq<Failure>,
                        summary: Summary)
      returns (ok: bool, failures': seq<Failure>, summary': Summary)
      requires journal.Valid() && Tracking(vm, session)
      requires vm in journal.vms && k < Count(journal.vms[vm])
      requires activity.Cleaning? && activity.pass == Applied(k, failures, outcome)
      modifies journal`vms, this`activity
      ensures Rest(vm) == old(Rest(vm))
      ensures journal.Valid() && Tracking(vm, session)
      ensures vm in journal.vms && (reliable ==> ok)
      ensures summary' == match outcome
                          case Done => summary.(recovered := summary.recovered + 1)
                          case WasAbsent => summary.(absent := summary.absent + 1)
                          case Failed(_) => summary.(failed := summary.failed + 1)
      ensures failures' == AddFailure(old(journal.vms)[vm], k, outcome, failures)
      ensures journal.vms == if ok then old(journal.vms)[vm := RecordOutcome(old(journal.vms)[vm], k, outcome)]
                             else old(journal.vms)
      ensures activity == Cleaning(if ok then Walk(k + 1, failures') else Applied(k, failures, outcome),
                                   old(activity.caller))
    {
      var record := journal.vms[vm];
      ghost var before := View(vm, session);
      failures' := AddFailure(record, k, outcome, failures);
      match outcome {
        case Done => summary' := summary.(recovered := summary.recovered + 1);
        case WasAbsent => summary' := summary.(absent := summary.absent + 1);
        case Failed(_) => summary' := summary.(failed := summary.failed + 1);
      }
      ok := TryUpdate(vm, (r: VmRecord) => if k < Count(r) then RecordOutcome(r, k, outcome) else r);
      if ok {
        activity := activity.(pass := Walk(k + 1, failures'));
        Performed(vm, session, before, InVisit(NoteOutcome));
      }
    }

    /** One journal transaction; it may fail without effect, as any write may. */
    method TryUpdate(vm: VmId, update: VmRecord -> VmRecord) returns (ok: bool)
      requires journal.Valid() && vm in journal.vms && update(journal.vms[vm]).vm == vm
      modifies journal`vms
      ensures Rest(vm) == old(Rest(vm))
      ensures journal.Valid()
      ensures journal.vms == if ok then old(journal.vms)[vm := update(old(journal.vms)[vm])] else old(journal.vms)
      ensures reliable ==> ok
    {
      var commits: bool := *;
      ok := false;
      if reliable || commits {
        ok := journal.UpdateVm(vm, update);
      }
    }

    /** The pass returns with a journal error. */
    method Abort(vm: VmId, session: SessionId) returns (result: PassResult)
      requires Tracking(vm, session) && activity.Cleaning?
      modifies this`activity
      ensures Tracking(vm, session) && result == JournalFailed
      ensures activity == AfterPass(old(activity.caller), false)
    {
      ghost var before := View(vm, session);
      activity := AfterPass(activity.caller, false);
      Performed(vm, session, before, InSettle(AbortPass));
      result := JournalFailed;
    }

    /** Write the inventory of everything still unremoved, then mark it abandoned in the record. */
    method AbandonRemaining(vm: VmId, session: SessionId, failures: seq<Failure>, now: nat, summary: Summary)
      returns (result: PassResult, after: Summary)
      requires journal.Valid() && Tracking(vm, session)
      requires vm in journal.vms && journal.vms[vm].attempts >= MAX_CLEANUP_ATTEMPTS
      requires activity.Cleaning? && activity.pass == Walk(Count(journal.vms[vm]), failures) && failures != []
      modifies journal, this`activity
      ensures Rest(vm) == old(Rest(vm))
      ensures journal.Valid() && Tracking(vm, session)
      ensures result == PassOk || (result == JournalFailed && !reliable)
      ensures activity == AfterPass(old(activity.caller), result == PassOk)
      ensures result == PassOk ==>
                && vm in journal.vms && IsComplete(journal.vms[vm])
                && var given := old(journal.vms)[vm];
                   after == summary.(abandoned := summary.abandoned + Unremoved(given, Count(given)))
      ensures result == JournalFailed ==> after == summary
    {
      after := summary;
      var record := journal.vms[vm];
      var previous := if vm in journal.rows then journal.rows[vm] else [];
      var entries, count := CollectLeftovers(record, previous, failures, now);
      var commits: bool := *;
      if !reliable && !commits {
        result := Abort(vm, session);
        return;
      }
      PutInventoryRow(vm, session, entries, failures, now);
      ghost var before := View(vm, session);
      var marked := TryUpdate(vm, AbandonedRecord);
      if !marked {
        result := Abort(vm, session);
        return;
      }
      activity := AfterPass(activity.caller, true);
      Performed(vm, session, before, InSettle(MarkAbandoned));
      AbandonedStates(record);
      IsCompleteMeansAllTerminal(AbandonedRecord(record));
      return PassOk, summary.(abandoned := summary.abandoned + count);
    }

    method PutInventoryRow(vm: VmId, session: SessionId, entries: seq<Entry>, failures: seq<Failure>, ghost now: nat)
      requires journal.Valid() && Tracking(vm, session)
      requires vm in journal.vms && journal.vms[vm].attempts >= MAX_CLEANUP_ATTEMPTS
      requires activity.Cleaning? && activity.pass == Walk(Count(journal.vms[vm]), failures) && failures != []
      requires entries == Merge(if vm in journal.rows then journal.rows[vm] else [],
                                Leftovers(journal.vms[vm], Count(journal.vms[vm]), failures, now))
      modifies journal`rows, this`activity
      ensures Rest(vm) == old(Rest(vm))
      ensures journal.Valid() && Tracking(vm, session)
      ensures activity == Cleaning(Inventoried(failures), old(activity.caller))
    {
      ghost var before := View(vm, session);
      journal.PutAbandoned(vm, entries);
      activity := Cleaning(Inventoried(failures), activity.caller);
      Performed(vm, session, before, InSettle(PutInventory(now)));
    }

    /** Open the pass: one transaction counts the attempt, then the record is read. */
    method OpenRecord(vm: VmId, session: SessionId) returns (ok: bool)
      requires journal.Valid() && Tracking(vm, session) && activity.Cleaning? && activity.pass == Begin
      modifies journal`vms, this`activity
      ensures Rest(vm) == old(Rest(vm))
      ensures journal.Valid() && Tracking(vm, session)
      ensures ok ==>
                vm in old(journal.vms) && vm in journal.vms && journal.vms[vm] == OpenedRecord(old(journal.vms)[vm])
      ensures ok ==> activity == Cleaning(Walk(0, []), old(activity.caller))
      ensures !ok ==> activity == old(activity)
      ensures reliable && vm in old(journal.vms) ==> ok
    {
      ghost var before := View(vm, session);
      ok := false;
      if vm in journal.vms {
        ok := TryUpdate(vm, OpenedRecord);
        if ok {
          activity := activity.(pass := Walk(0, []));
          Performed(vm, session, before, InVisit(OpenPass));
        }
      }
    }

    /** Everything is removed: mark the record complete, drop it, drop its inventory row. */
    method Settle(vm: VmId, session: SessionId) returns (result: PassResult)
      requires journal.Valid() && Tracking(vm, session)
      requires vm in journal.vms && activity.Cleaning? && activity.pass == Walk(Count(journal.vms[vm]), [])
      modifies journal, this`activity
      ensures Rest(vm) == old(Rest(vm))
      ensures journal.Valid() && Tracking(vm, session)
      ensures result == PassOk || (result == JournalFailed && !reliable)
      ensures result == PassOk ==> vm !in journal.vms && vm !in journal.rows
      ensures activity == AfterPass(old(activity.caller), result == PassOk)
    {
      ghost var before := View(vm, session);
      var ok := TryUpdate(vm, (r: VmRecord) => r.(phase := Complete, lastError := None));
      if !ok {
        result := Abort(vm, session);
        return;
      }
      activity := activity.(pass := Completed);
      Performed(vm, session, before, InSettle(MarkComplete));
      var commits: bool := *;
      if !reliable && !commits {
        result := Abort(vm, session);
        return;
      }
      before := View(vm, session);
      journal.RemoveVm(vm);
      activity := activity.(pass := RecordDropped);
      Performed(vm, session, before, InSettle(RemoveRecord));
      commits := *;
      if !reliable && !commits {
        result := Abort(vm, session);
        return;
      }
      before := View(vm, session);
      journal.RemoveAbandoned(vm);
      activity := AfterPass(activity.caller, true);
      Performed(vm, session, before, InSettle(RemoveRow));
      result := PassOk;
    }

    /** Run the removal hook of resource k, as the pass read it. */
    method RunHook(vm: VmId, session: SessionId, snapshot: VmRecord, k: nat, failures: seq<Failure>, answers: Answers)
      returns (outcome: Outcome)
      requires Tracking(vm, session) && vm in journal.vms
      requires k < Count(snapshot) && SameFrom(snapshot, journal.vms[vm], k) && StateAt(snapshot, k) != Removed
      requires activity.Cleaning? && activity.pass == Walk(k, failures)
      modifies this`systems, this`networks, this`fs, this`activity
      ensures Rest(vm) == old(Rest(vm))
      ensures Tracking(vm, session)
      ensures activity == Cleaning(Applied(k, failures, outcome), old(activity.caller))
      ensures AnsweredBy(snapshot, k, answers, outcome, fs)
    {
      if k < DiskBase(snapshot) {
        outcome := RemoveByHost(vm, session, k, failures, if k == 0 then answers.compute else answers.network);
      } else {
        var i := k - DiskBase(snapshot);
        outcome := RemoveDiskAt(vm, session, snapshot.disks[i], k, failures, answers.disks(i));
      }
    }

    /** The pass has dealt with the first k resources; the others are as in the snapshot. */
    ghost predicate WalksAt(vm: VmId, session: SessionId, snapshot: VmRecord, k: nat, answers: Answers,
                            failures: seq<Failure>, caller: Caller)
      reads this, journal
    {
      && journal.Valid() && Tracking(vm, session) && vm in journal.vms
      && SameFrom(snapshot, journal.vms[vm], k) && activity == Cleaning(Walk(k, failures), caller)
      && Visited(snapshot, journal.vms[vm], k, answers, failures)
    }

    /** Handle resource k of the snapshot: skip it when removed, otherwise run its hook and record the outcome. */
    method VisitResource(vm: VmId, session: SessionId, snapshot: VmRecord, k: nat, answers: Answers,
                         failures: seq<Failure>, summary: Summary)
      returns (ok: bool, failures': seq<Failure>, summary': Summary)
      requires k < Count(snapshot) && activity.Cleaning?
      requires WalksAt(vm, session, snapshot, k, answers, failures, activity.caller)
      modifies journal`vms, this`systems, this`networks, this`fs, this`activity
      ensures Rest(vm) == old(Rest(vm))
      ensures journal.Valid() && Tracking(vm, session) && vm in journal.vms
      ensures activity.Cleaning? && activity.caller == old(activity.caller)
      ensures ok ==> WalksAt(vm, session, snapshot, k + 1, answers, failures', old(activity.caller))
      ensures ok ==> Handled(summary') - Handled(summary) == Unremoved(snapshot, k + 1) - Unremoved(snapshot, k)
      ensures summary'.failed - summary.failed == |failures'| - |failures| && (reliable ==> ok)
      ensures summary'.abandoned == summary.abandoned
    {
      if StateAt(snapshot, k) == Removed {
        VisitedSkipped(snapshot, journal.vms[vm], k, answers, failures);
        Skip(vm, session, k, failures);
        return true, failures, summary;
      }
      var outcome := RunHook(vm, session, snapshot, k, failures, answers);
      VisitedOneMore(snapshot, journal.vms[vm], k, answers, failures, outcome);
      ok, failures', summary' := ApplyOutcome(vm, session, k, outcome, failures, summary);
    }

    /** Walk the compute system, the network and the disks, in this order. */
    method WalkResources(vm: VmId, session: SessionId, snapshot: VmRecord, answers: Answers, before: Summary)
      returns (ok: bool, failures: seq<Failure>, summary: Summary)
      requires journal.Valid() && Tracking(vm, session)
      requires vm in journal.vms && journal.vms[vm] == snapshot
      requires activity.Cleaning? && activity.pass == Walk(0, [])
      modifies journal`vms, this`systems, this`networks, this`fs, this`activity
      ensures Rest(vm) == old(Rest(vm))
      ensures journal.Valid() && Tracking(vm, session)
      ensures activity.Cleaning? && activity.caller == old(activity.caller)
      ensures ok ==> WalksAt(vm, session, snapshot, Count(snapshot), answers, failures, old(activity.caller))
      ensures ok ==> Handled(summary) == Handled(before) + Unremoved(snapshot, Count(snapshot))
      ensures summary.failed == before.failed + |failures| && (reliable ==> ok)
      ensures summary.abandoned == before.abandoned
    {
      ok, failures, summary := true, [], before;
      var k := 0;
      while k < Count(snapshot)
        invariant 0 <= k <= Count(snapshot) && ok && Rest(vm) == old(Rest(vm))
        invariant WalksAt(vm, session, snapshot, k, answers, failures, old(activity.caller))
        invariant Handled(summary) == Handled(before) + Unremoved(snapshot, k)
        invariant summary.failed == before.failed + |failures| && summary.abandoned == before.abandoned
      {
        ok, failures, summary := VisitResource(vm, session, snapshot, k, answers, failures, summary);
        if !ok {
          return;
        }
        k := k + 1;
      }
    }

    /** After the walk: settle, give up after the last permitted attempt, or report the failures. */
    method Conclude(vm: VmId, session: SessionId, failures: seq<Failure>, now: nat, before: Summary)
      returns (result: PassResult, summary: Summary)
      requires journal.Valid() && Tracking(vm, session)
      requires vm in journal.vms && activity.Cleaning? && activity.pass == Walk(Count(journal.vms[vm]), failures)
      modifies journal, this`activity, this`errPasses
      ensures Rest(vm) == old(Rest(vm))
      ensures journal.Valid() && Tracking(vm, session)
      ensures reliable ==> !result.JournalFailed?
      ensures result == PassOk && failures == [] ==> vm !in journal.vms && vm !in journal.rows && summary == before
      ensures result == PassOk && failures != [] ==>
                && vm in journal.vms && IsComplete(journal.vms[vm])
                && old(journal.vms)[vm].attempts >= MAX_CLEANUP_ATTEMPTS
                && var given := old(journal.vms)[vm];
                   summary == before.(abandoned := before.abandoned + Unremoved(given, Count(given)))
      ensures result.PassFailed? ==>
                && result.failures == failures != [] && journal.vms == old(journal.vms) && summary == before
                && journal.vms[vm].attempts < MAX_CLEANUP_ATTEMPTS
      ensures result.JournalFailed? ==> summary == before
      ensures errPasses == old(errPasses) + (if result.PassFailed? then 1 else 0)
      ensures activity == AfterPass(old(activity.caller), result == PassOk)
    {
      summary := before;
      if failures == [] {
        result := Settle(vm, session);
      } else if journal.vms[vm].attempts >= MAX_CLEANUP_ATTEMPTS {
        result, summary := AbandonRemaining(vm, session, failures, now, summary);
      } else {
        ghost var view := View(vm, session);
        activity := AfterPass(activity.caller, false);
        errPasses := errPasses + 1;
        Performed(vm, session, view, InSettle(ReturnErr));
        result := PassFailed(failures);
      }
    }

    /** What a pass over a record says when it returns. Every resource not yet removed was
        handled exactly once. Without a failure nothing is left of the record; with
        failures the last permitted attempt gives up exactly what failed, and an earlier
        one leaves a record that will be tried again. */
    ghost predicate PassLaw(vm: VmId, r: VmRecord, answers: Answers, result: PassResult, before: Summary,
                            after: Summary)
      reads this, journal
    {
      && Handled(after) == Handled(before) + Unremoved(r, Count(r)) && after.failed >= before.failed
      && match result
         case PassOk =>
           if after.failed == before.failed then
             vm !in journal.vms && vm !in journal.rows && after.abandoned == before.abandoned
           else
             && vm in journal.vms && IsComplete(journal.vms[vm]) && r.attempts >= MAX_CLEANUP_ATTEMPTS
             && after.abandoned - before.abandoned == after.failed - before.failed
         case PassFailed(failures) =>
           && failures != [] && vm in journal.vms && journal.vms[vm].attempts == r.attempts < MAX_CLEANUP_ATTEMPTS
           && after.failed == before.failed + |failures| && after.abandoned == before.abandoned
           && Visited(r, journal.vms[vm], Count(r), answers, failures)
         case JournalFailed => false
    }

    method WalkAndConclude(vm: VmId, session: SessionId, answers: Answers, now: nat, before: Summary)
      returns (result: PassResult, summary: Summary)
      requires journal.Valid() && Tracking(vm, session) && vm in journal.vms
      requires activity.Cleaning? && activity.pass == Walk(0, [])
      modifies journal, this`systems, this`networks, this`fs, this`activity, this`errPasses
      ensures Rest(vm) == old(Rest(vm))
      ensures journal.Valid() && Tracking(vm, session)
      ensures result.JournalFailed? || PassLaw(vm, old(journal.vms)[vm], answers, result, before, summary)
      ensures reliable ==> !result.JournalFailed?
      ensures errPasses == old(errPasses) + (if result.PassFailed? then 1 else 0)
      ensures activity == AfterPass(old(activity.caller), result == PassOk)
    {
      var ok, failures;
      ok, failures, summary := WalkResources(vm, session, journal.vms[vm], answers, before);
      if !ok {
        result := Abort(vm, session);
        return;
      }
      result, summary := Conclude(vm, session, failures, now, summary);
    }

    /** One cleanup pass over the record of a VM. The attempt is counted first. */
    method CleanupRecord(vm: VmId, session: SessionId, answers: Answers, now: nat, before: Summary)
      returns (result: PassResult, summary: Summary)
      requires journal.Valid() && Tracking(vm, session) && activity.Cleaning? && activity.pass == Begin
      modifies journal, this`systems, this`networks, this`fs, this`activity, this`errPasses
      ensures Rest(vm) == old(Rest(vm))
      ensures journal.Valid() && Tracking(vm, session)
      ensures !result.JournalFailed? ==>
                && vm in old(journal.vms)
                && PassLaw(vm, OpenedRecord(old(journal.vms)[vm]), answers, result, before, summary)
                && Handled(summary) == Handled(before) + Unremoved(old(journal.vms)[vm], Count(old(journal.vms)[vm]))
      ensures result.PassFailed? ==> journal.vms[vm].attempts == old(journal.vms)[vm].attempts + 1
      ensures result == PassOk && summary.failed > before.failed ==>
                old(journal.vms)[vm].attempts + 1 >= MAX_CLEANUP_ATTEMPTS
      ensures reliable && vm in old(journal.vms) ==> !result.JournalFailed?
      ensures errPasses == old(errPasses) + (if result.PassFailed? then 1 else 0)
      ensures activity == AfterPass(old(activity.caller), result == PassOk)
    {
      summary := before;
      var ok := OpenRecord(vm, session);
      if !ok {
        result := Abort(vm, session);
        return;
      }
      UnremovedSame(old(journal.vms)[vm], journal.vms[vm], Count(journal.vms[vm]));
      result, summary := WalkAndConclude(vm, session, answers, now, before);
    }

    /** A resource already removed is passed over. */
    method Skip(vm: VmId, session: SessionId, k: nat, failures: seq<Failure>)
      requires Tracking(vm, session)
      requires vm in journal.vms && k < Count(journal.vms[vm]) && StateAt(journal.vms[vm], k) == Removed
      requires activity.Cleaning? && activity.pass == Walk(k, failures)
      modifies this`activity
      ensures Tracking(vm, session)
      ensures activity == Cleaning(Walk(k + 1, failures), old(activity.caller))
    {
      ghost var before := View(vm, session);
      activity := activity.(pass := Walk(k + 1, failures));
      Performed(vm, session, before, InVisit(SkipRemoved));
    }
  }
}
