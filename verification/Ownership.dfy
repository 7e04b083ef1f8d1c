/** What every action of the protocol keeps: the durable state alone names every
    compute system and network that is still up, and only files this launch made
    can ever be deleted. */
module Ownership {
  import opened Common
  import opened Journal
  import opened Protocol

  // ---------------------------------------------------------------------
  // The durable invariant: it does not mention the volatile position, so it
  // survives a crash at any point.
  // ---------------------------------------------------------------------

  predicate UpAt(compute: bool, network: bool, r: VmRecord, k: nat) {
    if k == 0 then compute else k < DiskBase(r) && network
  }

  predicate RowLists(row: Option<seq<Entry>>, kind: Kind, identity: string) {
    row.Some? && Lists(row.value, kind, identity)
  }

  /** A disk that left the planning state without being removed carries its identity. */
  predicate DiskInv(d: Disk) {
    && (d.state == Planned ==> d.identity.None?)
    && (d.state == Planned || d.state == Removed || d.identity.Some?)
  }

  predicate RecordInv(l: Local, r: VmRecord) {
    && r.vm == l.vm
    && (r.network.None? ==> !l.network)
    && (forall k: nat :: k < Count(r) && StateAt(r, k) == Removed ==> !UpAt(l.compute, l.network, r, k))
    && (forall k: nat :: k < Count(r) && StateAt(r, k) == Abandoned ==> RowLists(l.row, KindAt(r, k), IdentityAt(r, k)))
    && (r.phase == Complete ==> AllRemoved(r))
    && (forall i :: 0 <= i < |r.disks| ==> DiskInv(r.disks[i]))
    && l.errPasses <= r.attempts
  }

  predicate NoRecordInv(l: Local) {
    && (l.compute ==> RowLists(l.row, ComputeSystem, l.vm))
    && (l.network ==> RowLists(l.row, Network, NetworkIdentity(l.vm)))
  }

  predicate DurableInv(l: Local) {
    && (match l.record case Some(r) => RecordInv(l, r) case None => NoRecordInv(l))
    && l.errPasses <= MAX_CLEANUP_ATTEMPTS - 1
    && (l.row.Some? ==> DistinctEntries(l.row.value))
  }

  // ---------------------------------------------------------------------
  // The volatile invariant: what holds at each position of the code
  // ---------------------------------------------------------------------

  predicate LaunchInv(l: Local, r: VmRecord) {
    var a := l.activity;
    && a.Launching?
    && l.row.None? && l.errPasses == 0 && r.attempts == 0
    && r.phase == Planning && r.compute == Planned
    && |a.specs| == |r.disks|
    && (forall i :: 0 <= i < |r.disks| ==> a.specs[i].path == r.disks[i].path && !r.disks[i].published)
    && (forall k: nat :: k < Count(r) ==> StateAt(r, k) == Planned || StateAt(r, k) == Created)
    && (a.step.NetworkDue? || a.step.NetworkMade? ==> r.network == Some(Planned))
    && (a.step.DiskDue? ==> a.step.index <= |r.disks| && PlannedFrom(r, a.step.index))
    && (a.step.DiskMade? || a.step.DiskSeen? ==> a.step.index < |r.disks| && PlannedFrom(r, a.step.index))
    && (a.step.DiskNoted? ==>
          a.step.index < |r.disks| && PlannedFrom(r, a.step.index + 1) && r.disks[a.step.index].state == Created)
    && (a.step.NetworkDue? || a.step.NetworkMade? ==> PlannedFrom(r, 0))
  }

  predicate PlannedFrom(r: VmRecord, i: nat) {
    forall j :: i <= j < |r.disks| ==> r.disks[j].state == Planned
  }

  /** After visiting the first n resources each is removed or failed, and the
      pass remembers a failure exactly when one of them is not removed. */
  predicate VisitedInv(r: VmRecord, n: nat, failures: seq<Failure>)
    requires n <= Count(r)
  {
    && (forall k: nat :: k < n ==> StateAt(r, k) == Removed || StateAt(r, k) == RemovalFailed)
    && (failures == [] ==> forall k: nat :: k < n ==> StateAt(r, k) == Removed)
    && (failures != [] ==> exists k: nat :: k < n && StateAt(r, k) != Removed)
  }

  predicate OpenInv(l: Local, r: VmRecord) {
    l.errPasses + 1 <= r.attempts && r.phase == CleanupPending
  }

  predicate AppliedInv(l: Local, r: VmRecord, k: nat, outcome: Outcome)
    requires k < Count(r)
  {
    && StateAt(r, k) != Removed
    && (!outcome.Failed? ==> !UpAt(l.compute, l.network, r, k))
    && (outcome.Failed? && DiskBase(r) <= k ==> r.disks[k - DiskBase(r)].identity.Some?)
  }

  predicate ToUnlink(d: Disk) {
    d.state != Removed && d.identity.Some? && Deletable(d)
  }

  predicate PassInv(l: Local, pass: Pass) {
    match pass
    case Begin => true
    case Walk(n, failures) =>
      && l.record.Some? && n <= Count(l.record.value)
      && OpenInv(l, l.record.value) && VisitedInv(l.record.value, n, failures)
    case Checked(n, failures) =>
      && l.record.Some? && DiskBase(l.record.value) <= n < Count(l.record.value)
      && OpenInv(l, l.record.value) && VisitedInv(l.record.value, n, failures)
      && ToUnlink(l.record.value.disks[n - DiskBase(l.record.value)])
    case Applied(n, failures, outcome) =>
      && l.record.Some? && n < Count(l.record.value)
      && OpenInv(l, l.record.value) && VisitedInv(l.record.value, n, failures)
      && AppliedInv(l, l.record.value, n, outcome)
    case Completed => l.record.Some? && AllRemoved(l.record.value)
    case RecordDropped => l.record.None? && !l.compute && !l.network
    case Inventoried(failures) =>
      && l.record.Some? && OpenInv(l, l.record.value)
      && (forall k: nat :: k < Count(l.record.value) && StateAt(l.record.value, k) != Removed ==>
            RowLists(l.row, KindAt(l.record.value, k), IdentityAt(l.record.value, k)))
      && (forall i :: 0 <= i < |l.record.value.disks| ==>
            l.record.value.disks[i].state == Removed || l.record.value.disks[i].identity.Some?)
  }

  predicate ActivityInv(l: Local) {
    match l.activity
    case Idle => true
    case Launching(step, guarded, specs) => l.record.Some? && LaunchInv(l, l.record.value)
    case Running => l.record.Some?
    case Cleaning(pass, caller) => PassInv(l, pass)
    case Sweeping(guarded, checked) => true
  }

  predicate LocalInv(l: Local) {
    DurableInv(l) && ActivityInv(l)
  }

  // ---------------------------------------------------------------------
  // Files
  // ---------------------------------------------------------------------

  predicate MadeBy(fs: Files, id: FileIdentity, vm: VmId, i: nat) {
    id in fs.made && fs.made[id] == Maker(vm, i)
  }

  function Guarded(a: Activity): seq<GuardedFile> {
    if a.Launching? || a.Sweeping? then a.guarded
    else if a.Cleaning? && a.caller.ByGuard? then a.caller.guarded
    else []
  }

  predicate AllMadeBy(guarded: seq<GuardedFile>, fs: Files, vm: VmId) {
    forall i :: 0 <= i < |guarded| ==> guarded[i].identity in fs.made && fs.made[guarded[i].identity].vm == vm
  }

  /** The launch has not returned the VM to its caller, so nothing of it was published. */
  predicate Provisioning(a: Activity) {
    a.Launching? || a.Sweeping? || (a.Cleaning? && a.caller.ByGuard?)
  }

  /** The path of the file this launch has created but not yet identified. */
  function CreateWindow(l: Local): set<Path> {
    if l.record.Some? && l.activity.Launching? && l.activity.step.DiskMade?
       && l.activity.step.index < |l.record.value.disks|
    then {l.record.value.disks[l.activity.step.index].path} else {}
  }

  /** The path whose file has been compared and is about to be unlinked by name. */
  function CheckWindow(l: Local): set<Path> {
    if Checking(l) then {CheckedDisk(l).path}
    else if l.activity.Sweeping? && l.activity.checked && l.activity.guarded != [] then {l.activity.guarded[0].path}
    else {}
  }

  /** The identity that comparison saw. */
  function ComparedIdentity(l: Local): Option<FileIdentity> {
    if Checking(l) then CheckedDisk(l).identity
    else if l.activity.Sweeping? && l.activity.checked && l.activity.guarded != [] then
      Some(l.activity.guarded[0].identity)
    else None
  }

  /** In a window the path holds the launch's own file: the one it made, the one it compared. */
  predicate WindowInv(l: Local, fs: Files) {
    && (forall p :: p in CreateWindow(l) && p in fs.at ==> MadeBy(fs, fs.at[p], l.vm, l.activity.step.index))
    && (forall p :: p in CheckWindow(l) ==> p in fs.at && ComparedIdentity(l) == Some(fs.at[p]))
  }

  predicate RecordFiles(l: Local, fs: Files) {
    && (l.record.Some? ==> forall i :: 0 <= i < |l.record.value.disks| ==>
          var d := l.record.value.disks[i];
          d.origin == CreatedByLaunch && d.identity.Some? ==> MadeBy(fs, d.identity.value, l.vm, i))
    && AllMadeBy(Guarded(l.activity), fs, l.vm)
    && (l.activity.Launching? && l.activity.step.DiskSeen? && l.activity.step.mine ==>
          MadeBy(fs, l.activity.step.identity, l.vm, l.activity.step.index))
  }

  predicate HistoryFiles(l: Local, fs: Files) {
    && (l.activity.Launching? || l.activity.Running? ==>
          forall id :: id in fs.deleted && id in fs.made ==> fs.made[id].vm != l.vm)
    && (forall id :: id in fs.kept && id in fs.made && fs.made[id].vm == l.vm ==>
          && !Provisioning(l.activity)
          && (l.record.Some? ==>
                && fs.made[id].disk < |l.record.value.disks|
                && KeepsFile(l.record.value.disks[fs.made[id].disk], id)))
  }

  predicate LocalFiles(l: Local, fs: Files) {
    RecordFiles(l, fs) && WindowInv(l, fs) && HistoryFiles(l, fs)
  }

  predicate KeepsFile(d: Disk, id: FileIdentity) {
    d.published && d.effective == Persistent && d.identity == Some(id)
  }

  predicate FilesInv(fs: Files) {
    && (forall p :: p in fs.at ==> fs.at[p] in fs.known)
    && fs.made.Keys <= fs.known
    && fs.deleted <= fs.made.Keys
    && fs.kept <= fs.made.Keys
    && fs.kept !! fs.deleted
  }

  predicate SceneInv(s: Scene) {
    LocalInv(s.local) && FilesInv(s.fs) && LocalFiles(s.local, s.fs)
  }

  // ---------------------------------------------------------------------
  // One action keeps the scene invariant
  // ---------------------------------------------------------------------

  lemma LaunchedInv(vm: VmId, session: SessionId, withNetwork: bool, specs: seq<DiskSpec>)
    ensures LocalInv(Launched(vm, session, withNetwork, specs))
  {
  }

  /** The intent names every resource the launch is going to make, and claims none of them. */
  lemma IntentTells(vm: VmId, session: SessionId, withNetwork: bool, specs: seq<DiskSpec>)
    ensures var r := Launched(vm, session, withNetwork, specs).record.value;
            && r.vm == vm && !r.published && r.attempts == 0 && !IsComplete(r)
            && Count(r) == 1 + (if withNetwork then 1 else 0) + |specs|
            && (forall k: nat :: k < Count(r) ==> StateAt(r, k) == Planned)
            && forall i :: 0 <= i < |specs| ==>
                 var d := r.disks[i];
                 && d.path == specs[i].path && d.origin == CreatedByLaunch && d.identity.None?
                 && d.requested == d.effective == specs[i].retention
                 && !d.published && !d.aceAdded && !d.initRequested && !d.initAcknowledged
  {
  }

  /** Same resources in the same states: only bookkeeping fields differ. */
  predicate SameResources(r: VmRecord, r': VmRecord) {
    r'.vm == r.vm && r'.compute == r.compute && r'.network == r.network && r'.disks == r.disks
  }

  lemma SameResourcesAt(r: VmRecord, r': VmRecord)
    requires SameResources(r, r')
    ensures Count(r') == Count(r)
    ensures forall k: nat :: k < Count(r) ==>
              StateAt(r', k) == StateAt(r, k) && KindAt(r', k) == KindAt(r, k) && IdentityAt(r', k) == IdentityAt(r, k)
  {
  }

  lemma DiskUpdated(r: VmRecord, i: nat, d: Disk)
    requires i < |r.disks|
    ensures var r' := r.(disks := r.disks[i := d]);
            && Count(r') == Count(r)
            && forall k: nat :: k < Count(r) ==>
              StateAt(r', k) == if k == DiskBase(r) + i then d.state else StateAt(r, k)
  {
  }

  lemma NoteDiskKeepsLocal(s: Scene)
    requires LocalInv(s.local) && CanLaunch(s, NoteDisk)
    ensures LocalInv(DoLaunch(s, NoteDisk).local)
  {
    var l := s.local;
    var i := l.activity.step.index;
    DiskUpdated(l.record.value, i, NotedDisk(l.record.value.disks[i], l.activity.step.identity, l.activity.step.mine));
  }

  lemma NoteAceKeepsLocal(s: Scene)
    requires LocalInv(s.local) && CanLaunch(s, NoteAce)
    ensures LocalInv(DoLaunch(s, NoteAce).local)
  {
    var l := s.local;
    var i := l.activity.step.index;
    DiskUpdated(l.record.value, i, l.record.value.disks[i].(aceAdded := true));
  }

  lemma NoteNetworkKeepsLocal(s: Scene)
    requires LocalInv(s.local) && CanLaunch(s, NoteNetwork)
    ensures LocalInv(DoLaunch(s, NoteNetwork).local)
  {
    var r := s.local.record.value;
    assert forall k: nat :: k < Count(r) && k != 1 ==> StateAt(r.(network := Some(Created)), k) == StateAt(r, k);
  }

  lemma NoteComputeKeepsLocal(s: Scene)
    requires LocalInv(s.local) && CanLaunch(s, NoteCompute)
    ensures LocalInv(DoLaunch(s, NoteCompute).local)
  {
    var r := s.local.record.value;
    var r' := r.(compute := Created, phase := Starting);
    assert forall k: nat :: k < Count(r) && k != 0 ==> StateAt(r', k) == StateAt(r, k);
  }

  lemma LaunchKeepsLocal(s: Scene, a: LaunchAction)
    requires LocalInv(s.local) && CanLaunch(s, a)
    ensures LocalInv(DoLaunch(s, a).local)
  {
    match a
    case NoteNetwork => NoteNetworkKeepsLocal(s);
    case NoteDisk => NoteDiskKeepsLocal(s);
    case NoteAce => NoteAceKeepsLocal(s);
    case NoteCompute => NoteComputeKeepsLocal(s);
    case _ =>
  }

  // The cleanup pass ------------------------------------------------------

  lemma OpenKeepsLocal(s: Scene)
    requires LocalInv(s.local) && CanVisit(s, OpenPass)
    ensures LocalInv(DoVisit(s, OpenPass).local)
  {
    SameResourcesAt(s.local.record.value, OpenedRecord(s.local.record.value));
  }

  lemma SkipKeepsLocal(s: Scene)
    requires LocalInv(s.local) && CanVisit(s, SkipRemoved)
    ensures LocalInv(DoVisit(s, SkipRemoved).local)
  {
  }

  lemma HookKeepsLocal(s: Scene, a: VisitAction)
    requires LocalInv(s.local) && CanVisit(s, a) && (a.HookCompute? || a.HookNetwork? || a.HookDisk? || a.UnlinkDisk?)
    ensures LocalInv(DoVisit(s, a).local)
  {
  }

  lemma WithStateKeepsDisks(r: VmRecord, k: nat, st: ResourceState)
    requires k < Count(r) && forall i :: 0 <= i < |r.disks| ==> DiskInv(r.disks[i])
    requires st == Removed || (st == RemovalFailed && (DiskBase(r) <= k ==> r.disks[k - DiskBase(r)].identity.Some?))
    ensures forall i :: 0 <= i < |r.disks| ==> DiskInv(WithState(r, k, st).disks[i])
    ensures forall j: nat :: j < Count(r) ==>
              KindAt(WithState(r, k, st), j) == KindAt(r, j) && IdentityAt(WithState(r, k, st), j) == IdentityAt(r, j)
  {
  }

  /** Recording the outcome of resource k extends the visited prefix by k. */
  lemma OutcomeExtendsVisited(r: VmRecord, k: nat, failures: seq<Failure>, failed: bool, f: Failure)
    requires k < Count(r) && VisitedInv(r, k, failures)
    ensures VisitedInv(WithState(r, k, if failed then RemovalFailed else Removed), k + 1,
                       if failed then failures + [f] else failures)
  {
    var r' := WithState(r, k, if failed then RemovalFailed else Removed);
    if failed {
      assert StateAt(r', k) != Removed;
    } else if failures != [] {
      var j: nat :| j < k && StateAt(r, j) != Removed;
      assert StateAt(r', j) != Removed;
    }
  }

  lemma SameResourcesVisited(r: VmRecord, r': VmRecord, n: nat, failures: seq<Failure>)
    requires SameResources(r, r') && n <= Count(r) && VisitedInv(r, n, failures)
    ensures n <= Count(r') && VisitedInv(r', n, failures)
  {
    SameResourcesAt(r, r');
    if failures != [] {
      var j: nat :| j < n && StateAt(r, j) != Removed;
      assert StateAt(r', j) != Removed;
    }
  }

  lemma OutcomeKeepsRecord(l: Local, r: VmRecord, k: nat, outcome: Outcome, r': VmRecord)
    requires RecordInv(l, r) && k < Count(r) && AppliedInv(l, r, k, outcome) && OpenInv(l, r)
    requires SameResources(WithState(r, k, if outcome.Failed? then RemovalFailed else Removed), r')
    requires r'.phase == r.phase && r'.attempts == r.attempts
    ensures RecordInv(l, r')
  {
    var st := if outcome.Failed? then RemovalFailed else Removed;
    WithStateKeepsDisks(r, k, st);
    SameResourcesAt(WithState(r, k, st), r');
  }

  lemma NoteKeepsLocal(s: Scene)
    requires LocalInv(s.local) && CanVisit(s, NoteOutcome)
    ensures LocalInv(DoVisit(s, NoteOutcome).local)
  {
    var l := s.local;
    var r := l.record.value;
    var k := l.activity.pass.next;
    var outcome := l.activity.pass.outcome;
    var failures := l.activity.pass.failures;
    var r' := RecordOutcome(r, k, outcome);
    OutcomeKeepsRecord(l, r, k, outcome, r');
    var cause := if outcome.Failed? then outcome.cause else "";
    OutcomeExtendsVisited(r, k, failures, outcome.Failed?, Failure(KindAt(r, k), IdentityAt(r, k), cause));
    SameResourcesVisited(WithState(r, k, if outcome.Failed? then RemovalFailed else Removed), r', k + 1,
                         AddFailure(r, k, outcome, failures));
  }

  lemma MarkCompleteKeepsLocal(s: Scene)
    requires LocalInv(s.local) && CanSettle(s, MarkComplete)
    ensures LocalInv(DoSettle(s, MarkComplete).local)
  {
    SameResourcesAt(s.local.record.value, s.local.record.value.(phase := Complete, lastError := None));
  }

  /** Once every resource is removed nothing is up, so dropping the record loses nothing. */
  lemma RemoveRecordKeepsLocal(s: Scene)
    requires LocalInv(s.local) && CanSettle(s, RemoveRecord)
    ensures LocalInv(DoSettle(s, RemoveRecord).local)
  {
    var r := s.local.record.value;
    assert StateAt(r, 0) == Removed;
    if r.network.Some? {
      assert StateAt(r, 1) == Removed;
    }
  }

  lemma LeftoversList(r: VmRecord, n: nat, failures: seq<Failure>, now: nat, k: nat)
    requires k < n <= Count(r) && StateAt(r, k) != Removed
    ensures Lists(Leftovers(r, n, failures, now), KindAt(r, k), IdentityAt(r, k))
  {
    var before := Leftovers(r, n - 1, failures, now);
    var all := Leftovers(r, n, failures, now);
    if k == n - 1 {
      assert all[|before|] == EntryAt(r, k, failures, now);
    } else {
      LeftoversList(r, n - 1, failures, now, k);
      ListsIsKept(before, all, KindAt(r, k), IdentityAt(r, k));
    }
  }

  /** The written row lists every resource that is not removed, keeps every
      earlier entry with its first timestamp, and stays free of duplicates. */
  lemma InventoryIsComplete(row: Option<seq<Entry>>, r: VmRecord, failures: seq<Failure>, now: nat)
    requires row.Some? ==> DistinctEntries(row.value)
    ensures var after := InventoryAfter(row, r, failures, now);
            && DistinctEntries(after)
            && (row.Some? ==> KeepsFirst(row.value, after))
            && forall k: nat :: k < Count(r) && StateAt(r, k) != Removed ==>
              Lists(after, KindAt(r, k), IdentityAt(r, k))
  {
    var previous := if row.Some? then row.value else [];
    var left := Leftovers(r, Count(r), failures, now);
    var considered := Merge(previous, left);
    var after := Merge(previous, considered);
    MergeKeepsInventory(previous, left);
    MergeKeepsInventory(previous, considered);
    forall k: nat | k < Count(r) && StateAt(r, k) != Removed
      ensures Lists(after, KindAt(r, k), IdentityAt(r, k))
    {
      LeftoversList(r, Count(r), failures, now, k);
      var i :| 0 <= i < |left| && left[i].kind == KindAt(r, k) && left[i].identity == IdentityAt(r, k);
      assert Lists(considered, left[i].kind, left[i].identity);
      var j :| 0 <= j < |considered|
               && considered[j].kind == KindAt(r, k) && considered[j].identity == IdentityAt(r, k);
      assert Lists(after, considered[j].kind, considered[j].identity);
    }
  }

  lemma LongerRowKeepsRecord(l: Local, r: VmRecord, row: seq<Entry>)
    requires RecordInv(l, r) && (l.row.Some? ==> KeepsFirst(l.row.value, row))
    ensures RecordInv(l.(row := Some(row)), r)
  {
    forall k: nat | k < Count(r) && StateAt(r, k) == Abandoned
      ensures RowLists(Some(row), KindAt(r, k), IdentityAt(r, k))
    {
      ListsIsKept(l.row.value, row, KindAt(r, k), IdentityAt(r, k));
    }
  }

  lemma CompleteRowIsInventoried(l: Local, row: seq<Entry>)
    requires LocalInv(l) && WalkDone(l) && DistinctEntries(row)
    requires l.row.Some? ==> KeepsFirst(l.row.value, row)
    requires forall k: nat :: k < Count(l.record.value) && StateAt(l.record.value, k) != Removed ==>
               Lists(row, KindAt(l.record.value, k), IdentityAt(l.record.value, k))
    ensures LocalInv(AtPass(l, Inventoried(l.activity.pass.failures)).(row := Some(row)))
  {
    var r := l.record.value;
    LongerRowKeepsRecord(l, r, row);
    forall i | 0 <= i < |r.disks|
      ensures r.disks[i].state == Removed || r.disks[i].identity.Some?
    {
      assert r.disks[i].state == StateAt(r, DiskBase(r) + i);
    }
  }

  lemma InventoryKeepsLocal(s: Scene, now: nat)
    requires LocalInv(s.local) && CanSettle(s, PutInventory(now))
    ensures LocalInv(DoSettle(s, PutInventory(now)).local)
  {
    var l := s.local;
    InventoryIsComplete(l.row, l.record.value, l.activity.pass.failures, now);
    CompleteRowIsInventoried(l, InventoryAfter(l.row, l.record.value, l.activity.pass.failures, now));
  }

  // What the inventory tells ------------------------------------------------

  /** Failure j is the first of this resource in the pass. */
  predicate FirstFailure(failures: seq<Failure>, j: int, kind: Kind, identity: string) {
    && 0 <= j < |failures| && failures[j].kind == kind && failures[j].identity == identity
    && forall i :: 0 <= i < j ==> !(failures[i].kind == kind && failures[i].identity == identity)
  }

  /** The text names the cause of this pass, or says that the attempts are used up. */
  ghost predicate TellsCause(text: string, kind: Kind, identity: string, failures: seq<Failure>) {
    if exists j :: FirstFailure(failures, j, kind, identity) then
      exists j :: FirstFailure(failures, j, kind, identity) && text == FailureText(kind, identity, failures[j].cause)
    else text == ExhaustedText(kind, identity)
  }

  lemma {:induction false} LastErrorTells(kind: Kind, identity: string, failures: seq<Failure>)
    ensures TellsCause(LastErrorFor(kind, identity, failures), kind, identity, failures)
    decreases |failures|
  {
    if |failures| > 0 {
      if failures[0].kind == kind && failures[0].identity == identity {
        assert FirstFailure(failures, 0, kind, identity);
      } else {
        var rest := failures[1..];
        LastErrorTells(kind, identity, rest);
        assert forall j :: FirstFailure(rest, j, kind, identity) ==> FirstFailure(failures, j + 1, kind, identity);
        forall j | FirstFailure(failures, j, kind, identity)
          ensures FirstFailure(rest, j - 1, kind, identity)
        {
          assert forall i :: 0 <= i < j - 1 ==> rest[i] == failures[i + 1];
        }
      }
    }
  }

  /** Every entry of this kind and identity tells this error. */
  predicate AllTell(entries: seq<Entry>, kind: Kind, identity: string, text: string) {
    forall i :: 0 <= i < |entries| && entries[i].kind == kind && entries[i].identity == identity ==>
      entries[i].lastError == text
  }

  lemma {:induction false} MergeTells(entries: seq<Entry>, added: seq<Entry>, kind: Kind, identity: string,
                                      text: string)
    requires DistinctEntries(entries) && AllTell(added, kind, identity, text) && Lists(added, kind, identity)
    ensures AllTell(Merge(entries, added), kind, identity, text) && DistinctEntries(Merge(entries, added))
    decreases |added|
  {
    MergeKeepsInventory(entries, added);
    var init, last := added[..|added| - 1], added[|added| - 1];
    var mid := Merge(entries, init);
    MergeKeepsInventory(entries, init);
    forall i: nat | i < |Upsert(mid, last)|
      ensures if i == FindEntry(mid, last.kind, last.identity) then Upsert(mid, last)[i].lastError == last.lastError
              else i < |mid| && Upsert(mid, last)[i] == mid[i]
    {
      UpsertTellsLatestError(mid, last, i);
    }
    if !(last.kind == kind && last.identity == identity) {
      var i :| 0 <= i < |added| && added[i].kind == kind && added[i].identity == identity;
      assert init[i] == added[i];
      MergeTells(entries, init, kind, identity, text);
    }
  }

  lemma {:induction false} LeftoversTell(r: VmRecord, n: nat, failures: seq<Failure>, now: nat, kind: Kind,
                                         identity: string)
    requires n <= Count(r)
    ensures AllTell(Leftovers(r, n, failures, now), kind, identity, LastErrorFor(kind, identity, failures))
  {
    if n > 0 {
      LeftoversTell(r, n - 1, failures, now, kind, identity);
    }
  }

  /** The inventory written when a record is given up tells, of every resource not removed,
      why its removal failed in this pass. */
  lemma InventoryTellsCause(row: Option<seq<Entry>>, r: VmRecord, failures: seq<Failure>, now: nat, k: nat, i: nat)
    requires (row.Some? ==> DistinctEntries(row.value)) && k < Count(r) && StateAt(r, k) != Removed
    requires var after := InventoryAfter(row, r, failures, now);
             i < |after| && after[i].kind == KindAt(r, k) && after[i].identity == IdentityAt(r, k)
    ensures TellsCause(InventoryAfter(row, r, failures, now)[i].lastError, KindAt(r, k), IdentityAt(r, k), failures)
  {
    var kind, identity := KindAt(r, k), IdentityAt(r, k);
    var text := LastErrorFor(kind, identity, failures);
    var previous := if row.Some? then row.value else [];
    var left := Leftovers(r, Count(r), failures, now);
    LeftoversTell(r, Count(r), failures, now, kind, identity);
    LeftoversList(r, Count(r), failures, now, k);
    MergeTells(previous, left, kind, identity, text);
    MergeKeepsInventory(previous, left);
    var j :| 0 <= j < |left| && left[j].kind == kind && left[j].identity == identity;
    assert Lists(Merge(previous, left), left[j].kind, left[j].identity);
    MergeTells(previous, Merge(previous, left), kind, identity, text);
    LastErrorTells(kind, identity, failures);
  }

  lemma AbandonedStates(r: VmRecord)
    ensures var r' := AbandonedRecord(r);
            && Count(r') == Count(r)
            && forall k: nat :: k < Count(r) ==>
              StateAt(r', k) == GiveUp(StateAt(r, k))
              && KindAt(r', k) == KindAt(r, k) && IdentityAt(r', k) == IdentityAt(r, k)
  {
  }

  /** Everything still unremoved is listed, so giving it up keeps the record's promises. */
  lemma AbandonKeepsRecord(l: Local, r: VmRecord)
    requires RecordInv(l, r) && r.phase != Complete
    requires forall k: nat :: k < Count(r) && StateAt(r, k) != Removed ==>
               RowLists(l.row, KindAt(r, k), IdentityAt(r, k))
    requires forall i :: 0 <= i < |r.disks| ==> r.disks[i].state == Removed || r.disks[i].identity.Some?
    ensures RecordInv(l, AbandonedRecord(r))
  {
    AbandonedStates(r);
  }

  lemma AbandonedIsComplete(r: VmRecord)
    ensures IsComplete(AbandonedRecord(r))
  {
    AbandonedStates(r);
    IsCompleteMeansAllTerminal(AbandonedRecord(r));
  }

  lemma AbandonKeepsLocal(s: Scene)
    requires LocalInv(s.local) && CanSettle(s, MarkAbandoned)
    ensures LocalInv(DoSettle(s, MarkAbandoned).local)
    ensures IsComplete(DoSettle(s, MarkAbandoned).local.record.value)
  {
    var l := s.local;
    AbandonKeepsRecord(l, l.record.value);
    AbandonedIsComplete(l.record.value);
  }

  lemma VisitKeepsLocal(s: Scene, a: VisitAction)
    requires LocalInv(s.local) && CanVisit(s, a)
    ensures LocalInv(DoVisit(s, a).local)
  {
    match a
    case OpenPass => OpenKeepsLocal(s);
    case SkipRemoved => SkipKeepsLocal(s);
    case NoteOutcome => NoteKeepsLocal(s);
    case _ => HookKeepsLocal(s, a);
  }

  lemma SettleKeepsLocal(s: Scene, a: SettleAction)
    requires LocalInv(s.local) && CanSettle(s, a)
    ensures LocalInv(DoSettle(s, a).local)
  {
    match a
    case MarkComplete => MarkCompleteKeepsLocal(s);
    case RemoveRecord => RemoveRecordKeepsLocal(s);
    case PutInventory(now) => InventoryKeepsLocal(s, now);
    case MarkAbandoned => AbandonKeepsLocal(s);
    case _ =>
  }

  lemma PublishedStates(r: VmRecord)
    ensures var r' := PublishedRecord(r);
            && Count(r') == Count(r)
            && forall k: nat :: k < Count(r) ==>
              StateAt(r', k) == StateAt(r, k) && KindAt(r', k) == KindAt(r, k) && IdentityAt(r', k) == IdentityAt(r, k)
  {
  }

  /** Publication marks the record and every disk, acknowledges the initialisations asked for,
      and changes nothing that cleanup goes by except that. */
  lemma PublicationTells(s: Scene)
    requires CanLife(s, NotePublished)
    ensures var r, r' := s.local.record.value, DoLife(s, NotePublished).local.record.value;
            && r'.published && r'.lastError.None? && r'.attempts == r.attempts && |r'.disks| == |r.disks|
            && (forall k: nat :: k < Count(r) ==> k < Count(r') && StateAt(r', k) == StateAt(r, k))
            && forall i :: 0 <= i < |r.disks| ==>
                 var d, d' := r.disks[i], r'.disks[i];
                 && d'.published && (d'.initAcknowledged <==> d.initAcknowledged || d.initRequested)
                 && d'.path == d.path && d'.identity == d.identity && d'.origin == d.origin
                 && d'.effective == d.effective && d'.aceAdded == d.aceAdded
  {
    PublishedStates(s.local.record.value);
  }

  lemma LifeKeepsLocal(s: Scene, a: LifeAction)
    requires LocalInv(s.local) && CanLife(s, a)
    ensures LocalInv(DoLife(s, a).local)
  {
    match a
    case NoteStarted => SameResourcesAt(s.local.record.value, DoLife(s, a).local.record.value);
    case NotePublished => PublishedStates(s.local.record.value);
    case _ =>
  }

  /** Every action keeps the durable invariant and the invariant of the position it leads to. */
  lemma ActionKeepsLocal(s: Scene, a: Action)
    requires LocalInv(s.local) && Can(s, a)
    ensures LocalInv(Do(s, a).local)
  {
    match a
    case InLaunch(x) => LaunchKeepsLocal(s, x);
    case InVisit(x) => VisitKeepsLocal(s, x);
    case InSettle(x) => SettleKeepsLocal(s, x);
    case InLife(x) => LifeKeepsLocal(s, x);
  }

  // Finished records --------------------------------------------------------

  /** Nothing of the VM is left to account for. */
  predicate Settled(l: Local) {
    && (l.record.Some? ==> AllRemoved(l.record.value))
    && l.row.None? && !l.compute && !l.network && l.activity == Idle
  }

  /** A record that is complete while no inventory row exists has nothing left to clean up. */
  lemma FinishedIsSettled(l: Local)
    requires LocalInv(l) && l.activity == Idle && l.row.None?
    requires l.record.Some? ==> IsComplete(l.record.value)
    ensures Settled(l)
  {
    if l.record.Some? {
      var r := l.record.value;
      IsCompleteMeansAllTerminal(r);
      assert AllRemoved(r);
      assert StateAt(r, 0) == Removed;
      if r.network.Some? {
        assert StateAt(r, 1) == Removed;
      }
    }
  }

  /** A terminal record may be dropped: what it abandoned stays listed in the inventory row. */
  lemma TerminalRecordMayGo(l: Local)
    requires LocalInv(l) && l.activity == Idle && l.record.Some? && IsComplete(l.record.value)
    ensures LocalInv(l.(record := None))
  {
    var r := l.record.value;
    IsCompleteMeansAllTerminal(r);
    assert Terminal(StateAt(r, 0));
    if r.network.Some? {
      assert Terminal(StateAt(r, 1));
    }
  }

  // Files -----------------------------------------------------------------

  lemma SeeKeepsFiles(s: Scene)
    requires SceneInv(s) && CanLaunch(s, SeeDisk)
    ensures LocalFiles(DoLaunch(s, SeeDisk).local, s.fs)
  {
    var l := s.local;
    var path := l.record.value.disks[l.activity.step.index].path;
    if l.activity.step.DiskMade? {
      assert path in CreateWindow(l);
    }
  }

  lemma MakeDiskKeepsFiles(s: Scene, id: FileIdentity)
    requires SceneInv(s) && CanLaunch(s, MakeDisk(id))
    ensures var s' := DoLaunch(s, MakeDisk(id)); FilesInv(s'.fs) && LocalFiles(s'.local, s'.fs)
  {
  }

  lemma LaunchKeepsFiles(s: Scene, a: LaunchAction)
    requires SceneInv(s) && CanLaunch(s, a)
    ensures FilesInv(DoLaunch(s, a).fs) && LocalFiles(DoLaunch(s, a).local, DoLaunch(s, a).fs)
  {
    match a
    case MakeDisk(id) => MakeDiskKeepsFiles(s, id);
    case SeeDisk => SeeKeepsFiles(s);
    case NoteDisk => NoteDiskKeepsFiles(s);
    case NoteAce => NoteAceKeepsFiles(s);
    case _ =>
  }

  lemma NoteDiskKeepsFiles(s: Scene)
    requires SceneInv(s) && CanLaunch(s, NoteDisk)
    ensures LocalFiles(DoLaunch(s, NoteDisk).local, s.fs)
  {
  }

  lemma NoteAceKeepsFiles(s: Scene)
    requires SceneInv(s) && CanLaunch(s, NoteAce)
    ensures LocalFiles(DoLaunch(s, NoteAce).local, s.fs)
  {
  }

  /** The file in a check window is the launch's own, and was not promised to be kept. */
  lemma ComparedIsOwn(l: Local, fs: Files, path: Path)
    requires LocalInv(l) && LocalFiles(l, fs) && path in CheckWindow(l)
    ensures path in fs.at && fs.at[path] in fs.made && fs.made[fs.at[path]].vm == l.vm && fs.at[path] !in fs.kept
  {
  }

  /** Unlinking a file this launch made and never promised to keep is safe. */
  lemma UnlinkKeepsFiles(l: Local, fs: Files, path: Path)
    requires FilesInv(fs) && LocalFiles(l, fs) && CheckWindow(l) == {} && (l.activity.Cleaning? || l.activity.Sweeping?)
    requires path in fs.at && fs.at[path] in fs.made && fs.made[fs.at[path]].vm == l.vm && fs.at[path] !in fs.kept
    ensures FilesInv(Unlink(fs, path)) && LocalFiles(l, Unlink(fs, path))
  {
  }

  /** What a pass that compared an identity then unlinks is the file it compared, its own and not promised. */
  lemma UnlinkDeletesOnlyOwn(s: Scene, unlinks: bool)
    requires SceneInv(s) && CanVisit(s, UnlinkDisk(unlinks))
    ensures var d := CheckedDisk(s.local);
            var fs' := DoVisit(s, UnlinkDisk(unlinks)).fs;
            && d.path in s.fs.at && d.identity == Some(s.fs.at[d.path]) && Deletable(d)
            && s.fs.at[d.path] in s.fs.made && s.fs.made[s.fs.at[d.path]].vm == s.local.vm
            && s.fs.at[d.path] !in s.fs.kept
            && fs' == (if unlinks then Unlink(s.fs, d.path) else s.fs)
  {
    assert CheckedDisk(s.local).path in CheckWindow(s.local);
    ComparedIsOwn(s.local, s.fs, CheckedDisk(s.local).path);
  }

  lemma UnlinkDiskKeepsFiles(s: Scene, unlinks: bool)
    requires SceneInv(s) && CanVisit(s, UnlinkDisk(unlinks))
    ensures var s' := DoVisit(s, UnlinkDisk(unlinks)); FilesInv(s'.fs) && LocalFiles(s'.local, s'.fs)
  {
    UnlinkDeletesOnlyOwn(s, unlinks);
    var l' := DoVisit(s, UnlinkDisk(unlinks)).local;
    CleaningIgnoresPass(s.local, l', s.fs);
    if unlinks {
      UnlinkKeepsFiles(l', s.fs, CheckedDisk(s.local).path);
    }
  }

  lemma HookDiskKeepsFiles(s: Scene, env: DiskEnv)
    requires SceneInv(s) && CanVisit(s, HookDisk(env))
    ensures LocalFiles(DoVisit(s, HookDisk(env)).local, s.fs)
  {
    var l, l' := s.local, DoVisit(s, HookDisk(env)).local;
    assert RecordFiles(l', s.fs) && HistoryFiles(l', s.fs) by { CleaningKeepsRecordFiles(l, l', s.fs); }
    if l'.activity.pass.Checked? {
      assert Checking(l') && CheckedDisk(l').path in s.fs.at;
    }
  }

  /** A disk reported done was never made, was found or is to be kept, or its file is gone;
      reported failed, its file is still there. */
  lemma DiskReportIsTrue(s: Scene, a: VisitAction)
    requires CanVisit(s, a) && (a.HookDisk? || a.UnlinkDisk?)
    ensures var s' := DoVisit(s, a);
            var r, pass := s.local.record.value, s'.local.activity.pass;
            pass.Applied? ==>
              && DiskBase(r) <= pass.next < Count(r)
              && var d := r.disks[pass.next - DiskBase(r)];
                 && (pass.outcome == Done ==>
                       || d.state == Planned || d.origin == PreExisting || (d.published && d.effective == Persistent)
                       || d.path !in s'.fs.at)
                 && (pass.outcome.Failed? ==> d.path in s'.fs.at)
  {
  }

  /** During cleanup the file facts depend on the record's disks only, not on the position of the pass. */
  lemma CleaningKeepsRecordFiles(l: Local, l': Local, fs: Files)
    requires RecordFiles(l, fs) && HistoryFiles(l, fs)
    requires l.activity.Cleaning? && l'.activity.Cleaning? && l'.activity.caller == l.activity.caller && l'.vm == l.vm
    requires l'.record.Some? ==> l.record.Some? && SameFileFacts(l.record.value, l'.record.value)
    ensures RecordFiles(l', fs) && HistoryFiles(l', fs)
  {
  }

  lemma CleaningIgnoresPass(l: Local, l': Local, fs: Files)
    requires LocalFiles(l, fs) && l.activity.Cleaning? && l'.activity.Cleaning?
    requires l'.activity.caller == l.activity.caller
    requires l'.vm == l.vm && !l'.activity.pass.Checked?
    requires l'.record.Some? ==> l.record.Some? && SameFileFacts(l.record.value, l'.record.value)
    ensures LocalFiles(l', fs)
  {
    CleaningKeepsRecordFiles(l, l', fs);
  }

  predicate SameFileFacts(r: VmRecord, r': VmRecord) {
    && |r'.disks| == |r.disks|
    && forall i :: 0 <= i < |r.disks| ==>
         var d, d' := r.disks[i], r'.disks[i];
         d'.origin == d.origin && d'.identity == d.identity
         && d'.published == d.published && d'.effective == d.effective
  }

  lemma PassEndKeepsFiles(l: Local, l': Local, fs: Files)
    requires LocalFiles(l, fs) && l.activity.Cleaning? && l'.vm == l.vm
    requires l'.activity == AfterPass(l.activity.caller, true) || l'.activity == AfterPass(l.activity.caller, false)
    requires l'.record.Some? ==> l.record.Some? && SameFileFacts(l.record.value, l'.record.value)
    ensures LocalFiles(l', fs)
  {
  }

  lemma VisitKeepsFiles(s: Scene, a: VisitAction)
    requires SceneInv(s) && CanVisit(s, a)
    ensures FilesInv(DoVisit(s, a).fs) && LocalFiles(DoVisit(s, a).local, DoVisit(s, a).fs)
  {
    if a.HookDisk? {
      HookDiskKeepsFiles(s, a.env);
    } else if a.UnlinkDisk? {
      UnlinkDiskKeepsFiles(s, a.unlinks);
    } else {
      MoveKeepsFiles(s, a);
    }
  }

  lemma OutcomeSameFileFacts(r: VmRecord, k: nat, outcome: Outcome)
    requires k < Count(r)
    ensures SameFileFacts(r, RecordOutcome(r, k, outcome))
  {
  }

  lemma MoveKeepsFiles(s: Scene, a: VisitAction)
    requires LocalFiles(s.local, s.fs) && CanVisit(s, a) && !a.HookDisk? && !a.UnlinkDisk?
    ensures DoVisit(s, a).fs == s.fs && LocalFiles(DoVisit(s, a).local, s.fs)
  {
    var l' := DoVisit(s, a).local;
    if a.NoteOutcome? {
      OutcomeSameFileFacts(s.local.record.value, s.local.activity.pass.next, s.local.activity.pass.outcome);
    }
    CleaningIgnoresPass(s.local, l', s.fs);
  }

  lemma SettleKeepsFiles(s: Scene, a: SettleAction)
    requires SceneInv(s) && CanSettle(s, a)
    ensures FilesInv(DoSettle(s, a).fs) && LocalFiles(DoSettle(s, a).local, DoSettle(s, a).fs)
  {
    var l' := DoSettle(s, a).local;
    assert l'.record.Some? ==> SameFileFacts(s.local.record.value, l'.record.value);
    if a.RemoveRow? || a.ReturnErr? || a.MarkAbandoned? || a.AbortPass? {
      PassEndKeepsFiles(s.local, l', s.fs);
    } else {
      CleaningIgnoresPass(s.local, l', s.fs);
    }
  }

  /** What the guard unlinks is the file it compared: one this launch made. */
  lemma SweepDeletesOnlyOwn(s: Scene, unlinks: bool)
    requires SceneInv(s) && CanLife(s, SweepFile(unlinks))
    ensures var g := s.local.activity.guarded[0];
            && g.path in s.fs.at && s.fs.at[g.path] == g.identity
            && g.identity in s.fs.made && s.fs.made[g.identity].vm == s.local.vm && g.identity !in s.fs.kept
            && DoLife(s, SweepFile(unlinks)).fs == (if unlinks then Unlink(s.fs, g.path) else s.fs)
  {
    assert s.local.activity.guarded[0].path in CheckWindow(s.local);
    ComparedIsOwn(s.local, s.fs, s.local.activity.guarded[0].path);
  }

  lemma SweepOnKeepsFiles(l: Local, fs: Files)
    requires LocalFiles(l, fs) && l.activity.Sweeping? && l.activity.guarded != []
    ensures LocalFiles(l.(activity := Sweeping(l.activity.guarded[1..], false)), fs)
  {
  }

  lemma SweepKeepsFiles(s: Scene, unlinks: bool)
    requires SceneInv(s) && CanLife(s, SweepFile(unlinks))
    ensures var s' := DoLife(s, SweepFile(unlinks)); FilesInv(s'.fs) && LocalFiles(s'.local, s'.fs)
  {
    SweepDeletesOnlyOwn(s, unlinks);
    SweepOnKeepsFiles(s.local, s.fs);
    if unlinks {
      UnlinkKeepsFiles(DoLife(s, SweepFile(unlinks)).local, s.fs, s.local.activity.guarded[0].path);
    }
  }

  lemma CheckKeepsFiles(s: Scene, readable: bool)
    requires SceneInv(s) && CanLife(s, CheckFile(readable))
    ensures LocalFiles(DoLife(s, CheckFile(readable)).local, s.fs)
  {
    SweepOnKeepsFiles(s.local, s.fs);
  }

  lemma PublishKeepsFiles(s: Scene)
    requires SceneInv(s) && CanLife(s, NotePublished) && s.local.vm == s.local.record.value.vm
    ensures FilesInv(DoLife(s, NotePublished).fs)
    ensures LocalFiles(DoLife(s, NotePublished).local, DoLife(s, NotePublished).fs)
  {
  }

  lemma LifeKeepsFiles(s: Scene, a: LifeAction)
    requires SceneInv(s) && CanLife(s, a)
    ensures FilesInv(DoLife(s, a).fs) && LocalFiles(DoLife(s, a).local, DoLife(s, a).fs)
  {
    match a
    case CheckFile(readable) => CheckKeepsFiles(s, readable);
    case SweepFile(unlinks) => SweepKeepsFiles(s, unlinks);
    case NotePublished => PublishKeepsFiles(s);
    case _ =>
  }

  /** Every action of the protocol keeps the whole scene invariant. */
  lemma ActionKeepsScene(s: Scene, a: Action)
    requires SceneInv(s) && Can(s, a)
    ensures SceneInv(Do(s, a))
  {
    ActionKeepsLocal(s, a);
    match a
    case InLaunch(x) => LaunchKeepsFiles(s, x);
    case InVisit(x) => VisitKeepsFiles(s, x);
    case InSettle(x) => SettleKeepsFiles(s, x);
    case InLife(x) => LifeKeepsFiles(s, x);
  }

  // Others ------------------------------------------------------------------

  /** What others may do to the files while this VM is at some position: act for
      their own launches, and change anything but the paths of its windows. From a
      path where a file was created but not identified they may take it away. */
  predicate OthersMay(vm: VmId, create: set<Path>, check: set<Path>, fs: Files, fs': Files) {
    && FilesInv(fs')
    && fs.known <= fs'.known && fs.kept <= fs'.kept && fs.deleted <= fs'.deleted
    && (forall id :: id in fs.made ==> id in fs'.made && fs'.made[id] == fs.made[id])
    && (forall id :: id in fs'.made && id !in fs.made ==> fs'.made[id].vm != vm)
    && (forall id :: id in fs'.kept && id !in fs.kept ==> id in fs'.made && fs'.made[id].vm != vm)
    && (forall id :: id in fs'.deleted && id !in fs.deleted ==> id in fs'.made && fs'.made[id].vm != vm)
    && (forall p :: p in create && p in fs'.at ==> p in fs.at && fs'.at[p] == fs.at[p])
    && (forall p :: p in check && p in fs.at ==> p in fs'.at && fs'.at[p] == fs.at[p])
  }

  lemma OthersKeepFiles(l: Local, fs: Files, fs': Files)
    requires LocalFiles(l, fs) && OthersMay(l.vm, CreateWindow(l), CheckWindow(l), fs, fs')
    ensures LocalFiles(l, fs')
  {
  }
}
