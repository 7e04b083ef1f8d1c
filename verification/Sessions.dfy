/** All sessions together: any number of processes launch, clean up, crash and
    recover, interleaved in any order. The journal database of a session is its
    liveness lease: only the holder of its writer lock works on its VMs. */
module Sessions {
  import opened Common
  import opened Journal
  import opened Protocol
  import opened Ownership

  /** Who holds the writer lock of a session database. `Gone` means the file was deleted. */
  datatype Mode = Live | Unlocked | Recovering | Gone

  /** `condemned` remembers that a recovery found the database finished and,
      having released the lock, may delete the file at any later moment. */
  datatype SessionState = SessionState(mode: Mode, condemned: bool)

  datatype Sys = Sys(vms: map<VmId, Local>, sessions: map<SessionId, SessionState>, fs: Files)

  datatype Step =
    | OpenSession(sid: SessionId)
    | Launch(vm: VmId, sid: SessionId, withNetwork: bool, specs: seq<DiskSpec>)
    | Act(vm: VmId, action: Action)
    | Release(sid: SessionId)
    | OpenStale(sid: SessionId)
    | DropTerminal(vm: VmId)
    | StartPass(vm: VmId)
    | CloseStale(sid: SessionId)
    | DeleteSession(sid: SessionId)
    | Outsider(path: Path, file: Option<FileIdentity>)

  predicate Held(s: Sys, sid: SessionId) {
    sid in s.sessions && (s.sessions[sid].mode == Live || s.sessions[sid].mode == Recovering)
  }

  predicate AllIdle(s: Sys, sid: SessionId) {
    forall vm :: vm in s.vms && s.vms[vm].session == sid ==> s.vms[vm].activity == Idle
  }

  predicate NoneIncomplete(s: Sys, sid: SessionId) {
    forall vm :: vm in s.vms && s.vms[vm].session == sid && s.vms[vm].record.Some? ==>
      IsComplete(s.vms[vm].record.value)
  }

  predicate NoInventory(s: Sys, sid: SessionId) {
    forall vm :: vm in s.vms && s.vms[vm].session == sid ==> s.vms[vm].row.None?
  }

  /** The path whose named mutex a launch holds, from the creation of the file to the journaled access entry. */
  function LockedPath(l: Local): set<Path> {
    if l.record.Some? && l.activity.Launching?
       && (l.activity.step.DiskMade? || l.activity.step.DiskSeen? || l.activity.step.DiskNoted?)
       && l.activity.step.index < |l.record.value.disks|
    then {l.record.value.disks[l.activity.step.index].path} else {}
  }

  /** The path whose mutex an action acquires. */
  function TakenPath(l: Local, a: Action): set<Path> {
    if a.InLaunch? && (a.launch.MakeDisk? || a.launch.SeeDisk?) && AtDisk(l) && l.activity.step.DiskDue?
    then {l.record.value.disks[l.activity.step.index].path} else {}
  }

  predicate PathIsFree(s: Sys, vm: VmId, a: Action)
    requires vm in s.vms
  {
    forall other :: other in s.vms && other != vm ==> TakenPath(s.vms[vm], a) !! LockedPath(s.vms[other])
  }

  predicate CanStep(s: Sys, step: Step) {
    match step
    case OpenSession(sid) => sid !in s.sessions
    case Launch(vm, sid, withNetwork, specs) =>
      vm !in s.vms && sid in s.sessions && s.sessions[sid].mode == Live
    case Act(vm, a) =>
      vm in s.vms && Held(s, s.vms[vm].session) && Can(Scene(s.vms[vm], s.fs), a) && PathIsFree(s, vm, a)
    case Release(sid) => Held(s, sid)
    case OpenStale(sid) => sid in s.sessions && s.sessions[sid].mode == Unlocked
    case DropTerminal(vm) =>
      && vm in s.vms && s.vms[vm].session in s.sessions && s.sessions[s.vms[vm].session].mode == Recovering
      && s.vms[vm].activity == Idle && s.vms[vm].record.Some? && IsComplete(s.vms[vm].record.value)
    case StartPass(vm) =>
      && vm in s.vms && s.vms[vm].session in s.sessions && s.sessions[s.vms[vm].session].mode == Recovering
      && s.vms[vm].activity == Idle && s.vms[vm].record.Some? && !IsComplete(s.vms[vm].record.value)
    case CloseStale(sid) => sid in s.sessions && s.sessions[sid].mode == Recovering && AllIdle(s, sid)
    case DeleteSession(sid) => sid in s.sessions && s.sessions[sid].condemned && s.sessions[sid].mode != Gone
    case Outsider(path, file) => true
  }

  function Erased(l: Local): Local {
    l.(record := None, row := None, activity := Idle)
  }

  function CrashAll(vms: map<VmId, Local>, sid: SessionId): map<VmId, Local> {
    map vm | vm in vms :: if vms[vm].session == sid then Crashed(vms[vm]) else vms[vm]
  }

  function EraseAll(vms: map<VmId, Local>, sid: SessionId): map<VmId, Local> {
    map vm | vm in vms :: if vms[vm].session == sid then Erased(vms[vm]) else vms[vm]
  }

  /** An outsider puts a file at the path, or takes away what is there. */
  function Moved(fs: Files, path: Path, file: Option<FileIdentity>): Files {
    match file
    case None => fs.(at := fs.at - {path})
    case Some(id) => fs.(at := fs.at[path := id], known := fs.known + {id})
  }

  function DoStep(s: Sys, step: Step): Sys
    requires CanStep(s, step)
  {
    match step
    case OpenSession(sid) => s.(sessions := s.sessions[sid := SessionState(Live, false)])
    case Launch(vm, sid, withNetwork, specs) => s.(vms := s.vms[vm := Launched(vm, sid, withNetwork, specs)])
    case Act(vm, a) =>
      var after := Do(Scene(s.vms[vm], s.fs), a);
      s.(vms := s.vms[vm := after.local], fs := after.fs)
    case Release(sid) =>
      s.(sessions := s.sessions[sid := s.sessions[sid].(mode := Unlocked)], vms := CrashAll(s.vms, sid))
    case OpenStale(sid) => s.(sessions := s.sessions[sid := s.sessions[sid].(mode := Recovering)])
    case DropTerminal(vm) => s.(vms := s.vms[vm := s.vms[vm].(record := None)])
    case StartPass(vm) => s.(vms := s.vms[vm := s.vms[vm].(activity := Cleaning(Begin, ByRecovery))])
    case CloseStale(sid) =>
      var finished := NoneIncomplete(s, sid) && NoInventory(s, sid);
      s.(sessions := s.sessions[sid := SessionState(Unlocked, s.sessions[sid].condemned || finished)])
    case DeleteSession(sid) =>
      s.(sessions := s.sessions[sid := s.sessions[sid].(mode := Gone)], vms := EraseAll(s.vms, sid))
    case Outsider(path, file) => s.(fs := Moved(s.fs, path, file))
  }

  // ---------------------------------------------------------------------
  // The invariant of every reachable state
  // ---------------------------------------------------------------------

  predicate VmInv(s: Sys, vm: VmId)
    requires vm in s.vms
  {
    var l := s.vms[vm];
    && l.vm == vm
    && LocalInv(l)
    && l.session in s.sessions
    && (!Held(s, l.session) ==> l.activity == Idle)
    && (s.sessions[l.session].condemned ==> Settled(l))
    && (s.sessions[l.session].mode == Gone ==> l.record.None? && l.row.None?)
  }

  predicate Inv(s: Sys) {
    && (forall id :: id in s.fs.made ==> s.fs.made[id].vm in s.vms)
    && (forall sid :: sid in s.sessions ==>
          && (s.sessions[sid].condemned ==> s.sessions[sid].mode != Live)
          && (s.sessions[sid].mode == Gone ==> s.sessions[sid].condemned))
    && (forall vm :: vm in s.vms ==> VmInv(s, vm))
  }

  predicate Init(s: Sys) {
    && s.vms == map[] && s.sessions == map[]
    && s.fs.made == map[] && s.fs.deleted == {} && s.fs.kept == {}
    && (forall p :: p in s.fs.at ==> s.fs.at[p] in s.fs.known)
  }

  lemma LaunchFrame(s: Scene, a: LaunchAction)
    requires CanLaunch(s, a)
    ensures s.local.activity != Idle
    ensures DoLaunch(s, a).local.vm == s.local.vm && DoLaunch(s, a).local.session == s.local.session
  {
  }

  lemma LifeFrame(s: Scene, a: LifeAction)
    requires CanLife(s, a)
    ensures s.local.activity != Idle
    ensures DoLife(s, a).local.vm == s.local.vm && DoLife(s, a).local.session == s.local.session
  {
  }

  lemma ActFrame(s: Scene, a: Action)
    requires Can(s, a)
    ensures s.local.activity != Idle
    ensures Do(s, a).local.vm == s.local.vm && Do(s, a).local.session == s.local.session
  {
    match a
    case InLaunch(x) => LaunchFrame(s, x);
    case InLife(x) => LifeFrame(s, x);
    case _ =>
  }

  lemma ActMakes(s: Scene, a: Action, id: FileIdentity)
    requires Can(s, a) && id in Do(s, a).fs.made
    ensures (id in s.fs.made && Do(s, a).fs.made[id] == s.fs.made[id]) || Do(s, a).fs.made[id].vm == s.local.vm
  {
  }

  lemma ActKeepsInv(s: Sys, vm: VmId, a: Action)
    requires Inv(s) && CanStep(s, Act(vm, a))
    ensures Inv(DoStep(s, Act(vm, a)))
  {
    var s' := DoStep(s, Act(vm, a));
    var scene := Scene(s.vms[vm], s.fs);
    assert VmInv(s, vm);
    ActFrame(scene, a);
    ActionKeepsLocal(scene, a);
    forall id | id in s'.fs.made
      ensures s'.fs.made[id].vm in s'.vms
    {
      ActMakes(scene, a, id);
    }
    forall other | other in s'.vms
      ensures VmInv(s', other)
    {
      if other != vm {
        assert VmInv(s, other);
      }
    }
  }

  lemma LaunchKeepsInv(s: Sys, step: Step)
    requires Inv(s) && step.Launch? && CanStep(s, step)
    ensures Inv(DoStep(s, step))
  {
    var s' := DoStep(s, step);
    LaunchedInv(step.vm, step.sid, step.withNetwork, step.specs);
    forall other | other in s'.vms
      ensures VmInv(s', other)
    {
      if other != step.vm {
        assert VmInv(s, other);
      }
    }
  }

  /** The invariants that matter after a crash mention no volatile position. */
  lemma CrashKeepsVm(l: Local)
    requires LocalInv(l)
    ensures LocalInv(Crashed(l))
  {
  }

  lemma EraseKeepsVm(l: Local)
    requires LocalInv(l) && Settled(l)
    ensures LocalInv(Erased(l))
  {
  }

  lemma OpenKeepsInv(s: Sys, step: Step)
    requires Inv(s) && CanStep(s, step) && (step.OpenSession? || step.OpenStale?)
    ensures Inv(DoStep(s, step))
  {
    var s' := DoStep(s, step);
    forall vm | vm in s'.vms
      ensures VmInv(s', vm)
    {
      assert VmInv(s, vm);
    }
  }

  lemma ReleaseKeepsInv(s: Sys, sid: SessionId)
    requires Inv(s) && CanStep(s, Release(sid))
    ensures Inv(DoStep(s, Release(sid)))
  {
    var s' := DoStep(s, Release(sid));
    forall vm | vm in s'.vms
      ensures VmInv(s', vm)
    {
      assert VmInv(s, vm);
      CrashKeepsVm(s.vms[vm]);
    }
  }

  lemma CloseStaleKeepsInv(s: Sys, sid: SessionId)
    requires Inv(s) && CanStep(s, CloseStale(sid))
    ensures Inv(DoStep(s, CloseStale(sid)))
  {
    var s' := DoStep(s, CloseStale(sid));
    forall vm | vm in s'.vms
      ensures VmInv(s', vm)
    {
      assert VmInv(s, vm);
      if s.vms[vm].session == sid && NoneIncomplete(s, sid) && NoInventory(s, sid) {
        FinishedIsSettled(s.vms[vm]);
      }
    }
  }

  lemma DeleteKeepsInv(s: Sys, sid: SessionId)
    requires Inv(s) && CanStep(s, DeleteSession(sid))
    ensures Inv(DoStep(s, DeleteSession(sid)))
  {
    var s' := DoStep(s, DeleteSession(sid));
    forall vm | vm in s'.vms
      ensures VmInv(s', vm)
    {
      assert VmInv(s, vm);
      if s.vms[vm].session == sid {
        EraseKeepsVm(s.vms[vm]);
      }
    }
  }

  lemma DropTerminalKeepsInv(s: Sys, vm: VmId)
    requires Inv(s) && CanStep(s, DropTerminal(vm))
    ensures Inv(DoStep(s, DropTerminal(vm)))
  {
    var s' := DoStep(s, DropTerminal(vm));
    assert VmInv(s, vm);
    TerminalRecordMayGo(s.vms[vm]);
    forall other | other in s'.vms
      ensures VmInv(s', other)
    {
      assert VmInv(s, other);
    }
  }

  lemma UnfinishedIsNotSettled(l: Local)
    requires l.record.Some? && !IsComplete(l.record.value)
    ensures !Settled(l)
  {
    IsCompleteMeansAllTerminal(l.record.value);
  }

  lemma StartPassKeepsInv(s: Sys, vm: VmId)
    requires Inv(s) && CanStep(s, StartPass(vm))
    ensures Inv(DoStep(s, StartPass(vm)))
  {
    var s' := DoStep(s, StartPass(vm));
    assert VmInv(s, vm);
    UnfinishedIsNotSettled(s.vms[vm]);
    forall other | other in s'.vms
      ensures VmInv(s', other)
    {
      assert VmInv(s, other);
    }
  }

  lemma OutsiderKeepsInv(s: Sys, path: Path, file: Option<FileIdentity>)
    requires Inv(s)
    ensures Inv(DoStep(s, Outsider(path, file)))
  {
    var s' := DoStep(s, Outsider(path, file));
    forall vm | vm in s'.vms
      ensures VmInv(s', vm)
    {
      assert VmInv(s, vm);
    }
  }

  lemma StepKeepsInv(s: Sys, step: Step)
    requires Inv(s) && CanStep(s, step)
    ensures Inv(DoStep(s, step))
  {
    match step
    case Launch(_, _, _, _) => LaunchKeepsInv(s, step);
    case Act(vm, a) => ActKeepsInv(s, vm, a);
    case DropTerminal(vm) => DropTerminalKeepsInv(s, vm);
    case StartPass(vm) => StartPassKeepsInv(s, vm);
    case Outsider(path, file) => OutsiderKeepsInv(s, path, file);
    case Release(sid) => ReleaseKeepsInv(s, sid);
    case CloseStale(sid) => CloseStaleKeepsInv(s, sid);
    case DeleteSession(sid) => DeleteKeepsInv(s, sid);
    case _ => OpenKeepsInv(s, step);
  }

  // ---------------------------------------------------------------------
  // Whole runs
  // ---------------------------------------------------------------------

  /** The states visited and the steps between them. */
  predicate IsPath(states: seq<Sys>, steps: seq<Step>) {
    && |states| == |steps| + 1
    && forall i :: 0 <= i < |steps| ==> CanStep(states[i], steps[i]) && states[i + 1] == DoStep(states[i], steps[i])
  }

  /** A run: a path from an initial state. */
  predicate IsRun(states: seq<Sys>, steps: seq<Step>) {
    IsPath(states, steps) && Init(states[0])
  }

  lemma {:induction false} RunInv(states: seq<Sys>, steps: seq<Step>, i: nat)
    requires IsRun(states, steps) && i < |states|
    ensures Inv(states[i])
    decreases i
  {
    if i > 0 {
      RunInv(states, steps, i - 1);
      StepKeepsInv(states[i - 1], steps[i - 1]);
    }
  }

  /** The compute system of the VM is named by a record that does not say it is
      removed, or by an inventory entry of its exact identity, in a database that still exists. */
  predicate ComputeOwned(s: Sys, vm: VmId)
    requires vm in s.vms && s.vms[vm].session in s.sessions
  {
    var l := s.vms[vm];
    && s.sessions[l.session].mode != Gone
    && (|| (l.record.Some? && l.record.value.vm == vm && l.record.value.compute != Removed)
        || RowLists(l.row, ComputeSystem, vm))
  }

  predicate NetworkOwned(s: Sys, vm: VmId)
    requires vm in s.vms && s.vms[vm].session in s.sessions
  {
    var l := s.vms[vm];
    && s.sessions[l.session].mode != Gone
    && ((&& l.record.Some? && l.record.value.vm == vm
         && l.record.value.network.Some? && l.record.value.network.value != Removed)
        || RowLists(l.row, Network, NetworkIdentity(vm)))
  }

  /** Ownership survives any crash: in every state of every run, whatever was
      launched, cleaned up, recovered or lost, each compute system and each
      network that is still up is named by a database that still exists. */
  lemma {:induction false} OwnershipSurvives(states: seq<Sys>, steps: seq<Step>, i: nat, vm: VmId)
    requires IsRun(states, steps) && i < |states| && vm in states[i].vms
    ensures states[i].vms[vm].session in states[i].sessions
    ensures states[i].vms[vm].compute ==> ComputeOwned(states[i], vm)
    ensures states[i].vms[vm].network ==> NetworkOwned(states[i], vm)
  {
    RunInv(states, steps, i);
    assert VmInv(states[i], vm);
    var l := states[i].vms[vm];
    if l.record.Some? {
      assert StateAt(l.record.value, 0) == l.record.value.compute;
      if l.record.value.network.Some? {
        assert StateAt(l.record.value, 1) == l.record.value.network.value;
      }
    }
  }

  /** The refusal to delete a disk without a recorded identity is unreachable:
      every disk a pass hands to the removal hook is still planned or carries one. */
  lemma {:induction false} IdentityRefusalIsUnreachable(states: seq<Sys>, steps: seq<Step>, i: nat, vm: VmId,
                                                        env: DiskEnv)
    requires IsRun(states, steps) && i < |states| && vm in states[i].vms
    requires CanVisit(Scene(states[i].vms[vm], states[i].fs), HookDisk(env))
    ensures var l := states[i].vms[vm];
            var d := l.record.value.disks[l.activity.pass.next - DiskBase(l.record.value)];
            d.state == Planned || d.identity.Some?
  {
    RunInv(states, steps, i);
    assert VmInv(states[i], vm);
    var l := states[i].vms[vm];
    assert DiskInv(l.record.value.disks[l.activity.pass.next - DiskBase(l.record.value)]);
  }

  /** In every run, a step that reports a disk done leaves no file at its path, unless the
      disk was never made, was there before the launch, or was published as persistent. */
  lemma DoneLeavesNothingOwed(states: seq<Sys>, steps: seq<Step>, k: nat, vm: VmId)
    requires IsRun(states, steps) && k < |steps| && steps[k].Act? && steps[k].vm == vm && steps[k].action.InVisit?
    requires steps[k].action.visit.HookDisk? || steps[k].action.visit.UnlinkDisk?
    requires states[k + 1].vms[vm].activity.pass.Applied? && states[k + 1].vms[vm].activity.pass.outcome == Done
    ensures var r := states[k].vms[vm].record.value;
            var i := states[k + 1].vms[vm].activity.pass.next - DiskBase(r);
            && 0 <= i < |r.disks|
            && (|| r.disks[i].state == Planned || r.disks[i].origin == PreExisting
                || (r.disks[i].published && r.disks[i].effective == Persistent)
                || r.disks[i].path !in states[k + 1].fs.at)
  {
    DiskReportIsTrue(Scene(states[k].vms[vm], states[k].fs), steps[k].action.visit);
  }

  // Abandonment -------------------------------------------------------------

  /** At every crash point an abandoned resource is listed under its exact kind
      and identity, a complete record has every resource removed, and the
      inventory holds at most one entry per kind and identity. */
  lemma {:induction false} AbandonedIsListed(states: seq<Sys>, steps: seq<Step>, i: nat, vm: VmId)
    requires IsRun(states, steps) && i < |states| && vm in states[i].vms
    ensures var l := states[i].vms[vm];
            && (l.row.Some? ==> DistinctEntries(l.row.value))
            && (l.record.Some? ==>
                  && (l.record.value.phase == Complete ==> AllRemoved(l.record.value))
                  && forall k: nat :: k < Count(l.record.value) && StateAt(l.record.value, k) == Abandoned ==>
                       RowLists(l.row, KindAt(l.record.value, k), IdentityAt(l.record.value, k)))
  {
    RunInv(states, steps, i);
    assert VmInv(states[i], vm);
  }

  /** Each step leaves a removed resource removed (or drops its record), and
      leaves every inventory entry in place with its first timestamp (or drops the row). */
  lemma StepIsMonotone(s: Sys, step: Step, vm: VmId)
    requires Inv(s) && CanStep(s, step) && vm in s.vms
    ensures vm in DoStep(s, step).vms
    ensures Later(s.vms[vm], DoStep(s, step).vms[vm])
  {
    assert VmInv(s, vm);
    if step.Act? && step.vm == vm {
      ActIsMonotone(Scene(s.vms[vm], s.fs), step.action);
    }
  }

  predicate Later(l: Local, l': Local) {
    && (l.record.None? ==> l'.record.None?)
    && (l.record.Some? && l'.record.Some? ==> RemovedStays(l.record.value, l'.record.value))
    && LaterRow(l, l')
  }

  /** A row keeps its entries and their first timestamps; it goes only after its
      record, and without a record no row is written. */
  predicate LaterRow(l: Local, l': Local) {
    && (l.row.Some? && l'.row.Some? ==> KeepsFirst(l.row.value, l'.row.value))
    && (l.row.Some? && l'.row.None? ==> l'.record.None?)
    && (l.row.None? && l.record.None? ==> l'.row.None?)
  }

  lemma LaterAddsUp(l: Local, l': Local, l'': Local)
    requires Later(l, l') && Later(l', l'')
    ensures Later(l, l'')
  {
  }

  lemma SettleKeepsRow(s: Scene, a: SettleAction)
    requires LocalInv(s.local) && CanSettle(s, a)
    ensures LaterRow(s.local, DoSettle(s, a).local)
  {
    if a.PutInventory? {
      InventoryIsComplete(s.local.row, s.local.record.value, s.local.activity.pass.failures, a.now);
    }
  }

  lemma LaunchKeepsRow(s: Scene, a: LaunchAction)
    requires CanLaunch(s, a)
    ensures DoLaunch(s, a).local.row == s.local.row
  {
  }

  lemma VisitKeepsRow(s: Scene, a: VisitAction)
    requires CanVisit(s, a)
    ensures DoVisit(s, a).local.row == s.local.row
  {
  }

  /** Only the settling of a pass writes the inventory row. */
  lemma ActKeepsRow(s: Scene, a: Action)
    requires LocalInv(s.local) && Can(s, a)
    ensures LaterRow(s.local, Do(s, a).local)
  {
    match a
    case InLaunch(x) => LaunchKeepsRow(s, x);
    case InVisit(x) => VisitKeepsRow(s, x);
    case InSettle(x) => SettleKeepsRow(s, x);
    case InLife(_) =>
  }

  predicate RemovedStays(r: VmRecord, r': VmRecord) {
    Count(r') == Count(r) && forall k: nat :: k < Count(r) && StateAt(r, k) == Removed ==> StateAt(r', k) == Removed
  }

  lemma LaunchKeepsRemoved(s: Scene, a: LaunchAction)
    requires LocalInv(s.local) && CanLaunch(s, a) && s.local.record.Some? && DoLaunch(s, a).local.record.Some?
    ensures RemovedStays(s.local.record.value, DoLaunch(s, a).local.record.value)
  {
    var l := s.local;
    match a
    case NoteDisk =>
      var i := l.activity.step.index;
      DiskUpdated(l.record.value, i,
                  NotedDisk(l.record.value.disks[i], l.activity.step.identity, l.activity.step.mine));
    case NoteAce =>
      var i := l.activity.step.index;
      DiskUpdated(l.record.value, i, l.record.value.disks[i].(aceAdded := true));
    case _ =>
  }

  lemma OutcomeKeepsRemoved(r: VmRecord, k: nat, outcome: Outcome)
    requires k < Count(r) && StateAt(r, k) != Removed
    ensures RemovedStays(r, RecordOutcome(r, k, outcome))
  {
    SameResourcesAt(WithState(r, k, if outcome.Failed? then RemovalFailed else Removed), RecordOutcome(r, k, outcome));
  }

  lemma VisitKeepsRemoved(s: Scene, a: VisitAction)
    requires LocalInv(s.local) && CanVisit(s, a)
    ensures RemovedStays(s.local.record.value, DoVisit(s, a).local.record.value)
  {
    if a.NoteOutcome? {
      OutcomeKeepsRemoved(s.local.record.value, s.local.activity.pass.next, s.local.activity.pass.outcome);
    } else {
      assert SameResources(s.local.record.value, DoVisit(s, a).local.record.value);
      SameResourcesAt(s.local.record.value, DoVisit(s, a).local.record.value);
    }
  }

  lemma SettleKeepsRemoved(s: Scene, a: SettleAction)
    requires LocalInv(s.local) && CanSettle(s, a) && s.local.record.Some? && DoSettle(s, a).local.record.Some?
    ensures RemovedStays(s.local.record.value, DoSettle(s, a).local.record.value)
  {
    if a.MarkAbandoned? {
      AbandonedStates(s.local.record.value);
    }
  }

  lemma LifeKeepsRemoved(s: Scene, a: LifeAction)
    requires LocalInv(s.local) && CanLife(s, a) && s.local.record.Some?
    ensures DoLife(s, a).local.record.Some? && RemovedStays(s.local.record.value, DoLife(s, a).local.record.value)
  {
    PublishedStates(s.local.record.value);
  }

  lemma ActKeepsRemoved(s: Scene, a: Action)
    requires LocalInv(s.local) && Can(s, a) && s.local.record.Some? && Do(s, a).local.record.Some?
    ensures RemovedStays(s.local.record.value, Do(s, a).local.record.value)
  {
    match a
    case InLaunch(x) => LaunchKeepsRemoved(s, x);
    case InVisit(x) => VisitKeepsRemoved(s, x);
    case InSettle(x) => SettleKeepsRemoved(s, x);
    case InLife(x) => LifeKeepsRemoved(s, x);
  }

  lemma ActIsMonotone(s: Scene, a: Action)
    requires LocalInv(s.local) && Can(s, a)
    ensures Later(s.local, Do(s, a).local)
  {
    ActKeepsRow(s, a);
    if s.local.record.Some? && Do(s, a).local.record.Some? {
      ActKeepsRemoved(s, a);
    }
  }

  ghost predicate KeptBetween(s: Sys, s': Sys, vm: VmId) {
    vm in s.vms ==> vm in s'.vms && Later(s.vms[vm], s'.vms[vm])
  }

  lemma RunIsMonotone(states: seq<Sys>, steps: seq<Step>, k: nat, vm: VmId)
    requires IsRun(states, steps) && k + 1 < |states|
    ensures KeptBetween(states[k], states[k + 1], vm)
  {
    RunInv(states, steps, k);
    if vm in states[k].vms {
      StepIsMonotone(states[k], steps[k], vm);
    }
  }

  lemma {:induction false} KeepingAddsUp(states: seq<Sys>, i: nat, j: nat, vm: VmId)
    requires i <= j < |states| && forall k: nat :: i <= k < j ==> KeptBetween(states[k], states[k + 1], vm)
    ensures KeptBetween(states[i], states[j], vm)
    decreases j
  {
    if i < j {
      KeepingAddsUp(states, i, j - 1, vm);
      assert KeptBetween(states[j - 1], states[j - 1 + 1], vm);
      if vm in states[i].vms {
        LaterAddsUp(states[i].vms[vm], states[j - 1].vms[vm], states[j].vms[vm]);
      }
    }
  }

  lemma RunKeeps(states: seq<Sys>, steps: seq<Step>, i: nat, j: nat, vm: VmId)
    requires IsRun(states, steps) && i <= j < |states|
    ensures KeptBetween(states[i], states[j], vm)
  {
    forall n: nat | i <= n < j
      ensures KeptBetween(states[n], states[n + 1], vm)
    {
      RunIsMonotone(states, steps, n, vm);
    }
    KeepingAddsUp(states, i, j, vm);
  }

  /** Once removed, always removed: over any stretch of any run the resource stays removed while the record exists. */
  lemma RemovedIsNeverLeft(states: seq<Sys>, steps: seq<Step>, i: nat, j: nat, vm: VmId, k: nat)
    requires IsRun(states, steps) && i <= j < |states| && vm in states[i].vms
    requires states[i].vms[vm].record.Some? && k < Count(states[i].vms[vm].record.value)
    requires StateAt(states[i].vms[vm].record.value, k) == Removed
    ensures vm in states[j].vms
    ensures states[j].vms[vm].record.Some? ==>
              k < Count(states[j].vms[vm].record.value) && StateAt(states[j].vms[vm].record.value, k) == Removed
  {
    RunKeeps(states, steps, i, j, vm);
  }

  /** Over any stretch of any run, whatever was re-abandoned in between, an
      inventory entry that is still there has its first timestamp. */
  lemma FirstTimestampIsKept(states: seq<Sys>, steps: seq<Step>, i: nat, j: nat, vm: VmId)
    requires IsRun(states, steps) && i <= j < |states| && vm in states[i].vms
    ensures vm in states[j].vms
    ensures states[i].vms[vm].row.Some? && states[j].vms[vm].row.Some? ==>
              KeepsFirst(states[i].vms[vm].row.value, states[j].vms[vm].row.value)
  {
    RunKeeps(states, steps, i, j, vm);
  }

  // Bounded recovery ----------------------------------------------------------

  /** However often a record is cleaned up, closed, dropped or recovered, at
      most two of its passes return a cleanup error. */
  lemma {:induction false} AtMostTwoFailingPasses(states: seq<Sys>, steps: seq<Step>, i: nat, vm: VmId)
    requires IsRun(states, steps) && i < |states| && vm in states[i].vms
    ensures states[i].vms[vm].errPasses <= 2
  {
    RunInv(states, steps, i);
    assert VmInv(states[i], vm);
  }
}
