/** Who can still delete a file. A launch claims a file it made until its record says
    it is gone, given up or kept. Cleanup reads only the record of its own VM, so a
    claim is not given up when another launch finds the file, reuses it and
    publishes it as persistent: a file survives exactly if nobody claims it. */
module Claims {
  import opened Common
  import opened Deletion
  import opened Journal
  import opened Ownership
  import opened Protocol
  import opened Sessions

  // ---------------------------------------------------------------------
  // Claims
  // ---------------------------------------------------------------------

  /** A disk some later pass may still delete. */
  predicate StillDeletable(d: Disk, id: FileIdentity) {
    d.identity == Some(id) && Deletable(d) && !Terminal(d.state)
  }

  predicate ClaimedByRecord(l: Local, id: FileIdentity) {
    l.record.Some? && exists i :: 0 <= i < |l.record.value.disks| && StillDeletable(l.record.value.disks[i], id)
  }

  predicate ClaimedByGuard(l: Local, id: FileIdentity) {
    exists i :: 0 <= i < |Guarded(l.activity)| && Guarded(l.activity)[i].identity == id
  }

  /** The launch has just created the file and it is still there, or has just identified it. */
  predicate ClaimedByStep(l: Local, fs: Files, id: FileIdentity) {
    || (exists p :: p in CreateWindow(l) && p in fs.at && fs.at[p] == id)
    || (l.activity.Launching? && l.activity.step.DiskSeen? && l.activity.step.mine && l.activity.step.identity == id)
  }

  predicate Claims(l: Local, fs: Files, id: FileIdentity) {
    ClaimedByRecord(l, id) || ClaimedByGuard(l, id) || ClaimedByStep(l, fs, id)
  }

  predicate Claimed(s: Sys, id: FileIdentity) {
    exists vm :: vm in s.vms && Claims(s.vms[vm], s.fs, id)
  }

  /** Only the launch that made a file claims it, and it does not once it promised to keep it. */
  lemma ClaimsOnlyOwn(s: Sys, vm: VmId, id: FileIdentity)
    requires Good(s) && vm in s.vms && Claims(s.vms[vm], s.fs, id)
    ensures id in s.fs.made && s.fs.made[id].vm == vm && id !in s.fs.kept
  {
    assert VmInv(s, vm);
    var l := s.vms[vm];
    if ClaimedByRecord(l, id) {
      var i :| 0 <= i < |l.record.value.disks| && StillDeletable(l.record.value.disks[i], id);
      assert MadeBy(s.fs, id, vm, i);
    } else if ClaimedByGuard(l, id) {
      var i :| 0 <= i < |Guarded(l.activity)| && Guarded(l.activity)[i].identity == id;
    }
  }

  // ---------------------------------------------------------------------
  // What else polite runs keep
  // ---------------------------------------------------------------------

  predicate GaveUp(r: VmRecord) {
    exists i :: 0 <= i < |r.disks| && r.disks[i].state == Abandoned
  }

  /** Nothing works on a record that was given up. */
  predicate RestsWhenGivenUp(l: Local) {
    l.record.Some? && GaveUp(l.record.value) ==>
      IsComplete(l.record.value) && (l.activity.Idle? || l.activity.Sweeping?)
  }

  predicate KnowsIdentities(l: Local, fs: Files) {
    && (l.record.Some? ==> forall i :: 0 <= i < |l.record.value.disks| && l.record.value.disks[i].identity.Some? ==>
          l.record.value.disks[i].identity.value in fs.known)
    && (l.activity.Launching? && l.activity.step.DiskSeen? ==> l.activity.step.identity in fs.known)
  }

  predicate Tidy(l: Local, fs: Files) {
    RestsWhenGivenUp(l) && KnowsIdentities(l, fs)
  }

  predicate Sound(s: Sys) {
    Good(s) && forall vm :: vm in s.vms ==> Tidy(s.vms[vm], s.fs)
  }

  lemma LaunchKeepsTidy(s: Scene, a: LaunchAction)
    requires SceneInv(s) && Tidy(s.local, s.fs) && CanLaunch(s, a)
    ensures Tidy(DoLaunch(s, a).local, DoLaunch(s, a).fs)
  {
  }

  lemma OutcomeGivesNothingUp(r: VmRecord, k: nat, outcome: Outcome)
    requires k < Count(r) && !GaveUp(r)
    ensures !GaveUp(RecordOutcome(r, k, outcome))
  {
  }

  lemma VisitKeepsTidy(s: Scene, a: VisitAction)
    requires Tidy(s.local, s.fs) && CanVisit(s, a)
    ensures Tidy(DoVisit(s, a).local, DoVisit(s, a).fs)
  {
    if a.NoteOutcome? {
      OutcomeGivesNothingUp(s.local.record.value, s.local.activity.pass.next, s.local.activity.pass.outcome);
      OutcomeSameFileFacts(s.local.record.value, s.local.activity.pass.next, s.local.activity.pass.outcome);
    }
  }

  lemma SettleKeepsTidy(s: Scene, a: SettleAction)
    requires Tidy(s.local, s.fs) && CanSettle(s, a)
    ensures Tidy(DoSettle(s, a).local, DoSettle(s, a).fs)
  {
  }

  lemma LifeKeepsTidy(s: Scene, a: LifeAction)
    requires Tidy(s.local, s.fs) && CanLife(s, a)
    ensures Tidy(DoLife(s, a).local, DoLife(s, a).fs)
  {
  }

  lemma ActKeepsTidy(s: Scene, a: Action)
    requires SceneInv(s) && Tidy(s.local, s.fs) && Can(s, a)
    ensures Tidy(Do(s, a).local, Do(s, a).fs)
  {
    match a
    case InLaunch(x) => LaunchKeepsTidy(s, x);
    case InVisit(x) => VisitKeepsTidy(s, x);
    case InSettle(x) => SettleKeepsTidy(s, x);
    case InLife(x) => LifeKeepsTidy(s, x);
  }

  lemma OtherStepKeepsTidy(s: Sys, step: Step)
    requires Sound(s) && CanStep(s, step) && !step.Act?
    ensures forall vm :: vm in DoStep(s, step).vms ==> Tidy(DoStep(s, step).vms[vm], DoStep(s, step).fs)
  {
  }

  lemma StepKeepsSound(s: Sys, step: Step)
    requires Sound(s) && CanStep(s, step) && PoliteStep(s, step)
    ensures Sound(DoStep(s, step))
  {
    StepKeepsFiles(s, step);
    if step.Act? {
      assert VmInv(s, step.vm);
      ActKeepsTidy(Scene(s.vms[step.vm], s.fs), step.action);
      ActEvolves(Scene(s.vms[step.vm], s.fs), step.action);
    } else {
      OtherStepKeepsTidy(s, step);
    }
  }

  lemma {:induction false} PathIsSound(states: seq<Sys>, steps: seq<Step>, i: nat)
    requires IsPath(states, steps) && Polite(states, steps) && Sound(states[0]) && i < |states|
    ensures Sound(states[i])
  {
    if i > 0 {
      PathIsSound(states, steps, i - 1);
      assert PoliteStep(states[i - 1], steps[i - 1]);
      StepKeepsSound(states[i - 1], steps[i - 1]);
    }
  }

  // ---------------------------------------------------------------------
  // An unclaimed file stays unclaimed
  // ---------------------------------------------------------------------

  predicate Free(l: Local, fs: Files, id: FileIdentity) {
    id in fs.known && !Claims(l, fs, id)
  }

  lemma LaunchClaimsNothing(s: Scene, a: LaunchAction, id: FileIdentity)
    requires SceneInv(s) && CanLaunch(s, a) && Free(s.local, s.fs, id)
    ensures !Claims(DoLaunch(s, a).local, DoLaunch(s, a).fs, id)
  {
    var l, l' := s.local, DoLaunch(s, a).local;
    match a
    case SeeDisk =>
      var path := l.record.value.disks[l.activity.step.index].path;
      assert l.activity.step.DiskMade? ==> path in CreateWindow(l);
    case NoteDisk =>
      forall i | 0 <= i < |l'.record.value.disks|
        ensures !StillDeletable(l'.record.value.disks[i], id)
      {
        assert !StillDeletable(l.record.value.disks[i], id);
      }
    case NoteAce =>
      forall i | 0 <= i < |l'.record.value.disks|
        ensures !StillDeletable(l'.record.value.disks[i], id)
      {
        assert !StillDeletable(l.record.value.disks[i], id);
      }
    case _ =>
  }

  lemma OutcomeClaimsNothing(r: VmRecord, k: nat, outcome: Outcome, id: FileIdentity)
    requires k < Count(r) && !GaveUp(r) && StateAt(r, k) != Removed
    requires forall i :: 0 <= i < |r.disks| ==> !StillDeletable(r.disks[i], id)
    ensures var r' := RecordOutcome(r, k, outcome);
            forall i :: 0 <= i < |r'.disks| ==> !StillDeletable(r'.disks[i], id)
  {
  }

  lemma VisitClaimsNothing(s: Scene, a: VisitAction, id: FileIdentity)
    requires SceneInv(s) && Tidy(s.local, s.fs) && CanVisit(s, a) && Free(s.local, s.fs, id)
    ensures !Claims(DoVisit(s, a).local, DoVisit(s, a).fs, id)
  {
    if a.NoteOutcome? {
      OutcomeClaimsNothing(s.local.record.value, s.local.activity.pass.next, s.local.activity.pass.outcome, id);
    }
  }

  lemma SettleClaimsNothing(s: Scene, a: SettleAction, id: FileIdentity)
    requires CanSettle(s, a) && Free(s.local, s.fs, id)
    ensures !Claims(DoSettle(s, a).local, DoSettle(s, a).fs, id)
  {
    assert Guarded(DoSettle(s, a).local.activity) == Guarded(s.local.activity);
  }

  lemma SweepingOnClaimsNothing(l: Local, fs: Files, id: FileIdentity)
    requires l.activity.Sweeping? && l.activity.guarded != [] && !Claims(l, fs, id)
    ensures !Claims(l.(activity := Sweeping(l.activity.guarded[1..], false)), fs, id)
    ensures !Claims(l.(activity := Sweeping(l.activity.guarded, true)), fs, id)
  {
    var guarded := l.activity.guarded;
    assert Guarded(l.activity) == guarded;
    assert forall i :: 0 <= i < |guarded| - 1 ==> guarded[1..][i] == Guarded(l.activity)[i + 1];
  }

  lemma LifeClaimsNothing(s: Scene, a: LifeAction, id: FileIdentity)
    requires CanLife(s, a) && Free(s.local, s.fs, id)
    ensures !Claims(DoLife(s, a).local, DoLife(s, a).fs, id)
  {
    if a.NotePublished? {
      var r := s.local.record.value;
      forall i | 0 <= i < |r.disks|
        ensures !StillDeletable(PublishedDisk(r.disks[i]), id)
      {
        assert !StillDeletable(r.disks[i], id);
      }
    } else if a.CheckFile? || a.SweepFile? {
      SweepingOnClaimsNothing(s.local, s.fs, id);
      OthersClaimNothing(s.local, s.fs, DoLife(s, a).fs, id);
      OthersClaimNothing(DoLife(s, a).local, s.fs, DoLife(s, a).fs, id);
    }
  }

  lemma ActClaimsNothing(s: Scene, a: Action, id: FileIdentity)
    requires SceneInv(s) && Tidy(s.local, s.fs) && Can(s, a) && Free(s.local, s.fs, id)
    ensures !Claims(Do(s, a).local, Do(s, a).fs, id)
  {
    match a
    case InLaunch(x) => LaunchClaimsNothing(s, x, id);
    case InVisit(x) => VisitClaimsNothing(s, x, id);
    case InSettle(x) => SettleClaimsNothing(s, x, id);
    case InLife(x) => LifeClaimsNothing(s, x, id);
  }

  /** What happens elsewhere puts no file into the window of a launch. */
  lemma OthersClaimNothing(l: Local, fs: Files, fs': Files, id: FileIdentity)
    requires !Claims(l, fs, id)
    requires forall p :: p in CreateWindow(l) && p in fs'.at ==> p in fs.at && fs'.at[p] == fs.at[p]
    ensures !Claims(l, fs', id)
  {
  }

  lemma StepByActClaimsNothing(s: Sys, vm: VmId, a: Action, other: VmId, id: FileIdentity)
    requires Sound(s) && CanStep(s, Act(vm, a)) && other in s.vms && Free(s.vms[other], s.fs, id)
    ensures !Claims(DoStep(s, Act(vm, a)).vms[other], DoStep(s, Act(vm, a)).fs, id)
  {
    assert VmInv(s, vm);
    if other == vm {
      ActClaimsNothing(Scene(s.vms[vm], s.fs), a, id);
    } else {
      ActEvolves(Scene(s.vms[vm], s.fs), a);
      assert CreateWindow(s.vms[other]) <= LockedPath(s.vms[other]);
      OthersClaimNothing(s.vms[other], s.fs, DoStep(s, Act(vm, a)).fs, id);
    }
  }

  lemma OutsiderClaimsNothing(s: Sys, path: Path, file: Option<FileIdentity>, vm: VmId, id: FileIdentity)
    requires PoliteStep(s, Outsider(path, file)) && vm in s.vms && !Claims(s.vms[vm], s.fs, id)
    ensures !Claims(s.vms[vm], Moved(s.fs, path, file), id)
  {
    OthersClaimNothing(s.vms[vm], s.fs, Moved(s.fs, path, file), id);
  }

  /** Starting, stopping and resuming a VM claim nothing. */
  lemma RestStepClaimsNothing(s: Sys, step: Step, vm: VmId, id: FileIdentity)
    requires CanStep(s, step) && !step.Act? && !step.Outsider? && vm in DoStep(s, step).vms
    requires vm in s.vms ==> !Claims(s.vms[vm], s.fs, id)
    ensures !Claims(DoStep(s, step).vms[vm], s.fs, id)
  {
  }

  predicate Unclaimed(s: Sys, id: FileIdentity) {
    id in s.fs.known && id !in s.fs.deleted && !Claimed(s, id)
  }

  /** Nobody works on a disk that was given up, so what is about to be unlinked is claimed. */
  lemma CapturedIsClaimed(l: Local, fs: Files, id: FileIdentity)
    requires LocalInv(l) && RestsWhenGivenUp(l) && (CapturedByRecord(l, id) || CapturedByGuard(l, id))
    ensures Claims(l, fs, id)
  {
    if CapturedByRecord(l, id) {
      var i := l.activity.pass.next - DiskBase(l.record.value);
      assert StillDeletable(l.record.value.disks[i], id);
    } else {
      assert Guarded(l.activity)[0].identity == id;
    }
  }

  lemma ClaimingDeletes(s: Sys, step: Step, id: FileIdentity)
    requires Sound(s) && CanStep(s, step) && id in DoStep(s, step).fs.deleted && id !in s.fs.deleted
    ensures Claimed(s, id)
  {
    StepDeletesCaptured(s, step, id);
    assert VmInv(s, step.vm);
    CapturedIsClaimed(s.vms[step.vm], s.fs, id);
  }

  lemma StepClaimsNothing(s: Sys, step: Step, id: FileIdentity)
    requires Sound(s) && CanStep(s, step) && PoliteStep(s, step) && Unclaimed(s, id)
    ensures Unclaimed(DoStep(s, step), id)
  {
    var s' := DoStep(s, step);
    forall vm | vm in s'.vms
      ensures !Claims(s'.vms[vm], s'.fs, id)
    {
      assert vm in s.vms ==> !Claims(s.vms[vm], s.fs, id);
      match step
      case Act(actor, a) => StepByActClaimsNothing(s, actor, a, vm, id);
      case Outsider(path, file) => OutsiderClaimsNothing(s, path, file, vm, id);
      case _ => RestStepClaimsNothing(s, step, vm, id);
    }
    if id in s'.fs.deleted {
      ClaimingDeletes(s, step, id);
    }
    if step.Act? {
      assert VmInv(s, step.vm);
      ActEvolves(Scene(s.vms[step.vm], s.fs), step.action);
    }
  }

  lemma {:induction false} PathClaimsNothing(states: seq<Sys>, steps: seq<Step>, i: nat, id: FileIdentity)
    requires IsPath(states, steps) && Polite(states, steps) && i < |states|
    requires Sound(states[0]) && Unclaimed(states[0], id)
    ensures Unclaimed(states[i], id)
  {
    if i > 0 {
      PathClaimsNothing(states, steps, i - 1, id);
      PathIsSound(states, steps, i - 1);
      assert PoliteStep(states[i - 1], steps[i - 1]);
      StepClaimsNothing(states[i - 1], steps[i - 1], id);
    }
  }

  lemma UnclaimedSurvives(s: Sys, id: FileIdentity)
    requires Sound(s) && Unclaimed(s, id)
    ensures Survives(s, id)
  {
    forall s' | Leads(s, s')
      ensures id !in s'.fs.deleted
    {
      var states, steps :| Along(states, steps, s, s');
      PathClaimsNothing(states, steps, |steps|, id);
    }
  }

  // ---------------------------------------------------------------------
  // A claimed file can be deleted
  // ---------------------------------------------------------------------

  /** Only the holder of a session works on its VMs. */
  predicate BusyAreHeld(s: Sys) {
    forall vm :: vm in s.vms && s.vms[vm].activity != Idle ==> Held(s, s.vms[vm].session)
  }

  lemma StepKeepsBusy(s: Sys, step: Step)
    requires BusyAreHeld(s) && CanStep(s, step)
    ensures BusyAreHeld(DoStep(s, step))
  {
    if step.Act? {
      ActFrame(Scene(s.vms[step.vm], s.fs), step.action);
    }
  }

  lemma {:induction false} PathKeepsBusy(states: seq<Sys>, steps: seq<Step>, i: nat)
    requires IsPath(states, steps) && BusyAreHeld(states[0]) && i < |states|
    ensures BusyAreHeld(states[i])
  {
    if i > 0 {
      PathKeepsBusy(states, steps, i - 1);
      StepKeepsBusy(states[i - 1], steps[i - 1]);
    }
  }

  ghost predicate From(s0: Sys, s: Sys) {
    BusyAreHeld(s0) && Leads(s0, s)
  }

  lemma FromIsBusy(s0: Sys, s: Sys)
    requires From(s0, s)
    ensures BusyAreHeld(s)
  {
    var states, steps :| Along(states, steps, s0, s);
    PathKeepsBusy(states, steps, |steps|);
  }

  lemma FromOn(s0: Sys, s: Sys, step: Step)
    requires From(s0, s) && CanStep(s, step) && PoliteStep(s, step)
    ensures From(s0, DoStep(s, step))
  {
    LeadsOn(s0, s, step);
  }

  /** The VM alone moved, and is still free to. */
  predicate Alone(s: Sys, s': Sys, vm: VmId) {
    && vm in s.vms && vm in s'.vms && s'.vms == s.vms[vm := s'.vms[vm]] && s'.sessions == s.sessions
    && s'.vms[vm].session == s.vms[vm].session
  }

  /** A step of one VM's own code that takes no path. */
  lemma FromByAct(s0: Sys, s: Sys, vm: VmId, a: Action) returns (s': Sys)
    requires From(s0, s) && vm in s.vms && Can(Scene(s.vms[vm], s.fs), a) && TakenPath(s.vms[vm], a) == {}
    ensures From(s0, s') && Alone(s, s', vm)
    ensures s'.vms[vm] == Do(Scene(s.vms[vm], s.fs), a).local && s'.fs == Do(Scene(s.vms[vm], s.fs), a).fs
  {
    FromIsBusy(s0, s);
    ActFrame(Scene(s.vms[vm], s.fs), a);
    s' := DoStep(s, Act(vm, a));
    FromOn(s0, s, Act(vm, a));
  }

  /** The other VMs have the records they had. */
  predicate SameRecords(s: Sys, s': Sys, vm: VmId) {
    forall v :: v in s.vms && v != vm ==> v in s'.vms && s'.vms[v].record == s.vms[v].record
  }

  lemma SameRecordsAddsUp(s: Sys, mid: Sys, s': Sys, vm: VmId)
    requires SameRecords(s, mid, vm) && SameRecords(mid, s', vm)
    ensures SameRecords(s, s', vm)
  {
  }

  /** The VM is where it was, while others moved and recorded nothing. */
  predicate Waits(s: Sys, s': Sys, vm: VmId) {
    && s'.fs == s.fs && vm in s.vms && vm in s'.vms && s'.vms[vm] == s.vms[vm]
    && SameRecords(s, s', vm)
  }

  function AtWindow(s: Sys, path: Path): set<VmId> {
    set v | v in s.vms && (path in CreateWindow(s.vms[v]) || path in CheckWindow(s.vms[v]))
  }

  /** How a VM leaves a window without touching the file. */
  function Leave(l: Local): Action {
    if l.activity.Launching? then InLaunch(FailLaunch)
    else if Checking(l) then InVisit(UnlinkDisk(false))
    else InLife(SweepFile(false))
  }

  lemma LeavesWindow(l: Local, fs: Files, path: Path)
    requires path in CreateWindow(l) || path in CheckWindow(l)
    ensures var a := Leave(l);
            && Can(Scene(l, fs), a) && TakenPath(l, a) == {}
            && var s := Do(Scene(l, fs), a);
               s.fs == fs && s.local.record == l.record && CreateWindow(s.local) == {} && CheckWindow(s.local) == {}
  {
  }

  lemma OneLeaves(s0: Sys, s: Sys, v: VmId, vm: VmId, path: Path) returns (s': Sys)
    requires From(s0, s) && vm in s.vms && v in AtWindow(s, path) && v != vm
    ensures From(s0, s') && Waits(s, s', vm) && AtWindow(s', path) == AtWindow(s, path) - {v}
  {
    LeavesWindow(s.vms[v], s.fs, path);
    s' := FromByAct(s0, s, v, Leave(s.vms[v]));
  }

  lemma WaitsAddsUp(s: Sys, mid: Sys, s': Sys, vm: VmId)
    requires Waits(s, mid, vm) && Waits(mid, s', vm)
    ensures Waits(s, s', vm)
  {
  }

  /** The others get out of the way. */
  lemma {:induction false} WindowsClear(s0: Sys, s: Sys, vm: VmId, path: Path) returns (s': Sys)
    requires From(s0, s) && vm in s.vms && vm !in AtWindow(s, path)
    ensures From(s0, s') && Waits(s, s', vm) && AtWindow(s', path) == {}
    decreases AtWindow(s, path)
  {
    if AtWindow(s, path) == {} {
      s' := s;
    } else {
      var v :| v in AtWindow(s, path);
      var next := OneLeaves(s0, s, v, vm, path);
      s' := WindowsClear(s0, next, vm, path);
      WaitsAddsUp(s, next, s', vm);
    }
  }

  /** The code of the VM is about to look at the path, and deletes the file if it is there. */
  predicate Poised(l: Local, path: Path, id: FileIdentity) {
    || (&& l.activity.Sweeping? && !l.activity.checked && l.activity.guarded != []
        && l.activity.guarded[0] == GuardedFile(path, id))
    || (&& Visiting(l) && DiskBase(l.record.value) <= l.activity.pass.next
        && var d := l.record.value.disks[l.activity.pass.next - DiskBase(l.record.value)];
           d.path == path && d.state != Planned && StillDeletable(d, id))
  }

  function Look(l: Local): Action {
    if l.activity.Sweeping? then InLife(CheckFile(true)) else InVisit(HookDisk(DiskEnv(Done, true)))
  }

  function Strike(l: Local): Action {
    if l.activity.Sweeping? then InLife(SweepFile(true)) else InVisit(UnlinkDisk(true))
  }

  /** Finding the file where it looks, the VM deletes it. */
  lemma LooksAndStrikes(l: Local, fs: Files, path: Path, id: FileIdentity)
    requires Poised(l, path, id) && path in fs.at && fs.at[path] == id
    ensures Can(Scene(l, fs), Look(l)) && TakenPath(l, Look(l)) == {}
    ensures var mid := Do(Scene(l, fs), Look(l));
            && mid.fs == fs && Can(mid, Strike(l)) && TakenPath(mid.local, Strike(l)) == {}
            && id in Do(mid, Strike(l)).fs.deleted
  {
  }

  /** Wherever the file is, it may be moved back to where the VM is about to look. */
  lemma PoisedDeletes(s0: Sys, s: Sys, vm: VmId, path: Path, id: FileIdentity) returns (s': Sys)
    requires From(s0, s) && vm in s.vms && Poised(s.vms[vm], path, id)
    ensures From(s0, s') && id in s'.fs.deleted && SameRecords(s, s', vm)
  {
    var l := s.vms[vm];
    var cleared := WindowsClear(s0, s, vm, path);
    assert forall v :: v in cleared.vms ==> v !in AtWindow(cleared, path);
    FromOn(s0, cleared, Outsider(path, Some(id)));
    var there := DoStep(cleared, Outsider(path, Some(id)));
    LooksAndStrikes(l, there.fs, path, id);
    var mid := FromByAct(s0, there, vm, Look(l));
    s' := FromByAct(s0, mid, vm, Strike(l));
  }

  // Claims of a guard -------------------------------------------------------

  lemma {:induction false} SweepDeletes(s0: Sys, s: Sys, vm: VmId, k: nat) returns (s': Sys)
    requires From(s0, s) && vm in s.vms
    requires s.vms[vm].activity.Sweeping? && !s.vms[vm].activity.checked && k < |s.vms[vm].activity.guarded|
    ensures From(s0, s') && s.vms[vm].activity.guarded[k].identity in s'.fs.deleted && SameRecords(s, s', vm)
    decreases k
  {
    if k == 0 {
      var g := s.vms[vm].activity.guarded[0];
      s' := PoisedDeletes(s0, s, vm, g.path, g.identity);
    } else {
      var next := FromByAct(s0, s, vm, InLife(CheckFile(false)));
      s' := SweepDeletes(s0, next, vm, k - 1);
    }
  }

  /** A sweep that has just compared a file deletes it, or goes on to the next. */
  lemma CheckedSweepDeletes(s0: Sys, s: Sys, vm: VmId, k: nat) returns (s': Sys)
    requires From(s0, s) && vm in s.vms && WindowInv(s.vms[vm], s.fs)
    requires s.vms[vm].activity.Sweeping? && s.vms[vm].activity.checked && k < |s.vms[vm].activity.guarded|
    ensures From(s0, s') && s.vms[vm].activity.guarded[k].identity in s'.fs.deleted && SameRecords(s, s', vm)
  {
    s' := FromByAct(s0, s, vm, InLife(SweepFile(k == 0)));
    if k == 0 {
      assert s.vms[vm].activity.guarded[0].path in CheckWindow(s.vms[vm]);
    } else {
      s' := SweepDeletes(s0, s', vm, k - 1);
    }
  }

  /** The pass of a rollback may fail at any point; then the guard sweeps its files. */
  lemma GuardDeletes(s0: Sys, s: Sys, vm: VmId, id: FileIdentity) returns (s': Sys)
    requires From(s0, s) && vm in s.vms && ClaimedByGuard(s.vms[vm], id) && WindowInv(s.vms[vm], s.fs)
    ensures From(s0, s') && id in s'.fs.deleted && SameRecords(s, s', vm)
  {
    var activity := s.vms[vm].activity;
    var k :| 0 <= k < |Guarded(activity)| && Guarded(activity)[k].identity == id;
    if activity.Sweeping? && activity.checked {
      s' := CheckedSweepDeletes(s0, s, vm, k);
    } else {
      var next := s;
      if activity.Launching? {
        next := FromByAct(s0, next, vm, InLaunch(FailLaunch));
      }
      if !activity.Sweeping? {
        next := FromByAct(s0, next, vm, InSettle(AbortPass));
      }
      s' := SweepDeletes(s0, next, vm, k);
    }
  }

  // Claims of a record ------------------------------------------------------

  /** The record after one resource was dealt with: the others are as they were. */
  predicate SameExcept(r: VmRecord, r': VmRecord, k: nat) {
    && DiskBase(r') == DiskBase(r) && |r'.disks| == |r.disks|
    && forall j :: 0 <= j < |r.disks| && DiskBase(r) + j != k ==> r'.disks[j] == r.disks[j]
  }

  /** What a pass that can read no identity does about the next resource. */
  function PassBy(l: Local): VisitAction
    requires Visiting(l)
  {
    var k := l.activity.pass.next;
    if StateAt(l.record.value, k) == Removed then SkipRemoved
    else if k == 0 then HookCompute(Done, true)
    else if k < DiskBase(l.record.value) then HookNetwork(Done, true)
    else HookDisk(DiskEnv(Done, false))
  }

  lemma PassesBy(l: Local, fs: Files)
    requires Visiting(l)
    ensures CanVisit(Scene(l, fs), PassBy(l))
    ensures var k, l' := l.activity.pass.next, DoVisit(Scene(l, fs), PassBy(l)).local;
            && l'.record == l.record
            && if PassBy(l) == SkipRemoved then Walking(l') && l'.activity.pass.next == k + 1
               else CanVisit(Scene(l', fs), NoteOutcome) && l'.activity.pass.next == k
    ensures DoVisit(Scene(l, fs), PassBy(l)).fs == fs
  {
  }

  lemma NotesOutcome(s: Scene)
    requires CanVisit(s, NoteOutcome)
    ensures var k, l' := s.local.activity.pass.next, DoVisit(s, NoteOutcome).local;
            && Walking(l') && l'.activity.pass.next == k + 1 && SameExcept(s.local.record.value, l'.record.value, k)
  {
  }

  lemma OnePassed(s0: Sys, s: Sys, vm: VmId) returns (s': Sys)
    requires From(s0, s) && vm in s.vms && Visiting(s.vms[vm])
    ensures From(s0, s') && SameRecords(s, s', vm) && vm in s'.vms && Walking(s'.vms[vm])
    ensures s'.vms[vm].activity.pass.next == s.vms[vm].activity.pass.next + 1
    ensures SameExcept(s.vms[vm].record.value, s'.vms[vm].record.value, s.vms[vm].activity.pass.next)
  {
    var a := PassBy(s.vms[vm]);
    PassesBy(s.vms[vm], s.fs);
    s' := FromByAct(s0, s, vm, InVisit(a));
    if a != SkipRemoved {
      NotesOutcome(Scene(s'.vms[vm], s'.fs));
      s' := FromByAct(s0, s', vm, InVisit(NoteOutcome));
    }
  }

  /** The pass walks up to disk i, leaving it as it is, and deletes it. */
  lemma {:induction false} WalkDeletes(s0: Sys, s: Sys, vm: VmId, i: nat, id: FileIdentity) returns (s': Sys)
    requires From(s0, s) && vm in s.vms && Walking(s.vms[vm]) && i < |s.vms[vm].record.value.disks|
    requires s.vms[vm].activity.pass.next <= DiskBase(s.vms[vm].record.value) + i
    requires var d := s.vms[vm].record.value.disks[i]; d.state != Planned && StillDeletable(d, id)
    ensures From(s0, s') && id in s'.fs.deleted && SameRecords(s, s', vm)
    decreases DiskBase(s.vms[vm].record.value) + i - s.vms[vm].activity.pass.next
  {
    if s.vms[vm].activity.pass.next == DiskBase(s.vms[vm].record.value) + i {
      s' := PoisedDeletes(s0, s, vm, s.vms[vm].record.value.disks[i].path, id);
    } else {
      var next := OnePassed(s0, s, vm);
      s' := WalkDeletes(s0, next, vm, i, id);
      SameRecordsAddsUp(s, next, s', vm);
    }
  }

  /** A crash of its process, if it still runs, leaves the session to recovery. */
  lemma Stops(s0: Sys, s: Sys, vm: VmId) returns (s': Sys)
    requires From(s0, s) && vm in s.vms && VmInv(s, vm) && s.vms[vm].record.Some?
    ensures From(s0, s') && vm in s'.vms && s'.vms[vm] == Crashed(s.vms[vm]) && SameRecords(s, s', vm)
    ensures var sid := s.vms[vm].session; sid in s'.sessions && s'.sessions[sid].mode == Unlocked
  {
    var sid := s.vms[vm].session;
    if Held(s, sid) {
      FromOn(s0, s, Release(sid));
      s' := DoStep(s, Release(sid));
    } else {
      s' := s;
    }
  }

  lemma UnfinishedDisk(l: Local, i: nat)
    requires LocalInv(l) && l.record.Some? && i < |l.record.value.disks| && !Terminal(l.record.value.disks[i].state)
    ensures !IsComplete(l.record.value)
  {
    assert StateAt(l.record.value, DiskBase(l.record.value) + i) == l.record.value.disks[i].state;
  }

  /** A recovering process opens the session and starts a pass over the record. */
  lemma Resumes(s0: Sys, s: Sys, vm: VmId) returns (s': Sys)
    requires From(s0, s) && vm in s.vms && s.vms[vm].activity == Idle
    requires s.vms[vm].record.Some? && !IsComplete(s.vms[vm].record.value)
    requires s.vms[vm].session in s.sessions && s.sessions[s.vms[vm].session].mode == Unlocked
    ensures From(s0, s') && vm in s'.vms && SameRecords(s, s', vm)
    ensures Walking(s'.vms[vm]) && s'.vms[vm].activity.pass.next == 0
    ensures s'.vms[vm].record.value.disks == s.vms[vm].record.value.disks
  {
    FromOn(s0, s, OpenStale(s.vms[vm].session));
    var recovering := DoStep(s, OpenStale(s.vms[vm].session));
    FromOn(s0, recovering, StartPass(vm));
    var started := DoStep(recovering, StartPass(vm));
    s' := FromByAct(s0, started, vm, InVisit(OpenPass));
  }

  /** Whatever else goes on, the next recovery may delete a disk its record still claims. */
  lemma RecordDeletes(s0: Sys, s: Sys, vm: VmId, id: FileIdentity) returns (s': Sys)
    requires From(s0, s) && vm in s.vms && VmInv(s, vm) && ClaimedByRecord(s.vms[vm], id)
    ensures From(s0, s') && id in s'.fs.deleted && SameRecords(s, s', vm)
  {
    var disks := s.vms[vm].record.value.disks;
    var i :| 0 <= i < |disks| && StillDeletable(disks[i], id);
    UnfinishedDisk(s.vms[vm], i);
    var stopped := Stops(s0, s, vm);
    var resumed := Resumes(s0, stopped, vm);
    s' := WalkDeletes(s0, resumed, vm, i, id);
    SameRecordsAddsUp(s, stopped, resumed, vm);
    SameRecordsAddsUp(s, resumed, s', vm);
  }

  // Claims of a launch ------------------------------------------------------

  /** A launch that has just created a file identifies and guards it. */
  lemma MadeDeletes(s0: Sys, s: Sys, vm: VmId, id: FileIdentity) returns (s': Sys)
    requires From(s0, s) && vm in s.vms && LocalInv(s.vms[vm])
    requires exists p :: p in CreateWindow(s.vms[vm]) && p in s.fs.at && s.fs.at[p] == id
    ensures From(s0, s') && id in s'.fs.deleted && SameRecords(s, s', vm)
  {
    var next := FromByAct(s0, s, vm, InLaunch(SeeDisk));
    assert Guarded(next.vms[vm].activity)[|next.vms[vm].activity.guarded| - 1].identity == id;
    s' := GuardDeletes(s0, next, vm, id);
  }

  /** A launch that has identified its file records it. */
  lemma SeenDeletes(s0: Sys, s: Sys, vm: VmId, id: FileIdentity) returns (s': Sys)
    requires From(s0, s) && vm in s.vms && VmInv(s, vm) && s.vms[vm].activity.Launching?
    requires s.vms[vm].activity.step.DiskSeen? && s.vms[vm].activity.step.mine && s.vms[vm].activity.step.identity == id
    ensures From(s0, s') && id in s'.fs.deleted && SameRecords(s, s', vm)
  {
    var i := s.vms[vm].activity.step.index;
    ActionKeepsLocal(Scene(s.vms[vm], s.fs), InLaunch(NoteDisk));
    var next := FromByAct(s0, s, vm, InLaunch(NoteDisk));
    assert StillDeletable(next.vms[vm].record.value.disks[i], id);
    s' := RecordDeletes(s0, next, vm, id);
  }

  /** A claimed file may be deleted, and nobody else's record will tell. */
  lemma ClaimantDeletes(s0: Sys, s: Sys, vm: VmId, id: FileIdentity) returns (s': Sys)
    requires From(s0, s) && vm in s.vms && VmInv(s, vm) && WindowInv(s.vms[vm], s.fs) && Claims(s.vms[vm], s.fs, id)
    ensures From(s0, s') && id in s'.fs.deleted && SameRecords(s, s', vm)
  {
    if ClaimedByRecord(s.vms[vm], id) {
      s' := RecordDeletes(s0, s, vm, id);
    } else if ClaimedByGuard(s.vms[vm], id) {
      s' := GuardDeletes(s0, s, vm, id);
    } else if s.vms[vm].activity.step.DiskMade? {
      s' := MadeDeletes(s0, s, vm, id);
    } else {
      s' := SeenDeletes(s0, s, vm, id);
    }
  }

  // ---------------------------------------------------------------------
  // Which files survive
  // ---------------------------------------------------------------------

  lemma InitIsSound(s: Sys)
    requires Init(s)
    ensures Sound(s)
  {
    InitIsGood(s);
  }

  lemma GoodFacts(s: Sys, vm: VmId)
    requires Good(s) && vm in s.vms
    ensures BusyAreHeld(s) && VmInv(s, vm) && WindowInv(s.vms[vm], s.fs)
  {
    assert forall v :: v in s.vms ==> VmInv(s, v);
  }

  lemma ClaimedPerishes(s: Sys, id: FileIdentity)
    requires Good(s) && Claimed(s, id)
    ensures !Survives(s, id)
  {
    var vm :| vm in s.vms && Claims(s.vms[vm], s.fs, id);
    GoodFacts(s, vm);
    LeadsNowhere(s);
    var s' := ClaimantDeletes(s, s, vm, id);
  }

  /** At any moment of any polite run, a file that is there or was survives all that
      can follow if and only if it is not deleted yet and nobody claims it. */
  lemma SurvivesExactlyUnclaimed(states: seq<Sys>, steps: seq<Step>, i: nat, id: FileIdentity)
    requires IsRun(states, steps) && Polite(states, steps) && i < |states| && id in states[i].fs.known
    ensures Survives(states[i], id) <==> id !in states[i].fs.deleted && !Claimed(states[i], id)
  {
    InitIsSound(states[0]);
    PathIsSound(states, steps, i);
    if Claimed(states[i], id) {
      ClaimedPerishes(states[i], id);
    } else if id !in states[i].fs.deleted {
      UnclaimedSurvives(states[i], id);
    } else {
      LeadsNowhere(states[i]);
    }
  }

  lemma ProtectedIsUnclaimed(s: Sys, id: FileIdentity)
    requires Good(s) && Protected(s.fs, id)
    ensures !Claimed(s, id)
  {
    if Claimed(s, id) {
      var vm :| vm in s.vms && Claims(s.vms[vm], s.fs, id);
      ClaimsOnlyOwn(s, vm, id);
    }
  }

  /** What a record says of a file Jyth should not delete: it was there before the
      launch, or it was published as persistent. */
  predicate ReliesOn(d: Disk, id: FileIdentity) {
    d.identity == Some(id) && (d.origin == PreExisting || (d.published && d.effective == Persistent))
  }

  /** So a disk that a record calls pre-existing, or published as persistent, is safe
      exactly if the launch that made the file, if any did, has no claim left. */
  lemma ReliedOnSurvivesExactlyUnclaimed(states: seq<Sys>, steps: seq<Step>, i: nat, vm: VmId, k: nat, id: FileIdentity)
    requires IsRun(states, steps) && Polite(states, steps) && i < |states| && vm in states[i].vms
    requires states[i].vms[vm].record.Some? && k < |states[i].vms[vm].record.value.disks|
    requires ReliesOn(states[i].vms[vm].record.value.disks[k], id)
    ensures Survives(states[i], id) <==> id !in states[i].fs.deleted && !Claimed(states[i], id)
    ensures Protected(states[i].fs, id) ==> !Claimed(states[i], id)
    ensures forall v :: v in states[i].vms && Claims(states[i].vms[v], states[i].fs, id) ==>
              id in states[i].fs.made && states[i].fs.made[id].vm == v
  {
    InitIsSound(states[0]);
    PathIsSound(states, steps, i);
    assert KnowsIdentities(states[i].vms[vm], states[i].fs);
    SurvivesExactlyUnclaimed(states, steps, i, id);
    if Protected(states[i].fs, id) {
      ProtectedIsUnclaimed(states[i], id);
    }
    forall v | v in states[i].vms && Claims(states[i].vms[v], states[i].fs, id)
      ensures id in states[i].fs.made && states[i].fs.made[id].vm == v
    {
      ClaimsOnlyOwn(states[i], v, id);
    }
  }

  // ---------------------------------------------------------------------
  // A published disk that is lost
  // ---------------------------------------------------------------------

  /** The record of a published, persistent disk that the launch found at its path. */
  predicate FoundAndPublished(d: Disk, id: FileIdentity) {
    d.identity == Some(id) && d.published && d.requested == d.effective == Persistent && d.origin == PreExisting
  }

  /** A launch finds a file at its path and takes it as its persistent disk. */
  lemma Finds(s0: Sys, s: Sys, sid: SessionId, vm: VmId, path: Path) returns (s': Sys)
    requires From(s0, s) && sid in s.sessions && s.sessions[sid].mode == Live && vm !in s.vms && path in s.fs.at
    requires forall v :: v in s.vms ==> path !in LockedPath(s.vms[v])
    ensures From(s0, s') && vm in s'.vms && s'.vms - {vm} == s.vms && s'.fs == s.fs
    ensures var l := Launched(vm, sid, false, [DiskSpec(path, Persistent, ReuseAndKeep)]);
            s'.vms[vm] == AtStep(l, DiskSeen(0, s.fs.at[path], false))
  {
    var specs := [DiskSpec(path, Persistent, ReuseAndKeep)];
    FromOn(s0, s, Launch(vm, sid, false, specs));
    var launched := DoStep(s, Launch(vm, sid, false, specs));
    assert TakenPath(launched.vms[vm], InLaunch(SeeDisk)) == {path};
    FromOn(s0, launched, Act(vm, InLaunch(SeeDisk)));
    s' := DoStep(launched, Act(vm, InLaunch(SeeDisk)));
    assert s'.vms - {vm} == s.vms;
  }

  lemma NotesFound(s0: Sys, s: Sys, vm: VmId, id: FileIdentity) returns (s': Sys)
    requires From(s0, s) && vm in s.vms && AtDisk(s.vms[vm]) && s.vms[vm].activity.step == DiskSeen(0, id, false)
    requires |s.vms[vm].record.value.disks| == 1 && s.vms[vm].record.value.disks[0].requested == Persistent
    ensures From(s0, s') && Alone(s, s', vm) && s'.fs == s.fs && AtLaunch(s'.vms[vm], DiskDue(1))
    ensures var disks := s'.vms[vm].record.value.disks;
            |disks| == 1 && FoundAndPublished(PublishedDisk(disks[0]), id)
  {
    s' := FromByAct(s0, s, vm, InLaunch(NoteDisk));
    s' := FromByAct(s0, s', vm, InLaunch(NoteAce));
  }

  lemma Publishes(s0: Sys, s: Sys, vm: VmId) returns (s': Sys)
    requires From(s0, s) && vm in s.vms && s.vms[vm].record.Some?
    requires AtLaunch(s.vms[vm], DiskDue(|s.vms[vm].record.value.disks|))
    ensures From(s0, s') && Alone(s, s', vm) && s'.fs.at == s.fs.at && s'.vms[vm].record.Some?
    ensures var r, r' := s.vms[vm].record.value, s'.vms[vm].record.value; r'.disks == PublishedRecord(r).disks
  {
    s' := FromByAct(s0, s, vm, InLaunch(MakeCompute));
    s' := FromByAct(s0, s', vm, InLaunch(NoteCompute));
    s' := FromByAct(s0, s', vm, InLife(NotePublished));
  }

  lemma FindsAndPublishes(s0: Sys, s: Sys, sid: SessionId, vm: VmId, path: Path) returns (s': Sys)
    requires From(s0, s) && sid in s.sessions && s.sessions[sid].mode == Live && vm !in s.vms && path in s.fs.at
    requires forall v :: v in s.vms ==> path !in LockedPath(s.vms[v])
    ensures From(s0, s') && vm in s'.vms && s'.vms - {vm} == s.vms && s'.fs.at == s.fs.at
    ensures s'.vms[vm].record.Some? && |s'.vms[vm].record.value.disks| == 1
    ensures FoundAndPublished(s'.vms[vm].record.value.disks[0], s.fs.at[path])
  {
    var found := Finds(s0, s, sid, vm, path);
    var noted := NotesFound(s0, found, vm, s.fs.at[path]);
    s' := Publishes(s0, noted, vm);
    assert s'.vms - {vm} == found.vms - {vm};
  }

  /** A launch makes an ephemeral disk and journals it. */
  lemma MakesDisk(s0: Sys, sid: SessionId, vm: VmId, path: Path, id: FileIdentity) returns (s: Sys)
    requires Init(s0) && path !in s0.fs.at && id !in s0.fs.known
    ensures From(s0, s) && s.vms.Keys == {vm} && s.sessions == map[sid := SessionState(Live, false)]
    ensures s.vms[vm].session == sid && ClaimedByRecord(s.vms[vm], id) && path in s.fs.at && s.fs.at[path] == id
  {
    LeadsNowhere(s0);
    FromOn(s0, s0, OpenSession(sid));
    var made := AnotherCreates(s0, DoStep(s0, OpenSession(sid)), sid, vm, path, id);
    assert forall v :: v in made.vms && v != vm ==> v in made.vms - {vm};
    s := NotesMade(s0, made, vm, path);
  }

  lemma NotesMade(s0: Sys, s: Sys, vm: VmId, path: Path) returns (s': Sys)
    requires From(s0, s) && vm in s.vms && path in CreateWindow(s.vms[vm]) && path in s.fs.at && AtDisk(s.vms[vm])
    requires !s.vms[vm].record.value.disks[s.vms[vm].activity.step.index].published
    ensures From(s0, s') && Alone(s, s', vm) && s'.fs == s.fs && ClaimedByRecord(s'.vms[vm], s.fs.at[path])
  {
    var i := s.vms[vm].activity.step.index;
    s' := FromByAct(s0, s, vm, InLaunch(SeeDisk));
    s' := FromByAct(s0, s', vm, InLaunch(NoteDisk));
    assert StillDeletable(s'.vms[vm].record.value.disks[i], s.fs.at[path]);
  }

  /** The process that made the disk crashes, and a launch of another one reuses and publishes it. */
  lemma CrashedDiskIsPublished(s0: Sys, s: Sys, sid: SessionId, sid': SessionId, vm: VmId, path: Path) returns (s': Sys)
    requires From(s0, s) && s.sessions == map[sid := SessionState(Live, false)] && sid != sid' && vm !in s.vms
    requires path in s.fs.at && forall v :: v in s.vms ==> s.vms[v].session == sid
    ensures From(s0, s') && vm in s'.vms && s'.fs.at == s.fs.at
    ensures forall v :: v in s.vms ==> v in s'.vms && s'.vms[v] == Crashed(s.vms[v])
    ensures s'.vms[vm].record.Some? && |s'.vms[vm].record.value.disks| == 1
    ensures FoundAndPublished(s'.vms[vm].record.value.disks[0], s.fs.at[path])
  {
    FromOn(s0, s, Release(sid));
    var crashed := DoStep(s, Release(sid));
    FromOn(s0, crashed, OpenSession(sid'));
    var ready := DoStep(crashed, OpenSession(sid'));
    s' := FindsAndPublishes(s0, ready, sid', vm, path);
    forall v | v in s.vms
      ensures v in s'.vms && s'.vms[v] == Crashed(s.vms[v])
    {
      assert v in s'.vms - {vm} && (s'.vms - {vm})[v] == ready.vms[v];
    }
  }

  /** A run in which a published persistent disk is lost: a launch makes an ephemeral
      disk and its process crashes, another launch finds the file, reuses it as its
      persistent disk and publishes it, and recovery of the first deletes it. The
      record of the second still promises it. */
  lemma PublishedDiskIsLost(s0: Sys, sid: SessionId, sid': SessionId, maker: VmId, vm: VmId, path: Path,
                            id: FileIdentity)
    returns (published: Sys, lost: Sys)
    requires Init(s0) && sid != sid' && maker != vm && path !in s0.fs.at && id !in s0.fs.known
    ensures Leads(s0, published) && Leads(published, lost) && vm in published.vms && vm in lost.vms
    ensures path in published.fs.at && published.fs.at[path] == id && id in lost.fs.deleted
    ensures published.vms[vm].record.Some? && |published.vms[vm].record.value.disks| == 1
    ensures FoundAndPublished(published.vms[vm].record.value.disks[0], id)
    ensures lost.vms[vm].record == published.vms[vm].record
  {
    var made := MakesDisk(s0, sid, maker, path, id);
    published := CrashedDiskIsPublished(s0, made, sid, sid', vm, path);
    InitIsGood(s0);
    LeadsToGood(s0, published);
    GoodFacts(published, maker);
    LeadsNowhere(published);
    lost := ClaimantDeletes(published, published, maker, id);
  }
}
