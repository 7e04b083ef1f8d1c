/** Which files can ever be deleted. A launch knows its own file by its identity,
    but creates and unlinks by path; in between, others can put another file there.
    Deletion is safe in every run in which outsiders stay out of these windows, and
    a file put into one of them can be deleted. */
module Deletion {
  import opened Common
  import opened Journal
  import opened Protocol
  import opened Ownership
  import opened Sessions

  // ---------------------------------------------------------------------
  // Polite outsiders
  // ---------------------------------------------------------------------

  predicate InCreateWindow(s: Sys, path: Path) {
    exists vm :: vm in s.vms && path in CreateWindow(s.vms[vm])
  }

  predicate InCheckWindow(s: Sys, path: Path) {
    exists vm :: vm in s.vms && path in CheckWindow(s.vms[vm])
  }

  /** Outsiders may create, replace, move and delete any file, but they put none at
      a path inside a window and take none away between its comparison and its unlink. */
  predicate PoliteStep(s: Sys, step: Step) {
    step.Outsider? ==>
      && !InCheckWindow(s, step.path)
      && (step.file.Some? ==> !InCreateWindow(s, step.path))
  }

  predicate Polite(states: seq<Sys>, steps: seq<Step>)
    requires |states| == |steps| + 1
  {
    forall i :: 0 <= i < |steps| ==> PoliteStep(states[i], steps[i])
  }

  // ---------------------------------------------------------------------
  // The invariant of polite runs
  // ---------------------------------------------------------------------

  predicate AllFiles(s: Sys) {
    FilesInv(s.fs) && forall vm :: vm in s.vms ==> LocalFiles(s.vms[vm], s.fs)
  }

  predicate Good(s: Sys) {
    Inv(s) && AllFiles(s)
  }

  /** What an action for one VM does to the files, as seen by the others. */
  predicate Evolves(fs: Files, fs': Files, actor: VmId, created: set<Path>) {
    && fs.known <= fs'.known && fs.kept <= fs'.kept && fs.deleted <= fs'.deleted
    && (forall id :: id in fs.made ==> id in fs'.made && fs'.made[id] == fs.made[id])
    && (forall id :: id in fs'.made && id !in fs.made ==> id !in fs.known && fs'.made[id].vm == actor)
    && (forall id :: id in fs'.kept && id !in fs.kept ==> id in fs.made && fs.made[id].vm == actor)
    && (forall id :: id in fs'.deleted && id !in fs.deleted ==> id in fs.made && fs.made[id].vm == actor)
    && (forall p :: p in fs'.at && p !in created ==> p in fs.at && fs'.at[p] == fs.at[p])
    && (forall p :: p in fs.at && fs.at[p] in fs.made && fs.made[fs.at[p]].vm != actor ==>
          p in fs'.at && fs'.at[p] == fs.at[p])
  }

  lemma UnlinkEvolves(fs: Files, path: Path, actor: VmId)
    requires path in fs.at && fs.at[path] in fs.made && fs.made[fs.at[path]].vm == actor
    ensures Evolves(fs, Unlink(fs, path), actor, {})
  {
  }

  lemma VisitEvolves(s: Scene, a: VisitAction)
    requires SceneInv(s) && CanVisit(s, a)
    ensures Evolves(s.fs, DoVisit(s, a).fs, s.local.vm, {})
  {
    if a.UnlinkDisk? {
      UnlinkDeletesOnlyOwn(s, a.unlinks);
      UnlinkEvolves(s.fs, CheckedDisk(s.local).path, s.local.vm);
    } else {
      assert DoVisit(s, a).fs == s.fs;
    }
  }

  lemma LifeEvolves(s: Scene, a: LifeAction)
    requires SceneInv(s) && CanLife(s, a)
    ensures Evolves(s.fs, DoLife(s, a).fs, s.local.vm, {})
  {
    if a.SweepFile? {
      SweepDeletesOnlyOwn(s, a.unlinks);
      UnlinkEvolves(s.fs, s.local.activity.guarded[0].path, s.local.vm);
    }
  }

  lemma LaunchEvolves(s: Scene, a: LaunchAction)
    requires SceneInv(s) && CanLaunch(s, a)
    ensures Evolves(s.fs, DoLaunch(s, a).fs, s.local.vm, TakenPath(s.local, InLaunch(a)))
  {
    if !a.MakeDisk? {
      assert DoLaunch(s, a).fs == s.fs;
    }
  }

  lemma SettleEvolves(s: Scene, a: SettleAction)
    requires SceneInv(s) && CanSettle(s, a)
    ensures Evolves(s.fs, DoSettle(s, a).fs, s.local.vm, {})
  {
    assert DoSettle(s, a).fs == s.fs;
  }

  lemma ActEvolves(s: Scene, a: Action)
    requires SceneInv(s) && Can(s, a)
    ensures Evolves(s.fs, Do(s, a).fs, s.local.vm, TakenPath(s.local, a))
  {
    match a
    case InLaunch(x) => LaunchEvolves(s, x);
    case InVisit(x) => VisitEvolves(s, x);
    case InSettle(x) => SettleEvolves(s, x);
    case InLife(x) => LifeEvolves(s, x);
  }

  /** The windows of another VM are safe from an action that does not take their path. */
  lemma EvolvesForOthers(l: Local, fs: Files, fs': Files, actor: VmId, created: set<Path>)
    requires LocalInv(l) && LocalFiles(l, fs) && FilesInv(fs') && l.vm != actor
    requires Evolves(fs, fs', actor, created) && created !! LockedPath(l)
    ensures OthersMay(l.vm, CreateWindow(l), CheckWindow(l), fs, fs')
  {
    assert CreateWindow(l) <= LockedPath(l);
    forall p | p in CheckWindow(l)
      ensures p in fs'.at && fs'.at[p] == fs.at[p]
    {
      ComparedIsOwn(l, fs, p);
    }
  }

  lemma ActKeepsFiles(s: Sys, vm: VmId, a: Action)
    requires Good(s) && CanStep(s, Act(vm, a))
    ensures AllFiles(DoStep(s, Act(vm, a)))
  {
    var scene := Scene(s.vms[vm], s.fs);
    assert VmInv(s, vm);
    ActionKeepsScene(scene, a);
    ActEvolves(scene, a);
    var s' := DoStep(s, Act(vm, a));
    forall other | other in s.vms && other != vm
      ensures LocalFiles(s.vms[other], s'.fs)
    {
      assert VmInv(s, other);
      EvolvesForOthers(s.vms[other], s.fs, s'.fs, vm, TakenPath(s.vms[vm], a));
      OthersKeepFiles(s.vms[other], s.fs, s'.fs);
    }
  }

  lemma LaunchedFiles(vm: VmId, sid: SessionId, withNetwork: bool, specs: seq<DiskSpec>, fs: Files)
    requires FilesInv(fs) && forall id :: id in fs.made ==> fs.made[id].vm != vm
    ensures LocalFiles(Launched(vm, sid, withNetwork, specs), fs)
  {
  }

  /** Stopping, finishing or resuming a VM leaves it outside its windows. */
  lemma RestingKeepsFiles(l: Local, l': Local, fs: Files)
    requires LocalFiles(l, fs) && l'.vm == l.vm && (l'.record == l.record || l'.record.None?)
    requires l'.activity == Idle || (l.activity == Idle && l'.activity == Cleaning(Begin, ByRecovery))
    ensures LocalFiles(l', fs)
  {
  }

  lemma OutsiderIsOther(vm: VmId, create: set<Path>, check: set<Path>, fs: Files, path: Path,
                        file: Option<FileIdentity>)
    requires FilesInv(fs) && path !in check && (file.Some? ==> path !in create)
    ensures OthersMay(vm, create, check, fs, Moved(fs, path, file))
  {
  }

  lemma OutsiderKeepsFiles(s: Sys, path: Path, file: Option<FileIdentity>)
    requires Good(s) && PoliteStep(s, Outsider(path, file))
    ensures AllFiles(DoStep(s, Outsider(path, file)))
  {
    var fs' := Moved(s.fs, path, file);
    forall vm | vm in s.vms
      ensures LocalFiles(s.vms[vm], fs')
    {
      assert VmInv(s, vm);
      OutsiderIsOther(vm, CreateWindow(s.vms[vm]), CheckWindow(s.vms[vm]), s.fs, path, file);
      OthersKeepFiles(s.vms[vm], s.fs, fs');
    }
    OutsiderIsOther("", {}, {}, s.fs, path, file);
  }

  lemma RestStepKeepsFiles(s: Sys, step: Step)
    requires Good(s) && CanStep(s, step) && !step.Act? && !step.Outsider? && !step.Launch?
    ensures AllFiles(DoStep(s, step))
  {
    var s' := DoStep(s, step);
    forall vm | vm in s'.vms
      ensures LocalFiles(s'.vms[vm], s'.fs)
    {
      if s'.vms[vm] != s.vms[vm] {
        RestingKeepsFiles(s.vms[vm], s'.vms[vm], s.fs);
      }
    }
  }

  /** Every step of the system, as long as outsiders are polite, keeps the file facts. */
  lemma StepKeepsFiles(s: Sys, step: Step)
    requires Good(s) && CanStep(s, step) && PoliteStep(s, step)
    ensures Good(DoStep(s, step))
  {
    StepKeepsInv(s, step);
    match step
    case Act(vm, a) => ActKeepsFiles(s, vm, a);
    case Outsider(path, file) => OutsiderKeepsFiles(s, path, file);
    case Launch(vm, sid, withNetwork, specs) => LaunchedFiles(vm, sid, withNetwork, specs, s.fs);
    case _ => RestStepKeepsFiles(s, step);
  }

  lemma InitIsGood(s: Sys)
    requires Init(s)
    ensures Good(s)
  {
  }

  lemma {:induction false} PathIsGood(states: seq<Sys>, steps: seq<Step>, i: nat)
    requires IsPath(states, steps) && Polite(states, steps) && Good(states[0]) && i < |states|
    ensures Good(states[i])
  {
    if i > 0 {
      PathIsGood(states, steps, i - 1);
      assert PoliteStep(states[i - 1], steps[i - 1]);
      StepKeepsFiles(states[i - 1], steps[i - 1]);
    }
  }

  // ---------------------------------------------------------------------
  // Deleted files
  // ---------------------------------------------------------------------

  predicate CapturedByRecord(l: Local, id: FileIdentity) {
    Checking(l) && CheckedDisk(l).identity == Some(id) && Deletable(CheckedDisk(l))
  }

  predicate CapturedByGuard(l: Local, id: FileIdentity) {
    l.activity.Sweeping? && l.activity.guarded != [] && l.activity.guarded[0].identity == id
  }

  lemma ActionDeletesCaptured(s: Scene, a: Action, id: FileIdentity)
    requires SceneInv(s) && Can(s, a) && id in Do(s, a).fs.deleted && id !in s.fs.deleted
    ensures id in s.fs.made && s.fs.made[id].vm == s.local.vm && id !in s.fs.kept
    ensures CapturedByRecord(s.local, id) || CapturedByGuard(s.local, id)
  {
    if a.InVisit? && a.visit.UnlinkDisk? {
      UnlinkDeletesOnlyOwn(s, a.visit.unlinks);
    } else if a.InLife? && a.life.SweepFile? {
      SweepDeletesOnlyOwn(s, a.life.unlinks);
    }
  }

  /** In every polite run, a step that deletes a file acts for the launch that made
      it, on an identity that launch captured: recorded with the disk being removed,
      or held by its provisioning guard. */
  lemma DeletedFileWasCaptured(states: seq<Sys>, steps: seq<Step>, k: nat, id: FileIdentity)
    requires IsRun(states, steps) && Polite(states, steps) && k < |steps|
    requires id in states[k + 1].fs.deleted && id !in states[k].fs.deleted
    ensures var s, step := states[k], steps[k];
            && step.Act? && step.vm in s.vms
            && id in s.fs.made && s.fs.made[id].vm == step.vm && id !in s.fs.kept
            && (CapturedByRecord(s.vms[step.vm], id) || CapturedByGuard(s.vms[step.vm], id))
  {
    InitIsGood(states[0]);
    PathIsGood(states, steps, k);
    StepDeletesCaptured(states[k], steps[k], id);
  }

  lemma StepDeletesCaptured(s: Sys, step: Step, id: FileIdentity)
    requires Good(s) && CanStep(s, step) && id in DoStep(s, step).fs.deleted && id !in s.fs.deleted
    ensures step.Act? && step.vm in s.vms
    ensures id in s.fs.made && s.fs.made[id].vm == step.vm && id !in s.fs.kept
    ensures CapturedByRecord(s.vms[step.vm], id) || CapturedByGuard(s.vms[step.vm], id)
  {
    assert step.Act?;
    assert VmInv(s, step.vm);
    ActionDeletesCaptured(Scene(s.vms[step.vm], s.fs), step.action, id);
  }

  // ---------------------------------------------------------------------
  // Protected files
  // ---------------------------------------------------------------------

  /** Files no run deletes: those Jyth did not create, and persistent disks published by
      the launch that made them. A file published by a launch that reused it is not
      protected by that. */
  predicate Protected(fs: Files, id: FileIdentity) {
    (id in fs.known && id !in fs.made) || id in fs.kept
  }

  lemma ProtectedIsNotDeleted(fs: Files, id: FileIdentity)
    requires FilesInv(fs) && Protected(fs, id)
    ensures id !in fs.deleted
  {
  }

  lemma StepProtects(s: Sys, step: Step, id: FileIdentity)
    requires Good(s) && CanStep(s, step) && Protected(s.fs, id)
    ensures Protected(DoStep(s, step).fs, id)
  {
    if step.Act? {
      assert VmInv(s, step.vm);
      ActEvolves(Scene(s.vms[step.vm], s.fs), step.action);
    }
  }

  predicate Carries(s: Sys, s': Sys, id: FileIdentity) {
    Protected(s.fs, id) ==> Protected(s'.fs, id)
  }

  lemma PathCarries(states: seq<Sys>, steps: seq<Step>, k: nat, id: FileIdentity)
    requires IsPath(states, steps) && Polite(states, steps) && Good(states[0]) && k < |steps|
    ensures Carries(states[k], states[k + 1], id)
  {
    PathIsGood(states, steps, k);
    if Protected(states[k].fs, id) {
      StepProtects(states[k], steps[k], id);
    }
  }

  lemma {:induction false} CarryingAddsUp(states: seq<Sys>, i: nat, j: nat, id: FileIdentity)
    requires i <= j < |states| && forall k: nat :: i <= k < j ==> Carries(states[k], states[k + 1], id)
    ensures Carries(states[i], states[j], id)
    decreases j
  {
    if i < j {
      CarryingAddsUp(states, i, j - 1, id);
      assert Carries(states[j - 1], states[j - 1 + 1], id);
    }
  }

  lemma PathProtects(states: seq<Sys>, steps: seq<Step>, i: nat, j: nat, id: FileIdentity)
    requires IsPath(states, steps) && Polite(states, steps) && Good(states[0])
    requires i <= j < |states| && Protected(states[i].fs, id)
    ensures Protected(states[j].fs, id)
  {
    forall k: nat | i <= k < j
      ensures Carries(states[k], states[k + 1], id)
    {
      PathCarries(states, steps, k, id);
    }
    CarryingAddsUp(states, i, j, id);
  }

  /** Over whole polite runs: a file that was there and that Jyth did not create is
      never deleted, and neither is a persistent disk once its maker published it. */
  lemma ForeignAndKeptFilesSurvive(states: seq<Sys>, steps: seq<Step>, i: nat, j: nat, id: FileIdentity)
    requires IsRun(states, steps) && Polite(states, steps) && i <= j < |states| && Protected(states[i].fs, id)
    ensures Protected(states[j].fs, id) && id !in states[j].fs.deleted
  {
    InitIsGood(states[0]);
    PathProtects(states, steps, i, j, id);
    PathIsGood(states, steps, j);
    ProtectedIsNotDeleted(states[j].fs, id);
  }

  // ---------------------------------------------------------------------
  // Why the windows must be respected
  // ---------------------------------------------------------------------

  ghost predicate Along(states: seq<Sys>, steps: seq<Step>, s: Sys, s': Sys) {
    IsPath(states, steps) && Polite(states, steps) && states[0] == s && states[|steps|] == s'
  }

  /** A state is reached by steps in which outsiders are polite. */
  ghost predicate Leads(s: Sys, s': Sys) {
    exists states, steps :: Along(states, steps, s, s')
  }

  lemma LeadsNowhere(s: Sys)
    ensures Leads(s, s)
  {
    assert Along([s], [], s, s);
  }

  lemma LeadsOn(s: Sys, mid: Sys, step: Step)
    requires Leads(s, mid) && CanStep(mid, step) && PoliteStep(mid, step)
    ensures Leads(s, DoStep(mid, step))
  {
    var states, steps :| Along(states, steps, s, mid);
    AlongOn(states, steps, s, mid, step);
  }

  lemma AlongOn(states: seq<Sys>, steps: seq<Step>, s: Sys, mid: Sys, step: Step)
    requires Along(states, steps, s, mid) && CanStep(mid, step) && PoliteStep(mid, step)
    ensures Along(states + [DoStep(mid, step)], steps + [step], s, DoStep(mid, step))
  {
  }

  lemma LeadsToGood(s: Sys, s': Sys)
    requires Good(s) && Leads(s, s')
    ensures Good(s')
  {
    var states, steps :| Along(states, steps, s, s');
    PathIsGood(states, steps, |steps|);
  }

  /** Whatever polite steps follow, the file is not deleted. */
  ghost predicate Survives(s: Sys, id: FileIdentity) {
    forall s' :: Leads(s, s') ==> id !in s'.fs.deleted
  }

  lemma ProtectedSurvives(s: Sys, id: FileIdentity)
    requires Good(s) && Protected(s.fs, id)
    ensures Survives(s, id)
  {
    forall s' | Leads(s, s')
      ensures id !in s'.fs.deleted
    {
      var states, steps :| Along(states, steps, s, s');
      PathProtects(states, steps, 0, |steps|, id);
      PathIsGood(states, steps, |steps|);
      ProtectedIsNotDeleted(s'.fs, id);
    }
  }

  /** A step of one VM's own code that takes no path. */
  lemma LeadsByAct(s: Sys, mid: Sys, vm: VmId, a: Action)
    requires Leads(s, mid) && vm in mid.vms && Held(mid, mid.vms[vm].session)
    requires Can(Scene(mid.vms[vm], mid.fs), a) && TakenPath(mid.vms[vm], a) == {}
    ensures CanStep(mid, Act(vm, a)) && Leads(s, DoStep(mid, Act(vm, a)))
  {
    LeadsOn(s, mid, Act(vm, a));
  }

  /** Passing over the guarded files before it, the sweep gets to the last one and unlinks it. */
  lemma {:induction false} SweepGetsThere(s: Sys, mid: Sys, vm: VmId, path: Path, id: FileIdentity)
    requires Leads(s, mid) && vm in mid.vms && Held(mid, mid.vms[vm].session)
    requires mid.vms[vm].activity.Sweeping? && !mid.vms[vm].activity.checked && mid.vms[vm].activity.guarded != []
    requires var guarded := mid.vms[vm].activity.guarded; guarded[|guarded| - 1] == GuardedFile(path, id)
    requires path in mid.fs.at && mid.fs.at[path] == id
    ensures exists s' :: Leads(s, s') && InCheckWindow(s', path)
    ensures exists s' :: Leads(s, s') && id in s'.fs.deleted
    decreases |mid.vms[vm].activity.guarded|
  {
    var last := |mid.vms[vm].activity.guarded| == 1;
    LeadsByAct(s, mid, vm, InLife(CheckFile(last)));
    var next := DoStep(mid, Act(vm, InLife(CheckFile(last))));
    if last {
      assert path in CheckWindow(next.vms[vm]);
      LeadsByAct(s, next, vm, InLife(SweepFile(true)));
    } else {
      SweepGetsThere(s, next, vm, path, id);
    }
  }

  /** Whatever is where a launch has created its file is taken for that file, and
      guarded; a rollback whose pass fails sweeps it. */
  lemma RollBack(s0: Sys, s: Sys, vm: VmId, path: Path) returns (sweeping: Sys)
    requires Leads(s0, s) && vm in s.vms && Held(s, s.vms[vm].session) && LocalInv(s.vms[vm])
    requires path in CreateWindow(s.vms[vm]) && path in s.fs.at
    ensures Leads(s0, sweeping) && sweeping.fs == s.fs && vm in sweeping.vms && Held(sweeping, sweeping.vms[vm].session)
    ensures sweeping.vms[vm].activity
            == Sweeping(s.vms[vm].activity.guarded + [GuardedFile(path, s.fs.at[path])], false)
  {
    LeadsByAct(s0, s, vm, InLaunch(SeeDisk));
    var seen := DoStep(s, Act(vm, InLaunch(SeeDisk)));
    LeadsByAct(s0, seen, vm, InLaunch(FailLaunch));
    var failing := DoStep(seen, Act(vm, InLaunch(FailLaunch)));
    LeadsByAct(s0, failing, vm, InSettle(AbortPass));
    sweeping := DoStep(failing, Act(vm, InSettle(AbortPass)));
  }

  /** A file put where a launch has created its own but not identified it is
      deleted by the rollback. */
  lemma PutWhereCreatedIsDeleted(s: Sys, vm: VmId, path: Path)
    requires Inv(s) && vm in s.vms && path in CreateWindow(s.vms[vm]) && path in s.fs.at
    ensures exists s' :: Leads(s, s') && s.fs.at[path] in s'.fs.deleted
  {
    assert VmInv(s, vm);
    LeadsNowhere(s);
    var sweeping := RollBack(s, s, vm, path);
    SweepGetsThere(s, sweeping, vm, path, s.fs.at[path]);
  }

  /** Whatever is where a file has just been compared is unlinked. */
  lemma UnlinkGetsThere(s: Sys, mid: Sys, vm: VmId, path: Path)
    requires Leads(s, mid) && vm in mid.vms && Held(mid, mid.vms[vm].session)
    requires path in CheckWindow(mid.vms[vm]) && path in mid.fs.at
    ensures exists s' :: Leads(s, s') && mid.fs.at[path] in s'.fs.deleted && s'.fs.made == mid.fs.made
  {
    if Checking(mid.vms[vm]) {
      LeadsByAct(s, mid, vm, InVisit(UnlinkDisk(true)));
    } else {
      LeadsByAct(s, mid, vm, InLife(SweepFile(true)));
    }
  }

  lemma PutWhereComparedIsDeleted(s: Sys, vm: VmId, path: Path)
    requires Inv(s) && vm in s.vms && path in CheckWindow(s.vms[vm]) && path in s.fs.at
    ensures exists s' :: Leads(s, s') && s.fs.at[path] in s'.fs.deleted
  {
    assert VmInv(s, vm);
    LeadsNowhere(s);
    UnlinkGetsThere(s, s, vm, path);
  }

  lemma PutIsSafeExactly(s: Sys, path: Path, id: FileIdentity)
    requires Good(s) && Protected(Moved(s.fs, path, Some(id)), id)
    ensures Survives(DoStep(s, Outsider(path, Some(id))), id)
            <==> !InCreateWindow(s, path) && !InCheckWindow(s, path)
  {
    var s' := DoStep(s, Outsider(path, Some(id)));
    if !InCreateWindow(s, path) && !InCheckWindow(s, path) {
      StepKeepsFiles(s, Outsider(path, Some(id)));
      ProtectedSurvives(s', id);
    } else {
      OutsiderKeepsInv(s, path, Some(id));
      if InCreateWindow(s, path) {
        var vm :| vm in s.vms && path in CreateWindow(s.vms[vm]);
        PutWhereCreatedIsDeleted(s', vm, path);
      } else {
        var vm :| vm in s.vms && path in CheckWindow(s.vms[vm]);
        PutWhereComparedIsDeleted(s', vm, path);
      }
    }
  }

  /** Exactly when an outsider may put a file somewhere: at any moment of any polite
      run, a protected file survives all that can follow if and only
      if the path it is put at is in no window. */
  lemma SafeExactlyOutsideWindows(states: seq<Sys>, steps: seq<Step>, i: nat, path: Path, id: FileIdentity)
    requires IsRun(states, steps) && Polite(states, steps) && i < |states|
    requires Protected(Moved(states[i].fs, path, Some(id)), id)
    ensures Survives(DoStep(states[i], Outsider(path, Some(id))), id)
            <==> !InCreateWindow(states[i], path) && !InCheckWindow(states[i], path)
  {
    InitIsGood(states[0]);
    PathIsGood(states, steps, i);
    PutIsSafeExactly(states[i], path, id);
  }

  /** Taking the file away between its comparison and its unlink is no better: a
      launch of another session may create its own disk there, which then goes. */
  lemma TakenWhereComparedIsHarmful(s: Sys, vm: VmId, path: Path, sid: SessionId, other: VmId, id: FileIdentity)
    requires Good(s) && vm in s.vms && path in CheckWindow(s.vms[vm])
    requires sid !in s.sessions && other !in s.vms && id !in s.fs.known
    requires forall v :: v in s.vms ==> path !in LockedPath(s.vms[v])
    ensures exists s' :: Leads(DoStep(s, Outsider(path, None)), s')
                         && id in s'.fs.deleted && id in s'.fs.made && s'.fs.made[id].vm == other
  {
    var s0 := DoStep(s, Outsider(path, None));
    LeadsNowhere(s0);
    var s1 := DoStep(s0, OpenSession(sid));
    LeadsOn(s0, s0, OpenSession(sid));
    var made := AnotherCreates(s0, s1, sid, other, path, id);
    assert VmInv(s, vm);
    assert (made.vms - {other})[vm] == s.vms[vm];
    UnlinkGetsThere(s0, made, vm, path);
  }

  /** A launch in a live session creates its disk at a free path. */
  lemma AnotherCreates(s0: Sys, s: Sys, sid: SessionId, vm: VmId, path: Path, id: FileIdentity) returns (made: Sys)
    requires Leads(s0, s) && sid in s.sessions && s.sessions[sid].mode == Live && vm !in s.vms
    requires path !in s.fs.at && id !in s.fs.known && forall v :: v in s.vms ==> path !in LockedPath(s.vms[v])
    ensures Leads(s0, made) && made.sessions == s.sessions && vm in made.vms && made.vms[vm].session == sid
    ensures made.vms - {vm} == s.vms && path in CreateWindow(made.vms[vm]) && AtDisk(made.vms[vm])
    ensures made.vms[vm].record == Some(PlannedRecord(vm, false, [DiskSpec(path, Ephemeral, RejectExisting)]))
    ensures made.fs == s.fs.(at := s.fs.at[path := id], known := s.fs.known + {id},
                             made := s.fs.made[id := Maker(vm, 0)])
  {
    var specs := [DiskSpec(path, Ephemeral, RejectExisting)];
    var launched := DoStep(s, Launch(vm, sid, false, specs));
    LeadsOn(s0, s, Launch(vm, sid, false, specs));
    assert TakenPath(launched.vms[vm], InLaunch(MakeDisk(id))) == {path};
    made := DoStep(launched, Act(vm, InLaunch(MakeDisk(id))));
    LeadsOn(s0, launched, Act(vm, InLaunch(MakeDisk(id))));
    assert made.vms - {vm} == s.vms;
  }

  /** Both kinds of windows occur: every launch with a fresh disk passes through the
      first, and every rollback of one through the second. */
  lemma WindowsOccur(s0: Sys, sid: SessionId, vm: VmId, path: Path, id: FileIdentity)
    requires Init(s0) && path !in s0.fs.at && id !in s0.fs.known
    ensures exists s :: Leads(s0, s) && InCreateWindow(s, path)
    ensures exists s :: Leads(s0, s) && InCheckWindow(s, path)
  {
    LeadsNowhere(s0);
    LeadsOn(s0, s0, OpenSession(sid));
    var made := AnotherCreates(s0, DoStep(s0, OpenSession(sid)), sid, vm, path, id);
    InitIsGood(s0);
    LeadsToGood(s0, made);
    assert VmInv(made, vm);
    var sweeping := RollBack(s0, made, vm, path);
    SweepGetsThere(s0, sweeping, vm, path, id);
  }
}
