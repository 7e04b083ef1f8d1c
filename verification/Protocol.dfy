/** The journaled launch/cleanup protocol of one VM, one journal transaction or
    external effect at a time. A scene is the durable state of the VM (its
    record and inventory row), the outside world (compute system, network,
    files), and the volatile position of the code working on it. Losing the
    volatile part between any two actions is a crash. */
module Protocol {
  import opened Common
  import opened Journal

  datatype ExistingPolicy = ReuseAndKeep | RejectExisting

  datatype DiskSpec = DiskSpec(path: Path, retention: Retention, onExisting: ExistingPolicy)

  /** What a removal hook reports. `Done` and `WasAbsent` both mean the resource is gone. */
  datatype Outcome = Done | WasAbsent | Failed(cause: string)

  datatype Failure = Failure(kind: Kind, identity: string, cause: string)

  /** Position inside the launch, after the intent record has been written. */
  datatype LaunchStep =
    | NetworkDue
    | NetworkMade
    | DiskDue(index: nat)
    | DiskMade(index: nat)
    | DiskSeen(index: nat, identity: FileIdentity, mine: bool)
    | DiskNoted(index: nat)
    | ComputeMade

  /** Position inside one cleanup pass. At `Checked` the file of a disk has been
      compared with the recorded identity and is about to be unlinked by name. */
  datatype Pass =
    | Begin
    | Walk(next: nat, failures: seq<Failure>)
    | Checked(next: nat, failures: seq<Failure>)
    | Applied(next: nat, failures: seq<Failure>, outcome: Outcome)
    | Completed
    | RecordDropped
    | Inventoried(failures: seq<Failure>)

  datatype GuardedFile = GuardedFile(path: Path, identity: FileIdentity)

  /** What the caller of a cleanup pass does when the pass returns. */
  datatype Caller = ByGuard(guarded: seq<GuardedFile>) | ByClose | ByDrop | ByRecovery

  datatype Activity =
    | Idle
    | Launching(step: LaunchStep, guarded: seq<GuardedFile>, specs: seq<DiskSpec>)
    | Running
    | Cleaning(pass: Pass, caller: Caller)
    | Sweeping(guarded: seq<GuardedFile>, checked: bool)

  datatype Local = Local(
    vm: VmId,
    session: SessionId,
    record: Option<VmRecord>,
    row: Option<seq<Entry>>,
    compute: bool,
    network: bool,
    activity: Activity,
    errPasses: nat)

  /** The launch that created a file: its VM and the position of the disk in its record. */
  datatype Maker = Maker(vm: VmId, disk: nat)

  /** The host file system with the history deletion safety speaks about: which
      identities were ever seen, which file was created by which launch, which
      files Jyth deleted, and which the launch that made them published as persistent. */
  datatype Files = Files(
    at: map<Path, FileIdentity>,
    known: set<FileIdentity>,
    made: map<FileIdentity, Maker>,
    deleted: set<FileIdentity>,
    kept: set<FileIdentity>)

  datatype Scene = Scene(local: Local, fs: Files)

  /** What the outside world decides up to the comparison of a disk's identity. */
  datatype DiskEnv = DiskEnv(revoke: Outcome, readable: bool)

  /** Steps of the launch, from the journaled intent to the running VM. */
  datatype LaunchAction =
    | MakeNetwork
    | RollBackNetwork
    | NoteNetwork
    | MakeDisk(identity: FileIdentity)
    | SeeDisk
    | NoteDisk
    | NoteAce
    | MakeCompute
    | NoteCompute
    | FailLaunch

  /** Steps of a cleanup pass while it walks the resources. */
  datatype VisitAction =
    | OpenPass
    | SkipRemoved
    | HookCompute(outcome: Outcome, gone: bool)
    | HookNetwork(outcome: Outcome, gone: bool)
    | HookDisk(env: DiskEnv)
    | UnlinkDisk(unlinks: bool)
    | NoteOutcome

  /** Steps of a cleanup pass after the walk. `AbortPass` is a journal error at any point. */
  datatype SettleAction =
    | MarkComplete
    | RemoveRecord
    | RemoveRow
    | ReturnErr
    | PutInventory(now: nat)
    | MarkAbandoned
    | AbortPass

  /** Steps of the running VM and of the provisioning guard. */
  datatype LifeAction =
    | NoteStarted
    | NotePublished
    | BeginClose
    | BeginDrop
    | CheckFile(readable: bool)
    | SweepFile(unlinks: bool)
    | EndSweep

  datatype Action =
    | InLaunch(launch: LaunchAction)
    | InVisit(visit: VisitAction)
    | InSettle(settle: SettleAction)
    | InLife(life: LifeAction)

  // ---------------------------------------------------------------------
  // Records written by the launch
  // ---------------------------------------------------------------------

  function PlannedDisk(spec: DiskSpec): Disk {
    Disk(spec.path, Planned, CreatedByLaunch, spec.retention, spec.retention, None, false, false, false, false)
  }

  function PlannedRecord(vm: VmId, withNetwork: bool, specs: seq<DiskSpec>): VmRecord {
    VmRecord(vm, Planning, false, Planned, if withNetwork then Some(Planned) else None,
             seq(|specs|, i requires 0 <= i < |specs| => PlannedDisk(specs[i])), 0, None)
  }

  /** The scene right after the intent has been journaled and before any side effect. */
  function Launched(vm: VmId, session: SessionId, withNetwork: bool, specs: seq<DiskSpec>): Local {
    Local(vm, session, Some(PlannedRecord(vm, withNetwork, specs)), None, false, false,
          Launching(if withNetwork then NetworkDue else DiskDue(0), [], specs), 0)
  }

  /** A disk after creation or validation: only a file this launch made is owned and initialized. */
  function NotedDisk(d: Disk, identity: FileIdentity, mine: bool): Disk {
    d.(state := Created,
       origin := if mine then CreatedByLaunch else PreExisting,
       effective := if mine then d.requested else Persistent,
       initRequested := mine,
       identity := Some(identity))
  }

  function PublishedDisk(d: Disk): Disk {
    d.(published := true, initAcknowledged := d.initAcknowledged || d.initRequested)
  }

  function PublishedRecord(r: VmRecord): VmRecord {
    r.(phase := Published, published := true, lastError := None,
       disks := seq(|r.disks|, i requires 0 <= i < |r.disks| => PublishedDisk(r.disks[i])))
  }

  /** The identities publication keeps from this launch's own cleanup: persistent files it
      made. A file it reused is its maker's to keep or delete. */
  function Promised(r: VmRecord): set<FileIdentity> {
    set i | 0 <= i < |r.disks| && Keepable(r.disks[i]) :: r.disks[i].identity.value
  }

  predicate Keepable(d: Disk) {
    d.origin == CreatedByLaunch && d.effective == Persistent && d.identity.Some?
  }

  // ---------------------------------------------------------------------
  // Disk removal
  // ---------------------------------------------------------------------

  predicate Deletable(d: Disk) {
    d.origin == CreatedByLaunch && (d.effective == Ephemeral || !d.published)
  }

  function Unlink(fs: Files, path: Path): Files
    requires path in fs.at
  {
    fs.(at := fs.at - {path}, deleted := fs.deleted + {fs.at[path]})
  }

  /** The removal of one journaled disk up to the unlink: an outcome, or nothing
      when the file at the path carries the recorded identity and is to go. */
  function CheckDisk(d: Disk, fs: Files, env: DiskEnv): Option<Outcome> {
    if d.state == Planned then Some(Done)
    else if d.aceAdded && d.path in fs.at && env.revoke != Done then Some(env.revoke)
    else if !Deletable(d) then Some(Done)
    else if d.path !in fs.at then Some(Done)
    else if d.identity.None? then Some(Failed("no recorded file identity"))
    else if !env.readable then Some(Failed("identity unreadable"))
    else if fs.at[d.path] != d.identity.value then Some(Failed("file identity changed"))
    else None
  }

  /** Unlinking by name: whatever is at the path goes; nothing there is as good. */
  function UnlinkAt(fs: Files, path: Path, unlinks: bool): (Outcome, Files) {
    if path !in fs.at then (Done, fs)
    else if unlinks then (Done, Unlink(fs, path))
    else (Failed("remove failed"), fs)
  }

  // ---------------------------------------------------------------------
  // Giving up
  // ---------------------------------------------------------------------

  function KindText(kind: Kind): string {
    match kind
    case ComputeSystem => "compute_system"
    case Network => "network"
    case DiskFile => "disk"
  }

  function OperationText(kind: Kind): string {
    if kind == Network then "delete" else "remove"
  }

  /** What is recorded about a removal that failed. */
  function FailureText(kind: Kind, identity: string, cause: string): string {
    "resource_kind=" + KindText(kind) + " operation=" + OperationText(kind) + " resource_id=" + identity
    + " cause=" + cause
  }

  /** What is recorded about a resource given up although its removal did not fail this time. */
  function ExhaustedText(kind: Kind, identity: string): string {
    "resource_kind=" + KindText(kind) + " resource_id=" + identity + " cause=cleanup attempts exhausted"
  }

  function LastErrorFor(kind: Kind, identity: string, failures: seq<Failure>): string {
    if |failures| == 0 then ExhaustedText(kind, identity)
    else if failures[0].kind == kind && failures[0].identity == identity then
      FailureText(kind, identity, failures[0].cause)
    else LastErrorFor(kind, identity, failures[1..])
  }

  function EntryAt(r: VmRecord, k: nat, failures: seq<Failure>, now: nat): Entry
    requires k < Count(r)
  {
    Entry(KindAt(r, k), IdentityAt(r, k), LastErrorFor(KindAt(r, k), IdentityAt(r, k), failures), now)
  }

  /** One entry for each of the first n resources that is not removed. */
  function Leftovers(r: VmRecord, n: nat, failures: seq<Failure>, now: nat): seq<Entry>
    requires n <= Count(r)
  {
    if n == 0 then []
    else Leftovers(r, n - 1, failures, now) +
         (if StateAt(r, n - 1) == Removed then [] else [EntryAt(r, n - 1, failures, now)])
  }

  function InventoryAfter(row: Option<seq<Entry>>, r: VmRecord, failures: seq<Failure>, now: nat): seq<Entry> {
    var previous := if row.Some? then row.value else [];
    Merge(previous, Merge(previous, Leftovers(r, Count(r), failures, now)))
  }

  function GiveUp(st: ResourceState): ResourceState {
    if st == Removed then Removed else Abandoned
  }

  /** The first n resources that are not removed, as the record of a VM given up names them. */
  function RemainingText(r: VmRecord, n: nat): string
    requires n <= Count(r)
  {
    if n == 0 then ""
    else
      var before := RemainingText(r, n - 1);
      if StateAt(r, n - 1) == Removed then before
      else
        before + (if before == "" then "" else "; ")
        + "resource_kind=" + KindText(KindAt(r, n - 1)) + " resource_id=" + IdentityAt(r, n - 1)
  }

  function AbandonedRecord(r: VmRecord): VmRecord {
    r.(compute := GiveUp(r.compute),
       network := if r.network.Some? then Some(GiveUp(r.network.value)) else None,
       disks := seq(|r.disks|, i requires 0 <= i < |r.disks| => r.disks[i].(state := GiveUp(r.disks[i].state))),
       lastError := Some("abandoned after 3 cleanup attempts: " + RemainingText(r, Count(r))))
  }

  // ---------------------------------------------------------------------
  // The actions
  // ---------------------------------------------------------------------

  /** Control after a pass returns: `close` retries once through drop, the guard sweeps its files. */
  function AfterPass(caller: Caller, ok: bool): Activity {
    match caller
    case ByGuard(guarded) => Sweeping(guarded, false)
    case ByClose => if ok then Idle else Cleaning(Begin, ByDrop)
    case ByDrop => Idle
    case ByRecovery => Idle
  }

  predicate AtLaunch(l: Local, step: LaunchStep) {
    l.record.Some? && l.activity.Launching? && l.activity.step == step
  }

  predicate AtDisk(l: Local) {
    && l.record.Some? && l.activity.Launching?
    && (|| l.activity.step.DiskDue? || l.activity.step.DiskMade?
        || l.activity.step.DiskSeen? || l.activity.step.DiskNoted?)
    && l.activity.step.index < |l.record.value.disks|
    && |l.activity.specs| == |l.record.value.disks|
  }

  predicate Walking(l: Local) {
    l.record.Some? && l.activity.Cleaning? && l.activity.pass.Walk?
  }

  predicate Visiting(l: Local) {
    Walking(l) && l.activity.pass.next < Count(l.record.value)
  }

  /** The pass is between comparing a disk's identity and unlinking its path. */
  predicate Checking(l: Local) {
    && l.record.Some? && l.activity.Cleaning? && l.activity.pass.Checked?
    && DiskBase(l.record.value) <= l.activity.pass.next < Count(l.record.value)
  }

  function CheckedDisk(l: Local): Disk
    requires Checking(l)
  {
    l.record.value.disks[l.activity.pass.next - DiskBase(l.record.value)]
  }

  predicate WalkDone(l: Local) {
    Walking(l) && l.activity.pass.next == Count(l.record.value)
  }

  predicate CanLaunch(s: Scene, a: LaunchAction) {
    var l := s.local;
    match a
    case MakeNetwork => AtLaunch(l, NetworkDue)
    case RollBackNetwork => AtLaunch(l, NetworkMade)
    case NoteNetwork => AtLaunch(l, NetworkMade) && l.record.value.network.Some?
    case MakeDisk(identity) =>
      AtDisk(l) && l.activity.step.DiskDue?
      && l.record.value.disks[l.activity.step.index].path !in s.fs.at && identity !in s.fs.known
    case SeeDisk =>
      AtDisk(l)
      && (|| l.activity.step.DiskMade?
          || (l.activity.step.DiskDue? && l.activity.specs[l.activity.step.index].onExisting == ReuseAndKeep))
      && l.record.value.disks[l.activity.step.index].path in s.fs.at
    case NoteDisk => AtDisk(l) && l.activity.step.DiskSeen?
    case NoteAce => AtDisk(l) && l.activity.step.DiskNoted?
    case MakeCompute => l.record.Some? && AtLaunch(l, DiskDue(|l.record.value.disks|))
    case NoteCompute => AtLaunch(l, ComputeMade)
    case FailLaunch => l.activity.Launching?
  }

  function AtStep(l: Local, step: LaunchStep): Local
    requires l.activity.Launching?
  {
    l.(activity := l.activity.(step := step))
  }

  function DoLaunch(s: Scene, a: LaunchAction): Scene
    requires CanLaunch(s, a)
  {
    var l := s.local;
    var fs := s.fs;
    match a
    case MakeNetwork => s.(local := AtStep(l, NetworkMade).(network := true))
    case RollBackNetwork =>
      s.(local := l.(network := false, activity := Cleaning(Begin, ByGuard(l.activity.guarded))))
    case NoteNetwork =>
      s.(local := AtStep(l, DiskDue(0)).(record := Some(l.record.value.(network := Some(Created)))))
    case MakeDisk(identity) =>
      var i := l.activity.step.index;
      Scene(AtStep(l, DiskMade(i)),
            fs.(at := fs.at[l.record.value.disks[i].path := identity],
                known := fs.known + {identity},
                made := fs.made[identity := Maker(l.vm, i)]))
    case SeeDisk =>
      var i := l.activity.step.index;
      var path := l.record.value.disks[i].path;
      var mine := l.activity.step.DiskMade?;
      var guarded := if mine then l.activity.guarded + [GuardedFile(path, fs.at[path])] else l.activity.guarded;
      s.(local := l.(activity := Launching(DiskSeen(i, fs.at[path], mine), guarded, l.activity.specs)))
    case NoteDisk =>
      var i := l.activity.step.index;
      var r := l.record.value;
      var d := NotedDisk(r.disks[i], l.activity.step.identity, l.activity.step.mine);
      s.(local := AtStep(l, DiskNoted(i)).(record := Some(r.(disks := r.disks[i := d]))))
    case NoteAce =>
      var i := l.activity.step.index;
      var r := l.record.value;
      s.(local := AtStep(l, DiskDue(i + 1)).(record := Some(r.(disks := r.disks[i := r.disks[i].(aceAdded := true)]))))
    case MakeCompute => s.(local := AtStep(l, ComputeMade).(compute := true))
    case NoteCompute =>
      s.(local := l.(record := Some(l.record.value.(compute := Created, phase := Starting)), activity := Running))
    case FailLaunch => s.(local := l.(activity := Cleaning(Begin, ByGuard(l.activity.guarded))))
  }

  predicate CanVisit(s: Scene, a: VisitAction) {
    var l := s.local;
    match a
    case OpenPass => l.record.Some? && l.activity.Cleaning? && l.activity.pass.Begin?
    case SkipRemoved => Visiting(l) && StateAt(l.record.value, l.activity.pass.next) == Removed
    case HookCompute(outcome, gone) =>
      Visiting(l) && l.activity.pass.next == 0 && l.record.value.compute != Removed
    case HookNetwork(outcome, gone) =>
      Visiting(l) && 0 < l.activity.pass.next < DiskBase(l.record.value) && l.record.value.network.value != Removed
    case HookDisk(env) =>
      Visiting(l) && DiskBase(l.record.value) <= l.activity.pass.next
      && StateAt(l.record.value, l.activity.pass.next) != Removed
    case UnlinkDisk(_) => Checking(l)
    case NoteOutcome =>
      l.record.Some? && l.activity.Cleaning? && l.activity.pass.Applied? && l.activity.pass.next < Count(l.record.value)
  }

  function AtPass(l: Local, pass: Pass): Local
    requires l.activity.Cleaning?
  {
    l.(activity := l.activity.(pass := pass))
  }

  /** The journal transaction that records what a hook reported about resource k. */
  function RecordOutcome(r: VmRecord, k: nat, outcome: Outcome): VmRecord
    requires k < Count(r)
  {
    match outcome
    case Failed(cause) =>
      WithState(r, k, RemovalFailed).(lastError := Some(FailureText(KindAt(r, k), IdentityAt(r, k), cause)))
    case _ => WithState(r, k, Removed)
  }

  function AddFailure(r: VmRecord, k: nat, outcome: Outcome, failures: seq<Failure>): seq<Failure>
    requires k < Count(r)
  {
    match outcome
    case Failed(cause) => failures + [Failure(KindAt(r, k), IdentityAt(r, k), cause)]
    case _ => failures
  }

  function OpenedRecord(r: VmRecord): VmRecord {
    r.(phase := CleanupPending, attempts := SaturatingSucc(r.attempts), lastError := None)
  }

  function DoVisit(s: Scene, a: VisitAction): Scene
    requires CanVisit(s, a)
  {
    var l := s.local;
    match a
    case OpenPass => s.(local := AtPass(l, Walk(0, [])).(record := Some(OpenedRecord(l.record.value))))
    case SkipRemoved => s.(local := AtPass(l, Walk(l.activity.pass.next + 1, l.activity.pass.failures)))
    case HookCompute(outcome, gone) =>
      s.(local := AtPass(l, Applied(0, l.activity.pass.failures, outcome)).(
           compute := l.compute && outcome.Failed? && !gone))
    case HookNetwork(outcome, gone) =>
      s.(local := AtPass(l, Applied(l.activity.pass.next, l.activity.pass.failures, outcome)).(
           network := l.network && outcome.Failed? && !gone))
    case HookDisk(env) =>
      var k := l.activity.pass.next;
      var outcome := CheckDisk(l.record.value.disks[k - DiskBase(l.record.value)], s.fs, env);
      s.(local := AtPass(l, if outcome.Some? then Applied(k, l.activity.pass.failures, outcome.value)
                            else Checked(k, l.activity.pass.failures)))
    case UnlinkDisk(unlinks) =>
      var (outcome, fs') := UnlinkAt(s.fs, CheckedDisk(l).path, unlinks);
      Scene(AtPass(l, Applied(l.activity.pass.next, l.activity.pass.failures, outcome)), fs')
    case NoteOutcome =>
      var r := l.record.value;
      var p := l.activity.pass;
      s.(local := AtPass(l, Walk(p.next + 1, AddFailure(r, p.next, p.outcome, p.failures))).(
           record := Some(RecordOutcome(r, p.next, p.outcome))))
  }

  predicate CanSettle(s: Scene, a: SettleAction) {
    var l := s.local;
    match a
    case MarkComplete => WalkDone(l) && l.activity.pass.failures == []
    case RemoveRecord => l.activity.Cleaning? && l.activity.pass.Completed?
    case RemoveRow => l.activity.Cleaning? && l.activity.pass.RecordDropped?
    case ReturnErr => WalkDone(l) && l.activity.pass.failures != [] && l.record.value.attempts < MAX_CLEANUP_ATTEMPTS
    case PutInventory(now) =>
      WalkDone(l) && l.activity.pass.failures != [] && l.record.value.attempts >= MAX_CLEANUP_ATTEMPTS
    case MarkAbandoned => l.record.Some? && l.activity.Cleaning? && l.activity.pass.Inventoried?
    case AbortPass => l.activity.Cleaning?
  }

  function Returned(l: Local, ok: bool): Local
    requires l.activity.Cleaning?
  {
    l.(activity := AfterPass(l.activity.caller, ok))
  }

  function DoSettle(s: Scene, a: SettleAction): Scene
    requires CanSettle(s, a)
  {
    var l := s.local;
    match a
    case MarkComplete =>
      s.(local := AtPass(l, Completed).(record := Some(l.record.value.(phase := Complete, lastError := None))))
    case RemoveRecord => s.(local := AtPass(l, RecordDropped).(record := None))
    case RemoveRow => s.(local := Returned(l, true).(row := None))
    case ReturnErr => s.(local := Returned(l, false).(errPasses := l.errPasses + 1))
    case PutInventory(now) =>
      s.(local := AtPass(l, Inventoried(l.activity.pass.failures)).(
           row := Some(InventoryAfter(l.row, l.record.value, l.activity.pass.failures, now))))
    case MarkAbandoned => s.(local := Returned(l, true).(record := Some(AbandonedRecord(l.record.value))))
    case AbortPass => s.(local := Returned(l, false))
  }

  predicate CanLife(s: Scene, a: LifeAction) {
    var l := s.local;
    match a
    case NoteStarted => l.record.Some? && l.activity.Running?
    case NotePublished => l.record.Some? && l.activity.Running?
    case BeginClose => l.activity.Running?
    case BeginDrop => l.activity.Running?
    case CheckFile(_) => l.activity.Sweeping? && !l.activity.checked && l.activity.guarded != []
    case SweepFile(_) => l.activity.Sweeping? && l.activity.checked && l.activity.guarded != []
    case EndSweep => l.activity.Sweeping? && l.activity.guarded == []
  }

  function DoLife(s: Scene, a: LifeAction): Scene
    requires CanLife(s, a)
  {
    var l := s.local;
    var fs := s.fs;
    match a
    case NoteStarted =>
      var r := l.record.value;
      s.(local := l.(record := Some(if r.phase == Planning then r.(phase := Starting) else r)))
    case NotePublished =>
      Scene(l.(record := Some(PublishedRecord(l.record.value))), fs.(kept := fs.kept + Promised(l.record.value)))
    case BeginClose => s.(local := l.(activity := Cleaning(Begin, ByClose)))
    case BeginDrop => s.(local := l.(activity := Cleaning(Begin, ByDrop)))
    case CheckFile(readable) =>
      var g := l.activity.guarded[0];
      var matches := readable && g.path in fs.at && fs.at[g.path] == g.identity;
      s.(local := l.(activity := if matches then Sweeping(l.activity.guarded, true)
                                 else Sweeping(l.activity.guarded[1..], false)))
    case SweepFile(unlinks) =>
      Scene(l.(activity := Sweeping(l.activity.guarded[1..], false)),
            UnlinkAt(fs, l.activity.guarded[0].path, unlinks).1)
    case EndSweep => s.(local := l.(activity := Idle))
  }

  predicate Can(s: Scene, a: Action) {
    match a
    case InLaunch(x) => CanLaunch(s, x)
    case InVisit(x) => CanVisit(s, x)
    case InSettle(x) => CanSettle(s, x)
    case InLife(x) => CanLife(s, x)
  }

  function Do(s: Scene, a: Action): Scene
    requires Can(s, a)
  {
    match a
    case InLaunch(x) => DoLaunch(s, x)
    case InVisit(x) => DoVisit(s, x)
    case InSettle(x) => DoSettle(s, x)
    case InLife(x) => DoLife(s, x)
  }

  /** Losing the volatile state. */
  function Crashed(l: Local): Local {
    l.(activity := Idle)
  }
}
