/** Durable ownership records of the Windows HCS backend: one session database
    holds a table of VM resource records and a table of abandoned-resource rows.
    A write transaction is one assignment to a table. */
module Journal {
  import opened Common

  type VmId = string
  type SessionId = string
  type Path = string

  /** State of one external resource. */
  datatype ResourceState = Planned | Created | Removed | RemovalFailed | Abandoned

  /** Lifecycle phase of a journaled VM attempt. */
  datatype Phase = Planning | Starting | Published | CleanupPending | Complete

  datatype FileIdentity = FileIdentity(volumeSerial: nat, fileId: nat)

  datatype Retention = Ephemeral | Persistent

  datatype Origin = CreatedByLaunch | PreExisting

  datatype Disk = Disk(
    path: Path,
    state: ResourceState,
    origin: Origin,
    requested: Retention,
    effective: Retention,
    identity: Option<FileIdentity>,
    initRequested: bool,
    initAcknowledged: bool,
    aceAdded: bool,
    published: bool)

  datatype VmRecord = VmRecord(
    vm: VmId,
    phase: Phase,
    published: bool,
    compute: ResourceState,
    network: Option<ResourceState>,
    disks: seq<Disk>,
    attempts: nat,
    lastError: Option<string>)

  datatype Kind = ComputeSystem | Network | DiskFile

  /** One abandoned resource as listed in the inventory. */
  datatype Entry = Entry(kind: Kind, identity: string, lastError: string, firstAt: nat)

  const MAX_CLEANUP_ATTEMPTS: nat := 3
  const U32_MAX: nat := 0xFFFF_FFFF

  // ---------------------------------------------------------------------
  // The resources of a record, numbered in the order a cleanup pass visits
  // them: the compute system, the network when there is one, the disks.
  // ---------------------------------------------------------------------

  function DiskBase(r: VmRecord): nat {
    if r.network.Some? then 2 else 1
  }

  function Count(r: VmRecord): nat {
    DiskBase(r) + |r.disks|
  }

  function StateAt(r: VmRecord, k: nat): ResourceState
    requires k < Count(r)
  {
    if k == 0 then r.compute
    else if k < DiskBase(r) then r.network.value
    else r.disks[k - DiskBase(r)].state
  }

  function KindAt(r: VmRecord, k: nat): Kind
    requires k < Count(r)
  {
    if k == 0 then ComputeSystem else if k < DiskBase(r) then Network else DiskFile
  }

  function NetworkIdentity(vm: VmId): string {
    "jyth-nat-" + vm + "/" + "jyth-ep-" + vm
  }

  function IdentityAt(r: VmRecord, k: nat): string
    requires k < Count(r)
  {
    if k == 0 then r.vm
    else if k < DiskBase(r) then NetworkIdentity(r.vm)
    else r.disks[k - DiskBase(r)].path
  }

  predicate SameShape(a: VmRecord, b: VmRecord) {
    && a.vm == b.vm
    && a.network.Some? == b.network.Some?
    && |a.disks| == |b.disks|
    && forall i :: 0 <= i < |a.disks| ==> a.disks[i].path == b.disks[i].path
  }

  /** The transition a cleanup outcome applies to resource k. A disk that is
      gone no longer carries the temporary access entry. */
  function WithState(r: VmRecord, k: nat, st: ResourceState): (r': VmRecord)
    requires k < Count(r)
    ensures SameShape(r, r') && Count(r') == Count(r)
    ensures forall j: nat :: j < Count(r) ==> StateAt(r', j) == if j == k then st else StateAt(r, j)
  {
    if k == 0 then r.(compute := st)
    else if k < DiskBase(r) then r.(network := Some(st))
    else
      var i := k - DiskBase(r);
      var d := r.disks[i];
      r.(disks := r.disks[i := d.(state := st, aceAdded := d.aceAdded && st != Removed)])
  }

  /** Noting the state of one resource leaves the others as they are; a disk keeps all else
      that is known of it, but for the access entry of a file that is gone. */
  lemma NotingKeepsTheRest(r: VmRecord, k: nat, st: ResourceState)
    requires k < Count(r)
    ensures var r' := WithState(r, k, st);
            && r'.phase == r.phase && r'.published == r.published && r'.attempts == r.attempts
            && forall i :: 0 <= i < |r.disks| ==>
                 var d, d' := r.disks[i], r'.disks[i];
                 && (DiskBase(r) + i != k ==> d' == d)
                 && (DiskBase(r) + i == k ==> d'.(aceAdded := d.aceAdded) == d.(state := st))
                 && (d'.aceAdded <==> d.aceAdded && !(DiskBase(r) + i == k && st == Removed))
  {
  }

  predicate Terminal(st: ResourceState) {
    st == Removed || st == Abandoned
  }

  predicate AllRemoved(r: VmRecord) {
    forall k: nat :: k < Count(r) ==> StateAt(r, k) == Removed
  }

  /** Terminal for recovery: explicitly complete, or every resource removed or abandoned. */
  predicate IsComplete(r: VmRecord) {
    || r.phase == Complete
    || (&& Terminal(r.compute)
        && (r.network.None? || Terminal(r.network.value))
        && forall i :: 0 <= i < |r.disks| ==> Terminal(r.disks[i].state))
  }

  /** The resource-by-resource test of the source says the same as quantifying over every resource. */
  lemma IsCompleteMeansAllTerminal(r: VmRecord)
    ensures IsComplete(r) <==> r.phase == Complete || forall k: nat :: k < Count(r) ==> Terminal(StateAt(r, k))
  {
    if forall k: nat :: k < Count(r) ==> Terminal(StateAt(r, k)) {
      assert Terminal(StateAt(r, 0));
      if r.network.Some? {
        assert Terminal(StateAt(r, 1));
      }
      forall i | 0 <= i < |r.disks|
        ensures Terminal(r.disks[i].state)
      {
        assert Terminal(StateAt(r, DiskBase(r) + i));
      }
    }
  }

  /** Attempts are counted in 32 bits and never start over. */
  function SaturatingSucc(n: nat): (m: nat)
    ensures n <= U32_MAX ==> n <= m <= U32_MAX && (n < U32_MAX ==> m > n)
  {
    if n >= U32_MAX then n else n + 1
  }

  // ---------------------------------------------------------------------
  // The abandoned inventory
  // ---------------------------------------------------------------------

  predicate Lists(entries: seq<Entry>, kind: Kind, identity: string) {
    exists i :: 0 <= i < |entries| && entries[i].kind == kind && entries[i].identity == identity
  }

  predicate DistinctEntries(entries: seq<Entry>) {
    forall i, j :: 0 <= i < j < |entries| ==>
      !(entries[i].kind == entries[j].kind && entries[i].identity == entries[j].identity)
  }

  /** Every entry of `before` is still in `after` at its place, with its first timestamp. */
  predicate KeepsFirst(before: seq<Entry>, after: seq<Entry>) {
    && |before| <= |after|
    && forall i :: 0 <= i < |before| ==>
         && after[i].kind == before[i].kind
         && after[i].identity == before[i].identity
         && after[i].firstAt == before[i].firstAt
  }

  /** Position of the entry for (kind, identity), or the length when there is none. */
  function FindEntry(entries: seq<Entry>, kind: Kind, identity: string): (i: nat)
    ensures i <= |entries|
    ensures i < |entries| ==> entries[i].kind == kind && entries[i].identity == identity
    ensures i < |entries| <==> Lists(entries, kind, identity)
    ensures forall j :: 0 <= j < i ==> !(entries[j].kind == kind && entries[j].identity == identity)
  {
    if |entries| == 0 then 0
    else if entries[0].kind == kind && entries[0].identity == identity then 0
    else
      var rest := FindEntry(entries[1..], kind, identity);
      assert forall j :: 0 <= j < |entries[1..]| ==> entries[1..][j] == entries[j + 1];
      assert forall j :: 1 <= j < |entries| ==> entries[j] == entries[1..][j - 1];
      rest + 1
  }

  /** One upsert: an entry already listed keeps its place and timestamp and takes the new error. */
  function Upsert(entries: seq<Entry>, e: Entry): (r: seq<Entry>)
    ensures KeepsFirst(entries, r)
    ensures Lists(r, e.kind, e.identity)
    ensures DistinctEntries(entries) ==> DistinctEntries(r)
    ensures |r| == |entries| + (if Lists(entries, e.kind, e.identity) then 0 else 1)
  {
    var i := FindEntry(entries, e.kind, e.identity);
    if i < |entries| then
      entries[i := entries[i].(lastError := e.lastError)]
    else
      var r := entries + [e];
      assert r[|entries|] == e;
      r
  }

  /** Only the entry of that kind and identity changes: it tells the latest error. */
  lemma UpsertTellsLatestError(entries: seq<Entry>, e: Entry, i: nat)
    requires i < |Upsert(entries, e)|
    ensures var n := Upsert(entries, e)[i];
            if i == FindEntry(entries, e.kind, e.identity)
            then n.kind == e.kind && n.identity == e.identity && n.lastError == e.lastError
            else i < |entries| && n == entries[i]
  {
  }

  function Merge(entries: seq<Entry>, added: seq<Entry>): seq<Entry>
    decreases |added|
  {
    if |added| == 0 then entries
    else Upsert(Merge(entries, added[..|added| - 1]), added[|added| - 1])
  }

  lemma MergeStep(entries: seq<Entry>, added: seq<Entry>, n: nat)
    requires n < |added|
    ensures Merge(entries, added[..n + 1]) == Upsert(Merge(entries, added[..n]), added[n])
  {
    assert added[..n + 1][..n] == added[..n];
  }

  method UpsertEntry(entries: seq<Entry>, e: Entry) returns (r: seq<Entry>)
    ensures r == Upsert(entries, e)
  {
    var at := FindEntry(entries, e.kind, e.identity);
    if at < |entries| {
      r := entries[at := entries[at].(lastError := e.lastError)];
    } else {
      r := entries + [e];
    }
  }

  /** Fold the added entries, in order, into those already recorded. */
  method MergeEntries(previous: seq<Entry>, added: seq<Entry>) returns (entries: seq<Entry>)
    ensures entries == Merge(previous, added)
  {
    entries := previous;
    for n := 0 to |added|
      invariant entries == Merge(previous, added[..n])
    {
      MergeStep(previous, added, n);
      entries := UpsertEntry(entries, added[n]);
    }
    assert added[..|added|] == added;
  }

  lemma {:induction false} ListsIsKept(before: seq<Entry>, after: seq<Entry>, kind: Kind, identity: string)
    requires KeepsFirst(before, after) && Lists(before, kind, identity)
    ensures Lists(after, kind, identity)
  {
    var i :| 0 <= i < |before| && before[i].kind == kind && before[i].identity == identity;
    assert after[i].kind == kind && after[i].identity == identity;
  }

  /** Re-abandoning keeps one entry per kind and identity with its first
      timestamp, lists everything it was given, and invents nothing. */
  lemma {:induction false} MergeKeepsInventory(entries: seq<Entry>, added: seq<Entry>)
    ensures KeepsFirst(entries, Merge(entries, added))
    ensures DistinctEntries(entries) ==> DistinctEntries(Merge(entries, added))
    ensures forall i :: 0 <= i < |added| ==> Lists(Merge(entries, added), added[i].kind, added[i].identity)
    ensures forall kind, identity :: Lists(Merge(entries, added), kind, identity) ==>
              Lists(entries, kind, identity) || Lists(added, kind, identity)
    decreases |added|
  {
    if |added| > 0 {
      var init := added[..|added| - 1];
      var last := added[|added| - 1];
      MergeKeepsInventory(entries, init);
      var mid := Merge(entries, init);
      var all := Upsert(mid, last);
      forall i | 0 <= i < |added|
        ensures Lists(all, added[i].kind, added[i].identity)
      {
        if i < |init| {
          assert init[i] == added[i];
          ListsIsKept(mid, all, added[i].kind, added[i].identity);
        }
      }
      forall kind, identity | Lists(all, kind, identity)
        ensures Lists(entries, kind, identity) || Lists(added, kind, identity)
      {
        UpsertInventsNothing(mid, last, kind, identity);
        if !Lists(mid, kind, identity) {
          assert added[|added| - 1].kind == kind && added[|added| - 1].identity == identity;
        } else if Lists(init, kind, identity) {
          var i :| 0 <= i < |init| && init[i].kind == kind && init[i].identity == identity;
          assert added[i] == init[i];
        }
      }
    }
  }

  lemma UpsertInventsNothing(entries: seq<Entry>, e: Entry, kind: Kind, identity: string)
    requires Lists(Upsert(entries, e), kind, identity)
    ensures Lists(entries, kind, identity) || (e.kind == kind && e.identity == identity)
  {
    var r := Upsert(entries, e);
    var i :| 0 <= i < |r| && r[i].kind == kind && r[i].identity == identity;
    if i < |entries| {
      assert entries[i].kind == kind && entries[i].identity == identity;
    }
  }

  // ---------------------------------------------------------------------
  // The session database
  // ---------------------------------------------------------------------

  class SessionJournal {
    var vms: map<VmId, VmRecord>
    var rows: map<VmId, seq<Entry>>

    ghost predicate Valid()
      reads this
    {
      && (forall vm :: vm in vms ==> vms[vm].vm == vm)
      && (forall vm :: vm in rows ==> DistinctEntries(rows[vm]))
    }

    constructor ()
      ensures Valid() && vms == map[] && rows == map[]
    {
      vms := map[];
      rows := map[];
    }

    method PutVm(record: VmRecord)
      requires Valid()
      modifies this`vms
      ensures Valid() && vms == old(vms)[record.vm := record]
    {
      vms := vms[record.vm := record];
    }

    /** Read, change and write back one record in a single transaction; a missing record is an error. */
    method UpdateVm(vm: VmId, update: VmRecord -> VmRecord) returns (ok: bool)
      requires Valid()
      requires vm in vms ==> update(vms[vm]).vm == vm
      modifies this`vms
      ensures Valid() && ok == (vm in old(vms))
      ensures vms == if ok then old(vms)[vm := update(old(vms)[vm])] else old(vms)
      ensures vms - {vm} == old(vms) - {vm}
    {
      ok := vm in vms;
      if ok {
        vms := vms[vm := update(vms[vm])];
      }
    }

    method RemoveVm(vm: VmId)
      requires Valid()
      modifies this`vms
      ensures Valid() && vms == old(vms) - {vm}
      ensures vms - {vm} == old(vms) - {vm}
    {
      vms := vms - {vm};
    }

    /** Every VM with a record, once. */
    method AllVms() returns (ids: seq<VmId>)
      ensures forall vm :: vm in ids <==> vm in vms
      ensures forall i, j :: 0 <= i < j < |ids| ==> ids[i] != ids[j]
    {
      ids := [];
      var left := vms.Keys;
      while left != {}
        invariant left <= vms.Keys
        invariant forall vm :: vm in ids <==> vm in vms && vm !in left
        invariant forall i, j :: 0 <= i < j < |ids| ==> ids[i] != ids[j]
        decreases left
      {
        var vm :| vm in left;
        ids, left := ids + [vm], left - {vm};
      }
    }

    /** Upsert one VM's inventory row: entries already recorded keep their timestamp. */
    method PutAbandoned(vm: VmId, added: seq<Entry>)
      requires Valid()
      modifies this`rows
      ensures Valid()
      ensures rows == old(rows)[vm := Merge(if vm in old(rows) then old(rows)[vm] else [], added)]
      ensures rows - {vm} == old(rows) - {vm}
    {
      var previous := if vm in rows then rows[vm] else [];
      var entries := MergeEntries(previous, added);
      MergeKeepsInventory(previous, added);
      rows := rows[vm := entries];
    }

    method RemoveAbandoned(vm: VmId)
      requires Valid()
      modifies this`rows
      ensures Valid() && rows == old(rows) - {vm}
      ensures rows - {vm} == old(rows) - {vm}
    {
      rows := rows - {vm};
    }

    method HasAbandoned() returns (any: bool)
      ensures any <==> exists vm :: vm in rows
    {
      any := rows != map[];
      if any {
        assert rows.Keys != {};
        ghost var vm :| vm in rows.Keys;
        assert vm in rows;
      }
    }
  }
}
