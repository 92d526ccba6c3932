/** The driver's write hooks: building the tables, forwarding a write, unloading (go2cbt/hook.c,
    go2cbt/write.c, go2cbt/go2cbt.c). */
module Hooks {
  import opened Bytes
  import opened Bitmap

  const MAX_HOOKED_DRIVERS: nat := 8
  const MAX_DISK_MAP_ENTRIES: nat := 64
  const MAX_DISKS: nat := 32

  /** A write routine: the driver's own hook, or any other. */
  datatype Routine = HwReadWrite | Other(address: nat)

  class DriverObject {
    var write: Routine

    constructor (routine: Routine)
      ensures write == routine
    {
      write := routine;
    }
  }

  class DeviceObject {
    const driver: DriverObject

    constructor (owner: DriverObject)
      ensures driver == owner
    {
      driver := owner;
    }
  }

  datatype HookEntry = HookEntry(driver: DriverObject, originalWrite: Routine, installed: bool, refCount: nat)

  datatype DiskMapEntry = DiskMapEntry(device: DeviceObject, hookEntry: nat, diskNumber: nat, start: u64, cbt: CbtState)

  /** What opening a disk finds: its device, the start and length when the query succeeds, and whether
      the bitmap's memory can be had. */
  datatype Probe = Probe(device: DeviceObject, info: Option<Extent>, memory: bool)

  datatype Extent = Extent(start: u64, length: u64)

  predicate Hooked(hooks: seq<HookEntry>, d: DriverObject) {
    exists i :: 0 <= i < |hooks| && hooks[i].driver == d
  }

  predicate NoRoom(hooks: seq<HookEntry>, d: DriverObject) {
    |hooks| >= MAX_HOOKED_DRIVERS && !Hooked(hooks, d)
  }

  /** One more reference to driver `d`, at entry `i`: counted there when the driver is hooked already, a
      new entry that saves the driver's routine when it is not. */
  predicate Referenced(hooks: seq<HookEntry>, hooks': seq<HookEntry>, d: DriverObject, routine: Routine, i: nat) {
    if Hooked(hooks, d) then
      && i < |hooks| && hooks[i].driver == d
      && hooks' == hooks[i := hooks[i].(refCount := hooks[i].refCount + 1)]
    else
      |hooks| < MAX_HOOKED_DRIVERS && i == |hooks| && hooks' == hooks + [HookEntry(d, routine, true, 1)]
  }

  predicate Distinct(hooks: seq<HookEntry>) {
    forall i, j :: 0 <= i < j < |hooks| ==> hooks[i].driver != hooks[j].driver
  }

  /** How many disks refer to hook entry `i`. */
  function Refs(disks: seq<DiskMapEntry>, i: nat): nat {
    if disks == [] then 0
    else Refs(disks[..|disks| - 1], i) + if disks[|disks| - 1].hookEntry == i then 1 else 0
  }

  function RefCounts(hooks: seq<HookEntry>): nat {
    if hooks == [] then 0 else RefCounts(hooks[..|hooks| - 1]) + hooks[|hooks| - 1].refCount
  }

  /** Entry `i` remembers its driver's pre-load routine and counts the disks that refer to it. */
  predicate EntryOk(hooks: seq<HookEntry>, disks: seq<DiskMapEntry>, pre: map<DriverObject, Routine>, i: nat)
    requires i < |hooks|
  {
    && hooks[i].driver in pre && hooks[i].originalWrite == pre[hooks[i].driver]
    && hooks[i].installed && hooks[i].refCount == Refs(disks, i)
  }

  predicate HooksOk(hooks: seq<HookEntry>, disks: seq<DiskMapEntry>, pre: map<DriverObject, Routine>) {
    && |hooks| <= MAX_HOOKED_DRIVERS && Distinct(hooks)
    && forall i :: 0 <= i < |hooks| ==> EntryOk(hooks, disks, pre, i)
  }

  /** Each mapped disk refers to the entry of its own device's driver. */
  predicate DisksOk(hooks: seq<HookEntry>, disks: seq<DiskMapEntry>) {
    forall k :: 0 <= k < |disks| ==> disks[k].hookEntry < |hooks| && hooks[disks[k].hookEntry].driver == disks[k].device.driver
  }

  predicate Mapped(disks: seq<DiskMapEntry>, n: nat) {
    exists k :: 0 <= k < |disks| && disks[k].diskNumber == n
  }

  /** Entry `k` describes the disk it is numbered for. */
  predicate Describes(e: DiskMapEntry, probes: seq<Option<Probe>>) {
    && e.diskNumber < |probes| && probes[e.diskNumber].Some?
    && e.device == probes[e.diskNumber].value.device
    && e.start == StartOf(probes[e.diskNumber].value)
  }

  function StartOf(p: Probe): u64 { if p.info.Some? then p.info.value.start else 0 }

  function LengthOf(p: Probe): u64 { if p.info.Some? then p.info.value.length else 0 }

  /** Every disk found belongs to a driver of the machine, and its length is a signed 64-bit number. */
  predicate Probed(probes: seq<Option<Probe>>, pre: map<DriverObject, Routine>) {
    forall n :: 0 <= n < |probes| && probes[n].Some? ==>
      && probes[n].value.device.driver in pre
      && (probes[n].value.info.Some? ==> probes[n].value.info.value.length <= MAX_BLOCKS * CBT_BLOCK)
  }

  /** The bitmap right after loading: there exactly if the length is known and the memory was to be had,
      with a bit for each started MiB, all of them clear. */
  ghost predicate Loaded(c: CbtState, p: Probe)
    reads c
  {
    && (c.hasBuffer <==> LengthOf(p) > 0 && p.memory)
    && (c.hasBuffer ==> (c.totalBits - 1) * CBT_BLOCK < LengthOf(p) <= c.totalBits * CBT_BLOCK)
    && forall b :: 0 <= b < |c.bits| ==> !c.bits[b]
  }

  /** Every mapped disk has its bitmap as loaded. */
  ghost predicate AllLoaded(disks: seq<DiskMapEntry>, probes: seq<Option<Probe>>)
    reads Bitmaps(disks)
  {
    forall k :: 0 <= k < |disks| ==> Describes(disks[k], probes) && Loaded(disks[k].cbt, probes[disks[k].diskNumber].value)
  }

  predicate SeparateBitmaps(disks: seq<DiskMapEntry>) {
    forall j, k :: 0 <= j < k < |disks| ==> disks[j].cbt != disks[k].cbt
  }

  function Bitmaps(disks: seq<DiskMapEntry>): set<CbtState> {
    set k | 0 <= k < |disks| :: disks[k].cbt
  }

  lemma {:induction false} RefsAbsent(disks: seq<DiskMapEntry>, i: nat)
    requires forall k :: 0 <= k < |disks| ==> disks[k].hookEntry != i
    ensures Refs(disks, i) == 0
  {
    if disks == [] {
    } else {
      RefsAbsent(disks[..|disks| - 1], i);
    }
  }

  /** The reference counts of the first `n` entries, recomputed from the disk map. */
  function RefsBelow(disks: seq<DiskMapEntry>, n: nat): nat {
    if n == 0 then 0 else RefsBelow(disks, n - 1) + Refs(disks, n - 1)
  }

  lemma {:induction false} RefsBelowStep(disks: seq<DiskMapEntry>, e: DiskMapEntry, n: nat)
    ensures RefsBelow(disks + [e], n) == RefsBelow(disks, n) + if e.hookEntry < n then 1 else 0
  {
    assert (disks + [e])[..|disks|] == disks;
    if n == 0 {
    } else {
      RefsBelowStep(disks, e, n - 1);
    }
  }

  lemma {:induction false} RefsBelowTotal(disks: seq<DiskMapEntry>, n: nat)
    requires forall k :: 0 <= k < |disks| ==> disks[k].hookEntry < n
    ensures RefsBelow(disks, n) == |disks|
  {
    if disks == [] {
      RefsBelowNone(n);
    } else {
      var m := |disks| - 1;
      RefsBelowTotal(disks[..m], n);
      RefsBelowStep(disks[..m], disks[m], n);
      assert disks == disks[..m] + [disks[m]];
    }
  }

  lemma {:induction false} RefsBelowNone(n: nat)
    ensures RefsBelow([], n) == 0
  {
    if n == 0 {
    } else {
      RefsBelowNone(n - 1);
    }
  }

  lemma {:induction false} RefCountsAre(hooks: seq<HookEntry>, disks: seq<DiskMapEntry>)
    requires forall i :: 0 <= i < |hooks| ==> hooks[i].refCount == Refs(disks, i)
    ensures RefCounts(hooks) == RefsBelow(disks, |hooks|)
  {
    if hooks == [] {
    } else {
      RefCountsAre(hooks[..|hooks| - 1], disks);
    }
  }

  /** The reference counts of the hooked drivers add up to the size of the disk map. */
  lemma RefCountsSum(hooks: seq<HookEntry>, disks: seq<DiskMapEntry>, pre: map<DriverObject, Routine>)
    requires HooksOk(hooks, disks, pre) && DisksOk(hooks, disks)
    ensures RefCounts(hooks) == |disks|
  {
    forall i | 0 <= i < |hooks| ensures hooks[i].refCount == Refs(disks, i) {
      assert EntryOk(hooks, disks, pre, i);
    }
    RefCountsAre(hooks, disks);
    RefsBelowTotal(disks, |hooks|);
  }

  lemma AnotherReference(hooks: seq<HookEntry>, disks: seq<DiskMapEntry>, pre: map<DriverObject, Routine>, i: nat, e: DiskMapEntry)
    requires HooksOk(hooks, disks, pre) && i < |hooks| && e.hookEntry == i
    ensures HooksOk(hooks[i := hooks[i].(refCount := hooks[i].refCount + 1)], disks + [e], pre)
    ensures forall d :: Hooked(hooks[i := hooks[i].(refCount := hooks[i].refCount + 1)], d) <==> Hooked(hooks, d)
  {
    var after := hooks[i := hooks[i].(refCount := hooks[i].refCount + 1)];
    assert (disks + [e])[..|disks|] == disks;
    assert forall j :: 0 <= j < |hooks| ==> after[j].driver == hooks[j].driver;
    forall j | 0 <= j < |hooks| ensures EntryOk(after, disks + [e], pre, j) {
      assert EntryOk(hooks, disks, pre, j);
    }
    forall d ensures Hooked(after, d) <==> Hooked(hooks, d) {
      if Hooked(hooks, d) {
        var j :| 0 <= j < |hooks| && hooks[j].driver == d;
        assert after[j].driver == d;
      }
    }
  }

  lemma FirstReference(hooks: seq<HookEntry>, disks: seq<DiskMapEntry>, pre: map<DriverObject, Routine>, d: DriverObject, e: DiskMapEntry)
    requires HooksOk(hooks, disks, pre) && DisksOk(hooks, disks) && |hooks| < MAX_HOOKED_DRIVERS
    requires d in pre && !Hooked(hooks, d) && e.hookEntry == |hooks|
    ensures HooksOk(hooks + [HookEntry(d, pre[d], true, 1)], disks + [e], pre)
    ensures forall x :: Hooked(hooks + [HookEntry(d, pre[d], true, 1)], x) <==> Hooked(hooks, x) || x == d
  {
    var after := hooks + [HookEntry(d, pre[d], true, 1)];
    assert (disks + [e])[..|disks|] == disks;
    RefsAbsent(disks, |hooks|);
    forall j | 0 <= j < |after| ensures EntryOk(after, disks + [e], pre, j) {
      if j < |hooks| {
        assert EntryOk(hooks, disks, pre, j);
      }
    }
    forall x ensures Hooked(after, x) <==> Hooked(hooks, x) || x == d {
      if Hooked(hooks, x) {
        var j :| 0 <= j < |hooks| && hooks[j].driver == x;
        assert after[j].driver == x;
      }
      assert after[|hooks|].driver == d;
    }
  }

  lemma ReferenceKeeps(hooks: seq<HookEntry>, disks: seq<DiskMapEntry>, pre: map<DriverObject, Routine>,
                       hooks': seq<HookEntry>, routine: Routine, e: DiskMapEntry)
    requires HooksOk(hooks, disks, pre) && DisksOk(hooks, disks)
    requires var d := e.device.driver;
             && d in pre && (!Hooked(hooks, d) ==> routine == pre[d])
             && Referenced(hooks, hooks', d, routine, e.hookEntry)
    ensures HooksOk(hooks', disks + [e], pre) && DisksOk(hooks', disks + [e])
    ensures forall x :: Hooked(hooks', x) <==> Hooked(hooks, x) || x == e.device.driver
  {
    if Hooked(hooks, e.device.driver) {
      AnotherReference(hooks, disks, pre, e.hookEntry, e);
    } else {
      FirstReference(hooks, disks, pre, e.device.driver, e);
    }
  }

  lemma ReferenceMakesRoom(hooks: seq<HookEntry>, hooks': seq<HookEntry>, d: DriverObject, routine: Routine, i: nat)
    requires Referenced(hooks, hooks', d, routine, i)
    requires forall x :: Hooked(hooks', x) <==> Hooked(hooks, x) || x == d
    ensures !NoRoom(hooks', d) && forall x :: NoRoom(hooks, x) ==> NoRoom(hooks', x)
  {
  }

  lemma OriginalIsPreload(hooks: seq<HookEntry>, disks: seq<DiskMapEntry>, pre: map<DriverObject, Routine>, i: nat)
    requires HooksOk(hooks, disks, pre) && i < |hooks|
    ensures Hooked(hooks, hooks[i].driver) && hooks[i].installed
    ensures hooks[i].driver in pre && hooks[i].originalWrite == pre[hooks[i].driver]
  {
    assert EntryOk(hooks, disks, pre, i);
  }

  /** The hook entry a device's write is forwarded through: its own entry in the disk map, else the
      entry of its driver. */
  method FindHook(hooks: seq<HookEntry>, d: DriverObject) returns (index: Option<nat>)
    ensures index.Some? <==> Hooked(hooks, d)
    ensures index.Some? ==> index.value < |hooks| && hooks[index.value].driver == d
  {
    for i := 0 to |hooks|
      invariant forall j :: 0 <= j < i ==> hooks[j].driver != d
    {
      if hooks[i].driver == d {
        return Some(i);
      }
    }
    index := None;
  }

  method FindDisk(disks: seq<DiskMapEntry>, device: DeviceObject) returns (index: Option<nat>)
    ensures index.Some? ==> index.value < |disks| && disks[index.value].device == device
    ensures forall k :: 0 <= k < |disks| && disks[k].device == device ==> index.Some? && index.value <= k
  {
    for i := 0 to |disks|
      invariant forall k :: 0 <= k < i ==> disks[k].device != device
    {
      if disks[i].device == device {
        return Some(i);
      }
    }
    index := None;
  }

  /** The disk map lists, in order of disk number, the disks below `n` that were found, except those whose
      driver found no room in the full hook table. */
  predicate Listing(hooks: seq<HookEntry>, disks: seq<DiskMapEntry>, probes: seq<Option<Probe>>, n: nat)
    requires n <= |probes|
  {
    && (forall k :: 0 <= k < |disks| ==> Describes(disks[k], probes) && disks[k].diskNumber < n)
    && (forall j, k :: 0 <= j < k < |disks| ==> disks[j].diskNumber < disks[k].diskNumber)
    && (forall m :: 0 <= m < n && probes[m].Some? ==> Mapped(disks, m) || NoRoom(hooks, probes[m].value.device.driver))
  }

  /** What mapping the next disk does to the listing. */
  lemma ListingNext(hooks: seq<HookEntry>, disks: seq<DiskMapEntry>, hooks': seq<HookEntry>, disks': seq<DiskMapEntry>,
                    probes: seq<Option<Probe>>, n: nat)
    requires n < |probes| && Listing(hooks, disks, probes, n)
    requires forall d :: NoRoom(hooks, d) ==> NoRoom(hooks', d)
    requires if probes[n].Some? && !NoRoom(hooks', probes[n].value.device.driver)
             then |disks'| == |disks| + 1 && disks'[..|disks|] == disks && Describes(disks'[|disks|], probes) && disks'[|disks|].diskNumber == n
             else disks' == disks
    ensures Listing(hooks', disks', probes, n + 1)
  {
    forall m | 0 <= m < n + 1 && probes[m].Some?
      ensures Mapped(disks', m) || NoRoom(hooks', probes[m].value.device.driver)
    {
      if m < n && Mapped(disks, m) {
        var k :| 0 <= k < |disks| && disks[k].diskNumber == m;
        assert disks'[k] == disks'[..|disks|][k];
      }
    }
    assert forall k :: 0 <= k < |disks| ==> disks'[k] == disks[k];
  }

  lemma LoadedNext(disks: seq<DiskMapEntry>, disks': seq<DiskMapEntry>, probes: seq<Option<Probe>>, n: nat)
    requires n < |probes| && AllLoaded(disks, probes)
    requires disks' == disks
             || (probes[n].Some? && |disks'| == |disks| + 1 && disks'[..|disks|] == disks && Describes(disks'[|disks|], probes)
                 && disks'[|disks|].diskNumber == n && Loaded(disks'[|disks|].cbt, probes[n].value))
    ensures AllLoaded(disks', probes)
  {
    assert forall k :: 0 <= k < |disks| && k < |disks'| ==> disks'[k] == disks'[..|disks|][k] || disks' == disks;
  }

  /** A write's effect on the bitmap of a mapped disk: marked at the write's offset on the disk, or left
      as it was. A bitmap of 2^32 bits or more is not followed. */
  twostate predicate WriteMarks(e: DiskMapEntry, hit: bool, byteOffset: u64, byteCount: u32)
    reads e.cbt
  {
    && e.cbt.totalBits == old(e.cbt.totalBits) && e.cbt.hasBuffer == old(e.cbt.hasBuffer)
    && (!hit ==> e.cbt.bits == old(e.cbt.bits))
    && (hit && e.cbt.totalBits < TWO_32 ==>
          |old(e.cbt.bits)| == e.cbt.totalBits
          && e.cbt.bits == Marked(e.cbt.totalBits, old(e.cbt.bits), (byteOffset + e.start) % TWO_64, byteCount))
  }

  class HookTables {
    var hookList: seq<HookEntry>
    var diskMap: seq<DiskMapEntry>

    constructor ()
      ensures hookList == [] && diskMap == []
    {
      hookList, diskMap := [], [];
    }

    /** The tables agree with the write routines the drivers had before loading. */
    ghost predicate Valid(pre: map<DriverObject, Routine>)
      reads this, Bitmaps(diskMap)
    {
      && HooksOk(hookList, diskMap, pre) && DisksOk(hookList, diskMap)
      && |diskMap| <= MAX_DISKS && SeparateBitmaps(diskMap)
      && forall k :: 0 <= k < |diskMap| ==> diskMap[k].cbt.Valid()
    }

    /** Every driver in the tables has our routine in its dispatch table, every other one its own. */
    ghost predicate Installed(pre: map<DriverObject, Routine>)
      reads this, pre.Keys
    {
      forall d :: d in pre ==> d.write == if Hooked(hookList, d) then HwReadWrite else pre[d]
    }

    method FindOrCreateHookEntry(d: DriverObject) returns (index: Option<nat>)
      modifies `hookList, d`write
      ensures index.Some? <==> !NoRoom(old(hookList), d)
      ensures index.Some? ==> Referenced(old(hookList), hookList, d, old(d.write), index.value)
      ensures index == None ==> hookList == old(hookList)
      ensures d.write == if index.Some? && !Hooked(old(hookList), d) then HwReadWrite else old(d.write)
    {
      var found := FindHook(hookList, d);
      if found.Some? {
        var i := found.value;
        hookList := hookList[i := hookList[i].(refCount := hookList[i].refCount + 1)];
        return found;
      }
      if |hookList| >= MAX_HOOKED_DRIVERS {
        return None;
      }
      var entry := HookEntry(d, d.write, false, 1);
      d.write := HwReadWrite;
      entry := entry.(installed := d.write == HwReadWrite);
      hookList := hookList + [entry];
      index := Some(|hookList| - 1);
    }

    /** One disk: hook its driver, or find it hooked, and map the device. A disk whose driver finds no
        room in the table is skipped. */
    method MapDisk(diskNumber: nat, probe: Probe, ghost pre: map<DriverObject, Routine>)
      requires Valid(pre) && Installed(pre) && |diskMap| < MAX_DISKS
      requires probe.device.driver in pre
      requires probe.info.Some? ==> probe.info.value.length <= MAX_BLOCKS * CBT_BLOCK
      modifies this, probe.device.driver`write
      ensures Valid(pre) && Installed(pre)
      ensures forall x :: NoRoom(old(hookList), x) ==> NoRoom(hookList, x)
      ensures if NoRoom(hookList, probe.device.driver) then diskMap == old(diskMap)
              else
                && |diskMap| == |old(diskMap)| + 1 && diskMap[..|old(diskMap)|] == old(diskMap)
                && var e := diskMap[|old(diskMap)|];
                   e.device == probe.device && e.diskNumber == diskNumber && e.start == StartOf(probe) && Loaded(e.cbt, probe)
      ensures fresh(Bitmaps(diskMap) - Bitmaps(old(diskMap)))
    {
      var d := probe.device.driver;
      ghost var hooks, disks, routine := hookList, diskMap, d.write;
      var index := FindOrCreateHookEntry(d);
      if index == None || |diskMap| >= MAX_DISK_MAP_ENTRIES {
        return;
      }
      var cbt := new CbtState();
      var extent := if probe.info.Some? then probe.info.value else Extent(0, 0);
      var status := cbt.InitCbtState(extent.length, probe.memory);
      var e := DiskMapEntry(probe.device, index.value, diskNumber, extent.start, cbt);
      diskMap := diskMap + [e];
      ReferenceKeeps(hooks, disks, pre, hookList, routine, e);
      ReferenceMakesRoom(hooks, hookList, d, routine, index.value);
      hide Hooked, HooksOk, DisksOk, Referenced, NoRoom;
    }

    /** One disk number: mapped if the disk is there. */
    method TryDisk(diskNumber: nat, probes: seq<Option<Probe>>, ghost pre: map<DriverObject, Routine>)
      requires diskNumber < |probes| && Probed(probes, pre)
      requires Valid(pre) && Installed(pre) && |diskMap| < MAX_DISKS
      requires Listing(hookList, diskMap, probes, diskNumber) && AllLoaded(diskMap, probes)
      modifies this, pre.Keys
      ensures Valid(pre) && Installed(pre) && |diskMap| <= |old(diskMap)| + 1
      ensures Listing(hookList, diskMap, probes, diskNumber + 1) && AllLoaded(diskMap, probes)
      ensures fresh(Bitmaps(diskMap) - Bitmaps(old(diskMap)))
    {
      hide Hooked, NoRoom, HooksOk, DisksOk, Listing, SeparateBitmaps, AllLoaded;
      ghost var hooks, disks := hookList, diskMap;
      if probes[diskNumber].Some? {
        MapDisk(diskNumber, probes[diskNumber].value, pre);
      }
      ListingNext(hooks, disks, hookList, diskMap, probes, diskNumber);
      LoadedNext(disks, diskMap, probes, diskNumber);
    }

    /** Loading: every disk number is tried, whether or not the one before it was found. */
    method BuildDiskAndHookTables(probes: seq<Option<Probe>>, ghost pre: map<DriverObject, Routine>)
      requires |probes| == MAX_DISKS && hookList == [] && diskMap == []
      requires forall d :: d in pre ==> d.write == pre[d]
      requires Probed(probes, pre)
      modifies this, pre.Keys
      ensures Valid(pre) && Installed(pre)
      ensures Listing(hookList, diskMap, probes, MAX_DISKS) && AllLoaded(diskMap, probes)
      ensures fresh(Bitmaps(diskMap))
    {
      assert Valid(pre) && Installed(pre) && Listing(hookList, diskMap, probes, 0) && AllLoaded(diskMap, probes);
      hide Hooked, NoRoom, HooksOk, DisksOk, Listing, SeparateBitmaps, AllLoaded, Probed;
      for diskNumber := 0 to MAX_DISKS
        invariant Valid(pre) && Installed(pre) && |diskMap| <= diskNumber
        invariant fresh(Bitmaps(diskMap))
        invariant Listing(hookList, diskMap, probes, diskNumber) && AllLoaded(diskMap, probes)
      {
        TryDisk(diskNumber, probes, pre);
      }
    }

    /** The hook. A write is marked on its disk's bitmap when the device is mapped, and passed to the
        routine its driver had before loading. */
    method ForwardWrite(device: DeviceObject, byteOffset: u64, byteCount: u32, ghost pre: map<DriverObject, Routine>)
      returns (to: Routine, ghost marked: Option<nat>)
      requires Valid(pre)
      modifies Bitmaps(diskMap)
      ensures Valid(pre) && hookList == old(hookList) && diskMap == old(diskMap)
      ensures Hooked(hookList, device.driver) ==> device.driver in pre && to == pre[device.driver]
      ensures !Hooked(hookList, device.driver) ==> to == device.driver.write
      ensures marked.Some? ==> marked.value < |diskMap| && diskMap[marked.value].device == device
      ensures forall k :: 0 <= k < |diskMap| && diskMap[k].device == device ==> marked.Some? && marked.value <= k
      ensures forall k :: 0 <= k < |diskMap| ==> WriteMarks(diskMap[k], marked == Some(k), byteOffset, byteCount)
    {
      hide Hooked, HooksOk, Marked;
      var found := FindDisk(diskMap, device);
      marked := found;
      if found == None {
        var hook := FindHook(hookList, device.driver);
        if hook.Some? && hookList[hook.value].installed {
          OriginalIsPreload(hookList, diskMap, pre, hook.value);
          return hookList[hook.value].originalWrite, None;
        }
        if hook.Some? {
          OriginalIsPreload(hookList, diskMap, pre, hook.value);
        }
        return device.driver.write, None;
      }
      var e := diskMap[found.value];
      OriginalIsPreload(hookList, diskMap, pre, e.hookEntry);
      to := hookList[e.hookEntry].originalWrite;
      var diskAbsoluteOffset := (byteOffset + e.start) % TWO_64;
      e.cbt.MarkBlockChanged(diskAbsoluteOffset, byteCount);
    }

    /** A write request as the system issues it: to whatever routine the driver's table holds. Loaded,
        the driver is transparent: the write ends up, in one hop, in the routine the device's driver had
        before loading, whether or not that driver is hooked. */
    method IssueWrite(device: DeviceObject, byteOffset: u64, byteCount: u32, ghost pre: map<DriverObject, Routine>)
      returns (to: Routine, ghost marked: Option<nat>)
      requires Valid(pre) && Installed(pre) && device.driver in pre && HwReadWrite !in pre.Values
      modifies Bitmaps(diskMap)
      ensures Valid(pre) && Installed(pre) && hookList == old(hookList) && diskMap == old(diskMap)
      ensures to == pre[device.driver] && to != HwReadWrite
      ensures marked.Some? ==> marked.value < |diskMap| && diskMap[marked.value].device == device
      ensures forall k :: 0 <= k < |diskMap| && diskMap[k].device == device ==> marked.Some? && marked.value <= k
      ensures forall k :: 0 <= k < |diskMap| ==> WriteMarks(diskMap[k], marked == Some(k), byteOffset, byteCount)
    {
      if device.driver.write == HwReadWrite {
        to, marked := ForwardWrite(device, byteOffset, byteCount, pre);
      } else {
        to, marked := device.driver.write, None;
      }
    }

    /** Unloading: entries still ours get their old routine back, entries someone else has since replaced
        are left alone, and the tables are emptied. */
    method CbtUnload(ghost pre: map<DriverObject, Routine>)
      requires Valid(pre)
      modifies this, pre.Keys, Bitmaps(diskMap)
      ensures hookList == [] && diskMap == []
      ensures forall d :: d in pre ==>
                d.write == if old(Hooked(hookList, d)) && old(d.write) == HwReadWrite then pre[d] else old(d.write)
      ensures forall c :: c in old(Bitmaps(diskMap)) ==> !c.hasBuffer && c.bits == []
    {
      for i := 0 to |hookList|
        invariant hookList == old(hookList) && diskMap == old(diskMap)
        invariant forall d :: d in pre ==>
                    d.write == if Hooked(hookList[..i], d) && old(d.write) == HwReadWrite then pre[d] else old(d.write)
      {
        var entry := hookList[i];
        OriginalIsPreload(hookList, diskMap, pre, i);
        assert !Hooked(hookList[..i], entry.driver);
        HookedNext(hookList, i);
        if entry.installed {
          if entry.driver.write == HwReadWrite {
            entry.driver.write := entry.originalWrite;
          }
        }
      }
      assert hookList[..|hookList|] == hookList;
      for i := 0 to |diskMap|
        invariant hookList == old(hookList) && diskMap == old(diskMap)
        invariant forall d :: d in pre ==>
                    d.write == if Hooked(hookList, d) && old(d.write) == HwReadWrite then pre[d] else old(d.write)
        invariant forall k :: 0 <= k < i ==> !diskMap[k].cbt.hasBuffer && diskMap[k].cbt.bits == []
      {
        diskMap[i].cbt.CleanupCbtState();
      }
      hookList, diskMap := [], [];
    }
  }

  lemma HookedNext(hooks: seq<HookEntry>, i: nat)
    requires i < |hooks|
    ensures forall d :: Hooked(hooks[..i + 1], d) <==> Hooked(hooks[..i], d) || d == hooks[i].driver
  {
    forall d ensures Hooked(hooks[..i + 1], d) <==> Hooked(hooks[..i], d) || d == hooks[i].driver {
      if Hooked(hooks[..i], d) {
        var j :| 0 <= j < i && hooks[..i][j].driver == d;
        assert hooks[..i + 1][j].driver == d;
      }
      assert hooks[..i + 1][i] == hooks[i];
      if Hooked(hooks[..i + 1], d) {
        var j :| 0 <= j < i + 1 && hooks[..i + 1][j].driver == d;
        assert j < i ==> hooks[..i][j].driver == d;
      }
    }
  }

  /** Loading and unloading with nothing in between leaves every driver as it was. */
  method LoadAndUnload(probes: seq<Option<Probe>>, ghost pre: map<DriverObject, Routine>)
    requires |probes| == MAX_DISKS && HwReadWrite !in pre.Values
    requires forall d :: d in pre ==> d.write == pre[d]
    requires Probed(probes, pre)
    modifies pre.Keys
    ensures forall d :: d in pre ==> d.write == pre[d]
  {
    var tables := new HookTables();
    tables.BuildDiskAndHookTables(probes, pre);
    tables.CbtUnload(pre);
  }
}
