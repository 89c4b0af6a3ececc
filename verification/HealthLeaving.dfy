/** Exactly when the alerts leave whose devices answer under more than one scope:
    `StorageDegraded`, `DiskWearHigh` and `NetworkDegraded`. */
module HealthLeaving {
  import opened Text
  import opened Traffic
  import opened Health
  import opened HealthReference
  import opened HealthAlerts
  import opened HealthPasses

  // ----- degraded storage -----

  /** The read its alert rests on lists the device, and whatever was read under that name,
      as an array, a pool or a disk, says it is well. */
  predicate DegradedClears(p: Pass, scope: Scope, device: string)
    requires scope in {MD, ZFS, SMART}
  {
    && Reads(p, scope) && Lists(p, scope, device)
    && (Reads(p, MD) ==> MDArray(device, true) !in p.status.storage.value.local.value.md.arrays)
    && (Reads(p, ZFS) ==>
          forall q :: q in p.status.storage.value.local.value.zfs.pools && q.name == device ==>
              PoolClears(q, p.limits, Degraded))
    && (Reads(p, SMART) ==>
          forall d :: d in p.status.storage.value.observed && d.serial == device ==>
              !IsMute(d) && d.smart.value.passed.value)
  }

  lemma DegradedArraysKeep(p: Pass, open: Open, k: Key)
    requires k in open && k.check == Degraded && Reads(p, MD)
    ensures var md := p.status.storage.value.local.value.md;
            MDKeeps(md, open, k) <==>
            MDArray(k.device, true) in md.arrays || (open[k] == MD && !Lists(p, MD, k.device))
  {
  }

  lemma DegradedPoolsKeep(p: Pass, open: Open, k: Key)
    requires k in open && k.check == Degraded && Reads(p, ZFS)
    ensures var zfs := p.status.storage.value.local.value.zfs;
            ZFSKeeps(zfs, p.limits, open, k) <==>
            || (exists q :: q in zfs.pools && q.name == k.device && !PoolClears(q, p.limits, Degraded))
            || (open[k] == ZFS && !Lists(p, ZFS, k.device))
  {
    hide PoolKeeps, PoolClears;
    var pools := p.status.storage.value.local.value.zfs.pools;
    forall q | q in pools
      ensures PoolKeeps(q, p.limits, open, k) <==> q.name == k.device && !PoolClears(q, p.limits, Degraded)
    {
      if q.name == k.device { PoolClearsIsNotKept(q, p.limits, open, k); }
      if PoolKeeps(q, p.limits, open, k) { PoolKeepsItsOwn(q, p.limits, open, k); }
    }
  }

  lemma DegradedDisksKeep(p: Pass, open: Open, k: Key)
    requires k in open && k.check == Degraded && Reads(p, SMART)
    ensures var observed := p.status.storage.value.observed;
            SMARTKeeps(observed, InventoryOf(p), p.limits, open, k) <==>
            || (exists d :: d in observed && d.serial == k.device && (IsMute(d) || !d.smart.value.passed.value))
            || (open[k] == SMART && !Lists(p, SMART, k.device))
  {
    hide BmcDrive;
    var observed := p.status.storage.value.observed;
    forall d | d in observed
      ensures DiskKeeps(d, BmcDrive(InventoryOf(p), d.serial), p.limits, open, k) <==>
              d.serial == k.device && (IsMute(d) || !d.smart.value.passed.value)
    {
    }
  }

  lemma DrivesKeepNoDegraded(p: Pass, open: Open, k: Key)
    requires k.check == Degraded && k in open && open[k] != Drives
    ensures !Touches(DrivesReading(p, open), k)
  {
    hide Touches, DrivesReading, SaysWear;
    DrivesReadingTouches(p, open, k);
  }

  /** An open `StorageDegraded` alert leaves exactly then. */
  lemma DegradedLeavesIff(p: Pass, open: Open, open': Open, k: Key)
    requires Next(p, open, open')
    requires k in open && open[k] in {MD, ZFS, SMART} && k.check == Degraded
    ensures k !in open' <==> DegradedClears(p, open[k], k.device)
  {
    hide Reading, LocalReading, DrivesReading, SMARTReading, NetReading, Touches, Next, MDKeeps, ZFSKeeps, SMARTKeeps,
        PoolClears;
    FiresExactlyWhen(p, open, open', k);
    ReadingTouches(p, open, k);
    LocalTouches(p, open, k);
    DrivesKeepNoDegraded(p, open, k);
    SMARTReadingTouches(p, open, k);
    NetKeepsNoStorage(p, open, k);
    if Reads(p, MD) { DegradedArraysKeep(p, open, k); }
    if Reads(p, ZFS) { DegradedPoolsKeep(p, open, k); }
    if Reads(p, SMART) { DegradedDisksKeep(p, open, k); }
  }

  // ----- wear -----

  /** A listed drive of the name is under the limit, or leaves the figure to its disk. */
  predicate DriveIsFresh(p: Pass, d: DriveInfo) {
    if d.used.Some? then d.used.value < p.limits.wear
    else SaysWear(p.status.storage, HearsNode(p), d.serial)
  }

  /** A listed disk of the serial is under the limit, or the inventory, however old, has a
      figure for it, which goes first. */
  predicate DiskIsFresh(p: Pass, d: ObservedDisk) {
    var bmc := BmcDrive(InventoryOf(p), d.serial);
    || (bmc.Some? && bmc.value.used.Some?)
    || (d.smart.Some? && d.smart.value.wear.Some? && d.smart.value.wear.value < p.limits.wear)
  }

  predicate WearClears(p: Pass, scope: Scope, device: string)
    requires scope in {Drives, SMART}
  {
    && Reads(p, scope) && Lists(p, scope, device)
    && (Reads(p, Drives) ==> forall d :: d in InventoryOf(p) && IsNameOf(device, d) ==> DriveIsFresh(p, d))
    && (Reads(p, SMART) ==> forall d :: d in p.status.storage.value.observed && d.serial == device ==>
         DiskIsFresh(p, d))
  }

  lemma WornDrivesKeep(p: Pass, open: Open, k: Key)
    requires k in open && k.check == WearHigh && Reads(p, Drives)
    ensures DrivesKeep(InventoryOf(p), p.status.storage, !HearsNode(p), p.limits, open, k) <==>
            || (exists d :: d in InventoryOf(p) && IsNameOf(k.device, d) && !DriveIsFresh(p, d))
            || (open[k] == Drives && !Lists(p, Drives, k.device))
  {
    hide SaysWear;
    forall d | d in InventoryOf(p)
      ensures DriveKeeps(d, SaysWear(p.status.storage, HearsNode(p), d.serial),
              p.limits, open, k)
         <==> IsNameOf(k.device, d) && !DriveIsFresh(p, d)
    {
    }
  }

  lemma WornDisksKeep(p: Pass, open: Open, k: Key)
    requires k in open && k.check == WearHigh && Reads(p, SMART)
    ensures var observed := p.status.storage.value.observed;
            SMARTKeeps(observed, InventoryOf(p), p.limits, open, k) <==>
            || (exists d :: d in observed && d.serial == k.device && !DiskIsFresh(p, d))
            || (open[k] == SMART && !Lists(p, SMART, k.device))
  {
    hide BmcDrive;
    forall d | d in p.status.storage.value.observed
      ensures DiskKeeps(d, BmcDrive(InventoryOf(p), d.serial), p.limits, open, k) <==>
              d.serial == k.device && !DiskIsFresh(p, d)
    {
    }
  }

  lemma StacksKeepNoWear(p: Pass, open: Open, k: Key)
    requires k.check == WearHigh && k in open && open[k] !in {MD, ZFS}
    ensures !Touches(LocalReading(p, open), k)
  {
    hide Touches, LocalReading;
    LocalTouches(p, open, k);
  }

  /** An open `DiskWearHigh` alert leaves exactly when the read it rests on lists the device
      and nothing read under its name is worn or silent about it. */
  lemma WearLeavesIff(p: Pass, open: Open, open': Open, k: Key)
    requires Next(p, open, open')
    requires k in open && open[k] in {Drives, SMART} && k.check == WearHigh
    ensures k !in open' <==> WearClears(p, open[k], k.device)
  {
    hide Reading, LocalReading, DrivesReading, SMARTReading, NetReading, Touches, Next, DrivesKeep, SMARTKeeps,
        DriveIsFresh, DiskIsFresh;
    FiresExactlyWhen(p, open, open', k);
    ReadingTouches(p, open, k);
    StacksKeepNoWear(p, open, k);
    DrivesReadingTouches(p, open, k);
    SMARTReadingTouches(p, open, k);
    NetKeepsNoStorage(p, open, k);
    if Reads(p, Drives) { WornDrivesKeep(p, open, k); }
    if Reads(p, SMART) { WornDisksKeep(p, open, k); }
  }

  lemma {:induction false} BmcDriveIsListed(drives: seq<DriveInfo>, serial: string)
    ensures var d := BmcDrive(drives, serial); d.Some? ==> d.value in drives && d.value.serial == serial
  {
    if drives != [] && drives[0].serial != serial {
      BmcDriveIsListed(drives[1..], serial);
    }
  }

  /** A figure read in this pass says the device is under the limit. */
  predicate HasCurrentFigure(p: Pass, device: string) {
    || (Reads(p, Drives) &&
        exists d :: d in InventoryOf(p) && IsNameOf(device, d) && d.used.Some? && d.used.value < p.limits.wear)
    || (Reads(p, SMART) &&
        exists d :: d in p.status.storage.value.observed && d.serial == device && SaysItIsFresh(p, d))
  }

  predicate SaysItIsFresh(p: Pass, d: ObservedDisk) {
    d.smart.Some? && d.smart.value.wear.Some? && d.smart.value.wear.value < p.limits.wear
  }

  /** An alert resting on SMART leaves on such a figure exactly if the inventory was read, or
      some disk of the serial says so itself. */
  lemma WearLeavesOnEvidenceIff(p: Pass, device: string)
    requires WearClears(p, SMART, device) && device != ""
    ensures HasCurrentFigure(p, device) <==>
            Reads(p, Drives) ||
            exists d :: d in p.status.storage.value.observed && d.serial == device && SaysItIsFresh(p, d)
  {
    hide BmcDrive, SaysWear, SaysItIsFresh;
    assert Reads(p, SMART);
    if Reads(p, Drives) {
      var d :| d in p.status.storage.value.observed && d.serial == device;
      assert DiskIsFresh(p, d);
      BmcDriveIsListed(InventoryOf(p), device);
      FreshDisk(p, d);
    }
  }

  /** A published disk carries its serial. */
  predicate SerialsAreGiven(p: Pass) {
    p.status.storage.Some? ==> forall d :: d in p.status.storage.value.observed ==> d.serial != ""
  }

  /** An alert resting on the inventory always leaves on such a figure. */
  lemma DriveWearLeavesOnEvidence(p: Pass, device: string)
    requires WearClears(p, Drives, device) && SerialsAreGiven(p)
    ensures HasCurrentFigure(p, device)
  {
    hide BmcDrive, SaysItIsFresh;
    var d :| d in InventoryOf(p) && IsNameOf(device, d);
    assert DriveIsFresh(p, d);
    if d.used.None? {
      var o :| o in p.status.storage.value.observed && o.serial == d.serial;
      assert DiskIsFresh(p, o);
      BmcDriveIsListed(InventoryOf(p), device);
      FreshDisk(p, o);
    }
  }

  lemma FreshDisk(p: Pass, d: ObservedDisk)
    requires DiskIsFresh(p, d)
    ensures SaysItIsFresh(p, d) ||
            (BmcDrive(InventoryOf(p), d.serial).Some? && BmcDrive(InventoryOf(p), d.serial).value.used.Some?)
  {
  }

  /** Which is not always on evidence: the inventory of a BMC that no longer answers still
      takes the disk's place. Here the disk, read just now, says 99 of 80 percent, and its
      open alert leaves for a figure nobody could read again. */
  lemma StaleFigureClosesWear()
    ensures exists p: Pass ::
      && !Reads(p, Drives) && Reads(p, SMART) && WearClears(p, SMART, "x") && p.limits.wear == 80
      && p.status.storage.value.observed == [ObservedDisk("x", Some(false), Some(Smart(Some(true), Some(99))))]
  {
    var disk := ObservedDisk("x", Some(false), Some(Smart(Some(true), Some(99))));
    var local := Local(MDStatus(Absent, [], 0), ZFSStatus(Absent, [], 0));
    var drive := DriveInfo("x", "bay", true, Some(10));
    var p := Pass(Status(Some(Storage([disk], Some(0), Some(local))), Some([drive]), None), Thresholds(80, 80),
                  Expectations(1000, 90, 10, map[], false), false, 0);
    assert BmcDrive(InventoryOf(p), "x") == Some(drive);
    assert disk in p.status.storage.value.observed;
    assert DiskIsFresh(p, disk);
    assert WearClears(p, SMART, "x");
  }

  // ----- the state of links -----

  predicate PortIsWell(i: Interface, e: Expectations) {
    i.oper != NoOperState && (i.name in e.links ==> i.oper == Up)
  }

  /** The name is listed, or is only what the policy used to ask for, and every port, bond
      and member that goes by it says it is well. */
  predicate StateClears(p: Pass, scope: Scope, device: string) {
    && Reads(p, Net)
    && var n := p.status.network.value;
       && (IsListed(n, device) || (scope == NetExpected && device !in p.net.links))
       && (forall i :: i in n.interfaces && i.name == device ==> PortIsWell(i, p.net))
       && (forall b :: b in n.bonds && b.name == device ==> !BondIsBad(b, p.net) && !BondIsUnclear(b, p.net))
       && (forall b, m :: b in n.bonds && m in b.members && MemberName(b.name, m.name) == device ==>
             !MemberIsBad(b, m) && !MemberIsUnclear(b, m))
  }

  lemma BondStateOnly(b: Bond, e: Expectations, open: Open, k: Key)
    requires k in open && k.check == NetDegraded
    ensures BondKeeps(b, e, open, k) <==>
            || (b.name == k.device && (BondIsBad(b, e) || BondIsUnclear(b, e)))
            || (exists m :: m in b.members && MemberName(b.name, m.name) == k.device &&
                 (MemberIsBad(b, m) || MemberIsUnclear(b, m)))
  {
    hide BondIsBad, BondIsUnclear, MemberIsBad, MemberIsUnclear, MemberName;
    forall m | m in b.members
      ensures MemberKeeps(b, m, open, k) <==>
              MemberName(b.name, m.name) == k.device && (MemberIsBad(b, m) || MemberIsUnclear(b, m))
    {
    }
  }

  lemma StateKeepsIffNotClear(p: Pass, open: Open, k: Key)
    requires k in open && open[k] in {Net, NetExpected} && k.check == NetDegraded && Reads(p, Net)
    ensures LinksKeep(p.status.network.value, p.net, open, k) <==> !StateClears(p, open[k], k.device)
  {
    hide BondKeeps, BondIsBad, BondIsUnclear, MemberIsBad, MemberIsUnclear, MemberName, IsListed, ListIsCut;
    var n := p.status.network.value;
    forall i | i in n.interfaces
      ensures PortKeeps(i, p.net, open, k) <==> i.name == k.device && !PortIsWell(i, p.net)
    {
    }
    forall b | b in n.bonds
      ensures BondKeeps(b, p.net, open, k) <==>
              || (b.name == k.device && (BondIsBad(b, p.net) || BondIsUnclear(b, p.net)))
              || (exists m :: m in b.members && MemberName(b.name, m.name) == k.device &&
                   (MemberIsBad(b, m) || MemberIsUnclear(b, m)))
    {
      BondStateOnly(b, p.net, open, k);
    }
  }

  /** An open `NetworkDegraded` alert leaves exactly then. */
  lemma LinkStateLeavesIff(p: Pass, open: Open, open': Open, k: Key)
    requires Next(p, open, open')
    requires k in open && open[k] in {Net, NetExpected} && k.check == NetDegraded
    ensures k !in open' <==> StateClears(p, open[k], k.device)
  {
    hide Reading, LocalReading, DrivesReading, SMARTReading, NetReading, Touches, Next, LinksKeep;
    FiresExactlyWhen(p, open, open', k);
    ReadingTouches(p, open, k);
    StorageKeepsNoLink(p, open, k);
    NetReadingTouches(p, open, k);
    if Reads(p, Net) {
      hide StateClears, Reads;
      StateKeepsIffNotClear(p, open, k);
    }
  }

  /** So an alert for a link only the policy asked for, and still not listed, leaves exactly
      when a read finds the policy no longer names it. */
  lemma ExpectedLinkLeavesIff(p: Pass, open: Open, open': Open, k: Key)
    requires Reads(p, Net) ==> !IsListed(p.status.network.value, k.device)
    requires k in open && open[k] == NetExpected && k.check == NetDegraded
    requires Next(p, open, open')
    ensures k !in open' <==> Reads(p, Net) && k.device !in p.net.links
  {
    hide Next, PortIsWell, BondIsBad, BondIsUnclear, MemberIsBad, MemberIsUnclear;
    LinkStateLeavesIff(p, open, open', k);
  }
}
