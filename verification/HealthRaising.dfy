/** When an alert is raised, told from the status alone. */
module HealthRaising {
  import opened Text
  import opened Traffic
  import opened Health
  import opened HealthReference
  import opened HealthAlerts
  import opened HealthPasses

  // ----- what raises an alert -----

  predicate PoolRaises(q: ZPool, t: Thresholds, c: Check) {
    match c
    case Degraded => PoolIsUnwell(q)
    case ScrubErrors => q.scrubErrors.Some? && q.scrubErrors.value > 0
    case CapacityHigh => q.capacity.Some? && q.capacity.value >= t.capacity
    case _ => false
  }

  predicate DriveRaises(d: DriveInfo, t: Thresholds, c: Check) {
    c == WearHigh && d.used.Some? && d.used.value >= t.wear
  }

  /** A disk speaks for its own health, and for its wear unless the inventory, however old,
      has a figure for it. */
  predicate DiskRaises(d: ObservedDisk, bmc: Option<DriveInfo>, t: Thresholds, c: Check) {
    match c
    case Degraded => d.smart.Some? && d.smart.value.passed == Some(false)
    case WearHigh =>
      && !(bmc.Some? && bmc.value.used.Some?)
      && d.smart.Some? && d.smart.value.wear.Some? && d.smart.value.wear.value >= t.wear
    case _ => false
  }

  predicate LoadRaises(t: Option<LinkTraffic>, e: Expectations, c: Check) {
    && t.Some?
    && match c
       case Saturated => t.value.capacityMbps.Some? && t.value.sustained.Some? && t.value.sustained.value >= e.saturated
       case LinkErrors => t.value.errorsPerMinute >= e.errorsPerMinute
       case _ => false
  }

  predicate PortRaises(i: Interface, e: Expectations, c: Check) {
    match c
    case NetDegraded => i.oper == OtherOper && i.name in e.links
    case LinkSlow => CarriesTraffic(i) && i.speed.Some? && i.speed.value < SpeedWanted(i, e)
    case Saturated | LinkErrors => CarriesTraffic(i) && LoadRaises(i.traffic, e, c)
    case _ => false
  }

  predicate BondRaises(b: Bond, e: Expectations, c: Check) {
    match c
    case NetDegraded => BondIsBad(b, e)
    case Saturated | LinkErrors => b.mii != MiiDown && LoadRaises(b.traffic, e, c)
    case _ => false
  }

  /** A link the policy names is not in a list that is known to be whole. */
  predicate IsMissing(n: Network, e: Expectations, name: string) {
    name in e.links && !IsListed(n, name) && !ListIsCut(n)
  }

  predicate StorageRaises(p: Pass, k: Key) {
    || (&& Reads(p, MD) && k.check == Degraded
        && exists a :: a in p.status.storage.value.local.value.md.arrays && a.name == k.device && a.degraded)
    || (&& Reads(p, ZFS)
        && exists q :: q in p.status.storage.value.local.value.zfs.pools && q.name == k.device &&
                       PoolRaises(q, p.limits, k.check))
    || (&& Reads(p, Drives)
        && exists d :: d in InventoryOf(p) && IsNameOf(k.device, d) && DriveRaises(d, p.limits, k.check))
    || (&& Reads(p, SMART)
        && exists d :: d in p.status.storage.value.observed && d.serial == k.device &&
                       DiskRaises(d, BmcDrive(InventoryOf(p), d.serial), p.limits, k.check))
  }

  predicate LinksRaise(n: Network, e: Expectations, k: Key) {
    || (exists i :: i in n.interfaces && i.name == k.device && PortRaises(i, e, k.check))
    || (exists b :: b in n.bonds && b.name == k.device && BondRaises(b, e, k.check))
    || (&& k.check == NetDegraded
        && exists b, m :: b in n.bonds && m in b.members && MemberName(b.name, m.name) == k.device && MemberIsBad(b, m))
    || (k.check == NetDegraded && IsMissing(n, e, k.device))
  }

  // ----- and nothing else does -----

  lemma StacksRaise(p: Pass, open: Open, k: Key)
    requires k !in open
    ensures Touches(LocalReading(p, open), k) ==> StorageRaises(p, k)
    ensures Reads(p, MD) && k.check == Degraded &&
            (exists a :: a in p.status.storage.value.local.value.md.arrays && a.name == k.device && a.degraded) ==>
              Touches(LocalReading(p, open), k)
    ensures Reads(p, ZFS) &&
            (exists q :: q in p.status.storage.value.local.value.zfs.pools && q.name == k.device &&
                         PoolRaises(q, p.limits, k.check)) ==>
              Touches(LocalReading(p, open), k)
  {
    LocalTouches(p, open, k);
    hide Touches, LocalReading, PoolIsUnwell;
    if Reads(p, MD) {
      var arrays := p.status.storage.value.local.value.md.arrays;
      if a :| a in arrays && a.name == k.device && a.degraded {
        assert a == MDArray(k.device, true);
      }
    }
    if Reads(p, ZFS) {
      forall q | q in p.status.storage.value.local.value.zfs.pools
        ensures PoolKeeps(q, p.limits, open, k) <==> q.name == k.device && PoolRaises(q, p.limits, k.check)
      {
      }
    }
  }

  lemma DisksRaise(p: Pass, open: Open, k: Key)
    requires k !in open
    ensures Touches(DrivesReading(p, open), k) <==>
            && Reads(p, Drives)
            && exists d :: d in InventoryOf(p) && IsNameOf(k.device, d) && DriveRaises(d, p.limits, k.check)
    ensures Touches(SMARTReading(p, open), k) <==>
            && Reads(p, SMART)
            && exists d :: d in p.status.storage.value.observed && d.serial == k.device &&
                           DiskRaises(d, BmcDrive(InventoryOf(p), d.serial), p.limits, k.check)
  {
    hide Touches, DrivesReading, SMARTReading, BmcDrive, SaysWear, IsNameOf;
    DrivesReadingTouches(p, open, k);
    SMARTReadingTouches(p, open, k);
    forall d: ObservedDisk, bmc: Option<DriveInfo>
      ensures DiskKeeps(d, bmc, p.limits, open, k) <==> d.serial == k.device && DiskRaises(d, bmc, p.limits, k.check)
    {
    }
  }

  lemma PortIsRaised(i: Interface, e: Expectations, open: Open, k: Key)
    requires k !in open
    ensures PortKeeps(i, e, open, k) <==> i.name == k.device && PortRaises(i, e, k.check)
  {
    hide SpeedWanted;
  }

  lemma BondIsRaised(b: Bond, e: Expectations, open: Open, k: Key)
    requires k !in open
    ensures BondKeeps(b, e, open, k) <==>
            || (b.name == k.device && BondRaises(b, e, k.check))
            || (&& k.check == NetDegraded
                && exists m :: m in b.members && MemberName(b.name, m.name) == k.device && MemberIsBad(b, m))
  {
    hide BondIsBad, BondIsUnclear, MemberIsBad, MemberIsUnclear, MemberName;
  }

  lemma LinksAreRaised(n: Network, e: Expectations, open: Open, k: Key)
    requires k !in open
    ensures LinksKeep(n, e, open, k) <==> LinksRaise(n, e, k)
  {
    hide PortKeeps, BondKeeps, MemberIsBad, MemberName, IsListed, ListIsCut, PortRaises, BondRaises;
    forall i | i in n.interfaces
      ensures PortKeeps(i, e, open, k) <==> i.name == k.device && PortRaises(i, e, k.check)
    {
      PortIsRaised(i, e, open, k);
    }
    forall b | b in n.bonds
      ensures BondKeeps(b, e, open, k) <==>
              || (b.name == k.device && BondRaises(b, e, k.check))
              || (&& k.check == NetDegraded
                  && exists m :: m in b.members && MemberName(b.name, m.name) == k.device && MemberIsBad(b, m))
    {
      BondIsRaised(b, e, open, k);
    }
  }

  /** An alert that is not open is raised exactly when something the pass read says so: no
      unread scope, no figure that is missing and nothing about another device raises it. */
  lemma RaisedIff(p: Pass, open: Open, open': Open, k: Key)
    requires Next(p, open, open') && k !in open
    ensures k in open' <==>
            StorageRaises(p, k) || (Reads(p, Net) && LinksRaise(p.status.network.value, p.net, k))
  {
    FiresExactlyWhen(p, open, open', k);
    ReadingTouches(p, open, k);
    StacksRaise(p, open, k);
    DisksRaise(p, open, k);
    NetReadingTouches(p, open, k);
    if Reads(p, Net) {
      LinksAreRaised(p.status.network.value, p.net, open, k);
    }
    hide Reading, LocalReading, DrivesReading, SMARTReading, NetReading, Touches, Next, LinksRaise, PoolRaises,
        DiskRaises, DriveRaises, IsNameOf, LinksKeep, BmcDrive;
  }
}
