/** When a verdict may be False: exactly what a pass must have read, for every check. */
module HealthComplete {
  import opened Text
  import opened Traffic
  import opened Health
  import opened HealthReference
  import opened HealthAlerts
  import opened HealthPasses

  /** What keeps a verdict from being False: a scope read in part, or a device that owes a
      figure. */
  datatype Mark = Cut(scope: Scope) | SmartSilent | WearUnreported | SpeedUnreported | CapacityUnreported

  predicate Marks(part: Part, m: Mark) {
    match m
    case Cut(s) => s in part.cut
    case SmartSilent => part.silent != {}
    case WearUnreported => part.wearOwed != {}
    case SpeedUnreported => part.speedOwed != {}
    case CapacityUnreported => part.capacityOwed != {}
  }

  lemma MarksPlus(a: Part, b: Part, m: Mark)
    ensures Marks(Plus(a, b), m) <==> Marks(a, m) || Marks(b, m)
  {
  }

  lemma MarksUnion(parts: seq<Part>, m: Mark)
    ensures Marks(Union(parts), m) <==> exists i :: 0 <= i < |parts| && Marks(parts[i], m)
  {
    var u := Union(parts);
    forall i | 0 <= i < |parts| && Marks(parts[i], m)
      ensures Marks(u, m)
    {
      match m
      case Cut(_) =>
      case SmartSilent => var x :| x in parts[i].silent; assert x in u.silent;
      case WearUnreported => var x :| x in parts[i].wearOwed; assert x in u.wearOwed;
      case SpeedUnreported => var x :| x in parts[i].speedOwed; assert x in u.speedOwed;
      case CapacityUnreported => var x :| x in parts[i].capacityOwed; assert x in u.capacityOwed;
    }
    if Marks(u, m) {
      match m
      case Cut(s) => var i :| 0 <= i < |parts| && s in parts[i].cut; assert Marks(parts[i], m);
      case SmartSilent =>
        var x :| x in u.silent;
        var i :| 0 <= i < |parts| && x in parts[i].silent;
        assert Marks(parts[i], m);
      case WearUnreported =>
        var x :| x in u.wearOwed;
        var i :| 0 <= i < |parts| && x in parts[i].wearOwed;
        assert Marks(parts[i], m);
      case SpeedUnreported =>
        var x :| x in u.speedOwed;
        var i :| 0 <= i < |parts| && x in parts[i].speedOwed;
        assert Marks(parts[i], m);
      case CapacityUnreported =>
        var x :| x in u.capacityOwed;
        var i :| 0 <= i < |parts| && x in parts[i].capacityOwed;
        assert Marks(parts[i], m);
    }
  }

  lemma ListMarks(parts: seq<Part>, open: Open, scope: Scope, listed: set<string>, cut: bool, m: Mark)
    ensures Marks(Plus(Plus(Union(parts), HoldUnlisted(open, scope, listed)), CutIf(cut, scope)), m) <==>
            (exists i :: 0 <= i < |parts| && Marks(parts[i], m)) || (cut && m == Cut(scope))
  {
    hide Union, Plus;
    var held := HoldUnlisted(open, scope, listed);
    MarksPlus(Plus(Union(parts), held), CutIf(cut, scope), m);
    MarksPlus(Union(parts), held, m);
    MarksUnion(parts, m);
  }

  // ----- one device -----

  predicate PoolMarks(q: ZPool, m: Mark) {
    m == Cut(ZFS) && !PoolIsUnwell(q) && (q.vdevsOmitted > 0 || q.health == NoHealth)
  }

  lemma PoolIsMarked(q: ZPool, t: Thresholds, open: Open, m: Mark)
    ensures Marks(OfPool(q, t, open), m) <==> PoolMarks(q, m)
  {
    UnwellHasProblems(q);
    hide PoolIsUnwell, HasProblems, Plus;
    MarksPlus(Plus(PoolHealthPart(q, open), ScrubPart(q, open)), CapacityPart(q, t, open), m);
    MarksPlus(PoolHealthPart(q, open), ScrubPart(q, open), m);
    MarksPlus(CutIf(true, ZFS), Hold(open, Key(Degraded, q.name)), m);
  }

  predicate DriveMarks(d: DriveInfo, reported: bool, m: Mark) {
    m == WearUnreported && d.used.None? && !reported && d.isSSD
  }

  lemma DriveIsMarked(d: DriveInfo, reported: bool, t: Thresholds, open: Open, m: Mark)
    ensures Marks(OfDrive(d, reported, t, open), m) <==> DriveMarks(d, reported, m)
  {
  }

  /** The disk's own figure is needed and missing. */
  predicate OwesWear(d: ObservedDisk, bmc: Option<DriveInfo>) {
    && (bmc.Some? ==> bmc.value.used.None?)
    && (d.smart.None? || d.smart.value.wear.None?)
    && OwesOwnRead(d, bmc) && NeedsOwnFigure(bmc)
  }

  predicate DiskMarks(d: ObservedDisk, bmc: Option<DriveInfo>, m: Mark) {
    (m == SmartSilent && IsMute(d) && OwesOwnRead(d, bmc)) || (m == WearUnreported && OwesWear(d, bmc))
  }

  lemma DiskIsMarked(d: ObservedDisk, bmc: Option<DriveInfo>, t: Thresholds, open: Open, m: Mark)
    ensures Marks(OfDisk(d, bmc, t, open), m) <==> DiskMarks(d, bmc, m)
  {
    DiskTermsAgree(d, bmc);
    hide OwesOwnRead, NeedsOwnFigure, OwesSmart, WearOwed, Plus;
    MarksPlus(DiskHealthPart(d, bmc, open), DiskWearPart(d, bmc, t, open), m);
    var silent := if OwesSmart(d, bmc) then NOTHING.(silent := {d.serial}) else NOTHING;
    MarksPlus(Hold(open, Key(Degraded, d.serial)), silent, m);
    var owed := if OwesSmart(d, bmc) && WearOwed(bmc) then NOTHING.(wearOwed := {d.serial}) else NOTHING;
    MarksPlus(Hold(open, Key(WearHigh, d.serial)), owed, m);
  }

  predicate LoadMarks(l: Link, e: Expectations, m: Mark) {
    && l.carrying
    && match m
       case Cut(s) =>
         if l.traffic.None? then s in {NetTraffic, NetSustained}
         else
           || (s == NetTraffic && l.traffic.value.errorsPerMinute < e.errorsPerMinute &&
                l.traffic.value.historySeconds < 285)
           || (s == NetSustained && l.traffic.value.capacityMbps.Some? && l.traffic.value.sustained.None?)
       case CapacityUnreported => l.traffic.Some? && l.traffic.value.capacityMbps.None? && l.isUp
       case _ => false
  }

  lemma LoadIsMarked(l: Link, e: Expectations, open: Open, m: Mark)
    ensures Marks(OfTraffic(l.name, l.traffic, l.carrying, l.isUp, e, open), m) <==> LoadMarks(l, e, m)
  {
    hide Plus;
    var hs, he := Hold(open, Key(Saturated, l.name)), Hold(open, Key(LinkErrors, l.name));
    if l.carrying && l.traffic.Some? {
      var t := l.traffic.value;
      MarksPlus(ErrorsPart(l.name, t, e, open), SaturationPart(l.name, t, l.isUp, e, open), m);
      MarksPlus(he, CutIf(true, NetTraffic), m);
      MarksPlus(hs, if l.isUp then NOTHING.(capacityOwed := {l.name}) else NOTHING, m);
      MarksPlus(hs, CutIf(true, NetSustained), m);
    } else {
      MarksPlus(Plus(hs, he), Plus(CutIf(l.carrying, NetTraffic), CutIf(l.carrying, NetSustained)), m);
      MarksPlus(hs, he, m);
      MarksPlus(CutIf(l.carrying, NetTraffic), CutIf(l.carrying, NetSustained), m);
    }
  }

  predicate PortMarks(i: Interface, e: Expectations, m: Mark) {
    || LoadMarks(PortLink(i), e, m)
    || (i.oper == NoOperState && m in {Cut(Net), Cut(NetState)})
    || (i.name in e.links && i.oper == UnknownOper && m == Cut(NetState))
    || (i.oper == Up && i.speed.None? && m == SpeedUnreported)
  }

  lemma UnsureIsMarked(open: Open, k: Key, m: Mark)
    ensures Marks(Unsure(open, k), m) <==> m == Cut(NetState)
  {
  }

  lemma PortStateIsMarked(i: Interface, e: Expectations, open: Open, m: Mark)
    ensures Marks(LinkStatePart(i, e, open), m) <==>
            || (i.oper == NoOperState && m in {Cut(Net), Cut(NetState)})
            || (i.name in e.links && i.oper == UnknownOper && m == Cut(NetState))
    ensures Marks(SpeedPart(i, e, open), m) <==>
            || (i.oper == NoOperState && m == Cut(NetState))
            || (i.oper == Up && i.speed.None? && m == SpeedUnreported)
  {
    hide Plus, Unsure;
    UnsureIsMarked(open, Key(NetDegraded, i.name), m);
    UnsureIsMarked(open, Key(LinkSlow, i.name), m);
    MarksPlus(Unsure(open, Key(NetDegraded, i.name)), CutIf(true, Net), m);
    MarksPlus(Hold(open, Key(LinkSlow, i.name)), if i.oper == Up then NOTHING.(speedOwed := {i.name}) else NOTHING, m);
  }

  lemma PortIsMarked(i: Interface, e: Expectations, open: Open, m: Mark)
    ensures Marks(OfInterface(i, e, open), m) <==> PortMarks(i, e, m)
  {
    hide OfTraffic, LoadMarks, LinkStatePart, SpeedPart, Plus, Marks;
    var l := PortLink(i);
    MarksPlus(OfTraffic(l.name, l.traffic, l.carrying, l.isUp, e, open),
        Plus(LinkStatePart(i, e, open), SpeedPart(i, e, open)), m);
    MarksPlus(LinkStatePart(i, e, open), SpeedPart(i, e, open), m);
    LoadIsMarked(l, e, open, m);
    PortStateIsMarked(i, e, open, m);
  }

  predicate BondMarks(b: Bond, e: Expectations, m: Mark) {
    || LoadMarks(BondLink(b), e, m)
    || (BondIsUnclear(b, e) && m == Cut(NetState))
    || (b.membersOmitted > 0 && m == Cut(Net))
    || (&& m == Cut(NetState)
        && exists member :: member in b.members && !MemberIsBad(b, member) && MemberIsUnclear(b, member))
  }

  lemma MemberIsMarked(b: Bond, member: Member, open: Open, m: Mark)
    ensures Marks(OfMember(b, member, open), m) <==>
            !MemberIsBad(b, member) && MemberIsUnclear(b, member) && m == Cut(NetState)
  {
    MemberTermsAgree(b, member);
    hide MemberIsBad, MemberIsUnclear, HasTrouble, IsVague, Unsure;
    UnsureIsMarked(open, Key(NetDegraded, MemberName(b.name, member.name)), m);
  }

  lemma BondStateIsMarked(b: Bond, e: Expectations, open: Open, m: Mark)
    ensures Marks(BondStatePart(b, e, open), m) <==>
            (BondIsUnclear(b, e) && m == Cut(NetState)) || (b.membersOmitted > 0 && m == Cut(Net))
  {
    BondTermsAgree(b, e);
    hide BondIsUnclear, BondIsBad, BondIsVague, BondFails, Unsure, Plus;
    var vague := if BondIsVague(b, e) then Unsure(open, Key(NetDegraded, b.name)) else NOTHING;
    var found := if BondFails(b, e) then Found(NetDegraded, b.name, Net) else NOTHING;
    UnsureIsMarked(open, Key(NetDegraded, b.name), m);
    MarksPlus(Plus(vague, found), CutIf(b.membersOmitted > 0, Net), m);
    MarksPlus(vague, found, m);
  }

  lemma BondIsMarked(b: Bond, e: Expectations, open: Open, m: Mark)
    ensures Marks(OfBond(b, e, open), m) <==> BondMarks(b, e, m)
  {
    hide OfTraffic, LoadMarks, BondStatePart, OfMember, MemberIsBad, MemberIsUnclear, BondIsUnclear, Plus, Union, Marks;
    var l := BondLink(b);
    var load := OfTraffic(l.name, l.traffic, l.carrying, l.isUp, e, open);
    var members := seq(|b.members|, i requires 0 <= i < |b.members| => OfMember(b, b.members[i], open));
    MarksPlus(Plus(load, BondStatePart(b, e, open)), Union(members), m);
    MarksPlus(load, BondStatePart(b, e, open), m);
    LoadIsMarked(l, e, open, m);
    BondStateIsMarked(b, e, open, m);
    MarksUnion(members, m);
    forall i | 0 <= i < |members|
      ensures Marks(members[i], m) <==>
              !MemberIsBad(b, b.members[i]) && MemberIsUnclear(b, b.members[i]) && m == Cut(NetState)
    {
      MemberIsMarked(b, b.members[i], open, m);
    }
    if m == Cut(NetState) {
      if x :| x in b.members && !MemberIsBad(b, x) && MemberIsUnclear(b, x) {
        var i :| 0 <= i < |b.members| && b.members[i] == x;
        assert Marks(members[i], m);
      }
    }
  }

  // ----- one list -----

  lemma ArraysAreMarked(md: MDStatus, open: Open, m: Mark)
    ensures Marks(MDPart(md, open), m) <==> m == Cut(MD) && md.omitted > 0
  {
    hide Plus, Union, HoldUnlisted;
    var parts := seq(|md.arrays|, i requires 0 <= i < |md.arrays| => OfArray(md.arrays[i]));
    ListMarks(parts, open, MD, set a | a in md.arrays :: a.name, md.omitted > 0, m);
  }

  predicate PoolsMark(z: ZFSStatus, m: Mark) {
    (m == Cut(ZFS) && z.omitted > 0) || exists q :: q in z.pools && PoolMarks(q, m)
  }

  lemma PoolsAreMarked(z: ZFSStatus, t: Thresholds, open: Open, m: Mark)
    ensures Marks(ZFSPart(z, t, open), m) <==> PoolsMark(z, m)
  {
    hide Plus, Union, HoldUnlisted, OfPool, PoolMarks, Marks;
    var parts := seq(|z.pools|, i requires 0 <= i < |z.pools| => OfPool(z.pools[i], t, open));
    ListMarks(parts, open, ZFS, set q | q in z.pools :: q.name, z.omitted > 0, m);
    forall i | 0 <= i < |parts|
      ensures Marks(parts[i], m) <==> PoolMarks(z.pools[i], m)
    {
      PoolIsMarked(z.pools[i], t, open, m);
    }
    if q :| q in z.pools && PoolMarks(q, m) {
      var i :| 0 <= i < |z.pools| && z.pools[i] == q;
      assert Marks(parts[i], m);
    }
  }

  predicate DrivesMark(drives: seq<DriveInfo>, s: Option<Storage>, smartUnread: bool, m: Mark) {
    || (m == Cut(Drives) && |drives| >= 32)
    || exists d :: d in drives && DriveMarks(d, SaysWear(s, !smartUnread, d.serial), m)
  }

  lemma DrivesAreMarked(drives: seq<DriveInfo>, s: Option<Storage>, smartUnread: bool, t: Thresholds, open: Open,
      m: Mark)
    ensures Marks(DrivesPart(drives, s, smartUnread, t, open), m) <==> DrivesMark(drives, s, smartUnread, m)
  {
    hide Plus, Union, HoldUnlisted, OfDrive, DriveMarks, Marks, SaysWear, SmartReportsWear;
    var parts := seq(|drives|, i requires 0 <= i < |drives| =>
                       OfDrive(drives[i], SmartReportsWear(s, smartUnread, drives[i].serial), t, open));
    ListMarks(parts, open, Drives, set d | d in drives :: DeviceOf(d), |drives| >= MAX_INVENTORY_DRIVES, m);
    forall i | 0 <= i < |parts|
      ensures Marks(parts[i], m) <==> DriveMarks(drives[i], SaysWear(s, !smartUnread, drives[i].serial), m)
    {
      SaidIsReported(s, !smartUnread, drives[i].serial);
      DriveIsMarked(drives[i], SmartReportsWear(s, smartUnread, drives[i].serial), t, open, m);
    }
    if d :| d in drives && DriveMarks(d, SaysWear(s, !smartUnread, d.serial), m) {
      var i :| 0 <= i < |drives| && drives[i] == d;
      assert Marks(parts[i], m);
    }
  }

  predicate DisksMark(observed: seq<ObservedDisk>, drives: seq<DriveInfo>, m: Mark) {
    || (m == Cut(SMART) && |observed| >= 64)
    || exists d :: d in observed && DiskMarks(d, BmcDrive(drives, d.serial), m)
  }

  lemma DisksAreMarked(observed: seq<ObservedDisk>, drives: seq<DriveInfo>, t: Thresholds, open: Open, m: Mark)
    ensures Marks(SMARTPart(observed, drives, t, open), m) <==> DisksMark(observed, drives, m)
  {
    hide Plus, Union, HoldUnlisted, OfDisk, DiskMarks, Marks, BmcDrive;
    var parts := seq(|observed|, i requires 0 <= i < |observed| =>
                       OfDisk(observed[i], BmcDrive(drives, observed[i].serial), t, open));
    ListMarks(parts, open, SMART, set d | d in observed :: d.serial, |observed| >= 64, m);
    forall i | 0 <= i < |parts|
      ensures Marks(parts[i], m) <==> DiskMarks(observed[i], BmcDrive(drives, observed[i].serial), m)
    {
      DiskIsMarked(observed[i], BmcDrive(drives, observed[i].serial), t, open, m);
    }
    if d :| d in observed && DiskMarks(d, BmcDrive(drives, d.serial), m) {
      var i :| 0 <= i < |observed| && observed[i] == d;
      assert Marks(parts[i], m);
    }
  }

  /** Disks an agent no longer reports on owe only their wear. */
  predicate UnreadDisksMark(observed: seq<ObservedDisk>, drives: seq<DriveInfo>, m: Mark) {
    m == WearUnreported && exists d :: d in observed && NotSpinning(d) && NeedsOwnFigure(BmcDrive(drives, d.serial))
  }

  lemma UnreadDisksAreMarked(observed: seq<ObservedDisk>, drives: seq<DriveInfo>, m: Mark)
    ensures Marks(UnreadSMARTPart(observed, drives), m) <==> UnreadDisksMark(observed, drives, m)
  {
    hide Union, BmcDrive, NeedsOwnFigure, NotSpinning, WearOwed, MaybeSolidState;
    forall d, bmc
      ensures MaybeSolidState(d) <==> NotSpinning(d)
      ensures WearOwed(bmc) <==> NeedsOwnFigure(bmc)
    {
      DiskTermsAgree(d, bmc);
    }
    var parts := seq(|observed|, i requires 0 <= i < |observed| =>
        OfUnreadDisk(observed[i], BmcDrive(drives, observed[i].serial)));
    MarksUnion(parts, m);
    if d :| d in observed && NotSpinning(d) && NeedsOwnFigure(BmcDrive(drives, d.serial)) {
      var i :| 0 <= i < |observed| && observed[i] == d;
      assert m == WearUnreported ==> Marks(parts[i], m);
    }
  }

  predicate LinksMark(n: Network, e: Expectations, m: Mark) {
    || (exists i :: i in n.interfaces && PortMarks(i, e, m))
    || (exists b :: b in n.bonds && BondMarks(b, e, m))
    || (m == Cut(Net) && ListIsCut(n))
  }

  lemma PortsAreMarked(n: Network, e: Expectations, open: Open, parts: seq<Part>, m: Mark)
    requires |parts| == |n.interfaces|
    requires forall i :: 0 <= i < |parts| ==> parts[i] == OfInterface(n.interfaces[i], e, open)
    ensures Marks(Union(parts), m) <==> exists i :: i in n.interfaces && PortMarks(i, e, m)
  {
    hide Union, Marks, OfInterface, PortMarks;
    MarksUnion(parts, m);
    forall i | 0 <= i < |parts|
      ensures Marks(parts[i], m) <==> PortMarks(n.interfaces[i], e, m)
    {
      PortIsMarked(n.interfaces[i], e, open, m);
    }
    if x :| x in n.interfaces && PortMarks(x, e, m) {
      var i :| 0 <= i < |n.interfaces| && n.interfaces[i] == x;
      assert Marks(parts[i], m);
    }
  }

  lemma BondsAreMarked(n: Network, e: Expectations, open: Open, parts: seq<Part>, m: Mark)
    requires |parts| == |n.bonds|
    requires forall i :: 0 <= i < |parts| ==> parts[i] == OfBond(n.bonds[i], e, open)
    ensures Marks(Union(parts), m) <==> exists b :: b in n.bonds && BondMarks(b, e, m)
  {
    hide Union, Marks, OfBond, BondMarks;
    MarksUnion(parts, m);
    forall i | 0 <= i < |parts|
      ensures Marks(parts[i], m) <==> BondMarks(n.bonds[i], e, m)
    {
      BondIsMarked(n.bonds[i], e, open, m);
    }
    if x :| x in n.bonds && BondMarks(x, e, m) {
      var i :| 0 <= i < |n.bonds| && n.bonds[i] == x;
      assert Marks(parts[i], m);
    }
  }

  lemma LinksAreMarked(n: Network, e: Expectations, open: Open, m: Mark)
    ensures Marks(NetPart(n, e, open), m) <==> LinksMark(n, e, m)
  {
    ListTermsAgree(n);
    hide Union, OfInterface, OfBond, PortMarks, BondMarks, ListedLinks, Plus, ListIsCut, NetListCut;
    var ports := seq(|n.interfaces|, i requires 0 <= i < |n.interfaces| => OfInterface(n.interfaces[i], e, open));
    var bonds := seq(|n.bonds|, i requires 0 <= i < |n.bonds| => OfBond(n.bonds[i], e, open));
    PortsAreMarked(n, e, open, ports, m);
    BondsAreMarked(n, e, open, bonds, m);
    var expected, unlisted := ExpectedPart(n, e, open), HoldUnlisted(open, Net, ListedLinks(n));
    var cut := CutIf(NetListCut(n), Net);
    MarksPlus(Plus(Union(ports), Union(bonds)), Plus(Plus(expected, unlisted), cut), m);
    MarksPlus(Union(ports), Union(bonds), m);
    MarksPlus(Plus(expected, unlisted), cut, m);
    MarksPlus(expected, unlisted, m);
  }

  // ----- the pass -----

  predicate LocalMarks(p: Pass, m: Mark) {
    || (Reads(p, MD) && m == Cut(MD) && p.status.storage.value.local.value.md.omitted > 0)
    || (Reads(p, ZFS) && PoolsMark(p.status.storage.value.local.value.zfs, m))
  }

  predicate SMARTMarks(p: Pass, m: Mark) {
    && p.status.storage.Some?
    && if !Reads(p, SMART) then UnreadDisksMark(p.status.storage.value.observed, InventoryOf(p), m)
       else DisksMark(p.status.storage.value.observed, InventoryOf(p), m)
  }

  /** What stands in the way of False in a pass, whatever is open. */
  predicate IsMarked(p: Pass, m: Mark) {
    || LocalMarks(p, m)
    || (Reads(p, Drives) && DrivesMark(InventoryOf(p), p.status.storage, !HearsNode(p), m))
    || SMARTMarks(p, m)
    || (Reads(p, Net) && LinksMark(p.status.network.value, p.net, m))
  }

  lemma LocalIsMarked(p: Pass, open: Open, m: Mark)
    ensures Marks(LocalReading(p, open), m) <==> LocalMarks(p, m)
  {
    hide Plus, MDPart, ZFSPart, PoolsMark;
    if !!HearsNode(p) {
      var l := p.status.storage.value.local.value;
      ArraysAreMarked(l.md, open, m);
      PoolsAreMarked(l.zfs, p.limits, open, m);
      MarksPlus(if StackUnread(l.md.state) then NOTHING else MDPart(l.md, open),
                if StackUnread(l.zfs.state) then NOTHING else ZFSPart(l.zfs, p.limits, open), m);
    }
  }

  lemma DrivesReadingIsMarked(p: Pass, open: Open, m: Mark)
    ensures Marks(DrivesReading(p, open), m) <==>
            Reads(p, Drives) && DrivesMark(InventoryOf(p), p.status.storage, !HearsNode(p), m)
  {
    hide DrivesPart, DrivesMark;
    DrivesAreMarked(InventoryOf(p), p.status.storage, !HearsNode(p), p.limits, open, m);
  }

  lemma SMARTReadingIsMarked(p: Pass, open: Open, m: Mark)
    ensures Marks(SMARTReading(p, open), m) <==> SMARTMarks(p, m)
  {
    hide SMARTPart, UnreadSMARTPart, DisksMark, UnreadDisksMark;
    if p.status.storage.Some? {
      DisksAreMarked(p.status.storage.value.observed, InventoryOf(p), p.limits, open, m);
      UnreadDisksAreMarked(p.status.storage.value.observed, InventoryOf(p), m);
    }
  }

  lemma NetReadingIsMarked(p: Pass, open: Open, m: Mark)
    ensures Marks(NetReading(p, open), m) <==> Reads(p, Net) && LinksMark(p.status.network.value, p.net, m)
  {
    hide NetPart, LinksMark;
    if !NetUnread(p) { LinksAreMarked(p.status.network.value, p.net, open, m); }
  }

  lemma ReadingIsMarked(p: Pass, open: Open, m: Mark)
    ensures Marks(Reading(p, open), m) <==> IsMarked(p, m)
  {
    hide LocalReading, DrivesReading, SMARTReading, NetReading, Marks, Plus, LocalMarks, DrivesMark, SMARTMarks,
        LinksMark;
    MarksPlus(Plus(LocalReading(p, open), DrivesReading(p, open)), Plus(SMARTReading(p, open), NetReading(p, open)), m);
    MarksPlus(LocalReading(p, open), DrivesReading(p, open), m);
    MarksPlus(SMARTReading(p, open), NetReading(p, open), m);
    LocalIsMarked(p, open, m);
    DrivesReadingIsMarked(p, open, m);
    SMARTReadingIsMarked(p, open, m);
    NetReadingIsMarked(p, open, m);
  }

  // ----- the verdict -----

  /** What the check must not find marked. */
  predicate Concerns(c: Check, m: Mark) {
    || (m.Cut? && m.scope in Needs(c))
    || (c == Degraded && m == SmartSilent)
    || (c == WearHigh && m in {Cut(SMART), WearUnreported})
    || (c == LinkSlow && m == SpeedUnreported)
    || (c == Saturated && m == CapacityUnreported)
  }

  /** The pass read all the check is about: every scope of it, nothing cut, nothing owed. */
  ghost predicate IsComplete(p: Pass, c: Check) {
    (forall s :: s in Needs(c) ==> Reads(p, s)) && forall m :: Concerns(c, m) ==> !IsMarked(p, m)
  }

  lemma VerdictByMarks(p: Pass, open: Open, c: Check)
    ensures VerdictOf(p, open, c) == True || (VerdictOf(p, open, c) == False <==>
            (forall s :: s in Needs(c) ==> Reads(p, s)) && forall m :: Concerns(c, m) ==> !Marks(Reading(p, open), m))
  {
    ReadOrUnread(p);
    NeedsAreTheChecks(c);
    hide Reading, Reads, Unread, Keeps, Needs, CheckScopes;
    var r := Reading(p, open);
    if VerdictOf(p, open, c) != True {
      if (forall s :: s in Needs(c) ==> Reads(p, s)) && forall m :: Concerns(c, m) ==> !Marks(r, m) {
        forall s | s in Needs(c)
          ensures Reads(p, s) && s !in r.cut
        {
          assert Concerns(c, Cut(s));
          assert !Marks(r, Cut(s));
        }
        assert c == Degraded ==> !Marks(r, SmartSilent);
        assert c == WearHigh ==> !Marks(r, Cut(SMART)) && !Marks(r, WearUnreported);
        assert c == LinkSlow ==> !Marks(r, SpeedUnreported);
        assert c == Saturated ==> !Marks(r, CapacityUnreported);
        assert VerdictOf(p, open, c) == False;
      }
      if VerdictOf(p, open, c) == False {
        forall s | s in Needs(c) ensures Reads(p, s) && s !in r.cut { }
      }
    }
  }
}
