/** One whole pass of the machine health assessment: what an unread scope may do, and
    exactly when an open alert leaves. */
module HealthPasses {
  import opened Text
  import opened Traffic
  import opened Health
  import opened HealthReference
  import opened HealthAlerts

  // ----- where findings come from -----

  /** The scopes an alert of the check may rest on. */
  function Home(c: Check): set<Scope> {
    match c
    case Degraded => {MD, ZFS, SMART}
    case ScrubErrors | CapacityHigh => {ZFS}
    case WearHigh => {Drives, SMART}
    case NetDegraded => {Net, NetExpected}
    case LinkSlow | Saturated | LinkErrors => {Net}
  }

  /** The part holds only open alerts and finds only under the given scopes. */
  ghost predicate Sound(part: Part, open: Open, scopes: set<Scope>) {
    && part.held <= open.Keys
    && forall f :: f in part.findings ==> f.scope in scopes && f.scope in Home(f.key.check)
  }

  lemma SoundPlus(a: Part, b: Part, open: Open, s: set<Scope>, t: set<Scope>)
    requires Sound(a, open, s) && Sound(b, open, t)
    ensures Sound(Plus(a, b), open, s + t)
  {
  }

  lemma SoundBoth(a: Part, b: Part, open: Open, s: set<Scope>)
    requires Sound(a, open, s) && Sound(b, open, s)
    ensures Sound(Plus(a, b), open, s)
  {
  }

  lemma SoundUnion(parts: seq<Part>, open: Open, s: set<Scope>)
    requires forall i :: 0 <= i < |parts| ==> Sound(parts[i], open, s)
    ensures Sound(Union(parts), open, s)
  {
  }

  /** A list of devices with what it does not list and its cut. */
  lemma SoundList(parts: seq<Part>, open: Open, scope: Scope, listed: set<string>, cut: bool)
    requires forall i :: 0 <= i < |parts| ==> Sound(parts[i], open, {scope})
    ensures Sound(Plus(Plus(Union(parts), HoldUnlisted(open, scope, listed)), CutIf(cut, scope)), open, {scope})
  {
    hide Union;
    SoundUnion(parts, open, {scope});
  }

  lemma LocalIsSound(p: Pass, open: Open)
    ensures Sound(LocalReading(p, open), open, {MD, ZFS} - Unread(p))
  {
    hide Sound, Plus, Union, HoldUnlisted, OfArray, OfPool;
    if !LocalUnread(p.status.storage, p.now) {
      var l := p.status.storage.value.local.value;
      MDIsSound(l.md, open);
      ZFSIsSound(l.zfs, p.limits, open);
      NothingIsSound(open, {});
      if StackUnread(l.md.state) && StackUnread(l.zfs.state) {
        SoundPlus(NOTHING, NOTHING, open, {}, {});
        assert {} + {} == {MD, ZFS} - Unread(p);
      } else if StackUnread(l.md.state) {
        SoundPlus(NOTHING, ZFSPart(l.zfs, p.limits, open), open, {}, {ZFS});
        assert {} + {ZFS} == {MD, ZFS} - Unread(p);
      } else if StackUnread(l.zfs.state) {
        SoundPlus(MDPart(l.md, open), NOTHING, open, {MD}, {});
        assert {MD} + {} == {MD, ZFS} - Unread(p);
      } else {
        SoundPlus(MDPart(l.md, open), ZFSPart(l.zfs, p.limits, open), open, {MD}, {ZFS});
        assert {MD} + {ZFS} == {MD, ZFS} - Unread(p);
      }
    } else {
      NothingIsSound(open, {MD, ZFS} - Unread(p));
    }
  }

  lemma NothingIsSound(open: Open, s: set<Scope>)
    ensures Sound(NOTHING, open, s)
  {
  }

  lemma MDIsSound(md: MDStatus, open: Open)
    ensures Sound(MDPart(md, open), open, {MD})
  {
    hide Plus, Union, HoldUnlisted;
    var parts := seq(|md.arrays|, i requires 0 <= i < |md.arrays| => OfArray(md.arrays[i]));
    SoundList(parts, open, MD, set a | a in md.arrays :: a.name, md.omitted > 0);
  }

  lemma PoolPartsAreSound(q: ZPool, t: Thresholds, open: Open)
    ensures Sound(PoolHealthPart(q, open), open, {ZFS})
    ensures Sound(ScrubPart(q, open), open, {ZFS})
    ensures Sound(CapacityPart(q, t, open), open, {ZFS})
  {
  }

  lemma PoolIsSound(q: ZPool, t: Thresholds, open: Open)
    ensures Sound(OfPool(q, t, open), open, {ZFS})
  {
    hide PoolHealthPart, ScrubPart, CapacityPart, Sound, Plus;
    PoolPartsAreSound(q, t, open);
    SoundBoth(PoolHealthPart(q, open), ScrubPart(q, open), open, {ZFS});
    SoundBoth(Plus(PoolHealthPart(q, open), ScrubPart(q, open)), CapacityPart(q, t, open), open, {ZFS});
  }

  lemma ZFSIsSound(z: ZFSStatus, t: Thresholds, open: Open)
    ensures Sound(ZFSPart(z, t, open), open, {ZFS})
  {
    hide Plus, Union, HoldUnlisted, OfPool, Sound;
    var parts := seq(|z.pools|, i requires 0 <= i < |z.pools| => OfPool(z.pools[i], t, open));
    forall i | 0 <= i < |parts| ensures Sound(parts[i], open, {ZFS}) { PoolIsSound(z.pools[i], t, open); }
    SoundList(parts, open, ZFS, set q | q in z.pools :: q.name, z.omitted > 0);
  }

  lemma DriveIsSound(d: DriveInfo, reported: bool, t: Thresholds, open: Open)
    ensures Sound(OfDrive(d, reported, t, open), open, {Drives})
  {
  }

  lemma DrivesAreSound(p: Pass, open: Open)
    ensures Sound(DrivesReading(p, open), open, {Drives} - Unread(p))
  {
    hide Plus, Union, HoldUnlisted, OfDrive, Sound, SmartReportsWear;
    if DrivesUnread(p) {
      NothingIsSound(open, {Drives} - Unread(p));
    } else {
      var drives, s, smartUnread := DriveList(p), p.status.storage, LocalUnread(p.status.storage, p.now);
      var parts := seq(|drives|, i requires 0 <= i < |drives| =>
                         OfDrive(drives[i], SmartReportsWear(s, smartUnread, drives[i].serial), p.limits, open));
      forall i | 0 <= i < |parts| ensures Sound(parts[i], open, {Drives}) {
        DriveIsSound(drives[i], SmartReportsWear(s, smartUnread, drives[i].serial), p.limits, open);
      }
      SoundList(parts, open, Drives, set d | d in drives :: DeviceOf(d), |drives| >= MAX_INVENTORY_DRIVES);
      assert {Drives} == {Drives} - Unread(p);
    }
  }

  lemma DiskIsSound(d: ObservedDisk, bmc: Option<DriveInfo>, t: Thresholds, open: Open)
    ensures Sound(OfDisk(d, bmc, t, open), open, {SMART})
  {
  }

  lemma UnreadDisksAreSound(observed: seq<ObservedDisk>, drives: seq<DriveInfo>, open: Open, s: set<Scope>)
    ensures Sound(UnreadSMARTPart(observed, drives), open, s)
  {
    hide BmcDrive;
    var parts := seq(|observed|, i requires 0 <= i < |observed| =>
        OfUnreadDisk(observed[i], BmcDrive(drives, observed[i].serial)));
    SoundUnion(parts, open, s);
  }

  lemma SMARTIsSound(p: Pass, open: Open)
    ensures Sound(SMARTReading(p, open), open, {SMART} - Unread(p))
  {
    hide Plus, Union, HoldUnlisted, OfDisk, Sound, BmcDrive;
    var s := p.status.storage;
    if s.None? {
      NothingIsSound(open, {SMART} - Unread(p));
    } else if LocalUnread(s, p.now) {
      UnreadDisksAreSound(s.value.observed, DriveList(p), open, {SMART} - Unread(p));
    } else {
      var observed, drives := s.value.observed, DriveList(p);
      var parts := seq(|observed|, i requires 0 <= i < |observed| =>
                         OfDisk(observed[i], BmcDrive(drives, observed[i].serial), p.limits, open));
      forall i | 0 <= i < |parts| ensures Sound(parts[i], open, {SMART}) {
        DiskIsSound(observed[i], BmcDrive(drives, observed[i].serial), p.limits, open);
      }
      SoundList(parts, open, SMART, set d | d in observed :: d.serial, |observed| >= MAX_OBSERVED_DISKS);
      assert {SMART} == {SMART} - Unread(p);
    }
  }

  lemma LoadIsSound(name: string, t: LinkTraffic, isUp: bool, e: Expectations, open: Open)
    ensures Sound(ErrorsPart(name, t, e, open), open, {Net})
    ensures Sound(SaturationPart(name, t, isUp, e, open), open, {Net})
  {
  }

  lemma TrafficIsSound(l: Link, e: Expectations, open: Open)
    ensures Sound(OfTraffic(l.name, l.traffic, l.carrying, l.isUp, e, open), open, {Net})
  {
    hide ErrorsPart, SaturationPart;
    if l.carrying && l.traffic.Some? {
      LoadIsSound(l.name, l.traffic.value, l.isUp, e, open);
      SoundBoth(ErrorsPart(l.name, l.traffic.value, e, open), SaturationPart(l.name, l.traffic.value, l.isUp, e, open),
                open, {Net});
    }
  }

  lemma PortStateIsSound(i: Interface, e: Expectations, open: Open)
    ensures Sound(LinkStatePart(i, e, open), open, {Net})
    ensures Sound(SpeedPart(i, e, open), open, {Net})
  {
  }

  lemma PortIsSound(i: Interface, e: Expectations, open: Open)
    ensures Sound(OfInterface(i, e, open), open, {Net})
  {
    hide OfTraffic, Sound, Plus, LinkStatePart, SpeedPart;
    var l := PortLink(i);
    TrafficIsSound(l, e, open);
    PortStateIsSound(i, e, open);
    SoundBoth(LinkStatePart(i, e, open), SpeedPart(i, e, open), open, {Net});
    SoundBoth(OfTraffic(l.name, l.traffic, l.carrying, l.isUp, e, open),
              Plus(LinkStatePart(i, e, open), SpeedPart(i, e, open)), open, {Net});
  }

  lemma BondStateIsSound(b: Bond, e: Expectations, open: Open)
    ensures Sound(BondStatePart(b, e, open), open, {Net})
  {
  }

  lemma MemberIsSound(b: Bond, m: Member, open: Open)
    ensures Sound(OfMember(b, m, open), open, {Net})
  {
  }

  lemma BondIsSound(b: Bond, e: Expectations, open: Open)
    ensures Sound(OfBond(b, e, open), open, {Net})
  {
    hide OfTraffic, Union, Sound, Plus, BondStatePart, OfMember;
    var l := BondLink(b);
    TrafficIsSound(l, e, open);
    BondStateIsSound(b, e, open);
    var members := seq(|b.members|, i requires 0 <= i < |b.members| => OfMember(b, b.members[i], open));
    forall i | 0 <= i < |members| ensures Sound(members[i], open, {Net}) { MemberIsSound(b, b.members[i], open); }
    SoundUnion(members, open, {Net});
    var load := OfTraffic(l.name, l.traffic, l.carrying, l.isUp, e, open);
    SoundBoth(load, BondStatePart(b, e, open), open, {Net});
    SoundBoth(Plus(load, BondStatePart(b, e, open)), Union(members), open, {Net});
  }

  lemma ExpectedIsSound(n: Network, e: Expectations, open: Open)
    ensures Sound(Plus(Plus(ExpectedPart(n, e, open), HoldUnlisted(open, Net, ListedLinks(n))),
            CutIf(NetListCut(n), Net)),
                  open, {NetExpected})
  {
    hide ListedLinks;
  }

  lemma NetPartIsSound(n: Network, e: Expectations, open: Open)
    ensures Sound(NetPart(n, e, open), open, {Net, NetExpected})
  {
    hide Union, OfInterface, OfBond, ListedLinks, Sound, Plus, ExpectedPart, HoldUnlisted, CutIf;
    var ports := seq(|n.interfaces|, i requires 0 <= i < |n.interfaces| => OfInterface(n.interfaces[i], e, open));
    var bonds := seq(|n.bonds|, i requires 0 <= i < |n.bonds| => OfBond(n.bonds[i], e, open));
    forall i | 0 <= i < |ports| ensures Sound(ports[i], open, {Net}) { PortIsSound(n.interfaces[i], e, open); }
    forall i | 0 <= i < |bonds| ensures Sound(bonds[i], open, {Net}) { BondIsSound(n.bonds[i], e, open); }
    SoundUnion(ports, open, {Net});
    SoundUnion(bonds, open, {Net});
    SoundBoth(Union(ports), Union(bonds), open, {Net});
    ExpectedIsSound(n, e, open);
    SoundPlus(Plus(Union(ports), Union(bonds)),
              Plus(Plus(ExpectedPart(n, e, open), HoldUnlisted(open, Net, ListedLinks(n))), CutIf(NetListCut(n), Net)),
              open, {Net}, {NetExpected});
    assert {Net} + {NetExpected} == {Net, NetExpected};
  }

  lemma NetIsSound(p: Pass, open: Open)
    ensures Sound(NetReading(p, open), open, {Net, NetExpected} - Unread(p))
  {
    hide NetPart;
    if !NetUnread(p) {
      NetPartIsSound(p.status.network.value, p.net, open);
      assert {Net, NetExpected} == {Net, NetExpected} - Unread(p);
    }
  }

  lemma ReadingIsSound(p: Pass, open: Open)
    ensures Sound(Reading(p, open), open, {MD, ZFS, Drives, SMART, Net, NetExpected} - Unread(p))
  {
    hide LocalReading, DrivesReading, SMARTReading, NetReading, Unread;
    LocalIsSound(p, open);
    DrivesAreSound(p, open);
    SMARTIsSound(p, open);
    NetIsSound(p, open);
  }

  // ----- one pass -----

  /** An alert fires after the pass exactly when its scope went unread while it was open,
      or the reading finds or holds it. */
  lemma FiresExactlyWhen(p: Pass, open: Open, open': Open, k: Key)
    requires Next(p, open, open')
    ensures k in open' <==> (k in open && !Reads(p, open[k])) || Touches(Reading(p, open), k)
  {
    ReadOrUnread(p);
    hide Reading, Reads, Unread;
    ReadingIsSound(p, open);
    assert IsFound(p, open, k) <==> exists f :: f in Reading(p, open).findings && f.key == k;
  }

  /** The alerts a pass leaves open: the keys of its findings, and the open keys it keeps. */
  ghost function After(p: Pass, open: Open): Open {
    map k | k in (set f | f in Reading(p, open).findings :: f.key) + (set k | k in open && Keeps(p, open, k)) ::
      if IsFound(p, open, k) then (var f :| f in Reading(p, open).findings && f.key == k; f.scope) else open[k]
  }

  /** Every pass leads somewhere from every set of open alerts, and from there only to the
      same alerts: what may differ is which of its findings' scopes an alert goes by. */
  lemma AfterIsNext(p: Pass, open: Open, open': Open)
    ensures Next(p, open, After(p, open))
    ensures Next(p, open, open') ==> open'.Keys == After(p, open).Keys
  {
    hide Reading, Keeps;
    var r := After(p, open);
    forall k
      ensures k in r <==> IsFound(p, open, k) || (k in open && Keeps(p, open, k))
    {
      if IsFound(p, open, k) {
        var f :| f in Reading(p, open).findings && f.key == k;
      }
    }
    forall k | k in r && IsFound(p, open, k)
      ensures Finding(k, r[k]) in Reading(p, open).findings
    {
      var f :| f in Reading(p, open).findings && f.key == k && f.scope == r[k];
      assert f == Finding(k, r[k]);
    }
  }

  lemma ReadingTouches(p: Pass, open: Open, k: Key)
    ensures Touches(Reading(p, open), k) <==>
            || Touches(LocalReading(p, open), k) || Touches(DrivesReading(p, open), k)
            || Touches(SMARTReading(p, open), k) || Touches(NetReading(p, open), k)
  {
    hide LocalReading, DrivesReading, SMARTReading, NetReading, Touches, Plus;
    TouchesPlus(Plus(LocalReading(p, open), DrivesReading(p, open)), Plus(SMARTReading(p, open), NetReading(p, open)),
        k);
    TouchesPlus(LocalReading(p, open), DrivesReading(p, open), k);
    TouchesPlus(SMARTReading(p, open), NetReading(p, open), k);
  }

  lemma LocalTouches(p: Pass, open: Open, k: Key)
    ensures Touches(LocalReading(p, open), k) <==>
            || (Reads(p, MD) && MDKeeps(p.status.storage.value.local.value.md, open, k))
            || (Reads(p, ZFS) && ZFSKeeps(p.status.storage.value.local.value.zfs, p.limits, open, k))
  {
    hide Plus, MDPart, ZFSPart, MDKeeps, ZFSKeeps;
    if !!HearsNode(p) {
      var l := p.status.storage.value.local.value;
      MDTouches(l.md, open, k);
      ZFSTouches(l.zfs, p.limits, open, k);
      TouchesPlus(if StackUnread(l.md.state) then NOTHING else MDPart(l.md, open),
                  if StackUnread(l.zfs.state) then NOTHING else ZFSPart(l.zfs, p.limits, open), k);
    }
  }

  lemma DrivesReadingTouches(p: Pass, open: Open, k: Key)
    ensures Touches(DrivesReading(p, open), k) <==>
            Reads(p, Drives) &&
            DrivesKeep(InventoryOf(p), p.status.storage, !HearsNode(p), p.limits, open, k)
  {
    hide DrivesPart, DrivesKeep;
    DrivesTouch(InventoryOf(p), p.status.storage, !HearsNode(p), p.limits, open, k);
  }

  lemma SMARTReadingTouches(p: Pass, open: Open, k: Key)
    ensures Touches(SMARTReading(p, open), k) <==>
            Reads(p, SMART) && SMARTKeeps(p.status.storage.value.observed, InventoryOf(p), p.limits, open, k)
  {
    hide SMARTPart, SMARTKeeps, UnreadSMARTPart;
    var s := p.status.storage;
    if s.Some? {
      SMARTTouches(s.value.observed, InventoryOf(p), p.limits, open, k);
      UnreadDisksTouchNothing(s.value.observed, InventoryOf(p), k);
    }
  }

  /** An unread scope yields no finding and loses no open alert. */
  lemma UnreadScopeIsInert(p: Pass, open: Open, open': Open, s: Scope)
    requires Next(p, open, open') && !Reads(p, s)
    ensures forall f :: f in Reading(p, open).findings ==> f.scope != s
    ensures forall k :: k in open && open[k] == s ==> k in open'
  {
    ReadOrUnread(p);
    hide Reading, Reads, Unread;
    ReadingIsSound(p, open);
  }

  /** A read of the scope lists the device. */
  predicate Lists(p: Pass, s: Scope, device: string)
    requires s in {MD, ZFS, Drives, SMART, Net} && Reads(p, s)
  {
    match s
    case MD => exists a :: a in p.status.storage.value.local.value.md.arrays && a.name == device
    case ZFS => exists q :: q in p.status.storage.value.local.value.zfs.pools && q.name == device
    case Drives => exists d :: d in InventoryOf(p) && IsNameOf(device, d)
    case SMART => exists d :: d in p.status.storage.value.observed && d.serial == device
    case Net => IsListed(p.status.network.value, device)
    case _ => false
  }

  /** An open alert leaves only in a read that lists its device. */
  lemma LeavesOnlyIfListed(p: Pass, open: Open, open': Open, k: Key)
    requires Next(p, open, open')
    requires k in open && open[k] in {MD, ZFS, Drives, SMART, Net} && k !in open'
    ensures Reads(p, open[k]) && Lists(p, open[k], k.device)
  {
    hide Reading, LocalReading, DrivesReading, SMARTReading, NetPart, Touches, Reads, IsListed;
    FiresExactlyWhen(p, open, open', k);
    ReadingTouches(p, open, k);
    match open[k] {
      case MD => LocalTouches(p, open, k);
      case ZFS => LocalTouches(p, open, k);
      case Drives => DrivesReadingTouches(p, open, k);
      case SMART => SMARTReadingTouches(p, open, k);
      case Net => NetLeavesOnlyIfListed(p, open, k);
    }
  }

  lemma NetLeavesOnlyIfListed(p: Pass, open: Open, k: Key)
    requires k in open && open[k] == Net && Reads(p, Net) && !Touches(NetReading(p, open), k)
    ensures IsListed(p.status.network.value, k.device)
  {
    hide NetPart, IsListed;
    if !IsListed(p.status.network.value, k.device) {
      UnlistedLinkStays(p.status.network.value, p.net, open, k);
    }
  }

  // ----- when an alert leaves -----

  /** What a pool must say for its open alert to leave. */
  predicate PoolClears(q: ZPool, t: Thresholds, c: Check) {
    match c
    case Degraded =>
      q.health == Online && q.vdevsOmitted <= 0 && forall v :: v in q.vdevs ==> VdevIsWell(v)
    case ScrubErrors => if q.scrubErrors.Some? then q.scrubErrors.value <= 0 else q.neverScanned
    case CapacityHigh => q.capacity.Some? && q.capacity.value < t.capacity - 2
    case _ => false
  }

  lemma PoolClearsIsNotKept(q: ZPool, t: Thresholds, open: Open, k: Key)
    requires k in open && k.device == q.name && k.check in {Degraded, ScrubErrors, CapacityHigh}
    ensures PoolClears(q, t, k.check) <==> !PoolKeeps(q, t, open, k)
  {
    if k.check == Degraded {
      assert PoolIsUnwell(q) <==> q.health == OtherHealth || exists v :: v in q.vdevs && !VdevIsWell(v) by {
        if v :| v in q.vdevs && !VdevIsWell(v) {
          var i :| 0 <= i < |q.vdevs| && q.vdevs[i] == v;
        }
      }
    }
  }

  /** The pass read the pools, lists one of that name, and every such pool clears. */
  predicate PoolsClear(p: Pass, k: Key) {
    && Reads(p, ZFS)
    && var pools := p.status.storage.value.local.value.zfs.pools;
       && (exists q :: q in pools && q.name == k.device)
       && (forall q :: q in pools && q.name == k.device ==> PoolClears(q, p.limits, k.check))
  }

  lemma ZFSKeepsIffNotClear(p: Pass, open: Open, k: Key)
    requires Reads(p, ZFS) && k in open && open[k] == ZFS && k.check in {Degraded, ScrubErrors, CapacityHigh}
    ensures ZFSKeeps(p.status.storage.value.local.value.zfs, p.limits, open, k) <==> !PoolsClear(p, k)
  {
    hide PoolKeeps, PoolClears;
    var pools := p.status.storage.value.local.value.zfs.pools;
    forall q | q in pools && q.name == k.device
      ensures PoolClears(q, p.limits, k.check) <==> !PoolKeeps(q, p.limits, open, k)
    {
      PoolClearsIsNotKept(q, p.limits, open, k);
    }
    forall q | q in pools && PoolKeeps(q, p.limits, open, k)
      ensures q.name == k.device
    {
      PoolKeepsItsOwn(q, p.limits, open, k);
    }
  }

  lemma PoolKeepsItsOwn(q: ZPool, t: Thresholds, open: Open, k: Key)
    requires PoolKeeps(q, t, open, k)
    ensures k.device == q.name
  {
  }

  /** A scrub or capacity alert leaves exactly on its pool's own positive evidence. */
  lemma PoolAlertLeavesIff(p: Pass, open: Open, open': Open, k: Key)
    requires Next(p, open, open')
    requires k in open && open[k] == ZFS && k.check in {ScrubErrors, CapacityHigh}
    ensures k !in open' <==> PoolsClear(p, k)
  {
    hide Reading, LocalReading, DrivesReading, SMARTReading, NetReading, Touches, Reads, ZFSKeeps, PoolsClear, Next;
    FiresExactlyWhen(p, open, open', k);
    ReadingTouches(p, open, k);
    LocalTouches(p, open, k);
    OtherListsKeepNothing(p, open, k);
    if Reads(p, ZFS) { ZFSKeepsIffNotClear(p, open, k); } else { UnreadPoolsAreNotClear(p, k); }
  }

  lemma UnreadPoolsAreNotClear(p: Pass, k: Key)
    requires !Reads(p, ZFS)
    ensures !PoolsClear(p, k)
  {
  }

  /** Pool checks other than `StorageDegraded` are no other list's business. */
  lemma OtherListsKeepNothing(p: Pass, open: Open, k: Key)
    requires k.check in {ScrubErrors, CapacityHigh} && (k in open ==> open[k] == ZFS)
    ensures !Touches(DrivesReading(p, open), k) && !Touches(SMARTReading(p, open), k) &&
            !Touches(NetReading(p, open), k)
    ensures Reads(p, MD) ==> !MDKeeps(p.status.storage.value.local.value.md, open, k)
  {
    hide Touches, DrivesReading, SMARTReading, NetPart, IsListed, BmcDrive, SaysWear;
    DrivesReadingTouches(p, open, k);
    SMARTReadingTouches(p, open, k);
    NetKeepsNoStorage(p, open, k);
  }

  predicate IsStorageCheck(c: Check) {
    c in {Degraded, ScrubErrors, CapacityHigh, WearHigh}
  }

  /** The links have nothing to do with a storage check. */
  lemma NetKeepsNoStorage(p: Pass, open: Open, k: Key)
    requires IsStorageCheck(k.check) && (k in open ==> open[k] != Net)
    ensures !Touches(NetReading(p, open), k)
  {
    hide Touches, NetReading, IsListed, Reads;
    LoadReadingTouches(p, open, k);
  }

  lemma NetReadingTouches(p: Pass, open: Open, k: Key)
    ensures Touches(NetReading(p, open), k) <==>
            Reads(p, Net) && LinksKeep(p.status.network.value, p.net, open, k)
  {
    hide NetPart, LinksKeep;
    if !NetUnread(p) { LinksTouch(p.status.network.value, p.net, open, k); }
  }

  lemma LoadReadingTouches(p: Pass, open: Open, k: Key)
    requires k.check != NetDegraded
    ensures Touches(NetReading(p, open), k) <==>
            Reads(p, Net) && LoadsKeep(p.status.network.value, p.net, open, k)
  {
    hide NetReading, LinksKeep, LoadsKeep, Touches;
    NetReadingTouches(p, open, k);
    if Reads(p, Net) { LinksKeepLoads(p.status.network.value, p.net, open, k); }
  }

  // ----- when a link's alert leaves -----

  /** What a link must say of its load for its open alert to leave. */
  predicate LoadClears(l: Link, e: Expectations, c: Check) {
    && l.carrying && l.traffic.Some?
    && var t := l.traffic.value;
       match c
       case Saturated =>
         t.capacityMbps.Some? && t.sustained.Some? && t.sustained.value < SaturatedFrom(e, true)
       case LinkErrors => t.errorsPerMinute < e.errorsPerMinute && t.historySeconds >= 285
       case _ => false
  }

  /** What a port must say of its speed for an open `LinkSpeedLow` to leave. */
  predicate SpeedClears(i: Interface, e: Expectations) {
    CarriesTraffic(i) && i.speed.Some? && i.speed.value >= SpeedWanted(i, e)
  }

  /** The pass read the links, lists the device, and every port and bond of that name
      clears the check. */
  predicate LinksClear(p: Pass, k: Key) {
    && Reads(p, Net)
    && var n := p.status.network.value;
       && IsListed(n, k.device)
       && (forall i :: i in n.interfaces && i.name == k.device ==>
             if k.check == LinkSlow then SpeedClears(i, p.net) else LoadClears(PortLink(i), p.net, k.check))
       && (k.check != LinkSlow ==>
             forall b :: b in n.bonds && b.name == k.device ==> LoadClears(BondLink(b), p.net, k.check))
  }

  lemma LoadsKeepIffNotClear(p: Pass, open: Open, k: Key)
    requires Reads(p, Net) && k in open && open[k] == Net && k.check in {LinkSlow, Saturated, LinkErrors}
    ensures LoadsKeep(p.status.network.value, p.net, open, k) <==> !LinksClear(p, k)
  {
    hide IsListed;
    var n := p.status.network.value;
    forall i | i in n.interfaces && i.name == k.device
      ensures PortKeeps(i, p.net, open, k) <==>
              !(if k.check == LinkSlow then SpeedClears(i, p.net) else LoadClears(PortLink(i), p.net, k.check))
    {
    }
    forall b | b in n.bonds && b.name == k.device && k.check != LinkSlow
      ensures TrafficKeeps(BondLink(b), p.net, open, k) <==> !LoadClears(BondLink(b), p.net, k.check)
    {
    }
  }

  /** No other list has anything to do with a link check. */
  lemma StorageKeepsNoLink(p: Pass, open: Open, k: Key)
    requires !IsStorageCheck(k.check) && (k in open ==> open[k] in {Net, NetExpected})
    ensures !Touches(LocalReading(p, open), k) && !Touches(DrivesReading(p, open), k) &&
            !Touches(SMARTReading(p, open), k)
  {
    hide Touches, LocalReading, DrivesReading, SMARTReading, BmcDrive, SaysWear;
    LocalTouches(p, open, k);
    DrivesReadingTouches(p, open, k);
    SMARTReadingTouches(p, open, k);
  }

  /** A slow-link, saturation or link-error alert leaves exactly when its name is listed
      and every port or bond that answers for it under that name gives positive evidence. */
  lemma LinkAlertLeavesIff(p: Pass, open: Open, open': Open, k: Key)
    requires Next(p, open, open')
    requires k in open && open[k] == Net && k.check in {LinkSlow, Saturated, LinkErrors}
    ensures k !in open' <==> LinksClear(p, k)
  {
    hide Reading, LocalReading, DrivesReading, SMARTReading, NetReading, Touches, Reads, LoadsKeep, Next;
    FiresExactlyWhen(p, open, open', k);
    ReadingTouches(p, open, k);
    StorageKeepsNoLink(p, open, k);
    LoadReadingTouches(p, open, k);
    if Reads(p, Net) { LoadsKeepIffNotClear(p, open, k); }
  }

  /** A name without a slash is no member's: if its alert leaves, a port or bond of that
      name gave the evidence, for `LinkSpeedLow` exactly if a port still has the name. */
  lemma LeavingLinkGaveEvidence(p: Pass, k: Key)
    requires LinksClear(p, k) && '/' !in k.device && k.check in {LinkSlow, Saturated, LinkErrors}
    ensures var n := p.status.network.value;
            var port := exists i :: i in n.interfaces && i.name == k.device;
            if k.check == LinkSlow then
              (exists i :: i in n.interfaces && i.name == k.device && SpeedClears(i, p.net)) <==> port
            else
              || (exists i :: i in n.interfaces && i.name == k.device && LoadClears(PortLink(i), p.net, k.check))
              || (exists b :: b in n.bonds && b.name == k.device && LoadClears(BondLink(b), p.net, k.check))
  {
    hide LoadClears, SpeedClears;
    var n := p.status.network.value;
    ListedWithoutSlash(n, k.device);
  }

  lemma ListedWithoutSlash(n: Network, name: string)
    requires IsListed(n, name) && '/' !in name
    ensures (exists i :: i in n.interfaces && i.name == name) || (exists b :: b in n.bonds && b.name == name)
  {
    forall b: Bond, m: Member
      ensures MemberName(b.name, m.name) != name
    {
      assert MemberName(b.name, m.name)[|b.name|] == '/';
    }
  }

  /** So with `LinkSpeedLow` there is a gap: a name that was a port and is now listed only
      as a bond, or only as a bond's member, loses the alert with no speed read at all. */
  lemma SlowLinkMayLeaveUnmeasured()
    ensures exists p: Pass, open: Open, k: Key ::
      && k in open && open[k] == Net && k.check == LinkSlow && LinksClear(p, k)
      && p.status.network.value.interfaces == []
  {
    var bond := Bond("lan0", OtherMode, MiiUp, None, 0, [], 0, false, false);
    var n := Network(Some(0), false, [], [bond], 0, 0);
    var k := Key(LinkSlow, "lan0");
    var p := Pass(Status(None, None, Some(n)), Thresholds(80, 80), Expectations(1000, 90, 10, map[], false), false, 0);
    var open: Open := map[k := Net];
    assert bond in n.bonds;
    assert LinksClear(p, k);
    assert k in open && open[k] == Net;
  }
}
