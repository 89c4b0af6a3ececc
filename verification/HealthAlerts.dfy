/** What a pass does to an alert: exactly when it fires afterwards, per check. */
module HealthAlerts {
  import opened Text
  import opened Traffic
  import opened Health
  import opened HealthReference

  /** The part finds the alert or holds it. */
  ghost predicate Touches(part: Part, k: Key) {
    k in part.held || exists f :: f in part.findings && f.key == k
  }

  lemma TouchesPlus(a: Part, b: Part, k: Key)
    ensures Touches(Plus(a, b), k) <==> Touches(a, k) || Touches(b, k)
  {
    if Touches(a, k) && k !in a.held {
      var f :| f in a.findings && f.key == k;
      assert f in Plus(a, b).findings;
    }
    if Touches(b, k) && k !in b.held {
      var f :| f in b.findings && f.key == k;
      assert f in Plus(a, b).findings;
    }
  }

  lemma TouchesUnion(parts: seq<Part>, k: Key)
    ensures Touches(Union(parts), k) <==> exists i :: 0 <= i < |parts| && Touches(parts[i], k)
  {
    forall i | 0 <= i < |parts| && Touches(parts[i], k)
      ensures Touches(Union(parts), k)
    {
      if k !in parts[i].held {
        var f :| f in parts[i].findings && f.key == k;
        assert f in Union(parts).findings;
      }
    }
    if Touches(Union(parts), k) {
      if k in Union(parts).held {
        var i :| 0 <= i < |parts| && k in parts[i].held;
        assert Touches(parts[i], k);
      } else {
        var f :| f in Union(parts).findings && f.key == k;
        var i :| 0 <= i < |parts| && f in parts[i].findings;
        assert Touches(parts[i], k);
      }
    }
  }

  lemma TouchesFound(check: Check, device: string, scope: Scope, k: Key)
    ensures Touches(Found(check, device, scope), k) <==> k == Key(check, device)
  {
    assert Finding(Key(check, device), scope) in Found(check, device, scope).findings;
  }

  // ----- one device -----

  predicate PoolKeeps(p: ZPool, t: Thresholds, open: Open, k: Key) {
    && k.device == p.name
    && match k.check
       case Degraded => PoolIsUnwell(p) || (k in open && (p.vdevsOmitted > 0 || p.health == NoHealth))
       case ScrubErrors =>
         if p.scrubErrors.Some? then p.scrubErrors.value > 0 else k in open && !p.neverScanned
       case CapacityHigh =>
         if p.capacity.None? then k in open
         else p.capacity.value >= (if k in open then t.capacity - 2 else t.capacity)
       case _ => false
  }

  lemma PoolHealthTouches(p: ZPool, t: Thresholds, open: Open, k: Key)
    ensures Touches(PoolHealthPart(p, open), k) <==> k.check == Degraded && PoolKeeps(p, t, open, k)
  {
    UnwellHasProblems(p);
    TouchesFound(Degraded, p.name, ZFS, k);
  }

  lemma ScrubTouches(p: ZPool, t: Thresholds, open: Open, k: Key)
    ensures Touches(ScrubPart(p, open), k) <==> k.check == ScrubErrors && PoolKeeps(p, t, open, k)
  {
    TouchesFound(ScrubErrors, p.name, ZFS, k);
  }

  lemma CapacityTouches(p: ZPool, t: Thresholds, open: Open, k: Key)
    ensures Touches(CapacityPart(p, t, open), k) <==> k.check == CapacityHigh && PoolKeeps(p, t, open, k)
  {
    TouchesFound(CapacityHigh, p.name, ZFS, k);
  }

  lemma PoolTouches(p: ZPool, t: Thresholds, open: Open, k: Key)
    ensures Touches(OfPool(p, t, open), k) <==> PoolKeeps(p, t, open, k)
  {
    hide PoolHealthPart, ScrubPart, CapacityPart, Touches, Plus;
    TouchesPlus(Plus(PoolHealthPart(p, open), ScrubPart(p, open)), CapacityPart(p, t, open), k);
    TouchesPlus(PoolHealthPart(p, open), ScrubPart(p, open), k);
    PoolHealthTouches(p, t, open, k);
    ScrubTouches(p, t, open, k);
    CapacityTouches(p, t, open, k);
  }

  predicate DiskKeeps(d: ObservedDisk, bmc: Option<DriveInfo>, t: Thresholds, open: Open, k: Key) {
    && k.device == d.serial
    && match k.check
       case Degraded => if IsMute(d) then k in open else !d.smart.value.passed.value
       case WearHigh =>
         && !(bmc.Some? && bmc.value.used.Some?)
         && (if d.smart.None? || d.smart.value.wear.None? then k in open else d.smart.value.wear.value >= t.wear)
       case _ => false
  }

  lemma DiskTouches(d: ObservedDisk, bmc: Option<DriveInfo>, t: Thresholds, open: Open, k: Key)
    ensures Touches(OfDisk(d, bmc, t, open), k) <==> DiskKeeps(d, bmc, t, open, k)
  {
    TouchesPlus(DiskHealthPart(d, bmc, open), DiskWearPart(d, bmc, t, open), k);
    TouchesFound(Degraded, d.serial, SMART, k);
    TouchesFound(WearHigh, d.serial, SMART, k);
  }

  predicate DriveKeeps(d: DriveInfo, reported: bool, t: Thresholds, open: Open, k: Key) {
    && k.check == WearHigh && IsNameOf(k.device, d)
    && (if d.used.Some? then d.used.value >= t.wear else !reported && k in open)
  }

  lemma DriveTouches(d: DriveInfo, reported: bool, t: Thresholds, open: Open, k: Key)
    ensures Touches(OfDrive(d, reported, t, open), k) <==> DriveKeeps(d, reported, t, open, k)
  {
    TouchesFound(WearHigh, DeviceOf(d), Drives, k);
  }

  /** What a link says of its load; ports and bonds say it alike. */
  datatype Link = Link(name: string, traffic: Option<LinkTraffic>, carrying: bool, isUp: bool)

  function PortLink(i: Interface): Link {
    Link(i.name, i.traffic, CarriesTraffic(i), i.oper == Up)
  }

  function BondLink(b: Bond): Link {
    Link(b.name, b.traffic, b.mii != MiiDown, b.mii == MiiUp)
  }

  predicate TrafficKeeps(l: Link, e: Expectations, open: Open, k: Key) {
    && k.device == l.name
    && match k.check
       case Saturated =>
         if l.carrying && l.traffic.Some? && l.traffic.value.capacityMbps.Some? && l.traffic.value.sustained.Some?
         then l.traffic.value.sustained.value >= SaturatedFrom(e, k in open) else k in open
       case LinkErrors =>
         if l.carrying && l.traffic.Some?
         then l.traffic.value.errorsPerMinute >= e.errorsPerMinute
              || (k in open && l.traffic.value.historySeconds < 285)
         else k in open
       case _ => false
  }

  lemma TrafficTouches(l: Link, e: Expectations, open: Open, k: Key)
    ensures Touches(OfTraffic(l.name, l.traffic, l.carrying, l.isUp, e, open), k) <==> TrafficKeeps(l, e, open, k)
  {
    var hs, he := Hold(open, Key(Saturated, l.name)), Hold(open, Key(LinkErrors, l.name));
    if l.carrying && l.traffic.Some? {
      var t := l.traffic.value;
      TouchesPlus(ErrorsPart(l.name, t, e, open), SaturationPart(l.name, t, l.isUp, e, open), k);
      TouchesFound(LinkErrors, l.name, Net, k);
      TouchesFound(Saturated, l.name, Net, k);
    } else {
      TouchesPlus(Plus(hs, he), Plus(CutIf(l.carrying, NetTraffic), CutIf(l.carrying, NetSustained)), k);
      TouchesPlus(hs, he, k);
    }
  }

  predicate PortKeeps(i: Interface, e: Expectations, open: Open, k: Key) {
    || TrafficKeeps(PortLink(i), e, open, k)
    || (k.device == i.name &&
        match k.check
        case NetDegraded =>
          if i.oper == NoOperState || (i.name in e.links && i.oper == UnknownOper) then k in open
          else i.name in e.links && i.oper != Up
        case LinkSlow =>
          if CarriesTraffic(i) && i.speed.Some? then i.speed.value < SpeedWanted(i, e) else k in open
        case _ => false)
  }

  lemma LinkStateTouches(i: Interface, e: Expectations, open: Open, k: Key)
    ensures Touches(LinkStatePart(i, e, open), k) <==> k.check == NetDegraded && PortKeeps(i, e, open, k)
  {
    TouchesFound(NetDegraded, i.name, Net, k);
  }

  lemma SpeedTouches(i: Interface, e: Expectations, open: Open, k: Key)
    ensures Touches(SpeedPart(i, e, open), k) <==> k.check == LinkSlow && PortKeeps(i, e, open, k)
  {
    TouchesFound(LinkSlow, i.name, Net, k);
  }

  lemma PortTouches(i: Interface, e: Expectations, open: Open, k: Key)
    ensures Touches(OfInterface(i, e, open), k) <==> PortKeeps(i, e, open, k)
  {
    hide OfTraffic, LinkStatePart, SpeedPart, Touches, Plus;
    var l := PortLink(i);
    TouchesPlus(OfTraffic(l.name, l.traffic, l.carrying, l.isUp, e, open),
                Plus(LinkStatePart(i, e, open), SpeedPart(i, e, open)), k);
    TouchesPlus(LinkStatePart(i, e, open), SpeedPart(i, e, open), k);
    TrafficTouches(l, e, open, k);
    LinkStateTouches(i, e, open, k);
    SpeedTouches(i, e, open, k);
  }

  predicate MemberKeeps(b: Bond, m: Member, open: Open, k: Key) {
    k == Key(NetDegraded, MemberName(b.name, m.name)) && (MemberIsBad(b, m) || (MemberIsUnclear(b, m) && k in open))
  }

  lemma MemberTouches(b: Bond, m: Member, open: Open, k: Key)
    ensures Touches(OfMember(b, m, open), k) <==> MemberKeeps(b, m, open, k)
  {
    MemberTermsAgree(b, m);
    hide MemberIsBad, MemberIsUnclear, HasTrouble, IsVague;
    TouchesFound(NetDegraded, MemberName(b.name, m.name), Net, k);
  }

  predicate BondStateKeeps(b: Bond, e: Expectations, open: Open, k: Key) {
    k == Key(NetDegraded, b.name) && (BondIsBad(b, e) || (BondIsUnclear(b, e) && k in open))
  }

  lemma BondStateTouches(b: Bond, e: Expectations, open: Open, k: Key)
    ensures Touches(BondStatePart(b, e, open), k) <==> BondStateKeeps(b, e, open, k)
  {
    BondTermsAgree(b, e);
    hide BondIsBad, BondIsUnclear, BondFails, BondIsVague;
    var vague := if BondIsVague(b, e) then Unsure(open, Key(NetDegraded, b.name)) else NOTHING;
    var found := if BondFails(b, e) then Found(NetDegraded, b.name, Net) else NOTHING;
    TouchesFound(NetDegraded, b.name, Net, k);
    TouchesPlus(Plus(vague, found), CutIf(b.membersOmitted > 0, Net), k);
    TouchesPlus(vague, found, k);
  }

  predicate BondKeeps(b: Bond, e: Expectations, open: Open, k: Key) {
    || TrafficKeeps(BondLink(b), e, open, k)
    || BondStateKeeps(b, e, open, k)
    || exists m :: m in b.members && MemberKeeps(b, m, open, k)
  }

  lemma BondTouches(b: Bond, e: Expectations, open: Open, k: Key)
    ensures Touches(OfBond(b, e, open), k) <==> BondKeeps(b, e, open, k)
  {
    hide OfTraffic, TrafficKeeps, BondStatePart, BondStateKeeps, OfMember, MemberKeeps, Touches, Plus, Union;
    var l := BondLink(b);
    var load := OfTraffic(l.name, l.traffic, l.carrying, l.isUp, e, open);
    var members := seq(|b.members|, i requires 0 <= i < |b.members| => OfMember(b, b.members[i], open));
    TouchesPlus(Plus(load, BondStatePart(b, e, open)), Union(members), k);
    TouchesPlus(load, BondStatePart(b, e, open), k);
    TrafficTouches(l, e, open, k);
    BondStateTouches(b, e, open, k);
    TouchesUnion(members, k);
    forall i | 0 <= i < |members|
      ensures Touches(members[i], k) <==> MemberKeeps(b, b.members[i], open, k)
    {
      MemberTouches(b, b.members[i], open, k);
    }
    if m :| m in b.members && MemberKeeps(b, m, open, k) {
      var i :| 0 <= i < |b.members| && b.members[i] == m;
      assert Touches(members[i], k);
    }
  }

  // ----- one list -----

  lemma HoldUnlistedTouches(open: Open, scope: Scope, listed: set<string>, k: Key)
    ensures Touches(HoldUnlisted(open, scope, listed), k) <==> k in open && open[k] == scope && k.device !in listed
  {
  }

  lemma ListTouches(parts: seq<Part>, open: Open, scope: Scope, listed: set<string>, cut: bool, k: Key)
    ensures Touches(Plus(Plus(Union(parts), HoldUnlisted(open, scope, listed)), CutIf(cut, scope)), k) <==>
            (exists i :: 0 <= i < |parts| && Touches(parts[i], k)) ||
            (k in open && open[k] == scope && k.device !in listed)
  {
    hide Union, HoldUnlisted, Plus;
    TouchesPlus(Plus(Union(parts), HoldUnlisted(open, scope, listed)), CutIf(cut, scope), k);
    TouchesPlus(Union(parts), HoldUnlisted(open, scope, listed), k);
    TouchesUnion(parts, k);
    HoldUnlistedTouches(open, scope, listed, k);
  }

  predicate MDKeeps(md: MDStatus, open: Open, k: Key) {
    || (k.check == Degraded && MDArray(k.device, true) in md.arrays)
    || (k in open && open[k] == MD && forall a :: a in md.arrays ==> a.name != k.device)
  }

  lemma MDTouches(md: MDStatus, open: Open, k: Key)
    ensures Touches(MDPart(md, open), k) <==> MDKeeps(md, open, k)
  {
    hide Plus, Union, HoldUnlisted, Touches;
    var parts := seq(|md.arrays|, i requires 0 <= i < |md.arrays| => OfArray(md.arrays[i]));
    var names := set a | a in md.arrays :: a.name;
    ListTouches(parts, open, MD, names, md.omitted > 0, k);
    forall i | 0 <= i < |parts|
      ensures Touches(parts[i], k) <==> k == Key(Degraded, md.arrays[i].name) && md.arrays[i].degraded
    {
      ArrayTouches(md.arrays[i], k);
    }
    if k.check == Degraded && MDArray(k.device, true) in md.arrays {
      var i :| 0 <= i < |md.arrays| && md.arrays[i] == MDArray(k.device, true);
      assert Touches(parts[i], k);
    }
  }

  lemma ArrayTouches(a: MDArray, k: Key)
    ensures Touches(OfArray(a), k) <==> k == Key(Degraded, a.name) && a.degraded
  {
    TouchesFound(Degraded, a.name, MD, k);
  }

  predicate ZFSKeeps(z: ZFSStatus, t: Thresholds, open: Open, k: Key) {
    || (exists p :: p in z.pools && PoolKeeps(p, t, open, k))
    || (k in open && open[k] == ZFS && forall p :: p in z.pools ==> p.name != k.device)
  }

  lemma ZFSTouches(z: ZFSStatus, t: Thresholds, open: Open, k: Key)
    ensures Touches(ZFSPart(z, t, open), k) <==> ZFSKeeps(z, t, open, k)
  {
    hide Plus, Union, HoldUnlisted, Touches, OfPool, PoolKeeps;
    var parts := seq(|z.pools|, i requires 0 <= i < |z.pools| => OfPool(z.pools[i], t, open));
    ListTouches(parts, open, ZFS, set p | p in z.pools :: p.name, z.omitted > 0, k);
    forall i | 0 <= i < |parts|
      ensures Touches(parts[i], k) <==> PoolKeeps(z.pools[i], t, open, k)
    {
      PoolTouches(z.pools[i], t, open, k);
    }
    if p :| p in z.pools && PoolKeeps(p, t, open, k) {
      var i :| 0 <= i < |z.pools| && z.pools[i] == p;
      assert Touches(parts[i], k);
    }
  }

  predicate DrivesKeep(drives: seq<DriveInfo>, s: Option<Storage>, smartUnread: bool, t: Thresholds, open: Open,
      k: Key) {
    || (exists d :: d in drives && DriveKeeps(d, SaysWear(s, !smartUnread, d.serial), t, open, k))
    || (k in open && open[k] == Drives && forall d :: d in drives ==> !IsNameOf(k.device, d))
  }

  lemma DrivesTouch(drives: seq<DriveInfo>, s: Option<Storage>, smartUnread: bool, t: Thresholds, open: Open, k: Key)
    ensures Touches(DrivesPart(drives, s, smartUnread, t, open), k) <==> DrivesKeep(drives, s, smartUnread, t, open, k)
  {
    hide Plus, Union, HoldUnlisted, Touches, OfDrive, DriveKeeps, SaysWear, SmartReportsWear;
    var parts := seq(|drives|, i requires 0 <= i < |drives| =>
                       OfDrive(drives[i], SmartReportsWear(s, smartUnread, drives[i].serial), t, open));
    ListTouches(parts, open, Drives, set d | d in drives :: DeviceOf(d), |drives| >= MAX_INVENTORY_DRIVES, k);
    forall i | 0 <= i < |parts|
      ensures Touches(parts[i], k) <==> DriveKeeps(drives[i], SaysWear(s, !smartUnread, drives[i].serial), t, open, k)
    {
      SaidIsReported(s, !smartUnread, drives[i].serial);
      DriveTouches(drives[i], SmartReportsWear(s, smartUnread, drives[i].serial), t, open, k);
    }
    if d :| d in drives && DriveKeeps(d, SaysWear(s, !smartUnread, d.serial), t, open, k) {
      var i :| 0 <= i < |drives| && drives[i] == d;
      assert Touches(parts[i], k);
    }
  }

  predicate SMARTKeeps(observed: seq<ObservedDisk>, drives: seq<DriveInfo>, t: Thresholds, open: Open, k: Key) {
    || (exists d :: d in observed && DiskKeeps(d, BmcDrive(drives, d.serial), t, open, k))
    || (k in open && open[k] == SMART && forall d :: d in observed ==> d.serial != k.device)
  }

  lemma SMARTTouches(observed: seq<ObservedDisk>, drives: seq<DriveInfo>, t: Thresholds, open: Open, k: Key)
    ensures Touches(SMARTPart(observed, drives, t, open), k) <==> SMARTKeeps(observed, drives, t, open, k)
  {
    hide Plus, Union, HoldUnlisted, Touches, OfDisk, DiskKeeps, BmcDrive;
    var parts := seq(|observed|, i requires 0 <= i < |observed| =>
                       OfDisk(observed[i], BmcDrive(drives, observed[i].serial), t, open));
    ListTouches(parts, open, SMART, set d | d in observed :: d.serial, |observed| >= 64, k);
    forall i | 0 <= i < |parts|
      ensures Touches(parts[i], k) <==> DiskKeeps(observed[i], BmcDrive(drives, observed[i].serial), t, open, k)
    {
      DiskTouches(observed[i], BmcDrive(drives, observed[i].serial), t, open, k);
    }
    if d :| d in observed && DiskKeeps(d, BmcDrive(drives, d.serial), t, open, k) {
      var i :| 0 <= i < |observed| && observed[i] == d;
      assert Touches(parts[i], k);
    }
  }

  lemma UnreadDisksTouchNothing(observed: seq<ObservedDisk>, drives: seq<DriveInfo>, k: Key)
    ensures !Touches(UnreadSMARTPart(observed, drives), k)
  {
    hide BmcDrive;
    var parts := seq(|observed|, i requires 0 <= i < |observed| =>
        OfUnreadDisk(observed[i], BmcDrive(drives, observed[i].serial)));
    TouchesUnion(parts, k);
  }

  /** The policy names a link the node does not list, and that is known or was said. */
  predicate MissingKeeps(n: Network, e: Expectations, open: Open, k: Key) {
    k.check == NetDegraded && k.device in e.links && !IsListed(n, k.device) && (ListIsCut(n) ==> k in open)
  }

  predicate LinksKeep(n: Network, e: Expectations, open: Open, k: Key) {
    || (exists i :: i in n.interfaces && PortKeeps(i, e, open, k))
    || (exists b :: b in n.bonds && BondKeeps(b, e, open, k))
    || MissingKeeps(n, e, open, k)
    || (k in open && open[k] == Net && !IsListed(n, k.device))
  }

  lemma PortsTouch(n: Network, e: Expectations, open: Open, parts: seq<Part>, k: Key)
    requires |parts| == |n.interfaces|
    requires forall i :: 0 <= i < |parts| ==> parts[i] == OfInterface(n.interfaces[i], e, open)
    ensures Touches(Union(parts), k) <==> exists i :: i in n.interfaces && PortKeeps(i, e, open, k)
  {
    hide Union, Touches, OfInterface, PortKeeps;
    TouchesUnion(parts, k);
    forall i | 0 <= i < |parts|
      ensures Touches(parts[i], k) <==> PortKeeps(n.interfaces[i], e, open, k)
    {
      PortTouches(n.interfaces[i], e, open, k);
    }
    if p :| p in n.interfaces && PortKeeps(p, e, open, k) {
      var i :| 0 <= i < |n.interfaces| && n.interfaces[i] == p;
      assert Touches(parts[i], k);
    }
  }

  lemma BondsTouch(n: Network, e: Expectations, open: Open, parts: seq<Part>, k: Key)
    requires |parts| == |n.bonds|
    requires forall i :: 0 <= i < |parts| ==> parts[i] == OfBond(n.bonds[i], e, open)
    ensures Touches(Union(parts), k) <==> exists b :: b in n.bonds && BondKeeps(b, e, open, k)
  {
    hide Union, Touches, OfBond, BondKeeps;
    TouchesUnion(parts, k);
    forall i | 0 <= i < |parts|
      ensures Touches(parts[i], k) <==> BondKeeps(n.bonds[i], e, open, k)
    {
      BondTouches(n.bonds[i], e, open, k);
    }
    if b :| b in n.bonds && BondKeeps(b, e, open, k) {
      var i :| 0 <= i < |n.bonds| && n.bonds[i] == b;
      assert Touches(parts[i], k);
    }
  }

  lemma MissingTouches(n: Network, e: Expectations, open: Open, k: Key)
    ensures Touches(ExpectedPart(n, e, open), k) <==> MissingKeeps(n, e, open, k)
  {
    ListedIsInTheList(n, k.device);
    ListTermsAgree(n);
    hide ListedLinks, IsListed, NetListCut, ListIsCut;
    if k.check == NetDegraded && k.device in MissingLinks(n, e) && !NetListCut(n) {
      assert Finding(Key(NetDegraded, k.device), NetExpected) in ExpectedPart(n, e, open).findings;
    }
  }

  lemma CutTouchesNothing(c: bool, scope: Scope, k: Key)
    ensures !Touches(CutIf(c, scope), k)
  {
  }

  lemma LinksTouch(n: Network, e: Expectations, open: Open, k: Key)
    ensures Touches(NetPart(n, e, open), k) <==> LinksKeep(n, e, open, k)
  {
    ListedIsInTheList(n, k.device);
    hide Union, HoldUnlisted, OfInterface, OfBond, PortKeeps, BondKeeps, MissingKeeps, IsListed, ListedLinks, Touches,
        Plus, ExpectedPart, CutIf;
    var ports := seq(|n.interfaces|, i requires 0 <= i < |n.interfaces| => OfInterface(n.interfaces[i], e, open));
    var bonds := seq(|n.bonds|, i requires 0 <= i < |n.bonds| => OfBond(n.bonds[i], e, open));
    PortsTouch(n, e, open, ports, k);
    BondsTouch(n, e, open, bonds, k);
    var expected := ExpectedPart(n, e, open);
    MissingTouches(n, e, open, k);
    var unlisted := HoldUnlisted(open, Net, ListedLinks(n));
    HoldUnlistedTouches(open, Net, ListedLinks(n), k);
    var cut := CutIf(NetListCut(n), Net);
    CutTouchesNothing(NetListCut(n), Net, k);
    TouchesPlus(Plus(Union(ports), Union(bonds)), Plus(Plus(expected, unlisted), cut), k);
    TouchesPlus(Union(ports), Union(bonds), k);
    TouchesPlus(Plus(expected, unlisted), cut, k);
    TouchesPlus(expected, unlisted, k);
  }

  /** Apart from `NetworkDegraded` bonds keep only what their load keeps. */
  predicate LoadsKeep(n: Network, e: Expectations, open: Open, k: Key) {
    || (exists i :: i in n.interfaces && PortKeeps(i, e, open, k))
    || (exists b :: b in n.bonds && TrafficKeeps(BondLink(b), e, open, k))
    || (k in open && open[k] == Net && !IsListed(n, k.device))
  }

  lemma LinksKeepLoads(n: Network, e: Expectations, open: Open, k: Key)
    requires k.check != NetDegraded
    ensures LinksKeep(n, e, open, k) <==> LoadsKeep(n, e, open, k)
  {
    hide PortKeeps, TrafficKeeps, BondLink, IsListed;
    forall b | b in n.bonds
      ensures BondKeeps(b, e, open, k) <==> TrafficKeeps(BondLink(b), e, open, k)
    {
    }
  }

  /** An open alert the list does not name stays, whatever its check. */
  lemma UnlistedLinkStays(n: Network, e: Expectations, open: Open, k: Key)
    requires k in open && open[k] == Net && !IsListed(n, k.device)
    ensures Touches(NetPart(n, e, open), k)
  {
    hide NetPart, Touches, PortKeeps, BondKeeps, MissingKeeps, IsListed;
    LinksTouch(n, e, open, k);
  }

  lemma TrafficKeepsItsOwn(l: Link, e: Expectations, open: Open, k: Key)
    ensures TrafficKeeps(l, e, open, k) ==> k.device == l.name
  {
  }

  lemma PortIsListed(n: Network, i: Interface)
    requires i in n.interfaces
    ensures IsListed(n, i.name)
  {
  }
}
