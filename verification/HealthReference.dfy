/** What the health assessment goes by, said of the status alone: which reads count, which
    devices are well, which say nothing, and which are worn, slow or full. The theorems about
    alerts and conditions are stated in these terms; every figure is written out. */
module HealthReference {
  import opened Text
  import opened Traffic
  import opened Health

  // ----- which reads count -----

  /** The report is at most ten minutes old. */
  predicate IsRecent(at: Option<int>, now: int) {
    at.Some? && now - at.value <= 600
  }

  /** The node's agent reports on its stacks, and did so of late. */
  predicate HearsNode(p: Pass) {
    && p.status.storage.Some? && p.status.storage.value.local.Some?
    && IsRecent(p.status.storage.value.observedAt, p.now)
  }

  /** The pass can read what the scope is about: the stacks and disks of a node that reports,
      a stack that is present or absent and neither in error nor busy; drives of a BMC that
      just answered and lists any; links of a node that reports them without an error, under
      a policy that could be read. What has no read of its own cannot go unread. */
  predicate Reads(p: Pass, s: Scope) {
    match s
    case MD => HearsNode(p) && p.status.storage.value.local.value.md.state in {Present, Absent}
    case ZFS => HearsNode(p) && p.status.storage.value.local.value.zfs.state in {Present, Absent}
    case SMART => HearsNode(p)
    case Drives => p.inventoryFresh && p.status.inventory.Some? && |p.status.inventory.value| > 0
    case Net | NetExpected =>
      && !p.net.unread && p.status.network.Some? && !p.status.network.value.failed
      && IsRecent(p.status.network.value.observedAt, p.now)
    case NetState | NetTraffic | NetSustained => true
  }

  /** The pass reads exactly the scopes that it does not leave unread. */
  lemma ReadOrUnread(p: Pass)
    ensures forall s :: Reads(p, s) <==> s !in Unread(p)
    ensures HearsNode(p) <==> !LocalUnread(p.status.storage, p.now)
  {
  }

  /** The reads a check must have had before it may say that nothing is wrong. */
  function Needs(c: Check): set<Scope> {
    match c
    case Degraded => {MD, ZFS, SMART}
    case ScrubErrors => {ZFS}
    case CapacityHigh => {ZFS}
    case WearHigh => {Drives}
    case NetDegraded => {Net, NetState}
    case LinkSlow => {Net}
    case Saturated => {Net, NetSustained}
    case LinkErrors => {Net, NetTraffic}
  }

  lemma NeedsAreTheChecks(c: Check)
    ensures CheckScopes(c) == Needs(c)
  {
  }

  // ----- pools -----

  predicate VdevIsWell(v: ZVdev) {
    !v.badState && v.readErrors + v.writeErrors + v.checksumErrors <= 0
  }

  /** The pool says so itself, or one of its vdevs does. */
  predicate PoolIsUnwell(q: ZPool) {
    q.health == OtherHealth || exists v :: v in q.vdevs && !VdevIsWell(v)
  }

  lemma UnwellHasProblems(q: ZPool)
    ensures HasProblems(q) <==> PoolIsUnwell(q)
  {
    if v :| v in q.vdevs && !VdevIsWell(v) {
      var i :| 0 <= i < |q.vdevs| && q.vdevs[i] == v;
      assert IsBad(q.vdevs[i]);
    }
    if i :| 0 <= i < |q.vdevs| && IsBad(q.vdevs[i]) {
      assert q.vdevs[i] in q.vdevs && !VdevIsWell(q.vdevs[i]);
    }
  }

  // ----- drives and disks -----

  /** What the BMC listed, now or when it last answered. */
  function InventoryOf(p: Pass): seq<DriveInfo> {
    match p.status.inventory case Some(drives) => drives case None => []
  }

  /** A drive goes by its serial, or by its bay if it gave none. */
  predicate IsNameOf(device: string, d: DriveInfo) {
    (d.serial != "" && device == d.serial) || (d.serial == "" && device == d.location)
  }

  /** Of the drives with a serial, the one listed first speaks for it. */
  lemma {:induction false} BmcDriveIsFirst(drives: seq<DriveInfo>, serial: string)
    ensures var r := BmcDrive(drives, serial);
            && (r.None? <==> forall i :: 0 <= i < |drives| ==> drives[i].serial != serial)
            && (r.Some? ==> exists i :: 0 <= i < |drives| && drives[i] == r.value && drives[i].serial == serial &&
                                        forall j :: 0 <= j < i ==> drives[j].serial != serial)
  {
    if drives != [] && drives[0].serial != serial {
      var rest := drives[1..];
      BmcDriveIsFirst(rest, serial);
      assert forall i :: 0 <= i < |rest| ==> rest[i] == drives[i + 1];
      var r := BmcDrive(drives, serial);
      if r.Some? {
        var i :| 0 <= i < |rest| && rest[i] == r.value && rest[i].serial == serial &&
                 forall j :: 0 <= j < i ==> rest[j].serial != serial;
        assert drives[i + 1] == r.value;
        assert forall j :: 0 < j <= i ==> drives[j] == rest[j - 1];
      }
    }
  }

  /** A report still current gives the wear of a disk with the serial. */
  predicate SaysWear(s: Option<Storage>, heard: bool, serial: string) {
    heard && s.Some? &&
    exists o :: o in s.value.observed && o.serial == serial && o.smart.Some? && o.smart.value.wear.Some?
  }

  lemma SaidIsReported(s: Option<Storage>, heard: bool, serial: string)
    ensures SmartReportsWear(s, !heard, serial) <==> SaysWear(s, heard, serial)
  {
    if s.Some? {
      if o :| o in s.value.observed && o.serial == serial && o.smart.Some? && o.smart.value.wear.Some? {
        var i :| 0 <= i < |s.value.observed| && s.value.observed[i] == o;
      }
    }
  }

  /** The kernel does not say that the disk spins. */
  predicate NotSpinning(d: ObservedDisk) {
    d.rotational.None? || !d.rotational.value
  }

  /** Somebody should have read the disk: it was read, it does not spin, or its BMC calls it
      an SSD. */
  predicate OwesOwnRead(d: ObservedDisk, bmc: Option<DriveInfo>) {
    d.smart.Some? || NotSpinning(d) || (bmc.Some? && bmc.value.isSSD)
  }

  /** The disk says nothing of its health. */
  predicate IsMute(d: ObservedDisk) {
    d.smart.Some? ==> d.smart.value.passed.None?
  }

  /** Nobody but the disk can give its wear, and no drive of the inventory owes it already. */
  predicate NeedsOwnFigure(bmc: Option<DriveInfo>) {
    bmc.Some? ==> bmc.value.used.None? && !bmc.value.isSSD
  }

  // ----- links -----

  predicate CarriesTraffic(i: Interface) {
    i.oper in {Up, UnknownOper}
  }

  /** The speed the policy asks of this port, or of any. */
  function SpeedWanted(i: Interface, e: Expectations): int {
    if i.name !in e.links || e.links[i.name].speed <= 0 then e.minSpeed else e.links[i.name].speed
  }

  /** The load from which on a link is saturated: an open alert stays until it is five points
      lower, but a link with no load at all is never saturated. */
  function SaturatedFrom(e: Expectations, isOpen: bool): int {
    if !isOpen then e.saturated else if e.saturated <= 6 then 1 else e.saturated - 5
  }

  function MemberName(bond: string, member: string): string {
    bond + "/" + member
  }

  /** The member says it is not up, or sits in another aggregator than its bond. */
  predicate MemberIsBad(b: Bond, m: Member) {
    || m.mii == MiiDown || m.mii == OtherMii
    || (b.mode == Lacp && b.aggregator > 0 && m.aggregator > 0 && m.aggregator != b.aggregator)
  }

  /** The member's status, the bond's mode or, under LACP, an aggregator was not given. */
  predicate MemberIsUnclear(b: Bond, m: Member) {
    m.mii == NoMii || b.mode == NoMode || (b.mode == Lacp && 0 in {b.aggregator, m.aggregator})
  }

  /** Nobody brought it up, it has no members, and the policy does not ask for it. */
  predicate BondIsIdle(b: Bond, e: Expectations) {
    b.adminDown && b.members == [] && !b.membersUnread && b.name !in e.links
  }

  /** It is down and in use, or short of members that the policy asks for. */
  predicate BondIsBad(b: Bond, e: Expectations) {
    || (!BondIsIdle(b, e) && b.mii in {MiiDown, OtherMii})
    || (&& b.name in e.links && e.links[b.name].members > 0 && !b.membersUnread
        && |b.members| + b.membersOmitted < e.links[b.name].members)
  }

  /** It is in use and gives no status, or gives no mode, or its members could not be read. */
  predicate BondIsUnclear(b: Bond, e: Expectations) {
    (!BondIsIdle(b, e) && b.mii == NoMii) || b.mode == NoMode || b.membersUnread
  }

  /** The name is that of a port, a bond or a member of a bond. */
  predicate IsListed(n: Network, name: string) {
    || (exists i :: i in n.interfaces && i.name == name)
    || (exists b :: b in n.bonds && b.name == name)
    || (exists b, m :: b in n.bonds && m in b.members && MemberName(b.name, m.name) == name)
  }

  lemma ListedIsInTheList(n: Network, name: string)
    ensures name in ListedLinks(n) <==> IsListed(n, name)
  {
  }

  /** The node left ports or bonds out of its list, or has none in it. */
  predicate ListIsCut(n: Network) {
    n.interfacesOmitted > 0 || n.bondsOmitted > 0 || |n.interfaces| + |n.bonds| == 0
  }

  // ----- the same in the terms of the assessment -----

  lemma PortTermsAgree(i: Interface, e: Expectations)
    ensures Carries(i) <==> CarriesTraffic(i)
    ensures WantedSpeed(i, e) == SpeedWanted(i, e)
    ensures SaturationLimit(e, true) == SaturatedFrom(e, true) && SaturationLimit(e, false) == SaturatedFrom(e, false)
  {
  }

  lemma MemberTermsAgree(b: Bond, m: Member)
    ensures HasTrouble(b, m) <==> MemberIsBad(b, m)
    ensures IsVague(b, m) <==> MemberIsUnclear(b, m)
  {
  }

  lemma BondTermsAgree(b: Bond, e: Expectations)
    ensures BondFails(b, e) <==> BondIsBad(b, e)
    ensures BondIsVague(b, e) <==> BondIsUnclear(b, e)
  {
  }

  lemma ListTermsAgree(n: Network)
    ensures NetListCut(n) <==> ListIsCut(n)
  {
  }

  lemma DiskTermsAgree(d: ObservedDisk, bmc: Option<DriveInfo>)
    ensures MaybeSolidState(d) <==> NotSpinning(d)
    ensures WearOwed(bmc) <==> NeedsOwnFigure(bmc)
    ensures OwesSmart(d, bmc) <==> OwesOwnRead(d, bmc)
    ensures IsSilent(d) <==> IsMute(d)
  {
  }
}
