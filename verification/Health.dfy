/** The machine health assessment of `internal/storage/health.go` and
    `network_health.go`: what each device read contributes. A reading is assessed
    against what is already open; texts are left out, states the code tells apart are
    constructors, and a counter is the set of the devices it counts. */
module Health {
  import opened Text
  import opened Traffic

  datatype Check = Degraded | ScrubErrors | CapacityHigh | WearHigh | NetDegraded | LinkSlow | Saturated | LinkErrors

  datatype Scope = MD | ZFS | Drives | SMART | Net | NetExpected | NetState | NetTraffic | NetSustained

  datatype Key = Key(check: Check, device: string)

  /** What already fires, and the scope each alert rests on. */
  type Open = map<Key, Scope>

  datatype Finding = Finding(key: Key, scope: Scope)

  const CAPACITY_HYSTERESIS := 2
  const SATURATION_HYSTERESIS := 5
  const MAX_INVENTORY_DRIVES := 32
  const MAX_OBSERVED_DISKS := 64
  const AGENT_SILENT_AFTER := 600

  // ----- what is read -----

  datatype StackState = Present | Absent | StackError | Busy | OtherState

  datatype MDArray = MDArray(name: string, degraded: bool)
  datatype MDStatus = MDStatus(state: StackState, arrays: seq<MDArray>, omitted: int)

  datatype PoolHealth = NoHealth | Online | OtherHealth
  datatype ZVdev = ZVdev(badState: bool, readErrors: int, writeErrors: int, checksumErrors: int)
  datatype ZPool = ZPool(
    name: string, health: PoolHealth, vdevs: seq<ZVdev>, vdevsOmitted: int,
    scrubErrors: Option<int>, neverScanned: bool, capacity: Option<int>)
  datatype ZFSStatus = ZFSStatus(state: StackState, pools: seq<ZPool>, omitted: int)

  datatype Smart = Smart(passed: Option<bool>, wear: Option<int>)
  datatype ObservedDisk = ObservedDisk(serial: string, rotational: Option<bool>, smart: Option<Smart>)
  datatype Local = Local(md: MDStatus, zfs: ZFSStatus)
  datatype Storage = Storage(observed: seq<ObservedDisk>, observedAt: Option<int>, local: Option<Local>)

  datatype DriveInfo = DriveInfo(serial: string, location: string, isSSD: bool, used: Option<int>)

  datatype OperState = NoOperState | Up | UnknownOper | OtherOper
  datatype Interface = Interface(name: string, oper: OperState, speed: Option<int>, traffic: Option<LinkTraffic>)

  datatype MiiStatus = NoMii | MiiUp | MiiDown | OtherMii
  datatype BondMode = NoMode | Lacp | OtherMode
  datatype Member = Member(name: string, mii: MiiStatus, aggregator: int)
  datatype Bond = Bond(
    name: string, mode: BondMode, mii: MiiStatus, traffic: Option<LinkTraffic>, aggregator: int,
    members: seq<Member>, membersOmitted: int, membersUnread: bool, adminDown: bool)
  datatype Network = Network(
    observedAt: Option<int>, failed: bool, interfaces: seq<Interface>, bonds: seq<Bond>,
    interfacesOmitted: int, bondsOmitted: int)

  datatype Status = Status(storage: Option<Storage>, inventory: Option<seq<DriveInfo>>, network: Option<Network>)

  datatype Thresholds = Thresholds(capacity: int, wear: int)

  datatype ExpectedLink = ExpectedLink(speed: int, members: int)
  datatype Expectations = Expectations(
    minSpeed: int, saturated: int, errorsPerMinute: int, links: map<string, ExpectedLink>, unread: bool)

  /** Everything one pass goes by. */
  datatype Pass = Pass(status: Status, limits: Thresholds, net: Expectations, inventoryFresh: bool, now: int)

  // ----- contributions -----

  /** What a device, or a whole list, adds to the assessment. */
  datatype Part = Part(
    findings: set<Finding>, cut: set<Scope>, held: set<Key>,
    silent: set<string>, wearOwed: set<string>, speedOwed: set<string>, capacityOwed: set<string>)

  const NOTHING := Part({}, {}, {}, {}, {}, {}, {})

  function Plus(a: Part, b: Part): Part {
    Part(a.findings + b.findings, a.cut + b.cut, a.held + b.held,
         a.silent + b.silent, a.wearOwed + b.wearOwed, a.speedOwed + b.speedOwed, a.capacityOwed + b.capacityOwed)
  }

  function Union(parts: seq<Part>): Part {
    Part(set i, x | 0 <= i < |parts| && x in parts[i].findings :: x,
         set i, x | 0 <= i < |parts| && x in parts[i].cut :: x,
         set i, x | 0 <= i < |parts| && x in parts[i].held :: x,
         set i, x | 0 <= i < |parts| && x in parts[i].silent :: x,
         set i, x | 0 <= i < |parts| && x in parts[i].wearOwed :: x,
         set i, x | 0 <= i < |parts| && x in parts[i].speedOwed :: x,
         set i, x | 0 <= i < |parts| && x in parts[i].capacityOwed :: x)
  }

  function Found(check: Check, device: string, scope: Scope): Part {
    NOTHING.(findings := {Finding(Key(check, device), scope)})
  }

  /** The alert stays if it is open. */
  function Hold(open: Open, k: Key): Part {
    if k in open then NOTHING.(held := {k}) else NOTHING
  }

  /** `holdUnlisted`. */
  function HoldUnlisted(open: Open, scope: Scope, listed: set<string>): Part {
    NOTHING.(held := set k | k in open && open[k] == scope && k.device !in listed)
  }

  function CutIf(c: bool, scope: Scope): Part {
    if c then NOTHING.(cut := {scope}) else NOTHING
  }

  // ----- arrays and pools -----

  /** `stackUnread`. */
  predicate StackUnread(s: StackState) {
    !s.Present? && !s.Absent?
  }

  function OfArray(a: MDArray): Part {
    if a.degraded then Found(Degraded, a.name, MD) else NOTHING
  }

  predicate IsBad(v: ZVdev) {
    v.badState || v.readErrors + v.writeErrors + v.checksumErrors > 0
  }

  /** `poolProblems` is not empty. */
  predicate HasProblems(p: ZPool) {
    p.health == OtherHealth || exists i :: 0 <= i < |p.vdevs| && IsBad(p.vdevs[i])
  }

  function PoolHealthPart(p: ZPool, open: Open): Part {
    if HasProblems(p) then Found(Degraded, p.name, ZFS)
    else if p.vdevsOmitted > 0 || p.health == NoHealth then Plus(CutIf(true, ZFS), Hold(open, Key(Degraded, p.name)))
    else NOTHING
  }

  function ScrubPart(p: ZPool, open: Open): Part {
    if p.scrubErrors.Some? && p.scrubErrors.value > 0 then Found(ScrubErrors, p.name, ZFS)
    else if p.scrubErrors.None? && !p.neverScanned then Hold(open, Key(ScrubErrors, p.name))
    else NOTHING
  }

  function CapacityPart(p: ZPool, t: Thresholds, open: Open): Part {
    var k := Key(CapacityHigh, p.name);
    if p.capacity.None? then Hold(open, k)
    else if p.capacity.value >= (if k in open then t.capacity - CAPACITY_HYSTERESIS else t.capacity)
      then Found(CapacityHigh, p.name, ZFS)
    else NOTHING
  }

  /** `assessPool`. */
  function OfPool(p: ZPool, t: Thresholds, open: Open): Part {
    Plus(Plus(PoolHealthPart(p, open), ScrubPart(p, open)), CapacityPart(p, t, open))
  }

  // ----- drives and disks -----

  function DeviceOf(d: DriveInfo): string {
    if d.serial == "" then d.location else d.serial
  }

  /** `smartReportsWear`. */
  predicate SmartReportsWear(s: Option<Storage>, smartUnread: bool, serial: string) {
    !smartUnread && s.Some? &&
    exists i :: 0 <= i < |s.value.observed| && s.value.observed[i].serial == serial &&
                s.value.observed[i].smart.Some? && s.value.observed[i].smart.value.wear.Some?
  }

  function OfDrive(d: DriveInfo, reported: bool, t: Thresholds, open: Open): Part {
    if d.used.Some? then
      if d.used.value >= t.wear then Found(WearHigh, DeviceOf(d), Drives) else NOTHING
    else if reported then NOTHING
    else Plus(Hold(open, Key(WearHigh, DeviceOf(d))), if d.isSSD then NOTHING.(wearOwed := {DeviceOf(d)}) else NOTHING)
  }

  predicate MaybeSolidState(d: ObservedDisk) {
    d.rotational != Some(true)
  }

  predicate WearOwed(bmc: Option<DriveInfo>) {
    bmc.None? || (bmc.value.used.None? && !bmc.value.isSSD)
  }

  /** `bmcDrive`: the first drive with the serial. */
  function BmcDrive(drives: seq<DriveInfo>, serial: string): Option<DriveInfo> {
    if drives == [] then None else if drives[0].serial == serial then Some(drives[0]) else BmcDrive(drives[1..], serial)
  }

  predicate OwesSmart(d: ObservedDisk, bmc: Option<DriveInfo>) {
    d.smart.Some? || MaybeSolidState(d) || (bmc.Some? && bmc.value.isSSD)
  }

  predicate IsSilent(d: ObservedDisk) {
    d.smart.None? || d.smart.value.passed.None?
  }

  function DiskHealthPart(d: ObservedDisk, bmc: Option<DriveInfo>, open: Open): Part {
    if IsSilent(d) then
      Plus(Hold(open, Key(Degraded, d.serial)), if OwesSmart(d, bmc) then NOTHING.(silent := {d.serial}) else NOTHING)
    else if !d.smart.value.passed.value then Found(Degraded, d.serial, SMART)
    else NOTHING
  }

  function DiskWearPart(d: ObservedDisk, bmc: Option<DriveInfo>, t: Thresholds, open: Open): Part {
    if bmc.Some? && bmc.value.used.Some? then NOTHING
    else if d.smart.None? || d.smart.value.wear.None? then
      Plus(Hold(open, Key(WearHigh, d.serial)),
           if OwesSmart(d, bmc) && WearOwed(bmc) then NOTHING.(wearOwed := {d.serial}) else NOTHING)
    else if d.smart.value.wear.value >= t.wear then Found(WearHigh, d.serial, SMART)
    else NOTHING
  }

  function OfDisk(d: ObservedDisk, bmc: Option<DriveInfo>, t: Thresholds, open: Open): Part {
    Plus(DiskHealthPart(d, bmc, open), DiskWearPart(d, bmc, t, open))
  }

  /** A disk when nothing current comes from the agent: only its wear may be owed. */
  function OfUnreadDisk(d: ObservedDisk, bmc: Option<DriveInfo>): Part {
    if MaybeSolidState(d) && WearOwed(bmc) then NOTHING.(wearOwed := {d.serial}) else NOTHING
  }

  // ----- links -----

  function SaturationLimit(e: Expectations, isOpen: bool): int {
    if isOpen then Max(1, e.saturated - SATURATION_HYSTERESIS) else e.saturated
  }

  function ErrorsPart(name: string, t: LinkTraffic, e: Expectations, open: Open): Part {
    if t.errorsPerMinute >= e.errorsPerMinute then Found(LinkErrors, name, Net)
    else if t.historySeconds < FULL_HISTORY_SECONDS
        then Plus(Hold(open, Key(LinkErrors, name)), CutIf(true, NetTraffic))
    else NOTHING
  }

  function SaturationPart(name: string, t: LinkTraffic, isUp: bool, e: Expectations, open: Open): Part {
    var k := Key(Saturated, name);
    if t.capacityMbps.None? then Plus(Hold(open, k), if isUp then NOTHING.(capacityOwed := {name}) else NOTHING)
    else if t.sustained.None? then Plus(Hold(open, k), CutIf(true, NetSustained))
    else if t.sustained.value >= SaturationLimit(e, k in open) then Found(Saturated, name, Net)
    else NOTHING
  }

  /** `assessTraffic`. */
  function OfTraffic(name: string, t: Option<LinkTraffic>, carrying: bool, isUp: bool, e: Expectations,
      open: Open): Part {
    if carrying && t.Some? then Plus(ErrorsPart(name, t.value, e, open), SaturationPart(name, t.value, isUp, e, open))
    else
      Plus(Plus(Hold(open, Key(Saturated, name)), Hold(open, Key(LinkErrors, name))),
           Plus(CutIf(carrying, NetTraffic), CutIf(carrying, NetSustained)))
  }

  /** `unsure`. */
  function Unsure(open: Open, k: Key): Part {
    Plus(Hold(open, k), CutIf(true, NetState))
  }

  predicate Carries(i: Interface) {
    i.oper == Up || i.oper == UnknownOper
  }

  function WantedSpeed(i: Interface, e: Expectations): int {
    if i.name in e.links && e.links[i.name].speed > 0 then e.links[i.name].speed else e.minSpeed
  }

  function LinkStatePart(i: Interface, e: Expectations, open: Open): Part {
    var named := i.name in e.links;
    if i.oper == NoOperState then Plus(Unsure(open, Key(NetDegraded, i.name)), CutIf(true, Net))
    else if named && i.oper == UnknownOper then Unsure(open, Key(NetDegraded, i.name))
    else if named && i.oper != Up then Found(NetDegraded, i.name, Net)
    else NOTHING
  }

  function SpeedPart(i: Interface, e: Expectations, open: Open): Part {
    var k := Key(LinkSlow, i.name);
    if i.oper == NoOperState then Unsure(open, k)
    else if !Carries(i) || i.speed.None? then
      Plus(Hold(open, k), if i.oper == Up then NOTHING.(speedOwed := {i.name}) else NOTHING)
    else if i.speed.value < WantedSpeed(i, e) then Found(LinkSlow, i.name, Net)
    else NOTHING
  }

  /** `assessInterface`. */
  function OfInterface(i: Interface, e: Expectations, open: Open): Part {
    Plus(OfTraffic(i.name, i.traffic, Carries(i), i.oper == Up, e, open),
         Plus(LinkStatePart(i, e, open), SpeedPart(i, e, open)))
  }

  /** `memberDevice`. */
  function MemberDevice(bond: string, member: string): string {
    bond + "/" + member
  }

  /** The member is down, or LACP did not bundle it. */
  predicate HasTrouble(b: Bond, m: Member) {
    || (m.mii != NoMii && m.mii != MiiUp)
    || (b.mode == Lacp && b.aggregator > 0 && m.aggregator > 0 && m.aggregator != b.aggregator)
  }

  /** A field the judgement needs says nothing. */
  predicate IsVague(b: Bond, m: Member) {
    m.mii == NoMii || b.mode == NoMode || (b.mode == Lacp && (b.aggregator == 0 || m.aggregator == 0))
  }

  function OfMember(b: Bond, m: Member, open: Open): Part {
    var device := MemberDevice(b.name, m.name);
    if HasTrouble(b, m) then Found(NetDegraded, device, Net)
    else if IsVague(b, m) then Unsure(open, Key(NetDegraded, device))
    else NOTHING
  }

  /** A bond nobody brought up, with no member, that the policy does not name. */
  predicate IsUnused(b: Bond, e: Expectations) {
    b.name !in e.links && b.adminDown && !b.membersUnread && b.members == []
  }

  /** The bond is down, or holds fewer members than the policy asks for. */
  predicate BondFails(b: Bond, e: Expectations) {
    var want := if b.name in e.links then e.links[b.name].members else 0;
    || (b.mii != MiiUp && !IsUnused(b, e) && b.mii != NoMii)
    || (!b.membersUnread && want > 0 && |b.members| + b.membersOmitted < want)
  }

  predicate BondIsVague(b: Bond, e: Expectations) {
    (b.mii == NoMii && !IsUnused(b, e)) || b.mode == NoMode || b.membersUnread
  }

  function BondStatePart(b: Bond, e: Expectations, open: Open): Part {
    Plus(Plus(if BondIsVague(b, e) then Unsure(open, Key(NetDegraded, b.name)) else NOTHING,
              if BondFails(b, e) then Found(NetDegraded, b.name, Net) else NOTHING),
         CutIf(b.membersOmitted > 0, Net))
  }

  /** `assessBond`. */
  function OfBond(b: Bond, e: Expectations, open: Open): Part {
    Plus(Plus(OfTraffic(b.name, b.traffic, b.mii != MiiDown, b.mii == MiiUp, e, open), BondStatePart(b, e, open)),
         Union(seq(|b.members|, i requires 0 <= i < |b.members| => OfMember(b, b.members[i], open))))
  }

  // ----- what could be read -----

  predicate AgentSilent(at: Option<int>, now: int) {
    at.None? || now - at.value > AGENT_SILENT_AFTER
  }

  predicate LocalUnread(s: Option<Storage>, now: int) {
    s.None? || s.value.local.None? || AgentSilent(s.value.observedAt, now)
  }

  predicate DrivesUnread(p: Pass) {
    !p.inventoryFresh || p.status.inventory.None? || p.status.inventory.value == []
  }

  predicate NetUnread(p: Pass) {
    p.net.unread || p.status.network.None? || p.status.network.value.failed ||
    AgentSilent(p.status.network.value.observedAt, p.now)
  }

  /** `Unread` after the pass. */
  function Unread(p: Pass): set<Scope> {
    var s := p.status.storage;
    (if LocalUnread(s, p.now) then {MD, ZFS, SMART}
     else (if StackUnread(s.value.local.value.md.state) then {MD} else {}) +
          (if StackUnread(s.value.local.value.zfs.state) then {ZFS} else {})) +
    (if DrivesUnread(p) then {Drives} else {}) +
    (if NetUnread(p) then {Net, NetExpected} else {})
  }

  // ----- the whole reading -----

  function MDPart(md: MDStatus, open: Open): Part {
    Plus(Plus(Union(seq(|md.arrays|, i requires 0 <= i < |md.arrays| => OfArray(md.arrays[i]))),
              HoldUnlisted(open, MD, set a | a in md.arrays :: a.name)),
         CutIf(md.omitted > 0, MD))
  }

  function ZFSPart(z: ZFSStatus, t: Thresholds, open: Open): Part {
    Plus(Plus(Union(seq(|z.pools|, i requires 0 <= i < |z.pools| => OfPool(z.pools[i], t, open))),
              HoldUnlisted(open, ZFS, set p | p in z.pools :: p.name)),
         CutIf(z.omitted > 0, ZFS))
  }

  function DrivesPart(drives: seq<DriveInfo>, s: Option<Storage>, smartUnread: bool, t: Thresholds, open: Open): Part {
    Plus(Plus(Union(seq(|drives|, i requires 0 <= i < |drives| =>
                          OfDrive(drives[i], SmartReportsWear(s, smartUnread, drives[i].serial), t, open))),
              HoldUnlisted(open, Drives, set d | d in drives :: DeviceOf(d))),
         CutIf(|drives| >= MAX_INVENTORY_DRIVES, Drives))
  }

  function SMARTPart(observed: seq<ObservedDisk>, drives: seq<DriveInfo>, t: Thresholds, open: Open): Part {
    Plus(Plus(Union(seq(|observed|, i requires 0 <= i < |observed| =>
                          OfDisk(observed[i], BmcDrive(drives, observed[i].serial), t, open))),
              HoldUnlisted(open, SMART, set d | d in observed :: d.serial)),
         CutIf(|observed| >= MAX_OBSERVED_DISKS, SMART))
  }

  function UnreadSMARTPart(observed: seq<ObservedDisk>, drives: seq<DriveInfo>): Part {
    Union(seq(|observed|, i requires 0 <= i < |observed| =>
        OfUnreadDisk(observed[i], BmcDrive(drives, observed[i].serial))))
  }

  function ListedLinks(n: Network): set<string> {
    (set i | i in n.interfaces :: i.name) + (set b | b in n.bonds :: b.name) +
    (set b, m | b in n.bonds && m in b.members :: MemberDevice(b.name, m.name))
  }

  /** The list is known to be cut short, or there is none. */
  predicate NetListCut(n: Network) {
    n.interfacesOmitted > 0 || n.bondsOmitted > 0 || (n.interfaces == [] && n.bonds == [])
  }

  function MissingLinks(n: Network, e: Expectations): set<string> {
    set name | name in e.links && name !in ListedLinks(n)
  }

  /** Links the policy names and the node does not list. */
  function MissingPart(missing: set<string>, cut: bool, open: Open): Part {
    if cut then NOTHING.(held := set name | name in missing && Key(NetDegraded, name) in open :: Key(NetDegraded, name))
    else NOTHING.(findings := set name | name in missing :: Finding(Key(NetDegraded, name), NetExpected))
  }

  function ExpectedPart(n: Network, e: Expectations, open: Open): Part {
    MissingPart(MissingLinks(n, e), NetListCut(n), open)
  }

  function NetPart(n: Network, e: Expectations, open: Open): Part {
    var ports := Union(seq(|n.interfaces|, i requires 0 <= i < |n.interfaces| =>
        OfInterface(n.interfaces[i], e, open)));
    var bonds := Union(seq(|n.bonds|, i requires 0 <= i < |n.bonds| => OfBond(n.bonds[i], e, open)));
    var expected := ExpectedPart(n, e, open);
    Plus(Plus(ports, bonds), Plus(Plus(expected, HoldUnlisted(open, Net, ListedLinks(n))), CutIf(NetListCut(n), Net)))
  }

  function DriveList(p: Pass): seq<DriveInfo> {
    if p.status.inventory.Some? then p.status.inventory.value else []
  }

  function LocalReading(p: Pass, open: Open): Part {
    var s := p.status.storage;
    if LocalUnread(s, p.now) then NOTHING
    else
      var l := s.value.local.value;
      Plus(if StackUnread(l.md.state) then NOTHING else MDPart(l.md, open),
           if StackUnread(l.zfs.state) then NOTHING else ZFSPart(l.zfs, p.limits, open))
  }

  function DrivesReading(p: Pass, open: Open): Part {
    if DrivesUnread(p) then NOTHING
    else DrivesPart(DriveList(p), p.status.storage, LocalUnread(p.status.storage, p.now), p.limits, open)
  }

  function SMARTReading(p: Pass, open: Open): Part {
    var s := p.status.storage;
    if s.None? then NOTHING
    else if LocalUnread(s, p.now) then UnreadSMARTPart(s.value.observed, DriveList(p))
    else SMARTPart(s.value.observed, DriveList(p), p.limits, open)
  }

  function NetReading(p: Pass, open: Open): Part {
    if NetUnread(p) then NOTHING else NetPart(p.status.network.value, p.net, open)
  }

  /** `Assess`: everything the pass finds, holds, cuts and counts. */
  function Reading(p: Pass, open: Open): Part {
    Plus(Plus(LocalReading(p, open), DrivesReading(p, open)), Plus(SMARTReading(p, open), NetReading(p, open)))
  }

  // ----- what follows from it -----

  /** `Keeps`. */
  predicate Keeps(p: Pass, open: Open, k: Key)
    requires k in open
  {
    open[k] in Unread(p) || k in Reading(p, open).held
  }

  predicate IsFound(p: Pass, open: Open, k: Key) {
    exists f :: f in Reading(p, open).findings && f.key == k
  }

  /** What fires after the pass: what was found, under the scope of a finding for it,
      and what was open and is kept. */
  ghost predicate Next(p: Pass, open: Open, open': Open) {
    && (forall k :: k in open' <==> IsFound(p, open, k) || (k in open && Keeps(p, open, k)))
    && (forall k :: k in open' && IsFound(p, open, k) ==> Finding(k, open'[k]) in Reading(p, open).findings)
    && (forall k :: k in open' && !IsFound(p, open, k) ==> k in open && open'[k] == open[k])
  }

  datatype Verdict = True | False | Unknown

  /** `checkScopes`. */
  function CheckScopes(c: Check): set<Scope> {
    match c
    case Degraded => {MD, ZFS, SMART}
    case ScrubErrors | CapacityHigh => {ZFS}
    case WearHigh => {Drives}
    case NetDegraded => {Net, NetState}
    case LinkSlow => {Net}
    case Saturated => {Net, NetSustained}
    case LinkErrors => {Net, NetTraffic}
  }

  /** `Verdict`, its status. */
  function VerdictOf(p: Pass, open: Open, c: Check): Verdict {
    var r := Reading(p, open);
    if exists f :: f in r.findings && f.key.check == c then True
    else if exists k :: k in open && k.check == c && Keeps(p, open, k) then True
    else if exists s :: s in CheckScopes(c) && (s in Unread(p) || s in r.cut) then Unknown
    else if c == Degraded && r.silent != {} then Unknown
    else if c == WearHigh && (SMART in r.cut || r.wearOwed != {}) then Unknown
    else if c == LinkSlow && r.speedOwed != {} then Unknown
    else if c == Saturated && r.capacityOwed != {} then Unknown
    else False
  }
}
