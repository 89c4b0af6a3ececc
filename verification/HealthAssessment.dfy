/** The assessment as the code builds it: an object whose fields grow device by device. */
module HealthAssessment {
  import opened Text
  import opened Traffic
  import opened Health

  lemma PlusAssoc(a: Part, b: Part, c: Part)
    ensures Plus(Plus(a, b), c) == Plus(a, Plus(b, c))
  {
  }

  lemma PlusNothing(a: Part)
    ensures Plus(a, NOTHING) == a && Plus(NOTHING, a) == a
  {
  }

  lemma UnionStep(parts: seq<Part>, i: nat)
    requires i < |parts|
    ensures Union(parts[..i + 1]) == Plus(Union(parts[..i]), parts[i])
  {
    var a, b := parts[..i], parts[..i + 1];
    assert b == a + [parts[i]];
    forall j | 0 <= j < |b| ensures b[j] == if j < i then a[j] else parts[i] { }
    var u, w := Union(b), Plus(Union(a), parts[i]);
    assert b[i] == parts[i];
    assert forall x :: x in parts[i].findings ==> x in b[i].findings;
    forall j | 0 <= j < i ensures b[j] == a[j] { }
    assert u.findings == w.findings;
    assert u.cut == w.cut;
    assert u.held == w.held;
    assert u.silent == w.silent;
    assert u.wearOwed == w.wearOwed;
    assert u.speedOwed == w.speedOwed;
    assert u.capacityOwed == w.capacityOwed;
  }

  lemma PlusTwice(a: Part, b: Part)
    ensures Plus(Plus(a, b), b) == Plus(a, b)
  {
  }

  /** One more missing link: held if the list is cut, else found. */
  lemma MissingGrows(missing: set<string>, cut: bool, open: Open, name: string)
    ensures MissingPart(missing + {name}, cut, open) ==
            Plus(MissingPart(missing, cut, open),
                 if cut then Hold(open, Key(NetDegraded, name)) else Found(NetDegraded, name, NetExpected))
  {
    var a, b := MissingPart(missing + {name}, cut, open), MissingPart(missing, cut, open);
    if cut {
      assert a.held == b.held + Hold(open, Key(NetDegraded, name)).held;
    } else {
      assert a.findings == b.findings + {Finding(Key(NetDegraded, name), NetExpected)};
    }
  }

  lemma UnionEmpty()
    ensures Union([]) == NOTHING
  {
  }

  /** One more device of a list is in. */
  lemma ListStep(start: Part, parts: seq<Part>, i: nat, sum: Part)
    requires i < |parts| && sum == Plus(start, Union(parts[..i]))
    ensures Plus(sum, parts[i]) == Plus(start, Union(parts[..i + 1]))
  {
    hide Plus, Union;
    UnionStep(parts, i);
    PlusAssoc(start, Union(parts[..i]), parts[i]);
  }

  lemma ListStart(start: Part, parts: seq<Part>)
    ensures start == Plus(start, Union(parts[..0]))
  {
    hide Plus, Union;
    assert parts[..0] == [];
    UnionEmpty();
    PlusNothing(start);
  }

  function Unlisted(open: Open, scope: Scope, listed: seq<string>, among: set<Key>): set<Key>
    requires among <= open.Keys
  {
    set k | k in among && open[k] == scope && k.device !in listed
  }

  lemma UnlistedGrows(open: Open, scope: Scope, listed: seq<string>, among: set<Key>, k: Key)
    requires among <= open.Keys && k in open
    ensures Unlisted(open, scope, listed, among + {k}) ==
            Unlisted(open, scope, listed, among) + if open[k] == scope && k.device !in listed then {k} else {}
  {
  }

  lemma DeviceNames(drives: seq<DriveInfo>, listed: seq<string>)
    requires listed == seq(|drives|, j requires 0 <= j < |drives| => DeviceOf(drives[j]))
    ensures (set d | d in listed) == set d | d in drives :: DeviceOf(d)
  {
    hide DeviceOf;
    forall d | d in drives ensures DeviceOf(d) in listed {
      var j :| 0 <= j < |drives| && drives[j] == d;
      assert listed[j] == DeviceOf(d);
    }
  }

  class Assessment {
    var findings: seq<Finding>
    var unread: set<Scope>
    var cut: set<Scope>
    var held: set<Key>
    var smartSilent: seq<string>
    var wearUnreported: nat
    var speedUnreported: nat
    var capacityUnreported: nat
    ghost var sum: Part

    /** `sum` is what the fields say. */
    ghost predicate Valid()
      reads this
    {
      && sum.findings == (set f | f in findings)
      && sum.cut == cut
      && sum.held == held
      && sum.silent == (set s | s in smartSilent)
      && (wearUnreported > 0 <==> sum.wearOwed != {})
      && (speedUnreported > 0 <==> sum.speedOwed != {})
      && (capacityUnreported > 0 <==> sum.capacityOwed != {})
    }

    constructor ()
      ensures Valid() && sum == NOTHING && unread == {}
    {
      findings, unread, cut, held, smartSilent := [], {}, {}, {}, [];
      wearUnreported, speedUnreported, capacityUnreported := 0, 0, 0;
      sum := NOTHING;
    }

    method Add(check: Check, device: string, scope: Scope)
      requires Valid()
      modifies `findings, `sum
      ensures Valid() && sum == Plus(old(sum), Found(check, device, scope))
    {
      findings := findings + [Finding(Key(check, device), scope)];
      sum := Plus(sum, Found(check, device, scope));
    }

    method KeepOpen(open: Open, k: Key)
      requires Valid()
      modifies `held, `sum
      ensures Valid() && sum == Plus(old(sum), Hold(open, k))
    {
      if k in open { held := held + {k}; }
      sum := Plus(sum, Hold(open, k));
    }

    method CutShort(c: bool, scope: Scope)
      requires Valid()
      modifies `cut, `sum
      ensures Valid() && sum == Plus(old(sum), CutIf(c, scope))
    {
      if c { cut := cut + {scope}; }
      sum := Plus(sum, CutIf(c, scope));
    }

    method MarkUnsure(open: Open, k: Key)
      requires Valid()
      modifies `held, `cut, `sum
      ensures Valid() && sum == Plus(old(sum), Unsure(open, k))
    {
      hide Plus, Hold, CutIf;
      KeepOpen(open, k);
      PlusAssoc(sum, Hold(open, k), CutIf(true, NetState));
      PlusAssoc(old(sum), Hold(open, k), CutIf(true, NetState));
      CutShort(true, NetState);
    }

    method CountWear(device: string)
      requires Valid()
      modifies `wearUnreported, `sum
      ensures Valid() && sum == Plus(old(sum), NOTHING.(wearOwed := {device}))
    {
      wearUnreported := wearUnreported + 1;
      sum := Plus(sum, NOTHING.(wearOwed := {device}));
      assert device in sum.wearOwed;
    }

    method CountSpeed(device: string)
      requires Valid()
      modifies `speedUnreported, `sum
      ensures Valid() && sum == Plus(old(sum), NOTHING.(speedOwed := {device}))
    {
      speedUnreported := speedUnreported + 1;
      sum := Plus(sum, NOTHING.(speedOwed := {device}));
      assert device in sum.speedOwed;
    }

    method CountCapacity(device: string)
      requires Valid()
      modifies `capacityUnreported, `sum
      ensures Valid() && sum == Plus(old(sum), NOTHING.(capacityOwed := {device}))
    {
      capacityUnreported := capacityUnreported + 1;
      sum := Plus(sum, NOTHING.(capacityOwed := {device}));
      assert device in sum.capacityOwed;
    }

    method ListSilent(serial: string)
      requires Valid()
      modifies `smartSilent, `sum
      ensures Valid() && sum == Plus(old(sum), NOTHING.(silent := {serial}))
    {
      smartSilent := smartSilent + [serial];
      sum := Plus(sum, NOTHING.(silent := {serial}));
    }

    /** The walk of `holdUnlisted` over everything open. */
    static method FindUnlisted(open: Open, scope: Scope, listed: seq<string>) returns (kept: set<Key>)
      ensures kept == HoldUnlisted(open, scope, set d | d in listed).held
    {
      var left := open.Keys;
      kept := {};
      while left != {}
        invariant left <= open.Keys
        invariant kept == Unlisted(open, scope, listed, open.Keys - left)
        decreases left
      {
        hide Unlisted;
        var k :| k in left;
        UnlistedGrows(open, scope, listed, open.Keys - left, k);
        assert open.Keys - left + {k} == open.Keys - (left - {k});
        left := left - {k};
        if open[k] == scope && k.device !in listed { kept := kept + {k}; }
      }
      assert open.Keys - left == open.Keys;
    }

    method KeepUnlisted(open: Open, scope: Scope, listed: seq<string>)
      requires Valid()
      modifies `held, `sum
      ensures Valid() && sum == Plus(old(sum), HoldUnlisted(open, scope, set d | d in listed))
    {
      var kept := FindUnlisted(open, scope, listed);
      held := held + kept;
      sum := Plus(sum, HoldUnlisted(open, scope, set d | d in listed));
    }

    // ----- arrays and pools -----

    method AssessMD(md: MDStatus, open: Open)
      requires Valid()
      modifies this
      ensures Valid() && unread == old(unread) + (if StackUnread(md.state) then {MD} else {})
      ensures sum == if StackUnread(md.state) then old(sum) else Plus(old(sum), MDPart(md, open))
    {
      hide Plus, Union, HoldUnlisted, CutIf, OfArray, Valid;
      if StackUnread(md.state) {
        MarkUnread({MD});
        return;
      }
      ghost var parts := seq(|md.arrays|, i requires 0 <= i < |md.arrays| => OfArray(md.arrays[i]));
      ListStart(sum, parts);
      var listed: seq<string> := [];
      for i := 0 to |md.arrays|
        invariant Valid() && unread == old(unread)
        invariant sum == Plus(old(sum), Union(parts[..i]))
        invariant listed == seq(i, j requires 0 <= j < i => md.arrays[j].name)
      {
        var a := md.arrays[i];
        listed := listed + [a.name];
        ListStep(old(sum), parts, i, sum);
        TakeArray(a);
      }
      assert parts[..|parts|] == parts;
      var names := set a | a in md.arrays :: a.name;
      assert (set d | d in listed) == names by {
        forall a | a in md.arrays ensures a.name in listed {
          var j :| 0 <= j < |md.arrays| && md.arrays[j] == a;
          assert listed[j] == a.name;
        }
      }
      PlusAssoc(old(sum), Union(parts), HoldUnlisted(open, MD, names));
      PlusAssoc(old(sum), Plus(Union(parts), HoldUnlisted(open, MD, names)), CutIf(md.omitted > 0, MD));
      KeepUnlisted(open, MD, listed);
      CutShort(md.omitted > 0, MD);
    }

    method MarkUnread(scopes: set<Scope>)
      requires Valid()
      modifies `unread
      ensures Valid() && unread == old(unread) + scopes
    {
      unread := unread + scopes;
    }

    method TakeArray(a: MDArray)
      requires Valid()
      modifies `findings, `sum
      ensures Valid() && sum == Plus(old(sum), OfArray(a))
    {
      if a.degraded { Add(Degraded, a.name, MD); } else { PlusNothing(sum); }
    }

    /** `poolProblems`, whether it says anything. */
    static method PoolProblems(q: ZPool) returns (any: bool)
      ensures any <==> HasProblems(q)
    {
      var bad := 0;
      for i := 0 to |q.vdevs|
        invariant bad >= 0 && (bad > 0 <==> exists j :: 0 <= j < i && IsBad(q.vdevs[j]))
      {
        if IsBad(q.vdevs[i]) { bad := bad + 1; }
      }
      any := !((q.health == NoHealth || q.health == Online) && bad == 0);
    }

    method AssessPool(q: ZPool, t: Thresholds, open: Open)
      requires Valid()
      modifies `findings, `cut, `held, `sum
      ensures Valid() && sum == Plus(old(sum), OfPool(q, t, open))
    {
      hide Plus, Hold, CutIf, Found, Valid, HasProblems;
      var problems := PoolProblems(q);
      if problems {
        Add(Degraded, q.name, ZFS);
      } else if q.vdevsOmitted > 0 || q.health == NoHealth {
        PlusAssoc(sum, CutIf(true, ZFS), Hold(open, Key(Degraded, q.name)));
        CutShort(true, ZFS);
        KeepOpen(open, Key(Degraded, q.name));
      } else {
        PlusNothing(sum);
      }
      assert sum == Plus(old(sum), PoolHealthPart(q, open));
      PlusAssoc(old(sum), PoolHealthPart(q, open), ScrubPart(q, open));
      ScrubAndCapacity(q, t, open);
      PlusAssoc(old(sum), Plus(PoolHealthPart(q, open), ScrubPart(q, open)), CapacityPart(q, t, open));
    }

    /** The rest of `assessPool`. */
    method ScrubAndCapacity(q: ZPool, t: Thresholds, open: Open)
      requires Valid()
      modifies `findings, `held, `sum
      ensures Valid() && sum == Plus(Plus(old(sum), ScrubPart(q, open)), CapacityPart(q, t, open))
    {
      hide Plus, Hold, Found, Valid;
      if q.scrubErrors.Some? && q.scrubErrors.value > 0 {
        Add(ScrubErrors, q.name, ZFS);
      } else if q.scrubErrors.None? && !q.neverScanned {
        KeepOpen(open, Key(ScrubErrors, q.name));
      } else {
        PlusNothing(sum);
      }
      var k := Key(CapacityHigh, q.name);
      PlusNothing(sum);
      if q.capacity.None? {
        KeepOpen(open, k);
        return;
      }
      var limit := t.capacity;
      if k in open { limit := limit - CAPACITY_HYSTERESIS; }
      if q.capacity.value >= limit { Add(CapacityHigh, q.name, ZFS); }
    }

    method AssessZFS(z: ZFSStatus, t: Thresholds, open: Open)
      requires Valid()
      modifies this
      ensures Valid() && unread == old(unread) + (if StackUnread(z.state) then {ZFS} else {})
      ensures sum == if StackUnread(z.state) then old(sum) else Plus(old(sum), ZFSPart(z, t, open))
    {
      hide Plus, Union, HoldUnlisted, CutIf, OfPool, Valid;
      if StackUnread(z.state) {
        MarkUnread({ZFS});
        return;
      }
      ghost var parts := seq(|z.pools|, i requires 0 <= i < |z.pools| => OfPool(z.pools[i], t, open));
      ListStart(sum, parts);
      var listed: seq<string> := [];
      for i := 0 to |z.pools|
        invariant Valid() && unread == old(unread)
        invariant sum == Plus(old(sum), Union(parts[..i]))
        invariant listed == seq(i, j requires 0 <= j < i => z.pools[j].name)
      {
        listed := listed + [z.pools[i].name];
        ListStep(old(sum), parts, i, sum);
        AssessPool(z.pools[i], t, open);
      }
      assert parts[..|parts|] == parts;
      var names := set q | q in z.pools :: q.name;
      assert (set d | d in listed) == names by {
        forall q | q in z.pools ensures q.name in listed {
          var j :| 0 <= j < |z.pools| && z.pools[j] == q;
          assert listed[j] == q.name;
        }
      }
      PlusAssoc(old(sum), Union(parts), HoldUnlisted(open, ZFS, names));
      PlusAssoc(old(sum), Plus(Union(parts), HoldUnlisted(open, ZFS, names)), CutIf(z.omitted > 0, ZFS));
      KeepUnlisted(open, ZFS, listed);
      CutShort(z.omitted > 0, ZFS);
    }

    method AssessLocal(p: Pass, open: Open)
      requires Valid()
      modifies this
      ensures Valid() && sum == Plus(old(sum), LocalReading(p, open))
      ensures unread == old(unread) + Unread(p) * {MD, ZFS, SMART}
    {
      hide Plus, MDPart, ZFSPart, Valid;
      var s := p.status.storage;
      PlusNothing(sum);
      if LocalUnread(s, p.now) {
        MarkUnread({MD, ZFS, SMART});
        assert {MD, ZFS, SMART} == Unread(p) * {MD, ZFS, SMART};
        return;
      }
      var l := s.value.local.value;
      ghost var md := if StackUnread(l.md.state) then NOTHING else MDPart(l.md, open);
      ghost var zfs := if StackUnread(l.zfs.state) then NOTHING else ZFSPart(l.zfs, p.limits, open);
      AssessMD(l.md, open);
      PlusNothing(sum);
      AssessZFS(l.zfs, p.limits, open);
      PlusAssoc(old(sum), md, zfs);
    }

    // ----- drives and disks -----

    /** `smartReportsWear`. */
    static method LookUpWear(s: Option<Storage>, smartUnread: bool, serial: string) returns (found: bool)
      ensures found <==> SmartReportsWear(s, smartUnread, serial)
    {
      if smartUnread || s.None? { return false; }
      var observed := s.value.observed;
      for i := 0 to |observed|
        invariant forall j :: 0 <= j < i ==>
          !(observed[j].serial == serial && observed[j].smart.Some? && observed[j].smart.value.wear.Some?)
      {
        var d := observed[i];
        if d.serial == serial && d.smart.Some? && d.smart.value.wear.Some? { return true; }
      }
      return false;
    }

    /** `bmcDrive`. */
    static method LookUpDrive(drives: seq<DriveInfo>, serial: string) returns (r: Option<DriveInfo>)
      ensures r == BmcDrive(drives, serial)
    {
      for i := 0 to |drives|
        invariant BmcDrive(drives, serial) == BmcDrive(drives[i..], serial)
      {
        if drives[i].serial == serial { return Some(drives[i]); }
        assert drives[i..][1..] == drives[i + 1..];
      }
      return None;
    }

    method TakeDrive(d: DriveInfo, reported: bool, t: Thresholds, open: Open)
      requires Valid()
      modifies `findings, `held, `wearUnreported, `sum
      ensures Valid() && sum == Plus(old(sum), OfDrive(d, reported, t, open))
    {
      hide Plus, Hold, Found, Valid;
      var device := if d.serial == "" then d.location else d.serial;
      PlusNothing(sum);
      if d.used.Some? {
        if d.used.value >= t.wear { Add(WearHigh, device, Drives); }
      } else if !reported {
        PlusAssoc(sum, Hold(open, Key(WearHigh, device)),
                  if d.isSSD then NOTHING.(wearOwed := {device}) else NOTHING);
        KeepOpen(open, Key(WearHigh, device));
        PlusNothing(sum);
        if d.isSSD { CountWear(device); }
      }
    }

    method AssessDrives(p: Pass, smartUnread: bool, open: Open)
      requires Valid() && smartUnread == LocalUnread(p.status.storage, p.now)
      modifies this
      ensures Valid() && sum == Plus(old(sum), DrivesReading(p, open))
      ensures unread == old(unread) + Unread(p) * {Drives}
    {
      hide Plus, Union, HoldUnlisted, CutIf, OfDrive, Valid, SmartReportsWear;
      PlusNothing(sum);
      assert Unread(p) * {Drives} == if DrivesUnread(p) then {Drives} else {};
      if DrivesUnread(p) {
        MarkUnread({Drives});
        return;
      }
      var drives, s := DriveList(p), p.status.storage;
      ghost var parts := seq(|drives|, i requires 0 <= i < |drives| =>
                               OfDrive(drives[i], SmartReportsWear(s, smartUnread, drives[i].serial), p.limits, open));
      ListStart(sum, parts);
      var listed: seq<string> := [];
      for i := 0 to |drives|
        invariant Valid() && unread == old(unread)
        invariant sum == Plus(old(sum), Union(parts[..i]))
        invariant listed == seq(i, j requires 0 <= j < i => DeviceOf(drives[j]))
      {
        listed := listed + [DeviceOf(drives[i])];
        ListStep(old(sum), parts, i, sum);
        var reported := LookUpWear(s, smartUnread, drives[i].serial);
        TakeDrive(drives[i], reported, p.limits, open);
      }
      assert parts[..|parts|] == parts;
      var names := set d | d in drives :: DeviceOf(d);
      DeviceNames(drives, listed);
      var full := |drives| >= MAX_INVENTORY_DRIVES;
      PlusAssoc(old(sum), Union(parts), HoldUnlisted(open, Drives, names));
      PlusAssoc(old(sum), Plus(Union(parts), HoldUnlisted(open, Drives, names)), CutIf(full, Drives));
      KeepUnlisted(open, Drives, listed);
      CutShort(full, Drives);
    }

    method TakeDisk(d: ObservedDisk, bmc: Option<DriveInfo>, t: Thresholds, open: Open)
      requires Valid()
      modifies `findings, `held, `smartSilent, `wearUnreported, `sum
      ensures Valid() && sum == Plus(old(sum), OfDisk(d, bmc, t, open))
    {
      hide Plus, Hold, Found, Valid;
      var owed := OwesSmart(d, bmc);
      var health := Key(Degraded, d.serial);
      PlusNothing(sum);
      if d.smart.None? || d.smart.value.passed.None? {
        PlusAssoc(sum, Hold(open, health), if owed then NOTHING.(silent := {d.serial}) else NOTHING);
        KeepOpen(open, health);
        PlusNothing(sum);
        if owed { ListSilent(d.serial); }
      } else if !d.smart.value.passed.value {
        Add(Degraded, d.serial, SMART);
      }
      PlusAssoc(old(sum), DiskHealthPart(d, bmc, open), DiskWearPart(d, bmc, t, open));
      assert sum == Plus(old(sum), DiskHealthPart(d, bmc, open));
      TakeDiskWear(d, bmc, owed, t, open);
    }

    method TakeDiskWear(d: ObservedDisk, bmc: Option<DriveInfo>, owed: bool, t: Thresholds, open: Open)
      requires Valid() && owed == OwesSmart(d, bmc)
      modifies `findings, `held, `wearUnreported, `sum
      ensures Valid() && sum == Plus(old(sum), DiskWearPart(d, bmc, t, open))
    {
      hide Plus, Hold, Found, Valid, OwesSmart;
      PlusNothing(sum);
      var wear := Key(WearHigh, d.serial);
      if bmc.Some? && bmc.value.used.Some? {
      } else if d.smart.None? || d.smart.value.wear.None? {
        var counts := owed && WearOwed(bmc);
        PlusAssoc(sum, Hold(open, wear), if counts then NOTHING.(wearOwed := {d.serial}) else NOTHING);
        KeepOpen(open, wear);
        PlusNothing(sum);
        if counts { CountWear(d.serial); }
      } else if d.smart.value.wear.value >= t.wear {
        Add(WearHigh, d.serial, SMART);
      }
    }

    method CountUnreadDisks(observed: seq<ObservedDisk>, drives: seq<DriveInfo>)
      requires Valid()
      modifies `wearUnreported, `sum
      ensures Valid() && sum == Plus(old(sum), UnreadSMARTPart(observed, drives))
    {
      hide Plus, Union, Valid, BmcDrive;
      ghost var parts := seq(|observed|, i requires 0 <= i < |observed| =>
                               OfUnreadDisk(observed[i], BmcDrive(drives, observed[i].serial)));
      ListStart(sum, parts);
      for i := 0 to |observed|
        invariant Valid() && sum == Plus(old(sum), Union(parts[..i]))
      {
        ListStep(old(sum), parts, i, sum);
        var d := observed[i];
        var bmc := LookUpDrive(drives, d.serial);
        PlusNothing(sum);
        if MaybeSolidState(d) && WearOwed(bmc) { CountWear(d.serial); }
      }
      assert parts[..|parts|] == parts;
    }

    method AssessSMART(p: Pass, smartUnread: bool, open: Open)
      requires Valid() && smartUnread == LocalUnread(p.status.storage, p.now)
      modifies `findings, `cut, `held, `smartSilent, `wearUnreported, `sum
      ensures Valid() && sum == Plus(old(sum), SMARTReading(p, open))
    {
      hide Plus, Union, HoldUnlisted, CutIf, OfDisk, Valid, BmcDrive, UnreadSMARTPart;
      PlusNothing(sum);
      if p.status.storage.None? { return; }
      var observed, drives := p.status.storage.value.observed, DriveList(p);
      if smartUnread {
        CountUnreadDisks(observed, drives);
        return;
      }
      ghost var parts := seq(|observed|, i requires 0 <= i < |observed| =>
                               OfDisk(observed[i], BmcDrive(drives, observed[i].serial), p.limits, open));
      ListStart(sum, parts);
      var listed: seq<string> := [];
      for i := 0 to |observed|
        invariant Valid() && sum == Plus(old(sum), Union(parts[..i]))
        invariant listed == seq(i, j requires 0 <= j < i => observed[j].serial)
      {
        listed := listed + [observed[i].serial];
        ListStep(old(sum), parts, i, sum);
        var bmc := LookUpDrive(drives, observed[i].serial);
        TakeDisk(observed[i], bmc, p.limits, open);
      }
      assert parts[..|parts|] == parts;
      var names := set d | d in observed :: d.serial;
      assert (set d | d in listed) == names by {
        forall d | d in observed ensures d.serial in listed {
          var j :| 0 <= j < |observed| && observed[j] == d;
          assert listed[j] == d.serial;
        }
      }
      var full := |observed| >= MAX_OBSERVED_DISKS;
      PlusAssoc(old(sum), Union(parts), HoldUnlisted(open, SMART, names));
      PlusAssoc(old(sum), Plus(Union(parts), HoldUnlisted(open, SMART, names)), CutIf(full, SMART));
      KeepUnlisted(open, SMART, listed);
      CutShort(full, SMART);
    }

    // ----- links -----

    method AssessTraffic(name: string, t: Option<LinkTraffic>, carrying: bool, isUp: bool, e: Expectations, open: Open)
      requires Valid()
      modifies `findings, `cut, `held, `capacityUnreported, `sum
      ensures Valid() && sum == Plus(old(sum), OfTraffic(name, t, carrying, isUp, e, open))
    {
      hide Plus, Hold, Found, CutIf, Valid, ErrorsPart, SaturationPart;
      var hs, he := Hold(open, Key(Saturated, name)), Hold(open, Key(LinkErrors, name));
      if !carrying || t.None? {
        PlusAssoc(sum, hs, he);
        PlusAssoc(sum, Plus(hs, he), Plus(CutIf(carrying, NetTraffic), CutIf(carrying, NetSustained)));
        KeepOpen(open, Key(Saturated, name));
        KeepOpen(open, Key(LinkErrors, name));
        PlusAssoc(sum, CutIf(carrying, NetTraffic), CutIf(carrying, NetSustained));
        CutShort(carrying, NetTraffic);
        CutShort(carrying, NetSustained);
        return;
      }
      PlusAssoc(sum, ErrorsPart(name, t.value, e, open), SaturationPart(name, t.value, isUp, e, open));
      TakeErrors(name, t.value, e, open);
      TakeSaturation(name, t.value, isUp, e, open);
    }

    method TakeErrors(name: string, t: LinkTraffic, e: Expectations, open: Open)
      requires Valid()
      modifies `findings, `cut, `held, `sum
      ensures Valid() && sum == Plus(old(sum), ErrorsPart(name, t, e, open))
    {
      hide Plus, Hold, Found, CutIf, Valid;
      PlusNothing(sum);
      if t.errorsPerMinute >= e.errorsPerMinute {
        Add(LinkErrors, name, Net);
      } else if t.historySeconds < FULL_HISTORY_SECONDS {
        PlusAssoc(sum, Hold(open, Key(LinkErrors, name)), CutIf(true, NetTraffic));
        KeepOpen(open, Key(LinkErrors, name));
        CutShort(true, NetTraffic);
      }
    }

    method TakeSaturation(name: string, t: LinkTraffic, isUp: bool, e: Expectations, open: Open)
      requires Valid()
      modifies `findings, `cut, `held, `capacityUnreported, `sum
      ensures Valid() && sum == Plus(old(sum), SaturationPart(name, t, isUp, e, open))
    {
      hide Plus, Hold, Found, CutIf, Valid;
      PlusNothing(sum);
      var k := Key(Saturated, name);
      if t.capacityMbps.None? {
        PlusAssoc(sum, Hold(open, k), if isUp then NOTHING.(capacityOwed := {name}) else NOTHING);
        KeepOpen(open, k);
        PlusNothing(sum);
        if isUp { CountCapacity(name); }
      } else if t.sustained.None? {
        PlusAssoc(sum, Hold(open, k), CutIf(true, NetSustained));
        KeepOpen(open, k);
        CutShort(true, NetSustained);
      } else {
        var limit := e.saturated;
        if k in open { limit := Max(1, limit - SATURATION_HYSTERESIS); }
        if t.sustained.value >= limit { Add(Saturated, name, Net); }
      }
    }

    method AssessInterface(i: Interface, e: Expectations, open: Open)
      requires Valid()
      modifies `findings, `cut, `held, `speedUnreported, `capacityUnreported, `sum
      ensures Valid() && sum == Plus(old(sum), OfInterface(i, e, open))
    {
      hide Plus, Found, CutIf, Valid, OfTraffic, Unsure, SpeedPart;
      var load := OfTraffic(i.name, i.traffic, Carries(i), i.oper == Up, e, open);
      var named := i.name in e.links;
      AssessTraffic(i.name, i.traffic, Carries(i), i.oper == Up, e, open);
      PlusAssoc(old(sum), load, Plus(LinkStatePart(i, e, open), SpeedPart(i, e, open)));
      PlusAssoc(sum, LinkStatePart(i, e, open), SpeedPart(i, e, open));
      PlusNothing(sum);
      if i.oper == NoOperState {
        PlusAssoc(sum, Unsure(open, Key(NetDegraded, i.name)), CutIf(true, Net));
        MarkUnsure(open, Key(NetDegraded, i.name));
        CutShort(true, Net);
      } else if named && i.oper == UnknownOper {
        MarkUnsure(open, Key(NetDegraded, i.name));
      } else if named && i.oper != Up {
        Add(NetDegraded, i.name, Net);
      }
      TakeSpeed(i, e, open);
    }

    method TakeSpeed(i: Interface, e: Expectations, open: Open)
      requires Valid()
      modifies `findings, `cut, `held, `speedUnreported, `sum
      ensures Valid() && sum == Plus(old(sum), SpeedPart(i, e, open))
    {
      hide Plus, Hold, Found, CutIf, Valid, Unsure;
      PlusNothing(sum);
      var k := Key(LinkSlow, i.name);
      if i.oper == NoOperState {
        MarkUnsure(open, k);
      } else if !Carries(i) || i.speed.None? {
        PlusAssoc(sum, Hold(open, k), if i.oper == Up then NOTHING.(speedOwed := {i.name}) else NOTHING);
        KeepOpen(open, k);
        PlusNothing(sum);
        if i.oper == Up { CountSpeed(i.name); }
      } else {
        var want := e.minSpeed;
        if i.name in e.links && e.links[i.name].speed > 0 { want := e.links[i.name].speed; }
        if i.speed.value < want { Add(LinkSlow, i.name, Net); }
      }
    }

    method TakeMember(b: Bond, m: Member, open: Open)
      requires Valid()
      modifies `findings, `cut, `held, `sum
      ensures Valid() && sum == Plus(old(sum), OfMember(b, m, open))
    {
      hide Plus, Found, Valid, Unsure;
      PlusNothing(sum);
      var problems := 0;
      if m.mii != NoMii && m.mii != MiiUp { problems := problems + 1; }
      var silent := m.mii == NoMii || b.mode == NoMode || (b.mode == Lacp && (b.aggregator == 0 || m.aggregator == 0));
      if b.mode == Lacp && b.aggregator > 0 && m.aggregator > 0 && m.aggregator != b.aggregator {
        problems := problems + 1;
      }
      var device := MemberDevice(b.name, m.name);
      if problems > 0 {
        Add(NetDegraded, device, Net);
      } else if silent {
        MarkUnsure(open, Key(NetDegraded, device));
      }
    }

    method TakeBondState(b: Bond, e: Expectations, open: Open)
      requires Valid()
      modifies `findings, `cut, `held, `sum
      ensures Valid() && sum == Plus(old(sum), BondStatePart(b, e, open))
    {
      hide Plus, Found, Valid, Unsure, CutIf;
      var k := Key(NetDegraded, b.name);
      var named := b.name in e.links;
      var unused := !named && b.adminDown && !b.membersUnread && b.members == [];
      var bad, unsure := 0, false;
      PlusNothing(sum);
      PlusTwice(sum, Unsure(open, k));
      if b.mii == MiiUp || unused {
      } else if b.mii == NoMii {
        MarkUnsure(open, k);
        unsure := true;
      } else {
        bad := bad + 1;
      }
      if b.mode == NoMode {
        MarkUnsure(open, k);
        unsure := true;
      }
      var want := if named then e.links[b.name].members else 0;
      if b.membersUnread {
        MarkUnsure(open, k);
        unsure := true;
      } else if want > 0 && |b.members| + b.membersOmitted < want {
        bad := bad + 1;
      }
      ghost var doubts := if unsure then Unsure(open, k) else NOTHING;
      assert sum == Plus(old(sum), doubts);
      ghost var found := if bad > 0 then Found(NetDegraded, b.name, Net) else NOTHING;
      PlusNothing(sum);
      if bad > 0 { Add(NetDegraded, b.name, Net); }
      PlusAssoc(old(sum), doubts, found);
      CutShort(b.membersOmitted > 0, Net);
      PlusAssoc(old(sum), Plus(doubts, found), CutIf(b.membersOmitted > 0, Net));
    }

    method AssessBond(b: Bond, e: Expectations, open: Open)
      requires Valid()
      modifies `findings, `cut, `held, `capacityUnreported, `sum
      ensures Valid() && sum == Plus(old(sum), OfBond(b, e, open))
    {
      hide Plus, Union, Valid, OfTraffic, BondStatePart, OfMember;
      var load := OfTraffic(b.name, b.traffic, b.mii != MiiDown, b.mii == MiiUp, e, open);
      AssessTraffic(b.name, b.traffic, b.mii != MiiDown, b.mii == MiiUp, e, open);
      TakeBondState(b, e, open);
      PlusAssoc(old(sum), load, BondStatePart(b, e, open));
      ghost var start := sum;
      ghost var parts := seq(|b.members|, i requires 0 <= i < |b.members| => OfMember(b, b.members[i], open));
      ListStart(sum, parts);
      for i := 0 to |b.members|
        invariant Valid() && sum == Plus(start, Union(parts[..i]))
      {
        ListStep(start, parts, i, sum);
        TakeMember(b, b.members[i], open);
      }
      assert parts[..|parts|] == parts;
      PlusAssoc(old(sum), Plus(load, BondStatePart(b, e, open)), Union(parts));
    }

    method AssessPorts(n: Network, e: Expectations, open: Open, ghost parts: seq<Part>) returns (listed: seq<string>)
      requires Valid() && |parts| == |n.interfaces|
      requires forall i :: 0 <= i < |parts| ==> parts[i] == OfInterface(n.interfaces[i], e, open)
      modifies `findings, `cut, `held, `speedUnreported, `capacityUnreported, `sum
      ensures Valid() && sum == Plus(old(sum), Union(parts))
      ensures forall d :: d in listed <==> exists i :: i in n.interfaces && i.name == d
    {
      hide Plus, Union, Valid, OfInterface;
      listed := [];
      ListStart(sum, parts);
      for i := 0 to |n.interfaces|
        invariant Valid() && sum == Plus(old(sum), Union(parts[..i]))
        invariant forall d :: d in listed <==> exists j :: 0 <= j < i && n.interfaces[j].name == d
      {
        listed := listed + [n.interfaces[i].name];
        ListStep(old(sum), parts, i, sum);
        AssessInterface(n.interfaces[i], e, open);
      }
      assert parts[..|parts|] == parts;
    }

    /** The names a bond lists: its own and its members'. */
    static method BondNames(b: Bond) returns (names: seq<string>)
      ensures forall d :: d in names <==> d == b.name || exists m :: m in b.members && d == MemberDevice(b.name, m.name)
    {
      names := [b.name];
      for i := 0 to |b.members|
        invariant forall d :: d in names <==>
                d == b.name || exists j :: 0 <= j < i && d == MemberDevice(b.name, b.members[j].name)
      {
        names := names + [MemberDevice(b.name, b.members[i].name)];
      }
    }

    method AssessBonds(n: Network, e: Expectations, open: Open, ghost parts: seq<Part>) returns (listed: seq<string>)
      requires Valid() && |parts| == |n.bonds|
      requires forall i :: 0 <= i < |parts| ==> parts[i] == OfBond(n.bonds[i], e, open)
      modifies `findings, `cut, `held, `capacityUnreported, `sum
      ensures Valid() && sum == Plus(old(sum), Union(parts))
      ensures forall d :: d in listed <==>
                exists b :: b in n.bonds && (d == b.name ||
                    exists m :: m in b.members && d == MemberDevice(b.name, m.name))
    {
      hide Plus, Union, Valid, OfBond;
      listed := [];
      ListStart(sum, parts);
      for i := 0 to |n.bonds|
        invariant Valid() && sum == Plus(old(sum), Union(parts[..i]))
        invariant forall d :: d in listed <==>
          exists j :: 0 <= j < i && (d == n.bonds[j].name ||
                                     exists m :: m in n.bonds[j].members && d == MemberDevice(n.bonds[j].name, m.name))
      {
        var names := BondNames(n.bonds[i]);
        listed := listed + names;
        ListStep(old(sum), parts, i, sum);
        AssessBond(n.bonds[i], e, open);
      }
      assert parts[..|parts|] == parts;
    }

    /** The walk over the links the policy names. */
    method TakeMissing(missing: set<string>, cut: bool, open: Open)
      requires Valid()
      modifies `findings, `held, `sum
      ensures Valid() && sum == Plus(old(sum), MissingPart(missing, cut, open))
    {
      hide Plus, Hold, Found, Valid;
      var left := missing;
      PlusNothing(sum);
      assert missing - left == {};
      assert MissingPart({}, cut, open) == NOTHING;
      while left != {}
        invariant left <= missing && Valid() && sum == Plus(old(sum), MissingPart(missing - left, cut, open))
        decreases left
      {
        hide MissingPart;
        var name :| name in left;
        var k := Key(NetDegraded, name);
        MissingGrows(missing - left, cut, open, name);
        PlusAssoc(old(sum), MissingPart(missing - left, cut, open),
                  if cut then Hold(open, k) else Found(NetDegraded, name, NetExpected));
        assert missing - left + {name} == missing - (left - {name});
        left := left - {name};
        if cut { KeepOpen(open, k); } else { Add(NetDegraded, name, NetExpected); }
      }
      assert missing - left == missing;
    }

    method AssessNetwork(p: Pass, open: Open)
      requires Valid()
      modifies this
      ensures Valid() && sum == Plus(old(sum), NetReading(p, open))
      ensures unread == old(unread) + Unread(p) * {Net, NetExpected}
    {
      hide Plus, Valid, NetPart;
      PlusNothing(sum);
      assert Unread(p) * {Net, NetExpected} == if NetUnread(p) then {Net, NetExpected} else {};
      if NetUnread(p) {
        MarkUnread({Net, NetExpected});
        return;
      }
      AssessLinks(p.status.network.value, p.net, open);
    }

    method AssessLinks(n: Network, e: Expectations, open: Open)
      requires Valid()
      modifies `findings, `cut, `held, `speedUnreported, `capacityUnreported, `sum
      ensures Valid() && sum == Plus(old(sum), NetPart(n, e, open))
    {
      hide Plus, Union, HoldUnlisted, CutIf, OfInterface, OfBond, Valid, MissingPart;
      ghost var ports := seq(|n.interfaces|, i requires 0 <= i < |n.interfaces| =>
          OfInterface(n.interfaces[i], e, open));
      ghost var bonds := seq(|n.bonds|, i requires 0 <= i < |n.bonds| => OfBond(n.bonds[i], e, open));
      var listed := AssessPorts(n, e, open, ports);
      var more := AssessBonds(n, e, open, bonds);
      PlusAssoc(old(sum), Union(ports), Union(bonds));
      ghost var start := sum;
      listed := listed + more;
      ListedNames(n, listed);
      var cut := n.interfacesOmitted > 0 || n.bondsOmitted > 0 || |listed| == 0;
      var missing := set name | name in e.links && name !in listed;
      assert missing == MissingLinks(n, e) && cut == NetListCut(n) by {
        assert forall d :: d in listed <==> d in (set d | d in listed);
      }
      TakeMissing(missing, cut, open);
      KeepUnlisted(open, Net, listed);
      CutShort(cut, Net);
      Regroup(old(sum), Plus(Union(ports), Union(bonds)), MissingPart(missing, cut, open),
              HoldUnlisted(open, Net, ListedLinks(n)), CutIf(cut, Net));
    }

    // ----- the pass -----

    /** `Assess`. */
    method Assess(p: Pass, open: Open)
      requires Valid() && sum == NOTHING && unread == {}
      modifies this
      ensures Valid() && sum == Reading(p, open) && unread == Unread(p)
    {
      hide Plus, Valid, LocalReading, DrivesReading, SMARTReading, NetReading;
      AssessLocal(p, open);
      assert SMART in unread <==> LocalUnread(p.status.storage, p.now);
      AssessDrives(p, SMART in unread, open);
      AssessSMART(p, SMART in unread, open);
      AssessNetwork(p, open);
      assert unread == Unread(p);
      PlusNothing(LocalReading(p, open));
      PlusAssoc(Plus(LocalReading(p, open), DrivesReading(p, open)), SMARTReading(p, open), NetReading(p, open));
    }

    /** Whether an open alert of the check could not be re-read. */
    method KeepsSome(c: Check, open: Open) returns (any: bool)
      ensures any <==> exists k :: k in open && k.check == c && (open[k] in unread || k in held)
    {
      var left := open.Keys;
      while left != {}
        invariant left <= open.Keys
        invariant forall k :: k in open && k !in left ==> !(k.check == c && (open[k] in unread || k in held))
        decreases left
      {
        var k :| k in left;
        if k.check == c && (open[k] in unread || k in held) { return true; }
        left := left - {k};
      }
      return false;
    }

    /** Whether the pass found anything the check is about. */
    method FindsSome(c: Check) returns (any: bool)
      requires Valid()
      ensures any <==> exists f :: f in sum.findings && f.key.check == c
    {
      for i := 0 to |findings|
        invariant forall j :: 0 <= j < i ==> findings[j].key.check != c
      {
        if findings[i].key.check == c {
          assert findings[i] in sum.findings;
          return true;
        }
      }
      return false;
    }

    /** Whether a scope the check needs was not read, or only in part. */
    method MissesSome(c: Check) returns (any: bool)
      requires Valid()
      ensures any <==> exists s :: s in CheckScopes(c) && (s in unread || s in sum.cut)
    {
      hide CheckScopes;
      var missing := CheckScopes(c) * (unread + cut);
      any := missing != {};
      if any {
        var s :| s in missing;
      }
      if s :| s in CheckScopes(c) && (s in unread || s in cut) {
        assert s in missing;
      }
    }

    /** `Verdict`. */
    method Decide(c: Check, open: Open, ghost p: Pass) returns (v: Verdict)
      requires Valid() && sum == Reading(p, open) && unread == Unread(p)
      ensures v == VerdictOf(p, open, c)
    {
      hide Reading, Unread;
      var found := FindsSome(c);
      if found { return True; }
      var kept := KeepsSome(c, open);
      if kept { return True; }
      var missing := MissesSome(c);
      if missing || (c == Degraded && |smartSilent| > 0) {
        assert |smartSilent| > 0 ==> smartSilent[0] in sum.silent;
        return Unknown;
      }
      if c == WearHigh && (SMART in cut || wearUnreported > 0) { return Unknown; }
      if c == LinkSlow && speedUnreported > 0 { return Unknown; }
      if c == Saturated && capacityUnreported > 0 { return Unknown; }
      return False;
    }
  }

  lemma ListedNames(n: Network, listed: seq<string>)
    requires forall d :: d in listed <==>
               || (exists i :: i in n.interfaces && i.name == d)
               || (exists b :: b in n.bonds &&
                    (d == b.name || exists m :: m in b.members && d == MemberDevice(b.name, m.name)))
    ensures (set d | d in listed) == ListedLinks(n)
    ensures |listed| == 0 <==> n.interfaces == [] && n.bonds == []
  {
    assert n.interfaces != [] ==> n.interfaces[0].name in listed;
    assert n.bonds != [] ==> n.bonds[0].name in listed;
    assert |listed| > 0 ==> listed[0] in listed;
  }

  lemma Regroup(a: Part, b: Part, c: Part, d: Part, e: Part)
    ensures Plus(Plus(Plus(Plus(a, b), c), d), e) == Plus(a, Plus(b, Plus(Plus(c, d), e)))
  {
    hide Plus;
    PlusAssoc(Plus(a, b), c, d);
    PlusAssoc(Plus(a, b), Plus(c, d), e);
    PlusAssoc(a, b, Plus(Plus(c, d), e));
  }
}
