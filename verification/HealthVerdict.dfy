/** What a condition written from an assessment promises. */
module HealthVerdict {
  import opened Text
  import opened Traffic
  import opened Health
  import opened HealthReference
  import opened HealthAlerts
  import opened HealthPasses
  import opened HealthComplete
  import opened HealthRuns

  /** A check's verdict is True exactly when an alert of that check fires after the pass. */
  lemma TrueIffFiring(p: Pass, open: Open, open': Open, c: Check)
    requires Next(p, open, open')
    ensures VerdictOf(p, open, c) == True <==> exists k :: k in open' && k.check == c
  {
    hide Reading, Reads, Keeps;
    var r := Reading(p, open);
    if f :| f in r.findings && f.key.check == c {
      assert IsFound(p, open, f.key);
      assert f.key in open';
    }
    if k :| k in open' && k.check == c {
      if IsFound(p, open, k) {
        var f :| f in r.findings && f.key == k;
        assert f.key.check == c;
      } else {
        assert k in open && Keeps(p, open, k);
      }
    }
  }

  /** And False exactly when none fires and the pass read all the check is about; Unknown is
      the rest. */
  lemma FalseIffComplete(p: Pass, open: Open, open': Open, c: Check)
    requires Next(p, open, open')
    ensures VerdictOf(p, open, c) == False <==> IsComplete(p, c) && forall k :: k in open' ==> k.check != c
  {
    hide Next, Reading, Reads, VerdictOf, Marks, IsMarked, Concerns;
    TrueIffFiring(p, open, open', c);
    VerdictByMarks(p, open, c);
    forall m: Mark
      ensures Marks(Reading(p, open), m) <==> IsMarked(p, m)
    {
      ReadingIsMarked(p, open, m);
    }
  }

  // ----- reads that fail -----

  /** A check that could not be read is not said to be fine. */
  lemma UnreadIsNotFalse(p: Pass, open: Open, c: Check, s: Scope)
    requires s in Needs(c) && !Reads(p, s)
    ensures VerdictOf(p, open, c) != False
  {
    hide VerdictOf, Reads, Reading, Concerns, Marks;
    VerdictByMarks(p, open, c);
  }

  /** What an unread scope comes to: nothing is found under it, nothing that rests on it
      leaves, and no check that needs it is False. */
  ghost predicate ChangesNothing(p: Pass, open: Open, open': Open, scopes: set<Scope>, checks: set<Check>) {
    && (forall f :: f in Reading(p, open).findings ==> f.scope !in scopes)
    && (forall k :: k in open && open[k] in scopes ==> k in open')
    && (forall c :: c in checks ==> VerdictOf(p, open, c) != False)
  }

  lemma UnreadChangesNothing(p: Pass, open: Open, open': Open, scopes: set<Scope>, checks: set<Check>)
    requires Next(p, open, open') && forall s :: s in scopes ==> !Reads(p, s)
    requires forall c :: c in checks ==> exists s :: s in scopes && s in Needs(c)
    ensures ChangesNothing(p, open, open', scopes, checks)
  {
    hide Next, Reading, Reads, VerdictOf;
    forall s | s in scopes
      ensures forall f :: f in Reading(p, open).findings ==> f.scope != s
      ensures forall k :: k in open && open[k] == s ==> k in open'
    {
      UnreadScopeIsInert(p, open, open', s);
    }
    forall c | c in checks
      ensures VerdictOf(p, open, c) != False
    {
      var s :| s in scopes && s in Needs(c);
      UnreadIsNotFalse(p, open, c, s);
    }
  }

  /** A node whose agent never reported on its stacks, or has not for more than ten minutes,
      changes nothing about arrays, pools and disks: its old readings neither raise nor close
      an alert, and no condition of theirs is False. */
  lemma SilentAgentChangesNothing(p: Pass, open: Open, open': Open)
    requires Next(p, open, open')
    requires var s := p.status.storage;
             s.None? || s.value.local.None? || s.value.observedAt.None? || p.now - s.value.observedAt.value > 600
    ensures ChangesNothing(p, open, open', {MD, ZFS, SMART}, {Degraded, ScrubErrors, CapacityHigh})
  {
    hide Next, Reading, VerdictOf, ChangesNothing;
    UnreadChangesNothing(p, open, open', {MD, ZFS, SMART}, {Degraded, ScrubErrors, CapacityHigh});
  }

  /** Nor does a stack whose read failed, is still running, or says what nobody knows. */
  lemma UnreadStackChangesNothing(p: Pass, open: Open, open': Open)
    requires Next(p, open, open') && p.status.storage.Some? && p.status.storage.value.local.Some?
    ensures p.status.storage.value.local.value.md.state in {StackError, Busy, OtherState} ==>
              ChangesNothing(p, open, open', {MD}, {Degraded})
    ensures p.status.storage.value.local.value.zfs.state in {StackError, Busy, OtherState} ==>
              ChangesNothing(p, open, open', {ZFS}, {Degraded, ScrubErrors, CapacityHigh})
  {
    hide Next, Reading, VerdictOf, ChangesNothing;
    if !Reads(p, MD) { UnreadChangesNothing(p, open, open', {MD}, {Degraded}); }
    if !Reads(p, ZFS) { UnreadChangesNothing(p, open, open', {ZFS}, {Degraded, ScrubErrors, CapacityHigh}); }
  }

  /** Nor the inventory of a BMC that did not answer, or lists no drive. */
  lemma UnansweredBmcChangesNothing(p: Pass, open: Open, open': Open)
    requires Next(p, open, open')
    requires !p.inventoryFresh || p.status.inventory.None? || p.status.inventory == Some([])
    ensures ChangesNothing(p, open, open', {Drives}, {WearHigh})
  {
    hide Next, Reading, VerdictOf, ChangesNothing;
    UnreadChangesNothing(p, open, open', {Drives}, {WearHigh});
  }

  /** Nor links under a policy that could not be read, or a report of them that is missing,
      failed, or more than ten minutes old. */
  lemma UnreadLinksChangeNothing(p: Pass, open: Open, open': Open)
    requires Next(p, open, open')
    requires var n := p.status.network;
             || p.net.unread || n.None? || n.value.failed
             || n.value.observedAt.None? || p.now - n.value.observedAt.value > 600
    ensures ChangesNothing(p, open, open', {Net, NetExpected}, {NetDegraded, LinkSlow, Saturated, LinkErrors})
  {
    hide Next, Reading, VerdictOf, ChangesNothing;
    UnreadChangesNothing(p, open, open', {Net, NetExpected}, {NetDegraded, LinkSlow, Saturated, LinkErrors});
  }

  // ----- storage -----

  /** Everything `StorageDegraded` looks at was read, in full, and is healthy. */
  predicate StorageIsHealthy(p: Pass) {
    && Reads(p, MD) && Reads(p, ZFS) && Reads(p, SMART)
    && var s := p.status.storage.value;
       var md, zfs := s.local.value.md, s.local.value.zfs;
       && md.omitted <= 0 && (forall a :: a in md.arrays ==> !a.degraded)
       && zfs.omitted <= 0
       && (forall q :: q in zfs.pools ==>
             q.health == Online && q.vdevsOmitted <= 0 && forall v :: v in q.vdevs ==> VdevIsWell(v))
       && |s.observed| < 64
       && (forall d :: d in s.observed && OwesOwnRead(d, BmcDrive(InventoryOf(p), d.serial)) ==>
             !IsMute(d) && d.smart.value.passed.value)
  }

  /** A pool without problems and read in full is well. */
  lemma WholePoolIsWell(q: ZPool)
    ensures !PoolIsUnwell(q) && !PoolMarks(q, Cut(ZFS)) <==>
            q.health == Online && q.vdevsOmitted <= 0 && forall v :: v in q.vdevs ==> VdevIsWell(v)
  {
    if v :| v in q.vdevs && !VdevIsWell(v) {
      var i :| 0 <= i < |q.vdevs| && q.vdevs[i] == v;
      assert PoolIsUnwell(q);
    }
  }

  lemma BadArrayFires(p: Pass, open: Open, open': Open, a: MDArray)
    requires Next(p, open, open') && Reads(p, MD)
    requires a in p.status.storage.value.local.value.md.arrays && a.degraded
    ensures Key(Degraded, a.name) in open'
  {
    hide Next, Reading, LocalReading, DrivesReading, SMARTReading, NetReading, Touches, ZFSKeeps;
    var k := Key(Degraded, a.name);
    FiresExactlyWhen(p, open, open', k);
    ReadingTouches(p, open, k);
    LocalTouches(p, open, k);
    assert a == MDArray(k.device, true);
  }

  lemma PoolFires(p: Pass, open: Open, open': Open, q: ZPool, k: Key)
    requires Next(p, open, open') && Reads(p, ZFS)
    requires q in p.status.storage.value.local.value.zfs.pools && PoolKeeps(q, p.limits, open, k)
    ensures k in open'
  {
    hide Next, Reading, LocalReading, DrivesReading, SMARTReading, NetReading, Touches, MDKeeps, PoolKeeps, Reads;
    FiresExactlyWhen(p, open, open', k);
    ReadingTouches(p, open, k);
    LocalTouches(p, open, k);
  }

  lemma DiskFires(p: Pass, open: Open, open': Open, d: ObservedDisk, k: Key)
    requires Next(p, open, open') && Reads(p, SMART)
    requires d in p.status.storage.value.observed && DiskKeeps(d, BmcDrive(InventoryOf(p), d.serial), p.limits, open, k)
    ensures k in open'
  {
    hide Next, Reading, LocalReading, DrivesReading, SMARTReading, NetReading, Touches, DiskKeeps, Reads, BmcDrive;
    FiresExactlyWhen(p, open, open', k);
    ReadingTouches(p, open, k);
    SMARTReadingTouches(p, open, k);
  }

  lemma PortFires(p: Pass, open: Open, open': Open, i: Interface, k: Key)
    requires Next(p, open, open') && Reads(p, Net)
    requires i in p.status.network.value.interfaces && PortKeeps(i, p.net, open, k)
    ensures k in open'
  {
    hide Next, Reading, LocalReading, DrivesReading, SMARTReading, NetReading, Touches, PortKeeps, BondKeeps,
        MissingKeeps, IsListed, Reads;
    FiresExactlyWhen(p, open, open', k);
    ReadingTouches(p, open, k);
    NetReadingTouches(p, open, k);
  }

  /** What completeness comes to for `StorageDegraded`. */
  lemma CompleteStorage(p: Pass)
    ensures IsComplete(p, Degraded) <==>
            && Reads(p, MD) && Reads(p, ZFS) && Reads(p, SMART)
            && p.status.storage.value.local.value.md.omitted <= 0
            && !PoolsMark(p.status.storage.value.local.value.zfs, Cut(ZFS))
            && |p.status.storage.value.observed| < 64
            && forall d :: d in p.status.storage.value.observed ==>
                 !DiskMarks(d, BmcDrive(InventoryOf(p), d.serial), SmartSilent)
  {
    hide BmcDrive, LinksMark, OwesOwnRead;
    assert Needs(Degraded) == {MD, ZFS, SMART};
    if Reads(p, MD) && Reads(p, ZFS) && Reads(p, SMART) {
      assert Reads(p, MD) && Reads(p, ZFS) && Reads(p, SMART);
      StorageMarks(p);
      forall m | Concerns(Degraded, m) ensures m in {Cut(MD), Cut(ZFS), Cut(SMART), SmartSilent} { }
    }
  }

  lemma StorageMarks(p: Pass)
    requires Reads(p, MD) && Reads(p, ZFS) && Reads(p, SMART)
    ensures IsMarked(p, Cut(MD)) <==> p.status.storage.value.local.value.md.omitted > 0
    ensures IsMarked(p, Cut(ZFS)) <==> PoolsMark(p.status.storage.value.local.value.zfs, Cut(ZFS))
    ensures IsMarked(p, Cut(SMART)) <==> |p.status.storage.value.observed| >= 64
    ensures IsMarked(p, SmartSilent) <==>
            exists d :: d in p.status.storage.value.observed &&
                DiskMarks(d, BmcDrive(InventoryOf(p), d.serial), SmartSilent)
  {
    hide BmcDrive, OwesOwnRead, SaysWear;
    LinksMarkNoStorage(p.status.network, p.net);
  }

  /** Links mark only network scopes and figures of links. */
  lemma LinksMarkNoStorage(n: Option<Network>, e: Expectations)
    ensures n.Some? ==> forall m: Mark ::
      m in {Cut(MD), Cut(ZFS), Cut(Drives), Cut(SMART), SmartSilent, WearUnreported} ==> !LinksMark(n.value, e, m)
  {
    hide ListIsCut, BondIsUnclear, MemberIsBad, MemberIsUnclear;
  }

  /** `StorageDegraded` False claims a complete healthy read, and exactly then: it is False
      when the whole of storage was read in full and is healthy and no alert of the check
      fires. */
  lemma FalseIffHealthyStorage(p: Pass, open: Open, open': Open)
    requires Next(p, open, open')
    ensures VerdictOf(p, open, Degraded) == False <==>
            StorageIsHealthy(p) && forall k :: k in open' ==> k.check != Degraded
  {
    hide Next, VerdictOf, IsComplete, BmcDrive, PoolMarks, OwesOwnRead, PoolIsUnwell, PoolKeeps;
    FalseIffComplete(p, open, open', Degraded);
    CompleteStorage(p);
    if Reads(p, MD) && Reads(p, ZFS) && Reads(p, SMART) {
      assert Reads(p, MD) && Reads(p, ZFS) && Reads(p, SMART);
      var s := p.status.storage.value;
      forall q | q in s.local.value.zfs.pools
        ensures !PoolIsUnwell(q) && !PoolMarks(q, Cut(ZFS)) <==>
                q.health == Online && q.vdevsOmitted <= 0 && forall v :: v in q.vdevs ==> VdevIsWell(v)
      {
        WholePoolIsWell(q);
      }
      if forall k :: k in open' ==> k.check != Degraded {
        NothingDegradedFires(p, open, open');
      }
    }
  }

  lemma NothingDegradedFires(p: Pass, open: Open, open': Open)
    requires Next(p, open, open') && Reads(p, MD) && Reads(p, ZFS) && Reads(p, SMART)
    requires forall k :: k in open' ==> k.check != Degraded
    ensures var s := p.status.storage.value;
            && (forall a :: a in s.local.value.md.arrays ==> !a.degraded)
            && (forall q :: q in s.local.value.zfs.pools ==> !PoolIsUnwell(q))
            && (forall d :: d in s.observed ==> IsMute(d) || d.smart.value.passed.value)
  {
    hide Next, BmcDrive, PoolIsUnwell;
    var s := p.status.storage.value;
    forall a | a in s.local.value.md.arrays ensures !a.degraded {
      if a.degraded { BadArrayFires(p, open, open', a); }
    }
    forall q | q in s.local.value.zfs.pools ensures !PoolIsUnwell(q) {
      if PoolIsUnwell(q) { PoolFires(p, open, open', q, Key(Degraded, q.name)); }
    }
    forall d | d in s.observed ensures IsMute(d) || d.smart.value.passed.value {
      if !IsMute(d) && !d.smart.value.passed.value { DiskFires(p, open, open', d, Key(Degraded, d.serial)); }
    }
  }

  // ----- capacity -----

  /** Every pool was listed, and each is known to be unwell or was read in full. */
  predicate PoolsAreWhole(p: Pass) {
    && Reads(p, ZFS)
    && var z := p.status.storage.value.local.value.zfs;
       && z.omitted <= 0
       && forall q :: q in z.pools ==> PoolIsUnwell(q) || (q.vdevsOmitted <= 0 && q.health != NoHealth)
  }

  lemma CompletePools(p: Pass, c: Check)
    requires c in {ScrubErrors, CapacityHigh}
    ensures IsComplete(p, c) <==> PoolsAreWhole(p)
  {
    hide BmcDrive, LinksMark, PoolIsUnwell, SaysWear;
    assert Needs(c) == {ZFS};
    forall m | Concerns(c, m) ensures m == Cut(ZFS) { }
    assert Concerns(c, Cut(ZFS));
    LinksMarkNoStorage(p.status.network, p.net);
    if Reads(p, ZFS) {
      assert IsMarked(p, Cut(ZFS)) <==> PoolsMark(p.status.storage.value.local.value.zfs, Cut(ZFS));
    }
  }

  /** `ScrubErrors` and `StorageCapacityHigh` are False exactly when the pools were read and
      listed in full and no alert of the check fires. */
  lemma FalseIffPoolsAreWhole(p: Pass, open: Open, open': Open, c: Check)
    requires Next(p, open, open') && c in {ScrubErrors, CapacityHigh}
    ensures VerdictOf(p, open, c) == False <==> PoolsAreWhole(p) && forall k :: k in open' ==> k.check != c
  {
    hide Next, VerdictOf, IsComplete, PoolsAreWhole;
    FalseIffComplete(p, open, open', c);
    CompletePools(p, c);
  }

  /** The pool neither raises the capacity alert nor keeps one open. */
  predicate PoolHasRoom(q: ZPool, t: Thresholds, open: Open) {
    var isOpen := Key(CapacityHigh, q.name) in open;
    if q.capacity.None? then !isOpen
    else q.capacity.value < if isOpen then t.capacity - 2 else t.capacity
  }

  /** Every open capacity alert is about a listed pool. */
  predicate CapacityAlertsAreListed(p: Pass, open: Open)
    requires Reads(p, ZFS)
  {
    forall k :: k in open && k.check == CapacityHigh ==>
      exists q :: q in p.status.storage.value.local.value.zfs.pools && q.name == k.device
  }

  /** What False claims of capacity, told from the read and what was open before it: every
      pool that gave a percentage has room, and one that gave none had no alert open. */
  lemma FalseCapacityIff(p: Pass, open: Open)
    requires AtHome(open)
    ensures VerdictOf(p, open, CapacityHigh) == False <==>
            && PoolsAreWhole(p)
            && CapacityAlertsAreListed(p, open)
            && forall q :: q in p.status.storage.value.local.value.zfs.pools ==> PoolHasRoom(q, p.limits, open)
  {
    hide Next, VerdictOf, Reads, PoolIsUnwell, PoolHasRoom;
    var open' := After(p, open);
    AfterIsNext(p, open, open');
    FalseIffPoolsAreWhole(p, open, open', CapacityHigh);
    if Reads(p, ZFS) { CapacityFiresIff(p, open, open'); }
  }

  lemma CapacityFiresIff(p: Pass, open: Open, open': Open)
    requires Next(p, open, open') && AtHome(open) && Reads(p, ZFS)
    ensures (forall k :: k in open' ==> k.check != CapacityHigh) <==>
            && CapacityAlertsAreListed(p, open)
            && forall q :: q in p.status.storage.value.local.value.zfs.pools ==> PoolHasRoom(q, p.limits, open)
  {
    hide Next, PoolKeeps, PoolHasRoom, AtHome;
    var pools := p.status.storage.value.local.value.zfs.pools;
    forall k: Key | k.check == CapacityHigh
      ensures k in open' <==> ZFSKeeps(p.status.storage.value.local.value.zfs, p.limits, open, k)
      ensures k in open ==> open[k] == ZFS
    {
      CapacityFires(p, open, open', k);
    }
    forall q | q in pools
      ensures PoolHasRoom(q, p.limits, open) <==> !PoolKeeps(q, p.limits, open, Key(CapacityHigh, q.name))
    {
      RoomIsNotKept(q, p.limits, open);
    }
    forall q, k: Key | q in pools && k.check == CapacityHigh && PoolKeeps(q, p.limits, open, k)
      ensures k == Key(CapacityHigh, q.name)
    {
      PoolKeepsItsOwn(q, p.limits, open, k);
    }
    if forall k :: k in open' ==> k.check != CapacityHigh {
      forall q | q in pools ensures PoolHasRoom(q, p.limits, open) {
        var k := Key(CapacityHigh, q.name);
        assert k !in open';
      }
      forall k | k in open && k.check == CapacityHigh
        ensures exists q :: q in pools && q.name == k.device
      {
        assert k !in open';
      }
    }
  }

  lemma RoomIsNotKept(q: ZPool, t: Thresholds, open: Open)
    ensures PoolHasRoom(q, t, open) <==> !PoolKeeps(q, t, open, Key(CapacityHigh, q.name))
  {
  }

  lemma CapacityFires(p: Pass, open: Open, open': Open, k: Key)
    requires Next(p, open, open') && AtHome(open) && Reads(p, ZFS) && k.check == CapacityHigh
    ensures k in open' <==> ZFSKeeps(p.status.storage.value.local.value.zfs, p.limits, open, k)
    ensures k in open ==> open[k] == ZFS
  {
    hide Next, Reading, LocalReading, DrivesReading, SMARTReading, NetReading, Touches, ZFSKeeps, Reads;
    assert k in open ==> open[k] in Home(CapacityHigh);
    FiresExactlyWhen(p, open, open', k);
    ReadingTouches(p, open, k);
    LocalTouches(p, open, k);
    OtherListsKeepNothing(p, open, k);
  }

  /** So a False may hide a pool `zpool` could not size: exactly one with no capacity alert
      open, all else being as False requires. */
  lemma UnsizedPoolIsHiddenIff(p: Pass, open: Open, name: string)
    requires AtHome(open) && PoolsAreWhole(p) && CapacityAlertsAreListed(p, open)
    requires var pools := p.status.storage.value.local.value.zfs.pools;
             && (exists q :: q in pools && q.name == name)
             && forall q :: q in pools ==> if q.name == name then q.capacity.None? else PoolHasRoom(q, p.limits, open)
    ensures VerdictOf(p, open, CapacityHigh) == False <==> Key(CapacityHigh, name) !in open
  {
    hide VerdictOf, PoolsAreWhole, CapacityAlertsAreListed, Reads;
    FalseCapacityIff(p, open);
  }

  lemma UnsizedPoolReadsFalse(q: ZPool)
    requires q == ZPool("tank", Online, [], 0, None, true, None)
    ensures exists p: Pass ::
      && VerdictOf(p, map[], CapacityHigh) == False && Reads(p, ZFS)
      && p.status.storage.value.local.value.zfs.pools == [q]
  {
    hide VerdictOf;
    var local := Local(MDStatus(Absent, [], 0), ZFSStatus(Present, [q], 0));
    var p := Pass(Status(Some(Storage([], Some(0), Some(local))), None, None), Thresholds(80, 80),
                  Expectations(1000, 90, 10, map[], false), false, 0);
    assert q in p.status.storage.value.local.value.zfs.pools;
    UnsizedPoolIsHiddenIff(p, map[], "tank");
  }

  // ----- wear -----

  /** Every solid-state disk has a current figure, from its BMC or from itself. */
  predicate WearIsKnown(p: Pass) {
    var s, unread := p.status.storage, !HearsNode(p);
    && Reads(p, Drives) && |InventoryOf(p)| < 32
    && (forall d :: d in InventoryOf(p) && d.isSSD && d.used.None? ==> SaysWear(s, !unread, d.serial))
    && (Reads(p, SMART) ==>
          && |s.value.observed| < 64
          && forall d :: d in s.value.observed ==> !OwesWear(d, BmcDrive(InventoryOf(p), d.serial)))
    && (!Reads(p, SMART) && s.Some? ==>
          forall d :: d in s.value.observed && NotSpinning(d) ==> !NeedsOwnFigure(BmcDrive(InventoryOf(p), d.serial)))
  }

  lemma CompleteWear(p: Pass)
    ensures IsComplete(p, WearHigh) <==> WearIsKnown(p)
  {
    hide BmcDrive, LinksMark, SaysWear, OwesWear, NotSpinning, NeedsOwnFigure, OwesOwnRead, PoolIsUnwell;
    assert Needs(WearHigh) == {Drives};
    forall m | Concerns(WearHigh, m) ensures m in {Cut(Drives), Cut(SMART), WearUnreported} { }
    assert Concerns(WearHigh, Cut(Drives)) && Concerns(WearHigh, Cut(SMART)) && Concerns(WearHigh, WearUnreported);
    LinksMarkNoStorage(p.status.network, p.net);
    assert IsMarked(p, Cut(SMART)) <==> Reads(p, SMART) && |p.status.storage.value.observed| >= 64;
    assert Reads(p, Drives) ==> (IsMarked(p, Cut(Drives)) <==> |InventoryOf(p)| >= 32);
    if Reads(p, Drives) { WearMarks(p); }
  }

  lemma WearMarks(p: Pass)
    requires Reads(p, Drives)
    ensures var s, unread := p.status.storage, !HearsNode(p);
            IsMarked(p, WearUnreported) <==>
            || (exists d :: d in InventoryOf(p) && d.isSSD && d.used.None? && !SaysWear(s, !unread, d.serial))
            || (Reads(p, SMART) &&
                exists d :: d in s.value.observed && OwesWear(d, BmcDrive(InventoryOf(p), d.serial)))
            || (!Reads(p, SMART) && s.Some? &&
                exists d :: d in s.value.observed && NotSpinning(d) &&
                            NeedsOwnFigure(BmcDrive(InventoryOf(p), d.serial)))
  {
    hide BmcDrive, LinksMark, SaysWear, OwesWear, NotSpinning, NeedsOwnFigure, OwesOwnRead, PoolIsUnwell;
    LinksMarkNoStorage(p.status.network, p.net);
  }

  /** `DiskWearHigh` is False exactly when wear is known everywhere and no alert of it fires. */
  lemma FalseIffWearIsKnown(p: Pass, open: Open, open': Open)
    requires Next(p, open, open')
    ensures VerdictOf(p, open, WearHigh) == False <==> WearIsKnown(p) && forall k :: k in open' ==> k.check != WearHigh
  {
    hide Next, VerdictOf, IsComplete, WearIsKnown;
    FalseIffComplete(p, open, open', WearHigh);
    CompleteWear(p);
  }

  // ----- links -----

  /** The list is complete, every port says its state and every port that is up its speed,
      and every speed said is the one wanted or more. */
  predicate LinksAreFast(p: Pass) {
    && Reads(p, Net)
    && var n := p.status.network.value;
       && !ListIsCut(n)
       && (forall b :: b in n.bonds ==> b.membersOmitted <= 0)
       && (forall i :: i in n.interfaces ==>
             && i.oper != NoOperState
             && (i.oper == Up ==> i.speed.Some?)
             && (CarriesTraffic(i) && i.speed.Some? ==> i.speed.value >= SpeedWanted(i, p.net)))
  }

  lemma CompleteSpeeds(p: Pass)
    ensures IsComplete(p, LinkSlow) <==>
            && Reads(p, Net) && !ListIsCut(p.status.network.value)
            && (forall b :: b in p.status.network.value.bonds ==> b.membersOmitted <= 0)
            && (forall i :: i in p.status.network.value.interfaces ==>
                 i.oper != NoOperState && (i.oper == Up ==> i.speed.Some?))
  {
    hide BmcDrive, SaysWear, PoolIsUnwell, OwesOwnRead, BondIsUnclear, MemberIsBad, MemberIsUnclear, ListIsCut;
    assert Needs(LinkSlow) == {Net};
    forall m | Concerns(LinkSlow, m) ensures m in {Cut(Net), SpeedUnreported} { }
    assert Concerns(LinkSlow, Cut(Net)) && Concerns(LinkSlow, SpeedUnreported);
    StorageMarksNoLink(p);
  }

  lemma StorageMarksNoLink(p: Pass)
    ensures forall m: Mark :: m in {Cut(Net), SpeedUnreported} ==>
      (IsMarked(p, m) <==> Reads(p, Net) && LinksMark(p.status.network.value, p.net, m))
  {
    hide LinksMark, PoolIsUnwell, BmcDrive, SaysWear, OwesOwnRead, OwesWear;
  }

  /** `LinkSpeedLow` is False exactly when that was read and no alert of it fires. */
  lemma FalseIffLinksAreFast(p: Pass, open: Open, open': Open)
    requires Next(p, open, open')
    ensures VerdictOf(p, open, LinkSlow) == False <==> LinksAreFast(p) && forall k :: k in open' ==> k.check != LinkSlow
  {
    hide Next, VerdictOf, IsComplete, ListIsCut, SpeedWanted;
    FalseIffComplete(p, open, open', LinkSlow);
    CompleteSpeeds(p);
    if Reads(p, Net) && forall k :: k in open' ==> k.check != LinkSlow {
      forall i | i in p.status.network.value.interfaces
        ensures CarriesTraffic(i) && i.speed.Some? ==> i.speed.value >= SpeedWanted(i, p.net)
      {
        if CarriesTraffic(i) && i.speed.Some? && i.speed.value < SpeedWanted(i, p.net) {
          PortFires(p, open, open', i, Key(LinkSlow, i.name));
        }
      }
    }
  }

  // ----- the state and the load of links -----

  /** The list is whole, members included, and every port gives its state. */
  predicate LinkListIsWhole(p: Pass) {
    && Reads(p, Net)
    && var n := p.status.network.value;
       && !ListIsCut(n)
       && (forall b :: b in n.bonds ==> b.membersOmitted <= 0)
       && (forall i :: i in n.interfaces ==> i.oper != NoOperState)
  }

  /** Every port the policy names is known to be up or not, every bond gives its status, mode
      and members, and every member is known to be bad or not. */
  predicate LinkStatesAreKnown(p: Pass) {
    && LinkListIsWhole(p)
    && var n := p.status.network.value;
       && (forall i :: i in n.interfaces && i.name in p.net.links ==> i.oper != UnknownOper)
       && (forall b :: b in n.bonds ==> !BondIsUnclear(b, p.net))
       && (forall b, m :: b in n.bonds && m in b.members ==> MemberIsBad(b, m) || !MemberIsUnclear(b, m))
  }

  /** A link that carries gives its load over five minutes, and one that is up the capacity to
      measure it by. */
  predicate LoadIsKnown(l: Link) {
    l.carrying ==>
      && l.traffic.Some?
      && (l.traffic.value.capacityMbps.Some? ==> l.traffic.value.sustained.Some?)
      && (l.isUp ==> l.traffic.value.capacityMbps.Some?)
  }

  /** A link that carries counts enough errors to say so, or has counted for five minutes. */
  predicate ErrorsAreKnown(l: Link, e: Expectations) {
    l.carrying ==>
      && l.traffic.Some?
      && (l.traffic.value.errorsPerMinute >= e.errorsPerMinute || l.traffic.value.historySeconds >= 285)
  }

  predicate ForAllLinks(p: Pass, known: Link -> bool)
    requires Reads(p, Net)
  {
    && (forall i :: i in p.status.network.value.interfaces ==> known(PortLink(i)))
    && (forall b :: b in p.status.network.value.bonds ==> known(BondLink(b)))
  }

  /** Marks of links come from the links alone. */
  lemma OnlyLinksMark(p: Pass, m: Mark)
    requires m in {Cut(Net), Cut(NetState), Cut(NetTraffic), Cut(NetSustained), CapacityUnreported}
    ensures IsMarked(p, m) <==> Reads(p, Net) && LinksMark(p.status.network.value, p.net, m)
  {
    hide LinksMark, PoolIsUnwell, BmcDrive, SaysWear, OwesOwnRead, OwesWear;
  }

  lemma WholeListIsUnmarked(p: Pass)
    requires Reads(p, Net)
    ensures LinkListIsWhole(p) <==> !LinksMark(p.status.network.value, p.net, Cut(Net))
  {
    hide ListIsCut, BondIsUnclear, MemberIsBad, MemberIsUnclear;
  }

  lemma StateMarks(p: Pass)
    requires Reads(p, Net) && LinkListIsWhole(p)
    ensures LinkStatesAreKnown(p) <==> !LinksMark(p.status.network.value, p.net, Cut(NetState))
  {
    var n := p.status.network.value;
    hide ListIsCut, BondIsUnclear, MemberIsBad, MemberIsUnclear, Reads;
    assert forall i :: i in n.interfaces ==>
      (PortMarks(i, p.net, Cut(NetState)) <==> i.name in p.net.links && i.oper == UnknownOper);
  }

  lemma LoadsMark(p: Pass)
    requires Reads(p, Net)
    ensures ForAllLinks(p, l => LoadIsKnown(l)) <==>
            && !LinksMark(p.status.network.value, p.net, Cut(NetSustained))
            && !LinksMark(p.status.network.value, p.net, CapacityUnreported)
    ensures ForAllLinks(p, l => ErrorsAreKnown(l, p.net)) <==>
            !LinksMark(p.status.network.value, p.net, Cut(NetTraffic))
  {
    var n, e := p.status.network.value, p.net;
    hide ListIsCut, BondIsUnclear, MemberIsBad, MemberIsUnclear, Reads;
    forall i | i in n.interfaces
      ensures LoadIsKnown(PortLink(i)) <==>
              !PortMarks(i, e, Cut(NetSustained)) && !PortMarks(i, e, CapacityUnreported)
      ensures ErrorsAreKnown(PortLink(i), e) <==> !PortMarks(i, e, Cut(NetTraffic))
    {
    }
    forall b | b in n.bonds
      ensures LoadIsKnown(BondLink(b)) <==>
              !BondMarks(b, e, Cut(NetSustained)) && !BondMarks(b, e, CapacityUnreported)
      ensures ErrorsAreKnown(BondLink(b), e) <==> !BondMarks(b, e, Cut(NetTraffic))
    {
    }
  }

  lemma LinkConcerns(c: Check)
    requires c in {NetDegraded, Saturated, LinkErrors}
    ensures forall m: Mark :: Concerns(c, m) <==>
              || m == Cut(Net)
              || (c == NetDegraded && m == Cut(NetState))
              || (c == Saturated && (m == Cut(NetSustained) || m == CapacityUnreported))
              || (c == LinkErrors && m == Cut(NetTraffic))
  {
  }

  /** `NetworkDegraded`, `LinkSaturated` and `LinkErrorsRising` are False exactly when the links
      were read and listed in full, what the check goes by is known of each of them, and no
      alert of the check fires. */
  lemma FalseIffLinksAreKnown(p: Pass, open: Open, open': Open, c: Check)
    requires Next(p, open, open') && c in {NetDegraded, Saturated, LinkErrors}
    ensures VerdictOf(p, open, c) == False <==>
            && LinkListIsWhole(p)
            && (c == NetDegraded ==> LinkStatesAreKnown(p))
            && (c == Saturated ==> ForAllLinks(p, l => LoadIsKnown(l)))
            && (c == LinkErrors ==> ForAllLinks(p, l => ErrorsAreKnown(l, p.net)))
            && forall k :: k in open' ==> k.check != c
  {
    hide Next, VerdictOf, Concerns, IsMarked, LinksMark, LinkStatesAreKnown, ForAllLinks;
    FalseIffComplete(p, open, open', c);
    LinkConcerns(c);
    forall m: Mark | m in {Cut(Net), Cut(NetState), Cut(NetTraffic), Cut(NetSustained), CapacityUnreported}
      ensures IsMarked(p, m) <==> Reads(p, Net) && LinksMark(p.status.network.value, p.net, m)
    {
      OnlyLinksMark(p, m);
    }
    if Reads(p, Net) {
      WholeListIsUnmarked(p);
      LoadsMark(p);
      if LinkListIsWhole(p) { StateMarks(p); }
      hide LinkListIsWhole;
    }
  }
}
