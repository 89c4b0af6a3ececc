/** Runs of the machine health assessment: over any sequence of passes, what the
    hysteresis of the capacity and saturation alerts comes to. */
module HealthRuns {
  import opened Text
  import opened Traffic
  import opened Health
  import opened HealthReference
  import opened HealthAlerts
  import opened HealthPasses

  /** The open alerts before the first pass and after each. */
  ghost predicate IsRun(passes: seq<Pass>, opens: seq<Open>) {
    && |opens| == |passes| + 1
    && opens[0] == map[]
    && forall i :: 0 <= i < |passes| ==> Next(passes[i], opens[i], opens[i + 1])
  }

  /** Every alert rests on a scope of its check. */
  predicate AtHome(open: Open) {
    forall k :: k in open ==> open[k] in Home(k.check)
  }

  lemma PassKeepsHome(p: Pass, open: Open, open': Open)
    requires Next(p, open, open') && AtHome(open)
    ensures AtHome(open')
  {
    hide Reading;
    ReadingIsSound(p, open);
    forall k | k in open'
      ensures open'[k] in Home(k.check)
    {
      if IsFound(p, open, k) {
        assert Finding(k, open'[k]) in Reading(p, open).findings;
      }
    }
  }

  lemma {:induction false} RunKeepsHome(passes: seq<Pass>, opens: seq<Open>, j: nat)
    requires IsRun(passes, opens) && j <= |passes|
    ensures AtHome(opens[j])
  {
    hide Next;
    if j > 0 {
      RunKeepsHome(passes, opens, j - 1);
      assert Next(passes[j - 1], opens[j - 1], opens[j - 1 + 1]);
      PassKeepsHome(passes[j - 1], opens[j - 1], opens[j]);
    }
  }

  /** The last reading that decided anything; nothing fires before the first. */
  function LastDecisive(readings: seq<Option<bool>>): bool {
    if readings == [] then false
    else if readings[|readings| - 1].Some? then readings[|readings| - 1].value
    else LastDecisive(readings[..|readings| - 1])
  }

  // ----- capacity -----

  predicate UniquePools(p: Pass) {
    Reads(p, ZFS) ==>
      var pools := p.status.storage.value.local.value.zfs.pools;
      forall q, r :: q in pools && r in pools && q.name == r.name ==> q == r
  }

  /** Whether the pass decides about the pool: at or above the threshold, below it by more
      than the hysteresis, or neither. */
  function CapacityReading(p: Pass, name: string): Option<bool> {
    if !Reads(p, ZFS) then None
    else
      var pools := p.status.storage.value.local.value.zfs.pools;
      if exists q :: q in pools && q.name == name && q.capacity.Some? &&
                     q.capacity.value >= p.limits.capacity then Some(true)
      else if exists q :: q in pools && q.name == name && q.capacity.Some? &&
                          q.capacity.value < p.limits.capacity - 2 then Some(false)
      else None
  }

  lemma CapacityStep(p: Pass, open: Open, open': Open, name: string)
    requires Next(p, open, open') && AtHome(open) && UniquePools(p)
    ensures var k := Key(CapacityHigh, name);
            k in open' <==> match CapacityReading(p, name) case Some(b) => b case None => k in open
  {
    hide Reading, LocalReading, DrivesReading, SMARTReading, NetReading, Touches, Next, Reads;
    var k := Key(CapacityHigh, name);
    FiresExactlyWhen(p, open, open', k);
    ReadingTouches(p, open, k);
    LocalTouches(p, open, k);
    assert k in open ==> open[k] in Home(CapacityHigh);
    OtherListsKeepNothing(p, open, k);
    if Reads(p, ZFS) { CapacityKept(p, open, name); }
  }

  lemma CapacityKept(p: Pass, open: Open, name: string)
    requires UniquePools(p) && Reads(p, ZFS)
    requires var k := Key(CapacityHigh, name); k in open ==> open[k] == ZFS
    ensures var k := Key(CapacityHigh, name);
            ZFSKeeps(p.status.storage.value.local.value.zfs, p.limits, open, k) <==>
            match CapacityReading(p, name) case Some(b) => b case None => k in open
  {
    var k := Key(CapacityHigh, name);
    var pools := p.status.storage.value.local.value.zfs.pools;
    if q :| q in pools && q.name == name {
      assert forall r :: r in pools && r.name == name ==> r == q;
      assert ZFSKeeps(p.status.storage.value.local.value.zfs, p.limits, open, k) <==> PoolKeeps(q, p.limits, open, k);
    }
  }

  ghost function CapacityReadings(passes: seq<Pass>, name: string): seq<Option<bool>> {
    seq(|passes|, i requires 0 <= i < |passes| => CapacityReading(passes[i], name))
  }

  /** A pool's capacity alert is open exactly when the last decisive reading was at or
      above the threshold of its pass, fixed or not. Unread stacks, unlisted pools, missing
      percentages and readings inside the band change nothing. */
  lemma {:induction false} CapacityFollowsLastDecisive(passes: seq<Pass>, opens: seq<Open>, name: string, j: nat)
    requires IsRun(passes, opens) && j <= |passes|
    requires forall i :: 0 <= i < |passes| ==> UniquePools(passes[i])
    ensures Key(CapacityHigh, name) in opens[j] <==> LastDecisive(CapacityReadings(passes, name)[..j])
  {
    hide Next, CapacityReading, UniquePools, AtHome;
    if j > 0 {
      var readings := CapacityReadings(passes, name);
      CapacityFollowsLastDecisive(passes, opens, name, j - 1);
      RunKeepsHome(passes, opens, j - 1);
      assert Next(passes[j - 1], opens[j - 1], opens[j - 1 + 1]);
      CapacityStep(passes[j - 1], opens[j - 1], opens[j], name);
      assert readings[..j][..j - 1] == readings[..j - 1];
    }
  }

  // ----- saturation -----

  predicate UniqueLinks(p: Pass) {
    Reads(p, Net) ==>
      var n := p.status.network.value;
      && (forall i, j :: i in n.interfaces && j in n.interfaces && i.name == j.name ==> i == j)
      && (forall b, c :: b in n.bonds && c in n.bonds && b.name == c.name ==> b == c)
      && (forall i, b :: i in n.interfaces && b in n.bonds ==> i.name != b.name)
  }

  /** The load the link sustained, when it says one. */
  function Sustained(l: Link): Option<int> {
    if l.carrying && l.traffic.Some? && l.traffic.value.capacityMbps.Some? then l.traffic.value.sustained else None
  }

  ghost function LoadReading(l: Link, e: Expectations): Option<bool> {
    match Sustained(l)
    case None => None
    case Some(u) =>
      if u >= e.saturated then Some(true)
      else if u < SaturatedFrom(e, true) then Some(false)
      else None
  }

  ghost function SaturationReading(p: Pass, name: string): Option<bool> {
    if !Reads(p, Net) then None
    else
      var n := p.status.network.value;
      if exists i :: i in n.interfaces && i.name == name then
        var i :| i in n.interfaces && i.name == name; LoadReading(PortLink(i), p.net)
      else if exists b :: b in n.bonds && b.name == name then
        var b :| b in n.bonds && b.name == name; LoadReading(BondLink(b), p.net)
      else None
  }

  lemma LoadKept(l: Link, e: Expectations, open: Open, k: Key)
    requires k == Key(Saturated, l.name) && e.saturated >= 1
    ensures TrafficKeeps(l, e, open, k) <==> match LoadReading(l, e) case Some(b) => b case None => k in open
  {
  }

  lemma SaturationKept(p: Pass, open: Open, name: string)
    requires UniqueLinks(p) && Reads(p, Net) && p.net.saturated >= 1 && '/' !in name
    requires var k := Key(Saturated, name); k in open ==> open[k] == Net
    ensures var k := Key(Saturated, name);
            LoadsKeep(p.status.network.value, p.net, open, k) <==>
            match SaturationReading(p, name) case Some(b) => b case None => k in open
  {
    hide IsListed, LoadReading, TrafficKeeps;
    var k := Key(Saturated, name);
    var n := p.status.network.value;
    forall i | i in n.interfaces ensures PortKeeps(i, p.net, open, k) <==> TrafficKeeps(PortLink(i), p.net, open, k) { }
    forall i: Link ensures TrafficKeeps(i, p.net, open, k) ==> i.name == name { TrafficKeepsItsOwn(i, p.net, open, k); }
    if exists i :: i in n.interfaces && i.name == name {
      var i :| i in n.interfaces && i.name == name;
      LoadKept(PortLink(i), p.net, open, k);
      PortIsListed(n, i);
    } else if exists b :: b in n.bonds && b.name == name {
      var b :| b in n.bonds && b.name == name;
      LoadKept(BondLink(b), p.net, open, k);
      BondIsListed(n, b);
    } else {
      if IsListed(n, name) { ListedWithoutSlash(n, name); }
    }
  }

  lemma BondIsListed(n: Network, b: Bond)
    requires b in n.bonds
    ensures IsListed(n, b.name)
  {
  }

  lemma SaturationStep(p: Pass, open: Open, open': Open, name: string)
    requires Next(p, open, open') && AtHome(open) && UniqueLinks(p) && p.net.saturated >= 1 && '/' !in name
    ensures var k := Key(Saturated, name);
            k in open' <==> match SaturationReading(p, name) case Some(b) => b case None => k in open
  {
    hide Reading, LocalReading, DrivesReading, SMARTReading, NetReading, Touches, Next, Reads, LoadsKeep;
    var k := Key(Saturated, name);
    FiresExactlyWhen(p, open, open', k);
    ReadingTouches(p, open, k);
    assert k in open ==> open[k] in Home(Saturated);
    StorageKeepsNoLink(p, open, k);
    LoadReadingTouches(p, open, k);
    if Reads(p, Net) { SaturationKept(p, open, name); }
  }

  ghost function SaturationReadings(passes: seq<Pass>, name: string): seq<Option<bool>> {
    seq(|passes|, i requires 0 <= i < |passes| => SaturationReading(passes[i], name))
  }

  /** Likewise for a link's saturation alert, with the lower bound never under 1 percent. */
  lemma {:induction false} SaturationFollowsLastDecisive(passes: seq<Pass>, opens: seq<Open>, name: string, j: nat)
    requires IsRun(passes, opens) && j <= |passes|
    requires '/' !in name
    requires forall i :: 0 <= i < |passes| ==> passes[i].net.saturated >= 1 && UniqueLinks(passes[i])
    ensures Key(Saturated, name) in opens[j] <==> LastDecisive(SaturationReadings(passes, name)[..j])
  {
    hide Next, SaturationReading, UniqueLinks, AtHome;
    if j > 0 {
      var readings := SaturationReadings(passes, name);
      SaturationFollowsLastDecisive(passes, opens, name, j - 1);
      RunKeepsHome(passes, opens, j - 1);
      assert Next(passes[j - 1], opens[j - 1], opens[j - 1 + 1]);
      SaturationStep(passes[j - 1], opens[j - 1], opens[j], name);
      assert readings[..j][..j - 1] == readings[..j - 1];
    }
  }
}
