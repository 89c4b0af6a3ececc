/** The disk join of `internal/storage/join.go`: what the BMC lists against what the
    node's kernel reports, matched on serial number alone, sorted and cut to the size
    the status field allows. */
module DiskJoin {
  import opened Text

  const MAX_DIVERGENCES := 64

  datatype Drive = Drive(serial: string, sizeGB: int, location: string)
  datatype Disk = Disk(serial: string, sizeGB: int, path: string)

  /** In the order that decides what survives the cut, which is also their
      alphabetical order: bmc-only, mismatch, os-only. */
  datatype Reason = BmcOnly | Mismatch | OsOnly

  /** What the texts are made from. */
  datatype Detail =
    | BayHasNoSerial(location: string) | PathHasNoSerial(path: string)
    | NotInBmcList(path: string) | Sizes(bmc: int, node: int) | NotOnNode(location: string)

  datatype Divergence = Divergence(serial: string, reason: Reason, detail: Detail)

  function Rank(r: Reason): nat {
    match r case BmcOnly => 0 case Mismatch => 1 case OsOnly => 2
  }

  // ----- the order -----

  /** Go's `<` on strings. */
  predicate Less(a: string, b: string) {
    b != "" && (a == "" || a[0] < b[0] || (a[0] == b[0] && Less(a[1..], b[1..])))
  }

  lemma {:induction false} LessIsTotal(a: string, b: string)
    ensures Less(a, b) || Less(b, a) || a == b
    ensures !(Less(a, b) && Less(b, a)) && !(Less(a, a))
  {
    if a != "" && b != "" {
      LessIsTotal(a[1..], b[1..]);
      assert a == [a[0]] + a[1..] && b == [b[0]] + b[1..];
    }
    if a != "" {
      LessIsTotal(a[1..], a[1..]);
    }
  }

  /** It is the order of the dictionary: a stops where b goes on, or they first differ in a
      smaller character of a. */
  lemma {:induction false} LessIsLexicographic(a: string, b: string)
    ensures Less(a, b) <==>
            exists n: nat :: && n <= |a| && n < |b| && a[..n] == b[..n] && (n == |a| || a[n] < b[n])
  {
    if a != "" && b != "" && a[0] == b[0] {
      LessIsLexicographic(a[1..], b[1..]);
      if Less(a, b) {
        var n: nat :| && n <= |a[1..]| && n < |b[1..]| && a[1..][..n] == b[1..][..n]
                      && (n == |a[1..]| || a[1..][n] < b[1..][n]);
        assert a[..n + 1] == [a[0]] + a[1..][..n] && b[..n + 1] == [b[0]] + b[1..][..n];
        assert n + 1 <= |a| && n + 1 < |b| && a[..n + 1] == b[..n + 1] && (n + 1 == |a| || a[n + 1] < b[n + 1]);
      }
      if n: nat :| && n <= |a| && n < |b| && a[..n] == b[..n] && (n == |a| || a[n] < b[n]) {
        assert n > 0;
        var m := n - 1;
        assert a[1..][..m] == a[..n][1..] && b[1..][..m] == b[..n][1..];
        assert m <= |a[1..]| && m < |b[1..]| && a[1..][..m] == b[1..][..m] && (m == |a[1..]| || a[1..][m] < b[1..][m]);
      }
    } else if b != "" && (a == "" || a[0] < b[0]) {
      assert 0 <= |a| && 0 < |b| && a[..0] == b[..0] && (0 == |a| || a[0] < b[0]);
    } else if b != "" {
      FirstDiffers(a, b);
    }
  }

  lemma FirstDiffers(a: string, b: string)
    requires a != "" && b != "" && a[0] != b[0]
    ensures forall n: nat :: 0 < n <= |a| && n <= |b| ==> a[..n] != b[..n]
  {
    forall n: nat | 0 < n <= |a| && n <= |b|
      ensures a[..n] != b[..n]
    {
      assert a[..n][0] == a[0] && b[..n][0] == b[0];
    }
  }

  lemma {:induction false} LessIsTransitive(a: string, b: string, c: string)
    requires Less(a, b) && Less(b, c)
    ensures Less(a, c)
  {
    if a != "" && a[0] == b[0] && b[0] == c[0] {
      LessIsTransitive(a[1..], b[1..], c[1..]);
    }
  }

  /** By serial, then by reason. */
  predicate Before(a: Divergence, b: Divergence) {
    if a.serial != b.serial then Less(a.serial, b.serial) else Rank(a.reason) < Rank(b.reason)
  }

  predicate AtMost(a: Divergence, b: Divergence) {
    !Before(b, a)
  }

  lemma AtMostIsTotal(a: Divergence, b: Divergence)
    ensures AtMost(a, b) || AtMost(b, a)
  {
    LessIsTotal(a.serial, b.serial);
  }

  lemma AtMostIsTransitive(a: Divergence, b: Divergence, c: Divergence)
    requires AtMost(a, b) && AtMost(b, c)
    ensures AtMost(a, c)
  {
    LessIsTotal(a.serial, b.serial);
    LessIsTotal(b.serial, c.serial);
    LessIsTotal(a.serial, c.serial);
    if Less(a.serial, b.serial) && Less(b.serial, c.serial) {
      LessIsTransitive(a.serial, b.serial, c.serial);
    }
  }

  predicate IsSorted(s: seq<Divergence>) {
    forall i, j :: 0 <= i < j < |s| ==> AtMost(s[i], s[j])
  }

  /** Where a stable insertion puts x: after everything at most x. */
  function Insert(s: seq<Divergence>, x: Divergence): seq<Divergence> {
    if s == [] || AtMost(s[|s| - 1], x) then s + [x] else Insert(s[..|s| - 1], x) + [s[|s| - 1]]
  }

  /** The stable sort: entries with equal keys stay in order. */
  function Sort(s: seq<Divergence>): seq<Divergence> {
    if s == [] then [] else Insert(Sort(s[..|s| - 1]), s[|s| - 1])
  }

  lemma {:induction false} InsertKeepsSorted(s: seq<Divergence>, x: Divergence)
    requires IsSorted(s)
    ensures IsSorted(Insert(s, x)) && multiset(Insert(s, x)) == multiset(s) + multiset{x}
  {
    hide AtMost;
    if s == [] {
    } else if AtMost(s[|s| - 1], x) {
      forall i | 0 <= i < |s|
        ensures AtMost(s[i], x)
      {
        if i < |s| - 1 {
          AtMostIsTransitive(s[i], s[|s| - 1], x);
        }
      }
    } else {
      var k := |s| - 1;
      InsertKeepsSorted(s[..k], x);
      AtMostIsTotal(s[k], x);
      assert s == s[..k] + [s[k]];
      var r := Insert(s[..k], x);
      forall i | 0 <= i < |r|
        ensures AtMost(r[i], s[k])
      {
        assert r[i] in multiset(r);
        assert r[i] in s[..k] || r[i] == x;
      }
    }
  }

  lemma NothingIsSorted()
    ensures IsSorted([])
  {
  }

  predicate HasKey(d: Divergence, serial: string, reason: Reason) {
    d.serial == serial && d.reason == reason
  }

  /** The entries for a serial and a reason, in order. */
  function OfKey(s: seq<Divergence>, serial: string, reason: Reason): seq<Divergence> {
    if s == [] then []
    else OfKey(s[..|s| - 1], serial, reason) + if HasKey(s[|s| - 1], serial, reason) then [s[|s| - 1]] else []
  }

  lemma OfKeyAppend(s: seq<Divergence>, x: Divergence, serial: string, reason: Reason)
    ensures OfKey(s + [x], serial, reason) == OfKey(s, serial, reason) + if HasKey(x, serial, reason) then [x] else []
  {
    assert (s + [x])[..|s|] == s;
  }

  lemma {:induction false} InsertIsStable(s: seq<Divergence>, x: Divergence, serial: string, reason: Reason)
    ensures OfKey(Insert(s, x), serial, reason) == OfKey(s + [x], serial, reason)
  {
    hide OfKey, AtMost, HasKey;
    if s != [] && !AtMost(s[|s| - 1], x) {
      var k := |s| - 1;
      InsertIsStable(s[..k], x, serial, reason);
      OfKeyAppend(Insert(s[..k], x), s[k], serial, reason);
      OfKeyAppend(s[..k], x, serial, reason);
      OfKeyAppend(s[..k], s[k], serial, reason);
      OfKeyAppend(s, x, serial, reason);
      assert s == s[..k] + [s[k]];
      OfOneKeyIsAtMost(s[k], x, serial, reason);
    }
  }

  lemma OfOneKeyIsAtMost(a: Divergence, b: Divergence, serial: string, reason: Reason)
    ensures HasKey(a, serial, reason) && HasKey(b, serial, reason) ==> AtMost(a, b)
  {
  }

  /** A sort, and a stable one: entries of equal serial and reason stay in order. */
  lemma {:induction false} SortSorts(s: seq<Divergence>)
    ensures IsSorted(Sort(s)) && multiset(Sort(s)) == multiset(s) && |Sort(s)| == |s|
    ensures forall serial, reason :: OfKey(Sort(s), serial, reason) == OfKey(s, serial, reason)
  {
    hide IsSorted, Insert, OfKey;
    if s == [] {
      assert IsSorted([]) by { NothingIsSorted(); }
    } else {
      var k := |s| - 1;
      SortSorts(s[..k]);
      InsertKeepsSorted(Sort(s[..k]), s[k]);
      assert s == s[..k] + [s[k]];
      assert |multiset(Sort(s))| == |multiset(s)|;
      forall serial, reason
        ensures OfKey(Sort(s), serial, reason) == OfKey(s, serial, reason)
      {
        InsertIsStable(Sort(s[..k]), s[k], serial, reason);
        OfKeyAppend(Sort(s[..k]), s[k], serial, reason);
        OfKeyAppend(s[..k], s[k], serial, reason);
      }
    }
  }

  // ----- the divergences -----

  /** The drive a serial names: the last one listed with it. */
  function Named(bmc: seq<Drive>, serial: string): Option<Drive> {
    if bmc == [] then None
    else if bmc[|bmc| - 1].serial == serial then Some(bmc[|bmc| - 1])
    else Named(bmc[..|bmc| - 1], serial)
  }

  predicate IsSeen(observed: seq<Disk>, serial: string) {
    exists i :: 0 <= i < |observed| && observed[i].serial == serial
  }

  /** What one disk or drive adds to the list. */
  function OfUnnamed(d: Drive): seq<Divergence> {
    if d.serial == "" then [Divergence("", BmcOnly, BayHasNoSerial(d.location))] else []
  }

  function OfDisk(o: Disk, bmc: seq<Drive>): seq<Divergence> {
    if o.serial == "" then [Divergence("", OsOnly, PathHasNoSerial(o.path))]
    else
      var b := Named(bmc, o.serial);
      if b.None? then [Divergence(o.serial, OsOnly, NotInBmcList(o.path))]
      else if b.value.sizeGB != o.sizeGB then [Divergence(o.serial, Mismatch, Sizes(b.value.sizeGB, o.sizeGB))]
      else []
  }

  function OfDrive(d: Drive, observed: seq<Disk>): seq<Divergence> {
    if d.serial == "" || IsSeen(observed, d.serial) then []
    else [Divergence(d.serial, BmcOnly, NotOnNode(d.location))]
  }

  function AllUnnamed(bmc: seq<Drive>): seq<Divergence> {
    if bmc == [] then [] else AllUnnamed(bmc[..|bmc| - 1]) + OfUnnamed(bmc[|bmc| - 1])
  }

  function AllDisks(observed: seq<Disk>, bmc: seq<Drive>): seq<Divergence> {
    if observed == [] then [] else AllDisks(observed[..|observed| - 1], bmc) + OfDisk(observed[|observed| - 1], bmc)
  }

  function AllDrives(bmc: seq<Drive>, observed: seq<Disk>): seq<Divergence> {
    if bmc == [] then [] else AllDrives(bmc[..|bmc| - 1], observed) + OfDrive(bmc[|bmc| - 1], observed)
  }

  /** Every disagreement, in the order they are found. */
  function Divergences(bmc: seq<Drive>, observed: seq<Disk>): seq<Divergence> {
    AllUnnamed(bmc) + AllDisks(observed, bmc) + AllDrives(bmc, observed)
  }

  // ----- what the divergences are -----

  predicate UniqueDrives(bmc: seq<Drive>) {
    forall i, j :: 0 <= i < j < |bmc| && bmc[i].serial == bmc[j].serial ==> bmc[i].serial == ""
  }

  predicate UniqueDisks(observed: seq<Disk>) {
    forall i, j :: 0 <= i < j < |observed| && observed[i].serial == observed[j].serial ==> observed[i].serial == ""
  }

  /** How many entries there are for a serial and a reason. */
  function Count(s: seq<Divergence>, serial: string, reason: Reason): nat {
    if s == [] then 0
    else Count(s[..|s| - 1], serial, reason) + if HasKey(s[|s| - 1], serial, reason) then 1 else 0
  }

  lemma {:induction false} CountAppend(a: seq<Divergence>, b: seq<Divergence>, serial: string, reason: Reason)
    ensures Count(a + b, serial, reason) == Count(a, serial, reason) + Count(b, serial, reason)
  {
    if b == [] {
      assert a + b == a;
    } else {
      CountAppend(a, b[..|b| - 1], serial, reason);
      assert (a + b)[..|a + b| - 1] == a + b[..|b| - 1];
    }
  }

  function UnnamedDrives(bmc: seq<Drive>): nat {
    if bmc == [] then 0 else UnnamedDrives(bmc[..|bmc| - 1]) + if bmc[|bmc| - 1].serial == "" then 1 else 0
  }

  function UnnamedDisks(observed: seq<Disk>): nat {
    if observed == [] then 0
    else UnnamedDisks(observed[..|observed| - 1]) + if observed[|observed| - 1].serial == "" then 1 else 0
  }

  lemma {:induction false} CountUnnamed(bmc: seq<Drive>, serial: string, reason: Reason)
    ensures Count(AllUnnamed(bmc), serial, reason) ==
            if serial == "" && reason == BmcOnly then UnnamedDrives(bmc) else 0
  {
    if bmc != [] {
      var k := |bmc| - 1;
      CountUnnamed(bmc[..k], serial, reason);
      CountAppend(AllUnnamed(bmc[..k]), OfUnnamed(bmc[k]), serial, reason);
      CountOne(OfUnnamed(bmc[k]), serial, reason);
    }
  }

  lemma CountOne(s: seq<Divergence>, serial: string, reason: Reason)
    requires |s| <= 1
    ensures Count(s, serial, reason) == if s != [] && HasKey(s[0], serial, reason) then 1 else 0
  {
    if s != [] {
      assert s[..0] == [];
    }
  }

  lemma CountNothing(serial: string, reason: Reason)
    ensures Count([], serial, reason) == 0
  {
  }

  /** The entries a serial gets from the disks of the node: none, or those of the one
      disk that has it. */
  lemma {:induction false} CountDisks(observed: seq<Disk>, bmc: seq<Drive>, serial: string, reason: Reason)
    requires UniqueDisks(observed)
    ensures serial == "" ==>
            Count(AllDisks(observed, bmc), serial, reason) == if reason == OsOnly then UnnamedDisks(observed) else 0
    ensures serial != "" && !IsSeen(observed, serial) ==> Count(AllDisks(observed, bmc), serial, reason) == 0
    ensures serial != "" ==> forall i :: 0 <= i < |observed| && observed[i].serial == serial ==>
              Count(AllDisks(observed, bmc), serial, reason) == Count(OfDisk(observed[i], bmc), serial, reason)
  {
    hide OfDisk, Count;
    CountNothing(serial, reason);
    if observed != [] {
      var k := |observed| - 1;
      var head := observed[..k];
      CountDisks(head, bmc, serial, reason);
      CountAppend(AllDisks(head, bmc), OfDisk(observed[k], bmc), serial, reason);
      CountOfDisk(observed[k], bmc, serial, reason);
      assert forall i :: 0 <= i < k ==> head[i] == observed[i];
      if serial != "" && observed[k].serial == serial {
        assert !IsSeen(head, serial);
      }
    }
  }

  lemma CountOfDisk(o: Disk, bmc: seq<Drive>, serial: string, reason: Reason)
    ensures o.serial != serial ==> Count(OfDisk(o, bmc), serial, reason) == 0
    ensures o.serial == "" && serial == "" ==>
            Count(OfDisk(o, bmc), serial, reason) == if reason == OsOnly then 1 else 0
    ensures o.serial == serial != "" ==>
              Count(OfDisk(o, bmc), serial, reason) ==
              match reason
              case BmcOnly => 0
              case OsOnly => if Named(bmc, serial).None? then 1 else 0
              case Mismatch => if Named(bmc, serial).Some? && Named(bmc, serial).value.sizeGB != o.sizeGB then 1 else 0
  {
    CountOne(OfDisk(o, bmc), serial, reason);
  }

  lemma {:induction false} NamedIsThere(bmc: seq<Drive>, serial: string)
    requires UniqueDrives(bmc) && serial != ""
    ensures Named(bmc, serial).Some? <==> exists i :: 0 <= i < |bmc| && bmc[i].serial == serial
    ensures forall i :: 0 <= i < |bmc| && bmc[i].serial == serial ==> Named(bmc, serial) == Some(bmc[i])
  {
    if bmc != [] {
      var head := bmc[..|bmc| - 1];
      NamedIsThere(head, serial);
      assert forall i :: 0 <= i < |head| ==> head[i] == bmc[i];
      if Named(head, serial).Some? {
        var i :| 0 <= i < |head| && head[i].serial == serial;
        assert bmc[i].serial == serial;
      }
    }
  }

  lemma {:induction false} CountDrives(bmc: seq<Drive>, observed: seq<Disk>, serial: string, reason: Reason)
    requires UniqueDrives(bmc)
    ensures Count(AllDrives(bmc, observed), serial, reason) ==
            if reason == BmcOnly && serial != "" && Named(bmc, serial).Some? && !IsSeen(observed, serial) then 1 else 0
  {
    if bmc != [] {
      var k := |bmc| - 1;
      CountDrives(bmc[..k], observed, serial, reason);
      CountAppend(AllDrives(bmc[..k], observed), OfDrive(bmc[k], observed), serial, reason);
      CountOne(OfDrive(bmc[k], observed), serial, reason);
      if serial != "" {
        NamedIsThere(bmc[..k], serial);
        NamedIsThere(bmc, serial);
        assert forall i :: 0 <= i < k ==> bmc[..k][i] == bmc[i];
      }
    }
  }

  /** With unique serials, a serial is listed once as bmc-only exactly when the BMC has
      it and the node does not, once as os-only exactly the other way round, and once
      as a mismatch exactly when both have it and disagree on its size; and there is
      one entry for every disk or drive without a serial. */
  lemma DivergencesAreTheDifference(bmc: seq<Drive>, observed: seq<Disk>, serial: string, reason: Reason)
    requires UniqueDrives(bmc) && UniqueDisks(observed)
    ensures var n := Count(Divergences(bmc, observed), serial, reason);
            if serial == "" then
              n == (match reason
                    case BmcOnly => UnnamedDrives(bmc)
                    case OsOnly => UnnamedDisks(observed)
                    case Mismatch => 0)
            else
              n == match reason
                   case BmcOnly => if Named(bmc, serial).Some? && !IsSeen(observed, serial) then 1 else 0
                   case OsOnly => if Named(bmc, serial).None? && IsSeen(observed, serial) then 1 else 0
                   case Mismatch => if DisagreeOnSize(bmc, observed, serial) then 1 else 0
  {
    hide Count, AllUnnamed, AllDisks, AllDrives, UnnamedDrives, UnnamedDisks;
    CountAppend(AllUnnamed(bmc) + AllDisks(observed, bmc), AllDrives(bmc, observed), serial, reason);
    CountAppend(AllUnnamed(bmc), AllDisks(observed, bmc), serial, reason);
    CountUnnamed(bmc, serial, reason);
    CountDisks(observed, bmc, serial, reason);
    CountDrives(bmc, observed, serial, reason);
    if serial != "" && IsSeen(observed, serial) {
      var i :| 0 <= i < |observed| && observed[i].serial == serial;
      CountOfDisk(observed[i], bmc, serial, reason);
      assert forall j :: 0 <= j < |observed| && observed[j].serial == serial ==> j == i;
    }
  }

  predicate DisagreeOnSize(bmc: seq<Drive>, observed: seq<Disk>, serial: string) {
    Named(bmc, serial).Some? &&
    exists i :: 0 <= i < |observed| && observed[i].serial == serial &&
        observed[i].sizeGB != Named(bmc, serial).value.sizeGB
  }

  /** The last drive listed with a serial speaks for it. */
  lemma {:induction false} NamedIsLast(bmc: seq<Drive>, serial: string)
    ensures var r := Named(bmc, serial);
            && (r.None? <==> forall i :: 0 <= i < |bmc| ==> bmc[i].serial != serial)
            && (r.Some? ==> exists i :: 0 <= i < |bmc| && bmc[i] == r.value && bmc[i].serial == serial &&
                                        forall j :: i < j < |bmc| ==> bmc[j].serial != serial)
  {
    if bmc != [] && bmc[|bmc| - 1].serial != serial {
      var head := bmc[..|bmc| - 1];
      NamedIsLast(head, serial);
      assert forall i :: 0 <= i < |head| ==> head[i] == bmc[i];
      if Named(head, serial).Some? {
        var i :| 0 <= i < |head| && head[i] == Named(head, serial).value && head[i].serial == serial &&
                 forall j :: i < j < |head| ==> head[j].serial != serial;
        assert bmc[i].serial == serial;
      }
    }
  }

  /** The entry says what it is about: the bay or the path of the disk without a serial or
      without a counterpart, or both sizes, the BMC's first. */
  ghost predicate IsFactual(d: Divergence, bmc: seq<Drive>, observed: seq<Disk>) {
    match d.detail
    case BayHasNoSerial(location) =>
      d.serial == "" && d.reason == BmcOnly && exists x :: x in bmc && x.serial == "" && x.location == location
    case PathHasNoSerial(path) =>
      d.serial == "" && d.reason == OsOnly && exists o :: o in observed && o.serial == "" && o.path == path
    case NotOnNode(location) =>
      && d.serial != "" && d.reason == BmcOnly && (forall o :: o in observed ==> o.serial != d.serial)
      && exists x :: x in bmc && x.serial == d.serial && x.location == location
    case NotInBmcList(path) =>
      && d.serial != "" && d.reason == OsOnly && (forall x :: x in bmc ==> x.serial != d.serial)
      && exists o :: o in observed && o.serial == d.serial && o.path == path
    case Sizes(bmcSize, nodeSize) =>
      && d.serial != "" && d.reason == Mismatch && bmcSize != nodeSize
      && (exists o :: o in observed && o.serial == d.serial && o.sizeGB == nodeSize)
      && Named(bmc, d.serial).Some? && Named(bmc, d.serial).value.sizeGB == bmcSize
  }

  lemma {:induction false} InAllUnnamed(bmc: seq<Drive>, d: Divergence)
    ensures d in AllUnnamed(bmc) <==> exists x :: x in bmc && d in OfUnnamed(x)
  {
    if bmc != [] {
      var k := |bmc| - 1;
      InAllUnnamed(bmc[..k], d);
      assert bmc == bmc[..k] + [bmc[k]];
    }
  }

  lemma {:induction false} InAllDisks(observed: seq<Disk>, bmc: seq<Drive>, d: Divergence)
    ensures d in AllDisks(observed, bmc) <==> exists o :: o in observed && d in OfDisk(o, bmc)
  {
    hide OfDisk;
    if observed != [] {
      var k := |observed| - 1;
      InAllDisks(observed[..k], bmc, d);
      assert observed == observed[..k] + [observed[k]];
    }
  }

  lemma {:induction false} InAllDrives(bmc: seq<Drive>, observed: seq<Disk>, d: Divergence)
    ensures d in AllDrives(bmc, observed) <==> exists x :: x in bmc && d in OfDrive(x, observed)
  {
    hide OfDrive;
    if bmc != [] {
      var k := |bmc| - 1;
      InAllDrives(bmc[..k], observed, d);
      assert bmc == bmc[..k] + [bmc[k]];
    }
  }

  lemma SeenIsObserved(observed: seq<Disk>, serial: string)
    ensures IsSeen(observed, serial) <==> exists o :: o in observed && o.serial == serial
  {
    if o :| o in observed && o.serial == serial {
      var i :| 0 <= i < |observed| && observed[i] == o;
    }
  }

  lemma DisksAreFactual(bmc: seq<Drive>, observed: seq<Disk>, d: Divergence)
    ensures (exists o :: o in observed && d in OfDisk(o, bmc)) <==>
            (d.detail.PathHasNoSerial? || d.detail.NotInBmcList? || d.detail.Sizes?) && IsFactual(d, bmc, observed)
  {
    hide Named;
    NamedIsLast(bmc, d.serial);
    assert Named(bmc, d.serial).None? <==> forall x :: x in bmc ==> x.serial != d.serial;
    if IsFactual(d, bmc, observed) {
      match d.detail
      case NotInBmcList(path) =>
        var o :| o in observed && o.serial == d.serial && o.path == path;
        assert d in OfDisk(o, bmc);
      case Sizes(bmcSize, nodeSize) =>
        var o :| o in observed && o.serial == d.serial && o.sizeGB == nodeSize;
        assert d in OfDisk(o, bmc);
      case _ =>
    }
  }

  lemma DrivesAreFactual(bmc: seq<Drive>, observed: seq<Disk>, d: Divergence)
    ensures (exists x :: x in bmc && d in OfUnnamed(x)) <==> d.detail.BayHasNoSerial? && IsFactual(d, bmc, observed)
    ensures (exists x :: x in bmc && d in OfDrive(x, observed)) <==> d.detail.NotOnNode? && IsFactual(d, bmc, observed)
  {
    hide Named, IsSeen;
    SeenIsObserved(observed, d.serial);
    if d.detail.NotOnNode? && IsFactual(d, bmc, observed) {
      var x :| x in bmc && x.serial == d.serial && x.location == d.detail.location;
      assert d in OfDrive(x, observed);
    }
  }

  /** Whatever the lists hold, repeated serials included: an entry is there exactly if it is
      a fact. */
  lemma ListedIffFactual(bmc: seq<Drive>, observed: seq<Disk>, d: Divergence)
    ensures d in Divergences(bmc, observed) <==> IsFactual(d, bmc, observed)
  {
    hide AllUnnamed, AllDisks, AllDrives, OfUnnamed, OfDisk, OfDrive, IsFactual;
    InAllUnnamed(bmc, d);
    InAllDisks(observed, bmc, d);
    InAllDrives(bmc, observed, d);
    DisksAreFactual(bmc, observed, d);
    DrivesAreFactual(bmc, observed, d);
  }

  // ----- the cut -----

  function Only(s: seq<Divergence>, reason: Reason): seq<Divergence> {
    if s == [] then []
    else Only(s[..|s| - 1], reason) + if s[|s| - 1].reason == reason then [s[|s| - 1]] else []
  }

  function ByPriority(s: seq<Divergence>): seq<Divergence> {
    Only(s, BmcOnly) + Only(s, Mismatch) + Only(s, OsOnly)
  }

  function Cut(s: seq<Divergence>): seq<Divergence> {
    if |s| > MAX_DIVERGENCES then s[..MAX_DIVERGENCES] else s
  }

  /** What `Join` returns. */
  function Joined(bmc: seq<Drive>, observed: seq<Disk>): seq<Divergence> {
    var out := Sort(Divergences(bmc, observed));
    if |out| <= MAX_DIVERGENCES then out else Sort(Cut(ByPriority(out)))
  }

  /** a matters more than b, or as much and comes no later in serial order. */
  predicate Precedes(a: Divergence, b: Divergence) {
    Rank(a.reason) < Rank(b.reason) || (a.reason == b.reason && AtMost(a, b))
  }

  lemma {:induction false} OnlyOfReason(s: seq<Divergence>, reason: Reason)
    requires IsSorted(s)
    ensures IsSorted(Only(s, reason))
    ensures forall d :: d in Only(s, reason) ==> d.reason == reason && d in s
  {
    hide AtMost;
    if s != [] {
      var k := |s| - 1;
      OnlyOfReason(s[..k], reason);
      var head := Only(s[..k], reason);
      forall i | 0 <= i < |head|
        ensures AtMost(head[i], s[k])
      {
        assert head[i] in s[..k];
      }
    }
  }

  lemma OnlyGrows(s: seq<Divergence>, i: nat, reason: Reason)
    requires i < |s|
    ensures Only(s[..i + 1], reason) == Only(s[..i], reason) + if s[i].reason == reason then [s[i]] else []
  {
    assert s[..i + 1][..i] == s[..i];
  }

  function AsMultiset(s: seq<Divergence>): multiset<Divergence> {
    multiset(Only(s, BmcOnly)) + multiset(Only(s, Mismatch)) + multiset(Only(s, OsOnly))
  }

  lemma OnlyCounts(s: seq<Divergence>, i: nat, reason: Reason)
    requires i < |s|
    ensures multiset(Only(s[..i + 1], reason)) ==
            multiset(Only(s[..i], reason)) + if s[i].reason == reason then multiset{s[i]} else multiset{}
  {
    OnlyGrows(s, i, reason);
    hide Only;
  }

  lemma OnlyOfNothing(reason: Reason)
    ensures Only([], reason) == []
  {
  }

  lemma {:induction false} OnlyIsPermutation(s: seq<Divergence>, i: nat)
    requires i <= |s|
    ensures AsMultiset(s[..i]) == multiset(s[..i])
  {
    hide Only;
    if i == 0 {
      OnlyOfNothing(BmcOnly);
      OnlyOfNothing(Mismatch);
      OnlyOfNothing(OsOnly);
    } else {
      OnlyIsPermutation(s, i - 1);
      OnlyCounts(s, i - 1, BmcOnly);
      OnlyCounts(s, i - 1, Mismatch);
      OnlyCounts(s, i - 1, OsOnly);
      assert s[..i] == s[..i - 1] + [s[i - 1]];
    }
  }

  lemma ByPriorityIsPermutation(s: seq<Divergence>)
    ensures multiset(ByPriority(s)) == multiset(s) && |ByPriority(s)| == |s|
  {
    hide Only;
    OnlyIsPermutation(s, |s|);
    assert s[..|s|] == s;
    assert multiset(ByPriority(s)) == AsMultiset(s);
    assert |multiset(ByPriority(s))| == |multiset(s)|;
  }

  lemma ByPriorityIsOrdered(s: seq<Divergence>, i: nat, j: nat)
    requires IsSorted(s) && i < j < |ByPriority(s)|
    ensures Precedes(ByPriority(s)[i], ByPriority(s)[j])
  {
    hide AtMost, Only;
    OnlyOfReason(s, BmcOnly);
    OnlyOfReason(s, Mismatch);
    OnlyOfReason(s, OsOnly);
    var a, b, c := Only(s, BmcOnly), Only(s, Mismatch), Only(s, OsOnly);
    var p := ByPriority(s);
    assert p[i] == if i < |a| then a[i] else if i < |a| + |b| then b[i - |a|] else c[i - |a| - |b|];
    assert p[j] == if j < |a| then a[j] else if j < |a| + |b| then b[j - |a|] else c[j - |a| - |b|];
  }

  /** The result is sorted and never too long. Up to the limit it is every divergence,
      no more and no less; past it, it is 64 of them, and nothing left out matters more
      than anything kept, or comes earlier among those of its reason. */
  lemma JoinKeepsWhatMatters(bmc: seq<Drive>, observed: seq<Disk>)
    ensures var all, r := Divergences(bmc, observed), Joined(bmc, observed);
            && IsSorted(r) && |r| == (if |all| <= 64 then |all| else 64)
            && multiset(r) <= multiset(all) && (|all| <= 64 ==> multiset(r) == multiset(all))
            && forall kept, dropped :: kept in r && dropped in multiset(all) - multiset(r) ==> Precedes(kept, dropped)
  {
    hide Sort, Divergences, AtMost, Precedes, Only;
    var all, r := Divergences(bmc, observed), Joined(bmc, observed);
    var out := Sort(all);
    SortSorts(all);
    if |out| > MAX_DIVERGENCES {
      var p := ByPriority(out);
      ByPriorityIsPermutation(out);
      hide ByPriority;
      SortSorts(p[..MAX_DIVERGENCES]);
      assert p == p[..MAX_DIVERGENCES] + p[MAX_DIVERGENCES..];
      assert multiset(all) - multiset(r) == multiset(p[MAX_DIVERGENCES..]);
      forall kept, dropped | kept in r && dropped in multiset(all) - multiset(r)
        ensures Precedes(kept, dropped)
      {
        assert kept in multiset(r) && kept in p[..MAX_DIVERGENCES] && dropped in p[MAX_DIVERGENCES..];
        var i :| 0 <= i < MAX_DIVERGENCES && p[i] == kept;
        var j :| MAX_DIVERGENCES <= j < |p| && p[j] == dropped;
        ByPriorityIsOrdered(out, i, j);
      }
    }
  }

  /** What comes first, and what is dropped first, in words. Entries go by serial and, under
      one serial, bmc-only before mismatch before os-only. What is only in the node's list is
      dropped first, and what is only in the BMC's last. */
  lemma OrderMeans(a: Divergence, b: Divergence)
    ensures AtMost(a, b) <==>
            || Less(a.serial, b.serial)
            || (a.serial == b.serial && (a.reason == BmcOnly || b.reason == OsOnly || a.reason == b.reason))
    ensures Precedes(a, b) <==>
            if a.reason == b.reason then !Less(b.serial, a.serial) else a.reason == BmcOnly || b.reason == OsOnly
  {
    LessIsTotal(a.serial, b.serial);
  }

  // ----- the loops -----

  lemma CutAppend(s: seq<Divergence>, x: Divergence)
    ensures Cut(s + [x]) == if |Cut(s)| < MAX_DIVERGENCES then Cut(s) + [x] else Cut(s)
  {
  }

  /** The inner loop of the cut, for one reason. */
  method KeepReason(out: seq<Divergence>, reason: Reason, kept0: seq<Divergence>, ghost before: seq<Divergence>)
    returns (kept: seq<Divergence>)
    requires kept0 == Cut(before)
    ensures kept == Cut(before + Only(out, reason))
  {
    hide Cut, Only;
    kept := kept0;
    OnlyOfNothing(reason);
    assert before + [] == before;
    for i := 0 to |out|
      invariant kept == Cut(before + Only(out[..i], reason))
    {
      ghost var was := before + Only(out[..i], reason);
      OnlyGrows(out, i, reason);
      if out[i].reason == reason {
        CutAppend(was, out[i]);
        assert before + Only(out[..i + 1], reason) == was + [out[i]];
        if |kept| < MAX_DIVERGENCES {
          kept := kept + [out[i]];
        }
      } else {
        assert before + Only(out[..i + 1], reason) == was;
      }
    }
    assert out[..|out|] == out;
  }

  /** The map of the BMC's drives holds each serial's drive. */
  ghost predicate MapsNamed(byBmc: map<string, Drive>, bmc: seq<Drive>) {
    forall s :: s != "" ==> (s in byBmc <==> Named(bmc, s).Some?) && (s in byBmc ==> Some(byBmc[s]) == Named(bmc, s))
  }

  ghost predicate HoldsSeen(seen: set<string>, observed: seq<Disk>) {
    forall s :: s != "" ==> (s in seen <==> IsSeen(observed, s))
  }

  /** The first pass over the BMC's drives. */
  method IndexDrives(bmc: seq<Drive>) returns (out: seq<Divergence>, byBmc: map<string, Drive>)
    ensures out == AllUnnamed(bmc) && MapsNamed(byBmc, bmc)
  {
    out, byBmc := [], map[];
    for i := 0 to |bmc|
      invariant out == AllUnnamed(bmc[..i]) && MapsNamed(byBmc, bmc[..i])
    {
      assert bmc[..i + 1][..i] == bmc[..i];
      if bmc[i].serial == "" {
        out := out + OfUnnamed(bmc[i]);
      } else {
        assert out + [] == out;
        byBmc := byBmc[bmc[i].serial := bmc[i]];
      }
    }
    assert bmc[..|bmc|] == bmc;
  }

  /** The second one, for the drives the node does not see. */
  method AddUnseen(bmc: seq<Drive>, seen: set<string>, ghost observed: seq<Disk>, out0: seq<Divergence>)
    returns (out: seq<Divergence>)
    requires HoldsSeen(seen, observed)
    ensures out == out0 + AllDrives(bmc, observed)
  {
    hide IsSeen;
    out := out0;
    assert out0 + [] == out0;
    for i := 0 to |bmc|
      invariant out == out0 + AllDrives(bmc[..i], observed)
    {
      var d := bmc[i];
      ghost var was := AllDrives(bmc[..i], observed);
      assert bmc[..i + 1][..i] == bmc[..i];
      assert AllDrives(bmc[..i + 1], observed) == was + OfDrive(d, observed);
      if d.serial == "" || d.serial in seen {
        assert was + [] == was;
      } else {
        out := out + [Divergence(d.serial, BmcOnly, NotOnNode(d.location))];
        assert (out0 + was) + OfDrive(d, observed) == out0 + (was + OfDrive(d, observed));
      }
    }
    assert bmc[..|bmc|] == bmc;
  }

  /** The passes over the BMC's drives and the one over the node's disks. */
  method Collect(bmc: seq<Drive>, observed: seq<Disk>) returns (out: seq<Divergence>)
    ensures out == Divergences(bmc, observed)
  {
    hide AllUnnamed, AllDrives, MapsNamed, IsSeen, Named;
    var byBmc;
    out, byBmc := IndexDrives(bmc);
    ghost var unnamed := out;
    var seen: set<string> := {};
    assert unnamed + [] == unnamed && HoldsSeen({}, observed[..0]) by { NothingIsSeen(); }
    for i := 0 to |observed|
      invariant out == unnamed + AllDisks(observed[..i], bmc) && HoldsSeen(seen, observed[..i])
    {
      hide AllDisks, HoldsSeen;
      out, seen := AddDisk(out, seen, byBmc, bmc, observed, i, unnamed);
    }
    assert observed[..|observed|] == observed;
    out := AddUnseen(bmc, seen, observed, out);
  }

  lemma NothingIsSeen()
    ensures HoldsSeen({}, [])
  {
  }

  /** One turn of the pass over the node's disks. */
  method AddDisk(out0: seq<Divergence>, seen0: set<string>, byBmc: map<string, Drive>, ghost bmc: seq<Drive>,
                 observed: seq<Disk>, i: nat, ghost before: seq<Divergence>)
    returns (out: seq<Divergence>, seen: set<string>)
    requires i < |observed| && out0 == before + AllDisks(observed[..i], bmc)
    requires HoldsSeen(seen0, observed[..i]) && MapsNamed(byBmc, bmc)
    ensures out == before + AllDisks(observed[..i + 1], bmc)
    ensures HoldsSeen(seen, observed[..i + 1])
  {
    hide IsSeen, Named;
    out, seen := out0, seen0;
    var o := observed[i];
    assert observed[..i + 1][..i] == observed[..i];
    SeenGrows(observed, i);
    if o.serial == "" {
      out := out + [Divergence("", OsOnly, PathHasNoSerial(o.path))];
      return;
    }
    seen := seen + {o.serial};
    if o.serial !in byBmc {
      out := out + [Divergence(o.serial, OsOnly, NotInBmcList(o.path))];
      return;
    }
    var b := byBmc[o.serial];
    if b.sizeGB != o.sizeGB {
      out := out + [Divergence(o.serial, Mismatch, Sizes(b.sizeGB, o.sizeGB))];
    }
  }

  lemma SeenGrows(observed: seq<Disk>, i: nat)
    requires i < |observed|
    ensures forall s :: IsSeen(observed[..i + 1], s) <==> IsSeen(observed[..i], s) || s == observed[i].serial
  {
    assert forall j :: 0 <= j < i ==> observed[..i + 1][j] == observed[..i][j];
    assert observed[..i + 1][i] == observed[i];
  }

  /** `Join`. */
  method Join(bmc: seq<Drive>, observed: seq<Disk>) returns (r: seq<Divergence>)
    ensures r == Joined(bmc, observed)
  {
    hide Divergences, Only, Sort;
    var out := Collect(bmc, observed);
    out := Sort(out);
    if |out| <= MAX_DIVERGENCES {
      return out;
    }
    var kept := KeepReason(out, BmcOnly, [], []);
    assert [] + Only(out, BmcOnly) == Only(out, BmcOnly);
    kept := KeepReason(out, Mismatch, kept, Only(out, BmcOnly));
    kept := KeepReason(out, OsOnly, kept, Only(out, BmcOnly) + Only(out, Mismatch));
    return Sort(kept);
  }
}
