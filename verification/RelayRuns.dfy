/** Whole runs of the alert relay: one alert that fires, resolves, is purged and
    created again, the subscriptions that follow it, and everything anybody may do
    to them. Each subscription has a log of the states its endpoint acknowledged.

    As the relay assumes: the reads of a reconcile are current, and the status patch
    that follows its sends lands. The receiver may still write the alert while the
    relay is sending, and between the relay's patch and its delete. */
module RelayRuns {
  import opened Text
  import opened Relay

  /** A FrameAlert; version is its resourceVersion. */
  datatype Alert = Alert(incident: Incident, deliveries: map<string, Delivery>, version: nat)

  /** clock is the API server's last resourceVersion; inherited are the subscriptions made
      while the alert still had an open record under their name. */
  datatype World = World(
    alert: Option<Alert>, subs: map<string, Subscription>, logs: map<string, seq<AlertState>>, inherited: set<string>,
    clock: nat)

  function Lookup<V>(m: map<string, V>, n: string): Option<V> {
    if n in m then Some(m[n]) else None
  }

  function RecordOf(w: World, n: string): Option<Delivery> {
    if w.alert.Some? then Lookup(w.alert.value.deliveries, n) else None
  }

  /** One pass of `Reconcile`: its clock, what each delivery attempt meets, and what
      the receiver writes while it runs. */
  datatype Pass = Pass(
    now: int, retention: int, attempts: string -> Attempt,
    duringSends: seq<Incident>, beforeDelete: seq<Incident>)

  // ----- the loop over the subscriptions -----

  function Turn(sub: Subscription, a: Alert, p: Pass): Handled {
    Handle(sub, Lookup(a.deliveries, sub.name), a.incident, p.now, p.attempts(sub.name))
  }

  /** `next`, by subscription. */
  function NextDeliveries(subs: map<string, Subscription>, a: Alert, p: Pass): map<string, Delivery> {
    map n | n in subs && Turn(subs[n], a, p).record.Some? :: Turn(subs[n], a, p).record.value
  }

  predicate WellNamed(subs: map<string, Subscription>) {
    forall n :: n in subs ==> subs[n].name == n
  }

  predicate UniqueNames(subs: seq<Subscription>) {
    forall i, j :: 0 <= i < j < |subs| ==> subs[i].name != subs[j].name
  }

  function ByName(subs: seq<Subscription>): (m: map<string, Subscription>)
    ensures forall n :: n in m ==> m[n] in subs && m[n].name == n
    ensures forall i :: 0 <= i < |subs| ==> subs[i].name in m
  {
    if |subs| == 0 then map[] else ByName(subs[..|subs| - 1])[subs[|subs| - 1].name := subs[|subs| - 1]]
  }

  /** The earliest of the positive waits, 0 when there is none. */
  ghost predicate IsEarliest(requeue: int, subs: seq<Subscription>, a: Alert, p: Pass) {
    && requeue >= 0
    && (forall i :: 0 <= i < |subs| && Turn(subs[i], a, p).wait > 0 ==> 0 < requeue <= Turn(subs[i], a, p).wait)
    && (requeue > 0 ==> exists i :: 0 <= i < |subs| && Turn(subs[i], a, p).wait == requeue)
  }

  lemma NextWith(subs: map<string, Subscription>, sub: Subscription, a: Alert, p: Pass)
    requires sub.name !in subs
    ensures var next, r := NextDeliveries(subs, a, p), Turn(sub, a, p).record;
            NextDeliveries(subs[sub.name := sub], a, p) == if r.Some? then next[sub.name := r.value] else next
  {
    hide Turn;
  }

  lemma NextGrows(subs: seq<Subscription>, a: Alert, p: Pass)
    requires |subs| > 0 && UniqueNames(subs)
    ensures var k := |subs| - 1;
            var next, r := NextDeliveries(ByName(subs[..k]), a, p), Turn(subs[k], a, p).record;
            NextDeliveries(ByName(subs), a, p) == if r.Some? then next[subs[k].name := r.value] else next
  {
    hide Turn, NextDeliveries;
    var k := |subs| - 1;
    NextWith(ByName(subs[..k]), subs[k], a, p);
  }

  function Earlier(requeue: int, wait: int): int {
    if wait > 0 && (requeue == 0 || wait < requeue) then wait else requeue
  }

  lemma EarliestGrows(requeue: int, subs: seq<Subscription>, a: Alert, p: Pass)
    requires |subs| > 0 && IsEarliest(requeue, subs[..|subs| - 1], a, p)
    ensures IsEarliest(Earlier(requeue, Turn(subs[|subs| - 1], a, p).wait), subs, a, p)
  {
    hide Turn;
    var k := |subs| - 1;
    assert forall j :: 0 <= j < k ==> subs[..k][j] == subs[j];
    var e := Earlier(requeue, Turn(subs[k], a, p).wait);
    if e > 0 && e == requeue {
      var i :| 0 <= i < k && Turn(subs[..k][i], a, p).wait == requeue;
      assert Turn(subs[i], a, p).wait == e;
    }
  }

  /** The loop of `Reconcile`: the records that follow and the wait to ask for. */
  method ReconcileLoop(subs: seq<Subscription>, a: Alert, p: Pass)
    returns (next: map<string, Delivery>, requeue: int)
    requires UniqueNames(subs)
    ensures next == NextDeliveries(ByName(subs), a, p)
    ensures IsEarliest(requeue, subs, a, p)
  {
    hide Turn, IsEarliest;
    next, requeue := map[], 0;
    assert IsEarliest(0, [], a, p) by { NothingIsEarliest(a, p); }
    for i := 0 to |subs|
      invariant next == NextDeliveries(ByName(subs[..i]), a, p)
      invariant IsEarliest(requeue, subs[..i], a, p)
    {
      var r := Turn(subs[i], a, p);
      assert subs[..i + 1][..i] == subs[..i];
      NextGrows(subs[..i + 1], a, p);
      EarliestGrows(requeue, subs[..i + 1], a, p);
      if r.record.Some? {
        next := next[subs[i].name := r.record.value];
      }
      if r.wait > 0 && (requeue == 0 || r.wait < requeue) {
        requeue := r.wait;
      }
    }
    assert subs[..|subs|] == subs;
  }

  lemma NothingIsEarliest(a: Alert, p: Pass)
    ensures IsEarliest(0, [], a, p)
  {
  }

  // ----- the pass as a whole -----

  /** The receiver's writes, one resourceVersion each. */
  function Rewritten(a: Alert, writes: seq<Incident>, clock: nat): Alert {
    if writes == [] then a else Alert(writes[|writes| - 1], a.deliveries, clock + |writes|)
  }

  predicate Runs(w: World) {
    w.alert.Some? && w.alert.value.incident.state != NoState
  }

  function Next(w: World, p: Pass): map<string, Delivery>
    requires Runs(w)
  {
    NextDeliveries(w.subs, w.alert.value, p)
  }

  predicate Patches(w: World, p: Pass)
    requires Runs(w)
  {
    Next(w, p) != w.alert.value.deliveries
  }

  /** The alert on the server once the patch, if any, is in. */
  function AfterPatch(w: World, p: Pass): Alert
    requires Runs(w)
  {
    var a := Rewritten(w.alert.value, p.duringSends, w.clock);
    if Patches(w, p) then Alert(a.incident, Next(w, p), w.clock + |p.duringSends| + 1) else a
  }

  function ClockAfterPatch(w: World, p: Pass): nat
    requires Runs(w)
  {
    w.clock + |p.duringSends| + if Patches(w, p) then 1 else 0
  }

  /** The alert in the relay's hands: the patch answers with the object as it now
      is, so a pass that patched goes on with that one, not with the one it read. */
  function Seen(w: World, p: Pass): Alert
    requires Runs(w)
  {
    if Patches(w, p) then AfterPatch(w, p) else w.alert.value
  }

  /** `allDelivered`. */
  predicate AllDelivered(ds: map<string, Delivery>, state: AlertState) {
    forall n :: n in ds ==> ds[n].delivered == state
  }

  /** Resolved when read, delivered everywhere, and with an end to count from. */
  predicate MayPurge(w: World, p: Pass)
    requires Runs(w)
  {
    && w.alert.value.incident.state == Resolved
    && Seen(w, p).incident.endsAt.Some?
    && AllDelivered(Next(w, p), Resolved)
  }

  function PurgeAt(w: World, p: Pass): int
    requires Runs(w) && MayPurge(w, p)
  {
    Seen(w, p).incident.endsAt.value + p.retention
  }

  predicate Deletes(w: World, p: Pass)
    requires Runs(w)
  {
    MayPurge(w, p) && p.now >= PurgeAt(w, p)
  }

  function BeforeDelete(w: World, p: Pass): Alert
    requires Runs(w)
  {
    Rewritten(AfterPatch(w, p), p.beforeDelete, ClockAfterPatch(w, p))
  }

  /** The delete carries the resourceVersion in the relay's hands. */
  predicate Purged(w: World, p: Pass)
    requires Runs(w)
  {
    Deletes(w, p) && BeforeDelete(w, p).version == Seen(w, p).version
  }

  /** `RequeueAfter` of a pass that did not purge, given the loop's wait. */
  function RequeueAfter(w: World, p: Pass, requeue: int): int
    requires Runs(w)
  {
    if Deletes(w, p) then SECOND
    else if MayPurge(w, p) && (requeue == 0 || PurgeAt(w, p) - p.now < requeue) then PurgeAt(w, p) - p.now
    else requeue
  }

  function Reconciled(w: World, p: Pass): World
    requires Runs(w)
  {
    World(
      if Purged(w, p) then None else Some(BeforeDelete(w, p)),
      w.subs,
      map n | n in w.logs :: if n in w.subs then w.logs[n] + Turn(w.subs[n], w.alert.value, p).sent else w.logs[n],
      w.inherited,
      ClockAfterPatch(w, p) + |p.beforeDelete|)
  }

  // ----- the events of a run -----

  datatype Event =
    | Receive(incident: Incident)  // the receiver writes the alert, creating it if need be
    | EditSubscription(edited: Subscription)
    | CreateSubscription(created: Subscription)
    | DeleteSubscription(name: string)
    | Reconcile(pass: Pass)

  ghost predicate Enabled(w: World, e: Event) {
    match e
    case Receive(_) => true
    case EditSubscription(s) => s.name in w.subs
    case CreateSubscription(s) => s.name !in w.subs
    case DeleteSubscription(n) => n in w.subs
    case Reconcile(_) => true
  }

  function Apply(w: World, e: Event): World {
    match e
    case Receive(i) =>
      w.(alert := Some(Alert(i, if w.alert.Some? then w.alert.value.deliveries else map[], w.clock + 1)),
          clock := w.clock + 1)
    case EditSubscription(s) => w.(subs := w.subs[s.name := s])
    // a subscription made again under the name of a deleted one takes over its record
    case CreateSubscription(s) =>
      w.(subs := w.subs[s.name := s], logs := w.logs[s.name := []],
         inherited := if IsOpen(RecordOf(w, s.name)) then w.inherited + {s.name} else w.inherited - {s.name})
    case DeleteSubscription(n) => w.(subs := w.subs - {n}, logs := w.logs - {n}, inherited := w.inherited - {n})
    case Reconcile(p) => if Runs(w) then Reconciled(w, p) else w
  }

  /** Excluded records were never sent anything but Resolved. */
  predicate ExclusionsOk(ds: map<string, Delivery>) {
    forall n :: n in ds && ds[n].excluded ==> ds[n].delivered == Resolved
  }

  /** The log, after what the record already said when the subscription was made. */
  function Whole(w: World, n: string): seq<AlertState>
    requires n in w.logs
  {
    (if n in w.inherited then [Firing] else []) + w.logs[n]
  }

  ghost predicate Inv(w: World) {
    && WellNamed(w.subs) && w.logs.Keys == w.subs.Keys
    && (forall n :: n in w.subs ==> Agree(Whole(w, n), RecordOf(w, n)))
    && (w.alert.Some? ==> w.alert.value.version <= w.clock && ExclusionsOk(w.alert.value.deliveries))
  }

  ghost predicate Init(w: World) {
    w.alert.None? && w.subs == map[] && w.logs == map[] && w.inherited == {}
  }

  // ----- what a pass does -----

  lemma TurnKeepsAgreement(w: World, p: Pass, n: string)
    requires Inv(w) && Runs(w) && n in w.subs
    ensures var r := Turn(w.subs[n], w.alert.value, p);
            Agree(Whole(w, n) + r.sent, r.record) && Lookup(Next(w, p), n) == r.record
  {
    hide Handle, Agree;
    var a := w.alert.value;
    HandleKeepsAgreement(Whole(w, n), w.subs[n], Lookup(a.deliveries, n), a.incident, p.now, p.attempts(n));
  }

  lemma NextExclusionsOk(w: World, p: Pass)
    requires Inv(w) && Runs(w)
    ensures ExclusionsOk(Next(w, p))
  {
    hide Handle, Agree;
    forall n | n in Next(w, p) && Next(w, p)[n].excluded
      ensures Next(w, p)[n].delivered == Resolved
    {
      TurnKeepsAgreement(w, p, n);
      assert Agree(Whole(w, n) + Turn(w.subs[n], w.alert.value, p).sent, Some(Next(w, p)[n]));
      AgreementOfExclusion(Whole(w, n) + Turn(w.subs[n], w.alert.value, p).sent, Next(w, p)[n]);
    }
  }

  lemma AgreementOfExclusion(log: seq<AlertState>, d: Delivery)
    requires Agree(log, Some(d))
    ensures d.excluded ==> d.delivered == Resolved
  {
  }

  /** A resolved alert's pass leaves every subscription with a record. */
  lemma ResolvedLeavesRecords(w: World, p: Pass, n: string)
    requires WellNamed(w.subs) && Runs(w) && w.alert.value.incident.state == Resolved && n in w.subs
    ensures n in Next(w, p)
  {
    hide Deliver, Refreshed;
  }

  /** A version is only ever seen twice on an alert nobody wrote in between. */
  lemma SameVersionMeansUnwritten(w: World, p: Pass)
    requires Runs(w) && w.alert.value.version <= w.clock
    ensures BeforeDelete(w, p).version == Seen(w, p).version
       <==> p.beforeDelete == [] && (Patches(w, p) || p.duringSends == [])
  {
    hide NextDeliveries;
  }

  /** Exactly when a pass purges. The alert it deletes is the one in the relay's
      hands, unwritten since; that is the alert it read only if the pass had no
      delivery to record, or nobody wrote the alert while it was sending. */
  lemma PurgedExactlyWhen(w: World, p: Pass)
    requires Inv(w) && Runs(w)
    ensures Purged(w, p) <==>
              && w.alert.value.incident.state == Resolved
              && AllDelivered(Next(w, p), Resolved)
              && Seen(w, p).incident.endsAt.Some? && p.now >= Seen(w, p).incident.endsAt.value + p.retention
              && p.beforeDelete == [] && (Patches(w, p) || p.duringSends == [])
    ensures Purged(w, p) ==> BeforeDelete(w, p) == Seen(w, p)
    ensures Purged(w, p) ==> (BeforeDelete(w, p).incident == w.alert.value.incident
                              <==> p.duringSends == [] || p.duringSends[|p.duringSends| - 1] == w.alert.value.incident)
    ensures Purged(w, p) && !Patches(w, p) ==> BeforeDelete(w, p) == w.alert.value
  {
    hide NextDeliveries, Agree;
    SameVersionMeansUnwritten(w, p);
  }

  /** What is left of the alert after a pass: nothing exactly if it purges, and otherwise the
      receiver's last word on it. */
  lemma PassLeavesAlert(w: World, p: Pass)
    requires Inv(w) && Runs(w)
    ensures Reconciled(w, p).alert.None? <==>
              && w.alert.value.incident.state == Resolved
              && (forall n :: n in Next(w, p) ==> Next(w, p)[n].delivered == Resolved)
              && Seen(w, p).incident.endsAt.Some? && p.now >= Seen(w, p).incident.endsAt.value + p.retention
              && p.beforeDelete == [] && (Next(w, p) != w.alert.value.deliveries || p.duringSends == [])
    ensures Reconciled(w, p).alert.Some? ==>
              Reconciled(w, p).alert.value.incident ==
              if p.beforeDelete != [] then p.beforeDelete[|p.beforeDelete| - 1]
              else if p.duringSends != [] then p.duringSends[|p.duringSends| - 1]
              else w.alert.value.incident
    ensures Reconciled(w, p).subs == w.subs
  {
    hide NextDeliveries, Agree, Turn;
    PurgedExactlyWhen(w, p);
  }

  /** No subscription is left holding an incident that is purged away. */
  lemma PurgeLeavesNothingOpen(w: World, p: Pass, n: string)
    requires Inv(w) && Runs(w) && Purged(w, p) && n in w.subs
    ensures !EndsFiring(Reconciled(w, p).logs[n]) && !EndsFiring(Whole(Reconciled(w, p), n))
  {
    hide Handle, Runs;
    TurnKeepsAgreement(w, p, n);
    ResolvedLeavesRecords(w, p, n);
    WholeGrows(w, p, n);
  }

  lemma WholeGrows(w: World, p: Pass, n: string)
    requires Runs(w) && n in w.subs && n in w.logs
    ensures Whole(Reconciled(w, p), n) == Whole(w, n) + Turn(w.subs[n], w.alert.value, p).sent
  {
    hide Turn;
  }

  lemma ReconcileKeepsInv(w: World, p: Pass)
    requires Inv(w) && Runs(w)
    ensures Inv(Reconciled(w, p))
  {
    hide Handle, Agree, ExclusionsOk;
    var w' := Reconciled(w, p);
    NextExclusionsOk(w, p);
    assert w.alert.value.deliveries == Next(w, p) || Patches(w, p);
    forall n | n in w'.subs
      ensures Agree(Whole(w', n), RecordOf(w', n))
    {
      TurnKeepsAgreement(w, p, n);
      WholeGrows(w, p, n);
      if Purged(w, p) {
        PurgeLeavesNothingOpen(w, p, n);
        ClosedAgreesWithNothing(Whole(w', n), Lookup(Next(w, p), n));
      }
    }
  }

  lemma ClosedAgreesWithNothing(log: seq<AlertState>, record: Option<Delivery>)
    requires Agree(log, record) && !EndsFiring(log)
    ensures Agree(log, None)
  {
  }

  lemma StepKeepsInv(w: World, e: Event)
    requires Inv(w) && Enabled(w, e)
    ensures Inv(Apply(w, e))
  {
    hide Reconciled, Agree, ExclusionsOk;
    match e
    case Reconcile(p) =>
      if Runs(w) {
        ReconcileKeepsInv(w, p);
      }
    case Receive(_) => NothingIsExcluded(); ReceiveKeepsAgreement(w, e);
    case EditSubscription(_) =>
    case CreateSubscription(s) => NewLogAgrees(w, s);
    case DeleteSubscription(_) =>
  }

  lemma NothingIsExcluded()
    ensures ExclusionsOk(map[])
  {
  }

  /** The receiver touches no record; a new alert has none, and no log is open then. */
  lemma ReceiveKeepsAgreement(w: World, e: Event)
    requires Inv(w) && e.Receive?
    ensures forall n :: n in w.subs ==> Agree(Whole(w, n), RecordOf(Apply(w, e), n))
  {
  }

  lemma NewLogAgrees(w: World, s: Subscription)
    requires Inv(w) && s.name !in w.subs
    ensures var w' := Apply(w, CreateSubscription(s)); Agree(Whole(w', s.name), RecordOf(w', s.name))
  {
  }

  ghost predicate IsRun(run: seq<World>, events: seq<Event>) {
    && |run| == |events| + 1 && Init(run[0])
    && forall k :: 0 <= k < |events| ==> Enabled(run[k], events[k]) && run[k + 1] == Apply(run[k], events[k])
  }

  lemma {:induction false} RunKeepsInv(run: seq<World>, events: seq<Event>, k: nat)
    requires IsRun(run, events) && k < |run|
    ensures Inv(run[k])
  {
    hide Inv, Enabled, Apply;
    if k == 0 {
      InitIsInv(run[0]);
    } else {
      RunKeepsInv(run, events, k - 1);
      StepKeepsInv(run[k - 1], events[k - 1]);
    }
  }

  lemma InitIsInv(w: World)
    requires Init(w)
    ensures Inv(w)
  {
  }

  /** Over every run, the sends a present subscription acknowledged alternate Firing,
      Resolved, beginning with Firing, and end in Firing exactly when its record says
      delivered Firing and not excluded, with one exception: a subscription made while the
      alert had an open record under its name goes on from there. Its sends alternate
      beginning with Resolved, and until the first of them the record is open though
      nothing was sent. */
  lemma AcknowledgedSendsAlternate(run: seq<World>, events: seq<Event>, k: nat, n: string)
    requires IsRun(run, events) && k < |run| && n in run[k].subs
    ensures n in run[k].logs
    ensures Alternates(Whole(run[k], n)) && (EndsFiring(Whole(run[k], n)) <==> IsOpen(RecordOf(run[k], n)))
    ensures Alternates(run[k].logs[n]) <==> n !in run[k].inherited || run[k].logs[n] == []
    ensures (EndsFiring(run[k].logs[n]) <==> IsOpen(RecordOf(run[k], n))) <==>
            n !in run[k].inherited || run[k].logs[n] != []
  {
    hide IsRun;
    RunKeepsInv(run, events, k);
    var log, whole := run[k].logs[n], Whole(run[k], n);
    if n in run[k].inherited {
      assert log != [] ==> whole[1] == log[0] && whole[|whole| - 1] == log[|log| - 1];
    } else {
      assert whole == log;
    }
  }

  /** The latest creation of a present subscription, the event that decides which it is. */
  ghost predicate MadeAt(events: seq<Event>, k: nat, j: nat, n: string) {
    && j < k <= |events| && events[j].CreateSubscription? && events[j].created.name == n
    && forall m :: j < m < k ==> events[m] != DeleteSubscription(n)
  }

  /** Which subscriptions are the exception can be told when they are made: exactly those
      whose creation finds an open record under their name. */
  lemma {:induction false} InheritedIffMadeOverOpenRecord(run: seq<World>, events: seq<Event>, k: nat, n: string)
    returns (j: nat)
    requires IsRun(run, events) && k < |run| && n in run[k].subs
    ensures MadeAt(events, k, j, n)
    ensures n in run[k].inherited <==> IsOpen(RecordOf(run[j], n))
  {
    hide Reconciled, IsOpen, RecordOf, Runs;
    var e, w := events[k - 1], run[k - 1];
    assert Enabled(w, e) && run[k - 1 + 1] == Apply(w, e);
    if e.CreateSubscription? && e.created.name == n {
      j := k - 1;
    } else {
      ReconcileKeepsSubscriptions(w, e, n);
      j := InheritedIffMadeOverOpenRecord(run, events, k - 1, n);
      assert e != DeleteSubscription(n);
    }
  }

  lemma ReconcileKeepsSubscriptions(w: World, e: Event, n: string)
    requires Enabled(w, e) && !(e.CreateSubscription? && e.created.name == n) && n in Apply(w, e).subs
    ensures n in w.subs && e != DeleteSubscription(n) && (n in Apply(w, e).inherited <==> n in w.inherited)
  {
    hide NextDeliveries, Turn;
  }

  /** Every log agrees with its record, without exception. */
  ghost predicate AllAgree(w: World) {
    w.logs.Keys == w.subs.Keys && forall n :: n in w.subs ==> Agree(w.logs[n], RecordOf(w, n))
  }

  /** Making a subscription keeps that exactly when no open record is left under its name. */
  lemma CreationKeepsAgreementIff(w: World, s: Subscription)
    requires Inv(w) && AllAgree(w) && s.name !in w.subs
    ensures AllAgree(Apply(w, CreateSubscription(s))) <==> !IsOpen(RecordOf(w, s.name))
  {
    var w' := Apply(w, CreateSubscription(s));
    assert w'.logs[s.name] == [] && s.name in w'.subs;
    forall n | n in w.subs
      ensures Agree(w'.logs[n], RecordOf(w', n)) <==> Agree(w.logs[n], RecordOf(w, n))
    {
    }
  }

  /** Once a record says Resolved its subscription is sent nothing more for as long as the
      alert stays resolved, whatever is done to the subscription's filter or pause. */
  lemma {:induction false} ToldStaysTold(run: seq<World>, events: seq<Event>, j: nat, k: nat, n: string)
    requires IsRun(run, events) && j <= k < |run|
    requires forall m :: j <= m <= k ==>
      n in run[m].subs && n in run[m].logs && run[m].alert.Some? && run[m].alert.value.incident.state == Resolved
    requires forall m :: j <= m < k ==> events[m] != DeleteSubscription(n)
    requires RecordOf(run[j], n).Some? && RecordOf(run[j], n).value.delivered == Resolved
    ensures RecordOf(run[k], n).Some? && RecordOf(run[k], n).value.delivered == Resolved
    ensures run[k].logs[n] == run[j].logs[n]
  {
    hide Inv, Apply, Enabled, IsRun;
    if j < k {
      ToldStaysTold(run, events, j, k - 1, n);
      RunStep(run, events, k - 1);
      RunKeepsInv(run, events, k - 1);
      StepKeepsTold(run[k - 1], events[k - 1], n);
    }
  }

  lemma RunStep(run: seq<World>, events: seq<Event>, k: nat)
    requires IsRun(run, events) && k + 1 < |run|
    ensures |run| == |events| + 1 && Enabled(run[k], events[k]) && run[k + 1] == Apply(run[k], events[k])
  {
  }

  lemma StepKeepsTold(w: World, e: Event, n: string)
    requires Inv(w) && Enabled(w, e) && n in w.subs && e != DeleteSubscription(n)
    requires Runs(w) && w.alert.value.incident.state == Resolved
    requires RecordOf(w, n).Some? && RecordOf(w, n).value.delivered == Resolved
    ensures n in Apply(w, e).logs && Apply(w, e).logs[n] == w.logs[n]
    ensures Apply(w, e).alert.Some? ==>
            RecordOf(Apply(w, e), n).Some? && RecordOf(Apply(w, e), n).value.delivered == Resolved
  {
    hide Agree, Handle;
    if e.Reconcile? {
      var a := w.alert.value;
      ToldIsNotToldAgain(w.subs[n], RecordOf(w, n), a.incident, e.pass.now, e.pass.attempts(n));
      assert Turn(w.subs[n], a, e.pass).sent == [];
      assert w.logs[n] + [] == w.logs[n];
    }
  }

  /** A pass tells each subscription what is due to it and nothing else: the log grows by what
      the endpoint took, exactly if an attempt was due. */
  lemma LogGrowsExactly(w: World, p: Pass, n: string)
    requires Inv(w) && Runs(w) && n in w.subs
    ensures var i, prior := w.alert.value.incident, RecordOf(w, n);
            && n in w.logs && n in Reconciled(w, p).logs
            && Reconciled(w, p).logs[n] ==
               w.logs[n] + if IsDue(w.subs[n], prior, i, p.now) then Taken(prior, i, p.attempts(n)) else []
  {
    hide Handle, Agree, IsDue, Taken;
    SendsExactlyWhen(w.subs[n], RecordOf(w, n), w.alert.value.incident, p.now, p.attempts(n));
  }

  /** And unless it purges the alert, it leaves the record of each turn and no others: those of
      subscriptions that are gone go too. */
  lemma RecordsFollowTurns(w: World, p: Pass, n: string)
    requires Inv(w) && Runs(w) && !Purged(w, p)
    ensures RecordOf(Reconciled(w, p), n) ==
            if n in w.subs then Handle(w.subs[n], RecordOf(w, n), w.alert.value.incident, p.now, p.attempts(n)).record
            else None
  {
    hide Handle, Agree, Purged;
    assert Next(w, p) == w.alert.value.deliveries || Patches(w, p);
  }

  /** While a subscription is paused nothing is sent to it, whatever else goes on. */
  lemma {:induction false} PausedHearsNothing(run: seq<World>, events: seq<Event>, j: nat, k: nat, n: string)
    requires IsRun(run, events) && j <= k < |run|
    requires forall m :: j <= m <= k ==> n in run[m].subs && run[m].subs[n].paused
    requires forall m :: j <= m < k ==> events[m] != DeleteSubscription(n)
    ensures n in run[j].logs && n in run[k].logs && run[k].logs[n] == run[j].logs[n]
  {
    hide Inv, Apply, Enabled, IsRun;
    RunKeepsInv(run, events, j);
    InvHasLogs(run[j], n);
    if j < k {
      PausedHearsNothing(run, events, j, k - 1, n);
      RunStep(run, events, k - 1);
      RunKeepsInv(run, events, k - 1);
      StepToPaused(run[k - 1], events[k - 1], n);
    }
  }

  lemma InvHasLogs(w: World, n: string)
    requires Inv(w) && n in w.subs
    ensures n in w.logs
  {
  }

  lemma StepToPaused(w: World, e: Event, n: string)
    requires Inv(w) && Enabled(w, e) && n in w.subs && w.subs[n].paused && e != DeleteSubscription(n)
    ensures n in w.logs && n in Apply(w, e).logs && Apply(w, e).logs[n] == w.logs[n]
  {
    hide Agree, Handle, Reconciled, Taken;
    InvHasLogs(w, n);
    if e.Reconcile? && Runs(w) {
      LogGrowsExactly(w, e.pass, n);
      assert w.logs[n] + [] == w.logs[n];
    }
  }

  /** Resolved, known to everyone it is owed to, and with an end to count the retention from. */
  predicate AwaitsPurge(w: World, p: Pass)
    requires Runs(w)
  {
    && w.alert.value.incident.state == Resolved
    && Seen(w, p).incident.endsAt.Some?
    && forall n :: n in Next(w, p) ==> Next(w, p)[n].delivered == Resolved
  }

  /** When a pass that did not purge asks to be run again: after a second if its delete met a
      conflict; otherwise at the first of the waits of its turns and the end of the
      retention, and not at all exactly if there is none of these. */
  lemma WakesInTime(w: World, p: Pass, subs: seq<Subscription>, requeue: int)
    requires Runs(w) && !Purged(w, p) && IsEarliest(requeue, subs, w.alert.value, p)
    ensures var after, a := RequeueAfter(w, p, requeue), w.alert.value;
            var left := if AwaitsPurge(w, p)
                        then Some(Seen(w, p).incident.endsAt.value + p.retention - p.now) else None;
            if left.Some? && left.value <= 0 then after == 1_000_000_000
            else
              && (left.Some? ==> 0 < after <= left.value)
              && (forall i :: 0 <= i < |subs| && Turn(subs[i], a, p).wait > 0 ==> 0 < after <= Turn(subs[i], a, p).wait)
              && (after > 0 ==>
                    || left == Some(after)
                    || exists i :: 0 <= i < |subs| && Turn(subs[i], a, p).wait == after)
              && after >= 0
  {
    hide Turn, Seen, NextDeliveries;
  }

  /** A pass that does not purge asks to be run again less than a second after the moment
      any record it left undelivered is due for its next attempt; and no later than that
      moment if it made no attempt there, or runs on a whole second. Where this record is
      the one that decides the wait, those are exactly the cases. */
  lemma RetriesAreRequeued(w: World, p: Pass, subs: seq<Subscription>, requeue: int, i: nat)
    requires Inv(w) && Runs(w) && !Purged(w, p)
    requires ByName(subs) == w.subs && UniqueNames(subs) && IsEarliest(requeue, subs, w.alert.value, p) && i < |subs|
    requires subs[i].name in Next(w, p)
    requires IsRetryable(subs[i], Turn(subs[i], w.alert.value, p), w.alert.value.incident)
    ensures BackoffDue(Next(w, p)[subs[i].name]).Some?
    ensures 0 < RequeueAfter(w, p, requeue) <= Turn(subs[i], w.alert.value, p).wait
    ensures var again, due := p.now + RequeueAfter(w, p, requeue), BackoffDue(Next(w, p)[subs[i].name]).value;
            var punctual := p.now % SECOND == 0 ||
                            !IsDue(subs[i], RecordOf(w, subs[i].name), w.alert.value.incident, p.now);
            && again < due + SECOND
            && (punctual ==> again <= due)
            && (RequeueAfter(w, p, requeue) == Turn(subs[i], w.alert.value, p).wait ==> (again <= due <==> punctual))
  {
    hide Handle, Agree, ByName, IsDue, BackoffDue;
    var a, sub := w.alert.value, subs[i];
    assert w.subs[sub.name] == sub by { SubscriptionByName(subs, i); }
    RetryableIsDue(sub, Lookup(a.deliveries, sub.name), a.incident, p.now, p.attempts(sub.name));
    assert Next(w, p)[sub.name] == Turn(sub, a, p).record.value;
  }

  lemma {:induction false} SubscriptionByName(subs: seq<Subscription>, i: nat)
    requires UniqueNames(subs) && i < |subs|
    ensures ByName(subs)[subs[i].name] == subs[i]
  {
    if i < |subs| - 1 {
      SubscriptionByName(subs[..|subs| - 1], i);
    }
  }

  // ----- the subscription's status -----

  /** The alert is still due to the subscription, as `tallyDeliveries` counts it. */
  predicate PendingFor(sub: Subscription, a: Alert) {
    var d := Lookup(a.deliveries, sub.name);
    && a.incident.state != NoState
    && (Matches(sub.filter, a.incident) || (IsOpen(d) && a.incident.state == Resolved))
    && (d.None? || d.value.delivered != a.incident.state)
  }

  /** `tallyDeliveries`, its pending count. */
  method TallyPending(sub: Subscription, alerts: seq<Alert>) returns (pending: nat)
    ensures pending == |set i | 0 <= i < |alerts| && PendingFor(sub, alerts[i])|
  {
    pending := 0;
    ghost var counted: set<int> := {};
    for i := 0 to |alerts|
      invariant counted == set j | 0 <= j < i && PendingFor(sub, alerts[j])
      invariant pending == |counted|
    {
      var a := alerts[i];
      if a.incident.state == NoState {
        continue;
      }
      var d := Lookup(a.deliveries, sub.name);
      var stillOpenForResolution := IsOpen(d) && a.incident.state == Resolved;
      if !Matches(sub.filter, a.incident) && !stillOpenForResolution {
        continue;
      }
      if d.None? || d.value.delivered != a.incident.state {
        pending := pending + 1;
        counted := counted + {i};
      }
    }
  }

  /** The status counts an alert as pending exactly if, once the subscription is neither paused
      nor failed for good nor backing off, the next turn has something to send, or the
      incident is one it will not be told of because it was over before. */
  lemma PendingIffSendable(sub: Subscription, a: Alert, now: int, second: SendOutcome)
    requires !sub.paused
    requires var d := Lookup(a.deliveries, sub.name);
             d.Some? ==>
               && (d.value.excluded ==> d.value.delivered == Resolved)
               && !FailedForGood(d.value, sub, a.incident)
               && (TimeLeft(d.value, now).Some? ==> TimeLeft(d.value, now).value <= 0)
    ensures var d := Lookup(a.deliveries, sub.name);
            PendingFor(sub, a) <==>
            && a.incident.state != NoState
            && (|| Handle(sub, d, a.incident, now, Sends(Delivered, second)).sent != []
                || (IsAtStake(sub, d, a.incident) && IsPast(sub, d, a.incident)))
  {
    hide Handle;
    if a.incident.state != NoState {
      SendsExactlyWhen(sub, Lookup(a.deliveries, sub.name), a.incident, now, Sends(Delivered, second));
    }
  }

  lemma SettledIsNotPending(w: World, p: Pass, n: string)
    requires Inv(w) && Runs(w) && w.alert.value.incident.state == Resolved && n in w.subs
    ensures n in Next(w, p)
    ensures PendingFor(w.subs[n], w.alert.value.(deliveries := Next(w, p))) <==> Next(w, p)[n].delivered != Resolved
  {
    hide Agree, Refreshed;
    ResolvedLeavesRecords(w, p, n);
    var a := w.alert.value;
    var prior := Lookup(a.deliveries, n);
    if !Matches(w.subs[n].filter, a.incident) && IsOpen(prior) {
      OpenStaysOpenUntilResolved(w.subs[n], prior, a.incident, p.now, p.attempts(n));
    }
  }

  /** A record driven for its resolution alone stays open until that is sent. */
  lemma OpenStaysOpenUntilResolved(sub: Subscription, prior: Option<Delivery>, i: Incident, now: int, attempt: Attempt)
    requires IsOpen(prior) && i.state == Resolved
    ensures var r := Handle(sub, prior, i, now, attempt).record; r.Some? && (r.value.delivered == Resolved || IsOpen(r))
  {
    var d := Refreshed(prior.value, sub, i.state);
    if attempt.Sends? {
      var d' := Acknowledged(d, Resolved, now);
      assert SendFrom(d', [Resolved], 1, attempt, Resolved, now) == Delivering(d', 0, []);
      assert Sequence(d, Resolved) == [Resolved];
    }
  }

  /** After a resolved alert's pass, everything is delivered exactly when the status
      of no subscription counts the alert as pending. */
  lemma DeliveredIffNothingPending(w: World, p: Pass)
    requires Inv(w) && Runs(w) && w.alert.value.incident.state == Resolved
    ensures AllDelivered(Next(w, p), Resolved) <==>
            forall n :: n in w.subs ==> !PendingFor(w.subs[n], w.alert.value.(deliveries := Next(w, p)))
  {
    hide Handle, Agree, PendingFor;
    forall n | n in w.subs
      ensures n in Next(w, p)
      ensures PendingFor(w.subs[n], w.alert.value.(deliveries := Next(w, p))) <==> Next(w, p)[n].delivered != Resolved
    {
      SettledIsNotPending(w, p, n);
    }
    assert forall n :: n in Next(w, p) ==> n in w.subs;
  }

  // ----- what does not hold -----

  const DAY := 86_400 * SECOND

  const ANY_ALERT := Filter([], [], [])
  const TENANT := Subscription("s", ANY_ALERT, false, 0, 0)
  const FIRING := Incident("a", "", "", Firing, None, 0)
  const RESOLVED := FIRING.(state := Resolved, endsAt := Some(10 * SECOND))

  /** A pass at the given time in which every send succeeds. */
  function GoodPass(now: int, retention: int, duringSends: seq<Incident>): Pass {
    Pass(now, retention, _ => Sends(Delivered, Delivered), duringSends, [])
  }

  /** The record of the tenant once a good pass has told it a state. */
  function Told(st: AlertState, now: int): Delivery {
    NEW_DELIVERY.(delivered := st, lastAttemptAt := Some(Stored(now)))
  }

  /** A good pass tells the tenant what it does not know yet. */
  lemma GoodTurn(prior: Option<Delivery>, i: Incident, p: Pass)
    requires p == GoodPass(p.now, p.retention, p.duringSends)
    requires (prior.None? && i == FIRING) || (prior.Some? && prior.value == Told(Firing, SECOND) && i == RESOLVED)
    ensures Handle(TENANT, prior, i, p.now, p.attempts("s")) == Handled(Some(Told(i.state, p.now)), 0, [i.state])
  {
    var d := Refreshed(if prior.Some? then prior.value else NEW_DELIVERY, TENANT, i.state);
    var d' := Acknowledged(d, i.state, p.now);
    assert d' == Told(i.state, p.now);
    assert SendFrom(d', [i.state], 1, p.attempts("s"), i.state, p.now) == Delivering(d', 0, []);
    assert SendFrom(d, [i.state], 0, p.attempts("s"), i.state, p.now).sent == [i.state] + [];
  }

  /** The tenant subscribes, the alert fires, and the tenant is told. */
  const TOLD_FIRING := World(
    Some(Alert(FIRING, map["s" := Told(Firing, SECOND)], 2)), map["s" := TENANT], map["s" := [Firing]], {}, 2)

  const OPENING := [CreateSubscription(TENANT), Receive(FIRING), Reconcile(GoodPass(SECOND, 14 * DAY, []))]

  lemma OpeningRun() returns (run: seq<World>)
    ensures IsRun(run, OPENING) && run[|run| - 1] == TOLD_FIRING
  {
    hide Handle;
    var w0 := World(None, map[], map[], {}, 0);
    var w1 := Apply(w0, OPENING[0]);
    var w2 := Apply(w1, OPENING[1]);
    assert w2 == World(Some(Alert(FIRING, map[], 1)), map["s" := TENANT], map["s" := []], {}, 1);
    var p := OPENING[2].pass;
    GoodTurn(None, FIRING, p);
    assert Turn(TENANT, w2.alert.value, p) == Handled(Some(Told(Firing, SECOND)), 0, [Firing]);
    assert Next(w2, p) == map["s" := Told(Firing, SECOND)];
    assert [] + [Firing] == [Firing];
    var w3 := Apply(w2, OPENING[2]);
    assert w3 == TOLD_FIRING;
    run := [w0, w1, w2, w3];
  }

  lemma RunExtends(run: seq<World>, events: seq<Event>, e: Event)
    requires IsRun(run, events) && Enabled(run[|run| - 1], e)
    ensures IsRun(run + [Apply(run[|run| - 1], e)], events + [e])
  {
    hide Enabled, Apply, Init;
    var run', events' := run + [Apply(run[|run| - 1], e)], events + [e];
    forall k | 0 <= k < |events'|
      ensures Enabled(run'[k], events'[k]) && run'[k + 1] == Apply(run'[k], events'[k])
    {
      if k < |events| {
        assert run'[k] == run[k] && run'[k + 1] == run[k + 1] && events'[k] == events[k];
      } else {
        assert run'[k] == run[|run| - 1];
      }
    }
  }

  /** The delete's precondition does not cover the time of the sends. Here the resolution
      could not be delivered for 14 days, the retention. While it is being sent the alert
      fires again, and a notification of the old resolution, delivered late, has its end
      time written, which the receiver does before it writes the state: the alert is purged
      as it stands, Firing. */
  lemma PurgeMayDiscardAWrite() returns (run: seq<World>, events: seq<Event>, p: Pass)
    ensures IsRun(run, events)
    ensures var w := run[|run| - 1]; Runs(w) && Purged(w, p) && BeforeDelete(w, p).incident.state == Firing
    ensures p.retention == 14 * DAY
  {
    run := OpeningRun();
    RunExtends(run, OPENING, Receive(RESOLVED));
    run, events := run + [Apply(TOLD_FIRING, Receive(RESOLVED))], OPENING + [Receive(RESOLVED)];
    p := GoodPass(10 * SECOND + 14 * DAY, 14 * DAY, [FIRING, FIRING.(endsAt := Some(10 * SECOND))]);
    hide Handle, IsRun;
    var w := run[|run| - 1];
    GoodTurn(Some(Told(Firing, SECOND)), RESOLVED, p);
    assert Turn(TENANT, w.alert.value, p) == Handled(Some(Told(Resolved, p.now)), 0, [Resolved]);
    assert Next(w, p) == map["s" := Told(Resolved, p.now)];
    assert Patches(w, p) by { assert Next(w, p)["s"].delivered != w.alert.value.deliveries["s"].delivered; }
  }

  /** A subscription deleted and made again before the next pass inherits the record of the
      deleted one: here the tenant that was told Firing is replaced, and the first thing
      its successor is sent is Resolved. */
  lemma LeftoverRecordBreaksTheLog() returns (run: seq<World>, events: seq<Event>)
    ensures IsRun(run, events)
    ensures var w := run[|run| - 1];
            "s" in w.subs && "s" in w.logs && w.logs["s"] == [Resolved] && !Alternates(w.logs["s"])
  {
    hide Handle, IsRun, NextDeliveries;
    run := OpeningRun();
    var w0 := TOLD_FIRING;
    var w1 := Apply(w0, DeleteSubscription("s"));
    RunExtends(run, OPENING, DeleteSubscription("s"));
    run, events := run + [w1], OPENING + [DeleteSubscription("s")];
    var w2 := Apply(w1, CreateSubscription(TENANT));
    RunExtends(run, events, CreateSubscription(TENANT));
    run, events := run + [w2], events + [CreateSubscription(TENANT)];
    var w3 := Apply(w2, Receive(RESOLVED));
    assert w3 == World(Some(Alert(RESOLVED, map["s" := Told(Firing, SECOND)], 3)), map["s" := TENANT], map["s" := []],
        {"s"}, 3);
    RunExtends(run, events, Receive(RESOLVED));
    run, events := run + [w3], events + [Receive(RESOLVED)];
    var p := GoodPass(20 * SECOND, 14 * DAY, []);
    RunExtends(run, events, Reconcile(p));
    run, events := run + [Apply(w3, Reconcile(p))], events + [Reconcile(p)];
    GoodTurn(Some(Told(Firing, SECOND)), RESOLVED, p);
    assert Turn(TENANT, w3.alert.value, p) == Handled(Some(Told(Resolved, p.now)), 0, [Resolved]);
    assert [] + [Resolved] == [Resolved];
  }
}
