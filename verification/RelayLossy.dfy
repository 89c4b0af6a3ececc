/** The relay when the status patch after its sends does not land: what was acknowledged is
    then forgotten and sent again, so the sends no longer alternate. What is left is that a
    tenant never hears Resolved before it has heard Firing. */
module RelayLossy {
  import opened Text
  import opened Relay
  import opened RelayRuns

  /** An event as it should be, or a pass that ends in the error of its patch, which may
      have landed all the same. */
  datatype Turnout = Sound(event: Event) | PatchFails(pass: Pass, landed: bool)

  /** The pass returns at the error: nothing is purged. */
  function Unpatched(w: World, p: Pass, landed: bool): World
    requires Runs(w)
  {
    var a := Rewritten(w.alert.value, p.duringSends, w.clock);
    var after := if landed then AfterPatch(w, p) else a;
    Reconciled(w, p).(
      alert := Some(after),
      clock := w.clock + |p.duringSends| + if landed && Patches(w, p) then 1 else 0)
  }

  ghost predicate MayHappen(w: World, t: Turnout) {
    match t
    case Sound(e) => Enabled(w, e)
    case PatchFails(p, _) => Runs(w) && Patches(w, p)
  }

  function Happened(w: World, t: Turnout): World
    requires MayHappen(w, t)
  {
    match t
    case Sound(e) => Apply(w, e)
    case PatchFails(p, landed) => Unpatched(w, p, landed)
  }

  // ----- what one turn keeps -----

  predicate BeginsFiring(log: seq<AlertState>) {
    log == [] || log[0] == Firing
  }

  /** The log begins with Firing, if at all, and does begin if the record is open. */
  predicate Begun(log: seq<AlertState>, record: Option<Delivery>) {
    && BeginsFiring(log)
    && (IsOpen(record) ==> log != [])
    && (record.Some? && record.value.excluded ==> record.value.delivered == Resolved)
  }

  lemma {:induction false} SendKeepsBegun(
    log: seq<AlertState>, d: Delivery, todo: seq<AlertState>, k: nat, attempt: Attempt, state: AlertState, now: int)
    requires attempt.Sends? && k <= |todo| && Begun(log, Some(d))
    requires forall j :: 0 <= j < |todo| ==> todo[j] != NoState
    requires k < |todo| && todo[k] == Resolved ==> d.delivered != NoState
    ensures var r := SendFrom(d, todo, k, attempt, state, now); Begun(log + r.sent, Some(r.d))
    decreases |todo| - k
  {
    hide Backoff, Stored;
    assert log + [] == log;
    if k < |todo| {
      if d.delivered == todo[k] {
        SendKeepsBegun(log, d, todo, k + 1, attempt, state, now);
      } else if Answer(attempt, k) == Delivered {
        var d', log' := Acknowledged(d, todo[k], now), log + [todo[k]];
        SendKeepsBegun(log', d', todo, k + 1, attempt, state, now);
        var rest := SendFrom(d', todo, k + 1, attempt, state, now);
        assert log + ([todo[k]] + rest.sent) == log' + rest.sent;
      }
    }
  }

  lemma DeliverKeepsBegun(
    log: seq<AlertState>, sub: Subscription, d: Delivery, state: AlertState, now: int, attempt: Attempt)
    requires state != NoState && Begun(log, Some(d))
    ensures var r := Deliver(sub, d, state, now, attempt); Begun(log + r.sent, Some(r.d))
  {
    hide Backoff, Stored, SendFrom;
    assert log + [] == log;
    if !Skips(sub, d, state) && attempt.Sends? {
      SendKeepsBegun(log, d, Sequence(d, state), 0, attempt, state, now);
    }
  }

  lemma HandleKeepsBegun(
    log: seq<AlertState>, sub: Subscription, prior: Option<Delivery>, i: Incident, now: int, attempt: Attempt)
    requires i.state != NoState && Begun(log, prior)
    ensures var r := Handle(sub, prior, i, now, attempt); Begun(log + r.sent, r.record)
  {
    hide Deliver, Matches;
    assert log + [] == log;
    if IsDriven(sub, prior, i) {
      var d := Refreshed(if prior.Some? then prior.value else NEW_DELIVERY, sub, i.state);
      DeliverKeepsBegun(log, sub, d, i.state, now, attempt);
    }
  }

  // ----- whole runs -----

  ghost predicate Inv(w: World) {
    && WellNamed(w.subs) && w.logs.Keys == w.subs.Keys
    && (forall n :: n in w.subs ==> Begun(Whole(w, n), RecordOf(w, n)))
    && (w.alert.Some? ==> ExclusionsOk(w.alert.value.deliveries))
  }

  lemma TurnKeepsBegun(w: World, p: Pass, n: string)
    requires Inv(w) && Runs(w) && n in w.subs
    ensures var r := Turn(w.subs[n], w.alert.value, p);
            Begun(Whole(w, n) + r.sent, r.record) && Lookup(Next(w, p), n) == r.record
  {
    hide Handle, Begun;
    var a := w.alert.value;
    HandleKeepsBegun(Whole(w, n), w.subs[n], Lookup(a.deliveries, n), a.incident, p.now, p.attempts(n));
  }

  lemma BegunStays(log: seq<AlertState>, more: seq<AlertState>, prior: Option<Delivery>, record: Option<Delivery>)
    requires Begun(log, prior) && Begun(log + more, record)
    ensures Begun(log + more, prior) && Begun(log + more, None)
  {
  }

  lemma NextExclusionsOk(w: World, p: Pass)
    requires Inv(w) && Runs(w)
    ensures ExclusionsOk(Next(w, p))
  {
    hide Handle;
    forall n | n in Next(w, p) && Next(w, p)[n].excluded
      ensures Next(w, p)[n].delivered == Resolved
    {
      TurnKeepsBegun(w, p, n);
    }
  }

  /** However a pass ends, every log is extended by its turn, and the record is the old one,
      the new one or gone. */
  lemma PassKeepsInv(w: World, p: Pass, w': World)
    requires Inv(w) && Runs(w)
    requires w'.subs == w.subs && w'.logs == Reconciled(w, p).logs && w'.inherited == w.inherited
    requires w'.alert.Some? ==> w'.alert.value.deliveries in {w.alert.value.deliveries, Next(w, p)}
    ensures Inv(w')
  {
    hide Handle, Begun, ExclusionsOk, Turn;
    NextExclusionsOk(w, p);
    forall n | n in w'.subs
      ensures Begun(Whole(w', n), RecordOf(w', n))
    {
      var r := Turn(w.subs[n], w.alert.value, p);
      TurnKeepsBegun(w, p, n);
      BegunStays(Whole(w, n), r.sent, RecordOf(w, n), r.record);
      WholeGrows(w, p, n);
      assert Whole(w', n) == Whole(w, n) + r.sent;
    }
  }

  lemma PassEndings(w: World, p: Pass, landed: bool)
    requires Runs(w)
    ensures forall w' :: w' in {Reconciled(w, p), Unpatched(w, p, landed)} ==>
      && w'.subs == w.subs && w'.logs == Reconciled(w, p).logs && w'.inherited == w.inherited
      && (w'.alert.Some? ==> w'.alert.value.deliveries in {w.alert.value.deliveries, Next(w, p)})
  {
    hide Turn, NextDeliveries;
  }

  lemma StepKeepsInv(w: World, t: Turnout)
    requires MayHappen(w, t) && Inv(w)
    ensures Inv(Happened(w, t))
  {
    match t
    case PatchFails(p, landed) =>
      hide Begun, Reconciled, Unpatched;
      PassEndings(w, p, landed);
      PassKeepsInv(w, p, Unpatched(w, p, landed));
    case Sound(e) =>
      if e.Reconcile? && Runs(w) {
        hide Begun, Reconciled, Unpatched;
        PassEndings(w, e.pass, false);
        PassKeepsInv(w, e.pass, Reconciled(w, e.pass));
      } else {
        OtherEventKeepsInv(w, e);
      }
  }

  lemma OtherEventKeepsInv(w: World, e: Event)
    requires Inv(w) && Enabled(w, e) && !(e.Reconcile? && Runs(w))
    ensures Inv(Apply(w, e))
  {
    hide Reconciled, ExclusionsOk, Begun;
    match e
    case Receive(_) => NothingIsExcluded(); ReceiveKeepsBegun(w, e);
    case CreateSubscription(s) => NewLogBegins(w, s);
    case _ =>
  }

  lemma ReceiveKeepsBegun(w: World, e: Event)
    requires Inv(w) && e.Receive?
    ensures forall n :: n in w.subs ==> Begun(Whole(w, n), RecordOf(Apply(w, e), n))
  {
  }

  lemma NewLogBegins(w: World, s: Subscription)
    requires Inv(w) && s.name !in w.subs
    ensures var w' := Apply(w, CreateSubscription(s)); Begun(Whole(w', s.name), RecordOf(w', s.name))
  {
  }

  ghost predicate IsRun(run: seq<World>, turns: seq<Turnout>) {
    && |run| == |turns| + 1 && Init(run[0])
    && forall k :: 0 <= k < |turns| ==> MayHappen(run[k], turns[k]) && run[k + 1] == Happened(run[k], turns[k])
  }

  lemma {:induction false} RunKeepsInv(run: seq<World>, turns: seq<Turnout>, k: nat)
    requires IsRun(run, turns) && k < |run|
    ensures Inv(run[k])
  {
    hide Inv, MayHappen, Happened;
    if k == 0 {
      InitIsInv(run[0]);
    } else {
      RunKeepsInv(run, turns, k - 1);
      StepKeepsInv(run[k - 1], turns[k - 1]);
    }
  }

  lemma InitIsInv(w: World)
    requires Init(w)
    ensures Inv(w)
  {
  }

  /** Over every run, patches failing as they may: no present subscription acknowledges a
      Resolved before any Firing, but for one made over an open record; and an open record
      is one whose Firing was acknowledged, to it or to the subscription it took over from. */
  lemma FiringComesFirst(run: seq<World>, turns: seq<Turnout>, k: nat, n: string)
    requires IsRun(run, turns) && k < |run| && n in run[k].subs
    ensures n in run[k].logs
    ensures n !in run[k].inherited ==> BeginsFiring(run[k].logs[n])
    ensures IsOpen(RecordOf(run[k], n)) ==> Whole(run[k], n) != [] && Whole(run[k], n)[0] == Firing
  {
    hide IsRun, Inv, RecordOf;
    RunKeepsInv(run, turns, k);
    InvMeansBegun(run[k], n);
    assert n !in run[k].inherited ==> Whole(run[k], n) == run[k].logs[n];
  }

  lemma InvMeansBegun(w: World, n: string)
    requires Inv(w) && n in w.subs
    ensures n in w.logs && Begun(Whole(w, n), RecordOf(w, n))
  {
    hide Begun, RecordOf;
  }

  lemma RunExtends(run: seq<World>, turns: seq<Turnout>, t: Turnout)
    requires IsRun(run, turns) && MayHappen(run[|run| - 1], t)
    ensures IsRun(run + [Happened(run[|run| - 1], t)], turns + [t])
  {
    hide MayHappen, Happened, Init;
    var run', turns' := run + [Happened(run[|run| - 1], t)], turns + [t];
    forall k | 0 <= k < |turns'|
      ensures MayHappen(run'[k], turns'[k]) && run'[k + 1] == Happened(run'[k], turns'[k])
    {
      if k < |turns| {
        assert run'[k] == run[k] && run'[k + 1] == run[k + 1] && turns'[k] == turns[k];
      } else {
        assert run'[k] == run[|run| - 1];
      }
    }
  }

  /** The tenant subscribes and the alert fires; the endpoint has acknowledged the log. */
  function Untold(log: seq<AlertState>): World {
    World(Some(Alert(FIRING, map[], 1)), map["s" := TENANT], map["s" := log], {}, 1)
  }

  const FIRST_PASS := GoodPass(SECOND, 14 * DAY, [])

  /** A pass sends Firing, and if its patch is lost everything else is as before. */
  lemma FirstPassTells(log: seq<AlertState>)
    ensures Patches(Untold(log), FIRST_PASS)
    ensures Unpatched(Untold(log), FIRST_PASS, false) == Untold(log + [Firing])
    ensures Reconciled(Untold(log), FIRST_PASS).logs == map["s" := log + [Firing]]
  {
    hide Handle;
    var w := Untold(log);
    GoodTurn(None, FIRING, FIRST_PASS);
    assert Turn(TENANT, w.alert.value, FIRST_PASS) == Handled(Some(Told(Firing, SECOND)), 0, [Firing]);
    assert Next(w, FIRST_PASS) == map["s" := Told(Firing, SECOND)];
  }

  /** More does not hold: a send whose record was lost is made again. */
  lemma LostPatchRepeatsTheSend() returns (run: seq<World>, turns: seq<Turnout>)
    ensures IsRun(run, turns)
    ensures var w := run[|run| - 1]; "s" in w.subs && "s" in w.logs && w.logs["s"] == [Firing, Firing]
  {
    hide IsRun, Patches, Unpatched, Reconciled;
    var w0 := World(None, map[], map[], {}, 0);
    run, turns := [w0], [];
    assert IsRun(run, turns) by { NothingIsARun(w0); }
    RunExtends(run, turns, Sound(CreateSubscription(TENANT)));
    var w1 := Apply(w0, CreateSubscription(TENANT));
    run, turns := run + [w1], turns + [Sound(CreateSubscription(TENANT))];
    RunExtends(run, turns, Sound(Receive(FIRING)));
    assert Apply(w1, Receive(FIRING)) == Untold([]);
    run, turns := run + [Untold([])], turns + [Sound(Receive(FIRING))];
    FirstPassTells([]);
    assert [] + [Firing] == [Firing] && [Firing] + [Firing] == [Firing, Firing];
    RunExtends(run, turns, PatchFails(FIRST_PASS, false));
    run, turns := run + [Untold([Firing])], turns + [PatchFails(FIRST_PASS, false)];
    FirstPassTells([Firing]);
    PassEndings(Untold([Firing]), FIRST_PASS, false);
    RunExtends(run, turns, Sound(Reconcile(FIRST_PASS)));
    run := run + [Reconciled(Untold([Firing]), FIRST_PASS)];
    turns := turns + [Sound(Reconcile(FIRST_PASS))];
  }

  lemma NothingIsARun(w: World)
    requires Init(w)
    ensures IsRun([w], [])
  {
  }
}
