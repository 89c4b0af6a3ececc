/** The installation driver of `internal/provision`: `Install`, the media phase, the
    wait for the installed system and the deferred cleanup, run against collaborators
    that may answer anything, and recorded as the sequence of what was done to them. */
module Install {
  import opened Text

  datatype Phase = Pending | Preparing | MediaAttached | Installing | Installed | Joining | Ready | Failed

  /** The order of the phases, and how many there are before Failed. */
  function PhaseAt(i: nat): Phase {
    match i
    case 0 => Pending
    case 1 => Preparing
    case 2 => MediaAttached
    case 3 => Installing
    case 4 => Installed
    case 5 => Joining
    case 6 => Ready
    case _ => Failed
  }

  const PHASES := 7

  const TIMED: seq<Phase> := [Pending, Preparing, MediaAttached, Installing, Joining, Ready]

  datatype Options = Options(bootMode: string, confirmSerial: string, uid: string, timeouts: map<Phase, int>)

  /** A session to whatever answers at the node's address: the key it presented and
      its marker file, if that can be read. */
  datatype Session = Session(hostKey: string, marker: Option<string>)

  /** What every collaborator answers in one run. The two sequences are the polls
      that fit before their phase's deadline. */
  datatype World = World(
    specOk: bool, serial: Option<string>, build: bool, lastCheck: bool,
    insert: bool, mediaRead: Option<bool>, bootOnce: bool, reset: bool,
    contacts: seq<Option<Session>>, presented: Option<string>, join: bool, ready: seq<bool>,
    eject: bool, clear: bool, remove: bool)

  datatype Event =
    | Reported(phase: Phase)
    | SerialRead(serial: Option<string>)
    | Built(ok: bool)
    | LastChecked(ok: bool)
    | MediaInserted(ok: bool)
    | MediaRead(inserted: Option<bool>)
    | BootOnceSet(ok: bool)
    | Reset(ok: bool)
    | Contacted(session: Option<Session>)  // dialled trusting any key
    | Dialled(expected: string, presented: Option<string>)
    | ClusterCommands(ok: bool)
    | NodeChecked(ready: bool)
    | Ejected(ok: bool)
    | OverrideCleared(ok: bool)
    | ImageRemoved(ok: bool)

  datatype Result = Result(phase: Phase, failedPhase: Option<Phase>, hostKey: string)

  // ----- what may be done when -----

  /** The session the marker proves to be ours. */
  predicate IsOurs(s: Session, uid: string) {
    TrimSpace(uid) != "" && s.marker.Some? && TrimSpace(s.marker.value) == TrimSpace(uid)
  }

  /** `Dial` accepts: anything when no key is expected, only that key otherwise. */
  predicate Accepts(expected: string, presented: Option<string>) {
    presented.Some? && (TrimSpace(expected) == "" || TrimSpace(presented.value) == TrimSpace(expected))
  }

  /** The machine was confirmed: the BMC returned the non-empty serial that was
      retyped by hand. */
  predicate IsConfirmed(done: seq<Event>, o: Options) {
    o.confirmSerial != "" && SerialRead(Some(o.confirmSerial)) in done
  }

  /** The open connection demands the key of a session that proved to be ours. */
  ghost predicate IsProven(done: seq<Event>, o: Options) {
    exists s: Session, presented: Option<string> ::
      && Contacted(Some(s)) in done && IsOurs(s, o.uid)
      && done != [] && done[|done| - 1] == Dialled(TrimSpace(s.hostKey), presented)
      && Accepts(TrimSpace(s.hostKey), presented)
  }

  /** The place of a step in the order of the driver; reports have none. */
  function Stage(e: Event): nat {
    match e
    case Reported(_) => 0
    case SerialRead(_) => 1
    case Built(_) => 2
    case LastChecked(_) => 3
    case MediaInserted(_) => 4
    case MediaRead(_) => 5
    case BootOnceSet(_) => 6
    case Reset(_) => 7
    case Contacted(_) => 8
    case Dialled(_, _) => 9
    case ClusterCommands(_) => 10
    case NodeChecked(_) => 11
    case Ejected(_) => 12
    case OverrideCleared(_) => 13
    case ImageRemoved(_) => 14
  }

  /** Nothing past that stage was done. */
  predicate Upto(done: seq<Event>, stage: nat) {
    forall e :: e in done ==> Stage(e) <= stage
  }

  lemma UptoGrows(done: seq<Event>, stage: nat, more: nat)
    requires Upto(done, stage) && stage <= more
    ensures Upto(done, more)
    ensures stage < 7 ==> Reset(true) !in done
  {
  }

  /** No step comes back: only the two polls are done more than once, and those not once
      a later step was. */
  predicate InTurn(done: seq<Event>, e: Event) {
    match e
    case Reported(_) => true
    case Contacted(_) | NodeChecked(_) => Upto(done, Stage(e))
    case _ => Upto(done, Stage(e) - 1)
  }

  /** The machine may be touched: it was confirmed, its image was built, and the caller's
      last check let it pass. */
  predicate IsCleared(done: seq<Event>, o: Options) {
    IsConfirmed(done, o) && Built(true) in done && LastChecked(true) in done
  }

  lemma ClearedStays(t: seq<Event>, t': seq<Event>, o: Options)
    requires t <= t' && IsCleared(t, o)
    ensures IsCleared(t', o)
  {
  }

  /** What e rests on was done before, and went well. */
  ghost predicate RestsOn(done: seq<Event>, e: Event, o: Options) {
    match e
    case Reported(p) => ReportRestsOn(done, p, o)
    case SerialRead(_) => true
    case Built(_) => IsConfirmed(done, o)
    case LastChecked(_) => Built(true) in done
    case MediaInserted(_) => IsCleared(done, o)
    case MediaRead(_) => MediaInserted(true) in done
    case BootOnceSet(_) => IsCleared(done, o) && MediaRead(Some(true)) in done
    case Reset(_) => IsCleared(done, o) && MediaRead(Some(true)) in done && BootOnceSet(true) in done
    case Contacted(_) | Dialled(_, _) => Reset(true) in done
    case ClusterCommands(_) => IsProven(done, o) && Reset(true) in done
    case NodeChecked(_) => ClusterCommands(true) in done
    case Ejected(_) | OverrideCleared(_) => Built(true) in done
    case ImageRemoved(_) => Ejected(true) in done
  }

  /** A phase is reported only once the one before has done its work. */
  ghost predicate ReportRestsOn(done: seq<Event>, p: Phase, o: Options) {
    match p
    case Preparing => IsConfirmed(done, o)
    case MediaAttached => LastChecked(true) in done
    case Installing => Reset(true) in done
    case Installed | Joining => exists s: Session :: Contacted(Some(s)) in done && IsOurs(s, o.uid)
    case Ready => NodeChecked(true) in done
    case Pending | Failed => true
  }

  /** e may happen after done. */
  ghost predicate Allowed(done: seq<Event>, e: Event, o: Options) {
    InTurn(done, e) && RestsOn(done, e, o)
  }

  /** Every event of the trace was allowed when it happened. */
  ghost predicate Safe(trace: seq<Event>, o: Options) {
    forall i :: 0 <= i < |trace| ==> Allowed(trace[..i], trace[i], o)
  }

  lemma SafeAppend(t: seq<Event>, e: Event, o: Options)
    requires Safe(t, o) && Allowed(t, e, o)
    ensures Safe(t + [e], o)
  {
    hide Allowed;
    forall i | 0 <= i < |t + [e]|
      ensures Allowed((t + [e])[..i], (t + [e])[i], o)
    {
      assert (t + [e])[..i] == t[..i];
    }
    assert t[..|t|] == t;
  }

  /** The phases reported, in order. */
  function Reports(t: seq<Event>): seq<Phase> {
    if t == [] then []
    else
      var k := |t| - 1;
      Reports(t[..k]) + if t[k].Reported? then [t[k].phase] else []
  }

  function FirstPhases(n: nat): seq<Phase> {
    seq(n, i requires i >= 0 => PhaseAt(i))
  }

  /** The first n phases of the order were reported and nothing else. */
  ghost predicate Reached(t: seq<Event>, n: nat) {
    Reports(t) == FirstPhases(n)
  }

  /** The first n phases and then Failed. */
  ghost predicate FailedAfter(t: seq<Event>, n: nat) {
    Reports(t) == FirstPhases(n) + [Failed]
  }

  predicate IsCleanup(e: Event) {
    e.Ejected? || e.OverrideCleared? || e.ImageRemoved?
  }

  predicate NoCleanup(t: seq<Event>) {
    forall e :: e in t ==> !IsCleanup(e)
  }

  // ----- what success takes -----

  /** The first of the contacts to prove itself ours. */
  function FirstOurs(contacts: seq<Option<Session>>, uid: string): Option<Session> {
    if contacts == [] then None
    else if contacts[0].Some? && IsOurs(contacts[0].value, uid) then contacts[0]
    else FirstOurs(contacts[1..], uid)
  }

  /** It is the first: no contact before it carried the marker. */
  lemma {:induction false} FirstOursIsFirst(contacts: seq<Option<Session>>, uid: string)
    ensures var r := FirstOurs(contacts, uid);
            && (r.None? <==> forall i :: 0 <= i < |contacts| ==> !CarriesMarker(contacts[i], uid))
            && (r.Some? ==> exists i :: 0 <= i < |contacts| && contacts[i] == r && CarriesMarker(r, uid) &&
                                        forall j :: 0 <= j < i ==> !CarriesMarker(contacts[j], uid))
  {
    hide TrimSpace;
    if contacts != [] && !CarriesMarker(contacts[0], uid) {
      var rest := contacts[1..];
      FirstOursIsFirst(rest, uid);
      assert forall i :: 0 <= i < |rest| ==> rest[i] == contacts[i + 1];
      var r := FirstOurs(contacts, uid);
      if r.Some? {
        var i :| 0 <= i < |rest| && rest[i] == r && CarriesMarker(r, uid) &&
                 forall j :: 0 <= j < i ==> !CarriesMarker(rest[j], uid);
        assert contacts[i + 1] == r;
        assert forall j :: 0 < j <= i ==> contacts[j] == rest[j - 1];
      }
    }
  }

  /** Someone answered, and the marker file reads as the request's own UID, which is not
      blank. */
  predicate CarriesMarker(contact: Option<Session>, uid: string) {
    && contact.Some? && contact.value.marker.Some?
    && TrimSpace(uid) != "" && TrimSpace(contact.value.marker.value) == TrimSpace(uid)
  }

  predicate MediaBoots(w: World) {
    w.insert && w.mediaRead == Some(true) && w.bootOnce && w.reset
  }

  predicate NodeJoins(w: World, hostKey: string) {
    Accepts(hostKey, w.presented) && w.join && true in w.ready
  }

  /** The phase the driver fails in, told from the answers alone; cleanup is another matter. */
  function FailsIn(w: World, o: Options): Option<Phase> {
    var ours := FirstOurs(w.contacts, o.uid);
    if !(o.bootMode == "UEFI" || o.bootMode == "Legacy")
       || (exists p :: p in {Pending, Preparing, MediaAttached, Installing, Joining, Ready} &&
                       (p in o.timeouts ==> o.timeouts[p] <= 0))
       || !w.specOk || w.serial != Some(o.confirmSerial) || o.confirmSerial == ""
      then Some(Pending)
    else if !w.build || !w.lastCheck then Some(Preparing)
    else if !w.insert || w.mediaRead != Some(true) || !w.bootOnce || !w.reset then Some(MediaAttached)
    else if ours.None? then Some(Installing)
    else if w.presented.None? || !w.join ||
        (TrimSpace(ours.value.hostKey) != "" && TrimSpace(w.presented.value) != TrimSpace(ours.value.hostKey))
      then Some(Joining)
    else if true !in w.ready then Some(Ready)
    else None
  }

  /** Everything after the image goes as it should. */
  predicate Completes(w: World, o: Options) {
    && w.lastCheck && MediaBoots(w)
    && FirstOurs(w.contacts, o.uid).Some? && NodeJoins(w, TrimSpace(FirstOurs(w.contacts, o.uid).value.hostKey))
  }

  /** There is an image: the machine was confirmed, and it was built. */
  predicate ImageBuilt(w: World, o: Options) {
    ValidOptions(o) && w.specOk && w.serial == Some(o.confirmSerial) && o.confirmSerial != "" && w.build
  }

  /** The run comes to the dial of the Joining phase. */
  predicate ReachesJoining(w: World, o: Options) {
    ImageBuilt(w, o) && w.lastCheck && MediaBoots(w) && FirstOurs(w.contacts, o.uid).Some?
  }

  /** The host key of the session that proved to be ours, as it was captured. */
  function ProvenKey(w: World, o: Options): string
    requires ReachesJoining(w, o)
  {
    TrimSpace(FirstOurs(w.contacts, o.uid).value.hostKey)
  }

  /** The run comes to the cluster commands. */
  predicate RunsCommands(w: World, o: Options) {
    ReachesJoining(w, o) && Accepts(ProvenKey(w, o), w.presented)
  }

  predicate HasCommands(t: seq<Event>) {
    exists e :: e in t && e.ClusterCommands?
  }

  /** The session behind one accepted dial. */
  ghost predicate PinnedAt(done: seq<Event>, o: Options) {
    && done != [] && done[|done| - 1].Dialled? && done[|done| - 1].presented.Some?
    && exists s: Session ::
         && Contacted(Some(s)) in done
         && TrimSpace(o.uid) != "" && s.marker.Some? && TrimSpace(s.marker.value) == TrimSpace(o.uid)
         && (TrimSpace(s.hostKey) == "" || TrimSpace(done[|done| - 1].presented.value) == TrimSpace(s.hostKey))
  }

  /** Cluster commands come right after a dial that was answered with the key of a
      session proven ours before, or that session gave no key. */
  ghost predicate Pinned(trace: seq<Event>, o: Options) {
    forall i :: 0 <= i < |trace| && trace[i].ClusterCommands? ==> PinnedAt(trace[..i], o)
  }

  lemma ProvenIsPinned(done: seq<Event>, o: Options)
    requires IsProven(done, o)
    ensures PinnedAt(done, o)
  {
    hide TrimSpace;
    var s: Session, presented: Option<string> :|
      && Contacted(Some(s)) in done && IsOurs(s, o.uid)
      && done != [] && done[|done| - 1] == Dialled(TrimSpace(s.hostKey), presented)
      && Accepts(TrimSpace(s.hostKey), presented);
    TrimIsIdempotent(s.hostKey);
  }

  lemma SafeIsPinned(trace: seq<Event>, o: Options)
    requires Safe(trace, o)
    ensures Pinned(trace, o)
  {
    hide IsProven, PinnedAt;
    forall i | 0 <= i < |trace| && trace[i].ClusterCommands?
      ensures PinnedAt(trace[..i], o)
    {
      assert Allowed(trace[..i], trace[i], o);
      ProvenIsPinned(trace[..i], o);
    }
  }

  // ----- recording -----

  lemma ReportsAppend(t: seq<Event>, e: Event)
    ensures Reports(t + [e]) == Reports(t) + if e.Reported? then [e.phase] else []
  {
    assert (t + [e])[..|t|] == t;
  }

  lemma CommandsAppend(t: seq<Event>, e: Event)
    ensures HasCommands(t + [e]) <==> HasCommands(t) || e.ClusterCommands?
  {
    if x :| x in t && x.ClusterCommands? {
      assert x in t + [e];
    }
    if e.ClusterCommands? {
      assert e in t + [e];
    }
  }

  lemma UptoAppend(t: seq<Event>, e: Event, stage: nat)
    requires Upto(t, stage) && Stage(e) <= stage
    ensures Upto(t + [e], stage)
  {
  }

  lemma NoCleanupAppend(t: seq<Event>, e: Event)
    requires NoCleanup(t) && !IsCleanup(e)
    ensures NoCleanup(t + [e])
  {
  }

  lemma TurnIsUpto(t: seq<Event>, e: Event)
    requires InTurn(t, e) && !e.Reported?
    ensures Upto(t + [e], Stage(e))
  {
  }

  /** Something is done to a collaborator. */
  method Done(t: seq<Event>, e: Event, ghost o: Options) returns (r: seq<Event>)
    requires Safe(t, o) && Allowed(t, e, o) && !e.Reported? && !IsCleanup(e) && NoCleanup(t)
    ensures r == t + [e] && Safe(r, o) && NoCleanup(r) && Upto(r, Stage(e)) && Reports(r) == Reports(t)
    ensures forall n :: Reached(t, n) ==> Reached(r, n)
    ensures HasCommands(r) <==> HasCommands(t) || e.ClusterCommands?
  {
    hide Safe, FirstPhases, RestsOn, InTurn, Reports, HasCommands, NoCleanup, IsCleanup, Upto;
    SafeAppend(t, e, o);
    ReportsAppend(t, e);
    CommandsAppend(t, e);
    TurnIsUpto(t, e);
    NoCleanupAppend(t, e);
    r := t + [e];
  }

  /** The next phase is entered and reported. */
  method Entered(t: seq<Event>, n: nat, ghost o: Options, ghost stage: nat) returns (r: seq<Event>)
    requires Safe(t, o) && NoCleanup(t) && Reached(t, n) && n < PHASES && ReportRestsOn(t, PhaseAt(n), o)
    requires Upto(t, stage)
    ensures r == t + [Reported(PhaseAt(n))] && Safe(r, o) && NoCleanup(r) && Reached(r, n + 1) && Upto(r, stage)
    ensures HasCommands(r) <==> HasCommands(t)
  {
    hide Safe, ReportRestsOn, HasCommands, NoCleanup, Upto, Reports, PhaseAt;
    SafeAppend(t, Reported(PhaseAt(n)), o);
    CommandsAppend(t, Reported(PhaseAt(n)));
    ReportsAppend(t, Reported(PhaseAt(n)));
    UptoAppend(t, Reported(PhaseAt(n)), stage);
    NoCleanupAppend(t, Reported(PhaseAt(n)));
    r := t + [Reported(PhaseAt(n))];
  }

  /** `fail`. */
  method Given(t: seq<Event>, ghost n: nat, p: Phase, hostKey: string, ghost o: Options)
    returns (res: Result, ok: bool, r: seq<Event>)
    requires Safe(t, o) && NoCleanup(t) && Reached(t, n) && 1 <= n <= PHASES && MayFailIn(p, n)
    ensures r == t + [Reported(Failed)] && Safe(r, o) && Standing(r, res, ok, n)
    ensures res == Result(Failed, Some(p), hostKey) && !ok
    ensures HasCommands(r) <==> HasCommands(t)
  {
    hide Safe, HasCommands, NoCleanup, Reports, FirstPhases, MayFailIn;
    CommandsAppend(t, Reported(Failed));
    SafeAppend(t, Reported(Failed), o);
    ReportsAppend(t, Reported(Failed));
    NoCleanupAppend(t, Reported(Failed));
    return Result(Failed, Some(p), hostKey), false, t + [Reported(Failed)];
  }

  /** The phase named as failed is the last one reported; waiting for the node to be
      Ready fails as Ready, which is not yet reported then. */
  predicate MayFailIn(p: Phase, n: nat) {
    (1 <= n <= PHASES && p == PhaseAt(n - 1)) || (n == 6 && p == Ready)
  }

  /** Where a run stands before cleanup. */
  ghost predicate Standing(t: seq<Event>, res: Result, ok: bool, n: nat) {
    && 1 <= n <= PHASES && NoCleanup(t)
    && (if ok then Reached(t, n) && res.phase == PhaseAt(n - 1) && res.failedPhase.None?
        else FailedAfter(t, n) && res.phase == Failed && res.failedPhase.Some? && MayFailIn(res.failedPhase.value, n))
  }

  // ----- the steps of Install -----

  predicate ValidOptions(o: Options) {
    o.bootMode in {"UEFI", "Legacy"} &&
    forall p :: p in TIMED ==> p in o.timeouts && o.timeouts[p] > 0
  }

  /** `checkConfirmedSerial`. */
  predicate SerialConfirmed(serial: string, confirmed: string) {
    confirmed != "" && serial != "" && serial == confirmed
  }

  /** `attachMediaAndBoot`. */
  method AttachMediaAndBoot(w: World, o: Options, t0: seq<Event>, ghost n: nat) returns (ok: bool, t: seq<Event>)
    requires Safe(t0, o) && NoCleanup(t0) && Reached(t0, n) && IsCleared(t0, o) && Upto(t0, 3)
    ensures Safe(t, o) && NoCleanup(t) && Reached(t, n) && t0 <= t && Upto(t, 7)
    ensures ok <==> Reset(true) in t
    ensures ok <==> w.insert && w.mediaRead == Some(true) && w.bootOnce && w.reset
    ensures HasCommands(t) <==> HasCommands(t0)
  {
    hide Safe, IsProven, Reached, HasCommands, NoCleanup, IsCleared, Upto, Reports;
    t := Done(t0, MediaInserted(w.insert), o);
    UptoGrows(t, 4, 7);
    if !w.insert {
      return false, t;
    }
    t := Done(t, MediaRead(w.mediaRead), o);
    UptoGrows(t, 5, 7);
    if w.mediaRead != Some(true) {
      return false, t;
    }
    ClearedStays(t0, t, o);
    ghost var read := t;
    t := Done(t, BootOnceSet(w.bootOnce), o);
    UptoGrows(t, 6, 7);
    if !w.bootOnce {
      return false, t;
    }
    ClearedStays(read, t, o);
    DoneStays(read, t, MediaRead(Some(true)));
    t := Done(t, Reset(w.reset), o);
    return w.reset, t;
  }

  /** hostKey was presented by a session that proved to be ours. */
  ghost predicate KeyIsOurs(t: seq<Event>, hostKey: string, o: Options) {
    exists s: Session :: Contacted(Some(s)) in t && IsOurs(s, o.uid) && hostKey == TrimSpace(s.hostKey)
  }

  lemma OursIsContacted(t: seq<Event>, hostKey: string, o: Options)
    requires KeyIsOurs(t, hostKey, o)
    ensures exists s: Session :: Contacted(Some(s)) in t && IsOurs(s, o.uid)
  {
  }

  lemma KeyStaysOurs(t: seq<Event>, t': seq<Event>, hostKey: string, o: Options)
    requires t <= t' && KeyIsOurs(t, hostKey, o)
    ensures KeyIsOurs(t', hostKey, o)
  {
    var s: Session :| Contacted(Some(s)) in t && IsOurs(s, o.uid) && hostKey == TrimSpace(s.hostKey);
    assert Contacted(Some(s)) in t';
  }

  lemma {:induction false} NobodyIsOurs(contacts: seq<Option<Session>>, uid: string)
    requires TrimSpace(uid) == ""
    ensures FirstOurs(contacts, uid) == None
  {
    if contacts != [] {
      NobodyIsOurs(contacts[1..], uid);
    }
  }

  /** `WaitForOurSystem`: dial until a session carries the marker, and return the
      host key that session presented. */
  method WaitForOurSystem(w: World, o: Options, t0: seq<Event>, ghost n: nat)
    returns (hostKey: Option<string>, t: seq<Event>)
    requires Safe(t0, o) && NoCleanup(t0) && Reached(t0, n) && Reset(true) in t0 && Upto(t0, 7)
    ensures Safe(t, o) && NoCleanup(t) && Reached(t, n) && t0 <= t && Upto(t, 8)
    ensures hostKey.Some? ==> KeyIsOurs(t, hostKey.value, o)
    ensures var s := FirstOurs(w.contacts, o.uid);
            hostKey == if s.Some? then Some(TrimSpace(s.value.hostKey)) else None
    ensures HasCommands(t) <==> HasCommands(t0)
  {
    hide Safe, IsProven, Reached, HasCommands;
    t := t0;
    var uid := TrimSpace(o.uid);
    if uid == "" {
      NobodyIsOurs(w.contacts, o.uid);
      return None, t;
    }
    for i := 0 to |w.contacts|
      invariant Safe(t, o) && NoCleanup(t) && Reached(t, n) && t0 <= t && Upto(t, 8)
      invariant HasCommands(t) <==> HasCommands(t0)
      invariant FirstOurs(w.contacts, o.uid) == FirstOurs(w.contacts[i..], o.uid)
    {
      t := Done(t, Contacted(w.contacts[i]), o);
      if w.contacts[i].Some? {
        var s := w.contacts[i].value;
        if s.marker.Some? && TrimSpace(s.marker.value) == uid {
          assert Contacted(Some(s)) in t && IsOurs(s, o.uid);
          return Some(TrimSpace(s.hostKey)), t;
        }
      }
    }
    return None, t;
  }

  /** The dial of the Joining phase demands the key captured before it. */
  lemma DialProves(t: seq<Event>, hostKey: string, presented: Option<string>, o: Options)
    requires KeyIsOurs(t, hostKey, o) && Accepts(hostKey, presented)
    ensures IsProven(t + [Dialled(hostKey, presented)], o)
  {
    var s: Session :| Contacted(Some(s)) in t && IsOurs(s, o.uid) && hostKey == TrimSpace(s.hostKey);
    var t' := t + [Dialled(hostKey, presented)];
    assert Contacted(Some(s)) in t' && t'[|t'| - 1] == Dialled(TrimSpace(s.hostKey), presented);
  }

  /** The pin is as good as the key captured. Of all runs that come to the Joining phase
      alike, those that go on to cluster commands are the ones answered with the key of the
      session proven ours, exactly if that key is not blank. */
  lemma PinHoldsIffKeyCaptured(w: World, o: Options)
    requires ReachesJoining(w, o)
    ensures (forall k: string :: RunsCommands(w.(presented := Some(k)), o) ==> TrimSpace(k) == ProvenKey(w, o))
       <==> ProvenKey(w, o) != ""
    ensures forall k: string :: RunsCommands(w.(presented := Some(k)), o) <==>
                                ProvenKey(w, o) == "" || TrimSpace(k) == ProvenKey(w, o)
    ensures !RunsCommands(w.(presented := None), o)
  {
    hide FirstOurs, ValidOptions;
    TrimIsIdempotent(FirstOurs(w.contacts, o.uid).value.hostKey);
    assert TrimSpace("x") == "x";
    assert ReachesJoining(w.(presented := Some("x")), o);
    assert ProvenKey(w, o) == "" ==> RunsCommands(w.(presented := Some("x")), o);
  }

  /** A session that gives no host key leaves the Joining connection to whatever answers:
      here the commands run on a machine whose key nobody has seen before. */
  lemma BlankKeyTrustsAnyone()
    ensures exists w: World, o: Options ::
      && RunsCommands(w, o) && w.presented == Some("another")
      && w.contacts == [Some(Session("", Some("uid")))]
  {
    var o := Options("UEFI", "serial", "uid", map p | p in TIMED :: 1);
    var w := World(true, Some("serial"), true, true, true, Some(true), true, true,
                   [Some(Session("", Some("uid")))], Some("another"), true, [true], true, true, true);
    assert TrimSpace("uid") == "uid" && TrimSpace("") == "";
    assert IsOurs(w.contacts[0].value, o.uid);
    assert FirstOurs(w.contacts, o.uid) == w.contacts[0];
    assert ValidOptions(o);
    assert RunsCommands(w, o);
  }

  /** The wait for the node, after the cluster commands. */
  method WaitForNode(w: World, o: Options, hostKey: string, t0: seq<Event>)
    returns (res: Result, ok: bool, t: seq<Event>, ghost n: nat)
    requires Safe(t0, o) && NoCleanup(t0) && Reached(t0, 6) && ClusterCommands(true) in t0 && Upto(t0, 10)
    ensures Safe(t, o) && t0 <= t && Standing(t, res, ok, n) && (ok ==> n == PHASES)
    ensures ok <==> true in w.ready
    ensures res.hostKey == hostKey && (!ok ==> res.failedPhase == Some(Ready))
    ensures HasCommands(t) <==> HasCommands(t0)
  {
    hide Safe, HasCommands, IsProven, Reached, Reports, FirstPhases, IsOurs, Upto;
    UptoGrows(t0, 10, 11);
    t := t0;
    for i := 0 to |w.ready|
      invariant Safe(t, o) && t0 <= t && NoCleanup(t) && Reached(t, 6) && true !in w.ready[..i]
      invariant Upto(t, 11) && (HasCommands(t) <==> HasCommands(t0))
    {
      t := Done(t, NodeChecked(w.ready[i]), o);
      if w.ready[i] {
        t := Entered(t, 6, o, 11);
        return Result(Ready, None, hostKey), true, t, 7;
      }
    }
    res, ok, t := Given(t, 6, Ready, hostKey, o);
    return res, ok, t, 6;
  }

  /** The Joining phase and the wait for the node, with the key of our system. */
  method JoinAndWait(w: World, o: Options, hostKey: string, t0: seq<Event>)
    returns (res: Result, ok: bool, t: seq<Event>, ghost n: nat)
    requires Safe(t0, o) && NoCleanup(t0) && Reached(t0, 5) && Reset(true) in t0 && KeyIsOurs(t0, hostKey, o)
    requires Upto(t0, 8)
    ensures Safe(t, o) && t0 <= t && Standing(t, res, ok, n) && (ok ==> n == PHASES)
    ensures res.hostKey == hostKey
    ensures ok <==> NodeJoins(w, hostKey)
    ensures !ok ==> res.failedPhase == if Accepts(hostKey, w.presented) && w.join then Some(Ready) else Some(Joining)
    ensures HasCommands(t) <==> HasCommands(t0) || Accepts(hostKey, w.presented)
  {
    hide Safe, HasCommands, IsProven, Reached, KeyIsOurs, Reports, FirstPhases, IsOurs, Upto, Standing, NoCleanup;
    n := 6;
    OursIsContacted(t0, hostKey, o);
    t := Entered(t0, 5, o, 8);
    KeyStaysOurs(t0, t, hostKey, o);
    ghost var before := t;
    t := Done(t, Dialled(hostKey, w.presented), o);
    if !Accepts(hostKey, w.presented) {
      res, ok, t := Given(t, 6, Joining, hostKey, o);
      return res, ok, t, n;
    }
    DialProves(before, hostKey, w.presented, o);
    t := Done(t, ClusterCommands(w.join), o);
    if !w.join {
      res, ok, t := Given(t, 6, Joining, hostKey, o);
      return res, ok, t, n;
    }
    res, ok, t, n := WaitForNode(w, o, hostKey, t);
  }

  /** What that comes to once there is an image. */
  lemma AfterImage(w: World, o: Options)
    requires ImageBuilt(w, o)
    ensures var ours := FirstOurs(w.contacts, o.uid);
            var key := if ours.Some? then TrimSpace(ours.value.hostKey) else "";
            var reached := w.lastCheck && MediaBoots(w) && ours.Some?;
            && (ReachesJoining(w, o) <==> reached) && (reached ==> ProvenKey(w, o) == key)
            && (RunsCommands(w, o) <==> reached && Accepts(key, w.presented))
            && (Completes(w, o) <==> reached && NodeJoins(w, key))
            && FailsIn(w, o) ==
               if !w.lastCheck then Some(Preparing)
               else if !MediaBoots(w) then Some(MediaAttached)
               else if ours.None? then Some(Installing)
               else if !(Accepts(key, w.presented) && w.join) then Some(Joining)
               else if !NodeJoins(w, key) then Some(Ready)
               else None
  {
    hide FirstOurs, TrimSpace;
    if FirstOurs(w.contacts, o.uid).Some? {
      TrimIsIdempotent(FirstOurs(w.contacts, o.uid).value.hostKey);
    }
  }

  lemma ConfirmedStays(t: seq<Event>, t': seq<Event>, o: Options)
    requires t <= t' && IsConfirmed(t, o)
    ensures IsConfirmed(t', o)
  {
  }

  lemma DoneStays(t: seq<Event>, t': seq<Event>, e: Event)
    requires t <= t' && e in t
    ensures e in t'
  {
  }

  lemma NotDone(t: seq<Event>, e: Event, x: Event)
    requires e !in t && e != x
    ensures e !in t + [x]
  {
  }

  /** The caller's last word, and then the media. */
  method CheckAndAttach(w: World, o: Options, t0: seq<Event>) returns (ok: bool, t: seq<Event>)
    requires Safe(t0, o) && NoCleanup(t0) && Reached(t0, 2) && IsConfirmed(t0, o) && Built(true) in t0 && Upto(t0, 2)
    ensures Safe(t, o) && NoCleanup(t) && Reached(t, if w.lastCheck then 3 else 2) && t0 <= t && Upto(t, 7)
    ensures ok <==> w.lastCheck && MediaBoots(w)
    ensures ok <==> Reset(true) in t
    ensures HasCommands(t) <==> HasCommands(t0)
  {
    hide Safe, HasCommands, IsProven, Reached, Upto, NoCleanup, IsConfirmed, Reports;
    t := Done(t0, LastChecked(w.lastCheck), o);
    DoneStays(t0, t, Built(true));
    ConfirmedStays(t0, t, o);
    if !w.lastCheck {
      UptoGrows(t, 3, 7);
      return false, t;
    }
    ghost var checked := t;
    assert IsCleared(checked, o);
    t := Entered(t, 2, o, 3);
    ClearedStays(checked, t, o);
    ok, t := AttachMediaAndBoot(w, o, t, 3);
  }

  /** Everything between the built image and the cleanup. */
  method Drive(w: World, o: Options, t0: seq<Event>) returns (res: Result, ok: bool, t: seq<Event>, ghost n: nat)
    requires ImageBuilt(w, o)
    requires Safe(t0, o) && NoCleanup(t0) && Reached(t0, 2) && IsConfirmed(t0, o) && Built(true) in t0 && Upto(t0, 2)
    ensures Safe(t, o) && t0 <= t && Standing(t, res, ok, n) && (ok ==> n == PHASES)
    ensures ok <==> Completes(w, o)
    ensures res.failedPhase == FailsIn(w, o)
    ensures res.hostKey == if ReachesJoining(w, o) then ProvenKey(w, o) else ""
    ensures HasCommands(t) <==> HasCommands(t0) || RunsCommands(w, o)
    ensures Reset(true) in t <==> w.lastCheck && MediaBoots(w)
  {
    AfterImage(w, o);
    hide Safe, HasCommands, IsProven, Reached, Standing, NodeJoins, FirstOurs, FailsIn, Completes, ValidOptions,
        TrimSpace, Upto, NoCleanup, Accepts, ReachesJoining, RunsCommands, ProvenKey, IsConfirmed, ImageBuilt, Reports;
    ok, t := CheckAndAttach(w, o, t0);
    n := if w.lastCheck then 3 else 2;
    if !ok {
      NotDone(t, Reset(true), Reported(Failed));
      res, ok, t := Given(t, n, if w.lastCheck then MediaAttached else Preparing, "", o);
      return;
    }
    res, ok, t, n := Finish(w, o, t);
  }

  /** From the reset on: wait for our system, and have it join. */
  method Finish(w: World, o: Options, t0: seq<Event>) returns (res: Result, ok: bool, t: seq<Event>, ghost n: nat)
    requires Safe(t0, o) && NoCleanup(t0) && Reached(t0, 3) && Reset(true) in t0 && Upto(t0, 7)
    ensures Safe(t, o) && t0 <= t && Standing(t, res, ok, n) && (ok ==> n == PHASES)
    ensures Reset(true) in t
    ensures var ours := FirstOurs(w.contacts, o.uid);
            var key := if ours.Some? then TrimSpace(ours.value.hostKey) else "";
            && (ok <==> ours.Some? && NodeJoins(w, key))
            && res.hostKey == key
            && (HasCommands(t) <==> HasCommands(t0) || (ours.Some? && Accepts(key, w.presented)))
            && (!ok ==> res.failedPhase == if ours.None? then Some(Installing)
                                           else if Accepts(key, w.presented) && w.join then Some(Ready)
                                           else Some(Joining))
  {
    hide Safe, HasCommands, IsProven, Reached, KeyIsOurs, Reports, FirstPhases, Standing, NodeJoins, FirstOurs, Upto,
        TrimSpace, Accepts, IsOurs, NoCleanup;
    t := Entered(t0, 3, o, 7);
    var hostKey;
    hostKey, t := WaitForOurSystem(w, o, t, 4);
    if hostKey.None? {
      res, ok, t := Given(t, 4, Installing, "", o);
      return res, ok, t, 4;
    }
    ghost var before := t;
    OursIsContacted(t, hostKey.value, o);
    t := Entered(t, 4, o, 8);
    KeyStaysOurs(before, t, hostKey.value, o);
    res, ok, t, n := JoinAndWait(w, o, hostKey.value, t);
    DoneStays(t0, t, Reset(true));
  }

  /** What cleanup does, whatever came before it. */
  function CleanupTail(w: World): seq<Event> {
    [Ejected(w.eject), OverrideCleared(w.clear)] + (if w.eject then [ImageRemoved(w.remove)] else [])
  }

  predicate CleanupOk(w: World) {
    w.eject && w.clear && w.remove
  }

  /** The trace of a run that got as far as an image: everything else, then eject and
      clear once each, the image removed exactly if the eject succeeded, and one more
      report if any of that failed. */
  ghost predicate EndsInCleanup(trace: seq<Event>, w: World) {
    exists body: seq<Event> ::
      && NoCleanup(body)
      && trace == body + [Ejected(w.eject), OverrideCleared(w.clear)]
                  + (if w.eject then [ImageRemoved(w.remove)] else [])
                  + (if w.eject && w.clear && w.remove then [] else [Reported(Failed)])
  }

  function Fails(k: nat): seq<Phase> {
    seq(k, _ => Failed)
  }

  /** Phases in order, each once, then nothing but Failed. */
  ghost predicate PhasesInOrder(reports: seq<Phase>) {
    exists n: nat, k: nat ::
      1 <= n <= 7 && k <= 2 &&
      reports == [Pending, Preparing, MediaAttached, Installing, Installed, Joining, Ready][..n] + Fails(k)
  }

  lemma FirstPhasesAre(n: nat)
    requires n <= PHASES
    ensures PHASES == 7
    ensures FirstPhases(n) == [Pending, Preparing, MediaAttached, Installing, Installed, Joining, Ready][..n]
  {
    assert forall i :: 0 <= i < 7 ==>
      PhaseAt(i) == [Pending, Preparing, MediaAttached, Installing, Installed, Joining, Ready][i];
  }

  lemma ThenOnlyFailed(n: nat)
    requires 1 <= n <= PHASES
    ensures PhasesInOrder(FirstPhases(n))
    ensures PhasesInOrder(FirstPhases(n) + [Failed])
    ensures PhasesInOrder(FirstPhases(n) + [Failed] + [Failed])
  {
    hide FirstPhases;
    FirstPhasesAre(n);
    assert FirstPhases(n) == FirstPhases(n) + Fails(0);
    assert FirstPhases(n) + [Failed] == FirstPhases(n) + Fails(1);
    assert FirstPhases(n) + [Failed] + [Failed] == FirstPhases(n) + Fails(2);
  }

  lemma CleanupTailIsSafe(t: seq<Event>, w: World, o: Options)
    requires Safe(t, o) && NoCleanup(t) && Built(true) in t
    ensures Safe(t + CleanupTail(w), o) && Reports(t + CleanupTail(w)) == Reports(t)
    ensures HasCommands(t + CleanupTail(w)) <==> HasCommands(t)
  {
    hide Safe, Reports, HasCommands;
    CommandsAppend(t, Ejected(w.eject));
    CommandsAppend(t + [Ejected(w.eject)], OverrideCleared(w.clear));
    CommandsAppend(t + [Ejected(w.eject)] + [OverrideCleared(w.clear)], ImageRemoved(w.remove));
    var a, b := t + [Ejected(w.eject)], t + [Ejected(w.eject)] + [OverrideCleared(w.clear)];
    SafeAppend(t, Ejected(w.eject), o);
    ReportsAppend(t, Ejected(w.eject));
    SafeAppend(a, OverrideCleared(w.clear), o);
    ReportsAppend(a, OverrideCleared(w.clear));
    if w.eject {
      SafeAppend(b, ImageRemoved(w.remove), o);
      ReportsAppend(b, ImageRemoved(w.remove));
      assert b + [ImageRemoved(w.remove)] == t + CleanupTail(w);
    } else {
      assert b == t + CleanupTail(w);
    }
  }

  /** The deferred cleanup, which may turn a finished install into a failed one. */
  method Cleanup(w: World, o: Options, res0: Result, ok0: bool, t0: seq<Event>, ghost n: nat)
    returns (res: Result, ok: bool, t: seq<Event>)
    requires Safe(t0, o) && Standing(t0, res0, ok0, n) && Built(true) in t0
    ensures Safe(t, o) && t0 <= t && EndsInCleanup(t, w) && PhasesInOrder(Reports(t))
    ensures ok == (ok0 && CleanupOk(w))
    ensures CleanupOk(w) ==> res == res0 && Reports(t) == Reports(t0)
    ensures !CleanupOk(w) ==> res.phase == Failed && Reports(t) == Reports(t0) + [Failed]
    ensures HasCommands(t) <==> HasCommands(t0)
    ensures Reset(true) in t <==> Reset(true) in t0
    ensures res.hostKey == res0.hostKey
    ensures !CleanupOk(w) ==> res.failedPhase == if res0.failedPhase.Some? then res0.failedPhase else Some(res0.phase)
  {
    hide Safe, Reports, FirstPhases, HasCommands;
    ThenOnlyFailed(n);
    CleanupTailIsSafe(t0, w, o);
    hide PhasesInOrder;
    res, ok, t := res0, ok0, t0;
    t := t + [Ejected(w.eject)];
    t := t + [OverrideCleared(w.clear)];
    if w.eject {
      t := t + [ImageRemoved(w.remove)];
    }
    assert t == t0 + CleanupTail(w);
    if !CleanupOk(w) {
      var prior := res.phase;
      res := res.(phase := Failed, failedPhase := if res.failedPhase.None? then Some(prior) else res.failedPhase);
      SafeAppend(t, Reported(Failed), o);
      ReportsAppend(t, Reported(Failed));
      CommandsAppend(t, Reported(Failed));
      t := t + [Reported(Failed)];
      ok := false;
    }
    assert t == t0 + [Ejected(w.eject), OverrideCleared(w.clear)] + (if w.eject then [ImageRemoved(w.remove)] else [])
                + (if w.eject && w.clear && w.remove then [] else [Reported(Failed)]);
  }

  lemma Beginning(o: Options)
    ensures Safe([], o) && NoCleanup([]) && Reached([], 0) && !HasCommands([]) && Upto([], 0)
  {
  }

  /** A failed run reports Failed, so it is not the full order of phases. */
  lemma FailedIsNotFinished(t: seq<Event>, n: nat)
    requires FailedAfter(t, n)
    ensures Reports(t) != FirstPhases(PHASES) && Reports(t) + [Failed] != FirstPhases(PHASES)
  {
    assert Reports(t)[n] == Failed && (Reports(t) + [Failed])[n] == Failed;
    assert n < PHASES ==> FirstPhases(PHASES)[n] != Failed;
  }

  /** `Install`, over everything its collaborators may answer. The machine is touched
      only once its serial was confirmed, it is reset only with media in place and the
      boot override set, and cluster commands run only over a connection pinned to the
      system that proved to be ours (`Safe`). Once an image exists the run ends in
      cleanup; success means all of it and the cleanup too. */
  method Install(w: World, o: Options) returns (res: Result, ok: bool, trace: seq<Event>)
    ensures Safe(trace, o) && Pinned(trace, o)
    ensures HasCommands(trace) <==> RunsCommands(w, o)
    ensures Built(true) in trace ==> EndsInCleanup(trace, w)
    ensures Built(true) !in trace ==> NoCleanup(trace) && !ok
    ensures PhasesInOrder(Reports(trace))
    ensures ok <==> res.phase == Ready && res.failedPhase.None? && Built(true) in trace && CleanupOk(w)
    ensures ok <==> Reports(trace) == [Pending, Preparing, MediaAttached, Installing, Installed, Joining, Ready]
    ensures Built(true) in trace <==> ImageBuilt(w, o)
    ensures ok <==> Built(true) in trace && Completes(w, o) && CleanupOk(w)
    ensures !ok <==> res.phase == Failed
    ensures res.failedPhase == if FailsIn(w, o).Some? || (w.eject && w.clear && w.remove) then FailsIn(w, o)
                               else Some(Ready)
    ensures ok <==> res.failedPhase.None?
    ensures res.hostKey == if ReachesJoining(w, o) then ProvenKey(w, o) else ""
    ensures Reset(true) in trace <==> ImageBuilt(w, o) && w.lastCheck && MediaBoots(w)
  {
    hide Safe, IsProven, Reached, Reports, FirstPhases, PhasesInOrder, EndsInCleanup, Completes, HasCommands, Pinned,
        NoCleanup, FailsIn, ImageBuilt, MediaBoots, Upto, IsConfirmed;
    FirstPhasesAre(PHASES);
    var image, failed;
    ghost var n;
    image, failed, trace, n := Prepare(w, o);
    NothingReachedWithoutImage(w, o);
    if !image {
      res, ok, trace := GiveUp(trace, n, failed, o);
    } else {
      ghost var built := trace;
      res, ok, trace, n := Drive(w, o, trace);
      DoneStays(built, trace, Built(true));
      Outcome(trace, res, ok, n);
      hide Standing;
      ghost var before := trace;
      res, ok, trace := Cleanup(w, o, res, ok, trace, n);
      DoneStays(before, trace, Built(true));
    }
    SafeIsPinned(trace, o);
  }

  lemma NothingReachedWithoutImage(w: World, o: Options)
    ensures !ImageBuilt(w, o) ==> !RunsCommands(w, o) && !ReachesJoining(w, o)
  {
  }

  /** Up to the image: the checks that touch nothing, the serial, and the build. */
  method Prepare(w: World, o: Options) returns (image: bool, failed: Phase, trace: seq<Event>, ghost n: nat)
    ensures Safe(trace, o) && NoCleanup(trace) && !HasCommands(trace) && Upto(trace, 2) && Reached(trace, n)
    ensures image <==> ImageBuilt(w, o)
    ensures image <==> Built(true) in trace
    ensures image ==> n == 2 && IsConfirmed(trace, o)
    ensures !image ==> 1 <= n <= PHASES && MayFailIn(failed, n) && FailsIn(w, o) == Some(failed)
  {
    hide Safe, IsProven, Reached, Reports, FirstPhases, HasCommands, NoCleanup, TrimSpace, FirstOurs;
    Beginning(o);
    trace := Entered([], 0, o, 0);
    n, failed := 1, Pending;
    if !ValidOptions(o) || !w.specOk {
      return false, failed, trace, n;
    }
    trace := Done(trace, SerialRead(w.serial), o);
    if w.serial.None? || !SerialConfirmed(w.serial.value, o.confirmSerial) {
      return false, failed, trace, n;
    }
    trace := Entered(trace, 1, o, 1);
    trace := Done(trace, Built(w.build), o);
    return w.build, Preparing, trace, 2;
  }

  /** `fail` before there is anything to clean up. */
  method GiveUp(t: seq<Event>, ghost n: nat, p: Phase, ghost o: Options)
    returns (res: Result, ok: bool, trace: seq<Event>)
    requires Safe(t, o) && NoCleanup(t) && Reached(t, n) && 1 <= n <= PHASES && MayFailIn(p, n) && Built(true) !in t
    requires Upto(t, 2)
    ensures Reset(true) !in trace
    ensures Safe(trace, o) && NoCleanup(trace) && Built(true) !in trace && PhasesInOrder(Reports(trace))
    ensures !ok && res == Result(Failed, Some(p), "") && t <= trace && Reports(trace) != FirstPhases(PHASES)
    ensures HasCommands(trace) <==> HasCommands(t)
  {
    hide Safe, HasCommands, Reports, FirstPhases, Reached;
    res, ok, trace := Given(t, n, p, "", o);
    CommandsAppend(t, Reported(Failed));
    ThenOnlyFailed(n);
    FailedIsNotFinished(trace, n);
  }

  lemma Outcome(t: seq<Event>, res: Result, ok: bool, n: nat)
    requires Standing(t, res, ok, n) && (ok ==> n == PHASES)
    ensures ok ==> res.phase == Ready && res.failedPhase.None? && Reports(t) == FirstPhases(PHASES)
    ensures ok ==> Reports(t) + [Failed] != FirstPhases(PHASES)
    ensures !ok ==> res.phase == Failed && res.failedPhase.Some?
    ensures !ok ==> Reports(t) != FirstPhases(PHASES) && Reports(t) + [Failed] != FirstPhases(PHASES)
  {
    if ok {
      assert |Reports(t) + [Failed]| != |FirstPhases(PHASES)|;
    } else {
      FailedIsNotFinished(t, n);
    }
  }
}
