/** The bounded beacon store of `internal/provision/beaconstore.go`: a map and an
    insertion order changed in place, against a plain queue of what was received. */
module Beacons {
  import opened Text

  const DEFAULT_CAPACITY := 64

  /** `ValidCheckpoint`. */
  predicate ValidCheckpoint(s: string) {
    s == "early" || s == "late" || s == "failed"
  }

  /** `checkpointRank`. */
  function Rank(s: string): nat {
    if s == "late" then 1 else if s == "failed" then 2 else 0
  }

  /** `beaconToken`: 32 lower-case hexadecimal digits. */
  predicate ValidToken(s: string) {
    |s| == 32 && forall c :: c in s ==> '0' <= c <= '9' || 'a' <= c <= 'f'
  }

  /** The time 0 is Go's zero time. */
  datatype BeaconState = BeaconState(lastCheckpoint: string, lastSeen: int, failedAt: int, count: nat)

  datatype Beacon = Beacon(checkpoint: string, at: int)

  datatype Event = Record(token: string, beacon: Beacon) | Forget(token: string)

  predicate IsAccepted(e: Event) {
    e.Record? && ValidToken(e.token) && ValidCheckpoint(e.beacon.checkpoint)
  }

  // ----- one installation -----

  /** What `Record` makes of an entry. */
  function Updated(prior: Option<BeaconState>, b: Beacon): BeaconState {
    var failedAt := if prior.Some? then prior.value.failedAt else 0;
    BeaconState(
      if prior.Some? && Rank(prior.value.lastCheckpoint) > Rank(b.checkpoint)
        then prior.value.lastCheckpoint else b.checkpoint,
      b.at,
      if b.checkpoint == "failed" && failedAt == 0 then b.at else failedAt,
      (if prior.Some? then prior.value.count else 0) + 1)
  }

  /** The entry after these beacons and no others. */
  function Summary(beacons: seq<Beacon>): Option<BeaconState> {
    if beacons == [] then None
    else Some(Updated(Summary(beacons[..|beacons| - 1]), beacons[|beacons| - 1]))
  }

  /** The time of the first `failed` beacon, 0 if there was none. (A beacon at the
      zero time does not date a failure.) */
  function FirstFailure(beacons: seq<Beacon>): int {
    if beacons == [] then 0
    else if beacons[0].checkpoint == "failed" && beacons[0].at != 0 then beacons[0].at
    else FirstFailure(beacons[1..])
  }

  lemma {:induction false} FirstFailureAppend(bs: seq<Beacon>, b: Beacon)
    ensures FirstFailure(bs + [b]) ==
            if FirstFailure(bs) == 0 && b.checkpoint == "failed" then b.at else FirstFailure(bs)
  {
    if bs != [] {
      FirstFailureAppend(bs[1..], b);
      assert (bs + [b])[1..] == bs[1..] + [b];
    }
  }

  lemma NothingFailed()
    ensures FirstFailure([]) == 0
  {
  }

  /** An entry keeps the furthest checkpoint reported, the last time heard from, the
      first failure and the number of beacons, whatever order they came in. */
  lemma {:induction false} SummaryMeans(bs: seq<Beacon>)
    requires bs != []
    requires forall b :: b in bs ==> ValidCheckpoint(b.checkpoint)
    ensures Summary(bs).Some?
    ensures var s := Summary(bs).value;
            && (exists b :: b in bs && b.checkpoint == s.lastCheckpoint)
            && (forall b :: b in bs ==> Rank(b.checkpoint) <= Rank(s.lastCheckpoint))
            && s.lastSeen == bs[|bs| - 1].at && s.count == |bs| && s.failedAt == FirstFailure(bs)
  {
    hide Rank, FirstFailure, ValidCheckpoint;
    var k := |bs| - 1;
    assert bs == bs[..k] + [bs[k]];
    FirstFailureAppend(bs[..k], bs[k]);
    NothingFailed();
    if k == 0 {
      assert bs == [bs[0]] && bs[k] in bs;
    } else {
      SummaryMeans(bs[..k]);
      var s := Summary(bs[..k]).value;
      var b :| b in bs[..k] && b.checkpoint == s.lastCheckpoint;
      assert b in bs && bs[k] in bs;
    }
  }

  /** In words: `failed` if any beacon said so, else `late` if any did, else `early`. So a
      heartbeat that goes on saying `early` hides neither. */
  lemma FurthestCheckpointIsKept(bs: seq<Beacon>)
    requires bs != []
    requires forall b :: b in bs ==> b.checkpoint in {"early", "late", "failed"}
    ensures Summary(bs).Some?
    ensures Summary(bs).value.lastCheckpoint ==
            if exists b :: b in bs && b.checkpoint == "failed" then "failed"
            else if exists b :: b in bs && b.checkpoint == "late" then "late"
            else "early"
  {
    hide Summary;
    SummaryMeans(bs);
    var c := Summary(bs).value.lastCheckpoint;
    assert c in {"early", "late", "failed"};
    if b :| b in bs && b.checkpoint == "failed" {
      assert Rank("failed") <= Rank(c);
    } else if b :| b in bs && b.checkpoint == "late" {
      assert Rank("late") <= Rank(c);
    }
  }

  /** The failure is dated by the first `failed` beacon that has a time at all. */
  lemma {:induction false} FirstFailureIsFirst(bs: seq<Beacon>)
    ensures FirstFailure(bs) == 0 <==> forall i :: 0 <= i < |bs| ==> !DatesFailure(bs[i])
    ensures FirstFailure(bs) != 0 ==>
              exists i :: 0 <= i < |bs| && DatesFailure(bs[i]) && bs[i].at == FirstFailure(bs) &&
                          forall j :: 0 <= j < i ==> !DatesFailure(bs[j])
  {
    if bs != [] && !DatesFailure(bs[0]) {
      var rest := bs[1..];
      FirstFailureIsFirst(rest);
      assert forall i :: 0 <= i < |rest| ==> rest[i] == bs[i + 1];
      if FirstFailure(bs) != 0 {
        var i :| 0 <= i < |rest| && DatesFailure(rest[i]) && rest[i].at == FirstFailure(bs) &&
                 forall j :: 0 <= j < i ==> !DatesFailure(rest[j]);
        assert DatesFailure(bs[i + 1]) && bs[i + 1].at == FirstFailure(bs);
        assert forall j :: 0 < j <= i ==> bs[j] == rest[j - 1];
      }
    }
  }

  predicate DatesFailure(b: Beacon) {
    b.checkpoint == "failed" && b.at != 0
  }

  // ----- the queue -----

  /** An installation in the store: since which event, and its beacons from then on. */
  datatype Held = Held(token: string, since: nat, beacons: seq<Beacon>)

  predicate NoTwice(q: seq<Held>) {
    forall i, j :: 0 <= i < j < |q| ==> q[i].token != q[j].token
  }

  /** The position of a token, |q| if it is not held. */
  function Find(q: seq<Held>, token: string): (i: nat)
    ensures i <= |q|
    ensures i < |q| ==> q[i].token == token
    ensures forall j :: 0 <= j < i ==> q[j].token != token
  {
    if q == [] || q[0].token == token then 0 else 1 + Find(q[1..], token)
  }

  /** The n-th event: a known token adds to its beacons; a new one goes to the end,
      the oldest insertion making room for it if need be; forgetting removes. */
  function Step(q: seq<Held>, e: Event, n: nat, capacity: nat): seq<Held> {
    var i := Find(q, e.token);
    match e
    case Record(token, b) =>
      if !IsAccepted(e) then q
      else if i < |q| then q[i := q[i].(beacons := q[i].beacons + [b])]
      else (if |q| >= capacity && |q| > 0 then q[1..] else q) + [Held(token, n, [b])]
    case Forget(_) => if i < |q| then q[..i] + q[i + 1..] else q
  }

  function Queue(events: seq<Event>, capacity: nat): seq<Held> {
    if events == [] then []
    else var n := |events| - 1; Step(Queue(events[..n], capacity), events[n], n, capacity)
  }

  /** The accepted beacons for a token among some events. */
  function BeaconsFor(events: seq<Event>, token: string): seq<Beacon> {
    if events == [] then []
    else
      var n := |events| - 1;
      BeaconsFor(events[..n], token) +
      if IsAccepted(events[n]) && events[n].token == token then [events[n].beacon] else []
  }

  /** h entered with the accepted beacon of event h.since, was not forgotten after it,
      and holds every accepted beacon for its token from there on. */
  ghost predicate IsSince(h: Held, events: seq<Event>) {
    && h.since < |events| && IsAccepted(events[h.since]) && events[h.since].token == h.token
    && Forget(h.token) !in events[h.since..]
    && h.beacons == BeaconsFor(events[h.since..], h.token) && h.beacons != []
  }

  /** Event h.since is the token's insertion: it was not held before, and has been held
      ever since. */
  ghost predicate IsInsertion(h: Held, events: seq<Event>, capacity: nat) {
    && h.since < |events|
    && !Holds(Queue(events[..h.since], capacity), h.token)
    && forall k :: h.since < k <= |events| ==> Holds(Queue(events[..k], capacity), h.token)
  }

  ghost predicate QueueOk(q: seq<Held>, events: seq<Event>, capacity: nat) {
    && NoTwice(q) && |q| <= capacity
    && (forall i, j :: 0 <= i < j < |q| ==> q[i].since < q[j].since)
    && (forall i :: 0 <= i < |q| ==> IsSince(q[i], events))
  }

  /** The token after an event that does not forget it. */
  function Extended(h: Held, e: Event): Held {
    if IsAccepted(e) && e.token == h.token then h.(beacons := h.beacons + [e.beacon]) else h
  }

  lemma SinceExtends(h: Held, events: seq<Event>, e: Event)
    requires IsSince(h, events) && e != Forget(h.token)
    ensures IsSince(Extended(h, e), events + [e])
  {
    var es := events + [e];
    assert es[h.since..] == events[h.since..] + [e];
    assert es[h.since..][..|events| - h.since] == events[h.since..];
    assert h.beacons + [] == h.beacons;
  }

  lemma NewIsSince(events: seq<Event>, e: Event)
    requires IsAccepted(e)
    ensures IsSince(Held(e.token, |events|, [e.beacon]), events + [e])
  {
    var es := events + [e];
    assert es[|events|..] == [e];
    assert BeaconsFor([e], e.token) == BeaconsFor([], e.token) + [e.beacon] by { assert [e][..0] == []; }
  }

  /** A beacon that is rejected, or for a token held, moves nothing. */
  lemma KnownStays(q: seq<Held>, e: Event, n: nat, capacity: nat)
    requires e.Record? && NoTwice(q) && (IsAccepted(e) ==> Find(q, e.token) < |q|)
    ensures var q' := Step(q, e, n, capacity);
            |q'| == |q| && forall i :: 0 <= i < |q| ==> q'[i] == Extended(q[i], e)
  {
    hide Find, IsAccepted;
  }

  /** A new token goes to the end, the first making room if need be. */
  lemma NewGoesLast(q: seq<Held>, e: Event, n: nat, capacity: nat)
    requires e.Record? && IsAccepted(e) && Find(q, e.token) == |q|
    ensures var q', out := Step(q, e, n, capacity), if |q| >= capacity && |q| > 0 then 1 else 0;
            && |q'| == |q| - out + 1 && q'[|q'| - 1] == Held(e.token, n, [e.beacon])
            && forall i :: 0 <= i < |q'| - 1 ==> q'[i] == q[i + out] && q'[i] == Extended(q[i + out], e)
  {
    hide Find, IsAccepted;
  }

  lemma RecordKeepsQueue(q: seq<Held>, events: seq<Event>, e: Event, capacity: nat)
    requires QueueOk(q, events, capacity) && capacity > 0 && e.Record?
    ensures QueueOk(Step(q, e, |events|, capacity), events + [e], capacity)
  {
    hide IsSince, BeaconsFor, IsAccepted, Step, Find, Extended;
    var q' := Step(q, e, |events|, capacity);
    forall i | 0 <= i < |q|
      ensures IsSince(Extended(q[i], e), events + [e])
      ensures Extended(q[i], e).token == q[i].token && Extended(q[i], e).since == q[i].since < |events|
    {
      SinceExtends(q[i], events, e);
      ExtendedIsItself(q[i], e);
      SinceIsPast(q, events, capacity);
    }
    if IsAccepted(e) && Find(q, e.token) == |q| {
      NewGoesLast(q, e, |events|, capacity);
      NewIsSince(events, e);
    } else {
      KnownStays(q, e, |events|, capacity);
    }
  }

  lemma ExtendedIsItself(h: Held, e: Event)
    ensures Extended(h, e).token == h.token && Extended(h, e).since == h.since
  {
  }

  lemma SinceIsPast(q: seq<Held>, events: seq<Event>, capacity: nat)
    requires QueueOk(q, events, capacity)
    ensures forall i :: 0 <= i < |q| ==> q[i].since < |events|
  {
  }

  lemma ForgetKeepsQueue(q: seq<Held>, events: seq<Event>, e: Event, capacity: nat)
    requires QueueOk(q, events, capacity) && e.Forget?
    ensures QueueOk(Step(q, e, |events|, capacity), events + [e], capacity)
  {
    hide IsSince, BeaconsFor, Step, Find;
    var q', f := Step(q, e, |events|, capacity), Find(q, e.token);
    ForgetShifts(q, e, |events|, capacity);
    forall i | 0 <= i < |q'|
      ensures IsSince(q'[i], events + [e])
    {
      var j := if i < f then i else i + 1;
      SinceExtends(q[j], events, e);
    }
  }

  /** Forgetting closes the gap and moves nothing else. */
  lemma ForgetShifts(q: seq<Held>, e: Event, n: nat, capacity: nat)
    requires e.Forget?
    ensures var q', f := Step(q, e, n, capacity), Find(q, e.token);
            && |q'| == (if f < |q| then |q| - 1 else |q|)
            && (forall i :: 0 <= i < |q'| ==> q'[i] == q[if i < f then i else i + 1])
  {
  }

  lemma {:induction false} QueueIsOk(events: seq<Event>, capacity: nat)
    requires capacity > 0
    ensures QueueOk(Queue(events, capacity), events, capacity)
  {
    if events != [] {
      var n := |events| - 1;
      QueueIsOk(events[..n], capacity);
      assert events == events[..n] + [events[n]];
      if events[n].Record? {
        RecordKeepsQueue(Queue(events[..n], capacity), events[..n], events[n], capacity);
      } else {
        ForgetKeepsQueue(Queue(events[..n], capacity), events[..n], events[n], capacity);
      }
    }
  }

  predicate Holds(q: seq<Held>, token: string) {
    exists i :: 0 <= i < |q| && q[i].token == token
  }

  /** Whatever is held after an event was held before it, since the same event, or was
      not held and came in with it. */
  lemma HeldOrNew(q: seq<Held>, e: Event, n: nat, capacity: nat, i: nat)
    requires i < |Step(q, e, n, capacity)|
    ensures var h := Step(q, e, n, capacity)[i];
            || (exists j :: 0 <= j < |q| && q[j].token == h.token && q[j].since == h.since)
            || (h.since == n && !Holds(q, h.token))
  {
    hide Find;
    var h, f := Step(q, e, n, capacity)[i], Find(q, e.token);
    if e.Forget? {
      hide Step;
      ForgetShifts(q, e, n, capacity);
    } else if IsAccepted(e) && f == |q| {
      var dropped := if |q| >= capacity && |q| > 0 then 1 else 0;
      assert i + dropped < |q| ==> h == q[i + dropped];
    } else {
      assert q[i].token == h.token && q[i].since == h.since;
    }
  }

  lemma InsertionExtends(h: Held, g: Held, events: seq<Event>, e: Event, capacity: nat)
    requires IsInsertion(h, events, capacity) && g.token == h.token && g.since == h.since
    requires Holds(Queue(events + [e], capacity), h.token)
    ensures IsInsertion(g, events + [e], capacity)
  {
    hide Queue, Holds;
    var es := events + [e];
    assert es[..h.since] == events[..h.since];
    forall k | h.since < k <= |es|
      ensures Holds(Queue(es[..k], capacity), h.token)
    {
      if k <= |events| {
        assert es[..k] == events[..k];
      } else {
        assert es[..k] == es;
      }
    }
  }

  lemma {:induction false} InsertionsHold(events: seq<Event>, capacity: nat)
    ensures forall i :: 0 <= i < |Queue(events, capacity)| ==> IsInsertion(Queue(events, capacity)[i], events, capacity)
  {
    hide IsInsertion, Step;
    if events != [] {
      var n := |events| - 1;
      var before, q := Queue(events[..n], capacity), Queue(events, capacity);
      InsertionsHold(events[..n], capacity);
      assert events == events[..n] + [events[n]];
      forall i | 0 <= i < |q|
        ensures IsInsertion(q[i], events, capacity)
      {
        HeldOrNew(before, events[n], n, capacity, i);
        assert Holds(q, q[i].token);
        if j :| 0 <= j < |before| && before[j].token == q[i].token && before[j].since == q[i].since {
          InsertionExtends(before[j], q[i], events[..n], events[n], capacity);
        } else {
          NewIsInsertion(q[i], events, capacity);
        }
      }
    }
  }

  lemma NewIsInsertion(h: Held, events: seq<Event>, capacity: nat)
    requires events != [] && h.since == |events| - 1
    requires !Holds(Queue(events[..h.since], capacity), h.token) && Holds(Queue(events, capacity), h.token)
    ensures IsInsertion(h, events, capacity)
  {
    hide Queue, Holds;
    assert events[..|events|] == events;
  }

  /** For every sequence of beacons and forgettings: tokens are held once each, in the
      order they were inserted and never more than the capacity, and each holds exactly
      the accepted beacons since its insertion, the event from which on it has been held
      without a break. */
  lemma QueueHoldsWhatCameSince(events: seq<Event>, capacity: nat)
    requires capacity > 0
    ensures QueueOk(Queue(events, capacity), events, capacity)
    ensures forall i :: 0 <= i < |Queue(events, capacity)| ==> IsInsertion(Queue(events, capacity)[i], events, capacity)
  {
    QueueIsOk(events, capacity);
    InsertionsHold(events, capacity);
  }

  /** There is only one such event. */
  lemma InsertionIsUnique(h: Held, g: Held, events: seq<Event>, capacity: nat)
    requires IsInsertion(h, events, capacity) && IsInsertion(g, events, capacity) && h.token == g.token
    ensures h.since == g.since
  {
  }

  lemma LeavesExactlyWhen(q: seq<Held>, e: Event, n: nat, capacity: nat, i: nat)
    requires capacity > 0 && NoTwice(q) && |q| <= capacity && i < |q|
    ensures !Holds(Step(q, e, n, capacity), q[i].token) <==>
            e == Forget(q[i].token) || (i == 0 && |q| == capacity && IsAccepted(e) && !Holds(q, e.token))
  {
    var q' := Step(q, e, n, capacity);
    var f := Find(q, e.token);
    assert f < |q| <==> Holds(q, e.token);
    if e.Forget? {
      assert f < |q| && i != f ==> q'[if i < f then i else i - 1] == q[i];
      assert f == |q| ==> q'[i] == q[i];
    } else if IsAccepted(e) && f == |q| && |q| == capacity {
      assert i > 0 ==> q'[i - 1] == q[i];
      assert forall j :: 0 <= j < |q'| - 1 ==> q'[j] == q[j + 1];
    } else {
      assert q'[i].token == q[i].token;
    }
  }

  /** What an accepted beacon is about is held right after it, with that beacon the last. */
  lemma AcceptedIsHeld(events: seq<Event>, e: Event, capacity: nat)
    requires capacity > 0 && e.Record? && |e.token| == 32
    requires forall c :: c in e.token ==> '0' <= c <= '9' || 'a' <= c <= 'f'
    requires e.beacon.checkpoint in {"early", "late", "failed"}
    ensures var q := Queue(events + [e], capacity);
            var i := Find(q, e.token);
            i < |q| && q[i].beacons != [] && q[i].beacons[|q[i].beacons| - 1] == e.beacon
  {
    hide Queue, Find;
    var q := Queue(events, capacity);
    QueueIsOk(events, capacity);
    QueueStep(events, e, capacity);
    var q', f := Queue(events + [e], capacity), Find(q, e.token);
    if f < |q| {
      assert q'[f].token == e.token && q'[f].beacons == q[f].beacons + [e.beacon];
      assert NoTwice(q');
    } else {
      assert q'[|q'| - 1] == Held(e.token, |events|, [e.beacon]);
      QueueIsOk(events + [e], capacity);
    }
  }

  /** A token leaves exactly by being forgotten, or when a token not held comes into a
      full store and no other token's insertion is older. */
  lemma OnlyTheOldestIsEvicted(events: seq<Event>, e: Event, capacity: nat, i: nat)
    requires capacity > 0 && i < |Queue(events, capacity)|
    ensures var q := Queue(events, capacity);
            !Holds(Queue(events + [e], capacity), q[i].token) <==>
            || e == Forget(q[i].token)
            || (|q| == capacity && IsAccepted(e) && !Holds(q, e.token) &&
                forall j :: 0 <= j < |q| ==> q[i].since <= q[j].since)
    ensures forall j :: 0 <= j < |Queue(events, capacity)| ==> IsInsertion(Queue(events, capacity)[j], events, capacity)
  {
    hide Step, IsSince, IsInsertion, Queue;
    var q := Queue(events, capacity);
    QueueHoldsWhatCameSince(events, capacity);
    LeavesExactlyWhen(q, e, |events|, capacity, i);
    QueueStep(events, e, capacity);
    assert i > 0 ==> q[0].since < q[i].since;
  }

  // ----- the store -----

  class BeaconStore {
    const capacity: nat
    var entries: map<string, BeaconState>
    var order: seq<string>
    ghost var events: seq<Event>

    /** The concrete state says what the queue of all events so far says. */
    ghost predicate Valid()
      reads this
    {
      && capacity > 0
      && Represents(entries, order, Queue(events, capacity))
    }

    constructor (capacity: int)
      ensures Valid() && events == [] && entries == map[] && order == []
      ensures this.capacity as int == if capacity <= 0 then 64 else capacity
    {
      this.capacity := if capacity <= 0 then DEFAULT_CAPACITY else capacity;
      entries, order, events := map[], [], [];
    }

    /** `Record`. */
    method Record(token: string, checkpoint: string, now: int) returns (ok: bool)
      requires Valid()
      modifies this
      ensures Valid() && events == old(events) + [Event.Record(token, Beacon(checkpoint, now))]
      ensures ok <==>
                && |token| == 32 && (forall c :: c in token ==> '0' <= c <= '9' || 'a' <= c <= 'f')
                && checkpoint in {"early", "late", "failed"}
      ensures !ok ==> entries == old(entries) && order == old(order)
    {
      ghost var e := Event.Record(token, Beacon(checkpoint, now));
      ghost var q := Queue(events, capacity);
      QueueIsBounded(events, capacity);
      QueueStep(events, e, capacity);
      hide Queue;
      ghost var n := |events|;
      events := events + [e];
      if !ValidToken(token) || !ValidCheckpoint(checkpoint) {
        return false;
      }
      RecordIsRepresented(entries, order, q, e, n, capacity);
      hide Represents, Step, Find;
      var prior := if token in entries then Some(entries[token]) else None;
      if prior.None? {
        if |order| >= capacity {
          var oldest := order[0];
          order := order[1..];
          entries := entries - {oldest};
        }
        order := order + [token];
      }
      entries := entries[token := Updated(prior, Beacon(checkpoint, now))];
      return true;
    }

    /** `Get`. */
    method Get(token: string) returns (st: Option<BeaconState>)
      requires Valid()
      ensures var q := Queue(events, capacity);
              var i := Find(q, token);
              st == if i < |q| then Summary(q[i].beacons) else None
    {
      ghost var i := Find(Queue(events, capacity), token);
      assert i < |Queue(events, capacity)| ==> order[i] == token;
      return if token in entries then Some(entries[token]) else None;
    }

    /** `Forget`. */
    method Forget(token: string)
      requires Valid()
      modifies this
      ensures Valid() && events == old(events) + [Event.Forget(token)]
    {
      hide Represents, Step, Queue, Find, NoTwice;
      ghost var e, n := Event.Forget(token), |events|;
      ghost var q := Queue(events, capacity);
      QueueIsBounded(events, capacity);
      QueueStep(events, e, capacity);
      ForgetIsRepresented(entries, order, q, e, n, capacity);
      events := events + [e];
      ghost var k := Find(q, token);
      if token !in entries {
        assert entries - {token} == entries;
        return;
      }
      entries := entries - {token};
      order := WithoutFirst(order, token, k);
    }
  }

  lemma QueueIsBounded(events: seq<Event>, capacity: nat)
    requires capacity > 0
    ensures NoTwice(Queue(events, capacity)) && |Queue(events, capacity)| <= capacity
  {
    QueueHoldsWhatCameSince(events, capacity);
  }

  lemma QueueStep(events: seq<Event>, e: Event, capacity: nat)
    ensures Queue(events + [e], capacity) == Step(Queue(events, capacity), e, |events|, capacity)
  {
    assert (events + [e])[..|events|] == events;
  }

  /** The removing loop of `Forget`. */
  method WithoutFirst(order: seq<string>, token: string, ghost k: nat) returns (r: seq<string>)
    requires k < |order| && order[k] == token && forall j :: 0 <= j < k ==> order[j] != token
    ensures r == order[..k] + order[k + 1..]
  {
    for i := 0 to |order|
      invariant i <= k
    {
      if order[i] == token {
        return order[..i] + order[i + 1..];
      }
    }
    assert false;
    return order;
  }

  ghost predicate Represents(entries: map<string, BeaconState>, order: seq<string>, q: seq<Held>) {
    && |order| == |q|
    && (forall i :: 0 <= i < |q| ==>
         order[i] == q[i].token && order[i] in entries && Some(entries[order[i]]) == Summary(q[i].beacons))
    && (forall t :: t in entries ==> t in order)
  }

  /** The entries and the order after an accepted beacon. */
  function Stored(entries: map<string, BeaconState>, order: seq<string>, token: string, b: Beacon, capacity: nat)
    : (map<string, BeaconState>, seq<string>)
    requires capacity > 0
  {
    if token in entries then (entries[token := Updated(Some(entries[token]), b)], order)
    else if |order| >= capacity then ((entries - {order[0]})[token := Updated(None, b)], order[1..] + [token])
    else (entries[token := Updated(None, b)], order + [token])
  }

  lemma UpdateIsRepresented(entries: map<string, BeaconState>, order: seq<string>, q: seq<Held>, i: nat, b: Beacon)
    requires NoTwice(q) && Represents(entries, order, q) && i < |q|
    ensures Represents(
              entries[order[i] := Updated(Some(entries[order[i]]), b)], order,
                  q[i := q[i].(beacons := q[i].beacons + [b])])
  {
    var bs := q[i].beacons;
    assert (bs + [b])[..|bs|] == bs;
    assert Summary(bs + [b]) == Some(Updated(Some(entries[order[i]]), b));
    hide Summary, Updated;
  }

  lemma AppendIsRepresented(entries: map<string, BeaconState>, order: seq<string>, q: seq<Held>, token: string, n: nat,
      b: Beacon)
    requires Represents(entries, order, q) && token !in order
    ensures Represents(entries[token := Updated(None, b)], order + [token], q + [Held(token, n, [b])])
  {
    assert [b][..0] == [];
    assert Summary([b]) == Some(Updated(None, b));
    hide Summary, Updated;
  }

  lemma FoundMeansStored(entries: map<string, BeaconState>, order: seq<string>, q: seq<Held>, token: string)
    requires Represents(entries, order, q)
    ensures |order| == |q| && forall j :: 0 <= j < |q| ==> order[j] == q[j].token
    ensures Find(q, token) < |q| ==> order[Find(q, token)] == token && token in entries
    ensures Find(q, token) == |q| ==> token !in order && token !in entries
  {
    hide Summary;
    var i := Find(q, token);
    assert i < |q| ==> order[i] == q[i].token;
  }

  lemma RecordIsRepresented(
    entries: map<string, BeaconState>, order: seq<string>, q: seq<Held>, e: Event, n: nat, capacity: nat)
    requires capacity > 0 && NoTwice(q) && |q| <= capacity && Represents(entries, order, q) && IsAccepted(e)
    ensures var s := Stored(entries, order, e.token, e.beacon, capacity); Represents(s.0, s.1, Step(q, e, n, capacity))
    ensures |order| == |q|
  {
    hide Represents, NoTwice, Find, Updated, ValidToken, ValidCheckpoint;
    var i := Find(q, e.token);
    FoundMeansStored(entries, order, q, e.token);
    if i < |q| {
      UpdateIsRepresented(entries, order, q, i, e.beacon);
    } else if |q| >= capacity {
      RemoveIsRepresented(entries, order, q, 0);
      assert order[..0] + order[0 + 1..] == order[1..] && q[..0] + q[0 + 1..] == q[1..];
      AppendIsRepresented(entries - {order[0]}, order[1..], q[1..], e.token, n, e.beacon);
    } else {
      AppendIsRepresented(entries, order, q, e.token, n, e.beacon);
    }
  }

  lemma ForgetIsRepresented(
    entries: map<string, BeaconState>, order: seq<string>, q: seq<Held>, e: Event, n: nat, capacity: nat)
    requires NoTwice(q) && Represents(entries, order, q) && e.Forget?
    ensures |order| == |q| && (forall j :: 0 <= j < |q| ==> order[j] == q[j].token)
    ensures var i := Find(q, e.token);
            && (i < |q| <==> e.token in entries)
            && Represents(entries - {e.token}, if i < |q| then order[..i] + order[i + 1..] else order,
                 Step(q, e, n, capacity))
  {
    hide Represents, NoTwice, Find;
    var i := Find(q, e.token);
    FoundMeansStored(entries, order, q, e.token);
    if i < |q| {
      RemoveIsRepresented(entries, order, q, i);
    } else {
      assert entries - {e.token} == entries;
    }
  }

  lemma RemoveIsRepresented(entries: map<string, BeaconState>, order: seq<string>, q: seq<Held>, i: nat)
    requires NoTwice(q) && Represents(entries, order, q) && i < |q|
    ensures Represents(entries - {q[i].token}, order[..i] + order[i + 1..], q[..i] + q[i + 1..])
  {
    hide Summary;
    var entries', order', q' := entries - {q[i].token}, order[..i] + order[i + 1..], q[..i] + q[i + 1..];
    forall k | 0 <= k < |q'|
      ensures order'[k] == q'[k].token && order'[k] in entries' && Some(entries'[order'[k]]) == Summary(q'[k].beacons)
    {
      var j := if k < i then k else k + 1;
      assert q'[k] == q[j] && order'[k] == order[j] && q[j].token != q[i].token;
    }
    forall t | t in entries'
      ensures t in order'
    {
      var j :| 0 <= j < |order| && order[j] == t;
      assert order'[if j < i then j else j - 1] == t;
    }
  }
}
