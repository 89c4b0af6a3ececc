/** The alert relay of `internal/alerting` for one alert: what a reconcile does to
    one subscription's delivery record, and what it sends. Times and durations are
    nanoseconds, as the relay's clock gives them; a time that is stored in a record
    keeps whole seconds only. */
module Relay {
  import opened Text

  datatype AlertState = NoState | Firing | Resolved

  /** `AlertDelivery`; a record is found under its subscription's name. */
  datatype Delivery = Delivery(
    delivered: AlertState, attempts: nat, lastAttemptAt: Option<int>,
    permanent: bool, failedState: AlertState, generation: int, excluded: bool)

  const NEW_DELIVERY := Delivery(NoState, 0, None, false, NoState, 0, false)

  datatype Filter = Filter(excludeNames: seq<string>, severities: seq<string>, namespaces: seq<string>)

  datatype Subscription = Subscription(name: string, filter: Filter, paused: bool, generation: int, createdAt: int)

  /** What the receiver writes of an alert: its spec, its state. */
  datatype Incident = Incident(
    alertName: string, severity: string, namespace: string,
    state: AlertState, endsAt: Option<int>, createdAt: int)

  datatype SendOutcome = Delivered | Retry | Permanent

  /** What a delivery attempt meets: the token Secret, then the endpoint's answers. */
  datatype Attempt = TokenUnlabelled | TokenUnread | Sends(first: SendOutcome, second: SendOutcome)

  /** `Matches`. */
  predicate Matches(f: Filter, i: Incident) {
    && i.alertName !in f.excludeNames
    && (f.severities == [] || i.severity in f.severities)
    && (f.namespaces == [] || i.namespace in f.namespaces)
  }

  // ----- backoff -----

  function Pow2(n: nat): (r: nat)
    ensures r >= 1
  {
    if n == 0 then 1 else 2 * Pow2(n - 1)
  }

  lemma {:induction false} Pow2Grows(m: nat, n: nat)
    requires m <= n
    ensures Pow2(m) <= Pow2(n)
    decreases n
  {
    if m < n {
      Pow2Grows(m, n - 1);
    }
  }

  const MAX_BACKOFF := 600

  /** Seconds to wait after the n-th failed attempt: 5, 10, 20, ... and 600 at most. */
  function Backoff(n: int): (d: nat)
    ensures n >= 1 ==> 5 <= d <= MAX_BACKOFF
  {
    if n < 1 then 0 else if 5 * Pow2(n - 1) < MAX_BACKOFF then 5 * Pow2(n - 1) else MAX_BACKOFF
  }

  /** The schedule of the retries: 5 seconds, then twice as long each time, 10 minutes at
      most. */
  lemma BackoffSchedule(n: int)
    ensures n < 1 ==> Backoff(n) == 0
    ensures Backoff(1) == 5
    ensures n >= 1 ==> Backoff(n + 1) == if 2 * Backoff(n) < 600 then 2 * Backoff(n) else 600
  {
    assert Pow2(0) == 1;
    if n >= 1 {
      assert Pow2(n) == 2 * Pow2(n - 1);
    }
  }

  newtype int32 = x: int | -0x8000_0000 <= x < 0x8000_0000
  newtype int64 = x: int | -0x8000_0000_0000_0000 <= x < 0x8000_0000_0000_0000

  const SECOND := 1_000_000_000

  /** What is left of a time once it is written and read back. */
  function Stored(t: int): int {
    t - t % SECOND
  }

  /** The doubling loop of `Backoff`, in nanoseconds of 64 bits: it never overflows
      and computes the closed form for every attempt count. */
  method BackoffNanoseconds(attempts: int32) returns (d: int64)
    ensures d as int == Backoff(attempts as int) * SECOND
  {
    if attempts < 1 {
      return 0;
    }
    var second: int64 := 1_000_000_000;
    d := 5 * second;
    var i: int32 := 1;
    while i < attempts && d < 600 * second
      invariant 1 <= i <= attempts
      invariant d as int == 5 * Pow2(i as int - 1) * SECOND && d < 1200 * second
      decreases attempts - i
    {
      d := d * 2;
      i := i + 1;
    }
    Pow2Grows(i as int - 1, attempts as int - 1);
    d := if d < 600 * second then d else 600 * second;
  }

  // ----- one subscription -----

  /** Delivered Firing and not excluded: the tenant has the incident open. */
  predicate IsOpen(d: Option<Delivery>) {
    d.Some? && d.value.delivered == Firing && !d.value.excluded
  }

  /** `unmatchedDelivery`. */
  function UnmatchedDelivery(d: Option<Delivery>, state: AlertState): Option<Delivery> {
    if state != Resolved then None
    else if d.Some? && (d.value.excluded || d.value.delivered == state) then d
    else Some(NEW_DELIVERY.(excluded := true, delivered := state))
  }

  /** A changed subscription or a changed state lifts a permanent failure. */
  function Refreshed(d: Delivery, sub: Subscription, state: AlertState): Delivery {
    var d1 := if d.generation != sub.generation
              then d.(generation := sub.generation, permanent := false, failedState := NoState) else d;
    if d1.permanent && d1.failedState != state then d1.(permanent := false, failedState := NoState) else d1
  }

  /** The record afterwards, the wait before the next attempt (0: none is due) and
      the states the endpoint acknowledged. */
  datatype Delivering = Delivering(d: Delivery, wait: int, sent: seq<AlertState>)

  /** `fail`. */
  function Failed(d: Delivery, out: SendOutcome, state: AlertState, now: int): Delivering
    requires out != Delivered
  {
    var d1 := d.(lastAttemptAt := Some(Stored(now)));
    if out == Permanent then Delivering(d1.(permanent := true, failedState := state), 0, [])
    else Delivering(d1.(attempts := d.attempts + 1), Backoff(d.attempts + 1) * SECOND, [])
  }

  function Acknowledged(d: Delivery, st: AlertState, now: int): Delivery {
    d.(delivered := st, attempts := 0, lastAttemptAt := Some(Stored(now)), excluded := false)
  }

  function BackoffDue(d: Delivery): Option<int> {
    if d.attempts > 0 && d.lastAttemptAt.Some? then Some(d.lastAttemptAt.value + Backoff(d.attempts) * SECOND) else None
  }

  predicate Skips(sub: Subscription, d: Delivery, state: AlertState) {
    sub.paused || d.permanent || d.delivered == state
  }

  /** The states `deliver` sends in order: a tenant that never saw the incident is
      told it fired before it is told it resolved. */
  function Sequence(d: Delivery, state: AlertState): seq<AlertState> {
    if d.delivered == NoState && state == Resolved then [Firing, state] else [state]
  }

  function Answer(attempt: Attempt, k: nat): SendOutcome
    requires attempt.Sends?
  {
    if k == 0 then attempt.first else attempt.second
  }

  /** Sending the rest of a sequence, the k-th state onwards. */
  function SendFrom(d: Delivery, todo: seq<AlertState>, k: nat, attempt: Attempt, state: AlertState,
      now: int): Delivering
    requires attempt.Sends?
    requires k <= |todo|
    decreases |todo| - k
  {
    if k == |todo| then Delivering(d, 0, [])
    else if d.delivered == todo[k] then SendFrom(d, todo, k + 1, attempt, state, now)
    else if Answer(attempt, k) != Delivered then Failed(d, Answer(attempt, k), state, now)
    else
      var rest := SendFrom(Acknowledged(d, todo[k], now), todo, k + 1, attempt, state, now);
      rest.(sent := [todo[k]] + rest.sent)
  }

  /** What `deliver` makes of a record. */
  function Deliver(sub: Subscription, d: Delivery, state: AlertState, now: int, attempt: Attempt): Delivering {
    if Skips(sub, d, state) then Delivering(d, 0, [])
    else if BackoffDue(d).Some? && now < BackoffDue(d).value then Delivering(d, BackoffDue(d).value - now, [])
    else match attempt
      case TokenUnlabelled => Failed(d, Permanent, state, now)
      case TokenUnread => Failed(d, Retry, state, now)
      case Sends(_, _) => SendFrom(d, Sequence(d, state), 0, attempt, state, now)
  }

  /** The loop of `deliver`: the record is edited as the answers come in. */
  method SendLoop(d0: Delivery, todo: seq<AlertState>, attempt: Attempt, state: AlertState, now: int)
    returns (d: Delivery, wait: int, sent: seq<AlertState>)
    requires attempt.Sends?
    ensures Delivering(d, wait, sent) == SendFrom(d0, todo, 0, attempt, state, now)
  {
    hide Failed, Acknowledged;
    d, wait, sent := d0, 0, [];
    for k := 0 to |todo|
      invariant var rest := SendFrom(d, todo, k, attempt, state, now);
                SendFrom(d0, todo, 0, attempt, state, now) == rest.(sent := sent + rest.sent)
    {
      var st := todo[k];
      if d.delivered == st {
        continue;
      }
      if Answer(attempt, k) != Delivered {
        var f := Failed(d, Answer(attempt, k), state, now);
        FailedSendsNothing(d, Answer(attempt, k), state, now);
        return f.d, f.wait, sent;
      }
      ghost var rest := SendFrom(Acknowledged(d, st, now), todo, k + 1, attempt, state, now);
      assert SendFrom(d, todo, k, attempt, state, now) == rest.(sent := [st] + rest.sent);
      assert sent + ([st] + rest.sent) == (sent + [st]) + rest.sent;
      d := Acknowledged(d, st, now);
      sent := sent + [st];
    }
  }

  lemma FailedSendsNothing(d: Delivery, out: SendOutcome, state: AlertState, now: int)
    requires out != Delivered
    ensures Failed(d, out, state, now).sent == []
  {
  }

  /** `deliver`. */
  method DeliverLoop(sub: Subscription, d0: Delivery, state: AlertState, now: int, attempt: Attempt)
    returns (d: Delivery, wait: int, sent: seq<AlertState>)
    ensures Delivering(d, wait, sent) == Deliver(sub, d0, state, now, attempt)
  {
    hide Backoff, Stored, SendFrom;
    d, wait, sent := d0, 0, [];
    if Skips(sub, d, state) {
      return;
    }
    if d.attempts > 0 && d.lastAttemptAt.Some? {
      var due := d.lastAttemptAt.value + Backoff(d.attempts) * SECOND;
      if now < due {
        wait := due - now;
        return;
      }
    }
    if !attempt.Sends? {
      var f := Failed(d, if attempt.TokenUnlabelled? then Permanent else Retry, state, now);
      return f.d, f.wait, sent;
    }
    var sequence := [state];
    if d.delivered == NoState && state == Resolved {
      sequence := [Firing, state];
    }
    d, wait, sent := SendLoop(d, sequence, attempt, state, now);
  }

  datatype Handled = Handled(record: Option<Delivery>, wait: int, sent: seq<AlertState>)

  /** The record is driven, rather than recorded as unmatched. */
  predicate IsDriven(sub: Subscription, prior: Option<Delivery>, i: Incident) {
    Matches(sub.filter, i) || IsOpen(prior)
  }

  /** One turn of the loop in `Reconcile`. */
  function Handle(sub: Subscription, prior: Option<Delivery>, i: Incident, now: int, attempt: Attempt): Handled {
    if !IsDriven(sub, prior, i) then Handled(UnmatchedDelivery(prior, i.state), 0, [])
    else
      var d := Refreshed(if prior.Some? then prior.value else NEW_DELIVERY, sub, i.state);
      if prior.None? && i.state == Resolved && sub.createdAt > i.createdAt then
        Handled(Some(d.(delivered := i.state)), 0, [])
      else
        var r := Deliver(sub, d, i.state, now, attempt);
        Handled(Some(r.d), r.wait, r.sent)
  }

  // ----- what one turn does, told from the record before it -----

  /** The subscription has a stake in the alert: its filter lets it through, or it was told
      that the alert fires and never that it does not. */
  predicate IsAtStake(sub: Subscription, prior: Option<Delivery>, i: Incident) {
    || (&& i.alertName !in sub.filter.excludeNames
        && (|sub.filter.severities| > 0 ==> i.severity in sub.filter.severities)
        && (|sub.filter.namespaces| > 0 ==> i.namespace in sub.filter.namespaces))
    || (prior.Some? && prior.value.delivered == Firing && !prior.value.excluded)
  }

  /** The incident was over before the subscription was made. */
  predicate IsPast(sub: Subscription, prior: Option<Delivery>, i: Incident) {
    prior.None? && i.state == Resolved && sub.createdAt > i.createdAt
  }

  /** Nanoseconds until the next attempt may be made, none if it may be made at any time. */
  function TimeLeft(d: Delivery, now: int): Option<int> {
    if d.attempts > 0 && d.lastAttemptAt.Some?
      then Some(d.lastAttemptAt.value + Backoff(d.attempts) * 1_000_000_000 - now) else None
  }

  /** The record's permanent failure is one of this state and of the subscription as it is. */
  predicate FailedForGood(d: Delivery, sub: Subscription, i: Incident) {
    d.permanent && d.generation == sub.generation && d.failedState == i.state
  }

  /** An attempt is made: nobody paused the subscription, it is owed the state, the endpoint
      has not refused it for good, and the time of the last failure is up. */
  predicate IsDue(sub: Subscription, prior: Option<Delivery>, i: Incident, now: int) {
    && !sub.paused && IsAtStake(sub, prior, i) && !IsPast(sub, prior, i)
    && (prior.Some? ==>
          && prior.value.delivered != i.state && !FailedForGood(prior.value, sub, i)
          && (TimeLeft(prior.value, now).Some? ==> TimeLeft(prior.value, now).value <= 0))
  }

  /** The tenant has heard nothing of an incident that is over: it is told both. */
  predicate IsToldBoth(prior: Option<Delivery>, i: Incident) {
    i.state == Resolved && (prior.Some? ==> prior.value.delivered == NoState)
  }

  /** What an attempt sends, as far as the endpoint takes it. */
  function Taken(prior: Option<Delivery>, i: Incident, attempt: Attempt): seq<AlertState> {
    match attempt
    case TokenUnlabelled | TokenUnread => []
    case Sends(first, second) =>
      if first != Delivered then []
      else if !IsToldBoth(prior, i) then [i.state]
      else if second != Delivered then [Firing] else [Firing, Resolved]
  }

  /** How an attempt fails, if it does. */
  function Failure(prior: Option<Delivery>, i: Incident, attempt: Attempt): Option<SendOutcome> {
    match attempt
    case TokenUnlabelled => Some(Permanent)
    case TokenUnread => Some(Retry)
    case Sends(first, second) =>
      if first != Delivered then Some(first)
      else if IsToldBoth(prior, i) && second != Delivered then Some(second) else None
  }

  lemma SendFromOne(d: Delivery, attempt: Attempt, state: AlertState, now: int)
    requires attempt.Sends? && d.delivered != state
    ensures SendFrom(d, [state], 0, attempt, state, now) ==
            if attempt.first == Delivered then Delivering(Acknowledged(d, state, now), 0, [state])
            else Failed(d, attempt.first, state, now)
  {
    var d' := Acknowledged(d, state, now);
    assert SendFrom(d', [state], 1, attempt, state, now) == Delivering(d', 0, []);
    assert [state] + [] == [state];
  }

  lemma SendFromBoth(d: Delivery, attempt: Attempt, now: int)
    requires attempt.Sends? && d.delivered == NoState
    ensures var d1 := Acknowledged(d, Firing, now);
            SendFrom(d, [Firing, Resolved], 0, attempt, Resolved, now) ==
            if attempt.first != Delivered then Failed(d, attempt.first, Resolved, now)
            else if attempt.second != Delivered then Failed(d1, attempt.second, Resolved, now).(sent := [Firing])
            else Delivering(Acknowledged(d1, Resolved, now), 0, [Firing, Resolved])
  {
    hide Backoff, Stored;
    var todo, d1 := [Firing, Resolved], Acknowledged(d, Firing, now);
    var d2 := Acknowledged(d1, Resolved, now);
    assert SendFrom(d2, todo, 2, attempt, Resolved, now) == Delivering(d2, 0, []);
    var rest := SendFrom(d1, todo, 1, attempt, Resolved, now);
    assert attempt.second == Delivered ==> rest == Delivering(d2, 0, [Resolved] + []);
    assert [Firing] + [Resolved] == [Firing, Resolved] && [Firing] + [] == [Firing] && [Resolved] + [] == [Resolved];
  }

  /** What is sent in a turn, exactly: nothing unless an attempt is due, and then the state
      itself, after Firing if the tenant never heard of the incident, until the endpoint
      does not take one. */
  lemma SendsExactlyWhen(sub: Subscription, prior: Option<Delivery>, i: Incident, now: int, attempt: Attempt)
    requires i.state != NoState
    ensures Handle(sub, prior, i, now, attempt).sent ==
            if IsDue(sub, prior, i, now) then Taken(prior, i, attempt) else []
  {
    hide Backoff, Stored, SendFrom;
    var d := Refreshed(if prior.Some? then prior.value else NEW_DELIVERY, sub, i.state);
    if attempt.Sends? && d.delivered != i.state {
      SendFromOne(d, attempt, i.state, now);
      if d.delivered == NoState { SendFromBoth(d, attempt, now); }
    }
  }

  /** The record after a turn, field by field, and the wait the turn asks for. */
  predicate IsAccount(sub: Subscription, prior: Option<Delivery>, i: Incident, now: int, attempt: Attempt, r: Handled) {
    var was := if prior.Some? then prior.value else Delivery(NoState, 0, None, false, NoState, 0, false);
    var due := IsDue(sub, prior, i, now);
    var failure := if due then Failure(prior, i, attempt) else None;
    var current := FailedForGood(was, sub, i);
    var settled := sub.paused || current || was.delivered == i.state || IsPast(sub, prior, i);
    && r.record.Some?
    && var d := r.record.value;
       && d.generation == sub.generation
       && d.delivered == (if IsPast(sub, prior, i) then Resolved
                          else if r.sent != [] then r.sent[|r.sent| - 1] else was.delivered)
       && d.excluded == (was.excluded && r.sent == [])
       && d.attempts == (if r.sent != [] then 0 else was.attempts) + (if failure == Some(Retry) then 1 else 0)
       && d.lastAttemptAt == (if due then Some(now - now % 1_000_000_000) else was.lastAttemptAt)
       && d.permanent == (failure == Some(Permanent) || current)
       && d.failedState == (if d.permanent then i.state
                            else if was.permanent || was.generation != sub.generation then NoState
                            else was.failedState)
       && (failure == Some(Retry) ==> r.wait == Backoff(d.attempts) * 1_000_000_000)
       && (failure != Some(Retry) && (due || settled) ==> r.wait == 0)
       && (!due && !settled ==> Some(r.wait) == TimeLeft(was, now) && r.wait > 0)
  }

  lemma AttemptIsAccounted(sub: Subscription, prior: Option<Delivery>, i: Incident, now: int, attempt: Attempt)
    requires i.state != NoState && IsDue(sub, prior, i, now)
    ensures IsAccount(sub, prior, i, now, attempt, Handle(sub, prior, i, now, attempt))
  {
    hide Backoff, SendFrom, Matches;
    SendsExactlyWhen(sub, prior, i, now, attempt);
    var d := Refreshed(if prior.Some? then prior.value else NEW_DELIVERY, sub, i.state);
    DueIsDelivered(sub, prior, i, now, attempt);
    DueIsUnsettled(sub, prior, i, now);
    hide Deliver, Handle, IsDue, IsAtStake, TimeLeft, Refreshed, IsDriven;
    if attempt.Sends? {
      SendFromOne(d, attempt, i.state, now);
      if d.delivered == NoState { SendFromBoth(d, attempt, now); }
    }
  }

  lemma DueIsUnsettled(sub: Subscription, prior: Option<Delivery>, i: Incident, now: int)
    requires IsDue(sub, prior, i, now)
    ensures var was := if prior.Some? then prior.value else NEW_DELIVERY;
            var d := Refreshed(was, sub, i.state);
            && !FailedForGood(was, sub, i) && !IsPast(sub, prior, i)
            && (i.state != NoState ==> was.delivered != i.state)
            && d == was.(generation := sub.generation, permanent := false,
                         failedState := if was.permanent || was.generation != sub.generation then NoState
                                        else was.failedState)
  {
    hide IsAtStake, TimeLeft;
  }

  lemma DueIsDelivered(sub: Subscription, prior: Option<Delivery>, i: Incident, now: int, attempt: Attempt)
    requires i.state != NoState && IsDue(sub, prior, i, now)
    ensures var d := Refreshed(if prior.Some? then prior.value else NEW_DELIVERY, sub, i.state);
            var r := if attempt.TokenUnlabelled? then Failed(d, Permanent, i.state, now)
                     else if attempt.TokenUnread? then Failed(d, Retry, i.state, now)
                     else SendFrom(d, Sequence(d, i.state), 0, attempt, i.state, now);
            Handle(sub, prior, i, now, attempt) == Handled(Some(r.d), r.wait, r.sent)
  {
    hide Backoff, Stored, SendFrom, Failed;
  }

  lemma RestIsAccounted(sub: Subscription, prior: Option<Delivery>, i: Incident, now: int, attempt: Attempt)
    requires i.state != NoState && IsAtStake(sub, prior, i) && !IsDue(sub, prior, i, now)
    ensures IsAccount(sub, prior, i, now, attempt, Handle(sub, prior, i, now, attempt))
  {
    hide Backoff, SendFrom, Failed, Stored;
  }

  /** And what is left in the record of a subscription with a stake in the alert. */
  lemma RecordsExactly(sub: Subscription, prior: Option<Delivery>, i: Incident, now: int, attempt: Attempt)
    requires i.state != NoState && IsAtStake(sub, prior, i)
    ensures IsAccount(sub, prior, i, now, attempt, Handle(sub, prior, i, now, attempt))
  {
    hide IsAccount, Handle, IsDue;
    if IsDue(sub, prior, i, now) {
      AttemptIsAccounted(sub, prior, i, now, attempt);
    } else {
      RestIsAccounted(sub, prior, i, now, attempt);
    }
  }

  /** A subscription with no stake in the alert is left without a record while it fires; once
      it is over it gets one that says it was left out, unless it has one that says as much
      or that it was told. */
  lemma LeavesOutExactly(sub: Subscription, prior: Option<Delivery>, i: Incident, now: int, attempt: Attempt)
    requires i.state != NoState && !IsAtStake(sub, prior, i)
    ensures var r := Handle(sub, prior, i, now, attempt);
            && r.sent == [] && r.wait == 0
            && r.record == if i.state == Firing then None
                           else if prior.Some? && (prior.value.excluded || prior.value.delivered == Resolved) then prior
                           else Some(Delivery(Resolved, 0, None, false, NoState, 0, true))
  {
  }

  // ----- what one turn keeps -----

  /** Firing, Resolved, Firing, ... */
  predicate Alternates(log: seq<AlertState>) {
    forall k :: 0 <= k < |log| ==> log[k] == if k % 2 == 0 then Firing else Resolved
  }

  predicate EndsFiring(log: seq<AlertState>) {
    log != [] && log[|log| - 1] == Firing
  }

  /** The acknowledged sends to a subscription, and its record, agree. */
  predicate Agree(log: seq<AlertState>, record: Option<Delivery>) {
    && Alternates(log)
    && (EndsFiring(log) <==> IsOpen(record))
    && (record.Some? && record.value.excluded ==> record.value.delivered == Resolved)
  }

  lemma AppendKeepsAgreement(log: seq<AlertState>, d: Delivery, st: AlertState, now: int)
    requires Agree(log, Some(d)) && st != NoState && d.delivered != st && (st == Resolved ==> d.delivered != NoState)
    ensures Agree(log + [st], Some(Acknowledged(d, st, now))) && Acknowledged(d, st, now).delivered == st
  {
    assert log != [] ==> log[|log| - 1] == if (|log| - 1) % 2 == 0 then Firing else Resolved;
  }

  lemma FailKeepsAgreement(log: seq<AlertState>, d: Delivery, out: SendOutcome, state: AlertState, now: int)
    requires Agree(log, Some(d)) && out != Delivered
    ensures Agree(log, Some(Failed(d, out, state, now).d)) && Failed(d, out, state, now).sent == []
  {
  }

  lemma {:induction false} SendKeepsAgreement(
    log: seq<AlertState>, d: Delivery, todo: seq<AlertState>, k: nat, attempt: Attempt, state: AlertState, now: int)
    requires attempt.Sends? && k <= |todo| && Agree(log, Some(d))
    requires forall j :: 0 <= j < |todo| ==> todo[j] != NoState
    requires k < |todo| && todo[k] == Resolved ==> d.delivered != NoState
    ensures var r := SendFrom(d, todo, k, attempt, state, now); Agree(log + r.sent, Some(r.d))
    decreases |todo| - k
  {
    hide Agree, Failed, Acknowledged;
    assert log + [] == log;
    if k < |todo| {
      if d.delivered == todo[k] {
        SendKeepsAgreement(log, d, todo, k + 1, attempt, state, now);
      } else if Answer(attempt, k) == Delivered {
        var d' := Acknowledged(d, todo[k], now);
        var log' := log + [todo[k]];
        AppendKeepsAgreement(log, d, todo[k], now);
        SendKeepsAgreement(log', d', todo, k + 1, attempt, state, now);
        var rest := SendFrom(d', todo, k + 1, attempt, state, now);
        assert log + ([todo[k]] + rest.sent) == log' + rest.sent;
      } else {
        FailKeepsAgreement(log, d, Answer(attempt, k), state, now);
      }
    }
  }

  /** Whatever the filter, the pause, the clock and the endpoint do, one turn keeps
      a subscription's acknowledged sends alternating and its record in step. */
  lemma HandleKeepsAgreement(
    log: seq<AlertState>, sub: Subscription, prior: Option<Delivery>, i: Incident, now: int, attempt: Attempt)
    requires i.state != NoState && Agree(log, prior)
    ensures var r := Handle(sub, prior, i, now, attempt); Agree(log + r.sent, r.record)
  {
    hide Backoff, Stored;
    assert log + [] == log;
    if IsDriven(sub, prior, i) {
      var d := Refreshed(if prior.Some? then prior.value else NEW_DELIVERY, sub, i.state);
      if !(prior.None? && i.state == Resolved && sub.createdAt > i.createdAt) && !Skips(sub, d, i.state) &&
          attempt.Sends? {
        SendKeepsAgreement(log, d, Sequence(d, i.state), 0, attempt, i.state, now);
      }
    }
  }

  /** Undelivered although nothing but the endpoint stands in the way. */
  predicate IsRetryable(sub: Subscription, r: Handled, i: Incident) {
    r.record.Some? && r.record.value.delivered != i.state && !sub.paused && !r.record.value.permanent
  }

  lemma {:induction false} SendLeavesBackoff(
    d: Delivery, todo: seq<AlertState>, k: nat, attempt: Attempt, state: AlertState, now: int)
    requires attempt.Sends? && k <= |todo| && |todo| > 0 && todo[|todo| - 1] == state
    requires k == |todo| ==> d.delivered == state
    ensures var r := SendFrom(d, todo, k, attempt, state, now);
            r.d.delivered == state || r.d.permanent ||
            (BackoffDue(r.d).Some? && r.wait > 0 && now + r.wait == BackoffDue(r.d).value + now % SECOND)
    decreases |todo| - k
  {
    if k < |todo| {
      if d.delivered == todo[k] {
        SendLeavesBackoff(d, todo, k + 1, attempt, state, now);
      } else if Answer(attempt, k) == Delivered {
        SendLeavesBackoff(Acknowledged(d, todo[k], now), todo, k + 1, attempt, state, now);
      }
    }
  }

  /** A record left to retry says when. The turn's wait ends exactly then if the turn made
      no attempt, and otherwise later by the fraction of a second that the stored time of
      the attempt lost. */
  lemma RetryableIsDue(sub: Subscription, prior: Option<Delivery>, i: Incident, now: int, attempt: Attempt)
    requires i.state != NoState && (prior.Some? && prior.value.excluded ==> prior.value.delivered == Resolved)
    requires IsRetryable(sub, Handle(sub, prior, i, now, attempt), i)
    ensures var r := Handle(sub, prior, i, now, attempt);
            && r.wait > 0 && BackoffDue(r.record.value).Some?
            && now + r.wait == BackoffDue(r.record.value).value +
                               if IsDue(sub, prior, i, now) then now % SECOND else 0
  {
    hide Backoff;
    var d := Refreshed(if prior.Some? then prior.value else NEW_DELIVERY, sub, i.state);
    BackoffIsPositive(d.attempts + 1);
    if IsDriven(sub, prior, i) && !Skips(sub, d, i.state) && attempt.Sends? {
      SendLeavesBackoff(d, Sequence(d, i.state), 0, attempt, i.state, now);
    }
  }

  lemma {:induction false} SendChangesRecord(
    d: Delivery, todo: seq<AlertState>, k: nat, attempt: Attempt, state: AlertState, now: int)
    requires attempt.Sends? && k < |todo| && todo[|todo| - 1] == state && !d.permanent
    requires d.delivered !in todo[k..] && forall a, b :: 0 <= a < b < |todo| ==> todo[a] != todo[b]
    ensures var r := SendFrom(d, todo, k, attempt, state, now).d;
            r.permanent || r.delivered in todo[k..] || (r.delivered == d.delivered && r.attempts == d.attempts + 1)
    decreases |todo| - k
  {
    hide Backoff, Stored;
    assert todo[k] in todo[k..];
    if Answer(attempt, k) == Delivered && k + 1 < |todo| {
      var d' := Acknowledged(d, todo[k], now);
      assert forall st :: st in todo[k + 1..] ==> st in todo[k..];
      SendChangesRecord(d', todo, k + 1, attempt, state, now);
    }
  }

  /** An attempt changes what the record says besides its time, so the time's lost fraction
      never decides whether there is anything to write. */
  lemma AttemptChangesRecord(sub: Subscription, prior: Option<Delivery>, i: Incident, now: int, attempt: Attempt)
    requires i.state != NoState && IsDue(sub, prior, i, now)
    ensures var r := Handle(sub, prior, i, now, attempt).record;
            prior.Some? ==> r.Some? && r.value.(lastAttemptAt := None) != prior.value.(lastAttemptAt := None)
  {
    hide Backoff, Stored;
    if prior.Some? && attempt.Sends? {
      var d := Refreshed(prior.value, sub, i.state);
      var todo := Sequence(d, i.state);
      assert todo[0..] == todo;
      SendChangesRecord(d, todo, 0, attempt, i.state, now);
      SendKeepsFailureCurrent(d, todo, 0, attempt, i.state, now);
    }
  }

  lemma BackoffIsPositive(n: int)
    requires n >= 1
    ensures Backoff(n) >= 5
  {
  }

  /** The fraction is real: a first send that fails at 100.9 seconds is due again at 105,
      and the turn asks to be run at 105.9. */
  lemma RetryMayBeLate(sub: Subscription, i: Incident)
    requires i.state == Firing && Matches(sub.filter, i) && !sub.paused
    ensures var now := 100 * SECOND + 900_000_000;
            var r := Handle(sub, None, i, now, Sends(Retry, Retry));
            && IsRetryable(sub, r, i) && BackoffDue(r.record.value) == Some(105 * SECOND)
            && now + r.wait == 105 * SECOND + 900_000_000
  {
    hide Matches;
    var now := 100 * SECOND + 900_000_000;
    var d := Refreshed(NEW_DELIVERY, sub, Firing);
    assert Backoff(1) == 5 by { assert Pow2(0) == 1; }
    assert SendFrom(d, [Firing], 0, Sends(Retry, Retry), Firing, now) == Failed(d, Retry, Firing, now);
    assert Stored(now) == 100 * SECOND;
  }

  lemma {:induction false} SendKeepsFailureCurrent(
    d: Delivery, todo: seq<AlertState>, k: nat, attempt: Attempt, state: AlertState, now: int)
    requires attempt.Sends? && k <= |todo| && (d.permanent ==> d.failedState == state)
    ensures var r := SendFrom(d, todo, k, attempt, state, now).d;
            (r.permanent ==> r.failedState == state) && r.generation == d.generation
    decreases |todo| - k
  {
    if k < |todo| {
      if d.delivered == todo[k] {
        SendKeepsFailureCurrent(d, todo, k + 1, attempt, state, now);
      } else if Answer(attempt, k) == Delivered {
        SendKeepsFailureCurrent(Acknowledged(d, todo[k], now), todo, k + 1, attempt, state, now);
      }
    }
  }

  /** A permanent failure outlives neither the state it answered nor the
      subscription spec it answered to. */
  lemma PermanentFailureIsCurrent(sub: Subscription, prior: Option<Delivery>, i: Incident, now: int, attempt: Attempt)
    requires IsDriven(sub, prior, i)
    ensures var r := Handle(sub, prior, i, now, attempt).record;
            r.Some? && r.value.generation == sub.generation && (r.value.permanent ==> r.value.failedState == i.state)
  {
    var d := Refreshed(if prior.Some? then prior.value else NEW_DELIVERY, sub, i.state);
    if attempt.Sends? {
      SendKeepsFailureCurrent(d, Sequence(d, i.state), 0, attempt, i.state, now);
    }
  }

  /** An incident a subscription never had open is not replayed to it: not when its
      filter did not match, not when it was made after the fact, and not later, as the
      record is left as one of an incident told of. */
  lemma MissedIsNeverReplayed(sub: Subscription, prior: Option<Delivery>, i: Incident, now: int, attempt: Attempt)
    requires i.state == Resolved && !IsOpen(prior)
    requires !Matches(sub.filter, i) || (prior.None? && sub.createdAt > i.createdAt)
             || (prior.Some? && prior.value.delivered == Resolved)
    ensures var r := Handle(sub, prior, i, now, attempt);
            && r.sent == [] && r.record.Some?
            && r.record.value.delivered ==
               if prior.Some? && prior.value.excluded then prior.value.delivered else Resolved
  {
  }

  /** And whatever becomes of the filter or the pause, a record that says Resolved stays as
      it is, unsent to, while the alert is resolved. */
  lemma ToldIsNotToldAgain(sub: Subscription, prior: Option<Delivery>, i: Incident, now: int, attempt: Attempt)
    requires i.state == Resolved && prior.Some? && prior.value.delivered == Resolved
    ensures var r := Handle(sub, prior, i, now, attempt);
            r.sent == [] && r.record.Some? && r.record.value.delivered == Resolved
  {
  }
}
