/** What becomes of an answered login: it is recorded, unless something goes wrong in
    between, and what exactly forbids the next one. */
module GateOutcomes {
  import opened Text
  import opened GateCodec
  import opened GateProtocol

  // ----- what forbids a login -----

  /** Why the Secret as it is forbids a login of the account. */
  ghost predicate Blocks(env: Env, data: SecretData, a: Account, why: Reason) {
    match why
    case RefusedBefore => IsRefused(env, data, a)
    case OutcomeUnknown => !IsRefused(env, data, a) && IsPending(env, data, a)
    case TooManyUnresolved =>
      && !IsRefused(env, data, a) && !IsPending(env, data, a)
      && ParseState(env.crypto, data).Good? && |ParseState(env.crypto, data).st.pending| >= 64
  }

  /** Begin stops exactly for those reasons, in that order, whatever key a new Secret gets. */
  lemma BeginStopsIff(env: Env, data: SecretData, k: string, a: Account, why: Reason)
    requires BaseState(env.crypto, data, k).Some?
    ensures Changed(env.crypto, Begin, a, BaseState(env.crypto, data, k).value) == Stop(why) <==>
            Blocks(env, data, a, why)
  {
    hide ParseState, MacOf;
  }

  // ----- what becomes of an answer -----

  /** A run with the events that made it. */
  ghost predicate IsTrace(env: Env, run: seq<Sys>, events: seq<Event>) {
    && |run| == |events| + 1 && Init(env, run[0])
    && forall k :: 0 <= k < |events| ==> Enabled(env, run[k], events[k]) && run[k + 1] == Apply(env, run[k], events[k])
  }

  lemma TraceIsRun(env: Env, run: seq<Sys>, events: seq<Event>)
    requires IsTrace(env, run, events)
    ensures IsRun(env, run)
  {
    hide Init, Enabled, Apply;
    forall k | 0 <= k < |run| - 1
      ensures IsStep(env, run[k], run[k + 1])
    {
      assert Enabled(env, run[k], events[k]) && run[k + 1] == Apply(env, run[k], events[k]);
    }
  }

  lemma TraceStep(env: Env, run: seq<Sys>, events: seq<Event>, k: nat)
    requires IsTrace(env, run, events) && k < |events|
    ensures Enabled(env, run[k], events[k]) && run[k + 1] == Apply(env, run[k], events[k])
  {
    hide Init, Enabled, Apply;
  }

  /** The manager dies, cannot read the Secret, or is not told that its write landed. */
  predicate Disturbs(e: Event) {
    e.Crash? || e.ReadFails? || (e.Decide? && e.fate != Acknowledged)
  }

  /** Login l came to o, and that is in the books. */
  predicate IsNoted(book: Book, l: nat, o: Outcome) {
    match o
    case Success | NotSent => l in book.cleared
    case Refused => l in book.refusals
    case Unknown => true
  }

  /** The record of login l is being written: nothing was lost on the way so far. */
  ghost predicate IsUnderway(s: Sys, l: nat, a: Account, o: Outcome) {
    && |s.book.log| == l + 1 && o != Unknown
    && var op := if o == Refused then Refuse(l) else Clear(l);
       s.phase == Working(op, a, 0) || s.phase == HasRead(op, a, 0, s.version, s.data)
  }

  /** It is written, and until the next login is sent nothing but a new intention of the
      same account is. */
  ghost predicate IsSettled(env: Env, s: Sys, l: nat, a: Account, o: Outcome) {
    && IsNoted(s.book, l, o)
    && (|s.book.log| == l + 1 ==>
          && !s.phase.Sent? && ((s.phase.Working? || s.phase.HasRead?) ==> s.phase.op.Begin?)
          && (o != Unknown ==> s.phase.Armed? || !IsPending(env, s.data, a)))
  }

  ghost predicate IsTracked(env: Env, s: Sys, l: nat, a: Account, o: Outcome) {
    && NoLiveRequest(s) && l < |s.book.log| && s.book.log[l] == Login(a, o)
    && (IsUnderway(s, l, a, o) || IsSettled(env, s, l, a, o))
  }

  /** The dashboard's answer starts the record. */
  lemma AnswerIsTracked(env: Env, s: Sys, o: Outcome, s': Sys)
    requires Enabled(env, s, Answer(o)) && s' == Apply(env, s, Answer(o))
    requires ValidEnv(env) && Inv(env, s)
    ensures IsTracked(env, s', |s.book.log| - 1, s.phase.acct, o)
  {
    hide Core, CollisionFree, ParseState, RequestOk;
  }

  /** A record that is acknowledged is settled. */
  lemma RecordSettles(env: Env, s: Sys, k: string, s': Sys, l: nat, a: Account, o: Outcome)
    requires Enabled(env, s, Decide(k, Acknowledged)) && s' == Apply(env, s, Decide(k, Acknowledged))
    requires ValidEnv(env) && Inv(env, s) && IsUnderway(s, l, a, o)
    ensures s'.phase.Idle? && s'.version > s.version && s'.inflight == s.inflight && s'.book.log == s.book.log
    ensures IsSettled(env, s', l, a, o)
  {
    hide Core, CollisionFree, ParseState, RequestOk, Write, Without;
    KnownMeansWritten(env, s, k, Acknowledged, s');
  }

  /** A new intention changes nothing but to arm the manager. */
  lemma BeginKeepsSettled(env: Env, s: Sys, k: string, s': Sys, l: nat, a: Account, o: Outcome)
    requires Enabled(env, s, Decide(k, Acknowledged)) && s' == Apply(env, s, Decide(k, Acknowledged))
    requires s.phase.op.Begin? && IsSettled(env, s, l, a, o)
    ensures IsSettled(env, s', l, a, o) && s'.version >= s.version && s'.inflight == s.inflight
    ensures s'.book == s.book
  {
    hide ParseState, Write, Changed, BaseState;
  }

  /** Once the next login is sent, only the books matter, and they forget nothing. */
  lemma LaterRecordsKeepNoted(env: Env, s: Sys, k: string, s': Sys, l: nat, o: Outcome)
    requires Enabled(env, s, Decide(k, Acknowledged)) && s' == Apply(env, s, Decide(k, Acknowledged))
    requires IsNoted(s.book, l, o)
    ensures IsNoted(s'.book, l, o) && s'.version >= s.version && s'.inflight == s.inflight
    ensures s'.book.log == s.book.log
  {
    hide ParseState, Write, Changed, BaseState;
  }

  lemma StepKeepsTracked(env: Env, s: Sys, e: Event, s': Sys, l: nat, a: Account, o: Outcome)
    requires Enabled(env, s, e) && s' == Apply(env, s, e)
    requires ValidEnv(env) && Inv(env, s) && IsTracked(env, s, l, a, o) && !Disturbs(e)
    ensures IsTracked(env, s', l, a, o)
  {
    hide Inv, CollisionFree, ParseState, Decided, ValidEnv, IsPending;
    match e
    case Decide(k, fate) =>
      if IsUnderway(s, l, a, o) {
        RecordSettles(env, s, k, s', l, a, o);
      } else if s.phase.op.Begin? {
        BeginKeepsSettled(env, s, k, s', l, a, o);
      } else {
        LaterRecordsKeepNoted(env, s, k, s', l, o);
      }
    case _ =>
  }

  lemma {:induction false} TraceKeepsTracked(
    env: Env, run: seq<Sys>, events: seq<Event>, j: nat, n: nat, l: nat, a: Account, o: Outcome)
    requires ValidEnv(env) && IsTrace(env, run, events) && j <= n < |run|
    requires forall k :: j <= k < n ==> !Disturbs(events[k])
    requires IsTracked(env, run[j], l, a, o)
    ensures IsTracked(env, run[n], l, a, o)
  {
    hide Inv, ValidEnv, Apply, Enabled, IsTracked, Init, Disturbs;
    if j < n {
      TraceKeepsTracked(env, run, events, j, n - 1, l, a, o);
      TraceIsRun(env, run, events);
      RunKeepsInv(env, run, n - 1);
      TraceStep(env, run, events, n - 1);
      StepKeepsTracked(env, run[n - 1], events[n - 1], run[n], l, a, o);
    }
  }

  /** In every run: once the dashboard has answered a login and the manager is idle again,
      a success or a login that was never sent is in the books as cleared and a refusal as
      refused, unless since the answer the manager crashed, could not read the Secret or
      was not told that a write landed. And as long as no other login was sent, the Secret
      then lists the account in `pending` exactly if the outcome is unknown, and in
      `refused` if it was refused. */
  lemma AnswerIsRecorded(env: Env, run: seq<Sys>, events: seq<Event>, j: nat, n: nat)
    requires ValidEnv(env) && IsTrace(env, run, events) && j < n < |run|
    requires events[j].Answer? && run[n].phase.Idle?
    requires forall k :: j < k < n ==>
      !events[k].Crash? && !events[k].ReadFails? && (events[k].Decide? ==> events[k].fate == Acknowledged)
    ensures run[j].phase.Sent? && |run[n].book.log| >= |run[j].book.log| > 0
    ensures var o, l, a := events[j].outcome, |run[j].book.log| - 1, run[j].phase.acct;
            && run[n].book.log[l] == Login(a, o)
            && (o == Success || o == NotSent ==> l in run[n].book.cleared)
            && (o == Refused ==> l in run[n].book.refusals)
            && (|run[n].book.log| == l + 1 ==>
                  && (IsPending(env, run[n].data, a) <==> o == Unknown)
                  && (o == Refused ==> IsRefused(env, run[n].data, a)))
  {
    hide Inv, Init, ValidEnv, Apply, IsPending, IsRefused;
    TraceIsRun(env, run, events);
    RunKeepsInv(env, run, j);
    TraceStep(env, run, events, j);
    var o, l, a := events[j].outcome, |run[j].book.log| - 1, run[j].phase.acct;
    AnswerIsTracked(env, run[j], o, run[j + 1]);
    TraceKeepsTracked(env, run, events, j + 1, n, l, a, o);
    NoLoginIsForgotten(env, run, n);
    if o == Refused && |run[n].book.log| == l + 1 {
      RunKeepsInv(env, run, n);
      InvHasCore(env, run[n]);
      RefusalIsListed(env, run[n], l, a);
    }
  }

  lemma InvHasCore(env: Env, s: Sys)
    requires Inv(env, s)
    ensures Core(env, s.data, s.book)
  {
    hide Core;
  }

  // ----- nothing else blocks -----

  predicate HasUnrecorded(book: Book, b: Account) {
    exists i :: 0 <= i < |book.log| && book.log[i].acct == b && i !in book.cleared && i !in book.refusals
  }

  /** The last login is on its way, or its record is being written. */
  ghost predicate IsLastInProgress(s: Sys, i: nat) {
    && i + 1 == |s.book.log|
    && (s.phase.Sent? || ((s.phase.Working? || s.phase.HasRead?) && !s.phase.op.Begin?))
  }

  /** `pending` holds what it held at first, the intention just written, and the logins
      that are not in the books; and those are the unknown ones and the one in progress. */
  ghost predicate IsExact(env: Env, s: Sys, first: SecretData) {
    && NoLiveRequest(s)
    && (s.phase.HasRead? ==> s.phase.base == s.version && s.phase.data == s.data)
    && (forall b :: b in env.accounts ==>
          (IsPending(env, s.data, b) <==>
             IsPending(env, first, b) || HasUnrecorded(s.book, b) || s.phase == Armed(b)))
    && (forall i :: 0 <= i < |s.book.log| ==> !IsPending(env, first, s.book.log[i].acct))
    && (s.phase.Armed? ==> !IsPending(env, first, s.phase.acct))
    && (forall i :: 0 <= i < |s.book.log| ==>
          || IsRecorded(s.book, i) || s.book.log[i].outcome == Unknown || IsLastInProgress(s, i))
  }

  lemma LandedBeginIsExact(env: Env, s: Sys, k: string, s': Sys, first: SecretData)
    requires Enabled(env, s, Decide(k, Acknowledged)) && s' == Apply(env, s, Decide(k, Acknowledged))
    requires ValidEnv(env) && Inv(env, s) && IsExact(env, s, first) && s.phase.op.Begin?
    ensures IsExact(env, s', first)
  {
    hide Core, CollisionFree, ParseState, RequestOk, Write, Changed, IsPending, HasUnrecorded, BaseState;
    var a := s.phase.acct;
    if s'.version != s.version {
      assert IsOutputWith(env, s.data, Begin, a, k, s'.data);
      forall b | b in env.accounts
        ensures IsPending(env, s'.data, b) <==> b == a || IsPending(env, s.data, b)
      {
        RecordMeans(env, s.data, Begin, a, k, s'.data, b);
      }
      BeginStopsIff(env, s.data, k, a, RefusedBefore);
      BeginStopsIff(env, s.data, k, a, OutcomeUnknown);
      assert !IsPending(env, s.data, a);
    }
  }

  lemma RecordingCloses(env: Env, s: Sys, book': Book, op: Op, a: Account, b: Account)
    requires BookOk(env, s.book) && OpOk(env, s.book, op, a) && !op.Begin? && book' == Recorded(s.book, op)
    ensures HasUnrecorded(book', b) <==> b != a && HasUnrecorded(s.book, b)
    ensures IsRecorded(book', op.login) && forall i :: IsRecorded(s.book, i) ==> IsRecorded(book', i)
  {
    hide PushedOut;
    if HasUnrecorded(book', b) {
      var i :| 0 <= i < |book'.log| && book'.log[i].acct == b && i !in book'.cleared && i !in book'.refusals;
      assert i !in s.book.cleared && i !in s.book.refusals && i != op.login;
      assert b == a ==> IsRecorded(s.book, i);
    }
    if b != a && HasUnrecorded(s.book, b) {
      var i :| 0 <= i < |s.book.log| && s.book.log[i].acct == b && i !in s.book.cleared && i !in s.book.refusals;
      assert i != op.login;
      assert 0 <= i < |book'.log| && book'.log[i].acct == b && i !in book'.cleared && i !in book'.refusals;
    }
  }

  lemma LandedRecordIsExact(env: Env, s: Sys, k: string, s': Sys, first: SecretData)
    requires Enabled(env, s, Decide(k, Acknowledged)) && s' == Apply(env, s, Decide(k, Acknowledged))
    requires ValidEnv(env) && Inv(env, s) && IsExact(env, s, first) && !s.phase.op.Begin?
    ensures IsExact(env, s', first)
  {
    hide BookOk, SecretOk, CollisionFree, ParseState, RequestOk, Write, IsPending, HasUnrecorded, Without, Recorded;
    var op, a := s.phase.op, s.phase.acct;
    assert IsOutputWith(env, s.data, op, a, k, s'.data);
    assert s'.book == Recorded(s.book, op);
    forall b
      ensures HasUnrecorded(s'.book, b) <==> b != a && HasUnrecorded(s.book, b)
      ensures b in env.accounts ==> (IsPending(env, s'.data, b) <==> b != a && IsPending(env, s.data, b))
      ensures IsRecorded(s'.book, op.login) && forall i :: IsRecorded(s.book, i) ==> IsRecorded(s'.book, i)
    {
      RecordingCloses(env, s, s'.book, op, a, b);
      if b in env.accounts { RecordMeans(env, s.data, op, a, k, s'.data, b); }
    }
    RecordedKeepsLog(s.book, op);
  }

  lemma RecordedKeepsLog(book: Book, op: Op)
    ensures Recorded(book, op).log == book.log
  {
  }

  lemma SendIsExact(env: Env, s: Sys, s': Sys, first: SecretData)
    requires Enabled(env, s, Send) && s' == Apply(env, s, Send)
    requires ValidEnv(env) && Inv(env, s) && IsExact(env, s, first)
    ensures IsExact(env, s', first)
  {
    hide CollisionFree, ParseState, RequestOk, IsPending, SecretOk;
    var a := s.phase.acct;
    LogIsAhead(env, s.book);
    forall b
      ensures HasUnrecorded(s'.book, b) <==> b == a || HasUnrecorded(s.book, b)
    {
      if HasUnrecorded(s.book, b) {
        var i :| 0 <= i < |s.book.log| && s.book.log[i].acct == b && i !in s.book.cleared && i !in s.book.refusals;
        assert s'.book.log[i].acct == b;
      }
      assert s'.book.log[|s.book.log|].acct == a;
    }
    assert forall i :: IsRecorded(s.book, i) <==> IsRecorded(s'.book, i);
  }

  lemma AnswerIsExact(env: Env, s: Sys, o: Outcome, s': Sys, first: SecretData)
    requires Enabled(env, s, Answer(o)) && s' == Apply(env, s, Answer(o))
    requires Inv(env, s) && IsExact(env, s, first)
    ensures IsExact(env, s', first)
  {
    hide Core, ParseState, RequestOk, IsPending;
    assert forall i :: 0 <= i < |s.book.log| ==> s'.book.log[i].acct == s.book.log[i].acct;
    forall b
      ensures HasUnrecorded(s'.book, b) <==> HasUnrecorded(s.book, b)
    {
      if HasUnrecorded(s.book, b) {
        var i :| 0 <= i < |s.book.log| && s.book.log[i].acct == b && i !in s.book.cleared && i !in s.book.refusals;
        assert s'.book.log[i].acct == b;
      }
    }
    assert forall i :: IsRecorded(s.book, i) <==> IsRecorded(s'.book, i);
  }

  lemma StepKeepsExact(env: Env, s: Sys, e: Event, s': Sys, first: SecretData)
    requires Enabled(env, s, e) && s' == Apply(env, s, e)
    requires ValidEnv(env) && Inv(env, s) && IsExact(env, s, first) && !Disturbs(e)
    ensures IsExact(env, s', first)
  {
    hide Inv, CollisionFree, ParseState, Decided, ValidEnv, IsPending, HasUnrecorded, IsRecorded;
    match e
    case Decide(k, fate) =>
      if s.phase.op.Begin? {
        LandedBeginIsExact(env, s, k, s', first);
      } else {
        LandedRecordIsExact(env, s, k, s', first);
      }
    case Send => SendIsExact(env, s, s', first);
    case Answer(o) => AnswerIsExact(env, s, o, s', first);
    case _ =>
  }

  lemma {:induction false} TraceKeepsExact(env: Env, run: seq<Sys>, events: seq<Event>, n: nat)
    requires ValidEnv(env) && IsTrace(env, run, events) && n < |run|
    requires forall k :: 0 <= k < n ==> !Disturbs(events[k])
    ensures IsExact(env, run[n], run[0].data)
  {
    if n == 0 {
      hide ParseState;
    } else {
      hide Inv, ValidEnv, Apply, Enabled, IsExact, Init, Disturbs;
      TraceKeepsExact(env, run, events, n - 1);
      TraceIsRun(env, run, events);
      RunKeepsInv(env, run, n - 1);
      TraceStep(env, run, events, n - 1);
      StepKeepsExact(env, run[n - 1], events[n - 1], run[n], run[0].data);
    }
  }

  /** The converse of that nothing is forgotten: while nothing goes wrong, an idle manager's
      Secret lists an account in `pending` exactly if it did so at first, or the outcome of
      one of its logins is unknown. Logins that succeeded, were refused or were never sent
      do not block it there. */
  lemma OnlyUnknownStaysPending(env: Env, run: seq<Sys>, events: seq<Event>, n: nat, b: Account)
    requires ValidEnv(env) && IsTrace(env, run, events) && n < |run| && run[n].phase.Idle? && b in env.accounts
    requires forall k :: 0 <= k < n ==>
      !events[k].Crash? && !events[k].ReadFails? && (events[k].Decide? ==> events[k].fate == Acknowledged)
    ensures IsPending(env, run[n].data, b) <==> IsPending(env, run[0].data, b) || Login(b, Unknown) in run[n].book.log
  {
    hide IsTrace, ValidEnv, IsPending;
    TraceKeepsExact(env, run, events, n);
    TraceIsRun(env, run, events);
    NoLoginIsForgotten(env, run, n);
    var book := run[n].book;
    if HasUnrecorded(book, b) {
      var i :| 0 <= i < |book.log| && book.log[i].acct == b && i !in book.cleared && i !in book.refusals;
      assert book.log[i] == Login(b, Unknown);
    }
    if Login(b, Unknown) in book.log {
      var i :| 0 <= i < |book.log| && book.log[i] == Login(b, Unknown);
      assert i !in book.cleared && i !in book.refusals;
    }
  }
}
