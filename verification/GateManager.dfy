/** The manager's own code against the gate: `SecretLoginGate.update`, its retry
    loop, and `Client.login` around it. Every statement that touches the cluster is
    one step of the protocol, with whatever late writes may land in between, so what
    the protocol keeps over every run holds of everything this code can do, cut off
    after any step. */
module GateManager {
  import opened Text
  import opened GateCodec
  import opened GateProtocol
  import opened GateOutcomes

  /** How `update` returns: without an error, or with one of its errors. */
  datatype Ending = Written | Unreadable | CorruptState | Stopped(why: Reason) | GaveUp

  /** What one round meets: whether the Secret can be read, the key a new one would get, and
      what becomes of the write unless it conflicts. */
  datatype Luck = Luck(readable: bool, key: string, fate: Fate)

  /** What the three rounds of an update meet. */
  predicate IsLuck(luck: seq<Luck>) {
    |luck| == 3 && forall i :: 0 <= i < 3 ==> |luck[i].key| == 32
  }

  /** What one round comes to: an ending, or another round. */
  function RoundEnding(env: Env, s: Sys, key: string, fate: Fate): Option<Ending>
    requires s.phase.HasRead?
  {
    var HasRead(op, a, n, base, data) := s.phase;
    match ParseState(env.crypto, data)
    case Corrupt => Some(CorruptState)
    case Empty => if op.Clear? then Some(Written) else ChangeEnding(env, op, a, n, State(key, [], []), fate)
    case Good(st) => ChangeEnding(env, op, a, n, st, fate)
  }

  function ChangeEnding(env: Env, op: Op, a: Account, n: nat, st: State, fate: Fate): Option<Ending> {
    match Changed(env.crypto, op, a, st)
    case Stop(why) => Some(Stopped(why))
    case Go(_) =>
      if fate == Acknowledged then Some(Written)
      else if n + 1 < WRITE_ATTEMPTS then None
      else Some(GaveUp)
  }

  /** The Secret that the round read is what its ending says. */
  ghost predicate Justifies(env: Env, data: SecretData, op: Op, a: Account, end: Ending) {
    match end
    case CorruptState => ParseState(env.crypto, data).Corrupt?
    case Stopped(why) => op.Begin? && Blocks(env, data, a, why)
    case Written | Unreadable | GaveUp => true
  }

  lemma RoundIsJustified(env: Env, s: Sys, key: string, fate: Fate)
    requires s.phase.HasRead? && RoundEnding(env, s, key, fate).Some?
    ensures Justifies(env, s.phase.data, s.phase.op, s.phase.acct, RoundEnding(env, s, key, fate).value)
  {
    hide ParseState;
    forall why
      ensures BaseState(env.crypto, s.phase.data, key).Some? ==>
              (Changed(env.crypto, Begin, s.phase.acct, BaseState(env.crypto, s.phase.data, key).value) == Stop(why)
               <==> Blocks(env, s.phase.data, s.phase.acct, why))
    {
      if BaseState(env.crypto, s.phase.data, key).Some? {
        BeginStopsIff(env, s.phase.data, key, s.phase.acct, why);
      }
    }
  }

  /** The ending and the phase the round leaves behind agree. */
  lemma RoundEnds(env: Env, s: Sys, key: string, fate: Fate, s': Sys)
    requires Enabled(env, s, Decide(key, fate)) && s' == Apply(env, s, Decide(key, fate))
    ensures s'.book.log == s.book.log
    ensures var ph, end := s.phase, RoundEnding(env, s, key, fate);
            && s'.phase == (if end.None? then Working(ph.op, ph.acct, ph.attempt + 1)
                            else if end == Some(Written) && ph.op.Begin? then Armed(ph.acct) else Idle)
            && (end.None? ==> ph.attempt < 2) && (end == Some(GaveUp) ==> ph.attempt >= 2)
            && (end == Some(Written) <==> IsKnown(env, s, fate, s'))
  {
    hide ParseState, Write, MacOf, Without;
  }

  lemma EndingIsNotUnreadable(env: Env, s: Sys, key: string, fate: Fate)
    requires s.phase.HasRead?
    ensures RoundEnding(env, s, key, fate) != Some(Unreadable)
  {
    hide ParseState, Changed;
  }

  /** A write that is acknowledged ends the update, and a record is then written. */
  lemma AcknowledgedRoundEnds(env: Env, s: Sys, key: string)
    requires Inv(env, s) && s.phase.HasRead?
    ensures var r := RoundEnding(env, s, key, Acknowledged);
            r.Some? && r.value != GaveUp && (!s.phase.op.Begin? ==> r.value == Written)
  {
    hide ParseState, Core, RequestOk, Without, MacOf;
  }

  lemma SentHasNoRival(env: Env, s: Sys)
    requires Inv(env, s) && s.phase.Sent?
    ensures NoLiveRequest(s)
  {
    hide Core, RequestOk;
  }

  /** All a round promises. */
  lemma RoundComesTo(env: Env, s: Sys, key: string, fate: Fate, s': Sys)
    requires Enabled(env, s, Decide(key, fate)) && s' == Apply(env, s, Decide(key, fate))
    requires ValidEnv(env) && Inv(env, s)
    ensures s'.book.log == s.book.log
    ensures var ph, r := s.phase, RoundEnding(env, s, key, fate);
            && s'.phase == (if r.None? then Working(ph.op, ph.acct, ph.attempt + 1)
                            else if r == Some(Written) && ph.op.Begin? then Armed(ph.acct) else Idle)
            && (r.None? ==> ph.attempt < 2) && (r == Some(GaveUp) ==> ph.attempt >= 2)
            && (r == Some(Written) ==> IsWritten(env, s', ph.op, ph.acct))
            && r != Some(Unreadable) && (r.Some? ==> Justifies(env, ph.data, ph.op, ph.acct, r.value))
  {
    hide ValidEnv, Inv, Apply, IsKnown, IsWritten, RoundEnding, Justifies;
    RoundEnds(env, s, key, fate, s');
    KnownMeansWritten(env, s, key, fate, s');
    EndingIsNotUnreadable(env, s, key, fate);
    if RoundEnding(env, s, key, fate).Some? {
      RoundIsJustified(env, s, key, fate);
    }
  }

  lemma RunExtends(env: Env, run: seq<Sys>, s: Sys, e: Event)
    requires Enabled(env, s, e)
    requires IsRun(env, run) && s == run[|run| - 1]
    ensures IsRun(env, run + [Apply(env, s, e)])
  {
    hide Apply, Enabled, Init;
    var run' := run + [Apply(env, s, e)];
    assert IsStep(env, s, run'[|run|]);
    forall k | 0 <= k < |run'| - 1
      ensures IsStep(env, run'[k], run'[k + 1])
    {
      assert k < |run| - 1 ==> IsStep(env, run[k], run[k + 1]);
    }
  }

  /** Round i of an update read the Secret, at or after that state of the run. */
  ghost predicate ReadIn(run: seq<Sys>, from: nat, i: nat) {
    exists k :: from <= k < |run| && run[k].phase.HasRead? && run[k].phase.attempt == i
  }

  /** A round since then read a Secret that says so. */
  ghost predicate ReadSays(env: Env, run: seq<Sys>, from: nat, op: Op, a: Account, end: Ending) {
    exists k :: from <= k < |run| && run[k].phase.HasRead? && Justifies(env, run[k].phase.data, op, a, end)
  }

  lemma ReadStays(run: seq<Sys>, run': seq<Sys>, from: nat)
    requires run <= run'
    ensures forall i :: ReadIn(run, from, i) ==> ReadIn(run', from, i)
  {
    forall i | ReadIn(run, from, i)
      ensures ReadIn(run', from, i)
    {
      var k :| from <= k < |run| && run[k].phase.HasRead? && run[k].phase.attempt == i;
      assert run'[k] == run[k];
    }
  }

  lemma MayDecide(env: Env, s: Sys, key: string, fate: Fate)
    requires s.phase.HasRead? && |key| == 32
    requires fate.Acknowledged? || fate.LandedButFailed? ==> s.phase.base == s.version
    ensures Enabled(env, s, Decide(key, fate))
  {
  }

  /** What an answer leads to: the Secret and the writes under way are as they were. */
  lemma AnswerLeads(env: Env, s: Sys, o: Outcome)
    requires s.phase.Sent? && |s.book.log| > 0
    ensures Enabled(env, s, Answer(o))
    ensures var s' := Apply(env, s, Answer(o));
            && s'.inflight == s.inflight && s'.version == s.version && s'.data == s.data
            && s'.book == Answered(s.book, o)
            && s'.phase == match o
                           case Success | NotSent => Working(Clear(|s.book.log| - 1), s.phase.acct, 0)
                           case Refused => Working(Refuse(|s.book.log| - 1), s.phase.acct, 0)
                           case Unknown => Idle
  {
    hide ParseState;
  }

  lemma LastKeepsInv(env: Env, run: seq<Sys>, s: Sys)
    requires ValidEnv(env) && IsRun(env, run) && s == run[|run| - 1]
    ensures Inv(env, s)
  {
    hide Inv;
    RunKeepsInv(env, run, |run| - 1);
  }

  lemma UnknownIsPending(env: Env, run: seq<Sys>, a: Account)
    requires ValidEnv(env) && IsRun(env, run)
    requires var book := run[|run| - 1].book;
             |book.log| > 0 && book.log[|book.log| - 1] == Login(a, Unknown)
    ensures IsPending(env, run[|run| - 1].data, a)
  {
    hide IsPending, ValidEnv;
    NoLoginIsForgotten(env, run, |run| - 1);
  }

  lemma RivalsStay(s: Sys, s': Sys)
    requires s'.inflight == s.inflight && s'.version == s.version
    ensures NoLiveRequest(s) <==> NoLiveRequest(s')
  {
  }

  class Manager {
    const env: Env
    /** The cluster and the manager's place in its own code. */
    var sys: Sys
    ghost var run: seq<Sys>

    ghost predicate Valid()
      reads this
    {
      ValidEnv(env) && IsRun(env, run) && sys == run[|run| - 1]
    }

    ghost predicate Extends(earlier: seq<Sys>)
      reads this
    {
      earlier <= run
    }

    constructor (env: Env, sys: Sys)
      requires ValidEnv(env) && Init(env, sys)
      ensures Valid() && this.env == env && this.sys == sys && run == [sys]
    {
      this.env, this.sys, this.run := env, sys, [sys];
    }

    /** One step of the protocol. */
    method Step(e: Event)
      requires Valid() && Enabled(env, sys, e)
      modifies this
      ensures Valid() && sys == Apply(env, old(sys), e) && run == old(run) + [sys]
    {
      hide ValidEnv, IsRun, Apply, Enabled;
      RunExtends(env, run, sys, e);
      sys := Apply(env, sys, e);
      run := run + [sys];
    }

    /** Time passes: any of the writes given up on may arrive. */
    method Interleave()
      requires Valid()
      modifies this
      ensures Valid() && Extends(old(run))
      ensures sys.phase == old(sys.phase) && sys.book.log == old(sys.book.log)
      ensures old(sys.version) <= sys.version
      ensures NoLiveRequest(old(sys)) ==> sys == old(sys)
    {
      hide ValidEnv, IsRun, Decided, Answered;
      var more: bool := *;
      while more
        invariant Valid() && Extends(old(run))
        invariant sys.phase == old(sys.phase) && sys.book.log == old(sys.book.log)
        invariant old(sys.version) <= sys.version && (NoLiveRequest(old(sys)) ==> sys == old(sys))
        decreases sys.inflight, more
      {
        more := *;
        if r :| r in sys.inflight && r.base == sys.version {
          Step(LateArrival(r));
        } else {
          more := false;
        }
      }
    }

    /** `SecretLoginGate.update` with the change of op: read, decide, write, and
        again after a failed write. It returns without an error only when the change is in
        the Secret; it stops for what the Secret it read says and for nothing else; it fails
        to read only if a read fails, and gives up on writing only after three rounds. If no
        rival write is about and the first round goes well, a record is written. */
    method Update(op: Op, a: Account, luck: seq<Luck>) returns (end: Ending)
      requires Valid() && sys.phase == Working(op, a, 0) && IsLuck(luck)
      modifies this
      ensures Valid() && Extends(old(run))
      ensures end == Written ==> IsWritten(env, sys, op, a)
      ensures sys.phase == if op.Begin? && end == Written then Armed(a) else Idle
      ensures end.CorruptState? || end.Stopped? ==> ReadSays(env, run, |old(run)|, op, a, end)
      ensures end == GaveUp ==> forall i :: 0 <= i < 3 ==> ReadIn(run, |old(run)|, i)
      ensures end == Unreadable ==> exists i :: 0 <= i < 3 && !luck[i].readable
      ensures NoLiveRequest(old(sys)) && luck[0].readable && luck[0].fate == Acknowledged ==>
                end == Written || (op.Begin? && (end.Stopped? || end.CorruptState?))
      ensures sys.book.log == old(sys.book.log)
    {
      hide ValidEnv, IsRun, Answered, ParseState, Write, Changed, BaseState, IsWritten, Justifies, RoundEnding;
      hide NoLiveRequest;
      var attempt := 0;
      end := GaveUp;
      while attempt < WRITE_ATTEMPTS
        invariant attempt <= WRITE_ATTEMPTS && Valid() && Extends(old(run)) && sys.book.log == old(sys.book.log)
        invariant attempt < WRITE_ATTEMPTS ==> sys.phase == Working(op, a, attempt)
        invariant attempt == WRITE_ATTEMPTS ==> sys.phase == Idle
        invariant attempt == 0 ==> sys == old(sys)
        invariant attempt > 0 ==> !(NoLiveRequest(old(sys)) && luck[0].readable && luck[0].fate == Acknowledged)
        invariant end == GaveUp && forall i :: 0 <= i < attempt ==> ReadIn(run, |old(run)|, i)
        decreases WRITE_ATTEMPTS - attempt
      {
        ghost var earlier := run;
        Interleave();
        if !luck[attempt].readable {
          Step(ReadFails);
          return Unreadable;
        }
        ghost var unread := sys;
        Step(Read);
        RivalsStay(unread, sys);
        Interleave();
        ghost var at, ph := |run| - 1, sys.phase;
        var r := TryWrite(luck[attempt]);
        assert run[at].phase == ph;
        if r.Some? && r.value != GaveUp {
          return r.value;
        }
        ReadStays(earlier, run, |old(run)|);
        attempt := attempt + 1;
      }
    }

    /** One round after the read: decide, and write with whatever luck. */
    method TryWrite(luck: Luck) returns (r: Option<Ending>)
      requires Valid() && sys.phase.HasRead? && |luck.key| == 32
      modifies this
      ensures Valid() && Extends(old(run)) && sys.book.log == old(sys.book.log)
      ensures r == Some(Written) ==> IsWritten(env, sys, old(sys.phase.op), old(sys.phase.acct))
      ensures r != Some(Unreadable)
      ensures old(sys.phase.base) == old(sys.version) && luck.fate == Acknowledged ==>
                r.Some? && r.value != GaveUp && (!old(sys.phase.op.Begin?) ==> r.value == Written)
      ensures r.Some? ==> Justifies(env, old(sys.phase.data), old(sys.phase.op), old(sys.phase.acct), r.value)
      ensures var ph := old(sys.phase);
              && (r.None? ==> ph.attempt < 2) && (r == Some(GaveUp) ==> ph.attempt >= 2)
              && sys.phase == if r.None? then Working(ph.op, ph.acct, ph.attempt + 1)
                              else if r == Some(Written) && ph.op.Begin? then Armed(ph.acct) else Idle
    {
      LastKeepsInv(env, run, sys);
      hide ValidEnv, IsRun, Inv, Apply, IsKnown, IsWritten, RoundEnding, Justifies, ParseState;
      var key, fate := luck.key, luck.fate;
      if sys.phase.base != sys.version && (fate.Acknowledged? || fate.LandedButFailed?) {
        fate := Rejected; // a conflict
      }
      MayDecide(env, sys, key, fate);
      hide Enabled;
      AcknowledgedRoundEnds(env, sys, key);
      RoundComesTo(env, sys, key, fate, Apply(env, sys, Decide(key, fate)));
      r := RoundEnding(env, sys, key, fate);
      Step(Decide(key, fate));
    }

    /** What `login` does once its request is out: take the answer and record it. */
    method Record(a: Account, outcome: Outcome, luck: seq<Luck>) returns (recorded: bool)
      requires Valid() && sys.phase == Sent(a) && |sys.book.log| > 0 && IsLuck(luck)
      requires sys.book.log[|sys.book.log| - 1].acct == a
      modifies this
      ensures Valid() && Extends(old(run)) && sys.phase == Idle
      ensures sys.book.log == Answered(old(sys.book), outcome).log
      ensures outcome != Unknown && luck[0].readable && luck[0].fate == Acknowledged ==> recorded
      ensures recorded && (outcome == Success || outcome == NotSent) ==> !IsPending(env, sys.data, a)
      ensures recorded && outcome == Refused ==> !IsPending(env, sys.data, a) && IsRefused(env, sys.data, a)
      ensures outcome == Unknown ==> !recorded && IsPending(env, sys.data, a)
    {
      LastKeepsInv(env, run, sys);
      hide ValidEnv, IsRun, Apply, Enabled, ParseState, IsPending, IsRefused, NoLiveRequest, Inv;
      SentHasNoRival(env, sys);
      ghost var sent := sys;
      Interleave();
      AnswerLeads(env, sys, outcome);
      Step(Answer(outcome));
      RivalsStay(sent, sys);
      recorded := false;
      if sys.phase.Working? {
        var end := Update(sys.phase.op, a, luck);
        recorded := end == Written;
      } else {
        UnknownIsPending(env, run, a);
      }
    }

    /** `Client.login`: write the intention, log in, record the outcome. A login is
        sent only when the intention is known to be written, and never for an account
        with a refused or unresolved login that 64 later refusals have not pushed out. A
        success and a login that was not sent are cleared, a refusal is listed, as far as
        that could be written, and certainly if the first round of the record goes well; an
        unknown outcome leaves the account pending. */
    method Login(a: Account, first: seq<Luck>, outcome: Outcome, second: seq<Luck>)
      returns (begun: Ending, recorded: bool)
      requires Valid() && sys.phase == Idle && a in env.accounts && IsLuck(first) && IsLuck(second)
      modifies this
      ensures Valid() && Extends(old(run)) && sys.phase == Idle
      ensures |run| > |old(run)| && run[|old(run)|].phase == Working(Begin, a, 0)
      ensures begun == Written ==>
                exists j :: |old(run)| < j < |run| && run[j].phase == Sent(a) && IsPending(env, run[j].data, a)
      ensures begun == Written ==> |sys.book.log| == |old(sys.book.log)| + 1
      ensures begun == Written ==> sys.book.log[|old(sys.book.log)|] == GateProtocol.Login(a, outcome)
      ensures begun != Written ==> sys.book.log == old(sys.book.log) && !recorded
      ensures begun.CorruptState? || begun.Stopped? ==> ReadSays(env, run, |old(run)|, Begin, a, begun)
      ensures begun == Unreadable ==> exists i :: 0 <= i < 3 && !first[i].readable
      ensures begun == Written && outcome != Unknown && second[0].readable && second[0].fate == Acknowledged ==>
                recorded
      ensures recorded && (outcome == Success || outcome == NotSent) ==> !IsPending(env, sys.data, a)
      ensures recorded && outcome == Refused ==> !IsPending(env, sys.data, a) && IsRefused(env, sys.data, a)
      ensures begun == Written && outcome == Unknown ==> !recorded && IsPending(env, sys.data, a)
      ensures begun == Written ==>
                forall i ::
                  0 <= i < |old(sys.book.log)| && sys.book.log[i].acct == a && Bad(sys.book.log[i].outcome) ==>
                  |RefusedBetween(sys.book.log, i, |old(sys.book.log)|)| >= 64
    {
      hide ValidEnv, IsRun, Decided, ParseState, Justifies, IsPending, IsRefused;
      Step(Start(a));
      ghost var started := |run|;
      begun := Update(Begin, a, first);
      recorded := false;
      assert begun.CorruptState? || begun.Stopped? ==> ReadSays(env, run, |old(run)|, Begin, a, begun) by {
        if begun.CorruptState? || begun.Stopped? {
          var k :| started <= k < |run| && run[k].phase.HasRead? && Justifies(env, run[k].phase.data, Begin, a, begun);
        }
      }
      if begun != Written {
        return;
      }
      Step(Send);
      ghost var at := |run| - 1;
      NoLoginIsForgotten(env, run, at);
      recorded := Record(a, outcome, second);
      assert run[at].phase == Sent(a) && IsPending(env, run[at].data, a);
      forall i | 0 <= i < |old(sys.book.log)| && sys.book.log[i].acct == a && Bad(sys.book.log[i].outcome)
        ensures |RefusedBetween(sys.book.log, i, |old(sys.book.log)|)| >= 64
      {
        AtMostOneBadLogin(env, run, |run| - 1, i, |old(sys.book.log)|);
      }
    }
  }
}
