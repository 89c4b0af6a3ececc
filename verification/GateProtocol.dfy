/** The write-ahead login gate of `internal/cephmgr` as a protocol: a manager that
    may crash between any two of its steps, a Secret changed only by
    compare-and-swap Updates that may be acknowledged, land while answering an
    error, arrive late or not at all, and a dashboard that answers as it likes.
    One manager is active at a time and one login is in progress at a time. A run
    ends where an operator edits the Secret; the next one starts from whatever the
    edit left, valid or not. */
module GateProtocol {
  import opened Text
  import opened GateCodec

  const WRITE_ATTEMPTS := 3

  /** What a login came to, at the dashboard. `Unknown` is also the outcome of a
      login that nobody has answered yet. */
  datatype Outcome = Success | Refused | Unknown | NotSent

  datatype Login = Login(acct: Account, outcome: Outcome)

  /** The three changes of the gate; the last two record the outcome of a login. */
  datatype Op = Begin | Clear(login: nat) | Refuse(login: nat)

  /** An Update that was given up on and may still reach the API server. */
  datatype Request = Request(base: nat, op: Op, acct: Account, data: SecretData)

  datatype Phase =
    | Idle
    | Working(op: Op, acct: Account, attempt: nat)
    | HasRead(op: Op, acct: Account, attempt: nat, base: nat, data: SecretData)
    | Armed(acct: Account)  // the intention is written, the login not yet sent
    | Sent(acct: Account)

  /** Every login sent so far, those whose success was recorded, and those whose
      refusal was recorded, in the order of the records. */
  datatype Book = Book(log: seq<Login>, cleared: set<nat>, refusals: seq<nat>)

  datatype Sys = Sys(version: nat, data: SecretData, inflight: set<Request>, phase: Phase, book: Book)

  datatype Fate = Acknowledged | LandedButFailed | Late | Rejected

  datatype Event =
    | Start(acct: Account)
    | Read
    | ReadFails
    | Decide(newKey: string, fate: Fate)
    | LateArrival(request: Request)
    | Send
    | Answer(outcome: Outcome)
    | Crash(outcome: Outcome)  // outcome: what became of a login in progress

  /** The fixed surroundings of a run: the MAC, the accounts it may use and what
      `refused` held when it began. */
  datatype Env = Env(crypto: Crypto, accounts: set<Account>, seed: seq<string>)

  ghost predicate ValidEnv(env: Env) {
    && CollisionFree(env.crypto, env.accounts)
    && forall a :: a in env.accounts ==> Usable(a)
  }

  // ----- the changes of the gate -----

  datatype Reason = RefusedBefore | OutcomeUnknown | TooManyUnresolved

  datatype Change = Stop(why: Reason) | Go(st: State)

  /** `slices.DeleteFunc` with equality. */
  function Without(s: seq<string>, x: string): (r: seq<string>)
    ensures forall y :: y in r <==> y in s && y != x
    ensures |r| <= |s|
    ensures NoDup(s) ==> NoDup(r)
  {
    if |s| == 0 then []
    else if s[0] == x then Without(s[1..], x)
    else
      assert NoDup(s) ==> NoDup(s[1..]) && s[0] !in s[1..] by { assert s == [s[0]] + s[1..]; }
      [s[0]] + Without(s[1..], x)
  }

  predicate NoDup(s: seq<string>) {
    forall i, j :: 0 <= i < j < |s| ==> s[i] != s[j]
  }

  /** The `change` closures of Begin, Succeeded/NotSent and Refused. */
  function Changed(c: Crypto, op: Op, a: Account, st: State): Change {
    var mac := MacOf(c, st.key, a);
    match op
    case Begin =>
      if mac in st.refused then Stop(RefusedBefore)
      else if mac in st.pending then Stop(OutcomeUnknown)
      else if |st.pending| >= MAX_REFUSED then Stop(TooManyUnresolved)
      else Go(st.(pending := st.pending + [mac]))
    case Clear(_) => Go(st.(pending := Without(st.pending, mac)))
    case Refuse(_) =>
      Go(State(st.key, Without(st.pending, mac), if mac in st.refused then st.refused else st.refused + [mac]))
  }

  /** What `update` hands to the closure: the parsed state, or a new key over an
      empty Secret. */
  function BaseState(c: Crypto, data: SecretData, newKey: string): (r: Option<State>)
    ensures r.Some? && |newKey| == KEY_LENGTH ==> WellFormed(r.value)
  {
    match ParseState(c, data)
    case Corrupt => None
    case Empty => Some(State(newKey, [], []))
    case Good(st) => Some(st)
  }

  // ----- the steps -----

  /** The phase `update` leaves behind: Begin lets the login go only when the
      write is known to have succeeded. */
  function Finished(op: Op, a: Account, ok: bool): Phase {
    if op.Begin? && ok then Armed(a) else Idle
  }

  function Retried(op: Op, a: Account, attempt: nat): Phase {
    if attempt + 1 < WRITE_ATTEMPTS then Working(op, a, attempt + 1) else Finished(op, a, false)
  }

  function Recorded(book: Book, op: Op): Book {
    match op
    case Begin => book
    case Clear(l) => book.(cleared := book.cleared + {l})
    case Refuse(l) => if l in book.refusals then book else book.(refusals := book.refusals + [l])
  }

  function Landed(s: Sys, op: Op, data: SecretData): Sys {
    s.(version := s.version + 1, data := data, book := Recorded(s.book, op))
  }

  function Answered(book: Book, o: Outcome): Book
    requires |book.log| > 0
  {
    var l := |book.log| - 1;
    book.(log := book.log[l := book.log[l].(outcome := o)])
  }

  function Decided(env: Env, s: Sys, newKey: string, fate: Fate): Sys
    requires s.phase.HasRead?
  {
    var HasRead(op, a, n, base, data) := s.phase;
    var st := BaseState(env.crypto, data, newKey);
    if st.None? then s.(phase := Finished(op, a, false))
    else if ParseState(env.crypto, data).Empty? && op.Clear? then s.(phase := Finished(op, a, true))
    else
      match Changed(env.crypto, op, a, st.value)
      case Stop(_) => s.(phase := Finished(op, a, false))
      case Go(st') =>
        var out := Write(env.crypto, st');
        match fate
        case Acknowledged => Landed(s, op, out).(phase := Finished(op, a, true))
        case LandedButFailed => Landed(s, op, out).(phase := Retried(op, a, n))
        case Late => s.(inflight := s.inflight + {Request(base, op, a, out)}, phase := Retried(op, a, n))
        case Rejected => s.(phase := Retried(op, a, n))
  }

  ghost predicate Enabled(env: Env, s: Sys, e: Event) {
    match e
    case Start(a) => s.phase.Idle? && a in env.accounts
    case Read | ReadFails => s.phase.Working?
    case Decide(k, fate) =>
      // an Update lands only if nobody wrote since the read it is based on
      s.phase.HasRead? && |k| == KEY_LENGTH &&
      (fate.Acknowledged? || fate.LandedButFailed? ==> s.phase.base == s.version)
    case LateArrival(r) => r in s.inflight && r.base == s.version
    case Send => s.phase.Armed?
    case Answer(_) => s.phase.Sent? && |s.book.log| > 0
    case Crash(_) => s.phase.Sent? ==> |s.book.log| > 0
  }

  function Apply(env: Env, s: Sys, e: Event): Sys
    requires Enabled(env, s, e)
  {
    match e
    case Start(a) => s.(phase := Working(Begin, a, 0))
    case Read => s.(phase := HasRead(s.phase.op, s.phase.acct, s.phase.attempt, s.version, s.data))
    case ReadFails => s.(phase := Finished(s.phase.op, s.phase.acct, false))
    case Decide(k, fate) => Decided(env, s, k, fate)
    case LateArrival(r) => Landed(s, r.op, r.data).(inflight := s.inflight - {r})
    case Send => s.(phase := Sent(s.phase.acct), book := s.book.(log := s.book.log + [Login(s.phase.acct, Unknown)]))
    case Answer(o) =>
      var l := |s.book.log| - 1;
      s.(book := Answered(s.book, o),
         phase := match o
                  case Success | NotSent => Working(Clear(l), s.phase.acct, 0)
                  case Refused => Working(Refuse(l), s.phase.acct, 0)
                  case Unknown => Idle)
    case Crash(o) =>
      s.(phase := Idle, book := if s.phase.Sent? then Answered(s.book, o) else s.book)
  }

  // ----- the invariant -----

  /** Lists as the gate keeps them. */
  ghost predicate Tidy(st: State) {
    && WellFormed(st)
    && NoDup(st.pending) && NoDup(st.refused)
    && (forall m :: m in st.pending ==> m !in st.refused)
    && |st.pending| <= MAX_REFUSED && |st.refused| <= MAX_REFUSED
  }

  ghost predicate IsRecorded(book: Book, i: nat) {
    i in book.cleared || i in book.refusals
  }

  predicate Bad(o: Outcome) {
    o == Refused || o == Unknown
  }

  predicate Increasing(s: seq<nat>, bound: nat) {
    && (forall i, j :: 0 <= i < j < |s| ==> s[i] < s[j])
    && (forall i :: 0 <= i < |s| ==> s[i] < bound)
  }

  function MacAt(c: Crypto, key: string, log: seq<Login>, i: nat): string {
    if i < |log| then MacOf(c, key, log[i].acct) else ""
  }

  /** The MACs of the recorded refusals, oldest first. */
  function RefusalMacs(c: Crypto, key: string, book: Book): (r: seq<string>)
    ensures |r| == |book.refusals|
  {
    seq(|book.refusals|, i requires 0 <= i < |book.refusals| => MacAt(c, key, book.log, book.refusals[i]))
  }

  /** The refusal of login i was recorded, and 64 more were before login j. */
  ghost predicate PushedOut(book: Book, i: nat, j: nat) {
    exists p: nat :: p + MAX_REFUSED < |book.refusals| && book.refusals[p] == i && book.refusals[p + MAX_REFUSED] < j
  }

  ghost predicate BookOk(env: Env, book: Book) {
    && (forall i :: 0 <= i < |book.log| ==> book.log[i].acct in env.accounts)
    && Increasing(book.refusals, |book.log|)
    && (forall i :: i in book.refusals ==> book.log[i].outcome == Refused)
    && (forall i :: i in book.cleared ==> i < |book.log| && !Bad(book.log[i].outcome))
    && (forall i, j :: 0 <= i < j < |book.log| && book.log[i].acct == book.log[j].acct ==> IsRecorded(book, i))
    && (forall i, j :: 0 <= i < j < |book.log| && book.log[i].acct == book.log[j].acct && Bad(book.log[i].outcome)
          ==> PushedOut(book, i, j))
  }

  /** The newest of all, at least 64 of them if there are as many. */
  ghost predicate IsTail(kept: seq<string>, all: seq<string>) {
    && |kept| <= |all| && kept == all[|all| - |kept|..]
    && (|kept| == |all| || |kept| >= MAX_REFUSED)
  }

  /** What the durable Secret and the book say about each other. */
  ghost predicate SecretOk(env: Env, st: State, book: Book) {
    && WellFormed(st)
    && IsTail(st.refused, env.seed + RefusalMacs(env.crypto, st.key, book))
    && (forall i :: 0 <= i < |book.log| && !IsRecorded(book, i) ==>
          MacAt(env.crypto, st.key, book.log, i) in st.pending && MacAt(env.crypto, st.key, book.log, i) !in st.refused)
  }

  ghost predicate Core(env: Env, data: SecretData, book: Book) {
    && BookOk(env, book)
    && match ParseState(env.crypto, data)
       case Corrupt | Empty => book == Book([], {}, []) && env.seed == []
       case Good(st) => SecretOk(env, st, book)
  }

  /** An operation under way is about the last login, and tells the truth. */
  ghost predicate OpOk(env: Env, book: Book, op: Op, a: Account) {
    && a in env.accounts
    && (op.Begin? ||
        (op.login + 1 == |book.log| && book.log[op.login].acct == a &&
         book.log[op.login].outcome in (if op.Clear? then {Success, NotSent} else {Refused})))
  }

  ghost predicate IsPending(env: Env, data: SecretData, a: Account) {
    var p := ParseState(env.crypto, data);
    p.Good? && MacOf(env.crypto, p.st.key, a) in p.st.pending
  }

  ghost predicate IsRefused(env: Env, data: SecretData, a: Account) {
    var p := ParseState(env.crypto, data);
    p.Good? && MacOf(env.crypto, p.st.key, a) in p.st.refused
  }

  ghost predicate NoLiveRequest(s: Sys) {
    forall r :: r in s.inflight ==> r.base < s.version
  }

  ghost predicate PhaseOk(env: Env, s: Sys) {
    match s.phase
    case Idle => true
    case Working(op, a, n) => OpOk(env, s.book, op, a)
    case HasRead(op, a, n, base, data) =>
      && OpOk(env, s.book, op, a) && base <= s.version && (base == s.version ==> data == s.data)
      && (!op.Begin? ==> ParseState(env.crypto, data).Good?)
    case Armed(a) =>
      && a in env.accounts && IsPending(env, s.data, a) && !IsRefused(env, s.data, a) && NoLiveRequest(s)
      && forall i :: 0 <= i < |s.book.log| && s.book.log[i].acct == a ==> IsRecorded(s.book, i)
    case Sent(a) =>
      && a in env.accounts && IsPending(env, s.data, a) && NoLiveRequest(s)
      && |s.book.log| > 0 && s.book.log[|s.book.log| - 1].acct == a && !IsRecorded(s.book, |s.book.log| - 1)
  }

  /** A write that may land now says what the gate would write now. */
  ghost predicate IsOutput(env: Env, s: Sys, op: Op, a: Account, out: SecretData) {
    exists k: string :: |k| == KEY_LENGTH && IsOutputWith(env, s.data, op, a, k, out)
  }

  ghost predicate IsOutputWith(env: Env, data: SecretData, op: Op, a: Account, k: string, out: SecretData) {
    var st := BaseState(env.crypto, data, k);
    st.Some? && Changed(env.crypto, op, a, st.value).Go? &&
    out == Write(env.crypto, Changed(env.crypto, op, a, st.value).st)
  }

  ghost predicate RequestOk(env: Env, s: Sys, r: Request) {
    && r.base <= s.version
    && (r.base == s.version ==> OpOk(env, s.book, r.op, r.acct) && IsOutput(env, s, r.op, r.acct, r.data))
  }

  ghost predicate Inv(env: Env, s: Sys) {
    && Core(env, s.data, s.book)
    && PhaseOk(env, s)
    && forall r :: r in s.inflight ==> RequestOk(env, s, r)
  }

  /** A run begins with any Secret at all. */
  ghost predicate Init(env: Env, s: Sys) {
    && s.inflight == {} && s.phase.Idle? && s.book == Book([], {}, [])
    && match ParseState(env.crypto, s.data)
       case Corrupt | Empty => env.seed == []
       case Good(st) => env.seed == st.refused
  }

  // ----- what each landing keeps -----

  /** The state read back after a write, given the state written. */
  function ReadBack(st: State): State {
    st.(refused := Bounded(st.refused))
  }

  lemma WriteReadsBack(env: Env, st: State)
    requires WellFormed(st)
    ensures ParseState(env.crypto, Write(env.crypto, st)) == Good(ReadBack(st))
    ensures Write(env.crypto, st) == Write(env.crypto, ReadBack(st))
  {
    StateRoundTrip(env.crypto, st);
  }

  /** The base of a change, whether read or made on an empty Secret. */
  lemma BaseIsOk(env: Env, data: SecretData, book: Book, k: string)
    requires ValidEnv(env) && Core(env, data, book) && |k| == KEY_LENGTH && BaseState(env.crypto, data, k).Some?
    ensures SecretOk(env, BaseState(env.crypto, data, k).value, book)
  {
  }

  lemma AccountsHaveMacs(env: Env, key: string, a: Account)
    requires ValidEnv(env) && a in env.accounts
    ensures IsMac(MacOf(env.crypto, key, a))
  {
  }

  lemma BeginKeepsTidy(c: Crypto, st: State, a: Account)
    requires Tidy(st) && IsMac(MacOf(c, st.key, a)) && Changed(c, Begin, a, st).Go?
    ensures Tidy(ReadBack(Changed(c, Begin, a, st).st))
  {
    assert Bounded(st.refused) == st.refused;
  }

  lemma ClearKeepsTidy(c: Crypto, st: State, a: Account, l: nat)
    requires Tidy(st)
    ensures Tidy(ReadBack(Changed(c, Clear(l), a, st).st))
  {
    assert Bounded(st.refused) == st.refused;
  }

  /** Cutting a tail to 64 leaves a tail. */
  lemma BoundedIsTail(kept: seq<string>, all: seq<string>)
    requires IsTail(kept, all)
    ensures IsTail(Bounded(kept), all)
    ensures forall m :: m in Bounded(kept) ==> m in kept
  {
    var r := Bounded(kept);
    assert r == kept[|kept| - |r|..];
    assert r == all[|all| - |r|..];
  }

  lemma TailGrows(kept: seq<string>, all: seq<string>, x: string)
    requires IsTail(kept, all)
    ensures IsTail(kept + [x], all + [x])
  {
    assert (all + [x])[|all| - |kept|..] == all[|all| - |kept|..] + [x];
  }

  /** The newest 64 are in every tail. */
  lemma NewestAreKept(kept: seq<string>, all: seq<string>, i: nat)
    requires i < |all| && IsTail(kept, all)
    ensures |all| <= i + MAX_REFUSED ==> all[i] in kept
  {
    assert |all| <= i + |kept| ==> all[i] == kept[i - (|all| - |kept|)];
  }

  lemma BeginKeepsSecret(env: Env, st: State, book: Book, a: Account)
    requires ValidEnv(env) && a in env.accounts && SecretOk(env, st, book)
    requires Changed(env.crypto, Begin, a, st).Go?
    ensures SecretOk(env, ReadBack(Changed(env.crypto, Begin, a, st).st), book)
    ensures forall i :: 0 <= i < |book.log| && book.log[i].acct == a ==> IsRecorded(book, i)
    ensures MacOf(env.crypto, st.key, a) !in ReadBack(Changed(env.crypto, Begin, a, st).st).refused
  {
    hide CollisionFree, Bounded, RefusalMacs, IsTail;
    AccountsHaveMacs(env, st.key, a);
    BoundedIsTail(st.refused, env.seed + RefusalMacs(env.crypto, st.key, book));
    forall i | 0 <= i < |book.log| && book.log[i].acct == a
      ensures IsRecorded(book, i)
    {
      assert MacAt(env.crypto, st.key, book.log, i) !in st.pending;
    }
  }

  lemma OtherAccountsStay(env: Env, st: State, book: Book, a: Account, l: nat)
    requires ValidEnv(env) && BookOk(env, book) && SecretOk(env, st, book)
    requires l + 1 == |book.log| && book.log[l].acct == a
    ensures forall i :: 0 <= i < l && !IsRecorded(book, i) ==>
              MacAt(env.crypto, st.key, book.log, i) in Without(st.pending, MacOf(env.crypto, st.key, a)) &&
              MacAt(env.crypto, st.key, book.log, i) != MacOf(env.crypto, st.key, a)
  {
    forall i | 0 <= i < l && !IsRecorded(book, i)
      ensures MacAt(env.crypto, st.key, book.log, i) in Without(st.pending, MacOf(env.crypto, st.key, a))
      ensures MacAt(env.crypto, st.key, book.log, i) != MacOf(env.crypto, st.key, a)
    {
      MacIdentifiesAccount(env.crypto, env.accounts, st.key, book.log[i].acct, a);
    }
  }

  lemma ClearKeepsBook(env: Env, book: Book, a: Account, l: nat)
    requires OpOk(env, book, Clear(l), a) && BookOk(env, book)
    ensures BookOk(env, Recorded(book, Clear(l)))
  {
    var book' := Recorded(book, Clear(l));
    assert forall i, j :: PushedOut(book, i, j) ==> PushedOut(book', i, j);
    assert forall i :: IsRecorded(book, i) ==> IsRecorded(book', i);
  }

  lemma ClearKeepsSecret(env: Env, st: State, book: Book, a: Account, l: nat)
    requires ValidEnv(env) && OpOk(env, book, Clear(l), a) && BookOk(env, book) && SecretOk(env, st, book)
    ensures SecretOk(env, ReadBack(Changed(env.crypto, Clear(l), a, st).st), Recorded(book, Clear(l)))
  {
    hide CollisionFree, BookOk, MacAt, IsTail, Bounded;
    BoundedIsTail(st.refused, env.seed + RefusalMacs(env.crypto, st.key, book));
    OtherAccountsStay(env, st, book, a, l);
    assert RefusalMacs(env.crypto, st.key, Recorded(book, Clear(l))) == RefusalMacs(env.crypto, st.key, book);
  }

  /** A recorded refusal of the last login is the newest entry of `refused`. */
  lemma LastRefusalIsListed(env: Env, st: State, book: Book, l: nat)
    requires Increasing(book.refusals, |book.log|) && l + 1 == |book.log| && l in book.refusals
    requires IsTail(st.refused, env.seed + RefusalMacs(env.crypto, st.key, book))
    ensures MacAt(env.crypto, st.key, book.log, l) in st.refused
  {
    hide IsTail;
    var p :| 0 <= p < |book.refusals| && book.refusals[p] == l;
    assert l <= book.refusals[|book.refusals| - 1] < |book.log|;
    NewestAreKept(st.refused, env.seed + RefusalMacs(env.crypto, st.key, book), |env.seed| + p);
  }

  lemma RefusalExtendsBook(env: Env, book: Book, a: Account, l: nat)
    requires OpOk(env, book, Refuse(l), a) && BookOk(env, book) && l !in book.refusals
    ensures BookOk(env, Recorded(book, Refuse(l)))
  {
    var book' := Recorded(book, Refuse(l));
    forall i, j | PushedOut(book, i, j)
      ensures PushedOut(book', i, j)
    {
      var p: nat :| p + MAX_REFUSED < |book.refusals| && book.refusals[p] == i && book.refusals[p + MAX_REFUSED] < j;
      assert book'.refusals[p] == i && book'.refusals[p + MAX_REFUSED] < j;
    }
    assert forall i :: IsRecorded(book, i) ==> IsRecorded(book', i);
  }

  lemma RefusalExtendsList(env: Env, st: State, book: Book, a: Account, l: nat)
    requires ValidEnv(env) && OpOk(env, book, Refuse(l), a) && BookOk(env, book) && SecretOk(env, st, book)
    requires l !in book.refusals
    ensures MacOf(env.crypto, st.key, a) !in st.refused
    ensures IsTail(st.refused + [MacOf(env.crypto, st.key, a)],
                   env.seed + RefusalMacs(env.crypto, st.key, Recorded(book, Refuse(l))))
  {
    hide IsTail;
    var mac, book' := MacOf(env.crypto, st.key, a), Recorded(book, Refuse(l));
    var before := env.seed + RefusalMacs(env.crypto, st.key, book);
    assert l !in book.cleared;
    assert mac == MacAt(env.crypto, st.key, book.log, l);
    assert RefusalMacs(env.crypto, st.key, book') == RefusalMacs(env.crypto, st.key, book) + [mac];
    assert env.seed + RefusalMacs(env.crypto, st.key, book') == before + [mac];
    TailGrows(st.refused, before, mac);
  }

  lemma BoundedIsPart(s: seq<string>)
    requires NoDup(s)
    ensures NoDup(Bounded(s)) && forall m :: m in Bounded(s) ==> m in s
  {
    var r := Bounded(s);
    assert forall i :: 0 <= i < |r| ==> r[i] == s[i + (|s| - |r|)];
  }

  lemma AppendKeepsNoDup(s: seq<string>, x: string)
    requires NoDup(s) && x !in s
    ensures NoDup(s + [x])
  {
  }

  /** The lists after a refusal, from lists as the gate keeps them. */
  lemma RefusedListsAreTidy(key: string, pending: seq<string>, refused: seq<string>, mac: string, all: seq<string>)
    requires Tidy(State(key, pending, refused)) && IsMac(mac) && NoDup(all)
    requires forall m :: m in all ==> m in refused || m == mac
    ensures Tidy(State(key, Without(pending, mac), Bounded(all)))
  {
    hide NoDup, IsMac, Without;
    BoundedIsPart(all);
    hide Bounded;
    var st' := State(key, Without(pending, mac), Bounded(all));
    assert forall m :: m in st'.refused ==> m in refused || m == mac;
    assert forall m :: m in st'.pending ==> m in pending && m != mac;
  }

  lemma RefuseKeepsTidy(c: Crypto, st: State, a: Account, l: nat)
    requires Tidy(st) && IsMac(MacOf(c, st.key, a))
    ensures Tidy(ReadBack(Changed(c, Refuse(l), a, st).st))
  {
    var mac := MacOf(c, st.key, a);
    hide NoDup, IsMac, MacOf, Without, Bounded, WellFormed;
    if mac in st.refused {
      RefusedListsAreTidy(st.key, st.pending, st.refused, mac, st.refused);
    } else {
      AppendKeepsNoDup(st.refused, mac);
      RefusedListsAreTidy(st.key, st.pending, st.refused, mac, st.refused + [mac]);
    }
  }

  lemma RefusedAfterRefuse(env: Env, st: State, book: Book, a: Account, l: nat)
    requires ValidEnv(env) && OpOk(env, book, Refuse(l), a) && BookOk(env, book) && SecretOk(env, st, book)
    ensures var st' := Changed(env.crypto, Refuse(l), a, st).st;
            && IsTail(st'.refused, env.seed + RefusalMacs(env.crypto, st.key, Recorded(book, Refuse(l))))
            && forall m :: m in st'.refused ==> m in st.refused || m == MacOf(env.crypto, st.key, a)
  {
    hide IsTail;
    if l in book.refusals {
      LastRefusalIsListed(env, st, book, l);
    } else {
      RefusalExtendsList(env, st, book, a, l);
    }
  }

  lemma RefuseKeepsSecret(env: Env, st: State, book: Book, a: Account, l: nat)
    requires ValidEnv(env) && OpOk(env, book, Refuse(l), a) && BookOk(env, book) && SecretOk(env, st, book)
    ensures SecretOk(env, ReadBack(Changed(env.crypto, Refuse(l), a, st).st), Recorded(book, Refuse(l)))
  {
    hide CollisionFree, BookOk, MacAt, RefusalMacs, Bounded, IsTail;
    AccountsHaveMacs(env, st.key, a);
    OtherAccountsStay(env, st, book, a, l);
    RefusedAfterRefuse(env, st, book, a, l);
    BoundedIsTail(Changed(env.crypto, Refuse(l), a, st).st.refused,
                  env.seed + RefusalMacs(env.crypto, st.key, Recorded(book, Refuse(l))));
  }

  lemma ChangedIsWellFormed(env: Env, st: State, op: Op, a: Account)
    requires ValidEnv(env) && a in env.accounts && WellFormed(st) && Changed(env.crypto, op, a, st).Go?
    ensures WellFormed(Changed(env.crypto, op, a, st).st)
  {
    assert IsMac(MacOf(env.crypto, st.key, a));
  }

  lemma ChangeKeepsSecret(env: Env, st: State, book: Book, op: Op, a: Account)
    requires ValidEnv(env) && OpOk(env, book, op, a) && BookOk(env, book) && SecretOk(env, st, book)
    requires Changed(env.crypto, op, a, st).Go?
    ensures SecretOk(env, ReadBack(Changed(env.crypto, op, a, st).st), Recorded(book, op))
    ensures BookOk(env, Recorded(book, op))
  {
    match op
    case Begin => BeginKeepsSecret(env, st, book, a);
    case Clear(l) =>
      ClearKeepsBook(env, book, a, l);
      ClearKeepsSecret(env, st, book, a, l);
    case Refuse(l) =>
      if l !in book.refusals {
        RefusalExtendsBook(env, book, a, l);
      }
      RefuseKeepsSecret(env, st, book, a, l);
  }

  /** A write of the gate, landing on the version it was made for, keeps what the
      Secret and the book say about each other; a landed intention is pending. */
  lemma LandingKeepsCore(env: Env, data: SecretData, book: Book, op: Op, a: Account, k: string, out: SecretData)
    requires ValidEnv(env) && Core(env, data, book) && OpOk(env, book, op, a)
    requires |k| == KEY_LENGTH && IsOutputWith(env, data, op, a, k, out)
    ensures Core(env, out, Recorded(book, op))
    ensures op.Begin? ==> IsPending(env, out, a) && !IsRefused(env, out, a)
    ensures op.Begin? ==> forall i :: 0 <= i < |book.log| && book.log[i].acct == a ==> IsRecorded(book, i)
    ensures KeyKept(env, data, out)
  {
    hide BookOk, CollisionFree, SecretOk, WellFormed, ParseState, Write, Recorded;
    BaseIsOk(env, data, book, k);
    var st := BaseState(env.crypto, data, k).value;
    var st' := Changed(env.crypto, op, a, st).st;
    ChangedIsWellFormed(env, st, op, a);
    WriteReadsBack(env, st');
    ChangeKeepsSecret(env, st, book, op, a);
    if op.Begin? {
      BeginKeepsSecret(env, st, book, a);
    }
  }

  /** A key, once in the Secret, stays. */
  ghost predicate KeyKept(env: Env, data: SecretData, data': SecretData) {
    var p, p' := ParseState(env.crypto, data), ParseState(env.crypto, data');
    p.Good? ==> p'.Good? && p'.st.key == p.st.key
  }

  ghost predicate RefusedIsFull(env: Env, data: SecretData) {
    var p := ParseState(env.crypto, data);
    p.Good? && |p.st.refused| >= MAX_REFUSED
  }

  ghost predicate RefusedIsTooLong(env: Env, data: SecretData) {
    var p := ParseState(env.crypto, data);
    p.Good? && |p.st.refused| > MAX_REFUSED
  }

  lemma ChangeEffect(env: Env, st: State, op: Op, a: Account, b: Account)
    requires ValidEnv(env) && a in env.accounts && b in env.accounts
    requires Changed(env.crypto, op, a, st).Go?
    ensures var st', mac := ReadBack(Changed(env.crypto, op, a, st).st), MacOf(env.crypto, st.key, b);
            && st'.key == st.key
            && (mac in st'.pending <==> if a == b then op.Begin? else mac in st.pending)
            && (a == b && op.Refuse? && |st.refused| <= MAX_REFUSED ==> mac in st'.refused)
            && (!op.Refuse? ==> st'.refused == Bounded(st.refused))
            && (!(a == b && op.Refuse?) && mac in st'.refused ==> mac in st.refused)
            && (a != b && mac in st.refused && |st.refused| < MAX_REFUSED ==> mac in st'.refused)
  {
    hide CollisionFree, Changed, ReadBack;
    MacIdentifiesAccount(env.crypto, env.accounts, st.key, a, b);
    EffectOnMac(env.crypto, st, op, a, MacOf(env.crypto, st.key, b));
  }

  lemma EffectOnMac(c: Crypto, st: State, op: Op, a: Account, m: string)
    requires Changed(c, op, a, st).Go?
    ensures var st', own := ReadBack(Changed(c, op, a, st).st), m == MacOf(c, st.key, a);
            && st'.key == st.key
            && (m in st'.pending <==> if own then op.Begin? else m in st.pending)
            && (own && op.Refuse? && |st.refused| <= MAX_REFUSED ==> m in st'.refused)
            && (!op.Refuse? ==> st'.refused == Bounded(st.refused))
            && (!(own && op.Refuse?) && m in st'.refused ==> m in st.refused)
            && (!own && m in st.refused && |st.refused| < MAX_REFUSED ==> m in st'.refused)
  {
    hide Changed, Bounded, MacOf;
    EffectOnPending(c, st, op, a, m);
    EffectOnRefused(c, st, op, a, m);
  }

  lemma EffectOnPending(c: Crypto, st: State, op: Op, a: Account, m: string)
    requires Changed(c, op, a, st).Go?
    ensures var st' := Changed(c, op, a, st).st;
            && st'.key == st.key
            && (m in st'.pending <==> if m == MacOf(c, st.key, a) then op.Begin? else m in st.pending)
  {
    hide MacOf, Without, NoDup;
  }

  lemma EffectOnRefused(c: Crypto, st: State, op: Op, a: Account, m: string)
    requires Changed(c, op, a, st).Go?
    ensures var refused, own := Bounded(Changed(c, op, a, st).st.refused), m == MacOf(c, st.key, a);
            && (own && op.Refuse? && |st.refused| <= MAX_REFUSED ==> m in refused)
            && (!op.Refuse? ==> refused == Bounded(st.refused))
            && (!(own && op.Refuse?) && m in refused ==> m in st.refused)
            && (!own && m in st.refused && |st.refused| < MAX_REFUSED ==> m in refused)
  {
    hide Changed, Bounded, MacOf;
    RefusedByChange(c, st, op, a);
    CutEffect(st.refused, MacOf(c, st.key, a), m);
  }

  /** Only a refusal touches `refused`, and adds at most its own MAC. */
  lemma RefusedByChange(c: Crypto, st: State, op: Op, a: Account)
    requires Changed(c, op, a, st).Go?
    ensures var mac := MacOf(c, st.key, a);
            Changed(c, op, a, st).st.refused ==
            if op.Refuse? && mac !in st.refused then st.refused + [mac] else st.refused
  {
    hide MacOf, Without, NoDup;
  }

  /** What cutting to 64 does to an entry, with and without one more at the end. */
  lemma CutEffect(list: seq<string>, x: string, m: string)
    ensures m in Bounded(list) ==> m in list
    ensures m in Bounded(list + [x]) ==> m in list || m == x
    ensures m in list && |list| <= MAX_REFUSED ==> m in Bounded(list)
    ensures m in list && |list| < MAX_REFUSED ==> m in Bounded(list + [x])
    ensures x in Bounded(list + [x])
  {
    var r := Bounded(list + [x]);
    assert r[|r| - 1] == x;
  }

  /** The lists a change starts from are those of the Secret. */
  lemma BaseListsAccounts(env: Env, data: SecretData, k: string, b: Account)
    requires BaseState(env.crypto, data, k).Some?
    ensures var st := BaseState(env.crypto, data, k).value;
            && (IsPending(env, data, b) <==> MacOf(env.crypto, st.key, b) in st.pending)
            && (IsRefused(env, data, b) <==> MacOf(env.crypto, st.key, b) in st.refused)
            && (RefusedIsFull(env, data) <==> |st.refused| >= MAX_REFUSED)
            && (RefusedIsTooLong(env, data) <==> |st.refused| > MAX_REFUSED)
            && (!RefusedIsTooLong(env, data) ==> Bounded(st.refused) == st.refused)
  {
    hide ParseState, MacOf;
  }

  /** What a landed record means to the next login: an intention blocks its account
      and no other; a recorded success or an unsent login frees it; a recorded
      refusal frees it from `pending` and puts it in `refused`, where every account
      stays at least until the list is full. */
  lemma RecordMeans(env: Env, data: SecretData, op: Op, a: Account, k: string, out: SecretData, b: Account)
    requires ValidEnv(env) && a in env.accounts && b in env.accounts
    requires |k| == KEY_LENGTH && IsOutputWith(env, data, op, a, k, out)
    ensures IsPending(env, out, b) <==> if a == b then op.Begin? else IsPending(env, data, b)
    ensures a == b && op.Refuse? && !RefusedIsTooLong(env, data) ==> IsRefused(env, out, b)
    ensures !op.Refuse? && !RefusedIsTooLong(env, data) ==> (IsRefused(env, out, b) <==> IsRefused(env, data, b))
    ensures !(a == b && op.Refuse?) && IsRefused(env, out, b) ==> IsRefused(env, data, b)
    ensures a != b && IsRefused(env, data, b) && !RefusedIsFull(env, data) ==> IsRefused(env, out, b)
  {
    hide CollisionFree, ParseState, Write, Changed, MacOf, IsMac, Usable, ReadBack;
    var st := BaseState(env.crypto, data, k).value;
    ChangedIsWellFormed(env, st, op, a);
    WriteReadsBack(env, Changed(env.crypto, op, a, st).st);
    BaseListsAccounts(env, data, k, b);
    ChangeEffect(env, st, op, a, b);
    hide WellFormed, BaseState;
  }

  /** Read back exactly as written, and lists as the gate keeps them. */
  ghost predicate IsNeat(env: Env, data: SecretData) {
    var p := ParseState(env.crypto, data);
    p.Good? ==> Tidy(p.st) && Write(env.crypto, p.st) == data
  }

  lemma ChangeKeepsTidy(c: Crypto, st: State, op: Op, a: Account)
    requires Tidy(st) && IsMac(MacOf(c, st.key, a)) && Changed(c, op, a, st).Go?
    ensures Tidy(ReadBack(Changed(c, op, a, st).st))
  {
    match op
    case Begin => BeginKeepsTidy(c, st, a);
    case Clear(l) => ClearKeepsTidy(c, st, a, l);
    case Refuse(l) => RefuseKeepsTidy(c, st, a, l);
  }

  lemma NewStateIsTidy(k: string)
    requires |k| == KEY_LENGTH
    ensures Tidy(State(k, [], []))
  {
  }

  /** Whatever the gate writes is read back exactly as written, and is tidy if what it read
      was. */
  lemma LandingIsNeat(env: Env, data: SecretData, op: Op, a: Account, k: string, out: SecretData)
    requires ValidEnv(env) && a in env.accounts && |k| == KEY_LENGTH && IsOutputWith(env, data, op, a, k, out)
    ensures ParseState(env.crypto, out).Good? && Write(env.crypto, ParseState(env.crypto, out).st) == out
    ensures IsNeat(env, data) ==> IsNeat(env, out)
    ensures KeyKept(env, data, out)
  {
    hide CollisionFree, ParseState, Write, Tidy, WellFormed;
    var st := BaseState(env.crypto, data, k).value;
    var st' := Changed(env.crypto, op, a, st).st;
    ChangedIsWellFormed(env, st, op, a);
    WriteReadsBack(env, st');
    AccountsHaveMacs(env, st.key, a);
    NewStateIsTidy(k);
    if Tidy(st) { ChangeKeepsTidy(env.crypto, st, op, a); }
  }

  // ----- what the other steps keep -----

  /** The heart of the matter: when an account may log in, every earlier login of
      it that was refused or stayed unknown has been pushed out by 64 refusals. */
  lemma ArmedMeansPushedOut(env: Env, st: State, book: Book, a: Account, i: nat)
    requires BookOk(env, book) && SecretOk(env, st, book) && MacOf(env.crypto, st.key, a) !in st.refused
    requires i < |book.log| && book.log[i].acct == a && Bad(book.log[i].outcome) && IsRecorded(book, i)
    ensures PushedOut(book, i, |book.log|)
  {
    hide IsTail;
    var p :| 0 <= p < |book.refusals| && book.refusals[p] == i;
    var macs := RefusalMacs(env.crypto, st.key, book);
    var all := env.seed + macs;
    assert all[|env.seed| + p] == MacOf(env.crypto, st.key, a);
    NewestAreKept(st.refused, all, |env.seed| + p);
    assert book.refusals[p + MAX_REFUSED] < |book.log|;
  }

  lemma SendKeepsBook(env: Env, st: State, book: Book, a: Account)
    requires BookOk(env, book) && SecretOk(env, st, book) && a in env.accounts
    requires MacOf(env.crypto, st.key, a) !in st.refused
    requires forall i :: 0 <= i < |book.log| && book.log[i].acct == a ==> IsRecorded(book, i)
    ensures BookOk(env, book.(log := book.log + [Login(a, Unknown)]))
  {
    hide SecretOk, MacOf;
    var book' := book.(log := book.log + [Login(a, Unknown)]);
    forall i, j | 0 <= i < j < |book'.log| && book'.log[i].acct == book'.log[j].acct && Bad(book'.log[i].outcome)
      ensures PushedOut(book', i, j)
    {
      if j == |book.log| {
        ArmedMeansPushedOut(env, st, book, a, i);
      }
      assert PushedOut(book, i, j);
    }
    assert forall i :: IsRecorded(book, i) ==> IsRecorded(book', i);
  }

  lemma SendKeepsSecret(env: Env, st: State, book: Book, a: Account)
    requires SecretOk(env, st, book) && Increasing(book.refusals, |book.log|)
    requires MacOf(env.crypto, st.key, a) in st.pending && MacOf(env.crypto, st.key, a) !in st.refused
    ensures SecretOk(env, st, book.(log := book.log + [Login(a, Unknown)]))
  {
    var book' := book.(log := book.log + [Login(a, Unknown)]);
    assert RefusalMacs(env.crypto, st.key, book') == RefusalMacs(env.crypto, st.key, book);
    assert forall i :: 0 <= i < |book.log| ==>
      MacAt(env.crypto, st.key, book'.log, i) == MacAt(env.crypto, st.key, book.log, i) &&
          (IsRecorded(book', i) <==> IsRecorded(book, i));
  }

  lemma AnswerKeepsBook(env: Env, book: Book, o: Outcome)
    requires BookOk(env, book) && |book.log| > 0 && !IsRecorded(book, |book.log| - 1)
    ensures BookOk(env, Answered(book, o))
  {
    var book' := Answered(book, o);
    assert forall i :: IsRecorded(book, i) <==> IsRecorded(book', i);
    assert forall i, j :: PushedOut(book, i, j) <==> PushedOut(book', i, j);
  }

  lemma AnswerKeepsSecret(env: Env, st: State, book: Book, o: Outcome)
    requires SecretOk(env, st, book) && |book.log| > 0
    ensures SecretOk(env, st, Answered(book, o))
  {
    var book' := Answered(book, o);
    assert forall i: nat :: MacAt(env.crypto, st.key, book'.log, i) == MacAt(env.crypto, st.key, book.log, i);
    assert RefusalMacs(env.crypto, st.key, book') == RefusalMacs(env.crypto, st.key, book);
    assert forall i :: IsRecorded(book, i) <==> IsRecorded(book', i);
  }

  lemma AnswerKeepsCore(env: Env, data: SecretData, book: Book, o: Outcome)
    requires Core(env, data, book) && |book.log| > 0 && !IsRecorded(book, |book.log| - 1)
    ensures Core(env, data, Answered(book, o))
  {
    AnswerKeepsBook(env, book, o);
    AnswerKeepsSecret(env, ParseState(env.crypto, data).st, book, o);
  }

  lemma LogIsAhead(env: Env, book: Book)
    requires BookOk(env, book)
    ensures Increasing(book.refusals, |book.log|) && !IsRecorded(book, |book.log|)
  {
  }

  lemma SendKeepsCore(env: Env, data: SecretData, book: Book, a: Account)
    requires Core(env, data, book) && IsPending(env, data, a) && !IsRefused(env, data, a) && a in env.accounts
    requires forall i :: 0 <= i < |book.log| && book.log[i].acct == a ==> IsRecorded(book, i)
    ensures Core(env, data, book.(log := book.log + [Login(a, Unknown)]))
    ensures !IsRecorded(book.(log := book.log + [Login(a, Unknown)]), |book.log|)
  {
    hide BookOk, SecretOk, ParseState, Write;
    LogIsAhead(env, book);
    SendKeepsBook(env, ParseState(env.crypto, data).st, book, a);
    SendKeepsSecret(env, ParseState(env.crypto, data).st, book, a);
  }

  lemma SendKeepsInv(env: Env, s: Sys, s': Sys)
    requires Enabled(env, s, Send) && s' == Apply(env, s, Send)
    requires Inv(env, s)
    ensures Inv(env, s')
  {
    hide Core, ParseState, IsOutput, OpOk;
    SendKeepsCore(env, s.data, s.book, s.phase.acct);
  }

  lemma DecideKeepsInv(env: Env, s: Sys, k: string, fate: Fate, s': Sys)
    requires Enabled(env, s, Decide(k, fate)) && s' == Apply(env, s, Decide(k, fate))
    requires ValidEnv(env) && Inv(env, s)
    ensures Inv(env, s') && KeyKept(env, s.data, s'.data)
  {
    hide Core, CollisionFree, ParseState, Write, Changed;
    var HasRead(op, a, n, base, data) := s.phase;
    if s'.version != s.version {
      assert IsOutputWith(env, s.data, op, a, k, s'.data);
      LandingKeepsCore(env, s.data, s.book, op, a, k, s'.data);
    } else if s'.inflight != s.inflight {
      var out := Write(env.crypto, Changed(env.crypto, op, a, BaseState(env.crypto, data, k).value).st);
      assert IsOutputWith(env, data, op, a, k, out);
      assert RequestOk(env, s', Request(base, op, a, out));
    }
  }

  lemma LateArrivalKeepsInv(env: Env, s: Sys, r: Request, s': Sys)
    requires Enabled(env, s, LateArrival(r)) && s' == Apply(env, s, LateArrival(r))
    requires ValidEnv(env) && Inv(env, s)
    ensures Inv(env, s') && KeyKept(env, s.data, s'.data)
  {
    hide Core, CollisionFree, IsOutputWith, ParseState;
    assert RequestOk(env, s, r);
    var k: string :| |k| == KEY_LENGTH && IsOutputWith(env, s.data, r.op, r.acct, k, r.data);
    LandingKeepsCore(env, s.data, s.book, r.op, r.acct, k, r.data);
  }

  lemma LoginsNeedAKey(env: Env, data: SecretData, book: Book)
    requires Core(env, data, book) && |book.log| > 0
    ensures ParseState(env.crypto, data).Good?
  {
  }

  /** Every step of the manager, the API server and the dashboard keeps the
      invariant and the key. */
  lemma StepKeepsInv(env: Env, s: Sys, e: Event, s': Sys)
    requires Enabled(env, s, e) && s' == Apply(env, s, e)
    requires ValidEnv(env) && Inv(env, s)
    ensures Inv(env, s') && KeyKept(env, s.data, s'.data)
  {
    hide Core, CollisionFree, IsOutputWith, ParseState;
    match e
    case Start(_) | ReadFails =>
    case Read =>
      if |s.book.log| > 0 { LoginsNeedAKey(env, s.data, s.book); }
    case Decide(k, fate) => DecideKeepsInv(env, s, k, fate, s');
    case LateArrival(r) => LateArrivalKeepsInv(env, s, r, s');
    case Send => SendKeepsInv(env, s, s');
    case Answer(o) => AnswerKeepsCore(env, s.data, s.book, o);
    case Crash(o) =>
      if s.phase.Sent? {
        AnswerKeepsCore(env, s.data, s.book, o);
      }
  }

  // ----- whole runs -----

  ghost predicate IsRun(env: Env, run: seq<Sys>) {
    && |run| > 0 && Init(env, run[0])
    && forall k :: 0 <= k < |run| - 1 ==> IsStep(env, run[k], run[k + 1])
  }

  ghost predicate IsStep(env: Env, s: Sys, s': Sys) {
    exists e: Event :: Enabled(env, s, e) && s' == Apply(env, s, e)
  }

  lemma InitIsInv(env: Env, s: Sys)
    requires Init(env, s)
    ensures Inv(env, s)
  {
    if ParseState(env.crypto, s.data).Good? {
      var st := ParseState(env.crypto, s.data).st;
      assert env.seed + RefusalMacs(env.crypto, st.key, s.book) == env.seed;
    }
  }

  lemma {:induction false} RunKeepsInv(env: Env, run: seq<Sys>, k: nat)
    requires ValidEnv(env) && IsRun(env, run) && k < |run|
    ensures Inv(env, run[k])
  {
    hide Inv, Init, ValidEnv, Apply, Enabled;
    if k == 0 {
      InitIsInv(env, run[0]);
    } else {
      RunKeepsInv(env, run, k - 1);
      assert IsStep(env, run[k - 1], run[k - 1 + 1]);
      var e: Event :| Enabled(env, run[k - 1], e) && run[k] == Apply(env, run[k - 1], e);
      StepKeepsInv(env, run[k - 1], e, run[k]);
    }
  }

  /** In every run, a login is on its way only while the durable Secret lists its
      account in `pending`; and a login of any age is forgotten by `pending` only
      once its outcome was recorded, as a success or in `refused`. */
  lemma NoLoginIsForgotten(env: Env, run: seq<Sys>, k: nat)
    requires ValidEnv(env) && IsRun(env, run) && k < |run|
    ensures run[k].phase.Armed? || run[k].phase.Sent? ==> IsPending(env, run[k].data, run[k].phase.acct)
    ensures forall i :: 0 <= i < |run[k].book.log| && !IsRecorded(run[k].book, i) ==>
              IsPending(env, run[k].data, run[k].book.log[i].acct)
    ensures forall i :: i in run[k].book.cleared ==> i < |run[k].book.log| && !Bad(run[k].book.log[i].outcome)
    ensures forall i :: i in run[k].book.refusals ==> i < |run[k].book.log| && run[k].book.log[i].outcome == Refused
  {
    hide IsRun, ValidEnv, CollisionFree, ParseState;
    RunKeepsInv(env, run, k);
    var book := run[k].book;
    forall i | 0 <= i < |book.log| && !IsRecorded(book, i)
      ensures IsPending(env, run[k].data, book.log[i].acct)
    {
      assert MacAt(env.crypto, ParseState(env.crypto, run[k].data).st.key, book.log, i)
          == MacOf(env.crypto, ParseState(env.crypto, run[k].data).st.key, book.log[i].acct);
    }
  }

  /** `update` returns without an error: its write was acknowledged, or there was nothing
      to clear. */
  predicate IsKnown(env: Env, s: Sys, fate: Fate, s': Sys) {
    && s.phase.HasRead?
    && ((fate.Acknowledged? && s'.version != s.version) ||
        (ParseState(env.crypto, s.phase.data).Empty? && s.phase.op.Clear?))
  }

  /** What the durable Secret and the book then say. */
  ghost predicate IsWritten(env: Env, s: Sys, op: Op, a: Account) {
    match op
    case Begin => s.phase == Armed(a) && IsPending(env, s.data, a) && !IsRefused(env, s.data, a)
    case Clear(l) => l in s.book.cleared && !IsPending(env, s.data, a)
    case Refuse(l) => l in s.book.refusals && !IsPending(env, s.data, a) && IsRefused(env, s.data, a)
  }

  lemma RefusalIsListed(env: Env, s: Sys, l: nat, a: Account)
    requires Core(env, s.data, s.book) && l + 1 == |s.book.log| && l in s.book.refusals && s.book.log[l].acct == a
    ensures IsRefused(env, s.data, a)
  {
    hide ParseState, IsTail;
    LoginsNeedAKey(env, s.data, s.book);
    LastRefusalIsListed(env, ParseState(env.crypto, s.data).st, s.book, l);
  }

  /** An `update` without an error is one whose change is in the Secret; Begin lets the login
      go exactly then. */
  lemma KnownMeansWritten(env: Env, s: Sys, k: string, fate: Fate, s': Sys)
    requires Enabled(env, s, Decide(k, fate)) && s' == Apply(env, s, Decide(k, fate))
    requires ValidEnv(env) && Inv(env, s)
    ensures IsKnown(env, s, fate, s') ==> IsWritten(env, s', s.phase.op, s.phase.acct)
    ensures s'.phase.Armed? <==> s.phase.op.Begin? && IsKnown(env, s, fate, s')
    ensures IsKnown(env, s, fate, s') ==> s'.phase == Finished(s.phase.op, s.phase.acct, true)
  {
    hide CollisionFree, ParseState, Write, Changed, BookOk, SecretOk, RequestOk;
    var HasRead(op, a, n, base, data) := s.phase;
    DecideKeepsInv(env, s, k, fate, s');
    if fate.Acknowledged? && s'.version != s.version {
      assert IsOutputWith(env, s.data, op, a, k, s'.data);
      RecordMeans(env, s.data, op, a, k, s'.data, a);
      if op.Refuse? {
        RefusalIsListed(env, s', op.login, a);
      }
    }
  }

  /** The refused logins strictly between two logins. */
  ghost function RefusedBetween(log: seq<Login>, i: nat, j: nat): set<nat> {
    set k | i < k < j && k < |log| && log[k].outcome == Refused
  }

  lemma {:induction false} IncreasingIsLarge(s: seq<nat>, n: nat, into: set<nat>)
    requires n <= |s| && forall i, j :: 0 <= i < j < |s| ==> s[i] < s[j]
    requires forall i :: 0 <= i < n ==> s[i] in into
    ensures |into| >= n
  {
    if n > 0 {
      IncreasingIsLarge(s, n - 1, into - {s[n - 1]});
    }
  }

  lemma PushedOutIsLarge(env: Env, book: Book, i: nat, j: nat)
    requires BookOk(env, book) && PushedOut(book, i, j)
    ensures |RefusedBetween(book.log, i, j)| >= MAX_REFUSED
  {
    hide IsRecorded;
    var p: nat :| p + MAX_REFUSED < |book.refusals| && book.refusals[p] == i && book.refusals[p + MAX_REFUSED] < j;
    var later := book.refusals[p + 1..p + 1 + MAX_REFUSED];
    forall q | 0 <= q < MAX_REFUSED
      ensures later[q] in RefusedBetween(book.log, i, j)
    {
      assert later[q] == book.refusals[p + 1 + q] && later[q] in book.refusals;
    }
    IncreasingIsLarge(later, MAX_REFUSED, RefusedBetween(book.log, i, j));
  }

  /** In every run, an account whose login was refused, or whose outcome stayed
      unknown, is not sent again unless at least 64 later logins were refused in
      between. Successful and never-sent logins do not count against it. */
  lemma AtMostOneBadLogin(env: Env, run: seq<Sys>, k: nat, i: nat, j: nat)
    requires ValidEnv(env) && IsRun(env, run) && k < |run|
    requires i < j < |run[k].book.log| && run[k].book.log[i].acct == run[k].book.log[j].acct
    requires Bad(run[k].book.log[i].outcome)
    ensures |RefusedBetween(run[k].book.log, i, j)| >= 64
  {
    hide IsRun, ValidEnv, PhaseOk, RequestOk, ParseState;
    RunKeepsInv(env, run, k);
    assert BookOk(env, run[k].book);
    PushedOutIsLarge(env, run[k].book, i, j);
  }

  /** A step leaves the Secret alone or writes what the gate would write over it. */
  lemma StepWritesOutput(env: Env, s: Sys, e: Event, s': Sys) returns (op: Op, a: Account, k: string)
    requires Enabled(env, s, e) && s' == Apply(env, s, e)
    requires ValidEnv(env) && Inv(env, s)
    ensures s'.data == s.data || (a in env.accounts && |k| == KEY_LENGTH &&
            IsOutputWith(env, s.data, op, a, k, s'.data))
  {
    hide Core, CollisionFree, ParseState, Write, Changed, BaseState;
    op, k := Begin, "";
    a := Account("", "");
    match e
    case Decide(key, fate) =>
      op, a, k := s.phase.op, s.phase.acct, key;
      if s'.version != s.version {
        assert s'.data == Write(env.crypto, Changed(env.crypto, op, a, BaseState(env.crypto, s.data, k).value).st);
      }
    case LateArrival(r) =>
      assert RequestOk(env, s, r);
      op, a := r.op, r.acct;
      k :| |k| == KEY_LENGTH && IsOutputWith(env, s.data, op, a, k, r.data);
    case _ =>
  }

  /** From any Secret: it stays valid if it was and invalid if it was not, keeps one key from
      the first write on, is read back exactly as it was written once the gate has written
      it, and stays tidy if it was. */
  lemma {:induction false} SecretStaysTidy(env: Env, run: seq<Sys>, k: nat, n: nat)
    requires ValidEnv(env) && IsRun(env, run) && k <= n < |run|
    ensures IsNeat(env, run[k].data) ==> IsNeat(env, run[n].data)
    ensures run[n].data == run[k].data ||
            (ParseState(env.crypto, run[n].data).Good? &&
             Write(env.crypto, ParseState(env.crypto, run[n].data).st) == run[n].data)
    ensures ParseState(env.crypto, run[k].data).Corrupt? <==> ParseState(env.crypto, run[n].data).Corrupt?
    ensures KeyKept(env, run[k].data, run[n].data)
  {
    hide ValidEnv, CollisionFree, ParseState, Write, Apply, Enabled, Init, IsNeat, Inv, Changed;
    if k < n {
      SecretStaysTidy(env, run, k, n - 1);
      RunKeepsInv(env, run, n - 1);
      assert IsStep(env, run[n - 1], run[n - 1 + 1]);
      var e: Event :| Enabled(env, run[n - 1], e) && run[n] == Apply(env, run[n - 1], e);
      var op, a, key := StepWritesOutput(env, run[n - 1], e, run[n]);
      if run[n].data != run[n - 1].data {
        LandingIsNeat(env, run[n - 1].data, op, a, key, run[n].data);
      }
    }
  }
}
