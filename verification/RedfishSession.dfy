/** The shared session of `internal/redfish/session.go`: any number of requests on one
    client, each taking the token, sending, dropping a rejected token and trying once
    more, interleaved in any way. What happens under the mutex is one step, the login
    included. Every login that succeeds brings a token never seen before. */
module RedfishSession {
  import opened Text

  type Token = nat

  /** `sessionState`, without the path of the session resource. */
  datatype Shared = Shared(token: Option<Token>, unsupported: bool)

  /** What the session POST comes to. Lost: the BMC made a session, but its answer did
      not arrive or carried no token. */
  datatype LoginAnswer = Granted | Lost | Denied | NoSessionService

  /** Where a request stands in `send`. */
  datatype Phase =
    | Starting
    | Armed(token: Option<Token>, round: nat)  // about to send
    | Refused(rejected: Token)                 // a 401 on the first round
    | Retrying                                 // dropped the token, about to take another
    | Done

  /** The client, the requests, and what happened so far: the next unused token, the
      sessions the BMC made and the answers lost among them, the tokens it rejected,
      those dropped for it, the logouts that ended a session, the sends per request. */
  datatype Client = Client(
    shared: Shared, requests: map<nat, Phase>,
    next: Token, created: nat, lost: nat, rejected: set<Token>, dropped: set<Token>, logouts: nat, sends: map<nat, nat>)

  datatype Event =
    | Begin(id: nat)
    | TakeToken(id: nat, login: LoginAnswer)
    | RoundTrip(id: nat, unauthorized: bool)
    | Drop(id: nat)
    | Logout

  // ----- the critical sections -----

  /** `sessionToken` logs in only when there is no token to share. */
  predicate LogsIn(s: Shared) {
    !s.unsupported && s.token.None?
  }

  function TokenTaken(s: Shared, login: LoginAnswer, unused: Token): Shared {
    if !LogsIn(s) then s
    else match login
      case Granted => s.(token := Some(unused))
      case NoSessionService => s.(unsupported := true)
      case _ => s
  }

  /** `dropToken`. */
  function TokenDropped(s: Shared, token: Token): Shared {
    if s.token == Some(token) then s.(token := None) else s
  }

  ghost predicate Enabled(c: Client, e: Event) {
    match e
    case Begin(id) => id !in c.requests
    case TakeToken(id, _) => id in c.requests && (c.requests[id].Starting? || c.requests[id].Retrying?)
    case RoundTrip(id, _) => id in c.requests && c.requests[id].Armed? && id in c.sends
    case Drop(id) => id in c.requests && c.requests[id].Refused?
    case Logout => true
  }

  function Apply(c: Client, e: Event): Client
    requires Enabled(c, e)
  {
    match e
    case Begin(id) => c.(requests := c.requests[id := Starting], sends := c.sends[id := 0])
    case TakeToken(id, login) =>
      var s := TokenTaken(c.shared, login, c.next);
      var made := LogsIn(c.shared) && (login.Granted? || login.Lost?);
      var failed := LogsIn(c.shared) && (login.Lost? || login.Denied?);
      c.(shared := s,
         requests := c.requests[id := if failed then Done
             else Armed(s.token, if c.requests[id].Starting? then 1 else 2)],
         next := if s.token != c.shared.token then c.next + 1 else c.next,
         created := c.created + if made then 1 else 0,
         lost := c.lost + if made && login.Lost? then 1 else 0)
    case RoundTrip(id, unauthorized) =>
      var Armed(token, round) := c.requests[id];
      c.(requests := c.requests[id := if unauthorized && token.Some? && round == 1 then Refused(token.value) else Done],
         rejected := if unauthorized && token.Some? then c.rejected + {token.value} else c.rejected,
         sends := c.sends[id := c.sends[id] + 1])
    case Drop(id) =>
      var t := c.requests[id].rejected;
      c.(shared := TokenDropped(c.shared, t),
         requests := c.requests[id := Retrying],
         dropped := if c.shared.token == Some(t) then c.dropped + {t} else c.dropped)
    case Logout =>
      c.(shared := c.shared.(token := None), logouts := c.logouts + if c.shared.token.Some? then 1 else 0)
  }

  // ----- the invariant -----

  function Live(s: Shared): nat {
    if s.token.Some? then 1 else 0
  }

  /** How often a request was sent by then. */
  predicate SendsOk(p: Phase, sends: nat) {
    match p
    case Starting => sends == 0
    case Armed(_, round) => sends == if round == 1 then 0 else 1
    case Refused(_) | Retrying => sends == 1
    case Done => sends <= 2
  }

  ghost predicate RequestOk(c: Client, id: nat) {
    && id in c.requests && id in c.sends && SendsOk(c.requests[id], c.sends[id])
    && (c.requests[id].Armed? && c.requests[id].token.None? ==> c.shared.unsupported)
    && (c.requests[id].Refused? ==> c.requests[id].rejected in c.rejected)
    && (c.requests[id].Armed? ==> c.requests[id].round in {1, 2})
    && (c.requests[id].Armed? && c.requests[id].token.Some? ==> c.requests[id].token.value < c.next)
  }

  ghost predicate Inv(c: Client) {
    // every session the client got to know is live, was dropped, or was logged out
    && c.created == c.lost + |c.dropped| + c.logouts + Live(c.shared)
    && c.dropped <= c.rejected
    && (forall t :: t in c.rejected ==> t < c.next)
    && (c.shared.token.Some? ==> c.shared.token.value < c.next && c.shared.token.value !in c.dropped)
    && (c.shared.unsupported ==> c.shared.token.None?)
    && forall id :: id in c.requests ==> RequestOk(c, id)
  }

  ghost predicate Init(c: Client) {
    c == Client(Shared(None, false), map[], 0, 0, 0, {}, {}, 0, map[])
  }

  lemma StepKeepsInv(c: Client, e: Event, c': Client)
    requires Enabled(c, e) && c' == Apply(c, e)
    requires Inv(c)
    ensures Inv(c')
  {
    match e
    case Begin(_) =>
    case TakeToken(_, _) =>
    case RoundTrip(id, _) => assert RequestOk(c, id);
    case Drop(id) =>
      assert RequestOk(c, id);
      assert c.shared.token == Some(c.requests[id].rejected) ==> |c'.dropped| == |c.dropped| + 1;
    case Logout =>
  }

  ghost predicate IsRun(run: seq<Client>, events: seq<Event>) {
    && |run| == |events| + 1 && Init(run[0])
    && forall k :: 0 <= k < |events| ==> Enabled(run[k], events[k]) && run[k + 1] == Apply(run[k], events[k])
  }

  lemma {:induction false} RunKeepsInv(run: seq<Client>, events: seq<Event>, k: nat)
    requires IsRun(run, events) && k < |run|
    ensures Inv(run[k])
  {
    hide Inv, Enabled, Apply;
    if k == 0 {
      InitIsInv(run[0]);
    } else {
      RunKeepsInv(run, events, k - 1);
      StepKeepsInv(run[k - 1], events[k - 1], run[k]);
    }
  }

  lemma InitIsInv(c: Client)
    requires Init(c)
    ensures Inv(c)
  {
  }

  lemma SubsetIsSmaller(a: set<Token>, b: set<Token>)
    requires a <= b
    ensures |a| <= |b|
  {
    assert b == a + (b - a);
  }

  /** Under every interleaving the BMC is asked for no more sessions than one, plus one
      for each distinct token it rejected, one for each logout that ended a session and
      one for each session whose creation it never managed to tell. */
  lemma SessionsAreBounded(run: seq<Client>, events: seq<Event>, k: nat)
    requires IsRun(run, events) && k < |run|
    ensures run[k].created <= 1 + |run[k].rejected| + run[k].logouts + run[k].lost
    ensures forall id :: id in run[k].requests ==> id in run[k].sends && run[k].sends[id] <= 2
  {
    hide IsRun;
    RunKeepsInv(run, events, k);
    SubsetIsSmaller(run[k].dropped, run[k].rejected);
    forall id | id in run[k].requests
      ensures id in run[k].sends && run[k].sends[id] <= 2
    {
      assert RequestOk(run[k], id);
    }
  }

  /** The exact account, of which that bound is the coarse form. In every state of every
      run the sessions made are those whose answer was lost, those whose token was
      dropped, those logged out and the one in hand; a token is dropped only once it was
      rejected. So one plus the rejections plus the logouts is bound enough exactly when
      the answers lost, beyond the first session if none is in hand, are no more than the
      rejected tokens nobody had to drop. */
  lemma SessionsAreAccountedFor(run: seq<Client>, events: seq<Event>, k: nat)
    requires IsRun(run, events) && k < |run|
    ensures var c := run[k];
            && c.created == c.lost + |c.dropped| + c.logouts + Live(c.shared)
            && c.dropped <= c.rejected
            && (c.created <= 1 + |c.rejected| + c.logouts <==>
                c.lost + Live(c.shared) <= 1 + |c.rejected - c.dropped|)
    ensures run[k].lost == 0 ==> run[k].created <= 1 + |run[k].rejected| + run[k].logouts
  {
    hide IsRun;
    RunKeepsInv(run, events, k);
    var c := run[k];
    assert c.rejected == c.dropped + (c.rejected - c.dropped);
  }

  /** Without the last term the bound fails: an answer that is lost leaves a session on
      the BMC and no token here, and the next request makes another. */
  lemma LostAnswersAreSessionsToo()
    ensures exists run: seq<Client>, events: seq<Event> ::
              IsRun(run, events) && run[|run| - 1].created == 2 &&
                  |run[|run| - 1].rejected| + run[|run| - 1].logouts == 0
  {
    var c0 := Client(Shared(None, false), map[], 0, 0, 0, {}, {}, 0, map[]);
    var c1 := Apply(c0, Begin(0));
    var c2 := Apply(c1, TakeToken(0, Lost));
    var c3 := Apply(c2, Begin(1));
    var c4 := Apply(c3, TakeToken(1, Granted));
    var run, events := [c0, c1, c2, c3, c4], [Begin(0), TakeToken(0, Lost), Begin(1), TakeToken(1, Granted)];
    assert IsRun(run, events);
    assert run[|run| - 1] == c4 && c4.created == 2;
  }

  /** The shared token goes exactly by a logout or because that very token was rejected,
      never because an older one was; and it is replaced only once it is gone. */
  lemma TokenGoesOnlyByItsOwnRejection(run: seq<Client>, events: seq<Event>, k: nat)
    requires IsRun(run, events) && k < |events| && run[k].shared.token.Some?
    ensures var t, s' := run[k].shared.token.value, run[k + 1].shared;
            && (s'.token == Some(t) || s'.token.None?)
            && (s'.token.None? <==>
                  || events[k].Logout?
                  || (events[k].Drop? && events[k].id in run[k].requests &&
                      run[k].requests[events[k].id] == Refused(t)))
    ensures forall id, t :: id in run[k].requests && run[k].requests[id] == Refused(t) ==> t in run[k].rejected
  {
    RunKeepsInv(run, events, k);
    forall id, t | id in run[k].requests && run[k].requests[id] == Refused(t)
      ensures t in run[k].rejected
    {
      assert RequestOk(run[k], id);
    }
  }

  lemma RunStep(run: seq<Client>, events: seq<Event>, k: nat)
    requires IsRun(run, events) && k < |events|
    ensures |run| == |events| + 1 && Enabled(run[k], events[k]) && run[k + 1] == Apply(run[k], events[k])
  {
    hide Enabled, Apply, Init;
  }

  /** What a request goes out with. It takes the token that is shared, logging in only if there
      is none and the BMC was not found without sessions; it goes out without a token exactly
      if the BMC was, and fails exactly if it had to log in and got no token. */
  lemma RequestTakesTheSharedToken(run: seq<Client>, events: seq<Event>, k: nat)
    requires IsRun(run, events) && k < |events| && events[k].TakeToken?
    ensures var c, c', id, login := run[k], run[k + 1], events[k].id, events[k].login;
            var logsIn := c.shared.token.None? && !c.shared.unsupported;
            && id in c.requests && id in c'.requests
            && (c'.requests[id].Done? <==> logsIn && (login == Lost || login == Denied))
            && (!c'.requests[id].Done? ==>
                  c'.requests[id] == Armed(c'.shared.token, if c.requests[id].Starting? then 1 else 2))
            && (!logsIn ==> c'.shared == c.shared && c'.created == c.created)
            && (logsIn ==>
                  && c'.created == c.created + (if login == Granted || login == Lost then 1 else 0)
                  && (c'.shared.token.Some? <==> login == Granted)
                  && (c'.shared.unsupported <==> login == NoSessionService))
    ensures forall id :: id in run[k].requests && run[k].requests[id].Armed? && run[k].requests[id].token.None? ==>
              run[k].shared.unsupported
  {
    RunStep(run, events, k);
    RunKeepsInv(run, events, k);
    forall id | id in run[k].requests && run[k].requests[id].Armed? && run[k].requests[id].token.None?
      ensures run[k].shared.unsupported
    {
      assert RequestOk(run[k], id);
    }
  }

  /** A request was sent with the token and answered unauthorized. */
  predicate Rejects(c: Client, e: Event, t: Token) {
    e.RoundTrip? && e.unauthorized && e.id in c.requests && c.requests[e.id].Armed? &&
    c.requests[e.id].token == Some(t)
  }

  lemma StepIsCounted(c: Client, e: Event, t: Token)
    requires Enabled(c, e)
    ensures var c', live := Apply(c, e), c.shared.token.Some?;
            && (t in c'.rejected <==> t in c.rejected || Rejects(c, e, t))
            && c'.logouts == c.logouts + (if e.Logout? && live then 1 else 0)
            && c'.lost == c.lost +
                          (if e.TakeToken? && e.login == Lost && !live && !c.shared.unsupported then 1 else 0)
            && (c'.dropped == c.dropped || (live && e.Drop? && c'.dropped == c.dropped + {c.shared.token.value}))
  {
  }

  /** The tokens the bound counts as rejected are exactly those the BMC answered unauthorized
      to, and the answers lost and the logouts are counted one by one as they happen. */
  lemma {:induction false} RejectedIff(run: seq<Client>, events: seq<Event>, k: nat, t: Token)
    requires IsRun(run, events) && k < |run|
    ensures t in run[k].rejected <==> exists j :: 0 <= j < k && Rejects(run[j], events[j], t)
    ensures k < |events| ==>
              var c, c', e := run[k], run[k + 1], events[k];
              var live := c.shared.token.Some?;
              && c'.logouts == c.logouts + (if e.Logout? && live then 1 else 0)
              && c'.lost == c.lost +
                            (if e.TakeToken? && e.login == Lost && !live && !c.shared.unsupported then 1 else 0)
              && (c'.dropped == c.dropped ||
                  (live && e.Drop? && c'.dropped == c.dropped + {c.shared.token.value}))
  {
    hide Enabled, Apply, Rejects;
    if k < |events| {
      RunStep(run, events, k);
      StepIsCounted(run[k], events[k], t);
    }
    if k > 0 {
      RejectedIff(run, events, k - 1, t);
      RunStep(run, events, k - 1);
      StepIsCounted(run[k - 1], events[k - 1], t);
    }
  }

  /** A request is tried again exactly if it was its first send, it carried a token, and the BMC
      did not accept it. */
  lemma RetriedIff(run: seq<Client>, events: seq<Event>, k: nat)
    requires IsRun(run, events) && k < |events| && events[k].RoundTrip?
    ensures var c, c', id := run[k], run[k + 1], events[k].id;
            && id in c.requests && c.requests[id].Armed? && id in c.sends && id in c'.sends && id in c'.requests
            && c'.sends[id] == c.sends[id] + 1
            && c'.requests[id] == if events[k].unauthorized && c.requests[id].token.Some? && c.sends[id] == 0
                                  then Refused(c.requests[id].token.value) else Done
  {
    RunStep(run, events, k);
    RunKeepsInv(run, events, k);
    assert RequestOk(run[k], events[k].id);
  }

  /** A token once dropped is never shared again, so the second send carries another one. */
  lemma {:induction false} DroppedIsGone(run: seq<Client>, events: seq<Event>, k: nat, m: nat)
    requires IsRun(run, events) && k < m < |run| && k < |events| && events[k].Drop?
    ensures events[k].id in run[k].requests && run[k].requests[events[k].id].Refused?
    ensures var t := run[k].requests[events[k].id].rejected; t < run[m].next && run[m].shared.token != Some(t)
  {
    hide Inv;
    RunStep(run, events, k);
    RunStep(run, events, m - 1);
    if m == k + 1 {
      RejectedIsOld(run, events, k);
    } else {
      DroppedIsGone(run, events, k, m - 1);
    }
  }

  lemma RejectedIsOld(run: seq<Client>, events: seq<Event>, k: nat)
    requires IsRun(run, events) && k < |events| && events[k].Drop? && Enabled(run[k], events[k])
    ensures run[k].requests[events[k].id].rejected < run[k].next
  {
    RunKeepsInv(run, events, k);
    assert RequestOk(run[k], events[k].id);
  }

  // ----- the code of one request -----

  /** What one round of a request meets: the answer to the login, if it comes to one, and
      whether the BMC takes the request for unauthorized. */
  datatype Luck = Luck(login: LoginAnswer, unauthorized: bool)

  /** `send` and the critical sections it goes through, among all the others. */
  class Sender {
    var client: Client
    ghost var run: seq<Client>
    ghost var events: seq<Event>

    ghost predicate Valid()
      reads this
    {
      IsRun(run, events) && client == run[|run| - 1]
    }

    constructor ()
      ensures Valid() && client.requests == map[]
    {
      client := Client(Shared(None, false), map[], 0, 0, 0, {}, {}, 0, map[]);
      run, events := [client], [];
    }

    method Step(e: Event)
      requires Valid() && Enabled(client, e)
      modifies this
      ensures Valid() && client == Apply(old(client), e)
      ensures run == old(run) + [client] && events == old(events) + [e]
    {
      hide Enabled, Apply, Init;
      RunExtends(run, events, e);
      client := Apply(client, e);
      run, events := run + [client], events + [e];
    }

    /** The other requests, and Logout, go on in the meantime. */
    method Interleave(id: nat)
      requires Valid() && id in client.requests && id in client.sends
      modifies this
      ensures Valid() && id in client.requests && client.requests[id] == old(client.requests[id])
      ensures id in client.sends && client.sends[id] == old(client.sends[id])
      ensures old(run) <= run && old(events) <= events
    {
      hide IsRun;
      var steps: nat := *;
      while steps > 0
        invariant Valid() && id in client.requests && client.requests[id] == old(client.requests[id])
        invariant id in client.sends && client.sends[id] == old(client.sends[id])
        invariant old(run) <= run && old(events) <= events
      {
        var other: nat, login: LoginAnswer, flag: bool := *, *, *;
        if other != id && other in client.requests {
          match client.requests[other]
          case Starting | Retrying => Step(TakeToken(other, login));
          case Armed(_, _) => if other in client.sends { Step(RoundTrip(other, flag)); }
          case Refused(_) => Step(Drop(other));
          case Done =>
        } else if other != id {
          Step(Begin(other));
        } else if flag {
          Step(Logout);
        }
        steps := steps - 1;
      }
    }

    /** This request had to log in, and the login failed. */
    ghost predicate LoginFailed(id: nat, from: nat)
      reads this
    {
      exists j ::
        && from <= j < |events| && j < |run| && LogsIn(run[j].shared)
        && (events[j] == TakeToken(id, Lost) || events[j] == TakeToken(id, Denied))
    }

    /** A token this request was sent with was rejected. */
    ghost predicate WasRejected(id: nat, from: nat)
      reads this
    {
      exists j :: from <= j < |run| && id in run[j].requests && run[j].requests[id].Refused? &&
                  run[j].requests[id].rejected in run[j].rejected
    }

    lemma RunIsLonger()
      requires Valid()
      ensures |run| == |events| + 1 && run[|events|] == client
    {
    }

    /** One round of `send`: take the token, and send unless the login fails. */
    method Round(id: nat, luck: Luck)
      requires Valid() && id in client.requests && id in client.sends
      requires client.requests[id].Starting? || client.requests[id].Retrying?
      modifies this
      ensures Valid() && id in client.requests && id in client.sends && old(run) <= run && old(events) <= events
      ensures client.requests[id].Done? ||
              (old(client.requests[id].Starting?) && client.requests[id].Refused? &&
                  client.requests[id].rejected in client.rejected)
      ensures client.sends[id] == old(client.sends[id]) + 1 ||
              (client.sends[id] == old(client.sends[id]) && client.requests[id].Done? && LoginFailed(id, |old(events)|))
      ensures client.sends[id] == old(client.sends[id]) ==> luck.login == Lost || luck.login == Denied
      ensures client.requests[id].Refused? ==> luck.unauthorized
    {
      hide IsRun;
      Interleave(id);
      ghost var at := |events|;
      RunIsLonger();
      Step(TakeToken(id, luck.login));
      assert events[at] == TakeToken(id, luck.login) && run[at] == run[|run| - 2];
      if client.requests[id].Done? {
        return;
      }
      Interleave(id);
      Step(RoundTrip(id, luck.unauthorized));
    }

    /** `send`: one request, sent at least once unless its login failed, and a second
        time, the last, exactly if its own token was rejected and the login for it, if
        there was one, did not fail. */
    method Send(id: nat, first: Luck, second: Luck) returns (refused: bool)
      requires Valid() && id !in client.requests
      modifies this
      ensures Valid() && id in client.requests && client.requests[id].Done? && old(run) <= run
      ensures id in client.sends && client.sends[id] <= 2
      ensures client.sends[id] == 0 ==> LoginFailed(id, |old(events)|)
      ensures client.sends[id] == 2 ==> refused
      ensures client.sends[id] == 0 ==> first.login == Lost || first.login == Denied
      ensures refused ==> first.unauthorized
      ensures refused && client.sends[id] == 1 ==> second.login == Lost || second.login == Denied
      ensures refused ==> WasRejected(id, |old(run)|) && (client.sends[id] == 2 || LoginFailed(id, |old(events)|))
    {
      hide IsRun;
      Step(Begin(id));
      ghost var begun := |events|;
      Round(id, first);
      refused := !client.requests[id].Done?;
      if !refused {
        assert client.sends[id] == 0 ==> LoginFailed(id, begun);
        return;
      }
      ghost var at := |run| - 1;
      assert run[at].requests[id].rejected in run[at].rejected;
      Interleave(id);
      Step(Drop(id));
      Round(id, second);
      assert run[at].requests[id].Refused?;
    }
  }

  lemma RunExtends(run: seq<Client>, events: seq<Event>, e: Event)
    requires IsRun(run, events) && Enabled(run[|run| - 1], e)
    ensures IsRun(run + [Apply(run[|run| - 1], e)], events + [e])
  {
    hide Enabled, Apply, Init;
    var run', events' := run + [Apply(run[|run| - 1], e)], events + [e];
    forall k | 0 <= k < |events'|
      ensures Enabled(run'[k], events'[k]) && run'[k + 1] == Apply(run'[k], events'[k])
    {
      if k < |events| {
        assert run'[k] == run[k] && run'[k + 1] == run[k + 1] && events'[k] == events[k];
      } else {
        assert run'[k] == run[|run| - 1];
      }
    }
  }
}
